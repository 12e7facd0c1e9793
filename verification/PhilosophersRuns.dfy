/** Whole runs of the dining philosophers: exclusion, no lost wake-up, no deadlock, and the exact
    length of every maximal run. */
module PhilosophersRuns {
  import opened Sums
  import opened Runs
  import opened Philosophers

  lemma StepKeepsInv(c: Config, s: State, p: nat)
    requires Inv(c, s) && Enabled(s, p)
    ensures Inv(c, Next(c, s, p))
  {
    var h: nat :| InvWith(c, s, h);
    LockKept(c, s, p, h);
    ExclusionKept(c, s, p);
    var pc := s.phils[p].pc;
    if Tests(pc) {
      LocalKeptByTest(c, s, p, h);
      GrantKeptByTest(c, s, p, h);
      WakeKeptByTest(c, s, p, h);
    } else {
      if pc.Await? { LocalKeptByAwait(c, s, p, h); } else { LocalKept(c, s, p); }
      if Posts(pc) { GrantKeptByPost(c, s, p, h); } else { GrantKept(c, s, p, h); }
      if pc.Finish? { WakeKeptByFinish(c, s, p, h); } else { WakeKept(c, s, p, h); }
    }
    assert InvWith(c, Next(c, s, p), NextHolder(s, p, h));
  }

  // ---------------------------------------------------------------------------------------
  // What the invariant says
  // ---------------------------------------------------------------------------------------

  /** Between passing the private wait and setting `thinking`. */
  ghost predicate AtTable(s: State, p: nat)
    requires p < |s.phils|
  {
    s.phils[p].pc.Eat? || s.phils[p].pc.Finish?
  }

  ghost predicate Exclusion(s: State) {
    forall p, q | 0 <= p < |s.phils| && 0 <= q < |s.phils| && Adjacent(|s.phils|, p, q) ::
      !(AtTable(s, p) && AtTable(s, q))
  }

  /** Whenever the lock is free, a hungry philosopher has an eating neighbour. */
  ghost predicate NoLostWakeUp(s: State)
    requires Shape(s)
  {
    s.lock > 0 ==> forall p | 0 <= p < |s.phils| && s.mood[p].Hungry? :: NeighbourEats(s, p)
  }

  /** Somebody has set `p` eating and not yet posted the private semaphore of `p`. */
  ghost predicate PostPending(s: State, p: nat) {
    exists q :: 0 <= q < |s.phils| && Target(s, q) == p
  }

  /** A private semaphore is 1 exactly while a meal is granted, announced and not taken up, and
      0 otherwise. */
  ghost predicate SemaphoresAreGrants(s: State)
    requires Shape(s)
  {
    forall p | 0 <= p < |s.phils| :: s.ph[p] == One(Served(s, p) && !PostPending(s, p))
  }

  /** At a table of at least two, no philosopher is at the table together with the one seated
      next, counted around the ring. */
  ghost predicate RingExclusion(s: State) {
    var n := |s.phils|;
    n >= 2 ==> forall p, q | 0 <= p < n && 0 <= q < n && q == (p + 1) % n :: !(AtTable(s, p) && AtTable(s, q))
  }

  /** With the lock free, a hungry philosopher has one seated next, either way around the ring,
      who eats. */
  ghost predicate RingWakeUp(s: State)
    requires Shape(s)
  {
    var n := |s.phils|;
    s.lock > 0 ==> forall p | 0 <= p < n && s.mood[p].Hungry? ::
      s.mood[(p + n - 1) % n].Eating? || s.mood[(p + 1) % n].Eating?
  }

  lemma SafeAroundTheRing(s: State)
    requires Shape(s) && Exclusion(s) && NoLostWakeUp(s)
    ensures RingExclusion(s) && RingWakeUp(s)
  {
    var n := |s.phils|;
    forall p, q | 0 <= p < n && 0 <= q < n && n >= 2 && q == (p + 1) % n ensures !(AtTable(s, p) && AtTable(s, q)) {
      NeighboursAreModulo(n, p);
      assert Adjacent(n, p, q);
    }
    forall p | 0 <= p < n && s.lock > 0 && s.mood[p].Hungry?
      ensures s.mood[(p + n - 1) % n].Eating? || s.mood[(p + 1) % n].Eating?
    {
      NeighboursAreModulo(n, p);
    }
  }

  lemma InvIsSafe(c: Config, s: State)
    requires Inv(c, s)
    ensures Exclusion(s) && Shape(s) && NoLostWakeUp(s) && SemaphoresAreGrants(s)
    ensures RingExclusion(s) && RingWakeUp(s)
  {
    var h: nat :| InvWith(c, s, h);
    forall p | 0 <= p < |s.phils| ensures s.ph[p] == One(Served(s, p) && !PostPending(s, p)) {
      assert s.ph[p] + One(Target(s, h) == p) == One(Served(s, p));
      assert forall q | 0 <= q < |s.phils| && Target(s, q) == p :: Holds(s.phils[q].pc);
      assert PostPending(s, p) <==> Target(s, h) == p;
    }
    forall p, q | 0 <= p < |s.phils| && 0 <= q < |s.phils| && Adjacent(|s.phils|, p, q)
      ensures !(AtTable(s, p) && AtTable(s, q))
    {
      assert LocalAt(c, s, p) && LocalAt(c, s, q);
    }
    SafeAroundTheRing(s);
  }

  // ---------------------------------------------------------------------------------------
  // Progress
  // ---------------------------------------------------------------------------------------

  ghost predicate AllDone(s: State) {
    forall p | 0 <= p < |s.phils| :: s.phils[p].pc.Done?
  }

  /** A philosopher who eats in a state where nobody can move could take up the meal. */
  lemma EaterCanMove(c: Config, s: State, p: nat)
    requires InvWith(c, s, |s.phils|) && p < |s.phils| && s.mood[p].Eating?
    ensures Enabled(s, p)
  {
    assert LocalAt(c, s, p) && !Holds(s.phils[p].pc);
    assert s.ph[p] + One(Target(s, |s.phils|) == p) == One(Served(s, p));
  }

  lemma StuckOnlyWhenDone(c: Config, s: State)
    requires Inv(c, s)
    requires forall p: nat :: !Enabled(s, p)
    ensures AllDone(s)
  {
    var h: nat :| InvWith(c, s, h);
    assert h < |s.phils| ==> Enabled(s, h);
    assert InvWith(c, s, |s.phils|);
    forall p | 0 <= p < |s.phils| ensures s.phils[p].pc.Done? {
      assert !Enabled(s, p) && LocalAt(c, s, p);
      if s.phils[p].pc.Await? {
        var n := |s.phils|;
        if s.mood[p].Eating? {
          EaterCanMove(c, s, p);
        } else if s.mood[Pre(n, p)].Eating? {
          EaterCanMove(c, s, Pre(n, p));
        } else {
          EaterCanMove(c, s, Post(n, p));
        }
      }
    }
  }

  // ---------------------------------------------------------------------------------------
  // Length of runs
  // ---------------------------------------------------------------------------------------

  /** Steps of a philosopher other than posts to private semaphores: ten per round. */
  ghost function OwnSteps(p: Philosopher): int {
    10 * p.i + match p.pc
      case Think => 0 case GetHungry => 1 case TestSelf => 2 case PostSelf => 3 case Release => 3
      case Await => 4 case Eat => 5 case Finish => 6 case TestPre => 7 case PostPre => 8
      case TestPost => 8 case PostPost => 9 case Leave => 9 case Done => 0
  }

  ghost function Number(x: nat): int { x }

  /** A post is counted by the semaphore until it is taken up, and by the meal afterwards. */
  ghost function Clock(s: State): int {
    Sum(s.phils, OwnSteps) + Sum(s.ph, Number) + Sum(s.meals, Number)
  }

  lemma OwnStepCounts(c: Config, s: State, p: nat)
    requires Enabled(s, p)
    ensures Sum(Next(c, s, p).phils, OwnSteps) == Sum(s.phils, OwnSteps) + One(!Posts(s.phils[p].pc))
  {
    SumUpdate(s.phils, p, Next(c, s, p).phils[p], OwnSteps);
  }

  lemma PostCounts(c: Config, s: State, p: nat)
    requires Enabled(s, p)
    ensures var s' := Next(c, s, p);
            Sum(s'.ph, Number) + Sum(s'.meals, Number) ==
            Sum(s.ph, Number) + Sum(s.meals, Number) + One(Posts(s.phils[p].pc))
  {
    var s' := Next(c, s, p);
    if s.phils[p].pc.Await? {
      SumUpdate(s.ph, p, s'.ph[p], Number);
      SumUpdate(s.meals, p, s'.meals[p], Number);
    } else if Posts(s.phils[p].pc) {
      var q := Target(s, p);
      SumUpdate(s.ph, q, s'.ph[q], Number);
    }
  }

  lemma ClockCountsSteps(c: Config, s: State, p: nat)
    requires Enabled(s, p)
    ensures Clock(Next(c, s, p)) == Clock(s) + 1
  {
    OwnStepCounts(c, s, p);
    PostCounts(c, s, p);
  }

  lemma ClockOfInit(c: Config)
    ensures Clock(Init(c)) == 0
  {
    SumConstant(Init(c).phils, OwnSteps, 0);
    SumConstant(Init(c).ph, Number, 0);
    SumConstant(Init(c).meals, Number, 0);
  }

  ghost function LooseBound(c: Config): int { (10 * c.loops) * c.n + c.n + c.loops * c.n }

  lemma ClockBounded(c: Config, s: State)
    requires Inv(c, s)
    ensures Clock(s) <= LooseBound(c)
  {
    var h: nat :| InvWith(c, s, h);
    forall p | 0 <= p < |s.phils|
      ensures OwnSteps(s.phils[p]) <= 10 * c.loops && Number(s.ph[p]) <= 1 && Number(s.meals[p]) <= c.loops
    {
      assert LocalAt(c, s, p);
      assert s.ph[p] + One(Target(s, h) == p) == One(Served(s, p));
    }
    SumAtMost(s.phils, OwnSteps, 10 * c.loops);
    SumAtMost(s.ph, Number, 1);
    SumAtMost(s.meals, Number, c.loops);
  }

  ghost function TotalSteps(c: Config): nat { 11 * (c.loops * c.n) }

  lemma ClockWhenDone(c: Config, s: State)
    requires Inv(c, s) && AllDone(s)
    ensures Clock(s) == TotalSteps(c)
    ensures s.lock == 1
    ensures forall p | 0 <= p < |s.phils| :: s.meals[p] == c.loops && s.ph[p] == 0 && s.mood[p].Thinking?
  {
    var h: nat :| InvWith(c, s, h);
    forall p | 0 <= p < |s.phils|
      ensures OwnSteps(s.phils[p]) == 10 * c.loops && s.ph[p] == 0 && s.meals[p] == c.loops && s.mood[p].Thinking?
    {
      assert LocalAt(c, s, p);
      assert s.ph[p] + One(Target(s, h) == p) == One(Served(s, p));
    }
    SumConstant(s.phils, OwnSteps, 10 * c.loops);
    SumConstant(s.ph, Number, 0);
    SumConstant(s.meals, Number, c.loops);
    assert 10 * c.loops * c.n == 10 * (c.loops * c.n);
  }

  // ---------------------------------------------------------------------------------------
  // Theorems about every run
  // ---------------------------------------------------------------------------------------

  lemma ProgramIsInductive(c: Config)
    ensures Inductive(Program(c), (s: State) => Inv(c, s))
    ensures CountsSteps(Program(c), (s: State) => Inv(c, s), Clock)
  {
    InitInv(c);
    forall s: State, p: nat | Inv(c, s) && Enabled(s, p)
      ensures Inv(c, Next(c, s, p)) && Clock(Next(c, s, p)) == Clock(s) + 1
    {
      StepKeepsInv(c, s, p);
      ClockCountsSteps(c, s, p);
    }
  }

  /** For any number of philosophers and rounds, every run that cannot go on has every
      philosopher fed exactly LOOP_NUM times and took exactly eleven steps per meal. */
  lemma EveryMaximalRun(c: Config, sched: seq<nat>)
    requires IsMaximal(Program(c), sched)
    ensures var s := Exec(Program(c), sched);
            && |s.phils| == |s.meals| == c.n
            && AllDone(s)
            && forall p | 0 <= p < c.n :: s.meals[p] == c.loops
    ensures |sched| == TotalSteps(c)
  {
    var s := Exec(Program(c), sched);
    ProgramIsInductive(c);
    InvariantOfRun(Program(c), (s: State) => Inv(c, s), sched);
    ExactLengthOfRun(Program(c), (s: State) => Inv(c, s), Clock, sched);
    ClockOfInit(c);
    forall p: nat ensures !Enabled(s, p) {
      assert !Program(c).enabled(s, p);
    }
    StuckOnlyWhenDone(c, s);
    ClockWhenDone(c, s);
  }

  /** In every run neighbours never eat together, no wake-up is lost and the private semaphores
      are exactly the outstanding grants; no run is longer than eleven steps per meal. */
  lemma EveryRun(c: Config, sched: seq<nat>)
    requires IsRun(Program(c), sched)
    ensures var s := Exec(Program(c), sched);
            Shape(s) && Exclusion(s) && NoLostWakeUp(s) && SemaphoresAreGrants(s)
    ensures var s := Exec(Program(c), sched); Shape(s) && RingExclusion(s) && RingWakeUp(s)
    ensures |sched| <= TotalSteps(c)
  {
    var inv := (s: State) => Inv(c, s);
    ProgramIsInductive(c);
    InvariantOfRun(Program(c), inv, sched);
    InvIsSafe(c, Exec(Program(c), sched));
    forall s: State | inv(s) ensures Clock(s) <= LooseBound(c) {
      ClockBounded(c, s);
    }
    var full := Prolong(Program(c), inv, Clock, LooseBound(c), sched);
    EveryMaximalRun(c, full);
  }
}
