/** Whole runs of the sleeping barber, and exactly when no customer is ever left waiting. */
module BarberRuns {
  import opened Sums
  import opened Runs
  import opened Barber

  ghost predicate CustomersDone(s: State) {
    forall k | 0 <= k < |s.cus| :: s.cus[k].Served? || s.cus[k].Refused?
  }

  ghost function CAwaits(p: CustomerPc): int { One(p.AwaitCut?) }

  /** No thread is inside the lock or between two semaphores. */
  ghost predicate AtRest(s: State) {
    && (s.bar.pc.Fetch? || s.bar.pc.Home?)
    && (forall k | 0 <= k < |s.cus| :: s.cus[k].AwaitCut? || s.cus[k].Served? || s.cus[k].Refused?)
  }

  lemma StuckIsAtRest(c: Config, s: State)
    requires Inv(c, s)
    requires forall t: Thread :: !Enabled(s, t)
    ensures AtRest(s)
  {
    assert !Enabled(s, B);
    if s.lock == 0 && BHolds(s.bar) == 0 {
      var k := SumWitness(s.cus, CHolds);
      assert Enabled(s, C(k));
    }
    forall k | 0 <= k < |s.cus| ensures s.cus[k].AwaitCut? || s.cus[k].Served? || s.cus[k].Refused? {
      assert !Enabled(s, C(k));
    }
  }

  lemma {:induction false} AwaitingAreSeatedNotServed(cus: seq<CustomerPc>)
    requires forall k | 0 <= k < |cus| :: cus[k].AwaitCut? || cus[k].Served? || cus[k].Refused?
    ensures Sum(cus, CSeated) == Sum(cus, CAwaits) + Sum(cus, CServed)
    ensures Sum(cus, CAnnounces) == 0
  {
    if cus != [] {
      AwaitingAreSeatedNotServed(cus[..|cus| - 1]);
    }
  }

  /** In a state without moves, the customers left over are those that still wait, and then the
      barber has gone home; they are as many as were seated beyond the number of rounds. */
  lemma LeftOverOnlyIfBarberIsHome(c: Config, s: State)
    requires Inv(c, s)
    requires forall t: Thread :: !Enabled(s, t)
    ensures CustomersDone(s) || (s.waiting > 0 && s.bar.pc.Home? && Sum(s.cus, CSeated) > c.loops)
    ensures s.lock == 1 && s.barber == 0
    ensures var seated := Sum(s.cus, CSeated);
            && Sum(s.cus, CAwaits) == s.waiting == (if seated > c.loops then seated - c.loops else 0)
            && Sum(s.cus, CServed) == s.bar.i == (if seated > c.loops then c.loops else seated)
    ensures CustomersDone(s) ==>
              s.waiting == 0 && s.customer == 0 && s.barber == 0 && Sum(s.cus, CServed) == s.bar.i
  {
    StuckIsAtRest(c, s);
    AwaitingAreSeatedNotServed(s.cus);
    SumConstant(s.cus, CHolds, 0);
    if CustomersDone(s) {
      SumConstant(s.cus, CAwaits, 0);
    } else {
      var k :| 0 <= k < |s.cus| && s.cus[k].AwaitCut?;
      assert !Enabled(s, C(k)) && !Enabled(s, B);
      SumAtLeast(s.cus, k, CAwaits);
    }
  }

  /** Nobody is left waiting if there are rounds enough, or no chairs at all. */
  ghost predicate EnoughRounds(c: Config) {
    c.customers <= c.loops || c.chairs == 0
  }

  lemma StuckMeansCustomersDone(c: Config, s: State)
    requires Inv(c, s) && EnoughRounds(c)
    requires forall t: Thread :: !Enabled(s, t)
    ensures CustomersDone(s)
  {
    LeftOverOnlyIfBarberIsHome(c, s);
    SumAtMost(s.cus, CSeated, 1);
  }

  // ---------------------------------------------------------------------------------------
  // Every run
  // ---------------------------------------------------------------------------------------

  ghost function CustomerSteps(p: CustomerPc): int {
    match p
    case Arrive => 0 case Look => 1 case Sit => 2 case Announce => 3 case Settle => 4
    case AwaitCut => 5 case TurnAway(_) => 5 case Served => 6 case Refused(_) => 6
  }

  ghost function BarberSteps(b: BarberThread): int {
    7 * b.i + match b.pc
      case Peek => 0 case Unpeek => 1 case Fetch => 2 case Relock => 3
      case Seat => 4 case Unlock => 5 case CallIn => 6 case Home => 0
  }

  ghost function Clock(s: State): int { BarberSteps(s.bar) + Sum(s.cus, CustomerSteps) }

  ghost function Bound(c: Config): nat { 7 * c.loops + 6 * c.customers }

  lemma ClockTicks(c: Config, s: State, t: Thread)
    requires Enabled(s, t)
    ensures Clock(Next(c, s, t)) > Clock(s)
  {
    if t.C? {
      SumUpdate(s.cus, t.k, Next(c, s, t).cus[t.k], CustomerSteps);
    }
  }

  lemma ClockBounds(c: Config, s: State)
    requires ChairInv(c, s)
    ensures 0 <= Clock(s) <= Bound(c)
  {
    SumNonNegative(s.cus, CustomerSteps);
    SumAtMost(s.cus, CustomerSteps, 6);
  }

  lemma ProgramIsInductive(c: Config)
    ensures Inductive(Program(c), (s: State) => Inv(c, s))
    ensures Ticks(Program(c), (s: State) => Inv(c, s), Clock)
    ensures forall s: State :: Inv(c, s) ==> 0 <= Clock(s) <= Bound(c)
  {
    InitInv(c);
    forall s: State, t: Thread | Inv(c, s) && Enabled(s, t)
      ensures Inv(c, Next(c, s, t)) && Clock(Next(c, s, t)) > Clock(s)
    {
      StepKeepsInv(c, s, t);
      ClockTicks(c, s, t);
    }
    forall s: State | Inv(c, s) ensures 0 <= Clock(s) <= Bound(c) {
      ClockBounds(c, s);
    }
  }

  /** The conservation laws, the chair limit and the guard of the barber's decrement, in every
      run for any numbers of chairs, customers and rounds. */
  lemma EveryRun(c: Config, sched: seq<Thread>)
    requires IsRun(Program(c), sched)
    ensures Inv(c, Exec(Program(c), sched))
    ensures Exec(Program(c), sched).bar.pc.Seat? ==> Exec(Program(c), sched).waiting >= 1
    ensures |sched| <= Bound(c)
  {
    ProgramIsInductive(c);
    InvariantOfRun(Program(c), (s: State) => Inv(c, s), sched);
    LengthOfRun(Program(c), (s: State) => Inv(c, s), Clock, sched);
    if Exec(Program(c), sched).bar.pc.Seat? {
      GuardHolds(Exec(Program(c), sched));
    }
  }

  /** Step `n` of the schedule is the one in which customer `k` looks for a chair. */
  ghost predicate LooksAt(c: Config, sched: seq<Thread>, n: nat, k: nat) {
    && n < |sched| && sched[n] == C(k)
    && var s := Exec(Program(c), sched[..n]); k < |s.cus| && s.cus[k].Look?
  }

  ghost predicate SentAway(p: CustomerPc) { p.TurnAway? || p.Refused? }

  /** Only a customer's own look sends it away, and exactly if no chair is free. */
  lemma OnlyLookingSendsAway(c: Config, s: State, t: Thread, k: nat)
    requires ChairInv(c, s) && Enabled(s, t) && k < |s.cus|
    ensures SentAway(Next(c, s, t).cus[k]) <==>
            SentAway(s.cus[k]) || (t == C(k) && s.cus[k].Look? && s.waiting == c.chairs)
  {
  }

  /** Customer `k` looked at some step of the schedule, when every chair was taken. */
  ghost predicate FoundNoChair(c: Config, sched: seq<Thread>, k: nat) {
    exists n: nat | LooksAt(c, sched, n, k) :: Exec(Program(c), sched[..n]).waiting == c.chairs
  }

  /** The last step adds the look that it makes, if it makes one. */
  lemma FoundNoChairGrows(c: Config, sched: seq<Thread>, k: nat)
    requires sched != []
    ensures var m := |sched| - 1;
            FoundNoChair(c, sched, k) <==>
            || FoundNoChair(c, sched[..m], k)
            || (LooksAt(c, sched, m, k) && Exec(Program(c), sched[..m]).waiting == c.chairs)
  {
    var m := |sched| - 1;
    var front := sched[..m];
    assert forall n: nat | n < m :: front[..n] == sched[..n];
    if FoundNoChair(c, sched, k) {
      var n: nat :| LooksAt(c, sched, n, k) && Exec(Program(c), sched[..n]).waiting == c.chairs;
      assert n < m ==> LooksAt(c, front, n, k);
    }
    if FoundNoChair(c, front, k) {
      var n: nat :| LooksAt(c, front, n, k) && Exec(Program(c), front[..n]).waiting == c.chairs;
      assert LooksAt(c, sched, n, k);
    }
  }

  lemma RunKeepsChairs(c: Config, sched: seq<Thread>)
    requires IsRun(Program(c), sched)
    ensures ChairInv(c, Exec(Program(c), sched))
  {
    EveryRun(c, sched);
  }

  /** Whoever is sent away found every chair taken, and whoever found that is sent away. */
  lemma {:induction false} SentAwayIff(c: Config, sched: seq<Thread>, k: nat)
    requires IsRun(Program(c), sched) && k < c.customers
    ensures var s := Exec(Program(c), sched);
            k < |s.cus| && (SentAway(s.cus[k]) <==> FoundNoChair(c, sched, k))
    decreases |sched|
  {
    RunKeepsChairs(c, sched);
    if sched != [] {
      var m := |sched| - 1;
      var front := sched[..m];
      RunKeepsChairs(c, front);
      SentAwayIff(c, front, k);
      OnlyLookingSendsAway(c, Exec(Program(c), front), sched[m], k);
      FoundNoChairGrows(c, sched, k);
    }
  }

  /** Everybody was served, or refused when all chairs were taken; nobody waits; the barber gave
      as many haircuts as there are served customers. */
  ghost predicate Closed(c: Config, s: State) {
    && |s.cus| == c.customers
    && (forall k | 0 <= k < c.customers :: s.cus[k].Served? || s.cus[k] == Refused(c.chairs))
    && s.waiting == 0 && s.customer == 0 && s.barber == 0 && s.lock == 1
    && Sum(s.cus, CServed) == s.bar.i
  }

  lemma EveryMaximalRun(c: Config, sched: seq<Thread>)
    requires EnoughRounds(c) && IsMaximal(Program(c), sched)
    ensures Closed(c, Exec(Program(c), sched))
    ensures forall k | 0 <= k < c.customers ::
              !Exec(Program(c), sched).cus[k].Served? <==> FoundNoChair(c, sched, k)
  {
    var s := Exec(Program(c), sched);
    EveryRun(c, sched);
    forall t: Thread ensures !Enabled(s, t) {
      assert !Program(c).enabled(s, t);
    }
    StuckMeansCustomersDone(c, s);
    LeftOverOnlyIfBarberIsHome(c, s);
    forall k | 0 <= k < c.customers ensures !s.cus[k].Served? <==> FoundNoChair(c, sched, k) {
      SentAwayIff(c, sched, k);
    }
  }

  // ---------------------------------------------------------------------------------------
  // Without enough rounds, some run leaves a customer waiting for ever
  // ---------------------------------------------------------------------------------------

  /** The first `n` customers are served, the others have not arrived, nothing is pending. */
  ghost predicate Idle(c: Config, s: State, n: nat) {
    && n <= |s.cus| == c.customers
    && s.lock == 1 && s.customer == 0 && s.barber == 0 && s.waiting == 0
    && s.bar == Start(c, n)
    && (forall k | 0 <= k < n :: s.cus[k].Served?)
    && (forall k | n <= k < |s.cus| :: s.cus[k].Arrive?)
  }

  lemma CustomerSitsDown(c: Config, before: seq<Thread>, n: nat) returns (sched: seq<Thread>)
    requires c.chairs > 0 && IsRun(Program(c), before) && n < c.customers
    requires Idle(c, Exec(Program(c), before), n)
    ensures IsRun(Program(c), sched)
    ensures var s := Exec(Program(c), before);
            Exec(Program(c), sched) == s.(customer := 1, waiting := 1, cus := s.cus[n := AwaitCut])
  {
    sched := Go(Program(c), before, C(n));
    sched := Go(Program(c), sched, C(n));
    sched := Go(Program(c), sched, C(n));
    sched := Go(Program(c), sched, C(n));
    sched := Go(Program(c), sched, C(n));
  }

  lemma BarberFetches(c: Config, before: seq<Thread>, s: State) returns (sched: seq<Thread>)
    requires IsRun(Program(c), before) && Exec(Program(c), before) == s
    requires s.bar.pc.Peek? && s.lock == 1 && s.customer == 1
    ensures IsRun(Program(c), sched)
    ensures Exec(Program(c), sched) == s.(customer := 0, lock := 0, bar := s.bar.(pc := Seat))
  {
    sched := Go(Program(c), before, B);
    sched := Go(Program(c), sched, B);
    sched := Go(Program(c), sched, B);
    sched := Go(Program(c), sched, B);
  }

  lemma BarberServes(c: Config, before: seq<Thread>, s: State) returns (sched: seq<Thread>)
    requires IsRun(Program(c), before) && Exec(Program(c), before) == s
    requires s.bar.pc.Seat? && s.lock == 0 && s.waiting == 1 && s.barber == 0
    ensures IsRun(Program(c), sched)
    ensures Exec(Program(c), sched) == s.(waiting := 0, lock := 1, barber := 1, bar := Start(c, s.bar.i + 1))
  {
    sched := Go(Program(c), before, B);
    sched := Go(Program(c), sched, B);
    sched := Go(Program(c), sched, B);
  }

  lemma CustomerLeaves(c: Config, before: seq<Thread>, s: State, n: nat) returns (sched: seq<Thread>)
    requires IsRun(Program(c), before) && Exec(Program(c), before) == s
    requires n < |s.cus| && s.cus[n].AwaitCut? && s.barber == 1
    ensures IsRun(Program(c), sched) && Exec(Program(c), sched) == s.(barber := 0, cus := s.cus[n := Served])
  {
    sched := Go(Program(c), before, C(n));
  }

  lemma ServeOne(c: Config, before: seq<Thread>, n: nat) returns (sched: seq<Thread>)
    requires c.chairs > 0 && IsRun(Program(c), before) && n < c.customers && n < c.loops
    requires Idle(c, Exec(Program(c), before), n)
    ensures IsRun(Program(c), sched)
    ensures var s := Exec(Program(c), before);
            Exec(Program(c), sched) == s.(bar := Start(c, n + 1), cus := s.cus[n := Served])
  {
    var s := Exec(Program(c), before);
    sched := CustomerSitsDown(c, before, n);
    var s1 := s.(customer := 1, waiting := 1, cus := s.cus[n := AwaitCut]);
    sched := BarberFetches(c, sched, s1);
    var s2 := s1.(customer := 0, lock := 0, bar := s1.bar.(pc := Seat));
    sched := BarberServes(c, sched, s2);
    sched := CustomerLeaves(c, sched, s2.(waiting := 0, lock := 1, barber := 1, bar := Start(c, n + 1)), n);
  }

  lemma {:induction false} ServeInTurn(c: Config, n: nat) returns (sched: seq<Thread>)
    requires c.chairs > 0 && n <= c.loops && n <= c.customers
    ensures IsRun(Program(c), sched) && Idle(c, Exec(Program(c), sched), n)
  {
    if n == 0 {
      sched := [];
    } else {
      sched := ServeInTurn(c, n - 1);
      sched := ServeOne(c, sched, n - 1);
    }
  }

  /** Who sat down never stands up unserved. */
  lemma SeatedNeverDecreases(c: Config, s: State, t: Thread)
    requires Enabled(s, t)
    ensures Sum(Next(c, s, t).cus, CSeated) >= Sum(s.cus, CSeated)
  {
    if t.C? {
      SumUpdate(s.cus, t.k, Next(c, s, t).cus[t.k], CSeated);
    }
  }

  lemma TooManySeated(c: Config, s: State)
    requires Inv(c, s) && Sum(s.cus, CSeated) > c.loops
    ensures !CustomersDone(s)
  {
    SumNonNegative(s.cus, CServed);
    if CustomersDone(s) {
      AwaitingAreSeatedNotServed(s.cus);
      SumConstant(s.cus, CAwaits, 0);
    }
  }

  lemma CustomerIsStranded(c: Config) returns (sched: seq<Thread>)
    requires !EnoughRounds(c)
    ensures IsMaximal(Program(c), sched) && !CustomersDone(Exec(Program(c), sched))
  {
    var served := ServeInTurn(c, c.loops);
    var seated := CustomerSitsDown(c, served, c.loops);
    var tooMany := (s: State) => Sum(s.cus, CSeated) > c.loops;
    EveryRun(c, seated);
    assert tooMany(Exec(Program(c), seated));
    ProgramIsInductive(c);
    sched := Prolong(Program(c), (s: State) => Inv(c, s), Clock, Bound(c), seated);
    forall s: State, t: Thread | tooMany(s) && Enabled(s, t) ensures tooMany(Next(c, s, t)) {
      SeatedNeverDecreases(c, s, t);
    }
    KeptFromPrefix(Program(c), tooMany, seated, sched);
    EveryRun(c, sched);
    TooManySeated(c, Exec(Program(c), sched));
  }

  /** Exactly when every maximal run finishes every customer thread. */
  lemma NobodyStrandedIffEnoughRounds(c: Config)
    ensures (forall sched | IsMaximal(Program(c), sched) :: CustomersDone(Exec(Program(c), sched)))
            <==> EnoughRounds(c)
  {
    if EnoughRounds(c) {
      forall sched | IsMaximal(Program(c), sched) ensures CustomersDone(Exec(Program(c), sched)) {
        EveryMaximalRun(c, sched);
      }
    } else {
      var sched := CustomerIsStranded(c);
    }
  }
}
