/** Dining philosophers with a shared state array under one lock and one private semaphore per
    philosopher (functional/semaphores/sem_philosopher.c). A philosopher who leaves the table
    may grant a neighbour's meal. One step is one semaphore call or one statement on the
    shared state. */
module Philosophers {
  import opened Sums
  import opened Runs

  /** PH_NUM and LOOP_NUM. */
  datatype Config = Config(n: nat, loops: nat)

  datatype Mood = Thinking | Hungry | Eating

  datatype Pc =
    | Think        // sem_wait(&lock)
    | GetHungry    // state = hungry
    | TestSelf     // test(self): check and state = eating
    | PostSelf     // test(self): sem_post(&ph)
    | Release      // sem_post(&lock)
    | Await        // sem_wait(&ph)
    | Eat          // sem_wait(&lock)
    | Finish       // state = thinking
    | TestPre      // test(pre): check and state = eating
    | PostPre      // test(pre): sem_post(&ph)
    | TestPost     // test(post): check and state = eating
    | PostPost     // test(post): sem_post(&ph)
    | Leave        // sem_post(&lock)
    | Done

  datatype Philosopher = Philosopher(pc: Pc, i: nat)

  datatype State = State(mood: seq<Mood>, ph: seq<nat>, lock: nat, phils: seq<Philosopher>, meals: seq<nat>)

  ghost predicate Shape(s: State) {
    |s.mood| == |s.ph| == |s.phils| == |s.meals|
  }

  /** Neighbours around the table. */
  function Pre(n: nat, p: nat): nat
    requires p < n
  {
    if p == 0 then n - 1 else p - 1
  }

  function Post(n: nat, p: nat): nat
    requires p < n
  {
    if p == n - 1 then 0 else p + 1
  }

  /** The two neighbours on a ring: one place back and one place on, modulo `n`. */
  lemma NeighboursAreModulo(n: nat, p: nat)
    requires p < n
    ensures Pre(n, p) == (p + n - 1) % n && Post(n, p) == (p + 1) % n
  {
    if p > 0 {
      assert p + n - 1 == n + (p - 1);
      ModuloOfNext(p - 1, n);
    }
  }

  lemma ModuloOfNext(x: nat, n: nat)
    requires x < n
    ensures (n + x) % n == x
  {
  }

  /** The source takes its indices modulo `n`, which changes none of them. */
  lemma SmallModulo(x: nat, n: nat)
    requires x < n
    ensures x % n == x
  {
  }

  ghost predicate Adjacent(n: nat, p: nat, q: nat)
    requires p < n
  {
    p != q && (q == Pre(n, p) || q == Post(n, p))
  }

  /** The condition under which `test` grants a meal to `p`. */
  ghost predicate MayEat(s: State, p: nat)
    requires Shape(s) && p < |s.phils|
  {
    var n := |s.phils|;
    s.mood[p].Hungry? && !s.mood[Pre(n, p)].Eating? && !s.mood[Post(n, p)].Eating?
  }

  ghost function Start(c: Config, i: nat): Philosopher {
    Philosopher(if i < c.loops then Think else Done, i)
  }

  ghost function Init(c: Config): State {
    State(seq(c.n, _ => Thinking), seq(c.n, _ => 0), 1, seq(c.n, _ => Start(c, 0)), seq(c.n, _ => 0))
  }

  ghost predicate Enabled(s: State, p: nat) {
    && Shape(s)
    && p < |s.phils|
    && match s.phils[p].pc
       case Think => s.lock > 0
       case Eat => s.lock > 0
       case Await => s.ph[p] > 0
       case Done => false
       case _ => true
  }

  ghost function Move(s: State, p: nat, pc: Pc): seq<Philosopher>
    requires p < |s.phils|
  {
    s.phils[p := s.phils[p].(pc := pc)]
  }

  /** `test(q)` run by `p`: to `granted` if the meal is granted, to `refused` otherwise. */
  ghost function Test(s: State, p: nat, q: nat, granted: Pc, refused: Pc): State
    requires Shape(s) && p < |s.phils| && q < |s.phils|
  {
    if MayEat(s, q) then s.(mood := s.mood[q := Eating], phils := Move(s, p, granted))
    else s.(phils := Move(s, p, refused))
  }

  ghost function Grant(s: State, p: nat, q: nat, pc: Pc): State
    requires Shape(s) && p < |s.phils| && q < |s.phils|
  {
    s.(ph := s.ph[q := s.ph[q] + 1], phils := Move(s, p, pc))
  }

  ghost function Next(c: Config, s: State, p: nat): State {
    if !Enabled(s, p) then s
    else
      var n := |s.phils|;
      match s.phils[p].pc
      case Think => s.(lock := s.lock - 1, phils := Move(s, p, GetHungry))
      case GetHungry => s.(mood := s.mood[p := Hungry], phils := Move(s, p, TestSelf))
      case TestSelf => Test(s, p, p, PostSelf, Release)
      case PostSelf => Grant(s, p, p, Release)
      case Release => s.(lock := s.lock + 1, phils := Move(s, p, Await))
      case Await =>
        s.(ph := s.ph[p := s.ph[p] - 1], phils := Move(s, p, Eat), meals := s.meals[p := s.meals[p] + 1])
      case Eat => s.(lock := s.lock - 1, phils := Move(s, p, Finish))
      case Finish => s.(mood := s.mood[p := Thinking], phils := Move(s, p, TestPre))
      case TestPre => Test(s, p, Pre(n, p), PostPre, TestPost)
      case PostPre => Grant(s, p, Pre(n, p), TestPost)
      case TestPost => Test(s, p, Post(n, p), PostPost, Leave)
      case PostPost => Grant(s, p, Post(n, p), Leave)
      case Leave => s.(lock := s.lock + 1, phils := s.phils[p := Start(c, s.phils[p].i + 1)])
  }

  ghost function Program(c: Config): System<State, nat> {
    System(Init(c), (s: State, p: nat) => Enabled(s, p), (s: State, p: nat) => Next(c, s, p))
  }

  // ---------------------------------------------------------------------------------------
  // The invariant, for a given holder `h` of the lock (`h == n` when it is free)
  // ---------------------------------------------------------------------------------------

  ghost predicate Holds(pc: Pc) {
    !pc.Think? && !pc.Await? && !pc.Eat? && !pc.Done?
  }

  ghost predicate LockInv(s: State, h: nat)
    requires Shape(s)
  {
    && h <= |s.phils|
    && s.lock == One(h == |s.phils|)
    && (forall p | 0 <= p < |s.phils| :: Holds(s.phils[p].pc) <==> p == h)
  }

  /** Where a philosopher stands determines the mood, except while the meal is awaited. */
  ghost predicate MoodFits(pc: Pc, mood: Mood) {
    match pc
    case TestSelf => mood.Hungry?
    case PostSelf => mood.Eating?
    case Release => !mood.Thinking?
    case Await => !mood.Thinking?
    case Eat => mood.Eating?
    case Finish => mood.Eating?
    case _ => mood.Thinking?
  }

  ghost predicate HasEaten(pc: Pc) {
    !pc.Think? && !pc.GetHungry? && !pc.TestSelf? && !pc.PostSelf? && !pc.Release? && !pc.Await? && !pc.Done?
  }

  ghost predicate LocalAt(c: Config, s: State, p: nat)
    requires Shape(s) && p < |s.phils|
  {
    && MoodFits(s.phils[p].pc, s.mood[p])
    && s.meals[p] == s.phils[p].i + One(HasEaten(s.phils[p].pc))
    && if s.phils[p].pc.Done? then s.phils[p].i == c.loops else s.phils[p].i < c.loops
  }

  ghost predicate LocalInv(c: Config, s: State)
    requires Shape(s)
  {
    forall p | 0 <= p < |s.phils| :: LocalAt(c, s, p)
  }

  ghost predicate ExclusionInv(s: State)
    requires Shape(s)
  {
    forall p, q | 0 <= p < |s.phils| && 0 <= q < |s.phils| && Adjacent(|s.phils|, p, q) ::
      !(s.mood[p].Eating? && s.mood[q].Eating?)
  }

  /** The philosopher whose private semaphore `h` is about to post; `n` for nobody. */
  ghost function Target(s: State, h: nat): nat
    requires h <= |s.phils|
  {
    var n := |s.phils|;
    if h == n then n
    else match s.phils[h].pc
      case PostSelf => h
      case PostPre => Pre(n, h)
      case PostPost => Post(n, h)
      case _ => n
  }

  /** A meal that is granted and not yet taken up. */
  ghost predicate Served(s: State, p: nat)
    requires Shape(s) && p < |s.phils|
  {
    s.mood[p].Eating? && (s.phils[p].pc.PostSelf? || s.phils[p].pc.Release? || s.phils[p].pc.Await?)
  }

  ghost predicate GrantInv(s: State, h: nat)
    requires Shape(s) && h <= |s.phils|
  {
    forall p | 0 <= p < |s.phils| :: s.ph[p] + One(Target(s, h) == p) == One(Served(s, p))
  }

  ghost predicate NeighbourEats(s: State, p: nat)
    requires Shape(s) && p < |s.phils|
  {
    s.mood[Pre(|s.phils|, p)].Eating? || s.mood[Post(|s.phils|, p)].Eating?
  }

  /** The lock holder is still going to test `p`. */
  ghost predicate ToBeTested(s: State, h: nat, p: nat)
    requires h <= |s.phils|
  {
    h < |s.phils| &&
    var n := |s.phils|;
    match s.phils[h].pc
    case TestSelf => p == h
    case TestPre => p == Pre(n, h) || p == Post(n, h)
    case PostPre => p == Post(n, h)
    case TestPost => p == Post(n, h)
    case _ => false
  }

  /** No wake-up is lost: who is hungry waits for an eating neighbour or is about to be tested. */
  ghost predicate WakeInv(s: State, h: nat)
    requires Shape(s) && h <= |s.phils|
  {
    forall p | 0 <= p < |s.phils| && s.mood[p].Hungry? :: NeighbourEats(s, p) || ToBeTested(s, h, p)
  }

  ghost predicate InvWith(c: Config, s: State, h: nat) {
    && Shape(s) && |s.phils| == c.n
    && LockInv(s, h) && LocalInv(c, s) && ExclusionInv(s) && GrantInv(s, h) && WakeInv(s, h)
  }

  ghost predicate Inv(c: Config, s: State) {
    exists h: nat :: InvWith(c, s, h)
  }

  // ---------------------------------------------------------------------------------------
  // Every step keeps it
  // ---------------------------------------------------------------------------------------

  lemma InitInv(c: Config)
    ensures InvWith(c, Init(c), c.n)
  {
  }

  ghost function NextHolder(s: State, p: nat, h: nat): nat
    requires p < |s.phils|
  {
    match s.phils[p].pc
    case Think => p
    case Eat => p
    case Release => |s.phils|
    case Leave => |s.phils|
    case _ => h
  }

  ghost predicate Tests(pc: Pc) { pc.TestSelf? || pc.TestPre? || pc.TestPost? }
  ghost predicate Posts(pc: Pc) { pc.PostSelf? || pc.PostPre? || pc.PostPost? }

  /** The philosopher whom `p` is testing. */
  ghost function Tested(s: State, p: nat): nat
    requires p < |s.phils|
  {
    if s.phils[p].pc.TestPre? then Pre(|s.phils|, p)
    else if s.phils[p].pc.TestPost? then Post(|s.phils|, p)
    else p
  }

  lemma LockKept(c: Config, s: State, p: nat, h: nat)
    requires Shape(s) && LockInv(s, h) && Enabled(s, p)
    ensures var s' := Next(c, s, p); Shape(s') && |s'.phils| == |s.phils| && LockInv(s', NextHolder(s, p, h))
  {
  }

  lemma LocalKeptByTest(c: Config, s: State, p: nat, h: nat)
    requires Shape(s) && LockInv(s, h) && LocalInv(c, s) && Enabled(s, p) && Tests(s.phils[p].pc)
    ensures Shape(Next(c, s, p)) && LocalInv(c, Next(c, s, p))
  {
    var q, s' := Tested(s, p), Next(c, s, p);
    assert s'.mood == if MayEat(s, q) then s.mood[q := Eating] else s.mood;
    assert s'.phils == Move(s, p, s'.phils[p].pc);
    forall x | 0 <= x < |s.phils| ensures LocalAt(c, s', x) {
      assert LocalAt(c, s, x);
      assert x != p ==> !Holds(s.phils[x].pc);
    }
  }

  /** Passing the private wait means that the meal was granted. */
  lemma LocalKeptByAwait(c: Config, s: State, p: nat, h: nat)
    requires Shape(s) && LockInv(s, h) && LocalInv(c, s) && GrantInv(s, h) && Enabled(s, p) && s.phils[p].pc.Await?
    ensures Shape(Next(c, s, p)) && LocalInv(c, Next(c, s, p))
  {
    assert Served(s, p);
    forall x | 0 <= x < |s.phils| ensures LocalAt(c, Next(c, s, p), x) {
      assert LocalAt(c, s, x);
    }
  }

  lemma LocalKept(c: Config, s: State, p: nat)
    requires Shape(s) && LocalInv(c, s) && Enabled(s, p) && !Tests(s.phils[p].pc) && !s.phils[p].pc.Await?
    ensures Shape(Next(c, s, p)) && LocalInv(c, Next(c, s, p))
  {
    forall x | 0 <= x < |s.phils| ensures LocalAt(c, Next(c, s, p), x) {
      assert LocalAt(c, s, x);
    }
  }

  lemma ExclusionKept(c: Config, s: State, p: nat)
    requires Shape(s) && ExclusionInv(s) && Enabled(s, p)
    ensures Shape(Next(c, s, p)) && ExclusionInv(Next(c, s, p))
  {
    var s' := Next(c, s, p);
    if Tests(s.phils[p].pc) && MayEat(s, Tested(s, p)) {
      assert s'.mood == s.mood[Tested(s, p) := Eating];
    } else {
      assert s'.mood == s.mood || (s'.mood == s.mood[p := s'.mood[p]] && !s'.mood[p].Eating?);
    }
  }

  lemma GrantKeptByTest(c: Config, s: State, p: nat, h: nat)
    requires Shape(s) && LockInv(s, h) && LocalInv(c, s) && GrantInv(s, h) && Enabled(s, p) && Tests(s.phils[p].pc)
    ensures Shape(Next(c, s, p)) && GrantInv(Next(c, s, p), h)
  {
    var q, s' := Tested(s, p), Next(c, s, p);
    assert s'.mood == if MayEat(s, q) then s.mood[q := Eating] else s.mood;
    assert s'.phils == Move(s, p, s'.phils[p].pc);
    assert Target(s', h) == if MayEat(s, q) then q else |s.phils|;
    assert LocalAt(c, s, p) && LocalAt(c, s, q) && (q != p ==> !Holds(s.phils[q].pc));
  }

  lemma GrantKeptByPost(c: Config, s: State, p: nat, h: nat)
    requires Shape(s) && LockInv(s, h) && GrantInv(s, h) && Enabled(s, p) && Posts(s.phils[p].pc)
    ensures Shape(Next(c, s, p)) && GrantInv(Next(c, s, p), h)
  {
  }

  lemma GrantKept(c: Config, s: State, p: nat, h: nat)
    requires Shape(s) && LockInv(s, h) && LocalInv(c, s) && GrantInv(s, h) && Enabled(s, p)
    requires !Tests(s.phils[p].pc) && !Posts(s.phils[p].pc)
    ensures Shape(Next(c, s, p)) && GrantInv(Next(c, s, p), NextHolder(s, p, h))
  {
  }

  /** A test that refuses leaves its philosopher with an eating neighbour. */
  lemma WakeKeptByTest(c: Config, s: State, p: nat, h: nat)
    requires Shape(s) && LockInv(s, h) && WakeInv(s, h) && Enabled(s, p) && Tests(s.phils[p].pc)
    ensures Shape(Next(c, s, p)) && WakeInv(Next(c, s, p), h)
  {
    var q, s' := Tested(s, p), Next(c, s, p);
    assert s'.mood == if MayEat(s, q) then s.mood[q := Eating] else s.mood;
    forall x | 0 <= x < |s.phils| && s'.mood[x].Hungry? ensures NeighbourEats(s', x) || ToBeTested(s', h, x) {
      assert x != q ==> (NeighbourEats(s, x) || ToBeTested(s, h, x));
    }
  }

  lemma WakeKeptByFinish(c: Config, s: State, p: nat, h: nat)
    requires Shape(s) && LockInv(s, h) && WakeInv(s, h) && Enabled(s, p) && s.phils[p].pc.Finish?
    ensures Shape(Next(c, s, p)) && WakeInv(Next(c, s, p), h)
  {
  }

  lemma WakeKept(c: Config, s: State, p: nat, h: nat)
    requires Shape(s) && LockInv(s, h) && LocalInv(c, s) && WakeInv(s, h) && Enabled(s, p)
    requires !Tests(s.phils[p].pc) && !s.phils[p].pc.Finish?
    ensures Shape(Next(c, s, p)) && WakeInv(Next(c, s, p), NextHolder(s, p, h))
  {
    assert LocalAt(c, s, p);
  }
}
