/** Whole runs of the readers and writers: exclusion, what readers read, no deadlock although a
    reader may block on `w_lock` with `r_lock` in its hands, and both locks returned at the end. */
module ReadersWritersRuns {
  import opened Sums
  import opened Runs
  import opened ReadersWriters

  /** A writer in `write_fun` is alone; the count is the number of counted readers. */
  ghost predicate Exclusion(s: State) {
    && (forall w | 0 <= w < |s.writers| && (s.writers[w].pc.Write? || s.writers[w].pc.Show?) ::
          && (forall v | 0 <= v < |s.writers| && v != w :: !s.writers[v].pc.Write? && !s.writers[v].pc.Show?)
          && (forall r | 0 <= r < |s.readers| :: !s.readers[r].pc.Read?))
    && s.count == Sum(s.readers, RCounted)
  }

  /** Whoever is about to read will read the last completed write; a writer about to print
      will print its own value. */
  ghost predicate BoardIsCurrent(s: State) {
    && (forall r | 0 <= r < |s.readers| && s.readers[r].pc.Read? :: s.data == LastWritten(s.completed))
    && (forall w | 0 <= w < |s.writers| && s.writers[w].pc.Show? :: s.data == Board(w))
  }

  lemma InvIsSafe(c: Config, s: State)
    requires Inv(c, s)
    ensures Exclusion(s) && BoardIsCurrent(s)
  {
    forall w | 0 <= w < |s.writers| && (s.writers[w].pc.Write? || s.writers[w].pc.Show?)
      ensures forall v | 0 <= v < |s.writers| && v != w :: WInside(s.writers[v]) == 0
      ensures forall r | 0 <= r < |s.readers| :: RInside(s.readers[r]) == 0
    {
      WriterIsAlone(s, w);
    }
    forall r | 0 <= r < |s.readers| && s.readers[r].pc.Read? ensures s.data == LastWritten(s.completed) {
      ReaderSeesLastWrite(s, r);
    }
  }

  // ---------------------------------------------------------------------------------------
  // Progress
  // ---------------------------------------------------------------------------------------

  ghost predicate AllDone(s: State) {
    && (forall r | 0 <= r < |s.readers| :: s.readers[r].pc.Gone?)
    && (forall w | 0 <= w < |s.writers| :: s.writers[w].pc.Finished?)
  }

  /** The reader that blocks on `w_lock` with `r_lock` in its hands gets it when no writer can move. */
  lemma BlockedFirstReaderIsServed(c: Config, s: State, r: nat)
    requires Inv(c, s) && r < |s.readers| && s.readers[r].pc.TakeBoard?
    requires forall w | 0 <= w < |s.writers| :: WInside(s.writers[w]) == 0
    ensures Enabled(s, R(r))
  {
    OthersInsideIffCounted(s, r);
    SumConstant(s.writers, WInside, 0);
  }

  lemma StuckOnlyWhenDone(c: Config, s: State)
    requires Inv(c, s)
    requires forall t: Thread :: !Enabled(s, t)
    ensures AllDone(s)
  {
    forall w | 0 <= w < |s.writers| ensures WInside(s.writers[w]) == 0 {
      assert !Enabled(s, W(w));
    }
    if s.rLock == 0 {
      var r := SumWitness(s.readers, RHolds);
      assert !Enabled(s, R(r));
      if s.readers[r].pc.TakeBoard? {
        BlockedFirstReaderIsServed(c, s, r);
      }
    }
    forall r | 0 <= r < |s.readers| ensures s.readers[r].pc.Gone? {
      assert !Enabled(s, R(r));
      if s.readers[r].pc.TakeBoard? {
        BlockedFirstReaderIsServed(c, s, r);
      }
    }
    SumConstant(s.readers, RInside, 0);
    SumConstant(s.writers, WInside, 0);
    forall w | 0 <= w < |s.writers| ensures s.writers[w].pc.Finished? {
      assert !Enabled(s, W(w));
    }
  }

  /** Both semaphores are back at 1, every writer wrote once and saw its own value, the board
      shows 101 times the last writer, and every reader got the board as some number of
      completed writes had left it. */
  ghost predicate Settled(c: Config, s: State) {
    && AllDone(s)
    && |s.readers| == c.readers && |s.writers| == c.writers
    && s.rLock == 1 && s.wLock == 1 && s.count == 0
    && s.data == (if s.completed == [] then 0 else 101 * s.completed[|s.completed| - 1])
    && (forall w | 0 <= w < c.writers :: Sum(s.completed, Is(w)) == 1 && s.writers[w].shown == 101 * w)
    && (forall n | 0 <= n < |s.completed| :: s.completed[n] < c.writers)
    && (forall r | 0 <= r < c.readers ::
          && s.readers[r].seen <= |s.completed|
          && s.readers[r].got == LastWritten(s.completed[..s.readers[r].seen]))
  }

  lemma DoneIsSettled(c: Config, s: State)
    requires Inv(c, s) && AllDone(s)
    ensures Settled(c, s)
  {
    SumConstant(s.readers, RHolds, 0);
    SumConstant(s.readers, RCounted, 0);
    SumConstant(s.readers, RInside, 0);
    SumConstant(s.writers, WInside, 0);
  }

  // ---------------------------------------------------------------------------------------
  // Every run
  // ---------------------------------------------------------------------------------------

  ghost function ReaderSteps(x: Reader): int {
    match x.pc
    case Enter => 0 case Count => 1 case First => 2 case TakeBoard => 3 case Unlock => 4 case Read => 5
    case Exit => 6 case Uncount => 7 case Last => 8 case GiveBoard => 9 case Leave => 10 case Gone => 11
  }

  ghost function WriterSteps(x: Writer): int {
    match x.pc
    case Wait => 0 case Write => 1 case Show => 2 case Give => 3 case Finished => 4
  }

  ghost function Clock(s: State): int { Sum(s.readers, ReaderSteps) + Sum(s.writers, WriterSteps) }

  ghost function Bound(c: Config): nat { 11 * c.readers + 4 * c.writers }

  lemma ClockTicks(s: State, t: Thread)
    requires Enabled(s, t)
    ensures Clock(Next(s, t)) > Clock(s)
  {
    match t
    case R(r) => SumUpdate(s.readers, r, Next(s, t).readers[r], ReaderSteps);
    case W(w) => SumUpdate(s.writers, w, Next(s, t).writers[w], WriterSteps);
  }

  lemma ClockBounds(c: Config, s: State)
    requires |s.readers| == c.readers && |s.writers| == c.writers
    ensures 0 <= Clock(s) <= Bound(c)
  {
    SumNonNegative(s.readers, ReaderSteps);
    SumNonNegative(s.writers, WriterSteps);
    SumAtMost(s.readers, ReaderSteps, 11);
    SumAtMost(s.writers, WriterSteps, 4);
  }

  lemma ProgramIsInductive(c: Config)
    ensures Inductive(Program(c), (s: State) => Inv(c, s))
    ensures Ticks(Program(c), (s: State) => Inv(c, s), Clock)
  {
    InitInv(c);
    forall s: State, t: Thread | Inv(c, s) && Enabled(s, t)
      ensures Inv(c, Next(s, t)) && Clock(Next(s, t)) > Clock(s)
    {
      StepKeepsInv(c, s, t);
      ClockTicks(s, t);
    }
  }

  lemma EveryRun(c: Config, sched: seq<Thread>)
    requires IsRun(Program(c), sched)
    ensures Inv(c, Exec(Program(c), sched))
    ensures Exclusion(Exec(Program(c), sched)) && BoardIsCurrent(Exec(Program(c), sched))
    ensures |sched| <= Bound(c)
  {
    ProgramIsInductive(c);
    InvariantOfRun(Program(c), (s: State) => Inv(c, s), sched);
    LengthOfRun(Program(c), (s: State) => Inv(c, s), Clock, sched);
    ClockBounds(c, Init(c));
    ClockBounds(c, Exec(Program(c), sched));
    InvIsSafe(c, Exec(Program(c), sched));
  }

  /** Step `n` of the schedule is the one in which reader `r` reads the board. */
  ghost predicate ReadsAt(c: Config, sched: seq<Thread>, n: nat, r: nat) {
    && n < |sched| && sched[n] == R(r)
    && var s := Exec(Program(c), sched[..n]); r < |s.readers| && s.readers[r].pc.Read?
  }

  /** Reader `r` has read, and got `v`. */
  ghost predicate Holding(s: State, r: nat, v: int) {
    r < |s.readers| && HasRead(s.readers[r]) && s.readers[r].got == v
  }

  lemma ReadTakesBoard(s: State, r: nat)
    requires Enabled(s, R(r)) && s.readers[r].pc.Read?
    ensures Holding(Next(s, R(r)), r, s.data)
  {
  }

  /** Only a reader's own read step makes it one that has read. */
  lemma OnlyReadingReads(s: State, t: Thread, r: nat)
    requires Enabled(s, t) && r < |Next(s, t).readers| && HasRead(Next(s, t).readers[r])
    ensures r < |s.readers| && (HasRead(s.readers[r]) || (t == R(r) && s.readers[r].pc.Read?))
  {
  }

  lemma HoldingKept(s: State, t: Thread, r: nat, v: int)
    requires Holding(s, r, v) && Enabled(s, t)
    ensures Holding(Next(s, t), r, v)
  {
  }

  /** What a reader gets, in every state from its read on, is what the last write completed
      before its read had put there. */
  lemma ReadGetsLastWrite(c: Config, sched: seq<Thread>, n: nat, m: nat, r: nat)
    requires IsRun(Program(c), sched) && ReadsAt(c, sched, n, r) && n < m <= |sched|
    ensures var s := Exec(Program(c), sched[..m]);
            r < |s.readers| && s.readers[r].got == LastWritten(Exec(Program(c), sched[..n]).completed)
  {
    var s := Exec(Program(c), sched[..n]);
    var v := LastWritten(s.completed);
    PrefixIsRun(Program(c), sched, n);
    EveryRun(c, sched[..n]);
    assert Exec(Program(c), sched[..n + 1]) == Next(s, R(r)) by {
      assert sched[..n + 1][..n] == sched[..n];
    }
    ReadTakesBoard(s, r);
    PrefixIsRun(Program(c), sched, m);
    forall s: State, t: Thread | Holding(s, r, v) && Enabled(s, t) ensures Holding(Next(s, t), r, v) {
      HoldingKept(s, t, r, v);
    }
    KeptFromPrefix(Program(c), (s: State) => Holding(s, r, v), sched[..n + 1], sched[..m]);
  }

  /** Whoever has read did so at some step. */
  lemma {:induction false} ReadHappened(c: Config, sched: seq<Thread>, r: nat) returns (n: nat)
    requires IsRun(Program(c), sched)
    requires var s := Exec(Program(c), sched); r < |s.readers| && HasRead(s.readers[r])
    ensures ReadsAt(c, sched, n, r)
    decreases |sched|
  {
    var front := sched[..|sched| - 1];
    var s := Exec(Program(c), front);
    OnlyReadingReads(s, sched[|sched| - 1], r);
    if HasRead(s.readers[r]) {
      n := ReadHappened(c, front, r);
      assert front[..n] == sched[..n];
    } else {
      n := |sched| - 1;
    }
  }

  /** Reader `r` read at some step of the schedule, and holds what the last write completed
      before that step had put on the board. */
  ghost predicate GotLastWrite(c: Config, sched: seq<Thread>, r: nat) {
    var s := Exec(Program(c), sched);
    r < |s.readers| && exists n: nat | ReadsAt(c, sched, n, r) ::
      s.readers[r].got == LastWritten(Exec(Program(c), sched[..n]).completed)
  }

  ghost predicate EveryReaderGotLastWrite(c: Config, sched: seq<Thread>) {
    forall r | 0 <= r < c.readers :: GotLastWrite(c, sched, r)
  }

  lemma GoneReadersGotLastWrite(c: Config, sched: seq<Thread>)
    requires IsRun(Program(c), sched)
    requires var s := Exec(Program(c), sched); |s.readers| == c.readers && AllDone(s)
    ensures EveryReaderGotLastWrite(c, sched)
  {
    forall r | 0 <= r < c.readers ensures GotLastWrite(c, sched, r) {
      var n := ReadHappened(c, sched, r);
      ReadGetsLastWrite(c, sched, n, |sched|, r);
      assert sched[..|sched|] == sched;
    }
  }

  /** What a write puts on the board is 101 times the writer's number. */
  lemma LastWrittenIs101Times(h: seq<nat>)
    ensures LastWritten(h) == if h == [] then 0 else 101 * h[|h| - 1]
  {
  }

  /** For any numbers of readers and writers, every run that cannot go on is settled. */
  lemma EveryMaximalRun(c: Config, sched: seq<Thread>)
    requires IsMaximal(Program(c), sched)
    ensures Settled(c, Exec(Program(c), sched))
    ensures EveryReaderGotLastWrite(c, sched)
  {
    var s := Exec(Program(c), sched);
    EveryRun(c, sched);
    forall t: Thread ensures !Enabled(s, t) {
      assert !Program(c).enabled(s, t);
    }
    StuckOnlyWhenDone(c, s);
    DoneIsSettled(c, s);
    GoneReadersGotLastWrite(c, sched);
  }

  // ---------------------------------------------------------------------------------------
  // Hand-off
  // ---------------------------------------------------------------------------------------

  ghost predicate Stands(s: State, pc0: ReaderPc, pc1: ReaderPc, rLock: nat, wLock: nat, count: int) {
    && |s.readers| >= 2 && s.readers[0].pc == pc0 && s.readers[1].pc == pc1
    && s.rLock == rLock && s.wLock == wLock && s.count == count
  }

  lemma FirstReaderTakesBoard(c: Config) returns (sched: seq<Thread>)
    requires c.readers >= 2
    ensures IsRun(Program(c), sched) && Stands(Exec(Program(c), sched), TakeBoard, Enter, 0, 1, 1)
  {
    sched := [];
    sched := Go(Program(c), sched, R(0));
    sched := Go(Program(c), sched, R(0));
    sched := Go(Program(c), sched, R(0));
  }

  lemma SecondReaderCounts(c: Config, before: seq<Thread>) returns (sched: seq<Thread>)
    requires IsRun(Program(c), before) && Stands(Exec(Program(c), before), Unlock, Enter, 0, 0, 1)
    ensures before <= sched && IsRun(Program(c), sched)
    ensures Stands(Exec(Program(c), sched), Read, First, 0, 0, 2)
  {
    sched := Go(Program(c), before, R(0));
    sched := Go(Program(c), sched, R(1));
    sched := Go(Program(c), sched, R(1));
  }

  lemma SecondReaderEnters(c: Config, before: seq<Thread>) returns (sched: seq<Thread>)
    requires IsRun(Program(c), before) && Stands(Exec(Program(c), before), Unlock, Enter, 0, 0, 1)
    ensures before <= sched && IsRun(Program(c), sched)
    ensures Stands(Exec(Program(c), sched), Read, Read, 1, 0, 2)
  {
    sched := SecondReaderCounts(c, before);
    sched := Go(Program(c), sched, R(1));
    sched := Go(Program(c), sched, R(1));
  }

  lemma FirstReaderUncounts(c: Config, before: seq<Thread>) returns (sched: seq<Thread>)
    requires IsRun(Program(c), before) && Stands(Exec(Program(c), before), Read, Read, 1, 0, 2)
    ensures before <= sched && IsRun(Program(c), sched)
    ensures Stands(Exec(Program(c), sched), Last, Read, 0, 0, 1)
  {
    sched := Go(Program(c), before, R(0));
    sched := Go(Program(c), sched, R(0));
    sched := Go(Program(c), sched, R(0));
  }

  lemma FirstReaderIsNotLast(c: Config, before: seq<Thread>) returns (sched: seq<Thread>)
    requires IsRun(Program(c), before) && Stands(Exec(Program(c), before), Last, Read, 0, 0, 1)
    ensures before <= sched && IsRun(Program(c), sched)
    ensures Stands(Exec(Program(c), sched), Leave, Read, 0, 0, 1)
  {
    sched := Go(Program(c), before, R(0));
  }

  lemma FirstReaderUnlocks(c: Config, before: seq<Thread>) returns (sched: seq<Thread>)
    requires IsRun(Program(c), before) && Stands(Exec(Program(c), before), Leave, Read, 0, 0, 1)
    ensures before <= sched && IsRun(Program(c), sched)
    ensures Stands(Exec(Program(c), sched), Gone, Read, 1, 0, 1)
  {
    sched := Go(Program(c), before, R(0));
  }

  lemma FirstReaderLeaves(c: Config, before: seq<Thread>) returns (sched: seq<Thread>)
    requires IsRun(Program(c), before) && Stands(Exec(Program(c), before), Read, Read, 1, 0, 2)
    ensures before <= sched && IsRun(Program(c), sched)
    ensures Stands(Exec(Program(c), sched), Gone, Read, 1, 0, 1)
  {
    sched := FirstReaderUncounts(c, before);
    sched := FirstReaderIsNotLast(c, sched);
    sched := FirstReaderUnlocks(c, sched);
  }

  lemma SecondReaderIsLast(c: Config, before: seq<Thread>) returns (sched: seq<Thread>)
    requires IsRun(Program(c), before) && Stands(Exec(Program(c), before), Gone, Read, 1, 0, 1)
    ensures before <= sched && IsRun(Program(c), sched)
    ensures Stands(Exec(Program(c), sched), Gone, GiveBoard, 0, 0, 0)
  {
    sched := Go(Program(c), before, R(1));
    sched := Go(Program(c), sched, R(1));
    sched := Go(Program(c), sched, R(1));
    sched := Go(Program(c), sched, R(1));
  }

  lemma SecondReaderIsLeft(c: Config, taking: seq<Thread>) returns (giving: seq<Thread>)
    requires IsRun(Program(c), taking) && Stands(Exec(Program(c), taking), TakeBoard, Enter, 0, 1, 1)
    ensures taking + [R(0)] <= giving && IsRun(Program(c), giving)
    ensures Stands(Exec(Program(c), giving), Gone, GiveBoard, 0, 0, 0)
  {
    var a := Go(Program(c), taking, R(0));
    var b := SecondReaderEnters(c, a);
    var d := FirstReaderLeaves(c, b);
    giving := SecondReaderIsLast(c, d);
  }

  lemma BoardIsGiven(c: Config, giving: seq<Thread>) returns (given: seq<Thread>)
    requires IsRun(Program(c), giving) && Stands(Exec(Program(c), giving), Gone, GiveBoard, 0, 0, 0)
    ensures given == giving + [R(1)] && IsRun(Program(c), given) && Exec(Program(c), given).wLock == 1
  {
    given := Go(Program(c), giving, R(1));
  }

  /** With two or more readers, there is a run in which one reader takes `w_lock` and another,
      the first one gone, gives it back. */
  lemma HandOffHappens(c: Config) returns (taking: seq<Thread>, giving: seq<Thread>)
    requires c.readers >= 2
    ensures taking + [R(0)] <= giving && IsRun(Program(c), giving + [R(1)])
    ensures Stands(Exec(Program(c), taking), TakeBoard, Enter, 0, 1, 1)
    ensures Stands(Exec(Program(c), giving), Gone, GiveBoard, 0, 0, 0)
    ensures Exec(Program(c), giving + [R(1)]).wLock == 1
  {
    taking := FirstReaderTakesBoard(c);
    giving := SecondReaderIsLeft(c, taking);
    var e := BoardIsGiven(c, giving);
  }
}
