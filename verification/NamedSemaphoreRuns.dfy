/** Whole runs of a named semaphore: initialised once, counted exactly, removed only when unused. */
module NamedSemaphoreRuns {
  import opened Sums
  import opened Runs
  import opened SystemV
  import opened NamedSemaphore

  /** The initial value is added at most once, the flag is 0 or 1, and no `sem_open` has returned
      before the initialisation nor needs more than two `semop` calls. */
  ghost predicate InitialisedOnce(s: State) {
    && |s.initials| <= 1
    && (s.set'.Present? ==> s.set'.cells.ready <= 1)
    && (forall h | 0 <= h < |s.handles| ::
          && (s.handles[h].pc.Open? ==> |s.initials| == 1)
          && (s.handles[h].pc.Opening? ==> s.handles[h].pc.failures <= 1))
  }

  /** The access counter is the number of open handles, all of them in live processes, and each
      process's adjustment is minus its own. */
  ghost predicate ReferenceCounted(s: State) {
    && (s.set'.Present? ==> s.set'.cells.access == Sum(s.handles, IsOpen))
    && (forall h | 0 <= h < |s.handles| && s.handles[h].pc.Open? ::
          s.handles[h].call.pid < |s.procs| && s.procs[s.handles[h].call.pid].alive)
    && (forall p | 0 <= p < |s.procs| :: s.procs[p].adjust.access == -Sum(s.handles, OpenIn(p)))
  }

  /** The value is the initial value plus posts minus waits. */
  ghost predicate ValueConserved(s: State) {
    s.set'.Present? ==> s.set'.cells.value == Total(s.initials) + s.posts - s.waits
  }

  /** A removed set was unlinked and nobody has it open; with a handle open the set exists. */
  ghost predicate RemovedOnlyUnused(s: State) {
    && (s.set'.Removed? ==> s.dropped && !s.named && Sum(s.handles, IsOpen) == 0)
    && (forall h | 0 <= h < |s.handles| && s.handles[h].pc.Open? :: s.set'.Present?)
  }

  lemma InvIsSafe(c: Config, s: State)
    requires Inv(c, s)
    ensures InitialisedOnce(s) && ReferenceCounted(s) && ValueConserved(s) && RemovedOnlyUnused(s)
  {
    forall h | 0 <= h < |s.handles| ensures HandleAt(s, s.handles[h]) && (s.handles[h].pc.Open? ==> s.set'.Present?) {
      if s.handles[h].pc.Open? {
        SumAtLeast(s.handles, h, IsOpen);
      }
    }
  }

  lemma ProgramIsInductive(c: Config)
    requires Valid(c)
    ensures Inductive(Program(c), (s: State) => Inv(c, s))
  {
    InitInv(c);
    forall s: State, t: Step | Inv(c, s) && Enabled(c, s, t) ensures Inv(c, Next(c, s, t)) {
      StepKeepsInv(c, s, t);
    }
  }

  lemma EveryRun(c: Config, sched: seq<Step>)
    requires Valid(c) && IsRun(Program(c), sched)
    ensures Inv(c, Exec(Program(c), sched))
    ensures var s := Exec(Program(c), sched);
            InitialisedOnce(s) && ReferenceCounted(s) && ValueConserved(s) && RemovedOnlyUnused(s)
  {
    ProgramIsInductive(c);
    InvariantOfRun(Program(c), (s: State) => Inv(c, s), sched);
    InvIsSafe(c, Exec(Program(c), sched));
  }

  /** An opener with O_CREAT never sleeps, and its second `semop` call succeeds. */
  lemma CreatorOpensInTwoCalls(c: Config, s: State, h: nat)
    requires Inv(c, s) && h < |s.handles| && s.handles[h].pc.Opening? && s.handles[h].call.creat
    ensures Enabled(c, s, Move(h))
    ensures s.handles[h].pc.failures <= 1
    ensures s.handles[h].pc.failures == 1 ==> Next(c, s, Move(h)).handles[h].pc.Open?
    ensures s.initials == [] ==> Next(c, s, Move(h)).handles[h].pc.Open?
  {
    var x := s.handles[h];
    assert HandleAt(s, x);
    if s.set'.Present? {
      var k, a := s.set'.cells, s.procs[x.call.pid].adjust;
      InitialiseEffect(k, a, x.call.init);
      JoinEffect(k, a, true);
    }
    TryEffect(c, s, h);
  }

  /** Without O_CREAT, opening proceeds exactly when the semaphore has been initialised. */
  lemma JoinerWaitsForInitialisation(c: Config, s: State, h: nat)
    requires Inv(c, s) && h < |s.handles| && s.handles[h].pc.Opening? && !s.handles[h].call.creat
    ensures Enabled(c, s, Move(h)) <==> |s.initials| == 1
    ensures |s.initials| == 1 ==> Next(c, s, Move(h)).handles[h].pc.Open?
  {
    var x := s.handles[h];
    assert HandleAt(s, x);
    JoinEffect(s.set'.cells, s.procs[x.call.pid].adjust, false);
  }
}
