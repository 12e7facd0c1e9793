/** The deletion of a named semaphore: who removes an unlinked set, which exits of processes leave
    it behind for ever, and when `sem_unlink` itself never returns. */
module NamedSemaphoreDeletion {
  import opened Sums
  import opened Runs
  import opened SystemV
  import opened NamedSemaphore
  import opened NamedSemaphoreRuns

  // ---------------------------------------------------------------------------------------
  // Unless a process exits half way
  // ---------------------------------------------------------------------------------------

  ghost function IsCreating(x: Handle): int { One(x.pc.Opening? && x.call.creat) }

  /** A set that is not initialised has an opener that is about to initialise it. */
  ghost predicate HasCreator(s: State) {
    s.set'.Present? && s.initials == [] ==> Sum(s.handles, IsCreating) > 0
  }

  /** What holds unless a process exited half way; an unlinker that has gone has then dropped the
      flag of the set whose name it unlinked. */
  ghost predicate CleanInv(s: State) {
    s.unclean == 0 ==> HasCreator(s) && (s.unlinker.UDead? && !s.named ==> s.dropped)
  }

  lemma {:induction false} KillKeepsCreators(hs: seq<Handle>, p: nat)
    requires forall h | 0 <= h < |hs| && hs[h].call.pid == p :: !hs[h].pc.Opening?
    ensures Sum(Kill(hs, p), IsCreating) == Sum(hs, IsCreating)
  {
    if hs != [] {
      var n := |hs| - 1;
      assert Kill(hs, p)[..n] == Kill(hs[..n], p);
      KillKeepsCreators(hs[..n], p);
    }
  }

  lemma OpeningKeepsCreator(c: Config, s: State, h: nat)
    requires Inv(c, s) && HasCreator(s) && Enabled(c, s, Move(h))
    requires s.handles[h].pc.Start? || s.handles[h].pc.Opening?
    ensures HasCreator(Next(c, s, Move(h)))
  {
    var s' := Next(c, s, Move(h));
    SumUpdate(s.handles, h, s'.handles[h], IsCreating);
    SumAtLeast(s.handles, h, IsCreating);
    assert HandleAt(s, s.handles[h]);
    if s.handles[h].pc.Start? {
      GetEffect(s, h);
    } else {
      TryEffect(c, s, h);
    }
  }

  lemma ClosingKeepsCreator(c: Config, s: State, h: nat)
    requires Inv(c, s) && HasCreator(s) && Enabled(c, s, Move(h))
    requires !s.handles[h].pc.Start? && !s.handles[h].pc.Opening?
    ensures HasCreator(Next(c, s, Move(h)))
  {
    var s' := Next(c, s, Move(h));
    if s.handles[h].pc.Open? {
      CloseEffect(c, s, h);
    }
    SumUpdate(s.handles, h, s'.handles[h], IsCreating);
  }

  lemma MoveKeepsCreator(c: Config, s: State, h: nat)
    requires Inv(c, s) && HasCreator(s) && Enabled(c, s, Move(h))
    ensures HasCreator(Next(c, s, Move(h)))
  {
    if s.handles[h].pc.Start? || s.handles[h].pc.Opening? {
      OpeningKeepsCreator(c, s, h);
    } else {
      ClosingKeepsCreator(c, s, h);
    }
  }

  /** A step of a handle is no step of the unlinker. */
  lemma MoveKeepsUnlinker(c: Config, s: State, h: nat)
    requires Possible(c, s, Move(h))
    ensures var s' := Next(c, s, Move(h));
            && s'.unlinker == s.unlinker && s'.named == s.named && s'.dropped == s.dropped && s'.unclean == s.unclean
            && |s'.handles| == |s.handles|
            && (forall g | 0 <= g < |s.handles| :: s'.handles[g].call == s.handles[g].call)
  {
  }

  lemma StepKeepsClean(c: Config, s: State, t: Step)
    requires Inv(c, s) && CleanInv(s) && Enabled(c, s, t)
    ensures CleanInv(Next(c, s, t))
  {
    match t
    case Move(h) =>
      MoveKeepsUnlinker(c, s, h);
      if s.unclean == 0 {
        MoveKeepsCreator(c, s, h);
      }
    case Unlink =>
      if s.unlinker.UDrop? {
        DropEffect(c, s);
      }
    case Exit(p) =>
      if ExitsCleanly(c, s, p) {
        KillKeepsCreators(s.handles, p);
      }
    case _ =>
      CloseNeverSleeps(c, s, t.h);
      ValueEffect(s, t.h, t);
  }

  lemma CleanOfRun(c: Config, sched: seq<Step>)
    requires Valid(c) && IsRun(Program(c), sched)
    ensures Inv(c, Exec(Program(c), sched)) && CleanInv(Exec(Program(c), sched))
  {
    var inv := (s: State) => Inv(c, s) && CleanInv(s);
    InitInv(c);
    forall s: State, t: Step | inv(s) && Enabled(c, s, t) ensures inv(Next(c, s, t)) {
      StepKeepsInv(c, s, t);
      StepKeepsClean(c, s, t);
    }
    InvariantOfRun(Program(c), inv, sched);
  }

  /** The blocking `semop` of `sem_unlink` gets through exactly if the set is initialised. */
  lemma DropProceedsIffInitialised(c: Config, s: State)
    requires CellInv(s) && UnlinkInv(c, s) && s.unlinker.UDrop?
    ensures Enabled(c, s, Unlink) <==> |s.initials| == 1
  {
    var k, a := s.set'.cells, s.procs[c.unlinkPid].adjust;
    SingleEffects(k, a);
    assert Call(s, c.unlinkPid, DROP_OPS) == SemOp(k, a, DROP_OPS) && k.ready == |s.initials|;
  }

  /** Without the name nobody is opening. */
  lemma NobodyCreatesUnnamed(s: State)
    requires HandleInv(s) && !s.named
    ensures Sum(s.handles, IsCreating) == 0
  {
    forall h | 0 <= h < |s.handles| ensures IsCreating(s.handles[h]) == 0 {
      assert HandleAt(s, s.handles[h]);
    }
    SumConstant(s.handles, IsCreating, 0);
  }

  /** No handle is open or being closed, and `sem_unlink` has returned or not yet unlinked. */
  ghost predicate AtRest(s: State) {
    && !s.unlinker.UDrop? && !s.unlinker.UCheck? && !s.unlinker.URemove?
    && forall h | 0 <= h < |s.handles| :: !Attends(s.handles[h])
  }

  /** The handle has yet to leave the set. */
  ghost predicate Attends(x: Handle) {
    x.pc.Open? || x.pc.Closing? || x.pc.Removing?
  }

  lemma NobodyAttends(hs: seq<Handle>)
    requires forall h | 0 <= h < |hs| :: !Attends(hs[h])
    ensures Sum(hs, IsOpen) == 0 && Sum(hs, IsLeaving) == 0
  {
    SumConstant(hs, IsOpen, 0);
    SumConstant(hs, IsLeaving, 0);
  }

  /** Unless a process exited half way, `sem_unlink` never hangs, and the unlinker or the last
      closer does remove the set. */
  lemma UnlinkedSetIsRemoved(c: Config, s: State)
    requires Inv(c, s) && CleanInv(s) && s.unclean == 0
    ensures s.unlinker.UDrop? ==> Enabled(c, s, Unlink)
    ensures AtRest(s) ==> (s.set'.Removed? <==> !s.named)
  {
    if s.unlinker.UDrop? {
      DropProceedsIffInitialised(c, s);
      NobodyCreatesUnnamed(s);
    }
    if AtRest(s) {
      NobodyAttends(s.handles);
    }
  }

  // ---------------------------------------------------------------------------------------
  // Which exits leave the set behind
  // ---------------------------------------------------------------------------------------

  /** Somebody will still look whether an unlinked set is unused. */
  ghost predicate Attended(s: State) {
    s.unlinker.UCheck? || s.unlinker.URemove? || exists h :: 0 <= h < |s.handles| && Attends(s.handles[h])
  }

  /** The name is gone and nobody is left who would remove the set: either nobody looks any more,
      or the flag was never dropped and never will be. */
  ghost predicate Abandoned(s: State) {
    !s.named && s.set'.Present? && if s.dropped then !Attended(s) else s.unlinker.UDead?
  }

  /** The exits that do it: of the unlinker between unlinking the name and dropping the flag; and
      after that, of the process that has all that is still to look at the set. */
  ghost predicate Abandons(c: Config, s: State, p: nat) {
    && !s.named && s.set'.Present?
    && if s.dropped then
         && Attended(s)
         && (s.unlinker.UCheck? || s.unlinker.URemove? ==> c.unlinkPid == p)
         && (forall h | 0 <= h < |s.handles| && Attends(s.handles[h]) :: s.handles[h].call.pid == p)
       else s.unlinker.UDrop? && c.unlinkPid == p
  }

  lemma ExitAbandonsIff(c: Config, s: State, p: nat)
    requires Inv(c, s) && p < |s.procs| && !Abandoned(s)
    ensures Abandoned(ExitNext(c, s, p)) <==> Abandons(c, s, p)
  {
    var s' := ExitNext(c, s, p);
    forall h | 0 <= h < |s.handles|
      ensures Attends(s'.handles[h]) <==> Attends(s.handles[h]) && s.handles[h].call.pid != p
    {
    }
    if s.dropped && !Abandons(c, s, p) && Attended(s) {
      if h :| 0 <= h < |s.handles| && Attends(s.handles[h]) && s.handles[h].call.pid != p {
        assert Attends(s'.handles[h]);
      }
    }
  }

  lemma MoveDoesNotAbandon(c: Config, s: State, h: nat)
    requires Inv(c, s) && Enabled(c, s, Move(h)) && !Abandoned(s)
    ensures !Abandoned(Next(c, s, Move(h)))
  {
    var s' := Next(c, s, Move(h));
    assert HandleAt(s, s.handles[h]);
    if !s.named {
      if s.handles[h].pc.Open? {
        CloseEffect(c, s, h);
        assert Attends(s'.handles[h]);
      } else if s.handles[h].pc.Closing? {
        LastCheck(c, s, h);
        if s'.handles[h].pc.Removing? {
          assert Attends(s'.handles[h]);
        } else if s.dropped && s.set'.Present? {
          var g := SumWitness(s.handles, IsOpen);
          assert Attends(s'.handles[g]);
        }
      }
    } else {
      MoveKeepsUnlinker(c, s, h);
    }
  }

  lemma UnlinkDoesNotAbandon(c: Config, s: State)
    requires Inv(c, s) && Enabled(c, s, Unlink) && !Abandoned(s)
    ensures !Abandoned(Next(c, s, Unlink))
  {
    if s.unlinker.UDrop? {
      DropEffect(c, s);
    } else if s.unlinker.UCheck? {
      UnusedCheck(c, s);
      if s.set'.Present? && Sum(s.handles, IsOpen) != 0 {
        var g := SumWitness(s.handles, IsOpen);
        assert Attends(Next(c, s, Unlink).handles[g]);
      }
    }
  }

  /** Only the exits named by `Abandons` abandon the set. */
  lemma StepAbandonsIff(c: Config, s: State, t: Step)
    requires Inv(c, s) && Enabled(c, s, t) && !Abandoned(s)
    ensures Abandoned(Next(c, s, t)) <==> t.Exit? && Abandons(c, s, t.p)
  {
    match t
    case Move(h) => MoveDoesNotAbandon(c, s, h);
    case Unlink => UnlinkDoesNotAbandon(c, s);
    case Exit(p) => ExitAbandonsIff(c, s, p);
    case _ =>
      CloseNeverSleeps(c, s, t.h);
      ValueEffect(s, t.h, t);
      assert Attends(s.handles[t.h]);
  }

  /** Nothing brings it back. */
  lemma AbandonedStays(c: Config, s: State, t: Step)
    requires Inv(c, s) && Enabled(c, s, t) && Abandoned(s)
    ensures Abandoned(Next(c, s, t))
  {
    var s' := Next(c, s, t);
    match t
    case Move(h) =>
      assert HandleAt(s, s.handles[h]);
      if s.handles[h].pc.Open? {
        CloseEffect(c, s, h);
      } else if s.handles[h].pc.Closing? {
        LastCheck(c, s, h);
      }
    case Unlink =>
    case Exit(p) =>
      forall h | 0 <= h < |s.handles| && Attends(s'.handles[h]) ensures Attends(s.handles[h]) {
      }
    case _ =>
      CloseNeverSleeps(c, s, t.h);
      ValueEffect(s, t.h, t);
  }

  /** Step `n` of the schedule is an exit that abandons the set. */
  ghost predicate AbandonsAt(c: Config, sched: seq<Step>, n: nat) {
    n < |sched| && sched[n].Exit? && Abandons(c, Exec(Program(c), sched[..n]), sched[n].p)
  }

  lemma AbandonsAtPrefix(c: Config, sched: seq<Step>, last: nat)
    requires |sched| == last + 1
    ensures (exists n: nat :: AbandonsAt(c, sched, n)) <==>
            (exists n: nat :: AbandonsAt(c, sched[..last], n)) || AbandonsAt(c, sched, last)
  {
    forall n: nat | n < last ensures AbandonsAt(c, sched, n) <==> AbandonsAt(c, sched[..last], n) {
      assert sched[..last][..n] == sched[..n] && sched[..last][n] == sched[n];
    }
  }

  /** In every run, the set is abandoned if and only if the run has such an exit. */
  lemma {:induction false} RunAbandonsIff(c: Config, sched: seq<Step>)
    requires Valid(c) && IsRun(Program(c), sched)
    ensures Abandoned(Exec(Program(c), sched)) <==> exists n: nat :: AbandonsAt(c, sched, n)
  {
    if sched != [] {
      var last := |sched| - 1;
      var before := sched[..last];
      var s, t := Exec(Program(c), before), sched[last];
      RunAbandonsIff(c, before);
      EveryRun(c, before);
      AbandonsAtPrefix(c, sched, last);
      if Abandoned(s) {
        AbandonedStays(c, s, t);
      } else {
        StepAbandonsIff(c, s, t);
      }
    }
  }

  // ---------------------------------------------------------------------------------------
  // Runs that have nothing left to do
  // ---------------------------------------------------------------------------------------

  /** Nothing can happen but the exit of a process. */
  ghost predicate Finished(c: Config, s: State) {
    forall t: Step | Enabled(c, s, t) :: t.Exit?
  }

  /** `sem_unlink` waits for the flag of a set that nobody is going to initialise. */
  ghost predicate Stalled(s: State) {
    s.unlinker.UDrop? && s.initials == []
  }

  lemma FinishedIsAtRest(c: Config, s: State)
    requires Inv(c, s) && Finished(c, s)
    ensures forall h | 0 <= h < |s.handles| :: !Attends(s.handles[h])
    ensures AtRest(s) || Stalled(s)
  {
    forall h | 0 <= h < |s.handles| ensures !Attends(s.handles[h]) {
      assert !Enabled(c, s, Move(h)) && HandleAt(s, s.handles[h]);
      if s.handles[h].pc.Open? {
        CloseNeverSleeps(c, s, h);
      }
    }
    assert !Enabled(c, s, Unlink);
    if s.unlinker.UDrop? {
      DropProceedsIffInitialised(c, s);
    }
  }

  /** When nothing is left to do but to exit, nobody has the set open; and if the name is gone,
      the set is gone too, unless `sem_unlink` is stalled or one of the exits abandoned it. If no
      process exited half way, the set is gone exactly if the name is. */
  lemma EveryFinishedRun(c: Config, sched: seq<Step>)
    requires Valid(c) && IsRun(Program(c), sched) && Finished(c, Exec(Program(c), sched))
    ensures var s := Exec(Program(c), sched);
            && (forall h | 0 <= h < |s.handles| :: !Attends(s.handles[h]))
            && (s.set'.Present? ==> s.set'.cells.access == 0)
            && (!s.named ==>
                  (s.set'.Removed? <==> !Stalled(s) && forall n: nat :: !AbandonsAt(c, sched, n)))
            && (s.unclean == 0 ==> (s.set'.Removed? <==> !s.named))
  {
    var s := Exec(Program(c), sched);
    CleanOfRun(c, sched);
    FinishedIsAtRest(c, s);
    NobodyAttends(s.handles);
    RunAbandonsIff(c, sched);
    if s.unclean == 0 {
      UnlinkedSetIsRemoved(c, s);
      assert !Enabled(c, s, Unlink);
    }
  }

  /** A run that cannot go on has every process exited; the set is gone exactly if the name is and
      none of the exits abandoned it. */
  lemma EveryMaximalRun(c: Config, sched: seq<Step>)
    requires Valid(c) && IsMaximal(Program(c), sched)
    ensures var s := Exec(Program(c), sched);
            && (forall p | 0 <= p < |s.procs| :: !s.procs[p].alive)
            && (s.set'.Present? ==> s.set'.cells.access == 0)
            && (s.set'.Removed? <==> !s.named && forall n: nat :: !AbandonsAt(c, sched, n))
  {
    var s := Exec(Program(c), sched);
    forall t: Step ensures !Enabled(c, s, t) {
      assert !Program(c).enabled(s, t);
    }
    EveryRun(c, sched);
    EveryFinishedRun(c, sched);
    forall p | 0 <= p < |s.procs| ensures !s.procs[p].alive {
      assert !Enabled(c, s, Exit(p));
    }
  }

  // ---------------------------------------------------------------------------------------
  // Which programs can leave the set behind, and which can stall
  // ---------------------------------------------------------------------------------------

  ghost predicate CanCreate(x: OpenCall) { x.creat && x.init >= 0 }

  /** The first `semget` creates the set. */
  lemma CreatorGets(c: Config, h: nat)
    requires Valid(c) && h < |c.opens| && CanCreate(c.opens[h])
    ensures Enabled(c, Init(c), Move(h))
    ensures Next(c, Init(c), Move(h)) == Goto(Init(c), h, Opening(0, false)).(set' := Present(Cells(0, 0, 0)))
  {
  }

  /** The creator alone opens the semaphore. */
  lemma CreatorOpens(c: Config, h: nat) returns (sched: seq<Step>)
    requires Valid(c) && h < |c.opens| && CanCreate(c.opens[h])
    ensures IsRun(Program(c), sched)
    ensures var s := Exec(Program(c), sched);
            && s.set' == Present(Cells(c.opens[h].init, 1, 1)) && s.unlinker.UStart? && s.named
            && s.handles == Init(c).handles[h := Handle(c.opens[h], Open)]
  {
    CreatorGets(c, h);
    sched := Go(Program(c), [], Move(h));
    sched := InitialiserGoes(c, sched, Goto(Init(c), h, Opening(0, false)).(set' := Present(Cells(0, 0, 0))), h);
  }

  lemma InitialiserGoes(c: Config, before: seq<Step>, s: State, h: nat) returns (sched: seq<Step>)
    requires IsRun(Program(c), before) && Exec(Program(c), before) == s
    requires h < |s.handles| && s.handles[h].call.pid < |s.procs| && TriesToInitialise(s.handles[h])
    requires s.handles[h].call.init >= 0 && s.set'.Present? && s.set'.cells.ready == 0 && s.set'.cells.value == 0
    ensures IsRun(Program(c), sched) && Exec(Program(c), sched) == Initialised(s, h)
  {
    InitialiserOpens(c, s, h);
    sched := GoFrom(c, before, s, Move(h));
  }

  lemma GoFrom(c: Config, before: seq<Step>, s: State, t: Step) returns (sched: seq<Step>)
    requires IsRun(Program(c), before) && Exec(Program(c), before) == s && Enabled(c, s, t)
    ensures IsRun(Program(c), sched) && Exec(Program(c), sched) == Next(c, s, t)
  {
    sched := Go(Program(c), before, t);
  }

  /** The first three calls of `sem_unlink` on an initialised set. */
  lemma UnlinkerDrops(c: Config, s: State)
    requires c.unlinkPid < |s.procs| && s.unlinker.UStart? && s.set'.Present? && s.set'.cells.ready > 0
    ensures var s1 := Next(c, s, Unlink);
            var s2 := Next(c, s1, Unlink);
            && s1 == s.(unlinker := UName) && s2 == s.(unlinker := UDrop, named := false)
            && Possible(c, s, Unlink) && Possible(c, s1, Unlink) && Possible(c, s2, Unlink)
            && Next(c, s2, Unlink) == s.(
                 unlinker := UCheck, named := false, dropped := true,
                 set' := Present(s.set'.cells.(ready := s.set'.cells.ready - 1)))
  {
    SingleEffects(s.set'.cells, s.procs[c.unlinkPid].adjust);
    DropEffect(c, s.(unlinker := UDrop, named := false));
  }

  /** The unlinker finds the handle open and leaves the removal to the last closer. */
  lemma UnlinkerLeavesIt(c: Config, h: nat) returns (sched: seq<Step>)
    requires Valid(c) && h < |c.opens| && CanCreate(c.opens[h])
    ensures IsRun(Program(c), sched)
    ensures var s := Exec(Program(c), sched);
            && s.dropped && !s.named && s.set'.Present? && s.unlinker.UDone?
            && s.handles == Init(c).handles[h := Handle(c.opens[h], Open)]
  {
    sched := CreatorOpens(c, h);
    EveryRun(c, sched);
    UnlinkerDrops(c, Exec(Program(c), sched));
    sched := Go(Program(c), sched, Unlink);
    sched := Go(Program(c), sched, Unlink);
    sched := Go(Program(c), sched, Unlink);
    var s := Exec(Program(c), sched);
    SingleEffects(s.set'.cells, s.procs[c.unlinkPid].adjust);
    sched := Go(Program(c), sched, Unlink);
  }

  lemma LastOpenerAbandons(c: Config, s: State, h: nat)
    requires Inv(c, s) && !s.named && s.dropped && s.set'.Present? && s.unlinker.UDone?
    requires h < |s.handles| && s.handles[h].pc.Open?
    requires forall g | 0 <= g < |s.handles| && g != h :: s.handles[g].pc.Start?
    ensures Enabled(c, s, Exit(s.handles[h].call.pid)) && Abandoned(Next(c, s, Exit(s.handles[h].call.pid)))
  {
    assert HandleAt(s, s.handles[h]) && Attends(s.handles[h]);
    ExitAbandonsIff(c, s, s.handles[h].call.pid);
  }

  /** The last to have it open exits. */
  lemma LeakHappens(c: Config, h: nat) returns (sched: seq<Step>)
    requires Valid(c) && h < |c.opens| && CanCreate(c.opens[h])
    ensures IsRun(Program(c), sched) && Abandoned(Exec(Program(c), sched))
  {
    sched := UnlinkerLeavesIt(c, h);
    EveryRun(c, sched);
    LastOpenerAbandons(c, Exec(Program(c), sched), h);
    sched := Go(Program(c), sched, Exit(c.opens[h].pid));
  }

  /** No handle can create the set, and none has got in. */
  ghost predicate NothingYet(s: State) {
    && s.set'.Absent? && (s.unlinker.UStart? || s.unlinker.UFailed? || s.unlinker.UDead?)
    && forall h | 0 <= h < |s.handles| :: !CanCreate(s.handles[h].call) &&
         (s.handles[h].pc.Start? || s.handles[h].pc.Failed? || s.handles[h].pc.Dead?)
  }

  lemma NothingYetKept(c: Config, s: State, t: Step)
    requires NothingYet(s) && Enabled(c, s, t)
    ensures NothingYet(Next(c, s, t))
  {
    match t
    case Move(h) => assert MoveNext(s, h) == Goto(s, h, Failed);
    case Unlink => assert UnlinkNext(c, s) == s.(unlinker := UFailed);
    case _ =>
  }

  lemma NeverCreated(c: Config, sched: seq<Step>)
    requires Valid(c) && (forall h | 0 <= h < |c.opens| :: !CanCreate(c.opens[h]))
    requires IsRun(Program(c), sched)
    ensures Exec(Program(c), sched).set'.Absent?
  {
    forall s: State, t: Step | NothingYet(s) && Enabled(c, s, t) ensures NothingYet(Next(c, s, t)) {
      NothingYetKept(c, s, t);
    }
    InvariantOfRun(Program(c), NothingYet, sched);
  }

  ghost predicate NeverLeaks(c: Config) {
    forall sched | IsRun(Program(c), sched) :: !Abandoned(Exec(Program(c), sched))
  }

  /** If processes may exit anywhere, a program whose set can be created at all can leave it
      behind. */
  lemma RemovalGuaranteedIffNeverCreated(c: Config)
    requires Valid(c)
    ensures NeverLeaks(c) <==> forall h | 0 <= h < |c.opens| :: !CanCreate(c.opens[h])
  {
    if h :| 0 <= h < |c.opens| && CanCreate(c.opens[h]) {
      var sched := LeakHappens(c, h);
      assert !NeverLeaks(c);
    } else {
      forall sched | IsRun(Program(c), sched) ensures !Abandoned(Exec(Program(c), sched)) {
        NeverCreated(c, sched);
      }
    }
  }

  /** A stalled `sem_unlink` is stalled until its own process exits. */
  lemma StalledStays(c: Config, s: State, t: Step)
    requires Inv(c, s) && Stalled(s) && Enabled(c, s, t) && t != Exit(c.unlinkPid)
    ensures Stalled(Next(c, s, t))
  {
    DropProceedsIffInitialised(c, s);
    assert forall h | 0 <= h < |s.handles| :: HandleAt(s, s.handles[h]);
  }

  /** The creator exits between `semget` and its first `semop`; then the name is unlinked. */
  lemma StallHappens(c: Config, h: nat) returns (sched: seq<Step>)
    requires Valid(c) && h < |c.opens| && CanCreate(c.opens[h]) && c.opens[h].pid != c.unlinkPid
    ensures IsRun(Program(c), sched) && Stalled(Exec(Program(c), sched))
  {
    CreatorGets(c, h);
    sched := Go(Program(c), [], Move(h));
    sched := Go(Program(c), sched, Exit(c.opens[h].pid));
    var s := Exec(Program(c), sched);
    assert forall g | 0 <= g < |s.handles| :: !s.handles[g].pc.Opening?;
    sched := Go(Program(c), sched, Unlink);
    sched := Go(Program(c), sched, Unlink);
  }

  /** Whoever can create the set is the unlinking process itself. */
  ghost predicate OnlyUnlinkerCreates(c: Config) {
    forall h | 0 <= h < |c.opens| && CanCreate(c.opens[h]) :: c.opens[h].pid == c.unlinkPid
  }

  ghost predicate CreatorLives(c: Config, s: State) {
    && |s.handles| == |c.opens| && (forall h | 0 <= h < |s.handles| :: s.handles[h].call == c.opens[h])
    && (!s.unlinker.UDead? ==> HasCreator(s))
  }

  lemma CreatorLivesAfterExit(c: Config, s: State, p: nat)
    requires OnlyUnlinkerCreates(c) && HandleInv(s) && CreatorLives(c, s) && p < |s.procs|
    ensures CreatorLives(c, ExitNext(c, s, p))
  {
    var s' := ExitNext(c, s, p);
    if s.set'.Present? && s.initials == [] && !s'.unlinker.UDead? {
      var h := SumWitness(s.handles, IsCreating);
      assert HandleAt(s, s.handles[h]) && CanCreate(c.opens[h]);
      assert s'.handles[h] == s.handles[h];
      SumAtLeast(s'.handles, h, IsCreating);
    }
  }

  lemma CreatorLivesKept(c: Config, s: State, t: Step)
    requires OnlyUnlinkerCreates(c) && Inv(c, s) && CreatorLives(c, s) && Enabled(c, s, t)
    ensures CreatorLives(c, Next(c, s, t))
  {
    match t
    case Move(h) =>
      MoveKeepsUnlinker(c, s, h);
      if !s.unlinker.UDead? {
        MoveKeepsCreator(c, s, h);
      }
    case Unlink =>
      if s.unlinker.UDrop? {
        DropEffect(c, s);
      }
    case Exit(p) => CreatorLivesAfterExit(c, s, p);
    case _ =>
      CloseNeverSleeps(c, s, t.h);
      ValueEffect(s, t.h, t);
  }

  ghost predicate NeverStalls(c: Config) {
    forall sched | IsRun(Program(c), sched) :: !Stalled(Exec(Program(c), sched))
  }

  /** `sem_unlink` can be left waiting for ever exactly if some other process can create the set. */
  lemma NeverStallsIff(c: Config)
    requires Valid(c)
    ensures NeverStalls(c) <==> OnlyUnlinkerCreates(c)
  {
    if OnlyUnlinkerCreates(c) {
      var inv := (s: State) => Inv(c, s) && CreatorLives(c, s);
      InitInv(c);
      forall s: State, t: Step | inv(s) && Enabled(c, s, t) ensures inv(Next(c, s, t)) {
        StepKeepsInv(c, s, t);
        CreatorLivesKept(c, s, t);
      }
      forall sched | IsRun(Program(c), sched) ensures !Stalled(Exec(Program(c), sched)) {
        InvariantOfRun(Program(c), inv, sched);
        NotStalledWhileCreatorLives(c, Exec(Program(c), sched));
      }
    } else {
      var h: nat :| h < |c.opens| && CanCreate(c.opens[h]) && c.opens[h].pid != c.unlinkPid;
      var sched := StallHappens(c, h);
      assert !NeverStalls(c);
    }
  }

  lemma NotStalledWhileCreatorLives(c: Config, s: State)
    requires Inv(c, s) && CreatorLives(c, s)
    ensures !Stalled(s)
  {
    if !s.named {
      NobodyCreatesUnnamed(s);
    }
  }
}
