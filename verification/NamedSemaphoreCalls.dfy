/** The calls of posix1b/semaphore.c as they change the kernel's semaphore set and the callers'
    handles in place. The small methods are one system call each; `SemOpen` and `SemClose` are the
    whole library calls when nobody interferes. */
module NamedSemaphoreCalls {
  import opened SystemV
  import opened NamedSemaphore
  import opened NamedSemaphoreRuns

  /** Whether an undisturbed `sem_open` succeeds. */
  ghost predicate MayOpen(s: State, x: OpenCall) {
    !(x.creat && x.init < 0) && if s.set'.Absent? then x.creat else !(x.creat && x.excl)
  }

  /** Where an undisturbed `sem_open` that started in `s0` stands after `turns` turns. */
  ghost predicate OpenProgress(c: Config, s0: State, s: State, h: nat, turns: nat) {
    && Inv(c, s) && h < |s0.handles| == |s.handles|
    && s.handles == s0.handles[h := Handle(s0.handles[h].call, s.handles[h].pc)]
    && match s.handles[h].pc
       case Failed => !MayOpen(s0, s0.handles[h].call) && s.set' == s0.set' && turns == 0
       case Opening(failures, _) =>
         MayOpen(s0, s0.handles[h].call) && turns == failures && s.initials == s0.initials
       case Open =>
         && MayOpen(s0, s0.handles[h].call) && turns <= 2 && (s0.handles[h].call.creat || s0.initials != [])
         && s.initials == if s0.initials == [] then [s0.handles[h].call.init] else s0.initials
       case _ => false
  }

  /** An opener without O_CREAT finds the flag down. */
  predicate HasToWait(s: State, h: nat)
    requires h < |s.handles|
  {
    !s.handles[h].call.creat && s.set'.Present? && s.set'.cells.ready == 0
  }

  datatype OpenResult = Opened | Refused | Asleep

  lemma OpenBegins(c: Config, s: State, h: nat)
    requires Inv(c, s) && s.named && h < |s.handles| && s.handles[h].pc.Start?
    ensures OpenProgress(c, s, GetNext(s, h), h, 0)
  {
    GetKeepsInv(c, s, h);
    GetEffect(s, h);
  }

  lemma OpenTurns(c: Config, s0: State, s: State, h: nat, turns: nat)
    requires OpenProgress(c, s0, s, h, turns) && s.handles[h].pc.Opening? && !HasToWait(s, h)
    ensures s.handles[h].pc.failures <= 1 && Possible(c, s, Move(h))
    ensures OpenProgress(c, s0, TryNext(s, h), h, turns + 1)
  {
    assert HandleAt(s, s.handles[h]);
    if s.handles[h].call.creat {
      CreatorOpensInTwoCalls(c, s, h);
    } else {
      JoinerWaitsForInitialisation(c, s, h);
    }
    TryEffect(c, s, h);
    TryKeepsInv(c, s, h);
  }

  /** Who waits is an opener without O_CREAT that found the set not initialised. */
  lemma OpenEnds(c: Config, s0: State, s: State, h: nat, turns: nat)
    requires OpenProgress(c, s0, s, h, turns)
    ensures s.handles[h].pc.Opening? && HasToWait(s, h) ==>
              !s0.handles[h].call.creat && s0.initials == [] && turns == 0 && !Possible(c, s, Move(h))
  {
    assert HandleAt(s, s.handles[h]);
    if s.handles[h].pc.Opening? && HasToWait(s, h) {
      JoinerWaitsForInitialisation(c, s, h);
    }
  }

  /** What an undisturbed `sem_close` leaves of the set. */
  ghost function AfterClose(s: State): Set
    requires s.set'.Present? && s.set'.cells.access > 0
  {
    var k := s.set'.cells;
    if s.dropped && k.access == 1 then Removed else Present(k.(access := k.access - 1))
  }

  lemma CloseSteps(c: Config, s: State, h: nat)
    requires Inv(c, s) && h < |s.handles| && s.handles[h].pc.Open?
    ensures s.handles[h].call.pid < |s.procs| && s.set'.Present? && s.set'.cells.access > 0
    ensures var s1 := MoveNext(s, h);
            && Inv(c, s1) && s1.handles == s.handles[h := Handle(s.handles[h].call, Closing)]
            && s1.set' == Present(s.set'.cells.(access := s.set'.cells.access - 1))
            && |s1.procs| == |s.procs| && s1.dropped == s.dropped
  {
    CloseEffect(c, s, h);
    CloseKeepsInv(c, s, h);
  }

  lemma CheckSteps(c: Config, s: State, h: nat)
    requires Inv(c, s) && h < |s.handles| && s.handles[h].pc.Closing?
    ensures s.handles[h].call.pid < |s.procs| && Inv(c, MoveNext(s, h))
    ensures MoveNext(s, h) ==
            Goto(s, h, if s.set'.Present? && s.set'.cells.access == 0 && s.dropped then Removing else Closed)
  {
    LastCheck(c, s, h);
    CheckKeepsInv(c, s, h);
  }

  /** `sem_close` from the check on. */
  ghost function CheckAndRemove(s: State, h: nat): State
    requires h < |s.handles| && s.handles[h].call.pid < |s.procs| && s.handles[h].pc.Closing?
  {
    var s1 := MoveNext(s, h);
    if s1.handles[h].pc.Removing? then MoveNext(s1, h) else s1
  }

  lemma RemoveSteps(c: Config, s: State, h: nat)
    requires Inv(c, s) && h < |s.handles| && s.handles[h].pc.Removing?
    ensures s.handles[h].call.pid < |s.procs| && Inv(c, MoveNext(s, h))
    ensures MoveNext(s, h) == Goto(s, h, Closed).(set' := Removed)
  {
    RemoveKeepsInv(c, s, h);
  }

  /** The last closer of an unlinked set removes it. */
  lemma CheckRemoves(c: Config, s: State, h: nat)
    requires Inv(c, s) && h < |s.handles| && s.handles[h].pc.Closing?
    requires s.set'.Present? && s.set'.cells.access == 0 && s.dropped
    ensures s.handles[h].call.pid < |s.procs| && Inv(c, CheckAndRemove(s, h))
    ensures CheckAndRemove(s, h) == Goto(s, h, Closed).(set' := Removed)
  {
    CheckSteps(c, s, h);
    RemoveSteps(c, Goto(s, h, Removing), h);
    assert Goto(Goto(s, h, Removing), h, Closed) == Goto(s, h, Closed);
  }

  /** Any other closer leaves it. */
  lemma CheckLeaves(c: Config, s: State, h: nat)
    requires Inv(c, s) && h < |s.handles| && s.handles[h].pc.Closing?
    requires s.set'.Present? && !(s.set'.cells.access == 0 && s.dropped)
    ensures s.handles[h].call.pid < |s.procs| && Inv(c, CheckAndRemove(s, h))
    ensures CheckAndRemove(s, h) == Goto(s, h, Closed)
  {
    CheckSteps(c, s, h);
  }

  lemma CheckOutcome(c: Config, s: State, h: nat)
    requires Inv(c, s) && h < |s.handles| && s.handles[h].pc.Closing? && s.set'.Present?
    ensures s.handles[h].call.pid < |s.procs| && Inv(c, CheckAndRemove(s, h))
    ensures CheckAndRemove(s, h).set' == if s.set'.cells.access == 0 && s.dropped then Removed else s.set'
    ensures CheckAndRemove(s, h).handles == s.handles[h := Handle(s.handles[h].call, Closed)]
  {
    if s.set'.cells.access == 0 && s.dropped {
      CheckRemoves(c, s, h);
    } else {
      CheckLeaves(c, s, h);
    }
  }

  lemma CloseOutcome(c: Config, s: State, h: nat)
    requires Inv(c, s) && h < |s.handles| && s.handles[h].pc.Open?
    ensures s.set'.Present? && s.set'.cells.access > 0 && s.handles[h].call.pid < |s.procs|
    ensures var s1 := MoveNext(s, h);
            && |s1.handles| == |s.handles| && s1.handles[h].pc.Closing? && s1.handles[h].call.pid < |s1.procs|
            && var s2 := CheckAndRemove(s1, h);
               && Inv(c, s2) && s2.set' == AfterClose(s)
               && s2.handles == s.handles[h := Handle(s.handles[h].call, Closed)]
  {
    CloseSteps(c, s, h);
    CheckOutcome(c, MoveNext(s, h), h);
  }

  class Kernel {
    var set': Set
    var procs: seq<Process>
    var handles: seq<Handle>
    var unlinker: UnlinkPc
    var named: bool
    const config: Config
    ghost var initials: seq<int>
    ghost var posts: nat
    ghost var waits: nat
    ghost var dropped: bool
    ghost var unclean: nat

    ghost function View(): State
      reads this
    {
      State(set', procs, handles, unlinker, named, initials, posts, waits, dropped, unclean)
    }

    constructor (nprocs: nat, opens: seq<OpenCall>, unlinkPid: nat)
      ensures config == Config(nprocs, opens, unlinkPid) && View() == Init(config)
    {
      set' := Absent;
      procs := seq(nprocs, _ => Process(true, NO_ADJUST));
      handles := seq(|opens|, h requires 0 <= h < |opens| => Handle(opens[h], Start));
      unlinker := UStart;
      named := true;
      config := Config(nprocs, opens, unlinkPid);
      initials, posts, waits, dropped, unclean := [], 0, 0, false, 0;
    }

    /** `semop` by process `p`: the whole array, or nothing and an error. */
    method Semop(p: nat, ops: seq<Op>) returns (ok: bool)
      requires p < |procs| && !Call(View(), p, ops).Sleeps?
      modifies this`set', this`procs
      ensures ok == Call(old(View()), p, ops).Applied?
      ensures View() == if ok then After(old(View()), p, Call(old(View()), p, ops)) else old(View())
    {
      ok := false;
      if set'.Present? {
        var r := SemOp(set'.cells, procs[p].adjust, ops);
        if r.Applied? {
          set' := Present(r.cells);
          procs := procs[p := procs[p].(adjust := r.adjust)];
          ok := true;
        }
      }
    }

    method SetPc(h: nat, pc: Pc)
      requires h < |handles|
      modifies `handles
      ensures View() == Goto(old(View()), h, pc)
    {
      handles := handles[h := handles[h].(pc := pc)];
    }

    /** The start of `sem_open`, up to and including `semget`. */
    method OpenStart(h: nat)
      requires h < |handles|
      modifies this`handles, this`set'
      ensures View() == GetNext(old(View()), h)
    {
      var x := handles[h].call;
      if x.creat && x.init < 0 {
        SetPc(h, Failed);
      } else {
        match set' {
          case Absent =>
            if x.creat {
              set' := Present(Cells(0, 0, 0));
              SetPc(h, Opening(0, false));
            } else {
              SetPc(h, Failed);
            }
          case Present(_) => SetPc(h, if x.creat && x.excl then Failed else Opening(0, false));
          case Removed => SetPc(h, Failed);
        }
      }
    }

    /** One turn of the loop of `sem_open`. */
    method OpenTurn(h: nat)
      requires Possible(config, View(), Move(h)) && handles[h].pc.Opening?
      modifies this
      ensures View() == TryNext(old(View()), h)
    {
      var x := handles[h];
      var initialise := !x.pc.four && x.call.creat;
      var present := set'.Present?;
      var ok := Semop(x.call.pid, if initialise then InitialiseOps(x.call.init) else JoinOps(x.call.creat));
      if ok {
        initials := if initialise then initials + [x.call.init] else initials;
        SetPc(h, Open);
      } else if present {
        SetPc(h, Opening(x.pc.failures + 1, initialise));
      } else {
        SetPc(h, Failed);
      }
    }

    /** `sem_open` undisturbed: at most two turns; it fails exactly when the arguments do not
        allow it, sleeps exactly without O_CREAT on a set that is not initialised, and
        initialises exactly when nobody has. */
    method SemOpen(h: nat) returns (r: OpenResult, turns: nat)
      requires Inv(config, View()) && named && h < |handles| && handles[h].pc.Start?
      modifies this
      ensures OpenProgress(config, old(View()), View(), h, turns) && turns <= 2
      ensures r == if !MayOpen(old(View()), old(handles[h].call)) then Refused
                   else if !old(handles[h].call.creat) && old(initials) == [] then Asleep
                   else Opened
      ensures match r
              case Opened => handles[h].pc.Open?
              case Refused => handles[h].pc.Failed?
              case Asleep => !Possible(config, View(), Move(h)) && View() == GetNext(old(View()), h)
    {
      turns := 0;
      OpenBegins(config, View(), h);
      OpenStart(h);
      while handles[h].pc.Opening? && (handles[h].call.creat || !set'.Present? || set'.cells.ready != 0)
        invariant OpenProgress(config, old(View()), View(), h, turns)
        invariant turns == 0 ==> View() == GetNext(old(View()), h)
        decreases if handles[h].pc.Opening? then 2 - handles[h].pc.failures else 0
      {
        OpenTurns(config, old(View()), View(), h, turns);
        OpenTurn(h);
        turns := turns + 1;
      }
      OpenEnds(config, old(View()), View(), h, turns);
      r := match handles[h].pc case Open => Opened case Opening(_, _) => Asleep case _ => Refused;
    }

    /** The first `semop` of `sem_close`. */
    method CloseLeave(h: nat)
      requires Possible(config, View(), Move(h)) && handles[h].pc.Open?
      modifies this
      ensures View() == MoveNext(old(View()), h)
    {
      var ok := Semop(handles[h].call.pid, LEAVE_OPS);
      SetPc(h, Closing);
    }

    /** The second one and, if it succeeds, IPC_RMID. */
    method CloseCheck(h: nat)
      requires h < |handles| && handles[h].call.pid < |procs| && handles[h].pc.Closing?
      modifies this
      ensures View() == CheckAndRemove(old(View()), h)
    {
      var p := handles[h].call.pid;
      if set'.Present? {
        LastEffect(set'.cells, procs[p].adjust);
        assert procs[p := procs[p].(adjust := procs[p].adjust)] == procs;
      }
      var ok := Semop(p, LAST_OPS);
      if ok {
        set' := Removed;
      }
      SetPc(h, Closed);
    }

    /** `sem_close` undisturbed: one access less, and the set goes with the last access once the
        name is unlinked. */
    method SemClose(h: nat)
      requires Inv(config, View()) && h < |handles| && handles[h].pc.Open?
      modifies this
      ensures Inv(config, View())
      ensures handles == old(handles)[h := Handle(old(handles[h].call), Closed)]
      ensures old(set').Present? && old(set'.cells.access) > 0 && set' == AfterClose(old(View()))
    {
      CloseNeverSleeps(config, View(), h);
      CloseOutcome(config, View(), h);
      CloseLeave(h);
      CloseCheck(h);
    }

    /** One system call of `sem_unlink`. */
    method UnlinkStep()
      requires Possible(config, View(), Unlink)
      modifies this
      ensures View() == UnlinkNext(config, old(View()))
    {
      match unlinker {
        case UStart => unlinker := if set'.Present? then UName else UFailed;
        case UName =>
          named := false;
          unlinker := UDrop;
        case UDrop =>
          var ok := Semop(config.unlinkPid, DROP_OPS);
          if ok {
            dropped := true;
          }
          unlinker := UCheck;
        case UCheck =>
          var present := set'.Present?;
          if present {
            SingleEffects(set'.cells, procs[config.unlinkPid].adjust);
          }
          assert procs[config.unlinkPid := procs[config.unlinkPid].(adjust := procs[config.unlinkPid].adjust)] == procs;
          var ok := Semop(config.unlinkPid, UNUSED_OPS);
          unlinker := if ok then URemove else UDone;
        case URemove =>
          set' := Removed;
          unlinker := UDone;
      }
    }

    /** `sem_post`, `sem_wait` and `sem_trywait`: one operation on the value cell. */
    method SemPost(h: nat) returns (ok: bool)
      requires Possible(config, View(), Post(h))
      modifies this
      ensures View() == ValueNext(old(View()), h, Post(h))
      ensures ok == old(set').Present?
      ensures ok ==> set' == Present(old(set'.cells).(value := old(set'.cells.value) + 1))
    {
      if set'.Present? {
        SingleEffects(set'.cells, procs[handles[h].call.pid].adjust);
      }
      ok := Semop(handles[h].call.pid, POST_OPS);
      if ok {
        posts := posts + 1;
      }
    }

    method SemWait(h: nat) returns (ok: bool)
      requires Possible(config, View(), Wait(h))
      modifies this
      ensures View() == ValueNext(old(View()), h, Wait(h))
      ensures ok == old(set').Present?
      ensures ok ==> old(set'.cells.value) > 0 && set' == Present(old(set'.cells).(value := old(set'.cells.value) - 1))
    {
      if set'.Present? {
        SingleEffects(set'.cells, procs[handles[h].call.pid].adjust);
      }
      ok := Semop(handles[h].call.pid, WAIT_OPS);
      if ok {
        waits := waits + 1;
      }
    }

    method SemTryWait(h: nat) returns (ok: bool)
      requires Possible(config, View(), TryWait(h))
      modifies this
      ensures View() == ValueNext(old(View()), h, TryWait(h))
      ensures ok <==> old(set').Present? && old(set'.cells.value) > 0
      ensures set' == if ok then Present(old(set'.cells).(value := old(set'.cells.value) - 1)) else old(set')
    {
      if set'.Present? {
        SingleEffects(set'.cells, procs[handles[h].call.pid].adjust);
      }
      ok := Semop(handles[h].call.pid, TRYWAIT_OPS);
      if ok {
        waits := waits + 1;
      }
    }
  }
}
