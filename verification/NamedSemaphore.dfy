/** The life of one named semaphore (posix1b/semaphore.c): any number of processes race to open
    it, use it, close it, exit at any point, and one of them unlinks it. One step is one system
    call. */
module NamedSemaphore {
  import opened Sums
  import opened Runs
  import opened SystemV

  /** One call of `sem_open`, by process `pid`. */
  datatype OpenCall = OpenCall(pid: nat, creat: bool, excl: bool, init: int)

  datatype Config = Config(procs: nat, opens: seq<OpenCall>, unlinkPid: nat)

  ghost predicate Valid(c: Config) {
    c.unlinkPid < c.procs && forall h | 0 <= h < |c.opens| :: c.opens[h].pid < c.procs
  }

  /** Where a handle stands. `failures` counts the `semop` calls that returned EAGAIN and `four`
      says that the last array tried had four operations. */
  datatype Pc =
    | Start
    | Opening(failures: nat, four: bool)  // in the loop of sem_open
    | Open                                // sem_open returned the handle
    | Closing                             // sem_close has decremented the access counter
    | Removing                            // sem_close found the set unused and unlinked
    | Closed
    | Failed                              // sem_open returned -1
    | Dead                                // the process exited

  datatype UnlinkPc =
    | UStart     // semget
    | UName      // unlink(name)
    | UDrop      // semop: flag - 1
    | UCheck     // semop: access counter == 0 ?
    | URemove    // semctl(IPC_RMID)
    | UDone
    | UFailed
    | UDead

  datatype Handle = Handle(call: OpenCall, pc: Pc)
  datatype Process = Process(alive: bool, adjust: Adjust)

  /** The set that the name stands for. */
  datatype Set = Absent | Present(cells: Cells) | Removed

  /** `named`: the file still exists. `initials`, `posts`, `waits`, `dropped` and `unclean` record
      what has happened: initial values added, successful posts and waits, the flag dropped by
      `sem_unlink`, and exits of processes in the middle of something. */
  datatype State = State(
    set': Set, procs: seq<Process>, handles: seq<Handle>, unlinker: UnlinkPc, named: bool,
    initials: seq<int>, posts: nat, waits: nat, dropped: bool, unclean: nat)

  datatype Step = Move(h: nat) | Post(h: nat) | Wait(h: nat) | TryWait(h: nat) | Unlink | Exit(p: nat)

  ghost function Init(c: Config): State {
    State(Absent, seq(c.procs, _ => Process(true, NO_ADJUST)),
          seq(|c.opens|, h requires 0 <= h < |c.opens| => Handle(c.opens[h], Start)),
          UStart, true, [], 0, 0, false, 0)
  }

  /** `semop` by process `p`; a set that is gone makes it fail. */
  ghost function Call(s: State, p: nat, ops: seq<Op>): Outcome
    requires p < |s.procs|
  {
    if s.set'.Present? then SemOp(s.set'.cells, s.procs[p].adjust, ops) else Again
  }

  /** The array that the loop of `sem_open` tries next. */
  ghost predicate TriesToInitialise(x: Handle) {
    x.pc.Opening? && !x.pc.four && x.call.creat
  }

  ghost function OpenOps(x: Handle): seq<Op> {
    if TriesToInitialise(x) then InitialiseOps(x.call.init) else JoinOps(x.call.creat)
  }

  /** The steps that the kernel allows. */
  ghost predicate Possible(c: Config, s: State, t: Step) {
    match t
    case Move(h) =>
      h < |s.handles| && s.handles[h].call.pid < |s.procs| &&
      var x := s.handles[h];
      (match x.pc
       case Start => true
       case Opening(_, _) => !Call(s, x.call.pid, OpenOps(x)).Sleeps?
       case Open => !Call(s, x.call.pid, LEAVE_OPS).Sleeps?
       case Closing => true
       case Removing => true
       case _ => false)
    case Post(h) => h < |s.handles| && s.handles[h].call.pid < |s.procs| && s.handles[h].pc.Open?
    case Wait(h) =>
      && h < |s.handles| && s.handles[h].call.pid < |s.procs| && s.handles[h].pc.Open?
      && !Call(s, s.handles[h].call.pid, WAIT_OPS).Sleeps?
    case TryWait(h) => h < |s.handles| && s.handles[h].call.pid < |s.procs| && s.handles[h].pc.Open?
    case Unlink =>
      c.unlinkPid < |s.procs| &&
      (match s.unlinker
       case UDrop => !Call(s, c.unlinkPid, DROP_OPS).Sleeps?
       case UDone => false
       case UFailed => false
       case UDead => false
       case _ => true)
    case Exit(p) => p < |s.procs| && s.procs[p].alive
  }

  /** Opening starts while the name stands for this set; afterwards it is the key of another. */
  ghost predicate StartsNamed(s: State, t: Step) {
    t.Move? && t.h < |s.handles| && s.handles[t.h].pc.Start? ==> s.named
  }

  /** No `sem_open` is in flight across the unlinking of the name: besides, the name goes only
      when no opening is under way. */
  ghost predicate Quiet(s: State, t: Step) {
    && StartsNamed(s, t)
    && (t.Unlink? && s.unlinker.UName? ==> forall h | 0 <= h < |s.handles| :: !s.handles[h].pc.Opening?)
  }

  ghost predicate Enabled(c: Config, s: State, t: Step) {
    Possible(c, s, t) && Quiet(s, t)
  }

  /** The set and the process's adjustment after a `semop`. */
  ghost function After(s: State, p: nat, r: Outcome): State
    requires p < |s.procs| && r.Applied?
  {
    s.(set' := Present(r.cells), procs := s.procs[p := s.procs[p].(adjust := r.adjust)])
  }

  ghost function Goto(s: State, h: nat, pc: Pc): State
    requires h < |s.handles|
  {
    s.(handles := s.handles[h := s.handles[h].(pc := pc)])
  }

  /** `semget` and the checks before it. */
  ghost function GetNext(s: State, h: nat): State
    requires h < |s.handles|
  {
    var x := s.handles[h].call;
    if x.creat && x.init < 0 then Goto(s, h, Failed)
    else match s.set'
      case Absent =>
        if x.creat then Goto(s, h, Opening(0, false)).(set' := Present(Cells(0, 0, 0))) else Goto(s, h, Failed)
      case Present(_) => Goto(s, h, if x.creat && x.excl then Failed else Opening(0, false))
      case Removed => Goto(s, h, Failed)
  }

  /** One turn of the loop of `sem_open`. */
  ghost function TryNext(s: State, h: nat): State
    requires h < |s.handles| && s.handles[h].call.pid < |s.procs| && s.handles[h].pc.Opening?
  {
    var x := s.handles[h];
    var r := Call(s, x.call.pid, OpenOps(x));
    if r.Applied? then
      Goto(After(s, x.call.pid, r), h, Open).(
        initials := if TriesToInitialise(x) then s.initials + [x.call.init] else s.initials)
    else if s.set'.Present? then Goto(s, h, Opening(x.pc.failures + 1, TriesToInitialise(x)))
    else Goto(s, h, Failed)
  }

  ghost function MoveNext(s: State, h: nat): State
    requires h < |s.handles| && s.handles[h].call.pid < |s.procs|
  {
    var x := s.handles[h];
    var p := x.call.pid;
    match x.pc
    case Start => GetNext(s, h)
    case Opening(_, _) => TryNext(s, h)
    case Open =>
      var r := Call(s, p, LEAVE_OPS);
      Goto(if r.Applied? then After(s, p, r) else s, h, Closing)
    case Closing => Goto(s, h, if Call(s, p, LAST_OPS).Applied? then Removing else Closed)
    case Removing => Goto(s, h, Closed).(set' := Removed)
    case _ => s
  }

  ghost function ValueNext(s: State, h: nat, t: Step): State
    requires h < |s.handles| && s.handles[h].call.pid < |s.procs|
  {
    var p := s.handles[h].call.pid;
    match t
    case Post(_) =>
      var r := Call(s, p, POST_OPS);
      if r.Applied? then After(s, p, r).(posts := s.posts + 1) else s
    case Wait(_) =>
      var r := Call(s, p, WAIT_OPS);
      if r.Applied? then After(s, p, r).(waits := s.waits + 1) else s
    case _ =>
      var r := Call(s, p, TRYWAIT_OPS);
      if r.Applied? then After(s, p, r).(waits := s.waits + 1) else s
  }

  ghost function UnlinkNext(c: Config, s: State): State
    requires c.unlinkPid < |s.procs|
  {
    match s.unlinker
    case UStart => s.(unlinker := if s.set'.Present? then UName else UFailed)
    case UName => s.(unlinker := UDrop, named := false)
    case UDrop =>
      var r := Call(s, c.unlinkPid, DROP_OPS);
      if r.Applied? then After(s, c.unlinkPid, r).(unlinker := UCheck, dropped := true)
      else s.(unlinker := UCheck)
    case UCheck => s.(unlinker := if Call(s, c.unlinkPid, UNUSED_OPS).Applied? then URemove else UDone)
    case URemove => s.(unlinker := UDone, set' := Removed)
    case _ => s
  }

  ghost function Kill(hs: seq<Handle>, p: nat): seq<Handle> {
    seq(|hs|, h requires 0 <= h < |hs| => if hs[h].call.pid == p then hs[h].(pc := Dead) else hs[h])
  }

  /** Nothing of process `p` is half done: no handle open or in transit, no unlinking under way. */
  ghost predicate ExitsCleanly(c: Config, s: State, p: nat) {
    && (forall h | 0 <= h < |s.handles| && s.handles[h].call.pid == p ::
          s.handles[h].pc.Start? || s.handles[h].pc.Closed? || s.handles[h].pc.Failed?)
    && (c.unlinkPid == p ==> s.unlinker.UStart? || s.unlinker.UName? || s.unlinker.UDone? || s.unlinker.UFailed?)
  }

  /** The kernel applies the process's adjustment and the process is gone. */
  ghost function ExitNext(c: Config, s: State, p: nat): State
    requires p < |s.procs|
  {
    s.(set' := if s.set'.Present? then Present(Undo(s.set'.cells, s.procs[p].adjust)) else s.set',
       procs := s.procs[p := Process(false, NO_ADJUST)],
       handles := Kill(s.handles, p),
       unlinker := if c.unlinkPid == p then UDead else s.unlinker,
       unclean := if ExitsCleanly(c, s, p) then s.unclean else s.unclean + 1)
  }

  ghost function Next(c: Config, s: State, t: Step): State {
    if !Possible(c, s, t) then s
    else match t
      case Move(h) => MoveNext(s, h)
      case Post(h) => ValueNext(s, h, t)
      case Wait(h) => ValueNext(s, h, t)
      case TryWait(h) => ValueNext(s, h, t)
      case Unlink => UnlinkNext(c, s)
      case Exit(p) => ExitNext(c, s, p)
  }

  ghost function Program(c: Config): System<State, Step> {
    System(Init(c), (s: State, t: Step) => Enabled(c, s, t), (s: State, t: Step) => Next(c, s, t))
  }

  /** The same steps without the assumption that no opening is in flight across the unlinking. */
  ghost function UnquietProgram(c: Config): System<State, Step> {
    System(Init(c), (s: State, t: Step) => Possible(c, s, t) && StartsNamed(s, t), (s: State, t: Step) => Next(c, s, t))
  }

  // ---------------------------------------------------------------------------------------
  // The invariant
  // ---------------------------------------------------------------------------------------

  ghost function IsOpen(x: Handle): int { One(x.pc.Open?) }
  ghost function OpenIn(p: nat): Handle -> int { (x: Handle) => One(x.call.pid == p && x.pc.Open?) }
  ghost function IsLeaving(x: Handle): int { One(x.pc.Closing? || x.pc.Removing?) }

  ghost function Total(v: seq<int>): int { if v == [] then 0 else Total(v[..|v| - 1]) + v[|v| - 1] }

  /** The access counter is the number of open handles, the flag is raised by the one
      initialisation and lowered by the one unlinking, and the value is the initial value plus
      posts minus waits. */
  ghost predicate CellInv(s: State) {
    && |s.initials| <= 1
    && (s.dropped ==> |s.initials| == 1 && !s.named)
    && match s.set'
       case Absent => s.initials == [] && Sum(s.handles, IsOpen) == 0 && s.named && s.posts == s.waits == 0
       case Present(k) =>
         && k.access == Sum(s.handles, IsOpen)
         && k.ready == |s.initials| - One(s.dropped)
         && k.value == Total(s.initials) + s.posts - s.waits
         && (s.initials == [] ==> k.value == 0)
       case Removed => s.dropped && Sum(s.handles, IsOpen) == 0
  }

  /** Each process's adjustment takes back exactly its open handles. */
  ghost predicate AdjustInv(s: State) {
    forall p | 0 <= p < |s.procs| :: s.procs[p].adjust == Adjust(0, 0, -Sum(s.handles, OpenIn(p)))
  }

  ghost predicate HandleAt(s: State, x: Handle) {
    && x.call.pid < |s.procs|
    && (!s.procs[x.call.pid].alive ==> x.pc.Dead?)
    && match x.pc
       case Opening(failures, four) =>
         && s.named && !s.set'.Absent?
         && (if x.call.creat then x.call.init >= 0 && failures == One(four) else failures == 0 && !four)
         && (four ==> |s.initials| == 1)
       case Open => |s.initials| == 1
       case Closing => |s.initials| == 1
       case Removing => s.dropped && Sum(s.handles, IsOpen) == 0
       case _ => true
  }

  ghost predicate HandleInv(s: State) {
    forall h | 0 <= h < |s.handles| :: HandleAt(s, s.handles[h])
  }

  ghost predicate UnlinkInv(c: Config, s: State) {
    && |s.procs| == c.procs && |s.handles| == |c.opens|
    && c.unlinkPid < |s.procs| && (!s.procs[c.unlinkPid].alive ==> s.unlinker.UDead?)
    && match s.unlinker
       case UStart => s.named && !s.dropped
       case UName => s.named && !s.dropped && s.set'.Present?
       case UDrop => !s.named && !s.dropped && s.set'.Present?
       case UCheck => s.dropped
       case URemove => s.dropped && Sum(s.handles, IsOpen) == 0
       case UDone => s.dropped
       case UFailed => s.named && !s.dropped
       case UDead => true
  }

  /** Unless a process exited half way, an unlinked set that nobody has open is removed already
      or somebody is about to look at it. */
  ghost predicate DeletionInv(s: State) {
    s.dropped && s.set'.Present? && Sum(s.handles, IsOpen) == 0 && s.unclean == 0 ==>
      s.unlinker.UCheck? || s.unlinker.URemove? || Sum(s.handles, IsLeaving) > 0
  }

  ghost predicate Inv(c: Config, s: State) {
    CellInv(s) && AdjustInv(s) && HandleInv(s) && UnlinkInv(c, s) && DeletionInv(s)
  }

  // ---------------------------------------------------------------------------------------
  // Every step keeps it
  // ---------------------------------------------------------------------------------------

  lemma InitInv(c: Config)
    requires Valid(c)
    ensures Inv(c, Init(c))
  {
    var s := Init(c);
    SumConstant(s.handles, IsOpen, 0);
    forall p | 0 <= p < |s.procs| ensures Sum(s.handles, OpenIn(p)) == 0 {
      SumConstant(s.handles, OpenIn(p), 0);
    }
  }

  /** The effect of moving handle `h` on the counts of handles. */
  lemma MoveCounts(s: State, h: nat, pc: Pc)
    requires h < |s.handles|
    ensures var hs, x := Goto(s, h, pc).handles, s.handles[h];
            && Sum(hs, IsOpen) == Sum(s.handles, IsOpen) - One(x.pc.Open?) + One(pc.Open?)
            && Sum(hs, IsLeaving) == Sum(s.handles, IsLeaving) - IsLeaving(x) + IsLeaving(x.(pc := pc))
            && (forall p: nat :: Sum(hs, OpenIn(p)) ==
                  Sum(s.handles, OpenIn(p)) + One(x.call.pid == p) * (One(pc.Open?) - One(x.pc.Open?)))
    ensures Sum(s.handles, IsOpen) >= One(s.handles[h].pc.Open?)
    ensures Sum(s.handles, IsLeaving) >= IsLeaving(s.handles[h])
  {
    var x := s.handles[h].(pc := pc);
    SumUpdate(s.handles, h, x, IsOpen);
    SumUpdate(s.handles, h, x, IsLeaving);
    SumAtLeast(s.handles, h, IsOpen);
    SumAtLeast(s.handles, h, IsLeaving);
    forall p: nat ensures Sum(Goto(s, h, pc).handles, OpenIn(p)) ==
        Sum(s.handles, OpenIn(p)) + One(x.call.pid == p) * (One(pc.Open?) - One(s.handles[h].pc.Open?))
    {
      SumUpdate(s.handles, h, x, OpenIn(p));
    }
  }

  /** A step of handle `h` that undoes nothing the other handles rely on. */
  lemma HandlesKept(s: State, s': State, h: nat)
    requires HandleInv(s) && h < |s.handles| == |s'.handles| && s'.handles == s.handles[h := s'.handles[h]]
    requires |s'.procs| == |s.procs|
    requires forall p | 0 <= p < |s.procs| :: s'.procs[p].alive == s.procs[p].alive
    requires s'.named == s.named && s'.dropped == s.dropped
    requires !s.set'.Absent? ==> !s'.set'.Absent?
    requires |s.initials| == 1 ==> |s'.initials| == 1
    requires s.dropped ==> Sum(s'.handles, IsOpen) <= Sum(s.handles, IsOpen)
    requires HandleAt(s', s'.handles[h])
    ensures HandleInv(s')
  {
    SumNonNegative(s'.handles, IsOpen);
    forall g | 0 <= g < |s'.handles| ensures HandleAt(s', s'.handles[g]) {
      assert HandleAt(s, s.handles[g]);
    }
  }

  lemma GetEffect(s: State, h: nat)
    requires h < |s.handles|
    ensures var s' := GetNext(s, h);
            && s' == Goto(s, h, s'.handles[h].pc).(set' := s'.set')
            && (s'.handles[h].pc.Failed? ==> s'.set' == s.set')
            && (!s'.handles[h].pc.Failed? ==>
                  && s'.handles[h].pc == Opening(0, false)
                  && (s.handles[h].call.creat ==> s.handles[h].call.init >= 0)
                  && s'.set' == if s.set'.Absent? then Present(Cells(0, 0, 0)) else s.set')
  {
  }

  lemma GetKeepsInv(c: Config, s: State, h: nat)
    requires Inv(c, s) && h < |s.handles| && s.handles[h].pc.Start? && s.named
    ensures Inv(c, GetNext(s, h))
  {
    var s' := GetNext(s, h);
    assert HandleAt(s, s.handles[h]);
    GetEffect(s, h);
    MoveCounts(s, h, s'.handles[h].pc);
    HandlesKept(s, s', h);
  }

  /** What one turn of the loop of `sem_open` does: the first to come initialises, the others
      join, and nobody fails more than once. */
  lemma TryEffect(c: Config, s: State, h: nat)
    requires Inv(c, s) && Enabled(c, s, Move(h)) && s.handles[h].pc.Opening?
    ensures s.set'.Present? && s.handles[h].call.pid < |s.procs|
    ensures var x, k, s' := s.handles[h], s.set'.cells, TryNext(s, h);
            var p := x.call.pid;
            var joined := s.(procs := s.procs[p := s.procs[p].(adjust := s.procs[p].adjust.Add(2, -1))]);
            if TriesToInitialise(x) then
              if s.initials == [] then
                s' == Goto(joined, h, Open).(
                        set' := Present(Cells(x.call.init, 1, k.access + 1)), initials := [x.call.init])
              else s' == Goto(s, h, Opening(1, true))
            else
              |s.initials| == 1 && s' == Goto(joined, h, Open).(set' := Present(k.(access := k.access + 1)))
  {
    var x := s.handles[h];
    assert HandleAt(s, x);
    var k, a := s.set'.cells, s.procs[x.call.pid].adjust;
    if TriesToInitialise(x) {
      InitialiseEffect(k, a, x.call.init);
    } else {
      JoinEffect(k, a, x.call.creat);
    }
  }

  /** Handle `h` has initialised the set and opened it. */
  ghost function Initialised(s: State, h: nat): State
    requires h < |s.handles| && s.handles[h].call.pid < |s.procs| && s.handles[h].call.init >= 0 && s.set'.Present?
  {
    var x, k := s.handles[h], s.set'.cells;
    var p := x.call.pid;
    Goto(s, h, Open).(
      procs := s.procs[p := s.procs[p].(adjust := s.procs[p].adjust.Add(2, -1))],
      set' := Present(Cells(k.value + x.call.init, 1, k.access + 1)),
      initials := s.initials + [x.call.init])
  }

  /** An opener that comes while the flag is down initialises, whatever else is going on. */
  lemma InitialiserOpens(c: Config, s: State, h: nat)
    requires h < |s.handles| && s.handles[h].call.pid < |s.procs| && TriesToInitialise(s.handles[h])
    requires s.handles[h].call.init >= 0 && s.set'.Present? && s.set'.cells.ready == 0
    requires s.handles[h].call.init == 0 ==> s.set'.cells.value == 0
    ensures Possible(c, s, Move(h)) && Next(c, s, Move(h)) == Initialised(s, h)
  {
    InitialiseEffect(s.set'.cells, s.procs[s.handles[h].call.pid].adjust, s.handles[h].call.init);
  }

  lemma TryKeepsCells(c: Config, s: State, h: nat)
    requires Inv(c, s) && Enabled(c, s, Move(h)) && s.handles[h].pc.Opening?
    ensures CellInv(TryNext(s, h)) && Sum(TryNext(s, h).handles, IsOpen) >= 0
  {
    var s' := TryNext(s, h);
    assert HandleAt(s, s.handles[h]);
    TryEffect(c, s, h);
    MoveCounts(s, h, s'.handles[h].pc);
    assert s'.handles == Goto(s, h, s'.handles[h].pc).handles;
    SumNonNegative(s'.handles, IsOpen);
  }

  lemma TryKeepsAdjust(c: Config, s: State, h: nat)
    requires Inv(c, s) && Enabled(c, s, Move(h)) && s.handles[h].pc.Opening?
    ensures AdjustInv(TryNext(s, h))
  {
    var s' := TryNext(s, h);
    TryEffect(c, s, h);
    MoveCounts(s, h, s'.handles[h].pc);
    assert s'.handles == Goto(s, h, s'.handles[h].pc).handles;
  }

  lemma TryKeepsInv(c: Config, s: State, h: nat)
    requires Inv(c, s) && Enabled(c, s, Move(h)) && s.handles[h].pc.Opening?
    ensures Inv(c, TryNext(s, h))
  {
    var s' := TryNext(s, h);
    assert HandleAt(s, s.handles[h]);
    TryEffect(c, s, h);
    TryKeepsCells(c, s, h);
    TryKeepsAdjust(c, s, h);
    HandlesKept(s, s', h);
  }

  /** The decrement in `sem_close` never sleeps. */
  lemma CloseNeverSleeps(c: Config, s: State, h: nat)
    requires Inv(c, s) && h < |s.handles| && s.handles[h].pc.Open?
    ensures s.handles[h].call.pid < |s.procs| && s.set'.Present? && s.set'.cells.access > 0
    ensures var k, a := s.set'.cells, s.procs[s.handles[h].call.pid].adjust;
            Call(s, s.handles[h].call.pid, LEAVE_OPS) == Applied(k.(access := k.access - 1), a.Add(2, 1))
  {
    assert HandleAt(s, s.handles[h]);
    SumAtLeast(s.handles, h, IsOpen);
    SingleEffects(s.set'.cells, s.procs[s.handles[h].call.pid].adjust);
  }

  lemma CloseEffect(c: Config, s: State, h: nat)
    requires Inv(c, s) && h < |s.handles| && s.handles[h].pc.Open?
    ensures s.set'.Present? && s.set'.cells.access > 0 && s.handles[h].call.pid < |s.procs|
    ensures var p, k := s.handles[h].call.pid, s.set'.cells;
            MoveNext(s, h) == Goto(s, h, Closing).(
              set' := Present(k.(access := k.access - 1)),
              procs := s.procs[p := s.procs[p].(adjust := s.procs[p].adjust.Add(2, 1))])
  {
    CloseNeverSleeps(c, s, h);
  }

  lemma CloseKeepsInv(c: Config, s: State, h: nat)
    requires Inv(c, s) && Enabled(c, s, Move(h)) && s.handles[h].pc.Open?
    ensures Inv(c, MoveNext(s, h))
  {
    var s' := MoveNext(s, h);
    assert HandleAt(s, s.handles[h]);
    CloseEffect(c, s, h);
    MoveCounts(s, h, Closing);
    HandlesKept(s, s', h);
  }

  /** The check of `sem_close` succeeds exactly on an unlinked set that nobody has open. */
  lemma LastCheck(c: Config, s: State, h: nat)
    requires CellInv(s) && HandleInv(s) && h < |s.handles| && s.handles[h].pc.Closing?
    ensures s.handles[h].call.pid < |s.procs|
    ensures Call(s, s.handles[h].call.pid, LAST_OPS).Applied? <==>
            s.set'.Present? && Sum(s.handles, IsOpen) == 0 && s.dropped
  {
    assert HandleAt(s, s.handles[h]);
    LastCall(s, s.handles[h].call.pid);
  }

  lemma LastCall(s: State, p: nat)
    requires p < |s.procs|
    ensures Call(s, p, LAST_OPS).Applied? <==> s.set'.Present? && s.set'.cells.access == 0 && s.set'.cells.ready == 0
  {
    if s.set'.Present? {
      LastEffect(s.set'.cells, s.procs[p].adjust);
    }
  }

  lemma CheckKeepsInv(c: Config, s: State, h: nat)
    requires Inv(c, s) && Enabled(c, s, Move(h)) && s.handles[h].pc.Closing?
    ensures Inv(c, Next(c, s, Move(h)))
  {
    var s' := Next(c, s, Move(h));
    assert HandleAt(s, s.handles[h]);
    LastCheck(c, s, h);
    MoveCounts(s, h, s'.handles[h].pc);
    assert s' == Goto(s, h, s'.handles[h].pc);
    HandlesKept(s, s', h);
  }

  lemma RemoveKeepsInv(c: Config, s: State, h: nat)
    requires Inv(c, s) && Enabled(c, s, Move(h)) && s.handles[h].pc.Removing?
    ensures Inv(c, Next(c, s, Move(h)))
  {
    var s' := Next(c, s, Move(h));
    assert HandleAt(s, s.handles[h]);
    MoveCounts(s, h, Closed);
    assert s' == Goto(s, h, Closed).(set' := Removed);
    HandlesKept(s, s', h);
  }

  /** Value operations touch the value only. */
  lemma ValueEffect(s: State, h: nat, t: Step)
    requires h < |s.handles| && s.handles[h].call.pid < |s.procs| && s.set'.Present?
    ensures var k, s' := s.set'.cells, ValueNext(s, h, t);
            || s' == s
            || s' == s.(set' := Present(k.(value := k.value + 1)), posts := s.posts + 1)
            || (k.value > 0 && s' == s.(set' := Present(k.(value := k.value - 1)), waits := s.waits + 1))
  {
    var p := s.handles[h].call.pid;
    SingleEffects(s.set'.cells, s.procs[p].adjust);
    assert s.procs[p := s.procs[p].(adjust := s.procs[p].adjust)] == s.procs;
  }

  lemma ValueKeepsInv(c: Config, s: State, h: nat, t: Step)
    requires Inv(c, s) && h < |s.handles| && s.handles[h].pc.Open?
    ensures s.handles[h].call.pid < |s.procs| && Inv(c, ValueNext(s, h, t))
  {
    CloseNeverSleeps(c, s, h);
    var s' := ValueNext(s, h, t);
    ValueEffect(s, h, t);
    forall g | 0 <= g < |s'.handles| ensures HandleAt(s', s'.handles[g]) {
      assert HandleAt(s, s.handles[g]) && HandleAt(s, s.handles[h]);
    }
  }

  /** Dropping the flag needs it raised and touches nothing else. */
  lemma DropEffect(c: Config, s: State)
    requires c.unlinkPid < |s.procs| && s.set'.Present? && s.unlinker.UDrop?
    requires !Call(s, c.unlinkPid, DROP_OPS).Sleeps?
    ensures s.set'.cells.ready > 0
    ensures var k := s.set'.cells;
            UnlinkNext(c, s) ==
            s.(set' := Present(k.(ready := k.ready - 1)), unlinker := UCheck, dropped := true)
  {
    var p, k := c.unlinkPid, s.set'.cells;
    var a := s.procs[p].adjust;
    SingleEffects(k, a);
    assert Call(s, p, DROP_OPS) == Applied(k.(ready := k.ready - 1), a);
    assert s.procs[p := s.procs[p].(adjust := a)] == s.procs;
  }

  lemma DropKeepsInv(c: Config, s: State)
    requires Inv(c, s) && Enabled(c, s, Unlink) && s.unlinker.UDrop?
    ensures Inv(c, UnlinkNext(c, s))
  {
    var s' := UnlinkNext(c, s);
    DropEffect(c, s);
    forall h | 0 <= h < |s.handles| ensures HandleAt(s', s'.handles[h]) {
      assert HandleAt(s, s.handles[h]);
    }
  }

  lemma UnusedCheck(c: Config, s: State)
    requires Inv(c, s)
    ensures Call(s, c.unlinkPid, UNUSED_OPS).Applied? <==> s.set'.Present? && Sum(s.handles, IsOpen) == 0
  {
    if s.set'.Present? {
      SingleEffects(s.set'.cells, s.procs[c.unlinkPid].adjust);
    }
  }

  lemma UnlinkKeepsInv(c: Config, s: State)
    requires Inv(c, s) && Enabled(c, s, Unlink) && !s.unlinker.UDrop?
    ensures Inv(c, UnlinkNext(c, s))
  {
    var s' := UnlinkNext(c, s);
    UnusedCheck(c, s);
    forall h | 0 <= h < |s.handles| ensures HandleAt(s', s'.handles[h]) {
      assert HandleAt(s, s.handles[h]);
    }
  }

  lemma {:induction false} KillCounts(hs: seq<Handle>, p: nat)
    ensures Sum(Kill(hs, p), IsOpen) == Sum(hs, IsOpen) - Sum(hs, OpenIn(p))
    ensures Sum(hs, OpenIn(p)) >= 0 && Sum(Kill(hs, p), IsOpen) >= 0
    ensures forall q: nat :: Sum(Kill(hs, p), OpenIn(q)) == if q == p then 0 else Sum(hs, OpenIn(q))
  {
    if hs != [] {
      var n := |hs| - 1;
      assert Kill(hs, p)[..n] == Kill(hs[..n], p);
      KillCounts(hs[..n], p);
    }
  }

  lemma {:induction false} KillKeepsOthers(hs: seq<Handle>, p: nat)
    requires forall h | 0 <= h < |hs| && hs[h].call.pid == p :: !hs[h].pc.Open? && IsLeaving(hs[h]) == 0
    ensures Sum(Kill(hs, p), IsLeaving) == Sum(hs, IsLeaving)
    ensures Sum(Kill(hs, p), IsOpen) == Sum(hs, IsOpen)
  {
    if hs != [] {
      var n := |hs| - 1;
      assert Kill(hs, p)[..n] == Kill(hs[..n], p);
      KillKeepsOthers(hs[..n], p);
    }
  }

  /** A process that exits takes its open handles off the access counter, by the adjustment. */
  lemma ExitKeepsCells(c: Config, s: State, p: nat)
    requires Inv(c, s) && p < |s.procs|
    ensures CellInv(ExitNext(c, s, p)) && AdjustInv(ExitNext(c, s, p))
  {
    KillCounts(s.handles, p);
  }

  lemma ExitKeepsHandles(c: Config, s: State, p: nat)
    requires Inv(c, s) && p < |s.procs|
    ensures HandleInv(ExitNext(c, s, p)) && UnlinkInv(c, ExitNext(c, s, p))
  {
    var s' := ExitNext(c, s, p);
    KillCounts(s.handles, p);
    forall h | 0 <= h < |s'.handles| ensures HandleAt(s', s'.handles[h]) {
      assert HandleAt(s, s.handles[h]);
    }
  }

  lemma ExitKeepsDeletion(c: Config, s: State, p: nat)
    requires Inv(c, s) && p < |s.procs|
    ensures DeletionInv(ExitNext(c, s, p))
  {
    if ExitsCleanly(c, s, p) {
      KillKeepsOthers(s.handles, p);
    }
  }

  lemma StepKeepsInv(c: Config, s: State, t: Step)
    requires Inv(c, s) && Enabled(c, s, t)
    ensures Inv(c, Next(c, s, t))
  {
    match t
    case Move(h) =>
      match s.handles[h].pc {
        case Start => GetKeepsInv(c, s, h);
        case Opening(_, _) => TryKeepsInv(c, s, h);
        case Open => CloseKeepsInv(c, s, h);
        case Closing => CheckKeepsInv(c, s, h);
        case Removing => RemoveKeepsInv(c, s, h);
      }
    case Post(h) => ValueKeepsInv(c, s, h, t);
    case Wait(h) => ValueKeepsInv(c, s, h, t);
    case TryWait(h) => ValueKeepsInv(c, s, h, t);
    case Unlink => if s.unlinker.UDrop? { DropKeepsInv(c, s); } else { UnlinkKeepsInv(c, s); }
    case Exit(p) =>
      ExitKeepsCells(c, s, p);
      ExitKeepsHandles(c, s, p);
      ExitKeepsDeletion(c, s, p);
  }
}
