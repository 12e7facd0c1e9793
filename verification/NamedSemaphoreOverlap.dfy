/** What becomes of initialise-once without the assumption that no `sem_open` is in flight when the
    name goes: exactly which programs can add two initial values to one set. */
module NamedSemaphoreOverlap {
  import opened Sums
  import opened Runs
  import opened SystemV
  import opened NamedSemaphore
  import opened NamedSemaphoreDeletion

  /** Two openers can get into one set, each ready to create it. */
  ghost predicate CanOverlap(c: Config, i: nat, j: nat) {
    && i < |c.opens| && j < |c.opens| && i != j
    && CanCreate(c.opens[i]) && CanCreate(c.opens[j]) && !c.opens[j].excl
  }

  // ---------------------------------------------------------------------------------------
  // Two openers that can, do
  // ---------------------------------------------------------------------------------------

  /** Some run, openings in flight across the unlinking included, leads here. */
  ghost predicate Reached(c: Config, s: State) {
    exists sched :: IsRun(UnquietProgram(c), sched) && Exec(UnquietProgram(c), sched) == s
  }

  lemma StepReaches(c: Config, s: State, t: Step)
    requires Reached(c, s) && Possible(c, s, t) && StartsNamed(s, t)
    ensures Reached(c, Next(c, s, t))
  {
    var sched :| IsRun(UnquietProgram(c), sched) && Exec(UnquietProgram(c), sched) == s;
    var longer := Go(UnquietProgram(c), sched, t);
  }

  lemma InitialisedIsReached(c: Config, s: State, h: nat)
    requires Reached(c, s) && h < |s.handles| && s.handles[h].call.pid < |s.procs| && TriesToInitialise(s.handles[h])
    requires s.handles[h].call.init >= 0 && s.set'.Present? && s.set'.cells.ready == 0
    requires s.handles[h].call.init == 0 ==> s.set'.cells.value == 0
    ensures Reached(c, Initialised(s, h))
  {
    var x := s.handles[h];
    InitialiseEffect(s.set'.cells, s.procs[x.call.pid].adjust, x.call.init);
    InitialiserOpens(c, s, h);
    StepReaches(c, s, Move(h));
  }

  /** The name is gone and the flag is down. */
  ghost function Dropped(s: State): State
    requires s.set'.Present?
  {
    s.(unlinker := UCheck, named := false, dropped := true, set' := Present(s.set'.cells.(ready := 0)))
  }

  lemma DroppedIsReached(c: Config, s: State)
    requires Reached(c, s) && c.unlinkPid < |s.procs| && s.unlinker.UStart?
    requires s.set'.Present? && s.set'.cells.ready == 1
    ensures Reached(c, Dropped(s))
  {
    UnlinkerDrops(c, s);
    StepReaches(c, s, Unlink);
    StepReaches(c, Next(c, s, Unlink), Unlink);
    StepReaches(c, Next(c, Next(c, s, Unlink), Unlink), Unlink);
  }

  /** Both have the set and neither has initialised it. */
  ghost predicate BothOpening(c: Config, s: State, a: nat, b: nat) {
    && |s.procs| == c.procs && |s.handles| == |c.opens| && a < |s.handles| && b < |s.handles| && a != b
    && s.handles[a] == Handle(c.opens[a], Opening(0, false)) && s.handles[b] == Handle(c.opens[b], Opening(0, false))
    && s.set' == Present(Cells(0, 0, 0)) && s.unlinker.UStart? && s.initials == []
  }

  lemma BothGet(c: Config, i: nat, j: nat) returns (s: State)
    requires Valid(c) && CanOverlap(c, i, j)
    ensures Reached(c, s) && BothOpening(c, s, i, j)
  {
    assert IsRun(UnquietProgram(c), []) && Exec(UnquietProgram(c), []) == Init(c);
    CreatorGets(c, i);
    StepReaches(c, Init(c), Move(i));
    var s1 := Goto(Init(c), i, Opening(0, false)).(set' := Present(Cells(0, 0, 0)));
    SecondGets(c, s1, j);
    s := Goto(s1, j, Opening(0, false));
  }

  /** `semget` finds the set that another has created. */
  lemma SecondGets(c: Config, s: State, j: nat)
    requires Reached(c, s) && j < |s.handles| && s.handles[j].call.pid < |s.procs| && s.handles[j].pc.Start?
    requires s.named && s.set'.Present? && s.handles[j].call.init >= 0 && !s.handles[j].call.excl
    ensures Reached(c, Goto(s, j, Opening(0, false)))
  {
    assert GetNext(s, j) == Goto(s, j, Opening(0, false));
    StepReaches(c, s, Move(j));
  }

  /** `a` initialises, the unlinker drops the flag, and `b` initialises again. */
  lemma BothInitialise(c: Config, s: State, a: nat, b: nat) returns (s': State)
    requires Valid(c) && Reached(c, s) && BothOpening(c, s, a, b)
    requires CanCreate(c.opens[a]) && CanCreate(c.opens[b]) && (c.opens[b].init == 0 ==> c.opens[a].init == 0)
    ensures Reached(c, s') && s'.initials == [c.opens[a].init, c.opens[b].init]
    ensures s'.set'.Present? && s'.set'.cells.value == c.opens[a].init + c.opens[b].init
  {
    InitialisedIsReached(c, s, a);
    s' := Initialised(s, a);
    DroppedIsReached(c, s');
    s' := Dropped(s');
    InitialisedIsReached(c, s', b);
    s' := Initialised(s', b);
  }

  /** Any two such openers can both add their initial value to one set. If one of the values is 0
      it goes in first, because adding 0 waits for the value to be 0. */
  lemma OpeningAcrossUnlinkInitialisesTwice(c: Config, i: nat, j: nat) returns (s: State)
    requires Valid(c) && CanOverlap(c, i, j)
    ensures Reached(c, s) && s.set'.Present? && s.set'.cells.value == c.opens[i].init + c.opens[j].init
    ensures |s.initials| == 2 && multiset(s.initials) == multiset{c.opens[i].init, c.opens[j].init}
  {
    s := BothGet(c, i, j);
    if c.opens[j].init == 0 {
      s := BothInitialise(c, s, j, i);
    } else {
      s := BothInitialise(c, s, i, j);
    }
  }

  // ---------------------------------------------------------------------------------------
  // Without two such openers, nobody does
  // ---------------------------------------------------------------------------------------

  /** Initial values added or still to be added. */
  ghost function Stakes(s: State): int { |s.initials| + Sum(s.handles, IsCreating) }

  ghost predicate OneStake(c: Config, s: State) {
    && |s.handles| == |c.opens| && (forall h | 0 <= h < |s.handles| :: s.handles[h].call == c.opens[h])
    && (forall h | 0 <= h < |s.handles| && IsCreating(s.handles[h]) == 1 :: CanCreate(c.opens[h]))
    && Stakes(s) <= 1
    && (s.set'.Absent? ==> Stakes(s) == 0)
    && (forall h | 0 <= h < |s.handles| && s.handles[h].pc.Start? && CanCreate(c.opens[h]) && !c.opens[h].excl ::
          Stakes(s) == 0)
  }

  ghost predicate NoOverlap(c: Config) {
    forall i: nat, j: nat :: !CanOverlap(c, i, j)
  }

  lemma GetKeepsOneStake(c: Config, s: State, h: nat)
    requires NoOverlap(c) && OneStake(c, s) && h < |s.handles| && s.handles[h].pc.Start?
    ensures OneStake(c, GetNext(s, h))
  {
    var s' := GetNext(s, h);
    GetEffect(s, h);
    SumUpdate(s.handles, h, s'.handles[h], IsCreating);
    if IsCreating(s'.handles[h]) == 1 {
      forall g | 0 <= g < |s'.handles| && s'.handles[g].pc.Start? && CanCreate(c.opens[g]) ensures c.opens[g].excl {
        assert !CanOverlap(c, h, g);
      }
    }
  }

  /** Once past `semget`, a handle can only lose its stake or turn it into an initial value. */
  lemma StakeOfMove(s: State, h: nat)
    requires h < |s.handles| && s.handles[h].call.pid < |s.procs| && !s.handles[h].pc.Start?
    ensures var s' := MoveNext(s, h);
            && |s'.handles| == |s.handles| && s'.handles == s.handles[h := s'.handles[h]]
            && s'.handles[h].call == s.handles[h].call && !s'.handles[h].pc.Start?
            && |s'.initials| + IsCreating(s'.handles[h]) <= |s.initials| + IsCreating(s.handles[h])
            && IsCreating(s'.handles[h]) <= IsCreating(s.handles[h])
            && (s'.set'.Absent? ==> s.set'.Absent?)
  {
    if s.handles[h].pc.Opening? {
      StakeOfTry(s, h);
    }
  }

  lemma StakeOfTry(s: State, h: nat)
    requires h < |s.handles| && s.handles[h].call.pid < |s.procs| && s.handles[h].pc.Opening?
    ensures var s' := TryNext(s, h);
            && |s'.handles| == |s.handles| && s'.handles == s.handles[h := s'.handles[h]]
            && s'.handles[h].call == s.handles[h].call && !s'.handles[h].pc.Start?
            && |s'.initials| + IsCreating(s'.handles[h]) <= |s.initials| + IsCreating(s.handles[h])
            && IsCreating(s'.handles[h]) <= IsCreating(s.handles[h])
            && (s'.set'.Absent? ==> s.set'.Absent?)
  {
  }

  lemma MoveKeepsOneStake(c: Config, s: State, h: nat)
    requires OneStake(c, s) && Possible(c, s, Move(h)) && !s.handles[h].pc.Start?
    ensures OneStake(c, MoveNext(s, h))
  {
    var s' := MoveNext(s, h);
    StakeOfMove(s, h);
    SumUpdate(s.handles, h, s'.handles[h], IsCreating);
    SumNonNegative(s'.handles, IsCreating);
  }

  lemma {:induction false} KillCreators(hs: seq<Handle>, p: nat)
    ensures 0 <= Sum(Kill(hs, p), IsCreating) <= Sum(hs, IsCreating)
  {
    if hs != [] {
      var n := |hs| - 1;
      assert Kill(hs, p)[..n] == Kill(hs[..n], p);
      KillCreators(hs[..n], p);
    }
  }

  lemma StepKeepsOneStake(c: Config, s: State, t: Step)
    requires NoOverlap(c) && OneStake(c, s) && Possible(c, s, t)
    ensures OneStake(c, Next(c, s, t))
  {
    match t
    case Move(h) =>
      if s.handles[h].pc.Start? {
        GetKeepsOneStake(c, s, h);
      } else {
        MoveKeepsOneStake(c, s, h);
      }
    case Exit(p) => KillCreators(s.handles, p);
    case _ => OtherStepsHaveNoStake(c, s, t);
  }

  lemma OtherStepsHaveNoStake(c: Config, s: State, t: Step)
    requires Possible(c, s, t) && !t.Move? && !t.Exit?
    ensures var s' := Next(c, s, t);
            s'.handles == s.handles && s'.initials == s.initials && (s'.set'.Absent? ==> s.set'.Absent?)
  {
  }

  ghost predicate InitialisesOnce(c: Config) {
    forall sched | IsRun(UnquietProgram(c), sched) :: |Exec(UnquietProgram(c), sched).initials| <= 1
  }

  /** Even with openings in flight across the unlinking, no run adds two initial values exactly
      when no two openers can create the set, one of them without O_EXCL. */
  lemma InitialisesOnceIff(c: Config)
    requires Valid(c)
    ensures InitialisesOnce(c) <==> NoOverlap(c)
  {
    if NoOverlap(c) {
      var inv := (s: State) => OneStake(c, s);
      SumConstant(Init(c).handles, IsCreating, 0);
      forall s: State, t: Step | inv(s) && Possible(c, s, t) ensures inv(Next(c, s, t)) {
        StepKeepsOneStake(c, s, t);
      }
      forall sched | IsRun(UnquietProgram(c), sched) ensures |Exec(UnquietProgram(c), sched).initials| <= 1 {
        InvariantOfRun(UnquietProgram(c), inv, sched);
        SumNonNegative(Exec(UnquietProgram(c), sched).handles, IsCreating);
      }
    } else {
      var i: nat, j: nat :| CanOverlap(c, i, j);
      var s := OpeningAcrossUnlinkInitialisesTwice(c, i, j);
      assert !InitialisesOnce(c);
    }
  }
}
