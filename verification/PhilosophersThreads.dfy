/** The philosophers' shared memory, updated in place one step at a time
    (functional/semaphores/sem_philosopher.c). */
module PhilosophersThreads {
  import opened Runs
  import opened Philosophers
  import opened PhilosophersRuns

  class Table {
    const loops: nat
    const state: array<Mood>
    const ph: array<nat>
    var lock: nat
    var phils: seq<Philosopher>
    ghost const config: Config
    ghost var meals: seq<nat>

    ghost function View(): State
      reads this, state, ph
    {
      State(state[..], ph[..], lock, phils, meals)
    }

    ghost predicate WellFormed()
      reads this
    {
      && config == Config(state.Length, loops)
      && state.Length == ph.Length == |phils| == |meals|
    }

    /** What main does before it creates the threads. */
    constructor (n: nat, loops: nat)
      ensures WellFormed() && config == Config(n, loops)
      ensures fresh(state) && fresh(ph) && View() == Init(config)
    {
      this.loops := loops;
      state := new Mood[n](_ => Thinking);
      ph := new nat[n](_ => 0);
      lock := 1;
      phils := seq(n, _ => Philosopher(if 0 < loops then Think else Done, 0));
      config := Config(n, loops);
      meals := seq(n, _ => 0);
    }

    /** The neighbours as `test` and `philosopher` compute them. */
    method Neighbours(id: nat) returns (preID: nat, postID: nat)
      requires id < state.Length
      ensures preID == (id + state.Length - 1) % state.Length && postID == (id + 1) % state.Length
      ensures preID == Pre(state.Length, id) && postID == Post(state.Length, id)
    {
      var n := state.Length;
      NeighboursAreModulo(n, id);
      SmallModulo(if id == 0 then 0 else id - 1, n);
      SmallModulo(if id + 1 >= n then 0 else id + 1, n);
      preID := if id - 1 < 0 then n + (id - 1) else (id - 1) % n;
      postID := if id + 1 >= n then id + 1 - n else (id + 1) % n;
    }

    /** The check of `test(id)` and, if it succeeds, the change of state. */
    method Test(id: nat) returns (granted: bool)
      requires WellFormed() && id < state.Length
      modifies state
      ensures var n := state.Length;
              granted <==> old(state[id] == Hungry && state[(id + n - 1) % n] != Eating &&
                               state[(id + 1) % n] != Eating)
      ensures granted == old(MayEat(View(), id))
      ensures state[..] == if granted then old(state[..])[id := Eating] else old(state[..])
    {
      var preID, postID := Neighbours(id);
      granted := state[id] == Hungry && state[preID] != Eating && state[postID] != Eating;
      if granted {
        state[id] := Eating;
      }
    }

    method Goto(p: nat, pc: Pc)
      requires p < |phils|
      modifies `phils
      ensures phils == old(phils)[p := old(phils)[p].(pc := pc)]
    {
      phils := phils[p := phils[p].(pc := pc)];
    }

    method TestStep(p: nat)
      requires WellFormed() && Enabled(View(), p) && Tests(phils[p].pc)
      modifies this`phils, state
      ensures WellFormed() && View() == Next(config, old(View()), p)
    {
      var preID, postID := Neighbours(p);
      var pc := phils[p].pc;
      var granted: bool;
      match pc {
        case TestPre =>
          granted := Test(preID);
          Goto(p, if granted then PostPre else TestPost);
        case TestPost =>
          granted := Test(postID);
          Goto(p, if granted then PostPost else Leave);
        case TestSelf =>
          granted := Test(p);
          Goto(p, if granted then PostSelf else Release);
      }
    }

    method PostStep(p: nat)
      requires WellFormed() && Enabled(View(), p) && Posts(phils[p].pc)
      modifies this`phils, ph
      ensures WellFormed() && View() == Next(config, old(View()), p)
    {
      var preID, postID := Neighbours(p);
      match phils[p].pc {
        case PostPre =>
          ph[preID] := ph[preID] + 1;
          Goto(p, TestPost);
        case PostPost =>
          ph[postID] := ph[postID] + 1;
          Goto(p, Leave);
        case PostSelf =>
          ph[p] := ph[p] + 1;
          Goto(p, Release);
      }
    }

    method OtherStep(p: nat)
      requires WellFormed() && Enabled(View(), p) && !Tests(phils[p].pc) && !Posts(phils[p].pc)
      modifies this, state, ph
      ensures WellFormed() && View() == Next(config, old(View()), p)
    {
      match phils[p].pc {
        case Think =>
          lock := lock - 1;
          Goto(p, GetHungry);
        case GetHungry =>
          state[p] := Hungry;
          Goto(p, TestSelf);
        case Release =>
          lock := lock + 1;
          Goto(p, Await);
        case Await =>
          ph[p] := ph[p] - 1;
          meals := meals[p := meals[p] + 1];
          Goto(p, Eat);
        case Eat =>
          lock := lock - 1;
          Goto(p, Finish);
        case Finish =>
          state[p] := Thinking;
          Goto(p, TestPre);
        case Leave =>
          lock := lock + 1;
          var i := phils[p].i + 1;
          phils := phils[p := Philosopher(if i < loops then Think else Done, i)];
      }
    }

    /** One step of thread `p`. */
    method Step(p: nat)
      requires WellFormed() && Enabled(View(), p)
      modifies this, state, ph
      ensures WellFormed() && View() == Next(config, old(View()), p)
    {
      var pc := phils[p].pc;
      if pc.TestSelf? || pc.TestPre? || pc.TestPost? {
        TestStep(p);
      } else if pc.PostSelf? || pc.PostPre? || pc.PostPost? {
        PostStep(p);
      } else {
        OtherStep(p);
      }
    }

    predicate Ready(p: nat)
      requires WellFormed()
      reads this, state, ph
      ensures Ready(p) == Enabled(View(), p)
    {
      p < |phils| &&
      match phils[p].pc
      case Think => lock > 0
      case Eat => lock > 0
      case Await => ph[p] > 0
      case Done => false
      case _ => true
    }

    /** The shared memory is where the schedule leads. */
    ghost predicate Reached(sched: seq<nat>)
      reads this, state, ph
    {
      && WellFormed()
      && IsRun(Program(config), sched)
      && Exec(Program(config), sched) == View()
    }

    /** From creating the threads to joining them, whichever thread the scheduler picks each
        time: the program ends and everybody has eaten LOOP_NUM times. */
    method CreateAndJoin()
      requires WellFormed() && View() == Init(config)
      modifies this, state, ph
      ensures WellFormed() && AllDone(View())
      ensures forall p | 0 <= p < config.n :: meals[p] == loops
    {
      ghost var sched: seq<nat> := [];
      while exists p :: 0 <= p < |phils| && Ready(p)
        invariant Reached(sched)
        decreases TotalSteps(config) - |sched|
      {
        var p :| 0 <= p < |phils| && Ready(p);
        RunAppend(Program(config), sched, p);
        sched := sched + [p];
        assert |sched| <= TotalSteps(config) by { EveryRun(config, sched); }
        Step(p);
      }
      forall p: nat ensures !Enabled(View(), p) {
        assert p < |phils| ==> !Ready(p);
      }
      EveryMaximalRun(config, sched);
    }
  }
}
