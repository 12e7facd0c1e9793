/** Systems of threads and their runs.
    A thread that may move does so in exactly one way, so a run is determined by its schedule:
    which thread moved at each step. */
module Runs {

  datatype System<!S, !T> = System(init: S, enabled: (S, T) -> bool, next: (S, T) -> S)

  /** The state a schedule leads to. */
  ghost function Exec<S, T>(sys: System<S, T>, sched: seq<T>): S
  {
    if sched == [] then sys.init
    else sys.next(Exec(sys, sched[..|sched| - 1]), sched[|sched| - 1])
  }

  /** Every thread named by the schedule could move when it was its turn. */
  ghost predicate IsRun<S, T>(sys: System<S, T>, sched: seq<T>)
  {
    sched != [] ==>
      && IsRun(sys, sched[..|sched| - 1])
      && sys.enabled(Exec(sys, sched[..|sched| - 1]), sched[|sched| - 1])
  }

  ghost predicate Stuck<S, T(!new)>(sys: System<S, T>, s: S)
  {
    forall t: T :: !sys.enabled(s, t)
  }

  /** A run that cannot be prolonged. */
  ghost predicate IsMaximal<S, T(!new)>(sys: System<S, T>, sched: seq<T>)
  {
    IsRun(sys, sched) && Stuck(sys, Exec(sys, sched))
  }

  ghost predicate Inductive<S(!new), T(!new)>(sys: System<S, T>, inv: S -> bool)
  {
    && inv(sys.init)
    && forall s: S, t: T :: inv(s) && sys.enabled(s, t) ==> inv(sys.next(s, t))
  }

  /** `clock` grows by at least one at every step that starts in the invariant. */
  ghost predicate Ticks<S(!new), T(!new)>(sys: System<S, T>, inv: S -> bool, clock: S -> int)
  {
    forall s: S, t: T :: inv(s) && sys.enabled(s, t) ==> clock(sys.next(s, t)) > clock(s)
  }

  /** `clock` grows by exactly one. */
  ghost predicate CountsSteps<S(!new), T(!new)>(sys: System<S, T>, inv: S -> bool, clock: S -> int)
  {
    forall s: S, t: T :: inv(s) && sys.enabled(s, t) ==> clock(sys.next(s, t)) == clock(s) + 1
  }

  lemma {:induction false} InvariantOfRun<S(!new), T(!new)>(sys: System<S, T>, inv: S -> bool, sched: seq<T>)
    requires Inductive(sys, inv)
    requires IsRun(sys, sched)
    ensures inv(Exec(sys, sched))
  {
    if sched != [] {
      InvariantOfRun(sys, inv, sched[..|sched| - 1]);
    }
  }

  /** Every prefix of a run is one, and the next step of the schedule can be taken there. */
  lemma {:induction false} PrefixIsRun<S, T>(sys: System<S, T>, sched: seq<T>, n: nat)
    requires IsRun(sys, sched) && n <= |sched|
    ensures IsRun(sys, sched[..n])
    ensures n < |sched| ==> sys.enabled(Exec(sys, sched[..n]), sched[n])
    decreases |sched|
  {
    if n == |sched| {
      assert sched[..n] == sched;
    } else {
      var front := sched[..|sched| - 1];
      if n < |front| {
        PrefixIsRun(sys, front, n);
      }
      assert front[..n] == sched[..n];
    }
  }

  /** What every step keeps holds from any prefix of a run to its end. */
  lemma {:induction false} KeptFromPrefix<S(!new), T(!new)>(
      sys: System<S, T>, inv: S -> bool, prefix: seq<T>, sched: seq<T>)
    requires forall s: S, t: T :: inv(s) && sys.enabled(s, t) ==> inv(sys.next(s, t))
    requires IsRun(sys, sched) && prefix <= sched && inv(Exec(sys, prefix))
    ensures inv(Exec(sys, sched))
  {
    if |prefix| < |sched| {
      KeptFromPrefix(sys, inv, prefix, sched[..|sched| - 1]);
    } else {
      assert prefix == sched;
    }
  }

  lemma {:induction false} LengthOfRun<S(!new), T(!new)>(
      sys: System<S, T>, inv: S -> bool, clock: S -> int, sched: seq<T>)
    requires Inductive(sys, inv) && Ticks(sys, inv, clock)
    requires IsRun(sys, sched)
    ensures |sched| <= clock(Exec(sys, sched)) - clock(sys.init)
  {
    if sched != [] {
      InvariantOfRun(sys, inv, sched[..|sched| - 1]);
      LengthOfRun(sys, inv, clock, sched[..|sched| - 1]);
    }
  }

  lemma {:induction false} ExactLengthOfRun<S(!new), T(!new)>(
      sys: System<S, T>, inv: S -> bool, clock: S -> int, sched: seq<T>)
    requires Inductive(sys, inv) && CountsSteps(sys, inv, clock)
    requires IsRun(sys, sched)
    ensures |sched| == clock(Exec(sys, sched)) - clock(sys.init)
  {
    if sched != [] {
      InvariantOfRun(sys, inv, sched[..|sched| - 1]);
      ExactLengthOfRun(sys, inv, clock, sched[..|sched| - 1]);
    }
  }

  lemma {:induction false} RunAppend<S, T>(sys: System<S, T>, sched: seq<T>, t: T)
    requires IsRun(sys, sched) && sys.enabled(Exec(sys, sched), t)
    ensures IsRun(sys, sched + [t])
    ensures Exec(sys, sched + [t]) == sys.next(Exec(sys, sched), t)
  {
    assert (sched + [t])[..|sched|] == sched;
  }

  /** The run that goes on with one step of `t`. */
  lemma Go<S, T>(sys: System<S, T>, sched: seq<T>, t: T) returns (longer: seq<T>)
    requires IsRun(sys, sched) && sys.enabled(Exec(sys, sched), t)
    ensures longer == sched + [t] && IsRun(sys, longer)
    ensures Exec(sys, longer) == sys.next(Exec(sys, sched), t)
  {
    longer := sched + [t];
    RunAppend(sys, sched, t);
  }

  /** When the clock is bounded, every run can be prolonged to a maximal one. */
  lemma {:induction false} Prolong<S(!new), T(!new)>(
      sys: System<S, T>, inv: S -> bool, clock: S -> int, bound: int, sched: seq<T>)
      returns (full: seq<T>)
    requires Inductive(sys, inv) && Ticks(sys, inv, clock)
    requires forall s: S :: inv(s) ==> clock(s) <= bound
    requires IsRun(sys, sched)
    ensures IsMaximal(sys, full) && sched <= full
    decreases bound - clock(Exec(sys, sched))
  {
    var s := Exec(sys, sched);
    InvariantOfRun(sys, inv, sched);
    if t: T :| sys.enabled(s, t) {
      RunAppend(sys, sched, t);
      InvariantOfRun(sys, inv, sched + [t]);
      full := Prolong(sys, inv, clock, bound, sched + [t]);
    } else {
      full := sched;
    }
  }
}
