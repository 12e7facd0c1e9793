/** Two histories of calls to the timers of posix1b/posix_time.c that end badly. */
module TimerScenarios {
  import opened TimeArithmetic
  import opened TimerPass
  import opened Timers

  /** Once, one second from now. */
  const ONE_SECOND := Itimerspec(Timespec(0, 0), Timespec(1, 0))

  /** Set `t` to go off once, one second from `sec`. */
  method Start(table: Table, t: Timer, sec: nat)
    requires table.Valid() && !t.running && t !in table.list
    modifies table, t, table.list`nextActive
    ensures table.Valid() && table.list == [t] + old(table.list)
    ensures EntryOf(t) == Entry(Timeval(sec + 1, 0), ZERO) && t.running
    ensures table.single == (old(table.list) == [])
  {
    var r, armed := table.SetTime(t, TIMER_RELTIME, Some(ONE_SECOND), Timeval(sec, 0));
  }

  lemma BothFall(es: seq<Entry>, now: Timeval)
    requires |es| == 2 && Falls(es[0], now) && Falls(es[1], now)
    ensures Kept(es, 0, false, now) == [1]
  {
    assert Kept(es, 2, false, now) == [];
    assert Kept(es, 1, true, now) == [1];
  }

  method StartBoth(table: Table, a: Timer, b: Timer)
    requires a != b && table.Valid() && table.list == [] && !a.running && !b.running
    modifies table, a, b
    ensures table.Valid() && table.list == [b, a] && !table.single
    ensures EntryOf(a) == EntryOf(b) == Entry(Timeval(1, 0), ZERO)
  {
    Start(table, a, 0);
    assert table.list == [a];
    Start(table, b, 0);
  }

  /** Two one-shots fall due together. Neither is marked as running afterwards, but one is still
      in the list. */
  method DueTogether(table: Table, a: Timer, b: Timer)
    requires a != b && table.Valid() && table.list == [] && !a.running && !b.running
    modifies table, a, b
    ensures table.Valid() && table.list == [a] && !a.running
  {
    StartBoth(table, a, b);
    ghost var l, es, now := table.list, Entries(table.list), Timeval(2, 0);
    assert Falls(es[0], now) && Falls(es[1], now);
    var notified, armed := table.HandlerPass(Timeval(2, 0));
    BothFall(es, now);
    assert Ran(l)[1] == a.running;
  }

  /** Setting that one once more makes the links run in a circle. */
  method ListIsLost() returns (table: Table)
    ensures forall m: seq<Timer> :: !IsList(table.active, m)
  {
    table := new Table();
    var a := new Timer();
    var b := new Timer();
    DueTogether(table, a, b);
    var r, armed := table.SetTime(a, TIMER_RELTIME, Some(ONE_SECOND), Timeval(2, 0));
  }

  method FireAlone(table: Table, t: Timer) returns (notified: seq<Timer>)
    requires table.Valid() && table.list == [] && !t.running
    modifies table, t
    ensures table.Valid() && table.list == notified == [t]
    ensures EntryOf(t) == Entry(Timeval(1, 0), ZERO)
  {
    Start(table, t, 0);
    assert table.list == [t];
    notified := table.SinglePass();
  }

  /** A one-shot that had the interval timer for itself fires, and another timer is set. */
  method FireAndStart(table: Table, t: Timer, u: Timer) returns (notified: seq<Timer>)
    requires t != u && table.Valid() && table.list == [] && !t.running && !u.running
    modifies table, t, u
    ensures table.Valid() && table.list == [u, t] && !table.single && notified == [t]
    ensures EntryOf(t) == Entry(Timeval(1, 0), ZERO)
  {
    notified := FireAlone(table, t);
    Start(table, u, 1);
  }

  lemma SecondIsNotified(l: seq<Timer>, es: seq<Entry>, now: Timeval)
    requires |l| == |es| == 2 && es[1] == Entry(Timeval(1, 0), ZERO) && Normal(now) && now.sec >= 1
    ensures l[1] in ExpiredTimers(l, es, 2, now)
  {
    DueMeansReached(es[1], now);
    ExpiredIsExact(es, 2, now);
    ExpiredInRange(l, es, 2, now);
    var k := Expired(es, 2, now);
    var a :| 0 <= a < |k| && k[a] == 1;
    assert ExpiredTimers(l, es, 2, now)[a] == l[1];
  }

  /** It was not taken out of the list: every later pass notifies it a second time. */
  method FiresTwice(now: Timeval) returns (t: Timer, first: seq<Timer>, second: seq<Timer>)
    requires Normal(now) && now.sec >= 1
    ensures t in first && t in second && t.interval == ZERO
  {
    var table := new Table();
    t := new Timer();
    var u := new Timer();
    first := FireAndStart(table, t, u);
    ghost var l, es := table.list, Entries(table.list);
    var armed: Itimer;
    second, armed := table.HandlerPass(now);
    assert Entries(l)[1].interval == t.interval;
    assert es[1] == Entry(Timeval(1, 0), ZERO);
    SecondIsNotified(l, es, now);
  }
}
