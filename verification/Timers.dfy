/** The timer multiplexer of posix1b/posix_time.c: timers linked into the list `active_timers`,
    walked and relinked in place by the signal handler and by `timer_settime`. */
module Timers {
  import opened Sequences
  import opened TimeArithmetic
  import opened TimerPass
  import TimerHistory

  /** `start` and `expiries` record when the timer was set to go off first and how often its
      alarm has been moved on since. */
  class Timer {
    var nextActive: Timer?
    var nextExpired: Timer?
    var interval: Timeval
    var nextAlarm: Timeval
    var running: bool
    ghost var start: Timeval
    ghost var expiries: nat

    /** `timer_create`. */
    constructor ()
      ensures !running
    {
      nextActive, nextExpired := null, null;
      interval, nextAlarm := ZERO, ZERO;
      running := false;
      start, expiries := ZERO, 0;
    }
  }

  ghost function EntryOf(t: Timer): Entry
    reads t`nextAlarm, t`interval
  {
    Entry(t.nextAlarm, t.interval)
  }

  ghost function Entries(l: seq<Timer>): seq<Entry>
    reads l
  {
    seq(|l|, i requires 0 <= i < |l| reads l => EntryOf(l[i]))
  }

  /** The alarm has not drifted from the schedule set by `timer_settime`. */
  ghost predicate OnSchedule(t: Timer)
    reads t`nextAlarm, t`interval, t`start, t`expiries
  {
    t.nextAlarm == AfterExpiries(t.start, t.interval, t.expiries)
  }

  ghost function At(l: seq<Timer>, i: nat): Timer? {
    if i < |l| then l[i] else null
  }

  ghost predicate Distinct(l: seq<Timer>) {
    forall i, j | 0 <= i < j < |l| :: l[i] != l[j]
  }

  ghost function Links(l: seq<Timer>): seq<Timer?>
    reads l
  {
    seq(|l|, i requires 0 <= i < |l| reads l => l[i].nextActive)
  }

  ghost function ExpiredLinks(l: seq<Timer>): seq<Timer?>
    reads l
  {
    seq(|l|, i requires 0 <= i < |l| reads l => l[i].nextExpired)
  }

  ghost function Ran(l: seq<Timer>): seq<bool>
    reads l
  {
    seq(|l|, i requires 0 <= i < |l| reads l => l[i].running)
  }

  ghost predicate IsList(head: Timer?, l: seq<Timer>)
    reads l`nextActive
  {
    && Distinct(l)
    && head == At(l, 0)
    && forall i | 0 <= i < |l| :: l[i].nextActive == At(l, i + 1)
  }

  ghost predicate Indices(l: seq<Timer>, k: seq<nat>) {
    forall a | 0 <= a < |k| :: k[a] < |l|
  }

  ghost function Pick(l: seq<Timer>, k: seq<nat>): seq<Timer>
    requires Indices(l, k)
  {
    seq(|k|, a requires 0 <= a < |k| => l[k[a]])
  }

  // ---------------------------------------------------------------------------------------
  // The walk, on the values of the links
  // ---------------------------------------------------------------------------------------

  /** The links once the walk has passed the first `n` timers of `l`: who falls due is cut out
      of whatever stood before it, be that still in the list or not. */
  ghost predicate Relinked(head: Timer?, links: seq<Timer?>, l: seq<Timer>, es: seq<Entry>, n: nat, now: Timeval)
    requires |es| == |l| == |links| && n <= |l|
  {
    && head == (if n > 0 && Falls(es[0], now) then At(l, 1) else At(l, 0))
    && (forall j | 0 <= j < |l| ::
          links[j] == if j + 1 < n && Falls(es[j + 1], now) then At(l, j + 2) else At(l, j + 1))
  }

  /** From `head` the links run through the timers at positions `k` and end there. */
  ghost predicate IsChain(head: Timer?, links: seq<Timer?>, l: seq<Timer>, k: seq<nat>)
    requires |links| == |l| && Indices(l, k)
  {
    && head == At(Pick(l, k), 0)
    && forall a | 0 <= a < |k| :: links[k[a]] == At(Pick(l, k), a + 1)
  }

  lemma ChainCons(links: seq<Timer?>, l: seq<Timer>, i: nat, k: seq<nat>)
    requires |links| == |l| && i < |l| && Indices(l, k) && IsChain(links[i], links, l, k)
    ensures Indices(l, [i] + k) && IsChain(l[i], links, l, [i] + k)
  {
    assert Pick(l, [i] + k) == [l[i]] + Pick(l, k);
  }

  lemma {:induction false} KeptIsChain(
      head: Timer?, links: seq<Timer?>, l: seq<Timer>, es: seq<Entry>, now: Timeval, i: nat, skipped: bool)
    requires |es| == |l| == |links| && Relinked(head, links, l, es, |l|, now)
    ensures Indices(l, Kept(es, i, skipped, now))
    ensures IsChain(if i < |l| && Falls(es[i], now) && !skipped then At(l, i + 1) else At(l, i),
                    links, l, Kept(es, i, skipped, now))
    decreases |es| - i
  {
    if i < |l| {
      KeptIsChain(head, links, l, es, now, i + 1, Falls(es[i], now) && !skipped);
      if !(Falls(es[i], now) && !skipped) {
        ChainCons(links, l, i, Kept(es, i + 1, false, now));
      }
    }
  }

  /** After the walk the list is made of the timers that stay. */
  lemma RelinkedIsList(head: Timer?, l: seq<Timer>, es: seq<Entry>, now: Timeval)
    requires |es| == |l| && Distinct(l) && Relinked(head, Links(l), l, es, |l|, now)
    ensures Indices(l, Kept(es, 0, false, now))
    ensures IsList(head, Pick(l, Kept(es, 0, false, now)))
  {
    TimerHistory.KeptInRange(es, 0, false, now);
    KeptIsChain(head, Links(l), l, es, now, 0, false);
    var k := Kept(es, 0, false, now);
    forall a | 0 <= a < |k| ensures l[k[a]].nextActive == At(Pick(l, k), a + 1) {
      assert Links(l)[k[a]] == At(Pick(l, k), a + 1);
    }
  }

  /** The entries once the first `n` timers are visited. */
  ghost function VisitedEntries(es: seq<Entry>, n: nat, now: Timeval): seq<Entry> {
    seq(|es|, j requires 0 <= j < |es| =>
      if j < n then Entry(Advanced(es[j], now), es[j].interval) else es[j])
  }

  ghost function StillRunning(ran: seq<bool>, es: seq<Entry>, n: nat, now: Timeval): seq<bool>
    requires |ran| == |es|
  {
    seq(|es|, j requires 0 <= j < |es| => ran[j] && !(j < n && Falls(es[j], now)))
  }

  lemma ExpiredInRange(l: seq<Timer>, es: seq<Entry>, n: nat, now: Timeval)
    requires n <= |es| == |l|
    ensures Indices(l, Expired(es, n, now))
    ensures forall a | 0 <= a < |Expired(es, n, now)| :: Expired(es, n, now)[a] < n
  {
    ExpiredIsExact(es, n, now);
    assert forall a | 0 <= a < |Expired(es, n, now)| :: Expired(es, n, now)[a] in Expired(es, n, now);
  }

  ghost function ExpiredTimers(l: seq<Timer>, es: seq<Entry>, n: nat, now: Timeval): seq<Timer>
    requires |es| == |l| && n <= |l|
  {
    ExpiredInRange(l, es, n, now);
    Pick(l, Expired(es, n, now))
  }

  /** A due timer is put in front of the chain; the others keep their links. */
  lemma ChainGrows(head: Timer?, links: seq<Timer?>, l: seq<Timer>, es: seq<Entry>, n: nat, now: Timeval)
    requires |es| == |l| == |links| && n < |l| && Indices(l, Expired(es, n, now))
    requires IsChain(head, links, l, Expired(es, n, now))
    ensures Indices(l, Expired(es, n + 1, now))
    ensures if Due(es[n], now) then IsChain(l[n], links[n := head], l, Expired(es, n + 1, now))
            else IsChain(head, links, l, Expired(es, n + 1, now))
  {
    ExpiredInRange(l, es, n, now);
    ExpiredInRange(l, es, n + 1, now);
    var k := Expired(es, n, now);
    if Due(es[n], now) {
      ChainCons(links[n := head], l, n, k);
    } else {
      assert Expired(es, n + 1, now) == k;
    }
  }

  /** The chain that the second loop follows. */
  lemma ChainIsLinked(expired: Timer?, l: seq<Timer>, es: seq<Entry>, n: nat, now: Timeval)
    requires n <= |es| == |l| && Indices(l, Expired(es, n, now))
    requires IsChain(expired, ExpiredLinks(l), l, Expired(es, n, now))
    ensures LinkedByExpired(expired, ExpiredTimers(l, es, n, now))
  {
    var k := Expired(es, n, now);
    forall a | 0 <= a < |k| ensures l[k[a]].nextExpired == At(Pick(l, k), a + 1) {
      assert ExpiredLinks(l)[k[a]] == At(Pick(l, k), a + 1);
    }
  }

  ghost predicate LinkedByExpired(head: Timer?, chain: seq<Timer>)
    reads chain`nextExpired
  {
    head == At(chain, 0) && forall i | 0 <= i < |chain| :: chain[i].nextExpired == At(chain, i + 1)
  }

  /** Everything the walk reads and changes, as values. */
  datatype Memory = Memory(
    head: Timer?, links: seq<Timer?>, entries: seq<Entry>, ran: seq<bool>,
    timeout: Timeval, expired: Timer?, expiredLinks: seq<Timer?>)

  ghost predicate Sized(m: Memory, n: nat) {
    |m.links| == |m.entries| == |m.ran| == |m.expiredLinks| == n
  }

  /** What visiting the timer at position `n` does to the memory. */
  ghost function VisitEffect(m: Memory, l: seq<Timer>, n: nat, now: Timeval): Memory
    requires Sized(m, |l|) && n < |l|
  {
    var e := m.entries[n];
    Memory(
      if n == 0 && Falls(e, now) then At(l, 1) else m.head,
      if n > 0 && Falls(e, now) then m.links[n - 1 := At(l, n + 1)] else m.links,
      m.entries[n := Entry(Advanced(e, now), e.interval)],
      m.ran[n := m.ran[n] && !Falls(e, now)],
      if Falls(e, now) then m.timeout else Shorter(m.timeout, Remaining(e, now)),
      if Due(e, now) then l[n] else m.expired,
      if Due(e, now) then m.expiredLinks[n := m.expired] else m.expiredLinks)
  }

  /** The walk that started with entries `es` stands at timer `n`. */
  ghost predicate WalkAt(m: Memory, l: seq<Timer>, es: seq<Entry>, ran: seq<bool>, n: nat, now: Timeval) {
    && Sized(m, |l|) && |es| == |ran| == |l| && n <= |l|
    && Relinked(m.head, m.links, l, es, n, now)
    && m.entries == VisitedEntries(es, n, now)
    && m.ran == StillRunning(ran, es, n, now)
    && m.timeout == Timeout(es, n, now)
    && Indices(l, Expired(es, n, now)) && IsChain(m.expired, m.expiredLinks, l, Expired(es, n, now))
  }

  lemma RelinkStep(head: Timer?, links: seq<Timer?>, l: seq<Timer>, es: seq<Entry>, n: nat, now: Timeval)
    requires |es| == |l| == |links| && n < |l| && Relinked(head, links, l, es, n, now)
    ensures Relinked(if n == 0 && Falls(es[0], now) then At(l, 1) else head,
                     if n > 0 && Falls(es[n], now) then links[n - 1 := At(l, n + 1)] else links,
                     l, es, n + 1, now)
  {
  }

  lemma WalkStep(m: Memory, l: seq<Timer>, es: seq<Entry>, ran: seq<bool>, n: nat, now: Timeval)
    requires WalkAt(m, l, es, ran, n, now) && n < |l|
    ensures WalkAt(VisitEffect(m, l, n, now), l, es, ran, n + 1, now)
  {
    assert m.entries[n] == es[n];
    RelinkStep(m.head, m.links, l, es, n, now);
    ChainGrows(m.expired, m.expiredLinks, l, es, n, now);
    assert VisitedEntries(es, n + 1, now) == m.entries[n := Entry(Advanced(es[n], now), es[n].interval)];
    assert StillRunning(ran, es, n + 1, now) == m.ran[n := m.ran[n] && !Falls(es[n], now)];
  }

  lemma WalkStart(m: Memory, l: seq<Timer>, now: Timeval)
    requires Sized(m, |l|) && m.head == At(l, 0) && (forall i | 0 <= i < |l| :: m.links[i] == At(l, i + 1))
    requires m.timeout == ZERO && m.expired == null
    ensures WalkAt(m, l, m.entries, m.ran, 0, now)
  {
    assert m.entries == VisitedEntries(m.entries, 0, now);
    assert m.ran == StillRunning(m.ran, m.entries, 0, now);
  }

  // ---------------------------------------------------------------------------------------
  // Arguments of timer_settime
  // ---------------------------------------------------------------------------------------

  datatype Timespec = Timespec(sec: int, nsec: int)
  datatype Itimerspec = Itimerspec(interval: Timespec, value: Timespec)
  datatype Option<T> = None | Some(value: T)
  datatype Errno = EINVAL | EFAULT
  datatype Result = Ok | Err(error: Errno)

  const TIMER_RELTIME := 0
  const TIMER_ABSTIME := 1

  /** Nanoseconds to microseconds, truncating toward zero. */
  function ToTimeval(s: Timespec): (t: Timeval)
    ensures 0 <= s.nsec < 1000 * MILLION ==>
              Normal(t) && 0 <= 1000 * MILLION * s.sec + s.nsec - 1000 * Total(t) < 1000
  {
    Timeval(s.sec, if s.nsec >= 0 then s.nsec / 1000 else -((-s.nsec) / 1000))
  }

  predicate ProperNanoseconds(s: Timespec) { 0 <= s.nsec < 1000000000 }

  /** The alarm asked for is now, to the microsecond: for a relative value, none is left. */
  predicate AsksForNow(flags: int, value: Timespec, now: Timeval) {
    if flags == TIMER_ABSTIME
    then value.sec == now.sec && 1000 * now.usec <= value.nsec < 1000 * now.usec + 1000
    else value.sec == 0 && 0 <= value.nsec < 1000
  }

  /** The time from now to the first alarm, which comes at the time asked for. */
  function FirstValue(flags: int, val: Itimerspec, now: Timeval): (first: Timeval)
    ensures Total(AddTime(now, first)) ==
            Total(ToTimeval(val.value)) + if flags == TIMER_ABSTIME then 0 else Total(now)
  {
    if flags == TIMER_ABSTIME then SubtractTime(ToTimeval(val.value), now) else ToTimeval(val.value)
  }

  /** For proper nanoseconds and a normal clock that time is normal, and zero exactly if the alarm
      asked for is now. */
  lemma FirstValueIsZeroIff(flags: int, val: Itimerspec, now: Timeval)
    requires ProperNanoseconds(val.value) && Normal(now)
    ensures Normal(FirstValue(flags, val, now))
    ensures FirstValue(flags, val, now) == ZERO <==> AsksForNow(flags, val.value, now)
  {
  }

  ghost function Position(l: seq<Timer>, t: Timer): (i: nat)
    ensures i <= |l|
    ensures i < |l| ==> l[i] == t
    ensures i == |l| ==> t !in l
  {
    if l == [] then 0 else if l[0] == t then 0 else Position(l[1..], t) + 1
  }

  ghost function Unlisted(l: seq<Timer>, t: Timer): seq<Timer> {
    var i := Position(l, t);
    if i < |l| then Without(l, i) else l
  }

  /** The list after setting `t`: in front if it is started, out if it is stopped. */
  ghost function Enlisted(l: seq<Timer>, t: Timer, running: bool, first: Timeval): seq<Timer> {
    if running && first == ZERO then Unlisted(l, t)
    else if !running && first != ZERO && t !in l then [t] + l
    else l
  }

  /** A running timer without a first value is unlisted, and one with a first value is listed. */
  lemma ListedIfStarted(l: seq<Timer>, t: Timer, running: bool, first: Timeval)
    requires Distinct(l)
    ensures running && first == ZERO ==> t !in Enlisted(l, t, running, first)
    ensures first != ZERO && (running ==> t in l) ==> t in Enlisted(l, t, running, first)
  {
    var i := Position(l, t);
    if running && first == ZERO && i < |l| {
      var m := Without(l, i);
      forall a | 0 <= a < |m| ensures m[a] != t {
        assert m[a] == l[if a < i then a else a + 1] && l[i] == t;
      }
    }
  }

  lemma WithoutIsList(head: Timer?, l: seq<Timer>, i: nat)
    requires i < |l| && Distinct(l)
    requires if i == 0 then head == At(l, 1) else head == l[0] && l[i - 1].nextActive == At(l, i + 1)
    requires forall a | 0 <= a < |l| && a + 1 != i :: l[a].nextActive == At(l, a + 1)
    ensures IsList(head, Without(l, i))
  {
    var m := Without(l, i);
    forall a | 0 <= a < |m| ensures m[a].nextActive == At(m, a + 1) {
      assert m[a] == l[if a < i then a else a + 1];
    }
  }

  /** A list that starts at `t`, which is linked to `l[0]`, can only go on through `l`. */
  lemma {:induction false} GoesThrough(l: seq<Timer>, t: Timer, i: nat, m: seq<Timer>, j: nat)
    requires j <= i < |l| && IsList(t, m) && t.nextActive == l[0]
    requires forall a | 0 <= a < i :: l[a].nextActive == l[a + 1]
    ensures j + 1 < |m| && m[j + 1] == l[j]
  {
    if j > 0 {
      GoesThrough(l, t, i, m, j - 1);
      assert m[j].nextActive == At(m, j + 1) && l[j - 1].nextActive == l[j - 1 + 1];
    } else {
      assert m[0].nextActive == At(m, 1);
    }
  }

  /** Linking a timer in front of a list that it is already in leaves no list at all. */
  lemma TwiceLinkedIsNoList(l: seq<Timer>, t: Timer, i: nat)
    requires i < |l| && l[i] == t && t.nextActive == l[0]
    requires forall a | 0 <= a < i :: l[a].nextActive == l[a + 1]
    ensures forall m: seq<Timer> :: !IsList(t, m)
  {
    forall m: seq<Timer> | IsList(t, m) ensures false {
      GoesThrough(l, t, i, m, i);
    }
  }

  lemma PositionIs(l: seq<Timer>, t: Timer, i: nat)
    requires Distinct(l) && i < |l| && l[i] == t
    ensures Position(l, t) == i
  {
  }

  // ---------------------------------------------------------------------------------------
  // The list as a line-up of rows
  // ---------------------------------------------------------------------------------------

  ghost function RowsFrom(l: seq<Timer>, es: seq<Entry>, ran: seq<bool>): seq<TimerHistory.Row<Timer>>
    requires |l| == |es| == |ran|
  {
    seq(|l|, i requires 0 <= i < |l| => TimerHistory.Row(l[i], es[i], ran[i]))
  }

  ghost function RowsOf(l: seq<Timer>): seq<TimerHistory.Row<Timer>>
    reads l
  {
    RowsFrom(l, Entries(l), Ran(l))
  }

  lemma ExpiredAreNotified(l: seq<Timer>, es: seq<Entry>, ran: seq<bool>, now: Timeval)
    requires |l| == |es| == |ran|
    ensures ExpiredTimers(l, es, |l|, now) == TimerHistory.MultiNotified(RowsFrom(l, es, ran), now)
  {
    assert TimerHistory.Alarms(RowsFrom(l, es, ran)) == es;
    ExpiredInRange(l, es, |l|, now);
  }

  lemma PlaceIsPosition(l: seq<Timer>, es: seq<Entry>, ran: seq<bool>, t: Timer)
    requires |l| == |es| == |ran| && Distinct(l)
    ensures TimerHistory.Place(RowsFrom(l, es, ran), t) == Position(l, t)
  {
    var rows := RowsFrom(l, es, ran);
    var i := TimerHistory.Place(rows, t);
    if i < |l| {
      PositionIs(l, t, i);
    } else {
      assert forall j | 0 <= j < |l| :: rows[j].timer == l[j];
    }
  }

  /** What becomes of the timers' attributes `xs`, if that of `t` becomes `x`, in the new list. */
  ghost function Relisted<X>(l: seq<Timer>, xs: seq<X>, t: Timer, running: bool, first: Timeval, x: X): seq<X>
    requires |xs| == |l|
  {
    var i := Position(l, t);
    if i == |l| then (if !running && first != ZERO then [x] + xs else xs)
    else if running && first == ZERO then Without(xs, i)
    else xs[i := x]
  }

  /** Setting `t` as a change of the rows. */
  lemma RelistedRows(
      l: seq<Timer>, es: seq<Entry>, ran: seq<bool>, t: Timer, first: Timeval, interval: Timeval, now: Timeval)
    requires |l| == |es| == |ran| && Distinct(l)
    requires var i := Position(l, t); first != ZERO && i < |l| ==> ran[i]
    ensures var i := Position(l, t);
            var running := i < |l| && ran[i];
            var es' := Relisted(l, es, t, running, first, Entry(AddTime(now, first), interval));
            var ran' := Relisted(l, ran, t, running, first, first != ZERO);
            && |Enlisted(l, t, running, first)| == |es'| == |ran'|
            && RowsFrom(Enlisted(l, t, running, first), es', ran') ==
               TimerHistory.SetRows(RowsFrom(l, es, ran), t, first, interval, now)
  {
    var i, rows, e := Position(l, t), RowsFrom(l, es, ran), Entry(AddTime(now, first), interval);
    PlaceIsPosition(l, es, ran, t);
    if i == |l| {
      assert RowsFrom([t] + l, [e] + es, [true] + ran) == [TimerHistory.Row(t, e, true)] + rows;
    } else {
      assert RowsFrom(Without(l, i), Without(es, i), Without(ran, i)) == Without(rows, i);
      assert RowsFrom(l, es[i := e], ran[i := first != ZERO]) == rows[i := TimerHistory.Row(t, e, first != ZERO)];
    }
  }

  /** The same in the heap: all timers of `l` but `t` are as they were. */
  lemma EntriesChanged(l: seq<Timer>, es: seq<Entry>, i: nat)
    requires |l| == |es| && i < |l|
    requires forall j | 0 <= j < |l| && j != i :: EntryOf(l[j]) == es[j]
    ensures Entries(l) == es[i := EntryOf(l[i])] && Entries(Without(l, i)) == Without(es, i)
  {
    assert forall j | 0 <= j < |l| - 1 :: Without(l, i)[j] == l[if j < i then j else j + 1];
  }

  lemma EntriesRelisted(l: seq<Timer>, es: seq<Entry>, t: Timer, running: bool, first: Timeval)
    requires |l| == |es| && Distinct(l) && (running ==> t in l)
    requires forall j | 0 <= j < |l| && l[j] != t :: EntryOf(l[j]) == es[j]
    ensures Entries(Enlisted(l, t, running, first)) == Relisted(l, es, t, running, first, EntryOf(t))
  {
    var i := Position(l, t);
    if i == |l| {
      assert Entries(l) == es;
      assert Entries([t] + l) == [EntryOf(t)] + Entries(l);
    } else {
      EntriesChanged(l, es, i);
    }
  }

  lemma RanChanged(l: seq<Timer>, ran: seq<bool>, i: nat)
    requires |l| == |ran| && i < |l|
    requires forall j | 0 <= j < |l| && j != i :: l[j].running == ran[j]
    ensures Ran(l) == ran[i := l[i].running] && Ran(Without(l, i)) == Without(ran, i)
  {
    assert forall j | 0 <= j < |l| - 1 :: Without(l, i)[j] == l[if j < i then j else j + 1];
  }

  lemma RanRelisted(l: seq<Timer>, ran: seq<bool>, t: Timer, running: bool, first: Timeval)
    requires |l| == |ran| && Distinct(l) && (running ==> t in l)
    requires forall j | 0 <= j < |l| && l[j] != t :: l[j].running == ran[j]
    ensures Ran(Enlisted(l, t, running, first)) == Relisted(l, ran, t, running, first, t.running)
  {
    var i := Position(l, t);
    if i == |l| {
      assert Ran(l) == ran;
      assert Ran([t] + l) == [t.running] + Ran(l);
    } else {
      RanChanged(l, ran, i);
    }
  }

  lemma RowsAreSet(
      l: seq<Timer>, es: seq<Entry>, ran: seq<bool>, t: Timer, first: Timeval, interval: Timeval, now: Timeval)
    requires |l| == |es| == |ran| && Distinct(l)
    requires var i := Position(l, t); first != ZERO && i < |l| ==> ran[i]
    requires forall j | 0 <= j < |l| && l[j] != t :: EntryOf(l[j]) == es[j] && l[j].running == ran[j]
    requires EntryOf(t) == Entry(AddTime(now, first), interval) && t.running == (first != ZERO)
    ensures var i := Position(l, t);
            RowsOf(Enlisted(l, t, i < |l| && ran[i], first)) ==
            TimerHistory.SetRows(RowsFrom(l, es, ran), t, first, interval, now)
  {
    var i := Position(l, t);
    RelistedRows(l, es, ran, t, first, interval, now);
    EntriesRelisted(l, es, t, i < |l| && ran[i], first);
    RanRelisted(l, ran, t, i < |l| && ran[i], first);
  }

  // ---------------------------------------------------------------------------------------
  // The table of timers
  // ---------------------------------------------------------------------------------------

  /** What `setitimer` is called with. */
  datatype Itimer = Itimer(value: Timeval, interval: Timeval)

  /** `list` is the timers linked from `active`. Methods return the timers they notify and the
      value they give to `setitimer`. */
  class Table {
    var active: Timer?
    var single: bool
    var timeout: Timeval
    ghost var list: seq<Timer>

    ghost predicate Valid()
      reads this`active, this`list, list`nextActive
    {
      IsList(active, list)
    }

    /** Single mode is for one timer, alarms and intervals are in range, every listed timer is on
        schedule, and those of `timers`, all the timers ever set, that are marked as running are
        listed. */
    ghost predicate Sound(timers: set<Timer>)
      reads this`active, this`single, this`list, list, timers
    {
      && Valid() && (single ==> |list| <= 1) && InOrder(Entries(list))
      && (forall i | 0 <= i < |list| :: OnSchedule(list[i]) && list[i] in timers)
      && (forall t | t in timers && t.running :: t in list)
    }

    constructor ()
      ensures Sound({}) && list == [] && !single
    {
      active := null;
      single := false;
      timeout := ZERO;
      list := [];
    }

    /** What the walk does at timer `t`, reached through `&active_timers` or the link of `prev`. */
    method Visit(prev: Timer?, t: Timer, now: Timeval, expired: Timer?) returns (expired': Timer?)
      requires prev != t && (if prev == null then active == t else prev.nextActive == t)
      modifies this`active, this`timeout, ({prev} - {null})`nextActive
      modifies t`nextExpired, t`nextAlarm, t`running, t`expiries
      ensures t.nextActive == old(t.nextActive) && t.interval == old(t.interval) && t.start == old(t.start)
      ensures t.nextAlarm == Advanced(old(EntryOf(t)), now)
      ensures t.running == (old(t.running) && !Falls(old(EntryOf(t)), now))
      ensures old(OnSchedule(t)) ==> OnSchedule(t)
      ensures timeout == if Falls(old(EntryOf(t)), now) then old(timeout)
                         else Shorter(old(timeout), Remaining(old(EntryOf(t)), now))
      ensures if Due(old(EntryOf(t)), now) then expired' == t && t.nextExpired == expired
              else expired' == expired && t.nextExpired == old(t.nextExpired)
      ensures active == if prev == null && Falls(old(EntryOf(t)), now) then old(t.nextActive) else old(active)
      ensures prev != null ==>
                && prev.nextActive == (if Falls(old(EntryOf(t)), now) then old(t.nextActive) else t)
                && unchanged(prev`nextExpired, prev`interval, prev`nextAlarm, prev`running, prev`start, prev`expiries)
    {
      expired' := expired;
      var rounded := AddTime(now, HALF_RESOLUTION);
      if CompareTime(rounded, t.nextAlarm) >= 0 {
        if t.interval.sec != 0 || t.interval.usec != 0 {
          t.nextAlarm := AddTime(t.nextAlarm, t.interval);
          t.expiries := t.expiries + 1;
          var delta := RESOLUTION;
          if CompareTime(t.nextAlarm, now) > 0 {
            delta := SubtractTime(t.nextAlarm, now);
          }
          timeout := Shorter(timeout, delta);
        } else {
          if prev == null {
            active := t.nextActive;
          } else {
            prev.nextActive := t.nextActive;
          }
          t.running := false;
        }
        t.nextExpired := expired;
        expired' := t;
      } else {
        timeout := Shorter(timeout, SubtractTime(t.nextAlarm, now));
      }
    }

    /** The memory, for the timers of `l`, is `m`. */
    ghost predicate MemIs(m: Memory, l: seq<Timer>, expired: Timer?)
      reads this`active, this`timeout, l`nextActive, l`nextExpired, l`nextAlarm, l`interval, l`running
    {
      && Sized(m, |l|) && active == m.head && timeout == m.timeout && expired == m.expired
      && forall i | 0 <= i < |l| ::
           && l[i].nextActive == m.links[i] && EntryOf(l[i]) == m.entries[i]
           && l[i].running == m.ran[i] && l[i].nextExpired == m.expiredLinks[i]
    }

    /** Visiting the timer at position `n` of `l`, as a change of the memory. */
    method VisitAt(prev: Timer?, t: Timer, now: Timeval, expired: Timer?,
                   ghost m: Memory, ghost l: seq<Timer>, ghost n: nat)
      returns (expired': Timer?)
      requires MemIs(m, l, expired)
      requires Distinct(l) && n < |l| && t == l[n] && prev == if n == 0 then null else l[n - 1]
      requires m.links[n] == At(l, n + 1) && if n == 0 then m.head == t else m.links[n - 1] == t
      modifies this`active, this`timeout, l`nextActive, l`nextExpired, l`nextAlarm, l`running, l`expiries
      ensures MemIs(VisitEffect(m, l, n, now), l, expired')
      ensures forall j | 0 <= j < |l| :: old(OnSchedule(l[j])) ==> OnSchedule(l[j])
    {
      expired' := Visit(prev, t, now, expired);
    }

    /** One turn of the walk. */
    method WalkOn(prev: Timer?, t: Timer, now: Timeval, expired: Timer?,
                  ghost m: Memory, ghost l: seq<Timer>, ghost es: seq<Entry>, ghost ran: seq<bool>, ghost n: nat)
      returns (expired': Timer?, ghost m': Memory)
      requires MemIs(m, l, expired) && WalkAt(m, l, es, ran, n, now)
      requires Distinct(l) && n < |l| && t == l[n] && prev == if n == 0 then null else l[n - 1]
      modifies this`active, this`timeout, l`nextActive, l`nextExpired, l`nextAlarm, l`running, l`expiries
      ensures MemIs(m', l, expired') && WalkAt(m', l, es, ran, n + 1, now)
      ensures t.nextActive == At(l, n + 1)
      ensures forall j | 0 <= j < |l| :: old(OnSchedule(l[j])) ==> OnSchedule(l[j])
    {
      m' := VisitEffect(m, l, n, now);
      WalkStep(m, l, es, ran, n, now);
      expired' := VisitAt(prev, t, now, expired, m, l, n);
    }

    /** The first loop of the handler. */
    method Walk(now: Timeval, ghost l: seq<Timer>, ghost es: seq<Entry>, ghost ran: seq<bool>)
      returns (expired: Timer?, ghost m: Memory)
      requires IsList(active, l) && |l| == |es| == |ran|
      requires forall i | 0 <= i < |l| :: EntryOf(l[i]) == es[i] && l[i].running == ran[i]
      modifies this`active, this`timeout, l`nextActive, l`nextExpired, l`nextAlarm, l`running, l`expiries
      ensures MemIs(m, l, expired) && WalkAt(m, l, es, ran, |l|, now)
      ensures forall j | 0 <= j < |l| :: old(OnSchedule(l[j])) ==> OnSchedule(l[j])
    {
      m := Memory(active, Links(l), es, ran, ZERO, null, ExpiredLinks(l));
      WalkStart(m, l, now);
      timeout := ZERO;
      expired, m := WalkThrough(now, m, l, es, ran);
    }

    method WalkThrough(now: Timeval, ghost m0: Memory, ghost l: seq<Timer>, ghost es: seq<Entry>, ghost ran: seq<bool>)
      returns (expired: Timer?, ghost m: Memory)
      requires Distinct(l) && MemIs(m0, l, null) && m0.head == At(l, 0) && WalkAt(m0, l, es, ran, 0, now)
      modifies this`active, this`timeout, l`nextActive, l`nextExpired, l`nextAlarm, l`running, l`expiries
      ensures MemIs(m, l, expired) && WalkAt(m, l, es, ran, |l|, now)
      ensures forall j | 0 <= j < |l| :: old(OnSchedule(l[j])) ==> OnSchedule(l[j])
    {
      expired, m := null, m0;
      ghost var n := 0;
      var prev: Timer? := null;
      var t := active;
      while t != null
        invariant n <= |l| && t == At(l, n) && prev == if n == 0 then null else l[n - 1]
        invariant MemIs(m, l, expired) && WalkAt(m, l, es, ran, n, now)
        invariant forall j | 0 <= j < |l| :: old(OnSchedule(l[j])) ==> OnSchedule(l[j])
        decreases |l| - n
      {
        expired, m := WalkOn(prev, t, now, expired, m, l, es, ran, n);
        n := n + 1;
        prev := t;
        t := t.nextActive;
      }
    }

    /** The second loop of the handler: every expired timer is notified, in this order. */
    method NotifyAll(expired: Timer?, ghost chain: seq<Timer>) returns (notified: seq<Timer>)
      requires LinkedByExpired(expired, chain)
      ensures notified == chain
    {
      ghost var n := 0;
      notified := [];
      var t := expired;
      while t != null
        invariant n <= |chain| && t == At(chain, n) && notified == chain[..n]
        decreases |chain| - n
      {
        notified := notified + [t];
        n := n + 1;
        t := t.nextExpired;
      }
    }

    /** What a pass leaves of the list `l`, whose entries and running flags were `es` and `ran`. */
    ghost predicate Passed(l: seq<Timer>, es: seq<Entry>, ran: seq<bool>, now: Timeval)
      requires |l| == |es| == |ran|
      reads this`active, this`list, this`timeout, l, list
    {
      && Indices(l, Kept(es, 0, false, now))
      && list == Pick(l, Kept(es, 0, false, now))
      && IsList(active, list)
      && Entries(l) == VisitedEntries(es, |l|, now)
      && Ran(l) == StillRunning(ran, es, |l|, now)
      && timeout == Timeout(es, |l|, now)
    }

    /** After a pass over running timers, being marked as running is being in the list, for every
        timer, if and only if no two neighbours were one-shots that fell due together. */
    lemma RunningIffListed(l: seq<Timer>, es: seq<Entry>, ran: seq<bool>, now: Timeval)
      requires |l| == |es| == |ran| && Distinct(l) && Passed(l, es, ran, now)
      requires forall j | 0 <= j < |l| :: ran[j]
      ensures (forall t | t in l :: t.running <==> t in list) <==> NoAdjacentFall(es, now)
    {
      KeepsPendingIff(es, now);
      var k := Kept(es, 0, false, now);
      forall j: nat | j < |l|
        ensures l[j].running <==> Pending(es, j, now)
        ensures l[j] in list <==> j in k
      {
        assert Ran(l)[j] == l[j].running;
        if j in k {
          var a :| 0 <= a < |k| && k[a] == j;
          assert Pick(l, k)[a] == l[j];
        }
        if l[j] in list {
          var a :| 0 <= a < |list| && list[a] == l[j];
          assert l[k[a]] == l[j];
        }
      }
      assert (forall t | t in l :: t.running <==> t in list) <==> KeepsPending(es, now) by {
        if forall t | t in l :: t.running <==> t in list {
          forall j: nat | j < |l| ensures j in k <==> Pending(es, j, now) {
            assert l[j] in l;
          }
        }
      }
    }

    lemma PassedRows(l: seq<Timer>, es: seq<Entry>, ran: seq<bool>, now: Timeval)
      requires |l| == |es| == |ran| && Passed(l, es, ran, now)
      ensures RowsOf(list) == TimerHistory.MultiPass(RowsFrom(l, es, ran), now)
    {
      var rows, k := RowsFrom(l, es, ran), Kept(es, 0, false, now);
      assert TimerHistory.Alarms(rows) == es;
      TimerHistory.KeptInRange(es, 0, false, now);
      forall a | 0 <= a < |k| ensures RowsOf(list)[a] == TimerHistory.Visited(rows[k[a]], now) {
        assert list[a] == l[k[a]];
        assert Entries(l)[k[a]] == EntryOf(l[k[a]]) && Ran(l)[k[a]] == l[k[a]].running;
      }
    }

    lemma WalkedIsPassed(l: seq<Timer>, es: seq<Entry>, ran: seq<bool>, now: Timeval, m: Memory, expired: Timer?)
      requires |l| == |es| == |ran| && Distinct(l) && MemIs(m, l, expired) && WalkAt(m, l, es, ran, |l|, now)
      requires Indices(l, Kept(es, 0, false, now)) && list == Pick(l, Kept(es, 0, false, now))
      ensures Passed(l, es, ran, now) && LinkedByExpired(expired, ExpiredTimers(l, es, |l|, now))
    {
      assert Links(l) == m.links && Entries(l) == m.entries;
      assert Ran(l) == m.ran && ExpiredLinks(l) == m.expiredLinks;
      RelinkedIsList(active, l, es, now);
      ChainIsLinked(expired, l, es, |l|, now);
    }

    /** The first loop, with the list it leaves behind. */
    method Relink(now: Timeval) returns (expired: Timer?)
      requires Valid()
      modifies this`active, this`timeout, this`list,
               list`nextActive, list`nextExpired, list`nextAlarm, list`running, list`expiries
      ensures Passed(old(list), old(Entries(list)), old(Ran(list)), now)
      ensures LinkedByExpired(expired, ExpiredTimers(old(list), old(Entries(list)), |old(list)|, now))
      ensures forall j | 0 <= j < |old(list)| :: old(OnSchedule(list[j])) ==> OnSchedule(old(list)[j])
    {
      ghost var l, es, ran := list, Entries(list), Ran(list);
      ghost var m: Memory;
      TimerHistory.KeptInRange(es, 0, false, now);
      assert forall i | 0 <= i < |l| :: EntryOf(l[i]) == es[i] && l[i].running == ran[i];
      list := Pick(l, Kept(es, 0, false, now));
      expired, m := Walk(now, l, es, ran);
      WalkedIsPassed(l, es, ran, now, m, expired);
    }

    /** Both loops of the handler. */
    method RelinkAndNotify(now: Timeval) returns (notified: seq<Timer>, armed: Itimer)
      requires Valid() && !single
      modifies this`active, this`timeout, this`list,
               list`nextActive, list`nextExpired, list`nextAlarm, list`running, list`expiries
      ensures Passed(old(list), old(Entries(list)), old(Ran(list)), now)
      ensures notified == ExpiredTimers(old(list), old(Entries(list)), |old(list)|, now)
      ensures armed == Itimer(Timeout(old(Entries(list)), |old(list)|, now), ZERO)
      ensures forall j | 0 <= j < |old(list)| :: old(OnSchedule(list[j])) ==> OnSchedule(old(list)[j])
    {
      ghost var l, es := list, Entries(list);
      var expired := Relink(now);
      notified := NotifyAll(expired, ExpiredTimers(l, es, |l|, now));
      armed := Itimer(timeout, ZERO);
    }

    /** The signal handler with several timers: who is due is notified once, periodic alarms move
        on by one interval, the list keeps the timers that `Kept` says, and the interval timer is
        armed for the next alarm. */
    method HandlerPass(now: Timeval) returns (notified: seq<Timer>, armed: Itimer)
      requires Valid() && !single
      modifies this`active, this`timeout, this`list,
               list`nextActive, list`nextExpired, list`nextAlarm, list`running, list`expiries
      ensures Passed(old(list), old(Entries(list)), old(Ran(list)), now)
      ensures notified == ExpiredTimers(old(list), old(Entries(list)), |old(list)|, now)
      ensures armed == Itimer(Timeout(old(Entries(list)), |old(list)|, now), ZERO)
      ensures RowsOf(list) == TimerHistory.MultiPass(old(RowsOf(list)), now)
      ensures notified == TimerHistory.MultiNotified(old(RowsOf(list)), now)
      ensures forall j | 0 <= j < |old(list)| :: old(OnSchedule(list[j])) ==> OnSchedule(old(list)[j])
    {
      ghost var l, es, ran := list, Entries(list), Ran(list);
      ExpiredAreNotified(l, es, ran, now);
      notified, armed := RelinkAndNotify(now);
      PassedRows(l, es, ran, now);
    }

    /** The signal handler with a single timer, apart from the correction of its rate: the alarm
        moves on and the timer is notified. It stays in the list even if it is a one-shot. */
    method SinglePass() returns (notified: seq<Timer>)
      requires Valid() && single && |list| == 1
      modifies list`nextAlarm, list`expiries
      ensures Valid() && notified == list && RowsOf(list) == TimerHistory.SinglePass(old(RowsOf(list)))
      ensures var t := list[0];
              && t.nextAlarm == AddTime(old(t.nextAlarm), t.interval)
              && (old(OnSchedule(t)) ==> OnSchedule(t))
    {
      var t := active;
      t.nextAlarm := AddTime(t.nextAlarm, t.interval);
      t.expiries := t.expiries + 1;
      notified := [t];
    }

    ghost function View(): TimerHistory.Lineup<Timer>
      reads this`list, this`single, list
    {
      TimerHistory.Lineup(RowsOf(list), single)
    }

    /** Who is still marked as running is still listed. */
    lemma RunningAreListed(l: seq<Timer>, es: seq<Entry>, ran: seq<bool>, now: Timeval)
      requires |l| == |es| == |ran| && Passed(l, es, ran, now)
      ensures forall t | t in l && t.running :: t in list
    {
      var k := Kept(es, 0, false, now);
      forall t | t in l && t.running ensures t in list {
        var j: nat :| j < |l| && l[j] == t;
        assert Ran(l)[j] == t.running;
        KeptIsEverySecond(es, now, j);
        var a :| 0 <= a < |k| && k[a] == j;
        assert list[a] == t;
      }
    }

    lemma KeptWereListed(l: seq<Timer>, es: seq<Entry>, ran: seq<bool>, now: Timeval)
      requires |l| == |es| == |ran| && Passed(l, es, ran, now)
      ensures forall i | 0 <= i < |list| :: list[i] in l
    {
      TimerHistory.KeptInRange(es, 0, false, now);
    }

    lemma ListsAreSound(l: seq<Timer>)
      requires Distinct(l)
      ensures TimerHistory.NoTwice(RowsOf(l)) && TimerHistory.Alarms(RowsOf(l)) == Entries(l)
    {
    }

    lemma SoundAfterPass(l: seq<Timer>, es: seq<Entry>, ran: seq<bool>, now: Timeval, timers: set<Timer>)
      requires |l| == |es| == |ran| && Passed(l, es, ran, now) && !single && InOrder(Entries(list))
      requires forall j | 0 <= j < |l| :: OnSchedule(l[j]) && l[j] in timers
      requires forall u | u in timers && u !in l :: !u.running
      ensures Sound(timers)
    {
      RunningAreListed(l, es, ran, now);
      KeptWereListed(l, es, ran, now);
    }

    lemma OrderAfterPass(l: seq<Timer>, rows: seq<TimerHistory.Row<Timer>>, now: Timeval)
      requires TimerHistory.NoTwice(rows) && InOrder(TimerHistory.Alarms(rows)) && Normal(now)
      requires Distinct(l) && RowsOf(l) == TimerHistory.MultiPass(rows, now)
      ensures InOrder(Entries(l))
    {
      TimerHistory.PassKeepsSound(TimerHistory.Lineup(rows, false), now);
      ListsAreSound(l);
    }

    /** A pass over several timers, and what it leaves alone. */
    method PassAmong(now: Timeval, ghost others: set<Timer>) returns (notified: seq<Timer>, armed: Itimer)
      requires Valid() && !single && (forall u | u in others :: u !in list && !u.running)
      requires forall j | 0 <= j < |list| :: OnSchedule(list[j])
      modifies this`active, this`timeout, this`list,
               list`nextActive, list`nextExpired, list`nextAlarm, list`running, list`expiries
      ensures !single && Passed(old(list), old(Entries(list)), old(Ran(list)), now)
      ensures notified == ExpiredTimers(old(list), old(Entries(list)), |old(list)|, now)
      ensures armed == Itimer(Timeout(old(Entries(list)), |old(list)|, now), ZERO)
      ensures forall u | u in others :: !u.running
      ensures forall j | 0 <= j < |old(list)| :: OnSchedule(old(list)[j])
    {
      notified, armed := RelinkAndNotify(now);
    }

    /** A pass over several timers keeps the table sound. */
    method SoundPass(now: Timeval, ghost timers: set<Timer>) returns (notified: seq<Timer>, armed: Itimer)
      requires Sound(timers) && !single && Normal(now)
      modifies this`active, this`timeout, this`list,
               list`nextActive, list`nextExpired, list`nextAlarm, list`running, list`expiries
      ensures Sound(timers)
      ensures RowsOf(list) == TimerHistory.MultiPass(old(RowsOf(list)), now)
      ensures notified == TimerHistory.MultiNotified(old(RowsOf(list)), now)
      ensures armed == Itimer(Timeout(old(Entries(list)), |old(list)|, now), ZERO)
    {
      ghost var l, es, ran, rows := list, Entries(list), Ran(list), RowsOf(list);
      ListsAreSound(l);
      ghost var others := set u | u in timers && u !in l;
      notified, armed := PassAmong(now, others);
      assert forall u | u in timers && u !in l :: u in others;
      PassedRows(l, es, ran, now);
      ExpiredAreNotified(l, es, ran, now);
      OrderAfterPass(list, rows, now);
      SoundAfterPass(l, es, ran, now, timers);
    }

    /** `timer_handler` in either mode. In single mode it asserts that there is exactly one timer; in
        a sound table there is at most one. */
    method Handle(now: Timeval, ghost timers: set<Timer>) returns (notified: seq<Timer>)
      requires Sound(timers) && Normal(now) && TimerHistory.Allowed(View(), TimerHistory.Pass(now))
      modifies this`active, this`timeout, this`list,
               list`nextActive, list`nextExpired, list`nextAlarm, list`running, list`expiries
      ensures Sound(timers)
      ensures View() == TimerHistory.After(old(View()), TimerHistory.Pass(now))
      ensures notified == TimerHistory.Notified(old(View()), now)
    {
      if single {
        assert RowsOf(list) != [];
        ListsAreSound(list);
        TimerHistory.PassKeepsSound(View(), now);
        notified := SinglePass();
        ListsAreSound(list);
      } else {
        var armed: Itimer;
        notified, armed := SoundPass(now, timers);
      }
    }

    /** The loop of `timer_settime` over the other timers; `t` is the one at `own`, or none. */
    method LeastWait(t: Timer, first: Timeval, now: Timeval, ghost l: seq<Timer>, ghost es: seq<Entry>, ghost own: nat)
      requires IsList(active, l) && |es| == |l| && (forall i | 0 <= i < |l| :: EntryOf(l[i]) == es[i])
      requires forall i | 0 <= i < |l| :: l[i] == t <==> i == own
      modifies `timeout
      ensures timeout == Rearm(first, es, own, |l|, now)
    {
      ghost var n := 0;
      timeout := first;
      var nt := active;
      while nt != null
        invariant n <= |l| && nt == At(l, n) && timeout == Rearm(first, es, own, n, now)
        decreases |l| - n
      {
        assert EntryOf(l[n]) == es[n] && (l[n] == t <==> n == own);
        if nt != t && CompareTime(nt.nextAlarm, now) > 0 {
          timeout := Shorter(timeout, SubtractTime(nt.nextAlarm, now));
        }
        n := n + 1;
        nt := nt.nextActive;
      }
    }

    lemma PositionIsOwn(t: Timer)
      requires Distinct(list)
      ensures forall i | 0 <= i < |list| :: list[i] == t <==> i == Position(list, t)
    {
      forall i | 0 <= i < |list| && list[i] == t ensures i == Position(list, t) {
        PositionIs(list, t, i);
      }
    }

    /** What `timer_settime` computes by it. */
    method ComputeTimeout(t: Timer, first: Timeval, now: Timeval)
      requires Valid()
      modifies `timeout
      ensures timeout == Rearm(first, old(Entries(list)), Position(list, t), |list|, now)
    {
      PositionIsOwn(t);
      LeastWait(t, first, now, list, Entries(list), Position(list, t));
    }

    /** The search of `timer_settime` for the link to `t`. */
    method Find(t: Timer) returns (found: bool, prev: Timer?)
      requires Valid()
      ensures found == (t in list)
      ensures found ==> prev == var i := Position(list, t); if i == 0 then null else list[i - 1]
    {
      ghost var n := 0;
      prev := null;
      var cur := active;
      while cur != t && cur != null
        invariant n <= |list| && cur == At(list, n) && prev == (if n == 0 then null else list[n - 1])
        invariant t !in list[..n]
        decreases |list| - n
      {
        prev := cur;
        cur := cur.nextActive;
        n := n + 1;
      }
      found := cur == t;
      if found {
        PositionIs(list, t, n);
      } else {
        assert list[..n] == list;
      }
    }

    /** Take `t` out of the list, wherever it stands. */
    method Unlink(t: Timer) returns (found: bool)
      requires Valid()
      modifies this`active, this`list, list`nextActive
      ensures Valid() && list == Unlisted(old(list), t)
      ensures found == (t in old(list))
    {
      ghost var l := list;
      var prev: Timer?;
      found, prev := Find(t);
      if found {
        if prev == null {
          active := t.nextActive;
        } else {
          prev.nextActive := t.nextActive;
        }
        WithoutIsList(active, l, Position(l, t));
        list := Unlisted(l, t);
      }
    }

    /** Put `t` in front, as `timer_settime` does with every timer not marked as running. If `t`
        is in the list already, there is no list any more. */
    method Link(t: Timer)
      requires Valid()
      modifies this`active, this`list, t`nextActive
      ensures list == if t in old(list) then old(list) else [t] + old(list)
      ensures Valid() <==> t !in old(list)
      ensures !Valid() ==> forall m: seq<Timer> :: !IsList(active, m)
    {
      t.nextActive := active;
      active := t;
      if t in list {
        TwiceLinkedIsNoList(list, t, Position(list, t));
      } else {
        list := [t] + list;
      }
    }

    /** Take a running `t` out of the list, or fail if it is not there. */
    method Stop(t: Timer) returns (r: Result)
      requires Valid() && t.running
      modifies this`active, this`list, this`single, list`nextActive, t`running
      ensures Valid() && list == Unlisted(old(list), t)
      ensures r == if t in old(list) then Ok else Err(EINVAL)
      ensures t.running == r.Err? && single == (old(single) && r.Err?)
    {
      var found := Unlink(t);
      if !found {
        return Err(EINVAL);
      }
      t.running := false;
      single := false;
      r := Ok;
    }

    /** The end of `timer_settime`: link, unlink or leave. */
    method Enlist(t: Timer, first: Timeval) returns (r: Result)
      requires Valid()
      modifies this`active, this`list, this`single, list`nextActive, t`nextActive, t`running
      ensures r == if old(t.running) && first == ZERO && t !in old(list) then Err(EINVAL) else Ok
      ensures list == Enlisted(old(list), t, old(t.running), first)
      ensures t.running == (r.Err? || first != ZERO)
      ensures single == (old(single) && !(r.Ok? && old(t.running) && first == ZERO))
      ensures Valid() <==> !(old(!t.running && t in list) && first != ZERO)
      ensures !Valid() ==> forall m: seq<Timer> :: !IsList(active, m)
    {
      r := Ok;
      if !t.running {
        if first.sec != 0 || first.usec != 0 {
          t.running := true;
          Link(t);
        }
      } else if first.sec == 0 && first.usec == 0 {
        r := Stop(t);
      }
    }

    /** Arming the interval timer in `timer_settime`: alone in the list, a timer gets it for
        itself; otherwise it is armed for the nearest alarm. */
    method Arm(t: Timer, first: Timeval, interval: Timeval, now: Timeval) returns (armed: Itimer)
      requires Valid()
      modifies this`single, this`timeout
      ensures single == (list == [] || list == [t])
      ensures armed == if single then Itimer(first, interval)
                       else Itimer(Rearm(first, old(Entries(list)), Position(list, t), |list|, now), ZERO)
    {
      if active == null || (active == t && t.nextActive == null) {
        assert list == [] || list == [t];
        armed := Itimer(first, interval);
        single := true;
      } else {
        single := false;
        ComputeTimeout(t, first, now);
        armed := Itimer(timeout, ZERO);
      }
    }

    /** Setting `t` to go off `first` from now and at every `interval` after that. */
    method Set(t: Timer, first: Timeval, interval: Timeval, now: Timeval) returns (r: Result)
      requires Valid()
      modifies this`active, this`list, this`single, list`nextActive, t
      ensures r == if old(t.running) && first == ZERO && t !in old(list) then Err(EINVAL) else Ok
      ensures list == Enlisted(old(list), t, old(t.running), first)
      ensures t.interval == interval && t.running == (r.Err? || first != ZERO)
      ensures t.nextAlarm == t.start == AddTime(now, first) && t.expiries == 0
      ensures single == (old(single) && !(r.Ok? && old(t.running) && first == ZERO))
      ensures Valid() <==> !(old(!t.running && t in list) && first != ZERO)
      ensures !Valid() ==> forall m: seq<Timer> :: !IsList(active, m)
      ensures forall j | 0 <= j < |old(list)| && old(list)[j] != t ::
                && EntryOf(old(list)[j]) == old(Entries(list))[j] && old(list)[j].running == old(Ran(list))[j]
    {
      t.interval := interval;
      t.nextAlarm := AddTime(now, first);
      t.start, t.expiries := t.nextAlarm, 0;
      r := Enlist(t, first);
    }

    /** The same as a change of the rows. */
    method SetRow(t: Timer, first: Timeval, interval: Timeval, now: Timeval) returns (r: Result)
      requires Valid()
      modifies this`active, this`list, this`single, list`nextActive, t
      ensures r == if old(t.running) && first == ZERO && t !in old(list) then Err(EINVAL) else Ok
      ensures list == Enlisted(old(list), t, old(t.running), first)
      ensures t.interval == interval && t.running == (r.Err? || first != ZERO)
      ensures t.nextAlarm == t.start == AddTime(now, first) && t.expiries == 0
      ensures single == (old(single) && !(r.Ok? && old(t.running) && first == ZERO))
      ensures Valid() <==> !(old(!t.running && t in list) && first != ZERO)
      ensures !Valid() ==> forall m: seq<Timer> :: !IsList(active, m)
      ensures Valid() && (old(t.running) ==> t in old(list)) ==>
                RowsOf(list) == TimerHistory.SetRows(old(RowsOf(list)), t, first, interval, now)
    {
      ghost var l, es, ran := list, Entries(list), Ran(list);
      ghost var i, running := Position(l, t), t.running;
      assert i < |l| ==> ran[i] == running;
      r := Set(t, first, interval, now);
      if Valid() && (running ==> i < |l|) {
        RowsAreSet(l, es, ran, t, first, interval, now);
      }
    }

    /** Arming the interval timer and setting `t`. */
    method ArmAndSet(t: Timer, first: Timeval, interval: Timeval, now: Timeval) returns (r: Result, armed: Itimer)
      requires Valid()
      modifies this`active, this`single, this`timeout, this`list, t, list`nextActive
      ensures r == (if old(t.running) && first == ZERO && t !in old(list) then Err(EINVAL) else Ok)
      ensures t.interval == interval && t.running == (r.Err? || first != ZERO)
      ensures t.nextAlarm == t.start == AddTime(now, first) && t.expiries == 0
      ensures list == Enlisted(old(list), t, old(t.running), first)
      ensures Valid() <==> !(old(!t.running && t in list) && first != ZERO)
      ensures !Valid() ==> forall m: seq<Timer> :: !IsList(active, m)
      ensures Valid() && (old(t.running) ==> t in old(list)) ==>
                RowsOf(list) == TimerHistory.SetRows(old(RowsOf(list)), t, first, interval, now)
      ensures if old(list) == [] || old(list) == [t]
              then armed == Itimer(first, interval) && single == !(r.Ok? && old(t.running) && first == ZERO)
              else && armed.value == Rearm(first, old(Entries(list)), Position(old(list), t), |old(list)|, now)
                   && armed.interval == ZERO && !single
    {
      armed := Arm(t, first, interval, now);
      r := SetRow(t, first, interval, now);
    }

    /** `timer_settime` outside the handler. The links still form a list afterwards if and only
        if `t` was not in it unmarked. */
    method SetTime(t: Timer, flags: int, val: Option<Itimerspec>, now: Timeval)
      returns (r: Result, armed: Option<Itimer>)
      requires Valid()
      modifies this`active, this`single, this`timeout, this`list, t, list`nextActive
      ensures armed.None? <==> (flags != TIMER_ABSTIME && flags != TIMER_RELTIME) || val.None?
      ensures armed.None? ==>
                && r == Err(if flags != TIMER_ABSTIME && flags != TIMER_RELTIME then EINVAL else EFAULT)
                && unchanged(this) && unchanged(t) && unchanged(list)
      ensures armed.Some? ==>
                var first := FirstValue(flags, val.value, now);
                && r == (if old(t.running) && first == ZERO && t !in old(list) then Err(EINVAL) else Ok)
                && t.interval == ToTimeval(val.value.interval)
                && t.nextAlarm == t.start == AddTime(now, first) && t.expiries == 0
                && t.running == (r.Err? || first != ZERO)
                && list == Enlisted(old(list), t, old(t.running), first)
                && (Valid() <==> !(old(!t.running && t in list) && first != ZERO))
                && (!Valid() ==> forall m: seq<Timer> :: !IsList(active, m))
                && (Valid() && (old(t.running) ==> t in old(list)) ==>
                      RowsOf(list) == TimerHistory.SetRows(old(RowsOf(list)), t, first, t.interval, now))
      ensures armed.Some? ==>
                var first := FirstValue(flags, val.value, now);
                if old(list) == [] || old(list) == [t]
                then && armed.value == Itimer(first, t.interval)
                     && single == !(r.Ok? && old(t.running) && first == ZERO)
                else && armed.value.value == Rearm(first, old(Entries(list)), Position(old(list), t), |old(list)|, now)
                     && armed.value.interval == ZERO && !single
      ensures armed.Some? && ProperNanoseconds(val.value.value) && Normal(now) ==>
                && (t.running <==> r.Err? || !AsksForNow(flags, val.value.value, now))
                && (t.running && r.Ok? && (old(t.running) ==> t in old(list)) ==> t in list)
                && (old(t.running) && !t.running ==> t !in list)
    {
      if flags != TIMER_ABSTIME && flags != TIMER_RELTIME {
        return Err(EINVAL), None;
      }
      if val.None? {
        return Err(EFAULT), None;
      }
      var first := FirstValue(flags, val.value, now);
      ListedIfStarted(list, t, t.running, first);
      if ProperNanoseconds(val.value.value) && Normal(now) {
        FirstValueIsZeroIff(flags, val.value, now);
      }
      var itimer;
      r, itimer := ArmAndSet(t, first, ToTimeval(val.value.interval), now);
      armed := Some(itimer);
    }

    lemma SingleIs(t: Timer, first: Timeval)
      requires Distinct(list) && (t.running ==> t in list)
      ensures TimerHistory.SetSingle(RowsOf(list), t, first) ==
              ((list == [] || list == [t]) && !(t.running && first == ZERO))
      ensures TimerHistory.Running(RowsOf(list), t) == t.running && TimerHistory.Listed(RowsOf(list), t) == (t in list)
    {
      PlaceIsPosition(list, Entries(list), Ran(list), t);
    }

    lemma OthersStayListed(l: seq<Timer>, t: Timer, running: bool, first: Timeval, u: Timer)
      requires u in l && u != t
      ensures u in Enlisted(l, t, running, first)
    {
      var j :| 0 <= j < |l| && l[j] == u;
      var i, l' := Position(l, t), Enlisted(l, t, running, first);
      assert u == l'[if |l'| > |l| then j + 1 else if |l'| < |l| && i < j then j - 1 else j];
    }

    lemma OthersWereListed(l: seq<Timer>, t: Timer, running: bool, first: Timeval)
      ensures forall i | 0 <= i < |Enlisted(l, t, running, first)| ::
                var u := Enlisted(l, t, running, first)[i]; u != t ==> u in l
      ensures t in Enlisted(l, t, running, first) || first == ZERO || running
    {
    }

    lemma SoundAfterSet(l: seq<Timer>, t: Timer, running: bool, first: Timeval, timers: set<Timer>)
      requires Distinct(l) && list == Enlisted(l, t, running, first) && Valid() && InOrder(Entries(list))
      requires single ==> |list| <= 1
      requires OnSchedule(t) && t.running == (first != ZERO) && (running ==> t in l)
      requires first != ZERO && t in l ==> running
      requires forall i | 0 <= i < |l| :: (l[i] != t ==> OnSchedule(l[i])) && l[i] in timers
      requires forall u | u in timers && u != t && u.running :: u in l
      ensures Sound(timers + {t})
    {
      forall u | u in timers && u != t && u.running ensures u in list {
        OthersStayListed(l, t, running, first, u);
      }
      OthersWereListed(l, t, running, first);
    }

    /** `timer_settime` as the setting of the history, if the links still form a list: exactly if the
        history allows the setting. */
    method SetInHistory(t: Timer, flags: int, val: Itimerspec, now: Timeval) returns (armed: Option<Itimer>)
      requires Valid() && (t.running ==> t in list) && (flags == TIMER_ABSTIME || flags == TIMER_RELTIME)
      modifies this`active, this`single, this`timeout, this`list, t, list`nextActive
      ensures var first := FirstValue(flags, val, now);
              var ev := TimerHistory.Set(t, first, ToTimeval(val.interval), now);
              && (Valid() <==> TimerHistory.Allowed(old(View()), ev))
              && (Valid() ==> View() == TimerHistory.After(old(View()), ev))
              && list == Enlisted(old(list), t, old(t.running), first)
              && t.running == (first != ZERO) && OnSchedule(t)
    {
      SingleIs(t, FirstValue(flags, val, now));
      var r: Result;
      r, armed := SetTime(t, flags, Some(val), now);
    }

    /** `timer_settime` with proper nanoseconds keeps a sound table sound. */
    method SetSoundly(t: Timer, flags: int, val: Itimerspec, now: Timeval, ghost timers: set<Timer>)
      returns (armed: Option<Itimer>)
      requires Sound(timers) && Normal(now) && (t.running ==> t in timers)
      requires flags == TIMER_ABSTIME || flags == TIMER_RELTIME
      requires 0 <= val.value.nsec < 1000 * MILLION && 0 <= val.interval.nsec < 1000 * MILLION
      modifies this`active, this`single, this`timeout, this`list, t, list`nextActive
      ensures var ev := TimerHistory.Set(t, FirstValue(flags, val, now), ToTimeval(val.interval), now);
              && (Valid() <==> TimerHistory.Allowed(old(View()), ev))
              && (Valid() ==> View() == TimerHistory.After(old(View()), ev) && Sound(timers + {t}))
      ensures t.running <==> !AsksForNow(flags, val.value, now)
      ensures old(t.running) && !t.running ==> t !in list
    {
      ghost var l, before, running := list, View(), t.running;
      ghost var first, interval := FirstValue(flags, val, now), ToTimeval(val.interval);
      ListsAreSound(l);
      ListedIfStarted(l, t, running, first);
      FirstValueIsZeroIff(flags, val, now);
      TimerHistory.SetKeepsSound(before, t, first, interval, now);
      armed := SetInHistory(t, flags, val, now);
      if Valid() {
        ListsAreSound(list);
        SoundAfterSet(l, t, running, first, timers);
      }
    }
  }
}
