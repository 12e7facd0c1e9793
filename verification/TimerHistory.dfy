/** Histories of passes and settings over the timers of posix1b/posix_time.c: what every history
    keeps, and exactly when a one-shot is notified more than once. */
module TimerHistory {
  import opened Sequences
  import opened TimeArithmetic
  import opened TimerPass

  /** One timer in the list. */
  datatype Row<T> = Row(timer: T, entry: Entry, running: bool)

  /** The list and the mode flag `single_timer`. */
  datatype Lineup<T> = Lineup(rows: seq<Row<T>>, single: bool)

  ghost function Alarms<T>(rows: seq<Row<T>>): seq<Entry> {
    seq(|rows|, i requires 0 <= i < |rows| => rows[i].entry)
  }

  // ---------------------------------------------------------------------------------------
  // What the calls do
  // ---------------------------------------------------------------------------------------

  function Visited<T>(r: Row<T>, now: Timeval): Row<T> {
    Row(r.timer, Entry(Advanced(r.entry, now), r.entry.interval), r.running && !Falls(r.entry, now))
  }

  lemma {:induction false} KeptInRange(es: seq<Entry>, i: nat, skipped: bool, now: Timeval)
    ensures forall a | 0 <= a < |Kept(es, i, skipped, now)| :: i <= Kept(es, i, skipped, now)[a] < |es|
    ensures forall a, b | 0 <= a < b < |Kept(es, i, skipped, now)| ::
              Kept(es, i, skipped, now)[a] < Kept(es, i, skipped, now)[b]
    decreases |es| - i
  {
    if i < |es| {
      KeptInRange(es, i + 1, true, now);
      KeptInRange(es, i + 1, false, now);
    }
  }

  /** The list after a pass over several timers. */
  ghost function MultiPass<T>(rows: seq<Row<T>>, now: Timeval): seq<Row<T>> {
    var k := Kept(Alarms(rows), 0, false, now);
    KeptInRange(Alarms(rows), 0, false, now);
    seq(|k|, a requires 0 <= a < |k| => Visited(rows[k[a]], now))
  }

  ghost function MultiNotified<T>(rows: seq<Row<T>>, now: Timeval): seq<T> {
    var k := Expired(Alarms(rows), |rows|, now);
    ExpiredIsExact(Alarms(rows), |rows|, now);
    assert forall a | 0 <= a < |k| :: k[a] in k;
    seq(|k|, a requires 0 <= a < |k| => rows[k[a]].timer)
  }

  /** A timer that has the interval timer for itself moves on and stays. */
  function SinglePass<T>(rows: seq<Row<T>>): seq<Row<T>> {
    if rows == [] then []
    else
      var r := rows[0];
      rows[0 := r.(entry := Entry(AddTime(r.entry.alarm, r.entry.interval), r.entry.interval))]
  }

  ghost function Place<T>(rows: seq<Row<T>>, t: T): (i: nat)
    ensures i <= |rows|
    ensures i < |rows| ==> rows[i].timer == t
    ensures forall j | 0 <= j < i :: rows[j].timer != t
  {
    if rows == [] then 0 else if rows[0].timer == t then 0 else Place(rows[1..], t) + 1
  }

  ghost predicate Listed<T>(rows: seq<Row<T>>, t: T) { Place(rows, t) < |rows| }

  ghost predicate Running<T>(rows: seq<Row<T>>, t: T) { Listed(rows, t) && rows[Place(rows, t)].running }

  /** `timer_settime`: a timer that is not listed is started in front, a running one is stopped,
      any other listed one has its alarm changed where it stands. */
  ghost function SetRows<T>(rows: seq<Row<T>>, t: T, first: Timeval, interval: Timeval, now: Timeval): seq<Row<T>> {
    var i, e := Place(rows, t), Entry(AddTime(now, first), interval);
    if i == |rows| then (if first != ZERO then [Row(t, e, true)] + rows else rows)
    else if rows[i].running && first == ZERO then Without(rows, i)
    else rows[i := Row(t, e, rows[i].running)]
  }

  ghost function SetSingle<T>(rows: seq<Row<T>>, t: T, first: Timeval): bool {
    (rows == [] || (|rows| == 1 && rows[0].timer == t)) && !(Running(rows, t) && first == ZERO)
  }

  datatype Event<T> = Pass(now: Timeval) | Set(timer: T, first: Timeval, interval: Timeval, now: Timeval)

  /** A pass in single mode finds a timer, as the handler asserts; and a timer that is listed without
      running is not started, for then the links are no list any more. */
  ghost predicate Allowed<T>(s: Lineup<T>, ev: Event<T>) {
    match ev
    case Pass(_) => s.single ==> s.rows != []
    case Set(t, first, _, _) => first != ZERO && Listed(s.rows, t) ==> Running(s.rows, t)
  }

  ghost function After<T>(s: Lineup<T>, ev: Event<T>): Lineup<T> {
    match ev
    case Pass(now) => s.(rows := if s.single then SinglePass(s.rows) else MultiPass(s.rows, now))
    case Set(t, first, interval, now) =>
      Lineup(SetRows(s.rows, t, first, interval, now), SetSingle(s.rows, t, first))
  }

  ghost function Notified<T>(s: Lineup<T>, now: Timeval): seq<T> {
    if !s.single then MultiNotified(s.rows, now) else if s.rows == [] then [] else [s.rows[0].timer]
  }

  ghost function Exec<T>(s: Lineup<T>, evs: seq<Event<T>>): Lineup<T> {
    if evs == [] then s else After(Exec(s, evs[..|evs| - 1]), evs[|evs| - 1])
  }

  ghost predicate IsHistory<T>(s: Lineup<T>, evs: seq<Event<T>>) {
    forall n | 0 <= n < |evs| :: Allowed(Exec(s, evs[..n]), evs[n])
  }

  // ---------------------------------------------------------------------------------------
  // What every history keeps
  // ---------------------------------------------------------------------------------------

  ghost predicate NoTwice<T>(rows: seq<Row<T>>) {
    forall i, j | 0 <= i < j < |rows| :: rows[i].timer != rows[j].timer
  }

  /** No timer is listed twice, and single mode is for one timer. */
  ghost predicate Shaped<T>(s: Lineup<T>) {
    NoTwice(s.rows) && (s.single ==> |s.rows| <= 1)
  }

  ghost predicate Sound<T>(s: Lineup<T>) {
    Shaped(s) && InOrder(Alarms(s.rows))
  }

  /** The clock and the arguments are in the ranges that POSIX asks for. */
  ghost predicate Proper<T>(ev: Event<T>) {
    Normal(ev.now) && (ev.Set? ==> InRange(ev.first) && Normal(ev.interval))
  }

  ghost predicate InRanges<T>(rows: seq<Row<T>>) {
    forall i | 0 <= i < |rows| :: InRange(rows[i].entry.alarm) && Normal(rows[i].entry.interval)
  }

  lemma OrderIsRanges<T>(rows: seq<Row<T>>)
    ensures InOrder(Alarms(rows)) <==> InRanges(rows)
  {
    assert forall i | 0 <= i < |rows| :: Alarms(rows)[i] == rows[i].entry;
  }

  lemma SetKeepsShape<T>(s: Lineup<T>, t: T, first: Timeval, interval: Timeval, now: Timeval)
    requires Shaped(s)
    ensures Shaped(After(s, Set(t, first, interval, now)))
  {
  }

  lemma SetKeepsRanges<T>(rows: seq<Row<T>>, t: T, first: Timeval, interval: Timeval, now: Timeval)
    requires InRanges(rows) && Normal(now) && InRange(first) && Normal(interval)
    ensures InRanges(SetRows(rows, t, first, interval, now))
  {
  }

  lemma SetKeepsSound<T>(s: Lineup<T>, t: T, first: Timeval, interval: Timeval, now: Timeval)
    requires Sound(s) && Proper(Set(t, first, interval, now))
    ensures Sound(After(s, Set(t, first, interval, now)))
  {
    OrderIsRanges(s.rows);
    SetKeepsShape(s, t, first, interval, now);
    SetKeepsRanges(s.rows, t, first, interval, now);
    OrderIsRanges(SetRows(s.rows, t, first, interval, now));
  }

  lemma PassKeepsShape<T>(s: Lineup<T>, now: Timeval)
    requires Shaped(s)
    ensures Shaped(After(s, Pass(now)))
  {
    KeptInRange(Alarms(s.rows), 0, false, now);
  }

  lemma PassKeepsRanges<T>(s: Lineup<T>, now: Timeval)
    requires InRanges(s.rows)
    ensures InRanges(After(s, Pass(now)).rows)
  {
    KeptInRange(Alarms(s.rows), 0, false, now);
  }

  lemma PassKeepsSound<T>(s: Lineup<T>, now: Timeval)
    requires Sound(s) && Normal(now)
    ensures Sound(After(s, Pass(now)))
  {
    OrderIsRanges(s.rows);
    PassKeepsShape(s, now);
    PassKeepsRanges(s, now);
    OrderIsRanges(After(s, Pass(now)).rows);
  }

  lemma {:induction false} EveryHistoryIsShaped<T>(s: Lineup<T>, evs: seq<Event<T>>)
    requires Shaped(s)
    ensures Shaped(Exec(s, evs))
  {
    if evs != [] {
      var last := |evs| - 1;
      EveryHistoryIsShaped(s, evs[..last]);
      match evs[last]
      case Pass(now) => PassKeepsShape(Exec(s, evs[..last]), now);
      case Set(t, first, interval, now) => SetKeepsShape(Exec(s, evs[..last]), t, first, interval, now);
    }
  }

  /** The handler finds exactly one timer if it is in single mode. */
  ghost predicate AssertionHolds<T>(s: Lineup<T>) {
    s.single ==> |s.rows| == 1
  }

  /** A setting to zero while no timer is listed. */
  ghost predicate Idle<T>(s: Lineup<T>, ev: Event<T>) {
    ev.Set? && ev.first == ZERO && s.rows == []
  }

  lemma EventKeepsAssertion<T>(s: Lineup<T>, ev: Event<T>)
    requires Shaped(s) && Allowed(s, ev)
    ensures AssertionHolds(After(s, ev)) <==> !Idle(s, ev)
  {
  }

  /** In every history what the handler asserts in single mode would hold of a pass made next,
      exactly unless the last call set a timer to zero while none was listed. */
  lemma AssertionHoldsIff<T>(s: Lineup<T>, evs: seq<Event<T>>)
    requires Shaped(s) && AssertionHolds(s) && IsHistory(s, evs)
    ensures AssertionHolds(Exec(s, evs)) <==>
            !(evs != [] && Idle(Exec(s, evs[..|evs| - 1]), evs[|evs| - 1]))
  {
    if evs != [] {
      var last := |evs| - 1;
      EveryHistoryIsShaped(s, evs[..last]);
      EventKeepsAssertion(Exec(s, evs[..last]), evs[last]);
    }
  }

  /** After every history of proper calls the alarms and intervals are in range and no timer is
      listed twice, so that what a pass or a setting arms the interval timer with is the least
      wait (`TimeoutIsMinimum`, `RearmIsMinimum`). */
  lemma {:induction false} EveryHistoryIsSound<T>(s: Lineup<T>, evs: seq<Event<T>>)
    requires Sound(s) && forall n | 0 <= n < |evs| :: Proper(evs[n])
    ensures Sound(Exec(s, evs))
  {
    if evs != [] {
      var last := |evs| - 1;
      EveryHistoryIsSound(s, evs[..last]);
      match evs[last]
      case Pass(now) => PassKeepsSound(Exec(s, evs[..last]), now);
      case Set(t, first, interval, now) => SetKeepsSound(Exec(s, evs[..last]), t, first, interval, now);
    }
  }

  // ---------------------------------------------------------------------------------------
  // No drift
  // ---------------------------------------------------------------------------------------

  ghost predicate NotSet<T>(evs: seq<Event<T>>, t: T) {
    forall n | 0 <= n < |evs| && evs[n].Set? :: evs[n].timer != t
  }

  /** How many of the first `n` calls of the history are passes that notify `t`. */
  ghost function Expiries<T>(s: Lineup<T>, evs: seq<Event<T>>, t: T, n: nat): nat
    requires n <= |evs|
  {
    if n == 0 then 0 else Expiries(s, evs, t, n - 1) + if NotifiedAt(s, evs, t, n - 1) then 1 else 0
  }

  /** A pass moves a periodic timer on by one interval exactly if it notifies it. */
  lemma PassMovesOn<T>(s: Lineup<T>, now: Timeval, t: T, e: Entry)
    requires Shaped(s) && Allowed(s, Pass(now)) && Has(s.rows, t, e) && !OneShot(e)
    ensures Has(After(s, Pass(now)).rows, t,
                if t in Notified(s, now) then Entry(AddTime(e.alarm, e.interval), e.interval) else e)
  {
    var j :| 0 <= j < |s.rows| && s.rows[j].timer == t && s.rows[j].entry == e;
    var rows' := After(s, Pass(now)).rows;
    if s.single {
      assert rows'[0].timer == t;
    } else {
      var es := Alarms(s.rows);
      var k := Kept(es, 0, false, now);
      KeptInRange(es, 0, false, now);
      KeptIsEverySecond(es, now, j);
      MultiNotifiedIff(s.rows, now, t);
      assert es[j] == e && j in k;
      var a :| 0 <= a < |k| && k[a] == j;
      assert rows'[a] == Visited(s.rows[j], now);
    }
  }

  /** The entry after `n` expiries. */
  ghost function Moved(e: Entry, n: nat): Entry {
    Entry(AfterExpiries(e.alarm, e.interval, n), e.interval)
  }

  lemma EventMovesOn<T>(s: Lineup<T>, ev: Event<T>, t: T, e: Entry, n: nat)
    requires Shaped(s) && Allowed(s, ev) && Has(s.rows, t, Moved(e, n)) && !OneShot(e)
    requires ev.Set? ==> ev.timer != t
    ensures Has(After(s, ev).rows, t, Moved(e, n + if ev.Pass? && t in Notified(s, ev.now) then 1 else 0))
  {
    match ev
    case Pass(now) => PassMovesOn(s, now, t, Moved(e, n));
    case Set(u, first, interval, now) => SetOther(s.rows, u, first, interval, now, t, Moved(e, n));
  }

  lemma ExecNext<T>(s: Lineup<T>, evs: seq<Event<T>>, n: nat)
    requires n < |evs|
    ensures Exec(s, evs[..n + 1]) == After(Exec(s, evs[..n]), evs[n])
  {
    assert evs[..n + 1][..n] == evs[..n];
  }

  lemma HistoryMovesOn<T>(s: Lineup<T>, evs: seq<Event<T>>, t: T, e: Entry, n: nat, k: nat)
    requires Shaped(s) && IsHistory(s, evs) && !OneShot(e) && NotSet(evs, t)
    requires n < |evs| && Has(Exec(s, evs[..n]).rows, t, Moved(e, k))
    ensures Has(Exec(s, evs[..n + 1]).rows, t, Moved(e, k + if NotifiedAt(s, evs, t, n) then 1 else 0))
  {
    EveryHistoryIsShaped(s, evs[..n]);
    EventMovesOn(Exec(s, evs[..n]), evs[n], t, e, k);
    ExecNext(s, evs, n);
  }

  /** After `n` calls `t` is listed and has moved on once for each time it was notified. */
  ghost predicate OnTrack<T>(s: Lineup<T>, evs: seq<Event<T>>, t: T, e: Entry, n: nat)
    requires n <= |evs|
  {
    Has(Exec(s, evs[..n]).rows, t, Moved(e, Expiries(s, evs, t, n)))
  }

  lemma StaysOnTrack<T>(s: Lineup<T>, evs: seq<Event<T>>, t: T, e: Entry, n: nat)
    requires Shaped(s) && IsHistory(s, evs) && !OneShot(e) && NotSet(evs, t)
    requires n < |evs| && OnTrack(s, evs, t, e, n)
    ensures OnTrack(s, evs, t, e, n + 1)
  {
    HistoryMovesOn(s, evs, t, e, n, Expiries(s, evs, t, n));
  }

  /** Through every history, in both modes, a periodic timer that is not set again stays listed,
      and after any number of calls its alarm has moved on by exactly one interval for each time it
      was notified. */
  lemma {:induction false} PeriodicStaysOnSchedule<T>(s: Lineup<T>, evs: seq<Event<T>>, t: T, e: Entry, n: nat)
    requires Shaped(s) && IsHistory(s, evs) && Has(s.rows, t, e) && !OneShot(e) && NotSet(evs, t) && n <= |evs|
    ensures OnTrack(s, evs, t, e, n)
  {
    if n == 0 {
      assert Exec(s, evs[..0]) == s && Moved(e, 0) == e;
    } else {
      PeriodicStaysOnSchedule(s, evs, t, e, n - 1);
      StaysOnTrack(s, evs, t, e, n - 1);
    }
  }

  /** No drift: from the setting on, n notifications put the alarm at the time of setting plus the
      first value plus n intervals. */
  lemma NoDriftInHistory<T>(
      s: Lineup<T>, t: T, first: Timeval, interval: Timeval, now: Timeval, evs: seq<Event<T>>)
    requires Shaped(s) && Proper(Set(t, first, interval, now)) && Allowed(s, Set(t, first, interval, now))
    requires first != ZERO && interval != ZERO
    requires IsHistory(After(s, Set(t, first, interval, now)), evs) && NotSet(evs, t)
    ensures var s1 := After(s, Set(t, first, interval, now));
            var n := Expiries(s1, evs, t, |evs|);
            var e := Moved(Entry(AddTime(now, first), interval), n);
            && Has(Exec(s1, evs).rows, t, e) && Total(e.alarm) == Total(now) + Total(first) + n * Total(interval)
  {
    var s1, i := After(s, Set(t, first, interval, now)), Place(s.rows, t);
    var e := Entry(AddTime(now, first), interval);
    assert s1.rows[if i == |s.rows| then 0 else i].entry == e;
    SetKeepsShape(s, t, first, interval, now);
    PeriodicStaysOnSchedule(s1, evs, t, e, |evs|);
    assert evs[..|evs|] == evs;
    NoDrift(now, first, interval, Expiries(s1, evs, t, |evs|));
  }

  // ---------------------------------------------------------------------------------------
  // How often a one-shot is notified
  // ---------------------------------------------------------------------------------------

  /** What is due stays due. */
  lemma DueStaysDue(e: Entry, now: Timeval, later: Timeval)
    requires Normal(now) && Normal(later) && Total(now) <= Total(later) && Due(e, now)
    ensures Due(e, later)
  {
  }

  ghost predicate Has<T>(rows: seq<Row<T>>, t: T, e: Entry) {
    exists i :: 0 <= i < |rows| && rows[i].timer == t && rows[i].entry == e
  }

  ghost predicate Gone<T>(rows: seq<Row<T>>, t: T) {
    forall i | 0 <= i < |rows| :: rows[i].timer != t
  }

  /** Setting another timer changes nothing for `t`. */
  lemma SetOther<T>(rows: seq<Row<T>>, u: T, first: Timeval, interval: Timeval, now: Timeval, t: T, e: Entry)
    requires u != t
    ensures Has(rows, t, e) ==> Has(SetRows(rows, u, first, interval, now), t, e)
    ensures Gone(rows, t) ==> Gone(SetRows(rows, u, first, interval, now), t)
  {
    var i, rows' := Place(rows, u), SetRows(rows, u, first, interval, now);
    if j :| 0 <= j < |rows| && rows[j].timer == t && rows[j].entry == e {
      var k := if |rows'| > |rows| then j + 1 else if |rows'| < |rows| && i < j then j - 1 else j;
      assert rows'[k] == rows[j];
    }
  }

  /** A pass takes nobody in. */
  lemma PassKeepsGone<T>(s: Lineup<T>, now: Timeval, t: T)
    requires Gone(s.rows, t)
    ensures Gone(After(s, Pass(now)).rows, t)
  {
    KeptInRange(Alarms(s.rows), 0, false, now);
  }

  lemma {:induction false} GoneStaysGone<T>(s: Lineup<T>, evs: seq<Event<T>>, t: T)
    requires Gone(s.rows, t) && NotSet(evs, t)
    ensures Gone(Exec(s, evs).rows, t)
  {
    if evs != [] {
      var last := |evs| - 1;
      var s' := Exec(s, evs[..last]);
      GoneStaysGone(s, evs[..last], t);
      match evs[last]
      case Pass(now) => PassKeepsGone(s', now, t);
      case Set(u, first, interval, now) => SetOther(s'.rows, u, first, interval, now, t, Entry(ZERO, ZERO));
    }
  }

  lemma {:induction false} SettingsKeep<T>(s: Lineup<T>, evs: seq<Event<T>>, t: T, e: Entry)
    requires Has(s.rows, t, e) && NotSet(evs, t) && forall n | 0 <= n < |evs| :: evs[n].Set?
    ensures Has(Exec(s, evs).rows, t, e)
  {
    if evs != [] {
      var last := |evs| - 1;
      var s', ev := Exec(s, evs[..last]), evs[last];
      SettingsKeep(s, evs[..last], t, e);
      SetOther(s'.rows, ev.timer, ev.first, ev.interval, ev.now, t, e);
    }
  }

  lemma MultiNotifiedIff<T>(rows: seq<Row<T>>, now: Timeval, t: T)
    ensures t in MultiNotified(rows, now) <==>
            exists j :: 0 <= j < |rows| && rows[j].timer == t && Due(rows[j].entry, now)
  {
    var es := Alarms(rows);
    var k := Expired(es, |rows|, now);
    ExpiredIsExact(es, |rows|, now);
    if j :| 0 <= j < |rows| && rows[j].timer == t && Due(rows[j].entry, now) {
      assert es[j] == rows[j].entry && j in k;
      var a :| 0 <= a < |k| && k[a] == j;
      assert MultiNotified(rows, now)[a] == t;
    }
    if t in MultiNotified(rows, now) {
      var a :| 0 <= a < |k| && MultiNotified(rows, now)[a] == t;
      assert k[a] in k && es[k[a]] == rows[k[a]].entry;
    }
  }

  /** A one-shot that is due is notified by a pass exactly if it is listed. */
  lemma NotifiedIffListed<T>(s: Lineup<T>, now: Timeval, t: T, e: Entry)
    requires Shaped(s) && Allowed(s, Pass(now)) && Due(e, now) && (Has(s.rows, t, e) || Gone(s.rows, t))
    ensures t in Notified(s, now) <==> Has(s.rows, t, e)
  {
    if !s.single {
      MultiNotifiedIff(s.rows, now, t);
    }
  }

  /** The pass leaves a one-shot that it notifies in the list if it is the only timer and has the
      interval timer for itself, or stands at an odd distance from the start of a row of
      one-shots that all fall due. */
  ghost predicate Stays<T>(s: Lineup<T>, j: nat, now: Timeval)
    requires j < |s.rows|
  {
    s.single || Odd(Streak(Alarms(s.rows), j, now))
  }

  /** The pass notifies the one-shot at position `j`: it is due, or it is single mode, in which the
      handler does not look at the clock. */
  ghost predicate Fires<T>(s: Lineup<T>, j: nat, now: Timeval)
    requires j < |s.rows|
  {
    var e := s.rows[j].entry;
    OneShot(e) && InRange(e.alarm) && (s.single || Due(e, now))
  }

  lemma PassTakesOutIff<T>(s: Lineup<T>, j: nat, now: Timeval)
    requires Shaped(s) && j < |s.rows| && Allowed(s, Pass(now)) && Fires(s, j, now)
    ensures var rows' := After(s, Pass(now)).rows;
            if Stays(s, j, now) then Has(rows', s.rows[j].timer, s.rows[j].entry) else Gone(rows', s.rows[j].timer)
  {
    var rows', r := After(s, Pass(now)).rows, s.rows[j];
    assert r.entry.interval == ZERO && AddTime(r.entry.alarm, ZERO) == r.entry.alarm;
    if s.single {
      assert rows'[0].timer == r.timer && rows'[0].entry == r.entry;
    } else {
      var es := Alarms(s.rows);
      var k := Kept(es, 0, false, now);
      KeptInRange(es, 0, false, now);
      KeptIsEverySecond(es, now, j);
      assert es[j] == r.entry;
      if j in k {
        var a :| 0 <= a < |k| && k[a] == j;
        assert rows'[a] == Visited(r, now) && rows'[a].entry == r.entry;
      } else {
        forall a | 0 <= a < |rows'| ensures rows'[a].timer != r.timer {
          assert k[a] in k;
        }
      }
    }
  }

  /** Some pass of the history notifies `t`. */
  ghost predicate NotifiedIn<T>(s: Lineup<T>, evs: seq<Event<T>>, t: T) {
    exists n :: 0 <= n < |evs| && NotifiedAt(s, evs, t, n)
  }

  ghost predicate NotifiedAt<T>(s: Lineup<T>, evs: seq<Event<T>>, t: T, n: nat)
    requires n < |evs|
  {
    evs[n].Pass? && t in Notified(Exec(s, evs[..n]), evs[n].now)
  }

  lemma {:induction false} FirstPass<T>(evs: seq<Event<T>>) returns (n: nat)
    requires exists n :: 0 <= n < |evs| && evs[n].Pass?
    ensures n < |evs| && evs[n].Pass? && forall k | 0 <= k < n :: evs[k].Set?
  {
    n := 0;
    while !evs[n].Pass?
      invariant n < |evs| && forall k | 0 <= k < n :: evs[k].Set?
      decreases |evs| - n
    {
      n := n + 1;
    }
  }

  /** The next pass, however many other timers are set before it. */
  lemma NotifiedNextIff<T>(s: Lineup<T>, j: nat, now: Timeval, evs: seq<Event<T>>, later: Timeval)
    requires Shaped(s) && j < |s.rows| && Allowed(s, Pass(now)) && Fires(s, j, now)
    requires NotSet(evs, s.rows[j].timer) && forall n | 0 <= n < |evs| :: evs[n].Set?
    requires Due(s.rows[j].entry, later)
    requires Allowed(Exec(After(s, Pass(now)), evs), Pass(later))
    ensures s.rows[j].timer in Notified(Exec(After(s, Pass(now)), evs), later) <==> Stays(s, j, now)
  {
    var t, e, s1 := s.rows[j].timer, s.rows[j].entry, After(s, Pass(now));
    PassTakesOutIff(s, j, now);
    if Stays(s, j, now) {
      SettingsKeep(s1, evs, t, e);
    } else {
      GoneStaysGone(s1, evs, t);
    }
    PassKeepsShape(s, now);
    EveryHistoryIsShaped(s1, evs);
    NotifiedIffListed(Exec(s1, evs), later, t, e);
  }

  /** A one-shot that a pass notifies, and that is not set again, is notified by some later pass of
      any history that has one, if and only if this pass left it in the list: that is, the table was
      in single mode or an odd number of one-shots directly before it fell due too. */
  lemma NotifiedAgainIff<T>(s: Lineup<T>, j: nat, now: Timeval, evs: seq<Event<T>>)
    requires Shaped(s) && j < |s.rows| && Allowed(s, Pass(now)) && Normal(now) && Fires(s, j, now)
    requires IsHistory(After(s, Pass(now)), evs) && NotSet(evs, s.rows[j].timer)
    requires forall n | 0 <= n < |evs| :: Normal(evs[n].now) && Total(now) <= Total(evs[n].now)
    requires forall n | 0 <= n < |evs| && evs[n].Pass? :: Due(s.rows[j].entry, now) || Due(s.rows[j].entry, evs[n].now)
    requires exists n :: 0 <= n < |evs| && evs[n].Pass?
    ensures s.rows[j].timer in Notified(s, now)
    ensures NotifiedIn(After(s, Pass(now)), evs, s.rows[j].timer) <==> Stays(s, j, now)
  {
    var t, e, s1 := s.rows[j].timer, s.rows[j].entry, After(s, Pass(now));
    assert Has(s.rows, t, e);
    if !s.single {
      MultiNotifiedIff(s.rows, now, t);
    }
    forall n | 0 <= n < |evs| && evs[n].Pass? ensures Due(e, evs[n].now) {
      if Due(e, now) {
        DueStaysDue(e, now, evs[n].now);
      }
    }
    if Stays(s, j, now) {
      var n := FirstPass(evs);
      NotifiedNextIff(s, j, now, evs[..n], evs[n].now);
      assert NotifiedAt(s1, evs, t, n);
    } else {
      PassTakesOutIff(s, j, now);
      PassKeepsShape(s, now);
      forall n: nat | n < |evs| && evs[n].Pass? ensures !NotifiedAt(s1, evs, t, n) {
        GoneStaysGone(s1, evs[..n], t);
        EveryHistoryIsShaped(s1, evs[..n]);
        NotifiedIffListed(Exec(s1, evs[..n]), evs[n].now, t, e);
      }
    }
  }
}
