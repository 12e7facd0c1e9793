/** One pass of the timer handler over the active timers, as a function of their alarms and
    intervals (posix1b/posix_time.c, the branch for several timers). */
module TimerPass {
  import opened TimeArithmetic

  /** TIMER_RESOLUTION and half of it. */
  const RESOLUTION := Timeval(0, 10000)
  const HALF_RESOLUTION := Timeval(0, 5000)

  datatype Entry = Entry(alarm: Timeval, interval: Timeval)

  ghost predicate InOrder(es: seq<Entry>) {
    forall i | 0 <= i < |es| :: InRange(es[i].alarm) && Normal(es[i].interval)
  }

  predicate Due(e: Entry, now: Timeval) {
    CompareTime(AddTime(now, HALF_RESOLUTION), e.alarm) >= 0
  }

  predicate OneShot(e: Entry) { e.interval.sec == 0 && e.interval.usec == 0 }

  /** Falls due for the last time. */
  predicate Falls(e: Entry, now: Timeval) { Due(e, now) && OneShot(e) }

  /** The alarm after the pass. */
  function Advanced(e: Entry, now: Timeval): Timeval {
    if Due(e, now) && !OneShot(e) then AddTime(e.alarm, e.interval) else e.alarm
  }

  /** How long a timer that goes on still has to wait; one resolution if it is overdue. */
  function Remaining(e: Entry, now: Timeval): Timeval {
    if Due(e, now) && CompareTime(Advanced(e, now), now) <= 0 then RESOLUTION
    else SubtractTime(Advanced(e, now), now)
  }

  function Shorter(timeout: Timeval, delta: Timeval): Timeval {
    if (timeout.sec == 0 && timeout.usec == 0) || CompareTime(delta, timeout) < 0 then delta else timeout
  }

  /** The timeout after looking at the first `n` timers. */
  ghost function Timeout(es: seq<Entry>, n: nat, now: Timeval): Timeval
    requires n <= |es|
  {
    if n == 0 then ZERO
    else if Falls(es[n - 1], now) then Timeout(es, n - 1, now)
    else Shorter(Timeout(es, n - 1, now), Remaining(es[n - 1], now))
  }

  // ---------------------------------------------------------------------------------------
  // Which timers are notified
  // ---------------------------------------------------------------------------------------

  /** Due is being reached by now plus half the resolution. The one alarm at that very time which is
      missed is a whole second that the sum writes as a full million microseconds. */
  lemma DueMeansReached(e: Entry, now: Timeval)
    requires InRange(e.alarm) && InRange(now)
    ensures Due(e, now) <==>
            Total(e.alarm) <= Total(now) + 5000 && !(now.usec == 995000 && e.alarm == Timeval(now.sec + 1, 0))
  {
    var limit := AddTime(now, HALF_RESOLUTION);
    CompareOrdersTotals(limit, e.alarm);
    if Total(e.alarm) == Total(limit) && e.alarm.sec != limit.sec {
      assert e.alarm.sec == limit.sec + 1 || limit.sec == e.alarm.sec + 1;
    }
  }

  /** The due timers among the first `n`, in the order in which they are notified. */
  ghost function Expired(es: seq<Entry>, n: nat, now: Timeval): seq<nat>
    requires n <= |es|
  {
    if n == 0 then []
    else (if Due(es[n - 1], now) then [n - 1] else []) + Expired(es, n - 1, now)
  }

  /** Every due timer is notified, no other is, and none twice. */
  lemma {:induction false} ExpiredIsExact(es: seq<Entry>, n: nat, now: Timeval)
    requires n <= |es|
    ensures forall i: nat :: i in Expired(es, n, now) <==> i < n && Due(es[i], now)
    ensures forall a, b | 0 <= a < b < |Expired(es, n, now)| :: Expired(es, n, now)[a] > Expired(es, n, now)[b]
  {
    if n > 0 {
      ExpiredIsExact(es, n - 1, now);
      var rest := Expired(es, n - 1, now);
      assert forall b | 0 <= b < |rest| :: rest[b] in rest;
    }
  }

  // ---------------------------------------------------------------------------------------
  // What the interval timer is armed with
  // ---------------------------------------------------------------------------------------

  /** A timer that goes on has a positive time to wait: the distance to its alarm, or one
      resolution if that is past. */
  lemma RemainingIsPositive(e: Entry, now: Timeval)
    requires InRange(e.alarm) && Normal(e.interval) && Normal(now) && !Falls(e, now)
    ensures InRange(Remaining(e, now)) && Total(Remaining(e, now)) > 0
    ensures var d := Total(Advanced(e, now)) - Total(now);
            Total(Remaining(e, now)) == if d > 0 then d else 10000
  {
    DueMeansReached(e, now);
    CompareWithNormal(Advanced(e, now), now);
  }

  lemma ShorterIsMinimum(timeout: Timeval, delta: Timeval)
    requires InRange(timeout) && (timeout == ZERO || Total(timeout) > 0)
    requires InRange(delta) && Total(delta) > 0
    ensures if timeout == ZERO then Shorter(timeout, delta) == delta
            else Shorter(timeout, delta) == timeout || Shorter(timeout, delta) == delta
    ensures Total(Shorter(timeout, delta)) > 0 && Total(Shorter(timeout, delta)) <= Total(delta)
    ensures timeout != ZERO ==> Total(Shorter(timeout, delta)) <= Total(timeout)
  {
    CompareOrdersTotals(delta, timeout);
  }

  ghost predicate Pending(es: seq<Entry>, i: nat, now: Timeval) {
    i < |es| && !Falls(es[i], now)
  }

  /** `w` is the least time that any pending timer of the first `n` has to wait, and zero exactly
      when none of them is pending. */
  ghost predicate IsLeastWait(es: seq<Entry>, n: nat, now: Timeval, w: Timeval)
    requires n <= |es|
  {
    && InRange(w)
    && (w == ZERO <==> forall i | 0 <= i < n :: !Pending(es, i, now))
    && (w != ZERO ==>
          && Total(w) > 0
          && (exists i: nat :: i < n && Pending(es, i, now) && w == Remaining(es[i], now))
          && (forall i | 0 <= i < n && Pending(es, i, now) :: Total(w) <= Total(Remaining(es[i], now))))
  }

  lemma LeastWaitOfOneMore(es: seq<Entry>, n: nat, now: Timeval, w: Timeval, d: Timeval)
    requires n < |es| && IsLeastWait(es, n, now, w)
    requires Pending(es, n, now) && d == Remaining(es[n], now) && InRange(d) && Total(d) > 0
    ensures IsLeastWait(es, n + 1, now, Shorter(w, d))
  {
    ShorterIsMinimum(w, d);
  }

  lemma LeastWaitWithoutFallen(es: seq<Entry>, n: nat, now: Timeval, w: Timeval)
    requires n < |es| && IsLeastWait(es, n, now, w) && !Pending(es, n, now)
    ensures IsLeastWait(es, n + 1, now, w)
  {
  }

  /** The armed timeout is the least time any pending timer has to wait, and zero exactly when
      none is pending. */
  lemma {:induction false} TimeoutIsMinimum(es: seq<Entry>, n: nat, now: Timeval)
    requires n <= |es| && InOrder(es) && Normal(now)
    ensures IsLeastWait(es, n, now, Timeout(es, n, now))
  {
    if n > 0 {
      var e, w := es[n - 1], Timeout(es, n - 1, now);
      TimeoutIsMinimum(es, n - 1, now);
      if Falls(e, now) {
        LeastWaitWithoutFallen(es, n - 1, now, w);
      } else {
        RemainingIsPositive(e, now);
        LeastWaitOfOneMore(es, n - 1, now, w, Remaining(e, now));
      }
    }
  }

  // ---------------------------------------------------------------------------------------
  // What stays in the list
  // ---------------------------------------------------------------------------------------

  /** Positions from `i` on that stay linked. After unlinking a timer the walk goes on through
      the unlinked one (`skipped`), so the next one cannot be unlinked from the list. */
  ghost function Kept(es: seq<Entry>, i: nat, skipped: bool, now: Timeval): seq<nat>
    decreases |es| - i
  {
    if i >= |es| then []
    else if Falls(es[i], now) && !skipped then Kept(es, i + 1, true, now)
    else [i] + Kept(es, i + 1, false, now)
  }

  /** How many timers in a row, up to but not including position `j`, fall due for the last time. */
  ghost function Streak(es: seq<Entry>, j: nat, now: Timeval): nat
    requires j <= |es|
  {
    if j > 0 && Falls(es[j - 1], now) then Streak(es, j - 1, now) + 1 else 0
  }

  ghost predicate Odd(n: nat) { n % 2 == 1 }

  lemma {:induction false} KeptFrom(es: seq<Entry>, i: nat, skipped: bool, now: Timeval, j: nat)
    requires i <= j < |es| && skipped == Odd(Streak(es, i, now))
    ensures j in Kept(es, i, skipped, now) <==> !Falls(es[j], now) || Odd(Streak(es, j, now))
    ensures forall k | k in Kept(es, i, skipped, now) :: k >= i
    decreases |es| - i
  {
    if i + 1 < |es| {
      KeptFrom(es, i + 1, Falls(es[i], now) && !skipped, now, if i < j then j else i + 1);
    }
  }

  /** A timer stays in the list unless it falls due for the last time at an even distance from
      the start of a row of such timers: of a row, every second one stays. */
  lemma KeptIsEverySecond(es: seq<Entry>, now: Timeval, j: nat)
    requires j < |es|
    ensures j in Kept(es, 0, false, now) <==> !Falls(es[j], now) || Odd(Streak(es, j, now))
  {
    KeptFrom(es, 0, false, now, j);
  }

  ghost predicate NoAdjacentFall(es: seq<Entry>, now: Timeval) {
    forall j | 0 <= j && j + 1 < |es| :: !(Falls(es[j], now) && Falls(es[j + 1], now))
  }

  ghost predicate KeepsPending(es: seq<Entry>, now: Timeval) {
    forall j: nat | j < |es| :: j in Kept(es, 0, false, now) <==> Pending(es, j, now)
  }

  lemma AdjacentFallIsKept(es: seq<Entry>, now: Timeval, j: nat)
    requires j + 1 < |es| && Falls(es[j], now) && Falls(es[j + 1], now)
    ensures !KeepsPending(es, now)
  {
    var k := if Odd(Streak(es, j, now)) then j else j + 1;
    KeptIsEverySecond(es, now, k);
    assert !Pending(es, k, now);
  }

  /** After a pass the list holds exactly the timers that go on, if and only if no two
      neighbours in the list were one-shots that fell due together. */
  lemma KeepsPendingIff(es: seq<Entry>, now: Timeval)
    ensures KeepsPending(es, now) <==> NoAdjacentFall(es, now)
  {
    if NoAdjacentFall(es, now) {
      forall j: nat | j < |es| ensures j in Kept(es, 0, false, now) <==> Pending(es, j, now) {
        KeptIsEverySecond(es, now, j);
      }
    } else {
      var j: nat :| j + 1 < |es| && Falls(es[j], now) && Falls(es[j + 1], now);
      AdjacentFallIsKept(es, now, j);
    }
  }

  // ---------------------------------------------------------------------------------------
  // What `timer_settime` arms the interval timer with
  // ---------------------------------------------------------------------------------------

  /** The first alarm of the timer being set, which stands at position `own` of the list (or
      nowhere), against the alarms of the first `n` others that are still to come. */
  ghost function Rearm(first: Timeval, es: seq<Entry>, own: nat, n: nat, now: Timeval): Timeval
    requires n <= |es|
  {
    if n == 0 then first
    else
      var r := Rearm(first, es, own, n - 1, now);
      if n - 1 != own && CompareTime(es[n - 1].alarm, now) > 0
      then Shorter(r, SubtractTime(es[n - 1].alarm, now)) else r
  }

  ghost predicate ToCome(es: seq<Entry>, own: nat, i: nat, now: Timeval) {
    i < |es| && i != own && Total(es[i].alarm) > Total(now)
  }

  /** It is the least positive wait among them, and zero exactly when there is none; but a first
      alarm in the past wins over all the others. */
  lemma {:induction false} RearmIsMinimum(first: Timeval, es: seq<Entry>, own: nat, n: nat, now: Timeval)
    requires n <= |es| && InOrder(es) && Normal(now) && InRange(first)
    ensures var r := Rearm(first, es, own, n, now);
            && InRange(r)
            && (first != ZERO && Total(first) <= 0 ==> r == first)
            && (r == ZERO <==> first == ZERO && forall i | 0 <= i < n :: !ToCome(es, own, i, now))
            && (r != ZERO && (first == ZERO || Total(first) > 0) ==>
                  && Total(r) > 0
                  && (first != ZERO ==> Total(r) <= Total(first))
                  && (forall i | 0 <= i < n && ToCome(es, own, i, now) :: Total(r) <= Total(es[i].alarm) - Total(now))
                  && (|| r == first
                      || exists i: nat :: i < n && ToCome(es, own, i, now) && r == SubtractTime(es[i].alarm, now)))
  {
    if n > 0 {
      var r := Rearm(first, es, own, n - 1, now);
      RearmIsMinimum(first, es, own, n - 1, now);
      CompareWithNormal(es[n - 1].alarm, now);
      assert ToCome(es, own, n - 1, now) <==> n - 1 != own && CompareTime(es[n - 1].alarm, now) > 0;
      if ToCome(es, own, n - 1, now) {
        if first != ZERO && Total(first) <= 0 {
          CompareOrdersTotals(SubtractTime(es[n - 1].alarm, now), r);
        } else {
          ShorterIsMinimum(r, SubtractTime(es[n - 1].alarm, now));
        }
      }
    }
  }
}
