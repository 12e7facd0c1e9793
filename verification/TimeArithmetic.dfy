/** The hand-written `struct timeval` arithmetic of posix1b/posix_time.c. */
module TimeArithmetic {

  datatype Timeval = Timeval(sec: int, usec: int)

  const MILLION := 1000000

  /** Microseconds in all. */
  function Total(t: Timeval): int { MILLION * t.sec + t.usec }

  /** The range the library keeps: a full million is not carried. */
  predicate InRange(t: Timeval) { 0 <= t.usec <= MILLION }

  /** The range of the clock and of the callers' arguments. */
  predicate Normal(t: Timeval) { 0 <= t.usec < MILLION }

  const ZERO := Timeval(0, 0)

  function CompareTime(a: Timeval, b: Timeval): int {
    if a.sec < b.sec then -1 else if a.sec > b.sec then 1 else a.usec - b.usec
  }

  function AddTime(a: Timeval, b: Timeval): (r: Timeval)
    ensures Total(r) == Total(a) + Total(b)
    ensures InRange(a) && InRange(b) ==> InRange(r)
  {
    var s := Timeval(a.sec + b.sec, a.usec + b.usec);
    if s.usec > MILLION then Timeval(s.sec + 1, s.usec - MILLION) else s
  }

  function SubtractTime(a: Timeval, b: Timeval): (r: Timeval)
    ensures Total(r) == Total(a) - Total(b)
    ensures InRange(a) && InRange(b) ==> InRange(r)
    ensures Normal(a) && Normal(b) ==> Normal(r)
  {
    var s := Timeval(a.sec - b.sec, a.usec - b.usec);
    if s.usec < 0 then Timeval(s.sec - 1, s.usec + MILLION) else s
  }

  function Sign(x: int): int { if x < 0 then -1 else if x > 0 then 1 else 0 }

  /** Different totals are always ordered correctly. */
  lemma CompareOrdersTotals(a: Timeval, b: Timeval)
    requires InRange(a) && InRange(b)
    ensures Total(a) < Total(b) ==> CompareTime(a, b) < 0
    ensures Total(a) > Total(b) ==> CompareTime(a, b) > 0
  {
    if a.sec < b.sec {
      assert a.sec + 1 <= b.sec;
    } else if a.sec > b.sec {
      assert b.sec + 1 <= a.sec;
    }
  }

  /** `a` and `b` are the same whole second, with and without the carry. */
  predicate SameSecond(a: Timeval, b: Timeval) {
    a.usec == MILLION && b == Timeval(a.sec + 1, 0)
  }

  /** The order is exact except between the two ways of writing one whole second. */
  lemma CompareIsExactIff(a: Timeval, b: Timeval)
    requires InRange(a) && InRange(b)
    ensures Sign(CompareTime(a, b)) == Sign(Total(a) - Total(b)) <==> !SameSecond(a, b) && !SameSecond(b, a)
  {
    CompareOrdersTotals(a, b);
    if Total(a) == Total(b) && a.sec != b.sec {
      assert a.sec == b.sec + 1 || b.sec == a.sec + 1;
    }
  }

  /** Against a normal time, comparing as later is being later. */
  lemma CompareWithNormal(a: Timeval, b: Timeval)
    requires InRange(a) && Normal(b)
    ensures CompareTime(a, b) > 0 <==> Total(a) > Total(b)
  {
    CompareOrdersTotals(a, b);
  }

  /** The alarm after `n` expiries. */
  function AfterExpiries(first: Timeval, interval: Timeval, n: nat): Timeval {
    if n == 0 then first else AddTime(AfterExpiries(first, interval, n - 1), interval)
  }

  /** No drift: `n` expiries move the alarm by exactly `n` intervals. */
  lemma {:induction false} NoDrift(now: Timeval, value: Timeval, interval: Timeval, n: nat)
    requires InRange(now) && InRange(value) && InRange(interval)
    ensures Total(AfterExpiries(AddTime(now, value), interval, n)) ==
            Total(now) + Total(value) + n * Total(interval)
    ensures InRange(AfterExpiries(AddTime(now, value), interval, n))
  {
    if n > 0 {
      NoDrift(now, value, interval, n - 1);
      assert n * Total(interval) == (n - 1) * Total(interval) + Total(interval);
    }
  }
}
