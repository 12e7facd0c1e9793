/** Sums of a weight over a sequence of threads.
    The invariants of the concurrent programs count threads by program counter; each count is
    the sum of a 0/1 weight, and one step of one thread is one update of the sequence. */
module Sums {

  ghost function One(b: bool): int { if b then 1 else 0 }

  ghost function Sum<T>(s: seq<T>, f: T -> int): int
  {
    if s == [] then 0 else Sum(s[..|s| - 1], f) + f(s[|s| - 1])
  }

  /** Moving thread `i` to `x` changes the sum by the difference of the two weights. */
  lemma {:induction false} SumUpdate<T>(s: seq<T>, i: nat, x: T, f: T -> int)
    requires i < |s|
    ensures Sum(s[i := x], f) == Sum(s, f) - f(s[i]) + f(x)
  {
    var n := |s| - 1;
    if i == n {
      assert s[i := x][..n] == s[..n];
    } else {
      assert s[i := x][..n] == s[..n][i := x];
      SumUpdate(s[..n], i, x, f);
    }
  }

  lemma {:induction false} SumNonNegative<T>(s: seq<T>, f: T -> int)
    requires forall i | 0 <= i < |s| :: f(s[i]) >= 0
    ensures Sum(s, f) >= 0
  {
    if s != [] {
      SumNonNegative(s[..|s| - 1], f);
    }
  }

  /** No weight exceeds the sum. */
  lemma {:induction false} SumAtLeast<T>(s: seq<T>, i: nat, f: T -> int)
    requires forall i | 0 <= i < |s| :: f(s[i]) >= 0
    requires i < |s|
    ensures f(s[i]) <= Sum(s, f)
  {
    var n := |s| - 1;
    if i == n {
      SumNonNegative(s[..n], f);
    } else {
      SumAtLeast(s[..n], i, f);
    }
  }

  /** Nor do two weights together. */
  lemma {:induction false} SumAtLeastTwo<T>(s: seq<T>, i: nat, j: nat, f: T -> int)
    requires forall i | 0 <= i < |s| :: f(s[i]) >= 0
    requires i < j < |s|
    ensures f(s[i]) + f(s[j]) <= Sum(s, f)
  {
    var n := |s| - 1;
    if j == n {
      SumAtLeast(s[..n], i, f);
    } else {
      SumAtLeastTwo(s[..n], i, j, f);
    }
  }

  /** A non-zero sum has a thread that contributes to it. */
  lemma {:induction false} SumWitness<T>(s: seq<T>, f: T -> int) returns (i: nat)
    requires Sum(s, f) != 0
    ensures i < |s| && f(s[i]) != 0
  {
    var n := |s| - 1;
    if f(s[n]) != 0 {
      i := n;
    } else {
      i := SumWitness(s[..n], f);
    }
  }

  lemma {:induction false} SumConstant<T>(s: seq<T>, f: T -> int, v: int)
    requires forall i | 0 <= i < |s| :: f(s[i]) == v
    ensures Sum(s, f) == v * |s|
  {
    if s != [] {
      SumConstant(s[..|s| - 1], f, v);
    }
  }

  lemma {:induction false} SumAtMost<T>(s: seq<T>, f: T -> int, v: int)
    requires forall i | 0 <= i < |s| :: f(s[i]) <= v
    ensures Sum(s, f) <= v * |s|
  {
    if s != [] {
      SumAtMost(s[..|s| - 1], f, v);
    }
  }

  /** A thread below the bound keeps the sum below it. */
  lemma {:induction false} SumBelow<T>(s: seq<T>, i: nat, f: T -> int, v: int)
    requires forall i | 0 <= i < |s| :: f(s[i]) <= v
    requires i < |s| && f(s[i]) < v
    ensures Sum(s, f) < v * |s|
  {
    var n := |s| - 1;
    assert v * |s| == v * n + v;
    if i == n {
      SumAtMost(s[..n], f, v);
    } else {
      SumBelow(s[..n], i, f, v);
    }
  }

  lemma {:induction false} SumAppend<T>(s: seq<T>, x: T, f: T -> int)
    ensures Sum(s + [x], f) == Sum(s, f) + f(x)
  {
    assert (s + [x])[..|s|] == s;
  }

  /** A weight that is smaller thread by thread has the smaller sum. */
  lemma {:induction false} SumCompare<T>(s: seq<T>, f: T -> int, g: T -> int)
    requires forall i | 0 <= i < |s| :: f(s[i]) <= g(s[i])
    ensures Sum(s, f) <= Sum(s, g)
  {
    if s != [] {
      SumCompare(s[..|s| - 1], f, g);
    }
  }
}
