/** Whole runs of the bounded buffer: first-in first-out order, progress, complete drain and the
    exact length of every maximal run. */
module BoundedBufferRuns {
  import opened Sums
  import opened Runs
  import opened BoundedBuffer

  // ---------------------------------------------------------------------------------------
  // The ring as a queue
  // ---------------------------------------------------------------------------------------

  /** The unread slots, oldest first, read from the ring itself. */
  ghost function Contents(s: State): seq<int>
    requires RingInv(s)
  {
    seq(|s.produced| - |s.consumed|,
        d requires 0 <= d < |s.produced| - |s.consumed| => s.buffer[Slot(|s.buffer|, |s.consumed| + d)])
  }

  ghost function Values(h: seq<Item>): seq<int> {
    seq(|h|, n requires 0 <= n < |h| => h[n].value)
  }

  lemma ContentsAreUnread(s: State)
    requires RingInv(s)
    ensures Contents(s) == Values(s.produced)[|s.consumed|..]
  {
  }

  lemma DropOfAppend(a: seq<int>, b: seq<int>, n: nat)
    requires n <= |a|
    ensures (a + b)[n..] == a[n..] + b
  {
  }

  lemma StoringAppends(c: Config, s: State, k: nat)
    requires Enabled(s, P(k))
    ensures ProducerNext(c, s, k).consumed == s.consumed
    ensures Values(ProducerNext(c, s, k).produced) ==
              Values(s.produced) + if s.pros[k].pc.PWrite? then [Value(c, k, s.pros[k].i)] else []
  {
  }

  /** Storing appends to the queue. */
  lemma StoringEnqueues(c: Config, s: State, k: nat)
    requires LockInv(s) && SlotInv(s) && PositionInv(s) && RingInv(s) && Enabled(s, P(k))
    ensures RingInv(ProducerNext(c, s, k))
    ensures Contents(ProducerNext(c, s, k)) ==
              Contents(s) + if !s.pros[k].pc.PWrite? then []
                            else if s.pros[k].i < c.maxNum - 1 then [100 * k + s.pros[k].i]
                            else [-1]
  {
    var s' := ProducerNext(c, s, k);
    RingKeptByProducer(c, s, k);
    ContentsAreUnread(s);
    ContentsAreUnread(s');
    StoringAppends(c, s, k);
    DropOfAppend(Values(s.produced), if s.pros[k].pc.PWrite? then [Value(c, k, s.pros[k].i)] else [], |s.consumed|);
  }

  /** Taking removes the head of the queue, which is never empty then. */
  lemma TakingDequeues(s: State, j: nat)
    requires LockInv(s) && ItemInv(s) && PositionInv(s) && RingInv(s) && Enabled(s, C(j))
    ensures RingInv(ConsumerNext(s, j))
    ensures if s.cons[j].pc.CRead?
            then Contents(s) == [ConsumerNext(s, j).cons[j].data] + Contents(ConsumerNext(s, j))
            else Contents(s) == Contents(ConsumerNext(s, j))
  {
    var s' := ConsumerNext(s, j);
    RingKeptByConsumer(s, j);
    ContentsAreUnread(s);
    ContentsAreUnread(s');
  }

  lemma {:induction false} ItemsOfPrefix(h: seq<Item>, n: nat, k: nat)
    requires n <= |h|
    ensures ItemsOf(h[..n], k) <= ItemsOf(h, k)
  {
    if n == |h| {
      assert h[..n] == h;
    } else {
      var g := h[..|h| - 1];
      assert g[..n] == h[..n];
      ItemsOfPrefix(g, n, k);
    }
  }

  /** The values that producer `k` stores, in order, from the first on: 100 * k, 100 * k + 1 and
      so on to 100 * k + maxNum - 2, and then -1 at the end. */
  ghost predicate InOrder(maxNum: int, k: nat, v: seq<int>) {
    && |v| <= (if maxNum > 1 then maxNum else 1)
    && (forall i | 0 <= i < |v| :: v[i] == if i < maxNum - 1 then 100 * k + i else -1)
  }

  /** All of them. */
  ghost predicate Complete(maxNum: int, k: nat, v: seq<int>) {
    InOrder(maxNum, k, v) && |v| == if maxNum > 1 then maxNum else 1
  }

  lemma StoredInOrder(c: Config, s: State, k: nat)
    requires ScriptInv(c, s) && k < c.num
    ensures InOrder(c.maxNum, k, Values(ItemsOf(s.produced, k)))
  {
  }

  /** A producer that has exited has stored all its values. */
  lemma ExitedProducerStoredAll(c: Config, s: State, k: nat)
    requires ScriptInv(c, s) && k < c.num && s.pros[k].pc.PDone?
    ensures Complete(c.maxNum, k, Values(ItemsOf(s.produced, k)))
  {
    StoredInOrder(c, s, k);
  }

  /** The consumed values are a prefix of the produced ones, and what came from one producer
      came out as a prefix of what that producer stores, in its order. */
  ghost predicate FirstInFirstOut(c: Config, s: State) {
    && |s.consumed| <= |s.produced|
    && (forall n | 0 <= n < |s.consumed| :: s.consumed[n].value == s.produced[n].value)
    && (forall n | 0 <= n < |s.produced| :: s.produced[n].producer < c.num)
    && (forall k | 0 <= k < c.num ::
          && ItemsOf(s.produced[..|s.consumed|], k) <= ItemsOf(s.produced, k)
          && InOrder(c.maxNum, k, Values(ItemsOf(s.produced, k))))
  }

  lemma InvIsFirstInFirstOut(c: Config, s: State)
    requires Inv(c, s)
    ensures FirstInFirstOut(c, s)
  {
    forall k | 0 <= k < c.num
      ensures ItemsOf(s.produced[..|s.consumed|], k) <= ItemsOf(s.produced, k)
      ensures InOrder(c.maxNum, k, Values(ItemsOf(s.produced, k)))
    {
      ItemsOfPrefix(s.produced, |s.consumed|, k);
      StoredInOrder(c, s, k);
    }
  }

  // ---------------------------------------------------------------------------------------
  // Progress
  // ---------------------------------------------------------------------------------------

  lemma {:induction false} MarkersAgree(p: seq<Item>, q: seq<Taken>)
    requires |q| <= |p|
    requires forall n | 0 <= n < |q| :: q[n].value == p[n].value
    ensures Sum(q, IsTakenMarker) == Sum(p[..|q|], IsMarker)
  {
    if q != [] {
      var n := |q| - 1;
      MarkersAgree(p, q[..n]);
      assert p[..|q|][..n] == p[..n];
    }
  }

  lemma {:induction false} PrefixHasFewerMarkers(p: seq<Item>, n: nat)
    requires n <= |p|
    ensures Sum(p[..n], IsMarker) <= Sum(p, IsMarker)
  {
    if n == |p| {
      assert p[..n] == p;
    } else {
      var g := p[..|p| - 1];
      assert g[..n] == p[..n];
      PrefixHasFewerMarkers(g, n);
    }
  }

  lemma MarkersTakenWereStored(c: Config, s: State)
    requires Inv(c, s)
    ensures Sum(s.cons, HasMarker) <= Sum(s.pros, Finished(c))
    ensures |s.consumed| == |s.produced| ==> Sum(s.cons, HasMarker) == Sum(s.pros, Finished(c))
  {
    MarkersAgree(s.produced, s.consumed);
    PrefixHasFewerMarkers(s.produced, |s.consumed|);
    assert s.produced[..|s.produced|] == s.produced;
  }

  /** Neither inside the lock nor about to post: waiting at the top of its loop, or finished. */
  ghost predicate AtRest(s: State) {
    && (forall k | 0 <= k < |s.pros| :: s.pros[k].pc.PFull? || s.pros[k].pc.PDone?)
    && (forall j | 0 <= j < |s.cons| :: s.cons[j].pc.CEmpty? || s.cons[j].pc.CDone?)
  }

  lemma PositionsInBounds(s: State)
    requires PositionInv(s)
    ensures s.inPos < |s.buffer| && s.outPos < |s.buffer|
  {
  }

  lemma StuckIsAtRest(c: Config, s: State)
    requires Inv(c, s)
    requires forall t: Thread :: !Enabled(s, t)
    ensures AtRest(s)
  {
    PositionsInBounds(s);
    if s.lock == 0 {
      if Sum(s.pros, ProHolds) != 0 {
        var k := SumWitness(s.pros, ProHolds);
        assert Enabled(s, P(k));
      } else {
        var j := SumWitness(s.cons, ConHolds);
        assert Enabled(s, C(j));
      }
    }
    forall k | 0 <= k < |s.pros| ensures s.pros[k].pc.PFull? || s.pros[k].pc.PDone? {
      assert !Enabled(s, P(k));
    }
    forall j | 0 <= j < |s.cons| ensures s.cons[j].pc.CEmpty? || s.cons[j].pc.CDone? {
      assert !Enabled(s, C(j));
    }
  }

  lemma CountsAtRest(c: Config, s: State)
    requires Inv(c, s) && AtRest(s)
    ensures s.lock == 1
    ensures s.full + (|s.produced| - |s.consumed|) == |s.buffer|
    ensures s.empty == |s.produced| - |s.consumed|
    ensures s.inPos == Slot(|s.buffer|, |s.produced|) && s.outPos == Slot(|s.buffer|, |s.consumed|)
  {
    SumConstant(s.pros, ProHolds, 0);
    SumConstant(s.cons, ConHolds, 0);
    SumConstant(s.pros, ProReserves, 0);
    SumConstant(s.cons, ConReturns, 0);
    SumConstant(s.pros, ProAnnounces, 0);
    SumConstant(s.cons, ConClaims, 0);
    SumConstant(s.pros, ProLags, 0);
    SumConstant(s.cons, ConLags, 0);
  }

  /** A state in which no thread can move is one in which all have exited. */
  lemma StuckOnlyWhenDone(c: Config, s: State)
    requires Inv(c, s)
    requires forall t: Thread :: !Enabled(s, t)
    ensures AllDone(s)
  {
    StuckIsAtRest(c, s);
    CountsAtRest(c, s);
    MarkersTakenWereStored(c, s);
    forall k | 0 <= k < |s.pros| ensures s.pros[k].pc.PDone? {
      if s.pros[k].pc.PFull? {
        assert !Enabled(s, P(k));
        forall j | 0 <= j < |s.cons| ensures HasMarker(s.cons[j]) == 1 {
          assert !Enabled(s, C(j));
        }
        SumConstant(s.cons, HasMarker, 1);
        SumBelow(s.pros, k, Finished(c), 1);
      }
    }
    forall j | 0 <= j < |s.cons| ensures s.cons[j].pc.CDone? {
      if s.cons[j].pc.CEmpty? {
        assert !Enabled(s, C(j));
        SumConstant(s.pros, Finished(c), 1);
        SumBelow(s.cons, j, HasMarker, 1);
      }
    }
  }

  // ---------------------------------------------------------------------------------------
  // Complete drain
  // ---------------------------------------------------------------------------------------

  /** The last stored item is the last stored by its own producer. */
  lemma LastItemIsLastOfItsProducer(h: seq<Item>)
    requires h != []
    ensures var own := ItemsOf(h, h[|h| - 1].producer); own != [] && own[|own| - 1] == h[|h| - 1]
  {
  }

  /** Once every producer has exited, the globally last item stored is a marker. */
  lemma LastItemIsMarker(c: Config, s: State)
    requires Inv(c, s) && s.produced != []
    requires forall k | 0 <= k < |s.pros| :: s.pros[k].pc.PDone?
    ensures s.produced[|s.produced| - 1].value == MARKER
  {
    LastItemIsLastOfItsProducer(s.produced);
  }

  /** Once all have exited, as many markers were taken as stored, so the last item was taken. */
  lemma AllConsumed(c: Config, s: State)
    requires Inv(c, s) && AllDone(s)
    ensures |s.consumed| == |s.produced|
  {
    SumConstant(s.pros, Finished(c), 1);
    SumConstant(s.cons, HasMarker, 1);
    if |s.consumed| < |s.produced| {
      var g := s.produced[..|s.produced| - 1];
      assert g[..|s.consumed|] == s.produced[..|s.consumed|];
      LastItemIsMarker(c, s);
      MarkersAgree(s.produced, s.consumed);
      PrefixHasFewerMarkers(g, |s.consumed|);
    }
  }

  /** What was consumed is all values of all producers and nothing else, those of one producer
      in its order; everybody took one marker, and the semaphores are back. */
  ghost predicate Drained(c: Config, s: State) {
    && AllDone(s)
    && |s.produced| == |s.consumed| == c.num * (if c.maxNum > 1 then c.maxNum else 1)
    && (forall n | 0 <= n < |s.produced| :: s.produced[n].producer < c.num)
    && (forall k | 0 <= k < c.num :: Complete(c.maxNum, k, Values(ItemsOf(s.produced, k))))
    && (forall n | 0 <= n < |s.consumed| :: s.consumed[n].value == s.produced[n].value)
    && (forall j | 0 <= j < c.num :: Sum(s.consumed, TookMarker(j)) == 1)
    && s.inPos == s.outPos && s.full == |c.memory| && s.empty == 0 && s.lock == 1
  }

  lemma DoneIsDrained(c: Config, s: State)
    requires Inv(c, s) && AllDone(s)
    ensures Drained(c, s)
  {
    CountsAtRest(c, s);
    SumConstant(s.pros, Written, Items(c));
    AllConsumed(c, s);
    forall k | 0 <= k < c.num ensures Complete(c.maxNum, k, Values(ItemsOf(s.produced, k))) {
      ExitedProducerStoredAll(c, s, k);
    }
  }

  // ---------------------------------------------------------------------------------------
  // Length of runs
  // ---------------------------------------------------------------------------------------

  /** Steps a producer has taken: six per item. */
  ghost function ProSteps(p: Producer): int {
    6 * p.i + match p.pc
      case PFull => 0 case PLock => 1 case PWrite => 2 case PAdvance => 3
      case PUnlock => 4 case PEmpty => 5 case PDone => 0
  }

  /** Steps a consumer is ahead of, or behind, six per item it has taken. */
  ghost function ConSteps(q: Consumer): int {
    match q.pc
    case CEmpty => 0 case CLock => 1 case CRead => 2 case CAdvance => -3
    case CUnlock => -2 case CFull => -1 case CDone => 0
  }

  ghost function Clock(s: State): int {
    Sum(s.pros, ProSteps) + 6 * |s.consumed| + Sum(s.cons, ConSteps)
  }

  lemma ClockCountsSteps(c: Config, s: State, t: Thread)
    requires Enabled(s, t)
    ensures Clock(Next(c, s, t)) == Clock(s) + 1
  {
    var s' := Next(c, s, t);
    match t
    case P(k) => SumUpdate(s.pros, k, s'.pros[k], ProSteps);
    case C(j) => SumUpdate(s.cons, j, s'.cons[j], ConSteps);
  }

  ghost function TotalSteps(c: Config): nat { 12 * (c.num * Items(c)) }

  lemma SixEach(num: nat, items: nat)
    ensures 6 * items * num == 6 * (num * items) && items * num == num * items
  {
  }

  /** At most all items are stored. */
  lemma StoredAtMostAll(c: Config, s: State)
    requires ScriptInv(c, s) && MarkerInv(c, s)
    ensures |s.produced| <= c.num * Items(c)
    ensures Sum(s.pros, ProSteps) <= 6 * (c.num * Items(c))
  {
    forall k | 0 <= k < |s.pros| ensures Written(s.pros[k]) <= Items(c) && ProSteps(s.pros[k]) <= 6 * Items(c) {
    }
    SumAtMost(s.pros, Written, Items(c));
    SumAtMost(s.pros, ProSteps, 6 * Items(c));
    SixEach(c.num, Items(c));
  }

  ghost function TwiceClaims(q: Consumer): int { 2 * ConClaims(q) }

  lemma {:induction false} SumTwice(s: seq<Consumer>)
    ensures Sum(s, TwiceClaims) == 2 * Sum(s, ConClaims)
  {
    if s != [] {
      SumTwice(s[..|s| - 1]);
    }
  }

  /** Consumers are ahead by at most two steps for each item they claim. */
  lemma ConsumersBounded(s: State)
    ensures Sum(s.cons, ConSteps) <= 2 * Sum(s.cons, ConClaims)
  {
    SumCompare(s.cons, ConSteps, TwiceClaims);
    SumTwice(s.cons);
  }

  /** What is claimed is stored and not yet consumed. */
  lemma ClaimedIsUnread(s: State)
    requires ItemInv(s)
    ensures 0 <= Sum(s.cons, ConClaims) <= |s.produced| - |s.consumed|
  {
    SumNonNegative(s.pros, ProAnnounces);
    SumNonNegative(s.cons, ConClaims);
  }

  lemma ClockBounded(c: Config, s: State)
    requires ItemInv(s) && ScriptInv(c, s) && MarkerInv(c, s)
    ensures Clock(s) <= TotalSteps(c)
  {
    StoredAtMostAll(c, s);
    ConsumersBounded(s);
    ClaimedIsUnread(s);
    TwelveEach(Sum(s.pros, ProSteps), |s.produced|, |s.consumed|, Sum(s.cons, ConClaims), c.num * Items(c));
  }

  lemma TwelveEach(pros: int, produced: int, consumed: int, claims: int, all: int)
    requires pros <= 6 * all && produced <= all && 0 <= claims <= produced - consumed
    ensures pros + 6 * consumed + 2 * claims <= 12 * all
  {
  }

  lemma ClockOfInit(c: Config)
    ensures Clock(Init(c)) == 0
  {
    SumConstant(Init(c).pros, ProSteps, 0);
    SumConstant(Init(c).cons, ConSteps, 0);
  }

  lemma ClockWhenDrained(c: Config, s: State)
    requires Inv(c, s) && Drained(c, s)
    ensures Clock(s) == TotalSteps(c)
  {
    SumConstant(s.pros, ProSteps, 6 * Items(c));
    SumConstant(s.cons, ConSteps, 0);
    SixEach(c.num, Items(c));
  }

  // ---------------------------------------------------------------------------------------
  // Theorems about every run
  // ---------------------------------------------------------------------------------------

  lemma ProgramIsInductive(c: Config)
    requires Valid(c)
    ensures Inductive(Program(c), (s: State) => Inv(c, s))
    ensures CountsSteps(Program(c), (s: State) => Inv(c, s), Clock)
  {
    InitInv(c);
    forall s: State, t: Thread | Inv(c, s) && Enabled(s, t)
      ensures Inv(c, Next(c, s, t)) && Clock(Next(c, s, t)) == Clock(s) + 1
    {
      StepKeepsInv(c, s, t);
      ClockCountsSteps(c, s, t);
    }
  }

  /** In every run, however the threads interleave, the ring is a first-in first-out queue and
      the invariant holds; no run is longer than twelve steps per item. */
  lemma EveryRun(c: Config, sched: seq<Thread>)
    requires Valid(c) && IsRun(Program(c), sched)
    ensures Inv(c, Exec(Program(c), sched))
    ensures FirstInFirstOut(c, Exec(Program(c), sched))
    ensures |sched| <= TotalSteps(c)
  {
    ProgramIsInductive(c);
    InvariantOfRun(Program(c), (s: State) => Inv(c, s), sched);
    ExactLengthOfRun(Program(c), (s: State) => Inv(c, s), Clock, sched);
    ClockOfInit(c);
    ClockBounded(c, Exec(Program(c), sched));
    InvIsFirstInFirstOut(c, Exec(Program(c), sched));
  }

  /** Every run that cannot go on has all threads exited and the buffer drained, and it took
      exactly twelve steps per item. */
  lemma EveryMaximalRun(c: Config, sched: seq<Thread>)
    requires Valid(c) && IsMaximal(Program(c), sched)
    ensures Drained(c, Exec(Program(c), sched))
    ensures |sched| == 12 * |Exec(Program(c), sched).consumed|
  {
    var s := Exec(Program(c), sched);
    EveryRun(c, sched);
    forall t: Thread ensures !Enabled(s, t) {
      assert !Program(c).enabled(s, t);
    }
    StuckOnlyWhenDone(c, s);
    DoneIsDrained(c, s);
    ClockWhenDrained(c, s);
    ClockOfInit(c);
    ProgramIsInductive(c);
    ExactLengthOfRun(Program(c), (s: State) => Inv(c, s), Clock, sched);
  }
}
