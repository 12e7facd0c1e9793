/** Many producers and many consumers around one ring buffer
    (stress/semaphores/multi_con_pro.c).

    `full` counts free slots, `empty` counts announced items and `lock` guards the ring, as in
    the program. One step is one semaphore call or one statement on shared memory. */
module BoundedBuffer {
  import opened Sums
  import opened Runs

  /** `num` producers and `num` consumers; `memory` is what malloc left in the ring, so its
      length is BUF_SIZE; `maxNum` is Max_Num. */
  datatype Config = Config(num: nat, memory: seq<int>, maxNum: int)

  ghost predicate Valid(c: Config) { c.memory != [] }

  const MARKER := -1

  /** Rounds of the producer's loop; one marker follows them. */
  function Loops(c: Config): nat { if c.maxNum <= 1 then 0 else c.maxNum - 1 }

  function Items(c: Config): (n: nat)
    ensures n == if c.maxNum > 1 then c.maxNum else 1
  {
    Loops(c) + 1
  }

  /** What producer `k` stores as its item number `i`. */
  function Value(c: Config, k: nat, i: nat): int {
    if i < Loops(c) then 100 * k + i else MARKER
  }

  datatype ProducerPc = PFull | PLock | PWrite | PAdvance | PUnlock | PEmpty | PDone
  datatype ConsumerPc = CEmpty | CLock | CRead | CAdvance | CUnlock | CFull | CDone

  datatype Producer = Producer(pc: ProducerPc, i: nat)
  datatype Consumer = Consumer(pc: ConsumerPc, data: int)
  datatype Thread = P(k: nat) | C(j: nat)

  /** An item as it was stored, and a value as it was taken. */
  datatype Item = Item(producer: nat, index: nat, value: int)
  datatype Taken = Taken(consumer: nat, value: int)

  datatype State = State(
    buffer: seq<int>, inPos: nat, outPos: nat,
    full: nat, empty: nat, lock: nat,
    pros: seq<Producer>, cons: seq<Consumer>,
    produced: seq<Item>, consumed: seq<Taken>)

  ghost function Init(c: Config): State {
    State(c.memory, 0, 0, |c.memory|, 0, 1,
          seq(c.num, _ => Producer(PFull, 0)), seq(c.num, _ => Consumer(CEmpty, 0)), [], [])
  }

  /** The position after `x` on a ring of `n` slots. */
  function Wrap(x: nat, n: nat): (y: nat)
    requires x < n
    ensures y < n
  {
    if x + 1 == n then 0 else x + 1
  }

  /** It is the source's `(x + 1) % n`. */
  lemma WrapIsModulo(x: nat, n: nat)
    requires x < n
    ensures Wrap(x, n) == (x + 1) % n
  {
  }

  /** Whether a thread can take its next step. Touching the ring out of bounds is not a step. */
  ghost predicate Enabled(s: State, t: Thread) {
    match t
    case P(k) =>
      k < |s.pros| &&
      (match s.pros[k].pc
       case PFull => s.full > 0
       case PLock => s.lock > 0
       case PWrite => s.inPos < |s.buffer|
       case PAdvance => s.inPos < |s.buffer|
       case PUnlock => true
       case PEmpty => true
       case PDone => false)
    case C(j) =>
      j < |s.cons| &&
      (match s.cons[j].pc
       case CEmpty => s.empty > 0
       case CLock => s.lock > 0
       case CRead => s.outPos < |s.buffer|
       case CAdvance => s.outPos < |s.buffer|
       case CUnlock => true
       case CFull => true
       case CDone => false)
  }

  ghost function ProducerNext(c: Config, s: State, k: nat): State
    requires Enabled(s, P(k))
  {
    var p := s.pros[k];
    match p.pc
    case PFull => s.(full := s.full - 1, pros := s.pros[k := p.(pc := PLock)])
    case PLock => s.(lock := s.lock - 1, pros := s.pros[k := p.(pc := PWrite)])
    case PWrite =>
      s.(buffer := s.buffer[s.inPos := Value(c, k, p.i)],
         produced := s.produced + [Item(k, p.i, Value(c, k, p.i))],
         pros := s.pros[k := p.(pc := PAdvance)])
    case PAdvance => s.(inPos := Wrap(s.inPos, |s.buffer|), pros := s.pros[k := p.(pc := PUnlock)])
    case PUnlock => s.(lock := s.lock + 1, pros := s.pros[k := p.(pc := PEmpty)])
    case PEmpty =>
      s.(empty := s.empty + 1,
         pros := s.pros[k := Producer(if p.i < Loops(c) then PFull else PDone, p.i + 1)])
  }

  ghost function ConsumerNext(s: State, j: nat): State
    requires Enabled(s, C(j))
  {
    var q := s.cons[j];
    match q.pc
    case CEmpty => s.(empty := s.empty - 1, cons := s.cons[j := q.(pc := CLock)])
    case CLock => s.(lock := s.lock - 1, cons := s.cons[j := q.(pc := CRead)])
    case CRead =>
      s.(consumed := s.consumed + [Taken(j, s.buffer[s.outPos])],
         cons := s.cons[j := Consumer(CAdvance, s.buffer[s.outPos])])
    case CAdvance => s.(outPos := Wrap(s.outPos, |s.buffer|), cons := s.cons[j := q.(pc := CUnlock)])
    case CUnlock => s.(lock := s.lock + 1, cons := s.cons[j := q.(pc := CFull)])
    case CFull =>
      s.(full := s.full + 1,
         cons := s.cons[j := q.(pc := if q.data != MARKER then CEmpty else CDone)])
  }

  ghost function Next(c: Config, s: State, t: Thread): State {
    if !Enabled(s, t) then s
    else match t
      case P(k) => ProducerNext(c, s, k)
      case C(j) => ConsumerNext(s, j)
  }

  ghost function Program(c: Config): System<State, Thread> {
    System(Init(c), (s: State, t: Thread) => Enabled(s, t), (s: State, t: Thread) => Next(c, s, t))
  }

  ghost predicate AllDone(s: State) {
    && (forall k | 0 <= k < |s.pros| :: s.pros[k].pc.PDone?)
    && (forall j | 0 <= j < |s.cons| :: s.cons[j].pc.CDone?)
  }

  // ---------------------------------------------------------------------------------------
  // The invariant
  // ---------------------------------------------------------------------------------------

  ghost function ProHolds(p: Producer): int { One(p.pc.PWrite? || p.pc.PAdvance? || p.pc.PUnlock?) }
  ghost function ConHolds(q: Consumer): int { One(q.pc.CRead? || q.pc.CAdvance? || q.pc.CUnlock?) }
  ghost function ProReserves(p: Producer): int { One(p.pc.PLock? || p.pc.PWrite?) }
  ghost function ConReturns(q: Consumer): int { One(q.pc.CAdvance? || q.pc.CUnlock? || q.pc.CFull?) }
  ghost function ProAnnounces(p: Producer): int { One(p.pc.PAdvance? || p.pc.PUnlock? || p.pc.PEmpty?) }
  ghost function ConClaims(q: Consumer): int { One(q.pc.CLock? || q.pc.CRead?) }
  ghost function ProLags(p: Producer): int { One(p.pc.PAdvance?) }
  ghost function ConLags(q: Consumer): int { One(q.pc.CAdvance?) }

  /** The lock is free or exactly one thread is inside. */
  ghost predicate LockInv(s: State) {
    s.lock + Sum(s.pros, ProHolds) + Sum(s.cons, ConHolds) == 1
  }

  /** Every slot is free, reserved, occupied or about to be given back. */
  ghost predicate SlotInv(s: State) {
    s.full + Sum(s.pros, ProReserves) + (|s.produced| - |s.consumed|) + Sum(s.cons, ConReturns)
      == |s.buffer|
  }

  /** Every stored item is announced, about to be announced or claimed. */
  ghost predicate ItemInv(s: State) {
    |s.produced| - |s.consumed| == s.empty + Sum(s.pros, ProAnnounces) + Sum(s.cons, ConClaims)
  }

  /** `in` and `out` are the two history lengths around the ring, one behind while a thread
      stands between its access and its increment. */
  ghost predicate PositionInv(s: State) {
    && |s.buffer| > 0
    && 0 <= |s.produced| - Sum(s.pros, ProLags)
    && 0 <= |s.consumed| - Sum(s.cons, ConLags)
    && s.inPos == Slot(|s.buffer|, |s.produced| - Sum(s.pros, ProLags))
    && s.outPos == Slot(|s.buffer|, |s.consumed| - Sum(s.cons, ConLags))
  }

  /** The ring refines a queue: the unread slots hold the unread part of `produced`. */
  ghost predicate RingInv(s: State) {
    && |s.buffer| > 0
    && |s.consumed| <= |s.produced| <= |s.consumed| + |s.buffer|
    && (forall n | |s.consumed| <= n < |s.produced| :: s.buffer[Slot(|s.buffer|, n)] == s.produced[n].value)
    && (forall n | 0 <= n < |s.consumed| :: s.consumed[n].value == s.produced[n].value)
  }

  /** The items of one producer, in the order in which they were stored. */
  ghost function ItemsOf(h: seq<Item>, k: nat): seq<Item> {
    if h == [] then []
    else
      var last := h[|h| - 1];
      ItemsOf(h[..|h| - 1], k) + if last.producer == k then [last] else []
  }

  /** What producer `k` stores first to last, up to `m` items. */
  ghost function Script(c: Config, k: nat, m: nat): seq<Item> {
    seq(m, i requires 0 <= i < m => Item(k, i, Value(c, k, i)))
  }

  ghost function Written(p: Producer): (w: int)
    ensures w >= 0
  {
    p.i + ProAnnounces(p)
  }

  ghost predicate ScriptInv(c: Config, s: State) {
    && |s.pros| == |s.cons| == c.num
    && |s.buffer| == |c.memory|
    && (forall n | 0 <= n < |s.produced| :: s.produced[n].producer < c.num)
    && (forall k | 0 <= k < c.num ::
          && ItemsOf(s.produced, k) == Script(c, k, Written(s.pros[k]))
          && if s.pros[k].pc.PDone? then s.pros[k].i == Items(c) else s.pros[k].i < Items(c))
  }

  ghost function IsMarker(x: Item): int { One(x.value == MARKER) }
  ghost function IsTakenMarker(x: Taken): int { One(x.value == MARKER) }
  ghost function TookMarker(j: nat): Taken -> int { (x: Taken) => One(x.consumer == j && x.value == MARKER) }
  ghost function Finished(c: Config): Producer -> int { (p: Producer) => One(Written(p) == Items(c)) }
  ghost function HasMarker(q: Consumer): int {
    One((q.pc.CAdvance? || q.pc.CUnlock? || q.pc.CFull? || q.pc.CDone?) && q.data == MARKER)
  }

  /** One marker per producer that has stored everything, one per consumer that is to stop. */
  ghost predicate MarkerInv(c: Config, s: State) {
    && |s.produced| == Sum(s.pros, Written)
    && Sum(s.produced, IsMarker) == Sum(s.pros, Finished(c))
    && Sum(s.consumed, IsTakenMarker) == Sum(s.cons, HasMarker)
  }

  /** A consumer has taken one marker if it is to stop and none otherwise. */
  ghost predicate TakerInv(s: State) {
    forall j | 0 <= j < |s.cons| ::
      && Sum(s.consumed, TookMarker(j)) == HasMarker(s.cons[j])
      && (s.cons[j].pc.CDone? ==> s.cons[j].data == MARKER)
  }

  ghost predicate Inv(c: Config, s: State) {
    && LockInv(s) && SlotInv(s) && ItemInv(s) && PositionInv(s) && RingInv(s)
    && ScriptInv(c, s) && MarkerInv(c, s) && TakerInv(s)
  }

  // ---------------------------------------------------------------------------------------
  // Every step keeps it
  // ---------------------------------------------------------------------------------------

  lemma InitInv(c: Config)
    requires Valid(c)
    ensures Inv(c, Init(c))
  {
    var s := Init(c);
    SumConstant(s.pros, ProHolds, 0);
    SumConstant(s.pros, ProReserves, 0);
    SumConstant(s.pros, ProAnnounces, 0);
    SumConstant(s.pros, ProLags, 0);
    SumConstant(s.pros, Written, 0);
    SumConstant(s.pros, Finished(c), 0);
    SumConstant(s.cons, ConHolds, 0);
    SumConstant(s.cons, ConReturns, 0);
    SumConstant(s.cons, ConClaims, 0);
    SumConstant(s.cons, ConLags, 0);
    SumConstant(s.cons, HasMarker, 0);
  }

  /** The effect of moving producer `k` on every count of producers. */
  lemma ProducerCounts(s: State, k: nat, p: Producer)
    requires k < |s.pros|
    ensures Sum(s.pros[k := p], ProHolds) == Sum(s.pros, ProHolds) - ProHolds(s.pros[k]) + ProHolds(p)
    ensures Sum(s.pros[k := p], ProReserves) == Sum(s.pros, ProReserves) - ProReserves(s.pros[k]) + ProReserves(p)
    ensures Sum(s.pros[k := p], ProAnnounces) == Sum(s.pros, ProAnnounces) - ProAnnounces(s.pros[k]) + ProAnnounces(p)
    ensures Sum(s.pros[k := p], ProLags) == Sum(s.pros, ProLags) - ProLags(s.pros[k]) + ProLags(p)
  {
    SumUpdate(s.pros, k, p, ProHolds);
    SumUpdate(s.pros, k, p, ProReserves);
    SumUpdate(s.pros, k, p, ProAnnounces);
    SumUpdate(s.pros, k, p, ProLags);
  }

  lemma ConsumerCounts(s: State, j: nat, q: Consumer)
    requires j < |s.cons|
    ensures Sum(s.cons[j := q], ConHolds) == Sum(s.cons, ConHolds) - ConHolds(s.cons[j]) + ConHolds(q)
    ensures Sum(s.cons[j := q], ConReturns) == Sum(s.cons, ConReturns) - ConReturns(s.cons[j]) + ConReturns(q)
    ensures Sum(s.cons[j := q], ConClaims) == Sum(s.cons, ConClaims) - ConClaims(s.cons[j]) + ConClaims(q)
    ensures Sum(s.cons[j := q], ConLags) == Sum(s.cons, ConLags) - ConLags(s.cons[j]) + ConLags(q)
  {
    SumUpdate(s.cons, j, q, ConHolds);
    SumUpdate(s.cons, j, q, ConReturns);
    SumUpdate(s.cons, j, q, ConClaims);
    SumUpdate(s.cons, j, q, ConLags);
  }

  lemma CountsNonNegative(s: State)
    ensures Sum(s.pros, ProHolds) >= 0 && Sum(s.cons, ConHolds) >= 0
    ensures Sum(s.pros, ProReserves) >= 0 && Sum(s.cons, ConReturns) >= 0
    ensures Sum(s.pros, ProAnnounces) >= 0 && Sum(s.cons, ConClaims) >= 0
  {
    SumNonNegative(s.pros, ProHolds);
    SumNonNegative(s.pros, ProReserves);
    SumNonNegative(s.pros, ProAnnounces);
    SumNonNegative(s.cons, ConHolds);
    SumNonNegative(s.cons, ConReturns);
    SumNonNegative(s.cons, ConClaims);
  }

  /** While one producer is inside, no other is between its write and its increment. */
  lemma NoOtherProducerLags(s: State, k: nat)
    requires LockInv(s) && k < |s.pros| && ProHolds(s.pros[k]) == 1
    ensures Sum(s.pros, ProLags) == ProLags(s.pros[k])
  {
    var quiet := s.pros[k := Producer(PFull, 0)];
    SumUpdate(s.pros, k, Producer(PFull, 0), ProLags);
    if Sum(quiet, ProLags) != 0 {
      var k' := SumWitness(quiet, ProLags);
      SumNonNegative(s.cons, ConHolds);
      if k < k' { SumAtLeastTwo(s.pros, k, k', ProHolds); } else { SumAtLeastTwo(s.pros, k', k, ProHolds); }
    }
  }

  lemma NoOtherConsumerLags(s: State, j: nat)
    requires LockInv(s) && j < |s.cons| && ConHolds(s.cons[j]) == 1
    ensures Sum(s.cons, ConLags) == ConLags(s.cons[j])
  {
    var quiet := s.cons[j := Consumer(CEmpty, 0)];
    SumUpdate(s.cons, j, Consumer(CEmpty, 0), ConLags);
    if Sum(quiet, ConLags) != 0 {
      var j' := SumWitness(quiet, ConLags);
      SumNonNegative(s.pros, ProHolds);
      if j < j' { SumAtLeastTwo(s.cons, j, j', ConHolds); } else { SumAtLeastTwo(s.cons, j', j, ConHolds); }
    }
  }

  /** The slot of the n-th access when every access is followed by one increment. */
  ghost function Slot(size: nat, n: nat): nat
    requires size > 0
    ensures Slot(size, n) < size
  {
    if n == 0 then 0 else Wrap(Slot(size, n - 1), size)
  }

  lemma {:induction false} SlotAhead(size: nat, n: nat, d: nat)
    requires 0 < d < size
    ensures Slot(size, n + d) == Slot(size, n) + d || Slot(size, n + d) == Slot(size, n) + d - size
  {
    if d > 1 {
      SlotAhead(size, n, d - 1);
    }
  }

  /** Two accesses less than a lap apart use different slots. */
  lemma SlotsDiffer(size: nat, a: nat, b: nat)
    requires a < b < a + size
    ensures Slot(size, a) != Slot(size, b)
  {
    SlotAhead(size, a, b - a);
  }

  lemma CountersKeptByProducer(c: Config, s: State, k: nat)
    requires LockInv(s) && SlotInv(s) && ItemInv(s) && Enabled(s, P(k))
    ensures var s' := ProducerNext(c, s, k); LockInv(s') && SlotInv(s') && ItemInv(s')
  {
    ProducerCounts(s, k, ProducerNext(c, s, k).pros[k]);
  }

  lemma CountersKeptByConsumer(s: State, j: nat)
    requires LockInv(s) && SlotInv(s) && ItemInv(s) && Enabled(s, C(j))
    ensures var s' := ConsumerNext(s, j); LockInv(s') && SlotInv(s') && ItemInv(s')
  {
    ConsumerCounts(s, j, ConsumerNext(s, j).cons[j]);
  }

  lemma PositionKeptByProducer(c: Config, s: State, k: nat)
    requires LockInv(s) && PositionInv(s) && Enabled(s, P(k))
    ensures PositionInv(ProducerNext(c, s, k))
  {
    ProducerCounts(s, k, ProducerNext(c, s, k).pros[k]);
    if s.pros[k].pc.PAdvance? {
      NoOtherProducerLags(s, k);
    }
  }

  lemma PositionKeptByConsumer(s: State, j: nat)
    requires LockInv(s) && PositionInv(s) && Enabled(s, C(j))
    ensures PositionInv(ConsumerNext(s, j))
  {
    ConsumerCounts(s, j, ConsumerNext(s, j).cons[j]);
    if s.cons[j].pc.CAdvance? {
      NoOtherConsumerLags(s, j);
    }
  }

  /** A producer never overwrites an unread slot. */
  lemma RingKeptByProducer(c: Config, s: State, k: nat)
    requires LockInv(s) && SlotInv(s) && PositionInv(s) && RingInv(s) && Enabled(s, P(k))
    ensures RingInv(ProducerNext(c, s, k))
  {
    if s.pros[k].pc.PWrite? {
      NoOtherProducerLags(s, k);
      SumNonNegative(s.cons, ConReturns);
      SumAtLeast(s.pros, k, ProReserves);
      forall n | |s.consumed| <= n < |s.produced|
        ensures Slot(|s.buffer|, n) != Slot(|s.buffer|, |s.produced|)
      {
        SlotsDiffer(|s.buffer|, n, |s.produced|);
      }
    }
  }

  /** A consumer takes the oldest unread item. */
  lemma RingKeptByConsumer(s: State, j: nat)
    requires LockInv(s) && ItemInv(s) && PositionInv(s) && RingInv(s) && Enabled(s, C(j))
    ensures RingInv(ConsumerNext(s, j))
  {
    if s.cons[j].pc.CRead? {
      NoOtherConsumerLags(s, j);
      SumNonNegative(s.pros, ProAnnounces);
      SumAtLeast(s.cons, j, ConClaims);
    }
  }

  lemma ItemsOfAppend(h: seq<Item>, x: Item, k: nat)
    ensures ItemsOf(h + [x], k) == ItemsOf(h, k) + if x.producer == k then [x] else []
  {
    assert (h + [x])[..|h|] == h;
  }

  lemma ScriptKept(c: Config, s: State, t: Thread)
    requires ScriptInv(c, s) && Enabled(s, t)
    ensures ScriptInv(c, Next(c, s, t))
  {
    match t
    case P(k) =>
      StepsOfWriting(c, s, k);
      if s.pros[k].pc.PWrite? {
        ScriptGrows(c, s, ProducerNext(c, s, k), k);
      }
    case C(j) => StepsOfTaking(s, j);
  }

  /** Storing goes on with the script of the one who stores. */
  lemma ScriptGrows(c: Config, s: State, s': State, k: nat)
    requires ScriptInv(c, s) && k < |s.pros| && |s'.pros| == |s.pros| && s'.pros == s.pros[k := s'.pros[k]]
    requires s'.produced == s.produced + [Item(k, s.pros[k].i, Value(c, k, s.pros[k].i))]
    requires Written(s.pros[k]) == s.pros[k].i && Written(s'.pros[k]) == Written(s.pros[k]) + 1
    ensures forall j | 0 <= j < c.num :: ItemsOf(s'.produced, j) == Script(c, j, Written(s'.pros[j]))
  {
    var x := Item(k, s.pros[k].i, Value(c, k, s.pros[k].i));
    forall j | 0 <= j < c.num ensures ItemsOf(s'.produced, j) == Script(c, j, Written(s'.pros[j])) {
      ItemsOfAppend(s.produced, x, j);
    }
  }

  lemma StepsOfWriting(c: Config, s: State, k: nat)
    requires Enabled(s, P(k)) && s.pros[k].i < Items(c)
    ensures var s' := ProducerNext(c, s, k);
            && |s'.pros| == |s.pros| && s'.pros == s.pros[k := s'.pros[k]]
            && s'.cons == s.cons && s'.consumed == s.consumed
            && (if s.pros[k].pc.PWrite?
                then var x := Item(k, s.pros[k].i, Value(c, k, s.pros[k].i));
                     && s'.produced == s.produced + [x]
                     && Written(s'.pros[k]) == Written(s.pros[k]) + 1
                     && Finished(c)(s'.pros[k]) == Finished(c)(s.pros[k]) + IsMarker(x)
                else && s'.produced == s.produced
                     && Written(s'.pros[k]) == Written(s.pros[k])
                     && Finished(c)(s'.pros[k]) == Finished(c)(s.pros[k]))
  {
  }

  lemma MarkerKeptByProducer(c: Config, s: State, k: nat)
    requires MarkerInv(c, s) && Enabled(s, P(k)) && s.pros[k].i < Items(c)
    ensures MarkerInv(c, ProducerNext(c, s, k))
  {
    var s' := ProducerNext(c, s, k);
    StepsOfWriting(c, s, k);
    SumUpdate(s.pros, k, s'.pros[k], Written);
    SumUpdate(s.pros, k, s'.pros[k], Finished(c));
    if s.pros[k].pc.PWrite? {
      SumAppend(s.produced, s'.produced[|s.produced|], IsMarker);
    }
  }

  lemma StepsOfTaking(s: State, j: nat)
    requires Enabled(s, C(j))
    ensures var s' := ConsumerNext(s, j);
            && |s'.cons| == |s.cons| && s'.cons == s.cons[j := s'.cons[j]]
            && s'.pros == s.pros && s'.produced == s.produced
            && (if s.cons[j].pc.CRead?
                then var x := Taken(j, s.buffer[s.outPos]);
                     && s'.consumed == s.consumed + [x] && HasMarker(s.cons[j]) == 0
                     && HasMarker(s'.cons[j]) == IsTakenMarker(x)
                else && s'.consumed == s.consumed
                     && HasMarker(s'.cons[j]) == HasMarker(s.cons[j]))
  {
  }

  lemma MarkerKeptByConsumer(c: Config, s: State, j: nat)
    requires MarkerInv(c, s) && Enabled(s, C(j))
    ensures MarkerInv(c, ConsumerNext(s, j))
  {
    var s' := ConsumerNext(s, j);
    StepsOfTaking(s, j);
    SumUpdate(s.cons, j, s'.cons[j], HasMarker);
    if s.cons[j].pc.CRead? {
      SumAppend(s.consumed, s'.consumed[|s.consumed|], IsTakenMarker);
    }
  }

  lemma TakerKept(s: State, j: nat)
    requires TakerInv(s) && Enabled(s, C(j))
    ensures TakerInv(ConsumerNext(s, j))
  {
    var s' := ConsumerNext(s, j);
    if s.cons[j].pc.CRead? {
      var x := s'.consumed[|s.consumed|];
      forall i | 0 <= i < |s.cons|
        ensures Sum(s'.consumed, TookMarker(i)) == HasMarker(s'.cons[i])
      {
        SumAppend(s.consumed, x, TookMarker(i));
      }
    }
  }

  lemma StepKeepsInv(c: Config, s: State, t: Thread)
    requires Inv(c, s) && Enabled(s, t)
    ensures Inv(c, Next(c, s, t))
  {
    ScriptKept(c, s, t);
    match t
    case P(k) =>
      CountersKeptByProducer(c, s, k);
      PositionKeptByProducer(c, s, k);
      RingKeptByProducer(c, s, k);
      MarkerKeptByProducer(c, s, k);
    case C(j) =>
      CountersKeptByConsumer(s, j);
      PositionKeptByConsumer(s, j);
      RingKeptByConsumer(s, j);
      MarkerKeptByConsumer(c, s, j);
      TakerKept(s, j);
  }
}
