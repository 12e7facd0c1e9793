/** POSIX message queues on System V queues (posix1b/mqueue.c). A message of priority `prio`
    travels with type MQ_PRIO_MAX - prio, and `mq_receive` asks the kernel for the first message
    of the lowest type. The kernel's side follows section 2.7 of the System Interfaces volume of
    IEEE Std 1003.1-2001. */
module MessageQueue {
  import opened Sequences

  const MQ_PRIO_MAX: nat := 256
  const MQ_MSGSIZE: nat := 16384

  newtype byte = x: int | 0 <= x < 256

  /** A message as the kernel stores it. */
  datatype Packet = Packet(mtype: int, text: seq<byte>)

  /** A message as POSIX sees it. */
  datatype Message = Message(prio: nat, text: seq<byte>)

  // ---------------------------------------------------------------------------------------
  // The kernel's queue
  // ---------------------------------------------------------------------------------------

  /** Position of the first packet of the lowest type. */
  function Lowest(q: seq<Packet>): (i: nat)
    requires q != []
    ensures i < |q|
    ensures forall j | 0 <= j < |q| :: q[i].mtype <= q[j].mtype && (j < i ==> q[i].mtype < q[j].mtype)
  {
    if |q| == 1 then 0
    else
      var i := Lowest(q[..|q| - 1]);
      assert forall j | 0 <= j < |q| - 1 :: q[..|q| - 1][j] == q[j];
      if q[|q| - 1].mtype < q[i].mtype then |q| - 1 else i
  }

  function Bytes(q: seq<Packet>): nat {
    if q == [] then 0 else Bytes(q[..|q| - 1]) + |q[|q| - 1].text|
  }

  /** The bytes in a queue are those of its parts, down to the text of one packet. */
  lemma {:induction false} BytesAddUp(a: seq<Packet>, b: seq<Packet>)
    ensures Bytes(a + b) == Bytes(a) + Bytes(b)
    ensures |b| == 1 ==> Bytes(b) == |b[0].text|
  {
    if b == [] {
      assert a + b == a;
    } else {
      var front := b[..|b| - 1];
      BytesAddUp(a, front);
      assert (a + b)[..|a + b| - 1] == a + front;
    }
  }

  // ---------------------------------------------------------------------------------------
  // The POSIX queue it stands for
  // ---------------------------------------------------------------------------------------

  /** Every packet in the queue came from a priority below MQ_PRIO_MAX. */
  ghost predicate WellTyped(q: seq<Packet>) {
    forall i | 0 <= i < |q| :: 1 <= q[i].mtype <= MQ_PRIO_MAX
  }

  function Encode(m: Message): Packet { Packet(MQ_PRIO_MAX - m.prio, m.text) }

  function Decode(x: Packet): Message
    requires x.mtype <= MQ_PRIO_MAX
  {
    Message(MQ_PRIO_MAX - x.mtype, x.text)
  }

  /** Messages in the order in which they were sent. */
  ghost function Queue(q: seq<Packet>): seq<Message>
    requires WellTyped(q)
  {
    seq(|q|, i requires 0 <= i < |q| => Decode(q[i]))
  }

  /** `i` is the oldest message of the highest priority. */
  ghost predicate IsOldestHighest(q: seq<Message>, i: nat) {
    i < |q| && forall j | 0 <= j < |q| :: q[j].prio <= q[i].prio && (j < i ==> q[j].prio < q[i].prio)
  }

  lemma OldestHighestIsUnique(q: seq<Message>, i: nat, j: nat)
    requires IsOldestHighest(q, i) && IsOldestHighest(q, j)
    ensures i == j
  {
    assert q[i].prio == q[j].prio;
  }

  /** What the kernel takes out is what POSIX asks for, with its priority intact. */
  lemma LowestIsOldestHighest(q: seq<Packet>)
    requires WellTyped(q) && q != []
    ensures IsOldestHighest(Queue(q), Lowest(q))
    ensures WellTyped(Without(q, Lowest(q)))
    ensures Queue(Without(q, Lowest(q))) == Without(Queue(q), Lowest(q))
  {
    LowestIsHighest(q);
    QueueWithout(q, Lowest(q));
  }

  /** The lowest type is the highest priority. */
  lemma LowestIsHighest(q: seq<Packet>)
    requires WellTyped(q) && q != []
    ensures IsOldestHighest(Queue(q), Lowest(q))
  {
    var i := Lowest(q);
    assert forall j | 0 <= j < |q| :: Queue(q)[j].prio == MQ_PRIO_MAX - q[j].mtype;
  }

  lemma QueueWithout(q: seq<Packet>, i: nat)
    requires WellTyped(q) && i < |q|
    ensures WellTyped(Without(q, i)) && Queue(Without(q, i)) == Without(Queue(q), i)
  {
    assert forall j | 0 <= j < |q| - 1 :: Without(q, i)[j] == q[if j < i then j else j + 1];
  }

  lemma SendingEnqueues(q: seq<Packet>, m: Message)
    requires WellTyped(q) && m.prio < MQ_PRIO_MAX
    ensures WellTyped(q + [Encode(m)]) && Queue(q + [Encode(m)]) == Queue(q) + [m]
  {
  }

  // ---------------------------------------------------------------------------------------
  // Any sequence of successful sends and receives
  // ---------------------------------------------------------------------------------------

  datatype Event = Sent(m: Message) | Received

  /** The kernel's queue after the events, and the messages handed to the receivers. A receive
      on an empty queue does not happen. */
  ghost function Replay(es: seq<Event>): (seq<Packet>, seq<Message>)
    requires Sendable(es)
    ensures WellTyped(Replay(es).0)
  {
    if es == [] then ([], [])
    else
      var (q, out) := Replay(es[..|es| - 1]);
      match es[|es| - 1]
      case Sent(m) => (q + [Encode(m)], out)
      case Received =>
        if q == [] then (q, out)
        else (Without(q, Lowest(q)), out + [Decode(q[Lowest(q)])])
  }

  ghost predicate Sendable(es: seq<Event>) {
    forall i | 0 <= i < |es| && es[i].Sent? :: es[i].m.prio < MQ_PRIO_MAX
  }

  ghost function AllSent(es: seq<Event>): seq<Message> {
    if es == [] then []
    else AllSent(es[..|es| - 1]) + if es[|es| - 1].Sent? then [es[|es| - 1].m] else []
  }

  /** The messages of one priority, in order. */
  ghost function Of(q: seq<Message>, p: nat): seq<Message> {
    if q == [] then []
    else Of(q[..|q| - 1], p) + if q[|q| - 1].prio == p then [q[|q| - 1]] else []
  }

  lemma {:induction false} OfConcat(a: seq<Message>, b: seq<Message>, p: nat)
    ensures Of(a + b, p) == Of(a, p) + Of(b, p)
  {
    if b == [] {
      assert a + b == a;
    } else {
      var n := |b| - 1;
      assert (a + b)[..|a + b| - 1] == a + b[..n];
      OfConcat(a, b[..n], p);
    }
  }

  lemma OfSingle(m: Message, p: nat)
    ensures Of([m], p) == if m.prio == p then [m] else []
  {
    assert [m][..0] == [];
  }

  lemma {:induction false} OfNone(q: seq<Message>, p: nat)
    requires forall i | 0 <= i < |q| :: q[i].prio != p
    ensures Of(q, p) == []
  {
    if q != [] {
      OfNone(q[..|q| - 1], p);
    }
  }

  /** Where a sequence is cut around position `i`, its messages of one priority are too. */
  lemma OfSplit(q: seq<Message>, i: nat, p: nat)
    requires i < |q|
    ensures Of(q, p) == Of(q[..i], p) + Of([q[i]], p) + Of(q[i + 1..], p)
    ensures Of(Without(q, i), p) == Of(q[..i], p) + Of(q[i + 1..], p)
  {
    var a, m, b := q[..i], [q[i]], q[i + 1..];
    assert q == (a + m) + b;
    OfConcat(a + m, b, p);
    OfConcat(a, m, p);
    OfConcat(a, b, p);
  }

  /** Taking the oldest of the highest priority takes the head of that priority's messages and
      leaves every other priority alone. */
  lemma TakingIsFifo(q: seq<Message>, i: nat, p: nat)
    requires IsOldestHighest(q, i)
    ensures Of(q, p) == Of([q[i]], p) + Of(Without(q, i), p)
  {
    OfSplit(q, i, p);
    NoneBeforeOldest(q, i, p);
    MoveUp(Of(q[..i], p), Of([q[i]], p), Of(q[i + 1..], p));
  }

  /** Of its own priority nothing comes before the oldest of the highest. */
  lemma NoneBeforeOldest(q: seq<Message>, i: nat, p: nat)
    requires IsOldestHighest(q, i)
    ensures Of(q[..i], p) == [] || Of([q[i]], p) == []
  {
    if p == q[i].prio {
      OfNone(q[..i], p);
    } else {
      OfSingle(q[i], p);
    }
  }

  lemma MoveUp(a: seq<Message>, m: seq<Message>, b: seq<Message>)
    requires a == [] || m == []
    ensures a + m + b == m + (a + b)
  {
  }

  lemma Regroup(a: seq<Message>, m: seq<Message>, b: seq<Message>)
    ensures a + (m + b) == (a + m) + b
  {
  }

  lemma SendConserves(sent: seq<Message>, q: seq<Packet>, out: seq<Message>, m: Message, p: nat)
    requires WellTyped(q) && m.prio < MQ_PRIO_MAX
    requires Of(sent, p) == Of(out, p) + Of(Queue(q), p)
    ensures WellTyped(q + [Encode(m)])
    ensures Of(sent + [m], p) == Of(out, p) + Of(Queue(q + [Encode(m)]), p)
  {
    SendingEnqueues(q, m);
    OfConcat(sent, [m], p);
    OfConcat(Queue(q), [m], p);
  }

  lemma ReceiveConserves(sent: seq<Message>, q: seq<Packet>, out: seq<Message>, p: nat)
    requires WellTyped(q) && q != []
    requires Of(sent, p) == Of(out, p) + Of(Queue(q), p)
    ensures WellTyped(Without(q, Lowest(q)))
    ensures Of(sent, p) == Of(out + [Decode(q[Lowest(q)])], p) + Of(Queue(Without(q, Lowest(q))), p)
  {
    var i := Lowest(q);
    LowestIsOldestHighest(q);
    TakingIsFifo(Queue(q), i, p);
    OfConcat(out, [Decode(q[i])], p);
    Regroup(Of(out, p), Of([Decode(q[i])], p), Of(Queue(Without(q, i)), p));
  }

  /** Nothing is lost, duplicated or reordered: for every priority, what was sent is what was
      received followed by what is still queued. */
  lemma {:induction false} Conservation(es: seq<Event>, p: nat)
    requires Sendable(es)
    ensures var (q, out) := Replay(es); Of(AllSent(es), p) == Of(out, p) + Of(Queue(q), p)
  {
    if es != [] {
      var before := es[..|es| - 1];
      var (q, out) := Replay(before);
      Conservation(before, p);
      match es[|es| - 1]
      case Sent(m) => SendConserves(AllSent(before), q, out, m, p);
      case Received =>
        assert AllSent(es) == AllSent(before);
        if q != [] {
          ReceiveConserves(AllSent(before), q, out, p);
        }
    }
  }

  // ---------------------------------------------------------------------------------------
  // Draining is stable sorting
  // ---------------------------------------------------------------------------------------

  /** Receive until the queue is empty. */
  ghost function Drain(q: seq<Packet>): seq<Message>
    requires WellTyped(q)
    decreases |q|
  {
    if q == [] then [] else [Decode(q[Lowest(q)])] + Drain(Without(q, Lowest(q)))
  }

  ghost predicate Descending(q: seq<Message>) {
    forall i, j | 0 <= i < j < |q| :: q[i].prio >= q[j].prio
  }

  /** `r` is `q` sorted by descending priority, messages of one priority in their old order. */
  ghost predicate IsStableSort(q: seq<Message>, r: seq<Message>) {
    Descending(r) && forall p: nat :: Of(r, p) == Of(q, p)
  }

  lemma {:induction false} OfContains(q: seq<Message>, i: nat)
    requires i < |q|
    ensures Of(q, q[i].prio) != []
  {
    if i < |q| - 1 {
      OfContains(q[..|q| - 1], i);
    }
  }

  lemma {:induction false} OfHasPriority(q: seq<Message>, p: nat)
    ensures forall i | 0 <= i < |Of(q, p)| :: Of(q, p)[i].prio == p && Of(q, p)[i] in q
  {
    if q != [] {
      OfHasPriority(q[..|q| - 1], p);
    }
  }

  /** A message of the sorted queue has no higher priority than the unsorted maximum. */
  lemma SortKeepsMaximum(q: seq<Message>, r: seq<Message>, i: nat, max: nat)
    requires forall p: nat :: Of(r, p) == Of(q, p)
    requires forall j | 0 <= j < |q| :: q[j].prio <= max
    requires i < |r|
    ensures r[i].prio <= max
  {
    var p := r[i].prio;
    OfContains(r, i);
    OfHasPriority(q, p);
    assert Of(q, p)[0] in q;
  }

  lemma {:induction false} DrainIsStableSort(q: seq<Packet>)
    requires WellTyped(q)
    ensures IsStableSort(Queue(q), Drain(q))
    decreases |q|
  {
    if q != [] {
      var i := Lowest(q);
      var rest := Without(q, i);
      LowestIsOldestHighest(q);
      DrainIsStableSort(rest);
      var m, r := Decode(q[i]), Drain(rest);
      forall p: nat ensures Of([m] + r, p) == Of(Queue(q), p) {
        OfConcat([m], r, p);
        TakingIsFifo(Queue(q), i, p);
      }
      forall j | 0 <= j < |r| ensures r[j].prio <= m.prio {
        SortKeepsMaximum(Queue(rest), r, j, m.prio);
      }
    }
  }

  lemma HeadOfOf(r: seq<Message>, p: nat)
    requires r != []
    ensures Of(r, p) == (if r[0].prio == p then [r[0]] else []) + Of(r[1..], p)
  {
    assert r == [r[0]] + r[1..];
    OfConcat([r[0]], r[1..], p);
    OfSingle(r[0], p);
  }

  lemma SortedHeadsAgree(r: seq<Message>, r': seq<Message>)
    requires Descending(r) && Descending(r') && r != [] && r' != []
    requires forall p: nat :: Of(r, p) == Of(r', p)
    ensures r[0] == r'[0]
  {
    SortKeepsMaximum(r, r', 0, r[0].prio);
    SortKeepsMaximum(r', r, 0, r'[0].prio);
    HeadOfOf(r, r[0].prio);
    HeadOfOf(r', r[0].prio);
    assert Of(r, r[0].prio)[0] == r[0] && Of(r', r[0].prio)[0] == r'[0];
  }

  lemma EmptyHasNoMessages(r: seq<Message>)
    requires forall p: nat :: Of(r, p) == []
    ensures r == []
  {
    if r != [] {
      OfContains(r, 0);
    }
  }

  lemma {:induction false} SortedAreEqual(r: seq<Message>, r': seq<Message>)
    requires Descending(r) && Descending(r')
    requires forall p: nat :: Of(r, p) == Of(r', p)
    ensures r == r'
  {
    if r == [] {
      EmptyHasNoMessages(r');
    } else if r' == [] {
      EmptyHasNoMessages(r);
    } else {
      SortedHeadsAgree(r, r');
      forall p: nat ensures Of(r[1..], p) == Of(r'[1..], p) {
        HeadOfOf(r, p);
        HeadOfOf(r', p);
        var n := if r[0].prio == p then 1 else 0;
        assert Of(r[1..], p) == Of(r, p)[n..] && Of(r'[1..], p) == Of(r', p)[n..];
      }
      SortedAreEqual(r[1..], r'[1..]);
      assert r == [r[0]] + r[1..] && r' == [r'[0]] + r'[1..];
    }
  }

  /** There is only one stable sort. */
  lemma StableSortIsUnique(q: seq<Message>, r: seq<Message>, r': seq<Message>)
    requires IsStableSort(q, r) && IsStableSort(q, r')
    ensures r == r'
  {
    SortedAreEqual(r, r');
  }

  ghost function Packets(ms: seq<Message>): seq<Packet> {
    seq(|ms|, i requires 0 <= i < |ms| => Encode(ms[i]))
  }

  /** Draining what any sequence of sends left yields its stable sort by descending priority,
      and nothing else. */
  lemma SendThenDrain(ms: seq<Message>, r: seq<Message>)
    requires forall i | 0 <= i < |ms| :: ms[i].prio < MQ_PRIO_MAX
    ensures WellTyped(Packets(ms))
    ensures r == Drain(Packets(ms)) <==> IsStableSort(ms, r)
  {
    var q := Packets(ms);
    assert Queue(q) == ms;
    DrainIsStableSort(q);
    if IsStableSort(ms, r) {
      StableSortIsUnique(ms, r, Drain(q));
    }
  }
}
