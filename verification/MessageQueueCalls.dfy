/** `mq_send`, `mq_receive` and `mq_notify` as they change the kernel's queue and the shared
    notification request in place, and every history of such calls (posix1b/mqueue.c). */
module MessageQueueCalls {
  import opened Sequences
  import opened MessageQueue

  /** What a call returns: a value, -1 with an error number, or nothing yet because it sleeps. */
  datatype Errno = EINVAL | E2BIG | EACCES | EAGAIN | EINTR | ENOMSG | EBUSY | ENOENT
  datatype Reply<T> = Ok(value: T) | Err(error: Errno) | Sleeps

  datatype Notification = NoNotification | Signal(signo: int) | Other

  datatype Kill = Kill(pid: int, signo: int)

  // ---------------------------------------------------------------------------------------
  // One call
  // ---------------------------------------------------------------------------------------

  /** The kernel's limits on queued bytes and on one message. */
  datatype Limits = Limits(qbytes: nat, msgmax: nat)

  /** What a descriptor can do with the queue: the non-blocking flag, the permissions of its process,
      and whether the notification request could be mapped. */
  datatype Access = Access(noWait: bool, readable: bool, writable: bool, mapped: bool)

  /** The kernel's queue and what has happened to it: messages that arrived in it, messages for
      which `mq_send` returned 0, messages received, and messages thrown away with IPC_RMID. */
  datatype State = State(
    queue: seq<Packet>, removed: bool,
    arrived: seq<Message>, reported: seq<Message>, received: seq<Message>, purged: seq<Message>)

  const FRESH := State([], false, [], [], [], [])

  /** A call through a descriptor. `crowded` says that the messages in all queues of the system are
      at their limit, `interrupted` that a signal ends the call should it sleep. A call that is
      woken up for another reason is made again. */
  datatype Call =
    | SendCall(m: Message, mqd: Access, crowded: bool, interrupted: bool)
    | ReceiveCall(len: nat, mqd: Access, interrupted: bool)
    | RemoveCall

  predicate HasRoom(lim: Limits, q: seq<Packet>, text: seq<byte>, crowded: bool) {
    !crowded && Bytes(q) + |text| <= lim.qbytes
  }

  /** `msgsnd`, with all the errors of its page in IEEE Std 1003.1-2001: bad arguments, a queue that
      is gone and missing permission come before the question of room. */
  function Msgsnd(lim: Limits, s: State, x: Packet, mqd: Access, crowded: bool, interrupted: bool): Reply<int> {
    if x.mtype <= 0 || |x.text| > lim.msgmax || s.removed then Err(EINVAL)
    else if !mqd.writable then Err(EACCES)
    else if HasRoom(lim, s.queue, x.text, crowded) then Ok(0)
    else if mqd.noWait then Err(EAGAIN)
    else if interrupted then Err(EINTR)
    else Sleeps
  }

  /** What `mq_send` returns; the result of `msgsnd` is not looked at. */
  function SendReply(lim: Limits, s: State, m: Message, mqd: Access, crowded: bool, interrupted: bool): Reply<int> {
    if m.prio > MQ_PRIO_MAX then Err(EINVAL)
    else if |m.text| > MQ_MSGSIZE then Err(E2BIG)
    else if Msgsnd(lim, s, Encode(m), mqd, crowded, interrupted).Sleeps? then Sleeps
    else Ok(0)
  }

  /** The priority is looked at before the length, and beyond these two nothing is an error. The call
      sleeps for a message that `msgsnd` would take if there were room, if it is to wait for that and
      no signal ends it. */
  lemma SendReplyByArguments(lim: Limits, s: State, m: Message, mqd: Access, crowded: bool, interrupted: bool)
    ensures var r := SendReply(lim, s, m, mqd, crowded, interrupted);
            && (m.prio > 256 ==> r == Err(EINVAL))
            && (m.prio <= 256 && |m.text| > 16384 ==> r == Err(E2BIG))
            && (m.prio <= 256 && |m.text| <= 16384 ==> r == Ok(0) || r == Sleeps)
            && (r == Sleeps <==>
                  && m.prio < 256 && |m.text| <= 16384 && |m.text| <= lim.msgmax
                  && !s.removed && mqd.writable
                  && (crowded || Bytes(s.queue) + |m.text| > lim.qbytes)
                  && !mqd.noWait && !interrupted)
  {
  }

  /** The message gets into the queue. */
  predicate Arrives(lim: Limits, s: State, m: Message, mqd: Access, crowded: bool) {
    && m.prio < MQ_PRIO_MAX && |m.text| <= MQ_MSGSIZE && |m.text| <= lim.msgmax
    && !s.removed && mqd.writable && HasRoom(lim, s.queue, m.text, crowded)
  }

  /** `msgrcv` for a buffer of `len` bytes, asking for the first packet of the lowest type. */
  function Msgrcv(s: State, len: nat, mqd: Access, interrupted: bool): Reply<nat> {
    if s.removed then Err(EINVAL)
    else if !mqd.readable then Err(EACCES)
    else if s.queue == [] then (if mqd.noWait then Err(ENOMSG) else if interrupted then Err(EINTR) else Sleeps)
    else if |s.queue[Lowest(s.queue)].text| > len then Err(E2BIG)
    else Ok(Lowest(s.queue))
  }

  ghost function After(lim: Limits, s: State, call: Call): State
    requires WellTyped(s.queue)
    ensures WellTyped(After(lim, s, call).queue)
  {
    match call
    case SendCall(m, mqd, crowded, interrupted) =>
      var s1 :=
        if Arrives(lim, s, m, mqd, crowded) then s.(queue := s.queue + [Encode(m)], arrived := s.arrived + [m]) else s;
      s1.(reported := s.reported + if SendReply(lim, s, m, mqd, crowded, interrupted) == Ok(0) then [m] else [])
    case ReceiveCall(len, mqd, interrupted) =>
      var r := Msgrcv(s, len, mqd, interrupted);
      if r.Ok? then s.(queue := Without(s.queue, r.value), received := s.received + [Decode(s.queue[r.value])]) else s
    case RemoveCall => s.(removed := true, queue := [], purged := s.purged + Queue(s.queue))
  }

  /** A send whose arguments are accepted, by the result of `msgsnd`. */
  lemma SendEffect(lim: Limits, s: State, m: Message, mqd: Access, crowded: bool, interrupted: bool)
    requires WellTyped(s.queue) && m.prio <= MQ_PRIO_MAX && |m.text| <= MQ_MSGSIZE
    ensures var r := Msgsnd(lim, s, Encode(m), mqd, crowded, interrupted);
            && (r.Ok? <==> Arrives(lim, s, m, mqd, crowded))
            && After(lim, s, SendCall(m, mqd, crowded, interrupted)) ==
               s.(queue := if r.Ok? then s.queue + [Encode(m)] else s.queue,
                  arrived := if r.Ok? then s.arrived + [m] else s.arrived,
                  reported := if r.Sleeps? then s.reported else s.reported + [m])
  {
    assert s.reported + [] == s.reported;
  }

  lemma RefusedSend(lim: Limits, s: State, m: Message, mqd: Access, crowded: bool, interrupted: bool)
    requires WellTyped(s.queue) && (m.prio > MQ_PRIO_MAX || |m.text| > MQ_MSGSIZE)
    ensures !Arrives(lim, s, m, mqd, crowded) && After(lim, s, SendCall(m, mqd, crowded, interrupted)) == s
  {
    assert s.reported + [] == s.reported;
  }

  /** The queue as POSIX sees it after a send. */
  lemma QueueAfterSend(lim: Limits, s: State, m: Message, mqd: Access, crowded: bool, interrupted: bool)
    requires WellTyped(s.queue)
    ensures Queue(After(lim, s, SendCall(m, mqd, crowded, interrupted)).queue) ==
            Queue(s.queue) + if Arrives(lim, s, m, mqd, crowded) then [m] else []
  {
    if Arrives(lim, s, m, mqd, crowded) {
      SendingEnqueues(s.queue, m);
    } else {
      assert Queue(s.queue) + [] == Queue(s.queue);
    }
  }

  /** A receive, by the result of `msgrcv`. */
  lemma ReceiveEffect(lim: Limits, s: State, len: nat, mqd: Access, interrupted: bool)
    requires WellTyped(s.queue)
    ensures var s', r := After(lim, s, ReceiveCall(len, mqd, interrupted)), Msgrcv(s, len, mqd, interrupted);
            if r.Ok? then
              && s.queue != [] && r.value == Lowest(s.queue)
              && s' == s.(queue := Without(s.queue, r.value), received := s.received + [Decode(s.queue[r.value])])
              && s' != s
            else s' == s
  {
    if Msgrcv(s, len, mqd, interrupted).Ok? {
      assert |s.received + [Decode(s.queue[Lowest(s.queue)])]| != |s.received|;
    }
  }

  /** What POSIX asks of a receive from the queue `q` that leaves `q'`: the oldest message of the
      highest priority, which is only one, or an error if it does not fit. */
  ghost predicate TakesOldestHighest(q: seq<Message>, len: nat, r: Reply<Message>, q': seq<Message>) {
    forall i: nat | IsOldestHighest(q, i) ::
      if |q[i].text| > len then r == Err(E2BIG) && q' == q else r == Ok(q[i]) && q' == Without(q, i)
  }

  lemma LowestIsTaken(q: seq<Packet>, len: nat)
    requires WellTyped(q) && q != []
    ensures var x, q' := q[Lowest(q)], Without(q, Lowest(q));
            && WellTyped(q')
            && if |x.text| > len then TakesOldestHighest(Queue(q), len, Err(E2BIG), Queue(q))
               else TakesOldestHighest(Queue(q), len, Ok(Decode(x)), Queue(q'))
  {
    LowestIsOldestHighest(q);
    forall i: nat | IsOldestHighest(Queue(q), i) ensures i == Lowest(q) {
      OldestHighestIsUnique(Queue(q), Lowest(q), i);
    }
  }

  // ---------------------------------------------------------------------------------------
  // Every history of calls
  // ---------------------------------------------------------------------------------------

  ghost function Replayed(lim: Limits, calls: seq<Call>): State
    ensures WellTyped(Replayed(lim, calls).queue)
  {
    if calls == [] then FRESH else After(lim, Replayed(lim, calls[..|calls| - 1]), calls[|calls| - 1])
  }

  /** The call passes the checks of `mq_send` but `msgsnd` fails: the priority is MQ_PRIO_MAX and
      becomes type 0; the message is longer than the kernel takes; the queue is gone; the process may
      not write to it; or it or the system is full and the call does not wait, or is interrupted. */
  predicate Loses(lim: Limits, s: State, call: Call) {
    && call.SendCall? && call.m.prio <= MQ_PRIO_MAX && |call.m.text| <= MQ_MSGSIZE
    && (|| call.m.prio == MQ_PRIO_MAX
        || |call.m.text| > lim.msgmax
        || s.removed
        || !call.mqd.writable
        || (!HasRoom(lim, s.queue, call.m.text, call.crowded) && (call.mqd.noWait || call.interrupted)))
  }

  /** A reported 0 does not mean that the message was sent, for exactly these calls. */
  lemma ZeroMeansSentIff(lim: Limits, s: State, m: Message, mqd: Access, crowded: bool, interrupted: bool)
    ensures (SendReply(lim, s, m, mqd, crowded, interrupted) == Ok(0) ==> Arrives(lim, s, m, mqd, crowded)) <==>
            !Loses(lim, s, SendCall(m, mqd, crowded, interrupted))
    ensures Arrives(lim, s, m, mqd, crowded) ==> SendReply(lim, s, m, mqd, crowded, interrupted) == Ok(0)
  {
  }

  ghost predicate LosesAt(lim: Limits, calls: seq<Call>, n: nat)
    requires n < |calls|
  {
    Loses(lim, Replayed(lim, calls[..n]), calls[n])
  }

  ghost predicate LosesNothing(lim: Limits, calls: seq<Call>) {
    forall n: nat | n < |calls| :: !LosesAt(lim, calls, n)
  }

  /** How many messages of priority `p` the first `n` calls reported as sent that were not. */
  ghost function Losses(lim: Limits, calls: seq<Call>, p: nat, n: nat): nat
    requires n <= |calls|
  {
    if n == 0 then 0
    else Losses(lim, calls, p, n - 1) + if LosesAt(lim, calls, n - 1) && calls[n - 1].m.prio == p then 1 else 0
  }

  lemma {:induction false} LossIsCounted(lim: Limits, calls: seq<Call>, k: nat, n: nat)
    requires k < n <= |calls| && LosesAt(lim, calls, k)
    ensures Losses(lim, calls, calls[k].m.prio, n) > 0
  {
    if k + 1 < n {
      LossIsCounted(lim, calls, k, n - 1);
    }
  }

  /** How many messages of priority `p` more were reported than arrived. */
  ghost function Gap(s: State, p: nat): int { |Of(s.reported, p)| - |Of(s.arrived, p)| }

  /** One call reports what arrives by it and what it loses. */
  lemma GapOfCall(lim: Limits, s: State, call: Call, p: nat)
    requires WellTyped(s.queue)
    ensures Gap(After(lim, s, call), p) == Gap(s, p) + if Loses(lim, s, call) && call.m.prio == p then 1 else 0
  {
    if call.SendCall? {
      var m := call.m;
      ZeroMeansSentIff(lim, s, m, call.mqd, call.crowded, call.interrupted);
      OfConcat(s.reported, [m], p);
      OfConcat(s.arrived, [m], p);
      assert s.reported + [] == s.reported;
    }
  }

  lemma ReplayedNext(lim: Limits, calls: seq<Call>, n: nat)
    requires n < |calls|
    ensures Replayed(lim, calls[..n + 1]) == After(lim, Replayed(lim, calls[..n]), calls[n])
  {
    assert calls[..n + 1][..n] == calls[..n];
  }

  lemma GapNext(lim: Limits, calls: seq<Call>, n: nat, p: nat)
    requires n < |calls|
    ensures Gap(Replayed(lim, calls[..n + 1]), p) ==
            Gap(Replayed(lim, calls[..n]), p) + if LosesAt(lim, calls, n) && calls[n].m.prio == p then 1 else 0
  {
    ReplayedNext(lim, calls, n);
    GapOfCall(lim, Replayed(lim, calls[..n]), calls[n], p);
  }

  lemma {:induction false} ReportedIsArrivedAndLost(lim: Limits, calls: seq<Call>, p: nat, n: nat)
    requires n <= |calls|
    ensures Gap(Replayed(lim, calls[..n]), p) == Losses(lim, calls, p, n)
  {
    if n == 0 {
      assert Replayed(lim, calls[..0]) == FRESH;
    } else {
      ReportedIsArrivedAndLost(lim, calls, p, n - 1);
      GapNext(lim, calls, n - 1, p);
    }
  }

  /** A call that loses nothing reports exactly what arrives by it. */
  lemma NothingLostByCall(lim: Limits, s: State, call: Call)
    requires WellTyped(s.queue) && !Loses(lim, s, call) && s.reported == s.arrived
    ensures After(lim, s, call).reported == After(lim, s, call).arrived
  {
    if call.SendCall? {
      ZeroMeansSentIff(lim, s, call.m, call.mqd, call.crowded, call.interrupted);
      assert s.reported + [] == s.reported;
    }
  }

  lemma {:induction false} NothingLostIsAllArrived(lim: Limits, calls: seq<Call>, n: nat)
    requires LosesNothing(lim, calls) && n <= |calls|
    ensures Replayed(lim, calls[..n]).reported == Replayed(lim, calls[..n]).arrived
  {
    if n > 0 {
      NothingLostIsAllArrived(lim, calls, n - 1);
      ReplayedNext(lim, calls, n - 1);
      assert !LosesAt(lim, calls, n - 1);
      NothingLostByCall(lim, Replayed(lim, calls[..n - 1]), calls[n - 1]);
    }
  }

  ghost predicate Conserved(s: State, p: nat)
    requires WellTyped(s.queue)
  {
    && Of(s.arrived, p) == Of(s.received, p) + Of(s.purged, p) + Of(Queue(s.queue), p)
    && (s.removed ==> s.queue == []) && (!s.removed ==> s.purged == [])
  }

  lemma SendCallConserves(lim: Limits, s: State, call: Call, p: nat)
    requires WellTyped(s.queue) && Conserved(s, p) && call.SendCall?
    ensures Conserved(After(lim, s, call), p)
  {
    var m := call.m;
    if Arrives(lim, s, m, call.mqd, call.crowded) {
      assert Of(s.received, p) + [] == Of(s.received, p);
      SendConserves(s.arrived, s.queue, s.received, m, p);
    }
  }

  lemma ReceiveCallConserves(lim: Limits, s: State, call: Call, p: nat)
    requires WellTyped(s.queue) && Conserved(s, p) && call.ReceiveCall?
    ensures Conserved(After(lim, s, call), p)
  {
    if Msgrcv(s, call.len, call.mqd, call.interrupted).Ok? {
      var out := s.received + [Decode(s.queue[Lowest(s.queue)])];
      assert Of(s.received, p) + [] == Of(s.received, p) && Of(out, p) + [] == Of(out, p);
      ReceiveConserves(s.arrived, s.queue, s.received, p);
    }
  }

  lemma RemoveCallConserves(lim: Limits, s: State, p: nat)
    requires WellTyped(s.queue) && Conserved(s, p)
    ensures Conserved(After(lim, s, RemoveCall), p)
  {
    OfConcat(s.purged, Queue(s.queue), p);
    assert Queue([]) == [];
  }

  /** What arrived was received, thrown away with the queue, or is still there; for every
      priority in the order in which it was sent. */
  lemma {:induction false} ArrivedIsConserved(lim: Limits, calls: seq<Call>, p: nat)
    ensures Conserved(Replayed(lim, calls), p)
  {
    if calls != [] {
      var n := |calls| - 1;
      ArrivedIsConserved(lim, calls[..n], p);
      var s := Replayed(lim, calls[..n]);
      match calls[n]
      case SendCall(_, _, _, _) => SendCallConserves(lim, s, calls[n], p);
      case ReceiveCall(_, _, _) => ReceiveCallConserves(lim, s, calls[n], p);
      case RemoveCall => RemoveCallConserves(lim, s, p);
    }
  }

  ghost predicate Accounted(s: State)
    requires WellTyped(s.queue)
  {
    forall p: nat :: Of(s.reported, p) == Of(s.received, p) + Of(s.purged, p) + Of(Queue(s.queue), p)
  }

  /** After any history of calls, every message reported as sent was received, thrown away with
      the queue or is still there, in order, if and only if no call lost its message. */
  lemma ReportsAreTrueIff(lim: Limits, calls: seq<Call>)
    ensures Accounted(Replayed(lim, calls)) <==> LosesNothing(lim, calls)
  {
    var s, n := Replayed(lim, calls), |calls|;
    assert calls[..n] == calls;
    if LosesNothing(lim, calls) {
      NothingLostIsAllArrived(lim, calls, n);
      forall p: nat ensures Of(s.reported, p) == Of(s.received, p) + Of(s.purged, p) + Of(Queue(s.queue), p) {
        ArrivedIsConserved(lim, calls, p);
      }
    } else {
      var k: nat :| k < n && LosesAt(lim, calls, k);
      var p := calls[k].m.prio;
      LossIsCounted(lim, calls, k, n);
      ReportedIsArrivedAndLost(lim, calls, p, n);
      ArrivedIsConserved(lim, calls, p);
    }
  }

  // ---------------------------------------------------------------------------------------
  // The calls, in place
  // ---------------------------------------------------------------------------------------

  /** The kernel's queue and the notification request that the descriptors share. */
  class SharedQueue {
    const limits: Limits
    var queue: seq<Packet>
    var removed: bool
    var pid: int
    var signo: int
    ghost var arrived: seq<Message>
    ghost var reported: seq<Message>
    ghost var received: seq<Message>
    ghost var purged: seq<Message>
    ghost var kills: seq<Kill>
    ghost var registrations: nat
    ghost var withdrawals: nat
    ghost var wiped: nat

    ghost function View(): State
      reads this
    {
      State(queue, removed, arrived, reported, received, purged)
    }

    /** Every packet has a type that `mq_receive` asks for, and every registration is pending,
        withdrawn, wiped by another `mq_open` or answered by exactly one signal. */
    ghost predicate Valid()
      reads this
    {
      && WellTyped(queue)
      && registrations == |kills| + withdrawals + wiped + (if pid != 0 then 1 else 0)
    }

    constructor (limits: Limits)
      ensures Valid() && View() == FRESH && pid == 0 && this.limits == limits
    {
      this.limits := limits;
      queue, removed, pid, signo := [], false, 0, 0;
      arrived, reported, received, purged := [], [], [], [];
      kills, registrations, withdrawals, wiped := [], 0, 0, 0;
    }

    /** `msgsnd`. */
    method Enqueue(x: Packet, mqd: Access, crowded: bool, interrupted: bool) returns (r: Reply<int>)
      modifies `queue
      ensures r == Msgsnd(limits, old(View()), x, mqd, crowded, interrupted)
      ensures queue == if r.Ok? then old(queue) + [x] else old(queue)
    {
      if x.mtype <= 0 || |x.text| > limits.msgmax || removed {
        return Err(EINVAL);
      }
      if !mqd.writable {
        return Err(EACCES);
      }
      if !HasRoom(limits, queue, x.text, crowded) {
        return if mqd.noWait then Err(EAGAIN) else if interrupted then Err(EINTR) else Sleeps;
      }
      queue := queue + [x];
      r := Ok(0);
    }

    /** `mq_send`. It reports 0 for every accepted argument, whether or not the kernel took the
        message, and answers a pending registration exactly if the message arrived and the request
        is mapped. */
    method Send(m: Message, mqd: Access, crowded: bool, interrupted: bool) returns (r: Reply<int>)
      requires Valid()
      modifies `queue, `arrived, `reported, `pid, `kills
      ensures Valid()
      ensures r == SendReply(limits, old(View()), m, mqd, crowded, interrupted)
      ensures m.prio > 256 ==> r == Err(EINVAL)
      ensures m.prio <= 256 && |m.text| > 16384 ==> r == Err(E2BIG)
      ensures m.prio <= 256 && |m.text| <= 16384 ==> r == Ok(0) || r == Sleeps
      ensures r == Sleeps <==>
                && m.prio < 256 && |m.text| <= 16384 && |m.text| <= limits.msgmax
                && !old(removed) && mqd.writable
                && (crowded || Bytes(old(queue)) + |m.text| > limits.qbytes)
                && !mqd.noWait && !interrupted
      ensures View() == After(limits, old(View()), SendCall(m, mqd, crowded, interrupted))
      ensures Queue(queue) == old(Queue(queue)) + if Arrives(limits, old(View()), m, mqd, crowded) then [m] else []
      ensures if Arrives(limits, old(View()), m, mqd, crowded) && mqd.mapped && old(pid) != 0
              then pid == 0 && kills == old(kills) + [Kill(old(pid), signo)]
              else pid == old(pid) && kills == old(kills)
    {
      QueueAfterSend(limits, View(), m, mqd, crowded, interrupted);
      SendReplyByArguments(limits, View(), m, mqd, crowded, interrupted);
      if m.prio > MQ_PRIO_MAX {
        RefusedSend(limits, View(), m, mqd, crowded, interrupted);
        return Err(EINVAL);
      }
      if |m.text| > MQ_MSGSIZE {
        RefusedSend(limits, View(), m, mqd, crowded, interrupted);
        return Err(E2BIG);
      }
      SendEffect(limits, View(), m, mqd, crowded, interrupted);
      var rc := Enqueue(Packet(MQ_PRIO_MAX - m.prio, m.text), mqd, crowded, interrupted);
      if rc.Sleeps? {
        return Sleeps;
      }
      if rc.Ok? {
        arrived := arrived + [m];
        if mqd.mapped && pid != 0 {
          kills := kills + [Kill(pid, signo)];
          pid := 0;
        }
      }
      reported := reported + [m];
      r := Ok(0);
    }

    /** `msgrcv`. */
    method Dequeue(len: nat, mqd: Access, interrupted: bool) returns (r: Reply<Packet>)
      modifies `queue
      ensures match Msgrcv(old(View()), len, mqd, interrupted)
              case Ok(i) => r == Ok(old(queue)[i]) && queue == Without(old(queue), i)
              case Err(e) => r == Err(e) && queue == old(queue)
              case Sleeps => r == Sleeps && queue == old(queue)
    {
      if removed {
        return Err(EINVAL);
      }
      if !mqd.readable {
        return Err(EACCES);
      }
      if queue == [] {
        return if mqd.noWait then Err(ENOMSG) else if interrupted then Err(EINTR) else Sleeps;
      }
      var i := Lowest(queue);
      if |queue[i].text| > len {
        return Err(E2BIG);
      }
      r := Ok(queue[i]);
      queue := Without(queue, i);
    }

    /** `mq_receive` into a buffer of `len` bytes: the oldest message of the highest priority,
        whole and with its priority, or an error that leaves the queue alone. */
    method Receive(len: nat, mqd: Access, interrupted: bool) returns (r: Reply<Message>)
      requires Valid()
      modifies `queue, `received
      ensures Valid() && View() == After(limits, old(View()), ReceiveCall(len, mqd, interrupted))
      ensures r.Ok? <==> View() != old(View())
      ensures old(removed) ==> r == Err(EINVAL)
      ensures !old(removed) && !mqd.readable ==> r == Err(EACCES)
      ensures !old(removed) && mqd.readable && old(queue) == [] ==>
                r == if mqd.noWait then Err(ENOMSG) else if interrupted then Err(EINTR) else Sleeps
      ensures !old(removed) && mqd.readable && old(queue) != [] ==>
                TakesOldestHighest(old(Queue(queue)), len, r, Queue(queue))
    {
      if queue != [] {
        LowestIsTaken(queue, len);
      }
      ReceiveEffect(limits, View(), len, mqd, interrupted);
      var rc := Dequeue(len, mqd, interrupted);
      match rc {
        case Ok(x) =>
          r := Ok(Message(MQ_PRIO_MAX - x.mtype, x.text));
          received := received + [r.value];
        case Err(e) => r := Err(e);
        case Sleeps => r := Sleeps;
      }
    }

    /** IPC_RMID on the queue: the descriptors stay open. */
    method Remove()
      requires Valid()
      modifies `queue, `removed, `purged
      ensures Valid() && View() == After(limits, old(View()), RemoveCall)
    {
      purged := purged + Queue(queue);
      queue, removed := [], true;
    }

    /** Another `mq_open` of the queue: it clears the shared request, whoever has registered. */
    method Reopen(mqd: Access)
      requires Valid()
      modifies `pid, `wiped
      ensures Valid()
      ensures pid == (if mqd.mapped then 0 else old(pid))
      ensures wiped == old(wiped) + if mqd.mapped && old(pid) != 0 then 1 else 0
    {
      if mqd.mapped {
        wiped := wiped + if pid != 0 then 1 else 0;
        pid := 0;
      }
    }

    /** `mq_notify` by process `me`: one registration at a time. */
    method Notify(me: int, mqd: Access, n: Notification) returns (r: Reply<int>)
      requires Valid() && me != 0
      modifies `pid, `signo, `registrations, `withdrawals
      ensures Valid()
      ensures r == if !mqd.mapped then Err(ENOENT)
                   else if n.Other? then Err(EINVAL)
                   else if n.Signal? && old(pid) != 0 then Err(EBUSY)
                   else Ok(0)
      ensures r.Ok? ==> if n.Signal? then pid == me && signo == n.signo else pid == 0
      ensures !r.Ok? ==> pid == old(pid) && signo == old(signo)
      ensures registrations == old(registrations) + if r.Ok? && n.Signal? then 1 else 0
    {
      if !mqd.mapped {
        return Err(ENOENT);
      }
      match n {
        case NoNotification =>
          withdrawals := withdrawals + if pid != 0 then 1 else 0;
          pid := 0;
        case Signal(s) =>
          if pid != 0 {
            return Err(EBUSY);
          }
          pid, signo := me, s;
          registrations := registrations + 1;
        case Other => return Err(EINVAL);
      }
      r := Ok(0);
    }
  }
}
