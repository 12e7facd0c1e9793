/** The bounded buffer as the program runs it: shared memory that the threads update in place
    (stress/semaphores/multi_con_pro.c). Every method is one step of one thread. */
module BoundedBufferThreads {
  import opened Runs
  import opened BoundedBuffer
  import opened BoundedBufferRuns

  class SharedBuffer {
    const num: nat
    const maxNum: int
    var buffer: array<int>
    var inPos: nat
    var outPos: nat
    var full: nat
    var empty: nat
    var lock: nat
    var pros: seq<Producer>
    var cons: seq<Consumer>
    ghost const config: Config
    ghost var produced: seq<Item>
    ghost var consumed: seq<Taken>

    ghost function View(): State
      reads this, buffer
    {
      State(buffer[..], inPos, outPos, full, empty, lock, pros, cons, produced, consumed)
    }

    ghost predicate WellFormed() {
      config.num == num && config.maxNum == maxNum
    }

    /** What main does before it creates the threads; `memory` is the allocated ring. */
    constructor (num: nat, memory: array<int>, maxNum: int)
      ensures WellFormed() && config == Config(num, memory[..], maxNum)
      ensures buffer == memory && View() == Init(config)
    {
      this.num, this.maxNum := num, maxNum;
      buffer := memory;
      inPos, outPos := 0, 0;
      full, empty, lock := memory.Length, 0, 1;
      pros := seq(num, _ => Producer(PFull, 0));
      cons := seq(num, _ => Consumer(CEmpty, 0));
      config := Config(num, memory[..], maxNum);
      produced, consumed := [], [];
    }

    method ProducerStep(k: nat)
      requires WellFormed() && Enabled(View(), P(k))
      modifies this, buffer
      ensures buffer == old(buffer)
      ensures View() == Next(config, old(View()), P(k))
      ensures old(pros[k].pc.PWrite?) ==>
                buffer[old(inPos)] == (if old(pros[k].i) < maxNum - 1 then 100 * k + old(pros[k].i) else -1)
    {
      var p := pros[k];
      match p.pc {
        case PFull =>
          full := full - 1;
          pros := pros[k := p.(pc := PLock)];
        case PLock =>
          lock := lock - 1;
          pros := pros[k := p.(pc := PWrite)];
        case PWrite =>
          var data := if p.i < maxNum - 1 then 100 * k + p.i else -1;
          buffer[inPos] := data;
          produced := produced + [Item(k, p.i, data)];
          pros := pros[k := p.(pc := PAdvance)];
        case PAdvance =>
          WrapIsModulo(inPos, buffer.Length);
          inPos := (inPos + 1) % buffer.Length;
          pros := pros[k := p.(pc := PUnlock)];
        case PUnlock =>
          lock := lock + 1;
          pros := pros[k := p.(pc := PEmpty)];
        case PEmpty =>
          empty := empty + 1;
          pros := pros[k := Producer(if p.i < maxNum - 1 then PFull else PDone, p.i + 1)];
      }
    }

    method ConsumerStep(j: nat)
      requires WellFormed() && Enabled(View(), C(j))
      modifies this
      ensures buffer == old(buffer)
      ensures View() == Next(config, old(View()), C(j))
    {
      var q := cons[j];
      match q.pc {
        case CEmpty =>
          empty := empty - 1;
          cons := cons[j := q.(pc := CLock)];
        case CLock =>
          lock := lock - 1;
          cons := cons[j := q.(pc := CRead)];
        case CRead =>
          var data := buffer[outPos];
          consumed := consumed + [Taken(j, data)];
          cons := cons[j := Consumer(CAdvance, data)];
        case CAdvance =>
          WrapIsModulo(outPos, buffer.Length);
          outPos := (outPos + 1) % buffer.Length;
          cons := cons[j := q.(pc := CUnlock)];
        case CUnlock =>
          lock := lock + 1;
          cons := cons[j := q.(pc := CFull)];
        case CFull =>
          full := full + 1;
          cons := cons[j := q.(pc := if q.data != -1 then CEmpty else CDone)];
      }
    }

    /** Whether a thread can move, tested on the shared memory. */
    predicate Ready(t: Thread)
      reads this, buffer
      ensures Ready(t) == Enabled(View(), t)
    {
      match t
      case P(k) =>
        k < |pros| &&
        (match pros[k].pc
         case PFull => full > 0
         case PLock => lock > 0
         case PWrite => inPos < buffer.Length
         case PAdvance => inPos < buffer.Length
         case PDone => false
         case _ => true)
      case C(j) =>
        j < |cons| &&
        (match cons[j].pc
         case CEmpty => empty > 0
         case CLock => lock > 0
         case CRead => outPos < buffer.Length
         case CAdvance => outPos < buffer.Length
         case CDone => false
         case _ => true)
    }

    method Step(t: Thread)
      requires WellFormed() && Ready(t)
      modifies this, buffer
      ensures buffer == old(buffer)
      ensures View() == Next(config, old(View()), t)
    {
      match t {
        case P(k) => ProducerStep(k);
        case C(j) => ConsumerStep(j);
      }
    }

    /** The shared memory is where the schedule leads. */
    ghost predicate Reached(sched: seq<Thread>)
      reads this, buffer
    {
      && WellFormed()
      && IsRun(Program(config), sched)
      && Exec(Program(config), sched) == View()
    }

    /** From creating the threads to joining them, whichever thread the scheduler picks each
        time: the program ends, with all threads exited and the buffer drained. */
    method CreateAndJoin()
      requires WellFormed() && Valid(config) && View() == Init(config)
      modifies this, buffer
      ensures Drained(config, View())
    {
      ghost var sched: seq<Thread> := [];
      while exists i :: 0 <= i < |pros| + |cons| && Ready(Nth(i))
        invariant buffer == old(buffer) && Reached(sched)
        decreases TotalSteps(config) - |sched|
      {
        var i :| 0 <= i < |pros| + |cons| && Ready(Nth(i));
        RunAppend(Program(config), sched, Nth(i));
        sched := sched + [Nth(i)];
        assert |sched| <= TotalSteps(config) by { EveryRun(config, sched); }
        Step(Nth(i));
      }
      forall t: Thread ensures !Enabled(View(), t) {
        ReadyHasIndex(t);
      }
      EveryMaximalRun(config, sched);
    }

    function Nth(i: nat): Thread
      reads this
    {
      if i < |pros| then P(i) else C(i - |pros|)
    }

    lemma ReadyHasIndex(t: Thread)
      ensures Ready(t) ==> exists i :: 0 <= i < |pros| + |cons| && Ready(Nth(i))
    {
      if Ready(t) {
        var i := if t.P? then t.k else |pros| + t.j;
        assert Ready(Nth(i));
      }
    }
  }
}
