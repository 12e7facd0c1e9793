/** The readers' and writers' shared memory, updated in place one step at a time
    (functional/semaphores/sem_readerwriter.c). */
module ReadersWritersThreads {
  import opened Runs
  import opened ReadersWriters
  import opened ReadersWritersRuns

  class Blackboard {
    var rLock: nat
    var wLock: nat
    var readerCount: int
    var data: int
    var readers: seq<Reader>
    var writers: seq<Writer>
    ghost const config: Config
    var completed: seq<nat>  // history: the writers whose writes are complete, in order

    ghost function View(): State
      reads this
    {
      State(rLock, wLock, readerCount, data, readers, writers, completed)
    }

    /** What main does before it creates the threads. */
    constructor (readNum: nat, writeNum: nat)
      ensures config == Config(readNum, writeNum) && View() == Init(config)
    {
      rLock, wLock := 1, 1;
      readerCount, data := 0, 0;
      readers := seq(readNum, _ => Reader(Enter, 0, 0));
      writers := seq(writeNum, _ => Writer(Wait, 0));
      config := Config(readNum, writeNum);
      completed := [];
    }

    method Goto(r: nat, pc: ReaderPc)
      requires r < |readers|
      modifies `readers
      ensures readers == old(readers)[r := old(readers)[r].(pc := pc)]
    {
      readers := readers[r := readers[r].(pc := pc)];
    }

    method ReaderStep(r: nat)
      requires Enabled(View(), R(r))
      modifies this
      ensures View() == Next(old(View()), R(r))
      ensures readers[r].got == if old(readers[r].pc.Read?) then old(data) else old(readers[r].got)
    {
      match readers[r].pc {
        case Enter =>
          rLock := rLock - 1;
          Goto(r, Count);
        case Count =>
          readerCount := readerCount + 1;
          Goto(r, First);
        case First =>
          Goto(r, if readerCount == 1 then TakeBoard else Unlock);
        case TakeBoard =>
          wLock := wLock - 1;
          Goto(r, Unlock);
        case Unlock =>
          rLock := rLock + 1;
          Goto(r, Read);
        case Read =>
          readers := readers[r := Reader(Exit, data, |completed|)];
        case Exit =>
          rLock := rLock - 1;
          Goto(r, Uncount);
        case Uncount =>
          readerCount := readerCount - 1;
          Goto(r, Last);
        case Last =>
          Goto(r, if readerCount == 0 then GiveBoard else Leave);
        case GiveBoard =>
          wLock := wLock + 1;
          Goto(r, Leave);
        case Leave =>
          rLock := rLock + 1;
          Goto(r, Gone);
      }
    }

    method WriterStep(w: nat)
      requires Enabled(View(), W(w))
      modifies this
      ensures View() == Next(old(View()), W(w))
    {
      var x := writers[w];
      match x.pc {
        case Wait =>
          wLock := wLock - 1;
          writers := writers[w := x.(pc := Write)];
        case Write =>
          data := 100 * w + w;
          writers := writers[w := x.(pc := Show)];
        case Show =>
          completed := completed + [w];
          writers := writers[w := Writer(Give, data)];
        case Give =>
          wLock := wLock + 1;
          writers := writers[w := x.(pc := Finished)];
      }
    }

    predicate Ready(t: Thread)
      reads this
      ensures Ready(t) == Enabled(View(), t)
    {
      match t
      case R(r) =>
        r < |readers| &&
        (match readers[r].pc
         case Enter => rLock > 0
         case TakeBoard => wLock > 0
         case Exit => rLock > 0
         case Gone => false
         case _ => true)
      case W(w) =>
        w < |writers| &&
        (match writers[w].pc
         case Wait => wLock > 0
         case Finished => false
         case _ => true)
    }

    function Nth(i: nat): Thread
      reads this
    {
      if i < |readers| then R(i) else W(i - |readers|)
    }

    lemma ReadyHasIndex(t: Thread)
      ensures Ready(t) ==> exists i :: 0 <= i < |readers| + |writers| && Ready(Nth(i))
    {
      if Ready(t) {
        var i := if t.R? then t.r else |readers| + t.w;
        assert Ready(Nth(i));
      }
    }

    method Step(t: Thread)
      requires Ready(t)
      modifies this
      ensures View() == Next(old(View()), t)
    {
      match t {
        case R(r) => ReaderStep(r);
        case W(w) => WriterStep(w);
      }
    }

    /** From creating the threads to joining them, whichever thread the scheduler picks each
        time: the program ends, with both semaphores at 1 and nobody counted. */
    method CreateAndJoin() returns (ghost sched: seq<Thread>)
      requires View() == Init(config)
      modifies this
      ensures Settled(config, View())
      ensures Exec(Program(config), sched) == View() && EveryReaderGotLastWrite(config, sched)
    {
      sched := [];
      while exists i :: 0 <= i < |readers| + |writers| && Ready(Nth(i))
        invariant IsRun(Program(config), sched) && Exec(Program(config), sched) == View()
        decreases Bound(config) - |sched|
      {
        var i :| 0 <= i < |readers| + |writers| && Ready(Nth(i));
        RunAppend(Program(config), sched, Nth(i));
        sched := sched + [Nth(i)];
        assert |sched| <= Bound(config) by { EveryRun(config, sched); }
        Step(Nth(i));
      }
      forall t: Thread ensures !Enabled(View(), t) {
        ReadyHasIndex(t);
      }
      EveryMaximalRun(config, sched);
    }
  }
}
