/** The barber shop's shared memory, updated in place one step at a time
    (functional/semaphores/sem_sleepingbarber.c). */
module BarberThreads {
  import opened Runs
  import opened Sums
  import opened Barber
  import opened BarberRuns

  class Shop {
    const chairs: nat
    const loops: nat
    var lock: nat
    var customer: nat
    var barber: nat
    var waiting: int
    var bar: BarberThread
    var cus: seq<CustomerPc>
    ghost const config: Config

    ghost function View(): State
      reads this
    {
      State(lock, customer, barber, waiting, bar, cus)
    }

    ghost predicate WellFormed() { config.chairs == chairs && config.loops == loops }

    /** What main does before it creates the threads. */
    constructor (chairs: nat, customers: nat, loops: nat)
      ensures WellFormed() && config == Config(chairs, customers, loops) && View() == Init(config)
    {
      this.chairs, this.loops := chairs, loops;
      lock, customer, barber := 1, 0, 0;
      waiting := 0;
      bar := BarberThread(if 0 < loops then Peek else Home, 0);
      cus := seq(customers, _ => Arrive);
      config := Config(chairs, customers, loops);
    }

    method BarberStep()
      requires WellFormed() && Enabled(View(), B)
      modifies this
      ensures View() == Next(config, old(View()), B)
    {
      match bar.pc {
        case Peek =>
          lock := lock - 1;
          bar := bar.(pc := Unpeek);
        case Unpeek =>
          lock := lock + 1;
          bar := bar.(pc := Fetch);
        case Fetch =>
          customer := customer - 1;
          bar := bar.(pc := Relock);
        case Relock =>
          lock := lock - 1;
          bar := bar.(pc := Seat);
        case Seat =>
          if waiting >= 1 {
            waiting := waiting - 1;
          }
          bar := bar.(pc := Unlock);
        case Unlock =>
          lock := lock + 1;
          bar := bar.(pc := CallIn);
        case CallIn =>
          barber := barber + 1;
          bar := BarberThread(if bar.i + 1 < loops then Peek else Home, bar.i + 1);
      }
    }

    method CustomerStep(k: nat)
      requires WellFormed() && Enabled(View(), C(k))
      modifies this
      ensures View() == Next(config, old(View()), C(k))
    {
      match cus[k] {
        case Arrive =>
          lock := lock - 1;
          cus := cus[k := Look];
        case Look =>
          cus := cus[k := if waiting < chairs then Sit else TurnAway(waiting)];
        case Sit =>
          waiting := waiting + 1;
          cus := cus[k := Announce];
        case Announce =>
          customer := customer + 1;
          cus := cus[k := Settle];
        case Settle =>
          lock := lock + 1;
          cus := cus[k := AwaitCut];
        case AwaitCut =>
          barber := barber - 1;
          cus := cus[k := Served];
        case TurnAway(seats) =>
          lock := lock + 1;
          cus := cus[k := Refused(seats)];
      }
    }

    predicate Ready(t: Thread)
      reads this
      ensures Ready(t) == Enabled(View(), t)
    {
      match t
      case B =>
        (match bar.pc
         case Peek => lock > 0
         case Fetch => customer > 0
         case Relock => lock > 0
         case Home => false
         case _ => true)
      case C(k) =>
        k < |cus| &&
        (match cus[k]
         case Arrive => lock > 0
         case AwaitCut => barber > 0
         case Served => false
         case Refused(_) => false
         case _ => true)
    }

    function Nth(i: nat): Thread
      reads this
    {
      if i < |cus| then C(i) else B
    }

    lemma ReadyHasIndex(t: Thread)
      ensures Ready(t) ==> exists i :: 0 <= i <= |cus| && Ready(Nth(i))
    {
      if Ready(t) {
        assert Ready(Nth(if t.C? then t.k else |cus|));
      }
    }

    method Step(t: Thread)
      requires WellFormed() && Ready(t)
      modifies this
      ensures View() == Next(config, old(View()), t)
    {
      match t {
        case B => BarberStep();
        case C(k) => CustomerStep(k);
      }
    }

    /** From creating the threads until none can move, whichever thread the scheduler picks
        each time: with rounds enough, main can then join every customer. */
    method CreateAndJoin()
      requires WellFormed() && View() == Init(config)
      modifies this
      ensures EnoughRounds(config) ==> Closed(config, View())
      ensures var seated := Sum(View().cus, CSeated);
              && (CustomersDone(View()) <==> seated <= config.loops)
              && Sum(View().cus, CAwaits) == waiting == (if seated > config.loops then seated - config.loops else 0)
    {
      ghost var sched: seq<Thread> := [];
      while exists i :: 0 <= i <= |cus| && Ready(Nth(i))
        invariant IsRun(Program(config), sched) && Exec(Program(config), sched) == View()
        decreases Bound(config) - |sched|
      {
        var i :| 0 <= i <= |cus| && Ready(Nth(i));
        RunAppend(Program(config), sched, Nth(i));
        sched := sched + [Nth(i)];
        assert |sched| <= Bound(config) by { EveryRun(config, sched); }
        Step(Nth(i));
      }
      forall t: Thread ensures !Enabled(View(), t) {
        ReadyHasIndex(t);
      }
      EveryRun(config, sched);
      LeftOverOnlyIfBarberIsHome(config, View());
      if EnoughRounds(config) {
        EveryMaximalRun(config, sched);
      }
    }
  }
}
