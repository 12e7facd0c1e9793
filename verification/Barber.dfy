/** The sleeping barber (functional/semaphores/sem_sleepingbarber.c): one barber thread with
    LOOP_NUM rounds, CUS_NUM customer threads, CHAIR_NUM chairs. One step is one semaphore call
    or one statement on the shared counter `waiting`. */
module Barber {
  import opened Sums
  import opened Runs

  /** CHAIR_NUM, CUS_NUM and LOOP_NUM. */
  datatype Config = Config(chairs: nat, customers: nat, loops: nat)

  datatype BarberPc =
    | Peek      // sem_wait(&lock)
    | Unpeek    // sem_post(&lock)
    | Fetch     // sem_wait(&customer)
    | Relock    // sem_wait(&lock)
    | Seat      // if (waiting >= 1) waiting--
    | Unlock    // sem_post(&lock)
    | CallIn    // sem_post(&barber)
    | Home

  /** `seats` is the number of waiting customers that a refused one counted. */
  datatype CustomerPc =
    | Arrive    // sem_wait(&lock)
    | Look      // waiting < CHAIR_NUM ?
    | Sit       // waiting = waiting + 1
    | Announce  // sem_post(&customer)
    | Settle    // sem_post(&lock)
    | AwaitCut  // sem_wait(&barber)
    | TurnAway(seats: int)  // sem_post(&lock)
    | Served
    | Refused(seats: int)

  datatype BarberThread = BarberThread(pc: BarberPc, i: nat)
  datatype Thread = B | C(k: nat)

  datatype State = State(
    lock: nat, customer: nat, barber: nat, waiting: int, bar: BarberThread, cus: seq<CustomerPc>)

  ghost function Start(c: Config, i: nat): BarberThread {
    BarberThread(if i < c.loops then Peek else Home, i)
  }

  ghost function Init(c: Config): State {
    State(1, 0, 0, 0, Start(c, 0), seq(c.customers, _ => Arrive))
  }

  ghost predicate Enabled(s: State, t: Thread) {
    match t
    case B =>
      (match s.bar.pc
       case Peek => s.lock > 0
       case Fetch => s.customer > 0
       case Relock => s.lock > 0
       case Home => false
       case _ => true)
    case C(k) =>
      k < |s.cus| &&
      (match s.cus[k]
       case Arrive => s.lock > 0
       case AwaitCut => s.barber > 0
       case Served => false
       case Refused(_) => false
       case _ => true)
  }

  ghost function BarberNext(c: Config, s: State): State
    requires Enabled(s, B)
  {
    var b := s.bar;
    match b.pc
    case Peek => s.(lock := s.lock - 1, bar := b.(pc := Unpeek))
    case Unpeek => s.(lock := s.lock + 1, bar := b.(pc := Fetch))
    case Fetch => s.(customer := s.customer - 1, bar := b.(pc := Relock))
    case Relock => s.(lock := s.lock - 1, bar := b.(pc := Seat))
    case Seat => s.(waiting := if s.waiting >= 1 then s.waiting - 1 else s.waiting, bar := b.(pc := Unlock))
    case Unlock => s.(lock := s.lock + 1, bar := b.(pc := CallIn))
    case CallIn => s.(barber := s.barber + 1, bar := Start(c, b.i + 1))
  }

  ghost function CustomerNext(c: Config, s: State, k: nat): State
    requires Enabled(s, C(k))
  {
    match s.cus[k]
    case Arrive => s.(lock := s.lock - 1, cus := s.cus[k := Look])
    case Look => s.(cus := s.cus[k := if s.waiting < c.chairs then Sit else TurnAway(s.waiting)])
    case Sit => s.(waiting := s.waiting + 1, cus := s.cus[k := Announce])
    case Announce => s.(customer := s.customer + 1, cus := s.cus[k := Settle])
    case Settle => s.(lock := s.lock + 1, cus := s.cus[k := AwaitCut])
    case AwaitCut => s.(barber := s.barber - 1, cus := s.cus[k := Served])
    case TurnAway(seats) => s.(lock := s.lock + 1, cus := s.cus[k := Refused(seats)])
  }

  ghost function Next(c: Config, s: State, t: Thread): State {
    if !Enabled(s, t) then s
    else match t
      case B => BarberNext(c, s)
      case C(k) => CustomerNext(c, s, k)
  }

  ghost function Program(c: Config): System<State, Thread> {
    System(Init(c), (s: State, t: Thread) => Enabled(s, t), (s: State, t: Thread) => Next(c, s, t))
  }

  // ---------------------------------------------------------------------------------------
  // The invariant
  // ---------------------------------------------------------------------------------------

  ghost function CHolds(p: CustomerPc): int {
    One(p.Look? || p.Sit? || p.Announce? || p.Settle? || p.TurnAway?)
  }
  ghost function CSeated(p: CustomerPc): int { One(p.Announce? || p.Settle? || p.AwaitCut? || p.Served?) }
  ghost function CAnnounces(p: CustomerPc): int { One(p.Announce?) }
  ghost function CServed(p: CustomerPc): int { One(p.Served?) }

  ghost function BHolds(b: BarberThread): int { One(b.pc.Unpeek? || b.pc.Seat? || b.pc.Unlock?) }
  ghost function BFetched(b: BarberThread): int { One(b.pc.Relock? || b.pc.Seat?) }
  ghost function BCutting(b: BarberThread): int { One(b.pc.Unlock? || b.pc.CallIn?) }

  /** Haircuts begun. */
  ghost function Cuts(b: BarberThread): int { b.i + BCutting(b) }

  ghost predicate LockInv(s: State) { s.lock + Sum(s.cus, CHolds) + BHolds(s.bar) == 1 }

  /** Who waits is announced, about to be announced, or just fetched by the barber. */
  ghost predicate WaitingInv(s: State) {
    s.waiting == s.customer + Sum(s.cus, CAnnounces) + BFetched(s.bar)
  }

  /** Who ever sat down waits or had a haircut begun. */
  ghost predicate SeatedInv(s: State) { Sum(s.cus, CSeated) == s.waiting + Cuts(s.bar) }

  /** A haircut begun is about to be called, called, or finished. */
  ghost predicate CutInv(s: State) {
    Cuts(s.bar) == s.barber + BCutting(s.bar) + Sum(s.cus, CServed)
  }

  ghost predicate ChairInv(c: Config, s: State) {
    && |s.cus| == c.customers
    && 0 <= s.waiting <= c.chairs
    && (if s.bar.pc.Home? then s.bar.i == c.loops else s.bar.i < c.loops)
    && (forall k | 0 <= k < |s.cus| ::
          match s.cus[k]
          case Sit => s.waiting < c.chairs
          case TurnAway(seats) => seats == c.chairs
          case Refused(seats) => seats == c.chairs
          case _ => true)
  }

  ghost predicate Inv(c: Config, s: State) {
    LockInv(s) && WaitingInv(s) && SeatedInv(s) && CutInv(s) && ChairInv(c, s)
  }

  // ---------------------------------------------------------------------------------------
  // Every step keeps it
  // ---------------------------------------------------------------------------------------

  lemma InitInv(c: Config)
    ensures Inv(c, Init(c))
  {
    SumConstant(Init(c).cus, CHolds, 0);
    SumConstant(Init(c).cus, CAnnounces, 0);
    SumConstant(Init(c).cus, CSeated, 0);
    SumConstant(Init(c).cus, CServed, 0);
  }

  lemma CustomerCounts(s: State, k: nat, p: CustomerPc)
    requires k < |s.cus|
    ensures Sum(s.cus[k := p], CHolds) == Sum(s.cus, CHolds) - CHolds(s.cus[k]) + CHolds(p)
    ensures Sum(s.cus[k := p], CAnnounces) == Sum(s.cus, CAnnounces) - CAnnounces(s.cus[k]) + CAnnounces(p)
    ensures Sum(s.cus[k := p], CSeated) == Sum(s.cus, CSeated) - CSeated(s.cus[k]) + CSeated(p)
    ensures Sum(s.cus[k := p], CServed) == Sum(s.cus, CServed) - CServed(s.cus[k]) + CServed(p)
  {
    SumUpdate(s.cus, k, p, CHolds);
    SumUpdate(s.cus, k, p, CAnnounces);
    SumUpdate(s.cus, k, p, CSeated);
    SumUpdate(s.cus, k, p, CServed);
  }

  lemma OnlyOneHolds(s: State, k: nat, k': nat)
    requires LockInv(s) && k < |s.cus| && k' < |s.cus| && k != k' && CHolds(s.cus[k]) == 1
    ensures CHolds(s.cus[k']) == 0
  {
    if k < k' { SumAtLeastTwo(s.cus, k, k', CHolds); } else { SumAtLeastTwo(s.cus, k', k, CHolds); }
  }

  /** The guard `waiting >= 1` holds whenever the barber reaches it. */
  lemma GuardHolds(s: State)
    requires WaitingInv(s) && s.bar.pc.Seat?
    ensures s.waiting >= 1
  {
    SumNonNegative(s.cus, CAnnounces);
  }

  lemma BarberKeepsInv(c: Config, s: State)
    requires Inv(c, s) && Enabled(s, B)
    ensures Inv(c, BarberNext(c, s))
  {
    if s.bar.pc.Seat? {
      GuardHolds(s);
    }
  }

  lemma CustomerKeepsCounts(c: Config, s: State, k: nat)
    requires LockInv(s) && WaitingInv(s) && SeatedInv(s) && CutInv(s) && Enabled(s, C(k))
    ensures var s' := CustomerNext(c, s, k); LockInv(s') && WaitingInv(s') && SeatedInv(s') && CutInv(s')
  {
    CustomerCounts(s, k, CustomerNext(c, s, k).cus[k]);
  }

  lemma CustomerKeepsChairs(c: Config, s: State, k: nat)
    requires LockInv(s) && ChairInv(c, s) && Enabled(s, C(k))
    ensures ChairInv(c, CustomerNext(c, s, k))
  {
    if s.cus[k].Sit? {
      forall k' | 0 <= k' < |s.cus| && k' != k ensures !s.cus[k'].Sit? {
        OnlyOneHolds(s, k, k');
      }
    }
  }

  lemma StepKeepsInv(c: Config, s: State, t: Thread)
    requires Inv(c, s) && Enabled(s, t)
    ensures Inv(c, Next(c, s, t))
  {
    match t
    case B => BarberKeepsInv(c, s);
    case C(k) =>
      CustomerKeepsCounts(c, s, k);
      CustomerKeepsChairs(c, s, k);
  }
}
