/** Readers and writers around one blackboard (functional/semaphores/sem_readerwriter.c).
    The first reader takes `w_lock` for all readers, the last one gives it back, and they need
    not be the same thread. One step is one semaphore call or one statement on shared memory. */
module ReadersWriters {
  import opened Sums
  import opened Runs

  /** READ_NUM and WRITE_NUM. */
  datatype Config = Config(readers: nat, writers: nat)

  datatype ReaderPc =
    | Enter      // sem_wait(&r_lock)
    | Count      // reader_count++
    | First      // reader_count == 1 ?
    | TakeBoard  // sem_wait(&w_lock)
    | Unlock     // sem_post(&r_lock)
    | Read       // read_fun
    | Exit       // sem_wait(&r_lock)
    | Uncount    // reader_count--
    | Last       // reader_count == 0 ?
    | GiveBoard  // sem_post(&w_lock)
    | Leave      // sem_post(&r_lock)
    | Gone

  datatype WriterPc =
    | Wait       // sem_wait(&w_lock)
    | Write      // write_fun: data = 100*ID + ID
    | Show       // write_fun: printf of data, after which the write is complete
    | Give       // sem_post(&w_lock)
    | Finished

  /** `got` is what the reader read and `seen` how many writes were complete then. */
  datatype Reader = Reader(pc: ReaderPc, got: int, seen: nat)
  datatype Writer = Writer(pc: WriterPc, shown: int)
  datatype Thread = R(r: nat) | W(w: nat)

  /** `completed` lists the writers in the order in which their writes were completed. */
  datatype State = State(
    rLock: nat, wLock: nat, count: int, data: int,
    readers: seq<Reader>, writers: seq<Writer>, completed: seq<nat>)

  function Board(id: nat): int { 100 * id + id }

  /** What the last of the completed writes put on the board, and 0 before any. */
  function LastWritten(h: seq<nat>): int {
    if h == [] then 0 else Board(h[|h| - 1])
  }

  ghost function Init(c: Config): State {
    State(1, 1, 0, 0, seq(c.readers, _ => Reader(Enter, 0, 0)), seq(c.writers, _ => Writer(Wait, 0)), [])
  }

  ghost predicate Enabled(s: State, t: Thread) {
    match t
    case R(r) =>
      r < |s.readers| &&
      (match s.readers[r].pc
       case Enter => s.rLock > 0
       case TakeBoard => s.wLock > 0
       case Exit => s.rLock > 0
       case Gone => false
       case _ => true)
    case W(w) =>
      w < |s.writers| &&
      (match s.writers[w].pc
       case Wait => s.wLock > 0
       case Finished => false
       case _ => true)
  }

  ghost function MoveReader(s: State, r: nat, pc: ReaderPc): seq<Reader>
    requires r < |s.readers|
  {
    s.readers[r := s.readers[r].(pc := pc)]
  }

  ghost function ReaderNext(s: State, r: nat): State
    requires Enabled(s, R(r))
  {
    match s.readers[r].pc
    case Enter => s.(rLock := s.rLock - 1, readers := MoveReader(s, r, Count))
    case Count => s.(count := s.count + 1, readers := MoveReader(s, r, First))
    case First => s.(readers := MoveReader(s, r, if s.count == 1 then TakeBoard else Unlock))
    case TakeBoard => s.(wLock := s.wLock - 1, readers := MoveReader(s, r, Unlock))
    case Unlock => s.(rLock := s.rLock + 1, readers := MoveReader(s, r, Read))
    case Read => s.(readers := s.readers[r := Reader(Exit, s.data, |s.completed|)])
    case Exit => s.(rLock := s.rLock - 1, readers := MoveReader(s, r, Uncount))
    case Uncount => s.(count := s.count - 1, readers := MoveReader(s, r, Last))
    case Last => s.(readers := MoveReader(s, r, if s.count == 0 then GiveBoard else Leave))
    case GiveBoard => s.(wLock := s.wLock + 1, readers := MoveReader(s, r, Leave))
    case Leave => s.(rLock := s.rLock + 1, readers := MoveReader(s, r, Gone))
  }

  ghost function WriterNext(s: State, w: nat): State
    requires Enabled(s, W(w))
  {
    var x := s.writers[w];
    match x.pc
    case Wait => s.(wLock := s.wLock - 1, writers := s.writers[w := x.(pc := Write)])
    case Write => s.(data := Board(w), writers := s.writers[w := x.(pc := Show)])
    case Show => s.(completed := s.completed + [w], writers := s.writers[w := Writer(Give, s.data)])
    case Give => s.(wLock := s.wLock + 1, writers := s.writers[w := x.(pc := Finished)])
  }

  ghost function Next(s: State, t: Thread): State {
    if !Enabled(s, t) then s
    else match t
      case R(r) => ReaderNext(s, r)
      case W(w) => WriterNext(s, w)
  }

  ghost function Program(c: Config): System<State, Thread> {
    System(Init(c), (s: State, t: Thread) => Enabled(s, t), (s: State, t: Thread) => Next(s, t))
  }

  // ---------------------------------------------------------------------------------------
  // The invariant
  // ---------------------------------------------------------------------------------------

  /** Holds `r_lock`. */
  ghost function RHolds(x: Reader): int {
    One(x.pc.Count? || x.pc.First? || x.pc.TakeBoard? || x.pc.Unlock? ||
        x.pc.Uncount? || x.pc.Last? || x.pc.GiveBoard? || x.pc.Leave?)
  }

  /** Between increment and decrement of `reader_count`. */
  ghost function RCounted(x: Reader): int {
    One(x.pc.First? || x.pc.TakeBoard? || x.pc.Unlock? || x.pc.Read? || x.pc.Exit? || x.pc.Uncount?)
  }

  /** Between the readers' taking `w_lock` and their giving it back. */
  ghost function RInside(x: Reader): int {
    One(x.pc.Unlock? || x.pc.Read? || x.pc.Exit? || x.pc.Uncount? || x.pc.Last? || x.pc.GiveBoard?)
  }

  ghost function WInside(x: Writer): int { One(x.pc.Write? || x.pc.Show? || x.pc.Give?) }

  ghost predicate LockInv(s: State) { s.rLock + Sum(s.readers, RHolds) == 1 }

  ghost predicate CountInv(s: State) {
    && s.count == Sum(s.readers, RCounted)
    && (forall r | 0 <= r < |s.readers| ::
          && (s.readers[r].pc.TakeBoard? ==> s.count == 1)
          && (s.readers[r].pc.GiveBoard? ==> s.count == 0))
  }

  /** `w_lock` is free, or one writer has it, or the readers together have it. */
  ghost predicate BoardInv(s: State) {
    s.wLock + Sum(s.writers, WInside) + One(Sum(s.readers, RInside) > 0) == 1
  }

  ghost predicate DataInv(s: State) {
    && (forall w | 0 <= w < |s.writers| && s.writers[w].pc.Show? :: s.data == Board(w))
    && ((forall w | 0 <= w < |s.writers| :: !s.writers[w].pc.Show?) ==> s.data == LastWritten(s.completed))
  }

  ghost predicate HasRead(x: Reader) {
    x.pc.Exit? || x.pc.Uncount? || x.pc.Last? || x.pc.GiveBoard? || x.pc.Leave? || x.pc.Gone?
  }

  ghost predicate HasWritten(x: Writer) { x.pc.Give? || x.pc.Finished? }

  ghost function Is(w: nat): nat -> int { (x: nat) => One(x == w) }

  /** A reader got what was the last completed write when it read. */
  ghost predicate ReadInv(s: State) {
    forall r | 0 <= r < |s.readers| && HasRead(s.readers[r]) ::
      && s.readers[r].seen <= |s.completed|
      && s.readers[r].got == LastWritten(s.completed[..s.readers[r].seen])
  }

  /** Every writer completes once and finds its own value on the board then. */
  ghost predicate WriteInv(s: State) {
    && (forall n | 0 <= n < |s.completed| :: s.completed[n] < |s.writers|)
    && (forall w | 0 <= w < |s.writers| ::
          && Sum(s.completed, Is(w)) == One(HasWritten(s.writers[w]))
          && (HasWritten(s.writers[w]) ==> s.writers[w].shown == Board(w)))
  }

  ghost predicate Inv(c: Config, s: State) {
    && |s.readers| == c.readers && |s.writers| == c.writers
    && LockInv(s) && CountInv(s) && BoardInv(s) && DataInv(s)
    && ReadInv(s) && WriteInv(s)
  }

  // ---------------------------------------------------------------------------------------
  // Every step keeps it
  // ---------------------------------------------------------------------------------------

  lemma InitInv(c: Config)
    ensures Inv(c, Init(c))
  {
    SumConstant(Init(c).readers, RHolds, 0);
    SumConstant(Init(c).readers, RCounted, 0);
    SumConstant(Init(c).readers, RInside, 0);
    SumConstant(Init(c).writers, WInside, 0);
  }

  lemma OnlyOneHolds(s: State, r: nat, r': nat)
    requires LockInv(s) && r < |s.readers| && r' < |s.readers| && r != r'
    ensures RHolds(s.readers[r]) + RHolds(s.readers[r']) <= 1
  {
    if r < r' { SumAtLeastTwo(s.readers, r, r', RHolds); } else { SumAtLeastTwo(s.readers, r', r, RHolds); }
  }

  /** Seen from the holder of `r_lock`, the other counted readers are the other ones inside. */
  lemma OthersInsideIffCounted(s: State, r: nat)
    requires LockInv(s) && r < |s.readers| && RHolds(s.readers[r]) == 1
    ensures Sum(s.readers, RInside) > RInside(s.readers[r]) <==> Sum(s.readers, RCounted) > RCounted(s.readers[r])
    ensures Sum(s.readers, RInside) >= RInside(s.readers[r]) && Sum(s.readers, RCounted) >= RCounted(s.readers[r])
  {
    var gone := Reader(Gone, 0, 0);
    var rest := s.readers[r := gone];
    SumUpdate(s.readers, r, gone, RInside);
    SumUpdate(s.readers, r, gone, RCounted);
    SumNonNegative(rest, RInside);
    SumNonNegative(rest, RCounted);
    if Sum(rest, RInside) > 0 {
      var q := SumWitness(rest, RInside);
      OnlyOneHolds(s, r, q);
      SumAtLeast(rest, q, RCounted);
    }
    if Sum(rest, RCounted) > 0 {
      var q := SumWitness(rest, RCounted);
      OnlyOneHolds(s, r, q);
      SumAtLeast(rest, q, RInside);
    }
  }

  lemma LockKept(s: State, r: nat)
    requires LockInv(s) && Enabled(s, R(r))
    ensures LockInv(ReaderNext(s, r))
  {
    SumUpdate(s.readers, r, ReaderNext(s, r).readers[r], RHolds);
  }

  lemma CountKept(s: State, r: nat)
    requires LockInv(s) && CountInv(s) && Enabled(s, R(r))
    ensures CountInv(ReaderNext(s, r))
  {
    var s' := ReaderNext(s, r);
    SumUpdate(s.readers, r, s'.readers[r], RCounted);
    if s.readers[r].pc.Count? || s.readers[r].pc.Uncount? {
      forall q | 0 <= q < |s.readers| && q != r ensures RHolds(s.readers[q]) == 0 {
        OnlyOneHolds(s, r, q);
      }
    }
  }

  /** Ownership of `w_lock` passes from the first reader to the last without a gap. */
  lemma BoardKeptByReader(s: State, r: nat)
    requires LockInv(s) && CountInv(s) && BoardInv(s) && Enabled(s, R(r))
    ensures BoardInv(ReaderNext(s, r))
  {
    var s' := ReaderNext(s, r);
    SumUpdate(s.readers, r, s'.readers[r], RInside);
    SumNonNegative(s.writers, WInside);
    SumNonNegative(s.readers, RInside);
    SumAtLeast(s.readers, r, RInside);
    if RHolds(s.readers[r]) == 1 {
      OthersInsideIffCounted(s, r);
    }
  }

  lemma BoardKeptByWriter(s: State, w: nat)
    requires BoardInv(s) && Enabled(s, W(w))
    ensures BoardInv(WriterNext(s, w))
  {
    SumUpdate(s.writers, w, WriterNext(s, w).writers[w], WInside);
  }

  /** While a writer is inside, no other writer and no reader is. */
  lemma WriterIsAlone(s: State, w: nat)
    requires BoardInv(s) && w < |s.writers| && WInside(s.writers[w]) == 1
    ensures forall w' | 0 <= w' < |s.writers| && w' != w :: WInside(s.writers[w']) == 0
    ensures forall r | 0 <= r < |s.readers| :: RInside(s.readers[r]) == 0
  {
    SumAtLeast(s.writers, w, WInside);
    forall w' | 0 <= w' < |s.writers| && w' != w ensures WInside(s.writers[w']) == 0 {
      if w < w' { SumAtLeastTwo(s.writers, w, w', WInside); } else { SumAtLeastTwo(s.writers, w', w, WInside); }
    }
    forall r | 0 <= r < |s.readers| ensures RInside(s.readers[r]) == 0 {
      SumAtLeast(s.readers, r, RInside);
    }
  }

  /** While a reader is inside, no writer is, so the board shows the last completed write. */
  lemma ReaderSeesLastWrite(s: State, r: nat)
    requires BoardInv(s) && DataInv(s) && r < |s.readers| && RInside(s.readers[r]) == 1
    ensures s.data == LastWritten(s.completed)
  {
    SumAtLeast(s.readers, r, RInside);
    forall w | 0 <= w < |s.writers| ensures !s.writers[w].pc.Show? {
      SumAtLeast(s.writers, w, WInside);
    }
  }

  lemma DataKeptByWriter(s: State, w: nat)
    requires BoardInv(s) && DataInv(s) && Enabled(s, W(w))
    ensures DataInv(WriterNext(s, w))
  {
    if WInside(s.writers[w]) == 1 {
      WriterIsAlone(s, w);
    }
  }

  lemma ReadKeptByReader(s: State, r: nat)
    requires BoardInv(s) && DataInv(s) && ReadInv(s) && Enabled(s, R(r))
    ensures ReadInv(ReaderNext(s, r))
  {
    if s.readers[r].pc.Read? {
      ReaderSeesLastWrite(s, r);
      assert s.completed[..|s.completed|] == s.completed;
    }
  }

  lemma ReadKeptByWriter(s: State, w: nat)
    requires ReadInv(s) && Enabled(s, W(w))
    ensures ReadInv(WriterNext(s, w))
  {
    var s' := WriterNext(s, w);
    forall r | 0 <= r < |s.readers| && HasRead(s.readers[r])
      ensures s'.completed[..s.readers[r].seen] == s.completed[..s.readers[r].seen]
    {
    }
  }

  lemma WriteKept(s: State, w: nat)
    requires DataInv(s) && WriteInv(s) && Enabled(s, W(w))
    ensures WriteInv(WriterNext(s, w))
  {
    var s' := WriterNext(s, w);
    if s.writers[w].pc.Show? {
      forall v | 0 <= v < |s.writers| ensures Sum(s'.completed, Is(v)) == One(HasWritten(s'.writers[v])) {
        SumAppend(s.completed, w, Is(v));
      }
    }
  }

  lemma StepKeepsInv(c: Config, s: State, t: Thread)
    requires Inv(c, s) && Enabled(s, t)
    ensures Inv(c, Next(s, t))
  {
    match t
    case R(r) =>
      LockKept(s, r);
      CountKept(s, r);
      BoardKeptByReader(s, r);
      ReadKeptByReader(s, r);
    case W(w) =>
      BoardKeptByWriter(s, w);
      DataKeptByWriter(s, w);
      ReadKeptByWriter(s, w);
      WriteKept(s, w);
  }
}
