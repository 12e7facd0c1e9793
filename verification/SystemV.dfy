/** A System V semaphore set with three cells, as posix1b/semaphore.c lays it out, and the
    atomic array of operations of `semop` (XSI interprocess communication, section 2.7 of the
    System Interfaces volume of IEEE Std 1003.1-2001). */
module SystemV {

  /** Cell 0 is the value, cell 1 the initialised flag, cell 2 the access counter. */
  datatype Cells = Cells(value: nat, ready: nat, access: nat) {
    function Get(i: nat): nat {
      if i == 0 then value else if i == 1 then ready else access
    }
    function Put(i: nat, v: nat): Cells {
      if i == 0 then this.(value := v) else if i == 1 then this.(ready := v) else this.(access := v)
    }
  }

  /** What the kernel adds to each cell when a process exits. */
  datatype Adjust = Adjust(value: int, ready: int, access: int) {
    function Add(i: nat, v: int): Adjust {
      if i == 0 then this.(value := value + v)
      else if i == 1 then this.(ready := ready + v)
      else this.(access := access + v)
    }
  }

  const NO_ADJUST := Adjust(0, 0, 0)

  /** One `struct sembuf`. */
  datatype Op = Op(num: nat, op: int, noWait: bool, undo: bool)

  /** Applied as a whole; EAGAIN; or the caller sleeps. Nothing changes in the last two cases. */
  datatype Outcome = Applied(cells: Cells, adjust: Adjust) | Again | Sleeps

  predicate Passes(k: Cells, o: Op) {
    if o.op == 0 then k.Get(o.num) == 0 else k.Get(o.num) + o.op >= 0
  }

  function Effect(k: Cells, o: Op): Cells
    requires Passes(k, o)
  {
    k.Put(o.num, k.Get(o.num) + o.op)
  }

  function UndoEffect(a: Adjust, o: Op): Adjust {
    if o.undo then a.Add(o.num, -o.op) else a
  }

  /** `semop`: all operations in order, or none. */
  function SemOp(k: Cells, a: Adjust, ops: seq<Op>): Outcome {
    SemOpFrom(k, a, ops, 0)
  }

  /** The operations from position `i` on. */
  function SemOpFrom(k: Cells, a: Adjust, ops: seq<Op>, i: nat): Outcome
    decreases |ops| - i
  {
    if i >= |ops| then Applied(k, a)
    else if !Passes(k, ops[i]) then (if ops[i].noWait then Again else Sleeps)
    else SemOpFrom(Effect(k, ops[i]), UndoEffect(a, ops[i]), ops, i + 1)
  }

  /** The kernel's adjustment at process exit, which stops at zero. */
  function Undo(k: Cells, a: Adjust): Cells {
    Cells(Clamp(k.value + a.value), Clamp(k.ready + a.ready), Clamp(k.access + a.access))
  }

  function Clamp(x: int): nat { if x < 0 then 0 else x }

  // The arrays of operations that posix1b/semaphore.c builds.

  function InitialiseOps(init: int): seq<Op> {
    [Op(1, 0, true, false), Op(1, 1, false, false), Op(0, init, false, false), Op(2, 1, false, true)]
  }

  function JoinOps(creat: bool): seq<Op> {
    [Op(1, -1, creat, false), Op(1, 1, false, false), Op(2, 1, false, true)]
  }

  const DROP_OPS := [Op(1, -1, false, false)]
  const UNUSED_OPS := [Op(2, 0, true, false)]
  const LEAVE_OPS := [Op(2, -1, false, true)]
  const LAST_OPS := [Op(2, 0, true, false), Op(1, 0, true, false)]
  const POST_OPS := [Op(0, 1, false, false)]
  const WAIT_OPS := [Op(0, -1, false, false)]
  const TRYWAIT_OPS := [Op(0, -1, true, false)]

  // What each array does to a set.

  lemma OneMore(k: Cells, a: Adjust, ops: seq<Op>, i: nat)
    requires i < |ops|
    ensures SemOpFrom(k, a, ops, i) ==
            if !Passes(k, ops[i]) then (if ops[i].noWait then Again else Sleeps)
            else SemOpFrom(Effect(k, ops[i]), UndoEffect(a, ops[i]), ops, i + 1)
  {
  }

  lemma SingleOp(k: Cells, a: Adjust, o: Op)
    ensures SemOp(k, a, [o]) ==
            if !Passes(k, o) then (if o.noWait then Again else Sleeps)
            else Applied(Effect(k, o), UndoEffect(a, o))
  {
    OneMore(k, a, [o], 0);
  }

  /** Initialising adds the value, raises the flag and counts one access, and it succeeds only
      while the flag is down. With an initial value of 0 the third operation waits for zero. */
  lemma InitialiseEffect(k: Cells, a: Adjust, init: nat)
    ensures SemOp(k, a, InitialiseOps(init)) ==
            if k.ready != 0 then Again
            else if init == 0 && k.value != 0 then Sleeps
            else Applied(Cells(k.value + init, 1, k.access + 1), a.Add(2, -1))
  {
    var ops := InitialiseOps(init);
    OneMore(k, a, ops, 0);
    if k.ready == 0 {
      var k1 := k.(ready := 1);
      OneMore(k, a, ops, 1);
      OneMore(k1, a, ops, 2);
      if init > 0 || k.value == 0 {
        OneMore(k1.(value := k.value + init), a, ops, 3);
      }
    }
  }

  /** Joining counts one access and leaves the flag as it was, and needs it raised. */
  lemma JoinEffect(k: Cells, a: Adjust, creat: bool)
    ensures SemOp(k, a, JoinOps(creat)) ==
            if k.ready == 0 then (if creat then Again else Sleeps)
            else Applied(k.(access := k.access + 1), a.Add(2, -1))
  {
    var ops := JoinOps(creat);
    OneMore(k, a, ops, 0);
    if k.ready > 0 {
      OneMore(k.(ready := k.ready - 1), a, ops, 1);
      OneMore(k, a, ops, 2);
    }
  }

  lemma LastEffect(k: Cells, a: Adjust)
    ensures SemOp(k, a, LAST_OPS) == if k.access == 0 && k.ready == 0 then Applied(k, a) else Again
  {
    OneMore(k, a, LAST_OPS, 0);
    if k.access == 0 {
      OneMore(k, a, LAST_OPS, 1);
    }
  }

  lemma SingleEffects(k: Cells, a: Adjust)
    ensures SemOp(k, a, DROP_OPS) == if k.ready > 0 then Applied(k.(ready := k.ready - 1), a) else Sleeps
    ensures SemOp(k, a, UNUSED_OPS) == if k.access == 0 then Applied(k, a) else Again
    ensures SemOp(k, a, LEAVE_OPS) ==
            if k.access > 0 then Applied(k.(access := k.access - 1), a.Add(2, 1)) else Sleeps
    ensures SemOp(k, a, POST_OPS) == Applied(k.(value := k.value + 1), a)
    ensures SemOp(k, a, WAIT_OPS) == if k.value > 0 then Applied(k.(value := k.value - 1), a) else Sleeps
    ensures SemOp(k, a, TRYWAIT_OPS) == if k.value > 0 then Applied(k.(value := k.value - 1), a) else Again
  {
    SingleOp(k, a, DROP_OPS[0]);
    SingleOp(k, a, UNUSED_OPS[0]);
    SingleOp(k, a, LEAVE_OPS[0]);
    SingleOp(k, a, POST_OPS[0]);
    SingleOp(k, a, WAIT_OPS[0]);
    SingleOp(k, a, TRYWAIT_OPS[0]);
  }
}
