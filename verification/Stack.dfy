/** Page 1 with its wrapping pointer as a LIFO stack: bytes, then return addresses. */
module Stack {
  import opened Wrappers
  import opened Bytes
  import opened Memory
  import opened Cpu

  /** The slot `depth` bytes below the top, for a stack whose next free byte is `sp`, which is at depth -1. */
  function SlotAt(sp: byte, depth: int): word { 256 + (sp + 1 + depth) % 256 }

  /** Page 1 holds `stk`, newest byte last, with the pointer at `sp`. */
  ghost predicate Holds(ram: Ram, sp: byte, stk: seq<byte>) {
    |stk| <= 256 &&
    forall depth: nat {:trigger SlotAt(sp, depth)} :: depth < |stk| ==>
      ram[SlotAt(sp, depth)] == stk[|stk| - 1 - depth]
  }

  lemma PushHolds(s: State, stk: seq<byte>, v: byte)
    requires Holds(s.mem.ram, s.sp, stk) && |stk| < 256
    ensures Holds(Push(s, v).mem.ram, Push(s, v).sp, stk + [v])
    ensures Push(s, v) == s.(sp := (s.sp - 1) % 256, mem := Push(s, v).mem)
  {
    var t, all := Push(s, v), stk + [v];
    forall depth: nat | depth < |all|
      ensures t.mem.ram[SlotAt(t.sp, depth)] == all[|all| - 1 - depth]
    {
      if depth == 0 {
        assert SlotAt(t.sp, 0) == 256 + s.sp;
      } else {
        assert SlotAt(t.sp, depth) == SlotAt(s.sp, depth - 1) != 256 + s.sp;
      }
    }
  }

  lemma PopHolds(s: State, stk: seq<byte>)
    requires Holds(s.mem.ram, s.sp, stk) && stk != []
    ensures Pop(s).1 == stk[|stk| - 1]
    ensures Holds(Pop(s).0.mem.ram, Pop(s).0.sp, stk[..|stk| - 1])
    ensures Pop(s).0 == s.(sp := (s.sp + 1) % 256)
  {
    var t, rest := Pop(s).0, stk[..|stk| - 1];
    assert SlotAt(s.sp, 0) == 256 + t.sp;
    forall depth: nat | depth < |rest|
      ensures t.mem.ram[SlotAt(t.sp, depth)] == rest[|rest| - 1 - depth]
    {
      assert SlotAt(t.sp, depth) == SlotAt(s.sp, depth + 1);
    }
  }

  // ----- Any sequence of pushes and pops -----

  datatype StackOp = PushOp(v: byte) | PopOp

  /** The machine after one operation, with the bytes popped so far in order. */
  function RunOp(r: (State, seq<byte>), op: StackOp): (State, seq<byte>) {
    match op
    case PushOp(v) => (Push(r.0, v), r.1)
    case PopOp => var f := Pop(r.0); (f.0, r.1 + [f.1])
  }

  function RunOps(s: State, ops: seq<StackOp>): (State, seq<byte>) {
    if ops == [] then (s, []) else RunOp(RunOps(s, ops[..|ops| - 1]), ops[|ops| - 1])
  }

  /** The same on a list, or None when it pops an empty list or grows past a page. */
  function ListOp(l: (seq<byte>, seq<byte>), op: StackOp): Option<(seq<byte>, seq<byte>)> {
    match op
    case PushOp(v) => if |l.0| < 256 then Some((l.0 + [v], l.1)) else None
    case PopOp => if l.0 == [] then None else Some((l.0[..|l.0| - 1], l.1 + [l.0[|l.0| - 1]]))
  }

  function ListOps(ops: seq<StackOp>): Option<(seq<byte>, seq<byte>)> {
    if ops == [] then Some(([], []))
    else
      match ListOps(ops[..|ops| - 1])
      case None => None
      case Some(l) => ListOp(l, ops[|ops| - 1])
  }

  /** Same bytes popped, same bytes left, and the pointer counts their number. */
  ghost predicate Refines(s: State, r: (State, seq<byte>), l: (seq<byte>, seq<byte>)) {
    r.1 == l.1 && Holds(r.0.mem.ram, r.0.sp, l.0) && (r.0.sp + |l.0|) % 256 == s.sp
  }

  lemma PointerMoves(sp: byte, n: int)
    ensures ((sp - 1) % 256 + n + 1) % 256 == (sp + n) % 256
    ensures ((sp + 1) % 256 + n - 1) % 256 == (sp + n) % 256
  {
    assert (sp - 1) % 256 == if sp == 0 then 255 else sp - 1;
    assert (sp + 1) % 256 == if sp == 255 then 0 else sp + 1;
  }

  lemma OpRefines(s: State, r: (State, seq<byte>), l: (seq<byte>, seq<byte>), op: StackOp)
    requires Refines(s, r, l) && ListOp(l, op).Some?
    ensures Refines(s, RunOp(r, op), ListOp(l, op).value)
  {
    hide Push, Pop, Holds;
    PointerMoves(r.0.sp, |l.0|);
    match op
    case PushOp(v) => PushHolds(r.0, l.0, v);
    case PopOp => PopHolds(r.0, l.0);
  }

  /** Page 1 refines the list. */
  lemma {:induction false} StackRefinesList(s: State, ops: seq<StackOp>)
    requires ListOps(ops).Some?
    ensures Refines(s, RunOps(s, ops), ListOps(ops).value)
  {
    hide Push, Pop, RunOp, ListOp;
    if ops != [] {
      hide Refines;
      StackRefinesList(s, ops[..|ops| - 1]);
      OpRefines(s, RunOps(s, ops[..|ops| - 1]), ListOps(ops[..|ops| - 1]).value, ops[|ops| - 1]);
    }
  }
}
