/** The processor's meaning as functions on values: what each decoded instruction does to a State. */
module Cpu {
  import opened Bytes
  import opened Memory
  import opened Isa

  /** The status register, one field per bit, bit 0 first. */
  datatype Flags = Flags(c: bool, z: bool, i: bool, d: bool, b: bool, u: bool, v: bool, n: bool)

  function ToByte(f: Flags): byte {
    Bit(f.c) + 2 * (Bit(f.z) + 2 * (Bit(f.i) + 2 * (Bit(f.d) + 2 *
    (Bit(f.b) + 2 * (Bit(f.u) + 2 * (Bit(f.v) + 2 * Bit(f.n)))))))
  }

  function FromByte(p: byte): Flags {
    Flags(p % 2 == 1, p / 2 % 2 == 1, p / 4 % 2 == 1, p / 8 % 2 == 1,
          p / 16 % 2 == 1, p / 32 % 2 == 1, p / 64 % 2 == 1, p / 128 % 2 == 1)
  }

  const TRACE_LEN := 64

  type Slot = x: int | 0 <= x < TRACE_LEN
  type PcSlots = s: seq<word> | |s| == TRACE_LEN witness seq(TRACE_LEN, _ => 0)
  type OpSlots = s: seq<byte> | |s| == TRACE_LEN witness seq(TRACE_LEN, _ => 0)

  /** The trace ring: the last 64 fetches, with the slot to be written next. */
  datatype Ring = Ring(pcs: PcSlots, ops: OpSlots, idx: Slot)

  function Record(t: Ring, pc: word, op: byte): Ring {
    Ring(t.pcs[t.idx := pc], t.ops[t.idx := op], (t.idx + 1) % TRACE_LEN)
  }

  /** Entry `k` of a dump of the last `count` fetches, oldest first. */
  function Dumped(t: Ring, count: int, k: int): (word, byte)
    requires 0 <= k < count <= TRACE_LEN + t.idx
  {
    var idx := (t.idx + TRACE_LEN - count + k) % TRACE_LEN;
    (t.pcs[idx], t.ops[idx])
  }

  datatype State = State(a: byte, x: byte, y: byte, sp: byte, pc: word, p: Flags,
                         cycles: uint64, halted: bool, mem: Mem, trace: Ring)

  function Get(s: State, r: Reg): byte {
    match r
    case A => s.a
    case X => s.x
    case Y => s.y
    case SP => s.sp
  }

  function Set(s: State, r: Reg, v: byte): State {
    match r
    case A => s.(a := v)
    case X => s.(x := v)
    case Y => s.(y := v)
    case SP => s.(sp := v)
  }

  function GetFlag(p: Flags, f: FlagName): bool {
    match f
    case C => p.c
    case Z => p.z
    case I => p.i
    case D => p.d
    case V => p.v
    case N => p.n
  }

  function PutFlag(p: Flags, f: FlagName, on: bool): Flags {
    match f
    case C => p.(c := on)
    case Z => p.(z := on)
    case I => p.(i := on)
    case D => p.(d := on)
    case V => p.(v := on)
    case N => p.(n := on)
  }

  function ZN(p: Flags, v: byte): Flags { p.(z := v == 0, n := v >= 128) }

  function Later(cycles: uint64, n: nat): uint64 { (cycles + n) % UINT64 }

  function Tick(s: State, n: nat): State { s.(cycles := Later(s.cycles, n)) }

  // ----- Memory and the stack -----

  function ReadFrom(s: State, addr: word): (State, byte) {
    (s.(mem := AfterRead(s.mem, addr)), ReadValue(s.mem, addr))
  }

  function WriteTo(s: State, addr: word, v: byte): State { s.(mem := WriteByte(s.mem, addr, v)) }

  function Fetch(s: State): (State, byte) { ReadFrom(s.(pc := (s.pc + 1) % 65536), s.pc) }

  function FetchWord(s: State): (State, word) {
    var lo := Fetch(s);
    var hi := Fetch(lo.0);
    (hi.0, Word(lo.1, hi.1))
  }

  function ReadWord(s: State, lo: word, hi: word): (State, word) {
    var l := ReadFrom(s, lo);
    var h := ReadFrom(l.0, hi);
    (h.0, Word(l.1, h.1))
  }

  function Push(s: State, v: byte): State { WriteTo(s, 256 + s.sp, v).(sp := (s.sp - 1) % 256) }

  function Pop(s: State): (State, byte) {
    var sp := (s.sp + 1) % 256;
    ReadFrom(s.(sp := sp), 256 + sp)
  }

  function PushWord(s: State, w: word): State { Push(Push(s, Hi(w)), Lo(w)) }

  function PopWord(s: State): (State, word) {
    var lo := Pop(s);
    var hi := Pop(lo.0);
    (hi.0, Word(lo.1, hi.1))
  }

  // ----- Addressing modes -----

  function ZpIndexed(f: (State, word), index: byte): (State, word) { (f.0, (f.1 + index) % 256) }

  function Indexed(f: (State, word), index: byte): (State, word) { (f.0, Plus(f.1, index)) }

  function AddrInd(s: State): (State, word) {
    var ptr := FetchWord(s);
    ReadWord(ptr.0, ptr.1, (ptr.1 + 1) % 65536)
  }

  function AddrIndX(s: State): (State, word) {
    var zp := ZpIndexed(Fetch(s), s.x);
    ReadWord(zp.0, zp.1, (zp.1 + 1) % 256)
  }

  function AddrIndY(s: State): (State, word) {
    var zp := Fetch(s);
    Indexed(ReadWord(zp.0, zp.1, (zp.1 + 1) % 256), s.y)
  }

  /** The effective address of a memory mode, with pc moved past the operand bytes. */
  function Effective(m: Mode, s: State): (State, word) {
    match m
    case ZeroPage => Fetch(s)
    case ZeroPageX => ZpIndexed(Fetch(s), s.x)
    case ZeroPageY => ZpIndexed(Fetch(s), s.y)
    case Absolute => FetchWord(s)
    case AbsoluteX => Indexed(FetchWord(s), s.x)
    case AbsoluteY => Indexed(FetchWord(s), s.y)
    case Indirect => AddrInd(s)
    case IndirectX => AddrIndX(s)
    case IndirectY => AddrIndY(s)
    case _ => (s, 0)
  }

  function Operand(m: Mode, s: State): (State, byte) {
    if m == Immediate then Fetch(s)
    else var f := Effective(m, s); ReadFrom(f.0, f.1)
  }

  // ----- Operations -----

  function LoadReg(s: State, r: Reg, v: byte): State { Set(s, r, v).(p := ZN(s.p, v)) }

  /** The signed sum of two bytes and a carry does not fit in a signed byte. */
  predicate Overflows(a: byte, v: byte, carry: bool) {
    !(-128 <= Signed(a) + Signed(v) + Bit(carry) < 128)
  }

  function AddWithCarry(s: State, v: byte): State {
    var sum := s.a + v + Bit(s.p.c);
    s.(a := sum % 256, p := ZN(s.p.(c := sum >= 256, v := Overflows(s.a, v, s.p.c)), sum % 256))
  }

  function CompareWith(s: State, r: byte, v: byte): State {
    s.(p := ZN(s.p.(c := r >= v), (r - v) % 256))
  }

  function TestBits(s: State, v: byte): State {
    s.(p := s.p.(z := And(s.a, v) == 0, v := v / 64 % 2 == 1, n := v >= 128))
  }

  function Alu(op: Operation, s: State, v: byte): State {
    match op
    case Load(r) => LoadReg(s, r, v)
    case Adc => AddWithCarry(s, v)
    case Sbc => AddWithCarry(s, 255 - v)
    case AndA => LoadReg(s, A, And(s.a, v))
    case OrA => LoadReg(s, A, Or(s.a, v))
    case EorA => LoadReg(s, A, Xor(s.a, v))
    case Compare(r) => CompareWith(s, Get(s, r), v)
    case _ => TestBits(s, v)
  }

  function RmwResult(op: Operation, carry: bool, v: byte): byte {
    match op
    case Asl => 2 * v % 256
    case Rol => 2 * v % 256 + Bit(carry)
    case Lsr => v / 2
    case Ror => v / 2 + 128 * Bit(carry)
    case Inc => (v + 1) % 256
    case _ => (v - 1) % 256
  }

  /** The bit a shift moves out; increment and decrement leave the carry alone. */
  function RmwCarry(op: Operation, carry: bool, v: byte): bool {
    if op.Asl? || op.Rol? then v >= 128
    else if op.Lsr? || op.Ror? then v % 2 == 1
    else carry
  }

  function RmwFlags(op: Operation, p: Flags, v: byte): Flags {
    ZN(p.(c := RmwCarry(op, p.c, v)), RmwResult(op, p.c, v))
  }

  function ExecAlu(op: Operation, m: Mode, s: State): State {
    var f := Operand(m, s);
    Alu(op, f.0, f.1)
  }

  function ExecStore(r: Reg, m: Mode, s: State): State {
    var f := Effective(m, s);
    WriteTo(f.0, f.1, Get(s, r))
  }

  function Modify(op: Operation, s: State, addr: word): State {
    var g := ReadFrom(s, addr);
    WriteTo(g.0, addr, RmwResult(op, s.p.c, g.1)).(p := RmwFlags(op, s.p, g.1))
  }

  function ModifyA(op: Operation, s: State): State {
    s.(a := RmwResult(op, s.p.c, s.a), p := RmwFlags(op, s.p, s.a))
  }

  function ExecRmw(op: Operation, m: Mode, s: State): State {
    if m == Accumulator then ModifyA(op, s)
    else var f := Effective(m, s); Modify(op, f.0, f.1)
  }

  function ExecTransfer(from: Reg, to: Reg, s: State): State {
    if to == SP then s.(sp := Get(s, from)) else LoadReg(s, to, Get(s, from))
  }

  function ExecPla(s: State): State {
    var f := Pop(s);
    LoadReg(f.0, A, f.1)
  }

  function ExecPhp(s: State): State { Push(s, ToByte(s.p.(b := true, u := true))) }

  function ExecPlp(s: State): State {
    var f := Pop(s);
    f.0.(p := FromByte(f.1).(b := false, u := true))
  }

  function ExecBranch(taken: bool, s: State): State {
    var f := Fetch(s);
    if taken then f.0.(pc := (f.0.pc + Signed(f.1)) % 65536) else f.0
  }

  function ExecJmp(m: Mode, s: State): State {
    var f := Effective(m, s);
    f.0.(pc := f.1)
  }

  function ExecJsr(s: State): State {
    var f := FetchWord(s);
    PushWord(f.0, (f.0.pc - 1) % 65536).(pc := f.1)
  }

  function ExecRts(s: State): State {
    var f := PopWord(s);
    f.0.(pc := (f.1 + 1) % 65536)
  }

  function ExecRti(s: State): State {
    var f := PopWord(ExecPlp(s));
    f.0.(pc := f.1)
  }

  /** What an instruction does, its cycles apart. */
  function Effect(i: Instruction, s: State): State {
    if IsAlu(i.op) then ExecAlu(i.op, i.mode, s)
    else if IsRmw(i.op) then ExecRmw(i.op, i.mode, s)
    else match i.op
      case Store(r) => ExecStore(r, i.mode, s)
      case IncReg(r) => LoadReg(s, r, (Get(s, r) + 1) % 256)
      case DecReg(r) => LoadReg(s, r, (Get(s, r) - 1) % 256)
      case Transfer(f, t) => ExecTransfer(f, t, s)
      case Pha => Push(s, s.a)
      case Pla => ExecPla(s)
      case Php => ExecPhp(s)
      case Plp => ExecPlp(s)
      case SetFlag(f, on) => s.(p := PutFlag(s.p, f, on))
      case Branch(f, on) => ExecBranch(GetFlag(s.p, f) == on, s)
      case Jmp => ExecJmp(i.mode, s)
      case Jsr => ExecJsr(s)
      case Rts => ExecRts(s)
      case Rti => ExecRti(s)
      case Brk => s.(halted := true)
      case _ => s
  }

  predicate TakesBranch(i: Instruction, s: State) { i.op.Branch? && GetFlag(s.p, i.op.f) == i.op.on }

  function Execute(i: Instruction, s: State): State {
    Tick(Effect(i, s), Cycles(i) + Bit(TakesBranch(i, s)))
  }

  /** The opcode fetch, recorded in the trace ring. */
  function FetchOpcode(s: State): (State, byte) {
    var f := Fetch(s);
    (f.0.(trace := Record(s.trace, s.pc, f.1)), f.1)
  }

  function Dispatch(opcode: byte, s: State): State {
    match Decode(opcode)
    case None => s.(halted := true)
    case Some(i) => Execute(i, s)
  }

  function Step(s: State): State {
    if s.halted then s
    else var f := FetchOpcode(s); Dispatch(f.1, f.0)
  }

  function Reset(s: State, start: word): State {
    State(0, 0, 0, 0xFD, start, Flags(false, false, true, false, false, true, false, false), 0, false, s.mem, s.trace)
  }

  predicate Accepts(s: State) { !s.p.i && !s.halted }

  /** The three bytes an interrupt leaves on the stack: return address, then status with B clear and U set. */
  function PushFrame(s: State): State {
    Push(PushWord(s, s.pc), ToByte(s.p.(b := false, u := true)))
  }

  function Irq(s: State): State {
    if !Accepts(s) then s
    else
      var f := ReadWord(PushFrame(s).(p := s.p.(i := true)), 0xFFFE, 0xFFFF);
      Tick(f.0.(pc := f.1), 7)
  }
}
