/** The 6502 instruction set as an orthogonal decoder: an opcode is three fields aaabbbcc, from which the
    operation and the addressing mode follow, and an instruction's length and cycles follow from those two.
    The program itself (kernel/cpu6502.c) has no such decoder: it is one flat switch over 151 opcodes. */
module Isa {
  import opened Wrappers
  import opened Bytes

  datatype Reg = A | X | Y | SP
  datatype FlagName = C | Z | I | D | V | N

  datatype Mode = Implied | Accumulator | Immediate | ZeroPage | ZeroPageX | ZeroPageY
                | Absolute | AbsoluteX | AbsoluteY | Indirect | IndirectX | IndirectY | Relative

  datatype Operation =
    | Load(r: Reg) | Store(r: Reg) | Adc | Sbc | AndA | OrA | EorA | Compare(r: Reg) | BitTest
    | Asl | Rol | Lsr | Ror | Inc | Dec
    | IncReg(r: Reg) | DecReg(r: Reg) | Transfer(from: Reg, to: Reg)
    | Pha | Pla | Php | Plp
    | SetFlag(f: FlagName, on: bool) | Branch(f: FlagName, on: bool)
    | Jmp | Jsr | Rts | Rti | Nop | Brk

  datatype Instruction = Instruction(op: Operation, mode: Mode)

  function Legal(op: Operation, mode: Mode): Option<Instruction> { Some(Instruction(op, mode)) }

  function AluOperation(aaa: int): Operation {
    match aaa
    case 0 => OrA
    case 1 => AndA
    case 2 => EorA
    case 3 => Adc
    case 4 => Store(A)
    case 5 => Load(A)
    case 6 => Compare(A)
    case _ => Sbc
  }

  function DecodeAlu(aaa: int, bbb: int): Option<Instruction> {
    var op := AluOperation(aaa);
    match bbb
    case 0 => Legal(op, IndirectX)
    case 1 => Legal(op, ZeroPage)
    case 2 => if op.Store? then None else Legal(op, Immediate)
    case 3 => Legal(op, Absolute)
    case 4 => Legal(op, IndirectY)
    case 5 => Legal(op, ZeroPageX)
    case 6 => Legal(op, AbsoluteY)
    case _ => Legal(op, AbsoluteX)
  }

  function ShiftOperation(aaa: int): Operation {
    match aaa
    case 0 => Asl
    case 1 => Rol
    case 2 => Lsr
    case 3 => Ror
    case 4 => Store(X)
    case 5 => Load(X)
    case 6 => Dec
    case _ => Inc
  }

  function DecodeShift(aaa: int, bbb: int): Option<Instruction> {
    var op := ShiftOperation(aaa);
    var usesX := op.Store? || op.Load?;
    match bbb
    case 0 => if op.Load? then Legal(op, Immediate) else None
    case 1 => Legal(op, ZeroPage)
    case 2 =>
      (match aaa
       case 4 => Legal(Transfer(X, A), Implied)
       case 5 => Legal(Transfer(A, X), Implied)
       case 6 => Legal(DecReg(X), Implied)
       case 7 => Legal(Nop, Implied)
       case _ => Legal(op, Accumulator))
    case 3 => Legal(op, Absolute)
    case 5 => Legal(op, if usesX then ZeroPageY else ZeroPageX)
    case 6 =>
      if aaa == 4 then Legal(Transfer(X, SP), Implied)
      else if aaa == 5 then Legal(Transfer(SP, X), Implied)
      else None
    case 7 => if op.Store? then None else Legal(op, if usesX then AbsoluteY else AbsoluteX)
    case _ => None
  }

  function YOperation(aaa: int): Operation {
    match aaa
    case 4 => Store(Y)
    case 5 => Load(Y)
    case 6 => Compare(Y)
    case _ => Compare(X)
  }

  function BranchFlag(aaa: int): FlagName {
    if aaa < 2 then N else if aaa < 4 then V else if aaa < 6 then C else Z
  }

  function DecodeControl(aaa: int, bbb: int): Option<Instruction> {
    match bbb
    case 0 =>
      (match aaa
       case 0 => Legal(Brk, Implied)
       case 1 => Legal(Jsr, Absolute)
       case 2 => Legal(Rti, Implied)
       case 3 => Legal(Rts, Implied)
       case 4 => None
       case 5 => Legal(Load(Y), Immediate)
       case 6 => Legal(Compare(Y), Immediate)
       case _ => Legal(Compare(X), Immediate))
    case 1 => if aaa == 1 then Legal(BitTest, ZeroPage) else if aaa < 4 then None else Legal(YOperation(aaa), ZeroPage)
    case 2 =>
      (match aaa
       case 0 => Legal(Php, Implied)
       case 1 => Legal(Plp, Implied)
       case 2 => Legal(Pha, Implied)
       case 3 => Legal(Pla, Implied)
       case 4 => Legal(DecReg(Y), Implied)
       case 5 => Legal(Transfer(A, Y), Implied)
       case 6 => Legal(IncReg(Y), Implied)
       case _ => Legal(IncReg(X), Implied))
    case 3 =>
      (match aaa
       case 0 => None
       case 1 => Legal(BitTest, Absolute)
       case 2 => Legal(Jmp, Absolute)
       case 3 => Legal(Jmp, Indirect)
       case _ => Legal(YOperation(aaa), Absolute))
    case 4 => Legal(Branch(BranchFlag(aaa), aaa % 2 == 1), Relative)
    case 5 => if aaa == 4 || aaa == 5 then Legal(YOperation(aaa), ZeroPageX) else None
    case 6 =>
      (match aaa
       case 0 => Legal(SetFlag(C, false), Implied)
       case 1 => Legal(SetFlag(C, true), Implied)
       case 2 => Legal(SetFlag(I, false), Implied)
       case 3 => Legal(SetFlag(I, true), Implied)
       case 4 => Legal(Transfer(Y, A), Implied)
       case 5 => Legal(SetFlag(V, false), Implied)
       case 6 => Legal(SetFlag(D, false), Implied)
       case _ => Legal(SetFlag(D, true), Implied))
    case _ => if aaa == 5 then Legal(YOperation(aaa), AbsoluteX) else None
  }

  function Decode(opcode: byte): Option<Instruction> {
    var aaa, bbb, cc := opcode / 32, opcode / 4 % 8, opcode % 4;
    match cc
    case 0 => DecodeControl(aaa, bbb)
    case 1 => DecodeAlu(aaa, bbb)
    case 2 => DecodeShift(aaa, bbb)
    case _ => None
  }

  function Length(mode: Mode): int {
    match mode
    case Implied => 1
    case Accumulator => 1
    case Absolute => 3
    case AbsoluteX => 3
    case AbsoluteY => 3
    case Indirect => 3
    case _ => 2
  }

  /** Cycles by addressing mode alone, for an instruction that reads its operand. */
  function ReadCycles(mode: Mode): int {
    match mode
    case Immediate => 2
    case ZeroPage => 3
    case IndirectX => 6
    case IndirectY => 5
    case _ => 4
  }

  function RmwCycles(mode: Mode): int {
    match mode
    case Accumulator => 2
    case ZeroPage => 5
    case AbsoluteX => 7
    case _ => 6
  }

  predicate IsAlu(op: Operation) {
    op.Load? || op.Adc? || op.Sbc? || op.AndA? || op.OrA? || op.EorA? || op.Compare? || op.BitTest?
  }

  predicate IsRmw(op: Operation) { op.Asl? || op.Lsr? || op.Rol? || op.Ror? || op.Inc? || op.Dec? }

  function StoreCycles(mode: Mode): int {
    match mode
    case ZeroPage => 3
    case ZeroPageX => 4
    case ZeroPageY => 4
    case Absolute => 4
    case AbsoluteX => 5
    case AbsoluteY => 5
    case _ => 6
  }

  /** Cycles of a decoded instruction; a branch that is taken costs one more. */
  function Cycles(i: Instruction): (n: int)
    ensures 2 <= n <= 7
  {
    if IsAlu(i.op) then ReadCycles(i.mode)
    else if IsRmw(i.op) then RmwCycles(i.mode)
    else match i.op
      case Store(_) => StoreCycles(i.mode)
      case Pha => 3
      case Php => 3
      case Pla => 4
      case Plp => 4
      case Jmp => if i.mode == Indirect then 5 else 3
      case Jsr => 6
      case Rts => 6
      case Rti => 6
      case Brk => 7
      case _ => 2
  }
}
