/** Bridges between the flat switch and the decoder: what each opcode decodes to, and what executing a decoded
    instruction comes to, one addressing mode at a time. */
module Decoding {
  import opened Wrappers
  import opened Bytes
  import opened Isa
  import opened Cpu

  lemma ReadCycleCounts()
    ensures ReadCycles(Immediate) == 2 && ReadCycles(ZeroPage) == 3
    ensures ReadCycles(ZeroPageX) == 4 && ReadCycles(ZeroPageY) == 4
    ensures ReadCycles(Absolute) == 4 && ReadCycles(AbsoluteX) == 4 && ReadCycles(AbsoluteY) == 4
    ensures ReadCycles(IndirectX) == 6 && ReadCycles(IndirectY) == 5
  {}

  lemma AluExecutes(op: Operation, s: State)
    requires IsAlu(op)
    ensures forall m: Mode {:trigger Effective(m, s)} :: m != Immediate ==>
              var f := Effective(m, s); var g := ReadFrom(f.0, f.1);
              Execute(Instruction(op, m), s) == Tick(Alu(op, g.0, g.1), ReadCycles(m))
    ensures var f := Fetch(s); Execute(Instruction(op, Immediate), s) == Tick(Alu(op, f.0, f.1), 2)
  {
    hide Effective, Alu, ReadFrom, Fetch, Tick;
  }

  lemma EffectiveKeepsRegisters(m: Mode, s: State)
    ensures var t := Effective(m, s).0; t == s.(pc := t.pc, mem := t.mem)
  {}

  lemma IndirectModes(s: State)
    ensures Effective(IndirectX, s) == AddrIndX(s) && Effective(IndirectY, s) == AddrIndY(s)
  {
    hide AddrIndX, AddrIndY;
  }

  lemma StoreCycleCounts()
    ensures StoreCycles(ZeroPage) == 3 && StoreCycles(ZeroPageX) == 4 && StoreCycles(ZeroPageY) == 4
    ensures StoreCycles(Absolute) == 4 && StoreCycles(AbsoluteX) == 5 && StoreCycles(AbsoluteY) == 5
    ensures StoreCycles(IndirectX) == 6 && StoreCycles(IndirectY) == 6
  {}

  lemma StoreExecutes(r: Reg, s: State)
    ensures forall m: Mode {:trigger Effective(m, s)} ::
              var f := Effective(m, s);
              Execute(Instruction(Store(r), m), s) == Tick(WriteTo(f.0, f.1, Get(f.0, r)), StoreCycles(m))
  {
    forall m: Mode
      ensures var f := Effective(m, s);
              Execute(Instruction(Store(r), m), s) == Tick(WriteTo(f.0, f.1, Get(f.0, r)), StoreCycles(m))
    {
      EffectiveKeepsRegisters(m, s);
      hide Effective, WriteTo, Tick;
    }
  }

  lemma RmwCycleCounts()
    ensures RmwCycles(Accumulator) == 2 && RmwCycles(ZeroPage) == 5 && RmwCycles(ZeroPageX) == 6
    ensures RmwCycles(Absolute) == 6 && RmwCycles(AbsoluteX) == 7
  {}

  lemma RmwExecutes(op: Operation, s: State)
    requires IsRmw(op)
    ensures forall m: Mode {:trigger Effective(m, s)} :: m != Accumulator ==>
              var f := Effective(m, s);
              Execute(Instruction(op, m), s) == Tick(Modify(op, f.0, f.1), RmwCycles(m))
    ensures Execute(Instruction(op, Accumulator), s) == Tick(ModifyA(op, s), 2)
  {
    hide Effective, Modify, ModifyA, Tick;
  }

  lemma SignBit(x: int)
    requires 0 <= x < 512
    ensures (x as bv16 & 0x80) != 0 <==> x % 256 >= 128
  {}

  lemma XorOfSigns(a: bv16, v: bv16, r: bv16)
    ensures ((a ^ r) & (v ^ r) & 0x80) != 0 <==>
            ((a & 0x80) != 0) == ((v & 0x80) != 0) != ((r & 0x80) != 0)
  {}

  lemma AdditionOps(s: State, v: byte)
    ensures Alu(Adc, s, v) == AddWithCarry(s, v) && Alu(Sbc, s, v) == AddWithCarry(s, 255 - v)
  {}

  lemma PushExecutes(s: State)
    ensures Execute(Instruction(Pha, Implied), s) == Tick(Push(s, s.a), 3)
    ensures Execute(Instruction(Php, Implied), s) == Tick(ExecPhp(s), 3)
  {
    hide Push, Pop, ExecPhp, ExecPlp, Tick, LoadReg, ExecAlu, ExecRmw, ExecStore, ExecTransfer, ExecBranch,
      PutFlag, ExecJmp, ExecJsr, ExecRts, ExecRti, Get, RmwCycles, ReadCycles, StoreCycles;
  }

  lemma PullExecutes(s: State)
    ensures var f := Pop(s); Execute(Instruction(Pla, Implied), s) == Tick(LoadReg(f.0, A, f.1), 4)
    ensures Execute(Instruction(Plp, Implied), s) == Tick(ExecPlp(s), 4)
  {
    hide Push, Pop, ExecPhp, ExecPlp, Tick, LoadReg, ExecAlu, ExecRmw, ExecStore, ExecTransfer, ExecBranch,
      PutFlag, ExecJmp, ExecJsr, ExecRts, ExecRti, Get, RmwCycles, ReadCycles, StoreCycles;
  }

  lemma TransferFromA(s: State)
    ensures Execute(Instruction(Transfer(A, X), Implied), s) == Tick(LoadReg(s, X, s.a), 2)
    ensures Execute(Instruction(Transfer(A, Y), Implied), s) == Tick(LoadReg(s, Y, s.a), 2)
  {
    hide Push, Pop, ExecPhp, ExecPlp, ExecPla, Tick, LoadReg, ExecAlu, ExecRmw, ExecStore, ExecBranch, PutFlag,
      ExecJmp, ExecJsr, ExecRts, ExecRti, RmwCycles, ReadCycles, StoreCycles;
  }

  lemma TransferToA(s: State)
    ensures Execute(Instruction(Transfer(X, A), Implied), s) == Tick(LoadReg(s, A, s.x), 2)
    ensures Execute(Instruction(Transfer(Y, A), Implied), s) == Tick(LoadReg(s, A, s.y), 2)
  {
    hide Push, Pop, ExecPhp, ExecPlp, ExecPla, Tick, LoadReg, ExecAlu, ExecRmw, ExecStore, ExecBranch, PutFlag,
      ExecJmp, ExecJsr, ExecRts, ExecRti, RmwCycles, ReadCycles, StoreCycles;
  }

  lemma TransferStackPointer(s: State)
    ensures Execute(Instruction(Transfer(SP, X), Implied), s) == Tick(LoadReg(s, X, s.sp), 2)
    ensures Execute(Instruction(Transfer(X, SP), Implied), s) == Tick(s.(sp := s.x), 2)
  {
    hide Push, Pop, ExecPhp, ExecPlp, ExecPla, Tick, LoadReg, ExecAlu, ExecRmw, ExecStore, ExecBranch, PutFlag,
      ExecJmp, ExecJsr, ExecRts, ExecRti, RmwCycles, ReadCycles, StoreCycles;
  }

  lemma IncDecExecutes(s: State)
    ensures Execute(Instruction(IncReg(X), Implied), s) == Tick(LoadReg(s, X, (s.x + 1) % 256), 2)
    ensures Execute(Instruction(IncReg(Y), Implied), s) == Tick(LoadReg(s, Y, (s.y + 1) % 256), 2)
    ensures Execute(Instruction(DecReg(X), Implied), s) == Tick(LoadReg(s, X, (s.x - 1) % 256), 2)
    ensures Execute(Instruction(DecReg(Y), Implied), s) == Tick(LoadReg(s, Y, (s.y - 1) % 256), 2)
  {
    hide Push, Pop, ExecPhp, ExecPlp, ExecPla, Tick, LoadReg, ExecAlu, ExecRmw, ExecStore, ExecTransfer,
      ExecBranch, PutFlag, ExecJmp, ExecJsr, ExecRts, ExecRti, RmwCycles, ReadCycles, StoreCycles;
  }

  lemma FlagExecutes(s: State)
    ensures forall f: FlagName, on: bool {:trigger SetFlag(f, on)} ::
              Execute(Instruction(SetFlag(f, on), Implied), s) == Tick(s.(p := PutFlag(s.p, f, on)), 2)
  {
    hide Push, Pop, ExecPhp, ExecPlp, ExecPla, Tick, LoadReg, ExecAlu, ExecRmw, ExecStore, ExecTransfer,
      ExecBranch, PutFlag, ExecJmp, ExecJsr, ExecRts, ExecRti, Get, RmwCycles, ReadCycles, StoreCycles;
  }

  lemma MiscExecutes(s: State)
    ensures Execute(Instruction(Nop, Implied), s) == Tick(s, 2)
    ensures Execute(Instruction(Brk, Implied), s) == Tick(s.(halted := true), 7)
  {
    hide Push, Pop, ExecPhp, ExecPlp, ExecPla, Tick, LoadReg, ExecAlu, ExecRmw, ExecStore, ExecTransfer,
      ExecBranch, PutFlag, ExecJmp, ExecJsr, ExecRts, ExecRti, Get, RmwCycles, ReadCycles, StoreCycles;
  }

  lemma BranchExecutes(s: State)
    ensures forall f: FlagName, on: bool {:trigger Branch(f, on)} ::
              Execute(Instruction(Branch(f, on), Relative), s) ==
              Tick(ExecBranch(GetFlag(s.p, f) == on, s), if GetFlag(s.p, f) == on then 3 else 2)
    ensures GetFlag(s.p, Z) == s.p.z && GetFlag(s.p, N) == s.p.n && GetFlag(s.p, V) == s.p.v && GetFlag(s.p, C) == s.p.c
  {
    hide Push, Pop, ExecPhp, ExecPlp, ExecPla, Tick, LoadReg, ExecAlu, ExecRmw, ExecStore, ExecTransfer,
      ExecBranch, PutFlag, ExecJmp, ExecJsr, ExecRts, ExecRti, Get, RmwCycles, ReadCycles, StoreCycles;
  }

  lemma JmpExecutes(s: State)
    ensures Execute(Instruction(Jmp, Absolute), s) == Tick(ExecJmp(Absolute, s), 3)
    ensures Execute(Instruction(Jmp, Indirect), s) == Tick(ExecJmp(Indirect, s), 5)
  {
    hide Push, Pop, ExecPhp, ExecPlp, ExecPla, Tick, LoadReg, ExecAlu, ExecRmw, ExecStore, ExecTransfer,
      ExecBranch, PutFlag, ExecJmp, ExecJsr, ExecRts, ExecRti, Get, RmwCycles, ReadCycles, StoreCycles;
  }

  lemma SubroutineExecutes(s: State)
    ensures Execute(Instruction(Jsr, Absolute), s) == Tick(ExecJsr(s), 6)
    ensures Execute(Instruction(Rts, Implied), s) == Tick(ExecRts(s), 6)
  {
    hide Push, Pop, ExecPhp, ExecPlp, ExecPla, Tick, LoadReg, ExecAlu, ExecRmw, ExecStore, ExecTransfer,
      ExecBranch, PutFlag, ExecJmp, ExecJsr, ExecRts, ExecRti, Get, RmwCycles, ReadCycles, StoreCycles;
  }

  lemma RtiExecutes(s: State)
    ensures Execute(Instruction(Rti, Implied), s) == Tick(ExecRti(s), 6)
  {
    hide Push, Pop, ExecPhp, ExecPlp, ExecPla, Tick, LoadReg, ExecAlu, ExecRmw, ExecStore, ExecTransfer,
      ExecBranch, PutFlag, ExecJmp, ExecJsr, ExecRts, ExecRti, Get, RmwCycles, ReadCycles, StoreCycles;
  }

  lemma DispatchExecutes(opcode: byte, s: State)
    ensures Decode(opcode).Some? ==> Dispatch(opcode, s) == Execute(Decode(opcode).value, s)
    ensures Decode(opcode).None? ==> Dispatch(opcode, s) == s.(halted := true)
  {
    hide Decode, Execute;
  }

  lemma LdaTable()
    ensures Decode(0xA9) == Some(Instruction(Load(A), Immediate))
    ensures Decode(0xA5) == Some(Instruction(Load(A), ZeroPage))
    ensures Decode(0xB5) == Some(Instruction(Load(A), ZeroPageX))
    ensures Decode(0xAD) == Some(Instruction(Load(A), Absolute))
    ensures Decode(0xBD) == Some(Instruction(Load(A), AbsoluteX))
    ensures Decode(0xB9) == Some(Instruction(Load(A), AbsoluteY))
    ensures Decode(0xA1) == Some(Instruction(Load(A), IndirectX))
    ensures Decode(0xB1) == Some(Instruction(Load(A), IndirectY))
    ensures IsAlu(Load(A))
  {}

  lemma StaTable()
    ensures Decode(0x85) == Some(Instruction(Store(A), ZeroPage))
    ensures Decode(0x95) == Some(Instruction(Store(A), ZeroPageX))
    ensures Decode(0x8D) == Some(Instruction(Store(A), Absolute))
    ensures Decode(0x9D) == Some(Instruction(Store(A), AbsoluteX))
    ensures Decode(0x99) == Some(Instruction(Store(A), AbsoluteY))
    ensures Decode(0x81) == Some(Instruction(Store(A), IndirectX))
    ensures Decode(0x91) == Some(Instruction(Store(A), IndirectY))
  {}

  lemma LdxTable()
    ensures Decode(0xA2) == Some(Instruction(Load(X), Immediate))
    ensures Decode(0xA6) == Some(Instruction(Load(X), ZeroPage))
    ensures Decode(0xB6) == Some(Instruction(Load(X), ZeroPageY))
    ensures Decode(0xAE) == Some(Instruction(Load(X), Absolute))
    ensures Decode(0xBE) == Some(Instruction(Load(X), AbsoluteY))
    ensures IsAlu(Load(X))
  {}

  lemma StxTable()
    ensures Decode(0x86) == Some(Instruction(Store(X), ZeroPage))
    ensures Decode(0x96) == Some(Instruction(Store(X), ZeroPageY))
    ensures Decode(0x8E) == Some(Instruction(Store(X), Absolute))
  {}

  lemma LdyTable()
    ensures Decode(0xA0) == Some(Instruction(Load(Y), Immediate))
    ensures Decode(0xA4) == Some(Instruction(Load(Y), ZeroPage))
    ensures Decode(0xB4) == Some(Instruction(Load(Y), ZeroPageX))
    ensures Decode(0xAC) == Some(Instruction(Load(Y), Absolute))
    ensures Decode(0xBC) == Some(Instruction(Load(Y), AbsoluteX))
    ensures IsAlu(Load(Y))
  {}

  lemma StyTable()
    ensures Decode(0x84) == Some(Instruction(Store(Y), ZeroPage))
    ensures Decode(0x94) == Some(Instruction(Store(Y), ZeroPageX))
    ensures Decode(0x8C) == Some(Instruction(Store(Y), Absolute))
  {}

  lemma TransferTable()
    ensures Decode(0xAA) == Some(Instruction(Transfer(A, X), Implied))
    ensures Decode(0x8A) == Some(Instruction(Transfer(X, A), Implied))
    ensures Decode(0xA8) == Some(Instruction(Transfer(A, Y), Implied))
    ensures Decode(0x98) == Some(Instruction(Transfer(Y, A), Implied))
    ensures Decode(0x9A) == Some(Instruction(Transfer(X, SP), Implied))
    ensures Decode(0xBA) == Some(Instruction(Transfer(SP, X), Implied))
  {}

  lemma StackTable()
    ensures Decode(0x48) == Some(Instruction(Pha, Implied))
    ensures Decode(0x68) == Some(Instruction(Pla, Implied))
    ensures Decode(0x08) == Some(Instruction(Php, Implied))
    ensures Decode(0x28) == Some(Instruction(Plp, Implied))
  {}

  lemma FlagTable()
    ensures Decode(0x78) == Some(Instruction(SetFlag(I, true), Implied))
    ensures Decode(0x58) == Some(Instruction(SetFlag(I, false), Implied))
    ensures Decode(0xF8) == Some(Instruction(SetFlag(D, true), Implied))
    ensures Decode(0xD8) == Some(Instruction(SetFlag(D, false), Implied))
    ensures Decode(0x38) == Some(Instruction(SetFlag(C, true), Implied))
    ensures Decode(0x18) == Some(Instruction(SetFlag(C, false), Implied))
    ensures Decode(0xB8) == Some(Instruction(SetFlag(V, false), Implied))
  {}

  lemma IncDecTable()
    ensures Decode(0xE8) == Some(Instruction(IncReg(X), Implied))
    ensures Decode(0xC8) == Some(Instruction(IncReg(Y), Implied))
    ensures Decode(0xCA) == Some(Instruction(DecReg(X), Implied))
    ensures Decode(0x88) == Some(Instruction(DecReg(Y), Implied))
  {}

  lemma IncDecMemoryTable()
    ensures Decode(0xE6) == Some(Instruction(Inc, ZeroPage))
    ensures Decode(0xF6) == Some(Instruction(Inc, ZeroPageX))
    ensures Decode(0xEE) == Some(Instruction(Inc, Absolute))
    ensures Decode(0xFE) == Some(Instruction(Inc, AbsoluteX))
    ensures Decode(0xC6) == Some(Instruction(Dec, ZeroPage))
    ensures Decode(0xD6) == Some(Instruction(Dec, ZeroPageX))
    ensures Decode(0xCE) == Some(Instruction(Dec, Absolute))
    ensures Decode(0xDE) == Some(Instruction(Dec, AbsoluteX))
    ensures IsRmw(Dec)
    ensures IsRmw(Inc)
  {}

  lemma CompareRegisterTable()
    ensures Decode(0xE0) == Some(Instruction(Compare(X), Immediate))
    ensures Decode(0xE4) == Some(Instruction(Compare(X), ZeroPage))
    ensures Decode(0xEC) == Some(Instruction(Compare(X), Absolute))
    ensures Decode(0xC0) == Some(Instruction(Compare(Y), Immediate))
    ensures Decode(0xC4) == Some(Instruction(Compare(Y), ZeroPage))
    ensures Decode(0xCC) == Some(Instruction(Compare(Y), Absolute))
    ensures IsAlu(Compare(X))
    ensures IsAlu(Compare(Y))
  {}

  lemma CompareATable()
    ensures Decode(0xC9) == Some(Instruction(Compare(A), Immediate))
    ensures Decode(0xC5) == Some(Instruction(Compare(A), ZeroPage))
    ensures Decode(0xCD) == Some(Instruction(Compare(A), Absolute))
    ensures Decode(0xD5) == Some(Instruction(Compare(A), ZeroPageX))
    ensures Decode(0xDD) == Some(Instruction(Compare(A), AbsoluteX))
    ensures Decode(0xD9) == Some(Instruction(Compare(A), AbsoluteY))
    ensures Decode(0xC1) == Some(Instruction(Compare(A), IndirectX))
    ensures Decode(0xD1) == Some(Instruction(Compare(A), IndirectY))
    ensures IsAlu(Compare(A))
  {}

  lemma AndTable()
    ensures Decode(0x35) == Some(Instruction(AndA, ZeroPageX))
    ensures Decode(0x3D) == Some(Instruction(AndA, AbsoluteX))
    ensures Decode(0x39) == Some(Instruction(AndA, AbsoluteY))
    ensures Decode(0x21) == Some(Instruction(AndA, IndirectX))
    ensures Decode(0x31) == Some(Instruction(AndA, IndirectY))
    ensures Decode(0x29) == Some(Instruction(AndA, Immediate))
    ensures Decode(0x25) == Some(Instruction(AndA, ZeroPage))
    ensures Decode(0x2D) == Some(Instruction(AndA, Absolute))
    ensures IsAlu(AndA)
  {}

  lemma OraTable()
    ensures Decode(0x15) == Some(Instruction(OrA, ZeroPageX))
    ensures Decode(0x1D) == Some(Instruction(OrA, AbsoluteX))
    ensures Decode(0x19) == Some(Instruction(OrA, AbsoluteY))
    ensures Decode(0x01) == Some(Instruction(OrA, IndirectX))
    ensures Decode(0x11) == Some(Instruction(OrA, IndirectY))
    ensures Decode(0x09) == Some(Instruction(OrA, Immediate))
    ensures Decode(0x05) == Some(Instruction(OrA, ZeroPage))
    ensures Decode(0x0D) == Some(Instruction(OrA, Absolute))
    ensures IsAlu(OrA)
  {}

  lemma EorTable()
    ensures Decode(0x55) == Some(Instruction(EorA, ZeroPageX))
    ensures Decode(0x5D) == Some(Instruction(EorA, AbsoluteX))
    ensures Decode(0x59) == Some(Instruction(EorA, AbsoluteY))
    ensures Decode(0x41) == Some(Instruction(EorA, IndirectX))
    ensures Decode(0x51) == Some(Instruction(EorA, IndirectY))
    ensures Decode(0x49) == Some(Instruction(EorA, Immediate))
    ensures Decode(0x45) == Some(Instruction(EorA, ZeroPage))
    ensures Decode(0x4D) == Some(Instruction(EorA, Absolute))
    ensures IsAlu(EorA)
  {}

  lemma AdcTable()
    ensures Decode(0x75) == Some(Instruction(Adc, ZeroPageX))
    ensures Decode(0x7D) == Some(Instruction(Adc, AbsoluteX))
    ensures Decode(0x79) == Some(Instruction(Adc, AbsoluteY))
    ensures Decode(0x61) == Some(Instruction(Adc, IndirectX))
    ensures Decode(0x71) == Some(Instruction(Adc, IndirectY))
    ensures Decode(0x69) == Some(Instruction(Adc, Immediate))
    ensures Decode(0x65) == Some(Instruction(Adc, ZeroPage))
    ensures Decode(0x6D) == Some(Instruction(Adc, Absolute))
    ensures IsAlu(Adc)
  {}

  lemma SbcTable()
    ensures Decode(0xF5) == Some(Instruction(Sbc, ZeroPageX))
    ensures Decode(0xFD) == Some(Instruction(Sbc, AbsoluteX))
    ensures Decode(0xF9) == Some(Instruction(Sbc, AbsoluteY))
    ensures Decode(0xE1) == Some(Instruction(Sbc, IndirectX))
    ensures Decode(0xF1) == Some(Instruction(Sbc, IndirectY))
    ensures Decode(0xE9) == Some(Instruction(Sbc, Immediate))
    ensures Decode(0xE5) == Some(Instruction(Sbc, ZeroPage))
    ensures Decode(0xED) == Some(Instruction(Sbc, Absolute))
    ensures IsAlu(Sbc)
  {}

  lemma BitTable()
    ensures Decode(0x24) == Some(Instruction(BitTest, ZeroPage))
    ensures Decode(0x2C) == Some(Instruction(BitTest, Absolute))
    ensures IsAlu(BitTest)
  {}

  lemma AslTable()
    ensures Decode(0x0A) == Some(Instruction(Asl, Accumulator))
    ensures Decode(0x06) == Some(Instruction(Asl, ZeroPage))
    ensures Decode(0x16) == Some(Instruction(Asl, ZeroPageX))
    ensures Decode(0x0E) == Some(Instruction(Asl, Absolute))
    ensures Decode(0x1E) == Some(Instruction(Asl, AbsoluteX))
    ensures IsRmw(Asl)
  {}

  lemma LsrTable()
    ensures Decode(0x4A) == Some(Instruction(Lsr, Accumulator))
    ensures Decode(0x46) == Some(Instruction(Lsr, ZeroPage))
    ensures Decode(0x56) == Some(Instruction(Lsr, ZeroPageX))
    ensures Decode(0x4E) == Some(Instruction(Lsr, Absolute))
    ensures Decode(0x5E) == Some(Instruction(Lsr, AbsoluteX))
    ensures IsRmw(Lsr)
  {}

  lemma RolTable()
    ensures Decode(0x2A) == Some(Instruction(Rol, Accumulator))
    ensures Decode(0x26) == Some(Instruction(Rol, ZeroPage))
    ensures Decode(0x36) == Some(Instruction(Rol, ZeroPageX))
    ensures Decode(0x2E) == Some(Instruction(Rol, Absolute))
    ensures Decode(0x3E) == Some(Instruction(Rol, AbsoluteX))
    ensures IsRmw(Rol)
  {}

  lemma RorTable()
    ensures Decode(0x6A) == Some(Instruction(Ror, Accumulator))
    ensures Decode(0x66) == Some(Instruction(Ror, ZeroPage))
    ensures Decode(0x76) == Some(Instruction(Ror, ZeroPageX))
    ensures Decode(0x6E) == Some(Instruction(Ror, Absolute))
    ensures Decode(0x7E) == Some(Instruction(Ror, AbsoluteX))
    ensures IsRmw(Ror)
  {}

  lemma BranchTable()
    ensures Decode(0xD0) == Some(Instruction(Branch(Z, false), Relative))
    ensures Decode(0xF0) == Some(Instruction(Branch(Z, true), Relative))
    ensures Decode(0x10) == Some(Instruction(Branch(N, false), Relative))
    ensures Decode(0x30) == Some(Instruction(Branch(N, true), Relative))
    ensures Decode(0x50) == Some(Instruction(Branch(V, false), Relative))
    ensures Decode(0x70) == Some(Instruction(Branch(V, true), Relative))
    ensures Decode(0x90) == Some(Instruction(Branch(C, false), Relative))
    ensures Decode(0xB0) == Some(Instruction(Branch(C, true), Relative))
  {}

  lemma JumpTable()
    ensures Decode(0x4C) == Some(Instruction(Jmp, Absolute))
    ensures Decode(0x6C) == Some(Instruction(Jmp, Indirect))
    ensures Decode(0x20) == Some(Instruction(Jsr, Absolute))
    ensures Decode(0x60) == Some(Instruction(Rts, Implied))
    ensures Decode(0x40) == Some(Instruction(Rti, Implied))
  {}

  lemma MiscTable()
    ensures Decode(0xEA) == Some(Instruction(Nop, Implied))
    ensures Decode(0x00) == Some(Instruction(Brk, Implied))
  {}

  /** The case labels of the switch, by their high nibble. */
  function CaseLabels(high: int): set<byte> {
    match high
    case 0 => {0x00, 0x01, 0x05, 0x06, 0x08, 0x09, 0x0A, 0x0D, 0x0E}
    case 1 => {0x10, 0x11, 0x15, 0x16, 0x18, 0x19, 0x1D, 0x1E}
    case 2 => {0x20, 0x21, 0x24, 0x25, 0x26, 0x28, 0x29, 0x2A, 0x2C, 0x2D, 0x2E}
    case 3 => {0x30, 0x31, 0x35, 0x36, 0x38, 0x39, 0x3D, 0x3E}
    case 4 => {0x40, 0x41, 0x45, 0x46, 0x48, 0x49, 0x4A, 0x4C, 0x4D, 0x4E}
    case 5 => {0x50, 0x51, 0x55, 0x56, 0x58, 0x59, 0x5D, 0x5E}
    case 6 => {0x60, 0x61, 0x65, 0x66, 0x68, 0x69, 0x6A, 0x6C, 0x6D, 0x6E}
    case 7 => {0x70, 0x71, 0x75, 0x76, 0x78, 0x79, 0x7D, 0x7E}
    case 8 => {0x81, 0x84, 0x85, 0x86, 0x88, 0x8A, 0x8C, 0x8D, 0x8E}
    case 9 => {0x90, 0x91, 0x94, 0x95, 0x96, 0x98, 0x99, 0x9A, 0x9D}
    case 10 => {0xA0, 0xA1, 0xA2, 0xA4, 0xA5, 0xA6, 0xA8, 0xA9, 0xAA, 0xAC, 0xAD, 0xAE}
    case 11 => {0xB0, 0xB1, 0xB4, 0xB5, 0xB6, 0xB8, 0xB9, 0xBA, 0xBC, 0xBD, 0xBE}
    case 12 => {0xC0, 0xC1, 0xC4, 0xC5, 0xC6, 0xC8, 0xC9, 0xCA, 0xCC, 0xCD, 0xCE}
    case 13 => {0xD0, 0xD1, 0xD5, 0xD6, 0xD8, 0xD9, 0xDD, 0xDE}
    case 14 => {0xE0, 0xE1, 0xE4, 0xE5, 0xE6, 0xE8, 0xE9, 0xEA, 0xEC, 0xED, 0xEE}
    case _ => {0xF0, 0xF1, 0xF5, 0xF6, 0xF8, 0xF9, 0xFD, 0xFE}
  }

  /** The opcodes the decoder accepts are exactly the case labels of the switch. */
  lemma LabelsAreLegal(opcode: byte)
    ensures opcode in CaseLabels(opcode / 16) <==> Decode(opcode).Some?
  {
    hide Decode, CaseLabels;
    var high, low := opcode / 16, opcode % 16;
    assert opcode == 16 * high + low;
    if high == 0 { LabelsRow0(low); }
    else if high == 1 { LabelsRow1(low); }
    else if high == 2 { LabelsRow2(low); }
    else if high == 3 { LabelsRow3(low); }
    else if high == 4 { LabelsRow4(low); }
    else if high == 5 { LabelsRow5(low); }
    else if high == 6 { LabelsRow6(low); }
    else if high == 7 { LabelsRow7(low); }
    else if high == 8 { LabelsRow8(low); }
    else if high == 9 { LabelsRow9(low); }
    else if high == 10 { LabelsRowA(low); }
    else if high == 11 { LabelsRowB(low); }
    else if high == 12 { LabelsRowC(low); }
    else if high == 13 { LabelsRowD(low); }
    else if high == 14 { LabelsRowE(low); }
    else { LabelsRowF(low); }
  }

  lemma LabelsRow0(low: int)
    requires 0 <= low < 16
    ensures 0 + low in CaseLabels(0) <==> Decode(0 + low).Some?
  {}

  lemma LabelsRow1(low: int)
    requires 0 <= low < 16
    ensures 16 + low in CaseLabels(1) <==> Decode(16 + low).Some?
  {}

  lemma LabelsRow2(low: int)
    requires 0 <= low < 16
    ensures 32 + low in CaseLabels(2) <==> Decode(32 + low).Some?
  {}

  lemma LabelsRow3(low: int)
    requires 0 <= low < 16
    ensures 48 + low in CaseLabels(3) <==> Decode(48 + low).Some?
  {}

  lemma LabelsRow4(low: int)
    requires 0 <= low < 16
    ensures 64 + low in CaseLabels(4) <==> Decode(64 + low).Some?
  {}

  lemma LabelsRow5(low: int)
    requires 0 <= low < 16
    ensures 80 + low in CaseLabels(5) <==> Decode(80 + low).Some?
  {}

  lemma LabelsRow6(low: int)
    requires 0 <= low < 16
    ensures 96 + low in CaseLabels(6) <==> Decode(96 + low).Some?
  {}

  lemma LabelsRow7(low: int)
    requires 0 <= low < 16
    ensures 112 + low in CaseLabels(7) <==> Decode(112 + low).Some?
  {}

  lemma LabelsRow8(low: int)
    requires 0 <= low < 16
    ensures 128 + low in CaseLabels(8) <==> Decode(128 + low).Some?
  {}

  lemma LabelsRow9(low: int)
    requires 0 <= low < 16
    ensures 144 + low in CaseLabels(9) <==> Decode(144 + low).Some?
  {}

  lemma LabelsRowA(low: int)
    requires 0 <= low < 16
    ensures 160 + low in CaseLabels(10) <==> Decode(160 + low).Some?
  {}

  lemma LabelsRowB(low: int)
    requires 0 <= low < 16
    ensures 176 + low in CaseLabels(11) <==> Decode(176 + low).Some?
  {}

  lemma LabelsRowC(low: int)
    requires 0 <= low < 16
    ensures 192 + low in CaseLabels(12) <==> Decode(192 + low).Some?
  {}

  lemma LabelsRowD(low: int)
    requires 0 <= low < 16
    ensures 208 + low in CaseLabels(13) <==> Decode(208 + low).Some?
  {}

  lemma LabelsRowE(low: int)
    requires 0 <= low < 16
    ensures 224 + low in CaseLabels(14) <==> Decode(224 + low).Some?
  {}

  lemma LabelsRowF(low: int)
    requires 0 <= low < 16
    ensures 240 + low in CaseLabels(15) <==> Decode(240 + low).Some?
  {}

  lemma LegalOpcodes(opcode: byte)
    ensures Decode(opcode).Some? ==>
            opcode in {0x00, 0x01, 0x05, 0x06, 0x08, 0x09, 0x0A, 0x0D, 0x0E, 0x10, 0x11, 0x15, 0x16, 0x18, 0x19,
                       0x1D, 0x1E, 0x20, 0x21, 0x24, 0x25, 0x26, 0x28, 0x29, 0x2A, 0x2C, 0x2D, 0x2E, 0x30, 0x31,
                       0x35, 0x36, 0x38, 0x39, 0x3D, 0x3E, 0x40, 0x41, 0x45, 0x46, 0x48, 0x49, 0x4A, 0x4C, 0x4D,
                       0x4E, 0x50, 0x51, 0x55, 0x56, 0x58, 0x59, 0x5D, 0x5E, 0x60, 0x61, 0x65, 0x66, 0x68, 0x69,
                       0x6A, 0x6C, 0x6D, 0x6E, 0x70, 0x71, 0x75, 0x76, 0x78, 0x79, 0x7D, 0x7E, 0x81, 0x84, 0x85,
                       0x86, 0x88, 0x8A, 0x8C, 0x8D, 0x8E, 0x90, 0x91, 0x94, 0x95, 0x96, 0x98, 0x99, 0x9A, 0x9D,
                       0xA0, 0xA1, 0xA2, 0xA4, 0xA5, 0xA6, 0xA8, 0xA9, 0xAA, 0xAC, 0xAD, 0xAE, 0xB0, 0xB1, 0xB4,
                       0xB5, 0xB6, 0xB8, 0xB9, 0xBA, 0xBC, 0xBD, 0xBE, 0xC0, 0xC1, 0xC4, 0xC5, 0xC6, 0xC8, 0xC9,
                       0xCA, 0xCC, 0xCD, 0xCE, 0xD0, 0xD1, 0xD5, 0xD6, 0xD8, 0xD9, 0xDD, 0xDE, 0xE0, 0xE1, 0xE4,
                       0xE5, 0xE6, 0xE8, 0xE9, 0xEA, 0xEC, 0xED, 0xEE, 0xF0, 0xF1, 0xF5, 0xF6, 0xF8, 0xF9, 0xFD,
                       0xFE}
  {
    LabelsAreLegal(opcode);
    hide Decode;
  }
}
