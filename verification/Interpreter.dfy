/** kernel/cpu6502.c in its own form: registers, flags and trace arrays updated in place, and one flat switch over the
    opcodes. Every method is proved equal to the function on values that module Cpu gives for it. */
module Interpreter {
  import opened Wrappers
  import opened Bytes
  import opened Memory
  import opened Isa
  import opened Cpu
  import opened Decoding

  const NOT_CAPTURED: uint32 := 0xFFFF_FFFF

  /** The two ad hoc counters that a step keeps beside the machine. */
  class DebugCounters {
    var hitsAtE3E0: uint32
    var spAtA06E: uint32

    constructor ()
      ensures hitsAtE3E0 == 0 && spAtA06E == NOT_CAPTURED
    {
      hitsAtE3E0, spAtA06E := 0, NOT_CAPTURED;
    }

    /** Counts the steps at $E3E0, and keeps the stack pointer of the first at $A06E. */
    method Note(pc: word, sp: byte)
      modifies this
      ensures hitsAtE3E0 == (old(hitsAtE3E0) + (if pc == 0xE3E0 then 1 else 0)) % UINT32
      ensures spAtA06E == (if pc == 0xA06E && old(spAtA06E) == NOT_CAPTURED then sp else old(spAtA06E))
    {
      if pc == 0xE3E0 {
        hitsAtE3E0 := (hitsAtE3E0 + 1) % UINT32;
      }
      if pc == 0xA06E && spAtA06E == NOT_CAPTURED {
        spAtA06E := sp;
      }
    }
  }

  class Cpu6502 {
    const debug: DebugCounters
    var a: byte
    var x: byte
    var y: byte
    var sp: byte
    var pc: word
    var p: Flags
    var cycles: uint64
    var halted: bool
    const mem: C64Memory
    const tracePc: array<word>
    const traceOp: array<byte>
    var traceIdx: Slot

    constructor (m: C64Memory)
      requires m.Valid()
      ensures Valid() && mem == m && fresh(this) && fresh(debug) && fresh(tracePc) && fresh(traceOp)
      ensures traceIdx == 0 && tracePc[..] == seq(TRACE_LEN, _ => 0) && traceOp[..] == seq(TRACE_LEN, _ => 0)
    {
      a, x, y, sp, pc, cycles, halted := 0, 0, 0, 0, 0, 0, false;
      p := Flags(false, false, false, false, false, false, false, false);
      mem := m;
      debug := new DebugCounters();
      tracePc := new word[TRACE_LEN](_ => 0);
      traceOp := new byte[TRACE_LEN](_ => 0);
      traceIdx := 0;
    }

    ghost function Repr(): set<object> { {this, tracePc, traceOp} + mem.Repr() }

    ghost predicate Valid()
      reads Repr()
    {
      mem.Valid() && tracePc.Length == TRACE_LEN && traceOp.Length == TRACE_LEN &&
      (tracePc as object) != mem.ram && (tracePc as object) != mem.console.vga && (tracePc as object) != traceOp &&
      (traceOp as object) != mem.ram && (traceOp as object) != mem.console.vga
    }

    ghost function Abs(): State
      requires Valid()
      reads Repr()
    {
      State(a, x, y, sp, pc, p, cycles, halted, mem.Abs(), Ring(tracePc[..], traceOp[..], traceIdx))
    }

    // ----- Flags, fetches, the stack -----

    method SetZn(val: byte)
      requires Valid()
      modifies this`p
      ensures Valid() && Abs() == old(Abs()).(p := ZN(old(Abs()).p, val))
    {
      p := p.(z := val == 0);
      p := p.(n := val >= 0x80);
    }

    method AddCycles(n: nat)
      requires Valid()
      modifies Repr()
      ensures Valid() && Abs() == Tick(old(Abs()), n)
    {
      cycles := (cycles + n) % UINT64;
    }

    method ReadByte(addr: word) returns (v: byte)
      requires Valid()
      modifies Repr()
      ensures Valid() && (Abs(), v) == ReadFrom(old(Abs()), addr)
    {
      v := mem.Read(addr);
    }

    method Fetch8() returns (v: byte)
      requires Valid()
      modifies Repr()
      ensures Valid() && (Abs(), v) == Fetch(old(Abs()))
    {
      var addr := pc;
      pc := (pc + 1) % 65536;
      v := mem.Read(addr);
    }

    method Fetch16() returns (w: word)
      requires Valid()
      modifies Repr()
      ensures Valid() && (Abs(), w) == FetchWord(old(Abs()))
    {
      var lo := Fetch8();
      var hi := Fetch8();
      w := Word(lo, hi);
    }

    method Push8(val: byte)
      requires Valid()
      modifies Repr()
      ensures Valid() && Abs() == Push(old(Abs()), val)
    {
      mem.Write(0x0100 + sp, val);
      sp := (sp - 1) % 256;
    }

    method Pop8() returns (v: byte)
      requires Valid()
      modifies Repr()
      ensures Valid() && (Abs(), v) == Pop(old(Abs()))
    {
      sp := (sp + 1) % 256;
      v := mem.Read(0x0100 + sp);
    }

    // ----- Addressing modes: the effective address -----

    method AddrZp() returns (addr: word)
      requires Valid()
      modifies Repr()
      ensures Valid() && (Abs(), addr) == Effective(ZeroPage, old(Abs()))
    {
      addr := Fetch8();
    }

    method AddrZpX() returns (addr: word)
      requires Valid()
      modifies Repr()
      ensures Valid() && (Abs(), addr) == Effective(ZeroPageX, old(Abs()))
    {
      hide AddrInd, AddrIndX, AddrIndY, ReadValue, AfterRead;
      var zp := Fetch8();
      addr := (zp + x) % 256;
    }

    method AddrZpY() returns (addr: word)
      requires Valid()
      modifies Repr()
      ensures Valid() && (Abs(), addr) == Effective(ZeroPageY, old(Abs()))
    {
      hide AddrInd, AddrIndX, AddrIndY, ReadValue, AfterRead;
      var zp := Fetch8();
      addr := (zp + y) % 256;
    }

    method AddrAbs() returns (addr: word)
      requires Valid()
      modifies Repr()
      ensures Valid() && (Abs(), addr) == Effective(Absolute, old(Abs()))
    {
      addr := Fetch16();
    }

    method AddrAbsX() returns (addr: word)
      requires Valid()
      modifies Repr()
      ensures Valid() && (Abs(), addr) == Effective(AbsoluteX, old(Abs()))
    {
      hide AddrInd, AddrIndX, AddrIndY, ReadValue, AfterRead;
      var w := Fetch16();
      addr := (w + x) % 65536;
    }

    method AddrAbsY() returns (addr: word)
      requires Valid()
      modifies Repr()
      ensures Valid() && (Abs(), addr) == Effective(AbsoluteY, old(Abs()))
    {
      hide AddrInd, AddrIndX, AddrIndY, ReadValue, AfterRead;
      var w := Fetch16();
      addr := (w + y) % 65536;
    }

    method ReadPointer(lo: word, hi: word) returns (w: word)
      requires Valid()
      modifies Repr()
      ensures Valid() && (Abs(), w) == ReadWord(old(Abs()), lo, hi)
    {
      var l := ReadByte(lo);
      var h := ReadByte(hi);
      w := Word(l, h);
    }

    method AddrIndirectX() returns (addr: word)
      requires Valid()
      modifies Repr()
      ensures Valid() && (Abs(), addr) == Effective(IndirectX, old(Abs()))
    {
      IndirectModes(Abs());
      hide Effective, AddrInd, AddrIndY, ReadValue, AfterRead;
      var b := Fetch8();
      var zp := (b + x) % 256;
      addr := ReadPointer(zp, (zp + 1) % 256);
    }

    method AddrIndirectY() returns (addr: word)
      requires Valid()
      modifies Repr()
      ensures Valid() && (Abs(), addr) == Effective(IndirectY, old(Abs()))
    {
      IndirectModes(Abs());
      hide Effective, AddrInd, AddrIndX, ReadValue, AfterRead;
      var b := Fetch8();
      var zp: word := b;
      var base := ReadPointer(zp, (zp + 1) % 256);
      addr := (base + y) % 65536;
    }

    // ----- The phrases the cases share -----

    lemma Fields()
      requires Valid()
      ensures Abs().a == a && Abs().x == x && Abs().y == y && Abs().sp == sp && Abs().p == p
    {}

    method LoadA(v: byte)
      requires Valid()
      modifies Repr()
      ensures Valid() && Abs() == LoadReg(old(Abs()), A, v) == Alu(Load(A), old(Abs()), v)
    {
      a := v;
      SetZn(a);
    }

    method LoadX(v: byte)
      requires Valid()
      modifies Repr()
      ensures Valid() && Abs() == LoadReg(old(Abs()), X, v) == Alu(Load(X), old(Abs()), v)
    {
      x := v;
      SetZn(x);
    }

    method LoadY(v: byte)
      requires Valid()
      modifies Repr()
      ensures Valid() && Abs() == LoadReg(old(Abs()), Y, v) == Alu(Load(Y), old(Abs()), v)
    {
      y := v;
      SetZn(y);
    }

    method StoreA(addr: word)
      requires Valid()
      modifies Repr()
      ensures Valid() && Abs() == WriteTo(old(Abs()), addr, Get(old(Abs()), A))
    {
      mem.Write(addr, a);
    }

    method StoreX(addr: word)
      requires Valid()
      modifies Repr()
      ensures Valid() && Abs() == WriteTo(old(Abs()), addr, Get(old(Abs()), X))
    {
      mem.Write(addr, x);
    }

    method StoreY(addr: word)
      requires Valid()
      modifies Repr()
      ensures Valid() && Abs() == WriteTo(old(Abs()), addr, Get(old(Abs()), Y))
    {
      mem.Write(addr, y);
    }

    /** The source's exclusive-or test on bit 7 is signed overflow. */
    method SignsClash(a: byte, val: byte, result: int) returns (clash: bool)
      requires a + val <= result <= a + val + 1
      ensures clash == Overflows(a, val, result > a + val)
    {
      SignBit(a);
      SignBit(val);
      SignBit(result);
      var x, v, r := a as bv16, val as bv16, result as bv16;
      XorOfSigns(x, v, r);
      clash := ((x ^ r) & (v ^ r) & 0x80) != 0;
    }

    method DoAdc(val: byte)
      requires Valid()
      modifies Repr()
      ensures Valid() && Abs() == Alu(Adc, old(Abs()), val)
    {
      AdditionOps(Abs(), val);
      hide Overflows, Alu;
      var carry := if p.c then 1 else 0;
      var result := a + val + carry;
      p := p.(c := result > 0xFF);
      var overflow := SignsClash(a, val, result);
      p := p.(v := overflow);
      a := result % 256;
      SetZn(a);
    }

    method DoSbc(val: byte)
      requires Valid()
      modifies Repr()
      ensures Valid() && Abs() == Alu(Sbc, old(Abs()), val)
    {
      AdditionOps(Abs(), val);
      AdditionOps(Abs(), 255 - val);
      hide *;
      DoAdc(255 - val);
    }

    method AndWith(val: byte)
      requires Valid()
      modifies Repr()
      ensures Valid() && Abs() == Alu(AndA, old(Abs()), val)
    {
      a := And(a, val);
      SetZn(a);
    }

    method OraWith(val: byte)
      requires Valid()
      modifies Repr()
      ensures Valid() && Abs() == Alu(OrA, old(Abs()), val)
    {
      a := Or(a, val);
      SetZn(a);
    }

    method EorWith(val: byte)
      requires Valid()
      modifies Repr()
      ensures Valid() && Abs() == Alu(EorA, old(Abs()), val)
    {
      a := Xor(a, val);
      SetZn(a);
    }

    method CompareReg(r: Reg, val: byte)
      requires Valid()
      modifies Repr()
      ensures Valid() && Abs() == Alu(Compare(r), old(Abs()), val)
    {
      var reg := match r case A => a case X => x case Y => y case SP => sp;
      p := p.(c := reg >= val);
      SetZn((reg - val) % 256);
    }

    method DoBit(val: byte)
      requires Valid()
      modifies Repr()
      ensures Valid() && Abs() == Alu(BitTest, old(Abs()), val)
    {
      p := p.(z := And(a, val) == 0);
      p := p.(v := val / 64 % 2 == 1);
      p := p.(n := val >= 0x80);
    }

    method DoAsl(val: byte) returns (r: byte)
      requires Valid()
      modifies Repr()
      ensures Valid() && Abs() == old(Abs()).(p := RmwFlags(Asl, old(p), val))
      ensures r == RmwResult(Asl, old(p.c), val)
    {
      p := p.(c := val >= 0x80);
      r := 2 * val % 256;
      SetZn(r);
    }

    method DoLsr(val: byte) returns (r: byte)
      requires Valid()
      modifies Repr()
      ensures Valid() && Abs() == old(Abs()).(p := RmwFlags(Lsr, old(p), val))
      ensures r == RmwResult(Lsr, old(p.c), val)
    {
      p := p.(c := val % 2 == 1);
      r := val / 2;
      SetZn(r);
    }

    method DoRol(val: byte) returns (r: byte)
      requires Valid()
      modifies Repr()
      ensures Valid() && Abs() == old(Abs()).(p := RmwFlags(Rol, old(p), val))
      ensures r == RmwResult(Rol, old(p.c), val)
    {
      var carryIn := if p.c then 1 else 0;
      p := p.(c := val >= 0x80);
      r := 2 * val % 256 + carryIn;
      SetZn(r);
    }

    method DoRor(val: byte) returns (r: byte)
      requires Valid()
      modifies Repr()
      ensures Valid() && Abs() == old(Abs()).(p := RmwFlags(Ror, old(p), val))
      ensures r == RmwResult(Ror, old(p.c), val)
    {
      var carryIn := if p.c then 0x80 else 0;
      p := p.(c := val % 2 == 1);
      r := val / 2 + carryIn;
      SetZn(r);
    }

    method AslA()
      requires Valid()
      modifies Repr()
      ensures Valid() && Abs() == ModifyA(Asl, old(Abs()))
    {
      a := DoAsl(a);
    }

    method LsrA()
      requires Valid()
      modifies Repr()
      ensures Valid() && Abs() == ModifyA(Lsr, old(Abs()))
    {
      a := DoLsr(a);
    }

    method RolA()
      requires Valid()
      modifies Repr()
      ensures Valid() && Abs() == ModifyA(Rol, old(Abs()))
    {
      a := DoRol(a);
    }

    method RorA()
      requires Valid()
      modifies Repr()
      ensures Valid() && Abs() == ModifyA(Ror, old(Abs()))
    {
      a := DoRor(a);
    }

    method AslMemory(addr: word)
      requires Valid()
      modifies Repr()
      ensures Valid() && Abs() == Modify(Asl, old(Abs()), addr)
    {
      var v := mem.Read(addr);
      var r := DoAsl(v);
      mem.Write(addr, r);
    }

    method LsrMemory(addr: word)
      requires Valid()
      modifies Repr()
      ensures Valid() && Abs() == Modify(Lsr, old(Abs()), addr)
    {
      var v := mem.Read(addr);
      var r := DoLsr(v);
      mem.Write(addr, r);
    }

    method RolMemory(addr: word)
      requires Valid()
      modifies Repr()
      ensures Valid() && Abs() == Modify(Rol, old(Abs()), addr)
    {
      var v := mem.Read(addr);
      var r := DoRol(v);
      mem.Write(addr, r);
    }

    method RorMemory(addr: word)
      requires Valid()
      modifies Repr()
      ensures Valid() && Abs() == Modify(Ror, old(Abs()), addr)
    {
      var v := mem.Read(addr);
      var r := DoRor(v);
      mem.Write(addr, r);
    }

    method PutByte(addr: word, v: byte)
      requires Valid()
      modifies Repr()
      ensures Valid() && Abs() == WriteTo(old(Abs()), addr, v)
    {
      mem.Write(addr, v);
    }

    method IncMemory(addr: word)
      requires Valid()
      modifies Repr()
      ensures Valid() && Abs() == Modify(Inc, old(Abs()), addr)
    {
      hide Abs, Valid, AfterRead, ReadValue, WriteByte;
      var before: int := ReadByte(addr);
      var v: byte := (before + 1) % 256;
      PutByte(addr, v);
      SetZn(v);
    }

    method DecMemory(addr: word)
      requires Valid()
      modifies Repr()
      ensures Valid() && Abs() == Modify(Dec, old(Abs()), addr)
    {
      hide Abs, Valid, AfterRead, ReadValue, WriteByte;
      var before: int := ReadByte(addr);
      var v: byte := (before - 1) % 256;
      PutByte(addr, v);
      SetZn(v);
    }

    method StackPointerFromX()
      requires Valid()
      modifies Repr()
      ensures Valid() && Abs() == old(Abs()).(sp := old(Abs()).x)
    {
      sp := x;
    }

    method ChangeFlag(f: FlagName, on: bool)
      requires Valid()
      modifies Repr()
      ensures Valid() && Abs() == old(Abs()).(p := PutFlag(old(Abs()).p, f, on))
    {
      match f
      case C => p := p.(c := on);
      case Z => p := p.(z := on);
      case I => p := p.(i := on);
      case D => p := p.(d := on);
      case V => p := p.(v := on);
      case N => p := p.(n := on);
    }

    method Halt()
      requires Valid()
      modifies Repr()
      ensures Valid() && Abs() == old(Abs()).(halted := true)
    {
      halted := true;
    }

    method PushA()
      requires Valid()
      modifies Repr()
      ensures Valid() && Abs() == Push(old(Abs()), old(Abs()).a)
    {
      Push8(a);
    }

    method PushStatus()
      requires Valid()
      modifies Repr()
      ensures Valid() && Abs() == ExecPhp(old(Abs()))
    {
      Push8(ToByte(p.(b := true, u := true)));
    }

    method PullStatus()
      requires Valid()
      modifies Repr()
      ensures Valid() && Abs() == ExecPlp(old(Abs()))
    {
      var v := Pop8();
      p := FromByte(v).(b := false, u := true);
    }

    method DoBranch(taken: bool)
      requires Valid()
      modifies Repr()
      ensures Valid() && Abs() == Tick(ExecBranch(taken, old(Abs())), if taken then 3 else 2)
    {
      var off := Fetch8();
      AddCycles(2);
      if taken {
        pc := (pc + Signed(off)) % 65536;
        AddCycles(1);
      }
    }

    method JumpAbsolute()
      requires Valid()
      modifies Repr()
      ensures Valid() && Abs() == Tick(ExecJmp(Absolute, old(Abs())), 3)
    {
      pc := AddrAbs();
      AddCycles(3);
    }

    method JumpIndirect()
      requires Valid()
      modifies Repr()
      ensures Valid() && Abs() == Tick(ExecJmp(Indirect, old(Abs())), 5)
    {
      var ptr: int := Fetch16();
      pc := ReadPointer(ptr, (ptr + 1) % 65536);
      AddCycles(5);
    }

    method CallSubroutine()
      requires Valid()
      modifies Repr()
      ensures Valid() && Abs() == Tick(ExecJsr(old(Abs())), 6)
    {
      var addr := Fetch16();
      var ret := (pc - 1) % 65536;
      Push8(Hi(ret));
      Push8(Lo(ret));
      pc := addr;
      AddCycles(6);
    }

    method PopAddress() returns (w: word)
      requires Valid()
      modifies Repr()
      ensures Valid() && (Abs(), w) == PopWord(old(Abs()))
    {
      var lo := Pop8();
      var hi := Pop8();
      w := Word(lo, hi);
    }

    method ReturnFromSubroutine()
      requires Valid()
      modifies Repr()
      ensures Valid() && Abs() == Tick(ExecRts(old(Abs())), 6)
    {
      var ret: int := PopAddress();
      pc := (ret + 1) % 65536;
      AddCycles(6);
    }

    method ReturnFromInterrupt()
      requires Valid()
      modifies Repr()
      ensures Valid() && Abs() == Tick(ExecRti(old(Abs())), 6)
    {
      PullStatus();
      pc := PopAddress();
      AddCycles(6);
    }

    // ----- The flat switch, section by section -----

    /** LDA. */
    method CaseLda(opcode: byte) returns (ghost i: Instruction)
      requires Valid() && opcode in {0xA9, 0xA5, 0xB5, 0xAD, 0xBD, 0xB9, 0xA1, 0xB1}
      modifies Repr()
      ensures Valid() && Decode(opcode) == Some(i) && Abs() == Execute(i, old(Abs()))
    {
      hide *;
      LdaTable();
      ReadCycleCounts();
      AluExecutes(Load(A), Abs());
      match opcode
      case 0xA9 =>
        i := Instruction(Load(A), Immediate); var v := Fetch8(); LoadA(v); AddCycles(2);
      case 0xA5 =>
        i := Instruction(Load(A), ZeroPage); var t := AddrZp(); var v := ReadByte(t); LoadA(v); AddCycles(3);
      case 0xB5 =>
        i := Instruction(Load(A), ZeroPageX); var t := AddrZpX(); var v := ReadByte(t); LoadA(v); AddCycles(4);
      case 0xAD =>
        i := Instruction(Load(A), Absolute); var t := AddrAbs(); var v := ReadByte(t); LoadA(v); AddCycles(4);
      case 0xBD =>
        i := Instruction(Load(A), AbsoluteX); var t := AddrAbsX(); var v := ReadByte(t); LoadA(v); AddCycles(4);
      case 0xB9 =>
        i := Instruction(Load(A), AbsoluteY); var t := AddrAbsY(); var v := ReadByte(t); LoadA(v); AddCycles(4);
      case 0xA1 =>
        i := Instruction(Load(A), IndirectX); var t := AddrIndirectX(); var v := ReadByte(t); LoadA(v); AddCycles(6);
      case 0xB1 =>
        i := Instruction(Load(A), IndirectY); var t := AddrIndirectY(); var v := ReadByte(t); LoadA(v); AddCycles(5);
    }

    /** STA. */
    method CaseSta(opcode: byte) returns (ghost i: Instruction)
      requires Valid() && opcode in {0x85, 0x95, 0x8D, 0x9D, 0x99, 0x81, 0x91}
      modifies Repr()
      ensures Valid() && Decode(opcode) == Some(i) && Abs() == Execute(i, old(Abs()))
    {
      hide *;
      StaTable();
      StoreCycleCounts();
      StoreExecutes(A, Abs());
      match opcode
      case 0x85 => i := Instruction(Store(A), ZeroPage); var t := AddrZp(); StoreA(t); AddCycles(3);
      case 0x95 => i := Instruction(Store(A), ZeroPageX); var t := AddrZpX(); StoreA(t); AddCycles(4);
      case 0x8D => i := Instruction(Store(A), Absolute); var t := AddrAbs(); StoreA(t); AddCycles(4);
      case 0x9D => i := Instruction(Store(A), AbsoluteX); var t := AddrAbsX(); StoreA(t); AddCycles(5);
      case 0x99 => i := Instruction(Store(A), AbsoluteY); var t := AddrAbsY(); StoreA(t); AddCycles(5);
      case 0x81 => i := Instruction(Store(A), IndirectX); var t := AddrIndirectX(); StoreA(t); AddCycles(6);
      case 0x91 => i := Instruction(Store(A), IndirectY); var t := AddrIndirectY(); StoreA(t); AddCycles(6);
    }

    /** LDX. */
    method CaseLdx(opcode: byte) returns (ghost i: Instruction)
      requires Valid() && opcode in {0xA2, 0xA6, 0xB6, 0xAE, 0xBE}
      modifies Repr()
      ensures Valid() && Decode(opcode) == Some(i) && Abs() == Execute(i, old(Abs()))
    {
      hide *;
      LdxTable();
      ReadCycleCounts();
      AluExecutes(Load(X), Abs());
      match opcode
      case 0xA2 =>
        i := Instruction(Load(X), Immediate); var v := Fetch8(); LoadX(v); AddCycles(2);
      case 0xA6 =>
        i := Instruction(Load(X), ZeroPage); var t := AddrZp(); var v := ReadByte(t); LoadX(v); AddCycles(3);
      case 0xB6 =>
        i := Instruction(Load(X), ZeroPageY); var t := AddrZpY(); var v := ReadByte(t); LoadX(v); AddCycles(4);
      case 0xAE =>
        i := Instruction(Load(X), Absolute); var t := AddrAbs(); var v := ReadByte(t); LoadX(v); AddCycles(4);
      case 0xBE =>
        i := Instruction(Load(X), AbsoluteY); var t := AddrAbsY(); var v := ReadByte(t); LoadX(v); AddCycles(4);
    }

    /** STX. */
    method CaseStx(opcode: byte) returns (ghost i: Instruction)
      requires Valid() && opcode in {0x86, 0x96, 0x8E}
      modifies Repr()
      ensures Valid() && Decode(opcode) == Some(i) && Abs() == Execute(i, old(Abs()))
    {
      hide *;
      StxTable();
      StoreCycleCounts();
      StoreExecutes(X, Abs());
      match opcode
      case 0x86 => i := Instruction(Store(X), ZeroPage); var t := AddrZp(); StoreX(t); AddCycles(3);
      case 0x96 => i := Instruction(Store(X), ZeroPageY); var t := AddrZpY(); StoreX(t); AddCycles(4);
      case 0x8E => i := Instruction(Store(X), Absolute); var t := AddrAbs(); StoreX(t); AddCycles(4);
    }

    /** LDY. */
    method CaseLdy(opcode: byte) returns (ghost i: Instruction)
      requires Valid() && opcode in {0xA0, 0xA4, 0xB4, 0xAC, 0xBC}
      modifies Repr()
      ensures Valid() && Decode(opcode) == Some(i) && Abs() == Execute(i, old(Abs()))
    {
      hide *;
      LdyTable();
      ReadCycleCounts();
      AluExecutes(Load(Y), Abs());
      match opcode
      case 0xA0 =>
        i := Instruction(Load(Y), Immediate); var v := Fetch8(); LoadY(v); AddCycles(2);
      case 0xA4 =>
        i := Instruction(Load(Y), ZeroPage); var t := AddrZp(); var v := ReadByte(t); LoadY(v); AddCycles(3);
      case 0xB4 =>
        i := Instruction(Load(Y), ZeroPageX); var t := AddrZpX(); var v := ReadByte(t); LoadY(v); AddCycles(4);
      case 0xAC =>
        i := Instruction(Load(Y), Absolute); var t := AddrAbs(); var v := ReadByte(t); LoadY(v); AddCycles(4);
      case 0xBC =>
        i := Instruction(Load(Y), AbsoluteX); var t := AddrAbsX(); var v := ReadByte(t); LoadY(v); AddCycles(4);
    }

    /** STY. */
    method CaseSty(opcode: byte) returns (ghost i: Instruction)
      requires Valid() && opcode in {0x84, 0x94, 0x8C}
      modifies Repr()
      ensures Valid() && Decode(opcode) == Some(i) && Abs() == Execute(i, old(Abs()))
    {
      hide *;
      StyTable();
      StoreCycleCounts();
      StoreExecutes(Y, Abs());
      match opcode
      case 0x84 => i := Instruction(Store(Y), ZeroPage); var t := AddrZp(); StoreY(t); AddCycles(3);
      case 0x94 => i := Instruction(Store(Y), ZeroPageX); var t := AddrZpX(); StoreY(t); AddCycles(4);
      case 0x8C => i := Instruction(Store(Y), Absolute); var t := AddrAbs(); StoreY(t); AddCycles(4);
    }

    /** TAX, TXA, TAY, TYA, TXS (which sets no flags), TSX. */
    method CaseTransfer(opcode: byte) returns (ghost i: Instruction)
      requires Valid() && opcode in {0xAA, 0x8A, 0xA8, 0x98, 0x9A, 0xBA}
      modifies Repr()
      ensures Valid() && Decode(opcode) == Some(i) && Abs() == Execute(i, old(Abs()))
    {
      hide *;
      TransferTable();
      TransferFromA(Abs());
      TransferToA(Abs());
      TransferStackPointer(Abs());
      Fields();
      match opcode
      case 0xAA => i := Instruction(Transfer(A, X), Implied); LoadX(a); AddCycles(2);
      case 0x8A => i := Instruction(Transfer(X, A), Implied); LoadA(x); AddCycles(2);
      case 0xA8 => i := Instruction(Transfer(A, Y), Implied); LoadY(a); AddCycles(2);
      case 0x98 => i := Instruction(Transfer(Y, A), Implied); LoadA(y); AddCycles(2);
      case 0x9A => i := Instruction(Transfer(X, SP), Implied); StackPointerFromX(); AddCycles(2);
      case 0xBA => i := Instruction(Transfer(SP, X), Implied); LoadX(sp); AddCycles(2);
    }

    /** PHA, PLA, PHP, PLP. */
    method CaseStack(opcode: byte) returns (ghost i: Instruction)
      requires Valid() && opcode in {0x48, 0x68, 0x08, 0x28}
      modifies Repr()
      ensures Valid() && Decode(opcode) == Some(i) && Abs() == Execute(i, old(Abs()))
    {
      hide *;
      StackTable();
      PushExecutes(Abs());
      PullExecutes(Abs());
      match opcode
      case 0x48 => i := Instruction(Pha, Implied); PushA(); AddCycles(3);
      case 0x68 => i := Instruction(Pla, Implied); var v := Pop8(); LoadA(v); AddCycles(4);
      case 0x08 => i := Instruction(Php, Implied); PushStatus(); AddCycles(3);
      case 0x28 => i := Instruction(Plp, Implied); PullStatus(); AddCycles(4);
    }

    /** SEI, CLI, SED, CLD, SEC, CLC, CLV. */
    method CaseFlag(opcode: byte) returns (ghost i: Instruction)
      requires Valid() && opcode in {0x78, 0x58, 0xF8, 0xD8, 0x38, 0x18, 0xB8}
      modifies Repr()
      ensures Valid() && Decode(opcode) == Some(i) && Abs() == Execute(i, old(Abs()))
    {
      hide *;
      FlagTable();
      FlagExecutes(Abs());
      match opcode
      case 0x78 => i := Instruction(SetFlag(I, true), Implied); ChangeFlag(I, true); AddCycles(2);
      case 0x58 => i := Instruction(SetFlag(I, false), Implied); ChangeFlag(I, false); AddCycles(2);
      case 0xF8 => i := Instruction(SetFlag(D, true), Implied); ChangeFlag(D, true); AddCycles(2);
      case 0xD8 => i := Instruction(SetFlag(D, false), Implied); ChangeFlag(D, false); AddCycles(2);
      case 0x38 => i := Instruction(SetFlag(C, true), Implied); ChangeFlag(C, true); AddCycles(2);
      case 0x18 => i := Instruction(SetFlag(C, false), Implied); ChangeFlag(C, false); AddCycles(2);
      case 0xB8 => i := Instruction(SetFlag(V, false), Implied); ChangeFlag(V, false); AddCycles(2);
    }

    /** INX, INY, DEX, DEY. */
    method CaseIncDec(opcode: byte) returns (ghost i: Instruction)
      requires Valid() && opcode in {0xE8, 0xC8, 0xCA, 0x88}
      modifies Repr()
      ensures Valid() && Decode(opcode) == Some(i) && Abs() == Execute(i, old(Abs()))
    {
      hide *;
      IncDecTable();
      IncDecExecutes(Abs());
      Fields();
      match opcode
      case 0xE8 => i := Instruction(IncReg(X), Implied); LoadX((x + 1) % 256); AddCycles(2);
      case 0xC8 => i := Instruction(IncReg(Y), Implied); LoadY((y + 1) % 256); AddCycles(2);
      case 0xCA => i := Instruction(DecReg(X), Implied); LoadX((x - 1) % 256); AddCycles(2);
      case 0x88 => i := Instruction(DecReg(Y), Implied); LoadY((y - 1) % 256); AddCycles(2);
    }

    /** INC and DEC. */
    method CaseIncDecMemory(opcode: byte) returns (ghost i: Instruction)
      requires Valid() && opcode in {0xE6, 0xF6, 0xEE, 0xFE, 0xC6, 0xD6, 0xCE, 0xDE}
      modifies Repr()
      ensures Valid() && Decode(opcode) == Some(i) && Abs() == Execute(i, old(Abs()))
    {
      hide *;
      IncDecMemoryTable();
      RmwCycleCounts();
      RmwExecutes(Inc, Abs());
      RmwExecutes(Dec, Abs());
      match opcode
      case 0xE6 => i := Instruction(Inc, ZeroPage); var t := AddrZp(); IncMemory(t); AddCycles(5);
      case 0xF6 => i := Instruction(Inc, ZeroPageX); var t := AddrZpX(); IncMemory(t); AddCycles(6);
      case 0xEE => i := Instruction(Inc, Absolute); var t := AddrAbs(); IncMemory(t); AddCycles(6);
      case 0xFE => i := Instruction(Inc, AbsoluteX); var t := AddrAbsX(); IncMemory(t); AddCycles(7);
      case 0xC6 => i := Instruction(Dec, ZeroPage); var t := AddrZp(); DecMemory(t); AddCycles(5);
      case 0xD6 => i := Instruction(Dec, ZeroPageX); var t := AddrZpX(); DecMemory(t); AddCycles(6);
      case 0xCE => i := Instruction(Dec, Absolute); var t := AddrAbs(); DecMemory(t); AddCycles(6);
      case 0xDE => i := Instruction(Dec, AbsoluteX); var t := AddrAbsX(); DecMemory(t); AddCycles(7);
    }

    /** CPX and CPY. */
    method CaseCompareRegister(opcode: byte) returns (ghost i: Instruction)
      requires Valid() && opcode in {0xE0, 0xE4, 0xEC, 0xC0, 0xC4, 0xCC}
      modifies Repr()
      ensures Valid() && Decode(opcode) == Some(i) && Abs() == Execute(i, old(Abs()))
    {
      hide *;
      CompareRegisterTable();
      ReadCycleCounts();
      AluExecutes(Compare(X), Abs());
      AluExecutes(Compare(Y), Abs());
      match opcode
      case 0xE0 =>
        i := Instruction(Compare(X), Immediate);
        var v := Fetch8(); CompareReg(X, v); AddCycles(2);
      case 0xE4 =>
        i := Instruction(Compare(X), ZeroPage);
        var t := AddrZp(); var v := ReadByte(t); CompareReg(X, v); AddCycles(3);
      case 0xEC =>
        i := Instruction(Compare(X), Absolute);
        var t := AddrAbs(); var v := ReadByte(t); CompareReg(X, v); AddCycles(4);
      case 0xC0 =>
        i := Instruction(Compare(Y), Immediate);
        var v := Fetch8(); CompareReg(Y, v); AddCycles(2);
      case 0xC4 =>
        i := Instruction(Compare(Y), ZeroPage);
        var t := AddrZp(); var v := ReadByte(t); CompareReg(Y, v); AddCycles(3);
      case 0xCC =>
        i := Instruction(Compare(Y), Absolute);
        var t := AddrAbs(); var v := ReadByte(t); CompareReg(Y, v); AddCycles(4);
    }

    /** CMP. */
    method CaseCompareA(opcode: byte) returns (ghost i: Instruction)
      requires Valid() && opcode in {0xC9, 0xC5, 0xCD, 0xD5, 0xDD, 0xD9, 0xC1, 0xD1}
      modifies Repr()
      ensures Valid() && Decode(opcode) == Some(i) && Abs() == Execute(i, old(Abs()))
    {
      hide *;
      CompareATable();
      ReadCycleCounts();
      AluExecutes(Compare(A), Abs());
      match opcode
      case 0xC9 =>
        i := Instruction(Compare(A), Immediate);
        var v := Fetch8(); CompareReg(A, v); AddCycles(2);
      case 0xC5 =>
        i := Instruction(Compare(A), ZeroPage);
        var t := AddrZp(); var v := ReadByte(t); CompareReg(A, v); AddCycles(3);
      case 0xCD =>
        i := Instruction(Compare(A), Absolute);
        var t := AddrAbs(); var v := ReadByte(t); CompareReg(A, v); AddCycles(4);
      case 0xD5 =>
        i := Instruction(Compare(A), ZeroPageX);
        var t := AddrZpX(); var v := ReadByte(t); CompareReg(A, v); AddCycles(4);
      case 0xDD =>
        i := Instruction(Compare(A), AbsoluteX);
        var t := AddrAbsX(); var v := ReadByte(t); CompareReg(A, v); AddCycles(4);
      case 0xD9 =>
        i := Instruction(Compare(A), AbsoluteY);
        var t := AddrAbsY(); var v := ReadByte(t); CompareReg(A, v); AddCycles(4);
      case 0xC1 =>
        i := Instruction(Compare(A), IndirectX);
        var t := AddrIndirectX(); var v := ReadByte(t); CompareReg(A, v); AddCycles(6);
      case 0xD1 =>
        i := Instruction(Compare(A), IndirectY);
        var t := AddrIndirectY(); var v := ReadByte(t); CompareReg(A, v); AddCycles(5);
    }

    /** AND. */
    method CaseAnd(opcode: byte) returns (ghost i: Instruction)
      requires Valid() && opcode in {0x35, 0x3D, 0x39, 0x21, 0x31, 0x29, 0x25, 0x2D}
      modifies Repr()
      ensures Valid() && Decode(opcode) == Some(i) && Abs() == Execute(i, old(Abs()))
    {
      hide *;
      AndTable();
      ReadCycleCounts();
      AluExecutes(AndA, Abs());
      match opcode
      case 0x35 =>
        i := Instruction(AndA, ZeroPageX); var t := AddrZpX(); var v := ReadByte(t); AndWith(v); AddCycles(4);
      case 0x3D =>
        i := Instruction(AndA, AbsoluteX); var t := AddrAbsX(); var v := ReadByte(t); AndWith(v); AddCycles(4);
      case 0x39 =>
        i := Instruction(AndA, AbsoluteY); var t := AddrAbsY(); var v := ReadByte(t); AndWith(v); AddCycles(4);
      case 0x21 =>
        i := Instruction(AndA, IndirectX); var t := AddrIndirectX(); var v := ReadByte(t); AndWith(v); AddCycles(6);
      case 0x31 =>
        i := Instruction(AndA, IndirectY); var t := AddrIndirectY(); var v := ReadByte(t); AndWith(v); AddCycles(5);
      case 0x29 =>
        i := Instruction(AndA, Immediate); var v := Fetch8(); AndWith(v); AddCycles(2);
      case 0x25 =>
        i := Instruction(AndA, ZeroPage); var t := AddrZp(); var v := ReadByte(t); AndWith(v); AddCycles(3);
      case 0x2D =>
        i := Instruction(AndA, Absolute); var t := AddrAbs(); var v := ReadByte(t); AndWith(v); AddCycles(4);
    }

    /** ORA. */
    method CaseOra(opcode: byte) returns (ghost i: Instruction)
      requires Valid() && opcode in {0x15, 0x1D, 0x19, 0x01, 0x11, 0x09, 0x05, 0x0D}
      modifies Repr()
      ensures Valid() && Decode(opcode) == Some(i) && Abs() == Execute(i, old(Abs()))
    {
      hide *;
      OraTable();
      ReadCycleCounts();
      AluExecutes(OrA, Abs());
      match opcode
      case 0x15 =>
        i := Instruction(OrA, ZeroPageX); var t := AddrZpX(); var v := ReadByte(t); OraWith(v); AddCycles(4);
      case 0x1D =>
        i := Instruction(OrA, AbsoluteX); var t := AddrAbsX(); var v := ReadByte(t); OraWith(v); AddCycles(4);
      case 0x19 =>
        i := Instruction(OrA, AbsoluteY); var t := AddrAbsY(); var v := ReadByte(t); OraWith(v); AddCycles(4);
      case 0x01 =>
        i := Instruction(OrA, IndirectX); var t := AddrIndirectX(); var v := ReadByte(t); OraWith(v); AddCycles(6);
      case 0x11 =>
        i := Instruction(OrA, IndirectY); var t := AddrIndirectY(); var v := ReadByte(t); OraWith(v); AddCycles(5);
      case 0x09 =>
        i := Instruction(OrA, Immediate); var v := Fetch8(); OraWith(v); AddCycles(2);
      case 0x05 =>
        i := Instruction(OrA, ZeroPage); var t := AddrZp(); var v := ReadByte(t); OraWith(v); AddCycles(3);
      case 0x0D =>
        i := Instruction(OrA, Absolute); var t := AddrAbs(); var v := ReadByte(t); OraWith(v); AddCycles(4);
    }

    /** EOR. */
    method CaseEor(opcode: byte) returns (ghost i: Instruction)
      requires Valid() && opcode in {0x55, 0x5D, 0x59, 0x41, 0x51, 0x49, 0x45, 0x4D}
      modifies Repr()
      ensures Valid() && Decode(opcode) == Some(i) && Abs() == Execute(i, old(Abs()))
    {
      hide *;
      EorTable();
      ReadCycleCounts();
      AluExecutes(EorA, Abs());
      match opcode
      case 0x55 =>
        i := Instruction(EorA, ZeroPageX); var t := AddrZpX(); var v := ReadByte(t); EorWith(v); AddCycles(4);
      case 0x5D =>
        i := Instruction(EorA, AbsoluteX); var t := AddrAbsX(); var v := ReadByte(t); EorWith(v); AddCycles(4);
      case 0x59 =>
        i := Instruction(EorA, AbsoluteY); var t := AddrAbsY(); var v := ReadByte(t); EorWith(v); AddCycles(4);
      case 0x41 =>
        i := Instruction(EorA, IndirectX); var t := AddrIndirectX(); var v := ReadByte(t); EorWith(v); AddCycles(6);
      case 0x51 =>
        i := Instruction(EorA, IndirectY); var t := AddrIndirectY(); var v := ReadByte(t); EorWith(v); AddCycles(5);
      case 0x49 =>
        i := Instruction(EorA, Immediate); var v := Fetch8(); EorWith(v); AddCycles(2);
      case 0x45 =>
        i := Instruction(EorA, ZeroPage); var t := AddrZp(); var v := ReadByte(t); EorWith(v); AddCycles(3);
      case 0x4D =>
        i := Instruction(EorA, Absolute); var t := AddrAbs(); var v := ReadByte(t); EorWith(v); AddCycles(4);
    }

    /** ADC. */
    method CaseAdc(opcode: byte) returns (ghost i: Instruction)
      requires Valid() && opcode in {0x75, 0x7D, 0x79, 0x61, 0x71, 0x69, 0x65, 0x6D}
      modifies Repr()
      ensures Valid() && Decode(opcode) == Some(i) && Abs() == Execute(i, old(Abs()))
    {
      hide *;
      AdcTable();
      ReadCycleCounts();
      AluExecutes(Adc, Abs());
      match opcode
      case 0x75 =>
        i := Instruction(Adc, ZeroPageX); var t := AddrZpX(); var v := ReadByte(t); DoAdc(v); AddCycles(4);
      case 0x7D =>
        i := Instruction(Adc, AbsoluteX); var t := AddrAbsX(); var v := ReadByte(t); DoAdc(v); AddCycles(4);
      case 0x79 =>
        i := Instruction(Adc, AbsoluteY); var t := AddrAbsY(); var v := ReadByte(t); DoAdc(v); AddCycles(4);
      case 0x61 =>
        i := Instruction(Adc, IndirectX); var t := AddrIndirectX(); var v := ReadByte(t); DoAdc(v); AddCycles(6);
      case 0x71 =>
        i := Instruction(Adc, IndirectY); var t := AddrIndirectY(); var v := ReadByte(t); DoAdc(v); AddCycles(5);
      case 0x69 =>
        i := Instruction(Adc, Immediate); var v := Fetch8(); DoAdc(v); AddCycles(2);
      case 0x65 =>
        i := Instruction(Adc, ZeroPage); var t := AddrZp(); var v := ReadByte(t); DoAdc(v); AddCycles(3);
      case 0x6D =>
        i := Instruction(Adc, Absolute); var t := AddrAbs(); var v := ReadByte(t); DoAdc(v); AddCycles(4);
    }

    /** SBC. */
    method CaseSbc(opcode: byte) returns (ghost i: Instruction)
      requires Valid() && opcode in {0xF5, 0xFD, 0xF9, 0xE1, 0xF1, 0xE9, 0xE5, 0xED}
      modifies Repr()
      ensures Valid() && Decode(opcode) == Some(i) && Abs() == Execute(i, old(Abs()))
    {
      hide *;
      SbcTable();
      ReadCycleCounts();
      AluExecutes(Sbc, Abs());
      match opcode
      case 0xF5 =>
        i := Instruction(Sbc, ZeroPageX); var t := AddrZpX(); var v := ReadByte(t); DoSbc(v); AddCycles(4);
      case 0xFD =>
        i := Instruction(Sbc, AbsoluteX); var t := AddrAbsX(); var v := ReadByte(t); DoSbc(v); AddCycles(4);
      case 0xF9 =>
        i := Instruction(Sbc, AbsoluteY); var t := AddrAbsY(); var v := ReadByte(t); DoSbc(v); AddCycles(4);
      case 0xE1 =>
        i := Instruction(Sbc, IndirectX); var t := AddrIndirectX(); var v := ReadByte(t); DoSbc(v); AddCycles(6);
      case 0xF1 =>
        i := Instruction(Sbc, IndirectY); var t := AddrIndirectY(); var v := ReadByte(t); DoSbc(v); AddCycles(5);
      case 0xE9 =>
        i := Instruction(Sbc, Immediate); var v := Fetch8(); DoSbc(v); AddCycles(2);
      case 0xE5 =>
        i := Instruction(Sbc, ZeroPage); var t := AddrZp(); var v := ReadByte(t); DoSbc(v); AddCycles(3);
      case 0xED =>
        i := Instruction(Sbc, Absolute); var t := AddrAbs(); var v := ReadByte(t); DoSbc(v); AddCycles(4);
    }

    /** BIT. */
    method CaseBit(opcode: byte) returns (ghost i: Instruction)
      requires Valid() && opcode in {0x24, 0x2C}
      modifies Repr()
      ensures Valid() && Decode(opcode) == Some(i) && Abs() == Execute(i, old(Abs()))
    {
      hide *;
      BitTable();
      ReadCycleCounts();
      AluExecutes(BitTest, Abs());
      match opcode
      case 0x24 =>
        i := Instruction(BitTest, ZeroPage); var t := AddrZp(); var v := ReadByte(t); DoBit(v); AddCycles(3);
      case 0x2C =>
        i := Instruction(BitTest, Absolute); var t := AddrAbs(); var v := ReadByte(t); DoBit(v); AddCycles(4);
    }

    /** ASL. */
    method CaseAsl(opcode: byte) returns (ghost i: Instruction)
      requires Valid() && opcode in {0x0A, 0x06, 0x16, 0x0E, 0x1E}
      modifies Repr()
      ensures Valid() && Decode(opcode) == Some(i) && Abs() == Execute(i, old(Abs()))
    {
      hide *;
      AslTable();
      RmwCycleCounts();
      RmwExecutes(Asl, Abs());
      match opcode
      case 0x0A => i := Instruction(Asl, Accumulator); AslA(); AddCycles(2);
      case 0x06 => i := Instruction(Asl, ZeroPage); var t := AddrZp(); AslMemory(t); AddCycles(5);
      case 0x16 => i := Instruction(Asl, ZeroPageX); var t := AddrZpX(); AslMemory(t); AddCycles(6);
      case 0x0E => i := Instruction(Asl, Absolute); var t := AddrAbs(); AslMemory(t); AddCycles(6);
      case 0x1E => i := Instruction(Asl, AbsoluteX); var t := AddrAbsX(); AslMemory(t); AddCycles(7);
    }

    /** LSR. */
    method CaseLsr(opcode: byte) returns (ghost i: Instruction)
      requires Valid() && opcode in {0x4A, 0x46, 0x56, 0x4E, 0x5E}
      modifies Repr()
      ensures Valid() && Decode(opcode) == Some(i) && Abs() == Execute(i, old(Abs()))
    {
      hide *;
      LsrTable();
      RmwCycleCounts();
      RmwExecutes(Lsr, Abs());
      match opcode
      case 0x4A => i := Instruction(Lsr, Accumulator); LsrA(); AddCycles(2);
      case 0x46 => i := Instruction(Lsr, ZeroPage); var t := AddrZp(); LsrMemory(t); AddCycles(5);
      case 0x56 => i := Instruction(Lsr, ZeroPageX); var t := AddrZpX(); LsrMemory(t); AddCycles(6);
      case 0x4E => i := Instruction(Lsr, Absolute); var t := AddrAbs(); LsrMemory(t); AddCycles(6);
      case 0x5E => i := Instruction(Lsr, AbsoluteX); var t := AddrAbsX(); LsrMemory(t); AddCycles(7);
    }

    /** ROL. */
    method CaseRol(opcode: byte) returns (ghost i: Instruction)
      requires Valid() && opcode in {0x2A, 0x26, 0x36, 0x2E, 0x3E}
      modifies Repr()
      ensures Valid() && Decode(opcode) == Some(i) && Abs() == Execute(i, old(Abs()))
    {
      hide *;
      RolTable();
      RmwCycleCounts();
      RmwExecutes(Rol, Abs());
      match opcode
      case 0x2A => i := Instruction(Rol, Accumulator); RolA(); AddCycles(2);
      case 0x26 => i := Instruction(Rol, ZeroPage); var t := AddrZp(); RolMemory(t); AddCycles(5);
      case 0x36 => i := Instruction(Rol, ZeroPageX); var t := AddrZpX(); RolMemory(t); AddCycles(6);
      case 0x2E => i := Instruction(Rol, Absolute); var t := AddrAbs(); RolMemory(t); AddCycles(6);
      case 0x3E => i := Instruction(Rol, AbsoluteX); var t := AddrAbsX(); RolMemory(t); AddCycles(7);
    }

    /** ROR. */
    method CaseRor(opcode: byte) returns (ghost i: Instruction)
      requires Valid() && opcode in {0x6A, 0x66, 0x76, 0x6E, 0x7E}
      modifies Repr()
      ensures Valid() && Decode(opcode) == Some(i) && Abs() == Execute(i, old(Abs()))
    {
      hide *;
      RorTable();
      RmwCycleCounts();
      RmwExecutes(Ror, Abs());
      match opcode
      case 0x6A => i := Instruction(Ror, Accumulator); RorA(); AddCycles(2);
      case 0x66 => i := Instruction(Ror, ZeroPage); var t := AddrZp(); RorMemory(t); AddCycles(5);
      case 0x76 => i := Instruction(Ror, ZeroPageX); var t := AddrZpX(); RorMemory(t); AddCycles(6);
      case 0x6E => i := Instruction(Ror, Absolute); var t := AddrAbs(); RorMemory(t); AddCycles(6);
      case 0x7E => i := Instruction(Ror, AbsoluteX); var t := AddrAbsX(); RorMemory(t); AddCycles(7);
    }

    /** BNE, BEQ, BPL, BMI, BVC, BVS, BCC, BCS. */
    method CaseBranch(opcode: byte) returns (ghost i: Instruction)
      requires Valid() && opcode in {0xD0, 0xF0, 0x10, 0x30, 0x50, 0x70, 0x90, 0xB0}
      modifies Repr()
      ensures Valid() && Decode(opcode) == Some(i) && Abs() == Execute(i, old(Abs()))
    {
      hide *;
      BranchTable();
      BranchExecutes(Abs());
      Fields();
      match opcode
      case 0xD0 => i := Instruction(Branch(Z, false), Relative); DoBranch(!p.z);
      case 0xF0 => i := Instruction(Branch(Z, true), Relative); DoBranch(p.z);
      case 0x10 => i := Instruction(Branch(N, false), Relative); DoBranch(!p.n);
      case 0x30 => i := Instruction(Branch(N, true), Relative); DoBranch(p.n);
      case 0x50 => i := Instruction(Branch(V, false), Relative); DoBranch(!p.v);
      case 0x70 => i := Instruction(Branch(V, true), Relative); DoBranch(p.v);
      case 0x90 => i := Instruction(Branch(C, false), Relative); DoBranch(!p.c);
      case 0xB0 => i := Instruction(Branch(C, true), Relative); DoBranch(p.c);
    }

    /** JMP, JSR, RTS, RTI. */
    method CaseJump(opcode: byte) returns (ghost i: Instruction)
      requires Valid() && opcode in {0x4C, 0x6C, 0x20, 0x60, 0x40}
      modifies Repr()
      ensures Valid() && Decode(opcode) == Some(i) && Abs() == Execute(i, old(Abs()))
    {
      hide *;
      JumpTable();
      JmpExecutes(Abs());
      SubroutineExecutes(Abs());
      RtiExecutes(Abs());
      match opcode
      case 0x4C => i := Instruction(Jmp, Absolute); JumpAbsolute();
      case 0x6C => i := Instruction(Jmp, Indirect); JumpIndirect();
      case 0x20 => i := Instruction(Jsr, Absolute); CallSubroutine();
      case 0x60 => i := Instruction(Rts, Implied); ReturnFromSubroutine();
      case 0x40 => i := Instruction(Rti, Implied); ReturnFromInterrupt();
    }

    /** NOP; BRK halts. */
    method CaseMisc(opcode: byte) returns (ghost i: Instruction)
      requires Valid() && opcode in {0xEA, 0x00}
      modifies Repr()
      ensures Valid() && Decode(opcode) == Some(i) && Abs() == Execute(i, old(Abs()))
    {
      hide *;
      MiscTable();
      MiscExecutes(Abs());
      match opcode
      case 0xEA => i := Instruction(Nop, Implied); AddCycles(2);
      case 0x00 => i := Instruction(Brk, Implied); Halt(); AddCycles(7);
    }

    /** Loads, stores, transfers, the stack, flags and register counting. */
    method MoveOpcode(opcode: byte) returns (done: bool)
      requires Valid()
      modifies Repr()
      ensures Valid()
      ensures done ==> Decode(opcode).Some? && Abs() == Execute(Decode(opcode).value, old(Abs()))
      ensures !done ==> Abs() == old(Abs())
      ensures !done ==>
                opcode !in {0xA9, 0xA5, 0xB5, 0xAD, 0xBD, 0xB9, 0xA1, 0xB1, 0x85, 0x95, 0x8D, 0x9D, 0x99, 0x81,
                              0x91, 0xA2, 0xA6, 0xB6, 0xAE, 0xBE, 0x86, 0x96, 0x8E, 0xA0, 0xA4, 0xB4, 0xAC, 0xBC,
                              0x84, 0x94, 0x8C, 0xAA, 0x8A, 0xA8, 0x98, 0x9A, 0xBA, 0x48, 0x68, 0x08, 0x28, 0x78,
                              0x58, 0xF8, 0xD8, 0x38, 0x18, 0xB8, 0xE8, 0xC8, 0xCA, 0x88}
    {
      hide *;
      done := true;
      if opcode in {0xA9, 0xA5, 0xB5, 0xAD, 0xBD, 0xB9, 0xA1, 0xB1} {
        var i := CaseLda(opcode);
      } else if opcode in {0x85, 0x95, 0x8D, 0x9D, 0x99, 0x81, 0x91} {
        var i := CaseSta(opcode);
      } else if opcode in {0xA2, 0xA6, 0xB6, 0xAE, 0xBE} {
        var i := CaseLdx(opcode);
      } else if opcode in {0x86, 0x96, 0x8E} {
        var i := CaseStx(opcode);
      } else if opcode in {0xA0, 0xA4, 0xB4, 0xAC, 0xBC} {
        var i := CaseLdy(opcode);
      } else if opcode in {0x84, 0x94, 0x8C} {
        var i := CaseSty(opcode);
      } else if opcode in {0xAA, 0x8A, 0xA8, 0x98, 0x9A, 0xBA} {
        var i := CaseTransfer(opcode);
      } else if opcode in {0x48, 0x68, 0x08, 0x28} {
        var i := CaseStack(opcode);
      } else if opcode in {0x78, 0x58, 0xF8, 0xD8, 0x38, 0x18, 0xB8} {
        var i := CaseFlag(opcode);
      } else if opcode in {0xE8, 0xC8, 0xCA, 0x88} {
        var i := CaseIncDec(opcode);
      } else {
        done := false;
      }
    }

    /** Memory counting, comparisons, logic and arithmetic. */
    method MemoryOpcode(opcode: byte) returns (done: bool)
      requires Valid()
      modifies Repr()
      ensures Valid()
      ensures done ==> Decode(opcode).Some? && Abs() == Execute(Decode(opcode).value, old(Abs()))
      ensures !done ==> Abs() == old(Abs())
      ensures !done ==>
                opcode !in {0xE6, 0xF6, 0xEE, 0xFE, 0xC6, 0xD6, 0xCE, 0xDE, 0xE0, 0xE4, 0xEC, 0xC0, 0xC4, 0xCC,
                              0xC9, 0xC5, 0xCD, 0xD5, 0xDD, 0xD9, 0xC1, 0xD1, 0x35, 0x3D, 0x39, 0x21, 0x31, 0x29,
                              0x25, 0x2D, 0x15, 0x1D, 0x19, 0x01, 0x11, 0x09, 0x05, 0x0D, 0x55, 0x5D, 0x59, 0x41,
                              0x51, 0x49, 0x45, 0x4D, 0x75, 0x7D, 0x79, 0x61, 0x71, 0x69, 0x65, 0x6D, 0xF5, 0xFD,
                              0xF9, 0xE1, 0xF1, 0xE9, 0xE5, 0xED, 0x24, 0x2C}
    {
      hide *;
      done := true;
      if opcode in {0xE6, 0xF6, 0xEE, 0xFE, 0xC6, 0xD6, 0xCE, 0xDE} {
        var i := CaseIncDecMemory(opcode);
      } else if opcode in {0xE0, 0xE4, 0xEC, 0xC0, 0xC4, 0xCC} {
        var i := CaseCompareRegister(opcode);
      } else if opcode in {0xC9, 0xC5, 0xCD, 0xD5, 0xDD, 0xD9, 0xC1, 0xD1} {
        var i := CaseCompareA(opcode);
      } else if opcode in {0x35, 0x3D, 0x39, 0x21, 0x31, 0x29, 0x25, 0x2D} {
        var i := CaseAnd(opcode);
      } else if opcode in {0x15, 0x1D, 0x19, 0x01, 0x11, 0x09, 0x05, 0x0D} {
        var i := CaseOra(opcode);
      } else if opcode in {0x55, 0x5D, 0x59, 0x41, 0x51, 0x49, 0x45, 0x4D} {
        var i := CaseEor(opcode);
      } else if opcode in {0x75, 0x7D, 0x79, 0x61, 0x71, 0x69, 0x65, 0x6D} {
        var i := CaseAdc(opcode);
      } else if opcode in {0xF5, 0xFD, 0xF9, 0xE1, 0xF1, 0xE9, 0xE5, 0xED} {
        var i := CaseSbc(opcode);
      } else if opcode in {0x24, 0x2C} {
        var i := CaseBit(opcode);
      } else {
        done := false;
      }
    }

    /** The source's switch statement. */
    method RunOpcode(opcode: byte)
      requires Valid()
      modifies Repr()
      ensures Valid() && Abs() == Dispatch(opcode, old(Abs()))
    {
      hide *;
      DispatchExecutes(opcode, Abs());
      LegalOpcodes(opcode);
      var done := MoveOpcode(opcode);
      if done { return; }
      done := MemoryOpcode(opcode);
      if done { return; }
      if opcode in {0x0A, 0x06, 0x16, 0x0E, 0x1E} {
        var i := CaseAsl(opcode);
      } else if opcode in {0x4A, 0x46, 0x56, 0x4E, 0x5E} {
        var i := CaseLsr(opcode);
      } else if opcode in {0x2A, 0x26, 0x36, 0x2E, 0x3E} {
        var i := CaseRol(opcode);
      } else if opcode in {0x6A, 0x66, 0x76, 0x6E, 0x7E} {
        var i := CaseRor(opcode);
      } else if opcode in {0xD0, 0xF0, 0x10, 0x30, 0x50, 0x70, 0x90, 0xB0} {
        var i := CaseBranch(opcode);
      } else if opcode in {0x4C, 0x6C, 0x20, 0x60, 0x40} {
        var i := CaseJump(opcode);
      } else if opcode in {0xEA, 0x00} {
        var i := CaseMisc(opcode);
      } else {
        Halt();
      }
    }

    /** The opcode fetch, with its entry in the trace arrays. */
    method FetchTraced() returns (opcode: byte)
      requires Valid()
      modifies Repr()
      ensures Valid() && (Abs(), opcode) == FetchOpcode(old(Abs())) && sp == old(sp)
    {
      ghost var s := Abs();
      var pcBefore := pc;
      opcode := Fetch8();
      tracePc[traceIdx] := pcBefore;
      traceOp[traceIdx] := opcode;
      traceIdx := (traceIdx + 1) % TRACE_LEN;
      assert (Abs(), opcode) == FetchOpcode(s);
    }

    method Step()
      requires Valid()
      modifies Repr(), debug
      ensures Valid() && Abs() == Cpu.Step(old(Abs()))
      ensures debug.hitsAtE3E0 ==
              (old(debug.hitsAtE3E0) + (if !old(halted) && old(pc) == 0xE3E0 then 1 else 0)) % UINT32
      ensures debug.spAtA06E ==
              if !old(halted) && old(pc) == 0xA06E && old(debug.spAtA06E) == NOT_CAPTURED then old(sp)
              else old(debug.spAtA06E)
    {
      hide FetchOpcode, Dispatch;
      if halted { return; }
      var pcBefore := pc;
      var opcode := FetchTraced();
      debug.Note(pcBefore, sp);
      RunOpcode(opcode);
    }

    method Reset(start: word)
      requires Valid()
      modifies this
      ensures Valid() && Abs() == Cpu.Reset(old(Abs()), start)
      ensures a == x == y == 0 && sp == 0xFD && pc == start && cycles == 0 && !halted && traceIdx == old(traceIdx)
      ensures p.i && p.u && !p.c && !p.z && !p.d && !p.b && !p.v && !p.n
    {
      a, x, y := 0, 0, 0;
      sp := 0xFD;
      pc := start;
      p := Flags(false, false, true, false, false, true, false, false);
      cycles := 0;
      halted := false;
    }

    method Irq()
      requires Valid()
      modifies Repr()
      ensures Valid() && Abs() == Cpu.Irq(old(Abs()))
    {
      if p.i { return; }
      if halted { return; }
      PushInterruptFrame();
      p := p.(i := true);
      pc := ReadPointer(0xFFFE, 0xFFFF);
      AddCycles(7);
    }

    method PushInterruptFrame()
      requires Valid()
      modifies Repr()
      ensures Valid() && Abs() == PushFrame(old(Abs()))
    {
      var status := ToByte(p.(b := false, u := true));
      Push8(Hi(pc));
      Push8(Lo(pc));
      Push8(status);
    }

    /** With a greater count the source would index before its arrays. */
    method TraceDumpOrdered(pcOut: array<word>, opOut: array<byte>, count: int)
      requires Valid() && {pcOut as object, opOut} !! Repr() && (pcOut as object) != opOut
      requires count <= TRACE_LEN + traceIdx && count <= pcOut.Length && count <= opOut.Length
      modifies pcOut, opOut
      ensures Valid() && Abs() == old(Abs()) && traceIdx == old(traceIdx)
      ensures forall k :: 0 <= k < count ==> (pcOut[k], opOut[k]) == Dumped(Abs().trace, count, k)
      ensures forall k :: 0 <= k < pcOut.Length && count <= k ==> pcOut[k] == old(pcOut[k])
      ensures forall k :: 0 <= k < opOut.Length && count <= k ==> opOut[k] == old(opOut[k])
    {
      var n := 0;
      while n < count
        invariant 0 <= n && Valid() && Abs() == old(Abs())
        invariant n <= count || (n == 0 && count < 0)
        invariant forall k :: 0 <= k < n ==> (pcOut[k], opOut[k]) == Dumped(Abs().trace, count, k)
        invariant forall k :: n <= k < pcOut.Length ==> pcOut[k] == old(pcOut[k])
        invariant forall k :: n <= k < opOut.Length ==> opOut[k] == old(opOut[k])
      {
        var idx := (traceIdx + TRACE_LEN - count + n) % TRACE_LEN;
        pcOut[n] := tracePc[idx];
        opOut[n] := traceOp[idx];
        n := n + 1;
      }
    }
  }
}
