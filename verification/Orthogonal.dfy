/** What the decoder's orthogonality gives: lengths, the shape of decoded instructions, comparisons as subtractions. */
module Orthogonal {
  import opened Bytes
  import opened Memory
  import opened Isa
  import opened Cpu
  import opened Instructions
  import opened Runs

  /** Every operation is decoded only with modes that make sense of it. */
  predicate WellModed(i: Instruction) {
    var memory := ReadsMemory(i.mode);
    match i.op
    case Store(_) => memory && i.mode != Indirect
    case Jmp => i.mode == Absolute || i.mode == Indirect
    case Jsr => i.mode == Absolute
    case Branch(_, _) => i.mode == Relative
    case _ =>
      if IsAlu(i.op) then (memory || i.mode == Immediate) && i.mode != Indirect
      else if IsRmw(i.op) then (memory || i.mode == Accumulator) && i.mode != Indirect
      else i.mode == Implied
  }

  lemma DecodedIsWellModed(opcode: byte)
    ensures Decode(opcode).Some? ==> WellModed(Decode(opcode).value)
  {
    hide DecodeAlu, DecodeControl, DecodeShift, WellModed;
    var aaa, bbb := opcode / 32, opcode / 4 % 8;
    assert 0 <= aaa < 8 && 0 <= bbb < 8;
    ControlIsWellModed(aaa, bbb);
    AluIsWellModed(aaa, bbb);
    ShiftIsWellModed(aaa, bbb);
  }

  lemma ControlIsWellModed(aaa: int, bbb: int)
    requires 0 <= aaa < 8 && 0 <= bbb < 8
    ensures DecodeControl(aaa, bbb).Some? ==> WellModed(DecodeControl(aaa, bbb).value)
  {}

  lemma AluIsWellModed(aaa: int, bbb: int)
    ensures DecodeAlu(aaa, bbb).Some? ==> WellModed(DecodeAlu(aaa, bbb).value)
  {}

  lemma ShiftIsWellModed(aaa: int, bbb: int)
    requires 0 <= aaa < 8 && 0 <= bbb < 8
    ensures DecodeShift(aaa, bbb).Some? ==> WellModed(DecodeShift(aaa, bbb).value)
  {}

  lemma FetchMoves(s: State)
    ensures Fetch(s).0.pc == Plus(s.pc, 1) && FetchWord(s).0.pc == Plus(s.pc, 2)
  {
    PlusPlus(s.pc, 1, 1);
  }

  lemma EffectiveMoves(m: Mode, s: State)
    requires ReadsMemory(m)
    ensures Effective(m, s).0.pc == Plus(s.pc, Length(m) - 1)
  {
    FetchMoves(s);
    hide Fetch, FetchWord, Plus;
  }

  predicate Jumps(i: Instruction, s: State) {
    i.op.Jmp? || i.op.Jsr? || i.op.Rts? || i.op.Rti? || TakesBranch(i, s)
  }

  predicate ReadsMemory(m: Mode) { m !in {Implied, Accumulator, Immediate, Relative} }

  lemma AluMoves(op: Operation, m: Mode, s: State)
    requires m == Immediate || ReadsMemory(m)
    ensures ExecAlu(op, m, s).pc == Plus(s.pc, Length(m) - 1)
  {
    var f := Operand(m, s);
    AluKeeps(op, f.0, f.1);
    if m != Immediate { EffectiveMoves(m, s); }
    FetchMoves(s);
    hide Alu, Fetch, Effective, Plus;
  }

  lemma StoreMoves(r: Reg, m: Mode, s: State)
    requires ReadsMemory(m)
    ensures ExecStore(r, m, s).pc == Plus(s.pc, Length(m) - 1)
  {
    EffectiveMoves(m, s);
    hide Effective, Plus;
  }

  lemma RmwMoves(op: Operation, m: Mode, s: State)
    requires m == Accumulator || ReadsMemory(m)
    ensures ExecRmw(op, m, s).pc == Plus(s.pc, Length(m) - 1)
  {
    PlusPlus(s.pc, 0, 0);
    if m != Accumulator { EffectiveMoves(m, s); }
    hide Effective, Plus;
  }

  lemma ImpliedMoves(s: State, r: Reg, v: byte, from: Reg, to: Reg)
    ensures LoadReg(s, r, v).pc == s.pc && ExecTransfer(from, to, s).pc == s.pc && Push(s, v).pc == s.pc
    ensures ExecPla(s).pc == s.pc && ExecPhp(s).pc == s.pc && ExecPlp(s).pc == s.pc
  {
    hide ReadValue, FromByte, ToByte;
  }

  lemma EffectMoves(i: Instruction, s: State)
    requires WellModed(i) && !Jumps(i, s)
    ensures Effect(i, s).pc == Plus(s.pc, Length(i.mode) - 1)
  {
    hide ExecAlu, ExecStore, ExecRmw, ExecTransfer, ExecPla, ExecPhp, ExecPlp, LoadReg, Push, PutFlag, Plus, Fetch,
      ExecJmp, ExecJsr, ExecRts, ExecRti;
    PlusPlus(s.pc, 0, 0);
    FetchMoves(s);
    if IsAlu(i.op) {
      AluMoves(i.op, i.mode, s);
    } else if IsRmw(i.op) {
      RmwMoves(i.op, i.mode, s);
    } else {
      match i.op
      case Store(r) => StoreMoves(r, i.mode, s);
      case IncReg(r) => ImpliedMoves(s, r, (Get(s, r) + 1) % 256, A, A);
      case DecReg(r) => ImpliedMoves(s, r, (Get(s, r) - 1) % 256, A, A);
      case Transfer(f, t) => ImpliedMoves(s, A, 0, f, t);
      case _ => ImpliedMoves(s, A, s.a, A, A);
    }
  }

  /** An instruction that does not jump moves pc by its length, around the top of memory if need be. */
  lemma PcAdvances(s: State)
    requires !s.halted && Decode(ReadValue(s.mem, s.pc)).Some?
    ensures var i := Decode(ReadValue(s.mem, s.pc)).value;
      !Jumps(i, s) ==> Step(s).pc == Plus(s.pc, Length(i.mode))
  {
    var opcode := ReadValue(s.mem, s.pc);
    DecodedIsWellModed(opcode);
    StepExecutes(s, opcode);
    FetchedValue(s);
    var i, f := Decode(opcode).value, FetchOpcode(s).0;
    hide Decode, Step, FetchOpcode, Effect, WellModed, ReadValue;
    if !Jumps(i, s) {
      EffectMoves(i, f);
      PlusPlus(s.pc, 1, Length(i.mode) - 1);
    }
  }

  /** A comparison sets C, Z and N as subtracting with the carry set would. */
  lemma CompareIsSubtract(s: State, r: Reg, v: byte)
    ensures var c := Alu(Compare(r), s, v);
      var d := Alu(Sbc, s.(a := Get(s, r), p := s.p.(c := true)), v);
      (c.p.c, c.p.z, c.p.n) == (d.p.c, d.p.z, d.p.n) && c == s.(p := c.p) && c.p.v == s.p.v
  {
    hide And, Or, Xor, Overflows, TestBits;
  }
}
