/** Single steps over code that a program can see: the state after the step, its cycles and trace apart. */
module Instructions {
  import opened Wrappers
  import opened Bytes
  import opened Memory
  import opened Isa
  import opened Cpu
  import opened Decoding

  /** A live machine about to fetch `opcode`. */
  predicate Fetches(s: State, opcode: byte) { !s.halted && ReadValue(s.mem, s.pc) == opcode }

  lemma StepExecutes(s: State, opcode: byte)
    requires Fetches(s, opcode) && Decode(opcode).Some?
    ensures Step(s) == Execute(Decode(opcode).value, FetchOpcode(s).0)
  {
    hide Decode, Execute, FetchOpcode;
    assert FetchOpcode(s).1 == opcode by { FetchedValue(s); }
    DispatchExecutes(opcode, FetchOpcode(s).0);
    hide Dispatch;
  }

  lemma StepHalts(s: State, opcode: byte)
    requires Fetches(s, opcode) && Decode(opcode).None?
    ensures Step(s) == FetchOpcode(s).0.(halted := true)
  {
    hide Decode, Execute, FetchOpcode;
    FetchedValue(s);
    DispatchExecutes(opcode, FetchOpcode(s).0);
    hide Dispatch;
  }

  lemma FetchedValue(s: State)
    ensures FetchOpcode(s).1 == ReadValue(s.mem, s.pc)
    ensures var f := FetchOpcode(s).0;
      f == s.(pc := Plus(s.pc, 1), mem := s.mem.(raster := f.mem.raster),
              trace := Record(s.trace, s.pc, ReadValue(s.mem, s.pc)))
  {}

  /** A live machine with `code` at pc, clear of the I/O addresses. */
  ghost predicate Sees(s: State, code: seq<byte>) {
    !s.halted &&
    forall k :: 0 <= k < |code| ==> !Io(Plus(s.pc, k)) && s.mem.ram[Plus(s.pc, k)] == code[k]
  }

  /** Equal up to cycles and trace. */
  predicate Like(t: State, u: State) { t == u.(cycles := t.cycles, trace := t.trace) }

  function Past(s: State, n: nat): State { s.(pc := Plus(s.pc, n)) }

  lemma SeesOpcode(s: State, code: seq<byte>)
    requires Sees(s, code) && code != []
    ensures Fetches(s, code[0]) && Like(FetchOpcode(s).0, Past(s, 1))
  {
    assert Plus(s.pc, 0) == s.pc;
  }

  lemma SeesByte(s: State, code: seq<byte>, f: State)
    requires Sees(s, code) && |code| == 2 && Like(f, Past(s, 1))
    ensures Fetch(f).1 == code[1] && Like(Fetch(f).0, Past(s, 2))
  {
    assert f.pc == Plus(s.pc, 1);
  }

  lemma SeesWord(s: State, code: seq<byte>, f: State)
    requires Sees(s, code) && |code| == 3 && Like(f, Past(s, 1))
    ensures FetchWord(f).1 == Word(code[1], code[2]) && Like(FetchWord(f).0, Past(s, 3))
  {
    assert f.pc == Plus(s.pc, 1);
    assert Fetch(f).0.pc == Plus(s.pc, 2);
  }

  lemma AluLike(op: Operation, t: State, u: State, v: byte)
    requires Like(t, u)
    ensures Like(Alu(op, t, v), Alu(op, u, v))
  {
    hide And, Or, Xor, Overflows, ZN;
  }

  lemma StepImmediate(s: State, opcode: byte, v: byte, op: Operation)
    requires Sees(s, [opcode, v]) && Decode(opcode) == Some(Instruction(op, Immediate)) && IsAlu(op)
    ensures Like(Step(s), Alu(op, Past(s, 2), v))
  {
    hide Sees, Step, Execute, Decode, FetchOpcode, Alu, Fetch, Fetches;
    SeesOpcode(s, [opcode, v]);
    StepExecutes(s, opcode);
    var f := FetchOpcode(s).0;
    SeesByte(s, [opcode, v], f);
    AluExecutes(op, f);
    AluLike(op, Fetch(f).0, Past(s, 2), v);
  }

  lemma StepAbsolute(s: State, opcode: byte, lo: byte, hi: byte, op: Operation)
    requires Sees(s, [opcode, lo, hi]) && Decode(opcode) == Some(Instruction(op, Absolute)) && IsAlu(op)
    ensures var g := ReadFrom(Past(s, 3), Word(lo, hi)); Like(Step(s), Alu(op, g.0, g.1))
  {
    hide Sees, Step, Execute, Decode, FetchOpcode, Alu, FetchWord, Fetches;
    SeesOpcode(s, [opcode, lo, hi]);
    StepExecutes(s, opcode);
    var f := FetchOpcode(s).0;
    SeesWord(s, [opcode, lo, hi], f);
    AluExecutes(op, f);
    assert Effective(Absolute, f) == FetchWord(f);
    var g := ReadFrom(FetchWord(f).0, Word(lo, hi));
    AluLike(op, g.0, ReadFrom(Past(s, 3), Word(lo, hi)).0, g.1);
  }

  lemma StepStoreAbsolute(s: State, opcode: byte, lo: byte, hi: byte, r: Reg)
    requires Sees(s, [opcode, lo, hi]) && Decode(opcode) == Some(Instruction(Store(r), Absolute))
    ensures Like(Step(s), WriteTo(Past(s, 3), Word(lo, hi), Get(s, r)))
  {
    hide Sees, Step, Execute, Decode, FetchOpcode, FetchWord, Fetches;
    SeesOpcode(s, [opcode, lo, hi]);
    StepExecutes(s, opcode);
    var f := FetchOpcode(s).0;
    SeesWord(s, [opcode, lo, hi], f);
    StoreExecutes(r, f);
    assert Effective(Absolute, f) == FetchWord(f);
  }

  lemma StepModifyAbsolute(s: State, opcode: byte, lo: byte, hi: byte, op: Operation)
    requires Sees(s, [opcode, lo, hi]) && Decode(opcode) == Some(Instruction(op, Absolute)) && IsRmw(op)
    ensures Like(Step(s), Modify(op, Past(s, 3), Word(lo, hi)))
  {
    hide Sees, Step, Execute, Decode, FetchOpcode, FetchWord, Fetches, WriteByte, RmwFlags, RmwResult, ReadValue;
    SeesOpcode(s, [opcode, lo, hi]);
    StepExecutes(s, opcode);
    var f := FetchOpcode(s).0;
    SeesWord(s, [opcode, lo, hi], f);
    RmwExecutes(op, f);
    assert Effective(Absolute, f) == FetchWord(f);
  }

  lemma StepSetFlag(s: State, opcode: byte, f: FlagName, on: bool)
    requires Sees(s, [opcode]) && Decode(opcode) == Some(Instruction(SetFlag(f, on), Implied))
    ensures Like(Step(s), Past(s, 1).(p := PutFlag(s.p, f, on)))
  {
    hide Sees, Step, Execute, Decode, FetchOpcode, PutFlag, Fetches;
    SeesOpcode(s, [opcode]);
    StepExecutes(s, opcode);
    FlagExecutes(FetchOpcode(s).0);
  }

  lemma StepBranch(s: State, opcode: byte, off: byte, f: FlagName, on: bool)
    requires Sees(s, [opcode, off]) && Decode(opcode) == Some(Instruction(Branch(f, on), Relative))
    ensures var u := Past(s, 2);
      Like(Step(s), if GetFlag(s.p, f) == on then u.(pc := Plus(u.pc, Signed(off))) else u)
  {
    hide Sees, Step, Execute, Decode, FetchOpcode, Fetch, Fetches, GetFlag;
    SeesOpcode(s, [opcode, off]);
    StepExecutes(s, opcode);
    var g := FetchOpcode(s).0;
    SeesByte(s, [opcode, off], g);
    BranchExecutes(g);
  }

  lemma StepInx(s: State)
    requires Sees(s, [0xE8])
    ensures Like(Step(s), LoadReg(Past(s, 1), X, (s.x + 1) % 256))
  {
    hide Sees, Step, Execute, Decode, FetchOpcode, Fetches;
    IncDecTable();
    SeesOpcode(s, [0xE8]);
    StepExecutes(s, 0xE8);
    IncDecExecutes(FetchOpcode(s).0);
  }

  lemma StepBrk(s: State)
    requires Sees(s, [0x00])
    ensures Like(Step(s), Past(s, 1).(halted := true))
  {
    hide Sees, Step, Execute, Decode, FetchOpcode, Fetches;
    MiscTable();
    SeesOpcode(s, [0x00]);
    StepExecutes(s, 0x00);
    MiscExecutes(FetchOpcode(s).0);
  }
}
