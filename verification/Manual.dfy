/** A programmer's manual of the interpreter: what each addressing mode and operation does, in bytes of RAM, registers
    and flags. Nothing here is said through the functions that the interpreter is proved equal to. */
module Manual {
  import opened Wrappers
  import opened Bytes
  import opened Memory
  import opened Isa
  import opened Cpu
  import opened Decoding
  import opened Instructions
  import opened Orthogonal

  // ----- Addresses -----

  function Next1(s: State): byte { s.mem.ram[(s.pc + 1) % 65536] }

  function Next2(s: State): byte { s.mem.ram[(s.pc + 2) % 65536] }

  /** The word at two addresses of RAM. */
  function WordIn(ram: Ram, lo: word, hi: word): word {
    var l: int, h: int := ram[lo], ram[hi];
    l + 256 * h
  }

  /** The address that a memory mode means, read off the instruction's bytes, RAM and the index registers. */
  function Target(m: Mode, s: State): word {
    var ram, abs := s.mem.ram, Next1(s) + 256 * Next2(s);
    match m
    case ZeroPage => Next1(s)
    case ZeroPageX => (Next1(s) + s.x) % 256
    case ZeroPageY => (Next1(s) + s.y) % 256
    case Absolute => abs
    case AbsoluteX => (abs + s.x) % 65536
    case AbsoluteY => (abs + s.y) % 65536
    case Indirect => WordIn(ram, abs, (abs + 1) % 65536)
    case IndirectX => WordIn(ram, (Next1(s) + s.x) % 256, ((Next1(s) + s.x) % 256 + 1) % 256)
    case IndirectY => (WordIn(ram, Next1(s), (Next1(s) + 1) % 256) + s.y) % 65536
    case _ => 0
  }

  /** A live machine whose instruction, and the pointer of a JMP (ind), are plain memory. */
  predicate Visible(s: State, m: Mode) {
    && !s.halted && !Io(s.pc)
    && (Length(m) > 1 ==> !Io((s.pc + 1) % 65536))
    && (Length(m) > 2 ==> !Io((s.pc + 2) % 65536))
    && (m == Indirect ==>
          var abs := Next1(s) + 256 * Next2(s);
          !Io(abs) && !Io((abs + 1) % 65536))
  }

  lemma FetchesNext(s: State, f: State)
    requires Like(f, Past(s, 1)) && !Io((s.pc + 1) % 65536)
    ensures Fetch(f).1 == Next1(s) && Like(Fetch(f).0, Past(s, 2))
  {}

  lemma FetchesBoth(s: State, f: State)
    requires Like(f, Past(s, 1)) && !Io((s.pc + 1) % 65536) && !Io((s.pc + 2) % 65536)
    ensures FetchWord(f).1 == Next1(s) + 256 * Next2(s) && Like(FetchWord(f).0, Past(s, 3))
  {
    FetchesNext(s, f);
    assert Fetch(f).0.pc == (s.pc + 2) % 65536;
  }

  lemma ReadsWord(f: State, lo: word, hi: word)
    requires !Io(lo) && !Io(hi)
    ensures ReadWord(f, lo, hi) == (f, WordIn(f.mem.ram, lo, hi))
  {}

  lemma IndirectReaches(m: Mode, s: State, f: State)
    requires m in {Indirect, IndirectX, IndirectY} && Visible(s, m) && Like(f, Past(s, 1))
    ensures var g := Effective(m, f); Like(g.0, Past(s, Length(m))) && g.1 == Target(m, s)
  {
    hide ReadWord, Fetch, FetchWord;
    if m == Indirect {
      FetchesBoth(s, f);
      var abs := Next1(s) + 256 * Next2(s);
      ReadsWord(FetchWord(f).0, abs, (abs + 1) % 65536);
    } else {
      FetchesNext(s, f);
      var zp: word := if m == IndirectX then (Next1(s) + s.x) % 256 else Next1(s);
      ReadsWord(Fetch(f).0, zp, (zp + 1) % 256);
    }
  }

  lemma TargetReached(m: Mode, s: State, f: State)
    requires ReadsMemory(m) && Visible(s, m) && Like(f, Past(s, 1))
    ensures var g := Effective(m, f); Like(g.0, Past(s, Length(m))) && g.1 == Target(m, s)
  {
    if m in {Indirect, IndirectX, IndirectY} {
      IndirectReaches(m, s, f);
    } else {
      hide Fetch, FetchWord;
      if Length(m) == 3 { FetchesBoth(s, f); } else { FetchesNext(s, f); }
    }
  }

  /** The two addresses that are not plain memory, and reads everywhere else. */
  lemma PlainReads(m: Mem, a: word)
    ensures Io(a) <==> a == 0xD012 || a == 0xDC01
    ensures !Io(a) ==> ReadValue(m, a) == m.ram[a] && AfterRead(m, a) == m
  {}

  // ----- One step, for every operation on memory and every mode -----

  /** The opcode at pc means `op` in mode `m`. */
  predicate At(s: State, op: Operation, m: Mode) {
    Visible(s, m) && Decode(s.mem.ram[s.pc]) == Some(Instruction(op, m))
  }

  lemma StepsInto(s: State, op: Operation, m: Mode)
    requires At(s, op, m)
    ensures var f := FetchOpcode(s).0; Like(f, Past(s, 1)) && Step(s) == Execute(Instruction(op, m), f)
  {
    hide Decode, Execute;
    StepExecutes(s, s.mem.ram[s.pc]);
    FetchedValue(s);
    hide Step, FetchOpcode;
  }

  lemma AluStep(s: State, op: Operation, m: Mode)
    requires At(s, op, m) && IsAlu(op) && ReadsMemory(m) && !Io(Target(m, s))
    ensures Like(Step(s), Alu(op, Past(s, Length(m)), s.mem.ram[Target(m, s)]))
  {
    hide Step, Execute, Decode, FetchOpcode, Alu, Effective, Target;
    StepsInto(s, op, m);
    var f := FetchOpcode(s).0;
    AluExecutes(op, f);
    TargetReached(m, s, f);
    var g := Effective(m, f);
    AluLike(op, ReadFrom(g.0, g.1).0, Past(s, Length(m)), s.mem.ram[Target(m, s)]);
  }

  lemma StoreStep(s: State, r: Reg, m: Mode)
    requires At(s, Store(r), m) && ReadsMemory(m)
    ensures var t := Step(s);
      && Like(t, Past(s, Length(m)).(mem := t.mem)) && t.mem.raster == s.mem.raster
      && t.mem.ram == s.mem.ram[Target(m, s) := Get(s, r)]
  {
    hide Step, Execute, Decode, FetchOpcode, Effective, Target, Mirror;
    StepsInto(s, Store(r), m);
    var f := FetchOpcode(s).0;
    StoreExecutes(r, f);
    TargetReached(m, s, f);
  }

  lemma RmwStep(s: State, op: Operation, m: Mode)
    requires At(s, op, m) && IsRmw(op) && ReadsMemory(m) && !Io(Target(m, s))
    ensures var t, a := Step(s), Target(m, s);
      && Like(t, Past(s, Length(m)).(mem := t.mem, p := t.p)) && t.mem.raster == s.mem.raster
      && t.mem.ram == s.mem.ram[a := RmwResult(op, s.p.c, s.mem.ram[a])]
      && t.p == RmwFlags(op, s.p, s.mem.ram[a])
  {
    hide Step, Execute, Decode, FetchOpcode, Effective, Target, Mirror, RmwResult, RmwFlags;
    StepsInto(s, op, m);
    var f := FetchOpcode(s).0;
    RmwExecutes(op, f);
    TargetReached(m, s, f);
  }

  // ----- Loads and stores, mode by mode -----

  /** The machine past an instruction of `n` bytes with `v` in A, and Z and N to match. */
  function WithA(s: State, n: nat, v: byte): State {
    s.(pc := (s.pc + n) % 65536, a := v, p := s.p.(z := v == 0, n := v >= 128))
  }

  /** The same with `v` in X. */
  function WithX(s: State, n: nat, v: byte): State {
    s.(pc := (s.pc + n) % 65536, x := v, p := s.p.(z := v == 0, n := v >= 128))
  }

  /** `t` is `s` past an instruction of `n` bytes with `v` stored at `a`, and nothing else different to a program. */
  ghost predicate Stored(s: State, t: State, n: nat, a: word, v: byte) {
    Like(t, s.(pc := (s.pc + n) % 65536, mem := t.mem)) && t.mem.ram == s.mem.ram[a := v] &&
    t.mem.raster == s.mem.raster
  }

  lemma SeesAt(s: State, code: seq<byte>, op: Operation, m: Mode)
    requires Sees(s, code) && |code| == Length(m) > 1 && m != Indirect
    requires Decode(code[0]) == Some(Instruction(op, m))
    ensures At(s, op, m) && Next1(s) == code[1] && (Length(m) == 3 ==> Next2(s) == code[2])
  {
    hide Decode;
    assert Plus(s.pc, 0) == s.pc;
    assert code[1] == s.mem.ram[Plus(s.pc, 1)] && !Io(Plus(s.pc, 1));
    if Length(m) == 3 {
      assert code[2] == s.mem.ram[Plus(s.pc, 2)] && !Io(Plus(s.pc, 2));
    }
  }

  lemma LdaZeroPageX(s: State, zp: byte)
    requires Sees(s, [0xB5, zp]) && !Io((zp + s.x) % 256)
    ensures Like(Step(s), WithA(s, 2, s.mem.ram[(zp + s.x) % 256]))
  {
    hide Step, Decode, Sees;
    LdaTable();
    SeesAt(s, [0xB5, zp], Load(A), ZeroPageX);
    AluStep(s, Load(A), ZeroPageX);
  }

  lemma StaZeroPageX(s: State, zp: byte)
    requires Sees(s, [0x95, zp])
    ensures Stored(s, Step(s), 2, (zp + s.x) % 256, s.a)
  {
    hide Step, Decode, Sees;
    StaTable();
    SeesAt(s, [0x95, zp], Store(A), ZeroPageX);
    StoreStep(s, A, ZeroPageX);
  }

  lemma LdxZeroPageY(s: State, zp: byte)
    requires Sees(s, [0xB6, zp]) && !Io((zp + s.y) % 256)
    ensures Like(Step(s), WithX(s, 2, s.mem.ram[(zp + s.y) % 256]))
  {
    hide Step, Decode, Sees;
    LdxTable();
    SeesAt(s, [0xB6, zp], Load(X), ZeroPageY);
    AluStep(s, Load(X), ZeroPageY);
  }

  lemma StxZeroPageY(s: State, zp: byte)
    requires Sees(s, [0x96, zp])
    ensures Stored(s, Step(s), 2, (zp + s.y) % 256, s.x)
  {
    hide Step, Decode, Sees;
    StxTable();
    SeesAt(s, [0x96, zp], Store(X), ZeroPageY);
    StoreStep(s, X, ZeroPageY);
  }

  lemma LdaAbsoluteX(s: State, lo: byte, hi: byte)
    requires Sees(s, [0xBD, lo, hi]) && !Io((lo + 256 * hi + s.x) % 65536)
    ensures Like(Step(s), WithA(s, 3, s.mem.ram[(lo + 256 * hi + s.x) % 65536]))
  {
    hide Step, Decode, Sees;
    LdaTable();
    SeesAt(s, [0xBD, lo, hi], Load(A), AbsoluteX);
    AluStep(s, Load(A), AbsoluteX);
  }

  lemma StaAbsoluteX(s: State, lo: byte, hi: byte)
    requires Sees(s, [0x9D, lo, hi])
    ensures Stored(s, Step(s), 3, (lo + 256 * hi + s.x) % 65536, s.a)
  {
    hide Step, Decode, Sees;
    StaTable();
    SeesAt(s, [0x9D, lo, hi], Store(A), AbsoluteX);
    StoreStep(s, A, AbsoluteX);
  }

  lemma LdaAbsoluteY(s: State, lo: byte, hi: byte)
    requires Sees(s, [0xB9, lo, hi]) && !Io((lo + 256 * hi + s.y) % 65536)
    ensures Like(Step(s), WithA(s, 3, s.mem.ram[(lo + 256 * hi + s.y) % 65536]))
  {
    hide Step, Decode, Sees;
    LdaTable();
    SeesAt(s, [0xB9, lo, hi], Load(A), AbsoluteY);
    AluStep(s, Load(A), AbsoluteY);
  }

  lemma StaAbsoluteY(s: State, lo: byte, hi: byte)
    requires Sees(s, [0x99, lo, hi])
    ensures Stored(s, Step(s), 3, (lo + 256 * hi + s.y) % 65536, s.a)
  {
    hide Step, Decode, Sees;
    StaTable();
    SeesAt(s, [0x99, lo, hi], Store(A), AbsoluteY);
    StoreStep(s, A, AbsoluteY);
  }

  lemma LdaIndirectX(s: State, zp: byte)
    requires Sees(s, [0xA1, zp]) && !Io(WordIn(s.mem.ram, (zp + s.x) % 256, ((zp + s.x) % 256 + 1) % 256))
    ensures Like(Step(s), WithA(s, 2, s.mem.ram[WordIn(s.mem.ram, (zp + s.x) % 256, ((zp + s.x) % 256 + 1) % 256)]))
  {
    hide Step, Decode, Sees;
    LdaTable();
    SeesAt(s, [0xA1, zp], Load(A), IndirectX);
    AluStep(s, Load(A), IndirectX);
  }

  lemma StaIndirectX(s: State, zp: byte)
    requires Sees(s, [0x81, zp])
    ensures Stored(s, Step(s), 2, WordIn(s.mem.ram, (zp + s.x) % 256, ((zp + s.x) % 256 + 1) % 256), s.a)
  {
    hide Step, Decode, Sees;
    StaTable();
    SeesAt(s, [0x81, zp], Store(A), IndirectX);
    StoreStep(s, A, IndirectX);
  }

  lemma LdaIndirectY(s: State, zp: byte)
    requires Sees(s, [0xB1, zp]) && !Io((WordIn(s.mem.ram, zp, (zp + 1) % 256) + s.y) % 65536)
    ensures Like(Step(s), WithA(s, 2, s.mem.ram[(WordIn(s.mem.ram, zp, (zp + 1) % 256) + s.y) % 65536]))
  {
    hide Step, Decode, Sees;
    LdaTable();
    SeesAt(s, [0xB1, zp], Load(A), IndirectY);
    AluStep(s, Load(A), IndirectY);
  }

  lemma StaIndirectY(s: State, zp: byte)
    requires Sees(s, [0x91, zp])
    ensures Stored(s, Step(s), 2, (WordIn(s.mem.ram, zp, (zp + 1) % 256) + s.y) % 65536, s.a)
  {
    hide Step, Decode, Sees;
    StaTable();
    SeesAt(s, [0x91, zp], Store(A), IndirectY);
    StoreStep(s, A, IndirectY);
  }
}
