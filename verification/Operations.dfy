/** The manual's second part: what each operation leaves in the registers, the flags and the byte it works on. */
module Operations {
  import opened Bytes
  import opened Memory
  import opened Isa
  import opened Cpu
  import opened Decoding
  import opened Instructions
  import opened Runs
  import opened Manual

  // ----- Bits -----

  /** The `k`-th binary digit of a byte. */
  predicate BitAt(b: byte, k: nat)
    requires k < 8
  {
    b / [1, 2, 4, 8, 16, 32, 64, 128][k] % 2 == 1
  }

  function Bv(b: byte): bv8 { b as bv8 }

  function Mask(k: nat): bv8
    requires k < 8
  {
    [1, 2, 4, 8, 16, 32, 64, 128][k]
  }

  predicate Masked(x: bv8, k: nat)
    requires k < 8
  {
    x & Mask(k) != 0
  }

  lemma DigitIsMasked(b: byte, k: nat)
    requires k < 8
    ensures BitAt(b, k) <==> Masked(Bv(b), k)
  {}

  lemma BackToBv(x: bv8)
    ensures (x as int) as bv8 == x
  {}

  predicate IsAnd(x: bv8, y: bv8, z: bv8) { z == x & y }

  lemma MaskedAnd(x: bv8, y: bv8, z: bv8, k: nat)
    requires k < 8 && IsAnd(x, y, z)
    ensures Masked(z, k) <==> Masked(x, k) && Masked(y, k)
  {}

  lemma AndIsBv(a: byte, v: byte)
    ensures IsAnd(Bv(a), Bv(v), Bv(And(a, v)))
  {
    BackToBv(a as bv8 & v as bv8);
  }

  lemma AndBits(a: byte, v: byte, k: nat)
    requires k < 8
    ensures BitAt(And(a, v), k) <==> BitAt(a, k) && BitAt(v, k)
  {
    hide *;
    DigitIsMasked(a, k);
    DigitIsMasked(v, k);
    DigitIsMasked(And(a, v), k);
    AndIsBv(a, v);
    MaskedAnd(Bv(a), Bv(v), Bv(And(a, v)), k);
  }

  predicate IsOr(x: bv8, y: bv8, z: bv8) { z == x | y }

  lemma MaskedOr(x: bv8, y: bv8, z: bv8, k: nat)
    requires k < 8 && IsOr(x, y, z)
    ensures Masked(z, k) <==> Masked(x, k) || Masked(y, k)
  {}

  lemma OrIsBv(a: byte, v: byte)
    ensures IsOr(Bv(a), Bv(v), Bv(Or(a, v)))
  {
    BackToBv(a as bv8 | v as bv8);
  }

  lemma OrBits(a: byte, v: byte, k: nat)
    requires k < 8
    ensures BitAt(Or(a, v), k) <==> BitAt(a, k) || BitAt(v, k)
  {
    hide *;
    DigitIsMasked(a, k);
    DigitIsMasked(v, k);
    DigitIsMasked(Or(a, v), k);
    OrIsBv(a, v);
    MaskedOr(Bv(a), Bv(v), Bv(Or(a, v)), k);
  }

  predicate IsXor(x: bv8, y: bv8, z: bv8) { z == x ^ y }

  lemma MaskedXor(x: bv8, y: bv8, z: bv8, k: nat)
    requires k < 8 && IsXor(x, y, z)
    ensures Masked(z, k) <==> Masked(x, k) != Masked(y, k)
  {}

  lemma XorIsBv(a: byte, v: byte)
    ensures IsXor(Bv(a), Bv(v), Bv(Xor(a, v)))
  {
    BackToBv(a as bv8 ^ v as bv8);
  }

  lemma XorBits(a: byte, v: byte, k: nat)
    requires k < 8
    ensures BitAt(Xor(a, v), k) <==> BitAt(a, k) != BitAt(v, k)
  {
    hide *;
    DigitIsMasked(a, k);
    DigitIsMasked(v, k);
    DigitIsMasked(Xor(a, v), k);
    XorIsBv(a, v);
    MaskedXor(Bv(a), Bv(v), Bv(Xor(a, v)), k);
  }

  lemma NoBits(b: byte)
    ensures b == 0 <==> forall k :: 0 <= k < 8 ==> !BitAt(b, k)
  {
    if forall k :: 0 <= k < 8 ==> !BitAt(b, k) {
      assert !BitAt(b, 0) && !BitAt(b, 1) && !BitAt(b, 2) && !BitAt(b, 3);
      assert !BitAt(b, 4) && !BitAt(b, 5) && !BitAt(b, 6) && !BitAt(b, 7);
      var h1, h2, h3, h4, h5, h6, h7 := b / 2, b / 4, b / 8, b / 16, b / 32, b / 64, b / 128;
      assert h2 == h1 / 2 && h3 == h2 / 2 && h4 == h3 / 2 && h5 == h4 / 2 && h6 == h5 / 2 && h7 == h6 / 2;
      hide BitAt;
      assert h7 == 0;
    }
  }

  // ----- Arithmetic and logic: `t` is the machine `u` after the operation on the byte `v` -----

  /** `t` is `u` with other flags and another accumulator, to which Z and N agree. */
  predicate InA(u: State, t: State) {
    t == u.(a := t.a, p := t.p) && (t.p.z <==> t.a == 0) && (t.p.n <==> t.a >= 128)
  }

  lemma LogicLaw(u: State, v: byte, op: Operation)
    requires op in {AndA, OrA, EorA}
    ensures var t := Alu(op, u, v);
      && InA(u, t) && t.p == u.p.(z := t.p.z, n := t.p.n)
      && forall k :: 0 <= k < 8 ==>
           (BitAt(t.a, k) <==>
            if op == AndA then BitAt(u.a, k) && BitAt(v, k)
            else if op == OrA then BitAt(u.a, k) || BitAt(v, k)
            else BitAt(u.a, k) != BitAt(v, k))
  {
    hide BitAt, And, Or, Xor;
    forall k | 0 <= k < 8
      ensures BitAt(And(u.a, v), k) <==> BitAt(u.a, k) && BitAt(v, k)
      ensures BitAt(Or(u.a, v), k) <==> BitAt(u.a, k) || BitAt(v, k)
      ensures BitAt(Xor(u.a, v), k) <==> BitAt(u.a, k) != BitAt(v, k)
    {
      AndBits(u.a, v, k);
      OrBits(u.a, v, k);
      XorBits(u.a, v, k);
    }
  }

  lemma BitLaw(u: State, v: byte)
    ensures var t := Alu(BitTest, u, v);
      && t == u.(p := u.p.(z := t.p.z, v := BitAt(v, 6), n := BitAt(v, 7)))
      && (t.p.z <==> forall k :: 0 <= k < 8 ==> !(BitAt(u.a, k) && BitAt(v, k)))
  {
    assert BitAt(v, 6) == (v / 64 % 2 == 1) && BitAt(v, 7) == (v / 128 % 2 == 1);
    hide BitAt, And;
    NoBits(And(u.a, v));
    forall k | 0 <= k < 8
      ensures BitAt(And(u.a, v), k) <==> BitAt(u.a, k) && BitAt(v, k)
    {
      AndBits(u.a, v, k);
    }
  }

  lemma LoadLaw(u: State, v: byte)
    ensures Alu(Load(A), u, v) == u.(a := v, p := u.p.(z := v == 0, n := v >= 128))
    ensures Alu(Load(X), u, v) == u.(x := v, p := u.p.(z := v == 0, n := v >= 128))
    ensures Alu(Load(Y), u, v) == u.(y := v, p := u.p.(z := v == 0, n := v >= 128))
  {}

  /** What a comparison of the register value `r` with `v` does to the flags. */
  function Compared(p: Flags, r: byte, v: byte): Flags {
    p.(c := r >= v, z := r == v, n := (r - v) % 256 >= 128)
  }

  lemma ComparedBytes(u: State, r: byte, v: byte)
    ensures CompareWith(u, r, v) == u.(p := Compared(u.p, r, v))
  {
    assert (r - v) % 256 == 0 <==> r == v;
  }

  lemma CompareLaw(u: State, v: byte)
    ensures Alu(Compare(A), u, v) == u.(p := Compared(u.p, u.a, v))
    ensures Alu(Compare(X), u, v) == u.(p := Compared(u.p, u.x, v))
    ensures Alu(Compare(Y), u, v) == u.(p := Compared(u.p, u.y, v))
  {
    hide CompareWith, Compared, LoadReg, AddWithCarry, TestBits, And, Or, Xor;
    ComparedBytes(u, u.a, v);
    ComparedBytes(u, u.x, v);
    ComparedBytes(u, u.y, v);
  }

  /** A byte read as a two's-complement number. */
  function Twos(b: byte): int { if b < 128 then b else b - 256 }

  lemma AdcLaw(u: State, v: byte)
    ensures var t, c := Alu(Adc, u, v), if u.p.c then 1 else 0;
      && InA(u, t) && t.p == u.p.(c := t.p.c, z := t.p.z, v := t.p.v, n := t.p.n)
      && t.a + (if t.p.c then 256 else 0) == u.a + v + c
      && (t.p.v <==> !(-128 <= Twos(u.a) + Twos(v) + c < 128))
  {}

  lemma SbcLaw(u: State, v: byte)
    ensures var t, b := Alu(Sbc, u, v), if u.p.c then 0 else 1;
      && InA(u, t) && t.p == u.p.(c := t.p.c, z := t.p.z, v := t.p.v, n := t.p.n)
      && t.a == u.a - v - b + (if t.p.c then 0 else 256) && (t.p.c <==> u.a >= v + b)
      && (t.p.v <==> !(-128 <= Twos(u.a) - Twos(v) - b < 128))
  {
    hide Alu, AddWithCarry;
    AdditionOps(u, v);
    AdditionOps(u, 255 - v);
    AdcLaw(u, 255 - v);
  }

  /** What shifts and counts make of a byte: the result, and the flags it leaves. */
  lemma RmwLaw(p: Flags, v: byte, op: Operation)
    requires IsRmw(op)
    ensures var w, q, c := RmwResult(op, p.c, v), RmwFlags(op, p, v), if p.c then 1 else 0;
      && q == p.(c := q.c, z := w == 0, n := w >= 128)
      && (op == Asl ==> w == 2 * v % 256 && (q.c <==> v >= 128))
      && (op == Rol ==> w == (2 * v + c) % 256 && (q.c <==> v >= 128))
      && (op == Lsr ==> w == v / 2 && (q.c <==> v % 2 == 1))
      && (op == Ror ==> w == (v + 256 * c) / 2 && (q.c <==> v % 2 == 1))
      && (op == Inc ==> w == (v + 1) % 256 && q.c == p.c)
      && (op == Dec ==> w == (v + 255) % 256 && q.c == p.c)
  {
    match op
    case Rol => RotateByte(p.c, v);
    case Ror => RotateByte(p.c, v);
    case _ =>
  }

  lemma RotateByte(c: bool, v: byte)
    ensures RmwResult(Rol, c, v) == (2 * v + if c then 1 else 0) % 256
    ensures RmwResult(Ror, c, v) == (v + if c then 256 else 0) / 2
  {}

  // ----- One step of the instructions that need no operand address -----

  function WithY(s: State, n: nat, v: byte): State {
    s.(pc := (s.pc + n) % 65536, y := v, p := s.p.(z := v == 0, n := v >= 128))
  }

  lemma RegisterFilled(s: State, f: State, v: byte)
    requires Like(f, Past(s, 1))
    ensures Like(Tick(LoadReg(f, A, v), 2), WithA(s, 1, v))
    ensures Like(Tick(LoadReg(f, X, v), 2), WithX(s, 1, v))
    ensures Like(Tick(LoadReg(f, Y, v), 2), WithY(s, 1, v))
  {}

  lemma CountLaw(s: State, op: Operation)
    requires At(s, op, Implied)
    ensures op == IncReg(X) ==> Like(Step(s), WithX(s, 1, (s.x + 1) % 256))
    ensures op == IncReg(Y) ==> Like(Step(s), WithY(s, 1, (s.y + 1) % 256))
    ensures op == DecReg(X) ==> Like(Step(s), WithX(s, 1, (s.x + 255) % 256))
    ensures op == DecReg(Y) ==> Like(Step(s), WithY(s, 1, (s.y + 255) % 256))
  {
    hide Step, Execute, Decode, FetchOpcode, At, LoadReg, WithX, WithY;
    StepsInto(s, op, Implied);
    var f := FetchOpcode(s).0;
    IncDecExecutes(f);
    RegisterFilled(s, f, if op.IncReg? then (s.x + 1) % 256 else (s.x + 255) % 256);
    RegisterFilled(s, f, if op.IncReg? then (s.y + 1) % 256 else (s.y + 255) % 256);
    assert (s.x - 1) % 256 == (s.x + 255) % 256 && (s.y - 1) % 256 == (s.y + 255) % 256;
  }

  lemma TransferLaw(s: State, op: Operation)
    requires At(s, op, Implied)
    ensures op == Transfer(A, X) ==> Like(Step(s), WithX(s, 1, s.a))
    ensures op == Transfer(A, Y) ==> Like(Step(s), WithY(s, 1, s.a))
    ensures op == Transfer(X, A) ==> Like(Step(s), WithA(s, 1, s.x))
    ensures op == Transfer(Y, A) ==> Like(Step(s), WithA(s, 1, s.y))
    ensures op == Transfer(SP, X) ==> Like(Step(s), WithX(s, 1, s.sp))
    ensures op == Transfer(X, SP) ==> Like(Step(s), s.(pc := (s.pc + 1) % 65536, sp := s.x))
  {
    hide Step, Execute, Decode, FetchOpcode, At, LoadReg, WithA, WithX, WithY;
    StepsInto(s, op, Implied);
    var f := FetchOpcode(s).0;
    TransferFromA(f);
    TransferToA(f);
    TransferStackPointer(f);
    RegisterFilled(s, f, s.a);
    RegisterFilled(s, f, s.x);
    RegisterFilled(s, f, s.y);
    RegisterFilled(s, f, s.sp);
  }

  lemma AccumulatorLaw(s: State, op: Operation)
    requires At(s, op, Accumulator) && IsRmw(op)
    ensures Like(Step(s), s.(pc := (s.pc + 1) % 65536, a := RmwResult(op, s.p.c, s.a), p := RmwFlags(op, s.p, s.a)))
  {
    hide Step, Execute, Decode, FetchOpcode, RmwResult, RmwFlags;
    StepsInto(s, op, Accumulator);
    RmwExecutes(op, FetchOpcode(s).0);
  }

  /** One named flag of the status register. */
  predicate IsOn(p: Flags, f: FlagName) {
    match f
    case C => p.c
    case Z => p.z
    case I => p.i
    case D => p.d
    case V => p.v
    case N => p.n
  }

  lemma FlagLaw(s: State, f: FlagName, on: bool)
    requires At(s, SetFlag(f, on), Implied)
    ensures var t := Step(s);
      && Like(t, s.(pc := (s.pc + 1) % 65536, p := t.p)) && t.p.b == s.p.b && t.p.u == s.p.u
      && forall g :: IsOn(t.p, g) == if g == f then on else IsOn(s.p, g)
  {
    hide Step, Execute, Decode, FetchOpcode;
    StepsInto(s, SetFlag(f, on), Implied);
    FlagExecutes(FetchOpcode(s).0);
  }

  lemma BranchLaw(s: State, f: FlagName, on: bool)
    requires At(s, Branch(f, on), Relative)
    ensures var taken := IsOn(s.p, f) == on;
      Like(Step(s), s.(pc := (s.pc + 2 + if taken then Twos(Next1(s)) else 0) % 65536))
  {
    hide Step, Execute, Decode, FetchOpcode, Fetch;
    StepsInto(s, Branch(f, on), Relative);
    var g := FetchOpcode(s).0;
    FetchesNext(s, g);
    BranchExecutes(g);
  }

  lemma JumpLaw(s: State, m: Mode)
    requires At(s, Jmp, m) && (m == Absolute || m == Indirect)
    ensures Like(Step(s), s.(pc := Target(m, s)))
  {
    hide Step, Execute, Decode, FetchOpcode, Effective, Target;
    StepsInto(s, Jmp, m);
    var f := FetchOpcode(s).0;
    JmpExecutes(f);
    TargetReached(m, s, f);
  }

  lemma JmpAbsolute(s: State, lo: byte, hi: byte)
    requires Sees(s, [0x4C, lo, hi])
    ensures Like(Step(s), s.(pc := lo + 256 * hi))
  {
    hide Step, Decode, Sees;
    JumpTable();
    SeesAt(s, [0x4C, lo, hi], Jmp, Absolute);
    JumpLaw(s, Absolute);
  }

  /** The pointer's high byte comes from the next address, in the next page too. */
  lemma JmpIndirect(s: State, lo: byte, hi: byte)
    requires Sees(s, [0x6C, lo, hi]) && !Io(lo + 256 * hi) && !Io((lo + 256 * hi + 1) % 65536)
    ensures Like(Step(s), s.(pc := WordIn(s.mem.ram, lo + 256 * hi, (lo + 256 * hi + 1) % 65536)))
  {
    hide Step, Decode;
    JumpTable();
    var code := [0x6C, lo, hi];
    assert Plus(s.pc, 0) == s.pc;
    assert code[1] == s.mem.ram[Plus(s.pc, 1)] && code[2] == s.mem.ram[Plus(s.pc, 2)];
    JumpLaw(s, Indirect);
  }

  lemma IdleLaw(s: State)
    ensures At(s, Nop, Implied) ==> Like(Step(s), s.(pc := (s.pc + 1) % 65536))
    ensures At(s, Brk, Implied) ==> Like(Step(s), s.(pc := (s.pc + 1) % 65536, halted := true))
  {
    hide Step, Execute, Decode, FetchOpcode, At;
    MiscExecutes(FetchOpcode(s).0);
    if At(s, Nop, Implied) { StepsInto(s, Nop, Implied); }
    if At(s, Brk, Implied) { StepsInto(s, Brk, Implied); }
  }

  // ----- The status byte, and the instructions that push and pull -----

  /** Which bit of the status byte is which flag. */
  lemma StatusLayout(f: Flags)
    ensures ToByte(f) == (if f.c then 1 else 0) + (if f.z then 2 else 0) + (if f.i then 4 else 0)
                       + (if f.d then 8 else 0) + (if f.b then 16 else 0) + (if f.u then 32 else 0)
                       + (if f.v then 64 else 0) + (if f.n then 128 else 0)
  {}

  lemma StatusBits(b: byte)
    ensures var f := FromByte(b);
      && f.c == BitAt(b, 0) && f.z == BitAt(b, 1) && f.i == BitAt(b, 2) && f.d == BitAt(b, 3)
      && f.b == BitAt(b, 4) && f.u == BitAt(b, 5) && f.v == BitAt(b, 6) && f.n == BitAt(b, 7)
  {}

  lemma PushLaw(s: State)
    ensures var t := Step(s); var pushed := s.(pc := (s.pc + 1) % 65536, sp := (s.sp + 255) % 256, mem := t.mem);
      && (At(s, Pha, Implied) ==> Like(t, pushed) && t.mem.ram == s.mem.ram[256 + s.sp := s.a])
      && (At(s, Php, Implied) ==>
            Like(t, pushed) && t.mem.ram == s.mem.ram[256 + s.sp := ToByte(s.p.(b := true, u := true))])
  {
    hide Step, Execute, Decode, FetchOpcode, At, Mirror, ToByte;
    PushExecutes(FetchOpcode(s).0);
    if At(s, Pha, Implied) { StepsInto(s, Pha, Implied); }
    if At(s, Php, Implied) { StepsInto(s, Php, Implied); }
  }

  lemma PullLaw(s: State)
    ensures var sp: byte := (s.sp + 1) % 256; var v := s.mem.ram[256 + sp];
      var t := s.(pc := (s.pc + 1) % 65536, sp := sp);
      && (At(s, Pla, Implied) ==> Like(Step(s), t.(a := v, p := s.p.(z := v == 0, n := v >= 128))))
      && (At(s, Plp, Implied) ==> Like(Step(s), t.(p := FromByte(v).(b := false, u := true))))
  {
    hide Step, Execute, Decode, FetchOpcode, At, FromByte;
    PullExecutes(FetchOpcode(s).0);
    if At(s, Pla, Implied) { StepsInto(s, Pla, Implied); }
    if At(s, Plp, Implied) { StepsInto(s, Plp, Implied); }
  }

  // ----- Time, halting, I/O -----

  /** The clock counts an instruction's cycles modulo 2^64, and one more for a branch that is taken. */
  lemma TimeLaw(s: State, op: Operation, m: Mode)
    requires At(s, op, m)
    ensures Step(s).cycles ==
            (s.cycles + Cycles(Instruction(op, m)) + if op.Branch? && IsOn(s.p, op.f) == op.on then 1 else 0)
            % 0x1_0000_0000_0000_0000
  {
    hide Step, Decode, FetchOpcode, Effect, EffectWrites, Execute, Cycles, At, Record;
    StepsInto(s, op, m);
    var i, f := Instruction(op, m), FetchOpcode(s).0;
    FetchedValue(s);
    EffectSummary(i, f);
    ExecuteTicks(i, f);
  }

  /** An opcode without a label costs one byte and no time, and halts the machine. */
  lemma IllegalLaw(s: State)
    requires !s.halted && !Io(s.pc) && Decode(s.mem.ram[s.pc]).None?
    ensures Like(Step(s), s.(pc := (s.pc + 1) % 65536, halted := true)) && Step(s).cycles == s.cycles
  {
    hide Decode, Step;
    StepHalts(s, s.mem.ram[s.pc]);
    FetchedValue(s);
  }

  /** Reading the keyboard port shows no key, and reading the raster register moves the beam. */
  lemma PortLaw(s: State)
    requires At(s, Load(A), Absolute)
    ensures Target(Absolute, s) == 0xDC01 ==> Like(Step(s), WithA(s, 3, 0xFF))
    ensures Target(Absolute, s) == 0xD012 ==>
              var line := (s.mem.raster + 1) % 312;
              Like(Step(s), WithA(s, 3, line % 256).(mem := s.mem.(raster := line)))
  {
    hide Step, Execute, Decode, FetchOpcode, Effective, Target;
    LdaTable();
    StepsInto(s, Load(A), Absolute);
    var f := FetchOpcode(s).0;
    AluExecutes(Load(A), f);
    TargetReached(Absolute, s, f);
  }
}
