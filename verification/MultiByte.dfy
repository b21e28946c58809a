/** The unrolled n-byte addition and subtraction program, run by the interpreter's steps. */
module MultiByte {
  import opened Wrappers
  import opened Bytes
  import opened Memory
  import opened Isa
  import opened Cpu
  import opened Decoding
  import opened Instructions
  import opened Runs
  import opened Programs
  import opened Arithmetic

  /** LDA x+i / ADC (or SBC) y+i / STA z+i, all absolute. */
  function Block(op: Operation, x: word, y: word, z: word, i: nat): (code: seq<byte>)
    ensures |code| == 9
  {
    [0xAD, Lo(Plus(x, i)), Hi(Plus(x, i)),
     SumOpcode(op), Lo(Plus(y, i)), Hi(Plus(y, i)),
     0x8D, Lo(Plus(z, i)), Hi(Plus(z, i))]
  }

  function Blocks(op: Operation, x: word, y: word, z: word, n: nat): (code: seq<byte>)
    ensures |code| == 9 * n
  {
    if n == 0 then [] else Blocks(op, x, y, z, n - 1) + Block(op, x, y, z, n - 1)
  }

  /** CLC (or SEC), then one block a byte. */
  function Program(op: Operation, x: word, y: word, z: word, n: nat): (code: seq<byte>)
    ensures |code| == 1 + 9 * n
  {
    [if op == Sbc then 0x38 else 0x18] + Blocks(op, x, y, z, n)
  }

  lemma {:induction false} BlockAt(op: Operation, x: word, y: word, z: word, n: nat, i: nat)
    requires i < n
    ensures Blocks(op, x, y, z, n)[9 * i..9 * i + 9] == Block(op, x, y, z, i)
  {
    hide Block;
    if i < n - 1 {
      BlockAt(op, x, y, z, n - 1, i);
      assert Blocks(op, x, y, z, n)[9 * i..9 * i + 9] == Blocks(op, x, y, z, n - 1)[9 * i..9 * i + 9];
    }
  }

  /** Instruction `j` of block `i`. */
  lemma InstructionAt(op: Operation, x: word, y: word, z: word, n: nat, i: nat, j: nat)
    requires i < n && j < 3
    ensures var at := 1 + 9 * i + 3 * j;
      Program(op, x, y, z, n)[at..at + 3] == Block(op, x, y, z, i)[3 * j..3 * j + 3]
  {
    hide Block, Blocks;
    BlockAt(op, x, y, z, n, i);
    var head, bs := [if op == Sbc then 0x38 else 0x18], Blocks(op, x, y, z, n);
    SliceOfSlice(head, bs, 9 * i, 9, 3 * j, 3);
  }

  lemma SliceOfSlice(head: seq<byte>, s: seq<byte>, at: nat, n: nat, from: nat, m: nat)
    requires at + n <= |s| && from + m <= n
    ensures var all := head + s; var start := |head| + at + from;
      all[start..start + m] == s[at..at + n][from..from + m]
  {
    var start, part := |head| + at + from, s[at..at + n];
    var left, right := (head + s)[start..start + m], part[from..from + m];
    forall k | 0 <= k < m
      ensures left[k] == right[k]
    {
      assert part[from + k] == s[at + (from + k)];
    }
  }

  function SumOpcode(op: Operation): byte { if op == Sbc then 0xED else 0x6D }

  lemma BlockParts(op: Operation, x: word, y: word, z: word, i: nat)
    ensures Block(op, x, y, z, i)[0..3] == [0xAD, Lo(Plus(x, i)), Hi(Plus(x, i))]
    ensures Block(op, x, y, z, i)[3..6] == [SumOpcode(op), Lo(Plus(y, i)), Hi(Plus(y, i))]
    ensures Block(op, x, y, z, i)[6..9] == [0x8D, Lo(Plus(z, i)), Hi(Plus(z, i))]
  {}

  lemma SumDecodes(op: Operation)
    requires IsSum(op)
    ensures Decode(SumOpcode(op)) == Some(Instruction(op, Absolute)) && IsAlu(op)
  {
    hide Decode;
    AdcTable();
    SbcTable();
  }

  /** The operands are plain memory, and no result byte lands on the code or on an operand byte still to be read. */
  ghost predicate Layout(at: word, x: word, y: word, z: word, n: nat) {
    && n <= 65536
    && (forall i :: 0 <= i < n ==> !Io(Plus(x, i)) && !Io(Plus(y, i)))
    && (forall i, k :: 0 <= i < n && 0 <= k < 1 + 9 * n ==> Plus(z, i) != Plus(at, k))
    && (forall i, j :: 0 <= i < j < n ==> Plus(z, i) != Plus(x, j) && Plus(z, i) != Plus(y, j))
  }

  lemma LoadByte(s: State, op: Operation, at: word, x: word, y: word, z: word, n: nat, i: nat)
    requires Running(s, at, Program(op, x, y, z, n), 1 + 9 * i) && i < n && !Io(Plus(x, i))
    ensures var t := Step(s);
      && Running(t, at, Program(op, x, y, z, n), 1 + 9 * i + 3)
      && t.a == s.mem.ram[Plus(x, i)] && (t.p.c, t.p.v) == (s.p.c, s.p.v) && t.mem == s.mem
  {
    hide Step, Sees, Running, Program, Block, Plus, Lo, Hi, Word, Decode;
    var code, k := Program(op, x, y, z, n), 1 + 9 * i;
    var addr := Plus(x, i);
    RunningLive(s, at, code, k);
    LdaTable();
    RunningSees(s, at, code, k, 3);
    InstructionAt(op, x, y, z, n, i, 0);
    BlockParts(op, x, y, z, i);
    assert code[k..k + 3] == [0xAD, Lo(addr), Hi(addr)];
    StepAbsolute(s, 0xAD, Lo(addr), Hi(addr), Load(A));
    WordOfHalves(addr);
    RunningOn(s, Step(s), at, code, k, 3);
  }

  predicate IsSum(op: Operation) { op == Adc || op == Sbc }

  lemma CombineByte(s: State, op: Operation, at: word, x: word, y: word, z: word, n: nat, i: nat)
    requires IsSum(op) && Running(s, at, Program(op, x, y, z, n), 1 + 9 * i + 3) && i < n && !Io(Plus(y, i))
    ensures var t := Step(s); var u := Alu(op, s, s.mem.ram[Plus(y, i)]);
      && Running(t, at, Program(op, x, y, z, n), 1 + 9 * i + 6)
      && t.a == u.a && (t.p.c, t.p.v) == (u.p.c, u.p.v) && t.mem == s.mem
  {
    hide Step, Sees, Running, Program, Block, Plus, Lo, Hi, Word, Alu, Decode, SumOpcode;
    var code, k := Program(op, x, y, z, n), 1 + 9 * i + 3;
    var addr := Plus(y, i);
    var opcode := SumOpcode(op);
    RunningLive(s, at, code, k);
    SumDecodes(op);
    RunningSees(s, at, code, k, 3);
    InstructionAt(op, x, y, z, n, i, 1);
    BlockParts(op, x, y, z, i);
    assert code[k..k + 3] == [opcode, Lo(addr), Hi(addr)];
    StepAbsolute(s, opcode, Lo(addr), Hi(addr), op);
    WordOfHalves(addr);
    SumDepends(op, s, Past(s, 3), s.mem.ram[addr]);
    RunningOn(s, Step(s), at, code, k, 3);
  }

  lemma SumDepends(op: Operation, s: State, t: State, v: byte)
    requires IsSum(op) && s.a == t.a && s.p.c == t.p.c
    ensures var s', t' := Alu(op, s, v), Alu(op, t, v);
      && s'.a == t'.a && (s'.p.c, s'.p.v) == (t'.p.c, t'.p.v)
      && (t'.pc, t'.halted, t'.mem) == (t.pc, t.halted, t.mem)
  {
    hide Alu, AddWithCarry;
    AdditionOps(s, v);
    AdditionOps(t, v);
    AdditionDepends(s, t, if op == Sbc then 255 - v else v);
  }

  lemma AdditionDepends(s: State, t: State, v: byte)
    requires s.a == t.a && s.p.c == t.p.c
    ensures var s', t' := AddWithCarry(s, v), AddWithCarry(t, v);
      && s'.a == t'.a && (s'.p.c, s'.p.v) == (t'.p.c, t'.p.v)
      && (t'.pc, t'.halted, t'.mem) == (t.pc, t.halted, t.mem)
  {
    hide Overflows;
  }

  lemma StoreByte(s: State, op: Operation, at: word, x: word, y: word, z: word, n: nat, i: nat)
    requires Running(s, at, Program(op, x, y, z, n), 1 + 9 * i + 6) && i < n && Layout(at, x, y, z, n)
    ensures var t := Step(s);
      && Running(t, at, Program(op, x, y, z, n), 1 + 9 * i + 9)
      && t.a == s.a && (t.p.c, t.p.v) == (s.p.c, s.p.v) && t.mem.ram == s.mem.ram[Plus(z, i) := s.a]
  {
    hide Step, Sees, Running, Program, Block, Plus, Lo, Hi, Word, Mirror, Layout, Decode;
    var code, k := Program(op, x, y, z, n), 1 + 9 * i + 6;
    var addr := Plus(z, i);
    RunningLive(s, at, code, k);
    StaTable();
    RunningSees(s, at, code, k, 3);
    InstructionAt(op, x, y, z, n, i, 2);
    BlockParts(op, x, y, z, i);
    assert code[k..k + 3] == [0x8D, Lo(addr), Hi(addr)];
    StepStoreAbsolute(s, 0x8D, Lo(addr), Hi(addr), A);
    WordOfHalves(addr);
    CodeSpared(s, Step(s), op, at, x, y, z, n, i);
  }

  lemma CodeSpared(s: State, t: State, op: Operation, at: word, x: word, y: word, z: word, n: nat, i: nat)
    requires Running(s, at, Program(op, x, y, z, n), 1 + 9 * i + 6) && i < n && Layout(at, x, y, z, n)
    requires !t.halted && t.pc == Plus(s.pc, 3) && t.mem.ram == s.mem.ram[Plus(z, i) := s.a]
    ensures Running(t, at, Program(op, x, y, z, n), 1 + 9 * i + 9)
  {
    PlusPlus(at, 1 + 9 * i + 6, 3);
    hide Plus, Program;
  }

  // ----- The whole program -----

  function BytesAt(ram: Ram, at: word, n: nat): (bs: seq<byte>)
    ensures |bs| == n && forall i :: 0 <= i < n ==> bs[i] == ram[Plus(at, i)]
  {
    seq(n, i => ram[Plus(at, i)])
  }

  predicate Outside(k: word, z: word, n: nat) { forall i :: 0 <= i < n ==> k != Plus(z, i) }

  ghost predicate Kept(s: State, t: State, z: word, n: nat) {
    forall k: word {:trigger Outside(k, z, n)} :: Outside(k, z, n) ==> t.mem.ram[k] == s.mem.ram[k]
  }

  /** After `i` blocks: the first `i` result bytes are stored and the operand bytes to come are untouched. */
  ghost predicate Progress(s: State, t: State, out: seq<byte>, x: word, y: word, z: word, n: nat, i: nat) {
    && |out| == i <= n
    && (forall j :: 0 <= j < i ==> t.mem.ram[Plus(z, j)] == out[j])
    && (forall j :: i <= j < n ==> t.mem.ram[Plus(x, j)] == s.mem.ram[Plus(x, j)])
    && (forall j :: i <= j < n ==> t.mem.ram[Plus(y, j)] == s.mem.ram[Plus(y, j)])
  }

  lemma ResultsDistinct(z: word, n: nat, i: nat)
    requires i < n <= 65536
    ensures forall j :: 0 <= j < i ==> Plus(z, j) != Plus(z, i)
  {}

  lemma ProgressOn(s: State, t: State, u: State, out: seq<byte>, at: word, x: word, y: word, z: word, n: nat, i: nat)
    requires Progress(s, t, out, x, y, z, n, i) && i < n && Layout(at, x, y, z, n)
    requires u.mem.ram == t.mem.ram[Plus(z, i) := u.a]
    ensures Progress(s, u, out + [u.a], x, y, z, n, i + 1)
  {
    ResultsDistinct(z, n, i);
    hide Plus;
  }

  lemma KeptOn(s: State, t: State, u: State, z: word, i: nat)
    requires Kept(s, t, z, i) && u.mem.ram == t.mem.ram[Plus(z, i) := u.a]
    ensures Kept(s, u, z, i + 1)
  {
    forall k: word | Outside(k, z, i + 1)
      ensures u.mem.ram[k] == s.mem.ram[k]
    {
      assert k != Plus(z, i);
      assert Outside(k, z, i);
    }
  }

  lemma StartProgram(s: State, op: Operation, at: word, x: word, y: word, z: word, n: nat)
    requires IsSum(op) && Running(s, at, Program(op, x, y, z, n), 0)
    ensures var t := Step(s);
      Running(t, at, Program(op, x, y, z, n), 1) && t.p.c == (op == Sbc) && t.mem == s.mem
  {
    hide Step, Sees, Running, Plus, Blocks;
    var code := Program(op, x, y, z, n);
    var opcode := if op == Sbc then 0x38 else 0x18;
    RunningLive(s, at, code, 0);
    FlagTable();
    RunningSees(s, at, code, 0, 1);
    assert code[0..1] == [opcode];
    StepSetFlag(s, opcode, C, op == Sbc);
    RunningOn(s, Step(s), at, code, 0, 1);
  }

  /** One block adds one byte, in step with the chain of accumulator operations `r`. */
  lemma OneBlock(t: State, r: State, op: Operation, at: word, x: word, y: word, z: word, n: nat, i: nat)
    requires IsSum(op) && Running(t, at, Program(op, x, y, z, n), 1 + 9 * i) && i < n && Layout(at, x, y, z, n)
    requires r.p.c == t.p.c
    ensures var u := Steps(t, 3);
      var v := Alu(op, LoadReg(r, A, t.mem.ram[Plus(x, i)]), t.mem.ram[Plus(y, i)]);
      && Running(u, at, Program(op, x, y, z, n), 1 + 9 * i + 9)
      && u.a == v.a && (u.p.c, u.p.v) == (v.p.c, v.p.v) && u.mem.ram == t.mem.ram[Plus(z, i) := u.a]
  {
    OperandsArePlain(at, x, y, z, n, i);
    hide Step, Running, Program, Plus, Alu, Layout;
    LoadByte(t, op, at, x, y, z, n, i);
    CombineByte(Step(t), op, at, x, y, z, n, i);
    StoreByte(Step(Step(t)), op, at, x, y, z, n, i);
    ThreeSteps(t);
    SumDepends(op, Step(t), LoadReg(r, A, t.mem.ram[Plus(x, i)]), t.mem.ram[Plus(y, i)]);
  }

  lemma OperandsArePlain(at: word, x: word, y: word, z: word, n: nat, i: nat)
    requires Layout(at, x, y, z, n) && i < n
    ensures !Io(Plus(x, i)) && !Io(Plus(y, i))
  {}

  ghost predicate InStep(s: State, t: State, op: Operation, at: word, x: word, y: word, z: word, n: nat, i: nat) {
    var (r, out) := Chain(op, Step(s), BytesAt(s.mem.ram, x, i), BytesAt(s.mem.ram, y, i));
    && Running(t, at, Program(op, x, y, z, n), 1 + 9 * i)
    && t.p.c == r.p.c && (i > 0 ==> t.p.v == r.p.v)
    && Progress(s, t, out, x, y, z, n, i) && Kept(s, t, z, i)
  }

  lemma ChainGrows(op: Operation, s: State, ram: Ram, x: word, y: word, i: nat)
    ensures var (r, out) := Chain(op, s, BytesAt(ram, x, i), BytesAt(ram, y, i));
      var v := Alu(op, LoadReg(r, A, ram[Plus(x, i)]), ram[Plus(y, i)]);
      Chain(op, s, BytesAt(ram, x, i + 1), BytesAt(ram, y, i + 1)) == (v, out + [v.a])
  {
    hide Alu, LoadReg;
    assert BytesAt(ram, x, i + 1)[..i] == BytesAt(ram, x, i);
    assert BytesAt(ram, y, i + 1)[..i] == BytesAt(ram, y, i);
  }

  lemma BlockProgress(s: State, t: State, r: State, out: seq<byte>,
                      op: Operation, at: word, x: word, y: word, z: word, n: nat, i: nat)
    requires IsSum(op) && Layout(at, x, y, z, n) && i < n && Running(t, at, Program(op, x, y, z, n), 1 + 9 * i)
    requires t.p.c == r.p.c && Progress(s, t, out, x, y, z, n, i) && Kept(s, t, z, i)
    ensures var u := Steps(t, 3);
      var v := Alu(op, LoadReg(r, A, s.mem.ram[Plus(x, i)]), s.mem.ram[Plus(y, i)]);
      && Running(u, at, Program(op, x, y, z, n), 1 + 9 * i + 9) && (u.p.c, u.p.v) == (v.p.c, v.p.v)
      && Progress(s, u, out + [v.a], x, y, z, n, i + 1) && Kept(s, u, z, i + 1)
  {
    hide Step, Steps, Running, Program, Plus, Alu, Layout, Progress, Kept, LoadReg, IsSum;
    OperandsToCome(s, t, out, x, y, z, n, i);
    OneBlock(t, r, op, at, x, y, z, n, i);
    ProgressOn(s, t, Steps(t, 3), out, at, x, y, z, n, i);
    KeptOn(s, t, Steps(t, 3), z, i);
  }

  lemma BlockKeepsStep(s: State, t: State, op: Operation, at: word, x: word, y: word, z: word, n: nat, i: nat)
    requires IsSum(op) && Layout(at, x, y, z, n) && i < n && InStep(s, t, op, at, x, y, z, n, i)
    ensures InStep(s, Steps(t, 3), op, at, x, y, z, n, i + 1)
  {
    hide Step, Steps, Running, Program, Plus, Alu, Layout, Chain, Progress, Kept, BytesAt, LoadReg, IsSum;
    var r := Chain(op, Step(s), BytesAt(s.mem.ram, x, i), BytesAt(s.mem.ram, y, i));
    BlockProgress(s, t, r.0, r.1, op, at, x, y, z, n, i);
    ChainGrows(op, Step(s), s.mem.ram, x, y, i);
  }

  lemma OperandsToCome(s: State, t: State, out: seq<byte>, x: word, y: word, z: word, n: nat, i: nat)
    requires Progress(s, t, out, x, y, z, n, i) && i < n
    ensures t.mem.ram[Plus(x, i)] == s.mem.ram[Plus(x, i)] && t.mem.ram[Plus(y, i)] == s.mem.ram[Plus(y, i)]
  {}

  lemma NothingYet(s: State, op: Operation, at: word, x: word, y: word, z: word, n: nat)
    requires IsSum(op) && Running(s, at, Program(op, x, y, z, n), 0)
    ensures InStep(s, Step(s), op, at, x, y, z, n, 0)
  {
    hide Step, Running, Program;
    StartProgram(s, op, at, x, y, z, n);
  }

  lemma {:induction false} BlocksInStep(s: State, op: Operation, at: word, x: word, y: word, z: word, n: nat, i: nat)
    requires IsSum(op) && Running(s, at, Program(op, x, y, z, n), 0) && Layout(at, x, y, z, n) && i <= n
    ensures InStep(s, Steps(s, 1 + 3 * i), op, at, x, y, z, n, i)
  {
    hide Step, Running, Program, Layout, InStep, IsSum, Steps;
    if i == 0 {
      NothingYet(s, op, at, x, y, z, n);
      ThreeSteps(s);
    } else {
      BlocksInStep(s, op, at, x, y, z, n, i - 1);
      BlockKeepsStep(s, Steps(s, 1 + 3 * (i - 1)), op, at, x, y, z, n, i - 1);
      StepsCompose(s, 1 + 3 * (i - 1), 3);
    }
  }

  lemma ProgramResult(s: State, op: Operation, at: word, x: word, y: word, z: word, n: nat)
    requires IsSum(op) && Running(s, at, Program(op, x, y, z, n), 0) && Layout(at, x, y, z, n) && n > 0
    ensures var t := Steps(s, 1 + 3 * n);
      var (r, out) := Chain(op, Step(s), BytesAt(s.mem.ram, x, n), BytesAt(s.mem.ram, y, n));
      && Running(t, at, Program(op, x, y, z, n), 1 + 9 * n) && (t.p.c, t.p.v) == (r.p.c, r.p.v)
      && BytesAt(t.mem.ram, z, n) == out && Kept(s, t, z, n) && Step(s).p.c == (op == Sbc)
  {
    hide Step, Steps, Running, Program, Layout, Progress, Kept, BytesAt, Chain, Plus, IsSum;
    var out := Chain(op, Step(s), BytesAt(s.mem.ram, x, n), BytesAt(s.mem.ram, y, n)).1;
    BlocksInStep(s, op, at, x, y, z, n, n);
    StartProgram(s, op, at, x, y, z, n);
    ResultBytes(s, Steps(s, 1 + 3 * n), out, x, y, z, n);
  }

  /** The addition program stores the n-byte sum, with its carry in C and two's-complement overflow in V, and
      changes nothing else in RAM. */
  lemma AdditionProgram(s: State, at: word, x: word, y: word, z: word, n: nat)
    requires Running(s, at, Program(Adc, x, y, z, n), 0) && Layout(at, x, y, z, n) && n > 0
    ensures var t := Steps(s, 1 + 3 * n);
      var a, b, r := BytesAt(s.mem.ram, x, n), BytesAt(s.mem.ram, y, n), BytesAt(t.mem.ram, z, n);
      var half := 128 * Pow(n - 1);
      && Running(t, at, Program(Adc, x, y, z, n), 1 + 9 * n) && Kept(s, t, z, n)
      && Value(r) + Pow(n) * Bit(t.p.c) == Value(a) + Value(b)
      && (t.p.v <==> !(-half <= SignedValue(a) + SignedValue(b) < half))
  {
    hide Step, Steps, Running, Program, Chain, Value, SignedValue, Pow, Layout, Kept, BytesAt;
    ProgramResult(s, Adc, at, x, y, z, n);
    AddChain(Step(s), BytesAt(s.mem.ram, x, n), BytesAt(s.mem.ram, y, n));
    AddOverflow(Step(s), BytesAt(s.mem.ram, x, n), BytesAt(s.mem.ram, y, n));
  }

  /** The subtraction program stores the difference modulo 256^n, C meaning that nothing was borrowed. */
  lemma SubtractionProgram(s: State, at: word, x: word, y: word, z: word, n: nat)
    requires Running(s, at, Program(Sbc, x, y, z, n), 0) && Layout(at, x, y, z, n) && n > 0
    ensures var t := Steps(s, 1 + 3 * n);
      var a, b, r := BytesAt(s.mem.ram, x, n), BytesAt(s.mem.ram, y, n), BytesAt(t.mem.ram, z, n);
      var half := 128 * Pow(n - 1);
      && Running(t, at, Program(Sbc, x, y, z, n), 1 + 9 * n) && Kept(s, t, z, n)
      && (t.p.c <==> Value(a) >= Value(b))
      && Value(r) == Value(a) - Value(b) + (if t.p.c then 0 else Pow(n))
      && (t.p.v <==> !(-half <= SignedValue(a) - SignedValue(b) < half))
  {
    hide Step, Steps, Running, Program, Chain, Value, SignedValue, Pow, Layout, Kept, BytesAt;
    ProgramResult(s, Sbc, at, x, y, z, n);
    SubChain(Step(s), BytesAt(s.mem.ram, x, n), BytesAt(s.mem.ram, y, n));
    SubOverflow(Step(s), BytesAt(s.mem.ram, x, n), BytesAt(s.mem.ram, y, n));
  }

  lemma ResultBytes(s: State, t: State, out: seq<byte>, x: word, y: word, z: word, n: nat)
    requires Progress(s, t, out, x, y, z, n, n)
    ensures BytesAt(t.mem.ram, z, n) == out
  {}
}
