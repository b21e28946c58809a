/** Interrupt transparency: what an IRQ pushes, an RTI restores, whatever ran in between. */
module Interrupts {
  import opened Bytes
  import opened Memory
  import opened Isa
  import opened Cpu
  import opened Decoding
  import opened Instructions
  import opened Manual
  import opened Stack
  import opened Calls
  import opened Runs
  import opened Programs

  const RTI: byte := 0x40

  lemma FlagsRoundTrip(f: Flags)
    ensures FromByte(ToByte(f)) == f
  {
    var n7 := Bit(f.n);
    var n6 := Bit(f.v) + 2 * n7;
    var n5 := Bit(f.u) + 2 * n6;
    var n4 := Bit(f.b) + 2 * n5;
    var n3 := Bit(f.d) + 2 * n4;
    var n2 := Bit(f.i) + 2 * n3;
    var n1 := Bit(f.z) + 2 * n2;
    var n0 := Bit(f.c) + 2 * n1;
    assert n0 == ToByte(f);
    Halve(f.c, n1); Halve(f.z, n2); Halve(f.i, n3); Halve(f.d, n4); Halve(f.b, n5); Halve(f.u, n6); Halve(f.v, n7);
    assert n0 / 2 == n1 && n0 / 4 == n2 && n0 / 8 == n3;
    assert n0 / 16 == n4 && n0 / 32 == n5 && n0 / 64 == n6 && n0 / 128 == n7;
    hide ToByte;
  }

  lemma Halve(b: bool, n: nat)
    ensures (Bit(b) + 2 * n) / 2 == n && ((Bit(b) + 2 * n) % 2 == 1 <==> b)
  {}

  // ----- One interrupt -----

  /** Where RAM says that interrupts go. */
  function Vector(s: State): word { WordIn(s.mem.ram, 0xFFFE, 0xFFFF) }

  /** A request is ignored while I is set or the machine is halted, and otherwise taken to the vector. */
  lemma IrqIsMasked(s: State)
    ensures s.p.i || s.halted ==> Irq(s) == s
    ensures !s.p.i && !s.halted ==> Irq(s).pc == Vector(s) && Irq(s).p == s.p.(i := true)
  {
    if Accepts(s) { IrqPushes(s); hide Irq; }
  }

  lemma VectorKept(s: State)
    ensures WordIn(PushFrame(s).mem.ram, 0xFFFE, 0xFFFF) == Vector(s)
  {
    hide ToByte, Hi, Lo, Mirror;
  }

  lemma FramePushed(s: State)
    ensures var t := PushFrame(s);
      && t == s.(sp := (s.sp - 3) % 256, mem := t.mem)
      && Holds(t.mem.ram, t.sp, [Hi(s.pc), Lo(s.pc), ToByte(s.p.(b := false, u := true))])
  {
    hide Push, Holds, ToByte, Hi, Lo;
    var hi, lo := Hi(s.pc), Lo(s.pc);
    var status := ToByte(s.p.(b := false, u := true));
    EmptyHolds(s);
    PushHolds(s, [], hi);
    assert [] + [hi] == [hi];
    var one := Push(s, hi);
    PushHolds(one, [hi], lo);
    assert [hi] + [lo] == [hi, lo];
    PushHolds(Push(one, lo), [hi, lo], status);
    assert [hi, lo] + [status] == [hi, lo, status];
  }

  lemma IrqPushes(s: State)
    requires Accepts(s)
    ensures var t := Irq(s); var status := ToByte(s.p.(b := false, u := true));
      && t.sp == (s.sp - 3) % 256 && !t.halted && t.p == s.p.(i := true)
      && (t.a, t.x, t.y) == (s.a, s.x, s.y)
      && Holds(t.mem.ram, t.sp, [Hi(s.pc), Lo(s.pc), status])
      && t.mem == PushFrame(s).mem && t.pc == Vector(s)
  {
    hide PushFrame, ReadWord, Holds, ToByte, Later, Hi, Lo, Vector, WordIn;
    VectorKept(s);
    FramePushed(s);
    ReadsWord(PushFrame(s).(p := s.p.(i := true)), 0xFFFE, 0xFFFF);
  }

  lemma EmptyHolds(s: State)
    ensures Holds(s.mem.ram, s.sp, [])
  {}

  lemma ExecRtiPops(f: State, hi: byte, lo: byte, status: byte)
    requires Holds(f.mem.ram, f.sp, [hi, lo, status])
    ensures ExecRti(f) ==
            f.(sp := (f.sp + 3) % 256, p := FromByte(status).(b := false, u := true), pc := Word(lo, hi))
  {
    hide Pop, PopWord, Holds, FromByte, Word;
    PopHolds(f, [hi, lo, status]);
    assert [hi, lo, status][..2] == [] + [hi, lo];
    PopWordHolds(ExecPlp(f), [], hi, lo);
  }

  lemma RtiRestores(t: State, hi: byte, lo: byte, status: byte)
    requires Fetches(t, RTI) && Holds(t.mem.ram, t.sp, [hi, lo, status])
    ensures var u := Step(t);
      && u.sp == (t.sp + 3) % 256 && u.pc == Word(lo, hi) && u.p == FromByte(status).(b := false, u := true)
      && (u.a, u.x, u.y, u.halted, u.mem.ram) == (t.a, t.x, t.y, false, t.mem.ram)
  {
    hide Step, Execute, Decode, FetchOpcode, Holds, ReadValue, ExecRti, Later, FromByte, Word;
    JumpTable();
    StepExecutes(t, RTI);
    FetchedValue(t);
    RtiExecutes(FetchOpcode(t).0);
    ExecRtiPops(FetchOpcode(t).0, hi, lo, status);
  }

  /** Whatever runs after an accepted interrupt, an RTI that finds the pointer where the interrupt left it and the
      three pushed bytes intact restores pc, p and sp exactly. */
  lemma IrqThenRti(s: State, t: State)
    requires Accepts(s) && StatusOk(s.p)
    requires SameFrame(Irq(s), t, 3) && Fetches(t, RTI)
    ensures var u := Step(t);
      && (u.pc, u.p, u.sp, u.halted) == (s.pc, s.p, s.sp, false)
      && (u.a, u.x, u.y, u.mem.ram) == (t.a, t.x, t.y, t.mem.ram)
  {
    hide Step, Irq, Holds, ToByte, FromByte, Hi, Lo, Word, Fetches, SameFrame;
    var status := ToByte(s.p.(b := false, u := true));
    IrqPushes(s);
    QuietKeeps(Irq(s), t, [Hi(s.pc), Lo(s.pc), status]);
    SameFramePointer(Irq(s), t, 3);
    RtiRestores(t, Hi(s.pc), Lo(s.pc), status);
    WordOfHalves(s.pc);
    FlagsRoundTrip(s.p.(b := false, u := true));
  }

  lemma SameFramePointer(s: State, t: State, n: nat)
    requires SameFrame(s, t, n)
    ensures t.sp == s.sp
  {}

  /** Transparency over runs: from any state a run from reset can reach. */
  lemma InterruptTransparency(power: State, start: word, before: seq<Event>, during: seq<Event>)
    requires var s := Run(Reset(power, start), before); var t := Run(Irq(s), during);
      Accepts(s) && SameFrame(Irq(s), t, 3) && Fetches(t, RTI)
    ensures var s := Run(Reset(power, start), before); var u := Run(Irq(s), during + [StepEvent]);
      (u.pc, u.p, u.sp, u.halted) == (s.pc, s.p, s.sp, false)
  {
    var s := Run(Reset(power, start), before);
    RunKeepsStatus(Reset(power, start), before);
    assert (during + [StepEvent])[..|during|] == during;
    assert Run(Irq(s), during + [StepEvent]) == Step(Run(Irq(s), during));
    hide Step, Irq, Run, Reset, SameFrame, Fetches;
    IrqThenRti(s, Run(Irq(s), during));
  }

  /** `a` is none of the slots that the next `n` pushes fill: those above the top, at negative depth. */
  ghost predicate Beside(a: word, sp: byte, n: nat) {
    forall depth: int :: depth < 0 <= depth + n ==> a != SlotAt(sp, depth)
  }

  /** Taking an interrupt changes no byte but the three it pushes. */
  lemma IrqSpares(s: State, a: word)
    requires Accepts(s) && Beside(a, s.sp, 3)
    ensures Irq(s).mem.ram[a] == s.mem.ram[a]
  {
    IrqSummary(s);
    assert a != SlotAt(s.sp, -1) && a != SlotAt(s.sp, -2) && a != SlotAt(s.sp, -3);
    hide Irq, IrqWrites;
    UntouchedByWrites(s.mem.(raster := Irq(s).mem.raster), IrqWrites(s), a);
  }

  // ----- A handler that saves and restores A, X and Y -----

  const PHA: byte := 0x48
  const PLA: byte := 0x68
  const TAX: byte := 0xAA
  const TXA: byte := 0x8A
  const TAY: byte := 0xA8
  const TYA: byte := 0x98
  const SAVE := [PHA, TXA, PHA, TYA, PHA]
  const RESTORE := [PLA, TAY, PLA, TAX, PLA, RTI]

  /** Code at `at` is clear of page 1. */
  ghost predicate OffStack(at: word, code: seq<byte>) {
    forall k :: 0 <= k < |code| ==> !(256 <= Plus(at, k) < 512)
  }

  /** What a one-byte instruction that leaves the code alone does to the machine as a program sees it. */
  ghost predicate Moved(s: State, t: State) {
    t.pc == (s.pc + 1) % 65536 && !t.halted &&
    forall a: word {:trigger t.mem.ram[a]} :: !(256 <= a < 512) ==> t.mem.ram[a] == s.mem.ram[a]
  }

  lemma PhaStep(s: State, stk: seq<byte>)
    requires Fetches(s, PHA) && Holds(s.mem.ram, s.sp, stk) && |stk| < 256
    ensures var t := Step(s);
      Moved(s, t) && (t.a, t.x, t.y, t.p) == (s.a, s.x, s.y, s.p) && t.sp == (s.sp - 1) % 256 &&
      t.mem.ram == s.mem.ram[SlotAt(s.sp, -1) := s.a] && Holds(t.mem.ram, t.sp, stk + [s.a])
  {
    hide Step, Execute, Decode, FetchOpcode, Holds, ReadValue, Later;
    StackTable();
    StepExecutes(s, PHA);
    FetchedValue(s);
    var f := FetchOpcode(s).0;
    PushExecutes(f);
    PushHolds(f, stk, f.a);
    hide Mirror;
  }

  lemma PlaStep(s: State, stk: seq<byte>, v: byte)
    requires Fetches(s, PLA) && Holds(s.mem.ram, s.sp, stk + [v])
    ensures var t := Step(s);
      Moved(s, t) && t.mem.ram == s.mem.ram && (t.a, t.x, t.y) == (v, s.x, s.y) && t.sp == (s.sp + 1) % 256 &&
      Holds(t.mem.ram, t.sp, stk)
  {
    hide Step, Execute, Decode, FetchOpcode, Holds, ReadValue, Later, Pop, ZN;
    StackTable();
    StepExecutes(s, PLA);
    FetchedValue(s);
    var f := FetchOpcode(s).0;
    PullExecutes(f);
    PopHolds(f, stk + [v]);
    assert (stk + [v])[..|stk|] == stk;
  }

  /** TAX, TXA, TAY and TYA. */
  lemma TransferStep(s: State, opcode: byte)
    requires opcode in {TAX, TXA, TAY, TYA} && Fetches(s, opcode)
    ensures var t := Step(s);
      Moved(s, t) && t.mem.ram == s.mem.ram && t.sp == s.sp &&
      t.a == (if opcode == TXA then s.x else if opcode == TYA then s.y else s.a) &&
      t.x == (if opcode == TAX then s.a else s.x) && t.y == (if opcode == TAY then s.a else s.y)
  {
    hide Step, Execute, Decode, FetchOpcode, ReadValue, Later, ZN;
    TransferTable();
    StepExecutes(s, opcode);
    FetchedValue(s);
    var f := FetchOpcode(s).0;
    TransferFromA(f);
    TransferToA(f);
  }

  ghost predicate InCode(s: State, at: word, code: seq<byte>, k: nat) {
    Running(s, at, code, k) && OffStack(at, code)
  }

  lemma InCodeFetches(s: State, at: word, code: seq<byte>, k: nat)
    requires InCode(s, at, code, k) && k < |code|
    ensures Fetches(s, code[k])
  {}

  lemma InCodeMoves(s: State, t: State, at: word, code: seq<byte>, k: nat)
    requires InCode(s, at, code, k) && Moved(s, t)
    ensures InCode(t, at, code, k + 1)
  {
    PlusPlus(at, k, 1);
  }

  lemma FiveSteps(s: State)
    ensures Steps(s, 5) == Step(Step(Step(Step(Step(s)))))
  {
    hide Step;
    assert Steps(s, 1) == Step(s);
    assert Steps(s, 2) == Step(Steps(s, 1));
    assert Steps(s, 3) == Step(Steps(s, 2));
    assert Steps(s, 4) == Step(Steps(s, 3));
  }

  lemma PhaInCode(s: State, at: word, code: seq<byte>, k: nat, stk: seq<byte>)
    requires InCode(s, at, code, k) && k < |code| && code[k] == PHA
    requires Holds(s.mem.ram, s.sp, stk) && |stk| < 256
    ensures var t := Step(s);
      && InCode(t, at, code, k + 1) && (t.a, t.x, t.y) == (s.a, s.x, s.y) && t.sp == (s.sp - 1) % 256
      && t.mem.ram == s.mem.ram[SlotAt(s.sp, -1) := s.a] && Holds(t.mem.ram, t.sp, stk + [s.a])
  {
    hide Step, InCode, Holds, Fetches, Moved, SlotAt;
    InCodeFetches(s, at, code, k);
    PhaStep(s, stk);
    InCodeMoves(s, Step(s), at, code, k);
  }

  lemma PlaInCode(s: State, at: word, code: seq<byte>, k: nat, stk: seq<byte>, v: byte)
    requires InCode(s, at, code, k) && k < |code| && code[k] == PLA && Holds(s.mem.ram, s.sp, stk + [v])
    ensures var t := Step(s);
      && InCode(t, at, code, k + 1) && (t.a, t.x, t.y) == (v, s.x, s.y) && t.sp == (s.sp + 1) % 256
      && t.mem.ram == s.mem.ram && Holds(t.mem.ram, t.sp, stk)
  {
    hide Step, InCode, Holds, Fetches, Moved;
    InCodeFetches(s, at, code, k);
    PlaStep(s, stk, v);
    InCodeMoves(s, Step(s), at, code, k);
  }

  lemma TransferInCode(s: State, at: word, code: seq<byte>, k: nat)
    requires InCode(s, at, code, k) && k < |code| && code[k] in {TAX, TXA, TAY, TYA}
    ensures var t, opcode := Step(s), code[k];
      && InCode(t, at, code, k + 1) && t.mem.ram == s.mem.ram && t.sp == s.sp
      && t.a == (if opcode == TXA then s.x else if opcode == TYA then s.y else s.a)
      && t.x == (if opcode == TAX then s.a else s.x) && t.y == (if opcode == TAY then s.a else s.y)
  {
    hide Step, InCode, Fetches, Moved;
    InCodeFetches(s, at, code, k);
    TransferStep(s, code[k]);
    InCodeMoves(s, Step(s), at, code, k);
  }

  lemma SlotBelow(sp: byte)
    ensures SlotAt((sp - 1) % 256, -1) == SlotAt(sp, -2) && SlotAt((sp - 2) % 256, -1) == SlotAt(sp, -3)
  {}

  lemma SaveRegisters(s: State, at: word, stk: seq<byte>)
    requires InCode(s, at, SAVE, 0) && Holds(s.mem.ram, s.sp, stk) && |stk| <= 253
    ensures var t := Steps(s, 5);
      !t.halted && t.sp == (s.sp - 3) % 256 && Holds(t.mem.ram, t.sp, stk + [s.a, s.x, s.y]) &&
      t.mem.ram == s.mem.ram[SlotAt(s.sp, -1) := s.a][SlotAt(s.sp, -2) := s.x][SlotAt(s.sp, -3) := s.y]
  {
    hide Step, InCode, Holds, SlotAt;
    SlotBelow(s.sp);
    var s1 := Step(s);
    var s2 := Step(s1);
    var s3 := Step(s2);
    var s4 := Step(s3);
    var s5 := Step(s4);
    FiveSteps(s);
    PhaInCode(s, at, SAVE, 0, stk);
    TransferInCode(s1, at, SAVE, 1);
    PhaInCode(s2, at, SAVE, 2, stk + [s.a]);
    TransferInCode(s3, at, SAVE, 3);
    PhaInCode(s4, at, SAVE, 4, stk + [s.a] + [s.x]);
    assert stk + [s.a] + [s.x] + [s.y] == stk + [s.a, s.x, s.y];
    InCodeLive(s5, at, SAVE, 5);
  }

  lemma InCodeLive(s: State, at: word, code: seq<byte>, k: nat)
    requires InCode(s, at, code, k)
    ensures !s.halted
  {}

  lemma RestoreRegisters(s: State, at: word, frame: seq<byte>, a: byte, x: byte, y: byte)
    requires InCode(s, at, RESTORE, 0) && Holds(s.mem.ram, s.sp, frame + [a, x, y])
    ensures var t := Steps(s, 5);
      Fetches(t, RTI) && (t.a, t.x, t.y, t.mem.ram) == (a, x, y, s.mem.ram) && t.sp == (s.sp + 3) % 256 &&
      Holds(t.mem.ram, t.sp, frame)
  {
    hide Step, InCode, Holds, Fetches;
    var s1 := Step(s);
    var s2 := Step(s1);
    var s3 := Step(s2);
    var s4 := Step(s3);
    var s5 := Step(s4);
    FiveSteps(s);
    assert frame + [a, x, y] == frame + [a] + [x] + [y];
    PlaInCode(s, at, RESTORE, 0, frame + [a] + [x], y);
    TransferInCode(s1, at, RESTORE, 1);
    PlaInCode(s2, at, RESTORE, 2, frame + [a], x);
    TransferInCode(s3, at, RESTORE, 3);
    PlaInCode(s4, at, RESTORE, 4, frame, a);
    InCodeFetches(s5, at, RESTORE, 5);
  }

  /** Entry and saving change no byte but the six they push. */
  lemma SavingSpares(s: State, a: word)
    requires Accepts(s) && InCode(Irq(s), Irq(s).pc, SAVE, 0) && Beside(a, s.sp, 6)
    ensures Steps(Irq(s), 5).mem.ram[a] == s.mem.ram[a]
  {
    hide Step, Irq, InCode, Steps;
    IrqSpares(s, a);
    IrqPushes(s);
    SaveRegisters(Irq(s), Irq(s).pc, [Hi(s.pc), Lo(s.pc), ToByte(s.p.(b := false, u := true))]);
    BesideBelow(a, s.sp);
  }

  lemma BesideBelow(a: word, sp: byte)
    requires Beside(a, sp, 6)
    ensures Beside(a, (sp - 3) % 256, 3)
  {
    assert SlotAt((sp - 3) % 256, -1) == SlotAt(sp, -4);
    assert SlotAt((sp - 3) % 256, -2) == SlotAt(sp, -5);
    assert SlotAt((sp - 3) % 256, -3) == SlotAt(sp, -6);
  }

  /** `r` is as `s` was: registers, status, pc and sp, and no byte of RAM differs but six dead ones on the stack and
      those that the handler's body changed on its way from `entered` to `u`. */
  ghost predicate Unnoticed(s: State, entered: State, u: State, r: State) {
    && (r.a, r.x, r.y, r.pc, r.p, r.sp, r.halted) == (s.a, s.x, s.y, s.pc, s.p, s.sp, false)
    && r.mem.ram == u.mem.ram
    && forall a: word {:trigger r.mem.ram[a]} :: Beside(a, s.sp, 6) && u.mem.ram[a] == entered.mem.ram[a] ==>
         r.mem.ram[a] == s.mem.ram[a]
  }

  /** An interrupt handler that saves A, X and Y, runs anything that gives the stack back as it found it, then
      restores them and returns, is invisible to the interrupted program, wherever in page 1 its frame falls. */
  lemma HandlerIsTransparent(s: State, u: State, exit: word)
    requires Accepts(s) && StatusOk(s.p)
    requires InCode(Irq(s), Irq(s).pc, SAVE, 0)
    requires SameFrame(Steps(Irq(s), 5), u, 6) && InCode(u, exit, RESTORE, 0)
    ensures Unnoticed(s, Steps(Irq(s), 5), u, Steps(u, 6))
  {
    HandlerRestores(s, u, exit);
    hide Step, Irq, InCode, Steps, SameFrame, Beside;
    forall a: word | Beside(a, s.sp, 6)
      ensures Steps(Irq(s), 5).mem.ram[a] == s.mem.ram[a]
    {
      SavingSpares(s, a);
    }
  }

  /** What the frame of an accepted interrupt holds, oldest byte first. */
  function Frame(s: State): seq<byte> { [Hi(s.pc), Lo(s.pc), ToByte(s.p.(b := false, u := true))] }

  lemma SavedStands(s: State, u: State)
    requires Accepts(s) && InCode(Irq(s), Irq(s).pc, SAVE, 0) && SameFrame(Steps(Irq(s), 5), u, 6)
    ensures u.sp == (s.sp - 6) % 256 && Holds(u.mem.ram, u.sp, Frame(s) + [s.a, s.x, s.y])
  {
    hide Step, Irq, InCode, Holds, ToByte, Hi, Lo, SameFrame, Steps, SlotAt;
    IrqPushes(s);
    SaveRegisters(Irq(s), Irq(s).pc, Frame(s));
    QuietKeeps(Steps(Irq(s), 5), u, Frame(s) + [s.a, s.x, s.y]);
    SameFramePointer(Steps(Irq(s), 5), u, 6);
  }

  lemma FrameRestores(s: State, t: State)
    requires StatusOk(s.p) && Fetches(t, RTI) && Holds(t.mem.ram, t.sp, Frame(s)) && t.sp == (s.sp - 3) % 256
    ensures var r := Step(t);
      && (r.a, r.x, r.y, r.pc, r.p, r.sp, r.halted) == (t.a, t.x, t.y, s.pc, s.p, s.sp, false)
      && r.mem.ram == t.mem.ram
  {
    hide Step, Holds, Fetches, ToByte, FromByte, Hi, Lo, Word;
    var status := ToByte(s.p.(b := false, u := true));
    RtiRestores(t, Hi(s.pc), Lo(s.pc), status);
    WordOfHalves(s.pc);
    FlagsRoundTrip(s.p.(b := false, u := true));
  }

  lemma HandlerRestores(s: State, u: State, exit: word)
    requires Accepts(s) && StatusOk(s.p)
    requires InCode(Irq(s), Irq(s).pc, SAVE, 0)
    requires SameFrame(Steps(Irq(s), 5), u, 6) && InCode(u, exit, RESTORE, 0)
    ensures var r := Steps(u, 6);
      && (r.a, r.x, r.y, r.pc, r.p, r.sp, r.halted) == (s.a, s.x, s.y, s.pc, s.p, s.sp, false)
      && r.mem.ram == u.mem.ram
  {
    hide Step, Irq, InCode, Holds, Fetches, SameFrame, Frame, StatusOk, Accepts;
    SavedStands(s, u);
    RestoreRegisters(u, exit, Frame(s), s.a, s.x, s.y);
    FrameRestores(s, Steps(u, 5));
  }

  /** An interrupt leads into the code that stands at the vector, clear of the stack. */
  lemma VectorLeadsIn(s: State, code: seq<byte>)
    requires Accepts(s) && Loaded(s.mem.ram, Vector(s), code) && OffStack(Vector(s), code)
    ensures InCode(Irq(s), Irq(s).pc, code, 0)
  {
    hide Irq, Vector, Accepts, Plus;
    IrqPushes(s);
    var at, t := Vector(s), Irq(s);
    PlusPlus(at, 0, 0);
    forall k | 0 <= k < |code|
      ensures !Io(Plus(at, k)) && t.mem.ram[Plus(at, k)] == code[k]
    {
      IrqSpares(s, Plus(at, k));
    }
  }

  /** The handler's path in a run: the interrupt, five steps that save, the body, six steps that restore and return. */
  function HandlerPath(during: seq<Event>): seq<Event> { [IrqEvent] + Ticks(5) + during + Ticks(6) }

  lemma HandlerPathRuns(s: State, during: seq<Event>)
    ensures Run(s, HandlerPath(during)) == Steps(Run(Steps(Irq(s), 5), during), 6)
  {
    hide Step, Irq, Steps;
    var one := [IrqEvent];
    assert one[..|one| - 1] == [];
    assert Run(s, one) == Irq(s);
    hide Run;
    RunConcat(s, one, Ticks(5));
    RunConcat(s, one + Ticks(5), during);
    RunConcat(s, one + Ticks(5) + during, Ticks(6));
    StepsAreRuns(Irq(s), 5);
    StepsAreRuns(Run(Steps(Irq(s), 5), during), 6);
  }

  /** Transparency of such handlers over runs: from any state a run from reset can reach, with the saving code at the
      interrupt vector, any run as the body, and the restoring code anywhere. */
  lemma HandlerRunIsTransparent(power: State, start: word, before: seq<Event>, during: seq<Event>, exit: word)
    requires var s := Run(Reset(power, start), before);
      && Accepts(s) && Loaded(s.mem.ram, Vector(s), SAVE) && OffStack(Vector(s), SAVE)
      && SameFrame(Steps(Irq(s), 5), Run(Steps(Irq(s), 5), during), 6)
      && InCode(Run(Steps(Irq(s), 5), during), exit, RESTORE, 0)
    ensures var s := Run(Reset(power, start), before);
      Unnoticed(s, Steps(Irq(s), 5), Run(Steps(Irq(s), 5), during),
                Run(Reset(power, start), before + HandlerPath(during)))
  {
    RunKeepsStatus(Reset(power, start), before);
    var s := Run(Reset(power, start), before);
    hide Step, Irq, Run, Reset, SameFrame, Steps, InCode, Unnoticed, HandlerPath, Accepts, Loaded, OffStack, Vector;
    VectorLeadsIn(s, SAVE);
    HandlerIsTransparent(s, Run(Steps(Irq(s), 5), during), exit);
    HandlerPathRuns(s, during);
    RunConcat(Reset(power, start), before, HandlerPath(during));
  }
}
