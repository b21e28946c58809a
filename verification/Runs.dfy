/** Whole runs of the machine: any interleaving of steps, interrupt requests and keys from outside. */
module Runs {
  import opened Bytes
  import opened Memory
  import opened Isa
  import opened Cpu
  import opened Instructions
  import opened Keys

  datatype Event = StepEvent | IrqEvent | KeyEvent(key: byte)

  function Apply(s: State, e: Event): State {
    match e
    case StepEvent => Step(s)
    case IrqEvent => Irq(s)
    case KeyEvent(c) => s.(mem := Injected(s.mem, c))
  }

  function Run(s: State, es: seq<Event>): State {
    if es == [] then s else Apply(Run(s, es[..|es| - 1]), es[|es| - 1])
  }

  // ----- What one event does to memory -----

  function WriteAll(m: Mem, ws: seq<(word, byte)>): Mem {
    if ws == [] then m
    else
      var last := ws[|ws| - 1];
      WriteByte(WriteAll(m, ws[..|ws| - 1]), last.0, last.1)
  }

  /** `after` is `before` with the beam moved and then the writes `ws` made in order. */
  predicate Writes(before: Mem, ws: seq<(word, byte)>, after: Mem) {
    after == WriteAll(before.(raster := after.raster), ws)
  }

  lemma OneWrite(before: Mem, addr: word, v: byte, after: Mem)
    requires after == WriteByte(before.(raster := after.raster), addr, v)
    ensures Writes(before, [(addr, v)], after)
  {
    var ws := [(addr, v)];
    assert ws[..|ws| - 1] == [];
  }

  lemma AnotherWrite(before: Mem, ws: seq<(word, byte)>, middle: Mem, addr: word, v: byte)
    requires Writes(before, ws, middle)
    ensures Writes(before, ws + [(addr, v)], WriteByte(middle, addr, v))
  {
    var all := ws + [(addr, v)];
    assert all[..|all| - 1] == ws;
  }

  /** Reads only ever move the raster counter. */
  predicate OnlyReads(s: State, t: State) { t.mem == s.mem.(raster := t.mem.raster) }

  lemma EffectiveOnlyReads(m: Mode, s: State)
    ensures OnlyReads(s, Effective(m, s).0)
    ensures var t := Effective(m, s).0; t == s.(pc := t.pc, mem := t.mem)
  {}

  lemma OperandOnlyReads(m: Mode, s: State)
    ensures OnlyReads(s, Operand(m, s).0)
    ensures var t := Operand(m, s).0; t == s.(pc := t.pc, mem := t.mem)
  {
    EffectiveOnlyReads(m, s);
    hide Effective;
  }

  lemma AluKeeps(op: Operation, s: State, v: byte)
    ensures var t := Alu(op, s, v);
            t == s.(a := t.a, x := t.x, y := t.y, sp := t.sp, p := t.p) && t.p.u == s.p.u && t.p.b == s.p.b
  {
    hide And, Or, Xor, Overflows;
  }

  /** Bit 5 of the status register set and bit 4 clear. */
  predicate StatusOk(p: Flags) { p.u && !p.b }

  // The writes of an instruction, an event and a run, in order.

  /** A word pushed: its high byte, then its low byte in the slot below. */
  function WordWrites(sp: byte, w: word): seq<(word, byte)> {
    [(256 + sp, Hi(w)), (256 + (sp - 1) % 256, Lo(w))]
  }

  function RmwWrites(op: Operation, m: Mode, s: State): seq<(word, byte)> {
    if !IsRmw(op) || m == Accumulator then []
    else var f := Effective(m, s); [(f.1, RmwResult(op, s.p.c, ReadFrom(f.0, f.1).1))]
  }

  function EffectWrites(i: Instruction, s: State): (ws: seq<(word, byte)>)
    ensures |ws| <= 2
  {
    match i.op
    case Store(r) => [(Effective(i.mode, s).1, Get(s, r))]
    case Pha => [(256 + s.sp, s.a)]
    case Php => [(256 + s.sp, ToByte(s.p.(b := true, u := true)))]
    case Jsr => WordWrites(s.sp, Plus(s.pc, 1))
    case _ => RmwWrites(i.op, i.mode, s)
  }

  function StepWrites(s: State): (ws: seq<(word, byte)>)
    ensures |ws| <= 2
  {
    if s.halted then []
    else
      var f := FetchOpcode(s);
      match Decode(f.1)
      case None => []
      case Some(i) => EffectWrites(i, f.0)
  }

  function IrqWrites(s: State): (ws: seq<(word, byte)>)
    ensures |ws| <= 3
  {
    if Accepts(s) then
      WordWrites(s.sp, s.pc) + [(256 + (s.sp - 2) % 256, ToByte(s.p.(b := false, u := true)))]
    else []
  }

  function KeyWrites(m: Mem, c: byte): (ws: seq<(word, byte)>)
    ensures |ws| <= 2
  {
    if c == ESC || m.ram[NDX] >= KEYD_MAX then []
    else [(KEYD + m.ram[NDX], KeyCode(c)), (NDX, m.ram[NDX] + 1)]
  }

  function EventWrites(s: State, e: Event): (ws: seq<(word, byte)>)
    ensures |ws| <= (if e.IrqEvent? then 3 else 2)
  {
    match e
    case StepEvent => StepWrites(s)
    case IrqEvent => IrqWrites(s)
    case KeyEvent(c) => KeyWrites(s.mem, c)
  }

  function RunWrites(s: State, es: seq<Event>): seq<(word, byte)> {
    if es == [] then []
    else RunWrites(s, es[..|es| - 1]) + EventWrites(Run(s, es[..|es| - 1]), es[|es| - 1])
  }

  /** What every instruction leaves alone, with the list of its writes. */
  predicate Summary(s: State, t: State, ws: seq<(word, byte)>) {
    |ws| <= 2 && Writes(s.mem, ws, t.mem) && t.cycles == s.cycles && t.trace == s.trace && t.halted == s.halted &&
    (StatusOk(s.p) ==> StatusOk(t.p))
  }

  lemma ReadOnlySummary(s: State, t: State)
    requires OnlyReads(s, t) && t.cycles == s.cycles && t.trace == s.trace && t.halted == s.halted
    requires StatusOk(s.p) ==> StatusOk(t.p)
    ensures Summary(s, t, [])
  {}

  lemma AluSummary(op: Operation, m: Mode, s: State)
    ensures Summary(s, ExecAlu(op, m, s), [])
  {
    var f := Operand(m, s);
    OperandOnlyReads(m, s);
    AluKeeps(op, f.0, f.1);
    hide Alu, Operand;
  }

  lemma StoreSummary(r: Reg, m: Mode, s: State)
    ensures Summary(s, ExecStore(r, m, s), [(Effective(m, s).1, Get(s, r))])
  {
    var f := Effective(m, s);
    EffectiveOnlyReads(m, s);
    OneWrite(s.mem, f.1, Get(s, r), ExecStore(r, m, s).mem);
    hide Effective;
  }

  lemma RmwSummary(op: Operation, m: Mode, s: State)
    requires IsRmw(op)
    ensures Summary(s, ExecRmw(op, m, s), RmwWrites(op, m, s))
  {
    if m != Accumulator {
      var f := Effective(m, s);
      EffectiveOnlyReads(m, s);
      OneWrite(s.mem, f.1, RmwResult(op, s.p.c, ReadFrom(f.0, f.1).1), ExecRmw(op, m, s).mem);
    }
    hide Effective;
  }

  lemma PushSummary(s: State, v: byte)
    ensures Summary(s, Push(s, v), [(256 + s.sp, v)])
  {
    OneWrite(s.mem, 256 + s.sp, v, Push(s, v).mem);
  }

  lemma PushWordSummary(s: State, w: word)
    ensures Summary(s, PushWord(s, w), WordWrites(s.sp, w))
  {
    var one := Push(s, Hi(w));
    PushSummary(s, Hi(w));
    AnotherWrite(s.mem, [(256 + s.sp, Hi(w))], one.mem, 256 + one.sp, Lo(w));
    assert [(256 + s.sp, Hi(w))] + [(256 + one.sp, Lo(w))] == [(256 + s.sp, Hi(w)), (256 + (s.sp - 1) % 256, Lo(w))];
    hide WriteAll, WriteByte;
  }

  lemma WritesAfterReads(before: Mem, middle: Mem, ws: seq<(word, byte)>, after: Mem)
    requires middle == before.(raster := middle.raster) && Writes(middle, ws, after)
    ensures Writes(before, ws, after)
  {}

  lemma JsrSummary(s: State)
    ensures Summary(s, ExecJsr(s), WordWrites(s.sp, Plus(s.pc, 1)))
  {
    var f := FetchWord(s);
    EffectiveOnlyReads(Absolute, s);
    var ret: word := (f.0.pc - 1) % 65536;
    assert ret == Plus(s.pc, 1);
    PushWordSummary(f.0, ret);
    hide FetchWord, WriteAll, Push, Plus;
    WritesAfterReads(s.mem, f.0.mem, WordWrites(s.sp, ret), PushWord(f.0, ret).mem);
  }

  lemma PopSummary(s: State)
    ensures Summary(s, ExecPla(s), []) && Summary(s, ExecPlp(s), [])
    ensures Summary(s, ExecRts(s), []) && Summary(s, ExecRti(s), [])
  {
    hide FromByte;
  }

  lemma RegisterSummary(s: State, r: Reg, v: byte)
    ensures Summary(s, LoadReg(s, r, v), [])
  {}

  lemma TransferSummary(s: State, from: Reg, to: Reg)
    ensures Summary(s, ExecTransfer(from, to, s), [])
  {}

  lemma FlagSummary(s: State, f: FlagName, on: bool)
    ensures Summary(s, s.(p := PutFlag(s.p, f, on)), [])
  {}

  lemma BranchSummary(s: State, taken: bool)
    ensures Summary(s, ExecBranch(taken, s), [])
  {}

  lemma JmpSummary(s: State, m: Mode)
    ensures Summary(s, ExecJmp(m, s), [])
  {
    EffectiveOnlyReads(m, s);
    hide Effective;
  }

  lemma EffectSummary(i: Instruction, s: State)
    ensures Summary(s, Effect(i, s).(halted := s.halted), EffectWrites(i, s))
    ensures Effect(i, s).halted == (s.halted || i.op.Brk?)
  {
    hide ExecAlu, ExecStore, ExecRmw, ExecTransfer, ExecPla, ExecPhp, ExecPlp, ExecBranch, ExecJmp, ExecJsr, ExecRts,
      ExecRti, LoadReg, Push, PutFlag, WriteAll, ToByte, WordWrites, Effective, Plus;
    if IsAlu(i.op) {
      AluSummary(i.op, i.mode, s);
    } else if IsRmw(i.op) {
      RmwSummary(i.op, i.mode, s);
    } else {
      match i.op
      case Store(r) => StoreSummary(r, i.mode, s);
      case IncReg(r) => RegisterSummary(s, r, (Get(s, r) + 1) % 256);
      case DecReg(r) => RegisterSummary(s, r, (Get(s, r) - 1) % 256);
      case Transfer(f, t) => TransferSummary(s, f, t);
      case Pha => PushSummary(s, s.a);
      case Pla => PopSummary(s);
      case Php => PhpSummary(s);
      case Plp => PopSummary(s);
      case SetFlag(f, on) => FlagSummary(s, f, on);
      case Branch(f, on) => BranchSummary(s, GetFlag(s.p, f) == on);
      case Jmp => JmpSummary(s, i.mode);
      case Jsr => JsrSummary(s);
      case Rts => PopSummary(s);
      case Rti => PopSummary(s);
      case _ => ReadOnlySummary(s, s);
    }
  }

  lemma PhpSummary(s: State)
    ensures Summary(s, ExecPhp(s), [(256 + s.sp, ToByte(s.p.(b := true, u := true)))])
  {
    PushSummary(s, ToByte(s.p.(b := true, u := true)));
  }

  // ----- One event -----

  predicate StopsOn(opcode: byte) { Decode(opcode).None? || Decode(opcode).value.op.Brk? }

  /** One step of a live machine: its writes, its trace entry, its cycles, and when it halts. */
  lemma StepSummary(s: State) returns (n: nat)
    requires !s.halted
    ensures |StepWrites(s)| <= 2 && Writes(s.mem, StepWrites(s), Step(s).mem)
    ensures StatusOk(s.p) ==> StatusOk(Step(s).p)
    ensures var opcode := ReadValue(s.mem, s.pc);
            && Step(s).trace == Record(s.trace, s.pc, opcode)
            && Step(s).halted == StopsOn(opcode)
            && Step(s).cycles == Later(s.cycles, n)
            && n <= 7 && (Decode(opcode).Some? ==> 2 <= n)
            && (StopsOn(opcode) ==> Step(s).pc == (s.pc + 1) % 65536)
  {
    hide Step, FetchOpcode, Execute, Effect, Cycles, TakesBranch, Decode, WriteAll, Record, ReadValue, Later,
      EffectWrites;
    var opcode := ReadValue(s.mem, s.pc);
    var f := FetchOpcode(s).0;
    FetchedValue(s);
    n := 0;
    if Decode(opcode).Some? {
      var i := Decode(opcode).value;
      StepExecutes(s, opcode);
      EffectSummary(i, f);
      n := Cycles(i) + Bit(TakesBranch(i, f));
      BranchCycles(i, f);
      StopKeepsPc(i, f);
      ExecuteTicks(i, f);
      WritesAfterReads(s.mem, f.mem, EffectWrites(i, f), Step(s).mem);
    } else {
      StepHalts(s, opcode);
      NoTick(s.cycles);
      NoWritesAfterRead(s.mem, f.mem);
    }
  }

  lemma ExecuteTicks(i: Instruction, s: State)
    ensures Execute(i, s) == Tick(Effect(i, s), Cycles(i) + Bit(TakesBranch(i, s)))
  {
    hide Effect, Cycles, TakesBranch, Tick;
  }

  lemma NoTick(c: uint64)
    ensures Later(c, 0) == c
  {}

  lemma NoWritesAfterRead(before: Mem, after: Mem)
    requires after == before.(raster := after.raster)
    ensures Writes(before, [], after)
  {}

  lemma BranchCycles(i: Instruction, s: State)
    ensures 2 <= Cycles(i) + Bit(TakesBranch(i, s)) <= 7
  {}

  lemma StopKeepsPc(i: Instruction, s: State)
    ensures i.op.Brk? ==> Effect(i, s).pc == s.pc
  {}

  lemma IrqSummary(s: State)
    requires Accepts(s)
    ensures Writes(s.mem, IrqWrites(s), Irq(s).mem)
    ensures |IrqWrites(s)| == 3 && forall k :: 0 <= k < 3 ==> IrqWrites(s)[k].0 == 256 + (s.sp - k) % 256
    ensures StatusOk(s.p) ==> StatusOk(Irq(s).p)
    ensures Irq(s).trace == s.trace && !Irq(s).halted && Irq(s).cycles == Later(s.cycles, 7)
  {
    hide WriteAll, WriteByte, ToByte;
    var t := PushWord(s, s.pc);
    PushWordSummary(s, s.pc);
    AnotherWrite(s.mem, WordWrites(s.sp, s.pc), t.mem, 256 + t.sp, ToByte(s.p.(b := false, u := true)));
  }

  lemma KeySummary(m: Mem, c: byte)
    ensures Writes(m, KeyWrites(m, c), Injected(m, c))
  {
    if c != ESC && m.ram[NDX] < KEYD_MAX {
      var n := m.ram[NDX];
      var one := WriteByte(m, KEYD + n, KeyCode(c));
      OneWrite(m, KEYD + n, KeyCode(c), one);
      AnotherWrite(m, [(KEYD + n, KeyCode(c))], one, NDX, n + 1);
      assert [(KEYD + n, KeyCode(c))] + [(NDX, n + 1)] == KeyWrites(m, c);
    }
    hide WriteAll, WriteByte;
  }

  lemma EventSummary(s: State, e: Event)
    ensures Writes(s.mem, EventWrites(s, e), Apply(s, e).mem)
  {
    hide EffectWrites;
    match e
    case StepEvent => if !s.halted { var n := StepSummary(s); }
    case IrqEvent => if Accepts(s) { IrqSummary(s); }
    case KeyEvent(c) => KeySummary(s.mem, c);
  }

  // ----- The writes of a whole run -----

  lemma {:induction false} WriteAllConcat(m: Mem, a: seq<(word, byte)>, b: seq<(word, byte)>)
    ensures WriteAll(m, a + b) == WriteAll(WriteAll(m, a), b)
  {
    if b == [] {
      assert a + b == a;
    } else {
      WriteAllConcat(m, a, b[..|b| - 1]);
      assert (a + b)[..|a + b| - 1] == a + b[..|b| - 1];
    }
  }

  lemma {:induction false} WriteAllKeepsRaster(m: Mem, ws: seq<(word, byte)>, r: RasterLine)
    ensures WriteAll(m.(raster := r), ws) == WriteAll(m, ws).(raster := r)
  {
    if ws != [] {
      WriteAllKeepsRaster(m, ws[..|ws| - 1], r);
    }
  }

  lemma WritesCompose(m: Mem, a: seq<(word, byte)>, n: Mem, b: seq<(word, byte)>, r: Mem)
    requires Writes(m, a, n) && Writes(n, b, r)
    ensures Writes(m, a + b, r)
  {
    hide WriteAll;
    WriteAllKeepsRaster(m.(raster := n.raster), a, r.raster);
    WriteAllConcat(m.(raster := r.raster), a, b);
  }

  /** Over any run, memory ends as the run's writes leave it, the beam apart. */
  lemma {:induction false} RunSummary(s: State, es: seq<Event>)
    ensures Writes(s.mem, RunWrites(s, es), Run(s, es).mem)
  {
    if es != [] {
      var init, e := es[..|es| - 1], es[|es| - 1];
      RunSummary(s, init);
      EventSummary(Run(s, init), e);
      hide Apply, Writes, EventWrites;
      WritesCompose(s.mem, RunWrites(s, init), Run(s, init).mem, EventWrites(Run(s, init), e), Run(s, es).mem);
    }
  }

  // ----- Bytes changed -----

  lemma {:induction false} UntouchedByWrites(m: Mem, ws: seq<(word, byte)>, a: word)
    requires forall k :: 0 <= k < |ws| ==> ws[k].0 != a
    ensures WriteAll(m, ws).ram[a] == m.ram[a]
  {
    if ws != [] {
      UntouchedByWrites(m, ws[..|ws| - 1], a);
    }
  }

  /** The addresses whose RAM byte differs between two memories. */
  ghost function Changed(m: Mem, n: Mem): set<word> { set a: word | m.ram[a] != n.ram[a] }

  lemma {:induction false} ChangedAtMost(m: Mem, ws: seq<(word, byte)>, n: Mem)
    requires Writes(m, ws, n)
    ensures |Changed(m, n)| <= |ws|
    decreases |ws|
  {
    if ws == [] {
      assert Changed(m, n) == {};
    } else {
      var init, last := ws[..|ws| - 1], ws[|ws| - 1];
      var before := WriteAll(m.(raster := n.raster), init);
      ChangedAtMost(m, init, before);
      assert Changed(m, n) <= Changed(m, before) + {last.0};
      SubsetSize(Changed(m, n), Changed(m, before) + {last.0});
    }
  }

  lemma {:induction false} SubsetSize(a: set<word>, b: set<word>)
    requires a <= b
    ensures |a| <= |b|
  {
    if a != {} {
      var x :| x in a;
      SubsetSize(a - {x}, b - {x});
    }
  }

  /** Each step and each key changes at most two bytes of RAM, each interrupt at most three. */
  lemma EventChanges(s: State, e: Event)
    ensures |Changed(s.mem, Apply(s, e).mem)| <= (if e.IrqEvent? then 3 else 2)
  {
    hide EventWrites;
    EventSummary(s, e);
    ChangedAtMost(s.mem, EventWrites(s, e), Apply(s, e).mem);
  }

  // ----- Invariants over runs from reset -----

  lemma {:induction false} RunKeepsStatus(s: State, es: seq<Event>)
    requires StatusOk(s.p)
    ensures StatusOk(Run(s, es).p)
  {
    if es != [] {
      var t := Run(s, es[..|es| - 1]);
      RunKeepsStatus(s, es[..|es| - 1]);
      EventKeepsStatus(t, es[|es| - 1]);
    }
  }

  lemma EventKeepsStatus(s: State, e: Event)
    requires StatusOk(s.p)
    ensures StatusOk(Apply(s, e).p)
  {
    match e
    case StepEvent => if !s.halted { var n := StepSummary(s); }
    case IrqEvent => if Accepts(s) { IrqSummary(s); }
    case KeyEvent(_) =>
  }

  function StepCount(es: seq<Event>): nat {
    if es == [] then 0 else StepCount(es[..|es| - 1]) + (if es[|es| - 1].StepEvent? then 1 else 0)
  }

  /** How many of the interrupt requests found the machine live with I clear. */
  function AcceptedIrqs(s: State, es: seq<Event>): nat {
    if es == [] then 0
    else
      var init := es[..|es| - 1];
      AcceptedIrqs(s, init) + (if es[|es| - 1].IrqEvent? && Accepts(Run(s, init)) then 1 else 0)
  }

  /** The fewest and the most cycles an event can take on a machine it leaves live. */
  lemma EventCycles(s: State, e: Event) returns (n: nat)
    requires !Apply(s, e).halted
    ensures !s.halted && Apply(s, e).cycles == Later(s.cycles, n)
    ensures match e
            case StepEvent => 2 <= n <= 7
            case IrqEvent => n == (if Accepts(s) then 7 else 0)
            case KeyEvent(_) => n == 0
  {
    if s.halted { HaltIsFinal(s, e); }
    n := 0;
    match e
    case StepEvent => n := StepSummary(s);
    case IrqEvent => if Accepts(s) { IrqSummary(s); n := 7; }
    case KeyEvent(_) =>
  }

  predicate Within(start: int, cycles: int, steps: int, irqs: int) {
    2 * steps + 7 * irqs <= cycles - start <= 7 * steps + 7 * irqs
  }

  lemma OneMore(start: int, cycles: uint64, steps: int, irqs: int, n: nat, step: int, irq: int)
    requires Within(start, cycles, steps, irqs)
    requires start + 7 * (steps + step) + 7 * (irqs + irq) < UINT64
    requires (step, irq) == (0, 0) ==> n == 0
    requires (step, irq) == (1, 0) ==> 2 <= n <= 7
    requires (step, irq) == (0, 1) ==> n == 7
    requires (step, irq) in {(0, 0), (1, 0), (0, 1)}
    ensures Within(start, Later(cycles, n), steps + step, irqs + irq)
  {
    assert cycles + n < UINT64;
  }

  lemma RunUnfolds(s: State, es: seq<Event>)
    requires es != []
    ensures var init, e := es[..|es| - 1], es[|es| - 1]; var t := Run(s, init);
      && Run(s, es) == Apply(t, e)
      && StepCount(es) == StepCount(init) + Bit(e.StepEvent?)
      && AcceptedIrqs(s, es) == AcceptedIrqs(s, init) + Bit(e.IrqEvent? && Accepts(t))
  {
    hide Apply, Accepts;
  }

  lemma {:induction false} RunCycles(s: State, es: seq<Event>)
    requires !Run(s, es).halted
    requires s.cycles + 7 * StepCount(es) + 7 * AcceptedIrqs(s, es) < UINT64
    ensures Within(s.cycles, Run(s, es).cycles, StepCount(es), AcceptedIrqs(s, es))
  {
    if es != [] {
      hide Apply, Accepts, Within, Later, Run, StepCount, AcceptedIrqs;
      var init, e := es[..|es| - 1], es[|es| - 1];
      var t := Run(s, init);
      RunUnfolds(s, es);
      var n := EventCycles(t, e);
      RunCycles(s, init);
      OneMore(s.cycles, t.cycles, StepCount(init), AcceptedIrqs(s, init), n,
              Bit(e.StepEvent?), Bit(e.IrqEvent? && Accepts(t)));
    }
  }

  /** A halted machine is only ever changed by keys typed into its memory. */
  lemma HaltIsFinal(s: State, e: Event)
    requires s.halted
    ensures Apply(s, e) == s.(mem := Apply(s, e).mem) && (!e.KeyEvent? ==> Apply(s, e) == s)
  {}

  /** The run invariant and the cycle bound, for every run from reset. */
  lemma FromReset(s: State, start: word, es: seq<Event>)
    ensures var r := Run(Reset(s, start), es);
      && StatusOk(r.p)
      && (!r.halted && 7 * |es| < UINT64 ==>
            Within(0, r.cycles, StepCount(es), AcceptedIrqs(Reset(s, start), es)))
  {
    var r := Reset(s, start);
    RunKeepsStatus(r, es);
    CountsFit(r, es);
    if !Run(r, es).halted && 7 * |es| < UINT64 {
      RunCycles(r, es);
    }
  }

  lemma {:induction false} CountsFit(s: State, es: seq<Event>)
    ensures StepCount(es) + AcceptedIrqs(s, es) <= |es|
  {
    if es != [] {
      CountsFit(s, es[..|es| - 1]);
    }
  }

  // ----- Runs of steps alone -----

  function Steps(s: State, n: nat): State { if n == 0 then s else Step(Steps(s, n - 1)) }

  function Ticks(n: nat): (es: seq<Event>)
    ensures |es| == n && forall i :: 0 <= i < n ==> es[i] == StepEvent
  {
    seq(n, _ => StepEvent)
  }

  lemma {:induction false} StepsAreRuns(s: State, n: nat)
    ensures Steps(s, n) == Run(s, Ticks(n))
  {
    hide Step;
    if n > 0 {
      StepsAreRuns(s, n - 1);
      assert Ticks(n)[..n - 1] == Ticks(n - 1);
    }
  }

  lemma {:induction false} RunConcat(s: State, a: seq<Event>, b: seq<Event>)
    ensures Run(s, a + b) == Run(Run(s, a), b)
  {
    hide Apply;
    if b == [] {
      assert a + b == a;
    } else {
      RunConcat(s, a, b[..|b| - 1]);
      assert (a + b)[..|a + b| - 1] == a + b[..|b| - 1];
    }
  }
}
