/** Subroutine calls: JSR and RTS over page 1, whatever runs between them. */
module Calls {
  import opened Bytes
  import opened Memory
  import opened Isa
  import opened Cpu
  import opened Decoding
  import opened Instructions
  import opened Manual
  import opened Stack
  import opened Runs

  const JSR: byte := 0x20
  const RTS: byte := 0x60

  lemma FetchWordMoves(s: State)
    ensures var f := FetchWord(s).0; f == s.(pc := (s.pc + 2) % 65536, mem := s.mem.(raster := f.mem.raster))
  {
    hide ReadValue;
  }

  lemma ExecJsrPushes(f: State, stk: seq<byte>)
    requires Holds(f.mem.ram, f.sp, stk) && |stk| <= 254
    ensures var t := ExecJsr(f); var last := Plus(f.pc, 1);
      t.sp == (f.sp - 2) % 256 && t.halted == f.halted && Holds(t.mem.ram, t.sp, stk + [Hi(last), Lo(last)])
  {
    hide Push, FetchWord, Holds;
    var g := FetchWord(f).0;
    FetchWordMoves(f);
    var last := Plus(f.pc, 1);
    assert (g.pc - 1) % 65536 == last;
    PushHolds(g, stk, Hi(last));
    PushHolds(Push(g, Hi(last)), stk + [Hi(last)], Lo(last));
    assert stk + [Hi(last)] + [Lo(last)] == stk + [Hi(last), Lo(last)];
  }

  lemma PopWordHolds(f: State, stk: seq<byte>, hi: byte, lo: byte)
    requires Holds(f.mem.ram, f.sp, stk + [hi, lo])
    ensures PopWord(f) == (f.(sp := (f.sp + 2) % 256), Word(lo, hi))
    ensures Holds(f.mem.ram, (f.sp + 2) % 256, stk)
  {
    hide Pop, Holds, Word;
    var two, one := stk + [hi, lo], stk + [hi];
    PopHolds(f, two);
    assert two[..|two| - 1] == one;
    PopHolds(Pop(f).0, one);
    assert one[..|one| - 1] == stk;
  }

  lemma ExecRtsPops(f: State, stk: seq<byte>, last: word)
    requires Holds(f.mem.ram, f.sp, stk + [Hi(last), Lo(last)])
    ensures var t := ExecRts(f);
      t == f.(sp := (f.sp + 2) % 256, pc := (last + 1) % 65536) && Holds(t.mem.ram, t.sp, stk)
  {
    hide PopWord, Holds, Word;
    PopWordHolds(f, stk, Hi(last), Lo(last));
    WordOfHalves(last);
  }

  /** JSR's operand is plain memory. */
  predicate PlainOperand(s: State) { !Io(Plus(s.pc, 1)) && !Io(Plus(s.pc, 2)) }

  /** The address written after JSR's opcode. */
  function Callee(s: State): word { WordIn(s.mem.ram, Plus(s.pc, 1), Plus(s.pc, 2)) }

  /** The address JSR leaves on the stack is that of its own last byte, and it goes to the address it names. */
  lemma JsrPushes(s: State, stk: seq<byte>)
    requires Fetches(s, JSR) && Holds(s.mem.ram, s.sp, stk) && |stk| <= 254
    ensures var t := Step(s); var last := Plus(s.pc, 2);
      t.sp == (s.sp - 2) % 256 && !t.halted && Holds(t.mem.ram, t.sp, stk + [Hi(last), Lo(last)])
    ensures PlainOperand(s) ==> Step(s).pc == Callee(s)
  {
    hide Step, Execute, Decode, FetchOpcode, Holds, ReadValue, ExecJsr, Later, Plus, Hi, Lo;
    PlusPlus(s.pc, 1, 1);
    JumpTable();
    StepExecutes(s, JSR);
    FetchedValue(s);
    SubroutineExecutes(FetchOpcode(s).0);
    ExecJsrPushes(FetchOpcode(s).0, stk);
    ExecJsrGoes(s, FetchOpcode(s).0);
  }

  lemma ExecJsrGoes(s: State, f: State)
    requires f == s.(pc := Plus(s.pc, 1), mem := s.mem.(raster := f.mem.raster), trace := f.trace)
    ensures PlainOperand(s) ==> ExecJsr(f).pc == Callee(s)
  {
    hide Push;
    assert Plus(f.pc, 1) == Plus(s.pc, 2);
  }

  lemma RtsPops(s: State, stk: seq<byte>, last: word)
    requires Fetches(s, RTS) && Holds(s.mem.ram, s.sp, stk + [Hi(last), Lo(last)])
    ensures var t := Step(s);
      t.sp == (s.sp + 2) % 256 && !t.halted && t.pc == (last + 1) % 65536 && Holds(t.mem.ram, t.sp, stk)
  {
    hide Step, Execute, Decode, FetchOpcode, Holds, ReadValue, ExecRts, Later;
    JumpTable();
    StepExecutes(s, RTS);
    FetchedValue(s);
    SubroutineExecutes(FetchOpcode(s).0);
    ExecRtsPops(FetchOpcode(s).0, stk, last);
  }

  // ----- Paths of calls, returns and anything in between -----

  /** `Quiet` stands for any stretch of execution that leaves the pointer and the pending return bytes as they were. */
  datatype Move = Call | Return | Quiet(to: State)

  function Next(s: State, m: Move): State { if m.Quiet? then m.to else Step(s) }

  /** The addresses the pending calls will return to, innermost last. */
  function PendingAfter(s: State, m: Move, pending: seq<word>): seq<word> {
    match m
    case Call => pending + [Plus(s.pc, 3)]
    case Return => if pending == [] then [] else pending[..|pending| - 1]
    case Quiet(_) => pending
  }

  ghost predicate SameFrame(s: State, t: State, n: nat) {
    t.sp == s.sp &&
    forall depth: nat {:trigger SlotAt(s.sp, depth)} :: depth < n ==>
      t.mem.ram[SlotAt(s.sp, depth)] == s.mem.ram[SlotAt(s.sp, depth)]
  }

  ghost predicate Allowed(s: State, m: Move, pending: seq<word>) {
    match m
    case Call => Fetches(s, JSR) && |pending| < 128
    case Return => Fetches(s, RTS) && pending != []
    case Quiet(t) => SameFrame(s, t, 2 * |pending|)
  }

  ghost predicate Path(s: State, ms: seq<Move>, pending: seq<word>)
    decreases |ms|
  {
    ms == [] ||
    (Allowed(s, ms[0], pending) && Path(Next(s, ms[0]), ms[1..], PendingAfter(s, ms[0], pending)))
  }

  function End(s: State, ms: seq<Move>): State
    decreases |ms|
  {
    if ms == [] then s else End(Next(s, ms[0]), ms[1..])
  }

  function PendingAtEnd(s: State, ms: seq<Move>, pending: seq<word>): seq<word>
    decreases |ms|
  {
    if ms == [] then pending else PendingAtEnd(Next(s, ms[0]), ms[1..], PendingAfter(s, ms[0], pending))
  }

  /** Every return on the path lands just after the innermost pending JSR, and every call at the address it names. */
  ghost predicate Lands(s: State, ms: seq<Move>, pending: seq<word>)
    decreases |ms|
  {
    ms == [] ||
    ((ms[0].Return? && pending != [] ==> Step(s).pc == pending[|pending| - 1]) &&
     (ms[0].Call? && PlainOperand(s) ==> Step(s).pc == Callee(s)) &&
     Lands(Next(s, ms[0]), ms[1..], PendingAfter(s, ms[0], pending)))
  }

  /** The last byte of the JSR that returns to `ret`. */
  function LastByteBefore(ret: word): word { if ret == 0 then 65535 else ret - 1 }

  function Frames(pending: seq<word>): (stk: seq<byte>)
    ensures |stk| == 2 * |pending|
  {
    if pending == [] then []
    else
      var last := LastByteBefore(pending[|pending| - 1]);
      Frames(pending[..|pending| - 1]) + [Hi(last), Lo(last)]
  }

  /** The stack pointer below which the frames of `pending` lie. */
  function Base(s: State, pending: seq<word>): byte { (s.sp + 2 * |pending|) % 256 }

  ghost predicate InStep(s: State, pending: seq<word>) { Holds(s.mem.ram, s.sp, Frames(pending)) }

  lemma FramesOfCall(pending: seq<word>, pc: word)
    ensures var ret, last := Plus(pc, 3), Plus(pc, 2);
      Frames(pending + [ret]) == Frames(pending) + [Hi(last), Lo(last)]
  {
    var ret := Plus(pc, 3);
    assert (pending + [ret])[..|pending|] == pending;
    assert LastByteBefore(ret) == Plus(pc, 2);
  }

  lemma BaseAfterCall(sp: byte, n: nat)
    ensures ((sp - 2) % 256 + 2 * (n + 1)) % 256 == (sp + 2 * n) % 256
  {
    assert (sp - 2) % 256 == if sp < 2 then sp + 254 else sp - 2;
  }

  lemma BaseAfterReturn(sp: byte, n: nat)
    ensures ((sp + 2) % 256 + 2 * n) % 256 == (sp + 2 * (n + 1)) % 256
  {
    assert (sp + 2) % 256 == if sp < 254 then sp + 2 else sp - 254;
  }

  lemma CallKeeps(s: State, pending: seq<word>)
    requires InStep(s, pending) && Allowed(s, Call, pending)
    ensures InStep(Step(s), PendingAfter(s, Call, pending))
    ensures Base(Step(s), PendingAfter(s, Call, pending)) == Base(s, pending)
    ensures PlainOperand(s) ==> Step(s).pc == Callee(s)
  {
    hide Step, Fetches, Holds, Hi, Lo, PlainOperand, Callee;
    BaseAfterCall(s.sp, |pending|);
    JsrPushes(s, Frames(pending));
    FramesOfCall(pending, s.pc);
    hide Frames;
  }

  lemma ReturnKeeps(s: State, pending: seq<word>)
    requires InStep(s, pending) && Allowed(s, Return, pending)
    ensures InStep(Step(s), pending[..|pending| - 1])
    ensures Base(Step(s), pending[..|pending| - 1]) == Base(s, pending)
    ensures Step(s).pc == pending[|pending| - 1]
  {
    hide Step, Fetches, Holds;
    BaseAfterReturn(s.sp, |pending| - 1);
    var last: int := LastByteBefore(pending[|pending| - 1]);
    RtsPops(s, Frames(pending[..|pending| - 1]), last);
    assert (last + 1) % 65536 == pending[|pending| - 1];
  }

  lemma MoveKeeps(s: State, m: Move, pending: seq<word>)
    requires InStep(s, pending) && Allowed(s, m, pending)
    ensures InStep(Next(s, m), PendingAfter(s, m, pending))
    ensures Base(Next(s, m), PendingAfter(s, m, pending)) == Base(s, pending)
    ensures m.Return? ==> Step(s).pc == pending[|pending| - 1]
    ensures m.Call? && PlainOperand(s) ==> Step(s).pc == Callee(s)
  {
    hide Step, Fetches, Holds, Base, PlainOperand, Callee;
    match m
    case Call => CallKeeps(s, pending); hide InStep;
    case Return => ReturnKeeps(s, pending); hide InStep;
    case Quiet(t) => QuietKeeps(s, t, Frames(pending)); SameBase(s, t, pending);
  }

  lemma SameBase(s: State, t: State, pending: seq<word>)
    requires SameFrame(s, t, 2 * |pending|)
    ensures Base(t, pending) == Base(s, pending)
  {}

  lemma QuietKeeps(s: State, t: State, stk: seq<byte>)
    requires Holds(s.mem.ram, s.sp, stk) && SameFrame(s, t, |stk|)
    ensures Holds(t.mem.ram, t.sp, stk)
  {}

  /** Calls up to 128 deep are undone by their returns: each RTS lands just after its own JSR, and the pointer at
      any time depends only on how many calls are pending. */
  lemma {:induction false} CallsNest(s: State, ms: seq<Move>, pending: seq<word>)
    requires InStep(s, pending) && Path(s, ms, pending)
    ensures Lands(s, ms, pending)
    ensures InStep(End(s, ms), PendingAtEnd(s, ms, pending))
    ensures Base(End(s, ms), PendingAtEnd(s, ms, pending)) == Base(s, pending)
    decreases |ms|
  {
    hide Step, InStep, Allowed, Base;
    if ms != [] {
      MoveKeeps(s, ms[0], pending);
      CallsNest(Next(s, ms[0]), ms[1..], PendingAfter(s, ms[0], pending));
    }
  }

  /** From an empty stack, a path that returns from all it called ends with the pointer where it began. */
  lemma BalancedCalls(s: State, ms: seq<Move>)
    requires Path(s, ms, []) && PendingAtEnd(s, ms, []) == []
    ensures Lands(s, ms, []) && End(s, ms).sp == s.sp
  {
    hide Step, Path, Lands, End, PendingAtEnd;
    CallsNest(s, ms, []);
  }

  /** A call of a subroutine that is just RTS is back after the JSR in two steps. */
  lemma CallAndReturn(s: State)
    requires Fetches(s, JSR) && PlainOperand(s) && !Io(Callee(s)) && s.mem.ram[Callee(s)] == RTS
    requires Callee(s) != 256 + s.sp && Callee(s) != 256 + (s.sp - 1) % 256
    ensures var t := Steps(s, 2); t.pc == Plus(s.pc, 3) && t.sp == s.sp && !t.halted
  {
    hide Step, Holds, Fetches, Callee, PlainOperand, Plus, Hi, Lo, Io;
    CalledReturn(s);
    RtsPops(Step(s), [], Plus(s.pc, 2));
    PlusPlus(s.pc, 2, 1);
    LastPlusOne(Plus(s.pc, 2));
    assert Steps(s, 1) == Step(s) && Steps(s, 2) == Step(Steps(s, 1));
  }

  lemma CalledReturn(s: State)
    requires Fetches(s, JSR) && PlainOperand(s) && !Io(Callee(s)) && s.mem.ram[Callee(s)] == RTS
    requires Callee(s) != 256 + s.sp && Callee(s) != 256 + (s.sp - 1) % 256
    ensures var t, last := Step(s), Plus(s.pc, 2);
      Fetches(t, RTS) && t.sp == (s.sp - 2) % 256 && Holds(t.mem.ram, t.sp, [] + [Hi(last), Lo(last)])
  {
    hide Step, Holds, Fetches, Callee, PlainOperand, Plus, Hi, Lo, Io;
    EmptyStack(s);
    JsrPushes(s, []);
    JsrSpares(s, Callee(s));
    FetchesAt(Step(s), RTS);
  }

  lemma EmptyStack(s: State)
    ensures Holds(s.mem.ram, s.sp, [])
  {}

  lemma FetchesAt(s: State, opcode: byte)
    requires !s.halted && !Io(s.pc) && s.mem.ram[s.pc] == opcode
    ensures Fetches(s, opcode)
  {}

  lemma LastPlusOne(last: word)
    ensures (last + 1) % 65536 == Plus(last, 1)
  {}

  lemma JsrSpares(s: State, a: word)
    requires Fetches(s, JSR) && a != 256 + s.sp && a != 256 + (s.sp - 1) % 256
    ensures Step(s).mem.ram[a] == s.mem.ram[a]
  {
    JumpTable();
    FetchedValue(s);
    hide Step, Decode, FetchOpcode, ReadValue, Fetches, Hi, Lo;
    FetchesValue(s, JSR);
    var n := StepSummary(s);
    UntouchedByWrites(s.mem.(raster := Step(s).mem.raster), StepWrites(s), a);
  }

  lemma FetchesValue(s: State, opcode: byte)
    requires Fetches(s, opcode)
    ensures !s.halted && ReadValue(s.mem, s.pc) == opcode
  {}

  // ----- Paths that are runs -----

  /** One step that calls, one that returns, or any run of steps, interrupts and keys in between. */
  datatype Deed = CallStep | ReturnStep | Body(es: seq<Event>)

  function MoveOf(s: State, d: Deed): Move {
    match d
    case CallStep => Call
    case ReturnStep => Return
    case Body(es) => Quiet(Run(s, es))
  }

  /** The path that the deeds make from `s`. */
  function MovesOf(s: State, ds: seq<Deed>): (ms: seq<Move>)
    ensures |ms| == |ds|
    decreases |ds|
  {
    if ds == [] then []
    else var m := MoveOf(s, ds[0]); [m] + MovesOf(Next(s, m), ds[1..])
  }

  function EventsOf(ds: seq<Deed>): seq<Event> {
    if ds == [] then []
    else (if ds[0].Body? then ds[0].es else [StepEvent]) + EventsOf(ds[1..])
  }

  lemma DeedIsRun(s: State, d: Deed)
    ensures Next(s, MoveOf(s, d)) == Run(s, if d.Body? then d.es else [StepEvent])
  {
    hide Step;
    var one := [StepEvent];
    assert one[..|one| - 1] == [];
    assert Run(s, one) == Step(s);
  }

  lemma {:induction false} EndIsRun(s: State, ds: seq<Deed>)
    ensures End(s, MovesOf(s, ds)) == Run(s, EventsOf(ds))
    decreases |ds|
  {
    hide Run, Next, MoveOf;
    if ds == [] {
      NothingRuns(s);
    } else {
      var t := Next(s, MoveOf(s, ds[0]));
      DeedIsRun(s, ds[0]);
      RunConcat(s, if ds[0].Body? then ds[0].es else [StepEvent], EventsOf(ds[1..]));
      assert MovesOf(s, ds)[1..] == MovesOf(t, ds[1..]);
      EndIsRun(t, ds[1..]);
    }
  }

  lemma NothingRuns(s: State)
    ensures Run(s, []) == s
  {}

  /** Nested calls in a run of the machine, with any runs between them that leave the pointer and the pending return
      bytes alone: each RTS lands just after its own JSR, and at the end the stack holds what is still pending. */
  lemma RunCallsNest(s: State, ds: seq<Deed>, pending: seq<word>)
    requires InStep(s, pending) && Path(s, MovesOf(s, ds), pending)
    ensures Lands(s, MovesOf(s, ds), pending)
    ensures var t, left := Run(s, EventsOf(ds)), PendingAtEnd(s, MovesOf(s, ds), pending);
      InStep(t, left) && Base(t, left) == Base(s, pending)
  {
    hide Run, InStep, Path, Lands, Base, PendingAtEnd, MovesOf, EventsOf, End;
    CallsNest(s, MovesOf(s, ds), pending);
    EndIsRun(s, ds);
  }

  /** Such a run that returns from all it called ends with the pointer where it began. */
  lemma BalancedRun(s: State, ds: seq<Deed>)
    requires Path(s, MovesOf(s, ds), []) && PendingAtEnd(s, MovesOf(s, ds), []) == []
    ensures Lands(s, MovesOf(s, ds), []) && Run(s, EventsOf(ds)).sp == s.sp
  {
    hide Run, Path, Lands, PendingAtEnd, MovesOf, EventsOf, End;
    BalancedCalls(s, MovesOf(s, ds));
    EndIsRun(s, ds);
  }
}
