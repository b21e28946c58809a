/** Multi-byte shift programs, run by the interpreter's steps over numbers in memory. */
module Shifts {
  import opened Wrappers
  import opened Bytes
  import opened Memory
  import opened Isa
  import opened Cpu
  import opened Decoding
  import opened Instructions
  import opened Runs
  import opened Programs
  import opened Arithmetic
  import opened MultiByte

  // ----- Any straight line of shifts in memory -----

  /** A shift, and the absolute address of the byte it works on. */
  datatype Shift = Shift(op: Operation, addr: word)

  predicate IsShift(op: Operation) { op.Asl? || op.Rol? || op.Lsr? || op.Ror? }

  function ShiftOpcode(op: Operation): byte {
    if op.Asl? then 0x0E else if op.Rol? then 0x2E else if op.Lsr? then 0x4E else 0x6E
  }

  function Code(items: seq<Shift>): (code: seq<byte>)
    ensures |code| == 3 * |items|
  {
    if items == [] then []
    else [ShiftOpcode(items[0].op), Lo(items[0].addr), Hi(items[0].addr)] + Code(items[1..])
  }

  /** One shift of the byte at its address, with the carry going in and coming out. */
  function ShiftByte(ram: Ram, c: bool, item: Shift): (Ram, bool) {
    var v := ram[item.addr];
    (ram[item.addr := RmwResult(item.op, c, v)], RmwCarry(item.op, c, v))
  }

  function ShiftAll(ram: Ram, c: bool, items: seq<Shift>): (Ram, bool)
    decreases |items|
  {
    if items == [] then (ram, c)
    else var r := ShiftByte(ram, c, items[0]); ShiftAll(r.0, r.1, items[1..])
  }

  /** The bytes shifted are plain memory, apart from the code. */
  ghost predicate Apart(at: word, n: nat, items: seq<Shift>) {
    forall i {:trigger items[i]} :: 0 <= i < |items| ==>
      IsShift(items[i].op) && !Io(items[i].addr) && forall k :: 0 <= k < 3 * n ==> items[i].addr != Plus(at, k)
  }

  lemma {:induction false} CodeOf(items: seq<Shift>, i: nat)
    requires i < |items|
    ensures Code(items)[3 * i..3 * i + 3] == [ShiftOpcode(items[i].op), Lo(items[i].addr), Hi(items[i].addr)]
  {
    if i > 0 {
      CodeOf(items[1..], i - 1);
      assert Code(items)[3 * i..3 * i + 3] == Code(items[1..])[3 * (i - 1)..3 * (i - 1) + 3];
    }
  }

  lemma ShiftDecodes(op: Operation)
    requires IsShift(op)
    ensures Decode(ShiftOpcode(op)) == Some(Instruction(op, Absolute)) && IsRmw(op)
  {
    hide Decode;
    AslTable();
    RolTable();
    LsrTable();
    RorTable();
  }

  /** What a shift of plain memory leaves in RAM, in C and in the program counter. */
  lemma ModifyShifts(op: Operation, s: State, addr: word)
    requires !Io(addr)
    ensures var t := Modify(op, s, addr);
      (t.mem.ram, t.p.c) == ShiftByte(s.mem.ram, s.p.c, Shift(op, addr)) && t.pc == s.pc && t.halted == s.halted
  {
    hide RmwResult, RmwCarry, Mirror;
  }

  lemma ApartAt(at: word, n: nat, items: seq<Shift>, i: nat)
    requires Apart(at, n, items) && i < |items|
    ensures IsShift(items[i].op) && !Io(items[i].addr) && forall k :: 0 <= k < 3 * n ==> items[i].addr != Plus(at, k)
  {
    hide IsShift, Plus;
  }

  lemma FetchedShift(s: State, at: word, items: seq<Shift>, i: nat)
    requires Running(s, at, Code(items), 3 * i) && i < |items| && IsShift(items[i].op)
    ensures Like(Step(s), Modify(items[i].op, Past(s, 3), items[i].addr)) && !s.halted
  {
    hide Step, Sees, Running, Code, Plus, Lo, Hi, Word, Decode, ShiftOpcode, Modify, Loaded;
    var code, item := Code(items), items[i];
    RunningLive(s, at, code, 3 * i);
    ShiftDecodes(item.op);
    RunningSees(s, at, code, 3 * i, 3);
    CodeOf(items, i);
    WordOfHalves(item.addr);
    StepModifyAbsolute(s, ShiftOpcode(item.op), Lo(item.addr), Hi(item.addr), item.op);
  }

  lemma ShiftStep(s: State, at: word, items: seq<Shift>, i: nat)
    requires Running(s, at, Code(items), 3 * i) && i < |items| && Apart(at, |items|, items)
    ensures var t := Step(s);
      Running(t, at, Code(items), 3 * i + 3) && (t.mem.ram, t.p.c) == ShiftByte(s.mem.ram, s.p.c, items[i])
  {
    hide Step, Running, Code, Plus, Modify, ShiftByte, Apart, Io, IsShift, RmwResult, RmwCarry, Loaded;
    ApartAt(at, |items|, items, i);
    FetchedShift(s, at, items, i);
    ModifyShifts(items[i].op, Past(s, 3), items[i].addr);
    ShiftsOneByte(s.mem.ram, s.p.c, items[i]);
    CodeLeft(s, Step(s), at, Code(items), 3 * i, 3, items[i].addr);
  }

  lemma ShiftsOneByte(ram: Ram, c: bool, item: Shift)
    ensures var now := ShiftByte(ram, c, item).0; now == ram[item.addr := now[item.addr]]
  {
    hide RmwResult, RmwCarry;
  }

  /** The machine has moved on by `n` bytes and changed one byte, which is none of the code's. */
  lemma CodeLeft(s: State, t: State, at: word, code: seq<byte>, k: nat, n: nat, addr: word)
    requires Running(s, at, code, k) && forall j :: 0 <= j < |code| ==> addr != Plus(at, j)
    requires !t.halted && t.pc == Plus(s.pc, n) && t.mem.ram == s.mem.ram[addr := t.mem.ram[addr]]
    ensures Running(t, at, code, k + n)
  {
    PlusPlus(at, k, n);
    hide Plus, Loaded;
    LoadedStays(s.mem.ram, at, code, addr, t.mem.ram[addr]);
  }

  lemma LoadedStays(ram: Ram, at: word, code: seq<byte>, addr: word, v: byte)
    requires Loaded(ram, at, code) && forall k :: 0 <= k < |code| ==> addr != Plus(at, k)
    ensures Loaded(ram[addr := v], at, code)
  {
    hide Plus;
  }

  lemma {:induction false} ShiftsRun(s: State, at: word, items: seq<Shift>, i: nat)
    requires Running(s, at, Code(items), 3 * i) && i <= |items| && Apart(at, |items|, items)
    ensures var t := Steps(s, |items| - i);
      Running(t, at, Code(items), 3 * |items|) && (t.mem.ram, t.p.c) == ShiftAll(s.mem.ram, s.p.c, items[i..])
    decreases |items| - i
  {
    hide Step, Running, Code, Apart, ShiftByte;
    if i < |items| {
      ShiftStep(s, at, items, i);
      ShiftsRun(Step(s), at, items, i + 1);
      assert Steps(s, 1) == Step(s);
      StepsCompose(s, 1, |items| - i - 1);
      assert items[i..][1..] == items[i + 1..];
    }
  }

  // ----- Shifting a whole number -----

  /** From the low byte up: `first`, then ROLs. */
  function Up(first: Operation, x: word, n: nat): (items: seq<Shift>)
    ensures |items| == n
    ensures forall i :: 0 <= i < n ==> items[i] == Shift(if i == 0 then first else Rol, Plus(x, i))
  {
    seq(n, i => Shift(if i == 0 then first else Rol, Plus(x, i)))
  }

  /** From the high byte down: `first`, then RORs. */
  function Down(first: Operation, x: word, n: nat): (items: seq<Shift>)
    ensures |items| == n
    ensures forall i :: 0 <= i < n ==> items[i] == Shift(if i == 0 then first else Ror, Plus(x, n - 1 - i))
  {
    seq(n, i requires 0 <= i < n => Shift(if i == 0 then first else Ror, Plus(x, n - 1 - i)))
  }

  /** Two memories agree but for the `n` bytes from `x` on. */
  ghost predicate SameOutside(ram: Ram, now: Ram, x: word, n: nat) {
    forall k: word {:trigger Outside(k, x, n)} :: Outside(k, x, n) ==> now[k] == ram[k]
  }

  lemma FirstByte(ram: Ram, x: word, n: nat)
    requires n > 0
    ensures BytesAt(ram, x, n) == [ram[x]] + BytesAt(ram, Plus(x, 1), n - 1)
  {
    PlusPlus(x, 0, 0);
    forall i | 1 <= i < n
      ensures Plus(x, i) == Plus(Plus(x, 1), i - 1)
    {
      PlusPlus(x, 1, i - 1);
    }
    hide Plus;
  }

  lemma LastByte(ram: Ram, x: word, n: nat)
    requires n > 0
    ensures BytesAt(ram, x, n) == BytesAt(ram, x, n - 1) + [ram[Plus(x, n - 1)]]
  {}

  lemma UpFront(x: word, n: nat)
    requires n > 0
    ensures Up(Rol, x, n) == [Shift(Rol, x)] + Up(Rol, Plus(x, 1), n - 1)
  {
    PlusPlus(x, 0, 0);
    forall i | 1 <= i < n
      ensures Plus(x, i) == Plus(Plus(x, 1), i - 1)
    {
      PlusPlus(x, 1, i - 1);
    }
    hide Plus;
  }

  lemma DownFront(x: word, n: nat)
    requires n > 0
    ensures Down(Ror, x, n) == [Shift(Ror, Plus(x, n - 1))] + Down(Ror, x, n - 1)
  {
    hide Plus;
  }

  lemma OutsideRest(x: word, n: nat)
    requires 0 < n <= 65536
    ensures Outside(x, Plus(x, 1), n - 1) && Outside(Plus(x, n - 1), x, n - 1)
    ensures forall k: word {:trigger Outside(k, x, n)} :: Outside(k, x, n) ==>
              && k != x && Outside(k, Plus(x, 1), n - 1)
              && k != Plus(x, n - 1) && Outside(k, x, n - 1)
  {
    forall i | 1 <= i < n
      ensures Plus(x, i) == Plus(Plus(x, 1), i - 1) && Plus(x, i) != x
    {
      PlusPlus(x, 1, i - 1);
    }
    ResultsDistinct(x, n, n - 1);
    PlusPlus(x, 0, 0);
    forall k: word | Outside(k, x, n)
      ensures k != x && Outside(k, Plus(x, 1), n - 1)
    {
      assert k != Plus(x, 0);
      forall j | 0 <= j < n - 1
        ensures k != Plus(Plus(x, 1), j)
      {
        assert k != Plus(x, j + 1);
      }
    }
  }

  lemma BytesSpared(ram: Ram, x: word, n: nat, k: word, v: byte)
    requires Outside(k, x, n)
    ensures BytesAt(ram[k := v], x, n) == BytesAt(ram, x, n)
  {
    hide Plus;
  }

  lemma SameOutsideMore(ram: Ram, middle: Ram, now: Ram, x: word, n: nat, y: word, m: nat, k: word)
    requires SameOutside(middle, now, y, m) && middle == ram[k := middle[k]]
    requires forall a: word {:trigger Outside(a, x, n)} :: Outside(a, x, n) ==> a != k && Outside(a, y, m)
    ensures SameOutside(ram, now, x, n)
  {
    hide Outside;
  }

  /** ROLs from the low byte up rotate the number where it lies. */
  lemma {:induction false} RolInMemory(ram: Ram, c: bool, x: word, n: nat)
    requires n <= 65536
    ensures var (now, c') := ShiftAll(ram, c, Up(Rol, x, n));
      (BytesAt(now, x, n), c') == RolBytes(c, BytesAt(ram, x, n)) && SameOutside(ram, now, x, n)
    decreases n
  {
    if n > 0 {
      hide RolBytes, RmwResult, RmwCarry, Up, Plus, Outside, SameOutside;
      var next := Plus(x, 1);
      var (middle, d) := ShiftByte(ram, c, Shift(Rol, x));
      var now := ShiftAll(middle, d, Up(Rol, next, n - 1)).0;
      RolInMemory(middle, d, next, n - 1);
      UpFront(x, n);
      assert Up(Rol, x, n)[1..] == Up(Rol, next, n - 1);
      OutsideRest(x, n);
      FirstByte(ram, x, n);
      FirstByte(now, x, n);
      BytesSpared(ram, next, n - 1, x, middle[x]);
      RolBytesFront(c, ram[x], BytesAt(ram, next, n - 1));
      OutsideKept(middle, now, next, n - 1, x);
      SameOutsideMore(ram, middle, now, x, n, next, n - 1, x);
    } else {
      assert BytesAt(ram, x, 0) == [];
    }
  }

  lemma OutsideKept(ram: Ram, now: Ram, x: word, n: nat, k: word)
    requires SameOutside(ram, now, x, n) && Outside(k, x, n)
    ensures now[k] == ram[k]
  {}

  /** RORs from the high byte down rotate it the other way. */
  lemma {:induction false} RorInMemory(ram: Ram, c: bool, x: word, n: nat)
    requires n <= 65536
    ensures var (now, c') := ShiftAll(ram, c, Down(Ror, x, n));
      (BytesAt(now, x, n), c') == RorBytes(c, BytesAt(ram, x, n)) && SameOutside(ram, now, x, n)
    decreases n
  {
    if n > 0 {
      hide RmwResult, RmwCarry, Down, Plus, Outside, SameOutside;
      var top := Plus(x, n - 1);
      var (middle, d) := ShiftByte(ram, c, Shift(Ror, top));
      var now := ShiftAll(middle, d, Down(Ror, x, n - 1)).0;
      RorInMemory(middle, d, x, n - 1);
      DownFront(x, n);
      assert Down(Ror, x, n)[1..] == Down(Ror, x, n - 1);
      OutsideRest(x, n);
      LastByte(ram, x, n);
      LastByte(now, x, n);
      BytesSpared(ram, x, n - 1, top, middle[top]);
      OutsideKept(middle, now, x, n - 1, top);
      SameOutsideMore(ram, middle, now, x, n, x, n - 1, top);
      assert BytesAt(ram, x, n)[..n - 1] == BytesAt(ram, x, n - 1);
    } else {
      assert BytesAt(ram, x, 0) == [];
    }
  }

  /** A leading ASL is a ROL with the carry clear, a leading LSR a ROR with the carry clear. */
  lemma LeadingShift(ram: Ram, c: bool, x: word, n: nat)
    requires n > 0
    ensures ShiftAll(ram, c, Up(Asl, x, n)) == ShiftAll(ram, false, Up(Rol, x, n))
    ensures ShiftAll(ram, c, Down(Lsr, x, n)) == ShiftAll(ram, false, Down(Ror, x, n))
  {
    hide Up, Down, Plus;
    assert Up(Asl, x, n)[1..] == Up(Rol, x, n)[1..];
    assert Down(Lsr, x, n)[1..] == Down(Ror, x, n)[1..];
  }

  // ----- The programs -----

  ghost predicate Ready(s: State, at: word, items: seq<Shift>) {
    Running(s, at, Code(items), 0) && Apart(at, |items|, items)
  }

  lemma ProgramShifts(s: State, at: word, items: seq<Shift>)
    requires Ready(s, at, items)
    ensures var t := Steps(s, |items|);
      Running(t, at, Code(items), 3 * |items|) && (t.mem.ram, t.p.c) == ShiftAll(s.mem.ram, s.p.c, items)
  {
    hide Running, Apart, Step, Code;
    ShiftsRun(s, at, items, 0);
    assert items[0..] == items;
  }

  /** ASL, then ROLs from the low byte up: the number doubles modulo 256^n, with the bit that falls off in C. */
  lemma DoublingProgram(s: State, at: word, x: word, n: nat)
    requires 0 < n <= 65536 && Ready(s, at, Up(Asl, x, n))
    ensures var t := Steps(s, n); var before, after := BytesAt(s.mem.ram, x, n), BytesAt(t.mem.ram, x, n);
      && Running(t, at, Code(Up(Asl, x, n)), 3 * n) && SameOutside(s.mem.ram, t.mem.ram, x, n)
      && Value(after) + Pow(n) * Bit(t.p.c) == 2 * Value(before)
  {
    hide Running, Ready, Steps, Code, Up, ShiftAll, RolBytes, BytesAt, SameOutside, Value, Pow;
    ProgramShifts(s, at, Up(Asl, x, n));
    LeadingShift(s.mem.ram, s.p.c, x, n);
    RolInMemory(s.mem.ram, false, x, n);
    RolChain(false, BytesAt(s.mem.ram, x, n));
  }

  /** LSR, then RORs from the high byte down: the number halves, with the remainder in C. */
  lemma HalvingProgram(s: State, at: word, x: word, n: nat)
    requires 0 < n <= 65536 && Ready(s, at, Down(Lsr, x, n))
    ensures var t := Steps(s, n); var before, after := BytesAt(s.mem.ram, x, n), BytesAt(t.mem.ram, x, n);
      && Running(t, at, Code(Down(Lsr, x, n)), 3 * n) && SameOutside(s.mem.ram, t.mem.ram, x, n)
      && Value(after) == Value(before) / 2 && Bit(t.p.c) == Value(before) % 2
  {
    hide Running, Ready, Steps, Code, Down, ShiftAll, RorBytes, BytesAt, SameOutside, Value, Pow;
    ProgramShifts(s, at, Down(Lsr, x, n));
    LeadingShift(s.mem.ram, s.p.c, x, n);
    RorInMemory(s.mem.ram, false, x, n);
    RorChain(false, BytesAt(s.mem.ram, x, n));
  }

  /** A number rotated left by one program and then right by another is as it was: all of RAM, and C. */
  lemma RotateProgramsCancel(s: State, at: word, u: State, back: word, x: word, n: nat)
    requires n <= 65536
    requires Ready(s, at, Up(Rol, x, n)) && Ready(u, back, Down(Ror, x, n))
    requires (u.mem.ram, u.p.c) == (Steps(s, n).mem.ram, Steps(s, n).p.c)
    ensures var t := Steps(u, n); (t.mem.ram, t.p.c) == (s.mem.ram, s.p.c)
  {
    hide Running, Ready, Steps, Code, Up, Down, ShiftAll, RolBytes, RorBytes, SameOutside;
    ProgramShifts(s, at, Up(Rol, x, n));
    ProgramShifts(u, back, Down(Ror, x, n));
    RolInMemory(s.mem.ram, s.p.c, x, n);
    RorInMemory(u.mem.ram, u.p.c, x, n);
    RotationsCancel(s.p.c, BytesAt(s.mem.ram, x, n));
    SameEverywhere(s.mem.ram, u.mem.ram, Steps(u, n).mem.ram, x, n);
  }

  /** And the other way round. */
  lemma RotateBackCancels(s: State, at: word, u: State, back: word, x: word, n: nat)
    requires n <= 65536
    requires Ready(s, at, Down(Ror, x, n)) && Ready(u, back, Up(Rol, x, n))
    requires (u.mem.ram, u.p.c) == (Steps(s, n).mem.ram, Steps(s, n).p.c)
    ensures var t := Steps(u, n); (t.mem.ram, t.p.c) == (s.mem.ram, s.p.c)
  {
    hide Running, Ready, Steps, Code, Up, Down, ShiftAll, RolBytes, RorBytes, SameOutside;
    ProgramShifts(s, at, Down(Ror, x, n));
    ProgramShifts(u, back, Up(Rol, x, n));
    RorInMemory(s.mem.ram, s.p.c, x, n);
    RolInMemory(u.mem.ram, u.p.c, x, n);
    RotationsCancel(s.p.c, BytesAt(s.mem.ram, x, n));
    SameEverywhere(s.mem.ram, u.mem.ram, Steps(u, n).mem.ram, x, n);
  }

  lemma SameEverywhere(ram: Ram, middle: Ram, now: Ram, x: word, n: nat)
    requires SameOutside(ram, middle, x, n) && SameOutside(middle, now, x, n)
    requires BytesAt(now, x, n) == BytesAt(ram, x, n)
    ensures now == ram
  {
    forall k: word
      ensures now[k] == ram[k]
    {
      if !Outside(k, x, n) {
        var i :| 0 <= i < n && k == Plus(x, i);
        assert BytesAt(now, x, n)[i] == BytesAt(ram, x, n)[i];
      }
    }
  }
}
