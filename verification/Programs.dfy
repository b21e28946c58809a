/** Machine-code programs run by the interpreter's steps. */
module Programs {
  import opened Bytes
  import opened Memory
  import opened Isa
  import opened Cpu
  import opened Decoding
  import opened Instructions
  import opened Runs

  /** `code` sits at `at` (wrapping past $FFFF), clear of the I/O addresses. */
  ghost predicate Loaded(ram: Ram, at: word, code: seq<byte>) {
    forall k :: 0 <= k < |code| ==> !Io(Plus(at, k)) && ram[Plus(at, k)] == code[k]
  }

  /** A live machine `k` bytes into the code at `at`. */
  ghost predicate Running(s: State, at: word, code: seq<byte>, k: nat) {
    !s.halted && s.pc == Plus(at, k) && Loaded(s.mem.ram, at, code)
  }

  lemma RunningSees(s: State, at: word, code: seq<byte>, k: nat, n: nat)
    requires Running(s, at, code, k) && k + n <= |code|
    ensures Sees(s, code[k..k + n])
  {
    forall j | 0 <= j < n
      ensures !Io(Plus(s.pc, j)) && s.mem.ram[Plus(s.pc, j)] == code[k..k + n][j]
    {
      PlusPlus(at, k, j);
      assert code[k..k + n][j] == code[k + j];
    }
  }

  lemma StepsCompose(s: State, m: nat, n: nat)
    ensures Steps(s, m + n) == Steps(Steps(s, m), n)
  {
    hide Step;
    if n > 0 {
      StepsCompose(s, m, n - 1);
    }
  }

  lemma RunningLive(s: State, at: word, code: seq<byte>, k: nat)
    requires Running(s, at, code, k)
    ensures !s.halted
  {}

  lemma StepsNone(s: State)
    ensures Steps(s, 0) == s
  {}

  // ----- LDX #0 / loop: INX / CPX #n / BNE loop / BRK -----

  function CountingLoop(n: byte): seq<byte> { [0xA2, 0x00, 0xE8, 0xE0, n, 0xD0, 0xFB, 0x00] }

  lemma StartCounting(s: State, at: word, n: byte)
    requires Running(s, at, CountingLoop(n), 0)
    ensures Running(Step(s), at, CountingLoop(n), 2) && Step(s).x == 0
  {
    hide Step, Sees, Running, Plus;
    LdxTable();
    RunningLive(s, at, CountingLoop(n), 0);
    RunningSees(s, at, CountingLoop(n), 0, 2);
    assert CountingLoop(n)[0..2] == [0xA2, 0x00];
    StepImmediate(s, 0xA2, 0x00, Load(X));
    RunningOn(s, Step(s), at, CountingLoop(n), 0, 2);
  }

  /** The machine has moved on by `n` bytes with RAM as it was. */
  lemma RunningOn(s: State, t: State, at: word, code: seq<byte>, k: nat, n: int)
    requires Running(s, at, code, k) && 0 <= k + n
    requires !t.halted && t.mem.ram == s.mem.ram && t.pc == Plus(s.pc, n)
    ensures Running(t, at, code, k + n)
  {
    PlusPlus(at, k, n);
  }

  lemma CountInx(s: State, at: word, n: byte)
    requires Running(s, at, CountingLoop(n), 2)
    ensures Running(Step(s), at, CountingLoop(n), 3) && Step(s).x == (s.x + 1) % 256
  {
    hide Step, Sees, Running, Plus;
    RunningLive(s, at, CountingLoop(n), 2);
    RunningSees(s, at, CountingLoop(n), 2, 1);
    assert CountingLoop(n)[2..3] == [0xE8];
    StepInx(s);
    RunningOn(s, Step(s), at, CountingLoop(n), 2, 1);
  }

  lemma CountCpx(s: State, at: word, n: byte)
    requires Running(s, at, CountingLoop(n), 3)
    ensures var t := Step(s); Running(t, at, CountingLoop(n), 5) && t.x == s.x && (t.p.z <==> s.x == n)
  {
    hide Step, Sees, Running, Plus;
    RunningLive(s, at, CountingLoop(n), 3);
    CompareRegisterTable();
    RunningSees(s, at, CountingLoop(n), 3, 2);
    assert CountingLoop(n)[3..5] == [0xE0, n];
    StepImmediate(s, 0xE0, n, Compare(X));
    RunningOn(s, Step(s), at, CountingLoop(n), 3, 2);
  }

  lemma CountBne(s: State, at: word, n: byte)
    requires Running(s, at, CountingLoop(n), 5)
    ensures var t := Step(s);
      Running(t, at, CountingLoop(n), if s.p.z then 7 else 2) && t.x == s.x && t.p == s.p
  {
    hide Step, Sees, Running, Plus;
    RunningLive(s, at, CountingLoop(n), 5);
    BranchTable();
    RunningSees(s, at, CountingLoop(n), 5, 2);
    assert CountingLoop(n)[5..7] == [0xD0, 0xFB];
    StepBranch(s, 0xD0, 0xFB, Z, false);
    PlusPlus(s.pc, 2, -5);
    RunningOn(s, Step(s), at, CountingLoop(n), 5, if s.p.z then 2 else -3);
  }

  lemma CountBrk(s: State, at: word, n: byte)
    requires Running(s, at, CountingLoop(n), 7)
    ensures var t := Step(s); !s.halted && t.halted && t.x == s.x && t.p == s.p
  {
    hide Step, Sees, Running, Plus;
    RunningLive(s, at, CountingLoop(n), 7);
    RunningSees(s, at, CountingLoop(n), 7, 1);
    assert CountingLoop(n)[7..8] == [0x00];
    StepBrk(s);
  }

  lemma ThreeSteps(s: State)
    ensures Steps(s, 1) == Step(s) && Steps(s, 3) == Step(Step(Step(s)))
  {
    hide Step;
    assert Steps(s, 2) == Step(Steps(s, 1));
  }

  /** One turn of the loop. */
  lemma CountOnce(s: State, at: word, n: byte)
    requires Running(s, at, CountingLoop(n), 2)
    ensures var t := Steps(s, 3); var x := (s.x + 1) % 256;
      t.x == x && (t.p.z <==> x == n) && Running(t, at, CountingLoop(n), if x == n then 7 else 2)
  {
    hide Step, Running, CountingLoop;
    CountInx(s, at, n);
    CountCpx(Step(s), at, n);
    CountBne(Step(Step(s)), at, n);
    ThreeSteps(s);
  }

  /** How often the loop body runs: counting from zero to `n`, all the way round when `n` is zero. */
  function Turns(n: byte): nat { if n == 0 then 256 else n }

  lemma {:induction false} CountTo(s: State, at: word, n: byte, j: nat)
    requires Running(s, at, CountingLoop(n), 0) && j <= Turns(n)
    ensures var t := Steps(s, 1 + 3 * j);
      t.x == j % 256 && Running(t, at, CountingLoop(n), if j == Turns(n) then 7 else 2) && (j == Turns(n) ==> t.p.z)
  {
    hide Step, Running, CountingLoop;
    if j == 0 {
      StartCounting(s, at, n);
      ThreeSteps(s);
    } else {
      CountTo(s, at, n, j - 1);
      CountOnce(Steps(s, 1 + 3 * (j - 1)), at, n);
      StepsCompose(s, 1 + 3 * (j - 1), 3);
    }
  }

  /** The self-test loop halts after exactly 3k + 2 steps, for any bound and at any address. */
  lemma CountingLoopHalts(s: State, at: word, n: byte)
    requires Running(s, at, CountingLoop(n), 0)
    ensures var k := Turns(n); var t := Steps(s, 3 * k + 2);
      t.halted && t.x == n && t.p.z && !Steps(s, 3 * k + 1).halted
  {
    hide Step, Running, CountingLoop;
    CountTo(s, at, n, Turns(n));
    CountBrk(Steps(s, 1 + 3 * Turns(n)), at, n);
  }

  // ----- loop: LDA $D012 / CMP #v / BNE loop -----

  function RasterWait(v: byte): seq<byte> { [0xAD, 0x12, 0xD0, 0xC9, v, 0xD0, 0xF9] }

  function NextLine(r: RasterLine): RasterLine { (r + 1) % PAL_RASTER_LINES }

  /** How many lines the beam still has to travel to line `v`, which the register shows as `v`. */
  function Distance(r: RasterLine, v: byte): nat { (v - r - 1) % PAL_RASTER_LINES }

  /** How many reads of the register it takes to see `v`. */
  function Reads(r: RasterLine, v: byte): (n: nat)
    ensures 1 <= n <= 1 + Distance(r, v) <= PAL_RASTER_LINES
    decreases Distance(r, v)
  {
    if NextLine(r) % 256 == v then 1 else 1 + Reads(NextLine(r), v)
  }

  lemma RasterLda(s: State, at: word, v: byte)
    requires Running(s, at, RasterWait(v), 0)
    ensures Running(Step(s), at, RasterWait(v), 3)
    ensures Step(s).a == NextLine(s.mem.raster) % 256 && Step(s).mem == s.mem.(raster := NextLine(s.mem.raster))
  {
    hide Step, Sees, Running, Plus;
    RunningLive(s, at, RasterWait(v), 0);
    LdaTable();
    RunningSees(s, at, RasterWait(v), 0, 3);
    assert RasterWait(v)[0..3] == [0xAD, 0x12, 0xD0];
    StepAbsolute(s, 0xAD, 0x12, 0xD0, Load(A));
    RunningOn(s, Step(s), at, RasterWait(v), 0, 3);
  }

  lemma RasterCmp(s: State, at: word, v: byte)
    requires Running(s, at, RasterWait(v), 3)
    ensures var t := Step(s); Running(t, at, RasterWait(v), 5) && t.a == s.a && t.mem == s.mem && (t.p.z <==> s.a == v)
  {
    hide Step, Sees, Running, Plus;
    RunningLive(s, at, RasterWait(v), 3);
    CompareATable();
    RunningSees(s, at, RasterWait(v), 3, 2);
    assert RasterWait(v)[3..5] == [0xC9, v];
    StepImmediate(s, 0xC9, v, Compare(A));
    RunningOn(s, Step(s), at, RasterWait(v), 3, 2);
  }

  lemma RasterBne(s: State, at: word, v: byte)
    requires Running(s, at, RasterWait(v), 5)
    ensures var t := Step(s);
      Running(t, at, RasterWait(v), if s.p.z then 7 else 0) && t.a == s.a && t.mem == s.mem
  {
    hide Step, Sees, Running, Plus;
    RunningLive(s, at, RasterWait(v), 5);
    BranchTable();
    RunningSees(s, at, RasterWait(v), 5, 2);
    assert RasterWait(v)[5..7] == [0xD0, 0xF9];
    StepBranch(s, 0xD0, 0xF9, Z, false);
    PlusPlus(s.pc, 2, -7);
    RunningOn(s, Step(s), at, RasterWait(v), 5, if s.p.z then 2 else -5);
  }

  lemma WaitOnce(s: State, at: word, v: byte)
    requires Running(s, at, RasterWait(v), 0)
    ensures var t := Steps(s, 3); var line := NextLine(s.mem.raster);
      Running(t, at, RasterWait(v), if line % 256 == v then 7 else 0) &&
      t.a == line % 256 && t.mem.raster == line
  {
    hide Step, Running, RasterWait, NextLine;
    RasterLda(s, at, v);
    RasterCmp(Step(s), at, v);
    RasterBne(Step(Step(s)), at, v);
    ThreeSteps(s);
  }

  /** The wait leaves its loop after exactly as many turns as the beam needs to show `v`: at most 312. */
  lemma {:induction false} RasterWaitEnds(s: State, at: word, v: byte)
    requires Running(s, at, RasterWait(v), 0)
    ensures var n := Reads(s.mem.raster, v); var t := Steps(s, 3 * n);
      1 <= n <= 312 && Running(t, at, RasterWait(v), 7) && t.a == v
    ensures forall k :: 0 <= k < Reads(s.mem.raster, v) ==> Running(Steps(s, 3 * k), at, RasterWait(v), 0)
    decreases Distance(s.mem.raster, v)
  {
    hide Step, Running, RasterWait, Steps;
    WaitOnce(s, at, v);
    var line := NextLine(s.mem.raster);
    StepsNone(s);
    if line % 256 != v {
      RasterWaitEnds(Steps(s, 3), at, v);
      StepsCompose(s, 3, 3 * Reads(line, v));
      forall k | 1 <= k < Reads(s.mem.raster, v)
        ensures Running(Steps(s, 3 * k), at, RasterWait(v), 0)
      {
        StepsCompose(s, 3, 3 * (k - 1));
        assert 3 + 3 * (k - 1) == 3 * k;
      }
    }
  }
}
