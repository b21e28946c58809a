/** A page copied through two zero-page pointers, run by the interpreter's steps. */
module CopyLoop {
  import opened Wrappers
  import opened Bytes
  import opened Memory
  import opened Isa
  import opened Cpu
  import opened Decoding
  import opened Instructions
  import opened Runs
  import opened Programs
  import opened MultiByte
  import opened Shifts
  import opened Manual
  import opened Operations

  /** loop: LDA (p),Y / STA (q),Y / INY / BNE loop. */
  function CopyCode(p: byte, q: byte): (code: seq<byte>)
    ensures |code| == 7
  {
    [0xB1, p, 0x91, q, 0xC8, 0xD0, 0xF9]
  }

  /** The address that the zero-page pointer at `p` holds. */
  function Pointed(ram: Ram, p: byte): word { WordIn(ram, p, (p + 1) % 256) }

  /** The source is plain memory, and no byte stored lands on the code, on a pointer or on a source byte still to be
      read. */
  ghost predicate CopyLayout(at: word, p: byte, q: byte, src: word, dst: word) {
    && (forall i :: 0 <= i < 256 ==> !Io(Plus(src, i)))
    && (forall i, k :: 0 <= i < 256 && 0 <= k < 7 ==> Plus(dst, i) != Plus(at, k))
    && (forall i :: 0 <= i < 256 ==> Plus(dst, i) !in {p, (p + 1) % 256, q, (q + 1) % 256})
    && (forall i, j :: 0 <= i < j < 256 ==> Plus(dst, i) != Plus(src, j))
  }

  lemma CopyParts(p: byte, q: byte)
    ensures CopyCode(p, q)[0..2] == [0xB1, p] && CopyCode(p, q)[2..4] == [0x91, q]
    ensures CopyCode(p, q)[4..5] == [0xC8] && CopyCode(p, q)[5..7] == [0xD0, 0xF9]
  {}

  lemma CopyLoad(s: State, at: word, p: byte, q: byte)
    requires Running(s, at, CopyCode(p, q), 0) && !Io(Plus(Pointed(s.mem.ram, p), s.y))
    ensures var t := Step(s);
      Running(t, at, CopyCode(p, q), 2) && t.a == s.mem.ram[Plus(Pointed(s.mem.ram, p), s.y)] &&
      t.y == s.y && t.mem == s.mem
  {
    hide Step, Sees, Running, CopyCode, Io;
    RunningLive(s, at, CopyCode(p, q), 0);
    RunningSees(s, at, CopyCode(p, q), 0, 2);
    CopyParts(p, q);
    LdaIndirectY(s, p);
    RunningOn(s, Step(s), at, CopyCode(p, q), 0, 2);
  }

  lemma CopyStore(s: State, at: word, p: byte, q: byte)
    requires Running(s, at, CopyCode(p, q), 2)
    requires forall k :: 0 <= k < 7 ==> Plus(Pointed(s.mem.ram, q), s.y) != Plus(at, k)
    ensures var t := Step(s);
      Running(t, at, CopyCode(p, q), 4) && t.y == s.y &&
      t.mem.ram == s.mem.ram[Plus(Pointed(s.mem.ram, q), s.y) := s.a]
  {
    hide Step, Sees, Running, CopyCode, Plus;
    RunningLive(s, at, CopyCode(p, q), 2);
    RunningSees(s, at, CopyCode(p, q), 2, 2);
    CopyParts(p, q);
    StaIndirectY(s, q);
    PlusIs(Pointed(s.mem.ram, q), s.y);
    PlusIs(s.pc, 2);
    CodeLeft(s, Step(s), at, CopyCode(p, q), 2, 2, Plus(Pointed(s.mem.ram, q), s.y));
  }

  lemma PlusIs(a: word, n: int)
    ensures Plus(a, n) == (a + n) % 65536
  {}

  lemma CopyCount(s: State, at: word, p: byte, q: byte)
    requires Running(s, at, CopyCode(p, q), 4)
    ensures var t := Step(s);
      Running(t, at, CopyCode(p, q), 5) && t.y == (s.y + 1) % 256 && (t.p.z <==> t.y == 0) && t.mem == s.mem
  {
    hide Step, Sees, Running, CopyCode, Decode;
    RunningLive(s, at, CopyCode(p, q), 4);
    RunningSees(s, at, CopyCode(p, q), 4, 1);
    CopyParts(p, q);
    IncDecTable();
    SeesOneByte(s, 0xC8, IncReg(Y));
    CountLaw(s, IncReg(Y));
    RunningOn(s, Step(s), at, CopyCode(p, q), 4, 1);
  }

  lemma SeesOneByte(s: State, opcode: byte, op: Operation)
    requires Sees(s, [opcode]) && Decode(opcode) == Some(Instruction(op, Implied))
    ensures At(s, op, Implied)
  {
    hide Decode;
    assert Plus(s.pc, 0) == s.pc;
  }

  lemma CopyBranch(s: State, at: word, p: byte, q: byte)
    requires Running(s, at, CopyCode(p, q), 5)
    ensures var t := Step(s);
      Running(t, at, CopyCode(p, q), if s.p.z then 7 else 0) && t.y == s.y && t.mem == s.mem
  {
    hide Step, Sees, Running, CopyCode, Plus;
    RunningLive(s, at, CopyCode(p, q), 5);
    BranchTable();
    RunningSees(s, at, CopyCode(p, q), 5, 2);
    CopyParts(p, q);
    StepBranch(s, 0xD0, 0xF9, Z, false);
    PlusPlus(s.pc, 2, -7);
    RunningOn(s, Step(s), at, CopyCode(p, q), 5, if s.p.z then 2 else -5);
  }

  lemma LayoutAt(at: word, p: byte, q: byte, src: word, dst: word, y: byte)
    requires CopyLayout(at, p, q, src, dst)
    ensures !Io(Plus(src, y)) && forall k :: 0 <= k < 7 ==> Plus(dst, y) != Plus(at, k)
  {
    hide Plus, Io;
  }

  lemma FourSteps(s: State)
    ensures Steps(s, 4) == Step(Step(Step(Step(s))))
  {
    hide Step;
    assert Steps(s, 1) == Step(s);
    assert Steps(s, 2) == Step(Steps(s, 1));
    assert Steps(s, 3) == Step(Steps(s, 2));
  }

  /** One turn moves one byte. */
  lemma CopyOnce(s: State, at: word, p: byte, q: byte, src: word, dst: word)
    requires Running(s, at, CopyCode(p, q), 0) && CopyLayout(at, p, q, src, dst)
    requires Pointed(s.mem.ram, p) == src && Pointed(s.mem.ram, q) == dst
    ensures var t := Steps(s, 4); var y := (s.y + 1) % 256;
      Running(t, at, CopyCode(p, q), if y == 0 then 7 else 0) && t.y == y &&
      t.mem.ram == s.mem.ram[Plus(dst, s.y) := s.mem.ram[Plus(src, s.y)]]
  {
    hide Step, Steps, Running, CopyCode, Plus, Io, Pointed, CopyLayout;
    LayoutAt(at, p, q, src, dst, s.y);
    var s1 := Step(s);
    var s2 := Step(s1);
    var s3 := Step(s2);
    CopyLoad(s, at, p, q);
    CopyStore(s1, at, p, q);
    CopyCount(s2, at, p, q);
    CopyBranch(s3, at, p, q);
    FourSteps(s);
  }

  /** After `i` turns: the pointers stand, the first `i` bytes are copied, those to come can still be read. */
  ghost predicate Copied(s: State, t: State, p: byte, q: byte, src: word, dst: word, i: nat) {
    && Pointed(t.mem.ram, p) == src && Pointed(t.mem.ram, q) == dst && t.y == i % 256
    && (forall j :: 0 <= j < i ==> t.mem.ram[Plus(dst, j)] == s.mem.ram[Plus(src, j)])
    && (forall j :: i <= j < 256 ==> t.mem.ram[Plus(src, j)] == s.mem.ram[Plus(src, j)])
    && SameOutside(s.mem.ram, t.mem.ram, dst, i)
  }

  lemma CopiedOn(s: State, t: State, u: State, at: word, p: byte, q: byte, src: word, dst: word, i: nat)
    requires Copied(s, t, p, q, src, dst, i) && i < 256 && CopyLayout(at, p, q, src, dst)
    requires u.mem.ram == t.mem.ram[Plus(dst, i) := t.mem.ram[Plus(src, i)]] && u.y == (i + 1) % 256
    ensures Copied(s, u, p, q, src, dst, i + 1)
  {
    ResultsDistinct(dst, 256, i);
    hide Plus;
    forall k: word | Outside(k, dst, i + 1)
      ensures u.mem.ram[k] == s.mem.ram[k]
    {
      assert k != Plus(dst, i);
      assert Outside(k, dst, i);
    }
  }

  lemma NothingCopied(s: State, p: byte, q: byte)
    requires s.y == 0
    ensures Copied(s, s, p, q, Pointed(s.mem.ram, p), Pointed(s.mem.ram, q), 0)
  {
    hide Plus, Pointed;
  }

  lemma CopiedPointers(s: State, t: State, p: byte, q: byte, src: word, dst: word, i: nat)
    requires Copied(s, t, p, q, src, dst, i) && i < 256
    ensures Pointed(t.mem.ram, p) == src && Pointed(t.mem.ram, q) == dst && t.y == i
    ensures t.mem.ram[Plus(src, i)] == s.mem.ram[Plus(src, i)]
  {
    hide Plus, Pointed;
  }

  lemma AllCopied(s: State, t: State, p: byte, q: byte, src: word, dst: word)
    requires Copied(s, t, p, q, src, dst, 256)
    ensures BytesAt(t.mem.ram, dst, 256) == BytesAt(s.mem.ram, src, 256) && t.y == 0
    ensures SameOutside(s.mem.ram, t.mem.ram, dst, 256)
  {
    hide Plus, Pointed, SameOutside;
  }

  lemma {:induction false} CopySteps(s: State, at: word, p: byte, q: byte, src: word, dst: word, i: nat)
    requires Running(s, at, CopyCode(p, q), 0) && s.y == 0 && CopyLayout(at, p, q, src, dst) && i <= 256
    requires Pointed(s.mem.ram, p) == src && Pointed(s.mem.ram, q) == dst
    ensures var t := Steps(s, 4 * i);
      Running(t, at, CopyCode(p, q), if i == 256 then 7 else 0) && Copied(s, t, p, q, src, dst, i)
  {
    hide Step, Steps, Running, CopyCode, CopyLayout, Plus, Pointed, SameOutside, Copied;
    if i == 0 {
      NothingCopied(s, p, q);
      StepsNone(s);
    } else {
      CopySteps(s, at, p, q, src, dst, i - 1);
      var t := Steps(s, 4 * (i - 1));
      CopiedPointers(s, t, p, q, src, dst, i - 1);
      CopyOnce(t, at, p, q, src, dst);
      StepsCompose(s, 4 * (i - 1), 4);
      CopiedOn(s, t, Steps(t, 4), at, p, q, src, dst, i - 1);
    }
  }

  /** The loop moves every byte of a page in 1024 steps, and changes nothing else. */
  lemma CopyMovesPage(s: State, at: word, p: byte, q: byte)
    requires Running(s, at, CopyCode(p, q), 0) && s.y == 0
    requires CopyLayout(at, p, q, Pointed(s.mem.ram, p), Pointed(s.mem.ram, q))
    ensures var t, src, dst := Steps(s, 1024), Pointed(s.mem.ram, p), Pointed(s.mem.ram, q);
      && Running(t, at, CopyCode(p, q), 7) && t.y == 0
      && BytesAt(t.mem.ram, dst, 256) == BytesAt(s.mem.ram, src, 256)
      && SameOutside(s.mem.ram, t.mem.ram, dst, 256)
  {
    hide Steps, Running, CopyCode, CopyLayout, Plus, Pointed, SameOutside, Copied;
    var src, dst := Pointed(s.mem.ram, p), Pointed(s.mem.ram, q);
    CopySteps(s, at, p, q, src, dst, 256);
    AllCopied(s, Steps(s, 1024), p, q, src, dst);
  }
}
