/** The C64 keyboard buffer as kernel/c64.c fills it from outside the emulated machine. */
module Keys {
  import opened Bytes
  import opened Memory

  const NDX: word := 0x00C6
  const KEYD: word := 0x0277
  const KEYD_MAX := 10
  const ESC: byte := 27

  /** ASCII to the key code the C64 editor expects: Return, Delete, and letters in upper case. */
  function KeyCode(c: byte): byte {
    if c == 10 then 0x0D
    else if c == 8 then 0x14
    else if 97 <= c <= 122 then c - 32
    else c
  }

  function Injected(m: Mem, c: byte): Mem {
    if c == ESC || m.ram[NDX] >= KEYD_MAX then m
    else WriteByte(WriteByte(m, KEYD + m.ram[NDX], KeyCode(c)), NDX, m.ram[NDX] + 1)
  }

  function InjectAll(m: Mem, cs: seq<byte>): Mem {
    if cs == [] then m else Injected(InjectAll(m, cs[..|cs| - 1]), cs[|cs| - 1])
  }

  lemma InjectNone(m: Mem)
    ensures InjectAll(m, []) == m
  {}

  lemma InjectOneMore(m: Mem, cs: seq<byte>, c: byte)
    ensures InjectAll(m, cs + [c]) == Injected(InjectAll(m, cs), c)
  {
    assert (cs + [c])[..|cs|] == cs;
  }

  const RETURN: byte := 0x0D

  /** The key codes of the characters that are not ESC, in order. */
  function Codes(cs: seq<byte>): (ks: seq<byte>)
    ensures |ks| <= |cs|
  {
    if cs == [] then []
    else Codes(cs[..|cs| - 1]) + (if cs[|cs| - 1] == ESC then [] else [KeyCode(cs[|cs| - 1])])
  }

  /** How many of `n` more codes a buffer that holds `start` has room for. */
  function Taken(start: nat, n: nat): nat { if start < KEYD_MAX then Min(KEYD_MAX - start, n) else 0 }

  /** Behind what the C64's buffer held in `m` come as many of the codes `ks` as there was room for, and nothing else
      in memory differs. */
  ghost predicate Buffers(m: Mem, ks: seq<byte>, n: Mem) {
    var start: nat, taken := m.ram[NDX], Taken(m.ram[NDX], |ks|);
    && n.ram[NDX] == start + taken
    && (forall i {:trigger ks[i]} :: 0 <= i < taken ==> n.ram[KEYD + start + i] == ks[i])
    && (forall a: word :: a != NDX && !(KEYD + start <= a < KEYD + start + taken) ==> n.ram[a] == m.ram[a])
    && n.raster == m.raster && n.display == m.display
  }

  /** Whatever the buffer holds already, any keys append the codes there is room for, in order, and drop the rest. */
  lemma {:induction false} BufferTakesWhatFits(m: Mem, cs: seq<byte>)
    ensures Buffers(m, Codes(cs), InjectAll(m, cs))
  {
    if cs != [] {
      BufferTakesWhatFits(m, cs[..|cs| - 1]);
    }
  }

  /** The codes `all` have arrived in full behind those that were pending in `m`. */
  ghost predicate Arrived(m: Mem, all: seq<byte>, n: Mem) {
    && n.ram[NDX] == m.ram[NDX] + |all|
    && forall i {:trigger all[i]} :: 0 <= i < |all| ==> n.ram[KEYD + m.ram[NDX] + i] == all[i]
  }

  /** The C64TYPE command delivers a line and its RETURN in full exactly when the pending keys and the characters that
      count are nine together at most. */
  lemma TypingIsComplete(m: Mem, line: seq<byte>)
    ensures Arrived(m, Codes(line) + [RETURN], InjectAll(m, line + [RETURN])) <==> m.ram[NDX] + |Codes(line)| <= 9
  {
    BufferTakesWhatFits(m, line + [RETURN]);
    assert (line + [RETURN])[..|line|] == line;
  }

  /** Letters arrive in upper case whichever way they are typed, line feed as RETURN, backspace as DEL, and every other
      character as it is. */
  lemma KeyLaw(c: byte)
    ensures 97 <= c <= 122 ==> KeyCode(c) == KeyCode(c - 32) == c - 32
    ensures KeyCode(10) == 13 && KeyCode(8) == 20
    ensures c != 10 && c != 8 && !(97 <= c <= 122) ==> KeyCode(c) == c
  {}

  /** Where the C64 looks: the count at $C6 and the ten codes from $277 on; ESC is never queued. */
  lemma KeyGoes(m: Mem, c: byte)
    ensures var n, held := Injected(m, c), m.ram[0xC6];
      n.ram == if c != 27 && held < 10 then m.ram[0x277 + held := KeyCode(c)][0xC6 := held + 1] else m.ram
  {
    hide Mirror, KeyCode;
  }

  /** One key left over from C64KEY, then a line of nine characters: the RETURN is lost. */
  lemma PendingKeyLosesReturn(m: Mem, line: seq<byte>)
    requires m.ram[0xC6] == 1 && |Codes(line)| == 9
    ensures var n := InjectAll(m, line + [RETURN]);
      n.ram[0xC6] == 10 && (forall i {:trigger Codes(line)[i]} :: 0 <= i < 9 ==> n.ram[KEYD + 1 + i] == Codes(line)[i])
      && !Arrived(m, Codes(line) + [RETURN], n)
  {
    BufferTakesWhatFits(m, line + [RETURN]);
    TypingIsComplete(m, line);
    assert (line + [RETURN])[..|line|] == line;
    var all := Codes(line) + [RETURN];
    forall i {:trigger Codes(line)[i]} | 0 <= i < 9
      ensures InjectAll(m, line + [RETURN]).ram[KEYD + 1 + i] == Codes(line)[i]
    {
      assert all[i] == Codes(line)[i];
    }
  }

  /** The 32-bit call counter after `n` more calls. */
  function Counted(count: uint32, n: nat): uint32 { (count + n) % UINT32 }

  lemma CountOne(count: uint32, n: nat)
    ensures Counted(Counted(count, n), 1) == Counted(count, n + 1) && Counted(count, 0) == count
  {}

  class Host {
    const mem: C64Memory
    var exitRequested: bool
    var injectCallCount: uint32

    constructor (m: C64Memory)
      requires m.Valid()
      ensures mem == m && !exitRequested && injectCallCount == 0
    {
      mem := m;
      exitRequested := false;
      injectCallCount := 0;
    }

    method InjectKey(key: byte)
      requires mem.Valid()
      modifies this, mem.Repr()
      ensures mem.Valid() && mem.Abs() == Injected(old(mem.Abs()), key)
      ensures exitRequested == (old(exitRequested) || key == ESC)
      ensures injectCallCount == Counted(old(injectCallCount), 1) == (old(injectCallCount) + 1) % 0x1_0000_0000
    {
      var c := key;
      injectCallCount := (injectCallCount + 1) % UINT32;
      if c == ESC {
        exitRequested := true;
        return;
      }
      if c == 10 { c := 0x0D; }
      if c == 8 { c := 0x14; }
      if 97 <= c && c <= 122 { c := c - 32; }
      var count := mem.Read(NDX);
      if count >= KEYD_MAX { return; }
      mem.Write(KEYD + count, c);
      mem.Write(NDX, count + 1);
    }

    method ExitWasRequested() returns (r: bool)
      modifies this`exitRequested
      ensures r == old(exitRequested) && !exitRequested
    {
      if exitRequested {
        exitRequested := false;
        return true;
      }
      return false;
    }

    /** The injection part of C64TYPE: the line, then RETURN. */
    method TypeLine(line: seq<byte>)
      requires mem.Valid()
      modifies this, mem.Repr()
      ensures mem.Valid() && mem.Abs() == InjectAll(old(mem.Abs()), line + [RETURN])
      ensures exitRequested == (old(exitRequested) || ESC in line)
      ensures injectCallCount == Counted(old(injectCallCount), |line| + 1)
    {
      hide Injected, InjectAll, Counted;
      CountOne(injectCallCount, 0);
      assert line[..0] == [];
      InjectNone(mem.Abs());
      for i := 0 to |line|
        invariant mem.Valid() && mem.Abs() == InjectAll(old(mem.Abs()), line[..i])
        invariant exitRequested == (old(exitRequested) || ESC in line[..i])
        invariant injectCallCount == Counted(old(injectCallCount), i)
      {
        CountOne(old(injectCallCount), i);
        InjectKey(line[i]);
        assert line[..i + 1] == line[..i] + [line[i]];
        InjectOneMore(old(mem.Abs()), line[..i], line[i]);
      }
      assert line[..|line|] == line;
      CountOne(old(injectCallCount), |line|);
      InjectKey(RETURN);
      InjectOneMore(old(mem.Abs()), line, RETURN);
    }
  }
}
