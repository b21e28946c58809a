/** Multi-byte numbers, least significant byte first, under chains of the processor's byte operations. */
module Arithmetic {
  import opened Bytes
  import opened Isa
  import opened Cpu
  import opened Decoding

  function Pow(n: nat): (r: nat)
    ensures r > 0
  {
    if n == 0 then 1 else 256 * Pow(n - 1)
  }

  function Value(bs: seq<byte>): nat {
    if bs == [] then 0 else Value(bs[..|bs| - 1]) + Pow(|bs| - 1) * bs[|bs| - 1]
  }

  /** The two's-complement reading of a non-empty number: only its top byte carries a sign. */
  function SignedValue(bs: seq<byte>): int
    requires bs != []
  {
    Value(bs[..|bs| - 1]) + Pow(|bs| - 1) * Signed(bs[|bs| - 1])
  }

  lemma Monotone(p: nat, a: int, b: int)
    requires a <= b
    ensures p * a <= p * b
  {}

  lemma Distribute(p: int, a: int, b: int)
    ensures p * (a + b) == p * a + p * b && p * (a - b) == p * a - p * b
  {}

  lemma {:induction false} ValueBound(bs: seq<byte>)
    ensures Value(bs) < Pow(|bs|)
  {
    if bs != [] {
      var p := Pow(|bs| - 1);
      ValueBound(bs[..|bs| - 1]);
      Monotone(p, bs[|bs| - 1], 255);
    }
  }

  lemma ValueSnoc(bs: seq<byte>, b: byte)
    ensures Value(bs + [b]) == Value(bs) + Pow(|bs|) * b
  {
    assert (bs + [b])[..|bs|] == bs;
  }

  /** Splitting a number at a power of 256 is unique. */
  lemma SplitUnique(p: nat, lo: nat, hi: int, lo': nat, hi': int)
    requires lo < p && lo' < p && lo + p * hi == lo' + p * hi'
    ensures lo == lo' && hi == hi'
  {
    Distribute(p, hi, hi');
    if hi < hi' {
      Monotone(p, 1, hi' - hi);
      Distribute(p, hi', hi);
    } else if hi > hi' {
      Monotone(p, 1, hi - hi');
    }
  }

  lemma {:induction false} ValueInjective(a: seq<byte>, b: seq<byte>)
    requires |a| == |b| && Value(a) == Value(b)
    ensures a == b
  {
    if a != [] {
      var n := |a| - 1;
      ValueBound(a[..n]);
      ValueBound(b[..n]);
      SplitUnique(Pow(n), Value(a[..n]), a[n], Value(b[..n]), b[n]);
      ValueInjective(a[..n], b[..n]);
      assert a == a[..n] + [a[n]] && b == b[..n] + [b[n]];
    }
  }

  // ----- Addition -----

  /** The accumulator's part of a multi-byte sum (op is Adc) or difference (op is Sbc): load a byte, combine it with
      the other operand's, keep the result, next byte. */
  function Chain(op: Operation, s: State, xs: seq<byte>, ys: seq<byte>): (State, seq<byte>)
    requires |xs| == |ys|
    decreases |xs|
  {
    if xs == [] then (s, [])
    else
      var n := |xs| - 1;
      var r := Chain(op, s, xs[..n], ys[..n]);
      var t := Alu(op, LoadReg(r.0, A, xs[n]), ys[n]);
      (t, r.1 + [t.a])
  }

  lemma AddOneByte(s: State, x: byte, y: byte)
    ensures var t := Alu(Adc, LoadReg(s, A, x), y);
      t.a + 256 * Bit(t.p.c) == x + y + Bit(s.p.c) && t.p.v == Overflows(x, y, s.p.c)
  {}

  lemma CarryUp(p: nat, low: nat, c: int, x: int, y: int, a: int, c': int, lows: int)
    requires low + p * c == lows
    requires a + 256 * c' == x + y + c
    ensures low + p * a + 256 * p * c' == lows + p * x + p * y
  {
    assert p * (a + 256 * c') == p * (x + y + c);
  }

  /** The result and the final carry are the whole sum. */
  lemma {:induction false} AddChain(s: State, xs: seq<byte>, ys: seq<byte>)
    requires |xs| == |ys|
    ensures var (t, out) := Chain(Adc, s, xs, ys);
      |out| == |xs| && Value(out) + Pow(|xs|) * Bit(t.p.c) == Value(xs) + Value(ys) + Bit(s.p.c)
  {
    if xs != [] {
      var n := |xs| - 1;
      AddChain(s, xs[..n], ys[..n]);
      var r := Chain(Adc, s, xs[..n], ys[..n]);
      var t := Alu(Adc, LoadReg(r.0, A, xs[n]), ys[n]);
      AddOneByte(r.0, xs[n], ys[n]);
      ValueSnoc(r.1, t.a);
      CarryUp(Pow(n), Value(r.1), Bit(r.0.p.c), xs[n], ys[n], t.a, Bit(t.p.c),
              Value(xs[..n]) + Value(ys[..n]) + Bit(s.p.c));
      hide Alu, LoadReg, Value;
    }
  }

  lemma InRange(p: nat, low: nat, k: int)
    requires low < p
    ensures -128 * p <= low + p * k < 128 * p <==> -128 <= k < 128
  {
    if k < -128 {
      Monotone(p, k, -129);
    } else if k >= 128 {
      Monotone(p, 128, k);
    } else {
      Monotone(p, -128, k);
      Monotone(p, k, 127);
    }
  }

  lemma SignedSumInRange(p: nat, low: nat, c: int, sx: int, sy: int, lx: int, ly: int, c0: int)
    requires low < p && low + p * c == lx + ly + c0
    ensures -(128 * p) <= (lx + p * sx) + (ly + p * sy) + c0 < 128 * p <==> -128 <= sx + sy + c < 128
  {
    Distribute(p, sx, sy);
    Distribute(p, sx + sy, c);
    InRange(p, low, sx + sy + c);
  }

  /** The final V is n-byte two's-complement overflow. */
  lemma AddOverflow(s: State, xs: seq<byte>, ys: seq<byte>)
    requires |xs| == |ys| > 0
    ensures var half := 128 * Pow(|xs| - 1);
      Chain(Adc, s, xs, ys).0.p.v <==>
      !(-half <= SignedValue(xs) + SignedValue(ys) + Bit(s.p.c) < half)
  {
    hide Alu, LoadReg, Value, Signed, Pow;
    var n := |xs| - 1;
    var p := Pow(n);
    var r := Chain(Adc, s, xs[..n], ys[..n]);
    AddChain(s, xs[..n], ys[..n]);
    ValueBound(r.1);
    AddOneByte(r.0, xs[n], ys[n]);
    SignedSumInRange(p, Value(r.1), Bit(r.0.p.c), Signed(xs[n]), Signed(ys[n]),
                     Value(xs[..n]), Value(ys[..n]), Bit(s.p.c));
  }

  // ----- Subtraction -----

  function Complement(bs: seq<byte>): (c: seq<byte>)
    ensures |c| == |bs|
  {
    seq(|bs|, i requires 0 <= i < |bs| => 255 - bs[i])
  }

  lemma {:induction false} SubIsAddComplement(s: State, xs: seq<byte>, ys: seq<byte>)
    requires |xs| == |ys|
    ensures Chain(Sbc, s, xs, ys) == Chain(Adc, s, xs, Complement(ys))
  {
    hide Alu, LoadReg;
    if xs != [] {
      var n := |xs| - 1;
      AdditionOps(LoadReg(Chain(Sbc, s, xs[..n], ys[..n]).0, A, xs[n]), ys[n]);
      AdditionOps(LoadReg(Chain(Sbc, s, xs[..n], ys[..n]).0, A, xs[n]), 255 - ys[n]);
      SubIsAddComplement(s, xs[..n], ys[..n]);
      assert Complement(ys)[..n] == Complement(ys[..n]);
    }
  }

  lemma {:induction false} ComplementValue(bs: seq<byte>)
    ensures Value(Complement(bs)) == Pow(|bs|) - 1 - Value(bs)
  {
    if bs != [] {
      var n := |bs| - 1;
      ComplementValue(bs[..n]);
      assert Complement(bs)[..n] == Complement(bs[..n]);
      Distribute(Pow(n), 255, bs[n]);
    }
  }

  lemma ComplementSigned(bs: seq<byte>)
    requires bs != []
    ensures SignedValue(Complement(bs)) == -1 - SignedValue(bs)
  {
    var n := |bs| - 1;
    ComplementValue(bs[..n]);
    assert Complement(bs)[..n] == Complement(bs[..n]);
    Distribute(Pow(n), -1, Signed(bs[n]));
  }

  lemma Borrow(p: nat, out: nat, x: nat, y: nat, c: bool)
    requires out < p && x < p && y < p && out + p * Bit(c) == x + (p - 1 - y) + 1
    ensures (c <==> x >= y) && out == x - y + (if c then 0 else p)
  {
    if c {} else {}
  }

  /** SEC and a chain of SBCs: the difference modulo 256^n, and C set exactly when nothing is borrowed. */
  lemma SubChain(s: State, xs: seq<byte>, ys: seq<byte>)
    requires |xs| == |ys| && s.p.c
    ensures var (t, out) := Chain(Sbc, s, xs, ys);
      && |out| == |xs|
      && (t.p.c <==> Value(xs) >= Value(ys))
      && Value(out) == Value(xs) - Value(ys) + (if t.p.c then 0 else Pow(|xs|))
  {
    var (t, out) := Chain(Sbc, s, xs, ys);
    SubIsAddComplement(s, xs, ys);
    AddChain(s, xs, Complement(ys));
    ComplementValue(ys);
    ValueBound(out);
    ValueBound(xs);
    ValueBound(ys);
    hide Chain, Value, Pow, Complement;
    Borrow(Pow(|xs|), Value(out), Value(xs), Value(ys), t.p.c);
  }

  lemma SubOverflow(s: State, xs: seq<byte>, ys: seq<byte>)
    requires |xs| == |ys| > 0 && s.p.c
    ensures var half := 128 * Pow(|xs| - 1);
      Chain(Sbc, s, xs, ys).0.p.v <==> !(-half <= SignedValue(xs) - SignedValue(ys) < half)
  {
    SubIsAddComplement(s, xs, ys);
    AddOverflow(s, xs, Complement(ys));
    ComplementSigned(ys);
  }

  // ----- Shifts -----

  /** ROL from the low byte up, with `c` coming in. */
  function RolBytes(c: bool, bs: seq<byte>): (seq<byte>, bool) {
    if bs == [] then ([], c)
    else
      var n := |bs| - 1;
      var r := RolBytes(c, bs[..n]);
      (r.0 + [RmwResult(Rol, r.1, bs[n])], RmwCarry(Rol, r.1, bs[n]))
  }

  /** ROR from the high byte down, with `c` coming in. */
  function RorBytes(c: bool, bs: seq<byte>): (seq<byte>, bool)
    decreases |bs|
  {
    if bs == [] then ([], c)
    else
      var n := |bs| - 1;
      var r := RorBytes(RmwCarry(Ror, c, bs[n]), bs[..n]);
      (r.0 + [RmwResult(Ror, c, bs[n])], r.1)
  }

  /** ASL on the low byte, ROL on the rest. */
  function AslBytes(bs: seq<byte>): (seq<byte>, bool)
    requires bs != []
  {
    var r := RolBytes(RmwCarry(Asl, false, bs[0]), bs[1..]);
    ([RmwResult(Asl, false, bs[0])] + r.0, r.1)
  }

  /** LSR on the high byte, ROR on the rest. */
  function LsrBytes(bs: seq<byte>): (seq<byte>, bool)
    requires bs != []
  {
    var n := |bs| - 1;
    var r := RorBytes(RmwCarry(Lsr, false, bs[n]), bs[..n]);
    (r.0 + [RmwResult(Lsr, false, bs[n])], r.1)
  }

  lemma RolOneByte(c: bool, v: byte)
    ensures RmwResult(Rol, c, v) + 256 * Bit(RmwCarry(Rol, c, v)) == 2 * v + Bit(c)
  {}

  lemma {:induction false} RolChain(c: bool, bs: seq<byte>)
    ensures var (out, c') := RolBytes(c, bs);
      |out| == |bs| && Value(out) + Pow(|bs|) * Bit(c') == 2 * Value(bs) + Bit(c)
  {
    if bs != [] {
      var n := |bs| - 1;
      var (out, c') := RolBytes(c, bs[..n]);
      RolChain(c, bs[..n]);
      hide Pow, RmwResult, RmwCarry;
      var b, carry := RmwResult(Rol, c', bs[n]), RmwCarry(Rol, c', bs[n]);
      ValueSnoc(out, b);
      RolOneByte(c', bs[n]);
      CarryUp(Pow(n), Value(out), Bit(c'), bs[n], bs[n], b, Bit(carry), 2 * Value(bs[..n]) + Bit(c));
    }
  }

  lemma ShareDown(p: nat, b: int, v: int, cin: int, cout: int)
    requires 2 * b + cout == v + 256 * cin
    ensures 2 * (p * b) + p * cout == p * v + 256 * p * cin
  {
    assert p * (2 * b + cout) == p * (v + 256 * cin);
  }

  lemma {:induction false} RorChain(c: bool, bs: seq<byte>)
    decreases |bs|
    ensures var (out, c') := RorBytes(c, bs);
      |out| == |bs| && 2 * Value(out) + Bit(c') == Value(bs) + Pow(|bs|) * Bit(c)
  {
    if bs != [] {
      var n := |bs| - 1;
      var b, down := RmwResult(Ror, c, bs[n]), RmwCarry(Ror, c, bs[n]);
      var (out, c') := RorBytes(down, bs[..n]);
      RorChain(down, bs[..n]);
      ValueSnoc(out, b);
      assert 2 * b + Bit(down) == bs[n] + 256 * Bit(c);
      ShareDown(Pow(n), b, bs[n], Bit(c), Bit(down));
    }
  }

  lemma {:induction false} RolBytesFront(c: bool, b: byte, bs: seq<byte>)
    ensures var r := RolBytes(RmwCarry(Rol, c, b), bs);
      RolBytes(c, [b] + bs) == ([RmwResult(Rol, c, b)] + r.0, r.1)
  {
    var all := [b] + bs;
    if bs == [] {
      assert all == [b] && all[..0] == [];
      assert RolBytes(c, all[..0]) == ([], c);
      assert RolBytes(c, all) == ([] + [RmwResult(Rol, c, b)], RmwCarry(Rol, c, b));
      assert [] + [RmwResult(Rol, c, b)] == [RmwResult(Rol, c, b)] + [];
    } else {
      var n := |bs| - 1;
      RolBytesFront(c, b, bs[..n]);
      assert all[..|all| - 1] == [b] + bs[..n];
      var x, r := RmwResult(Rol, c, b), RolBytes(RmwCarry(Rol, c, b), bs[..n]);
      var y := RmwResult(Rol, r.1, bs[n]);
      assert ([x] + r.0) + [y] == [x] + (r.0 + [y]);
    }
  }

  lemma AslIsRol(bs: seq<byte>)
    requires bs != []
    ensures AslBytes(bs) == RolBytes(false, bs)
  {
    hide RolBytes;
    assert bs == [bs[0]] + bs[1..];
    RolBytesFront(false, bs[0], bs[1..]);
  }

  /** ASL then ROLs doubles modulo 256^n, with the bit that falls off in C. */
  lemma AslDoubles(bs: seq<byte>)
    requires bs != []
    ensures var (out, c) := AslBytes(bs);
      |out| == |bs| && Value(out) + Pow(|bs|) * Bit(c) == 2 * Value(bs)
  {
    hide AslBytes, RolBytes, Value, Pow;
    AslIsRol(bs);
    RolChain(false, bs);
  }

  lemma LsrIsRor(bs: seq<byte>)
    requires bs != []
    ensures LsrBytes(bs) == RorBytes(false, bs)
  {}

  /** LSR then RORs halves, with the remainder in C. */
  lemma LsrHalves(bs: seq<byte>)
    requires bs != []
    ensures var (out, c) := LsrBytes(bs);
      |out| == |bs| && Value(out) == Value(bs) / 2 && Bit(c) == Value(bs) % 2
  {
    LsrIsRor(bs);
    hide LsrBytes, RorBytes, Value, Pow;
    RorChain(false, bs);
  }

  /** A rotation chain and the opposite one undo each other, carry included. */
  lemma RotationsCancel(c: bool, bs: seq<byte>)
    ensures var (out, c') := RorBytes(c, bs); RolBytes(c', out) == (bs, c)
    ensures var (out, c') := RolBytes(c, bs); RorBytes(c', out) == (bs, c)
  {
    RolAfterRor(c, bs);
    RorAfterRol(c, bs);
  }

  lemma RolAfterRor(c: bool, bs: seq<byte>)
    ensures var (out, c') := RorBytes(c, bs); RolBytes(c', out) == (bs, c)
  {
    var (out, c') := RorBytes(c, bs);
    var (back, c'') := RolBytes(c', out);
    RorChain(c, bs);
    RolChain(c', out);
    ValueBound(back);
    ValueBound(bs);
    SplitUnique(Pow(|bs|), Value(back), Bit(c''), Value(bs), Bit(c));
    ValueInjective(back, bs);
  }

  lemma RorAfterRol(c: bool, bs: seq<byte>)
    ensures var (out, c') := RolBytes(c, bs); RorBytes(c', out) == (bs, c)
  {
    var (out, c') := RolBytes(c, bs);
    var (back, c'') := RorBytes(c', out);
    RolChain(c, bs);
    RorChain(c', out);
    assert 2 * Value(back) + Bit(c'') == 2 * Value(bs) + Bit(c);
    ValueInjective(back, bs);
  }
}
