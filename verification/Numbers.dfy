/** The number texts that kernel/console.c prints and kernel/shell.c reads. */
module Numbers {
  import opened Wrappers
  import opened Bytes

  /** What a C string holds before its terminator. */
  type CString = s: seq<byte> | 0 !in s

  // ----- What a text means -----

  /** The value of a digit character in base 16, or -1. */
  function DigitOf(c: byte): int {
    if 48 <= c <= 57 then c - 48
    else if 65 <= c <= 70 then c - 65 + 10
    else if 97 <= c <= 102 then c - 97 + 10
    else -1
  }

  predicate AllDigits(s: seq<byte>, base: nat) { forall i :: 0 <= i < |s| ==> 0 <= DigitOf(s[i]) < base }

  function Positional(s: seq<byte>, base: nat): nat
    requires AllDigits(s, base)
  {
    if s == [] then 0 else Positional(s[..|s| - 1], base) * base + DigitOf(s[|s| - 1])
  }

  function InBase(s: seq<byte>, base: nat): Option<nat> {
    if s != [] && AllDigits(s, base) then Some(Positional(s, base)) else None
  }

  const DOLLAR: byte := 36
  const ZERO: byte := 48

  /** The number a text denotes: digits after `$` or `0x` are hexadecimal, digits alone decimal. */
  function Meaning(s: CString): Option<nat> {
    if |s| > 0 && s[0] == DOLLAR then InBase(s[1..], 16)
    else if |s| > 1 && s[0] == ZERO && (s[1] == 120 || s[1] == 88) then InBase(s[2..], 16)
    else InBase(s, 10)
  }

  /** The text's number as a 32-bit register ends up holding it. */
  function Truncated(v: Option<nat>): Option<uint32> {
    if v.Some? then Some(v.value % UINT32) else None
  }

  // ----- Reading -----

  lemma NextDigit(s: seq<byte>, base: nat, i: nat, val: uint32)
    requires i < |s| && AllDigits(s[..i], base) && val == Positional(s[..i], base) % UINT32
    requires 0 <= DigitOf(s[i]) < base
    ensures AllDigits(s[..i + 1], base)
    ensures (val * base + DigitOf(s[i])) % UINT32 == Positional(s[..i + 1], base) % UINT32
  {
    assert s[..i + 1][..i] == s[..i];
    ModMultiply(Positional(s[..i], base), base, DigitOf(s[i]));
  }

  lemma ModMultiply(a: nat, b: nat, d: nat)
    ensures (a % UINT32 * b + d) % UINT32 == (a * b + d) % UINT32
  {
    var q := a / UINT32;
    assert a == UINT32 * q + a % UINT32;
    assert a * b + d == (a % UINT32 * b + d) + UINT32 * (q * b);
    ModAddMultiple(a % UINT32 * b + d, q * b);
  }

  lemma {:induction false} ModAddMultiple(x: nat, k: nat)
    ensures (x + UINT32 * k) % UINT32 == x % UINT32
  {
    if k > 0 {
      ModAddMultiple(x, k - 1);
      assert x + UINT32 * k == (x + UINT32 * (k - 1)) + UINT32;
    }
  }

  /** Shifting left by four leaves room for a digit, whether or not bits fall off. */
  lemma ShiftMakesRoom(val: uint32, digit: nat)
    requires digit < 16
    ensures val * 16 % UINT32 + digit == (val * 16 + digit) % UINT32
  {
    var q := val / 0x1000_0000;
    assert val * 16 == UINT32 * q + val % 0x1000_0000 * 16;
  }

  /** The loop over hexadecimal digits that both prefixes share. */
  method ParseHex(s: CString) returns (r: Option<uint32>)
    ensures r == Truncated(InBase(s, 16))
  {
    if s == [] { return None; }
    var val: uint32 := 0;
    for i := 0 to |s|
      invariant AllDigits(s[..i], 16) && val == Positional(s[..i], 16) % UINT32
    {
      var c := s[i];
      var digit: int;
      if 48 <= c <= 57 { digit := c - 48; }
      else if 65 <= c <= 70 { digit := c - 65 + 10; }
      else if 97 <= c <= 102 { digit := c - 97 + 10; }
      else { return None; }
      NextDigit(s, 16, i, val);
      ShiftMakesRoom(val, digit);
      val := val * 16 % UINT32 + digit;
    }
    assert s[..|s|] == s;
    return Some(val);
  }

  method ParseNumber(s: CString) returns (r: Option<uint32>)
    ensures r == Truncated(Meaning(s))
    ensures r.Some? <==> Meaning(s).Some?
    ensures r.Some? ==> r.value == Meaning(s).value % 0x1_0000_0000
  {
    if |s| > 0 && s[0] == DOLLAR {
      r := ParseHex(s[1..]);
      return;
    }
    if |s| > 1 && s[0] == ZERO && (s[1] == 120 || s[1] == 88) {
      r := ParseHex(s[2..]);
      return;
    }
    if s == [] { return None; }
    var val: uint32 := 0;
    for i := 0 to |s|
      invariant AllDigits(s[..i], 10) && val == Positional(s[..i], 10) % UINT32
    {
      if s[i] < 48 || s[i] > 57 { return None; }
      NextDigit(s, 10, i, val);
      val := (val * 10 + (s[i] - 48)) % UINT32;
    }
    assert s[..|s|] == s;
    return Some(val);
  }

  // ----- Printing -----

  function DecDigits(v: nat): (s: seq<byte>)
    decreases v
  {
    if v == 0 then [] else DecDigits(v / 10) + [48 + v % 10]
  }

  function DecText(v: nat): seq<byte> { if v == 0 then [48] else DecDigits(v) }

  function HexDigit(d: nat): byte
    requires d < 16
  {
    if d < 10 then 48 + d else 55 + d
  }

  function HexDigits(v: nat, width: nat): (s: seq<byte>)
    ensures |s| == width
  {
    if width == 0 then [] else HexDigits(v / 16, width - 1) + [HexDigit(v % 16)]
  }

  function HexText(v: nat): seq<byte> { [48, 120] + HexDigits(v, 8) }

  // ----- The two undo each other -----

  lemma {:induction false} DecDigitsMean(v: nat)
    ensures AllDigits(DecDigits(v), 10) && Positional(DecDigits(v), 10) == v
    ensures v > 0 ==> DecDigits(v) != []
    decreases v
  {
    if v > 0 {
      DecDigitsMean(v / 10);
      var s := DecDigits(v);
      assert s[..|s| - 1] == DecDigits(v / 10);
    }
  }

  function Pow10(n: nat): nat { if n == 0 then 1 else 10 * Pow10(n - 1) }

  /** Ten digits are enough for 32 bits, and each digit taken off leaves one power of ten less. */
  lemma DigitsLeft(v: uint32, val: nat, i: nat, rest: seq<byte>)
    requires val < Pow10(i) && DecDigits(v) == DecDigits(val) + rest
    ensures i == 0 ==> val == 0
    ensures val == 0 ==> DecDigits(v) == rest
    ensures val > 0 ==> i > 0 && val / 10 < Pow10(i - 1) &&
                        DecDigits(v) == DecDigits(val / 10) + ([48 + val % 10] + rest)
  {}

  lemma TenDigits(v: uint32)
    ensures v < Pow10(10) && DecDigits(v) == DecDigits(v) + []
  {
    assert Pow10(5) == 10_0000;
    assert Pow10(10) == 100_0000_0000;
  }

  function Pow16(n: nat): nat { if n == 0 then 1 else 16 * Pow16(n - 1) }

  lemma {:induction false} HexDigitsMean(v: nat, width: nat)
    requires v < Pow16(width)
    ensures AllDigits(HexDigits(v, width), 16) && Positional(HexDigits(v, width), 16) == v
  {
    if width > 0 {
      HexDigitsMean(v / 16, width - 1);
      var s := HexDigits(v, width);
      assert s[..|s| - 1] == HexDigits(v / 16, width - 1);
    }
  }

  lemma NoTerminator(s: seq<byte>, base: nat)
    requires AllDigits(s, base)
    ensures 0 !in s
  {
    forall i | 0 <= i < |s|
      ensures s[i] != 0
    {
      assert 0 <= DigitOf(s[i]);
    }
  }

  lemma DecTextReads(v: uint32)
    ensures 0 !in DecText(v) && Meaning(DecText(v)) == Some(v)
  {
    DecDigitsMean(v);
    if v == 0 {
      assert [ZERO][..0] == [];
    } else {
      hide DecDigits, Positional;
    }
    assert AllDigits(DecText(v), 10);
    NoTerminator(DecText(v), 10);
  }

  lemma HexTextReads(v: uint32)
    ensures 0 !in HexText(v) && Meaning(HexText(v)) == Some(v)
  {
    assert Pow16(4) == 0x1_0000 && Pow16(8) == UINT32;
    HexDigitsMean(v, 8);
    hide HexDigits, Positional, Pow16;
    NoTerminator(HexDigits(v, 8), 16);
    assert HexText(v)[2..] == HexDigits(v, 8);
  }

  // ----- The notations -----

  const DIGITS: seq<byte> := [48, 49, 50, 51, 52, 53, 54, 55, 56, 57, 65, 66, 67, 68, 69, 70]

  /** `$`, `0x` and `0X` before the same digits mean the same. */
  lemma PrefixesAgree(ds: CString)
    ensures Meaning([36] + ds) == Meaning([48, 120] + ds) == Meaning([48, 88] + ds) == InBase(ds, 16)
  {
    assert ([36] + ds)[1..] == ds && ([48, 120] + ds)[2..] == ds && ([48, 88] + ds)[2..] == ds;
    hide InBase;
  }

  /** No digits, or a character that is not one, and there is no number. */
  lemma NoNumber(s: seq<byte>, base: nat)
    requires base == 10 || base == 16
    ensures InBase(s, base).None? <==>
            s == [] || exists i :: 0 <= i < |s| && !(0 <= DigitOf(s[i]) < base)
    ensures Meaning([]).None? && Meaning([36]).None? && Meaning([48, 120]).None? && Meaning([48, 88]).None?
  {
    assert ([36])[1..] == [] && ([48, 120])[2..] == [] && ([48, 88])[2..] == [];
  }

  /** Anything that starts with none of the prefixes is decimal. */
  lemma DecimalElse(s: CString)
    requires s != [] && s[0] != 36 && !(|s| > 1 && s[0] == 48 && s[1] in {88, 120})
    ensures Meaning(s) == InBase(s, 10)
  {
    hide InBase;
  }

  /** A digit's value is its place among the digits, in either case; nothing else is a digit. */
  lemma DigitLaw(c: byte)
    ensures forall d :: 0 <= d < 16 ==> DigitOf(DIGITS[d]) == d
    ensures 65 <= c <= 70 ==> DigitOf(c + 32) == DigitOf(c)
    ensures DigitOf(c) >= 0 <==> 48 <= c <= 57 || 65 <= c <= 70 || 97 <= c <= 102
  {}

  /** The digits read from the most significant one down: a digit more multiplies by the base. */
  lemma PositionalLaw(s: seq<byte>, c: byte, base: nat)
    requires AllDigits(s, base) && AllDigits([c], base)
    ensures AllDigits(s + [c], base) && Positional(s + [c], base) == base * Positional(s, base) + DigitOf(c)
    ensures Positional([], base) == 0
  {
    assert (s + [c])[..|s|] == s;
  }

  /** Hexadecimal is printed in capitals, eight digits after 0x; decimal without leading zeros. */
  lemma PrintedForm(v: uint32)
    ensures var s := HexText(v); |s| == 10 && s[0] == 48 && s[1] == 120 && forall i :: 2 <= i < 10 ==> s[i] in DIGITS
    ensures var s := DecText(v); s != [] && (s[0] == 48 ==> v == 0 && |s| == 1) && forall c :: c in s ==> 48 <= c <= 57
  {
    CapitalDigits(v, 8);
    assert HexText(v)[2..] == HexDigits(v, 8);
    LeadingDigit(v);
    forall i | 2 <= i < 10
      ensures HexText(v)[i] in DIGITS
    {
      assert HexText(v)[i] == HexDigits(v, 8)[i - 2];
    }
  }

  lemma {:induction false} CapitalDigits(v: nat, width: nat)
    ensures forall i :: 0 <= i < width ==> HexDigits(v, width)[i] in DIGITS
  {
    if width > 0 {
      CapitalDigits(v / 16, width - 1);
      assert HexDigit(v % 16) == DIGITS[v % 16];
    }
  }

  lemma {:induction false} LeadingDigit(v: nat)
    ensures forall c :: c in DecDigits(v) ==> 48 <= c <= 57
    ensures v > 0 ==> DecDigits(v) != [] && DecDigits(v)[0] != 48
    decreases v
  {
    if v > 0 {
      LeadingDigit(v / 10);
    }
  }

  /** Reading what was printed, in either notation, gives the number back, for every 32-bit number. */
  lemma PrintedNumbersRead(v: uint32)
    ensures 0 !in DecText(v) && Meaning(DecText(v)) == Some(v)
    ensures 0 !in HexText(v) && Meaning(HexText(v)) == Some(v)
  {
    DecTextReads(v);
    HexTextReads(v);
  }
}
