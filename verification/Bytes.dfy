/** The C code's integers as ranges of `int`, so that every wrap-around and truncation is written out. */
module Bytes {
  type byte = x: int | 0 <= x < 256
  type word = x: int | 0 <= x < 65536
  type uint32 = x: int | 0 <= x < 0x1_0000_0000
  type uint64 = x: int | 0 <= x < 0x1_0000_0000_0000_0000

  const UINT32 := 0x1_0000_0000
  const UINT64 := 0x1_0000_0000_0000_0000

  /** `lo | (hi << 8)` of two bytes. */
  function Word(lo: byte, hi: byte): word { lo + 256 * hi }

  function Lo(w: word): byte { w % 256 }

  function Hi(w: word): byte { w / 256 }

  lemma WordOfHalves(w: word)
    ensures Word(Lo(w), Hi(w)) == w
  {}

  /** An address moved by `n`, wrapping. */
  function Plus(a: word, n: int): word { (a + n) % 65536 }

  lemma PlusPlus(a: word, m: int, n: int)
    ensures Plus(Plus(a, m), n) == Plus(a, m + n) && Plus(a, 0) == a
  {}

  /** `(int8_t)b`: the two's-complement reading of a byte. */
  function Signed(b: byte): int { if b < 128 then b else b - 256 }

  function Min(a: nat, b: nat): nat { if a < b then a else b }

  function Bit(b: bool): int { if b then 1 else 0 }

  function And(a: byte, b: byte): byte { (a as bv8 & b as bv8) as int }

  function Or(a: byte, b: byte): byte { (a as bv8 | b as bv8) as int }

  function Xor(a: byte, b: byte): byte { (a as bv8 ^ b as bv8) as int }
}
