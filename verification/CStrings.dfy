/** The case-insensitive comparisons of kernel/string.c. */
module CStrings {
  import opened Bytes
  import opened Numbers

  function Lower(c: byte): byte { if 65 <= c <= 90 then c + 32 else c }

  /** Two bytes are the same, or the same letter in different cases. */
  predicate SameLetter(c: byte, d: byte) {
    c == d || (65 <= c <= 90 && d == c + 32) || (65 <= d <= 90 && c == d + 32)
  }

  /** Two texts agree but for case. */
  predicate SameButCase(s: seq<byte>, t: seq<byte>) {
    |s| == |t| && forall i :: 0 <= i < |s| ==> SameLetter(s[i], t[i])
  }

  lemma LowerDecides(c: byte, d: byte)
    ensures Lower(c) == Lower(d) <==> SameLetter(c, d)
  {}

  /** Folding both to lower case decides it. */
  lemma FoldedDecides(s: seq<byte>, t: seq<byte>)
    ensures Folded(s) == Folded(t) <==> SameButCase(s, t)
  {
    if |s| == |t| {
      forall i | 0 <= i < |s|
        ensures Folded(s)[i] == Folded(t)[i] <==> SameLetter(s[i], t[i])
      {
        LowerDecides(s[i], t[i]);
      }
      hide SameLetter;
    }
  }

  function Folded(s: seq<byte>): (f: seq<byte>)
    ensures |f| == |s| && forall i :: 0 <= i < |s| ==> f[i] == Lower(s[i])
  {
    if s == [] then [] else [Lower(s[0])] + Folded(s[1..])
  }

  /** The C string that starts a buffer: up to its first zero byte, or all of it. */
  function Contents(a: seq<byte>): CString {
    if a == [] || a[0] == 0 then [] else [a[0]] + Contents(a[1..])
  }

  function Prefix(s: seq<byte>, n: nat): seq<byte> { if |s| <= n then s else s[..n] }

  /** Reading a string at an index that may be its terminator. */
  function CharAt(s: seq<byte>, i: nat): byte { if i < |s| then s[i] else 0 }

  lemma {:induction false} ContentsPrefix(a: seq<byte>)
    ensures |Contents(a)| <= |a| && Contents(a) == a[..|Contents(a)|]
    ensures |Contents(a)| < |a| ==> a[|Contents(a)|] == 0
  {
    if a != [] && a[0] != 0 {
      ContentsPrefix(a[1..]);
    }
  }

  /** Equal prefixes up to `i`, and then a difference, the end of both, or the limit. */
  lemma ComparisonDecides(a: seq<byte>, b: CString, n: nat, i: nat)
    requires i <= |Contents(a)| && i <= |b| && i <= n
    requires Folded(Contents(a)[..i]) == Folded(b[..i])
    requires i == n || i == |Contents(a)| || Lower(CharAt(a, i)) != Lower(CharAt(b, i))
    ensures (i == n || Lower(CharAt(a, i)) == Lower(CharAt(b, i))) <==>
            Folded(Prefix(Contents(a), n)) == Folded(Prefix(b, n))
  {
    ContentsPrefix(a);
    var p, q := Prefix(Contents(a), n), Prefix(b, n);
    if i == n {
      assert p == Contents(a)[..i] && q == b[..i];
    } else if Lower(CharAt(a, i)) == Lower(CharAt(b, i)) {
      assert CharAt(a, i) == 0 && i == |b|;
      assert p == Contents(a)[..i] && q == b[..i];
    }
  }

  /** k_strncasecmp: zero exactly when the first `n` characters agree but for case. The first operand need not be
      terminated within those `n`, but then must be that long. */
  method NCaseCompare(a: seq<byte>, b: CString, n: nat) returns (r: int)
    requires n <= |a| || 0 in a
    ensures r == 0 <==> SameButCase(Prefix(Contents(a), n), Prefix(b, n))
  {
    var i := 0;
    FoldedDecides(Prefix(Contents(a), n), Prefix(b, n));
    hide SameButCase, SameLetter, Contents, Folded, Lower, CharAt, Prefix;
    NothingFolded(Contents(a), b);
    while i < n && CharAt(a, i) != 0 && Lower(CharAt(a, i)) == Lower(CharAt(b, i))
      invariant i <= n && i <= |Contents(a)| && i <= |b|
      invariant Folded(Contents(a)[..i]) == Folded(b[..i])
      decreases n - i
    {
      OneMoreAgrees(a, b, i);
      i := i + 1;
    }
    if CharAt(a, i) == 0 { StopsAtEnd(a, i); }
    ComparisonDecides(a, b, n, i);
    if i == n { return 0; }
    return Lower(CharAt(a, i)) - Lower(CharAt(b, i));
  }

  lemma NothingFolded(s: seq<byte>, t: seq<byte>)
    ensures Folded(s[..0]) == Folded(t[..0])
  {}

  /** One character more agrees, and neither text ends there. */
  lemma OneMoreAgrees(a: seq<byte>, b: CString, i: nat)
    requires i <= |Contents(a)| && i <= |b| && Folded(Contents(a)[..i]) == Folded(b[..i])
    requires CharAt(a, i) != 0 && Lower(CharAt(a, i)) == Lower(CharAt(b, i))
    ensures i < |Contents(a)| && i < |b| && Folded(Contents(a)[..i + 1]) == Folded(b[..i + 1])
  {
    ContentsPrefix(a);
    assert CharAt(b, i) != 0;
    FoldedSnoc(Contents(a), i);
    FoldedSnoc(b, i);
    hide Folded, Contents;
  }

  lemma NoZeros(s: CString)
    ensures forall k :: 0 <= k < |s| ==> s[k] != 0
  {
    forall k | 0 <= k < |s|
      ensures s[k] != 0
    {
      assert s[k] in s;
    }
  }

  lemma StopsAtEnd(a: seq<byte>, i: nat)
    requires i <= |Contents(a)| && CharAt(a, i) == 0
    ensures i == |Contents(a)|
  {
    ContentsPrefix(a);
    NoZeros(Contents(a));
    hide Contents;
  }

  lemma FoldedSnoc(s: seq<byte>, i: nat)
    requires i < |s|
    ensures Folded(s[..i + 1]) == Folded(s[..i]) + [Lower(s[i])]
  {}

  /** k_strcasecmp: zero exactly when two strings agree but for case. */
  method CaseCompare(a: CString, b: CString) returns (r: int)
    ensures r == 0 <==> SameButCase(a, b)
  {
    var i := 0;
    FoldedDecides(a, b);
    TerminatedContents(a);
    hide SameButCase, SameLetter, Contents, Folded, Lower, CharAt;
    NothingFolded(a, b);
    while CharAt(a, i) != 0 && Lower(CharAt(a, i)) == Lower(CharAt(b, i))
      invariant i <= |a| && i <= |b|
      invariant Folded(a[..i]) == Folded(b[..i])
      decreases |a| - i
    {
      OneMoreAgrees(a, b, i);
      i := i + 1;
    }
    if CharAt(a, i) == 0 { StopsAtEnd(a, i); }
    ComparisonDecides(a, b, |a| + |b| + 1, i);
    return Lower(CharAt(a, i)) - Lower(CharAt(b, i));
  }

  lemma {:induction false} TerminatedContents(a: CString)
    ensures Contents(a) == a
  {
    if a != [] {
      assert a[0] in a;
      TerminatedContents(a[1..]);
    }
  }
}
