/** Splitting a command line in place (kernel/shell.c). */
module Tokens {
  import opened Bytes
  import opened CStrings

  const SPACE: byte := 32
  const MAX_TOKENS := 4

  /** How many bytes of `s` come before its first space. */
  function WordLength(s: seq<byte>): (n: nat)
    ensures n <= |s|
  {
    if s == [] || s[0] == SPACE then 0 else 1 + WordLength(s[1..])
  }

  /** The space-separated words of a text. */
  function Words(s: seq<byte>): seq<seq<byte>> {
    if s == [] then []
    else if s[0] == SPACE then Words(s[1..])
    else var n := WordLength(s); [s[..n]] + Words(s[n..])
  }

  /** The words with `gaps[i]` spaces before the i-th, and the rest of the gaps' spaces at the end. */
  function Spaced(words: seq<seq<byte>>, gaps: seq<nat>): seq<byte>
    requires |gaps| == |words| + 1
  {
    if words == [] then Spaces(gaps[0]) else Spaces(gaps[0]) + words[0] + Spaced(words[1..], gaps[1..])
  }

  function Spaces(n: nat): (s: seq<byte>)
    ensures |s| == n && forall i :: 0 <= i < n ==> s[i] == 32
  {
    seq(n, _ => 32)
  }

  lemma {:induction false} LeadingSpaces(n: nat, s: seq<byte>)
    ensures Words(Spaces(n) + s) == Words(s)
  {
    if n == 0 {
      assert Spaces(0) + s == s;
    } else {
      assert (Spaces(n) + s)[1..] == Spaces(n - 1) + s;
      LeadingSpaces(n - 1, s);
    }
  }

  lemma WordThenSpace(word: seq<byte>, rest: seq<byte>)
    requires word != [] && 32 !in word && (rest != [] ==> rest[0] == 32)
    ensures Words(word + rest) == [word] + Words(rest)
  {
    var s := word + rest;
    forall i | 0 <= i < |word|
      ensures s[i] != SPACE
    {
      assert s[i] == word[i] && word[i] in word;
    }
    assert s[0..] == s && s[0..|word|] == word && s[|word|..] == rest;
    TakeWord(s, 0, |word|);
  }

  /** Whatever spaces stand before, between and after them, the words come back, none cut or joined. */
  lemma {:induction false} WordsComeBack(words: seq<seq<byte>>, gaps: seq<nat>)
    requires |gaps| == |words| + 1
    requires forall i :: 0 <= i < |words| ==> words[i] != [] && 32 !in words[i]
    requires forall i :: 0 < i < |words| ==> gaps[i] > 0
    ensures Words(Spaced(words, gaps)) == words
    decreases |words|
  {
    if words == [] {
      LeadingSpaces(gaps[0], []);
      assert Spaces(gaps[0]) + [] == Spaces(gaps[0]);
    } else {
      var rest := Spaced(words[1..], gaps[1..]);
      WordsComeBack(words[1..], gaps[1..]);
      assert rest != [] ==> rest[0] == 32;
      WordThenSpace(words[0], rest);
      LeadingSpaces(gaps[0], words[0] + rest);
      assert Spaced(words, gaps) == Spaces(gaps[0]) + (words[0] + rest);
    }
  }

  lemma {:induction false} WordLengthIs(s: seq<byte>, n: nat)
    requires n <= |s| && (forall i :: 0 <= i < n ==> s[i] != SPACE) && (n < |s| ==> s[n] == SPACE)
    ensures WordLength(s) == n
  {
    if n > 0 {
      WordLengthIs(s[1..], n - 1);
    }
  }

  lemma SkipSpace(text: seq<byte>, p: nat)
    requires p < |text| && text[p] == SPACE
    ensures Words(text[p..]) == Words(text[p + 1..])
  {
    assert text[p..][1..] == text[p + 1..];
  }

  lemma TakeWord(text: seq<byte>, q: nat, p: nat)
    requires q < p <= |text| && (forall i :: q <= i < p ==> text[i] != SPACE) && (p < |text| ==> text[p] == SPACE)
    ensures Words(text[q..]) == [text[q..p]] + Words(text[p..])
  {
    var s := text[q..];
    WordLengthIs(s, p - q);
    assert s[..p - q] == text[q..p] && s[p - q..] == text[p..];
  }

  /** A word stands at `at`, and the zero byte that ends it comes right after. */
  ghost predicate Stands(line: seq<byte>, at: nat, word: seq<byte>) {
    at + |word| < |line| && line[at..at + |word|] == word && line[at + |word|] == 0
  }

  lemma {:induction false} StandingString(s: seq<byte>, word: seq<byte>)
    requires |word| < |s| && s[..|word|] == word && s[|word|] == 0 && 0 !in word
    ensures Contents(s) == word
  {
    if word != [] {
      assert word[0] == s[0] && word[0] in word;
      assert s[1..][..|word| - 1] == word[1..];
      StandingString(s[1..], word[1..]);
    }
  }

  /** The words found so far stand in the line, each with its terminator before `limit`. */
  ghost predicate AllStand(line: seq<byte>, starts: seq<nat>, words: seq<seq<byte>>, limit: nat) {
    && |words| == |starts|
    && forall k :: 0 <= k < |starts| ==>
         Stands(line, starts[k], words[k]) && starts[k] + |words[k]| < limit && 0 !in words[k]
  }

  /** From `p` on, the line still holds the text and its terminator. */
  ghost predicate Pending(line: seq<byte>, text: seq<byte>, p: nat) {
    && p <= |text| < |line|
    && line[|text|] == 0
    && forall i :: p <= i < |text| ==> line[i] == text[i] && text[i] != 0
  }

  /** Where scanning goes on after a word that ends at `p`. */
  function After(text: seq<byte>, p: nat): nat {
    if p < |text| then p + 1 else p
  }

  /** Ending the word that runs from `q` to `p` keeps the earlier words standing and takes one word off the text. */
  lemma WordEnds(line: seq<byte>, text: seq<byte>, starts: seq<nat>, found: seq<seq<byte>>, limit: nat, q: nat, p: nat)
    requires Pending(line, text, q) && AllStand(line, starts, found, limit) && limit <= q < p <= |text|
    requires (forall i :: q <= i < p ==> text[i] != SPACE) && (p < |text| ==> text[p] == SPACE)
    ensures Words(text[q..]) == [text[q..p]] + Words(text[After(text, p)..])
    ensures AllStand(line[p := 0], starts + [q], found + [text[q..p]], p + 1)
    ensures Pending(line[p := 0], text, After(text, p))
  {
    TakeWord(text, q, p);
    if p < |text| {
      SkipSpace(text, p);
    }
    var ended := line[p := 0];
    forall k | 0 <= k < |starts| ensures Stands(ended, starts[k], found[k]) {
      assert Stands(line, starts[k], found[k]);
      assert ended[starts[k]..starts[k] + |found[k]|] == line[starts[k]..starts[k] + |found[k]|];
    }
    assert ended[q..p] == text[q..p];
  }

  lemma StandingAreStrings(line: seq<byte>, starts: seq<nat>, words: seq<seq<byte>>, limit: nat)
    requires AllStand(line, starts, words, limit)
    ensures forall k :: 0 <= k < |starts| ==> starts[k] <= |line| && Contents(line[starts[k]..]) == words[k]
  {
    forall k | 0 <= k < |starts| ensures starts[k] <= |line| && Contents(line[starts[k]..]) == words[k] {
      assert Stands(line, starts[k], words[k]);
      var s := line[starts[k]..];
      assert s[..|words[k]|] == words[k];
      StandingString(s, words[k]);
    }
  }

  lemma TextIsPending(line: seq<byte>)
    requires 0 in line
    ensures Pending(line, Contents(line), 0) && AllStand(line, [], [], 0)
  {
    ContentsPrefix(line);
    var text := Contents(line);
  }

  /** The pointers left in `tokens`, as offsets into the line: afterwards they are C strings, the line's first words. */
  method Tokenize(line: array<byte>) returns (starts: seq<nat>)
    requires 0 in line[..]
    modifies line
    ensures var words := Words(Contents(old(line[..])));
      && |starts| == Min(|words|, 4)
      && forall k :: 0 <= k < |starts| ==> starts[k] <= line.Length && Contents(line[starts[k]..]) == words[k]
  {
    hide Words, Contents, AllStand, Stands;
    ghost var text := Contents(line[..]);
    TextIsPending(line[..]);
    starts := [];
    ghost var found: seq<seq<byte>>, limit := [], 0;
    var p := 0;
    assert text[0..] == text;
    while line[p] != 0 && |starts| < MAX_TOKENS
      invariant Pending(line[..], text, p) && |found| == |starts| <= MAX_TOKENS
      invariant AllStand(line[..], starts, found, limit) && (limit <= p || p == |text|)
      invariant Words(text) == found + Words(text[p..])
      decreases line.Length - p
    {
      ghost var before := line[..];
      while line[p] == SPACE
        invariant Pending(line[..], text, p) && limit <= p && line[..] == before
        invariant Words(text) == found + Words(text[p..])
        decreases line.Length - p
      {
        SkipSpace(text, p);
        p := p + 1;
      }
      if line[p] == 0 { break; }
      ghost var q := p;
      starts := starts + [p];
      while line[p] != 0 && line[p] != SPACE
        invariant q <= p <= |text| && line[..] == before
        invariant forall i :: q <= i < p ==> text[i] != SPACE
        decreases line.Length - p
      {
        p := p + 1;
      }
      ghost var end := p;
      WordEnds(before, text, starts[..|starts| - 1], found, limit, q, end);
      if line[p] != 0 {
        line[p] := 0;
        p := p + 1;
      }
      assert line[..] == before[end := 0];
      assert starts[..|starts| - 1] + [q] == starts;
      found, limit := found + [text[q..end]], end + 1;
    }
    StandingAreStrings(line[..], starts, found, limit);
    NoMoreWords(text[p..]);
  }

  lemma NoMoreWords(rest: seq<byte>)
    ensures Words(rest) != [] ==> rest != []
  {
  }
}
