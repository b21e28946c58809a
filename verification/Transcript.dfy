/** A whole session at the prompt against the console's log. */
module Transcript {
  import opened Bytes
  import opened Screen
  import opened ConsoleLog
  import opened Editor

  /** Sessions without backspaces whose commands only print. */
  predicate Plain(ks: seq<Key>) {
    forall i :: 0 <= i < |ks| ==> ks[i].c != 8 && forall j :: 0 <= j < |ks[i].output| ==> ks[i].output[j].Put?
  }

  function Printed(ops: seq<ConsoleOp>): seq<byte>
    requires forall j :: 0 <= j < |ops| ==> ops[j].Put?
  {
    if ops == [] then [] else Printed(ops[..|ops| - 1]) + [ops[|ops| - 1].c]
  }

  /** Everything the session prints, read off its keys: prompt, characters that fit the line, and at each Enter a new
      line, the command's output and the next prompt. */
  function Session(ks: seq<Key>): seq<byte>
    requires Plain(ks)
  {
    if ks == [] then PROMPT
    else
      var init, k := ks[..|ks| - 1], ks[|ks| - 1];
      Session(init) +
      if k.c == 10 then [10] + Printed(k.output) + PROMPT
      else if |Held(Chars(init))| < 127 then [k.c]
      else []
  }

  /** The same page and cursors; where the line starts does not matter to what is printed. */
  predicate SamePage(d: Display, e: Display) {
    d.cells == e.cells && d.cursorPos == e.cursorPos && d.hwCursor == e.hwCursor
  }

  lemma PutSame(d: Display, e: Display, c: byte)
    requires SamePage(d, e)
    ensures SamePage(PutChar(d, c), PutChar(e, c))
  {}

  lemma {:induction false} PutAllSame(d: Display, e: Display, cs: seq<byte>)
    requires SamePage(d, e)
    ensures SamePage(PutAll(d, cs), PutAll(e, cs))
  {
    if cs != [] {
      PutAllSame(d, e, cs[..|cs| - 1]);
      PutSame(PutAll(d, cs[..|cs| - 1]), PutAll(e, cs[..|cs| - 1]), cs[|cs| - 1]);
    }
  }

  lemma {:induction false} PerformPrints(d: Display, ops: seq<ConsoleOp>)
    requires forall j :: 0 <= j < |ops| ==> ops[j].Put?
    ensures PerformAll(d, ops) == PutAll(d, Printed(ops))
  {
    hide PutChar;
    if ops != [] {
      var init := ops[..|ops| - 1];
      PerformPrints(d, init);
      assert Printed(ops)[..|Printed(ops)| - 1] == Printed(init);
    }
  }

  lemma PutOne(d: Display, c: byte)
    ensures PutAll(d, [c]) == PutChar(d, c)
  {
    assert [c][..0] == [];
  }

  /** What Enter prints. */
  lemma EnterPrints(d: Display, ops: seq<ConsoleOp>)
    requires forall j :: 0 <= j < |ops| ==> ops[j].Put?
    ensures SamePage(Prompted(PerformAll(PutChar(d, 10), ops)), PutAll(d, [10] + Printed(ops) + PROMPT))
  {
    hide PutChar, PutAll;
    PutOne(d, 10);
    PerformPrints(PutAll(d, [10]), ops);
    PutAllConcat(d, [10], Printed(ops));
    PutAllConcat(d, [10] + Printed(ops), PROMPT);
  }

  lemma PutMore(d: Display, e: Display, more: seq<byte>, s: seq<byte>)
    requires SamePage(d, PutAll(Cleared(), s)) && SamePage(e, PutAll(d, more))
    ensures SamePage(e, PutAll(Cleared(), s + more))
  {
    hide PutAll;
    PutAllConcat(Cleared(), s, more);
    PutAllSame(d, PutAll(Cleared(), s), more);
  }

  lemma {:induction false} SessionPrints(ks: seq<Key>)
    requires Plain(ks)
    ensures SamePage(TypedAll(Edit(Prompted(Cleared()), []), ks).display, PutAll(Cleared(), Session(ks)))
  {
    hide PutAll, PerformAll, PutChar, Held, Chars, Printed, Cleared;
    if ks != [] {
      hide Prompted;
      var init, k := ks[..|ks| - 1], ks[|ks| - 1];
      var before := TypedAll(Edit(Prompted(Cleared()), []), init);
      var after := Typed(before, k);
      SessionPrints(init);
      LineIsHeld(Cleared(), init);
      if k.c == 10 {
        EnterPrints(before.display, k.output);
        PutMore(before.display, after.display, [10] + Printed(k.output) + PROMPT, Session(init));
      } else if |before.line| < 127 {
        PutOne(before.display, k.c);
        PutMore(before.display, after.display, [k.c], Session(init));
      } else {
        assert Session(ks) == Session(init) + [] == Session(init);
      }
    }
  }

  /** From a cleared page, such a session leaves on it the last rows of the log of all it printed. */
  lemma SessionShowsLog(ks: seq<Key>)
    requires Plain(ks)
    ensures SamePage(TypedAll(Edit(Prompted(Cleared()), []), ks).display, Shown(Log(Session(ks))))
  {
    hide TypedAll, Session, Prompted, Log, Shown;
    SessionPrints(ks);
    PageShowsLog(Session(ks));
  }
}
