/** The shell's line editor (kernel/shell.c) and what it shows on the scrolling page. */
module Editor {
  import opened Wrappers
  import opened Bytes
  import opened Numbers
  import opened CStrings
  import opened Screen

  const LINE_MAX := 128
  const BACKSPACE: byte := 8
  const PROMPT: seq<byte> := [78, 85, 76, 76, 58, 92, 62]

  /** What an executed command may do to the console. */
  datatype ConsoleOp = Put(c: byte) | ClearPage | At(row: int, col: int, c: byte) | CursorTo(row: int, col: int)

  function Perform(d: Display, op: ConsoleOp): Display {
    match op
    case Put(c) => PutChar(d, c)
    case ClearPage => Cleared()
    case At(row, col, c) => PutAt(d, row, col, c)
    case CursorTo(row, col) => d.(hwCursor := HwCursorAt(row, col))
  }

  function PerformAll(d: Display, ops: seq<ConsoleOp>): Display {
    if ops == [] then d else Perform(PerformAll(d, ops[..|ops| - 1]), ops[|ops| - 1])
  }

  function Prompted(d: Display): Display {
    var p := PutAll(d, PROMPT);
    p.(lineStart := p.cursorPos)
  }

  datatype Edit = Edit(display: Display, line: seq<byte>)

  /** A key typed, with what the command does to the console when the key is Enter. */
  datatype Key = Key(c: byte, output: seq<ConsoleOp>)

  function Typed(e: Edit, k: Key): Edit {
    if k.c == NEWLINE then
      Edit(Prompted(PerformAll(PutChar(e.display, NEWLINE), k.output)), [])
    else if k.c == BACKSPACE then
      if e.line == [] then e else Edit(Backspaced(e.display), e.line[..|e.line| - 1])
    else if |e.line| < LINE_MAX - 1 then
      Edit(PutChar(e.display, k.c), e.line + [k.c])
    else e
  }

  function TypedAll(e: Edit, ks: seq<Key>): Edit {
    if ks == [] then e else Typed(TypedAll(e, ks[..|ks| - 1]), ks[|ks| - 1])
  }

  /** The cells just before the cursor show `text`. */
  ghost predicate EndsWith(d: Display, text: seq<byte>) {
    2 * |text| <= d.cursorPos &&
    forall i :: 0 <= i < |text| ==> d.cells[d.cursorPos / 2 - |text| + i] == 0x0F00 + text[i] as int
  }

  /** The screen agrees with the line buffer: prompt and line stand before the cursor, the line starts where the console
      was told it does, and the hardware cursor is where the next character goes. */
  ghost predicate InStep(e: Edit) {
    |e.line| <= 127 && EndsWith(e.display, PROMPT + e.line) &&
    e.display.cursorPos - e.display.lineStart == 2 * |e.line| && e.display.hwCursor == e.display.cursorPos / 2
  }

  /** Putting a character keeps what stands before the cursor, across a scroll too. */
  lemma PutKeepsText(d: Display, text: seq<byte>, c: byte)
    requires c != NEWLINE && EndsWith(d, text) && |text| < 1920
    ensures EndsWith(PutChar(d, c), text + [c])
  {}

  /** On a short line, a scroll moves the line's start and the cursor together. */
  lemma PutKeepsDistance(d: Display, c: byte)
    requires c != NEWLINE && 0 <= d.cursorPos - d.lineStart < 2 * LINE_MAX
    ensures var t := PutChar(d, c); t.cursorPos - t.lineStart == d.cursorPos - d.lineStart + 2
  {}

  lemma {:induction false} PrintedText(d: Display, text: seq<byte>)
    requires NEWLINE !in text && |text| < 1920
    ensures EndsWith(PutAll(d, text), text)
    ensures text != [] ==> PutAll(d, text).hwCursor == PutAll(d, text).cursorPos / 2
  {
    if text != [] {
      var init, c := text[..|text| - 1], text[|text| - 1];
      PrintedText(d, init);
      PutKeepsText(PutAll(d, init), init, c);
      assert init + [c] == text;
    }
  }

  /** A fresh prompt brings screen and line buffer in step, whatever the screen was like. */
  lemma PromptInStep(d: Display)
    ensures InStep(Edit(Prompted(d), [])) && EndsWith(Prompted(d), [78, 85, 76, 76, 58, 92, 62])
  {
    hide PutAll, PutChar;
    PrintedText(d, PROMPT);
    assert PROMPT + [] == PROMPT;
  }

  lemma KeyKeepsStep(e: Edit, k: Key)
    requires InStep(e)
    ensures InStep(Typed(e, k))
  {
    if k.c == NEWLINE {
      PromptInStep(PerformAll(PutChar(e.display, NEWLINE), k.output));
    } else if k.c == BACKSPACE {
      if e.line != [] {
        var n := |e.line| - 1;
        assert PROMPT + e.line == (PROMPT + e.line[..n]) + [e.line[n]];
        ErasedText(e.display, PROMPT + e.line[..n], e.line[n]);
      }
    } else if |e.line| < LINE_MAX - 1 {
      PutKeepsText(e.display, PROMPT + e.line, k.c);
      PutKeepsDistance(e.display, k.c);
      assert (PROMPT + e.line) + [k.c] == PROMPT + (e.line + [k.c]);
    }
  }

  lemma ErasedText(d: Display, text: seq<byte>, c: byte)
    requires EndsWith(d, text + [c]) && d.cursorPos > d.lineStart
    ensures EndsWith(Backspaced(d), text)
    ensures Backspaced(d).cursorPos == d.cursorPos - 2 && Backspaced(d).lineStart == d.lineStart
    ensures Backspaced(d).cells[d.cursorPos / 2 - 1] == BLANK
  {
    forall i | 0 <= i < |text|
      ensures Backspaced(d).cells[d.cursorPos / 2 - 1 - |text| + i] == 0x0F00 + text[i] as int
    {
      assert (text + [c])[i] == text[i];
    }
  }

  /** From the first prompt on, for any keys and whatever the commands print, the line shown is the line held and the
      prompt before it is intact. */
  lemma {:induction false} EditorStaysInStep(d: Display, ks: seq<Key>)
    ensures InStep(TypedAll(Edit(Prompted(d), []), ks))
  {
    if ks == [] {
      PromptInStep(d);
    } else {
      EditorStaysInStep(d, ks[..|ks| - 1]);
      KeyKeepsStep(TypedAll(Edit(Prompted(d), []), ks[..|ks| - 1]), ks[|ks| - 1]);
    }
  }

  // ----- What the line holds -----

  /** The text held after the keys `cs`, read off the keys alone: Enter starts afresh, a backspace takes back the newest
      character still held, if any, and any other character counts while fewer than 127 are held. */
  function Held(cs: seq<byte>): (text: seq<byte>)
    ensures |text| <= 127
  {
    if cs == [] then []
    else
      var before, c := Held(cs[..|cs| - 1]), cs[|cs| - 1];
      if c == 10 then []
      else if c == 8 then if before == [] then [] else before[..|before| - 1]
      else if |before| < 127 then before + [c]
      else before
  }

  function Chars(ks: seq<Key>): (cs: seq<byte>)
    ensures |cs| == |ks|
  {
    if ks == [] then [] else Chars(ks[..|ks| - 1]) + [ks[|ks| - 1].c]
  }

  /** From any prompt on, the line is what the keys say. */
  lemma {:induction false} LineIsHeld(d: Display, ks: seq<Key>)
    ensures TypedAll(Edit(Prompted(d), []), ks).line == Held(Chars(ks))
  {
    hide Prompted, PerformAll, PutChar, Backspaced;
    if ks != [] {
      var init := ks[..|ks| - 1];
      LineIsHeld(d, init);
      assert Chars(ks)[..|ks| - 1] == Chars(init);
    }
  }

  /** What Enter hands to the command: the line as a C string, which ends at the first zero typed, if one was. */
  function Handed(e: Edit, c: byte): Option<CString> { if c == 10 then Some(Contents(e.line)) else None }

  lemma CommandIsHeld(d: Display, ks: seq<Key>)
    ensures Handed(TypedAll(Edit(Prompted(d), []), ks), 10) == Some(Contents(Held(Chars(ks))))
    ensures 0 !in Held(Chars(ks)) ==>
              Handed(TypedAll(Edit(Prompted(d), []), ks), 10) == Some(Held(Chars(ks)))
  {
    LineIsHeld(d, ks);
    if 0 !in Held(Chars(ks)) { TerminatedContents(Held(Chars(ks))); }
    hide TypedAll, Held, Chars, Prompted, Contents;
  }

  lemma {:induction false} ContentsBeforeZero(line: seq<byte>, rest: seq<byte>)
    ensures Contents(line + [0] + rest) == Contents(line)
  {
    var all := line + [0] + rest;
    if line == [] {
      assert all[0] == 0;
    } else {
      assert all[0] == line[0] && all[1..] == line[1..] + [0] + rest;
      ContentsBeforeZero(line[1..], rest);
    }
  }

  // ----- The editor itself -----

  class Shell {
    const lineBuf: array<byte>
    var lineLen: nat
    const console: Console

    ghost function Repr(): set<object> { {this, lineBuf} + console.Repr() }

    ghost predicate Valid()
      reads Repr()
    {
      lineBuf.Length == LINE_MAX && lineLen < LINE_MAX && (lineBuf as object) != console.vga && console.Valid()
    }

    ghost function Abs(): Edit
      requires Valid()
      reads Repr()
    {
      Edit(console.Abs(), lineBuf[..lineLen])
    }

    /** The buffer and the first prompt. */
    constructor (c: Console)
      requires c.Valid()
      modifies c.Repr()
      ensures Valid() && console == c && fresh(lineBuf)
      ensures Abs() == Edit(Prompted(old(c.Abs())), [])
    {
      lineBuf := new byte[LINE_MAX](_ => 0);
      lineLen := 0;
      console := c;
      new;
      ShowPrompt();
    }

    method ShowPrompt()
      requires Valid()
      modifies console.Repr()
      ensures Valid() && console.Abs() == Prompted(old(console.Abs()))
    {
      console.Print(PROMPT);
      console.MarkLineStart();
    }

    /** Stands for the command dispatcher: all it does here is what its output does to the console. */
    method Execute(line: CString, output: seq<ConsoleOp>)
      requires Valid()
      modifies console.Repr()
      ensures Valid() && console.Abs() == PerformAll(old(console.Abs()), output)
    {
      for i := 0 to |output|
        invariant Valid() && console.Abs() == PerformAll(old(console.Abs()), output[..i])
      {
        match output[i] {
          case Put(c) => console.Putchar(c);
          case ClearPage => console.Clear();
          case At(row, col, c) => console.PutcharAt(row, col, c);
          case CursorTo(row, col) => console.SetHwCursor(row, col);
        }
        assert output[..i + 1][..i] == output[..i];
      }
      assert output[..|output|] == output;
    }

    method InputChar(c: byte, output: seq<ConsoleOp>) returns (command: Option<CString>)
      requires Valid()
      modifies Repr()
      ensures Valid() && Abs() == Typed(old(Abs()), Key(c, output)) && command == Handed(old(Abs()), c)
    {
      command := None;
      if c == NEWLINE {
        console.Putchar(NEWLINE);
        ghost var line := lineBuf[..lineLen];
        lineBuf[lineLen] := 0;
        assert lineBuf[..] == line + [0] + lineBuf[lineLen + 1..];
        ContentsBeforeZero(line, lineBuf[lineLen + 1..]);
        command := Some(Contents(lineBuf[..]));
        Execute(command.value, output);
        lineLen := 0;
        ShowPrompt();
      } else if c == BACKSPACE {
        if lineLen > 0 {
          lineLen := lineLen - 1;
          console.Backspace();
        }
      } else {
        if lineLen < LINE_MAX - 1 {
          lineBuf[lineLen] := c;
          lineLen := lineLen + 1;
          console.Putchar(c);
        }
      }
    }
  }
}
