/** The text page of kernel/console.c: values first, then the class that updates the page in place. */
module Screen {
  import opened Bytes
  import opened Numbers

  const COLS := 80
  const ROWS := 25
  const CELLS := 2000
  const PAGE_BYTES := 4000
  const ROW_BYTES := 160
  const NEWLINE: byte := 10

  /** A cell: white-on-black attribute above the character byte. */
  function Cell(c: byte): word { 0x0F00 + c }

  const BLANK: word := 0x0F20

  type Cells = s: seq<word> | |s| == CELLS witness seq(CELLS, _ => BLANK)
  type CursorPos = x: int | 0 <= x < PAGE_BYTES && x % 2 == 0

  /** What console.c keeps: the VGA page, its two byte positions and the CRT controller's cursor register. */
  datatype Display = Display(cells: Cells, cursorPos: CursorPos, lineStart: nat, hwCursor: word)

  function Blanks(n: nat): (s: seq<word>)
    ensures |s| == n && forall i :: 0 <= i < n ==> s[i] == BLANK
  {
    seq(n, _ => BLANK)
  }

  function Cleared(): Display { Display(Blanks(CELLS), 0, 0, 0) }

  /** The page moved up by one row. */
  function ScrolledCells(cells: Cells): Cells { cells[COLS..] + Blanks(COLS) }

  /** The display once the cursor has been sent to byte position `pos`, which may lie just past the page. */
  function MovedTo(cells: Cells, pos: int, lineStart: nat): Display
    requires 0 <= pos < PAGE_BYTES + ROW_BYTES && pos % 2 == 0
  {
    if pos < PAGE_BYTES then Display(cells, pos, lineStart, pos / 2)
    else Display(ScrolledCells(cells), pos - ROW_BYTES,
                 if lineStart >= ROW_BYTES then lineStart - ROW_BYTES else lineStart, (pos - ROW_BYTES) / 2)
  }

  function PutChar(d: Display, c: byte): Display {
    if c == NEWLINE then
      MovedTo(d.cells, d.cursorPos + ROW_BYTES - d.cursorPos % ROW_BYTES, d.lineStart)
    else
      MovedTo(d.cells[d.cursorPos / 2 := Cell(c)], d.cursorPos + 2, d.lineStart)
  }

  function PutAll(d: Display, cs: seq<byte>): Display {
    if cs == [] then d else PutChar(PutAll(d, cs[..|cs| - 1]), cs[|cs| - 1])
  }

  lemma {:induction false} PutAllConcat(d: Display, a: seq<byte>, b: seq<byte>)
    ensures PutAll(d, a + b) == PutAll(PutAll(d, a), b)
  {
    if b == [] {
      assert a + b == a;
    } else {
      PutAllConcat(d, a, b[..|b| - 1]);
      assert (a + b)[..|a + b| - 1] == a + b[..|b| - 1];
    }
  }

  function Backspaced(d: Display): Display {
    if d.cursorPos <= d.lineStart then d
    else Display(d.cells[d.cursorPos / 2 - 1 := BLANK], d.cursorPos - 2, d.lineStart, d.cursorPos / 2 - 1)
  }

  function PutAt(d: Display, row: int, col: int, c: byte): Display {
    if row < 0 || row >= ROWS || col < 0 || col >= COLS then d
    else d.(cells := d.cells[row * COLS + col := Cell(c)])
  }

  function HwCursorAt(row: int, col: int): word {
    var r := if row < 0 then 0 else if row >= ROWS then ROWS - 1 else row;
    var c := if col < 0 then 0 else if col >= COLS then COLS - 1 else col;
    r * COLS + c
  }

  /** A backspace stops at the line's start, and otherwise blanks the cell before the cursor and moves there. */
  lemma BackspaceLaw(d: Display)
    ensures d.cursorPos <= d.lineStart ==> Backspaced(d) == d
    ensures d.cursorPos > d.lineStart ==>
              var cell := d.cursorPos / 2 - 1;
              Backspaced(d) ==
              d.(cells := d.cells[cell := 0x0F20], cursorPos := 2 * cell, hwCursor := cell)
  {}

  /** The page scrolls exactly when a new line leaves its last row or a character its last cell, and the line's start
      then moves up a row if it can. */
  lemma ScrollLaw(d: Display, c: byte)
    ensures var t := PutChar(d, c);
      var scrolls := if c == 10 then d.cursorPos >= 3840 else d.cursorPos == 3998;
      && t.lineStart == (if scrolls && d.lineStart >= 160 then d.lineStart - 160 else d.lineStart)
      && t.cursorPos == (if c == 10 then d.cursorPos / 160 * 160 + 160 else d.cursorPos + 2)
                        - (if scrolls then 160 else 0)
  {}

  /** Outside the page nothing is written, inside one cell. */
  lemma PutAtLaw(d: Display, row: int, col: int, c: byte)
    ensures PutAt(d, row, col, c) ==
            if 0 <= row < 25 && 0 <= col < 80 then d.(cells := d.cells[80 * row + col := 0x0F00 + c as int]) else d
  {}

  /** The cursor register names the cell asked for, or the nearest one on the page. */
  lemma NearestCell(row: int, col: int)
    ensures var r, c := HwCursorAt(row, col) / 80, HwCursorAt(row, col) % 80;
      && 0 <= r < 25
      && (forall r' :: 0 <= r' < 25 ==> Distance(row, r) <= Distance(row, r'))
      && (forall c' :: 0 <= c' < 80 ==> Distance(col, c) <= Distance(col, c'))
  {}

  function Distance(a: int, b: int): nat { if a < b then b - a else a - b }

  class Console {
    const vga: array<word>
    var cursorPos: int
    var lineStart: nat
    var hwCursor: word

    ghost function Repr(): set<object> { {this, vga} }

    ghost predicate Valid()
      reads Repr()
    {
      vga.Length == CELLS && 0 <= cursorPos < PAGE_BYTES && cursorPos % 2 == 0
    }

    ghost function Abs(): Display
      requires Valid()
      reads Repr()
    {
      Display(vga[..], cursorPos, lineStart, hwCursor)
    }

    /** The page is mapped memory: it starts with whatever the firmware left in it. */
    constructor ()
      ensures Valid() && fresh(vga)
      ensures cursorPos == 0 && lineStart == 0 && hwCursor == 0
    {
      vga := new word[CELLS];
      cursorPos, lineStart, hwCursor := 0, 0, 0;
    }

    /** Writes the low and then the high half of a cursor location to the CRT controller. */
    method OutCursor(pos: word)
      modifies this`hwCursor
      ensures hwCursor == pos
    {
      var lo, hi := Lo(pos), Hi(pos);
      hwCursor := Word(lo, hi);
    }

    method UpdateCursor()
      requires Valid()
      modifies this`hwCursor
      ensures hwCursor == cursorPos / 2
    {
      OutCursor(cursorPos / 2);
    }

    method SetHwCursor(row: int, col: int)
      requires Valid()
      modifies this`hwCursor
      ensures Valid() && Abs() == old(Abs()).(hwCursor := HwCursorAt(row, col))
    {
      var r, c := row, col;
      if r < 0 { r := 0; }
      if r >= ROWS { r := ROWS - 1; }
      if c < 0 { c := 0; }
      if c >= COLS { c := COLS - 1; }
      OutCursor(r * COLS + c);
    }

    method ScrollIfNeeded()
      requires vga.Length == CELLS && 0 <= cursorPos < PAGE_BYTES + ROW_BYTES && cursorPos % 2 == 0
      modifies this`cursorPos, this`lineStart, vga
      ensures Valid()
      ensures Abs() == MovedTo(old(vga[..]), old(cursorPos), old(lineStart)).(hwCursor := hwCursor)
    {
      if cursorPos < PAGE_BYTES { return; }
      CopyRowsUp();
      BlankLastRow();
      cursorPos := cursorPos - ROW_BYTES;
      if lineStart >= ROW_BYTES { lineStart := lineStart - ROW_BYTES; }
    }

    /** The overlapping in-place copy: each cell is read before the loop overwrites it. */
    method CopyRowsUp()
      requires vga.Length == CELLS
      modifies vga
      ensures vga[..CELLS - COLS] == old(vga[COLS..])
    {
      for i := 0 to CELLS - COLS
        invariant forall k :: 0 <= k < i ==> vga[k] == old(vga[k + COLS])
        invariant forall k :: i <= k < CELLS ==> vga[k] == old(vga[k])
      {
        vga[i] := vga[i + COLS];
      }
    }

    method BlankLastRow()
      requires vga.Length == CELLS
      modifies vga
      ensures vga[..] == old(vga[..CELLS - COLS]) + Blanks(COLS)
    {
      for i := CELLS - COLS to CELLS
        invariant forall k :: 0 <= k < CELLS - COLS ==> vga[k] == old(vga[k])
        invariant forall k :: CELLS - COLS <= k < i ==> vga[k] == BLANK
      {
        vga[i] := BLANK;
      }
    }

    method Clear()
      requires vga.Length == CELLS
      modifies Repr()
      ensures Valid() && Abs() == Cleared()
    {
      for i := 0 to CELLS
        invariant forall k :: 0 <= k < i ==> vga[k] == BLANK
      {
        vga[i] := BLANK;
      }
      cursorPos := 0;
      lineStart := 0;
      UpdateCursor();
    }

    method MarkLineStart()
      requires Valid()
      modifies this`lineStart
      ensures Valid() && Abs() == old(Abs()).(lineStart := old(cursorPos))
    {
      lineStart := cursorPos;
    }

    method Putchar(c: byte)
      requires Valid()
      modifies Repr()
      ensures Valid() && Abs() == PutChar(old(Abs()), c)
    {
      if c == NEWLINE {
        cursorPos := cursorPos + ROW_BYTES - cursorPos % ROW_BYTES;
      } else {
        vga[cursorPos / 2] := Cell(c);
        cursorPos := cursorPos + 2;
      }
      ScrollIfNeeded();
      UpdateCursor();
    }

    method Print(s: seq<byte>)
      requires Valid()
      modifies Repr()
      ensures Valid() && Abs() == PutAll(old(Abs()), s)
    {
      for i := 0 to |s|
        invariant Valid() && Abs() == PutAll(old(Abs()), s[..i])
      {
        Putchar(s[i]);
        assert s[..i + 1][..i] == s[..i];
      }
      assert s[..|s|] == s;
    }

    method Backspace()
      requires Valid()
      modifies Repr()
      ensures Valid() && Abs() == Backspaced(old(Abs()))
    {
      if cursorPos <= lineStart { return; }
      cursorPos := cursorPos - 2;
      vga[cursorPos / 2] := BLANK;
      UpdateCursor();
    }

    method PutcharAt(row: int, col: int, c: byte)
      requires Valid()
      modifies vga
      ensures Valid() && Abs() == PutAt(old(Abs()), row, col, c)
    {
      if row < 0 || row >= ROWS || col < 0 || col >= COLS { return; }
      vga[row * COLS + col] := Cell(c);
    }

    method PrintHex(v: uint32)
      requires Valid()
      modifies Repr()
      ensures Valid() && Abs() == PutAll(old(Abs()), HexText(v))
    {
      var d := Abs();
      Print([48, 120]);
      var buf := new byte[8];
      var val: nat, i := v, 7;
      while i >= 0
        invariant -1 <= i < 8 && Valid() && Abs() == PutAll(d, [48, 120])
        invariant HexDigits(v, 8) == HexDigits(val, i + 1) + buf[i + 1..]
      {
        buf[i] := HexDigit(val % 16);
        assert buf[i..] == [HexDigit(val % 16)] + buf[i + 1..];
        val := val / 16;
        i := i - 1;
      }
      assert HexDigits(val, 0) + buf[0..] == buf[..];
      Print(buf[..]);
      PutAllConcat(d, [48, 120], HexDigits(v, 8));
    }

    /** Ten digits are enough for 32 bits, so the loop's second guard never cuts a number short. */
    method PrintDec(v: uint32)
      requires Valid()
      modifies Repr()
      ensures Valid() && Abs() == PutAll(old(Abs()), DecText(v))
    {
      if v == 0 {
        Putchar(48);
        assert [ZERO][..0] == [];
        return;
      }
      hide PutAll, DecDigits, Pow10;
      TenDigits(v);
      var buf := new byte[11];
      var val: nat, i := v, 10;
      buf[i] := 0;
      while val > 0 && i > 0
        invariant 0 <= i <= 10 && val < Pow10(i) && Valid() && Abs() == old(Abs())
        invariant DecDigits(v) == DecDigits(val) + buf[i..10]
      {
        DigitsLeft(v, val, i, buf[i..10]);
        i := i - 1;
        buf[i] := 48 + val % 10;
        assert buf[i..10] == [48 + val % 10] + buf[i + 1..10];
        val := val / 10;
      }
      DigitsLeft(v, val, i, buf[i..10]);
      Print(buf[i..10]);
    }
  }
}
