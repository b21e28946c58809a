/** The scrolling page against an unbounded log of everything printed. */
module ConsoleLog {
  import opened Bytes
  import opened Screen

  /** All cells ever printed since the page was cleared, row after row of 80; a newline fills its row with blanks. */
  function Log(cs: seq<byte>): seq<word> {
    if cs == [] then []
    else
      var log, c := Log(cs[..|cs| - 1]), cs[|cs| - 1];
      if c == NEWLINE then log + Blanks(COLS - |log| % COLS) else log + [0x0F00 + c as int]
  }

  /** The first log row still on the page when the log is `n` cells long. */
  function Top(n: nat): nat { if n / COLS < ROWS then 0 else n / COLS - (ROWS - 1) }

  function CellAt(log: seq<word>, j: nat): word { if j < |log| then log[j] else BLANK }

  function Window(log: seq<word>, from: nat, n: nat): (w: seq<word>)
    ensures |w| == n && forall i :: 0 <= i < n ==> w[i] == CellAt(log, from + i)
  {
    if n == 0 then [] else Window(log, from, n - 1) + [CellAt(log, from + n - 1)]
  }

  /** The page that shows the log's last rows: from row Top on, blank where the log has not come yet. */
  function Rendered(log: seq<word>): (cells: Cells)
    ensures forall i :: 0 <= i < CELLS ==> cells[i] == CellAt(log, COLS * Top(|log|) + i)
  {
    Window(log, COLS * Top(|log|), CELLS)
  }

  function Shown(log: seq<word>): Display {
    var cell := |log| - COLS * Top(|log|);
    Display(Rendered(log), 2 * cell, 0, cell)
  }

  lemma PutShown(log: seq<word>, c: byte)
    requires c != NEWLINE
    ensures PutChar(Shown(log), c) == Shown(log + [Cell(c)])
  {
    var d, next := Shown(log), log + [Cell(c)];
    var cell := |log| - COLS * Top(|log|);
    var cells := d.cells[cell := Cell(c)];
    if cell + 1 < CELLS {
      assert Top(|next|) == Top(|log|);
      assert cells == Rendered(next);
    } else {
      assert Top(|next|) == Top(|log|) + 1;
      assert ScrolledCells(cells) == Rendered(next);
    }
  }

  lemma NewlineShown(log: seq<word>)
    ensures PutChar(Shown(log), NEWLINE) == Shown(log + Blanks(COLS - |log| % COLS))
  {
    var d, next := Shown(log), log + Blanks(COLS - |log| % COLS);
    var cell := |log| - COLS * Top(|log|);
    assert 2 * cell % ROW_BYTES == 2 * (|log| % COLS);
    if |next| / COLS < Top(|log|) + ROWS {
      assert Top(|next|) == Top(|log|);
      assert d.cells == Rendered(next);
    } else {
      assert Top(|next|) == Top(|log|) + 1;
      assert ScrolledCells(d.cells) == Rendered(next);
    }
  }

  /** From a cleared page, any characters leave exactly the last rows of the log on it, with the cursor after the last
      cell and everything from the cursor on blank. */
  lemma {:induction false} PageShowsLog(cs: seq<byte>)
    ensures PutAll(Cleared(), cs) == Shown(Log(cs))
    ensures var d := PutAll(Cleared(), cs); forall i :: d.cursorPos / 2 <= i < CELLS ==> d.cells[i] == 0x0F20
  {
    if cs == [] {
      assert Rendered([]) == Blanks(CELLS);
    } else {
      PageShowsLog(cs[..|cs| - 1]);
      var log := Log(cs[..|cs| - 1]);
      if cs[|cs| - 1] == NEWLINE { NewlineShown(log); } else { PutShown(log, cs[|cs| - 1]); }
    }
  }
}
