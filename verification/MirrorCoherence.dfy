/** The C64 screen page and its image on the console. */
module MirrorCoherence {
  import opened Bytes
  import opened Screen
  import opened Memory
  import opened Cpu
  import opened Runs

  /** The console cell that mirrors a screen address: row by 40s, in an 80-column page. */
  function CellOf(addr: word): (cell: int)
    requires OnScreen(addr)
    ensures 0 <= cell < CELLS && cell % COLS < SCREEN_COLS
  {
    (addr - SCREEN_START) / SCREEN_COLS * COLS + (addr - SCREEN_START) % SCREEN_COLS
  }

  lemma CellOfInjective(a: word, b: word)
    requires OnScreen(a) && OnScreen(b) && CellOf(a) == CellOf(b)
    ensures a == b
  {
    assert CellOf(a) / COLS == (a - SCREEN_START) / SCREEN_COLS;
    assert CellOf(b) / COLS == (b - SCREEN_START) / SCREEN_COLS;
  }

  /** The bounds checks behind a mirrored write never clip: its cell is written and the cursor is one to the right. */
  lemma MirrorNeverClips(d: Display, addr: word, val: byte)
    requires OnScreen(addr)
    ensures Mirror(d, addr, val) ==
            d.(cells := d.cells[CellOf(addr) := Cell(ScreenCodeToAscii(val))], hwCursor := CellOf(addr) + 1)
  {
    var row, col := (addr - SCREEN_START) / SCREEN_COLS, (addr - SCREEN_START) % SCREEN_COLS;
    assert row < ROWS && col + 1 < COLS;
  }

  /** Codes 0 to 30 are ASCII 64 to 94 but for the pound sign, which is blank, and 31 is `<`; codes 32 to 63 are ASCII;
      the graphics codes from 64 on are blank; and bit 7, reverse video, does not matter. */
  lemma GlyphOfCode(code: byte)
    ensures var k := code % 128;
      ScreenCodeToAscii(code) ==
      if k < 31 && k != 28 then 64 + k else if k == 31 then 60 else if 32 <= k < 64 then k else 32
  {}

  /** The console after any byte written to RAM: one cell and the hardware cursor for the 1000 screen addresses, nothing
      for any other. */
  lemma WriteLaw(m: Mem, addr: word, val: byte)
    ensures var n := WriteByte(m, addr, val); var row, col := (addr - 1024) / 40, (addr - 1024) % 40;
      && n.ram == m.ram[addr := val] && n.raster == m.raster
      && n.display ==
         if 1024 <= addr <= 2023 then
           m.display.(cells := m.display.cells[80 * row + col := 0x0F00 + ScreenCodeToAscii(val) as int],
                      hwCursor := 80 * row + col + 1)
         else m.display
  {
    hide ScreenCodeToAscii;
    if OnScreen(addr) { MirrorNeverClips(m.display, addr, val); }
  }

  predicate Written(ws: seq<(word, byte)>, a: word) { exists k :: 0 <= k < |ws| && ws[k].0 == a }

  /** The image of screen address `a` shows what RAM holds there. */
  predicate Shows(m: Mem, a: word)
    requires OnScreen(a)
  {
    m.display.cells[CellOf(a)] == 0x0F00 + ScreenCodeToAscii(m.ram[a]) as int
  }

  /** The cell that mirrors some screen address written by `ws`. */
  ghost predicate WrittenCell(ws: seq<(word, byte)>, cell: int) {
    exists a: word :: OnScreen(a) && Written(ws, a) && CellOf(a) == cell
  }

  /** The last write of `ws` that is on the screen, or -1. */
  function LastOnScreen(ws: seq<(word, byte)>): (k: int)
    ensures -1 <= k < |ws| && (k >= 0 ==> OnScreen(ws[k].0))
  {
    if ws == [] then -1
    else if OnScreen(ws[|ws| - 1].0) then |ws| - 1
    else LastOnScreen(ws[..|ws| - 1])
  }

  ghost predicate Coherent(m: Mem, ws: seq<(word, byte)>, n: Mem) {
    && (forall a: word {:trigger Written(ws, a)} :: OnScreen(a) && Written(ws, a) ==> Shows(n, a))
    && (forall cell {:trigger WrittenCell(ws, cell)} :: 0 <= cell < CELLS && !WrittenCell(ws, cell) ==>
          n.display.cells[cell] == m.display.cells[cell])
    && (forall a: word {:trigger Written(ws, a)} :: !Written(ws, a) ==> n.ram[a] == m.ram[a])
    && n.display.cursorPos == m.display.cursorPos && n.display.lineStart == m.display.lineStart
    && n.display.hwCursor ==
       (var k := LastOnScreen(ws); if k < 0 then m.display.hwCursor else CellOf(ws[k].0) + 1)
  }

  /** After any writes: every screen byte written shows on the console as RAM now holds it, every other cell (the
      right half of the console among them) is as it was, and the cursor follows the last screen write. */
  lemma {:induction false} WritesAreMirrored(m: Mem, ws: seq<(word, byte)>)
    ensures Coherent(m, ws, WriteAll(m, ws))
  {
    if ws != [] {
      var init, w := ws[..|ws| - 1], ws[|ws| - 1];
      WritesAreMirrored(m, init);
      WrittenGrows(init, w);
      assert init + [w] == ws;
      OneMoreWrite(m, init, WriteAll(m, init), w);
    } else {
      NoWrites(m);
    }
  }

  lemma NoWrites(m: Mem)
    ensures Coherent(m, [], m)
  {}

  lemma WrittenGrows(ws: seq<(word, byte)>, w: (word, byte))
    ensures forall a: word {:trigger Written(ws, a)} {:trigger Written(ws + [w], a)} ::
      Written(ws + [w], a) <==> Written(ws, a) || a == w.0
    ensures LastOnScreen(ws + [w]) == if OnScreen(w.0) then |ws| else LastOnScreen(ws)
  {
    var all := ws + [w];
    assert all[|ws|] == w && all[..|ws|] == ws;
    forall a: word | Written(ws, a)
      ensures Written(all, a)
    {
      var k :| 0 <= k < |ws| && ws[k].0 == a;
      assert all[k].0 == a;
    }
    forall a: word | Written(all, a) && a != w.0
      ensures Written(ws, a)
    {
      var k :| 0 <= k < |all| && all[k].0 == a;
      assert ws[k].0 == a;
    }
  }

  lemma OneMoreWrite(m: Mem, ws: seq<(word, byte)>, n: Mem, w: (word, byte))
    requires Coherent(m, ws, n)
    ensures Coherent(m, ws + [w], WriteByte(n, w.0, w.1))
  {
    WrittenGrows(ws, w);
    var all, r := ws + [w], WriteByte(n, w.0, w.1);
    if OnScreen(w.0) {
      MirrorNeverClips(n.display, w.0, w.1);
    }
    forall a: word | OnScreen(a) && Written(all, a)
      ensures Shows(r, a)
    {
      if a != w.0 && OnScreen(w.0) && CellOf(a) == CellOf(w.0) { CellOfInjective(a, w.0); }
    }
    forall cell | 0 <= cell < CELLS && !WrittenCell(all, cell)
      ensures r.display.cells[cell] == m.display.cells[cell]
    {
      assert !WrittenCell(ws, cell);
      if OnScreen(w.0) { assert Written(all, w.0); }
    }
  }

  // ----- Whole runs -----

  lemma CoherentFromAnyLine(m: Mem, ws: seq<(word, byte)>, n: Mem, r: RasterLine)
    requires Coherent(m.(raster := r), ws, n)
    ensures Coherent(m, ws, n)
  {}

  /** Over any run of the machine: what holds of a list of writes holds of the run's own, in order. So the console image
      of each screen byte shows that byte or, like the byte itself, has not changed, nothing outside the mirrored 40
      columns changes, and the cursor is one to the right of the run's last screen write. */
  lemma RunIsMirrored(s: State, es: seq<Event>)
    ensures Coherent(s.mem, RunWrites(s, es), Run(s, es).mem)
    ensures forall a: word :: OnScreen(a) ==>
              var t := Run(s, es).mem;
              Shows(t, a) ||
              (t.ram[a] == s.mem.ram[a] && t.display.cells[CellOf(a)] == s.mem.display.cells[CellOf(a)])
    ensures forall cell :: 0 <= cell < CELLS && cell % COLS >= SCREEN_COLS ==>
              Run(s, es).mem.display.cells[cell] == s.mem.display.cells[cell]
  {
    var ws, t := RunWrites(s, es), Run(s, es).mem;
    RunSummary(s, es);
    hide Run, RunWrites;
    WritesAreMirrored(s.mem.(raster := t.raster), ws);
    CoherentFromAnyLine(s.mem, ws, t, t.raster);
    UnwrittenImages(s.mem, ws, t);
  }

  lemma UnwrittenImages(m: Mem, ws: seq<(word, byte)>, t: Mem)
    requires Coherent(m, ws, t)
    ensures forall a: word :: OnScreen(a) ==>
              Shows(t, a) || (t.ram[a] == m.ram[a] && t.display.cells[CellOf(a)] == m.display.cells[CellOf(a)])
    ensures forall cell :: 0 <= cell < CELLS && cell % COLS >= SCREEN_COLS ==>
              t.display.cells[cell] == m.display.cells[cell]
  {
    forall a: word | OnScreen(a) && !Shows(t, a)
      ensures t.ram[a] == m.ram[a] && t.display.cells[CellOf(a)] == m.display.cells[CellOf(a)]
    {
      assert !Written(ws, a);
      if WrittenCell(ws, CellOf(a)) {
        var b: word :| OnScreen(b) && Written(ws, b) && CellOf(b) == CellOf(a);
        CellOfInjective(a, b);
      }
    }
    forall cell | 0 <= cell < CELLS && cell % COLS >= SCREEN_COLS
      ensures t.display.cells[cell] == m.display.cells[cell]
    {
      assert !WrittenCell(ws, cell);
    }
  }
}
