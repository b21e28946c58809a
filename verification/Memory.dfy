/** The C64's 64K as kernel/cpu6502_mem.c serves it: two I/O reads, and a screen page mirrored to the console. */
module Memory {
  import opened Bytes
  import opened Screen

  const VIC_RASTER: word := 0xD012
  const CIA1_PRB: word := 0xDC01
  const PAL_RASTER_LINES := 312
  const SCREEN_START: word := 0x0400
  const SCREEN_END: word := 0x07E7
  const SCREEN_COLS := 40

  type Ram = s: seq<byte> | |s| == 65536 witness seq(65536, _ => 0)
  type RasterLine = x: int | 0 <= x < PAL_RASTER_LINES

  datatype Mem = Mem(ram: Ram, raster: RasterLine, display: Display)

  /** The two addresses whose reads do not come from RAM. */
  predicate Io(addr: word) { addr == VIC_RASTER || addr == CIA1_PRB }

  predicate OnScreen(addr: word) { SCREEN_START <= addr <= SCREEN_END }

  function ScreenCodeToAscii(sc: byte): byte {
    var base := sc % 128;
    if base > 63 then 32
    else if base == 0 then 64
    else if base <= 26 then 65 + (base - 1)
    else if base == 27 then 91
    else if base == 28 then 32
    else if base == 29 then 93
    else if base == 30 then 94
    else if base == 31 then 60
    else base
  }

  /** Reading the raster register moves the beam one line on. */
  function AfterRead(m: Mem, addr: word): Mem {
    if addr == VIC_RASTER then m.(raster := (m.raster + 1) % PAL_RASTER_LINES) else m
  }

  function ReadValue(m: Mem, addr: word): byte {
    if addr == VIC_RASTER then (m.raster + 1) % PAL_RASTER_LINES % 256
    else if addr == CIA1_PRB then 255
    else m.ram[addr]
  }

  function Mirror(d: Display, addr: word, val: byte): Display {
    if OnScreen(addr) then
      var row, col := (addr - SCREEN_START) / SCREEN_COLS, (addr - SCREEN_START) % SCREEN_COLS;
      PutAt(d, row, col, ScreenCodeToAscii(val)).(hwCursor := HwCursorAt(row, col + 1))
    else d
  }

  function WriteByte(m: Mem, addr: word, val: byte): Mem {
    Mem(m.ram[addr := val], m.raster, Mirror(m.display, addr, val))
  }

  class C64Memory {
    const ram: array<byte>
    var rasterCounter: RasterLine
    const console: Console

    constructor (c: Console)
      requires c.Valid()
      ensures Valid() && console == c && fresh(ram) && fresh(this)
      ensures rasterCounter == 0 && forall a: word :: ram[a] == 0
    {
      ram := new byte[65536](_ => 0);
      rasterCounter := 0;
      console := c;
    }

    ghost function Repr(): set<object> { {this, ram, console, console.vga} }

    ghost predicate Valid()
      reads Repr()
    {
      (ram as object) != (console.vga as object) && ram.Length == 65536 && console.Valid()
    }

    ghost function Abs(): Mem
      requires Valid()
      reads Repr()
    {
      Mem(ram[..], rasterCounter, console.Abs())
    }

    method IoRead(addr: word) returns (val: byte)
      requires Valid()
      modifies this`rasterCounter
      ensures Valid() && Abs() == AfterRead(old(Abs()), addr) && val == ReadValue(old(Abs()), addr)
    {
      match addr
      case 0xD012 =>
        rasterCounter := (rasterCounter + 1) % PAL_RASTER_LINES;
        val := rasterCounter % 256;
      case 0xDC01 => val := 0xFF;
      case _ => val := ram[addr];
    }

    method Read(addr: word) returns (val: byte)
      requires Valid()
      modifies this`rasterCounter
      ensures Valid() && Abs() == AfterRead(old(Abs()), addr) && val == ReadValue(old(Abs()), addr)
    {
      if addr == VIC_RASTER || addr == CIA1_PRB {
        val := IoRead(addr);
      } else {
        val := ram[addr];
      }
    }

    method Write(addr: word, val: byte)
      requires Valid()
      modifies Repr()
      ensures Valid() && Abs() == WriteByte(old(Abs()), addr, val)
    {
      ram[addr] := val;
      if addr >= SCREEN_START && addr <= SCREEN_END {
        var offset := addr - SCREEN_START;
        var row, col := offset / SCREEN_COLS, offset % SCREEN_COLS;
        console.PutcharAt(row, col, ScreenCodeToAscii(val));
        console.SetHwCursor(row, col + 1);
      }
    }
  }
}
