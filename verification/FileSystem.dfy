/** kernel/fs.c over a disk of 512-byte sectors, any of which may fail to read. */
module FileSystem {
  import opened Wrappers
  import opened Bytes
  import opened Numbers
  import opened CStrings

  const FS_MAGIC: uint32 := 0x43444653
  const FS_MAX_ENTRIES := 21
  const FS_NAME_LEN := 16
  const ENTRY_LEN := 24
  const SECTOR := 512

  type Sector = s: seq<byte> | |s| == SECTOR witness seq(SECTOR, _ => 0)
  type Name = s: seq<byte> | |s| == FS_NAME_LEN witness seq(FS_NAME_LEN, _ => 0)

  /** A disk: each sector's contents, or None where reading fails. */
  datatype Disk = Disk(sectors: seq<Option<Sector>>)

  function ReadSector(disk: Disk, lba: uint32): Option<Sector> {
    if lba < |disk.sectors| then disk.sectors[lba] else None
  }

  datatype Entry = Entry(name: Name, startLba: uint32, length: uint32)

  function LittleEndian(s: seq<byte>, at: nat): uint32
    requires at + 4 <= |s|
  {
    var b0: int, b1: int, b2: int, b3: int := s[at], s[at + 1], s[at + 2], s[at + 3];
    b0 + 0x100 * b1 + 0x1_0000 * b2 + 0x100_0000 * b3
  }

  /** The packed directory entry `i` of sector 0. */
  function EntryAt(s: Sector, i: nat): Entry
    requires i < FS_MAX_ENTRIES
  {
    var at := 8 + ENTRY_LEN * i;
    Entry(s[at..at + FS_NAME_LEN], LittleEndian(s, at + FS_NAME_LEN), LittleEndian(s, at + FS_NAME_LEN + 4))
  }

  function EntryCount(count: uint32): nat { if count < FS_MAX_ENTRIES then count else FS_MAX_ENTRIES }

  function Entries(s: Sector): (es: seq<Entry>)
    ensures |es| == EntryCount(LittleEndian(s, 4))
    ensures forall i :: 0 <= i < |es| ==> es[i] == EntryAt(s, i)
  {
    seq(EntryCount(LittleEndian(s, 4)), i requires 0 <= i < FS_MAX_ENTRIES => EntryAt(s, i))
  }

  /** An entry's name and a query agree but for case, over the sixteen characters compared. */
  predicate Matches(e: Entry, name: CString) {
    SameButCase(Prefix(Contents(e.name), FS_NAME_LEN), Prefix(name, FS_NAME_LEN))
  }

  /** Entry `k` matches and none before it does. */
  ghost predicate FirstMatch(es: seq<Entry>, name: CString, k: int) {
    0 <= k < |es| && Matches(es[k], name) && forall j :: 0 <= j < k ==> !Matches(es[j], name)
  }

  function SectorsNeeded(length: uint32): nat { (length + 511) % UINT32 / SECTOR }

  /** `(int)v` of a 32-bit value. */
  function AsInt(v: uint32): int { if v < 0x8000_0000 then v else v - UINT32 }

  /** The first `k` sectors from `start`, or None when one of them cannot be read. */
  function Extent(disk: Disk, start: uint32, k: nat): (r: Option<seq<byte>>)
    ensures r.Some? ==> |r.value| == SECTOR * k
  {
    if k == 0 then Some([])
    else
      var init, last := Extent(disk, start, k - 1), ReadSector(disk, (start + (k - 1)) % UINT32);
      if init.Some? && last.Some? then Some(init.value + last.value) else None
  }

  /** How many bytes a read that meets no error delivers: an entry longer than 2^32 - 512 counts as no sectors. */
  function Delivered(length: uint32, maxLen: uint32): nat {
    if SectorsNeeded(length) == 0 then 0 else Min(length, maxLen)
  }

  /** How many sectors such a read asks for. */
  function Touched(length: uint32, maxLen: uint32): nat {
    if SectorsNeeded(length) == 0 then 0
    else if maxLen == 0 then 1
    else (Min(length, maxLen) + 511) / SECTOR
  }

  lemma SectorsNeededCovers(length: uint32)
    ensures length <= UINT32 - SECTOR ==> SectorsNeeded(length) == (length + 511) / SECTOR
    ensures length > UINT32 - SECTOR ==> SectorsNeeded(length) == 0
    ensures length <= UINT32 - SECTOR ==> (SectorsNeeded(length) == 0 <==> length == 0)
  {}

  lemma TouchedBounds(length: uint32, maxLen: uint32)
    ensures Touched(length, maxLen) <= SectorsNeeded(length)
    ensures Delivered(length, maxLen) <= SECTOR * Touched(length, maxLen)
  {}

  /** A read asks for just as many sectors as hold what it delivers; for an empty buffer, for the first one in vain. */
  lemma TouchedLaw(length: uint32, maxLen: uint32)
    ensures var t, n := Touched(length, maxLen), Delivered(length, maxLen);
      if n > 0 then 512 * (t - 1) < n <= 512 * t
      else t == if maxLen == 0 && 0 < length <= 0xFFFF_FE00 then 1 else 0
  {
    SectorsNeededCovers(length);
  }

  /** Four bytes as a number, low byte first. */
  function LowFirst(b0: int, b1: int, b2: int, b3: int): int { b0 + 0x100 * b1 + 0x1_0000 * b2 + 0x100_0000 * b3 }

  /** The bytes of a directory entry: sixteen of the name, four of the sector and four of the length, low byte first. */
  lemma EntryLaw(s: Sector, i: nat)
    requires i < 21
    ensures var e, at := EntryAt(s, i), 8 + 24 * i;
      && e.name == s[at..at + 16]
      && e.startLba == LowFirst(s[at + 16], s[at + 17], s[at + 18], s[at + 19])
      && e.length == LowFirst(s[at + 20], s[at + 21], s[at + 22], s[at + 23])
  {}

  class FileStore {
    var magic: uint32
    var entryCount: uint32
    const entries: array<Entry>
    var mounted: bool

    constructor ()
      ensures Valid() && !mounted && fresh(entries)
    {
      var blank := Entry(seq(FS_NAME_LEN, _ => 0), 0, 0);
      magic, entryCount, mounted := 0, 0, false;
      entries := new Entry[FS_MAX_ENTRIES](_ => blank);
    }

    ghost predicate Valid() { entries.Length == FS_MAX_ENTRIES }

    /** The directory as lookups see it. */
    ghost function Directory(): seq<Entry>
      requires Valid()
      reads this, entries
    {
      if mounted then entries[..EntryCount(entryCount)] else []
    }

    method Mount(disk: Disk) returns (r: int)
      requires Valid()
      modifies this, entries
      ensures match ReadSector(disk, 0)
              case None => r == -1 && !mounted && Directory() == []
              case Some(s) =>
                if LittleEndian(s, 0) != FS_MAGIC then r == -2 && !mounted && Directory() == []
                else r == 0 && mounted && Directory() == Entries(s) && |Directory()| == Min(LittleEndian(s, 4), 21)
    {
      var sector := ReadSector(disk, 0);
      if sector.None? {
        mounted := false;
        return -1;
      }
      var s := sector.value;
      if LittleEndian(s, 0) != FS_MAGIC {
        mounted := false;
        return -2;
      }
      magic := LittleEndian(s, 0);
      entryCount := LittleEndian(s, 4);
      var i := 0;
      while i < entryCount && i < FS_MAX_ENTRIES
        invariant 0 <= i <= EntryCount(entryCount) && entryCount == LittleEndian(s, 4)
        invariant forall k :: 0 <= k < i ==> entries[k] == EntryAt(s, k)
      {
        entries[i] := EntryAt(s, i);
        i := i + 1;
      }
      mounted := true;
      return 0;
    }

    /** The first entry whose name matches, if any. */
    method Find(name: CString) returns (r: Option<Entry>)
      requires Valid()
      ensures r.None? <==> forall k :: 0 <= k < |Directory()| ==> !Matches(Directory()[k], name)
      ensures r.Some? ==> exists k :: FirstMatch(Directory(), name, k) && r.value == Directory()[k]
    {
      if !mounted { return None; }
      var i := 0;
      while i < entryCount && i < FS_MAX_ENTRIES
        invariant 0 <= i <= EntryCount(entryCount)
        invariant forall j :: 0 <= j < i ==> !Matches(Directory()[j], name)
      {
        var order := NCaseCompare(entries[i].name, name, FS_NAME_LEN);
        if order == 0 {
          assert Directory()[i] == entries[i] && FirstMatch(Directory(), name, i);
          return Some(entries[i]);
        }
        i := i + 1;
      }
      return None;
    }

    /** The entries the callback is given, in order, or None before a mount. */
    method List() returns (r: Option<seq<Entry>>)
      requires Valid()
      ensures r == if mounted then Some(Directory()) else None
    {
      if !mounted { return None; }
      var seen: seq<Entry> := [];
      var i := 0;
      while i < entryCount && i < FS_MAX_ENTRIES
        invariant 0 <= i <= EntryCount(entryCount) && seen == entries[..i]
      {
        seen := seen + [entries[i]];
        i := i + 1;
      }
      return Some(seen);
    }
  }

  /** The sector numbers a read of `k` sectors from `start` asks for. */
  function Asked(start: uint32, k: nat): (lbas: seq<uint32>)
    ensures |lbas| == k && forall i :: 0 <= i < k ==> lbas[i] == (start + i) % UINT32
  {
    if k == 0 then [] else Asked(start, k - 1) + [(start + (k - 1)) % UINT32]
  }

  lemma {:induction false} ExtentFails(disk: Disk, start: uint32, k: nat, t: nat)
    requires Extent(disk, start, k).None? && k <= t
    ensures Extent(disk, start, t).None?
    decreases t - k
  {
    if k < t {
      ExtentFails(disk, start, k + 1, t);
    }
  }

  /** A buffer that was `was` now starts with the first `n` of `bytes` and goes on as it was. */
  ghost predicate Filled(now: seq<byte>, was: seq<byte>, bytes: seq<byte>, n: nat) {
    && n <= |bytes| && n <= |now| == |was|
    && (forall k :: 0 <= k < n ==> now[k] == bytes[k])
    && (forall k :: n <= k < |now| ==> now[k] == was[k])
  }

  /** Where a read stands before sector `i`, and whether the chunk that follows is its last. */
  lemma ChunkArithmetic(length: uint32, maxLen: uint32, i: nat)
    requires i < SectorsNeeded(length) && (i > 0 ==> SECTOR * i < maxLen)
    ensures SECTOR * i < length && i < Touched(length, maxLen)
    ensures var end := Min(SECTOR * (i + 1), length);
      if end >= maxLen then Touched(length, maxLen) == i + 1 && Delivered(length, maxLen) == maxLen
      else i + 1 == SectorsNeeded(length) ==>
             end == length == Delivered(length, maxLen) && Touched(length, maxLen) == i + 1
  {
    SectorsNeededCovers(length);
  }

  /** One more sector read, or the first that cannot be. */
  lemma ExtentGrows(disk: Disk, start: uint32, k: nat)
    requires Extent(disk, start, k).Some?
    ensures Asked(start, k + 1) == Asked(start, k) + [(start + k) % UINT32]
    ensures var sector, next := ReadSector(disk, (start + k) % UINT32), Extent(disk, start, k + 1);
      if sector.Some? then next == Some(Extent(disk, start, k).value + sector.value) else next.None?
  {}

  lemma NothingRead(disk: Disk, start: uint32)
    ensures Extent(disk, start, 0) == Some([]) && Asked(start, 0) == []
  {}

  lemma NoChunks(length: uint32, maxLen: uint32)
    ensures SectorsNeeded(length) == 0 ==> Touched(length, maxLen) == 0 && Delivered(length, maxLen) == 0
  {}

  lemma FillNothing(was: seq<byte>)
    ensures Filled(was, was, [], 0)
  {}

  /** Copies `chunk` bytes of a sector behind the `bytes` already in the buffer. */
  method CopyChunk(buffer: array<byte>, sector: Sector, chunk: nat,
                   ghost was: seq<byte>, ghost bytes: seq<byte>, at: nat)
    requires chunk <= SECTOR && at + chunk <= buffer.Length
    requires |bytes| == at && Filled(buffer[..], was, bytes, at)
    modifies buffer
    ensures Filled(buffer[..], was, bytes + sector, at + chunk)
  {
    for j := 0 to chunk
      invariant Filled(buffer[..], was, bytes + sector, at + j)
    {
      buffer[at + j] := sector[j];
    }
  }

  /** Copies what the file and the buffer have room for of sector `i`. */
  method CopySector(buffer: array<byte>, sector: Sector, length: uint32, maxLen: uint32, i: nat, copied: nat,
                    ghost was: seq<byte>, ghost bytes: seq<byte>)
    returns (total: nat)
    requires maxLen <= buffer.Length && copied == SECTOR * i < length && copied <= maxLen
    requires |bytes| == copied && Filled(buffer[..], was, bytes, copied)
    modifies buffer
    ensures total == Min(Min(SECTOR * (i + 1), length), maxLen)
    ensures Filled(buffer[..], was, bytes + sector, total)
  {
    hide Filled;
    var remaining := length - copied;
    var chunk := if remaining < SECTOR then remaining else SECTOR;
    if copied + chunk > maxLen {
      chunk := maxLen - copied;
    }
    CopyChunk(buffer, sector, chunk, was, bytes, copied);
    total := copied + chunk;
  }

  /** fs_read_file. When every sector asked for can be read, it fills the buffer with the file's first bytes and says
      how many; otherwise it stops at the first failure, with the whole sectors before it copied. `asked` records
      the sectors requested. */
  method ReadFile(entry: Entry, buffer: array<byte>, maxLen: uint32, disk: Disk)
    returns (r: int, ghost asked: seq<uint32>)
    requires maxLen <= buffer.Length
    modifies buffer
    ensures var t := Touched(entry.length, maxLen); var n := Delivered(entry.length, maxLen);
      match Extent(disk, entry.startLba, t)
      case Some(bytes) =>
        r == AsInt(n) && asked == Asked(entry.startLba, t) && Filled(buffer[..], old(buffer[..]), bytes, n)
      case None =>
        r == -1 &&
        exists k :: 0 <= k < t && asked == Asked(entry.startLba, k + 1) &&
          ReadSector(disk, (entry.startLba + k) % UINT32).None? && Extent(disk, entry.startLba, k).Some? &&
          Filled(buffer[..], old(buffer[..]), Extent(disk, entry.startLba, k).value, SECTOR * k)
  {
    var sectorsNeeded := (entry.length + 511) % UINT32 / SECTOR;
    assert sectorsNeeded == SectorsNeeded(entry.length);
    NoChunks(entry.length, maxLen);
    ghost var was := buffer[..];
    FillNothing(buffer[..]);
    NothingRead(disk, entry.startLba);
    hide Touched, Delivered, SectorsNeeded, AsInt, Filled, Extent, Asked, ReadSector;
    var bytesCopied := 0;
    var i := 0;
    asked := [];
    while i < sectorsNeeded
      invariant 0 <= i <= sectorsNeeded && bytesCopied == Min(SECTOR * i, entry.length)
      invariant i > 0 ==> bytesCopied < maxLen
      invariant i == sectorsNeeded ==>
                  i == Touched(entry.length, maxLen) && bytesCopied == Delivered(entry.length, maxLen)
      invariant asked == Asked(entry.startLba, i) && Extent(disk, entry.startLba, i).Some?
      invariant Filled(buffer[..], was, Extent(disk, entry.startLba, i).value, bytesCopied)
    {
      ghost var t := Touched(entry.length, maxLen);
      ChunkArithmetic(entry.length, maxLen, i);
      ExtentGrows(disk, entry.startLba, i);
      var sector := ReadSector(disk, (entry.startLba + i) % UINT32);
      asked := asked + [(entry.startLba + i) % UINT32];
      if sector.None? {
        ExtentFails(disk, entry.startLba, i + 1, t);
        return -1, asked;
      }
      bytesCopied := CopySector(buffer, sector.value, entry.length, maxLen, i, bytesCopied, was,
                                Extent(disk, entry.startLba, i).value);
      i := i + 1;
      if bytesCopied >= maxLen {
        assert i == t && bytesCopied == Delivered(entry.length, maxLen);
        break;
      }
    }
    assert i == Touched(entry.length, maxLen) && bytesCopied == Delivered(entry.length, maxLen);
    return AsInt(bytesCopied), asked;
  }
}
