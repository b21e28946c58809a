/** tools/build_disk.py: laying files out on a disk image. */
module DiskImage {
  import opened Wrappers
  import opened Bytes
  import opened FileSystem

  /** A file of the scanned directory, in sorted order: its name and its contents. */
  datatype File = File(name: string, data: seq<byte>)

  datatype BuildError =
    | TooManyFiles | NameTooLong(index: nat) | DiskTooSmall | NotAscii(index: nat) | FieldTooBig(index: nat)

  datatype Built = Image(bytes: seq<byte>) | Failed(error: BuildError)

  function Sectors(size: nat): nat { (size + SECTOR - 1) / SECTOR }

  /** The sector where file `i` starts; for i = |files|, the first one after them all. */
  function StartLba(files: seq<File>, i: nat): nat
    requires i <= |files|
  {
    if i == 0 then 1 else StartLba(files, i - 1) + Sectors(|files[i - 1].data|)
  }

  predicate Ascii(name: string) { forall i :: 0 <= i < |name| ==> name[i] < 128 as char }

  function Encoded(name: string): (s: seq<byte>)
    requires Ascii(name)
    ensures |s| == |name| && forall i :: 0 <= i < |s| ==> s[i] == name[i] as int
  {
    if name == [] then [] else Encoded(name[..|name| - 1]) + [name[|name| - 1] as int]
  }

  function Zeros(n: nat): (s: seq<byte>)
    ensures |s| == n && forall i :: 0 <= i < n ==> s[i] == 0
  {
    seq(n, _ => 0)
  }

  function NameBytes(name: string): Name
    requires Ascii(name) && |name| < FS_NAME_LEN
  {
    Encoded(name) + Zeros(FS_NAME_LEN - |name|)
  }

  function Packed(v: uint32): (s: seq<byte>)
    ensures |s| == 4 && LittleEndian(s, 0) == v
  {
    [v % 256, v / 0x100 % 256, v / 0x1_0000 % 256, v / 0x100_0000]
  }

  predicate Packable(files: seq<File>, i: nat)
    requires i < |files|
  {
    Ascii(files[i].name) && |files[i].name| < FS_NAME_LEN &&
    StartLba(files, i) < UINT32 && |files[i].data| < UINT32
  }

  function EntryBytes(files: seq<File>, i: nat): (s: seq<byte>)
    requires i < |files| && Packable(files, i)
    ensures |s| == ENTRY_LEN
  {
    NameBytes(files[i].name) + Packed(StartLba(files, i)) + Packed(|files[i].data|)
  }

  function AllEntries(files: seq<File>, n: nat): (s: seq<byte>)
    requires n <= |files| && forall i :: 0 <= i < n ==> Packable(files, i)
    ensures |s| == ENTRY_LEN * n
  {
    if n == 0 then [] else AllEntries(files, n - 1) + EntryBytes(files, n - 1)
  }

  function DirectorySector(files: seq<File>): (s: Sector)
    requires |files| <= FS_MAX_ENTRIES && forall i :: 0 <= i < |files| ==> Packable(files, i)
  {
    Packed(FS_MAGIC) + Packed(|files|) + AllEntries(files, |files|) + Zeros(SECTOR - 8 - ENTRY_LEN * |files|)
  }

  /** A file's data filled up to whole sectors. */
  function Padded(data: seq<byte>): (s: seq<byte>)
    ensures |s| == SECTOR * Sectors(|data|) && data <= s
  {
    data + Zeros((-|data|) % SECTOR)
  }

  function Body(files: seq<File>, n: nat): (s: seq<byte>)
    requires n <= |files|
    ensures |s| == SECTOR * (StartLba(files, n) - 1)
  {
    if n == 0 then [] else Body(files, n - 1) + Padded(files[n - 1].data)
  }

  const SECTORS_PER_MB := 2048

  /** What an image can be built from: few enough files, names and numbers that fit their fields, and room for all. */
  ghost predicate Fits(files: seq<File>, sizeMb: int) {
    && |files| <= FS_MAX_ENTRIES
    && (forall i :: 0 <= i < |files| ==> Packable(files, i))
    && StartLba(files, |files|) <= SECTORS_PER_MB * sizeMb
  }

  function ImageBytes(files: seq<File>, sizeMb: int): (s: seq<byte>)
    requires Fits(files, sizeMb)
    ensures |s| == SECTOR * SECTORS_PER_MB * sizeMb
  {
    var used := DirectorySector(files) + Body(files, |files|);
    used + Zeros(SECTOR * SECTORS_PER_MB * sizeMb - |used|)
  }

  // ----- The builder -----

  /** What the first loop records of a file. */
  datatype Planned = Planned(name: string, startLba: nat, length: nat)

  /** `dir` with `s` written from `at` on. */
  function Overwritten(dir: seq<byte>, at: nat, s: seq<byte>): seq<byte>
    requires at + |s| <= |dir|
  {
    dir[..at] + s + dir[at + |s|..]
  }

  method PackInto(dir: array<byte>, at: nat, s: seq<byte>)
    requires at + |s| <= dir.Length
    modifies dir
    ensures dir[..] == Overwritten(old(dir[..]), at, s)
  {
    for j := 0 to |s|
      invariant forall k :: 0 <= k < dir.Length ==>
                  dir[k] == if at <= k < at + j then s[k - at] else old(dir[k])
    {
      dir[at + j] := s[j];
    }
  }

  /** Whether every character is ASCII, as `encode('ascii')` finds out. */
  method CheckAscii(name: string) returns (ok: bool)
    ensures ok == Ascii(name)
  {
    for i := 0 to |name|
      invariant forall k :: 0 <= k < i ==> name[k] < 128 as char
    {
      if name[i] >= 128 as char { return false; }
    }
    return true;
  }

  predicate ShortName(f: File) { |f.name| < FS_NAME_LEN }

  ghost predicate FirstLong(files: seq<File>, i: int) {
    0 <= i < |files| && !ShortName(files[i]) && forall j :: 0 <= j < i ==> ShortName(files[j])
  }

  function Plans(files: seq<File>, n: nat): (entries: seq<Planned>)
    requires n <= |files|
    ensures |entries| == n
    ensures forall i :: 0 <= i < n ==> entries[i] == Planned(files[i].name, StartLba(files, i), |files[i].data|)
  {
    if n == 0 then []
    else Plans(files, n - 1) + [Planned(files[n - 1].name, StartLba(files, n - 1), |files[n - 1].data|)]
  }

  /** The first loop: name lengths and extents. */
  method Plan(files: seq<File>) returns (entries: seq<Planned>, long: Option<nat>, total: nat)
    ensures long.Some? ==> FirstLong(files, long.value)
    ensures long.None? ==> forall i :: 0 <= i < |files| ==> ShortName(files[i])
    ensures long.None? ==> total == StartLba(files, |files|) && entries == Plans(files, |files|)
  {
    entries, long, total := [], None, 1;
    for i := 0 to |files|
      invariant total == StartLba(files, i) && entries == Plans(files, i)
      invariant forall j :: 0 <= j < i ==> ShortName(files[j])
    {
      if |files[i].name| > FS_NAME_LEN - 1 {
        return entries, Some(i), total;
      }
      entries := entries + [Planned(files[i].name, total, |files[i].data|)];
      total := total + (|files[i].data| + SECTOR - 1) / SECTOR;
    }
  }

  ghost predicate FirstUnpackable(files: seq<File>, i: int) {
    0 <= i < |files| && !Packable(files, i) && forall j :: 0 <= j < i ==> Packable(files, j)
  }

  /** What packing complains of: the first entry that cannot be packed, and its name before its numbers. */
  ghost predicate Complains(files: seq<File>, error: BuildError) {
    match error
    case NotAscii(i) => FirstUnpackable(files, i) && !Ascii(files[i].name)
    case FieldTooBig(i) =>
      FirstUnpackable(files, i) && Ascii(files[i].name) && (StartLba(files, i) >= UINT32 || |files[i].data| >= UINT32)
    case _ => false
  }

  /** The directory after `n` entries: header, entries, and the zeros it started with. */
  function PartialDirectory(files: seq<File>, n: nat): (s: Sector)
    requires n <= |files| <= FS_MAX_ENTRIES && forall i :: 0 <= i < n ==> Packable(files, i)
  {
    Packed(FS_MAGIC) + Packed(|files|) + AllEntries(files, n) + Zeros(SECTOR - 8 - ENTRY_LEN * n)
  }

  lemma OneMoreEntry(files: seq<File>, n: nat)
    requires n < |files| <= FS_MAX_ENTRIES && forall i :: 0 <= i <= n ==> Packable(files, i)
    ensures Overwritten(PartialDirectory(files, n), 8 + ENTRY_LEN * n, EntryBytes(files, n))
         == PartialDirectory(files, n + 1)
  {
    hide EntryBytes, Packed;
  }

  lemma HeaderPacked(files: seq<File>)
    requires |files| <= FS_MAX_ENTRIES
    ensures Overwritten(Zeros(SECTOR), 0, Packed(FS_MAGIC) + Packed(|files|)) == PartialDirectory(files, 0)
  {
    hide Packed;
  }

  /** One turn of the directory loop: encode, pad and pack an entry, or say why it cannot be. */
  method PackEntry(dir: array<byte>, files: seq<File>, i: nat, e: Planned) returns (bad: Option<BuildError>)
    requires i < |files| <= FS_MAX_ENTRIES && ShortName(files[i])
    requires e == Planned(files[i].name, StartLba(files, i), |files[i].data|)
    requires (forall j :: 0 <= j < i ==> Packable(files, j)) && dir[..] == PartialDirectory(files, i)
    modifies dir
    ensures bad.None? ==> Packable(files, i) && dir[..] == PartialDirectory(files, i + 1)
    ensures bad.Some? ==> Complains(files, bad.value)
  {
    var ascii := CheckAscii(e.name);
    if !ascii { return Some(NotAscii(i)); }
    if e.startLba >= UINT32 || e.length >= UINT32 { return Some(FieldTooBig(i)); }
    hide AllEntries, NameBytes, Packed, Overwritten, PartialDirectory;
    PackInto(dir, 8 + ENTRY_LEN * i, NameBytes(e.name) + Packed(e.startLba) + Packed(e.length));
    OneMoreEntry(files, i);
    return None;
  }

  method StartDirectory(files: seq<File>) returns (dir: array<byte>)
    requires |files| <= FS_MAX_ENTRIES
    ensures fresh(dir) && dir[..] == PartialDirectory(files, 0)
  {
    dir := new byte[SECTOR](_ => 0);
    assert dir[..] == Zeros(SECTOR);
    PackInto(dir, 0, Packed(FS_MAGIC) + Packed(|files|));
    HeaderPacked(files);
    hide Packed, Overwritten, PartialDirectory;
  }

  /** The directory loop, stopping at the first entry that cannot be packed. */
  method PackDirectory(files: seq<File>, entries: seq<Planned>) returns (dir: array<byte>, bad: Option<BuildError>)
    requires |files| <= FS_MAX_ENTRIES && entries == Plans(files, |files|)
    requires forall i :: 0 <= i < |files| ==> ShortName(files[i])
    ensures fresh(dir)
    ensures bad.None? ==> (forall i :: 0 <= i < |files| ==> Packable(files, i)) && dir[..] == DirectorySector(files)
    ensures bad.Some? ==> Complains(files, bad.value)
  {
    hide PartialDirectory, DirectorySector, Packable, StartLba, Complains, Plans;
    dir := StartDirectory(files);
    bad := None;
    for i := 0 to |entries|
      invariant fresh(dir) && bad.None?
      invariant forall j :: 0 <= j < i ==> Packable(files, j)
      invariant dir[..] == PartialDirectory(files, i)
    {
      bad := PackEntry(dir, files, i, entries[i]);
      if bad.Some? { return; }
    }
    AllPacked(files);
  }

  lemma AllPacked(files: seq<File>)
    requires |files| <= FS_MAX_ENTRIES && forall i :: 0 <= i < |files| ==> Packable(files, i)
    ensures PartialDirectory(files, |files|) == DirectorySector(files)
  {}

  /** The file loop: each file's data, filled up to whole sectors, behind what is written already. */
  method WriteFiles(files: seq<File>, dir: seq<byte>) returns (out: seq<byte>)
    ensures out == dir + Body(files, |files|)
  {
    out := dir;
    for i := 0 to |files|
      invariant out == dir + Body(files, i)
    {
      var data := files[i].data;
      var pad := (-|data|) % SECTOR;
      out := out + data + Zeros(pad);
      assert out == dir + (Body(files, i) + Padded(data));
    }
  }

  /** What each complaint says, and that none of the earlier ones applied. */
  ghost predicate Explains(files: seq<File>, sizeMb: int, error: BuildError) {
    match error
    case TooManyFiles => |files| > FS_MAX_ENTRIES
    case NameTooLong(i) => |files| <= FS_MAX_ENTRIES && FirstLong(files, i)
    case DiskTooSmall => Named(files) && StartLba(files, |files|) > SECTORS_PER_MB * sizeMb
    case NotAscii(_) => Laid(files, sizeMb) && Complains(files, error)
    case FieldTooBig(_) => Laid(files, sizeMb) && Complains(files, error)
  }

  /** What the first loop lets pass. */
  ghost predicate Named(files: seq<File>) {
    |files| <= FS_MAX_ENTRIES && forall i :: 0 <= i < |files| ==> ShortName(files[i])
  }

  /** What the check of the disk's size lets pass. */
  ghost predicate Laid(files: seq<File>, sizeMb: int) {
    Named(files) && StartLba(files, |files|) <= SECTORS_PER_MB * sizeMb
  }

  /** Of all complaints just one can be the builder's, and none when the files fit. */
  lemma OneComplaint(files: seq<File>, sizeMb: int, e: BuildError, e': BuildError)
    requires Explains(files, sizeMb, e)
    ensures Explains(files, sizeMb, e') ==> e == e'
    ensures !Fits(files, sizeMb)
  {
    hide Ascii, StartLba;
    match e
    case NameTooLong(i) => assert !Packable(files, i);
    case NotAscii(i) => assert !Packable(files, i);
    case FieldTooBig(i) => assert !Packable(files, i);
    case _ =>
  }

  /** The whole builder: an image exactly when the files fit, or the first complaint in the order they are made. */
  method Build(files: seq<File>, sizeMb: int) returns (r: Built)
    ensures r.Image? <==> Fits(files, sizeMb)
    ensures r.Image? ==> r.bytes == ImageBytes(files, sizeMb)
    ensures r.Failed? ==> Explains(files, sizeMb, r.error)
  {
    if |files| > FS_MAX_ENTRIES { return Failed(TooManyFiles); }
    var entries, long, total := Plan(files);
    if long.Some? {
      assert !Packable(files, long.value);
      return Failed(NameTooLong(long.value));
    }
    var diskSizeBytes := sizeMb * 1024 * 1024;
    var diskSizeSectors := diskSizeBytes / SECTOR;
    assert diskSizeSectors == SECTORS_PER_MB * sizeMb;
    if total > diskSizeSectors { return Failed(DiskTooSmall); }
    var dir, bad := PackDirectory(files, entries);
    if bad.Some? { return Failed(bad.value); }
    hide DirectorySector, Body;
    var out := WriteFiles(files, dir[..]);
    var remaining := diskSizeBytes - |out|;
    if remaining > 0 {
      out := out + Zeros(remaining);
    }
    assert out == ImageBytes(files, sizeMb);
    return Image(out);
  }
}
