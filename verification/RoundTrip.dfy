/** From the image builder to the kernel's file system and back. */
module RoundTrip {
  import opened Wrappers
  import opened Bytes
  import opened Numbers
  import opened CStrings
  import opened FileSystem
  import opened DiskImage

  /** An image as the disk driver sees it, every sector readable. */
  function Cut(image: seq<byte>, n: nat): (sectors: seq<Option<Sector>>)
    requires SECTOR * n <= |image|
    ensures |sectors| == n
    ensures forall i :: 0 <= i < n ==> sectors[i] == Some(image[SECTOR * i..SECTOR * i + SECTOR])
  {
    if n == 0 then [] else Cut(image, n - 1) + [Some(image[SECTOR * (n - 1)..SECTOR * (n - 1) + SECTOR])]
  }

  function DiskOf(image: seq<byte>): Disk { Disk(Cut(image, |image| / SECTOR)) }

  // ----- The directory -----

  lemma {:induction false} EntrySlice(files: seq<File>, n: nat, i: nat)
    requires i < n <= |files| && forall k :: 0 <= k < n ==> Packable(files, k)
    ensures AllEntries(files, n)[ENTRY_LEN * i..ENTRY_LEN * i + ENTRY_LEN] == EntryBytes(files, i)
  {
    hide EntryBytes;
    if i < n - 1 {
      EntrySlice(files, n - 1, i);
      assert AllEntries(files, n)[ENTRY_LEN * i..ENTRY_LEN * i + ENTRY_LEN]
          == AllEntries(files, n - 1)[ENTRY_LEN * i..ENTRY_LEN * i + ENTRY_LEN];
    }
  }

  lemma LittleEndianSlice(s: seq<byte>, at: nat, n: nat, k: nat)
    requires at + n <= |s| && k + 4 <= n
    ensures LittleEndian(s, at + k) == LittleEndian(s[at..at + n], k)
  {}

  lemma EntryReads(files: seq<File>, i: nat)
    requires i < |files| && Packable(files, i)
    ensures var e := EntryBytes(files, i);
      && e[..FS_NAME_LEN] == NameBytes(files[i].name)
      && LittleEndian(e, FS_NAME_LEN) == StartLba(files, i)
      && LittleEndian(e, FS_NAME_LEN + 4) == |files[i].data|
  {
    var name, lba, len := NameBytes(files[i].name), Packed(StartLba(files, i)), Packed(|files[i].data|);
    var e := EntryBytes(files, i);
    assert e == name + lba + len;
    assert e[16..20] == lba && e[20..24] == len;
    LittleEndianSlice(e, 16, 4, 0);
    LittleEndianSlice(e, 20, 4, 0);
    hide LittleEndian, Packed, NameBytes;
  }

  /** The directory entry that describes file `i`. */
  function EntryOf(files: seq<File>, i: nat): Entry
    requires i < |files| && Packable(files, i)
  {
    Entry(NameBytes(files[i].name), StartLba(files, i), |files[i].data|)
  }

  ghost predicate AllPackable(files: seq<File>) { forall i :: 0 <= i < |files| ==> Packable(files, i) }

  lemma DirectorySlice(files: seq<File>, i: nat)
    requires |files| <= FS_MAX_ENTRIES && AllPackable(files) && i < |files|
    ensures var at := 8 + ENTRY_LEN * i;
      DirectorySector(files)[at..at + ENTRY_LEN] == EntryBytes(files, i)
  {
    EntrySlice(files, |files|, i);
    hide EntryBytes, Packed, AllEntries;
    var at, all := 8 + ENTRY_LEN * i, AllEntries(files, |files|);
    assert DirectorySector(files)[at..at + ENTRY_LEN] == all[ENTRY_LEN * i..ENTRY_LEN * i + ENTRY_LEN];
  }

  lemma EntrySliceReads(s: Sector, i: nat)
    requires i < FS_MAX_ENTRIES
    ensures var at := 8 + ENTRY_LEN * i; var e := s[at..at + ENTRY_LEN];
      EntryAt(s, i) ==
      Entry(e[..FS_NAME_LEN], LittleEndian(e, FS_NAME_LEN), LittleEndian(e, FS_NAME_LEN + 4))
  {
    var at := 8 + ENTRY_LEN * i;
    LittleEndianSlice(s, at, ENTRY_LEN, FS_NAME_LEN);
    LittleEndianSlice(s, at, ENTRY_LEN, FS_NAME_LEN + 4);
    hide LittleEndian;
  }

  lemma EntryFound(files: seq<File>, i: nat)
    requires |files| <= FS_MAX_ENTRIES && AllPackable(files) && i < |files|
    ensures EntryAt(DirectorySector(files), i) == EntryOf(files, i)
  {
    hide EntryBytes, DirectorySector, LittleEndian, EntryAt, NameBytes, Packable;
    DirectorySlice(files, i);
    EntrySliceReads(DirectorySector(files), i);
    EntryReads(files, i);
  }

  lemma HeaderReads(files: seq<File>)
    requires |files| <= FS_MAX_ENTRIES && AllPackable(files)
    ensures LittleEndian(DirectorySector(files), 0) == FS_MAGIC
    ensures LittleEndian(DirectorySector(files), 4) == |files|
  {
    var s := DirectorySector(files);
    hide LittleEndian, Packed, AllEntries;
    assert s[0..4] == Packed(FS_MAGIC) && s[4..8] == Packed(|files|);
    LittleEndianSlice(s, 0, 4, 0);
    LittleEndianSlice(s, 4, 4, 0);
  }

  /** The sector the builder writes is the directory the kernel reads. */
  lemma DirectoryReads(files: seq<File>)
    requires |files| <= FS_MAX_ENTRIES && AllPackable(files)
    ensures var s := DirectorySector(files);
      && LittleEndian(s, 0) == FS_MAGIC && |Entries(s)| == |files|
      && forall i :: 0 <= i < |files| ==> Entries(s)[i] == EntryOf(files, i)
  {
    hide LittleEndian, EntryAt, DirectorySector, EntryOf, Packable;
    HeaderReads(files);
    forall i | 0 <= i < |files|
      ensures EntryAt(DirectorySector(files), i) == EntryOf(files, i)
    {
      EntryFound(files, i);
    }
  }

  // ----- Names -----

  /** File names hold no NUL: the operating system has none such. */
  predicate NulFree(name: string) { forall i :: 0 <= i < |name| ==> name[i] != 0 as char }

  lemma {:induction false} ContentsOfPadded(s: seq<byte>, n: nat)
    requires 0 !in s && n > 0
    ensures Contents(s + Zeros(n)) == s
  {
    if s == [] {
      assert (s + Zeros(n))[0] == 0;
    } else {
      assert s[0] in s;
      assert (s + Zeros(n))[1..] == s[1..] + Zeros(n);
      ContentsOfPadded(s[1..], n);
    }
  }

  lemma EncodedNulFree(name: string)
    requires Ascii(name) && NulFree(name)
    ensures 0 !in Encoded(name)
  {
    forall i | 0 <= i < |name|
      ensures Encoded(name)[i] != 0
    {}
  }

  /** A lookup matches a built entry exactly when the names agree but for case. */
  lemma LookupMatches(files: seq<File>, i: nat, query: CString)
    requires i < |files| && Packable(files, i) && NulFree(files[i].name)
    ensures Matches(EntryOf(files, i), query) <==> SameButCase(Encoded(files[i].name), query)
  {
    var name := Encoded(files[i].name);
    EncodedNulFree(files[i].name);
    ContentsOfPadded(name, FS_NAME_LEN - |name|);
    assert Contents(EntryOf(files, i).name) == name;
    assert Prefix(name, FS_NAME_LEN) == name;
    if |query| > FS_NAME_LEN {
      assert |Prefix(query, FS_NAME_LEN)| == FS_NAME_LEN;
    }
  }

  // ----- The bytes on the disk -----

  /** The header: the letters SFDC, and the number of files. */
  lemma HeaderBytes(files: seq<File>)
    requires |files| <= FS_MAX_ENTRIES && AllPackable(files)
    ensures DirectorySector(files)[..8] == [0x53, 0x46, 0x44, 0x43, |files|, 0, 0, 0]
  {
    hide AllEntries;
  }

  /** What the builder writes of file `i`: its name filled up with zeros to sixteen bytes, its first sector and its
      length, low byte first. */
  lemma EntryBytesLaw(files: seq<File>, i: nat)
    requires |files| <= FS_MAX_ENTRIES && AllPackable(files) && i < |files|
    ensures var s, at, name := DirectorySector(files), 8 + 24 * i, files[i].name;
      && |name| <= 15
      && (forall k :: 0 <= k < 16 ==> s[at + k] == if k < |name| then name[k] as int else 0)
      && StartLba(files, i) == LowFirst(s[at + 16], s[at + 17], s[at + 18], s[at + 19])
      && |files[i].data| == LowFirst(s[at + 20], s[at + 21], s[at + 22], s[at + 23])
  {
    var s, at, name := DirectorySector(files), 8 + 24 * i, files[i].name;
    assert Packable(files, i);
    EntryFound(files, i);
    EntryLaw(s, i);
    hide DirectorySector, EntryAt, StartLba, Packable;
    forall k | 0 <= k < 16
      ensures s[at + k] == if k < |name| then name[k] as int else 0
    {
      assert s[at + k] == s[at..at + 16][k];
    }
  }

  /** Behind the last entry the directory sector is zero. */
  lemma DirectoryTail(files: seq<File>, k: nat)
    requires |files| <= FS_MAX_ENTRIES && AllPackable(files) && 8 + 24 * |files| <= k < 512
    ensures DirectorySector(files)[k] == 0
  {
    hide AllEntries, Packed;
  }

  /** The image is zero from the end of a file to the end of its last sector, and behind the last file. */
  lemma ImageIsZeroBetween(files: seq<File>, sizeMb: int, k: nat)
    requires Fits(files, sizeMb) && k < |ImageBytes(files, sizeMb)|
    ensures 512 * StartLba(files, |files|) <= k ==> ImageBytes(files, sizeMb)[k] == 0
    ensures forall i :: 0 <= i < |files| ==>
              512 * StartLba(files, i) + |files[i].data| <= k < 512 * StartLba(files, i + 1) ==>
                ImageBytes(files, sizeMb)[k] == 0
  {
    forall i | 0 <= i < |files| && 512 * StartLba(files, i) + |files[i].data| <= k < 512 * StartLba(files, i + 1)
      ensures ImageBytes(files, sizeMb)[k] == 0
    {
      FileInImage(files, sizeMb, i);
      var image, at, data := ImageBytes(files, sizeMb), 512 * StartLba(files, i), Padded(files[i].data);
      assert image[at..at + |data|][k - at] == data[k - at];
      hide ImageBytes;
    }
    hide DirectorySector, Body;
  }

  // ----- Extents -----

  /** Extents follow one another from sector 1 without gap or overlap, inside the image. */
  lemma {:induction false} ExtentsInOrder(files: seq<File>, i: nat, j: nat)
    requires i < j <= |files|
    ensures 1 <= StartLba(files, i) && StartLba(files, i) + Sectors(|files[i].data|) <= StartLba(files, j)
    decreases j
  {
    StartPositive(files, i);
    if i < j - 1 {
      ExtentsInOrder(files, i, j - 1);
    }
  }

  lemma {:induction false} StartPositive(files: seq<File>, i: nat)
    requires i <= |files|
    ensures StartLba(files, i) >= 1
  {
    if i > 0 {
      StartPositive(files, i - 1);
    }
  }

  lemma ExtentInside(files: seq<File>, sizeMb: int, i: nat)
    requires Fits(files, sizeMb) && i < |files|
    ensures SECTOR * (StartLba(files, i) + Sectors(|files[i].data|)) <= |ImageBytes(files, sizeMb)|
  {
    hide Packable;
    ExtentsInOrder(files, i, |files|);
  }

  lemma {:induction false} BodySlice(files: seq<File>, n: nat, i: nat)
    requires i < n <= |files|
    ensures var at := SECTOR * (StartLba(files, i) - 1); var data := Padded(files[i].data);
      0 <= at && at + |data| <= |Body(files, n)| && Body(files, n)[at..at + |data|] == data
  {
    hide Padded;
    StartPositive(files, i);
    if i < n - 1 {
      BodySlice(files, n - 1, i);
    }
  }

  lemma MiddleSlice(a: seq<byte>, b: seq<byte>, c: seq<byte>, at: nat, n: nat)
    requires at + n <= |b|
    ensures (a + b + c)[|a| + at..|a| + at + n] == b[at..at + n]
  {}

  /** File `i` lies in the image from its start sector on. */
  lemma FileInImage(files: seq<File>, sizeMb: int, i: nat)
    requires Fits(files, sizeMb) && i < |files|
    ensures var image, at, data := ImageBytes(files, sizeMb), SECTOR * StartLba(files, i), Padded(files[i].data);
      at + |data| <= |image| && image[at..at + |data|] == data
  {
    hide DirectorySector, Body, Padded, StartLba, Sectors;
    BodySlice(files, |files|, i);
    StartPositive(files, |files|);
    var dir, body, at := DirectorySector(files), Body(files, |files|), SECTOR * (StartLba(files, i) - 1);
    var zeros := Zeros(SECTOR * SECTORS_PER_MB * sizeMb - |dir + body|);
    assert ImageBytes(files, sizeMb) == dir + body + zeros;
    MiddleSlice(dir, body, zeros, at, |Padded(files[i].data)|);
  }

  lemma SectorAt(image: seq<byte>, lba: uint32)
    requires SECTOR * (lba + 1) <= |image|
    ensures ReadSector(DiskOf(image), lba) == Some(image[SECTOR * lba..SECTOR * lba + SECTOR])
  {}

  lemma JoinSlices(image: seq<byte>, a: nat, b: nat, c: nat)
    requires a <= b <= c <= |image|
    ensures image[a..b] + image[b..c] == image[a..c]
  {}

  lemma {:induction false} ExtentReads(image: seq<byte>, start: uint32, k: nat)
    requires SECTOR * (start + k) <= |image| && start + k <= UINT32
    ensures Extent(DiskOf(image), start, k) == Some(image[SECTOR * start..SECTOR * (start + k)])
  {
    hide DiskOf, ReadSector;
    if k == 0 {
      assert image[SECTOR * start..SECTOR * start] == [];
    } else {
      var lba: uint32 := start + (k - 1);
      ExtentReads(image, start, k - 1);
      SectorAt(image, lba);
      JoinSlices(image, SECTOR * start, SECTOR * lba, SECTOR * lba + SECTOR);
    }
  }

  /** Twenty-one files of less than 4 GiB each: sector numbers stay below 2^28, so neither the kernel's 32 bits nor
      the 28 bits of a disk command ever wrap. */
  lemma SectorNumbersFit(files: seq<File>)
    requires |files| <= FS_MAX_ENTRIES && AllPackable(files)
    ensures forall i :: 0 <= i <= |files| ==> StartLba(files, i) < 0x1000_0000
  {
    forall i | 0 <= i <= |files|
      ensures StartLba(files, i) < 0x1000_0000
    {
      forall k | 0 <= k < i
        ensures |files[k].data| < UINT32
      {
        assert Packable(files, k);
      }
      StartBound(files, i);
    }
  }

  /** What the builder takes, in plain numbers: 21 files, ASCII names of 15 characters, 32-bit lengths, and the room. */
  lemma WhatFits(files: seq<File>, sizeMb: int)
    ensures Fits(files, sizeMb) <==>
            && |files| <= 21
            && (forall i :: 0 <= i < |files| ==>
                  |files[i].name| <= 15 && |files[i].data| < 0x1_0000_0000 &&
                  forall k :: 0 <= k < |files[i].name| ==> files[i].name[k] as int < 128)
            && StartLba(files, |files|) <= 2048 * sizeMb
  {
    if |files| <= 21 && forall i :: 0 <= i < |files| ==> |files[i].data| < UINT32 {
      forall i | 0 <= i < |files|
        ensures StartLba(files, i) < UINT32
      {
        StartBound(files, i);
      }
    }
    forall i | 0 <= i < |files| && Packable(files, i)
      ensures |files[i].data| < UINT32 && |files[i].name| <= 15 && Ascii(files[i].name)
    {}
    hide StartLba;
  }

  /** Files start at sector 1 and each takes just the sectors its bytes need. */
  lemma StartLaw(files: seq<File>, i: nat)
    requires i < |files|
    ensures StartLba(files, 0) == 1
    ensures var n := StartLba(files, i + 1) - StartLba(files, i); 512 * (n - 1) < |files[i].data| <= 512 * n
  {}

  lemma {:induction false} StartBound(files: seq<File>, i: nat)
    requires i <= |files| && forall k :: 0 <= k < i ==> |files[k].data| < UINT32
    ensures StartLba(files, i) <= 1 + 0x80_0000 * i
  {
    if i > 0 {
      StartBound(files, i - 1);
    }
  }

  /** A read delivers what the buffer has room for exactly when rounding the length up to sectors does not wrap. */
  lemma WholeFile(length: uint32, maxLen: uint32)
    ensures Delivered(length, maxLen) == Min(length, maxLen) <==> length <= UINT32 - SECTOR || maxLen == 0
    ensures length > UINT32 - SECTOR ==> Delivered(length, maxLen) == 0
  {
    SectorsNeededCovers(length);
  }

  /** The number returned is that of the bytes the buffer has room for exactly when, besides, it is below 2^31. */
  lemma ReturnedCount(length: uint32, maxLen: uint32)
    ensures AsInt(Delivered(length, maxLen)) == Min(length, maxLen) <==>
            (length <= UINT32 - SECTOR && Min(length, maxLen) < 0x8000_0000) || maxLen == 0
    ensures AsInt(Delivered(length, maxLen)) < 0 <==>
            length <= UINT32 - SECTOR && Min(length, maxLen) >= 0x8000_0000
    ensures var n := Delivered(length, maxLen);
      -0x8000_0000 <= AsInt(n) < 0x8000_0000 && (AsInt(n) - n) % 0x1_0000_0000 == 0
  {
    WholeFile(length, maxLen);
  }

  /** The builder takes a file of 2^32 - 1 bytes, of which the kernel then reads nothing into a 512-byte buffer. */
  lemma AcceptedButUnread()
    ensures var files := [File("A", Zeros(UINT32 - 1))];
      && Fits(files, 4097) && AllPackable(files)
      && Delivered(|files[0].data|, 512) == 0 != Min(|files[0].data|, 512)
  {
    var files := [File("A", Zeros(UINT32 - 1))];
    assert StartLba(files, 0) == 1;
    assert StartLba(files, 1) == 1 + Sectors(UINT32 - 1);
    assert Packable(files, 0);
    WholeFile(UINT32 - 1, 512);
  }

  lemma PaddedInImage(files: seq<File>, sizeMb: int, i: nat)
    requires Fits(files, sizeMb) && i < |files|
    ensures Packable(files, i) && StartLba(files, i) + Sectors(|files[i].data|) < 0x1000_0000
    ensures var image, start, data := ImageBytes(files, sizeMb), StartLba(files, i), Padded(files[i].data);
      SECTOR * start + |data| <= |image| && image[SECTOR * start..SECTOR * start + |data|] == data
  {
    SectorNumbersFit(files);
    ExtentsInOrder(files, i, i + 1);
    FileInImage(files, sizeMb, i);
    hide ImageBytes, StartLba, Padded;
  }

  lemma ExtentPart(files: seq<File>, sizeMb: int, i: nat, k: nat)
    requires Fits(files, sizeMb) && i < |files| && k <= Sectors(|files[i].data|)
    ensures Packable(files, i)
    ensures Extent(DiskOf(ImageBytes(files, sizeMb)), StartLba(files, i), k)
         == Some(Padded(files[i].data)[..SECTOR * k])
  {
    PaddedInImage(files, sizeMb, i);
    hide ImageBytes, Fits, StartLba, Extent, DiskOf, Padded, Packable;
    var image, data, start := ImageBytes(files, sizeMb), Padded(files[i].data), StartLba(files, i);
    ExtentReads(image, start, k);
    PrefixOfSlice(image, SECTOR * start, data, SECTOR * k);
  }

  lemma PrefixOfSlice(image: seq<byte>, at: nat, data: seq<byte>, n: nat)
    requires at + |data| <= |image| && image[at..at + |data|] == data && n <= |data|
    ensures image[at..at + n] == data[..n]
  {
    assert image[at..at + |data|][..n] == image[at..at + n];
  }

  /** The kernel's own reading of file `i`'s extent gives the file, or as much of it as is delivered. */
  lemma FileReads(files: seq<File>, sizeMb: int, i: nat, maxLen: uint32)
    requires Fits(files, sizeMb) && i < |files|
    ensures Packable(files, i)
    ensures var data, disk := files[i].data, DiskOf(ImageBytes(files, sizeMb));
      var n, r := Delivered(|data|, maxLen), Extent(disk, StartLba(files, i), Touched(|data|, maxLen));
      r.Some? && n <= |data| && n <= |r.value| && r.value[..n] == data[..n]
  {
    var data := files[i].data;
    assert Packable(files, i);
    var n, t := Delivered(|data|, maxLen), Touched(|data|, maxLen);
    TouchedBounds(|data|, maxLen);
    WholeFile(|data|, maxLen);
    SectorsNeededCovers(|data|);
    assert t <= Sectors(|data|) && n <= |data|;
    hide ImageBytes, Touched, Delivered, Fits, StartLba, Extent, DiskOf, SectorsNeeded;
    ExtentPart(files, sizeMb, i, t);
    assert Padded(data)[..SECTOR * t][..n] == data[..n];
  }

  // ----- End to end -----

  ghost predicate Searchable(files: seq<File>) {
    forall i :: 0 <= i < |files| ==> Packable(files, i) && NulFree(files[i].name)
  }

  /** File `i` is the first whose name agrees with the query but for case. */
  ghost predicate Names(files: seq<File>, i: nat, query: CString)
    requires i < |files| && Searchable(files)
  {
    SameButCase(Encoded(files[i].name), query) &&
    forall j :: 0 <= j < i ==> !SameButCase(Encoded(files[j].name), query)
  }

  lemma FirstMatchIsNamed(files: seq<File>, query: CString, i: nat)
    requires |files| <= FS_MAX_ENTRIES && i < |files| && Searchable(files)
    ensures FirstMatch(Entries(DirectorySector(files)), query, i) <==> Names(files, i, query)
  {
    DirectoryReads(files);
    var es := Entries(DirectorySector(files));
    forall j | 0 <= j < |files|
      ensures Matches(es[j], query) <==> SameButCase(Encoded(files[j].name), query)
    {
      LookupMatches(files, j, query);
    }
    hide DirectorySector, Entries, Matches, SameButCase, Encoded, EntryOf;
  }

  /** A file is found under its own name exactly when no earlier name agrees with it but for case. The builder takes
      "A" and "a" together, and the second is then never found. */
  lemma FoundUnderOwnName(files: seq<File>, i: nat)
    requires |files| <= FS_MAX_ENTRIES && i < |files| && Searchable(files)
    ensures Ascii(files[i].name) && 0 !in Encoded(files[i].name)
    ensures FirstMatch(Entries(DirectorySector(files)), Encoded(files[i].name), i) <==>
            forall j :: 0 <= j < i ==> !SameButCase(Encoded(files[j].name), Encoded(files[i].name))
  {
    EncodedNulFree(files[i].name);
    FirstMatchIsNamed(files, Encoded(files[i].name), i);
    hide DirectorySector, Entries, FirstMatch, SameButCase, Encoded;
  }

  /** Nor under any other: no query at all finds a file whose name an earlier one repeats but for case. */
  lemma ShadowedIsLost(files: seq<File>, j: nat, i: nat, query: CString)
    requires |files| <= FS_MAX_ENTRIES && j < i < |files| && Searchable(files)
    requires SameButCase(Encoded(files[j].name), Encoded(files[i].name))
    ensures !FirstMatch(Entries(DirectorySector(files)), query, i)
  {
    FirstMatchIsNamed(files, query, i);
    hide DirectorySector, Entries, FirstMatch, Encoded;
  }

  lemma MountableDirectory(files: seq<File>)
    requires |files| <= FS_MAX_ENTRIES && Searchable(files)
    ensures LittleEndian(DirectorySector(files), 0) == FS_MAGIC
  {
    DirectoryReads(files);
  }

  lemma FirstMatchUnique(es: seq<Entry>, query: CString, i: int)
    requires FirstMatch(es, query, i)
    ensures 0 <= i < |es| && Matches(es[i], query) && forall k :: FirstMatch(es, query, k) ==> k == i
  {}

  /** A lookup in the built directory has just one possible answer. */
  lemma NamedEntry(files: seq<File>, query: CString, i: nat)
    requires |files| <= FS_MAX_ENTRIES && i < |files| && Searchable(files) && Names(files, i, query)
    ensures var es := Entries(DirectorySector(files));
      && i < |es| && Matches(es[i], query)
      && forall k :: FirstMatch(es, query, k) ==>
           0 <= k < |es| && es[k].startLba == StartLba(files, i) && es[k].length == |files[i].data|
  {
    FirstMatchIsNamed(files, query, i);
    DirectoryReads(files);
    FirstMatchUnique(Entries(DirectorySector(files)), query, i);
    hide Names, FirstMatch, Entries, DirectorySector, Matches;
  }

  lemma FittingCount(files: seq<File>, sizeMb: int)
    requires Fits(files, sizeMb)
    ensures |files| <= FS_MAX_ENTRIES
  {}

  /** Build an image, mount it, look a file up and read it, with any buffer and any file the builder takes: the buffer
      then starts with as many of the file's own bytes as it has room for, or is untouched when the file is longer than
      2^32 - 512 bytes. */
  method ReadBack(files: seq<File>, sizeMb: int, i: nat, query: CString, buffer: array<byte>, maxLen: uint32)
    returns (r: int)
    requires Fits(files, sizeMb) && Searchable(files)
    requires i < |files| && Names(files, i, query)
    requires maxLen <= buffer.Length
    modifies buffer
    ensures var data := files[i].data;
      var n := if |data| <= UINT32 - SECTOR then Min(|data|, maxLen) else 0;
      && r == AsInt(n) && n <= |data|
      && buffer[..n] == data[..n] && buffer[n..] == old(buffer[n..])
  {
    hide Fits, Searchable, Names, Entries, DirectorySector, ImageBytes, Extent, DiskOf, LittleEndian,
      FirstMatch, Touched, Delivered, AsInt, Matches, ReadSector;
    ghost var was := buffer[..];
    FittingCount(files, sizeMb);
    var built := Build(files, sizeMb);
    var disk := DiskOf(built.bytes);
    SectorZero(files, sizeMb);
    var store := new FileStore();
    MountableDirectory(files);
    var status := store.Mount(disk);
    NamedEntry(files, query, i);
    ghost var es := store.Directory();
    var found := store.Find(query);
    assert store.Directory() == es && Matches(store.Directory()[i], query);
    FileReads(files, sizeMb, i, maxLen);
    ghost var data := files[i].data;
    ghost var n, extent := Delivered(|data|, maxLen), Extent(disk, StartLba(files, i), Touched(|data|, maxLen));
    ghost var asked;
    r, asked := ReadFile(found.value, buffer, maxLen, disk);
    WholeFile(|data|, maxLen);
    FilledFile(buffer[..], was, extent.value, data, n);
  }

  lemma FilledFile(now: seq<byte>, was: seq<byte>, bytes: seq<byte>, data: seq<byte>, n: nat)
    requires Filled(now, was, bytes, n) && n <= |data| && bytes[..n] == data[..n]
    ensures now[..n] == data[..n] && now[n..] == was[n..]
  {
    forall k | 0 <= k < n
      ensures now[k] == data[k]
    {
      assert bytes[..n][k] == data[..n][k];
    }
  }

  lemma SectorZero(files: seq<File>, sizeMb: int)
    requires Fits(files, sizeMb)
    ensures ReadSector(DiskOf(ImageBytes(files, sizeMb)), 0) == Some(DirectorySector(files))
  {
    var image := ImageBytes(files, sizeMb);
    StartPositive(files, |files|);
    SectorAt(image, 0);
    hide DirectorySector, Body;
    assert image[0..SECTOR] == DirectorySector(files);
  }
}
