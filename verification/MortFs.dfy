/** The MortFS image writer: a zeroed byte buffer into which a superblock, a table of 64-byte entries
    and fixed extents are written in place, and a reader that finds the files again. */
module MortFs {
  import opened MortSyntax

  newtype byte = x: int | 0 <= x < 256

  const SECTOR := 512
  const MAGIC := 0x3153464D
  const VERSION := 1
  const MAX_FILES := 64
  const MAX_NAME := 23
  const MAX_SIZE := 65536
  const EXTENT_SECTORS := 128
  const DATA_START := 16
  const TABLE_OFFSET := 512
  const ENTRY_SIZE := 64

  datatype File = File(name: string, content: seq<byte>)

  /** A file to add: its bytes if the host could read it, and whether it is text. */
  datatype Seed = Seed(name: string, data: Option<seq<byte>>, text: bool)

  // ----- what is accepted -----

  predicate GoodName(name: string)
  {
    1 <= |name| <= MAX_NAME && forall i | 0 <= i < |name| :: ' ' <= name[i] <= '~'
  }

  /** CRLF becomes LF in text files. */
  function Normalize(data: seq<byte>): seq<byte>
  {
    if data == [] then []
    else if |data| >= 2 && data[0] == 13 && data[1] == 10 then [10] + Normalize(data[2..])
    else [data[0]] + Normalize(data[1..])
  }

  function ContentOf(s: Seed): seq<byte>
    requires s.data.Some?
  {
    if s.text then Normalize(s.data.value) else s.data.value
  }

  predicate GoodSeed(s: Seed) { GoodName(s.name) && s.data.Some? && |ContentOf(s)| <= MAX_SIZE }

  predicate GoodSeeds(seeds: seq<Seed>)
  {
    && (forall i | 0 <= i < |seeds| :: GoodSeed(seeds[i]))
    && (forall i, j | 0 <= i < j < |seeds| :: seeds[i].name != seeds[j].name)
  }

  function Files(seeds: seq<Seed>): (files: seq<File>)
    requires forall i | 0 <= i < |seeds| :: seeds[i].data.Some?
    ensures |files| == |seeds|
    ensures forall i | 0 <= i < |seeds| :: files[i] == File(seeds[i].name, ContentOf(seeds[i]))
  {
    seq(|seeds|, i requires 0 <= i < |seeds| => File(seeds[i].name, ContentOf(seeds[i])))
  }

  function TotalSectors(sizeMib: int): int { sizeMib * 2048 }

  /** Every sector number fits the on-disk u32, and all extents fit the image. */
  predicate Buildable(sizeMib: int, seeds: seq<Seed>)
  {
    && sizeMib >= 1 && TotalSectors(sizeMib) < 0x1_0000_0000
    && GoodSeeds(seeds) && |seeds| <= MAX_FILES
    && DATA_START + EXTENT_SECTORS * |seeds| <= TotalSectors(sizeMib)
  }

  // ----- the format -----

  function U32(n: nat): (b: seq<byte>)
    requires n < 0x1_0000_0000
    ensures |b| == 4
  {
    [(n % 256) as byte, (n / 256 % 256) as byte, (n / 65536 % 256) as byte, (n / 16777216) as byte]
  }

  function ReadU32(s: seq<byte>, at: nat): nat
    requires at + 4 <= |s|
  {
    s[at] as nat + 256 * s[at + 1] as nat + 65536 * s[at + 2] as nat + 16777216 * s[at + 3] as nat
  }

  function Ascii(name: string): (b: seq<byte>)
    requires forall i | 0 <= i < |name| :: ' ' <= name[i] <= '~'
    ensures |b| == |name| && forall i | 0 <= i < |name| :: b[i] as int == name[i] as int
  {
    seq(|name|, i requires 0 <= i < |name| => name[i] as byte)
  }

  function Zeros(n: nat): (b: seq<byte>)
    ensures |b| == n && forall i | 0 <= i < n :: b[i] == 0
  {
    seq(n, i => 0)
  }

  /** The name field: ASCII, padded with NUL to 24 bytes. */
  function NameField(name: string): (b: seq<byte>)
    requires GoodName(name)
    ensures |b| == 24
  {
    Ascii(name) + Zeros(24 - |name|)
  }

  function ExtentSector(i: nat): nat { DATA_START + EXTENT_SECTORS * i }

  function EntryFields(i: nat, size: nat): (b: seq<byte>)
    requires size <= MAX_SIZE && i < MAX_FILES
    ensures |b| == 16
  {
    U32(1) + U32(size) + U32(ExtentSector(i)) + U32(EXTENT_SECTORS)
  }

  function SuperBlock(count: nat, total: nat): (b: seq<byte>)
    requires count <= MAX_FILES && total < 0x1_0000_0000
    ensures |b| == 20
  {
    U32(MAGIC) + U32(VERSION) + U32(count) + U32(ExtentSector(count)) + U32(total)
  }

  function EntryAt(i: nat): nat { TABLE_OFFSET + i * ENTRY_SIZE }

  function DataAt(i: nat): nat { ExtentSector(i) * SECTOR }

  predicate GoodFile(f: File) { GoodName(f.name) && |f.content| <= MAX_SIZE }

  /** File i is in its entry and its extent. */
  predicate EntryHolds(s: seq<byte>, i: nat, f: File)
  {
    && GoodFile(f) && i < MAX_FILES && DataAt(i) + MAX_SIZE <= |s|
    && s[EntryAt(i)..EntryAt(i) + 24] == NameField(f.name)
    && s[EntryAt(i) + 24..EntryAt(i) + 40] == EntryFields(i, |f.content|)
    && s[DataAt(i)..DataAt(i) + |f.content|] == f.content
  }

  /** The bytes that belong to file i. */
  predicate Owned(p: int, i: nat, f: File)
  {
    EntryAt(i) <= p < EntryAt(i) + 40 || DataAt(i) <= p < DataAt(i) + |f.content|
  }

  predicate Fits(s: seq<byte>, files: seq<File>)
  {
    && |files| <= MAX_FILES && DataAt(|files|) <= |s|
    && forall i | 0 <= i < |files| :: GoodFile(files[i])
  }

  lemma {:induction false} FitsAt(s: seq<byte>, files: seq<File>, i: nat)
    requires Fits(s, files) && i < |files|
    ensures DataAt(i) + MAX_SIZE <= |s| && GoodFile(files[i]) && i < MAX_FILES && EntryAt(i) + 64 <= 4608 <= DataAt(0) <= DataAt(i)
  {
  }

  /** All the files are there, and every byte that is not theirs or the superblock's is zero. */
  predicate FilesHold(s: seq<byte>, files: seq<File>)
  {
    && (forall i | 0 <= i < |files| :: EntryHolds(s, i, files[i]))
    && (forall p | 20 <= p < |s| && (forall i | 0 <= i < |files| :: !Owned(p, i, files[i])) :: s[p] == 0)
  }

  predicate Holds(s: seq<byte>, files: seq<File>, total: nat)
  {
    && total < 0x1_0000_0000 && |s| == total * SECTOR && Fits(s, files)
    && s[..20] == SuperBlock(|files|, total)
    && FilesHold(s, files)
  }

  // ----- the regions are disjoint -----

  /** The superblock, the entries and the extents never overlap, and all lie inside the image. */
  lemma {:induction false} RegionsAreDisjoint(s: seq<byte>, files: seq<File>, i: nat, j: nat)
    requires Fits(s, files) && i < |files| && j < |files| && i != j
    ensures 20 <= EntryAt(i)
    ensures EntryAt(i) + ENTRY_SIZE <= EntryAt(j) || EntryAt(j) + ENTRY_SIZE <= EntryAt(i)
    ensures TABLE_OFFSET + MAX_FILES * ENTRY_SIZE <= DATA_START * SECTOR
    ensures DataAt(i) + EXTENT_SECTORS * SECTOR <= DataAt(j) || DataAt(j) + EXTENT_SECTORS * SECTOR <= DataAt(i)
    ensures DataAt(i) + EXTENT_SECTORS * SECTOR <= |s|
    ensures forall p :: !(Owned(p, i, files[i]) && Owned(p, j, files[j]))
  {
  }

  // ----- writing -----

  function Patch(s: seq<byte>, at: nat, b: seq<byte>): (t: seq<byte>)
    requires at + |b| <= |s|
    ensures |t| == |s|
    ensures forall p | 0 <= p < |s| :: t[p] == if at <= p < at + |b| then b[p - at] else s[p]
  {
    s[..at] + b + s[at + |b|..]
  }

  /** A slice assignment of the buffer. */
  method Write(image: array<byte>, at: nat, b: seq<byte>)
    requires at + |b| <= image.Length
    modifies image
    ensures image[..] == Patch(old(image[..]), at, b)
  {
    for i := 0 to |b|
      invariant forall p | 0 <= p < image.Length :: image[p] == if at <= p < at + i then b[p - at] else old(image[p])
    {
      image[at + i] := b[i];
    }
    assert image[..] == Patch(old(image[..]), at, b);
  }

  lemma {:induction false} PatchReads(s: seq<byte>, at: nat, b: seq<byte>, from: nat, to: nat)
    requires at + |b| <= |s| && from <= to <= |s|
    ensures to <= at || at + |b| <= from ==> Patch(s, at, b)[from..to] == s[from..to]
    ensures from == at && to == at + |b| ==> Patch(s, at, b)[from..to] == b
  {
    var t := Patch(s, at, b);
    if to <= at || at + |b| <= from {
      forall p | from <= p < to ensures t[p] == s[p] { }
    }
  }

  /** The three writes of one file leave the earlier files alone and add this one. */
  function WithFile(s: seq<byte>, i: nat, f: File): (t: seq<byte>)
    requires GoodFile(f) && i < MAX_FILES && DataAt(i) + MAX_SIZE <= |s|
    ensures |t| == |s|
  {
    Patch(Patch(Patch(s, EntryAt(i), NameField(f.name)), EntryAt(i) + 24, EntryFields(i, |f.content|)), DataAt(i), f.content)
  }

  lemma {:induction false} WithFileReads(s: seq<byte>, i: nat, f: File)
    requires GoodFile(f) && i < MAX_FILES && DataAt(i) + MAX_SIZE <= |s|
    ensures EntryHolds(WithFile(s, i, f), i, f)
    ensures forall p | 0 <= p < |s| && !Owned(p, i, f) :: WithFile(s, i, f)[p] == s[p]
  {
    hide NameField, EntryFields, Patch;
    var e := EntryAt(i);
    var a := Patch(s, e, NameField(f.name));
    var b := Patch(a, e + 24, EntryFields(i, |f.content|));
    PatchReads(s, e, NameField(f.name), e, e + 24);
    PatchReads(a, e + 24, EntryFields(i, |f.content|), e, e + 24);
    PatchReads(a, e + 24, EntryFields(i, |f.content|), e + 24, e + 40);
    PatchReads(b, DataAt(i), f.content, e, e + 24);
    PatchReads(b, DataAt(i), f.content, e + 24, e + 40);
    PatchReads(b, DataAt(i), f.content, DataAt(i), DataAt(i) + |f.content|);
  }

  lemma {:induction false} StillHolds(s: seq<byte>, t: seq<byte>, j: nat, f: File)
    requires |t| == |s| && EntryHolds(s, j, f)
    requires forall p | 0 <= p < |s| && Owned(p, j, f) :: t[p] == s[p]
    ensures EntryHolds(t, j, f)
  {
    hide NameField, EntryFields;
    assert t[EntryAt(j)..EntryAt(j) + 24] == s[EntryAt(j)..EntryAt(j) + 24];
    assert t[EntryAt(j) + 24..EntryAt(j) + 40] == s[EntryAt(j) + 24..EntryAt(j) + 40];
    assert t[DataAt(j)..DataAt(j) + |f.content|] == s[DataAt(j)..DataAt(j) + |f.content|];
  }

  /** Adding the next file. */
  lemma {:induction false} FileAdded(s: seq<byte>, files: seq<File>, f: File)
    requires Fits(s, files + [f]) && Fits(s, files) && FilesHold(s, files)
    requires DataAt(|files|) + MAX_SIZE <= |s| && GoodFile(f) && |files| < MAX_FILES
    ensures FilesHold(WithFile(s, |files|, f), files + [f])
  {
    hide EntryHolds, WithFile, Owned;
    var n, more := |files|, files + [f];
    var t := WithFile(s, n, f);
    WithFileReads(s, n, f);
    forall i | 0 <= i < |more| ensures EntryHolds(t, i, more[i]) {
      FitsAt(t, more, i);
      if i < n {
        FitsAt(s, files, i);
        assert more[i] == files[i];
        RegionsAreDisjoint(s, more, i, n);
        StillHolds(s, t, i, files[i]);
      }
    }
    forall p | 20 <= p < |t| && (forall i | 0 <= i < |more| :: !Owned(p, i, more[i])) ensures t[p] == 0 {
      assert more[n] == f && !Owned(p, n, more[n]);
      forall i | 0 <= i < |files| ensures !Owned(p, i, files[i]) { assert more[i] == files[i]; }
    }
  }

  lemma {:induction false} SuperBlockAdded(s: seq<byte>, files: seq<File>, total: nat)
    requires total < 0x1_0000_0000 && |s| == total * SECTOR && Fits(s, files) && FilesHold(s, files)
    ensures Fits(Patch(s, 0, SuperBlock(|files|, total)), files)
    ensures Holds(Patch(s, 0, SuperBlock(|files|, total)), files, total)
  {
    hide EntryHolds, SuperBlock;
    var b := SuperBlock(|files|, total);
    var t := Patch(s, 0, b);
    PatchReads(s, 0, b, 0, 20);
    assert t[..20] == t[0..20];
    forall i | 0 <= i < |files| ensures EntryHolds(t, i, files[i]) {
      FitsAt(t, files, i);
      StillHolds(s, t, i, files[i]);
    }
  }

  // ----- reading back -----

  lemma {:induction false} U32RoundTrip(n: nat, s: seq<byte>, at: nat)
    requires n < 0x1_0000_0000 && at + 4 <= |s| && s[at..at + 4] == U32(n)
    ensures ReadU32(s, at) == n
  {
    var b := s[at..at + 4];
    assert b[0] == s[at] && b[1] == s[at + 1] && b[2] == s[at + 2] && b[3] == s[at + 3];
    var q := n / 256;
    assert n == 256 * q + n % 256;
    assert n / 65536 == q / 256 && n / 16777216 == q / 256 / 256;
    assert q == 256 * (q / 256) + q % 256;
  }

  /** The characters before the first NUL. */
  function NameIn(field: seq<byte>): string
  {
    if field == [] || field[0] == 0 then "" else [field[0] as char] + NameIn(field[1..])
  }

  lemma {:induction false} NameRoundTrip(name: string, pad: nat)
    requires forall i | 0 <= i < |name| :: ' ' <= name[i] <= '~'
    requires pad > 0
    ensures NameIn(Ascii(name) + Zeros(pad)) == name
  {
    var field := Ascii(name) + Zeros(pad);
    if name != "" {
      assert field[1..] == Ascii(name[1..]) + Zeros(pad);
      NameRoundTrip(name[1..], pad);
      assert name == [name[0]] + name[1..];
    }
  }

  function ReadFile(s: seq<byte>, i: nat): Option<File>
  {
    var e := EntryAt(i);
    if e + 40 > |s| || ReadU32(s, e + 24) != 1 then None
    else
      var size, at := ReadU32(s, e + 28), ReadU32(s, e + 32) * SECTOR;
      if at + size > |s| then None else Some(File(NameIn(s[e..e + 24]), s[at..at + size]))
  }

  function ReadFiles(s: seq<byte>, count: nat): Option<seq<File>>
  {
    if count == 0 then Some([])
    else
      var front, last := ReadFiles(s, count - 1), ReadFile(s, count - 1);
      if front.None? || last.None? then None else Some(front.value + [last.value])
  }

  /** What the kernel sees: the files the superblock counts, in table order. */
  function ReadImage(s: seq<byte>): Option<seq<File>>
  {
    if |s| < 20 || ReadU32(s, 0) != MAGIC || ReadU32(s, 4) != VERSION then None else ReadFiles(s, ReadU32(s, 8))
  }

  lemma {:induction false} SliceOfSlice(s: seq<byte>, a: nat, b: nat, c: nat, d: nat)
    requires a <= b <= |s| && c <= d <= b - a
    ensures s[a..b][c..d] == s[a + c..a + d]
  {
    var x, y := s[a..b][c..d], s[a + c..a + d];
    assert |x| == |y|;
    forall i | 0 <= i < |x| ensures x[i] == y[i] {
      assert x[i] == s[a..b][c + i] == s[a + (c + i)];
      assert y[i] == s[a + c + i];
    }
  }

  lemma {:induction false} FieldsRead(s: seq<byte>, at: nat, b: seq<byte>, k: nat, n: nat)
    requires at + |b| <= |s| && s[at..at + |b|] == b && n < 0x1_0000_0000
    requires 4 * k + 4 <= |b| && b[4 * k..4 * k + 4] == U32(n)
    ensures ReadU32(s, at + 4 * k) == n
  {
    SliceOfSlice(s, at, at + |b|, 4 * k, 4 * k + 4);
    U32RoundTrip(n, s, at + 4 * k);
  }

  lemma {:induction false} EntryReads(s: seq<byte>, files: seq<File>, i: nat)
    requires Fits(s, files) && FilesHold(s, files) && i < |files|
    ensures ReadFile(s, i) == Some(files[i])
    ensures EntryAt(i) + 40 <= |s|
    ensures var e := EntryAt(i);
      && ReadU32(s, e + 24) == 1 && ReadU32(s, e + 28) == |files[i].content|
      && ReadU32(s, e + 32) == ExtentSector(i) && ReadU32(s, e + 36) == EXTENT_SECTORS
  {
    hide ReadU32, U32, NameIn;
    FitsAt(s, files, i);
    var f := files[i];
    assert EntryHolds(s, i, f);
    var b, at := EntryFields(i, |f.content|), EntryAt(i) + 24;
    var u, v, w, x := U32(1), U32(|f.content|), U32(ExtentSector(i)), U32(EXTENT_SECTORS);
    assert b == u + v + w + x;
    assert b[0..4] == u && b[4..8] == v && b[8..12] == w && b[12..16] == x;
    FieldsRead(s, at, b, 0, 1);
    FieldsRead(s, at, b, 1, |f.content|);
    FieldsRead(s, at, b, 2, ExtentSector(i));
    FieldsRead(s, at, b, 3, EXTENT_SECTORS);
    NameRoundTrip(f.name, 24 - |f.name|);
  }

  lemma {:induction false} AllRead(s: seq<byte>, files: seq<File>, n: nat)
    requires Fits(s, files) && FilesHold(s, files) && n <= |files|
    ensures ReadFiles(s, n) == Some(files[..n])
  {
    hide ReadFile, FilesHold, Fits;
    if n > 0 {
      AllRead(s, files, n - 1);
      EntryReads(s, files, n - 1);
      assert files[..n] == files[..n - 1] + [files[n - 1]];
    }
  }

  lemma {:induction false} SuperBlockReads(s: seq<byte>, files: seq<File>, total: nat)
    requires Holds(s, files, total)
    ensures |s| >= 20 && ReadU32(s, 0) == MAGIC && ReadU32(s, 4) == VERSION && ReadU32(s, 8) == |files|
    ensures ReadU32(s, 12) == ExtentSector(|files|) && ReadU32(s, 16) == total
  {
    hide ReadU32, U32, FilesHold;
    var b := SuperBlock(|files|, total);
    var u, v, w, x, y := U32(MAGIC), U32(VERSION), U32(|files|), U32(ExtentSector(|files|)), U32(total);
    assert b == u + v + w + x + y;
    assert b[0..4] == u && b[4..8] == v && b[8..12] == w && b[12..16] == x && b[16..20] == y;
    assert s[0..20] == s[..20] == b;
    FieldsRead(s, 0, b, 0, MAGIC);
    FieldsRead(s, 0, b, 1, VERSION);
    FieldsRead(s, 0, b, 2, |files|);
    FieldsRead(s, 0, b, 3, ExtentSector(|files|));
    FieldsRead(s, 0, b, 4, total);
  }

  /** A written image reads back to the same names and contents, in the same order. */
  lemma {:induction false} ImageRoundTrip(s: seq<byte>, files: seq<File>, total: nat)
    requires Holds(s, files, total)
    ensures ReadImage(s) == Some(files)
  {
    SuperBlockReads(s, files, total);
    AllRead(s, files, |files|);
    assert files[..|files|] == files;
  }

  // ----- the program -----

  /** `_self_check` on the bytes read from disk: it passes on every faithful image, and what passes it
      reads back to the files. */
  method SelfCheck(data: seq<byte>, total: nat, files: seq<File>) returns (ok: bool)
    requires forall i | 0 <= i < |files| :: GoodFile(files[i])
    requires |files| <= MAX_FILES && DataAt(|files|) <= total * SECTOR
    ensures Holds(data, files, total) ==> ok
    ensures ok ==> ReadImage(data) == Some(files)
  {
    hide Holds, ReadU32, NameField, ReadFile;
    ghost var held := Holds(data, files, total);
    if held { HeldSize(data, files, total); }
    if |data| != total * SECTOR || |data| < 20 { return false; }
    if held { SuperBlockReads(data, files, total); }
    if ReadU32(data, 0) != MAGIC || ReadU32(data, 4) != VERSION || ReadU32(data, 8) != |files| { return false; }
    if ReadU32(data, 12) != ExtentSector(|files|) || ReadU32(data, 16) != total { return false; }
    for i := 0 to |files|
      invariant ReadFiles(data, i) == Some(files[..i])
    {
      var f := files[i];
      var e := EntryAt(i);
      if held { HeldEntry(data, files, total, i); }
      if data[e..e + 24] != NameField(f.name) { return false; }
      var used, size := ReadU32(data, e + 24), ReadU32(data, e + 28);
      var start, cap := ReadU32(data, e + 32), ReadU32(data, e + 36);
      if used != 1 || size != |f.content| || start != ExtentSector(i) || cap != EXTENT_SECTORS { return false; }
      if data[start * SECTOR..start * SECTOR + size] != f.content { return false; }
      CheckedEntry(data, i, f);
      assert files[..i + 1] == files[..i] + [f];
    }
    assert files[..|files|] == files;
    ok := true;
  }

  lemma {:induction false} CheckedEntry(s: seq<byte>, i: nat, f: File)
    requires GoodFile(f) && EntryAt(i) + 40 <= |s| && DataAt(i) + |f.content| <= |s|
    requires s[EntryAt(i)..EntryAt(i) + 24] == NameField(f.name) && s[DataAt(i)..DataAt(i) + |f.content|] == f.content
    requires var e := EntryAt(i);
      ReadU32(s, e + 24) == 1 && ReadU32(s, e + 28) == |f.content| && ReadU32(s, e + 32) == ExtentSector(i)
    ensures ReadFile(s, i) == Some(f)
  {
    hide ReadU32;
    NameRoundTrip(f.name, 24 - |f.name|);
  }

  lemma {:induction false} HeldSize(s: seq<byte>, files: seq<File>, total: nat)
    requires Holds(s, files, total)
    ensures |s| == total * SECTOR && |s| >= 20
  {
  }

  lemma {:induction false} HeldEntry(s: seq<byte>, files: seq<File>, total: nat, i: nat)
    requires Holds(s, files, total) && i < |files|
    ensures DataAt(i) + MAX_SIZE <= |s| && EntryAt(i) + 40 <= |s| && GoodFile(files[i])
    ensures var e := EntryAt(i);
      && s[e..e + 24] == NameField(files[i].name)
      && ReadU32(s, e + 24) == 1 && ReadU32(s, e + 28) == |files[i].content|
      && ReadU32(s, e + 32) == ExtentSector(i) && ReadU32(s, e + 36) == EXTENT_SECTORS
      && s[DataAt(i)..DataAt(i) + |files[i].content|] == files[i].content
  {
    EntryReads(s, files, i);
    FitsAt(s, files, i);
    assert EntryHolds(s, i, files[i]);
  }

  /** Validation: the files to write, or None where the program exits with a message. */
  method Validate(seeds: seq<Seed>) returns (files: Option<seq<File>>)
    ensures files.Some? <==> GoodSeeds(seeds)
    ensures files.Some? ==> files.value == Files(seeds)
  {
    var result: seq<File> := [];
    var seen: set<string> := {};
    for i := 0 to |seeds|
      invariant |result| == i && GoodSeeds(seeds[..i])
      invariant forall j | 0 <= j < i :: seeds[j].data.Some? && result[j] == File(seeds[j].name, ContentOf(seeds[j]))
      invariant forall n :: n in seen <==> exists j :: 0 <= j < i && seeds[j].name == n
    {
      var s := seeds[i];
      if !GoodName(s.name) || s.name in seen || s.data.None? || |ContentOf(s)| > MAX_SIZE {
        BadSeed(seeds, i);
        return None;
      }
      seen := seen + {s.name};
      result := result + [File(s.name, ContentOf(s))];
      assert seeds[..i + 1] == seeds[..i] + [s];
    }
    assert seeds[..|seeds|] == seeds;
    files := Some(result);
  }

  lemma {:induction false} BadSeed(seeds: seq<Seed>, i: nat)
    requires i < |seeds| && (!GoodSeed(seeds[i]) || exists j :: 0 <= j < i && seeds[j].name == seeds[i].name)
    ensures !GoodSeeds(seeds)
  {
  }

  /** `make`: refused exactly for unacceptable input; otherwise the image holds exactly the files, and
      the self-check on a faithful read of it passes. */
  method Make(sizeMib: int, seeds: seq<Seed>) returns (ok: bool, image: array<byte>)
    ensures ok <==> Buildable(sizeMib, seeds)
    ensures ok ==> fresh(image) && Holds(image[..], Files(seeds), TotalSectors(sizeMib))
    ensures ok ==> ReadImage(image[..]) == Some(Files(seeds))
  {
    image := new byte[0];
    if sizeMib < 1 { return false, image; }
    var total := TotalSectors(sizeMib);
    var validated := Validate(seeds);
    if validated.None? || |seeds| > MAX_FILES || DATA_START + EXTENT_SECTORS * |seeds| > total || total >= 0x1_0000_0000 {
      return false, image;
    }
    var files := validated.value;
    image := new byte[total * SECTOR](i => 0);
    assert forall i | 0 <= i < |files| :: GoodFile(files[i]) by {
      forall i | 0 <= i < |files| ensures GoodFile(files[i]) { assert GoodSeed(seeds[i]); }
    }
    NothingHeld(image[..]);
    WriteFiles(image, files);
    assert Fits(image[..], files);
    hide FilesHold, Patch, SuperBlock, ReadImage, Holds;
    SuperBlockAdded(image[..], files, total);
    Write(image, 0, SuperBlock(|files|, total));
    ok := SelfCheck(image[..], total, files);
    ImageRoundTrip(image[..], files, total);
  }

  /** The table entries and extents of all files, one after the other. */
  method WriteFiles(image: array<byte>, files: seq<File>)
    requires Fits(image[..], files) && FilesHold(image[..], [])
    modifies image
    ensures FilesHold(image[..], files)
  {
    hide WithFile, FilesHold, Patch, EntryFields, NameField;
    var nextFree := DATA_START;
    assert files[..0] == [];
    for i := 0 to |files|
      invariant nextFree == ExtentSector(i) && FilesHold(image[..], files[..i])
    {
      FitsAt(image[..], files, i);
      var f := files[i];
      var entry := TABLE_OFFSET + i * ENTRY_SIZE;
      ghost var before := image[..];
      Write(image, entry, NameField(f.name));
      Write(image, entry + 24, EntryFields(i, |f.content|));
      Write(image, nextFree * SECTOR, f.content);
      WithFileIs(before, i, f);
      assert files[..i + 1] == files[..i] + [f];
      FitsFront(before, files, i);
      FileAdded(before, files[..i], f);
      nextFree := nextFree + EXTENT_SECTORS;
    }
    assert files[..|files|] == files;
  }

  lemma {:induction false} FitsFront(s: seq<byte>, files: seq<File>, i: nat)
    requires Fits(s, files) && i < |files|
    ensures Fits(s, files[..i]) && Fits(s, files[..i] + [files[i]]) && DataAt(i) + MAX_SIZE <= |s|
  {
  }

  lemma {:induction false} WithFileIs(s: seq<byte>, i: nat, f: File)
    requires GoodFile(f) && i < MAX_FILES && DataAt(i) + MAX_SIZE <= |s|
    ensures WithFile(s, i, f) ==
      Patch(Patch(Patch(s, EntryAt(i), NameField(f.name)), EntryAt(i) + 24, EntryFields(i, |f.content|)), DataAt(i), f.content)
  {
  }

  lemma {:induction false} NothingHeld(s: seq<byte>)
    requires |s| >= DataAt(0) && forall p | 0 <= p < |s| :: s[p] == 0
    ensures Fits(s, []) && FilesHold(s, [])
  {
  }

  // ----- what normalising leaves -----

  predicate HasCrLf(s: seq<byte>) { exists i :: 0 <= i < |s| - 1 && s[i] == 13 && s[i + 1] == 10 }

  predicate HasCrCrLf(s: seq<byte>) { exists i :: 0 <= i < |s| - 2 && s[i] == 13 && s[i + 1] == 13 && s[i + 2] == 10 }

  lemma {:induction false} FrontCrLf(b: byte, s: seq<byte>)
    ensures HasCrLf([b] + s) <==> (b == 13 && s != [] && s[0] == 10) || HasCrLf(s)
  {
    var all := [b] + s;
    if i :| 0 <= i < |all| - 1 && all[i] == 13 && all[i + 1] == 10 && i > 0 { assert s[i - 1] == 13 && s[i - 1 + 1] == 10; }
    if i :| 0 <= i < |s| - 1 && s[i] == 13 && s[i + 1] == 10 { assert all[i + 1] == 13 && all[i + 1 + 1] == 10; }
    if b == 13 && s != [] && s[0] == 10 { assert all[0] == 13 && all[0 + 1] == 10; }
  }

  lemma {:induction false} FrontCrCrLf(b: byte, s: seq<byte>)
    ensures HasCrCrLf([b] + s) <==> (b == 13 && |s| >= 2 && s[0] == 13 && s[1] == 10) || HasCrCrLf(s)
  {
    var all := [b] + s;
    if i :| 0 <= i < |all| - 2 && all[i] == 13 && all[i + 1] == 13 && all[i + 2] == 10 && i > 0 {
      assert s[i - 1] == 13 && s[i - 1 + 1] == 13 && s[i - 1 + 2] == 10;
    }
    if i :| 0 <= i < |s| - 2 && s[i] == 13 && s[i + 1] == 13 && s[i + 2] == 10 {
      assert all[i + 1] == 13 && all[i + 1 + 1] == 13 && all[i + 1 + 2] == 10;
    }
    if b == 13 && |s| >= 2 && s[0] == 13 && s[1] == 10 { assert all[0] == 13 && all[0 + 1] == 13 && all[0 + 2] == 10; }
  }

  lemma NothingCrLf()
    ensures !HasCrLf([]) && !HasCrCrLf([])
  {
  }

  /** A text file is stored without CRLF exactly if it had no CR CR LF: one pass removes the inner pair
      and leaves the outer CR before the LF. */
  lemma {:induction false} NormalizeLeavesCrlfIff(data: seq<byte>)
    ensures HasCrLf(Normalize(data)) <==> HasCrCrLf(data)
    ensures data != [] ==> (Normalize(data) != [] && Normalize(data)[0] == 10 <==> data[0] == 10 || (|data| >= 2 && data[0] == 13 && data[1] == 10))
    decreases |data|
  {
    hide HasCrLf, HasCrCrLf;
    if data == [] {
      NothingCrLf();
    } else if |data| >= 2 && data[0] == 13 && data[1] == 10 {
      var rest := data[2..];
      NormalizeLeavesCrlfIff(rest);
      FrontCrLf(10, Normalize(rest));
      FrontCrCrLf(10, rest);
      assert data[1..] == [10] + rest;
      FrontCrCrLf(13, data[1..]);
      assert data == [13] + data[1..];
    } else {
      NormalizeLeavesCrlfIff(data[1..]);
      FrontCrLf(data[0], Normalize(data[1..]));
      FrontCrCrLf(data[0], data[1..]);
      assert data == [data[0]] + data[1..];
    }
  }
}
