/** The MortFS image byte by byte, in plain numbers. */
module ImageBytes {
  import opened MortSyntax
  import opened MortFs

  /** Four bytes, the lowest first. */
  predicate WordAt(s: seq<byte>, p: nat, n: int)
  {
    p + 4 <= |s| && n == s[p] as int + s[p + 1] as int * 0x100 + s[p + 2] as int * 0x1_0000 + s[p + 3] as int * 0x100_0000
  }

  predicate InEntry(p: int, i: nat) { 512 + 64 * i <= p < 512 + 64 * i + 40 }

  predicate InContent(p: int, i: nat, size: nat) { 8192 + 65536 * i <= p < 8192 + 65536 * i + size }

  /** An image of sizeMib mebibytes: "MFS1", version 1, the number of files, the first free sector and
      the number of sectors; in the table at byte 512 one entry of 64 bytes for each file, with its name,
      the mark 1, its size, its first sector and the 128 sectors it may have; its content from that
      sector on; and zeros everywhere else. */
  predicate Image(s: seq<byte>, files: seq<File>, sizeMib: int)
  {
    && |s| == sizeMib * 1048576 && |s| >= 8192
    && s[..4] == [0x4d, 0x46, 0x53, 0x31]
    && WordAt(s, 4, 1) && WordAt(s, 8, |files|) && WordAt(s, 12, 16 + 128 * |files|) && WordAt(s, 16, sizeMib * 2048)
    && (forall i | 0 <= i < |files| :: FileAt(s, i, files[i]))
    && forall p | 20 <= p < |s| && (forall i | 0 <= i < |files| :: !InEntry(p, i) && !InContent(p, i, |files[i].content|)) :: s[p] == 0
  }

  predicate FileAt(s: seq<byte>, i: nat, f: File)
  {
    && 1 <= |f.name| <= 23 && |f.content| <= 65536 && i < 64 && 8192 + 65536 * (i + 1) <= |s|
    && NameAt(s, 512 + 64 * i, f.name) && FieldsAt(s, 512 + 64 * i + 24, i, |f.content|)
    && s[8192 + 65536 * i..8192 + 65536 * i + |f.content|] == f.content
  }

  /** 24 bytes: the name, then NULs. */
  predicate NameAt(s: seq<byte>, e: nat, name: string)
    requires e + 24 <= |s|
  {
    forall p | e <= p < e + 24 :: s[p] as int == if p < e + |name| then name[p - e] as int else 0
  }

  predicate FieldsAt(s: seq<byte>, p: nat, i: nat, size: nat)
  {
    WordAt(s, p, 1) && WordAt(s, p + 4, size) && WordAt(s, p + 8, 16 + 128 * i) && WordAt(s, p + 12, 128)
  }

  lemma {:induction false} WordIsRead(s: seq<byte>, p: nat, n: int)
    requires p + 4 <= |s|
    ensures WordAt(s, p, n) <==> ReadU32(s, p) == n
  {
  }

  lemma {:induction false} NameIs(s: seq<byte>, e: nat, name: string)
    requires GoodName(name) && e + 24 <= |s| && s[e..e + 24] == NameField(name)
    ensures NameAt(s, e, name)
  {
    var field := s[e..e + 24];
    forall p | e <= p < e + 24 ensures s[p] == NameField(name)[p - e] { assert field[p - e] == s[p]; }
  }

  lemma {:induction false} FieldsAre(s: seq<byte>, p: nat, i: nat, size: nat)
    requires p + 16 <= |s| && ReadU32(s, p) == 1 && ReadU32(s, p + 4) == size
    requires ReadU32(s, p + 8) == ExtentSector(i) && ReadU32(s, p + 12) == EXTENT_SECTORS
    ensures FieldsAt(s, p, i, size)
  {
    WordIsRead(s, p, 1);
    WordIsRead(s, p + 4, size);
    WordIsRead(s, p + 8, 16 + 128 * i);
    WordIsRead(s, p + 12, 128);
  }

  lemma {:induction false} PlacesAre(i: nat)
    ensures EntryAt(i) == 512 + 64 * i && DataAt(i) == 8192 + 65536 * i && MAX_FILES == 64 && MAX_SIZE == 65536
  {
  }

  lemma {:induction false} HeldFile(s: seq<byte>, files: seq<File>, total: nat, i: nat)
    requires Holds(s, files, total) && i < |files|
    ensures FileAt(s, i, files[i])
  {
    hide Holds, NameField, FilesHold, Fits, ReadU32, EntryAt, DataAt, ExtentSector, NameAt, FieldsAt;
    HeldEntry(s, files, total, i);
    HeldCount(s, files, total);
    PlacesAre(i);
    assert GoodName(files[i].name);
    NameIs(s, EntryAt(i), files[i].name);
    FieldsAre(s, EntryAt(i) + 24, i, |files[i].content|);
  }

  lemma {:induction false} HeldCount(s: seq<byte>, files: seq<File>, total: nat)
    requires Holds(s, files, total)
    ensures |files| <= 64 && |s| == 512 * total && |s| >= 8192
  {
  }

  lemma {:induction false} HeldZeros(s: seq<byte>, files: seq<File>, total: nat, p: nat)
    requires Holds(s, files, total) && 20 <= p < |s|
    requires forall i | 0 <= i < |files| :: !InEntry(p, i) && !InContent(p, i, |files[i].content|)
    ensures s[p] == 0
  {
    hide EntryHolds;
    forall i | 0 <= i < |files| ensures !Owned(p, i, files[i]) {
      assert !InEntry(p, i) && !InContent(p, i, |files[i].content|);
      PlacesAre(i);
    }
  }

  lemma {:induction false} MagicIs(s: seq<byte>)
    requires |s| >= 4 && ReadU32(s, 0) == MAGIC
    ensures s[..4] == [0x4d, 0x46, 0x53, 0x31]
  {
    var a, b, c, d := s[0] as int, s[1] as int, s[2] as int, s[3] as int;
    assert a + 256 * b + 65536 * c + 16777216 * d == 0x4d + 256 * 0x46 + 65536 * 0x53 + 16777216 * 0x31;
    assert a == 0x4d && b == 0x46 && c == 0x53 && d == 0x31;
  }

  /** What holds the files is that image. */
  lemma {:induction false} HeldImage(s: seq<byte>, files: seq<File>, sizeMib: int)
    requires sizeMib >= 1 && Holds(s, files, TotalSectors(sizeMib))
    ensures Image(s, files, sizeMib)
  {
    hide Holds, FileAt, ReadU32;
    var total := TotalSectors(sizeMib);
    SuperBlockReads(s, files, total);
    HeldCount(s, files, total);
    MagicIs(s);
    WordIsRead(s, 4, 1);
    WordIsRead(s, 8, |files|);
    WordIsRead(s, 12, 16 + 128 * |files|);
    WordIsRead(s, 16, sizeMib * 2048);
    hide WordAt, InEntry, InContent;
    forall i | 0 <= i < |files| ensures FileAt(s, i, files[i]) { HeldFile(s, files, total, i); }
    forall p | 20 <= p < |s| && (forall i | 0 <= i < |files| :: !InEntry(p, i) && !InContent(p, i, |files[i].content|)) ensures s[p] == 0 {
      HeldZeros(s, files, total, p);
    }
  }

  /** What input there is an image for: whole mebibytes that a 32-bit sector number reaches, at most 64
      files with distinct printable names of 1 to 23 characters and at most 65536 bytes each, and room
      for 128 sectors of each behind the first 16. */
  lemma {:induction false} BuildableIff(sizeMib: int, seeds: seq<Seed>)
    ensures Buildable(sizeMib, seeds) <==>
      && 1 <= sizeMib < 2097152 && |seeds| <= 64 && 16 + 128 * |seeds| <= 2048 * sizeMib
      && (forall i | 0 <= i < |seeds| ::
            && 1 <= |seeds[i].name| <= 23 && (forall k | 0 <= k < |seeds[i].name| :: 32 <= seeds[i].name[k] as int <= 126)
            && seeds[i].data.Some? && |ContentOf(seeds[i])| <= 65536)
      && forall i, j | 0 <= i < j < |seeds| :: seeds[i].name != seeds[j].name
  {
    hide ContentOf;
    forall i | 0 <= i < |seeds|
      ensures GoodSeed(seeds[i]) <==>
        && 1 <= |seeds[i].name| <= 23 && (forall k | 0 <= k < |seeds[i].name| :: 32 <= seeds[i].name[k] as int <= 126)
        && seeds[i].data.Some? && |ContentOf(seeds[i])| <= 65536
    {
    }
  }

  // ----- line ends -----

  function Joined(pieces: seq<seq<byte>>, separator: seq<byte>): seq<byte>
    requires pieces != []
  {
    if |pieces| == 1 then pieces[0] else pieces[0] + separator + Joined(pieces[1..], separator)
  }

  ghost predicate NoCrLf(pieces: seq<seq<byte>>)
  {
    forall i | 0 <= i < |pieces| :: !HasCrLf(pieces[i])
  }

  lemma {:induction false} NormalizePiece(p: seq<byte>, rest: seq<byte>)
    requires !HasCrLf(p) && (p != [] && p[|p| - 1] == 13 ==> rest == [] || rest[0] != 10)
    ensures Normalize(p + rest) == p + Normalize(rest)
  {
    if p == [] {
      assert p + rest == rest;
    } else {
      var all := p + rest;
      assert all[1..] == p[1..] + rest;
      if |p| >= 2 {
        assert !(p[0] == 13 && p[0 + 1] == 10);
        assert all[1] == p[1];
      }
      forall i | 0 <= i < |p[1..]| - 1 ensures !(p[1..][i] == 13 && p[1..][i + 1] == 10) {
        assert !(p[i + 1] == 13 && p[i + 1 + 1] == 10);
      }
      NormalizePiece(p[1..], rest);
    }
  }

  /** Text between CR LF pairs is kept, and each pair becomes one LF. */
  lemma {:induction false} NormalizeJoins(pieces: seq<seq<byte>>)
    requires pieces != [] && NoCrLf(pieces)
    ensures Normalize(Joined(pieces, [13, 10])) == Joined(pieces, [10])
  {
    var p := pieces[0];
    assert !HasCrLf(p);
    if |pieces| == 1 {
      NormalizePiece(p, []);
      assert p + [] == p;
    } else {
      var more := Joined(pieces[1..], [13, 10]);
      var rest := [13, 10] + more;
      assert Joined(pieces, [13, 10]) == p + rest;
      assert rest[0] == 13 && rest[1] == 10 && rest[2..] == more;
      NormalizePiece(p, rest);
      NormalizeJoins(pieces[1..]);
    }
  }

  /** Every text is such a row of pieces. */
  lemma {:induction false} PiecesOf(data: seq<byte>) returns (pieces: seq<seq<byte>>)
    ensures pieces != [] && NoCrLf(pieces) && Joined(pieces, [13, 10]) == data
    ensures data != [] && data[0] == 10 ==> pieces[0] != [] && pieces[0][0] == 10
    ensures pieces[0] != [] && pieces[0][0] == 10 ==> data != [] && data[0] == 10
    decreases |data|
  {
    if data == [] {
      pieces := [[]];
    } else if |data| >= 2 && data[0] == 13 && data[1] == 10 {
      var more := PiecesOf(data[2..]);
      pieces := [[]] + more;
      assert pieces[1..] == more && [] + [13, 10] + data[2..] == data;
    } else {
      var more := PiecesOf(data[1..]);
      var first := [data[0]] + more[0];
      pieces := [first] + more[1..];
      assert pieces[1..] == more[1..];
      assert data == [data[0]] + data[1..];
      assert !HasCrLf(more[0]);
      FrontCrLf(data[0], more[0]);
      forall i | 0 <= i < |pieces| ensures !HasCrLf(pieces[i]) { if i > 0 { assert pieces[i] == more[i]; } }
    }
  }
}
