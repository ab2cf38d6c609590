/** The numbers of every built ISO image, as a reader of either byte order finds them. */
module IsoFields {
  import opened Bytes
  import opened IsoNames
  import opened IsoImage
  import opened IsoBuilder
  import opened IsoRoundTrip

  // ---------------------------------------------------------- both byte orders --

  function ReadBe16(s: seq<byte>, at: nat): (v: word)
    requires at + 2 <= |s|
  {
    var hi: int, lo: int := s[at], s[at + 1];
    0x100 * hi + lo
  }

  function ReadBe32(s: seq<byte>, at: nat): (v: dword)
    requires at + 4 <= |s|
  {
    var a: int, b: int, c: int, d: int := s[at], s[at + 1], s[at + 2], s[at + 3];
    0x100_0000 * a + 0x1_0000 * b + 0x100 * c + d
  }

  /** A number stored little-endian, then big-endian. */
  ghost predicate Both16(s: seq<byte>, at: nat, v: int)
  {
    at + 4 <= |s| && ReadLe16(s, at) == ReadBe16(s, at + 2) == v
  }

  ghost predicate Both32(s: seq<byte>, at: nat, v: int)
  {
    at + 8 <= |s| && ReadLe32(s, at) == ReadBe32(s, at + 4) == v
  }

  lemma ReadBe32OfBe32(v: dword, s: seq<byte>, at: nat)
    requires at + 4 <= |s| && s[at..at + 4] == Be32(v)
    ensures ReadBe32(s, at) == v
  {
    var field := s[at..at + 4];
    assert s[at] == field[0] && s[at + 1] == field[1] && s[at + 2] == field[2] && s[at + 3] == field[3];
    var q := v / 0x100;
    var r := q / 0x100;
    assert v == 0x100 * q + v % 0x100 && q == 0x100 * r + q % 0x100 && r == 0x100 * (r / 0x100) + r % 0x100;
  }

  lemma BothRead(v: dword, s: seq<byte>, at: nat)
    requires at + 8 <= |s| && s[at..at + 8] == Le32(v) + Be32(v)
    ensures Both32(s, at, v)
  {
    var field := s[at..at + 8];
    assert s[at..at + 4] == field[..4] && s[at + 4..at + 8] == field[4..];
    hide Le32, Be32;
    ReadLe32OfLe32(v, s, at);
    ReadBe32OfBe32(v, s, at + 4);
  }

  lemma BothShort(v: word, s: seq<byte>, at: nat)
    requires at + 4 <= |s| && s[at..at + 4] == Le16(v) + Be16(v)
    ensures Both16(s, at, v)
  {
    var field := s[at..at + 4];
    assert s[at] == field[0] && s[at + 1] == field[1] && s[at + 2] == field[2] && s[at + 3] == field[3];
  }

  lemma Inside(s: seq<byte>, at: nat, piece: seq<byte>, from: nat, to: nat)
    requires at + |piece| <= |s| && s[at..at + |piece|] == piece && from <= to <= |piece|
    ensures s[at + from..at + to] == piece[from..to]
  {
    var all, part := s[at..at + |piece|], s[at + from..at + to];
    assert forall k :: 0 <= k < to - from ==> part[k] == all[from + k];
  }

  // --------------------------------------------------------- directory records --

  /** A directory record: its length, extent and size in both orders, a date in 2026, flags, volume 1 in
      both orders, and the identifier. */
  ghost predicate RecordIs(s: seq<byte>, at: nat, extent: int, size: int, flags: byte, ident: seq<byte>)
  {
    && at + 32 + |ident| <= |s| && s[at] == 32 + |ident| + |ident| % 2
    && Both32(s, at + 1, extent) && Both32(s, at + 9, size)
    && s[at + 17..at + 24] == [126, 1, 1, 0, 0, 0, 0] && s[at + 24..at + 27] == [flags, 0, 0] && Both16(s, at + 27, 1)
    && s[at + 31] == |ident| && s[at + 32..at + 32 + |ident|] == ident
  }

  lemma RecordParts(extent: dword, size: dword, flags: byte, ident: seq<byte>)
    requires |ident| <= 27
    ensures var rec := DirRecord(extent, size, flags, ident);
      && |rec| == 32 + |ident| + |ident| % 2 == rec[0]
      && rec[1..9] == Le32(extent) + Be32(extent) && rec[9..17] == Le32(size) + Be32(size)
      && rec[17..24] == [126, 1, 1, 0, 0, 0, 0] && rec[24..27] == [flags, 0, 0] && rec[27..31] == Le16(1) + Be16(1)
      && rec[31] == |ident| && rec[32..32 + |ident|] == ident
  {
    hide Le32, Be32, Le16, Be16;
  }

  /** Wherever a record lies, both halves of its numbers agree. */
  lemma RecordReadsBoth(s: seq<byte>, at: nat, extent: dword, size: dword, flags: byte, ident: seq<byte>)
    requires |ident| <= 27 && at + RecordLength(ident) <= |s|
    requires s[at..at + RecordLength(ident)] == DirRecord(extent, size, flags, ident)
    ensures RecordIs(s, at, extent, size, flags, ident)
  {
    var rec := DirRecord(extent, size, flags, ident);
    RecordParts(extent, size, flags, ident);
    hide DirRecord, Le32, Be32, Le16, Be16, Both32, Both16;
    Inside(s, at, rec, 1, 9);
    Inside(s, at, rec, 9, 17);
    Inside(s, at, rec, 17, 24);
    Inside(s, at, rec, 24, 27);
    Inside(s, at, rec, 27, 31);
    Inside(s, at, rec, 32, 32 + |ident|);
    BothRead(extent, s, at + 1);
    BothRead(size, s, at + 9);
    BothShort(1, s, at + 27);
    assert s[at] == s[at..at + |rec|][0] && s[at + 31] == s[at..at + |rec|][31];
  }

  // ------------------------------------------------------- the root directory --

  lemma {:induction false} LbaFromLeft(s: seq<InputFile>, first: nat, i: nat)
    requires 0 < i <= |s|
    ensures LbaAt(s, first, i) == LbaAt(s[1..], first + SectorsFor(|s[0].contents|), i - 1)
  {
    if i > 1 {
      LbaFromLeft(s, first, i - 1);
    }
  }

  lemma {:induction false} RecordOf(s: seq<InputFile>, lba: nat, i: nat)
    requires i < |s|
    ensures Records(s, lba)[i] == FileRecord(s[i], LbaAt(s, lba, i))
    decreases i
  {
    hide FileRecord;
    if i > 0 {
      RecordOf(s[1..], lba + SectorsFor(|s[0].contents|), i - 1);
      LbaFromLeft(s, lba, i);
    }
  }

  /** How many bytes the first `i` pieces take. */
  function Before(pieces: seq<seq<byte>>, i: nat): (n: nat)
    requires i <= |pieces|
  {
    if i == 0 then 0 else |pieces[0]| + Before(pieces[1..], i - 1)
  }

  lemma {:induction false} FlattenAt(pieces: seq<seq<byte>>, i: nat)
    requires i < |pieces|
    ensures Before(pieces, i) + |pieces[i]| <= |Flatten(pieces)|
    ensures Flatten(pieces)[Before(pieces, i)..Before(pieces, i) + |pieces[i]|] == pieces[i]
    decreases i
  {
    if i > 0 {
      FlattenAt(pieces[1..], i - 1);
      Inside(Flatten(pieces), |pieces[0]|, Flatten(pieces[1..]), Before(pieces[1..], i - 1),
        Before(pieces[1..], i - 1) + |pieces[i]|);
    }
  }

  /** Where the record of file `i` lies: behind the two records of the directory itself and those of the
      files before it. */
  function RecordAt(s: seq<InputFile>, i: nat): (at: nat)
    requires i < |s|
  {
    20 * SECTOR + 68 + Before(Records(s, 21), i)
  }

  /** The root directory of an image: the piece of a file's record. */
  lemma RecordInImage(img: seq<byte>, root: seq<byte>, dots: seq<byte>, pieces: seq<seq<byte>>, i: nat)
    requires 21 * SECTOR <= |img| && |root| <= SECTOR && img[20 * SECTOR..21 * SECTOR] == Fit(root, SECTOR)
    requires |dots| == 68 && root == dots + Flatten(pieces) && i < |pieces|
    ensures var at := 20 * SECTOR + 68 + Before(pieces, i);
      at + |pieces[i]| <= |img| && img[at..at + |pieces[i]|] == pieces[i]
  {
    FlattenAt(pieces, i);
    var o, n := 68 + Before(pieces, i), |pieces[i]|;
    RootStarts(img, root);
    Inside(img, 20 * SECTOR, root, 68, |root|);
    assert root[68..] == Flatten(pieces);
    Inside(img, 20 * SECTOR + 68, Flatten(pieces), Before(pieces, i), Before(pieces, i) + n);
  }

  lemma RootStarts(img: seq<byte>, root: seq<byte>)
    requires 21 * SECTOR <= |img| && |root| <= SECTOR && img[20 * SECTOR..21 * SECTOR] == Fit(root, SECTOR)
    ensures img[20 * SECTOR..20 * SECTOR + |root|] == root
  {
    var sector := img[20 * SECTOR..21 * SECTOR];
    Inside(img, 20 * SECTOR, sector, 0, |root|);
  }

  lemma {:induction false} HoldsAt(img: seq<byte>, s: seq<InputFile>, lba: nat, i: nat)
    requires Holds(img, s, lba) && i < |s|
    ensures var at, n := LbaAt(s, lba, i) * SECTOR, |s[i].contents|;
      at + n <= |img| && img[at..at + n] == s[i].contents
    decreases i
  {
    hide SectorsFor;
    if i > 0 {
      HoldsAt(img, s[1..], lba + SectorsFor(|s[0].contents|), i - 1);
      LbaFromLeft(s, lba, i);
    }
  }

  lemma LbaFits(s: seq<InputFile>, i: nat)
    requires Stored(s) && i <= |s|
    ensures LbaAt(s, 21, i) <= 21 + DataSectors(s) < 0x1_0000_0000
  {
    SectorsBounded(s);
    LbaEnd(s, 21, i);
  }

  /** Every file lies at the extent that its record names. */
  lemma FileLies(s: seq<InputFile>, img: seq<byte>, i: nat)
    requires Stored(s) && |Root(s)| >= 34 && img == Image(s) && i < |s|
    ensures var at, n := LbaAt(s, 21, i) * SECTOR, |s[i].contents|;
      at + n <= |img| && img[at..at + n] == s[i].contents
  {
    hide Image, Root, Volume, Data, Holds, Stored, LbaAt;
    ImageParts(s, img);
    DataHolds(img, s, 21);
    HoldsAt(img, s, 21, i);
  }

  lemma FileRecordIs(f: InputFile, lba: nat)
    requires lba < 0x1_0000_0000 && |f.contents| < 0x1_0000_0000
    ensures FileRecord(f, lba) == DirRecord(lba, |f.contents|, 0, Ident(f.name))
  {
    hide DirRecord, Ident;
  }

  lemma FileBounds(s: seq<InputFile>, i: nat)
    requires Stored(s) && i < |s|
    ensures StoredName(s[i].name) && |s[i].contents| < 0x1_0000_0000
  {
  }

  lemma RecordFitsRoot(s: seq<InputFile>, i: nat)
    requires Stored(s) && i < |s|
    ensures |Ident(s[i].name)| <= 27 && LbaAt(s, 21, i) < 0x1_0000_0000 && |s[i].contents| < 0x1_0000_0000
    ensures Records(s, 21)[i] == DirRecord(LbaAt(s, 21, i), |s[i].contents|, 0, Ident(s[i].name))
  {
    hide LbaAt, DirRecord, Ident, Records, StoredName, Stored, FileRecord;
    FileBounds(s, i);
    LbaFits(s, i);
    RecordOf(s, 21, i);
    NameFits(s[i].name);
    FileRecordIs(s[i], LbaAt(s, 21, i));
  }

  /** The record of every file in the root directory. */
  lemma FileListed(s: seq<InputFile>, img: seq<byte>, i: nat)
    requires Stored(s) && |Root(s)| >= 34 && img == Image(s) && i < |s|
    ensures RecordIs(img, RecordAt(s, i), LbaAt(s, 21, i), |s[i].contents|, 0, Ident(s[i].name))
  {
    hide Image, Root, Volume, Data, Dots, Records, RecordIs, LbaAt, DirRecord, Ident, Stored;
    RecordFitsRoot(s, i);
    ImageParts(s, img);
    RootFits(s);
    RecordInImage(img, Root(s), Dots(ROOT_DIR_LBA, SECTOR), Records(s, 21), i);
    RecordReadsBoth(img, RecordAt(s, i), LbaAt(s, 21, i), |s[i].contents|, 0, Ident(s[i].name));
  }

  lemma DotsAre(root: seq<byte>, records: seq<byte>)
    requires root == Dots(ROOT_DIR_LBA, SECTOR) + records
    ensures root[..34] == DirRecord(20, SECTOR, 2, [0]) && root[34..68] == DirRecord(20, SECTOR, 2, [1])
  {
    hide DirRecord;
    assert |DirRecord(20, SECTOR, 2, [0])| == 34 && |DirRecord(20, SECTOR, 2, [1])| == 34;
  }

  /** The records of the directory itself, in the directory and in the volume descriptor. */
  lemma DirectoryListed(s: seq<InputFile>, img: seq<byte>)
    requires Stored(s) && |Root(s)| >= 34 && img == Image(s)
    ensures RecordIs(img, 20 * SECTOR, 20, SECTOR, 2, [0]) && RecordIs(img, 20 * SECTOR + 34, 20, SECTOR, 2, [1])
    ensures RecordIs(img, PVD_AT + 116, 20, SECTOR, 2, [0])
  {
    hide Image, Root, Volume, Data, Records, RecordIs, DirRecord, Stored, Dots;
    var root := Root(s);
    ImageParts(s, img);
    RootFits(s);
    DescriptorsRead(img[..20 * SECTOR], U32(TotalSectors(s)), root[..34]);
    RootStarts(img, root);
    DotsAre(root, FileRecords(s, ROOT_DIR_LBA + 1));
    Inside(img, 20 * SECTOR, root, 0, 34);
    Inside(img, 20 * SECTOR, root, 34, 68);
    RecordReadsBoth(img, 20 * SECTOR, 20, SECTOR, 2, [0]);
    RecordReadsBoth(img, 20 * SECTOR + 34, 20, SECTOR, 2, [1]);
    Inside(img, 0, img[..20 * SECTOR], PVD_AT + 116, PVD_AT + 150);
    RecordReadsBoth(img, PVD_AT + 116, 20, SECTOR, 2, [0]);
  }

  // ------------------------------------------------------- the volume descriptor --

  /** `text`, filled up with blanks to `n` bytes. */
  ghost predicate TextAt(s: seq<byte>, at: nat, n: nat, text: string)
  {
    && at + n <= |s| && |text| <= n
    && forall k :: 0 <= k < n ==> s[at + k] as char == if k < |text| then text[k] else ' '
  }

  predicate IsAscii(text: string)
  {
    forall k :: 0 <= k < |text| ==> text[k] < 128 as char
  }

  lemma BlankedIsText(s: seq<byte>, at: nat, n: nat, text: string)
    requires at + n <= |s| && |text| <= n && IsAscii(text) && s[at..at + n] == Blanked(Ascii(text), n)
    ensures TextAt(s, at, n, text)
  {
    var field := s[at..at + n];
    forall k | 0 <= k < n
      ensures s[at + k] as char == if k < |text| then text[k] else ' '
    {
      assert s[at + k] == field[k];
    }
  }

  /** The head of the volume descriptor at `p`. */
  ghost predicate HeadIs(s: seq<byte>, p: nat)
  {
    && TextAt(s, p + 1, 5, "CD001") && TextAt(s, p + 8, 32, "QEMUCENTER") && TextAt(s, p + 40, 32, "CIDATA")
    && s[p] == 1 && s[p + 6] == 1
  }

  lemma StandardIdIs()
    ensures Blanked(Ascii("CD001"), 5) == StandardId() && Ascii("CIDATA") == Cidata()
  {
  }

  lemma HeadPieces(head: seq<byte>)
    requires head == PvdHead()
    ensures |head| == 72 && head[0] == 1 && head[1..6] == Blanked(Ascii("CD001"), 5) && head[6] == 1
    ensures head[8..40] == Blanked(Ascii("QEMUCENTER"), 32) && head[40..72] == Blanked(Ascii("CIDATA"), 32)
  {
    StandardIdIs();
    hide Blanked, Ascii, Cidata, StandardId;
  }

  lemma HeadRead(s: seq<byte>, p: nat)
    requires p + 72 <= |s| && s[p..p + 72] == PvdHead()
    ensures HeadIs(s, p)
  {
    hide PvdHead, Blanked, Ascii, TextAt;
    var head := s[p..p + 72];
    HeadPieces(head);
    Inside(s, p, head, 1, 6);
    Inside(s, p, head, 8, 40);
    Inside(s, p, head, 40, 72);
    BlankedIsText(s, p + 1, 5, "CD001");
    BlankedIsText(s, p + 8, 32, "QEMUCENTER");
    BlankedIsText(s, p + 40, 32, "CIDATA");
    assert s[p] == head[0] && s[p + 6] == head[6];
  }

  /** Its sizes: the volume in sectors, the set, the sequence number, the sector size, the path tables. */
  ghost predicate SizesAre(s: seq<byte>, p: nat, space: int)
  {
    && Both32(s, p + 72, space) && Both16(s, p + 80, 1) && Both16(s, p + 84, 1) && Both16(s, p + 88, SECTOR)
    && Both32(s, p + 92, 10) && p + 116 <= |s|
    && ReadLe32(s, p + 100) == PATH_TABLE_L_LBA && ReadLe32(s, p + 104) == 0
    && ReadBe32(s, p + 108) == PATH_TABLE_M_LBA && ReadBe32(s, p + 112) == 0
  }

  lemma SizePiecesAre(space: dword, f: seq<byte>)
    requires f == PvdSizes(space) + PvdTables()
    ensures |f| == 44 && f[0..8] == Le32(space) + Be32(space) && f[8..12] == Le16(1) + Be16(1) == f[12..16]
    ensures f[16..20] == Le16(SECTOR) + Be16(SECTOR) && f[20..28] == Le32(10) + Be32(10)
    ensures f[28..32] == Le32(PATH_TABLE_L_LBA) && f[32..36] == Le32(0)
    ensures f[36..40] == Be32(PATH_TABLE_M_LBA) && f[40..44] == Be32(0)
  {
    hide Le32, Be32, Le16, Be16;
  }

  lemma SizesRead(s: seq<byte>, p: nat, space: dword)
    requires p + 116 <= |s| && s[p + 72..p + 116] == PvdSizes(space) + PvdTables()
    ensures SizesAre(s, p, space)
  {
    var f := s[p + 72..p + 116];
    SizePiecesAre(space, f);
    hide PvdSizes, PvdTables, Le32, Be32, Le16, Be16, Both32, Both16;
    Inside(s, p + 72, f, 0, 8);
    Inside(s, p + 72, f, 8, 12);
    Inside(s, p + 72, f, 12, 16);
    Inside(s, p + 72, f, 16, 20);
    Inside(s, p + 72, f, 20, 28);
    Inside(s, p + 72, f, 28, 32);
    Inside(s, p + 72, f, 32, 36);
    Inside(s, p + 72, f, 36, 40);
    Inside(s, p + 72, f, 40, 44);
    BothRead(space, s, p + 72);
    BothShort(1, s, p + 80);
    BothShort(1, s, p + 84);
    BothShort(SECTOR, s, p + 88);
    BothRead(10, s, p + 92);
    ReadLe32OfLe32(PATH_TABLE_L_LBA, s, p + 100);
    ReadLe32OfLe32(0, s, p + 104);
    ReadBe32OfBe32(PATH_TABLE_M_LBA, s, p + 108);
    ReadBe32OfBe32(0, s, p + 112);
  }

  /** Its texts: volume set, publisher, preparer, application. */
  ghost predicate TextsAre(s: seq<byte>, p: nat)
  {
    && TextAt(s, p + 190, 32, "CIDATA") && TextAt(s, p + 318, 128, "qemu-center")
    && TextAt(s, p + 446, 128, "qemu-center iso.rs") && TextAt(s, p + 574, 128, "QEMU-CENTER")
  }

  lemma TextPieces(f: seq<byte>)
    requires f == PvdTexts()
    ensures |f| == 552 && f[40..72] == Blanked(Ascii("CIDATA"), 32)
    ensures f[168..296] == Blanked(Ascii("qemu-center"), 128)
    ensures f[296..424] == Blanked(Ascii("qemu-center iso.rs"), 128)
    ensures f[424..552] == Blanked(Ascii("QEMU-CENTER"), 128)
  {
    StandardIdIs();
    hide Blanked, Ascii, Cidata;
  }

  lemma TextsRead(s: seq<byte>, p: nat)
    requires p + 702 <= |s| && s[p + 150..p + 702] == PvdTexts()
    ensures TextAt(s, p + 190, 32, "CIDATA") && TextAt(s, p + 318, 128, "qemu-center")
    ensures TextAt(s, p + 446, 128, "qemu-center iso.rs") && TextAt(s, p + 574, 128, "QEMU-CENTER")
  {
    hide PvdTexts, TextAt, Blanked, Ascii;
    var f := s[p + 150..p + 702];
    TextPieces(f);
    Inside(s, p + 150, f, 40, 72);
    Inside(s, p + 150, f, 168, 296);
    Inside(s, p + 150, f, 296, 424);
    Inside(s, p + 150, f, 424, 552);
    BlankedIsText(s, p + 190, 32, "CIDATA");
    BlankedIsText(s, p + 318, 128, "qemu-center");
    BlankedIsText(s, p + 446, 128, "qemu-center iso.rs");
    BlankedIsText(s, p + 574, 128, "QEMU-CENTER");
  }

  /** A date of 16 digits, and a zero byte. */
  ghost predicate DateAt(s: seq<byte>, at: nat)
  {
    TextAt(s, at, 16, "2026010100000000") && at + 17 <= |s| && s[at + 16] == 0
  }

  lemma DateReads(s: seq<byte>, at: nat)
    requires at + 17 <= |s| && s[at..at + 17] == VolumeDate()
    ensures DateAt(s, at)
  {
    var f := s[at..at + 17];
    assert Blanked(Ascii("2026010100000000"), 16) == Ascii("2026010100000000") == f[..16];
    hide VolumeDate, Blanked, Ascii;
    Inside(s, at, f, 0, 16);
    BlankedIsText(s, at, 16, "2026010100000000");
    assert s[at + 16] == f[16];
  }

  lemma DatesRead(s: seq<byte>, p: nat)
    requires p + 882 <= |s| && s[p + 702..p + 882] == PvdDates()
    ensures DateAt(s, p + 813) && DateAt(s, p + 830) && DateAt(s, p + 847) && DateAt(s, p + 864) && s[p + 881] == 1
  {
    var f := s[p + 702..p + 882];
    hide VolumeDate, DateAt;
    assert f[111..128] == VolumeDate() && f[128..145] == VolumeDate();
    assert f[145..162] == VolumeDate() && f[162..179] == VolumeDate() && f[179] == 1;
    hide PvdDates;
    Inside(s, p + 702, f, 111, 128);
    Inside(s, p + 702, f, 128, 145);
    Inside(s, p + 702, f, 145, 162);
    Inside(s, p + 702, f, 162, 179);
    DateReads(s, p + 813);
    DateReads(s, p + 830);
    DateReads(s, p + 847);
    DateReads(s, p + 864);
    assert s[p + 881] == f[179];
  }

  /** The primary descriptor at `p`, apart from its copy of the root's record. */
  ghost predicate DescriptorIs(s: seq<byte>, p: nat, space: int)
  {
    && HeadIs(s, p) && SizesAre(s, p, space) && TextsAre(s, p)
    && DateAt(s, p + 813) && DateAt(s, p + 830) && DateAt(s, p + 847) && DateAt(s, p + 864)
    && p + 882 <= |s| && s[p + 881] == 1
  }

  lemma DescriptorReads(s: seq<byte>, p: nat, space: dword, root: seq<byte>)
    requires |root| == 34 && p + SECTOR <= |s| && s[p..p + SECTOR] == Pvd(space, root)
    ensures DescriptorIs(s, p, space)
  {
    var pvd, rest := s[p..p + SECTOR], Zeros(SECTOR - 882);
    hide PvdHead, PvdSizes, PvdTables, PvdTexts, PvdDates, HeadIs, SizesAre, DateAt;
    PvdPieces(PvdHead(), PvdSizes(space), PvdTables(), root, PvdTexts(), PvdDates(), rest, pvd);
    hide Pvd, TextAt;
    Inside(s, p, pvd, 0, 72);
    Inside(s, p, pvd, 72, 116);
    Inside(s, p, pvd, 150, 702);
    Inside(s, p, pvd, 702, 882);
    HeadRead(s, p);
    SizesRead(s, p, space);
    TextsRead(s, p);
    DatesRead(s, p);
  }

  lemma PvdPieces(a: seq<byte>, b: seq<byte>, c: seq<byte>, d: seq<byte>, e: seq<byte>, f: seq<byte>, g: seq<byte>,
      all: seq<byte>)
    requires |a| == 72 && |b| == 20 && |c| == 24 && |d| == 34 && |e| == 552 && |f| == 180
    requires all == a + b + c + d + e + f + g
    ensures all[0..72] == a && all[72..116] == b + c && all[150..702] == e && all[702..882] == f
  {
  }

  // ------------------------------------------------- terminator and path tables --

  /** The sectors behind the primary descriptor at sector 16: the terminator, and a path table in each
      byte order, both naming the root directory's sector. */
  ghost predicate TablesAre(s: seq<byte>)
  {
    && 20 * SECTOR <= |s|
    && s[17 * SECTOR] == 255 && TextAt(s, 17 * SECTOR + 1, 5, "CD001") && s[17 * SECTOR + 6] == 1
    && s[18 * SECTOR..18 * SECTOR + 2] == [1, 0] && s[19 * SECTOR..19 * SECTOR + 2] == [1, 0]
    && ReadLe32(s, 18 * SECTOR + 2) == 20 && ReadBe32(s, 19 * SECTOR + 2) == 20
    && ReadLe16(s, 18 * SECTOR + 6) == 1 && ReadBe16(s, 19 * SECTOR + 6) == 1
    && s[18 * SECTOR + 8] == 0 && s[19 * SECTOR + 8] == 0
  }

  lemma TerminatorReads(s: seq<byte>, t: nat)
    requires t + SECTOR <= |s| && s[t..t + SECTOR] == Terminator()
    ensures s[t] == 255 && TextAt(s, t + 1, 5, "CD001") && s[t + 6] == 1
  {
    var f := s[t..t + SECTOR];
    StandardIdIs();
    assert f[1..6] == StandardId() && f[0] == 255 && f[6] == 1;
    hide Terminator, Blanked, Ascii;
    Inside(s, t, f, 1, 6);
    BlankedIsText(s, t + 1, 5, "CD001");
    assert s[t] == f[0] && s[t + 6] == f[6];
  }

  lemma TableReads(s: seq<byte>, t: nat, lba: seq<byte>, parent: seq<byte>)
    requires |lba| == 4 && |parent| == 2 && t + SECTOR <= |s| && s[t..t + SECTOR] == PathTable(lba, parent)
    ensures s[t..t + 2] == [1, 0] && s[t + 2..t + 6] == lba && s[t + 6..t + 8] == parent && s[t + 8] == 0
  {
    var f := s[t..t + SECTOR];
    assert f[0..2] == [1, 0] && f[2..6] == lba && f[6..8] == parent && f[8] == 0;
    hide PathTable;
    Inside(s, t, f, 0, 2);
    Inside(s, t, f, 2, 6);
    Inside(s, t, f, 6, 8);
    assert s[t + 8] == f[8];
  }

  lemma TablesRead(s: seq<byte>)
    requires 20 * SECTOR <= |s| && s[17 * SECTOR..18 * SECTOR] == Terminator()
    requires s[18 * SECTOR..19 * SECTOR] == PathTable(Le32(20), Le16(1))
    requires s[19 * SECTOR..20 * SECTOR] == PathTable(Be32(20), Be16(1))
    ensures TablesAre(s)
  {
    TerminatorReads(s, 17 * SECTOR);
    hide Terminator, PathTable, TextAt;
    TableReads(s, 18 * SECTOR, Le32(20), Le16(1));
    TableReads(s, 19 * SECTOR, Be32(20), Be16(1));
    ReadLe32OfLe32(20, s, 18 * SECTOR + 2);
    ReadBe32OfBe32(20, s, 19 * SECTOR + 2);
    assert s[18 * SECTOR + 6] == s[18 * SECTOR + 6..18 * SECTOR + 8][0];
    assert s[18 * SECTOR + 7] == s[18 * SECTOR + 6..18 * SECTOR + 8][1];
    assert s[19 * SECTOR + 6] == s[19 * SECTOR + 6..19 * SECTOR + 8][0];
    assert s[19 * SECTOR + 7] == s[19 * SECTOR + 6..19 * SECTOR + 8][1];
  }

  lemma VolumePieces(volume: seq<byte>, space: dword, root: seq<byte>)
    requires |root| == 34 && volume == Volume(space, root)
    ensures volume[16 * SECTOR..17 * SECTOR] == Pvd(space, root) && volume[17 * SECTOR..18 * SECTOR] == Terminator()
    ensures volume[18 * SECTOR..19 * SECTOR] == PathTable(Le32(20), Le16(1))
    ensures volume[19 * SECTOR..20 * SECTOR] == PathTable(Be32(20), Be16(1))
  {
    hide Pvd, Terminator, PathTable;
    FourPieces(Pvd(space, root), Terminator(), PathTable(Le32(20), Le16(1)), PathTable(Be32(20), Be16(1)), volume);
  }

  lemma FourPieces(a: seq<byte>, b: seq<byte>, c: seq<byte>, d: seq<byte>, all: seq<byte>)
    requires |a| == |b| == |c| == |d| == SECTOR && all == Zeros(PVD_AT) + a + b + (c + d)
    ensures all[16 * SECTOR..17 * SECTOR] == a && all[17 * SECTOR..18 * SECTOR] == b
    ensures all[18 * SECTOR..19 * SECTOR] == c && all[19 * SECTOR..20 * SECTOR] == d
  {
  }

  lemma SpaceFits(s: seq<InputFile>)
    requires Stored(s)
    ensures U32(TotalSectors(s)) == TotalSectors(s)
  {
    hide DataSectors, RootSectors, LbaAt;
    RootFits(s);
    LbaFits(s, |s|);
  }

  lemma SystemArea(s: seq<InputFile>, img: seq<byte>)
    requires Stored(s) && |Root(s)| >= 34 && img == Image(s)
    ensures |img| == TotalSectors(s) * SECTOR && DescriptorIs(img, 16 * SECTOR, TotalSectors(s)) && TablesAre(img)
  {
    hide Image, Root, Volume, Data, Stored, DescriptorIs, TablesAre, Pvd, Terminator, PathTable, TotalSectors;
    ImageParts(s, img);
    SpaceFits(s);
    var volume := img[..20 * SECTOR];
    VolumePieces(volume, TotalSectors(s), Root(s)[..34]);
    Inside(img, 0, volume, 16 * SECTOR, 17 * SECTOR);
    Inside(img, 0, volume, 17 * SECTOR, 18 * SECTOR);
    Inside(img, 0, volume, 18 * SECTOR, 19 * SECTOR);
    Inside(img, 0, volume, 19 * SECTOR, 20 * SECTOR);
    DescriptorReads(img, 16 * SECTOR, TotalSectors(s), Root(s)[..34]);
    TablesRead(img);
  }

  // ---------------------------------------------------------------- theorems --

  lemma BuiltImage(files: seq<InputFile>)
    requires Build(files).Ok?
    ensures Accepted(files).Ok?
    ensures var s := Accepted(files).value;
      Stored(s) && |Root(s)| >= 34 && Build(files).value == Image(s)
  {
    hide Accepted, Image, Root, Stored;
    AcceptedIsStored(files);
    RootFits(Accepted(files).value);
  }

  /** In every built image both halves of every number in the volume descriptor agree; the volume space
      is the image's length in sectors; and the path tables, the descriptor and the directory's own
      records name the root directory's sector. */
  lemma DescriptorAgrees(files: seq<InputFile>)
    requires Build(files).Ok?
    ensures var img := Build(files).value;
      && |img| % SECTOR == 0 && DescriptorIs(img, 16 * SECTOR, |img| / SECTOR) && TablesAre(img)
      && RecordIs(img, 16 * SECTOR + 116, 20, SECTOR, 2, [0])
      && RecordIs(img, 20 * SECTOR, 20, SECTOR, 2, [0]) && RecordIs(img, 20 * SECTOR + 34, 20, SECTOR, 2, [1])
  {
    hide Accepted, Build, Image, Root, Stored, DescriptorIs, TablesAre, RecordIs, TotalSectors;
    BuiltImage(files);
    var s := Accepted(files).value;
    SystemArea(s, Image(s));
    DirectoryListed(s, Image(s));
  }

  lemma IdentIsText(s: seq<byte>, at: nat, name: string)
    requires StoredName(name) && at + |name| + 3 <= |s| && s[at..at + |name| + 3] == Ident(name)
    ensures TextAt(s, at, |name| + 3, name + ".;1")
  {
    var f, text := s[at..at + |name| + 3], name + ".;1";
    forall k | 0 <= k < |text|
      ensures s[at + k] as char == text[k]
    {
      assert s[at + k] == f[k];
    }
  }

  /** In every built image the record of every file gives its name with version 1, and, in both byte
      orders, the extent at which its contents lie and their length. */
  lemma RecordsAgree(files: seq<InputFile>, i: nat)
    requires Build(files).Ok? && i < |Accepted(files).value|
    ensures var img, s := Build(files).value, Accepted(files).value;
      var extent, n := LbaAt(s, 21, i), |s[i].contents|;
      && RecordIs(img, RecordAt(s, i), extent, n, 0, Ident(s[i].name))
      && TextAt(img, RecordAt(s, i) + 32, |s[i].name| + 3, s[i].name + ".;1")
      && extent * SECTOR + n <= |img| && img[extent * SECTOR..extent * SECTOR + n] == s[i].contents
  {
    hide Accepted, Build, Image, Root, Stored, RecordIs, LbaAt, RecordAt;
    BuiltImage(files);
    var s := Accepted(files).value;
    FileLies(s, Image(s), i);
    FileListed(s, Image(s), i);
    FileBounds(s, i);
    RecordNames(Image(s), RecordAt(s, i), LbaAt(s, 21, i), |s[i].contents|, s[i].name);
  }

  lemma RecordNames(s: seq<byte>, at: nat, extent: int, size: int, name: string)
    requires StoredName(name) && RecordIs(s, at, extent, size, 0, Ident(name))
    ensures TextAt(s, at + 32, |name| + 3, name + ".;1")
  {
    hide Both32, Both16, TextAt, Ident, StoredName;
    IdentIsText(s, at + 32, name);
  }
}
