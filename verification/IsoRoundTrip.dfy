/** What `build_iso` writes, `parse_iso` reads back; the image does not depend on the order of the
    input; and `iso_size_bytes` is the length of the image exactly when some file is not empty. */
module IsoRoundTrip {
  import opened Bytes
  import opened Text
  import opened IsoNames
  import opened IsoImage
  import opened IsoParser

  // ------------------------------------------------------------- one record --

  function LogicalFile(f: InputFile): (g: InputFile)
  {
    InputFile(Lower(f.name), f.contents)
  }

  function LogicalFiles(s: seq<InputFile>): (r: seq<InputFile>)
    ensures |r| == |s| && forall i :: 0 <= i < |s| ==> r[i] == LogicalFile(s[i])
  {
    seq(|s|, i requires 0 <= i < |s| => LogicalFile(s[i]))
  }

  function AsRaw(f: InputFile): (g: RawFile)
  {
    RawFile(Ident(f.name), f.contents)
  }

  function RawFiles(s: seq<InputFile>): (r: seq<RawFile>)
    ensures |r| == |s| && forall i :: 0 <= i < |s| ==> r[i] == AsRaw(s[i])
  {
    seq(|s|, i requires 0 <= i < |s| => AsRaw(s[i]))
  }

  /** The version, the dot and the capitals of an identifier go away again. */
  lemma NameReads(name: string)
    requires StoredName(name)
    ensures LogicalName(Ident(name)) == Lower(name)
  {
    var text := Lossy(Ident(name));
    assert forall i :: 0 <= i < |name| ==> NameChar(name[i]) && text[i] == name[i];
    assert text == name + ".;1";
    var cut := text[..|text| - 1];
    assert text[|text| - 1] == '1' && text[|text| - 2] == ';' && cut[|cut| - 1] == ';';
    assert BeforeLast(text, ';') == BeforeLast(cut, ';') == cut[..|cut| - 1] == name + ".";
    assert (name + ".")[..|name|] == name;
    assert NameChar(name[|name| - 1]);
    assert WithoutTrailing(name + ".", '.') == WithoutTrailing(name, '.') == name;
  }

  lemma RecordFields(extent: dword, size: dword, flags: byte, ident: seq<byte>)
    requires |ident| <= 27
    ensures var rec := DirRecord(extent, size, flags, ident);
      && |rec| >= 32 + |ident| && rec[0] == |rec| && rec[24] == flags && rec[31] == |ident|
      && rec[32..32 + |ident|] == ident && rec[1..5] == Le32(extent) && rec[9..13] == Le32(size)
  {
  }

  lemma RecordReads(extent: dword, size: dword, flags: byte, ident: seq<byte>)
    requires |ident| <= 27
    ensures var rec := DirRecord(extent, size, flags, ident);
      |rec| >= 32 && ReadLe32(rec, 1) == extent && ReadLe32(rec, 9) == size
  {
    var rec := DirRecord(extent, size, flags, ident);
    RecordFields(extent, size, flags, ident);
    ReadLe32OfLe32(extent, rec, 1);
    ReadLe32OfLe32(size, rec, 9);
  }

  lemma FieldsRead(img: seq<byte>, rec: seq<byte>, f: RawFile, lba: nat)
    requires 4 <= |f.ident| && |rec| >= 32 + |f.ident| && rec[24] == 0 && rec[31] == |f.ident|
    requires rec[32..32 + |f.ident|] == f.ident && ReadLe32(rec, 1) == lba && ReadLe32(rec, 9) == |f.contents|
    requires lba * SECTOR + |f.contents| <= |img| && img[lba * SECTOR..lba * SECTOR + |f.contents|] == f.contents
    ensures ReadRecord(img, rec) == OneFile(f)
  {
  }

  lemma StoredRecordReads(img: seq<byte>, f: RawFile, lba: dword, size: dword, rec: seq<byte>)
    requires 4 <= |f.ident| <= 27 && size == |f.contents| && rec == DirRecord(lba, size, 0, f.ident)
    requires lba * SECTOR + size <= |img| && img[lba * SECTOR..lba * SECTOR + size] == f.contents
    ensures |rec| > 0 && rec[0] == |rec| && ReadRecord(img, rec) == OneFile(f)
  {
    RecordFields(lba, size, 0, f.ident);
    RecordReads(lba, size, 0, f.ident);
    FieldsRead(img, rec, f, lba);
  }

  lemma FileRecordReads(img: seq<byte>, f: InputFile, lba: nat, rec: seq<byte>)
    requires StoredName(f.name) && lba < 0x1_0000_0000 && |f.contents| < 0x1_0000_0000 && rec == FileRecord(f, lba)
    requires lba * SECTOR + |f.contents| <= |img| && img[lba * SECTOR..lba * SECTOR + |f.contents|] == f.contents
    ensures |rec| > 0 && rec[0] == |rec| && ReadRecord(img, rec) == OneFile(AsRaw(f))
  {
    NameFits(f.name);
    hide StoredName, ReadRecord, DirRecord, Ident;
    StoredRecordReads(img, AsRaw(f), U32(lba), U32(|f.contents|), rec);
  }

  lemma NamedRaw(s: seq<InputFile>)
    requires AllStored(s)
    ensures Named(RawFiles(s)) == LogicalFiles(s)
  {
    forall i | 0 <= i < |s|
      ensures Named(RawFiles(s))[i] == LogicalFiles(s)[i]
    {
      NameReads(s[i].name);
    }
  }

  lemma DotReads(img: seq<byte>, extent: dword, size: dword, id: byte)
    requires id == 0 || id == 1
    ensures var rec := DirRecord(extent, size, 2, [id]); rec[0] == |rec| && ReadRecord(img, rec) == NoFile
  {
    RecordFields(extent, size, 2, [id]);
  }

  // -------------------------------------------------------------- the records --

  /** Each file's contents lie where its record says. */
  ghost predicate Holds(img: seq<byte>, s: seq<InputFile>, lba: nat)
    decreases s
  {
    s == [] ||
    (&& lba * SECTOR + |s[0].contents| <= |img| && img[lba * SECTOR..lba * SECTOR + |s[0].contents|] == s[0].contents
     && Holds(img, s[1..], lba + SectorsFor(|s[0].contents|)))
  }

  ghost predicate AllStored(s: seq<InputFile>)
  {
    forall i :: 0 <= i < |s| ==> StoredName(s[i].name) && |s[i].contents| < 0x1_0000_0000
  }

  lemma NameFits(name: string)
    requires StoredName(name)
    ensures 4 <= |Ident(name)| <= 27
  {
  }

  /** Each record starts with its length and reads as the file at its place. */
  ghost predicate Reads(read: seq<byte> -> Record, recs: seq<seq<byte>>, files: seq<RawFile>)
    decreases |recs|
  {
    && |recs| == |files|
    && (recs != [] ==>
          |recs[0]| > 0 && recs[0][0] == |recs[0]| && read(recs[0]) == OneFile(files[0])
          && Reads(read, recs[1..], files[1..]))
  }

  /** From offset `o` on, the directory lists exactly these files, and then a zero. */
  ghost predicate Listed(read: seq<byte> -> Record, img: seq<byte>, o: nat, end: nat, files: seq<RawFile>)
    requires end <= |img|
    decreases |files|
  {
    o < end &&
    if files == [] then img[o] == 0
    else
      && img[o] > 0 && o + img[o] < end && read(img[o..o + img[o]]) == OneFile(files[0])
      && Listed(read, img, o + img[o], end, files[1..])
  }

  lemma {:induction false} ScanListed(read: seq<byte> -> Record, img: seq<byte>, start: nat, o: nat, end: nat,
      files: seq<RawFile>, found: seq<RawFile>)
    requires end <= |img| && NextSector(start) == end && start <= o && Listed(read, img, o, end, files)
    ensures Scan(read, img, o, end, found) == Ok(found + files)
    decreases |files|
  {
    if files == [] {
      SameSector(start, o, end);
      assert Scan(read, img, end, end, found) == Ok(found);
      assert found + files == found;
    } else {
      ScanListed(read, img, start, o + img[o], end, files[1..], found + [files[0]]);
      assert found + files == found + [files[0]] + files[1..];
    }
  }

  /** Records laid out one after the other, with a zero behind them, list their files. */
  lemma {:induction false} RecordsListed(read: seq<byte> -> Record, img: seq<byte>, o: nat, end: nat,
      recs: seq<seq<byte>>, files: seq<RawFile>)
    requires Reads(read, recs, files) && end <= |img| && o + |Flatten(recs)| < end
    requires img[o..o + |Flatten(recs)|] == Flatten(recs) && img[o + |Flatten(recs)|] == 0
    ensures Listed(read, img, o, end, files)
    decreases |recs|
  {
    if recs != [] {
      var rec, rest := recs[0], Flatten(recs[1..]);
      SplitAt(img, o, rec, rest);
      RecordsListed(read, img, o + |rec|, end, recs[1..], files[1..]);
    }
  }

  lemma ReadsStep(read: seq<byte> -> Record, rec: seq<byte>, f: RawFile, recs: seq<seq<byte>>, files: seq<RawFile>)
    requires |rec| > 0 && rec[0] == |rec| && read(rec) == OneFile(f) && Reads(read, recs, files)
    ensures Reads(read, [rec] + recs, [f] + files)
  {
    assert ([rec] + recs)[1..] == recs && ([f] + files)[1..] == files;
  }

  /** What a list says of its first file and of the others. */
  lemma FirstFile(img: seq<byte>, s: seq<InputFile>, lba: nat)
    requires s != [] && AllStored(s) && Holds(img, s, lba)
    ensures var next := lba + SectorsFor(|s[0].contents|);
      && StoredName(s[0].name) && |s[0].contents| < 0x1_0000_0000
      && lba * SECTOR + |s[0].contents| <= |img| && img[lba * SECTOR..lba * SECTOR + |s[0].contents|] == s[0].contents
      && AllStored(s[1..]) && Holds(img, s[1..], next) && next + DataSectors(s[1..]) == lba + DataSectors(s)
      && Records(s, lba) == [FileRecord(s[0], lba)] + Records(s[1..], next)
      && RawFiles(s) == [AsRaw(s[0])] + RawFiles(s[1..])
  {
    hide StoredName, SectorsFor, FileRecord, AsRaw;
    assert RawFiles(s) == [AsRaw(s[0])] + RawFiles(s[1..]);
  }

  lemma FirstRecord(img: seq<byte>, s: seq<InputFile>, lba: nat)
    requires s != [] && AllStored(s) && Holds(img, s, lba) && lba < 0x1_0000_0000
    ensures var rec := FileRecord(s[0], lba);
      |rec| > 0 && rec[0] == |rec| && Reader(img)(rec) == OneFile(AsRaw(s[0]))
  {
    FirstFile(img, s, lba);
    hide AllStored, Holds, FileRecord, ReadRecord, StoredName;
    FileRecordReads(img, s[0], lba, FileRecord(s[0], lba));
  }

  lemma NoRecords(img: seq<byte>, lba: nat)
    ensures Reads(Reader(img), Records([], lba), RawFiles([]))
  {
    hide Reader;
  }

  lemma {:induction false} RecordsRead(img: seq<byte>, s: seq<InputFile>, lba: nat)
    requires AllStored(s) && lba + DataSectors(s) < 0x1_0000_0000 && Holds(img, s, lba)
    ensures Reads(Reader(img), Records(s, lba), RawFiles(s))
    decreases s
  {
    hide Records, RawFiles, FileRecord, Reads, StoredName, Reader, ReadRecord, AsRaw, AllStored, Holds, DataSectors;
    if s == [] {
      NoRecords(img, lba);
    } else {
      FirstFile(img, s, lba);
      FirstRecord(img, s, lba);
      var next := lba + SectorsFor(|s[0].contents|);
      RecordsRead(img, s[1..], next);
      ReadsStep(Reader(img), FileRecord(s[0], lba), AsRaw(s[0]), Records(s[1..], next), RawFiles(s[1..]));
    }
  }

  lemma SplitAt(img: seq<byte>, o: nat, a: seq<byte>, b: seq<byte>)
    requires o + |a| + |b| <= |img| && img[o..o + |a + b|] == a + b
    ensures img[o..o + |a|] == a && img[o + |a|..o + |a| + |b|] == b
    ensures a != [] ==> img[o] == a[0]
  {
    assert img[o..o + |a|] == img[o..o + |a + b|][..|a|];
    assert img[o + |a|..o + |a| + |b|] == img[o..o + |a + b|][|a|..];
    assert a != [] ==> img[o] == img[o..o + |a|][0];
  }

  lemma SameSector(o: nat, p: nat, end: nat)
    requires o <= p < end && NextSector(o) == end
    ensures NextSector(p) == end
  {
    assert o / SECTOR <= p / SECTOR <= (end - 1) / SECTOR;
  }

  // ---------------------------------------------------------------- the image --

  lemma {:induction false} DataLength(s: seq<InputFile>)
    ensures |Data(s)| == DataSectors(s) * SECTOR
  {
    if s != [] {
      DataLength(s[1..]);
    }
  }

  lemma PaddedStarts(c: seq<byte>)
    ensures |c| <= |Padded(c)| && Padded(c)[..|c|] == c
  {
  }

  lemma StartOfSlice(img: seq<byte>, at: nat, p: seq<byte>, c: seq<byte>)
    requires at + |p| <= |img| && img[at..at + |p|] == p && |c| <= |p| && p[..|c|] == c
    ensures img[at..at + |c|] == c
  {
    assert img[at..at + |c|] == img[at..at + |p|][..|c|];
  }

  lemma FirstPiece(img: seq<byte>, at: nat, all: seq<byte>, p: seq<byte>, rest: seq<byte>, c: seq<byte>)
    requires all == p + rest && at + |all| <= |img| && img[at..at + |all|] == all
    requires |c| <= |p| && p[..|c|] == c
    ensures at + |c| <= |img| && img[at..at + |c|] == c
    ensures at + |p| + |rest| <= |img| && img[at + |p|..at + |p| + |rest|] == rest
  {
    SplitAt(img, at, p, rest);
    StartOfSlice(img, at, p, c);
  }

  /** The first file of the data region, and where the others follow. */
  lemma DataFirst(img: seq<byte>, s: seq<InputFile>, lba: nat)
    requires s != [] && lba * SECTOR + |Data(s)| <= |img|
    requires img[lba * SECTOR..lba * SECTOR + |Data(s)|] == Data(s)
    ensures var n, next := |s[0].contents|, lba + SectorsFor(|s[0].contents|);
      && lba * SECTOR + n <= |img| && img[lba * SECTOR..lba * SECTOR + n] == s[0].contents
      && next * SECTOR + |Data(s[1..])| <= |img|
      && img[next * SECTOR..next * SECTOR + |Data(s[1..])|] == Data(s[1..])
  {
    hide Padded, SectorsFor, Fit;
    SectorsAdd(lba, SectorsFor(|s[0].contents|));
    PaddedStarts(s[0].contents);
    FirstPiece(img, lba * SECTOR, Data(s), Padded(s[0].contents), Data(s[1..]), s[0].contents);
  }

  lemma SectorsAdd(lba: nat, k: nat)
    ensures (lba + k) * SECTOR == lba * SECTOR + k * SECTOR
  {
  }

  /** The data region holds every file at its sector. */
  lemma {:induction false} DataHolds(img: seq<byte>, s: seq<InputFile>, lba: nat)
    requires lba * SECTOR + |Data(s)| <= |img| && img[lba * SECTOR..lba * SECTOR + |Data(s)|] == Data(s)
    ensures Holds(img, s, lba)
    decreases s
  {
    hide Data, SectorsFor;
    if s != [] {
      DataFirst(img, s, lba);
      DataHolds(img, s[1..], lba + SectorsFor(|s[0].contents|));
    }
  }

  /** Where the three parts of an image lie. */
  lemma ImageParts(s: seq<InputFile>, img: seq<byte>)
    requires Stored(s) && |Root(s)| >= 34 && img == Image(s)
    ensures RootSectors(s) == 1 && |Root(s)| <= 1988
    ensures 22 * SECTOR <= |img| && 21 * SECTOR + |Data(s)| <= |img|
    ensures img[..20 * SECTOR] == Volume(U32(TotalSectors(s)), Root(s)[..34])
    ensures img[20 * SECTOR..21 * SECTOR] == Fit(Root(s), SECTOR)
    ensures img[21 * SECTOR..21 * SECTOR + |Data(s)|] == Data(s)
  {
    RootFits(s);
    DataLength(s);
    FitParts(Volume(U32(TotalSectors(s)), Root(s)[..34]), Fit(Root(s), SECTOR), Data(s), |img|, img);
  }

  lemma FitParts(a: seq<byte>, b: seq<byte>, c: seq<byte>, n: nat, img: seq<byte>)
    requires n >= |a| + |b| + |c| && img == Fit(a + b + c, n)
    ensures img[..|a|] == a && img[|a|..|a| + |b|] == b && img[|a| + |b|..|a| + |b| + |c|] == c
  {
  }

  /** What the parser reads of the descriptors. */
  lemma DescriptorsRead(volume: seq<byte>, space: dword, root: seq<byte>)
    requires |root| == 34 && volume == Volume(space, root)
    ensures volume[PVD_AT] == 1 && volume[PVD_AT + 1..PVD_AT + 6] == StandardId() && volume[PVD_AT + 881] == 1
    ensures volume[PVD_AT + 40..PVD_AT + 72] == Blanked(Cidata(), 32)
    ensures volume[PVD_AT + 116..PVD_AT + 150] == root
    ensures volume[TERMINATOR_LBA * SECTOR + 1..TERMINATOR_LBA * SECTOR + 6] == StandardId()
  {
    var pvd := Pvd(space, root);
    PvdReads(pvd, space, root);
    assert forall k :: 0 <= k < SECTOR ==> volume[PVD_AT + k] == pvd[k];
    assert volume[PVD_AT + 1..PVD_AT + 6] == pvd[1..6];
    assert volume[PVD_AT + 40..PVD_AT + 72] == pvd[40..72];
    assert volume[PVD_AT + 116..PVD_AT + 150] == pvd[116..150];
    assert forall k :: 0 <= k < SECTOR ==> volume[TERMINATOR_LBA * SECTOR + k] == Terminator()[k];
  }

  lemma PvdReads(pvd: seq<byte>, space: dword, root: seq<byte>)
    requires |root| == 34 && pvd == Pvd(space, root)
    ensures pvd[0] == 1 && pvd[1..6] == StandardId() && pvd[881] == 1
    ensures pvd[40..72] == Blanked(Cidata(), 32) && pvd[116..150] == root
  {
    HeadReads(PvdHead());
    PiecesRead(PvdHead(), PvdSizes(space), PvdTables(), root, PvdTexts(), PvdDates(), Zeros(SECTOR - 882), pvd);
  }

  lemma HeadReads(head: seq<byte>)
    requires head == PvdHead()
    ensures head[0] == 1 && head[1..6] == StandardId() && head[40..72] == Blanked(Cidata(), 32)
    ensures PvdDates()[179] == 1
  {
  }

  lemma PiecesRead(a: seq<byte>, b: seq<byte>, c: seq<byte>, d: seq<byte>, e: seq<byte>, f: seq<byte>, g: seq<byte>,
      all: seq<byte>)
    requires |a| == 72 && |b| == 20 && |c| == 24 && |d| == 34 && |e| == 552 && |f| == 180
    requires all == a + b + c + d + e + f + g
    ensures all[..72] == a && all[116..150] == d && all[702..882] == f
    ensures all[0] == a[0] && all[1..6] == a[1..6] && all[40..72] == a[40..72] && all[881] == f[179]
  {
  }

  lemma VolumeIdReads()
    ensures WithoutTrailing(Lossy(Blanked(Cidata(), 32)), ' ') == "CIDATA"
  {
    var text := Lossy(Blanked(Cidata(), 32));
    TrimBlanks(text, 6);
    assert text[..6] == "CIDATA";
    assert WithoutTrailing("CIDATA", ' ') == "CIDATA";
  }

  lemma {:induction false} TrimBlanks(s: string, n: nat)
    requires n <= |s| && forall i :: n <= i < |s| ==> s[i] == ' '
    ensures WithoutTrailing(s, ' ') == WithoutTrailing(s[..n], ' ')
    decreases |s|
  {
    if n < |s| {
      TrimBlanks(s[..|s| - 1], n);
      assert s[..|s| - 1][..n] == s[..n];
    } else {
      assert s[..n] == s;
    }
  }

  lemma RootRecordReads(s: seq<InputFile>, img: seq<byte>)
    requires Stored(s) && 34 <= |Root(s)| && 22 * SECTOR <= |img| && img[PVD_AT + 116..PVD_AT + 150] == Root(s)[..34]
    ensures var root := img[PVD_AT + 116..PVD_AT + 190];
      root[0] == 34 && ReadLe32(root, 1) == ROOT_DIR_LBA && ReadLe32(root, 9) == SECTOR
  {
    var root := img[PVD_AT + 116..PVD_AT + 190];
    var dot := DirRecord(ROOT_DIR_LBA, SECTOR, 2, [0]);
    RootFits(s);
    assert Root(s)[..34] == dot by {
      assert Root(s)[..34] == Dots(ROOT_DIR_LBA, SECTOR)[..34];
    }
    RecordFields(ROOT_DIR_LBA, SECTOR, 2, [0]);
    assert img[PVD_AT + 116..PVD_AT + 150] == root[..34];
    assert root[1..5] == dot[1..5] && root[9..13] == dot[9..13];
    ReadLe32OfLe32(ROOT_DIR_LBA, root, 1);
    ReadLe32OfLe32(SECTOR, root, 9);
  }

  /** Scanning the root directory of an image. */
  lemma RootScans(img: seq<byte>, s: seq<InputFile>)
    requires Stored(s) && 22 * SECTOR <= |img| && |Root(s)| <= 1988
    requires img[20 * SECTOR..21 * SECTOR] == Fit(Root(s), SECTOR)
    requires Holds(img, s, 21) && 21 + DataSectors(s) < 0x1_0000_0000
    ensures Scan(Reader(img), img, 20 * SECTOR, 21 * SECTOR, []) == Ok(RawFiles(s))
  {
    RootFits(s);
    RecordsRead(img, s, 21);
    var dot, dotdot := DirRecord(ROOT_DIR_LBA, SECTOR, 2, [0]), DirRecord(ROOT_DIR_LBA, SECTOR, 2, [1]);
    DotReads(img, ROOT_DIR_LBA, SECTOR, 0);
    DotReads(img, ROOT_DIR_LBA, SECTOR, 1);
    SectorScans(Reader(img), img, Root(s), dot, dotdot, Records(s, 21), RawFiles(s));
  }

  lemma SectorScans(read: seq<byte> -> Record, img: seq<byte>, root: seq<byte>, dot: seq<byte>, dotdot: seq<byte>,
      recs: seq<seq<byte>>, files: seq<RawFile>)
    requires 22 * SECTOR <= |img| && |root| <= 1988 && img[20 * SECTOR..21 * SECTOR] == Fit(root, SECTOR)
    requires |dot| == 34 && |dotdot| == 34 && dot[0] == 34 && dotdot[0] == 34 && read(dot) == NoFile
      && read(dotdot) == NoFile
    requires root == dot + dotdot + Flatten(recs) && Reads(read, recs, files)
    ensures Scan(read, img, 20 * SECTOR, 21 * SECTOR, []) == Ok(files)
  {
    var o, end := 20 * SECTOR, 21 * SECTOR;
    RootBytes(img, root, dot, dotdot, Flatten(recs));
    DotsSkipped(read, img, o, end);
    RecordsListed(read, img, o + 68, end, recs, files);
    ScanListed(read, img, o, o + 68, end, files, []);
    assert [] + files == files;
  }

  lemma DotsSkipped(read: seq<byte> -> Record, img: seq<byte>, o: nat, end: nat)
    requires end <= |img| && o + 68 <= end && img[o] == 34 && img[o + 34] == 34
    requires read(img[o..o + 34]) == NoFile && read(img[o + 34..o + 68]) == NoFile
    ensures Scan(read, img, o, end, []) == Scan(read, img, o + 68, end, [])
  {
    assert Scan(read, img, o + 34, end, []) == Scan(read, img, o + 68, end, []);
  }

  lemma RootBytes(img: seq<byte>, root: seq<byte>, dot: seq<byte>, dotdot: seq<byte>, records: seq<byte>)
    requires |dot| == |dotdot| == 34 && root == dot + dotdot + records && |root| <= 1988
    requires 21 * SECTOR <= |img| && img[20 * SECTOR..21 * SECTOR] == Fit(root, SECTOR)
    ensures var o := 20 * SECTOR;
      && img[o..o + 34] == dot && img[o + 34..o + 68] == dotdot && img[o] == dot[0] && img[o + 34] == dotdot[0]
      && img[o + 68..o + 68 + |records|] == records && img[o + 68 + |records|] == 0
  {
    var o, sector := 20 * SECTOR, Fit(root, SECTOR);
    assert forall k :: 0 <= k < SECTOR ==> img[20 * SECTOR..21 * SECTOR][k] == sector[k];
    assert forall k :: 0 <= k < SECTOR ==> img[o + k] == sector[k];
    assert img[o..o + 34] == sector[..34] == dot;
    assert img[o + 34..o + 68] == sector[34..68] == dotdot;
    assert img[o + 68..o + 68 + |records|] == sector[68..68 + |records|] == records;
  }

  lemma {:induction false} SectorsBounded(s: seq<InputFile>)
    ensures DataSectors(s) <= TotalBytes(s) + |s|
  {
    if s != [] {
      SectorsBounded(s[1..]);
    }
  }

  lemma ParsesImage(s: seq<InputFile>, img: seq<byte>)
    requires Stored(s) && |Root(s)| >= 34 && img == Image(s)
    ensures Parse(img) == Ok(ParsedIso("CIDATA", LogicalFiles(s)))
  {
    hide Image, Volume, Root, Data, Holds, Named;
    ImageParts(s, img);
    var volume := img[..20 * SECTOR];
    DescriptorsRead(volume, U32(TotalSectors(s)), Root(s)[..34]);
    PrefixReads(img, volume);
    RootRecordReads(s, img);
    DataHolds(img, s, 21);
    SectorsBounded(s);
    RootScans(img, s);
    NamedRaw(s);
    VolumeIdReads();
  }

  lemma PrefixReads(img: seq<byte>, volume: seq<byte>)
    requires 22 * SECTOR <= |img| && volume == img[..20 * SECTOR]
    ensures img[PVD_AT] == volume[PVD_AT] && img[PVD_AT + 881] == volume[PVD_AT + 881]
    ensures img[PVD_AT + 1..PVD_AT + 6] == volume[PVD_AT + 1..PVD_AT + 6]
    ensures img[PVD_AT + 40..PVD_AT + 72] == volume[PVD_AT + 40..PVD_AT + 72]
    ensures img[PVD_AT + 116..PVD_AT + 150] == volume[PVD_AT + 116..PVD_AT + 150]
    ensures var t := TERMINATOR_LBA * SECTOR; img[t + 1..t + 6] == volume[t + 1..t + 6]
  {
  }

  // ---------------------------------------------------------------- theorems --

  /** Whenever the builder succeeds, parsing the image returns the label `CIDATA` and the stored
      files under lowercased names, in the order of the stored names, empty files included; and the
      stored files are a permutation of the input under uppercased names. */
  lemma RoundTrip(files: seq<InputFile>)
    requires Build(files).Ok?
    ensures Accepted(files).Ok? && Normalized(files).Ok?
    ensures var s := Accepted(files).value;
      && Parse(Build(files).value) == Ok(ParsedIso("CIDATA", LogicalFiles(s)))
      && IsSorted(s) && multiset(s) == multiset(Normalized(files).value)
  {
    AcceptedIsStored(files);
    var s := Accepted(files).value;
    RootFits(s);
    ParsesImage(s, Build(files).value);
  }

  /** Every input file comes back with its contents under its lowercased name, and nothing else. */
  lemma EveryFileReturns(files: seq<InputFile>)
    requires Build(files).Ok?
    ensures Parse(Build(files).value).Ok?
    ensures var out := Parse(Build(files).value).value.files;
      && |out| == |files|
      && (forall f :: f in files ==> LogicalFile(f) in out)
      && (forall g :: g in out ==> exists f :: f in files && g == LogicalFile(f))
  {
    hide Build, Parse, Accepted;
    RoundTrip(files);
    NormalizedIs(files);
    var s, norm, out := Accepted(files).value, Normalized(files).value, Parse(Build(files).value).value.files;
    assert |multiset(s)| == |s| && |multiset(norm)| == |norm|;
    forall f | f in files
      ensures LogicalFile(f) in out
    {
      var i :| 0 <= i < |files| && files[i] == f;
      LowerOfUpper(f.name);
      assert norm[i] in multiset(s);
      var k :| 0 <= k < |s| && s[k] == norm[i];
      assert out[k] == LogicalFile(f);
    }
    forall g | g in out
      ensures exists f :: f in files && g == LogicalFile(f)
    {
      var k :| 0 <= k < |out| && out[k] == g;
      assert s[k] in multiset(norm);
      var i :| 0 <= i < |norm| && norm[i] == s[k];
      LowerOfUpper(files[i].name);
      assert files[i] in files && g == LogicalFile(files[i]);
    }
  }

  /** Success and output are the same for every order of the input; so is the error, except that a
      bad name is the first one met. */
  lemma OrderDoesNotMatter(s: seq<InputFile>, t: seq<InputFile>)
    requires multiset(s) == multiset(t)
    ensures Build(s) == Build(t)
      || (Build(s).Err? && Build(t).Err? && Build(s).error.BadName? && Build(t).error.BadName?)
  {
    AcceptedForgetsOrder(s, t);
  }

  // -------------------------------------------------------------------- size --

  function NameBytes(files: seq<InputFile>): (n: nat)
  {
    if files == [] then 0
    else 32 + |files[0].name| + 3 + (|files[0].name| + 3) % 2 + NameBytes(files[1..])
  }

  /** `iso_size_bytes`. */
  function IsoSize(files: seq<InputFile>): (n: nat)
  {
    (ROOT_DIR_LBA + SectorsFor(68 + NameBytes(files)) + DataSectors(files)) * SECTOR
  }

  method IsoSizeBytes(files: seq<InputFile>) returns (n: nat)
    ensures n == IsoSize(files)
  {
    var rootBytes := 2 * 34;
    assert files[0..] == files;
    for i := 0 to |files|
      invariant rootBytes + NameBytes(files[i..]) == 68 + NameBytes(files)
    {
      var ident := |files[i].name| + 3;
      rootBytes := rootBytes + 32 + ident + ident % 2;
      assert files[i..][1..] == files[i + 1..];
    }
    assert files[|files|..] == [];
    var sectors := ROOT_DIR_LBA + SectorsFor(rootBytes);
    var base := sectors;
    for i := 0 to |files|
      invariant sectors + DataSectors(files[i..]) == base + DataSectors(files)
    {
      sectors := sectors + SectorsFor(|files[i].contents|);
      assert files[i..][1..] == files[i + 1..];
    }
    n := sectors * SECTOR;
  }

  lemma {:induction false} NameBytesBounded(files: seq<InputFile>)
    requires forall i :: 0 <= i < |files| ==> |files[i].name| <= 24
    ensures NameBytes(files) <= 60 * |files|
  {
    if files != [] {
      NameBytesBounded(files[1..]);
    }
  }

  lemma {:induction false} SectorsWithout(t: seq<InputFile>, k: nat)
    requires k < |t|
    ensures DataSectors(t) == SectorsFor(|t[k].contents|) + DataSectors(Drop(t, k))
  {
    if k > 0 {
      SectorsWithout(t[1..], k - 1);
      assert Drop(t, k)[1..] == Drop(t[1..], k - 1);
    } else {
      assert Drop(t, 0) == t[1..];
    }
  }

  lemma {:induction false} SectorsCarry(s: seq<InputFile>, t: seq<InputFile>)
    requires multiset(s) == multiset(t)
    ensures DataSectors(s) == DataSectors(t)
  {
    if s == [] {
      EmptyToo(s, t);
    } else {
      var k := FindHead(s, t);
      SectorsCarry(s[1..], Drop(t, k));
      SectorsWithout(t, k);
    }
  }

  lemma {:induction false} SectorsOfNormalized(files: seq<InputFile>, norm: seq<InputFile>)
    requires |norm| == |files| && forall i :: 0 <= i < |files| ==> norm[i].contents == files[i].contents
    ensures DataSectors(norm) == DataSectors(files)
  {
    if files != [] {
      SectorsOfNormalized(files[1..], norm[1..]);
    }
  }

  lemma {:induction false} SomeSector(files: seq<InputFile>)
    ensures DataSectors(files) > 0 <==> exists i :: 0 <= i < |files| && files[i].contents != []
  {
    if files != [] {
      SomeSector(files[1..]);
      assert files[0].contents != [] ==> SectorsFor(|files[0].contents|) > 0;
      if DataSectors(files[1..]) > 0 {
        var i :| 0 <= i < |files| - 1 && files[1..][i].contents != [];
        assert files[i + 1].contents != [];
      }
      if i :| 0 <= i < |files| && files[i].contents != [] {
        assert i > 0 ==> files[1..][i - 1].contents != [];
      }
    }
  }

  lemma SizeOfInput(files: seq<InputFile>)
    requires |files| <= MAX_FILES && forall i :: 0 <= i < |files| ==> |files[i].name| <= 24
    ensures IsoSize(files) == (21 + DataSectors(files)) * SECTOR
  {
    NameBytesBounded(files);
  }

  lemma SizeOfImage(s: seq<InputFile>, img: seq<byte>)
    requires Stored(s) && |Root(s)| >= 34 && img == Image(s)
    ensures |img| == (if DataSectors(s) > 0 then 21 + DataSectors(s) else 22) * SECTOR
  {
    RootFits(s);
  }

  /** For every accepted input, `iso_size_bytes` is the length of the image if and only if some
      file is not empty; otherwise the image is one sector longer. */
  lemma SizeExact(files: seq<InputFile>)
    requires Build(files).Ok?
    ensures IsoSize(files) == |Build(files).value| <==> exists i :: 0 <= i < |files| && files[i].contents != []
    ensures |Build(files).value| == IsoSize(files) || |Build(files).value| == IsoSize(files) + SECTOR
  {
    AcceptedIsStored(files);
    NormalizedIs(files);
    var s, norm := Accepted(files).value, Normalized(files).value;
    RootFits(s);
    SizeOfImage(s, Build(files).value);
    SectorsCarry(s, norm);
    SectorsOfNormalized(files, norm);
    forall i | 0 <= i < |files|
      ensures |files[i].name| <= 24
    {
      assert |Upper(files[i].name)| == |files[i].name|;
    }
    SizeOfInput(files);
    SomeSector(files);
  }
}
