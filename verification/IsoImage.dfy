/** The bytes of a seed image. Field offsets are those of the builder, which are not the offsets of
    ECMA-119. */
module IsoImage {
  import opened Bytes
  import opened IsoNames

  const SECTOR := 2048
  const PVD_LBA := 16
  const TERMINATOR_LBA := 17
  const PATH_TABLE_L_LBA := 18
  const PATH_TABLE_M_LBA := 19
  const ROOT_DIR_LBA := 20
  const PVD_AT := 16 * 2048

  function SectorsFor(n: nat): (sectors: nat)
  {
    (n + SECTOR - 1) / SECTOR
  }

  /** `as u32`. */
  function U32(n: nat): (v: dword)
  {
    n % 0x1_0000_0000
  }

  function Ascii(s: string): (b: seq<byte>)
    ensures |b| == |s|
    ensures forall i :: 0 <= i < |s| ==> b[i] == s[i] as int % 0x100
  {
    seq<byte>(|s|, i requires 0 <= i < |s| => s[i] as int % 0x100)
  }

  /** `text` continued by blanks to `n` bytes. */
  function Blanked(text: seq<byte>, n: nat): (r: seq<byte>)
    ensures |r| == n
    ensures forall i :: 0 <= i < n ==> r[i] == if i < |text| then text[i] else 0x20
  {
    seq<byte>(n, i requires 0 <= i < n => if i < |text| then text[i] else 0x20)
  }

  // ------------------------------------------------------ directory records --

  function RecordLength(ident: seq<byte>): (n: nat)
  {
    32 + |ident| + |ident| % 2
  }

  /** One record: length, extent, size, date, flags, volume number, identifier. */
  function DirRecord(extent: dword, size: dword, flags: byte, ident: seq<byte>): (rec: seq<byte>)
    ensures |rec| == RecordLength(ident)
  {
    [RecordLength(ident) % 0x100] + Le32(extent) + Be32(extent) + Le32(size) + Be32(size)
    + [126, 1, 1, 0, 0, 0, 0] + [flags, 0, 0] + Le16(1) + Be16(1) + [|ident| % 0x100] + ident
    + Zeros(|ident| % 2)
  }

  /** How far it is to the next multiple of the sector size. */
  function Padding(n: nat): (k: nat)
    ensures (n + k) % SECTOR == 0 && k < SECTOR
  {
    (SECTOR - n % SECTOR) % SECTOR
  }

  lemma PaddingIsLeast(n: nat, k: nat)
    ensures k < Padding(n) ==> (n + k) % SECTOR != 0
  {
    assert k < Padding(n) ==> (n + k) % SECTOR == n % SECTOR + k;
  }

  /** A record is never split between two sectors. */
  function AddRecord(buf: seq<byte>, rec: seq<byte>): (r: seq<byte>)
  {
    if |buf| + |rec| > SECTOR then buf + Zeros(Padding(|buf|)) + rec else buf + rec
  }

  function AddAll(buf: seq<byte>, recs: seq<seq<byte>>): (r: seq<byte>)
    decreases |recs|
  {
    if recs == [] then buf else AddAll(AddRecord(buf, recs[0]), recs[1..])
  }

  /** `NAME.;1`. */
  function Ident(name: string): (ident: seq<byte>)
    ensures |ident| == |name| + 3
  {
    Ascii(name) + [0x2E, 0x3B, 0x31]
  }

  function Dots(extent: dword, size: dword): (r: seq<byte>)
    ensures |r| == 68
    ensures r == DirRecord(extent, size, 2, [0]) + DirRecord(extent, size, 2, [1])
  {
    AddRecord(AddRecord([], DirRecord(extent, size, 2, [0])), DirRecord(extent, size, 2, [1]))
  }

  function FileRecord(f: InputFile, lba: nat): (rec: seq<byte>)
    ensures |rec| == RecordLength(Ident(f.name))
  {
    DirRecord(U32(lba), U32(|f.contents|), 0, Ident(f.name))
  }

  function RootFrom(buf: seq<byte>, s: seq<InputFile>, lba: nat): (r: seq<byte>)
    decreases s
  {
    if s == [] then buf
    else RootFrom(AddRecord(buf, FileRecord(s[0], lba)), s[1..], lba + SectorsFor(|s[0].contents|))
  }

  /** The root directory with all extents zero, for its length. */
  function ProbeFrom(buf: seq<byte>, s: seq<InputFile>): (r: seq<byte>)
    decreases s
  {
    if s == [] then buf else ProbeFrom(AddRecord(buf, DirRecord(0, 0, 0, Ident(s[0].name))), s[1..])
  }

  function RootSectors(s: seq<InputFile>): (n: nat)
  {
    SectorsFor(|ProbeFrom(Dots(0, 0), s)|)
  }

  function Root(s: seq<InputFile>): (r: seq<byte>)
  {
    RootFrom(Dots(ROOT_DIR_LBA, U32(RootSectors(s) * SECTOR)), s, ROOT_DIR_LBA + RootSectors(s))
  }

  // ------------------------------------------------------------ descriptors --

  function StandardId(): (id: seq<byte>)
    ensures |id| == 5
  {
    [0x43, 0x44, 0x30, 0x30, 0x31]
  }

  function Cidata(): (id: seq<byte>)
    ensures |id| == 6
  {
    [0x43, 0x49, 0x44, 0x41, 0x54, 0x41]
  }

  /** Offsets 0 to 72: type, identifier, version, system, volume. */
  function PvdHead(): (r: seq<byte>)
    ensures |r| == 72
  {
    [1] + StandardId() + [1, 0] + Blanked(Ascii("QEMUCENTER"), 32) + Blanked(Cidata(), 32)
  }

  /** Offsets 72 to 92: volume space, set size, sequence number, block size. */
  function PvdSizes(space: dword): (r: seq<byte>)
    ensures |r| == 20
  {
    Le32(space) + Be32(space) + Le16(1) + Be16(1) + Le16(1) + Be16(1) + Le16(SECTOR) + Be16(SECTOR)
  }

  /** Offsets 92 to 116: the path tables. */
  function PvdTables(): (r: seq<byte>)
    ensures |r| == 24
  {
    Le32(10) + Be32(10) + Le32(PATH_TABLE_L_LBA) + Le32(0) + Be32(PATH_TABLE_M_LBA) + Be32(0)
  }

  /** Offsets 150 to 702: volume set, publisher, preparer, application. */
  function PvdTexts(): (r: seq<byte>)
    ensures |r| == 552
  {
    Zeros(40) + Blanked(Cidata(), 32) + Zeros(96) + Blanked(Ascii("qemu-center"), 128)
    + Blanked(Ascii("qemu-center iso.rs"), 128) + Blanked(Ascii("QEMU-CENTER"), 128)
  }

  /** `2026010100000000` and a zero byte. */
  function VolumeDate(): (r: seq<byte>)
    ensures |r| == 17
  {
    Ascii("2026010100000000") + [0]
  }

  /** Offsets 702 to 882: four dates and the file structure version. */
  function PvdDates(): (r: seq<byte>)
    ensures |r| == 180
  {
    Zeros(111) + VolumeDate() + VolumeDate() + VolumeDate() + VolumeDate() + [1]
  }

  function Pvd(space: dword, root: seq<byte>): (r: seq<byte>)
    requires |root| == 34
    ensures |r| == SECTOR
  {
    PvdHead() + PvdSizes(space) + PvdTables() + root + PvdTexts() + PvdDates() + Zeros(SECTOR - 882)
  }

  function Terminator(): (r: seq<byte>)
    ensures |r| == SECTOR
  {
    Fit([255] + StandardId() + [1], SECTOR)
  }

  function PathTable(lba: seq<byte>, parent: seq<byte>): (r: seq<byte>)
    ensures |r| == SECTOR
  {
    Fit([1, 0] + lba + parent, SECTOR)
  }

  function PathTables(): (r: seq<byte>)
    ensures |r| == 2 * SECTOR
  {
    PathTable(Le32(ROOT_DIR_LBA), Le16(1)) + PathTable(Be32(ROOT_DIR_LBA), Be16(1))
  }

  // -------------------------------------------------------------- the image --

  function Padded(contents: seq<byte>): (r: seq<byte>)
    ensures |r| == SectorsFor(|contents|) * SECTOR
  {
    Fit(contents, SectorsFor(|contents|) * SECTOR)
  }

  function Data(s: seq<InputFile>): (r: seq<byte>)
  {
    if s == [] then [] else Padded(s[0].contents) + Data(s[1..])
  }

  function DataSectors(s: seq<InputFile>): (n: nat)
  {
    if s == [] then 0 else SectorsFor(|s[0].contents|) + DataSectors(s[1..])
  }

  function TotalSectors(s: seq<InputFile>): (n: nat)
  {
    var end := ROOT_DIR_LBA + RootSectors(s) + DataSectors(s);
    if end > ROOT_DIR_LBA + RootSectors(s) + 1 then end else ROOT_DIR_LBA + RootSectors(s) + 1
  }

  /** The system area, and sectors 16 to 19. */
  function Volume(space: dword, root: seq<byte>): (r: seq<byte>)
    requires |root| == 34
    ensures |r| == ROOT_DIR_LBA * SECTOR
  {
    Zeros(PVD_AT) + Pvd(space, root) + Terminator() + PathTables()
  }

  function Image(s: seq<InputFile>): (img: seq<byte>)
    requires |Root(s)| >= 34
    ensures |img| == TotalSectors(s) * SECTOR
  {
    Fit(Volume(U32(TotalSectors(s)), Root(s)[..34]) + Fit(Root(s), RootSectors(s) * SECTOR) + Data(s),
      TotalSectors(s) * SECTOR)
  }

  // ------------------------------------------------------------ the bounds --

  lemma {:induction false} ProbeLength(a: seq<byte>, b: seq<byte>, s: seq<InputFile>, lba: nat)
    requires |a| == |b|
    ensures |ProbeFrom(a, s)| == |RootFrom(b, s, lba)| >= |a|
    decreases s
  {
    if s != [] {
      ProbeLength(AddRecord(a, DirRecord(0, 0, 0, Ident(s[0].name))), AddRecord(b, FileRecord(s[0], lba)), s[1..],
        lba + SectorsFor(|s[0].contents|));
    }
  }

  /** The records of the files, one by one. */
  function Records(s: seq<InputFile>, lba: nat): (recs: seq<seq<byte>>)
    ensures |recs| == |s|
    decreases s
  {
    if s == [] then [] else [FileRecord(s[0], lba)] + Records(s[1..], lba + SectorsFor(|s[0].contents|))
  }

  function FileRecords(s: seq<InputFile>, lba: nat): (r: seq<byte>)
  {
    Flatten(Records(s, lba))
  }

  lemma {:induction false} RecordsSmall(s: seq<InputFile>, lba: nat)
    requires forall i :: 0 <= i < |s| ==> |s[i].name| <= 24
    ensures forall i :: 0 <= i < |s| ==> |Records(s, lba)[i]| <= 60
    decreases s
  {
    if s != [] {
      assert |Ident(s[0].name)| <= 27;
      RecordsSmall(s[1..], lba + SectorsFor(|s[0].contents|));
    }
  }

  lemma {:induction false} FlattenBounded(recs: seq<seq<byte>>, n: nat)
    requires forall i :: 0 <= i < |recs| ==> |recs[i]| <= n
    ensures |Flatten(recs)| <= n * |recs|
  {
    if recs != [] {
      FlattenBounded(recs[1..], n);
    }
  }

  lemma {:induction false} AddAllFlat(buf: seq<byte>, recs: seq<seq<byte>>)
    requires |buf| + |Flatten(recs)| <= SECTOR
    ensures AddAll(buf, recs) == buf + Flatten(recs)
    decreases |recs|
  {
    if recs == [] {
      assert buf + Flatten(recs) == buf;
    } else {
      AddAllFlat(buf + recs[0], recs[1..]);
      assert buf + recs[0] + Flatten(recs[1..]) == buf + (recs[0] + Flatten(recs[1..]));
    }
  }

  lemma AddAllStep(buf: seq<byte>, rec: seq<byte>, recs: seq<seq<byte>>)
    ensures AddAll(buf, [rec] + recs) == AddAll(AddRecord(buf, rec), recs)
  {
    assert ([rec] + recs)[1..] == recs;
  }

  lemma {:induction false} RootAddsAll(buf: seq<byte>, s: seq<InputFile>, lba: nat)
    ensures RootFrom(buf, s, lba) == AddAll(buf, Records(s, lba))
    decreases s
  {
    if s != [] {
      var rec, next := FileRecord(s[0], lba), lba + SectorsFor(|s[0].contents|);
      RootAddsAll(AddRecord(buf, rec), s[1..], next);
      AddAllStep(buf, rec, Records(s[1..], next));
    }
  }

  lemma RootFromFits(dots: seq<byte>, s: seq<InputFile>, lba: nat)
    requires Stored(s) && |dots| == 68
    ensures |RootFrom(dots, s, lba)| <= 1988 && RootFrom(dots, s, lba) == dots + FileRecords(s, lba)
  {
    RecordsSmall(s, lba);
    FlattenBounded(Records(s, lba), 60);
    RootAddsAll(dots, s, lba);
    AddAllFlat(dots, Records(s, lba));
  }

  lemma ProbeFits(dots: seq<byte>, s: seq<InputFile>)
    requires Stored(s) && |dots| == 68
    ensures 68 <= |ProbeFrom(dots, s)| <= 1988
  {
    RootFromFits(dots, s, 0);
    ProbeLength(dots, dots, s, 0);
  }

  /** The root directory of every accepted input fits one sector, with at least 60 bytes to spare,
      so no record is ever moved to a next sector. */
  lemma RootFits(s: seq<InputFile>)
    requires Stored(s)
    ensures RootSectors(s) == 1 && 34 <= |Root(s)| <= 1988
    ensures Root(s) == Dots(ROOT_DIR_LBA, SECTOR) + FileRecords(s, ROOT_DIR_LBA + 1)
  {
    hide FileRecords, ProbeFrom, RootFrom, Stored, Dots;
    ProbeFits(Dots(0, 0), s);
    RootFromFits(Dots(ROOT_DIR_LBA, SECTOR), s, ROOT_DIR_LBA + 1);
  }

  /** The image `build_iso` makes, or the error it reports. */
  function Build(files: seq<InputFile>): (r: Result<seq<byte>, IsoError>)
  {
    match Accepted(files)
    case Err(e) => Err(e)
    case Ok(s) =>
      AcceptedIsStored(files);
      RootFits(s);
      Ok(Image(s))
  }
}
