/** The builder: checks, then one image buffer filled in place from front to back. */
module IsoBuilder {
  import opened Bytes
  import opened Text
  import opened IsoNames
  import opened IsoImage

  // ----------------------------------------------------------------- checks --

  function Prepended(norm: seq<InputFile>, r: Result<seq<InputFile>, IsoError>): (t: Result<seq<InputFile>, IsoError>)
  {
    match r
    case Err(e) => Err(e)
    case Ok(rest) => Ok(norm + rest)
  }

  lemma NothingPrepended(r: Result<seq<InputFile>, IsoError>)
    ensures Prepended([], r) == r
  {
    assert r.Ok? ==> [] + r.value == r.value;
  }

  lemma NextNormalized(files: seq<InputFile>, i: nat, norm: seq<InputFile>)
    requires i < |files|
    ensures match ValidateName(files[i].name)
      case Err(e) => Prepended(norm, Normalized(files[i..])) == Err(e)
      case Ok(u) =>
        Prepended(norm, Normalized(files[i..]))
        == Prepended(norm + [InputFile(u, files[i].contents)], Normalized(files[i + 1..]))
  {
    assert files[i..][1..] == files[i + 1..];
    if ValidateName(files[i].name).Ok? && Normalized(files[i + 1..]).Ok? {
      var x := [InputFile(Upper(files[i].name), files[i].contents)];
      assert norm + (x + Normalized(files[i + 1..]).value) == (norm + x) + Normalized(files[i + 1..]).value;
    }
  }

  method Normalize(files: seq<InputFile>) returns (r: Result<seq<InputFile>, IsoError>)
    ensures r == Normalized(files)
  {
    var norm: seq<InputFile> := [];
    assert files[0..] == files;
    NothingPrepended(Normalized(files));
    for i := 0 to |files|
      invariant Normalized(files) == Prepended(norm, Normalized(files[i..]))
    {
      NextNormalized(files, i, norm);
      var u := ValidateName(files[i].name);
      if u.Err? {
        return Err(u.error);
      }
      norm := norm + [InputFile(u.value, files[i].contents)];
    }
    assert files[|files|..] == [] && norm + [] == norm;
    r := Ok(norm);
  }

  method CheckDuplicates(s: seq<InputFile>) returns (r: Option<nat>)
    ensures r == FirstDuplicate(s, 0)
  {
    for i := 0 to |s|
      invariant FirstDuplicate(s, 0) == FirstDuplicate(s, i)
    {
      if i + 1 < |s| && s[i + 1].name == s[i].name {
        return Some(i);
      }
    }
    r := None;
  }

  method CheckSizes(s: seq<InputFile>) returns (r: Option<nat>)
    ensures r == FirstOversized(s)
  {
    for i := 0 to |s|
      invariant FirstOversized(s) == FirstOversized(s[i..])
    {
      if |s[i].contents| > MAX_TOTAL_FILE_BYTES {
        return Some(|s[i].contents|);
      }
      assert s[i..][1..] == s[i + 1..];
    }
    assert s[|s|..] == [];
    r := None;
  }

  method SumSizes(s: seq<InputFile>) returns (n: nat)
    ensures n == TotalBytes(s)
  {
    n := 0;
    for i := 0 to |s|
      invariant n + TotalBytes(s[i..]) == TotalBytes(s)
    {
      n := n + |s[i].contents|;
      assert s[i..][1..] == s[i + 1..];
    }
    assert s[|s|..] == [];
  }

  method CheckFiles(files: seq<InputFile>) returns (r: Result<seq<InputFile>, IsoError>)
    ensures r == Accepted(files)
  {
    if |files| > MAX_FILES {
      return Err(TooManyFiles(|files|));
    }
    var norm := Normalize(files);
    if norm.Err? {
      return Err(norm.error);
    }
    var s := SortedByName(norm.value);
    var twice := CheckDuplicates(s);
    if twice.Some? {
      return Err(BadName(s[twice.value].name + " (duplicate)"));
    }
    var oversized := CheckSizes(s);
    if oversized.Some? {
      return Err(FileTooLarge(oversized.value));
    }
    var total := SumSizes(s);
    if total > MAX_TOTAL_FILE_BYTES {
      return Err(FileTooLarge(total));
    }
    r := Ok(s);
  }

  // --------------------------------------------------------- root directory --

  /** Append a record, after zeros to the next sector if it does not fit this one. */
  method WriteDirRecord(buf: seq<byte>, extent: dword, size: dword, flags: byte, ident: seq<byte>)
      returns (out: seq<byte>)
    ensures out == AddRecord(buf, DirRecord(extent, size, flags, ident))
  {
    var rec := DirRecord(extent, size, flags, ident);
    out := buf;
    if |buf| + |rec| > SECTOR {
      out := PadToSector(buf);
    }
    out := out + rec;
  }

  method PadToSector(buf: seq<byte>) returns (out: seq<byte>)
    ensures out == buf + Zeros(Padding(|buf|))
  {
    out := buf;
    ghost var k := 0;
    assert buf + Zeros(0) == buf;
    while |out| % SECTOR != 0
      invariant k <= Padding(|buf|) && out == buf + Zeros(k)
      decreases Padding(|buf|) - k
    {
      out, k := out + [0], k + 1;
    }
    PaddingIsLeast(|buf|, k);
  }

  method ProbeRoot(s: seq<InputFile>) returns (sectors: nat)
    ensures sectors == RootSectors(s)
  {
    var probe := WriteDirRecord([], 0, 0, 2, [0]);
    probe := WriteDirRecord(probe, 0, 0, 2, [1]);
    for i := 0 to |s|
      invariant ProbeFrom(Dots(0, 0), s) == ProbeFrom(probe, s[i..])
    {
      probe := WriteDirRecord(probe, 0, 0, 0, Ident(s[i].name));
      assert s[i..][1..] == s[i + 1..];
    }
    assert s[|s|..] == [];
    sectors := SectorsFor(|probe|);
  }

  /** The first sector of each file, and the one after the last. */
  function LbaAt(s: seq<InputFile>, first: nat, i: nat): (lba: nat)
    requires i <= |s|
  {
    if i == 0 then first else LbaAt(s, first, i - 1) + SectorsFor(|s[i - 1].contents|)
  }

  lemma {:induction false} LbaEnd(s: seq<InputFile>, first: nat, i: nat)
    requires i <= |s|
    ensures LbaAt(s, first, i) + DataSectors(s[i..]) == first + DataSectors(s)
  {
    if i > 0 {
      LbaEnd(s, first, i - 1);
      assert s[i - 1..][1..] == s[i..];
    } else {
      assert s[0..] == s;
    }
  }

  function Lbas(s: seq<InputFile>, first: nat, i: nat): (lbas: seq<nat>)
    requires i <= |s|
    ensures |lbas| == i && forall k :: 0 <= k < i ==> lbas[k] == LbaAt(s, first, k)
  {
    if i == 0 then [] else Lbas(s, first, i - 1) + [LbaAt(s, first, i - 1)]
  }

  method AssignExtents(s: seq<InputFile>, first: nat) returns (lbas: seq<nat>, end: nat)
    ensures |lbas| == |s| && forall i :: 0 <= i < |s| ==> lbas[i] == LbaAt(s, first, i)
    ensures end == first + DataSectors(s)
  {
    lbas, end := [], first;
    for i := 0 to |s|
      invariant lbas == Lbas(s, first, i) && end == LbaAt(s, first, i)
    {
      lbas := lbas + [end];
      end := end + SectorsFor(|s[i].contents|);
    }
    LbaLast(s, first);
  }

  lemma LbaLast(s: seq<InputFile>, first: nat)
    ensures LbaAt(s, first, |s|) == first + DataSectors(s)
  {
    LbaEnd(s, first, |s|);
    assert s[|s|..] == [];
  }

  method WriteRoot(s: seq<InputFile>, sectors: nat, lbas: seq<nat>) returns (root: seq<byte>)
    requires sectors == RootSectors(s) && |lbas| == |s|
    requires forall i :: 0 <= i < |s| ==> lbas[i] == LbaAt(s, ROOT_DIR_LBA + sectors, i)
    ensures root == Root(s)
  {
    hide Ident, DirRecord, U32, SectorsFor;
    root := WriteDirRecord([], ROOT_DIR_LBA, U32(sectors * SECTOR), 2, [0]);
    root := WriteDirRecord(root, ROOT_DIR_LBA, U32(sectors * SECTOR), 2, [1]);
    for i := 0 to |s|
      invariant Root(s) == RootFrom(root, s[i..], LbaAt(s, ROOT_DIR_LBA + sectors, i))
    {
      root := WriteDirRecord(root, U32(lbas[i]), U32(|s[i].contents|), 0, Ident(s[i].name));
      assert s[i..][1..] == s[i + 1..];
    }
    assert s[|s|..] == [];
  }

  // ------------------------------------------------------------- the buffer --

  /** Store a field at or after the end of what has been filled; what is skipped stays zero. */
  method StoreAt(img: array<byte>, ghost done: seq<byte>, at: nat, field: seq<byte>) returns (ghost filled: seq<byte>)
    requires |done| <= at && at + |field| <= img.Length
    requires img[..] == Fit(done, img.Length)
    modifies img
    ensures filled == done + Zeros(at - |done|) + field
    ensures img[..] == Fit(filled, img.Length)
  {
    Store(img, at, field);
    filled := done + Zeros(at - |done|) + field;
  }

  /** `pad_str`. */
  method StoreText(img: array<byte>, ghost done: seq<byte>, at: nat, n: nat, text: seq<byte>)
      returns (ghost filled: seq<byte>)
    requires |done| <= at && at + n <= img.Length
    requires img[..] == Fit(done, img.Length)
    modifies img
    ensures filled == done + Zeros(at - |done|) + Blanked(text, n)
    ensures img[..] == Fit(filled, img.Length)
  {
    filled := StoreAt(img, done, at, Blanked(text, n));
  }

  method WritePvdHead(img: array<byte>) returns (ghost done: seq<byte>)
    requires PVD_AT + 72 <= img.Length && img[..] == Zeros(img.Length)
    modifies img
    ensures done == Zeros(PVD_AT) + PvdHead()
    ensures img[..] == Fit(done, img.Length)
  {
    assert img[..] == Fit([], img.Length);
    done := StoreAt(img, [], PVD_AT, [1]);
    done := StoreAt(img, done, PVD_AT + 1, StandardId());
    done := StoreAt(img, done, PVD_AT + 6, [1]);
    done := StoreText(img, done, PVD_AT + 8, 32, Ascii("QEMUCENTER"));
    done := StoreText(img, done, PVD_AT + 40, 32, Cidata());
    HeadPieces(Zeros(PVD_AT), [1], StandardId(), [1], Blanked(Ascii("QEMUCENTER"), 32), Blanked(Cidata(), 32), done);
  }

  lemma HeadPieces(z: seq<byte>, a: seq<byte>, b: seq<byte>, c: seq<byte>, d: seq<byte>, e: seq<byte>, done: seq<byte>)
    requires done == [] + z + a + Zeros(0) + b + Zeros(0) + c + Zeros(1) + d + Zeros(0) + e
    ensures done == z + (a + b + (c + [0]) + d + e)
  {
    assert Zeros(1) == [0];
  }

  method WritePvdSizes(img: array<byte>, ghost start: seq<byte>, space: dword) returns (ghost done: seq<byte>)
    requires |start| == PVD_AT + 72 && PVD_AT + 92 <= img.Length && img[..] == Fit(start, img.Length)
    modifies img
    ensures done == start + PvdSizes(space)
    ensures img[..] == Fit(done, img.Length)
  {
    done := StoreAt(img, start, PVD_AT + 72, Le32(space));
    done := StoreAt(img, done, PVD_AT + 76, Be32(space));
    done := StoreAt(img, done, PVD_AT + 80, Le16(1));
    done := StoreAt(img, done, PVD_AT + 82, Be16(1));
    done := StoreAt(img, done, PVD_AT + 84, Le16(1));
    done := StoreAt(img, done, PVD_AT + 86, Be16(1));
    done := StoreAt(img, done, PVD_AT + 88, Le16(SECTOR));
    done := StoreAt(img, done, PVD_AT + 90, Be16(SECTOR));
    SizePieces(start, Le32(space), Be32(space), Le16(1), Be16(1), Le16(SECTOR), Be16(SECTOR), done);
  }

  lemma SizePieces(start: seq<byte>, a: seq<byte>, b: seq<byte>, c: seq<byte>, d: seq<byte>, e: seq<byte>,
      f: seq<byte>, done: seq<byte>)
    requires done == start + Zeros(0) + a + Zeros(0) + b + Zeros(0) + c + Zeros(0) + d + Zeros(0) + c + Zeros(0) + d
      + Zeros(0) + e + Zeros(0) + f
    ensures done == start + (a + b + c + d + c + d + e + f)
  {
  }

  method WritePvdTables(img: array<byte>, ghost start: seq<byte>) returns (ghost done: seq<byte>)
    requires |start| == PVD_AT + 92 && PVD_AT + 116 <= img.Length && img[..] == Fit(start, img.Length)
    modifies img
    ensures done == start + PvdTables()
    ensures img[..] == Fit(done, img.Length)
  {
    done := StoreAt(img, start, PVD_AT + 92, Le32(10));
    done := StoreAt(img, done, PVD_AT + 96, Be32(10));
    done := StoreAt(img, done, PVD_AT + 100, Le32(PATH_TABLE_L_LBA));
    done := StoreAt(img, done, PVD_AT + 104, Le32(0));
    done := StoreAt(img, done, PVD_AT + 108, Be32(PATH_TABLE_M_LBA));
    done := StoreAt(img, done, PVD_AT + 112, Be32(0));
    TablePieces(start, Le32(10), Be32(10), Le32(PATH_TABLE_L_LBA), Le32(0), Be32(PATH_TABLE_M_LBA), Be32(0), done);
  }

  lemma TablePieces(start: seq<byte>, a: seq<byte>, b: seq<byte>, c: seq<byte>, d: seq<byte>, e: seq<byte>,
      f: seq<byte>, done: seq<byte>)
    requires done == start + Zeros(0) + a + Zeros(0) + b + Zeros(0) + c + Zeros(0) + d + Zeros(0) + e + Zeros(0) + f
    ensures done == start + (a + b + c + d + e + f)
  {
  }

  method WritePvdTexts(img: array<byte>, ghost start: seq<byte>) returns (ghost done: seq<byte>)
    requires |start| == PVD_AT + 150 && PVD_AT + 702 <= img.Length && img[..] == Fit(start, img.Length)
    modifies img
    ensures done == start + PvdTexts()
    ensures img[..] == Fit(done, img.Length)
  {
    done := StoreText(img, start, PVD_AT + 190, 32, Cidata());
    done := StoreText(img, done, PVD_AT + 318, 128, Ascii("qemu-center"));
    done := StoreText(img, done, PVD_AT + 446, 128, Ascii("qemu-center iso.rs"));
    done := StoreText(img, done, PVD_AT + 574, 128, Ascii("QEMU-CENTER"));
    TextPieces(start, Zeros(40), Blanked(Cidata(), 32), Zeros(96), Blanked(Ascii("qemu-center"), 128),
      Blanked(Ascii("qemu-center iso.rs"), 128), Blanked(Ascii("QEMU-CENTER"), 128), done);
  }

  lemma TextPieces(start: seq<byte>, y: seq<byte>, a: seq<byte>, z: seq<byte>, b: seq<byte>, c: seq<byte>,
      d: seq<byte>, done: seq<byte>)
    requires done == start + y + a + z + b + Zeros(0) + c + Zeros(0) + d
    ensures done == start + (y + a + z + b + c + d)
  {
  }

  method WritePvdDates(img: array<byte>, ghost start: seq<byte>) returns (ghost done: seq<byte>)
    requires |start| == PVD_AT + 702 && PVD_AT + 882 <= img.Length && img[..] == Fit(start, img.Length)
    modifies img
    ensures done == start + PvdDates()
    ensures img[..] == Fit(done, img.Length)
  {
    done := StoreAt(img, start, PVD_AT + 813, VolumeDate());
    done := StoreAt(img, done, PVD_AT + 830, VolumeDate());
    done := StoreAt(img, done, PVD_AT + 847, VolumeDate());
    done := StoreAt(img, done, PVD_AT + 864, VolumeDate());
    done := StoreAt(img, done, PVD_AT + 881, [1]);
    DatePieces(start, Zeros(111), VolumeDate(), [1], done);
  }

  lemma DatePieces(start: seq<byte>, z: seq<byte>, d: seq<byte>, v: seq<byte>, done: seq<byte>)
    requires done == start + z + d + Zeros(0) + d + Zeros(0) + d + Zeros(0) + d + Zeros(0) + v
    ensures done == start + (z + d + d + d + d + v)
  {
  }

  method WritePvd(img: array<byte>, space: dword, root: seq<byte>) returns (ghost done: seq<byte>)
    requires |root| == 34 && PVD_AT + SECTOR <= img.Length && img[..] == Zeros(img.Length)
    modifies img
    ensures |done| == PVD_AT + 882 && done + Zeros(SECTOR - 882) == Zeros(PVD_AT) + Pvd(space, root)
    ensures img[..] == Fit(done, img.Length)
  {
    done := WritePvdHead(img);
    done := WritePvdSizes(img, done, space);
    done := WritePvdTables(img, done);
    done := StoreAt(img, done, PVD_AT + 116, root);
    done := WritePvdTexts(img, done);
    done := WritePvdDates(img, done);
    PvdPieces(done, space, root);
  }

  lemma PvdPieces(done: seq<byte>, space: dword, root: seq<byte>)
    requires |root| == 34
    requires done == Zeros(PVD_AT) + PvdHead() + PvdSizes(space) + PvdTables() + Zeros(0) + root + PvdTexts()
      + PvdDates()
    ensures done + Zeros(SECTOR - 882) == Zeros(PVD_AT) + Pvd(space, root)
  {
    var sizes, tables, texts, dates := PvdSizes(space), PvdTables(), PvdTexts(), PvdDates();
    Regroup(Zeros(PVD_AT), PvdHead(), sizes, tables, root, texts, dates, Zeros(SECTOR - 882));
    assert Zeros(PVD_AT) + PvdHead() + sizes + tables + Zeros(0) == Zeros(PVD_AT) + PvdHead() + sizes + tables;
  }

  lemma Regroup(z: seq<byte>, a: seq<byte>, b: seq<byte>, c: seq<byte>, d: seq<byte>, e: seq<byte>, f: seq<byte>,
      g: seq<byte>)
    ensures z + a + b + c + d + e + f + g == z + (a + b + c + d + e + f + g)
  {
  }

  /** The terminator and the path tables. */
  method WriteTables(img: array<byte>, ghost start: seq<byte>) returns (ghost done: seq<byte>)
    requires PVD_AT + 882 == |start| && (ROOT_DIR_LBA + 1) * SECTOR <= img.Length && img[..] == Fit(start, img.Length)
    modifies img
    ensures done == start + Zeros(SECTOR - 882) + Terminator() + PathTables()
    ensures img[..] == Fit(done, img.Length)
  {
    done := StoreAt(img, start, TERMINATOR_LBA * SECTOR, [255] + StandardId() + [1]);
    done := StoreAt(img, done, PATH_TABLE_L_LBA * SECTOR, PathTable(Le32(ROOT_DIR_LBA), Le16(1)));
    done := StoreAt(img, done, PATH_TABLE_M_LBA * SECTOR, PathTable(Be32(ROOT_DIR_LBA), Be16(1)));
    var t := [255] + StandardId() + [1];
    assert Terminator() == t + Zeros(SECTOR - |t|);
    SectorPieces(start, Zeros(SECTOR - 882), t, Zeros(SECTOR - |t|),
      PathTable(Le32(ROOT_DIR_LBA), Le16(1)), PathTable(Be32(ROOT_DIR_LBA), Be16(1)), done);
  }

  lemma SectorPieces(a: seq<byte>, z: seq<byte>, t: seq<byte>, y: seq<byte>, l: seq<byte>, m: seq<byte>,
      done: seq<byte>)
    requires done == a + z + t + y + l + Zeros(0) + m
    ensures done == a + z + (t + y) + (l + m)
  {
  }

  /** Each file at its own sector. */
  method WriteFiles(img: array<byte>, ghost start: seq<byte>, s: seq<InputFile>, first: nat, lbas: seq<nat>)
      returns (ghost done: seq<byte>)
    requires |start| <= first * SECTOR && (first + DataSectors(s)) * SECTOR <= img.Length
      && img[..] == Fit(start, img.Length)
    requires |lbas| == |s| && forall i :: 0 <= i < |s| ==> lbas[i] == LbaAt(s, first, i)
    modifies img
    ensures img[..] == Fit(Fit(start, first * SECTOR) + Data(s), img.Length)
  {
    hide Fit, Padded, SectorsFor;
    done := start;
    ghost var whole := Fit(start, first * SECTOR) + Data(s);
    assert s[0..] == s;
    for i := 0 to |s|
      invariant |done| <= LbaAt(s, first, i) * SECTOR && img[..] == Fit(done, img.Length)
      invariant Fit(done, LbaAt(s, first, i) * SECTOR) + Data(s[i..]) == whole
    {
      LbaEnd(s, first, i);
      var contents := s[i].contents;
      ghost var off, rest := LbaAt(s, first, i) * SECTOR, Data(s[i + 1..]);
      assert s[i..][1..] == s[i + 1..];
      SectorsCover(|contents|);
      FileFits(LbaAt(s, first, i), SectorsFor(|contents|), DataSectors(s[i + 1..]), |contents|, img.Length);
      ghost var before := done;
      done := StoreAt(img, done, lbas[i] * SECTOR, contents);
      NextFile(before, off, contents, done, rest);
    }
    assert s[|s|..] == [];
    LbaEnd(s, first, |s|);
    FilesDone(done, LbaAt(s, first, |s|) * SECTOR, whole, img.Length);
  }

  lemma FilesDone(done: seq<byte>, end: nat, whole: seq<byte>, n: nat)
    requires |done| <= end <= n && Fit(done, end) + [] == whole
    ensures Fit(whole, n) == Fit(done, n)
  {
    assert whole == Fit(done, end);
  }

  lemma SectorsCover(n: nat)
    ensures n <= SectorsFor(n) * SECTOR < n + SECTOR
  {
  }

  lemma FileFits(lba: nat, sectors: nat, rest: nat, n: nat, total: nat)
    requires n <= sectors * SECTOR && (lba + sectors + rest) * SECTOR <= total
    ensures lba * SECTOR + n <= total && (lba + sectors) * SECTOR == lba * SECTOR + sectors * SECTOR
  {
  }

  lemma NextFile(before: seq<byte>, off: nat, contents: seq<byte>, done: seq<byte>, rest: seq<byte>)
    requires |before| <= off && done == before + Zeros(off - |before|) + contents
    ensures |done| <= off + SectorsFor(|contents|) * SECTOR
    ensures Fit(before, off) + (Padded(contents) + rest) == Fit(done, off + SectorsFor(|contents|) * SECTOR) + rest
  {
    SectorsCover(|contents|);
    var end := off + SectorsFor(|contents|) * SECTOR;
    assert Fit(before, off) + Padded(contents) == Fit(done, end);
    assert Fit(before, off) + (Padded(contents) + rest) == (Fit(before, off) + Padded(contents)) + rest;
  }

  /** Fill a zeroed buffer with the image. */
  method Assemble(img: array<byte>, s: seq<InputFile>, sectors: nat, lbas: seq<nat>, root: seq<byte>)
    requires Stored(s) && sectors == RootSectors(s) == 1 && root == Root(s) && 34 <= |root| <= SECTOR
    requires |lbas| == |s| && forall i :: 0 <= i < |s| ==> lbas[i] == LbaAt(s, ROOT_DIR_LBA + sectors, i)
    requires img.Length == TotalSectors(s) * SECTOR && img[..] == Zeros(img.Length)
    modifies img
    ensures img[..] == Image(s)
  {
    var space := U32(TotalSectors(s));
    ghost var done := WritePvd(img, space, root[..34]);
    done := WriteTables(img, done);
    assert done == Volume(space, root[..34]);
    done := StoreAt(img, done, ROOT_DIR_LBA * SECTOR, root);
    RootPiece(Volume(space, root[..34]), root, done);
    done := WriteFiles(img, done, s, ROOT_DIR_LBA + sectors, lbas);
  }

  lemma RootPiece(volume: seq<byte>, root: seq<byte>, done: seq<byte>)
    requires |volume| == ROOT_DIR_LBA * SECTOR && |root| <= SECTOR && done == volume + Zeros(0) + root
    ensures Fit(done, (ROOT_DIR_LBA + 1) * SECTOR) == volume + Fit(root, SECTOR)
  {
  }

  /** `build_iso`. */
  method BuildIso(files: seq<InputFile>) returns (r: Result<seq<byte>, IsoError>)
    ensures r == Build(files)
  {
    hide Image, Root, RootSectors, Accepted, Stored;
    var checked := CheckFiles(files);
    if checked.Err? {
      return Err(checked.error);
    }
    var s := checked.value;
    AcceptedIsStored(files);
    RootFits(s);
    var sectors := ProbeRoot(s);
    var lbas, end := AssignExtents(s, ROOT_DIR_LBA + sectors);
    var total := if end > ROOT_DIR_LBA + sectors + 1 then end else ROOT_DIR_LBA + sectors + 1;
    var root := WriteRoot(s, sectors, lbas);
    var img := new byte[total * SECTOR](i => 0);
    Assemble(img, s, sectors, lbas, root);
    r := Ok(img[..]);
  }
}
