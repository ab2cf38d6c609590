/** Reading an image back into files. */
module IsoParser {
  import opened Bytes
  import opened Text
  import opened IsoNames
  import opened IsoImage

  datatype ParsedIso = ParsedIso(volumeId: string, files: seq<InputFile>)

  // ------------------------------------------------------------------- text --

  /** Bytes as text; one replacement character stands for each byte that is not ASCII. */
  function Lossy(b: seq<byte>): (s: string)
    ensures |s| == |b|
  {
    seq(|b|, i requires 0 <= i < |b| => if b[i] < 0x80 then (b[i] as int) as char else '\U{FFFD}')
  }

  /** `trim_end_matches`, and the loop that pops a trailing character. */
  function WithoutTrailing(s: string, c: char): (r: string)
  {
    if s != [] && s[|s| - 1] == c then WithoutTrailing(s[..|s| - 1], c) else s
  }

  /** What comes before the last `c`, if there is one. */
  function BeforeLast(s: string, c: char): (r: string)
  {
    if s == [] then []
    else if s[|s| - 1] == c then s[..|s| - 1]
    else if c in s then BeforeLast(s[..|s| - 1], c)
    else s
  }

  function LogicalName(ident: seq<byte>): (name: string)
  {
    Lower(WithoutTrailing(BeforeLast(Lossy(ident), ';'), '.'))
  }

  method TrimTrailing(s: string, c: char) returns (r: string)
    ensures r == WithoutTrailing(s, c)
  {
    r := s;
    while r != [] && r[|r| - 1] == c
      invariant WithoutTrailing(s, c) == WithoutTrailing(r, c)
      decreases |r|
    {
      r := r[..|r| - 1];
    }
  }

  // ---------------------------------------------------------------- records --

  /** A file under its identifier as it is stored. */
  datatype RawFile = RawFile(ident: seq<byte>, contents: seq<byte>)

  datatype Record = NoFile | OneFile(file: RawFile) | Bad(error: IsoError)

  /** One nonempty directory record. An index past its end is a panic. */
  function ReadRecord(img: seq<byte>, rec: seq<byte>): (r: Record)
  {
    if |rec| <= 24 then Bad(OutOfBounds)
    else if rec[24] % 2 == 1 then NoFile
    else if |rec| <= 31 || 32 + rec[31] > |rec| then Bad(OutOfBounds)
    else
      var ident := rec[32..32 + rec[31]];
      if ident == [0] || ident == [1] then NoFile
      else
        var at, n := ReadLe32(rec, 1) * SECTOR, ReadLe32(rec, 9);
        if at + n > |img| then Bad(Truncated)
        else OneFile(RawFile(ident, img[at..at + n]))
  }

  function NextSector(o: nat): (n: nat)
    ensures n > o
  {
    (o / SECTOR + 1) * SECTOR
  }

  function Reader(img: seq<byte>): (read: seq<byte> -> Record)
    ensures forall rec :: read(rec) == ReadRecord(img, rec)
  {
    rec => ReadRecord(img, rec)
  }

  /** The records from offset `o` on, after `found`, each understood by `read`. */
  function Scan(read: seq<byte> -> Record, img: seq<byte>, o: nat, end: nat,
      found: seq<RawFile>): (r: Result<seq<RawFile>, IsoError>)
    requires end <= |img|
    decreases end - o
  {
    if o >= end then Ok(found)
    else if img[o] == 0 then Scan(read, img, NextSector(o), end, found)
    else if o + img[o] > end then Err(Truncated)
    else
      match read(img[o..o + img[o]])
      case NoFile => Scan(read, img, o + img[o], end, found)
      case OneFile(f) => Scan(read, img, o + img[o], end, found + [f])
      case Bad(e) => Err(e)
  }

  function Named(raw: seq<RawFile>): (files: seq<InputFile>)
    ensures |files| == |raw|
    ensures forall i :: 0 <= i < |raw| ==> files[i] == InputFile(LogicalName(raw[i].ident), raw[i].contents)
  {
    seq(|raw|, i requires 0 <= i < |raw| => InputFile(LogicalName(raw[i].ident), raw[i].contents))
  }

  lemma NamedGrows(raw: seq<RawFile>, f: RawFile)
    ensures Named(raw + [f]) == Named(raw) + [InputFile(LogicalName(f.ident), f.contents)]
  {
  }

  // --------------------------------------------------------------- the image --

  /** The checks of the descriptors, in order; an index past the end is a panic. */
  function CheckDescriptors(img: seq<byte>): (e: Option<IsoError>)
  {
    var t := TERMINATOR_LBA * SECTOR;
    if |img| < 3 * SECTOR then Some(Truncated)
    else if |img| <= PVD_AT then Some(OutOfBounds)
    else if img[PVD_AT] != 1 then Some(NotIso)
    else if |img| < PVD_AT + 6 then Some(OutOfBounds)
    else if img[PVD_AT + 1..PVD_AT + 6] != StandardId() then Some(NotIso)
    else if |img| <= PVD_AT + 881 then Some(OutOfBounds)
    else if img[PVD_AT + 881] != 1 then Some(NotIso)
    else if |img| > t && img[t] == 255 && |img| < t + 6 then Some(OutOfBounds)
    else if |img| > t && img[t] == 255 && img[t + 1..t + 6] != StandardId() then Some(NotIso)
    else None
  }

  function Parse(img: seq<byte>): (r: Result<ParsedIso, IsoError>)
  {
    var bad := CheckDescriptors(img);
    if bad.Some? then Err(bad.value)
    else
      var volumeId := WithoutTrailing(Lossy(img[PVD_AT + 40..PVD_AT + 72]), ' ');
      var root := img[PVD_AT + 116..PVD_AT + 190];
      if root[0] == 0 || root[0] > 74 || PVD_AT + 116 + root[0] > |img| then Err(Truncated)
      else
        var at, size := ReadLe32(root, 1) * SECTOR, ReadLe32(root, 9);
        if at + size > |img| then Err(Truncated)
        else
          match Scan(Reader(img), img, at, at + size, [])
          case Err(e) => Err(e)
          case Ok(raw) => Ok(ParsedIso(volumeId, Named(raw)))
  }

  /** `parse_iso`. */
  method ParseIso(img: seq<byte>) returns (r: Result<ParsedIso, IsoError>)
    ensures r == Parse(img)
  {
    hide Lossy, Scan, ReadRecord;
    var bad := CheckDescriptors(img);
    if bad.Some? {
      return Err(bad.value);
    }
    var volumeId := TrimTrailing(Lossy(img[PVD_AT + 40..PVD_AT + 72]), ' ');
    var root := img[PVD_AT + 116..PVD_AT + 190];
    if root[0] == 0 || root[0] > 74 || PVD_AT + 116 + root[0] > |img| {
      return Err(Truncated);
    }
    var at, size := ReadLe32(root, 1) * SECTOR, ReadLe32(root, 9);
    if at + size > |img| {
      return Err(Truncated);
    }
    var files := ScanRoot(Reader(img), img, at, at + size);
    if files.Err? {
      return Err(files.error);
    }
    r := Ok(ParsedIso(volumeId, files.value));
  }

  method ScanRoot(read: seq<byte> -> Record, img: seq<byte>, start: nat, end: nat)
      returns (r: Result<seq<InputFile>, IsoError>)
    requires end <= |img|
    ensures match Scan(read, img, start, end, [])
      case Err(e) => r == Err(e)
      case Ok(raw) => r == Ok(Named(raw))
  {
    hide ReadRecord, LogicalName;
    var o, files: seq<InputFile> := start, [];
    ghost var raw: seq<RawFile> := [];
    while o < end
      invariant Scan(read, img, start, end, []) == Scan(read, img, o, end, raw)
      invariant files == Named(raw)
      decreases end - o
    {
      var rl: int := img[o];
      if rl == 0 {
        o := (o / SECTOR + 1) * SECTOR;
        continue;
      }
      if o + rl > end {
        return Err(Truncated);
      }
      var rec := read(img[o..o + rl]);
      o := o + rl;
      match rec
      case NoFile =>
      case OneFile(f) =>
        NamedGrows(raw, f);
        raw := raw + [f];
        files := files + [InputFile(LogicalName(f.ident), f.contents)];
      case Bad(e) => return Err(e);
    }
    r := Ok(files);
  }
}
