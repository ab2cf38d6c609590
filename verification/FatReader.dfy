/** The independent reader: BIOS parameter block, root directory, long-name chains, FAT chains.
    `None` is an assertion or bounds failure of the reader. */
module FatReader {
  import opened Bytes
  import Utf16
  import opened FatLfn

  datatype Geometry = Geometry(fatStart: nat, rootStart: nat, dataStart: nat, clusterBytes: nat, rootEntries: nat)

  datatype ParsedFile = ParsedFile(
    longName: Option<string>, short: seq<byte>, ntFlags: byte, firstCluster: word, size: dword, data: seq<byte>)

  datatype Parsed = Parsed(labelText: seq<byte>, entries: seq<ParsedFile>)

  /** What the reader has gathered so far: `pending` is the unfinished long-name chain. */
  datatype Walked = Walked(labelText: seq<byte>, pending: seq<Part>, entries: seq<ParsedFile>)

  function ReadGeometry(img: seq<byte>): (g: Geometry)
    requires |img| >= 0x24
  {
    var bytesPerSector, sectorsPerCluster := ReadLe16(img, 0x0B) as int, img[0x0D] as int;
    var reserved, fats := ReadLe16(img, 0x0E) as int, img[0x10] as int;
    var rootEntries, sectorsPerFat := ReadLe16(img, 0x11) as int, ReadLe16(img, 0x16) as int;
    var rootStart := Product(reserved + Product(fats, sectorsPerFat), bytesPerSector);
    Geometry(Product(reserved, bytesPerSector), rootStart, rootStart + rootEntries * 32,
      Product(sectorsPerCluster, bytesPerSector), rootEntries)
  }

  function Product(a: nat, b: nat): (p: nat)
  {
    a * b
  }

  function TrimEnd(s: seq<byte>): (r: seq<byte>)
  {
    if s != [] && s[|s| - 1] == 0x20 then TrimEnd(s[..|s| - 1]) else s
  }

  function Truncate(s: seq<byte>, size: nat): (r: seq<byte>)
    ensures |r| <= size
  {
    if |s| <= size then s else s[..size]
  }

  function ReadChain(img: seq<byte>, g: Geometry, c: nat, size: nat, out: seq<byte>): (r: Option<seq<byte>>)
    ensures r.Some? ==> |r.value| <= size
    decreases size - |out|
  {
    if c < 2 || |out| >= size then Some(Truncate(out, size))
    else
      var at := g.dataStart + Product(c - 2, g.clusterBytes);
      var link := g.fatStart + 2 * c;
      if g.clusterBytes == 0 || at + g.clusterBytes > |img| || link + 2 > |img| then None
      else
        var next := ReadLe16(img, link);
        if next != 0xFFFF && next != c + 1 then None
        else ReadChain(img, g, next, size, out + img[at..at + g.clusterBytes])
  }

  function ReadFile(img: seq<byte>, g: Geometry, e: seq<byte>, pending: seq<Part>): (r: Option<ParsedFile>)
    requires |e| == 32
    ensures r.Some? ==> |r.value.data| <= r.value.size
  {
    var units := CollectName(pending);
    var name := Utf16.Decode(units);
    var first, size := ReadLe16(e, 0x1A), ReadLe32(e, 0x1C);
    var data := if first >= 2 then ReadChain(img, g, first, size, []) else Some([]);
    if (units != [] && name.None?) || data.None? then None
    else Some(ParsedFile(if units == [] then None else name, e[..11], e[12], first, size, data.value))
  }

  function ReadSlotInto(img: seq<byte>, g: Geometry, e: seq<byte>, w: Walked): (r: Option<Walked>)
    requires |e| == 32
  {
    if e[11] == 0x08 then Some(w.(labelText := TrimEnd(e[..11])))
    else if e[11] == 0x0F then
      if e[12] != 0 || ReadLe16(e, 26) != 0 then None
      else Some(w.(pending := w.pending + [Part(e[0] % 0x20, ReadUnits(e))]))
    else
      match ReadFile(img, g, e, w.pending)
      case None => None
      case Some(file) => Some(w.(pending := [], entries := w.entries + [file]))
  }

  function Walk(img: seq<byte>, g: Geometry, i: nat, w: Walked): (r: Option<Parsed>)
    decreases g.rootEntries - i
  {
    var at := g.rootStart + i * 32;
    if i >= g.rootEntries then Some(Parsed(w.labelText, w.entries))
    else if at + 32 > |img| then None
    else if img[at] == 0 then Some(Parsed(w.labelText, w.entries))
    else
      match ReadSlotInto(img, g, img[at..at + 32], w)
      case None => None
      case Some(w') => Walk(img, g, i + 1, w')
  }

  function Parse(img: seq<byte>): (r: Option<Parsed>)
  {
    if |img| < 0x24 then None else Walk(img, ReadGeometry(img), 0, Walked([], [], []))
  }

  ghost predicate SizesFit(entries: seq<ParsedFile>)
  {
    forall k :: 0 <= k < |entries| ==> |entries[k].data| <= U32_MAX
  }

  lemma SlotSizes(img: seq<byte>, g: Geometry, e: seq<byte>, w: Walked)
    requires |e| == 32 && SizesFit(w.entries)
    ensures var r := ReadSlotInto(img, g, e, w);
      r.Some? ==> SizesFit(r.value.entries)
  {
  }

  /** No file comes back longer than its directory size field can say. */
  lemma {:induction false} WalkedSizes(img: seq<byte>, g: Geometry, i: nat, w: Walked)
    requires SizesFit(w.entries)
    ensures var r := Walk(img, g, i, w);
      r.Some? ==> SizesFit(r.value.entries)
    decreases g.rootEntries - i
  {
    var at := g.rootStart + i * 32;
    if i < g.rootEntries && at + 32 <= |img| && img[at] != 0 {
      SlotSizes(img, g, img[at..at + 32], w);
      var next := ReadSlotInto(img, g, img[at..at + 32], w);
      if next.Some? {
        WalkedSizes(img, g, i + 1, next.value);
      }
    }
  }
}
