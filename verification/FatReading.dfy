/** The reader's behaviour on a buffer, given what its regions hold. */
module FatReading {
  import opened Bytes
  import opened Utf16
  import opened FatLayout
  import opened FatNames
  import opened FatLfn
  import opened FatBuilder
  import opened FatReader

  const SEED_GEOMETRY := Geometry(FAT_START, ROOT_DIR_START, DATA_START, CLUSTER_BYTES, ROOT_ENTRIES)

  // -------------------------------------------------------- cluster chains --

  ghost predicate Linked(img: seq<byte>, first: nat, n: nat)
    requires |img| == SEED_IMAGE_BYTES
  {
    && FIRST_DATA_CLUSTER <= first && first + n <= CLUSTER_COUNT + FIRST_DATA_CLUSTER
    && forall c :: first <= c < first + n ==> ReadLe16(img, FAT_START + 2 * c) == Link(first, n, c - first)
  }

  ghost predicate Filled(img: seq<byte>, first: nat, n: nat, bytes: seq<byte>)
    requires |img| == SEED_IMAGE_BYTES
    requires FIRST_DATA_CLUSTER <= first && first + n <= CLUSTER_COUNT + FIRST_DATA_CLUSTER
  {
    var at := DATA_START + (first - 2) * CLUSTER_BYTES;
    img[at..at + n * CLUSTER_BYTES] == Fit(bytes, n * CLUSTER_BYTES)
  }

  lemma FilledCluster(img: seq<byte>, first: nat, n: nat, bytes: seq<byte>, i: nat)
    requires |img| == SEED_IMAGE_BYTES
    requires FIRST_DATA_CLUSTER <= first && first + n <= CLUSTER_COUNT + FIRST_DATA_CLUSTER
    requires Filled(img, first, n, bytes) && i < n
    ensures var at := DATA_START + (first + i - 2) * CLUSTER_BYTES;
      Fit(bytes, i * CLUSTER_BYTES) + img[at..at + CLUSTER_BYTES] == Fit(bytes, (i + 1) * CLUSTER_BYTES)
  {
    hide Fit;
    var base, from := DATA_START + (first - 2) * CLUSTER_BYTES, i * CLUSTER_BYTES;
    ClusterOffsets(first - 2, i, n);
    SliceOfSlice(img, base, n * CLUSTER_BYTES, from, CLUSTER_BYTES);
    FitCut(bytes, n * CLUSTER_BYTES, from, CLUSTER_BYTES);
  }

  lemma ClusterOffsets(c: nat, i: nat, n: nat)
    requires i < n
    ensures (c + i) * CLUSTER_BYTES == c * CLUSTER_BYTES + i * CLUSTER_BYTES
    ensures i * CLUSTER_BYTES + CLUSTER_BYTES == (i + 1) * CLUSTER_BYTES <= n * CLUSTER_BYTES
  {
  }

  lemma SliceOfSlice(s: seq<byte>, at: nat, n: nat, from: nat, m: nat)
    requires at + n <= |s| && from + m <= n
    ensures s[at..at + n][from..from + m] == s[at + from..at + from + m]
  {
    var whole := s[at..at + n];
    var a, b := whole[from..from + m], s[at + from..at + from + m];
    assert forall k :: 0 <= k < m ==> a[k] == b[k];
  }

  lemma FitCut(bytes: seq<byte>, n: nat, from: nat, m: nat)
    requires from + m <= n
    ensures Fit(bytes, from) + Fit(bytes, n)[from..from + m] == Fit(bytes, from + m)
  {
  }

  lemma ChainStep(img: seq<byte>, first: nat, n: nat, size: nat, i: nat, out: seq<byte>)
    requires |img| == SEED_IMAGE_BYTES && Linked(img, first, n) && i < n && |out| < size
    ensures var at := DATA_START + (first + i - 2) * CLUSTER_BYTES;
      ReadChain(img, SEED_GEOMETRY, first + i, size, out)
      == ReadChain(img, SEED_GEOMETRY, Link(first, n, i), size, out + img[at..at + CLUSTER_BYTES])
  {
    var c := first + i;
    var at, link := DATA_START + (c - 2) * CLUSTER_BYTES, FAT_START + 2 * c;
    assert at + CLUSTER_BYTES <= |img| && link + 2 <= |img| && c >= 2;
    assert ReadLe16(img, link) == Link(first, n, i);
  }

  /** At the end of the chain, what has been read is cut to the size. */
  lemma LastLink(img: seq<byte>, bytes: seq<byte>, n: nat, out: seq<byte>)
    requires |bytes| <= n * CLUSTER_BYTES && out == Fit(bytes, n * CLUSTER_BYTES)
    ensures ReadChain(img, SEED_GEOMETRY, FAT_ENTRY_EOC, |bytes|, out) == Some(bytes)
  {
    assert Truncate(out, |bytes|) == bytes;
  }

  /** Following a chain collects the file: the reader has the first `i` clusters in `out` and is
      at cluster `c`. */
  lemma {:induction false} ReadLinked(img: seq<byte>, first: nat, n: nat, bytes: seq<byte>, i: nat, c: nat,
      out: seq<byte>)
    requires |img| == SEED_IMAGE_BYTES && Linked(img, first, n) && Filled(img, first, n, bytes)
    requires (n - 1) * CLUSTER_BYTES < |bytes| <= n * CLUSTER_BYTES && i < n
    requires c == first + i && out == Fit(bytes, i * CLUSTER_BYTES)
    ensures ReadChain(img, SEED_GEOMETRY, c, |bytes|, out) == Some(bytes)
    decreases n - i
  {
    hide ReadChain;
    var at := DATA_START + (c - 2) * CLUSTER_BYTES;
    var longer := out + img[at..at + CLUSTER_BYTES];
    ChainStep(img, first, n, |bytes|, i, out);
    FilledCluster(img, first, n, bytes, i);
    if i + 1 < n {
      ReadLinked(img, first, n, bytes, i + 1, c + 1, longer);
    } else {
      LastLink(img, bytes, n, longer);
    }
  }

  // -------------------------------------------------------- directory walk --

  ghost predicate RootHolds(img: seq<byte>, slot: nat, s: seq<byte>)
    requires |img| == SEED_IMAGE_BYTES
  {
    && 32 * slot + |s| <= ROOT_DIR_BYTES
    && img[ROOT_DIR_START + 32 * slot..ROOT_DIR_START + 32 * slot + |s|] == s
  }

  lemma RootHoldsSplit(img: seq<byte>, slot: nat, a: seq<byte>, n: nat, b: seq<byte>)
    requires |img| == SEED_IMAGE_BYTES && |a| == 32 * n && RootHolds(img, slot, a + b)
    ensures RootHolds(img, slot, a) && RootHolds(img, slot + n, b)
  {
    var at := ROOT_DIR_START + 32 * slot;
    var all := img[at..at + |a + b|];
    assert all[..|a|] == a && all[|a|..] == b;
    assert img[at..at + |a|] == all[..|a|];
    assert img[at + |a|..at + |a| + |b|] == all[|a|..];
  }

  lemma WalkStep(img: seq<byte>, i: nat, e: seq<byte>, w: Walked, next: Walked)
    requires |img| == SEED_IMAGE_BYTES && |e| == 32 && RootHolds(img, i, e)
    requires e[0] != 0 && ReadSlotInto(img, SEED_GEOMETRY, e, w) == Some(next)
    ensures Walk(img, SEED_GEOMETRY, i, w) == Walk(img, SEED_GEOMETRY, i + 1, next)
  {
    var at := ROOT_DIR_START + 32 * i;
    assert img[at] == img[at..at + 32][0];
  }

  lemma ReadNameSlot(img: seq<byte>, units: seq<word>, sum: byte, ord: nat, w: Walked)
    requires 0 < ord <= SlotCount(units) <= 20
    ensures Slot(units, sum, ord)[0] != 0
    ensures ReadSlotInto(img, SEED_GEOMETRY, Slot(units, sum, ord), w)
         == Some(w.(pending := w.pending + [PartOf(units, ord)]))
  {
    var e := Slot(units, sum, ord);
    assert e[0] == SlotByte(units, sum, ord, 0);
    assert e[11] == SlotByte(units, sum, ord, 11) && e[12] == SlotByte(units, sum, ord, 12);
    assert e[26] == SlotByte(units, sum, ord, 26) && e[27] == SlotByte(units, sum, ord, 27);
    ReadSlot(units, sum, ord);
  }

  lemma WalkNameSlot(img: seq<byte>, units: seq<word>, sum: byte, ord: nat, i: nat, w: Walked)
    requires |img| == SEED_IMAGE_BYTES && 0 < ord <= SlotCount(units) <= 20
    requires RootHolds(img, i, Slot(units, sum, ord))
    ensures Walk(img, SEED_GEOMETRY, i, w)
         == Walk(img, SEED_GEOMETRY, i + 1, w.(pending := w.pending + [PartOf(units, ord)]))
  {
    ReadNameSlot(img, units, sum, ord, w);
    WalkStep(img, i, Slot(units, sum, ord), w, w.(pending := w.pending + [PartOf(units, ord)]));
  }

  /** Slots `ord`, ..., 1 of a chain lie in the root directory from slot `i` on. */
  ghost predicate ChainHeld(img: seq<byte>, units: seq<word>, sum: byte, ord: nat, i: nat)
    requires |img| == SEED_IMAGE_BYTES && ord <= SlotCount(units) <= 20
  {
    forall o :: 1 <= o <= ord ==> RootHolds(img, i + ord - o, Slot(units, sum, o))
  }

  lemma {:induction false} HeldChain(img: seq<byte>, units: seq<word>, sum: byte, ord: nat, i: nat)
    requires |img| == SEED_IMAGE_BYTES && ord <= SlotCount(units) <= 20
    requires RootHolds(img, i, Slots(units, sum, ord))
    ensures ChainHeld(img, units, sum, ord, i)
  {
    if ord > 0 {
      hide RootHolds, Slot;
      RootHoldsSplit(img, i, Slot(units, sum, ord), 1, Slots(units, sum, ord - 1));
      HeldChain(img, units, sum, ord - 1, i + 1);
    }
  }

  /** The walk over the rest of a long-name chain: from slot `i` to slot `j`. */
  lemma {:induction false} WalkNameSlots(img: seq<byte>, units: seq<word>, sum: byte, ord: nat, i: nat, w: Walked,
      j: nat, after: Walked)
    requires |img| == SEED_IMAGE_BYTES && ord <= SlotCount(units) <= 20
    requires ChainHeld(img, units, sum, ord, i)
    requires j == i + ord && after == w.(pending := w.pending + Descending(units, ord))
    ensures Walk(img, SEED_GEOMETRY, i, w) == Walk(img, SEED_GEOMETRY, j, after)
    decreases ord
  {
    hide Walk;
    if ord == 0 {
      assert w.pending + [] == w.pending;
    } else {
      var next := w.(pending := w.pending + [PartOf(units, ord)]);
      WalkNameSlot(img, units, sum, ord, i, w);
      DescendingStep(units, ord, w.pending);
      WalkNameSlots(img, units, sum, ord - 1, i + 1, next, j, after);
    }
  }

  lemma DescendingStep(units: seq<word>, ord: nat, pending: seq<Part>)
    requires ord > 0
    ensures pending + [PartOf(units, ord)] + Descending(units, ord - 1) == pending + Descending(units, ord)
  {
  }

  /** The fields of the entry that ends a chain. */
  lemma ShortEntryFields(short: ShortName, first: word, size: dword)
    requires IsShortName(short.bytes)
    ensures var e := ShortEntry(short, first, size);
      && e[0] != 0 && e[..11] == short.bytes && e[11] == 0x20 && e[12] == short.ntFlags
      && ReadLe16(e, 0x1A) == first && ReadLe32(e, 0x1C) == size
      && e[13..16] == Zeros(3) && e[20..24] == Zeros(4)
      && ReadLe16(e, 0x10) == ReadLe16(e, 0x12) == ReadLe16(e, 0x18) == FIXED_DOS_DATE
  {
    var e := ShortEntry(short, first, size);
    assert e[0x10..0x12] == e[0x12..0x14] == e[0x18..0x1A] == Le16(FIXED_DOS_DATE);
    assert e[0x1A] == Le16(first)[0] && e[0x1B] == Le16(first)[1];
    assert e[0x1C..0x20] == Le32(size);
    ReadLe32OfLe32(size, e, 0x1C);
  }

  /** The entry the reader reports for a file stored under `short` from cluster `first` on. */
  function Reported(f: SeedFile, short: ShortName, first: nat): (e: ParsedFile)
    requires first <= 0xFFFF
  {
    ParsedFile(Some(f.name), short.bytes, short.ntFlags,
      if f.bytes == [] then 0 else first, |f.bytes| % 0x1_0000_0000, f.bytes)
  }

  lemma ReadFinalEntry(img: seq<byte>, f: SeedFile, short: ShortName, first: nat, n: nat, w: Walked)
    requires |img| == SEED_IMAGE_BYTES && IsShortName(short.bytes) && LongNameError(f.name).None?
    requires n == DivCeil(|f.bytes|, CLUSTER_BYTES)
    requires Linked(img, first, n) && Filled(img, first, n, f.bytes)
    requires w.pending == Descending(Encode(f.name), SlotCount(Encode(f.name)))
    ensures FinalEntry(f, short, first)[0] != 0
    ensures ReadSlotInto(img, SEED_GEOMETRY, FinalEntry(f, short, first), w)
         == Some(w.(pending := [], entries := w.entries + [Reported(f, short, first)]))
  {
    var at, size := if f.bytes == [] then 0 else first, |f.bytes| % 0x1_0000_0000;
    ShortEntryFields(short, at, size);
    ReadName(f.name);
    ReadContents(img, f.bytes, first, n);
    AssembleFile(img, FinalEntry(f, short, first), w, f.name, at, size, f.bytes);
  }

  lemma ReadName(name: string)
    requires LongNameError(name).None?
    ensures NameIs(Descending(Encode(name), SlotCount(Encode(name))), name)
  {
    ZeroUnitIsNul(name);
    CollectDescending(Encode(name));
    DecodeEncode(name);
  }

  lemma ReadContents(img: seq<byte>, bytes: seq<byte>, first: nat, n: nat)
    requires |img| == SEED_IMAGE_BYTES && n == DivCeil(|bytes|, CLUSTER_BYTES)
    requires Linked(img, first, n) && Filled(img, first, n, bytes)
    ensures |bytes| <= U32_MAX
    ensures ContentsAre(img, if bytes == [] then 0 else first, |bytes| % 0x1_0000_0000, bytes)
  {
    CeilBounds(|bytes|, n);
    assert |bytes| % 0x1_0000_0000 == |bytes|;
    if bytes != [] {
      ReadLinked(img, first, n, bytes, 0, first, []);
    }
  }

  lemma CeilBounds(size: nat, n: nat)
    requires n == DivCeil(size, CLUSTER_BYTES)
    ensures (n - 1) * CLUSTER_BYTES < size <= n * CLUSTER_BYTES || size == n == 0
  {
  }

  lemma AssembleFile(img: seq<byte>, e: seq<byte>, w: Walked, name: string, first: word, size: dword, data: seq<byte>)
    requires |e| == 32 && e[11] == 0x20 && ReadLe16(e, 0x1A) == first && ReadLe32(e, 0x1C) == size
    requires NameIs(w.pending, name) && ContentsAre(img, first, size, data)
    ensures ReadSlotInto(img, SEED_GEOMETRY, e, w) == Some(w.(
      pending := [],
      entries := w.entries + [ParsedFile(Some(name), e[..11], e[12], first, size, data)]))
  {
    assert ReadFile(img, SEED_GEOMETRY, e, w.pending)
        == Some(ParsedFile(Some(name), e[..11], e[12], first, size, data));
  }

  ghost predicate NameIs(pending: seq<Part>, name: string)
  {
    var units := CollectName(pending);
    units != [] && Decode(units) == Some(name)
  }

  ghost predicate ContentsAre(img: seq<byte>, first: nat, size: nat, data: seq<byte>)
  {
    if first >= 2 then ReadChain(img, SEED_GEOMETRY, first, size, []) == Some(data) else data == []
  }

  /** The walk over everything one file put into the root directory. */
  lemma WalkFile(img: seq<byte>, f: SeedFile, short: ShortName, slot: nat, first: nat, n: nat, w: Walked, j: nat,
      after: Walked)
    requires |img| == SEED_IMAGE_BYTES && IsShortName(short.bytes) && LongNameError(f.name).None?
    requires n == DivCeil(|f.bytes|, CLUSTER_BYTES)
    requires Linked(img, first, n) && Filled(img, first, n, f.bytes)
    requires RootHolds(img, slot, NameSlots(Encode(f.name), short) + FinalEntry(f, short, first))
    requires w.pending == [] && j == slot + SlotCount(Encode(f.name)) + 1
    requires after == w.(entries := w.entries + [Reported(f, short, first)])
    ensures Walk(img, SEED_GEOMETRY, slot, w) == Walk(img, SEED_GEOMETRY, j, after)
  {
    var units := Encode(f.name);
    var count, e := SlotCount(units), FinalEntry(f, short, first);
    RootHoldsSplit(img, slot, NameSlots(units, short), count, e);
    var full := w.(pending := Descending(units, count));
    HeldChain(img, units, Checksum(short.bytes), count, slot);
    WalkNameSlots(img, units, Checksum(short.bytes), count, slot, w, slot + count, full);
    ReadFinalEntry(img, f, short, first, n, full);
    WalkStep(img, slot + count, e, full, after);
  }

  /** The walk's first step reads the volume label. */
  lemma WalkLabel(img: seq<byte>)
    requires |img| == SEED_IMAGE_BYTES && RootHolds(img, 0, LabelEntry())
    ensures Walk(img, SEED_GEOMETRY, 0, Walked([], [], []))
         == Walk(img, SEED_GEOMETRY, 1, Walked([0x43, 0x49, 0x44, 0x41, 0x54, 0x41], [], []))
  {
    var e := LabelEntry();
    assert e[11] == 0x08 && e[..11] == VolumeLabel();
    TrimLabel();
    WalkStep(img, 0, e, Walked([], [], []), Walked([0x43, 0x49, 0x44, 0x41, 0x54, 0x41], [], []));
  }

  lemma TrimLabel()
    ensures TrimEnd(VolumeLabel()) == [0x43, 0x49, 0x44, 0x41, 0x54, 0x41]
  {
    var s := VolumeLabel();
    assert s[..10][..9] == s[..9] && s[..9][..8] == s[..8] && s[..8][..7] == s[..7] && s[..7][..6] == s[..6];
    assert TrimEnd(s[..6]) == s[..6];
    assert TrimEnd(s[..7]) == s[..6];
    assert TrimEnd(s[..8]) == s[..6];
    assert TrimEnd(s[..9]) == s[..6];
    assert TrimEnd(s[..10]) == s[..6];
    assert s[..6] == [0x43, 0x49, 0x44, 0x41, 0x54, 0x41];
  }
}
