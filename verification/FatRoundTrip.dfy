/** What the reader gets back from a built image. */
module FatRoundTrip {
  import opened Bytes
  import opened Utf16
  import opened FatLayout
  import opened FatNames
  import opened FatLfn
  import opened FatBuilder
  import opened FatReader
  import opened FatReading

  /** The largest file (8 TiB less one cluster) whose cluster count fits 32 bits. */
  const CAST_LIMIT := CLUSTER_BYTES * U32_MAX

  const CIDATA: seq<byte> := [0x43, 0x49, 0x44, 0x41, 0x54, 0x41]

  ghost predicate SizesExact(files: seq<SeedFile>)
  {
    forall i :: 0 <= i < |files| ==> |files[i].bytes| <= CAST_LIMIT
  }

  /** The label is CIDATA, and names and contents are those of `files`, in order. */
  ghost predicate RoundTrips(files: seq<SeedFile>, r: Option<Parsed>)
  {
    && r.Some?
    && r.value.labelText == CIDATA
    && |r.value.entries| == |files|
    && forall i :: 0 <= i < |files| ==> Matches(files[i], r.value.entries[i])
  }

  ghost predicate Matches(f: SeedFile, e: ParsedFile)
  {
    e.longName == Some(f.name) && e.data == f.bytes
  }

  // ---------------------------------------------------- regions of an image --

  lemma GeometryOfImage(v: Volume)
    ensures ReadGeometry(Image(v)) == SEED_GEOMETRY
  {
    var b, img := BootSector(), Image(v);
    assert b[0x0B] == 0 && b[0x0C] == 2 && b[0x0D] == 4 && b[0x0E] == 4 && b[0x0F] == 0;
    assert b[0x10] == 2 && b[0x11] == 0 && b[0x12] == 2 && b[0x16] == 128 && b[0x17] == 0;
    assert forall k :: 0x0B <= k < 0x18 ==> img[k] == b[k];
  }

  lemma RootOfImage(v: Volume, slot: nat, s: seq<byte>)
    requires 32 * slot + |s| <= |v.root| <= ROOT_DIR_BYTES
    requires v.root[32 * slot..32 * slot + |s|] == s
    ensures RootHolds(Image(v), slot, s)
  {
    var lo, img := ROOT_DIR_START + 32 * slot, Image(v);
    var a := img[lo..lo + |s|];
    forall k | 0 <= k < |s|
      ensures a[k] == s[k]
    {
      assert a[k] == img[lo + k] && s[k] == v.root[32 * slot..32 * slot + |s|][k];
    }
  }

  lemma FilledOfImage(v: Volume, first: nat, n: nat, bytes: seq<byte>)
    requires FIRST_DATA_CLUSTER <= first && first + n <= CLUSTER_COUNT + FIRST_DATA_CLUSTER
    requires (first - 2 + n) * CLUSTER_BYTES <= |v.data|
    requires v.data[(first - 2) * CLUSTER_BYTES..(first - 2 + n) * CLUSTER_BYTES] == Fit(bytes, n * CLUSTER_BYTES)
    ensures Filled(Image(v), first, n, bytes)
  {
    var from, img := (first - 2) * CLUSTER_BYTES, Image(v);
    var lo, s := DATA_START + from, Fit(bytes, n * CLUSTER_BYTES);
    var a := img[lo..lo + |s|];
    forall k | 0 <= k < |s|
      ensures a[k] == s[k]
    {
      assert a[k] == img[lo + k] && s[k] == v.data[from..from + |s|][k];
    }
  }

  /** Either FAT copy of an image gives the volume's entry. */
  lemma FatEntryOfImage(v: Volume, c: nat)
    requires c < CLUSTER_COUNT + FIRST_DATA_CLUSTER
    ensures ReadLe16(Image(v), FAT_START + 2 * c) == FatEntry(v, c)
    ensures ReadLe16(Image(v), FAT_START + FAT_BYTES + 2 * c) == FatEntry(v, c)
  {
    var img := Image(v);
    assert img[FAT_START + 2 * c] == ByteOr0(v.fat, 2 * c) && img[FAT_START + 2 * c + 1] == ByteOr0(v.fat, 2 * c + 1);
    assert img[FAT_START + FAT_BYTES + 2 * c] == ByteOr0(v.fat, 2 * c);
    assert img[FAT_START + FAT_BYTES + 2 * c + 1] == ByteOr0(v.fat, 2 * c + 1);
  }

  lemma {:induction false} ChainEntry(first: nat, n: nat, i: nat, k: nat)
    requires k < i <= n && first + n <= 0xFFFF
    ensures Chain(first, n, i)[2 * k] == Link(first, n, k) % 0x100
    ensures Chain(first, n, i)[2 * k + 1] == Link(first, n, k) / 0x100
  {
    if k + 1 < i {
      ChainEntry(first, n, i - 1, k);
    }
  }

  /** The FAT entries of a file stay its chain in every later volume. */
  lemma LinksOfVolume(before: seq<byte>, first: nat, n: nat, later: Volume, c: nat)
    requires |before| == 2 * first && first + n <= 0xFFFF && first <= c < first + n
    requires before + Chain(first, n, n) <= later.fat
    ensures FatEntry(later, c) == Link(first, n, c - first)
  {
    var k := c - first;
    ChainEntry(first, n, n, k);
    assert later.fat[2 * c] == (before + Chain(first, n, n))[2 * c];
    assert later.fat[2 * c + 1] == (before + Chain(first, n, n))[2 * c + 1];
  }

  lemma LinkedOfImage(before: seq<byte>, first: nat, n: nat, later: Volume)
    requires FIRST_DATA_CLUSTER <= first && first + n <= CLUSTER_COUNT + FIRST_DATA_CLUSTER
    requires |before| == 2 * first && before + Chain(first, n, n) <= later.fat
    ensures Linked(Image(later), first, n)
  {
    forall c | first <= c < first + n
      ensures ReadLe16(Image(later), FAT_START + 2 * c) == Link(first, n, c - first)
    {
      LinksOfVolume(before, first, n, later, c);
      FatEntryOfImage(later, c);
    }
  }

  lemma RootOfLater(before: seq<byte>, slot: nat, block: seq<byte>, later: Volume)
    requires |before| == 32 * slot && before + block <= later.root && later.Fits()
    ensures RootHolds(Image(later), slot, block)
  {
    var all := before + block;
    assert later.root[..|all|] == all;
    assert later.root[32 * slot..32 * slot + |block|] == all[32 * slot..];
    RootOfImage(later, slot, block);
  }

  lemma FilledOfLater(before: seq<byte>, first: nat, n: nat, bytes: seq<byte>, later: Volume)
    requires FIRST_DATA_CLUSTER <= first && first + n <= CLUSTER_COUNT + FIRST_DATA_CLUSTER
    requires |before| == (first - 2) * CLUSTER_BYTES && before + Fit(bytes, n * CLUSTER_BYTES) <= later.data
    ensures Filled(Image(later), first, n, bytes)
  {
    var all := before + Fit(bytes, n * CLUSTER_BYTES);
    assert later.data[..|all|] == all;
    assert later.data[|before|..|all|] == all[|before|..];
    FilledOfImage(later, first, n, bytes);
  }

  /** Everything the reader needs of one added file, in any later volume. */
  lemma PlacedFile(p: Progress, f: SeedFile, units: seq<word>, short: ShortName, n: nat, later: Volume)
    requires p.Valid() && |short.bytes| == 11 && SlotCount(units) <= 20
    requires p.nextCluster + n <= CLUSTER_COUNT + FIRST_DATA_CLUSTER
    requires Extends(later, AddedVolume(p.vol, p.nextCluster, f, units, short, n)) && later.Fits()
    ensures RootHolds(Image(later), p.rootSlot, NameSlots(units, short) + FinalEntry(f, short, p.nextCluster))
    ensures Linked(Image(later), p.nextCluster, n) && Filled(Image(later), p.nextCluster, n, f.bytes)
  {
    hide Image, RootHolds, Linked, Filled;
    var block := NameSlots(units, short) + FinalEntry(f, short, p.nextCluster);
    assert p.vol.root + block == AddedVolume(p.vol, p.nextCluster, f, units, short, n).root;
    RootOfLater(p.vol.root, p.rootSlot, block, later);
    LinkedOfImage(p.vol.fat, p.nextCluster, n, later);
    FilledOfLater(p.vol.data, p.nextCluster, n, f.bytes, later);
  }

  // ------------------------------------------------------------- round trip --

  lemma AddedIs(p: Progress, f: SeedFile, short: Result<ShortName, ShortNameError>, next: Progress)
    requires p.Valid() && short.Ok? && |short.value.bytes| == 11 && AddedAs(p, f, short) == Ok(next)
    ensures LongNameError(f.name).None? && SlotCount(Encode(f.name)) <= 20
    ensures p.nextCluster + ClusterNeed(f.bytes) <= CLUSTER_COUNT + FIRST_DATA_CLUSTER
    ensures next.vol == AddedVolume(p.vol, p.nextCluster, f, Encode(f.name), short.value, ClusterNeed(f.bytes))
    ensures next.rootSlot == p.rootSlot + SlotCount(Encode(f.name)) + 1
    ensures next.nextCluster == p.nextCluster + ClusterNeed(f.bytes)
    ensures next.used == p.used + {short.value.bytes}
  {
  }

  /** The walk over one added file. */
  lemma WalkPlaced(p: Progress, f: SeedFile, short: ShortName, n: nat, later: Volume, w: Walked, after: Walked, j: nat)
    requires p.Valid() && later.Fits() && w.pending == []
    requires IsShortName(short.bytes) && LongNameError(f.name).None? && SlotCount(Encode(f.name)) <= 20
    requires n == DivCeil(|f.bytes|, CLUSTER_BYTES) && p.nextCluster + n <= CLUSTER_COUNT + FIRST_DATA_CLUSTER
    requires Extends(later, AddedVolume(p.vol, p.nextCluster, f, Encode(f.name), short, n))
    requires after == w.(entries := w.entries + [Reported(f, short, p.nextCluster)])
    requires j == p.rootSlot + SlotCount(Encode(f.name)) + 1
    ensures Walk(Image(later), SEED_GEOMETRY, p.rootSlot, w) == Walk(Image(later), SEED_GEOMETRY, j, after)
  {
    PlacedFile(p, f, Encode(f.name), short, n, later);
    WalkFile(Image(later), f, short, p.rootSlot, p.nextCluster, n, w, j, after);
  }

  lemma WalkAdded(p: Progress, f: SeedFile, next: Progress, later: Volume, w: Walked, after: Walked)
    requires p.Valid() && later.Fits() && w.pending == []
    requires Added(p, f) == Ok(next) && Extends(later, next.vol) && |f.bytes| <= CAST_LIMIT
    requires after == w.(entries := w.entries + [Reported(f, Derived(f.name, p.used).value, p.nextCluster)])
    ensures Walk(Image(later), SEED_GEOMETRY, p.rootSlot, w) == Walk(Image(later), SEED_GEOMETRY, next.rootSlot, after)
  {
    var short := Derived(f.name, p.used);
    AddedIs(p, f, short, next);
    NeedExact(f.bytes);
    WalkPlaced(p, f, short.value, ClusterNeed(f.bytes), later, w, after, next.rootSlot);
  }

  lemma NeedExact(bytes: seq<byte>)
    requires |bytes| <= CAST_LIMIT
    ensures ClusterNeed(bytes) == DivCeil(|bytes|, CLUSTER_BYTES)
  {
  }

  /** The entries the reader reports for `files` added from `p` on. */
  function AllReported(p: Progress, files: seq<SeedFile>): (r: seq<ParsedFile>)
    requires p.Valid() && BuiltFrom(p, files).Ok?
    ensures |r| == |files|
    ensures forall i :: 0 <= i < |files| ==> Matches(files[i], r[i])
    decreases |files|
  {
    if files == [] then []
    else
      [Reported(files[0], Derived(files[0].name, p.used).value, p.nextCluster)]
      + AllReported(Added(p, files[0]).value, files[1..])
  }

  lemma WalkEnd(v: Volume, i: nat, w: Walked)
    requires v.Fits() && |v.root| == 32 * i
    ensures Walk(Image(v), SEED_GEOMETRY, i, w) == Some(Parsed(w.labelText, w.entries))
  {
    if i < ROOT_ENTRIES {
      assert Image(v)[ROOT_DIR_START + 32 * i] == 0;
    }
  }

  lemma BuiltStep(p: Progress, files: seq<SeedFile>, later: Volume)
    requires p.Valid() && files != [] && BuiltFrom(p, files).Ok? && later == BuiltFrom(p, files).value.vol
    ensures Added(p, files[0]).Ok? && BuiltFrom(Added(p, files[0]).value, files[1..]) == BuiltFrom(p, files)
    ensures Extends(later, Added(p, files[0]).value.vol) && later.Fits()
  {
    ValidFits(BuiltFrom(p, files).value);
  }

  lemma ValidFits(p: Progress)
    requires p.Valid()
    ensures p.vol.Fits()
  {
  }

  lemma WalkFirst(p: Progress, files: seq<SeedFile>, later: Volume, w: Walked, next: Progress, after: Walked)
    requires p.Valid() && files != [] && BuiltFrom(p, files).Ok? && later == BuiltFrom(p, files).value.vol
    requires SizesExact(files) && w.pending == [] && Added(p, files[0]) == Ok(next)
    requires after == w.(entries := w.entries + [AllReported(p, files)[0]])
    ensures Walk(Image(later), SEED_GEOMETRY, p.rootSlot, w) == Walk(Image(later), SEED_GEOMETRY, next.rootSlot, after)
  {
    BuiltStep(p, files, later);
    assert |files[0].bytes| <= CAST_LIMIT;
    WalkAdded(p, files[0], next, later, w, after);
  }

  lemma WalkNone(p: Progress, w: Walked, found: seq<ParsedFile>)
    requires p.Valid() && found == w.entries + AllReported(p, [])
    ensures Walk(Image(p.vol), SEED_GEOMETRY, p.rootSlot, w) == Some(Parsed(w.labelText, found))
  {
    assert found == w.entries;
    ValidFits(p);
    WalkEnd(p.vol, p.rootSlot, w);
  }

  lemma ReportedStep(p: Progress, files: seq<SeedFile>, next: Progress, before: seq<ParsedFile>, found: seq<ParsedFile>)
    requires p.Valid() && files != [] && BuiltFrom(p, files).Ok? && Added(p, files[0]) == Ok(next)
    requires found == before + AllReported(p, files)
    ensures found == before + [AllReported(p, files)[0]] + AllReported(next, files[1..])
  {
  }

  lemma {:induction false} WalkFiles(p: Progress, files: seq<SeedFile>, later: Volume, w: Walked,
      found: seq<ParsedFile>)
    requires p.Valid() && BuiltFrom(p, files).Ok? && later == BuiltFrom(p, files).value.vol
    requires SizesExact(files) && w.pending == [] && found == w.entries + AllReported(p, files)
    ensures Walk(Image(later), SEED_GEOMETRY, p.rootSlot, w) == Some(Parsed(w.labelText, found))
    decreases |files|
  {
    if files == [] {
      WalkNone(p, w, found);
    } else {
      BuiltStep(p, files, later);
      var next := Added(p, files[0]).value;
      var after := w.(entries := w.entries + [AllReported(p, files)[0]]);
      WalkFirst(p, files, later, w, next, after);
      ReportedStep(p, files, next, w.entries, found);
      WalkFiles(next, files[1..], later, after, found);
    }
  }

  lemma ParseBuilt(files: seq<SeedFile>)
    requires Built(files).Ok? && SizesExact(files)
    ensures Parse(Image(Built(files).value.vol)) == Some(Parsed(CIDATA, AllReported(Start(), files)))
  {
    var v := Built(files).value.vol;
    GeometryOfImage(v);
    assert v.root[32 * 0..32 * 0 + 32] == LabelEntry();
    RootOfImage(v, 0, LabelEntry());
    WalkLabel(Image(v));
    assert [] + AllReported(Start(), files) == AllReported(Start(), files);
    WalkFiles(Start(), files, v, Walked(CIDATA, [], []), AllReported(Start(), files));
  }

  /** The round trip, with its exact condition: whenever the builder succeeds, the reader returns
      the label and exactly the given names and contents if and only if no file reaches the size
      at which the 32-bit cluster count wraps. */
  lemma RoundTrip(files: seq<SeedFile>)
    requires Built(files).Ok?
    ensures RoundTrips(files, Parse(Image(Built(files).value.vol))) <==> SizesExact(files)
  {
    var img := Image(Built(files).value.vol);
    if SizesExact(files) {
      ParseBuilt(files);
    }
    if RoundTrips(files, Parse(img)) {
      ParsedSizes(img);
      RoundTripSizes(files, Parse(img));
    }
  }

  lemma RoundTripSizes(files: seq<SeedFile>, r: Option<Parsed>)
    requires RoundTrips(files, r)
    requires SizesFit(r.value.entries)
    ensures SizesExact(files)
  {
    assert forall i :: 0 <= i < |files| ==> Matches(files[i], r.value.entries[i]);
  }

  lemma ParsedSizes(img: seq<byte>)
    ensures var r := Parse(img);
      r.Some? ==> SizesFit(r.value.entries)
  {
    if |img| >= 0x24 {
      WalkedSizes(img, ReadGeometry(img), 0, Walked([], [], []));
    }
  }
}
