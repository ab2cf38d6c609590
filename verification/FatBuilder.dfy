/** `build_fat16_image`: files become long-name chains, 8.3 entries and contiguous cluster
    chains, all written in place into one zeroed image. */
module FatBuilder {
  import opened Bytes
  import Utf16
  import opened FatLayout
  import opened FatNames
  import opened FatLfn

  datatype SeedFile = SeedFile(name: string, bytes: seq<byte>)

  datatype FatError =
    | ShortNameFailed(short: ShortNameError)
    | LongNameFailed(long: LfnError)
    | RootDirectoryFull
    | ClusterCountOverflow  // the 32-bit cluster arithmetic overflows; no image results
    | DataAreaExhausted

  const FIXED_DOS_DATE: word := (2026 - 1980) * 0x200 + 1 * 0x20 + 1

  // ------------------------------------------------------------ the regions --

  function LabelEntry(): (e: seq<byte>)
    ensures |e| == 32
  {
    VolumeLabel() + [0x08] + Zeros(20)
  }

  /** The 8.3 entry that ends a chain. */
  function ShortEntry(short: ShortName, firstCluster: word, size: dword): (e: seq<byte>)
    requires |short.bytes| == 11
    ensures |e| == 32
  {
    short.bytes + [0x20, short.ntFlags] + Zeros(3)
    + Le16(FIXED_DOS_DATE) + Le16(FIXED_DOS_DATE) + Zeros(2)
    + Le16(0) + Le16(FIXED_DOS_DATE) + Le16(firstCluster) + Le32(size)
  }

  /** `bytes.len().div_ceil(CLUSTER_BYTES) as u32`: the cast drops the bits above 32. */
  function ClusterNeed(bytes: seq<byte>): (n: nat)
    ensures n <= DivCeil(|bytes|, CLUSTER_BYTES)
  {
    DivCeil(|bytes|, CLUSTER_BYTES) % 0x1_0000_0000
  }

  function Link(first: nat, n: nat, i: nat): (e: word)
    requires i < n && first + n <= 0xFFFF
  {
    if i + 1 == n then FAT_ENTRY_EOC else first + i + 1
  }

  /** The first `i` FAT entries of a chain of `n` clusters that starts at `first`. */
  function Chain(first: nat, n: nat, i: nat): (s: seq<byte>)
    requires i <= n && first + n <= 0xFFFF
    ensures |s| == 2 * i
  {
    if i == 0 then [] else Chain(first, n, i - 1) + Le16(Link(first, n, i - 1))
  }

  datatype Progress = Progress(vol: Volume, used: set<ShortBytes>, rootSlot: nat, nextCluster: nat) {
    /** What every step of the builder keeps. */
    ghost predicate Valid() {
      && |vol.root| == 32 * rootSlot && 1 <= rootSlot <= ROOT_ENTRIES
      && |vol.fat| == 2 * nextCluster && FIRST_DATA_CLUSTER <= nextCluster <= CLUSTER_COUNT + FIRST_DATA_CLUSTER
      && |vol.data| == (nextCluster - FIRST_DATA_CLUSTER) * CLUSTER_BYTES
      && 2 * |used| < rootSlot
    }
  }

  function Start(): (p: Progress)
    ensures p.Valid()
  {
    Progress(Volume(Le16(FAT_ENTRY_MEDIA) + Le16(FAT_ENTRY_EOC), LabelEntry(), []), {}, 1, FIRST_DATA_CLUSTER)
  }

  /** The volume after one more file, or the first check that fails. */
  function Added(p: Progress, f: SeedFile): (r: Result<Progress, FatError>)
    requires p.Valid()
    ensures r.Ok? ==> r.value.Valid() && Extends(r.value.vol, p.vol)
  {
    AddedAs(p, f, Derived(f.name, p.used))
  }

  function AddedAs(p: Progress, f: SeedFile, short: Result<ShortName, ShortNameError>): (r: Result<Progress, FatError>)
    requires p.Valid()
    requires short.Ok? ==> |short.value.bytes| == 11
    ensures r.Ok? ==> r.value.Valid() && Extends(r.value.vol, p.vol)
  {
    if short.Err? then Err(ShortNameFailed(short.error))
    else if LongNameError(f.name).Some? then Err(LongNameFailed(LongNameError(f.name).value))
    else
      var units := Utf16.Encode(f.name);
      if p.rootSlot + 1 + SlotCount(units) > ROOT_ENTRIES then Err(RootDirectoryFull)
      else
        var full := RoomError(p.nextCluster, f.bytes);
        if full.Some? then Err(full.value)
        else Ok(Advanced(p, f, units, short.value, ClusterNeed(f.bytes)))
  }

  function RoomError(nextCluster: nat, bytes: seq<byte>): (r: Option<FatError>)
    requires nextCluster <= CLUSTER_COUNT + FIRST_DATA_CLUSTER
    ensures r.None? ==> nextCluster + ClusterNeed(bytes) <= CLUSTER_COUNT + FIRST_DATA_CLUSTER
  {
    if bytes == [] then None
    else if nextCluster + ClusterNeed(bytes) > U32_MAX then Some(ClusterCountOverflow)
    else if nextCluster + ClusterNeed(bytes) > CLUSTER_COUNT + FIRST_DATA_CLUSTER then Some(DataAreaExhausted)
    else None
  }

  function Advanced(p: Progress, f: SeedFile, units: seq<word>, short: ShortName, n: nat): (r: Progress)
    requires p.Valid() && |short.bytes| == 11 && units != [] && SlotCount(units) <= 20
    requires p.rootSlot + 1 + SlotCount(units) <= ROOT_ENTRIES
    requires p.nextCluster + n <= CLUSTER_COUNT + FIRST_DATA_CLUSTER
    ensures r.Valid() && Extends(r.vol, p.vol)
  {
    Progress(
      AddedVolume(p.vol, p.nextCluster, f, units, short, n),
      p.used + {short.bytes},
      p.rootSlot + SlotCount(units) + 1,
      p.nextCluster + n)
  }

  function AddedVolume(v: Volume, first: nat, f: SeedFile, units: seq<word>, short: ShortName, n: nat): (r: Volume)
    requires |short.bytes| == 11 && SlotCount(units) <= 20 && first + n <= 0xFFFF
    ensures Extends(r, v)
    ensures |r.fat| == |v.fat| + 2 * n && |r.data| == |v.data| + n * CLUSTER_BYTES
    ensures |r.root| == |v.root| + 32 * SlotCount(units) + 32
  {
    Volume(
      v.fat + Chain(first, n, n),
      v.root + NameSlots(units, short) + FinalEntry(f, short, first),
      v.data + Fit(f.bytes, n * CLUSTER_BYTES))
  }

  function NameSlots(units: seq<word>, short: ShortName): (s: seq<byte>)
    requires SlotCount(units) <= 20
    ensures |s| == 32 * SlotCount(units)
  {
    Slots(units, Checksum(short.bytes), SlotCount(units))
  }

  function FinalEntry(f: SeedFile, short: ShortName, first: nat): (e: seq<byte>)
    requires |short.bytes| == 11 && first <= 0xFFFF
    ensures |e| == 32
  {
    ShortEntry(short, if f.bytes == [] then 0 else first, |f.bytes| % 0x1_0000_0000)
  }

  /** The volume that holds all the files, in order. */
  function BuiltFrom(p: Progress, files: seq<SeedFile>): (r: Result<Progress, FatError>)
    requires p.Valid()
    ensures r.Ok? ==> r.value.Valid() && Extends(r.value.vol, p.vol)
    decreases |files|
  {
    if files == [] then Ok(p)
    else
      var next := Added(p, files[0]);
      if next.Err? then Err(next.error)
      else
        var r := BuiltFrom(next.value, files[1..]);
        if r.Ok? then ExtendsTransitive(r.value.vol, next.value.vol, p.vol); r else r
  }

  lemma ExtendsTransitive(a: Volume, b: Volume, c: Volume)
    requires Extends(a, b) && Extends(b, c)
    ensures Extends(a, c)
  {
  }

  function Built(files: seq<SeedFile>): (r: Result<Progress, FatError>)
    ensures r.Ok? ==> r.value.Valid()
  {
    BuiltFrom(Start(), files)
  }

  // ------------------------------------------------------ writing in place --

  method PutSlot(img: array<byte>, ghost v: Volume, slot: nat, e: seq<byte>)
    requires img.Length == SEED_IMAGE_BYTES && img[..] == Image(v)
    requires |v.root| == 32 * slot && slot < ROOT_ENTRIES && |e| == 32
    modifies img
    ensures img[..] == Image(v.(root := v.root + e))
  {
    Store(img, ROOT_DIR_START + slot * 32, e);
  }

  /** Both FAT copies get the entry. */
  method PutFatEntry(img: array<byte>, ghost v: Volume, idx: nat, value: word)
    requires img.Length == SEED_IMAGE_BYTES && img[..] == Image(v)
    requires |v.fat| == 2 * idx && idx < CLUSTER_COUNT + FIRST_DATA_CLUSTER
    modifies img
    ensures img[..] == Image(v.(fat := v.fat + Le16(value)))
  {
    ghost var before := img[..];
    Store(img, FAT_START + idx * 2, Le16(value));
    Store(img, FAT_START + idx * 2 + FAT_BYTES, Le16(value));
    BothFats(v, idx, value, before, img[..]);
  }

  lemma BothFats(v: Volume, idx: nat, value: word, before: seq<byte>, after: seq<byte>)
    requires before == Image(v) && |v.fat| == 2 * idx && idx < CLUSTER_COUNT + FIRST_DATA_CLUSTER
    requires after == Put(Put(before, FAT_START + idx * 2, Le16(value)), FAT_START + idx * 2 + FAT_BYTES, Le16(value))
    ensures after == Image(v.(fat := v.fat + Le16(value)))
  {
    var w := v.(fat := v.fat + Le16(value));
    forall k | 0 <= k < SEED_IMAGE_BYTES
      ensures after[k] == ImageByte(w, k)
    {
    }
  }

  method PutCluster(img: array<byte>, ghost v: Volume, c: nat, chunk: seq<byte>)
    requires img.Length == SEED_IMAGE_BYTES && img[..] == Image(v)
    requires FIRST_DATA_CLUSTER <= c < CLUSTER_COUNT + FIRST_DATA_CLUSTER
    requires |v.data| == (c - FIRST_DATA_CLUSTER) * CLUSTER_BYTES && |chunk| <= CLUSTER_BYTES
    modifies img
    ensures img[..] == Image(v.(data := v.data + Fit(chunk, CLUSTER_BYTES)))
  {
    Store(img, DATA_START + (c - FIRST_DATA_CLUSTER) * CLUSTER_BYTES, chunk);
  }

  method PutNameSlots(img: array<byte>, ghost v: Volume, slot: nat, ghost units: seq<word>, ghost short: ShortName,
      lfn: seq<seq<byte>>)
    requires img.Length == SEED_IMAGE_BYTES && img[..] == Image(v)
    requires |lfn| == SlotCount(units) <= 20
    requires forall i :: 0 <= i < |lfn| ==> lfn[i] == Slot(units, Checksum(short.bytes), |lfn| - i)
    requires |v.root| == 32 * slot && slot + |lfn| <= ROOT_ENTRIES
    modifies img
    ensures img[..] == Image(v.(root := v.root + NameSlots(units, short)))
  {
    SlotsFlatten(units, Checksum(short.bytes), lfn);
    PutSlots(img, v, slot, lfn);
  }

  method PutSlots(img: array<byte>, ghost v: Volume, slot: nat, entries: seq<seq<byte>>)
    requires img.Length == SEED_IMAGE_BYTES && img[..] == Image(v)
    requires |v.root| == 32 * slot && slot + |entries| <= ROOT_ENTRIES && forall e :: e in entries ==> |e| == 32
    modifies img
    ensures img[..] == Image(v.(root := v.root + Flatten(entries)))
  {
    hide Image;
    ghost var root := v.root;
    assert entries[0..] == entries && v.(root := root) == v;
    for i := 0 to |entries|
      invariant img[..] == Image(v.(root := root)) && |root| == 32 * (slot + i)
      invariant root + Flatten(entries[i..]) == v.root + Flatten(entries)
    {
      FlattenPeel(root, entries[i..]);
      assert entries[i..][0] == entries[i] && entries[i..][1..] == entries[i + 1..];
      PutSlot(img, v.(root := root), slot + i, entries[i]);
      root := root + entries[i];
    }
    assert entries[|entries|..] == [] && root + [] == root;
  }

  lemma FlattenPeel(before: seq<byte>, pieces: seq<seq<byte>>)
    requires pieces != []
    ensures before + Flatten(pieces) == before + pieces[0] + Flatten(pieces[1..])
  {
  }

  /** Slots in descending order, one after the other. */
  lemma {:induction false} SlotsFlatten(units: seq<word>, sum: byte, lfn: seq<seq<byte>>)
    requires |lfn| <= SlotCount(units) <= 20
    requires forall i :: 0 <= i < |lfn| ==> lfn[i] == Slot(units, sum, |lfn| - i)
    ensures Flatten(lfn) == Slots(units, sum, |lfn|)
  {
    if lfn != [] {
      SlotsFlatten(units, sum, lfn[1..]);
    }
  }

  method PutChain(img: array<byte>, ghost v: Volume, first: nat, n: nat, bytes: seq<byte>)
    requires img.Length == SEED_IMAGE_BYTES && img[..] == Image(v)
    requires |v.fat| == 2 * first && FIRST_DATA_CLUSTER <= first
    requires |v.data| == (first - FIRST_DATA_CLUSTER) * CLUSTER_BYTES
    requires n <= DivCeil(|bytes|, CLUSTER_BYTES) && first + n <= CLUSTER_COUNT + FIRST_DATA_CLUSTER
    modifies img
    ensures img[..] == Image(WithClusters(v, first, n, bytes, n))
  {
    assert v.fat + [] == v.fat && v.data + Fit(bytes, 0) == v.data;
    for i := 0 to n
      invariant img[..] == Image(WithClusters(v, first, n, bytes, i))
    {
      PutLink(img, v, first, n, bytes, i);
    }
  }

  /** `v` with the first `i` of `n` clusters linked and filled. */
  ghost function WithClusters(v: Volume, first: nat, n: nat, bytes: seq<byte>, i: nat): (w: Volume)
    requires i <= n && first + n <= 0xFFFF
  {
    v.(fat := v.fat + Chain(first, n, i), data := v.data + Fit(bytes, i * CLUSTER_BYTES))
  }

  method PutLink(img: array<byte>, ghost v: Volume, first: nat, n: nat, bytes: seq<byte>, i: nat)
    requires img.Length == SEED_IMAGE_BYTES
    requires |v.fat| == 2 * first && FIRST_DATA_CLUSTER <= first
    requires |v.data| == (first - FIRST_DATA_CLUSTER) * CLUSTER_BYTES
    requires i < n && first + n <= CLUSTER_COUNT + FIRST_DATA_CLUSTER && i * CLUSTER_BYTES <= |bytes|
    requires img[..] == Image(WithClusters(v, first, n, bytes, i))
    modifies img
    ensures img[..] == Image(WithClusters(v, first, n, bytes, i + 1))
  {
    ghost var w := WithClusters(v, first, n, bytes, i);
    var c := first + i;
    var src := i * CLUSTER_BYTES;
    var end := if src + CLUSTER_BYTES < |bytes| then src + CLUSTER_BYTES else |bytes|;
    NextLink(v, first, n, bytes, i, bytes[src..end], w);
    PutFatEntry(img, w, c, if i + 1 == n then FAT_ENTRY_EOC else c + 1);
    w := w.(fat := w.fat + Le16(Link(first, n, i)));
    PutCluster(img, w, c, bytes[src..end]);
  }

  lemma NextLink(v: Volume, first: nat, n: nat, bytes: seq<byte>, i: nat, chunk: seq<byte>, w: Volume)
    requires i < n && first + n <= 0xFFFF && i * CLUSTER_BYTES <= |bytes| && w == WithClusters(v, first, n, bytes, i)
    requires var src := i * CLUSTER_BYTES;
      chunk == bytes[src..if src + CLUSTER_BYTES < |bytes| then src + CLUSTER_BYTES else |bytes|]
    ensures WithClusters(v, first, n, bytes, i + 1)
      == w.(fat := w.fat + Le16(Link(first, n, i)), data := w.data + Fit(chunk, CLUSTER_BYTES))
  {
    hide Fit, Le16;
    FitStep(bytes, i * CLUSTER_BYTES, chunk);
    assert w.fat + Le16(Link(first, n, i)) == v.fat + Chain(first, n, i + 1);
    assert w.data + Fit(chunk, CLUSTER_BYTES) == v.data + (Fit(bytes, i * CLUSTER_BYTES) + Fit(chunk, CLUSTER_BYTES));
  }

  lemma FitStep(bytes: seq<byte>, src: nat, chunk: seq<byte>)
    requires src <= |bytes|
    requires chunk == bytes[src..if src + CLUSTER_BYTES < |bytes| then src + CLUSTER_BYTES else |bytes|]
    ensures Fit(bytes, src) + Fit(chunk, CLUSTER_BYTES) == Fit(bytes, src + CLUSTER_BYTES)
  {
  }

  method AddFile(img: array<byte>, f: SeedFile, used: set<ShortBytes>, rootSlot: nat, nextCluster: nat,
      ghost p: Progress)
    returns (failure: Option<FatError>, nowUsed: set<ShortBytes>, slot: nat, cluster: nat, ghost done: Progress)
    requires img.Length == SEED_IMAGE_BYTES && img[..] == Image(p.vol) && p.Valid()
    requires used == p.used && rootSlot == p.rootSlot && nextCluster == p.nextCluster
    modifies img
    ensures failure.Some? ==> Added(p, f) == Err(failure.value)
    ensures failure.None? ==> Added(p, f) == Ok(done) && img[..] == Image(done.vol)
    ensures failure.None? ==> nowUsed == done.used && slot == done.rootSlot && cluster == done.nextCluster
  {
    var short;
    short, nowUsed := DeriveShortName(f.name, used);
    failure, slot, cluster, done := WriteFile(img, f, short, rootSlot, nextCluster, p);
  }

  method WriteFile(img: array<byte>, f: SeedFile, short: Result<ShortName, ShortNameError>, rootSlot: nat,
      nextCluster: nat, ghost p: Progress)
    returns (failure: Option<FatError>, slot: nat, cluster: nat, ghost done: Progress)
    requires img.Length == SEED_IMAGE_BYTES && img[..] == Image(p.vol) && p.Valid()
    requires short.Ok? ==> |short.value.bytes| == 11
    requires rootSlot == p.rootSlot && nextCluster == p.nextCluster
    modifies img
    ensures failure.Some? ==> AddedAs(p, f, short) == Err(failure.value)
    ensures failure.None? ==> AddedAs(p, f, short) == Ok(done) && img[..] == Image(done.vol)
    ensures failure.None? ==> slot == done.rootSlot && cluster == done.nextCluster
  {
    slot, cluster, done := rootSlot, nextCluster, p;
    if short.Err? {
      return Some(ShortNameFailed(short.error)), slot, cluster, p;
    }
    var sum := LfnChecksum(short.value.bytes);
    var lfn := LfnEntries(f.name, sum);
    if lfn.Err? {
      return Some(LongNameFailed(lfn.error)), slot, cluster, p;
    }
    if rootSlot + 1 + |lfn.value| > ROOT_ENTRIES {
      return Some(RootDirectoryFull), slot, cluster, p;
    }
    ghost var units := Utf16.Encode(f.name);
    PutNameSlots(img, p.vol, rootSlot, units, short.value, lfn.value);
    slot := rootSlot + |lfn.value|;
    ghost var v := p.vol.(root := p.vol.root + NameSlots(units, short.value));
    var full, firstCluster, next := PutContents(img, v, nextCluster, f.bytes);
    if full.Some? {
      return full, slot, cluster, p;
    }
    ghost var n := ClusterNeed(f.bytes);
    v := WithClusters(v, nextCluster, n, f.bytes, n);
    PutSlot(img, v, slot, ShortEntry(short.value, firstCluster, |f.bytes| % 0x1_0000_0000));
    slot, cluster := slot + 1, next;
    done := AddedAs(p, f, short).value;
    failure := None;
  }

  /** The cluster chain of one file; an empty file gets none. */
  method PutContents(img: array<byte>, ghost v: Volume, nextCluster: nat, bytes: seq<byte>)
    returns (failure: Option<FatError>, firstCluster: word, next: nat)
    requires img.Length == SEED_IMAGE_BYTES && img[..] == Image(v)
    requires |v.fat| == 2 * nextCluster
    requires FIRST_DATA_CLUSTER <= nextCluster <= CLUSTER_COUNT + FIRST_DATA_CLUSTER
    requires |v.data| == (nextCluster - FIRST_DATA_CLUSTER) * CLUSTER_BYTES
    modifies img
    ensures failure == RoomError(nextCluster, bytes)
    ensures failure.None? ==> firstCluster == if bytes == [] then 0 else nextCluster
    ensures failure.None? ==> next == nextCluster + ClusterNeed(bytes)
    ensures failure.None? ==>
      img[..] == Image(WithClusters(v, nextCluster, ClusterNeed(bytes), bytes, ClusterNeed(bytes)))
  {
    failure, firstCluster, next := None, 0, nextCluster;
    if bytes == [] {
      assert v.fat + [] == v.fat && v.data + Fit(bytes, 0) == v.data;
      return;
    }
    var n := ClusterNeed(bytes);
    if nextCluster + n > U32_MAX {
      return Some(ClusterCountOverflow), 0, nextCluster;
    }
    if nextCluster + n > CLUSTER_COUNT + FIRST_DATA_CLUSTER {
      return Some(DataAreaExhausted), 0, nextCluster;
    }
    firstCluster := nextCluster;
    PutChain(img, v, nextCluster, n, bytes);
    next := nextCluster + n;
  }

  /** The whole builder: succeeds exactly when every file can be added, and then the buffer is
      the image of the volume that holds them. */
  method BuildFat16Image(files: seq<SeedFile>) returns (r: Result<array<byte>, FatError>)
    ensures r.Err? <==> Built(files).Err?
    ensures r.Err? ==> r.error == Built(files).error
    ensures r.Ok? ==> r.value[..] == Image(Built(files).value.vol)
  {
    var img := new byte[SEED_IMAGE_BYTES](_ => 0);
    WriteBootSector(img);
    ghost var v := Volume([], [], []);
    PutFatEntry(img, v, 0, FAT_ENTRY_MEDIA);
    v := v.(fat := [] + Le16(FAT_ENTRY_MEDIA));
    PutFatEntry(img, v, 1, FAT_ENTRY_EOC);
    v := v.(fat := v.fat + Le16(FAT_ENTRY_EOC));
    PutSlot(img, v, 0, LabelEntry());
    ghost var p := Start();
    assert p.vol == v.(root := v.root + LabelEntry());
    var used: set<ShortBytes> := {};
    var rootSlot, nextCluster := 1, FIRST_DATA_CLUSTER;
    for i := 0 to |files|
      invariant p.Valid() && img[..] == Image(p.vol)
      invariant used == p.used && rootSlot == p.rootSlot && nextCluster == p.nextCluster
      invariant Built(files) == BuiltFrom(p, files[i..])
    {
      var failure;
      failure, used, rootSlot, nextCluster, p := AddFile(img, files[i], used, rootSlot, nextCluster, p);
      if failure.Some? {
        return Err(failure.value);
      }
      assert files[i..][1..] == files[i + 1..];
    }
    r := Ok(img);
  }
}
