/** The structure of every built image in closed form, when a build succeeds, and its 8.3 names. */
module FatStructure {
  import opened Bytes
  import opened Utf16
  import opened FatLayout
  import opened FatNames
  import opened FatLfn
  import opened FatBuilder
  import opened FatReader
  import opened FatReading
  import opened FatRoundTrip

  /** The cluster at which file `i` would start if files simply follow each other. */
  function FirstCluster(files: seq<SeedFile>, i: nat): (c: nat)
    requires i <= |files|
    ensures c >= FIRST_DATA_CLUSTER
  {
    if i == 0 then FIRST_DATA_CLUSTER
    else FirstCluster(files, i - 1) + ClusterNeed(files[i - 1].bytes)
  }

  /** The root slot at which file `i` would start. */
  function FirstSlot(files: seq<SeedFile>, i: nat): (s: nat)
    requires i <= |files|
    ensures s >= 1
  {
    if i == 0 then 1
    else FirstSlot(files, i - 1) + SlotCount(Encode(files[i - 1].name)) + 1
  }

  // ------------------------------------------------------------------- runs --

  /** One file has been added under a new 8.3 name, and nothing of it is undone later. */
  ghost predicate Step(p: Progress, f: SeedFile, short: ShortName, next: Progress, later: Volume)
  {
    && p.Valid() && next.Valid()
    && IsShortName(short.bytes) && short.bytes !in p.used && SlotCount(Encode(f.name)) <= 20
    && p.nextCluster + ClusterNeed(f.bytes) == next.nextCluster
    && p.rootSlot + SlotCount(Encode(f.name)) + 1 == next.rootSlot
    && next.used == p.used + {short.bytes}
    && Extends(later, AddedVolume(p.vol, p.nextCluster, f, Encode(f.name), short, ClusterNeed(f.bytes)))
  }

  /** The builder's states and the 8.3 names along a successful build. */
  datatype Run = Run(states: seq<Progress>, shorts: seq<ShortName>) {
    ghost predicate Of(files: seq<SeedFile>, p: Progress, later: Volume) {
      && |states| == |files| + 1 && |shorts| == |files|
      && states[0] == p && states[|files|].vol == later && later.Fits()
      && forall i :: 0 <= i < |files| ==> Step(states[i], files[i], shorts[i], states[i + 1], later)
    }

    ghost predicate Reports(files: seq<SeedFile>, all: seq<ParsedFile>) {
      && |states| == |files| + 1 && |shorts| == |files| == |all|
      && forall i :: 0 <= i < |files| ==>
        states[i].nextCluster <= 0xFFFF && all[i] == Reported(files[i], shorts[i], states[i].nextCluster)
    }
  }

  lemma FirstStep(p: Progress, files: seq<SeedFile>, later: Volume) returns (short: ShortName, next: Progress)
    requires p.Valid() && files != [] && BuiltFrom(p, files).Ok? && later == BuiltFrom(p, files).value.vol
    ensures Added(p, files[0]) == Ok(next) && Step(p, files[0], short, next, later)
    ensures BuiltFrom(next, files[1..]) == BuiltFrom(p, files)
    ensures AllReported(p, files)[0] == Reported(files[0], short, p.nextCluster)
    ensures AllReported(p, files)[1..] == AllReported(next, files[1..])
  {
    BuiltStep(p, files, later);
    next := Added(p, files[0]).value;
    short := Derived(files[0].name, p.used).value;
    AddedIs(p, files[0], Derived(files[0].name, p.used), next);
  }

  lemma {:induction false} RunOf(p: Progress, files: seq<SeedFile>, later: Volume) returns (run: Run)
    requires p.Valid() && BuiltFrom(p, files).Ok? && later == BuiltFrom(p, files).value.vol
    ensures run.Of(files, p, later)
    ensures run.Reports(files, AllReported(p, files))
    decreases |files|
  {
    if files == [] {
      ValidFits(p);
      run := Run([p], []);
    } else {
      var short, next := FirstStep(p, files, later);
      var rest := RunOf(next, files[1..], later);
      run := Run([p] + rest.states, [short] + rest.shorts);
      forall i | 0 <= i < |files|
        ensures Step(run.states[i], files[i], run.shorts[i], run.states[i + 1], later)
        ensures run.states[i].nextCluster <= 0xFFFF
        ensures AllReported(p, files)[i] == Reported(files[i], run.shorts[i], run.states[i].nextCluster)
      {
        if i > 0 {
          assert files[i] == files[1..][i - 1] && AllReported(p, files)[i] == AllReported(p, files)[1..][i - 1];
          assert Step(rest.states[i - 1], files[i], rest.shorts[i - 1], rest.states[i], later);
        }
      }
    }
  }

  lemma {:induction false} PositionsAfter(files: seq<SeedFile>, run: Run, later: Volume, i: nat)
    requires run.Of(files, Start(), later) && i <= |files|
    ensures run.states[i].nextCluster == FirstCluster(files, i)
    ensures run.states[i].rootSlot == FirstSlot(files, i)
  {
    if i > 0 {
      PositionsAfter(files, run, later, i - 1);
      assert Step(run.states[i - 1], files[i - 1], run.shorts[i - 1], run.states[i], later);
    }
  }

  lemma {:induction false} UsedStays(files: seq<SeedFile>, run: Run, later: Volume, i: nat, j: nat)
    requires run.Of(files, Start(), later) && i < j <= |files|
    ensures run.shorts[i].bytes in run.states[j].used
  {
    assert Step(run.states[j - 1], files[j - 1], run.shorts[j - 1], run.states[j], later);
    if i < j - 1 {
      UsedStays(files, run, later, i, j - 1);
    }
  }

  /** The 8.3 name file `i` is stored under, as the reader reports it. */
  function ShortOf(files: seq<SeedFile>, i: nat): (s: ShortName)
    requires Built(files).Ok? && i < |files|
  {
    var e := AllReported(Start(), files)[i];
    ShortName(e.short, e.ntFlags)
  }

  // ----------------------------------------------------------- closed forms --

  /** Where each file lies: its name chain and 8.3 entry in the root directory, its links in the
      FAT, its bytes (zero padded) in the data area. */
  lemma FileLayout(files: seq<SeedFile>, i: nat)
    requires Built(files).Ok? && i < |files|
    ensures FirstCluster(files, i + 1) == FirstCluster(files, i) + ClusterNeed(files[i].bytes)
    ensures FirstCluster(files, i + 1) <= CLUSTER_COUNT + FIRST_DATA_CLUSTER
    ensures IsShortName(ShortOf(files, i).bytes) && SlotCount(Encode(files[i].name)) <= 20
    ensures var img := Image(Built(files).value.vol);
      var first, n := FirstCluster(files, i), ClusterNeed(files[i].bytes);
      && RootHolds(img, FirstSlot(files, i),
           NameSlots(Encode(files[i].name), ShortOf(files, i)) + FinalEntry(files[i], ShortOf(files, i), first))
      && Linked(img, first, n) && Filled(img, first, n, files[i].bytes)
  {
    var later := Built(files).value.vol;
    var run := RunOf(Start(), files, later);
    PositionsAfter(files, run, later, i);
    var p, short := run.states[i], run.shorts[i];
    assert Step(p, files[i], short, run.states[i + 1], later);
    assert short == ShortOf(files, i);
    PlacedFile(p, files[i], Encode(files[i].name), short, ClusterNeed(files[i].bytes), later);
  }

  lemma ChainContents(files: seq<SeedFile>, i: nat, c: nat)
    requires Built(files).Ok? && i < |files|
    requires FirstCluster(files, i) <= c < FirstCluster(files, i + 1) <= CLUSTER_COUNT + FIRST_DATA_CLUSTER
    ensures ReadLe16(Image(Built(files).value.vol), FAT_START + 2 * c)
         == if c + 1 == FirstCluster(files, i + 1) then FAT_ENTRY_EOC else c + 1
  {
    var first, n := FirstCluster(files, i), ClusterNeed(files[i].bytes);
    FileLayout(files, i);
    assert ReadLe16(Image(Built(files).value.vol), FAT_START + 2 * c) == Link(first, n, c - first);
  }

  lemma FreeContents(files: seq<SeedFile>, c: nat)
    requires Built(files).Ok? && FirstCluster(files, |files|) <= c
    ensures FatEntry(Built(files).value.vol, c) == 0
  {
    var later := Built(files).value.vol;
    var run := RunOf(Start(), files, later);
    PositionsAfter(files, run, later, |files|);
    EndValid(files, run, later);
  }

  lemma EndValid(files: seq<SeedFile>, run: Run, later: Volume)
    requires run.Of(files, Start(), later)
    ensures run.states[|files|].Valid()
  {
    if files != [] {
      var i := |files| - 1;
      assert Step(run.states[i], files[i], run.shorts[i], run.states[i + 1], later);
    }
  }

  /** The whole FAT, in both copies: the two reserved entries, one contiguous chain per file in
      file order, each ending in the end-of-chain mark, and zero for every other cluster. */
  lemma FatContents(files: seq<SeedFile>, c: nat)
    requires Built(files).Ok? && c < CLUSTER_COUNT + FIRST_DATA_CLUSTER
    ensures var img := Image(Built(files).value.vol);
      var e := ReadLe16(img, FAT_START + 2 * c);
      && ReadLe16(img, FAT_START + FAT_BYTES + 2 * c) == e
      && (c == 0 ==> e == FAT_ENTRY_MEDIA) && (c == 1 ==> e == FAT_ENTRY_EOC)
      && (forall i :: 0 <= i < |files| && FirstCluster(files, i) <= c < FirstCluster(files, i + 1) ==>
           e == if c + 1 == FirstCluster(files, i + 1) then FAT_ENTRY_EOC else c + 1)
      && (FirstCluster(files, |files|) <= c ==> e == 0)
  {
    FatEntryOfImage(Built(files).value.vol, c);
    if c < 2 {
      ReservedEntries(files, c);
    }
    forall i | 0 <= i < |files| && FirstCluster(files, i) <= c < FirstCluster(files, i + 1)
      ensures ReadLe16(Image(Built(files).value.vol), FAT_START + 2 * c)
           == if c + 1 == FirstCluster(files, i + 1) then FAT_ENTRY_EOC else c + 1
    {
      FileLayout(files, i);
      ChainContents(files, i, c);
    }
    if FirstCluster(files, |files|) <= c {
      FreeContents(files, c);
    }
  }

  lemma ReservedEntries(files: seq<SeedFile>, c: nat)
    requires Built(files).Ok? && c < 2
    ensures FatEntry(Built(files).value.vol, c) == if c == 0 then FAT_ENTRY_MEDIA else FAT_ENTRY_EOC
  {
    var start, later := Start().vol.fat, Built(files).value.vol.fat;
    assert start <= later;
    assert later[2 * c] == start[2 * c] && later[2 * c + 1] == start[2 * c + 1];
  }

  /** Every data entry belongs to exactly one file's chain or is free. */
  lemma {:induction false} ChainOwner(files: seq<SeedFile>, n: nat, c: nat) returns (i: nat)
    requires n <= |files| && FIRST_DATA_CLUSTER <= c < FirstCluster(files, n)
    ensures i < n && FirstCluster(files, i) <= c < FirstCluster(files, i + 1)
    ensures forall j :: 0 <= j < n && FirstCluster(files, j) <= c < FirstCluster(files, j + 1) ==> j == i
  {
    if c >= FirstCluster(files, n - 1) {
      i := n - 1;
      forall j | 0 <= j < n && FirstCluster(files, j) <= c < FirstCluster(files, j + 1)
        ensures j == i
      {
        if j < n - 1 {
          ClustersGrow(files, j + 1, n - 1);
        }
      }
    } else {
      i := ChainOwner(files, n - 1, c);
    }
  }

  lemma {:induction false} ClustersGrow(files: seq<SeedFile>, i: nat, j: nat)
    requires i <= j <= |files|
    ensures FirstCluster(files, i) <= FirstCluster(files, j)
  {
    if i < j {
      ClustersGrow(files, i, j - 1);
    }
  }

  // -------------------------------------------------------------- 8.3 names --

  /** The 8.3 entry of file `i` lies after its name chain. */
  function EntryAt(files: seq<SeedFile>, i: nat): (at: nat)
    requires i < |files|
  {
    ROOT_DIR_START + 32 * (FirstSlot(files, i) + SlotCount(Encode(files[i].name)))
  }

  /** Whether a directory entry's date field means this day. */
  predicate IsDate(d: word, year: nat, month: nat, day: nat)
  {
    d / 0x200 + 1980 == year && d / 0x20 % 0x10 == month && d % 0x20 == day
  }

  /** The entry begins with the 8.3 name, marks an ordinary file, and holds the first cluster and the
      size, of which only 32 bits are kept; its dates are the first of January 2026, its times and
      the high half of the cluster zero. */
  ghost predicate EntryHolds(img: seq<byte>, at: nat, short: ShortName, first: word, size: nat)
  {
    && at + 32 <= |img| && img[at..at + 11] == short.bytes && img[at + 11] == 0x20 && img[at + 12] == short.ntFlags
    && ReadLe16(img, at + 0x1A) == first && ReadLe32(img, at + 0x1C) == size % 0x1_0000_0000
    && img[at + 13..at + 16] == Zeros(3) && img[at + 20..at + 24] == Zeros(4)
    && IsDate(ReadLe16(img, at + 0x10), 2026, 1, 1) && IsDate(ReadLe16(img, at + 0x12), 2026, 1, 1)
    && IsDate(ReadLe16(img, at + 0x18), 2026, 1, 1)
  }

  lemma EntryInImage(img: seq<byte>, at: nat, e: seq<byte>, short: ShortName, first: word, size: nat)
    requires at + 32 <= |img| && img[at..at + 32] == e && IsShortName(short.bytes)
    requires e == ShortEntry(short, first, size % 0x1_0000_0000)
    ensures EntryHolds(img, at, short, first, size)
  {
    ShortEntryFields(short, first, size % 0x1_0000_0000);
    hide ShortEntry, IsShortName;
    SliceOfSlice(img, at, 32, 0, 11);
    SliceOfSlice(img, at, 32, 13, 3);
    SliceOfSlice(img, at, 32, 20, 4);
    assert forall k :: 0 <= k < 32 ==> img[at + k] == e[k];
  }

  lemma EntryInRoot(img: seq<byte>, slot: nat, chain: seq<byte>, n: nat, e: seq<byte>)
    requires |img| == SEED_IMAGE_BYTES && |chain| == 32 * n && |e| == 32 && RootHolds(img, slot, chain + e)
    ensures ROOT_DIR_START + 32 * (slot + n) + 32 <= |img|
    ensures img[ROOT_DIR_START + 32 * (slot + n)..ROOT_DIR_START + 32 * (slot + n) + 32] == e
  {
    RootHoldsSplit(img, slot, chain, n, e);
  }

  /** Every file of every image has, after its name chain, an entry with an 8.3 name of 8+3 printable
      capital ASCII or blank bytes, not beginning with the end-of-directory byte, and the cluster at
      which its chain starts. */
  lemma {:induction false} StoredEntry(files: seq<SeedFile>, i: nat)
    requires Built(files).Ok? && i < |files|
    ensures IsShortName(ShortOf(files, i).bytes) && ShortOf(files, i).bytes[0] != 0
    ensures FirstCluster(files, i) <= 0xFFFF
    ensures EntryHolds(Image(Built(files).value.vol), EntryAt(files, i), ShortOf(files, i),
      if files[i].bytes == [] then 0 else FirstCluster(files, i), |files[i].bytes|)
  {
    hide Built, Image, ShortOf, EntryHolds, Linked, Filled, RootHolds;
    FileLayout(files, i);
    EntryLies(Image(Built(files).value.vol), FirstSlot(files, i), files[i], ShortOf(files, i), FirstCluster(files, i));
  }

  /** Where no size wraps, this is what the reader reports. */
  lemma {:induction false} ParsedEntry(files: seq<SeedFile>, i: nat)
    requires Built(files).Ok? && SizesExact(files) && i < |files|
    ensures var r := Parse(Image(Built(files).value.vol));
      && r.Some? && |r.value.entries| == |files| && r.value.entries[i].short == ShortOf(files, i).bytes
      && r.value.entries[i].firstCluster == if files[i].bytes == [] then 0 else FirstCluster(files, i)
  {
    hide Built, Image, Parse, AllReported;
    ParseBuilt(files);
    ReportedFirst(files, i);
  }

  lemma EntryLies(img: seq<byte>, slot: nat, f: SeedFile, short: ShortName, start: nat)
    requires |img| == SEED_IMAGE_BYTES && start <= 0xFFFF
    requires IsShortName(short.bytes) && SlotCount(Encode(f.name)) <= 20
    requires RootHolds(img, slot, NameSlots(Encode(f.name), short) + FinalEntry(f, short, start))
    ensures EntryHolds(img, ROOT_DIR_START + 32 * (slot + SlotCount(Encode(f.name))), short,
      if f.bytes == [] then 0 else start, |f.bytes|)
  {
    var chain, n, e := NameSlots(Encode(f.name), short), SlotCount(Encode(f.name)), FinalEntry(f, short, start);
    EntryInRoot(img, slot, chain, n, e);
    EntryInImage(img, ROOT_DIR_START + 32 * (slot + n), e, short, if f.bytes == [] then 0 else start, |f.bytes|);
  }

  lemma {:induction false} ReportedFirst(files: seq<SeedFile>, i: nat)
    requires Built(files).Ok? && i < |files|
    ensures AllReported(Start(), files)[i].firstCluster == if files[i].bytes == [] then 0 else FirstCluster(files, i)
  {
    var later := Built(files).value.vol;
    var run := RunOf(Start(), files, later);
    PositionsAfter(files, run, later, i);
  }

  /** No two files of an image share an 8.3 name. */
  lemma ShortNamesDistinct(files: seq<SeedFile>, i: nat, j: nat)
    requires Built(files).Ok? && i < j < |files|
    ensures ShortOf(files, i).bytes != ShortOf(files, j).bytes
  {
    var later := Built(files).value.vol;
    var run := RunOf(Start(), files, later);
    UsedStays(files, run, later, i, j);
    assert Step(run.states[j], files[j], run.shorts[j], run.states[j + 1], later);
    assert ShortOf(files, i).bytes == run.shorts[i].bytes && ShortOf(files, j).bytes == run.shorts[j].bytes;
  }

  // ------------------------------------------------------ when it succeeds --

  predicate NameUsable(name: string)
  {
    LongNameError(name).None? && (Sanitized(RawBase(name)) != [] || Sanitized(RawExt(name)) != [])
  }

  /** The pigeonhole at work: at most 255 files fit the root directory, so an unused `~N` tail
      always exists. */
  lemma NoNameShortage(p: Progress, name: string)
    requires p.Valid()
    ensures Derived(name, p.used) != Err(NoUniqueShortName)
  {
    TailsNeverRunOut(name, p.used);
  }

  lemma AddSucceeds(p: Progress, f: SeedFile)
    requires p.Valid()
    ensures Added(p, f).Ok? <==>
      && NameUsable(f.name)
      && p.rootSlot + SlotCount(Encode(f.name)) + 1 <= ROOT_ENTRIES
      && p.nextCluster + ClusterNeed(f.bytes) <= CLUSTER_COUNT + FIRST_DATA_CLUSTER
    ensures Added(p, f).Ok? ==>
      && Added(p, f).value.rootSlot == p.rootSlot + SlotCount(Encode(f.name)) + 1
      && Added(p, f).value.nextCluster == p.nextCluster + ClusterNeed(f.bytes)
    ensures Added(p, f) != Err(ShortNameFailed(NoUniqueShortName))
  {
    NoNameShortage(p, f.name);
    DerivedFails(f.name, p.used);
  }

  lemma DerivedFails(name: string, used: set<ShortBytes>)
    ensures Derived(name, used) == Err(NoUsableCharacters) <==>
      Sanitized(RawBase(name)) == [] && Sanitized(RawExt(name)) == []
  {
  }

  ghost predicate AllUsable(files: seq<SeedFile>, i: nat)
  {
    forall k :: i <= k < |files| ==> NameUsable(files[k].name)
  }

  ghost predicate AllFit(files: seq<SeedFile>)
  {
    && FirstSlot(files, |files|) <= ROOT_ENTRIES
    && FirstCluster(files, |files|) <= CLUSTER_COUNT + FIRST_DATA_CLUSTER
  }

  /** Exactly when a build succeeds: every name is usable, and the directory slots and the
      clusters of all the files fit. In particular the order of the files does not matter, and
      running out of 8.3 names is impossible. */
  lemma BuildSucceeds(files: seq<SeedFile>)
    ensures Built(files).Ok? <==> AllUsable(files, 0) && AllFit(files)
    ensures Built(files) != Err(ShortNameFailed(NoUniqueShortName))
  {
    assert files[0..] == files;
    BuildSucceedsFrom(files, 0, Start(), files);
  }

  lemma BuiltFromFirst(p: Progress, rest: seq<SeedFile>)
    requires p.Valid() && rest != []
    ensures Added(p, rest[0]).Ok? ==> BuiltFrom(p, rest) == BuiltFrom(Added(p, rest[0]).value, rest[1..])
    ensures Added(p, rest[0]).Err? ==> BuiltFrom(p, rest) == Err(Added(p, rest[0]).error)
  {
  }

  /** One more file is accepted, or none of the longer lists that start like this one is. */
  lemma AcceptStep(files: seq<SeedFile>, i: nat, p: Progress)
    requires i < |files| && p.Valid()
    requires p.rootSlot == FirstSlot(files, i) && p.nextCluster == FirstCluster(files, i)
    ensures Added(p, files[i]) != Err(ShortNameFailed(NoUniqueShortName))
    ensures Added(p, files[i]).Err? ==> !(AllUsable(files, i) && AllFit(files))
    ensures Added(p, files[i]).Ok? ==>
      && NameUsable(files[i].name)
      && Added(p, files[i]).value.rootSlot == FirstSlot(files, i + 1)
      && Added(p, files[i]).value.nextCluster == FirstCluster(files, i + 1)
  {
    AddSucceeds(p, files[i]);
    ClustersGrow(files, i + 1, |files|);
    SlotsGrow(files, i + 1, |files|);
  }

  lemma {:induction false} BuildSucceedsFrom(files: seq<SeedFile>, i: nat, p: Progress, rest: seq<SeedFile>)
    requires i <= |files| && p.Valid() && rest == files[i..]
    requires p.rootSlot == FirstSlot(files, i) && p.nextCluster == FirstCluster(files, i)
    ensures BuiltFrom(p, rest).Ok? <==> AllUsable(files, i) && AllFit(files)
    ensures BuiltFrom(p, rest) != Err(ShortNameFailed(NoUniqueShortName))
    decreases |files| - i
  {
    if i < |files| {
      BuiltFromFirst(p, rest);
      AcceptStep(files, i, p);
      if Added(p, files[i]).Ok? {
        assert rest[1..] == files[i + 1..];
        BuildSucceedsFrom(files, i + 1, Added(p, files[i]).value, files[i + 1..]);
      }
    }
  }

  lemma {:induction false} SlotsGrow(files: seq<SeedFile>, i: nat, j: nat)
    requires i <= j <= |files|
    ensures FirstSlot(files, i) <= FirstSlot(files, j)
  {
    if i < j {
      SlotsGrow(files, i, j - 1);
    }
  }

  /** A file at which the 32-bit cluster count wraps to zero: the build succeeds without storing a
      single cluster, and the file does not come back. */
  lemma OversizedFileIsLost(bytes: seq<byte>)
    requires |bytes| == CLUSTER_BYTES * 0x1_0000_0000
    ensures var files := [SeedFile("a", bytes)];
      Built(files).Ok? && !RoundTrips(files, Parse(Image(Built(files).value.vol)))
  {
    var files := [SeedFile("a", bytes)];
    assert ClusterNeed(bytes) == 0;
    OneLetterUsable();
    assert FirstSlot(files, 1) == FirstSlot(files, 0) + SlotCount(Encode("a")) + 1;
    assert FirstCluster(files, 1) == FirstCluster(files, 0) + ClusterNeed(bytes);
    BuildSucceeds(files);
    RoundTrip(files);
    assert |files[0].bytes| > CAST_LIMIT;
  }

  lemma OneLetterUsable()
    ensures |Encode("a")| == 1 && NameUsable("a")
  {
    assert "a"[1..] == "" && "a"[..0] == "";
    assert Encode("a") == EncodeChar('a') + Encode("");
    assert LastDot("a").None?;
    assert Sanitized("a") == Sanitized("") + [ShortByte('a')];
  }
}
