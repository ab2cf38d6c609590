/** Every built image as a FAT driver reads it: it drops a long name whose slots do not carry the
    checksum of the 8.3 entry behind them, and shows the 8.3 name with the case its flags give. */
module FatDriver {
  import opened Bytes
  import opened Text
  import opened Decimal
  import opened Utf16
  import opened FatLayout
  import opened FatNames
  import opened FatLfn
  import opened FatBuilder
  import opened FatReading
  import opened FatRoundTrip
  import opened FatStructure

  // --------------------------------------------------------------- checksum --

  function Rotated(x: byte): (r: byte)
  {
    var bits := x as bv8;
    ((bits >> 1) | (bits << 7)) as int
  }

  /** The driver's checksum: from the first byte on, rotate right by one bit and add, in eight bits. */
  function DriverSum(short: seq<byte>, prior: byte): (sum: byte)
  {
    if short == [] then prior else DriverSum(short[1..], (Rotated(prior) + short[0]) % 0x100)
  }

  lemma NextBits(b: bv8)
    requires b as int < 255
    ensures (b + 1) as int == b as int + 1
  {
    assert b < 255;
  }

  lemma BitsOf(x: byte) returns (b: bv8)
    ensures b as int == x
  {
    if x == 0 {
      b := 0;
    } else {
      b := BitsOf(x - 1);
      NextBits(b);
      b := b + 1;
    }
  }

  lemma SameBits(b: bv8)
    ensures (b as int) as bv8 == b
  {
  }

  lemma SameNumber(x: byte)
    ensures (x as bv8) as int == x
  {
    var b := BitsOf(x);
    SameBits(b);
  }

  lemma RotatedOf(x: byte, bits: bv8)
    requires bits as int == x
    ensures ((bits >> 1) | (bits << 7)) as int == x / 2 + x % 2 * 0x80
  {
    RotateRight(bits);
  }

  lemma RotatedIs(x: byte)
    ensures Rotated(x) == x / 2 + x % 2 * 0x80
  {
    SameNumber(x);
    RotatedOf(x, x as bv8);
  }

  /** One byte more rotates the checksum of what comes before it, and adds. */
  lemma ChecksumStep(short: seq<byte>, b: byte)
    ensures Checksum(short + [b]) == (Rotated(Checksum(short)) + b) % 0x100
  {
    assert (short + [b])[..|short|] == short;
    RotatedIs(Checksum(short));
  }

  lemma {:induction false} SumContinues(before: seq<byte>, short: seq<byte>)
    ensures DriverSum(short, Checksum(before)) == Checksum(before + short)
    decreases |short|
  {
    hide Checksum, Rotated;
    if short == [] {
      assert before + short == before;
    } else {
      ChecksumStep(before, short[0]);
      SumContinues(before + [short[0]], short[1..]);
      assert before + [short[0]] + short[1..] == before + short;
    }
  }

  /** The builder computes the driver's checksum. */
  lemma ChecksumIsDriverSum(short: seq<byte>)
    ensures Checksum(short) == DriverSum(short, 0)
  {
    SumContinues([], short);
    assert [] + short == short && Checksum([]) == 0;
  }

  lemma RotatedInjective(x: byte, y: byte)
    requires Rotated(x) == Rotated(y)
    ensures x == y
  {
    RotatedIs(x);
    RotatedIs(y);
  }

  lemma SumsDiffer(x: byte, y: byte, a: byte, b: byte)
    requires (x == y && a != b) || (x != y && a == b)
    ensures (x + a) % 0x100 != (y + b) % 0x100
  {
  }

  /** Names of equal length that differ in exactly one byte have different checksums. */
  lemma {:induction false} ChecksumDetects(a: seq<byte>, b: seq<byte>, at: nat)
    requires at < |a| == |b| && a[at] != b[at]
    requires forall k :: 0 <= k < |a| && k != at ==> a[k] == b[k]
    ensures Checksum(a) != Checksum(b)
  {
    hide Checksum, Rotated;
    var n := |a| - 1;
    ChecksumStep(a[..n], a[n]);
    ChecksumStep(b[..n], b[n]);
    assert a == a[..n] + [a[n]] && b == b[..n] + [b[n]];
    if at < n {
      ChecksumDetects(a[..n], b[..n], at);
      if Rotated(Checksum(a[..n])) == Rotated(Checksum(b[..n])) {
        RotatedInjective(Checksum(a[..n]), Checksum(b[..n]));
      }
    } else {
      assert a[..n] == b[..n];
    }
    SumsDiffer(Rotated(Checksum(a[..n])), Rotated(Checksum(b[..n])), a[n], b[n]);
  }

  // ------------------------------------------------------------ boot sector --

  /** The numbers of a boot sector at their offsets. */
  ghost predicate Says(s: seq<byte>, sectors: dword)
    requires |s| >= 512
  {
    && ReadLe16(s, 0x0B) == 512 && s[0x0D] == 4 && ReadLe16(s, 0x0E) == 4 && s[0x10] == 2
    && ReadLe16(s, 0x11) == 512 && ReadLe16(s, 0x13) == 0 && s[0x15] == 0xF8 && ReadLe16(s, 0x16) == 128
    && ReadLe16(s, 0x18) == 32 && ReadLe16(s, 0x1A) == 8 && ReadLe32(s, 0x1C) == 0 && ReadLe32(s, 0x20) == sectors
    && s[0x24] == 0x80 && s[0x26] == 0x29 && ReadLe32(s, 0x27) == 1
  }

  lemma SectorSays(s: seq<byte>)
    requires |s| >= 512 && s[..0x2B] == BootIdentity() + BootGeometry() + BootDrive()
    ensures Says(s, 131072)
  {
    var head := BootIdentity() + BootGeometry() + BootDrive();
    assert forall k :: 0 <= k < 0x2B ==> s[k] == head[k];
  }

  /** What a driver reads from the boot sector: the sizes at their offsets, which make up the image and
      whose cluster count makes it FAT16. */
  lemma BootSectorSays(v: Volume)
    ensures Says(Image(v), 131072) && 131072 * 512 == |Image(v)|
    ensures 4085 <= (131072 - 4 - 2 * 128 - 512 * 32 / 512) / 4 < 65525
  {
    var img := Image(v);
    assert forall k :: 0 <= k < 512 ==> img[k] == BootSector()[k];
    hide Image;
    assert img[..0x2B] == BootSector()[..0x2B] == BootIdentity() + BootGeometry() + BootDrive();
    SectorSays(img);
  }

  lemma IdentitySpells(s: seq<byte>)
    requires |s| >= 0x10 && s[..0x10] == BootIdentity()
    ensures s[0] == 0xEB && s[1] == 0x3C && s[2] == 0x90
    ensures forall k :: 0 <= k < 8 ==> s[3 + k] as char == "MSDOS5.0"[k]
  {
    var f := BootIdentity();
    forall k | 0 <= k < 8
      ensures s[3 + k] as char == "MSDOS5.0"[k]
    {
      assert s[3 + k] == f[3 + k];
    }
    assert s[0] == f[0] && s[1] == f[1] && s[2] == f[2];
  }

  lemma LabelSpells(s: seq<byte>)
    requires |s| >= 0x3E && s[0x2B..0x36] == VolumeLabel()
    requires s[0x36..0x3E] == [0x46, 0x41, 0x54, 0x31, 0x36, 0x20, 0x20, 0x20]
    ensures forall k :: 0 <= k < 8 ==> s[0x36 + k] as char == "FAT16   "[k]
    ensures forall k :: 0 <= k < 11 ==> s[0x2B + k] as char == "CIDATA     "[k]
  {
    var f, g := VolumeLabel(), s[0x36..0x3E];
    forall k | 0 <= k < 8
      ensures s[0x36 + k] as char == "FAT16   "[k]
    {
      assert s[0x36 + k] == g[k];
    }
    forall k | 0 <= k < 11
      ensures s[0x2B + k] as char == "CIDATA     "[k]
    {
      assert s[0x2B + k] == f[k];
    }
  }

  lemma SectorPieces(s: seq<byte>)
    requires |s| == 512 && s == BootSector()
    ensures s[..0x10] == BootIdentity() && s[0x2B..0x36] == VolumeLabel()
    ensures s[0x36..0x3E] == [0x46, 0x41, 0x54, 0x31, 0x36, 0x20, 0x20, 0x20]
    ensures s[510] == 0x55 && s[511] == 0xAA
  {
    hide BootIdentity, BootGeometry, BootDrive, VolumeLabel;
  }

  lemma SectorOf(v: Volume)
    ensures |Image(v)| == SEED_IMAGE_BYTES && Image(v)[..512] == BootSector()
  {
    hide BootSector;
  }

  /** The text and the signature of the boot sector. */
  lemma BootSectorTexts(v: Volume)
    ensures var img := Image(v);
      && (forall k :: 0 <= k < 8 ==> img[3 + k] as char == "MSDOS5.0"[k] && img[0x36 + k] as char == "FAT16   "[k])
      && (forall k :: 0 <= k < 11 ==> img[0x2B + k] as char == "CIDATA     "[k])
      && img[0] == 0xEB && img[1] == 0x3C && img[2] == 0x90 && img[510] == 0x55 && img[511] == 0xAA
  {
    SectorOf(v);
    hide Image, BootSector, BootIdentity, VolumeLabel;
    var s := Image(v)[..512];
    SectorPieces(s);
    IdentitySpells(s);
    LabelSpells(s);
  }

  // ------------------------------------------------------------ name chains --

  /** Where the thirteen units of a slot lie. */
  const UNITS_AT := [1, 3, 5, 7, 9, 14, 16, 18, 20, 22, 24, 28, 30]

  /** The slot at `at` is number `ord` of `count` of the chain of the 8.3 entry at `entry`, as a driver
      checks it: end flag on the highest, attribute 0x0F, and the checksum of that entry's name. */
  ghost predicate IsSlotOf(img: seq<byte>, at: nat, entry: nat, ord: nat, count: nat)
  {
    && at + 32 <= |img| && entry + 11 <= |img|
    && img[at] as int == (if ord == count then ord + 0x40 else ord) && img[at + 11] == 0x0F && img[at + 12] == 0
    && img[at + 13] == DriverSum(img[entry..entry + 11], 0) && img[at + 26] == 0 && img[at + 27] == 0
  }

  /** The slot at `at` holds thirteen units of the padded name. */
  ghost predicate HoldsUnits(img: seq<byte>, at: nat, units: seq<word>, ord: nat)
  {
    && at + 32 <= |img| && ord > 0
    && forall k :: 0 <= k < 13 ==> ReadLe16(img, at + UNITS_AT[k]) == PaddedUnit(units, (ord - 1) * 13 + k)
  }

  lemma UnitPositions(k: nat)
    requires k < UNITS_PER_SLOT
    ensures |UNITS_AT| == UNITS_PER_SLOT && UNITS_AT[k] == SlotPos(k)
  {
  }

  lemma UnitsInSlot(img: seq<byte>, at: nat, units: seq<word>, sum: byte, ord: nat)
    requires 0 < ord <= SlotCount(units) <= 20 && at + 32 <= |img| && img[at..at + 32] == Slot(units, sum, ord)
    ensures HoldsUnits(img, at, units, ord)
  {
    hide Slot, PaddedUnit, SlotPos;
    var e := img[at..at + 32];
    forall k | 0 <= k < 13
      ensures ReadLe16(img, at + UNITS_AT[k]) == PaddedUnit(units, (ord - 1) * 13 + k)
    {
      UnitPositions(k);
      SlotUnit(units, sum, ord, k);
      assert img[at + UNITS_AT[k]] == e[UNITS_AT[k]] && img[at + UNITS_AT[k] + 1] == e[UNITS_AT[k] + 1];
    }
  }

  /** One slot of a stored chain, byte by byte. */
  lemma SlotInImage(img: seq<byte>, at: nat, entry: nat, units: seq<word>, short: seq<byte>, ord: nat)
    requires 0 < ord <= SlotCount(units) <= 20 && at + 32 <= |img| && entry + 11 <= |img|
    requires img[at..at + 32] == Slot(units, Checksum(short), ord) && img[entry..entry + 11] == short
    ensures IsSlotOf(img, at, entry, ord, SlotCount(units)) && HoldsUnits(img, at, units, ord)
  {
    FixedBytes(units, Checksum(short), ord);
    ChecksumIsDriverSum(short);
    UnitsInSlot(img, at, units, Checksum(short), ord);
    hide Slot, Checksum, DriverSum, PaddedUnit, HoldsUnits;
    var e := img[at..at + 32];
    assert img[at] == e[0] && img[at + 11] == e[11] && img[at + 12] == e[12] && img[at + 13] == e[13];
    assert img[at + 26] == e[26] && img[at + 27] == e[27];
  }

  /** Where slot number `ord` of file `i` lies: the highest comes first, number 1 right before the
      8.3 entry. */
  function SlotAt(files: seq<SeedFile>, i: nat, ord: nat): (at: nat)
    requires i < |files| && ord <= SlotCount(Encode(files[i].name))
  {
    ROOT_DIR_START + 32 * (FirstSlot(files, i) + SlotCount(Encode(files[i].name)) - ord)
  }

  lemma SlotHeld(img: seq<byte>, slot: nat, units: seq<word>, short: ShortName, e: seq<byte>, ord: nat)
    requires |img| == SEED_IMAGE_BYTES && |e| == 32 && 0 < ord <= SlotCount(units) <= 20
    requires RootHolds(img, slot, NameSlots(units, short) + e)
    ensures RootHolds(img, slot + SlotCount(units) - ord, Slot(units, Checksum(short.bytes), ord))
  {
    RootHoldsSplit(img, slot, NameSlots(units, short), SlotCount(units), e);
    HeldChain(img, units, Checksum(short.bytes), SlotCount(units), slot);
  }

  /** In every built image, every slot of every name chain belongs to the 8.3 entry that ends the
      chain: a driver that computes the checksum of that entry finds it in each slot. */
  lemma {:induction false} SlotsBelong(files: seq<SeedFile>, i: nat, ord: nat)
    requires Built(files).Ok? && i < |files| && 0 < ord <= SlotCount(Encode(files[i].name))
    ensures var img, units := Image(Built(files).value.vol), Encode(files[i].name);
      && IsSlotOf(img, SlotAt(files, i, ord), EntryAt(files, i), ord, SlotCount(units))
      && HoldsUnits(img, SlotAt(files, i, ord), units, ord)
  {
    hide Built, Image, ShortOf, Linked, Filled, Slot, Checksum, DriverSum, PaddedUnit, FinalEntry, NameSlots, IsSlotOf;
    FileLayout(files, i);
    StoredEntry(files, i);
    var img, units, short := Image(Built(files).value.vol), Encode(files[i].name), ShortOf(files, i);
    SlotHeld(img, FirstSlot(files, i), units, short, FinalEntry(files[i], short, FirstCluster(files, i)), ord);
    SlotInImage(img, SlotAt(files, i, ord), EntryAt(files, i), units, short.bytes, ord);
  }

  // --------------------------------------------------------- derived names --

  /** A name chunk that 8.3 can hold up to its case. */
  predicate IsPlain(s: string)
  {
    forall i :: 0 <= i < |s| ==> IsLower(s[i]) || IsKept(s[i])
  }

  predicate HasUpper(s: string)
  {
    exists i :: 0 <= i < |s| && 'A' <= s[i] <= 'Z'
  }

  /** The flags give one case for all letters of a chunk. */
  predicate OneCase(s: string)
  {
    !HasLower(s) || !HasUpper(s)
  }

  /** Exactly the printable characters are kept that are neither lowercase nor forbidden; those and
      letters become capitals, everything else an underscore. */
  lemma KeptCharacters(c: char)
    ensures IsKept(c) <==> '!' <= c <= '~' && !('a' <= c <= 'z') && c !in "\"*+,./:;<=>?[\\]|"
    ensures ShortByte(c) as char == if IsKept(c) || IsLower(c) then UpperChar(c) else '_'
  {
  }

  /** `s` in capitals, filled up with blanks. */
  function Capitals(s: string, n: nat): (b: seq<byte>)
    requires IsPlain(s)
    ensures |b| == n
  {
    seq<byte>(n, i requires 0 <= i < n => if i < |s| then UpperChar(s[i]) as int else 0x20)
  }

  /** What a driver shows of one chunk: the bytes before the first blank, in the case of the flag. */
  function ShownChunk(b: seq<byte>, lower: bool): (s: string)
  {
    if b == [] || b[0] == 0x20 then []
    else [if lower then LowerChar(b[0] as char) else b[0] as char] + ShownChunk(b[1..], lower)
  }

  /** What a driver shows of an 8.3 entry: bit 3 makes the base lowercase, bit 4 the extension. */
  function Shown(n: ShortName): (s: string)
    requires |n.bytes| == 11
  {
    var base, ext := ShownChunk(n.bytes[..8], n.ntFlags / 8 % 2 == 1),
      ShownChunk(n.bytes[8..], n.ntFlags / 16 % 2 == 1);
    if ext == [] then base else base + "." + ext
  }

  function Dotted(base: string, ext: string): (long: string)
  {
    if ext == [] then base else base + "." + ext
  }

  /** The last dot separates base and extension. */
  lemma DottedParts(base: string, ext: string)
    requires IsPlain(ext) && (ext == [] ==> IsPlain(base))
    ensures RawBase(Dotted(base, ext)) == base && RawExt(Dotted(base, ext)) == ext
  {
    var long := Dotted(base, ext);
    var d := LastDot(long);
    if ext != [] {
      assert long[|base|] == '.' && long[|base| + 1..] == ext && long[..|base|] == base;
      assert d.Some?;
    }
  }

  lemma {:induction false} SanitizedPlain(s: string)
    requires IsPlain(s)
    ensures |Sanitized(s)| == |s| && !IsLossy(s)
    ensures forall i :: 0 <= i < |s| ==> Sanitized(s)[i] == UpperChar(s[i]) as int
  {
    if s != [] {
      SanitizedPlain(s[..|s| - 1]);
    }
  }

  lemma PackedCapitals(base: string, ext: string)
    requires IsPlain(base) && IsPlain(ext) && |base| <= 8 && |ext| <= 3
    ensures PackShort(Sanitized(base), Sanitized(ext)) == Capitals(base, 8) + Capitals(ext, 3)
  {
    hide Sanitized, IsPlain, IsLossy, IsShortName, AllShort, UpperChar;
    SanitizedPlain(base);
    SanitizedPlain(ext);
    var a, b := PackShort(Sanitized(base), Sanitized(ext)), Capitals(base, 8) + Capitals(ext, 3);
    forall i | 0 <= i < 11
      ensures a[i] == b[i]
    {
      if i < 8 {
        assert b[i] == Capitals(base, 8)[i];
      } else {
        assert b[i] == Capitals(ext, 3)[i - 8];
      }
    }
  }

  /** A plain name keeps its characters in capitals, base and extension apart, if that name is free;
      the flags say which of the two had a lowercase letter. */
  lemma PlainName(base: string, ext: string, used: set<ShortBytes>)
    requires IsPlain(base) && IsPlain(ext) && |base| <= 8 && |ext| <= 3 && (base != [] || ext != [])
    requires Capitals(base, 8) + Capitals(ext, 3) !in used
    ensures var r := Derived(Dotted(base, ext), used);
      && r.Ok? && r.value.bytes == Capitals(base, 8) + Capitals(ext, 3)
      && (r.value.ntFlags / 8 % 2 == 1 <==> HasLower(base)) && (r.value.ntFlags / 16 % 2 == 1 <==> HasLower(ext))
  {
    hide Sanitized, PackShort, Capitals, IsLossy, HasLower, LastDot, RawBase, RawExt, Dotted, IsPlain, FirstFreeTail;
    DottedParts(base, ext);
    SanitizedPlain(base);
    SanitizedPlain(ext);
    PackedCapitals(base, ext);
  }

  lemma {:induction false} ChunkShown(b: seq<byte>, s: string, low: bool)
    requires IsPlain(s) && |s| <= |b| && (forall i :: 0 <= i < |s| ==> b[i] == UpperChar(s[i]) as int)
    requires forall i :: |s| <= i < |b| ==> b[i] == 0x20
    ensures |ShownChunk(b, low)| == |s|
    ensures forall i :: 0 <= i < |s| ==>
      ShownChunk(b, low)[i] == if low then LowerChar(UpperChar(s[i])) else UpperChar(s[i])
  {
    if s != [] {
      ChunkShown(b[1..], s[1..], low);
    }
  }

  /** A chunk is shown as it was exactly if it has one case. */
  lemma ShownAsIs(b: seq<byte>, s: string)
    requires IsPlain(s) && |s| <= |b| && (forall i :: 0 <= i < |s| ==> b[i] == UpperChar(s[i]) as int)
    requires forall i :: |s| <= i < |b| ==> b[i] == 0x20
    ensures |ShownChunk(b, HasLower(s))| == |s| && (ShownChunk(b, HasLower(s)) == s <==> OneCase(s))
  {
    ChunkShown(b, s, HasLower(s));
  }

  lemma DottedEqual(base: string, ext: string, b: string, e: string)
    requires |b| == |base| && |e| == |ext|
    ensures Dotted(b, e) == Dotted(base, ext) <==> b == base && e == ext
  {
    if Dotted(b, e) == Dotted(base, ext) && ext != [] {
      assert Dotted(b, e)[..|b|] == b && Dotted(base, ext)[..|base|] == base;
      assert Dotted(b, e)[|b| + 1..] == e && Dotted(base, ext)[|base| + 1..] == ext;
    }
  }

  /** A driver that ignores the long name shows a plain name as it was given exactly if base and
      extension have one case each. */
  lemma PlainNameShown(base: string, ext: string, used: set<ShortBytes>)
    requires IsPlain(base) && IsPlain(ext) && |base| <= 8 && |ext| <= 3 && (base != [] || ext != [])
    requires Capitals(base, 8) + Capitals(ext, 3) !in used
    ensures var r := Derived(Dotted(base, ext), used);
      r.Ok? && (Shown(r.value) == Dotted(base, ext) <==> OneCase(base) && OneCase(ext))
  {
    PlainName(base, ext, used);
    var n := Derived(Dotted(base, ext), used).value;
    assert n.bytes[..8] == Capitals(base, 8) && n.bytes[8..] == Capitals(ext, 3);
    ShownAsIs(Capitals(base, 8), base);
    ShownAsIs(Capitals(ext, 3), ext);
    hide Derived, Capitals, ShownChunk, HasLower, OneCase, Dotted;
    DottedEqual(base, ext, ShownChunk(n.bytes[..8], HasLower(base)), ShownChunk(n.bytes[8..], HasLower(ext)));
    ShownIs(n);
  }

  lemma ShownIs(n: ShortName)
    requires |n.bytes| == 11
    ensures Shown(n) == Dotted(ShownChunk(n.bytes[..8], n.ntFlags / 8 % 2 == 1),
      ShownChunk(n.bytes[8..], n.ntFlags / 16 % 2 == 1))
  {
  }

  /** A base cut to what is left of eight bytes, then `~` and a decimal number; then the first three
      bytes of the extension. */
  predicate IsTailed(b: ShortBytes, base: seq<byte>, ext: seq<byte>, digits: seq<byte>, cut: nat)
  {
    && |b| == 11 && cut <= |base| && cut <= 6 && cut + 1 + |digits| <= 8
    && (cut == |base| || cut == 6 || cut + 1 + |digits| == 8)
    && b[..cut] == base[..cut] && b[cut] == 0x7E && b[cut + 1..cut + 1 + |digits|] == digits
    && (forall i :: cut + 1 + |digits| <= i < 8 ==> b[i] == 0x20)
    && forall i :: 0 <= i < 3 ==> b[8 + i] == if i < |ext| then ext[i] else 0x20
  }

  /** The 8.3 name that a long name gets with this tail. */
  ghost predicate HasTail(b: ShortBytes, long: string, tail: nat)
  {
    exists cut :: IsTailed(b, Sanitized(RawBase(long)), Sanitized(RawExt(long)), Digits(tail), cut)
  }

  ghost predicate TailTaken(used: set<ShortBytes>, long: string, tail: nat)
  {
    exists b :: b in used && HasTail(b, long, tail)
  }

  lemma PackedTail(base: seq<byte>, ext: seq<byte>, digits: seq<byte>, cut: nat)
    requires cut <= |base| && cut <= 6 && cut + 1 + |digits| <= 8
    requires cut == |base| || cut == 6 || cut + 1 + |digits| == 8
    ensures IsTailed(PackShort(base[..cut] + [0x7E] + digits, Take(ext, 3)), base, ext, digits, cut)
  {
    var name := base[..cut] + [0x7E] + digits;
    var b := PackShort(name, Take(ext, 3));
    assert forall i :: 0 <= i < 8 ==> b[i] == if i < |name| then name[i] else 0x20;
    assert b[..cut] == base[..cut];
    assert b[cut + 1..cut + 1 + |digits|] == digits;
  }

  lemma CandidateHasTail(long: string, tail: nat)
    requires 1 <= tail <= MAX_TAIL
    ensures HasTail(Candidate(Sanitized(RawBase(long)), Sanitized(RawExt(long)), tail), long, tail)
  {
    TailDigits(tail);
    var base, ext, n := Sanitized(RawBase(long)), Sanitized(RawExt(long)), |Digits(tail)|;
    hide Sanitized, RawBase, RawExt, Digits, IsTailed, PackShort;
    var room := if 7 - n < 6 then 7 - n else 6;
    var cut := if room < |base| then room else |base|;
    PackedTail(base, ext, Digits(tail), cut);
    assert TailedBase(base, tail) == base[..cut] + [0x7E] + Digits(tail);
  }

  lemma DerivedTail(long: string, used: set<ShortBytes>) returns (tail: nat)
    requires Derived(long, used).Ok?
    requires !FitsPlain(long) || PackShort(Sanitized(RawBase(long)), Sanitized(RawExt(long))) in used
    ensures 1 <= tail <= MAX_TAIL
    ensures Derived(long, used).value.bytes == Candidate(Sanitized(RawBase(long)), Sanitized(RawExt(long)), tail)
    ensures forall m :: 1 <= m < tail ==> Candidate(Sanitized(RawBase(long)), Sanitized(RawExt(long)), m) in used
  {
    hide Sanitized, RawBase, RawExt, Candidate, PackShort, FitsPlain, NtFlags;
    tail := FirstFreeTail(Sanitized(RawBase(long)), Sanitized(RawExt(long)), used, 1).value;
  }

  /** Any other name, and a plain one that is taken, gets a numeric tail, the least whose name is free. */
  lemma TailedName(long: string, used: set<ShortBytes>) returns (tail: nat)
    requires Derived(long, used).Ok?
    requires !FitsPlain(long) || PackShort(Sanitized(RawBase(long)), Sanitized(RawExt(long))) in used
    ensures 1 <= tail <= MAX_TAIL && HasTail(Derived(long, used).value.bytes, long, tail)
    ensures forall m :: 1 <= m < tail ==> TailTaken(used, long, m)
  {
    tail := DerivedTail(long, used);
    hide Derived, HasTail, Candidate, Sanitized, RawBase, RawExt;
    CandidateHasTail(long, tail);
    forall m | 1 <= m < tail
      ensures TailTaken(used, long, m)
    {
      CandidateHasTail(long, m);
    }
  }

  // ------------------------------------------------------------- failed builds --

  /** Why file `i` cannot be added behind files that could: its name, the slots, or the clusters. */
  predicate FailsAt(files: seq<SeedFile>, i: nat, e: FatError)
    requires i < |files|
  {
    var name := files[i].name;
    match e
    case ShortNameFailed(x) =>
      x == NoUsableCharacters && Sanitized(RawBase(name)) == [] && Sanitized(RawExt(name)) == []
    case LongNameFailed(IllegalCharacter) => '\0' in name || '/' in name
    case LongNameFailed(EmptyName) => name == ""
    case LongNameFailed(NameTooLong) => |Encode(name)| > 255
    case RootDirectoryFull => FirstSlot(files, i + 1) > 512
    case ClusterCountOverflow => FirstCluster(files, i) + ClusterNeed(files[i].bytes) > U32_MAX
    case DataAreaExhausted => FirstCluster(files, i + 1) > CLUSTER_COUNT + 2
  }

  lemma AddedAsFails(p: Progress, f: SeedFile, short: Result<ShortName, ShortNameError>)
    requires p.Valid() && (short.Ok? ==> |short.value.bytes| == 11) && AddedAs(p, f, short).Err?
    ensures var e, n := AddedAs(p, f, short).error, p.nextCluster + ClusterNeed(f.bytes);
      match e
      case ShortNameFailed(x) => short == Err(x)
      case LongNameFailed(x) => LongNameError(f.name) == Some(x)
      case RootDirectoryFull => p.rootSlot + SlotCount(Encode(f.name)) + 1 > 512
      case ClusterCountOverflow => n > U32_MAX
      case DataAreaExhausted => n > CLUSTER_COUNT + 2
  {
    hide SlotCount, ClusterNeed, Advanced, LongNameError;
  }

  lemma LongNameErrorIs(name: string)
    ensures match LongNameError(name)
      case Some(IllegalCharacter) => '\0' in name || '/' in name
      case Some(EmptyName) => name == ""
      case Some(NameTooLong) => |Encode(name)| > 255
      case None => '\0' !in name && '/' !in name && 0 < |Encode(name)| <= 255
  {
    EmptyEncoding(name);
  }

  lemma AddFailsFor(p: Progress, files: seq<SeedFile>, i: nat)
    requires p.Valid() && i < |files| && Added(p, files[i]).Err?
    requires p.rootSlot == FirstSlot(files, i) && p.nextCluster == FirstCluster(files, i)
    ensures FailsAt(files, i, Added(p, files[i]).error)
  {
    NoNameShortage(p, files[i].name);
    DerivedFails(files[i].name, p.used);
    LongNameErrorIs(files[i].name);
    hide Derived, Sanitized, RawBase, RawExt, SlotCount, ClusterNeed, AddedAs, LongNameError, Encode;
    AddedAsFails(p, files[i], Derived(files[i].name, p.used));
  }

  lemma EmptyEncoding(name: string)
    ensures |Encode(name)| == 0 <==> name == ""
  {
  }

  lemma {:induction false} FailsFrom(p: Progress, files: seq<SeedFile>, i: nat, rest: seq<SeedFile>) returns (k: nat)
    requires p.Valid() && i <= |files| && rest == files[i..] && BuiltFrom(p, rest).Err?
    requires p.rootSlot == FirstSlot(files, i) && p.nextCluster == FirstCluster(files, i)
    ensures i <= k < |files| && FailsAt(files, k, BuiltFrom(p, rest).error)
    ensures forall m :: i <= m < k ==> NameUsable(files[m].name)
    ensures FirstSlot(files, k) <= 512 && FirstCluster(files, k) <= CLUSTER_COUNT + 2
    decreases |files| - i
  {
    hide FailsAt, Added, NameUsable, FirstSlot, FirstCluster;
    if i == |files| {
      assert false;
    }
    BuiltFromFirst(p, rest);
    assert rest[0] == files[i] && rest[1..] == files[i + 1..];
    if Added(p, files[i]).Err? {
      AddFailsFor(p, files, i);
      k := i;
    } else {
      AcceptStep(files, i, p);
      k := FailsFrom(Added(p, files[i]).value, files, i + 1, rest[1..]);
    }
  }

  /** A build fails at the first file that cannot be added, and its error says why. */
  lemma BuildFailsAt(files: seq<SeedFile>) returns (k: nat)
    requires Built(files).Err?
    ensures k < |files| && FailsAt(files, k, Built(files).error)
    ensures forall m :: 0 <= m < k ==> NameUsable(files[m].name)
    ensures FirstSlot(files, k) <= 512 && FirstCluster(files, k) <= CLUSTER_COUNT + 2
  {
    assert files[0..] == files;
    k := FailsFrom(Start(), files, 0, files);
  }
}
