/** VFAT long-name chains: 13 UTF-16 units a slot, highest ordinal first, each slot carrying the
    checksum of the 8.3 name that ends the chain. */
module FatLfn {
  import opened Bytes
  import opened Utf16

  const UNITS_PER_SLOT := 13
  const MAX_NAME_UNITS := 255

  datatype LfnError = IllegalCharacter | EmptyName | NameTooLong

  /** Where unit `k` of a slot is stored: 5 at 0x01, 6 at 0x0E, 2 at 0x1C. */
  function SlotPos(k: nat): (p: nat)
    requires k < UNITS_PER_SLOT
    ensures p + 1 < 32
  {
    if k < 5 then 1 + k * 2
    else if k < 11 then 14 + (k - 5) * 2
    else 28 + (k - 11) * 2
  }

  /** The arithmetic definition of the long-name checksum. */
  function Checksum(short: seq<byte>): (sum: byte)
  {
    if short == [] then 0
    else
      var prior: int := Checksum(short[..|short| - 1]);
      (prior / 2 + prior % 2 * 0x80 + short[|short| - 1]) % 0x100
  }

  method LfnChecksum(short: seq<byte>) returns (sum: byte)
    ensures sum == Checksum(short)
  {
    sum := 0;
    for i := 0 to |short|
      invariant sum == Checksum(short[..i])
    {
      assert short[..i + 1][..i] == short[..i];
      var rotated: int := sum / 2 + sum % 2 * 0x80;
      sum := (rotated + short[i]) % 0x100;
    }
    assert short[..|short|] == short;
  }

  /** The arithmetic step of the checksum is the eight-bit rotation to the right. */
  lemma RotateRight(x: bv8)
    ensures ((x >> 1) | (x << 7)) as int == x as int / 2 + x as int % 2 * 0x80
  {
    assert (x >> 1) as int == x as int / 2;
    assert x & 1 == 0 || x & 1 == 1;
    assert x as int % 2 == (x & 1) as int;
    if x & 1 == 0 {
      assert (x >> 1) | (x << 7) == x >> 1;
    } else {
      assert (x >> 1) | (x << 7) == (x >> 1) + 0x80;
    }
  }

  function SlotCount(units: seq<word>): (n: nat)
    ensures n * UNITS_PER_SLOT >= |units|
    ensures units != [] ==> n > 0 && (n - 1) * UNITS_PER_SLOT < |units|
    ensures |units| <= MAX_NAME_UNITS ==> n <= 20
  {
    DivCeil(|units|, UNITS_PER_SLOT)
  }

  /** The name, then one 0x0000, then 0xFFFF: what position `g` of the padded name holds. */
  function PaddedUnit(units: seq<word>, g: nat): (u: word)
  {
    if g < |units| then units[g] else if g == |units| then 0 else 0xFFFF
  }

  predicate IsUnitByte(i: nat) {
    1 <= i <= 10 || 14 <= i <= 25 || 28 <= i < 32
  }

  /** Which unit of its slot a byte belongs to. */
  function UnitOf(i: nat): (k: nat)
    requires IsUnitByte(i)
    ensures k < UNITS_PER_SLOT
    ensures i == SlotPos(k) || i == SlotPos(k) + 1
  {
    if i <= 10 then (i - 1) / 2
    else if i <= 25 then 5 + (i - 14) / 2
    else 11 + (i - 28) / 2
  }

  function UnitByte(units: seq<word>, ord: nat, i: nat): (b: byte)
    requires ord > 0 && IsUnitByte(i)
  {
    var u := PaddedUnit(units, (ord - 1) * UNITS_PER_SLOT + UnitOf(i));
    if i == SlotPos(UnitOf(i)) then u % 0x100 else u / 0x100
  }

  function Ordinal(ord: nat, count: nat): (b: byte)
    requires 0 < ord <= count <= 20
    ensures b != 0 && b % 0x20 == ord
  {
    if ord == count then 0x40 + ord else ord
  }

  function SlotByte(units: seq<word>, checksum: byte, ord: nat, i: nat): (b: byte)
    requires 0 < ord <= SlotCount(units) <= 20
  {
    if IsUnitByte(i) then UnitByte(units, ord, i)
    else if i == 0 then Ordinal(ord, SlotCount(units))
    else if i == 11 then 0x0F
    else if i == 13 then checksum
    else 0
  }

  /** Slot number `ord` of a chain. */
  function Slot(units: seq<word>, checksum: byte, ord: nat): (e: seq<byte>)
    requires 0 < ord <= SlotCount(units) <= 20
    ensures |e| == 32
    ensures forall i :: 0 <= i < 32 ==> e[i] == SlotByte(units, checksum, ord, i)
  {
    seq(32, i requires 0 <= i < 32 => SlotByte(units, checksum, ord, i))
  }

  /** Slots `ord`, `ord - 1`, ..., 1 one after the other. */
  function Slots(units: seq<word>, checksum: byte, ord: nat): (s: seq<byte>)
    requires ord <= SlotCount(units) <= 20
    ensures |s| == 32 * ord
  {
    if ord == 0 then [] else Slot(units, checksum, ord) + Slots(units, checksum, ord - 1)
  }

  function LongNameError(long: string): (r: Option<LfnError>)
  {
    var n := |Encode(long)|;
    if '\0' in long || '/' in long then Some(IllegalCharacter)
    else if n == 0 then Some(EmptyName)
    else if n > MAX_NAME_UNITS then Some(NameTooLong)
    else None
  }

  /** A unit's two bytes, at its position in the slot. */
  lemma SlotUnit(units: seq<word>, checksum: byte, ord: nat, k: nat)
    requires 0 < ord <= SlotCount(units) <= 20 && k < UNITS_PER_SLOT
    ensures var e, p, unit := Slot(units, checksum, ord), SlotPos(k), PaddedUnit(units, (ord - 1) * UNITS_PER_SLOT + k);
      && IsUnitByte(p) && UnitOf(p) == k && IsUnitByte(p + 1) && UnitOf(p + 1) == k
      && e[p] == unit % 0x100 && e[p + 1] == unit / 0x100
  {
    var p := SlotPos(k);
    assert UnitOf(p) == k && UnitOf(p + 1) == k && p + 1 != SlotPos(k);
  }

  lemma FixedBytes(units: seq<word>, checksum: byte, ord: nat)
    requires 0 < ord <= SlotCount(units) <= 20
    ensures var e := Slot(units, checksum, ord);
      && e[0] == Ordinal(ord, SlotCount(units)) && e[11] == 0x0F && e[12] == 0 && e[13] == checksum
      && e[26] == 0 && e[27] == 0
  {
  }

  lemma OtherUnits(k: nat)
    requires k < UNITS_PER_SLOT
    ensures forall i :: 0 <= i < 32 && IsUnitByte(i) ==> (UnitOf(i) == k <==> i == SlotPos(k) || i == SlotPos(k) + 1)
  {
  }

  method WriteSlot(units: seq<word>, checksum: byte, ord: nat) returns (slot: seq<byte>)
    requires 0 < ord <= SlotCount(units) <= 20
    ensures slot == Slot(units, checksum, ord)
  {
    hide Slot, SlotByte, UnitByte, PaddedUnit, Ordinal, UnitOf, SlotPos;
    FixedBytes(units, checksum, ord);
    var e := new byte[32](_ => 0);
    e[0] := Ordinal(ord, SlotCount(units));
    e[11] := 0x0F;
    e[12] := 0;
    e[13] := checksum;
    ghost var target := Slot(units, checksum, ord);
    for k := 0 to UNITS_PER_SLOT
      invariant forall i :: 0 <= i < 32 ==> e[i] == if IsUnitByte(i) && UnitOf(i) >= k then 0 else target[i]
    {
      var unit := PaddedUnit(units, (ord - 1) * UNITS_PER_SLOT + k);
      SlotUnit(units, checksum, ord, k);
      OtherUnits(k);
      var p := SlotPos(k);
      e[p] := unit % 0x100;
      e[p + 1] := unit / 0x100;
    }
    slot := e[..];
  }

  /** The chain of one name in on-disk order, or why there is none. */
  method LfnEntries(long: string, checksum: byte) returns (r: Result<seq<seq<byte>>, LfnError>)
    ensures r.Err? <==> LongNameError(long).Some?
    ensures r.Err? ==> r.error == LongNameError(long).value
    ensures r.Ok? ==> |r.value| == SlotCount(Encode(long)) <= 20
    ensures r.Ok? ==> forall i :: 0 <= i < |r.value| ==>
      r.value[i] == Slot(Encode(long), checksum, |r.value| - i)
  {
    if '\0' in long || '/' in long {
      return Err(IllegalCharacter);
    }
    var units := Encode(long);
    if units == [] {
      return Err(EmptyName);
    }
    if |units| > MAX_NAME_UNITS {
      return Err(NameTooLong);
    }
    var count := SlotCount(units);
    var out: seq<seq<byte>> := [];
    var ord := count;
    while ord > 0
      invariant 0 <= ord <= count && |out| == count - ord
      invariant forall i :: 0 <= i < |out| ==> out[i] == Slot(units, checksum, count - i)
    {
      var e := WriteSlot(units, checksum, ord);
      out := out + [e];
      ord := ord - 1;
    }
    r := Ok(out);
  }

  // ------------------------------------------------------- reading it back --

  datatype Part = Part(ord: nat, units: seq<word>)

  function ReadUnits(e: seq<byte>): (u: seq<word>)
    requires |e| == 32
    ensures |u| == UNITS_PER_SLOT
  {
    seq(UNITS_PER_SLOT, k requires 0 <= k < UNITS_PER_SLOT => ReadLe16(e, SlotPos(k)))
  }

  /** Stable insertion sort by ordinal. */
  function SortParts(parts: seq<Part>): (r: seq<Part>)
  {
    if parts == [] then [] else InsertPart(parts[0], SortParts(parts[1..]))
  }

  function InsertPart(p: Part, sorted: seq<Part>): (r: seq<Part>)
  {
    if sorted == [] || p.ord <= sorted[0].ord then [p] + sorted
    else [sorted[0]] + InsertPart(p, sorted[1..])
  }

  function PartUnits(parts: seq<Part>): (u: seq<word>)
  {
    if parts == [] then [] else PartUnits(parts[..|parts| - 1]) + parts[|parts| - 1].units
  }

  function UntilZero(u: seq<word>): (r: seq<word>)
  {
    if u == [] || u[0] == 0 then [] else [u[0]] + UntilZero(u[1..])
  }

  function CollectName(pending: seq<Part>): (u: seq<word>)
  {
    UntilZero(PartUnits(SortParts(pending)))
  }

  ghost function PartOf(units: seq<word>, ord: nat): (p: Part)
    requires ord > 0
  {
    Part(ord, seq<word>(UNITS_PER_SLOT, k requires 0 <= k => PaddedUnit(units, (ord - 1) * UNITS_PER_SLOT + k)))
  }

  ghost function Ascending(units: seq<word>, n: nat): (s: seq<Part>)
    ensures |s| == n
    ensures forall i :: 0 <= i < n ==> s[i].ord == i + 1
  {
    if n == 0 then [] else Ascending(units, n - 1) + [PartOf(units, n)]
  }

  ghost function Descending(units: seq<word>, n: nat): (s: seq<Part>)
  {
    if n == 0 then [] else [PartOf(units, n)] + Descending(units, n - 1)
  }

  /** A slot read back gives its 13 positions of the padded name. */
  lemma ReadSlot(units: seq<word>, checksum: byte, ord: nat)
    requires 0 < ord <= SlotCount(units) <= 20
    ensures Part(Slot(units, checksum, ord)[0] % 0x20, ReadUnits(Slot(units, checksum, ord))) == PartOf(units, ord)
  {
    var e := Slot(units, checksum, ord);
    forall k | 0 <= k < UNITS_PER_SLOT
      ensures ReadUnits(e)[k] == PaddedUnit(units, (ord - 1) * UNITS_PER_SLOT + k)
    {
      SlotUnit(units, checksum, ord, k);
    }
  }

  lemma {:induction false} InsertLargest(p: Part, sorted: seq<Part>)
    requires forall i :: 0 <= i < |sorted| ==> sorted[i].ord < p.ord
    ensures InsertPart(p, sorted) == sorted + [p]
  {
    if sorted != [] {
      InsertLargest(p, sorted[1..]);
      assert sorted == [sorted[0]] + sorted[1..];
    }
  }

  lemma {:induction false} SortDescending(units: seq<word>, n: nat)
    ensures SortParts(Descending(units, n)) == Ascending(units, n)
  {
    if n > 0 {
      SortDescending(units, n - 1);
      assert Descending(units, n)[1..] == Descending(units, n - 1);
      InsertLargest(PartOf(units, n), Ascending(units, n - 1));
    }
  }

  lemma MoreUnits(units: seq<word>, n: nat, before: seq<word>)
    requires n > 0 && |before| == (n - 1) * UNITS_PER_SLOT
    requires forall g :: 0 <= g < (n - 1) * UNITS_PER_SLOT ==> before[g] == PaddedUnit(units, g)
    ensures |before + PartOf(units, n).units| == n * UNITS_PER_SLOT
    ensures forall g :: 0 <= g < n * UNITS_PER_SLOT ==> (before + PartOf(units, n).units)[g] == PaddedUnit(units, g)
  {
    hide PaddedUnit;
  }

  lemma {:induction false} AscendingUnits(units: seq<word>, n: nat)
    ensures |PartUnits(Ascending(units, n))| == n * UNITS_PER_SLOT
    ensures forall g :: 0 <= g < n * UNITS_PER_SLOT ==>
      PartUnits(Ascending(units, n))[g] == PaddedUnit(units, g)
  {
    hide PaddedUnit, PartOf;
    if n > 0 {
      AscendingUnits(units, n - 1);
      assert Ascending(units, n)[..n - 1] == Ascending(units, n - 1);
      MoreUnits(units, n, PartUnits(Ascending(units, n - 1)));
    }
  }

  lemma {:induction false} UntilZeroStops(name: seq<word>, rest: seq<word>)
    requires 0 !in name
    requires rest == [] || rest[0] == 0
    ensures UntilZero(name + rest) == name
  {
    if name == [] {
      assert name + rest == rest;
    } else {
      UntilZeroStops(name[1..], rest);
      assert (name + rest)[1..] == name[1..] + rest;
    }
  }

  /** The whole chain, in the order it lies on disk, reads back as the name: also when the name
      fills its slots exactly and no 0x0000 is stored. */
  lemma CollectDescending(units: seq<word>)
    requires 0 !in units
    ensures CollectName(Descending(units, SlotCount(units))) == units
  {
    var n := SlotCount(units);
    SortDescending(units, n);
    AscendingUnits(units, n);
    var all := PartUnits(Ascending(units, n));
    assert all == units + all[|units|..];
    UntilZeroStops(units, all[|units|..]);
  }
}
