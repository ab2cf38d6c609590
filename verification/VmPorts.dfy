/** Host ports: the reserved range, the lowest free port, and blocks of consecutive free ports. */
module VmPorts {
  import opened Bytes

  /** The Docker track's range. */
  predicate Reserved(p: int)
  {
    5555 <= p <= 6000
  }

  predicate Free(used: set<word>, p: word)
  {
    p !in used && !Reserved(p)
  }

  // ------------------------------------------------------------- one port --

  ghost predicate IsLowestFree(used: set<word>, base: word, r: Option<word>)
  {
    match r
    case None => forall p: word :: base <= p ==> !Free(used, p)
    case Some(q) => base <= q && Free(used, q) && forall p: word :: base <= p < q ==> !Free(used, p)
  }

  function NextFreeFrom(used: set<word>, at: nat): (r: Option<word>)
    requires at <= 0x1_0000
    ensures at <= U16_MAX ==> IsLowestFree(used, at, r)
    decreases 0x1_0000 - at
  {
    if at > U16_MAX then None else if Free(used, at) then Some(at) else NextFreeFrom(used, at + 1)
  }

  /** The lowest free port at or above `base`. */
  function NextFree(used: set<word>, base: word): (r: Option<word>)
    ensures IsLowestFree(used, base, r)
  {
    NextFreeFrom(used, base)
  }

  method NextFreePort(used: set<word>, base: word) returns (r: Option<word>)
    ensures IsLowestFree(used, base, r)
    ensures r == NextFree(used, base)
  {
    var p: int := base;
    while p <= U16_MAX
      invariant base <= p <= 0x1_0000
      invariant NextFree(used, base) == NextFreeFrom(used, p)
      invariant forall q: word :: base <= q < p ==> !Free(used, q)
    {
      if Free(used, p) {
        return Some(p);
      }
      p := p + 1;
    }
    r := None;
  }

  // --------------------------------------------------------------- a block --

  /** `Overflow` is the panic of the addition `start + count` in a build that checks arithmetic. */
  datatype PortBlock = Block(ports: seq<word>) | ZeroCount | Exhausted | Overflow

  /** The ports `start`, ..., `start + count - 1`, all of them free. */
  predicate FreeRun(used: set<word>, start: nat, count: nat)
  {
    start + count <= 0x1_0000 && forall p: int :: start <= p < start + count ==> Free(used, p)
  }

  function Run(start: nat, count: nat): (ports: seq<word>)
    requires start + count <= 0x1_0000
    ensures |ports| == count && forall k :: 0 <= k < count ==> ports[k] == start + k
  {
    seq<word>(count, k requires 0 <= k < count => start + k)
  }

  /** The search from `start` on. The end of a block is computed in 16 bits, so for a block that
      would end at 65535 the addition overflows: with unchecked arithmetic the block is empty, and
      every port of an empty block is free. */
  function AllocateFrom(used: set<word>, start: nat, count: nat, checked: bool): (r: PortBlock)
    requires count > 0
    decreases 0x1_0000 - start
  {
    if start + count - 1 > U16_MAX then Exhausted
    else if start + count == 0x1_0000 then (if checked then Overflow else Block([]))
    else if FreeRun(used, start, count) then Block(Run(start, count))
    else AllocateFrom(used, start + 1, count, checked)
  }

  function Allocate(used: set<word>, base: word, count: word, checked: bool): (r: PortBlock)
  {
    if count == 0 then ZeroCount else AllocateFrom(used, base, count, checked)
  }

  /** A run that ends below 65535. */
  predicate Fits(used: set<word>, start: nat, count: nat)
  {
    FreeRun(used, start, count) && start + count <= U16_MAX
  }

  ghost predicate IsLowestRun(used: set<word>, base: nat, count: nat, start: nat)
  {
    base <= start && Fits(used, start, count) && forall s: nat :: base <= s < start ==> !Fits(used, s, count)
  }

  lemma {:induction false} AllocateFromExact(used: set<word>, base: nat, count: nat, checked: bool)
    requires count > 0
    ensures var r := AllocateFrom(used, base, count, checked);
      if exists s: nat :: base <= s && Fits(used, s, count) then
        exists start: nat :: IsLowestRun(used, base, count, start) && r == Block(Run(start, count))
      else if base + count <= 0x1_0000 then r == if checked then Overflow else Block([])
      else r == Exhausted
    decreases 0x1_0000 - base
  {
    if base + count <= U16_MAX {
      if FreeRun(used, base, count) {
        assert Fits(used, base, count) && IsLowestRun(used, base, count, base);
      } else {
        AllocateFromExact(used, base + 1, count, checked);
        assert !Fits(used, base, count);
        forall start: nat | IsLowestRun(used, base + 1, count, start)
          ensures IsLowestRun(used, base, count, start)
        {
        }
      }
    }
  }

  /** The allocator returns the lowest run of `count` free ports at or above `base` that ends below
      65535, if there is one. If there is none, it reports exhaustion only when not even one block
      fits in the port space; otherwise it reaches the block that would end at 65535, and there
      the addition overflows. */
  lemma AllocateExact(used: set<word>, base: word, count: word, checked: bool)
    ensures var r := Allocate(used, base, count, checked);
      if count == 0 then r == ZeroCount
      else if exists s: nat :: base <= s && Fits(used, s, count) then
        exists start: nat :: IsLowestRun(used, base, count, start) && r == Block(Run(start, count))
      else if base + count <= 0x1_0000 then r == if checked then Overflow else Block([])
      else r == Exhausted
  {
    if count > 0 {
      AllocateFromExact(used, base, count, checked);
    }
  }

  predicate IsRun(r: PortBlock, start: nat, count: nat)
  {
    start + count <= 0x1_0000 && r == Block(Run(start, count))
  }

  /** A free block exists and none is given, exactly if the only free block is the one that ends at
      port 65535; the addition then overflows. */
  lemma HighestPortIsNeverGiven(used: set<word>, base: word, count: word, checked: bool)
    requires count > 0
    ensures var r, last := Allocate(used, base, count, checked), 0x1_0000 - count;
      var missed := base <= last && FreeRun(used, last, count)
        && forall s: nat :: base <= s && FreeRun(used, s, count) ==> s == last;
      && (missed <==>
           ((exists s: nat :: base <= s && FreeRun(used, s, count)) && (forall start: nat :: !IsRun(r, start, count))))
      && (missed ==> r == if checked then Overflow else Block([]))
  {
    AllocateExact(used, base, count, checked);
    var r, last := Allocate(used, base, count, checked), 0x1_0000 - count;
    if start: nat :| IsLowestRun(used, base, count, start) && r == Block(Run(start, count)) {
      assert IsRun(r, start, count) && FreeRun(used, start, count) && start != last;
    } else {
      assert forall s: nat :: base <= s && FreeRun(used, s, count) ==> Fits(used, s, count) || s == last;
      assert forall start: nat :: !IsRun(r, start, count);
    }
  }

  /** A block holds only free ports, in order. */
  lemma BlockIsFree(used: set<word>, base: word, count: word, checked: bool)
    requires Allocate(used, base, count, checked).Block?
    ensures var ports := Allocate(used, base, count, checked).ports;
      && (if ports == [] then !checked else |ports| == count && base <= ports[0])
      && (forall k :: 0 <= k < |ports| ==> ports[k] == ports[0] + k && Free(used, ports[k]))
  {
    AllocateExact(used, base, count, checked);
  }

  lemma BlockIsRun(used: set<word>, start: nat, count: nat, block: seq<word>)
    requires start + count <= 0x1_0000 && block == Run(start, count)
    ensures FreeRun(used, start, count) <==> forall k :: 0 <= k < |block| ==> Free(used, block[k])
  {
    if forall k :: 0 <= k < |block| ==> Free(used, block[k]) {
      forall p: int | start <= p < start + count
        ensures Free(used, p)
      {
        assert block[p - start] == p;
      }
    }
  }

  method AllocatePortBlock(used: set<word>, base: word, count: word, checked: bool) returns (r: PortBlock)
    ensures r == Allocate(used, base, count, checked)
  {
    if count == 0 {
      return ZeroCount;
    }
    var start: int := base;
    while start + count - 1 <= U16_MAX
      invariant base <= start
      invariant Allocate(used, base, count, checked) == AllocateFrom(used, start, count, checked)
      decreases 0x1_0000 - start
    {
      if start + count > U16_MAX {
        return if checked then Overflow else Block([]);
      }
      var block := Run(start, count);
      var allFree := AllFree(used, block);
      BlockIsRun(used, start, count, block);
      if allFree {
        return Block(block);
      }
      start := start + 1;
    }
    r := Exhausted;
  }

  method AllFree(used: set<word>, block: seq<word>) returns (all: bool)
    ensures all <==> forall k :: 0 <= k < |block| ==> Free(used, block[k])
  {
    for i := 0 to |block|
      invariant forall k :: 0 <= k < i ==> Free(used, block[k])
    {
      if !Free(used, block[i]) {
        return false;
      }
    }
    all := true;
  }
}
