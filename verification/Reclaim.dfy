/** The planner of guest-memory reclaim: saturating arithmetic that is exact whenever it matters. */
module Reclaim {
  import opened Bytes
  import opened Saturating
  import opened Text

  const MIN_TARGET_MIB := 1536
  const QUANTUM_MIB := 256
  const BASE_RESERVE_MIB := 768
  const PER_INSTANCE_RESERVE_MIB := 512
  const MIB := 1_048_576

  /** One row of the guest's runtime statistics, as far as the planner reads it. */
  datatype Row = Row(instance: string, status: string, currentBytes: Option<u64>)

  type u64 = n: nat | n <= U64_MAX

  datatype NoopReason = AtFloor | LessThanOneQuantum

  datatype Plan =
    | ReclaimTo(targetMib: nat, usedMib: nat, activeInstances: nat)
    | Noop(reason: NoopReason)
    | UnknownMetrics(instance: string)

  // ----------------------------------------------------------------- statuses --

  predicate IsActive(status: string)
  {
    var s := Lower(Trim(status));
    s == "running" || s == "up" || "up " <= s
  }

  predicate IsInactive(status: string)
  {
    var s := Lower(Trim(status));
    s == "exited" || s == "created" || s == "dead" || s == "paused" || "exited " <= s
  }

  /** A row without which the planner cannot decide. */
  predicate IsUnknown(r: Row)
  {
    if IsActive(r.status) then r.currentBytes.None? else !IsInactive(r.status)
  }

  /** No status is both; case and blanks around it do not matter. */
  lemma StatusesDisjoint(status: string)
    ensures !(IsActive(status) && IsInactive(status))
    ensures var s := Lower(Trim(status));
      && (s == "running" || s == "up" || (|s| > 3 && s[..3] == "up ") ==> IsActive(status))
      && (s in ["exited", "created", "dead", "paused"] || (|s| > 7 && s[..7] == "exited ") ==> IsInactive(status))
  {
    var s := Lower(Trim(status));
    hide Lower, Trim;
    if "up " <= s {
      assert s[0] == 'u';
    }
    if "exited " <= s {
      assert s[0] == 'e';
    }
  }

  // ---------------------------------------------------------------- the planner --

  function CurrentMib(bytes: u64): (mib: nat)
  {
    Min(Add64(bytes, MIB - 1) / MIB, U32_MAX)
  }

  /** Used memory and number of the active rows, or the first row that is unknown. */
  datatype Tally = Known(usedMib: nat, active: nat) | Unknown(instance: string)

  function TallyFrom(rows: seq<Row>, i: nat, used: nat, active: nat): (t: Tally)
    requires i <= |rows|
    decreases |rows| - i
  {
    if i == |rows| then Known(used, active)
    else if IsUnknown(rows[i]) then Unknown(rows[i].instance)
    else if IsActive(rows[i].status) then
      TallyFrom(rows, i + 1, Add32(used, CurrentMib(rows[i].currentBytes.value)), Add32(active, 1))
    else TallyFrom(rows, i + 1, used, active)
  }

  function PlanFor(nodeMib: nat, used: nat, active: nat): (p: Plan)
  {
    var reserve := Max(BASE_RESERVE_MIB, Mul32(active, PER_INSTANCE_RESERVE_MIB));
    var raw := Max(MIN_TARGET_MIB, Add32(used, reserve));
    var target := Min(Add32(raw, QUANTUM_MIB - 1) / QUANTUM_MIB * QUANTUM_MIB, nodeMib);
    if target > Sub32(nodeMib, QUANTUM_MIB) then Noop(LessThanOneQuantum) else ReclaimTo(target, used, active)
  }

  function PlanReclaim(nodeMib: dword, rows: seq<Row>): (p: Plan)
  {
    if nodeMib <= MIN_TARGET_MIB then Noop(AtFloor)
    else
      match TallyFrom(rows, 0, 0, 0)
      case Unknown(instance) => UnknownMetrics(instance)
      case Known(used, active) => PlanFor(nodeMib, used, active)
  }

  /** `plan_memory_reclaim`. */
  method PlanMemoryReclaim(nodeMib: dword, rows: seq<Row>) returns (p: Plan)
    ensures p == PlanReclaim(nodeMib, rows)
  {
    if nodeMib <= MIN_TARGET_MIB {
      return Noop(AtFloor);
    }
    var used, active := 0, 0;
    for i := 0 to |rows|
      invariant TallyFrom(rows, 0, 0, 0) == TallyFrom(rows, i, used, active)
    {
      var row := rows[i];
      if IsActive(row.status) {
        if row.currentBytes.None? {
          return UnknownMetrics(row.instance);
        }
        active := Add32(active, 1);
        used := Add32(used, CurrentMib(row.currentBytes.value));
      } else if !IsInactive(row.status) {
        return UnknownMetrics(row.instance);
      }
    }
    var reserve := Max(BASE_RESERVE_MIB, Mul32(active, PER_INSTANCE_RESERVE_MIB));
    var raw := Max(MIN_TARGET_MIB, Add32(used, reserve));
    var aligned := Add32(raw, QUANTUM_MIB - 1) / QUANTUM_MIB * QUANTUM_MIB;
    var target := Min(aligned, nodeMib);
    if target > Sub32(nodeMib, QUANTUM_MIB) {
      return Noop(LessThanOneQuantum);
    }
    p := ReclaimTo(target, used, active);
  }

  // ------------------------------------------------------- exact arithmetic --

  ghost predicate AllKnown(rows: seq<Row>)
  {
    forall i :: 0 <= i < |rows| ==> !IsUnknown(rows[i])
  }

  /** The number of active rows. */
  function ActiveCount(rows: seq<Row>): (n: nat)
  {
    if rows == [] then 0 else (if IsActive(rows[0].status) then 1 else 0) + ActiveCount(rows[1..])
  }

  function BytesOf(r: Row): (n: nat)
  {
    if IsActive(r.status) && r.currentBytes.Some? then r.currentBytes.value else 0
  }

  /** What the active rows use, in bytes. */
  function ActiveBytes(rows: seq<Row>): (n: nat)
  {
    if rows == [] then 0 else BytesOf(rows[0]) + ActiveBytes(rows[1..])
  }

  /** The same in mebibytes, each row rounded up. */
  function ActiveMib(rows: seq<Row>): (n: nat)
  {
    if rows == [] then 0 else DivCeil(BytesOf(rows[0]), MIB) + ActiveMib(rows[1..])
  }

  function ReserveMib(rows: seq<Row>): (n: nat)
  {
    Max(BASE_RESERVE_MIB, ActiveCount(rows) * PER_INSTANCE_RESERVE_MIB)
  }

  function NeededMib(rows: seq<Row>): (n: nat)
  {
    NeededFor(ActiveMib(rows), ActiveCount(rows))
  }

  /** The target in unbounded arithmetic. */
  function ExactTarget(rows: seq<Row>): (n: nat)
  {
    DivCeil(NeededMib(rows), QUANTUM_MIB) * QUANTUM_MIB
  }

  lemma CurrentExact(bytes: u64)
    ensures CurrentMib(bytes) == Min(DivCeil(bytes, MIB), U32_MAX)
  {
  }

  lemma AddSaturates(a: nat, b: nat, x: nat, y: nat)
    requires a == Min(x, U32_MAX) && b == Min(y, U32_MAX)
    ensures Add32(a, b) == Min(x + y, U32_MAX)
  {
  }

  /** The loop computes the exact sums, cut off at 32 bits. */
  lemma {:induction false} TallyExact(rows: seq<Row>, i: nat, used: nat, active: nat, x: nat, n: nat)
    requires i <= |rows| && AllKnown(rows) && used == Min(x, U32_MAX) && active == Min(n, U32_MAX)
    ensures TallyFrom(rows, i, used, active)
      == Known(Min(x + ActiveMib(rows[i..]), U32_MAX), Min(n + ActiveCount(rows[i..]), U32_MAX))
    decreases |rows| - i
  {
    hide IsActive, IsInactive, CurrentMib, Add32;
    if i < |rows| {
      var r := rows[i];
      assert rows[i..][0] == r && rows[i..][1..] == rows[i + 1..];
      if IsActive(r.status) {
        var mib := DivCeil(BytesOf(r), MIB);
        CurrentExact(r.currentBytes.value);
        AddSaturates(used, CurrentMib(r.currentBytes.value), x, mib);
        AddSaturates(active, 1, n, 1);
        TallyExact(rows, i + 1, Add32(used, CurrentMib(r.currentBytes.value)), Add32(active, 1), x + mib, n + 1);
      } else {
        TallyExact(rows, i + 1, used, active, x, n);
      }
    }
  }

  lemma {:induction false} TallyUnknown(rows: seq<Row>, i: nat, used: nat, active: nat, first: nat)
    requires i <= first < |rows| && IsUnknown(rows[first]) && forall k :: i <= k < first ==> !IsUnknown(rows[k])
    ensures TallyFrom(rows, i, used, active) == Unknown(rows[first].instance)
    decreases first - i
  {
    hide IsActive, IsInactive, CurrentMib, Add32;
    if i < first {
      var r := rows[i];
      if IsActive(r.status) {
        TallyUnknown(rows, i + 1, Add32(used, CurrentMib(r.currentBytes.value)), Add32(active, 1), first);
      } else {
        TallyUnknown(rows, i + 1, used, active, first);
      }
    }
  }

  lemma ReserveSaturates(n: nat)
    ensures Max(BASE_RESERVE_MIB, Mul32(Min(n, U32_MAX), PER_INSTANCE_RESERVE_MIB))
      == Min(Max(BASE_RESERVE_MIB, n * PER_INSTANCE_RESERVE_MIB), U32_MAX)
  {
  }

  /** Aligning a sum that was cut off gives a target that is out of reach of every node. */
  lemma AlignSaturates(nodeMib: dword, needed: nat)
    requires nodeMib > MIN_TARGET_MIB
    ensures var target := DivCeil(needed, QUANTUM_MIB) * QUANTUM_MIB;
      var cut := Min(Add32(Min(needed, U32_MAX), QUANTUM_MIB - 1) / QUANTUM_MIB * QUANTUM_MIB, nodeMib);
      && (target + QUANTUM_MIB <= nodeMib ==> cut == target)
      && (target + QUANTUM_MIB > nodeMib <==> cut > Sub32(nodeMib, QUANTUM_MIB))
  {
    if needed + QUANTUM_MIB - 1 > U32_MAX {
      assert Add32(Min(needed, U32_MAX), QUANTUM_MIB - 1) == U32_MAX;
      assert U32_MAX / QUANTUM_MIB * QUANTUM_MIB == 4294967040;
      assert needed <= DivCeil(needed, QUANTUM_MIB) * QUANTUM_MIB;
    }
  }

  function NeededFor(x: nat, n: nat): (needed: nat)
  {
    Max(MIN_TARGET_MIB, x + Max(BASE_RESERVE_MIB, n * PER_INSTANCE_RESERVE_MIB))
  }

  /** Whatever saturates pushes the target out of reach: with sums cut off at 32 bits the decision
      and the target are those of exact sums. */
  lemma PlanForExact(nodeMib: dword, x: nat, n: nat)
    requires nodeMib > MIN_TARGET_MIB
    ensures var target := DivCeil(NeededFor(x, n), QUANTUM_MIB) * QUANTUM_MIB;
      PlanFor(nodeMib, Min(x, U32_MAX), Min(n, U32_MAX))
      == if target + QUANTUM_MIB <= nodeMib then ReclaimTo(target, x, n) else Noop(LessThanOneQuantum)
  {
    var needed := NeededFor(x, n);
    ReserveSaturates(n);
    AddSaturates(Min(x, U32_MAX), Min(needed, U32_MAX), x, needed);
    AlignSaturates(nodeMib, needed);
    assert needed <= DivCeil(needed, QUANTUM_MIB) * QUANTUM_MIB;
  }

  /** The planner on every input, in exact arithmetic: it refuses at the first unknown row; it
      reclaims if and only if a whole quantum is left above the exact target; and then nothing it
      reports has saturated. */
  lemma PlanExact(nodeMib: dword, rows: seq<Row>)
    ensures nodeMib <= MIN_TARGET_MIB ==> PlanReclaim(nodeMib, rows) == Noop(AtFloor)
    ensures nodeMib > MIN_TARGET_MIB && AllKnown(rows) ==>
      PlanReclaim(nodeMib, rows)
      == if ExactTarget(rows) + QUANTUM_MIB <= nodeMib
        then ReclaimTo(ExactTarget(rows), ActiveMib(rows), ActiveCount(rows))
         else Noop(LessThanOneQuantum)
    ensures nodeMib > MIN_TARGET_MIB && !AllKnown(rows) ==> exists i :: RefusedAt(PlanReclaim(nodeMib, rows), rows, i)
  {
    if AllKnown(rows) {
      KnownTally(rows);
      if nodeMib > MIN_TARGET_MIB {
        PlanForExact(nodeMib, ActiveMib(rows), ActiveCount(rows));
      }
    } else {
      var i := FirstUnknown(rows, 0);
      TallyUnknown(rows, 0, 0, 0, i);
      assert nodeMib > MIN_TARGET_MIB ==> RefusedAt(PlanReclaim(nodeMib, rows), rows, i);
    }
  }

  /** The plan names the instance of the first unknown row. */
  ghost predicate RefusedAt(p: Plan, rows: seq<Row>, i: nat)
  {
    && i < |rows| && IsUnknown(rows[i]) && (forall k :: 0 <= k < i ==> !IsUnknown(rows[k]))
    && p == UnknownMetrics(rows[i].instance)
  }

  lemma KnownTally(rows: seq<Row>)
    requires AllKnown(rows)
    ensures TallyFrom(rows, 0, 0, 0) == Known(Min(ActiveMib(rows), U32_MAX), Min(ActiveCount(rows), U32_MAX))
  {
    hide IsActive, IsInactive;
    TallyExact(rows, 0, 0, 0, 0, 0);
    assert rows[0..] == rows;
  }

  lemma {:induction false} FirstUnknown(rows: seq<Row>, from: nat) returns (i: nat)
    requires from <= |rows| && !AllKnown(rows) && forall k :: 0 <= k < from ==> !IsUnknown(rows[k])
    ensures i < |rows| && IsUnknown(rows[i]) && forall k :: 0 <= k < i ==> !IsUnknown(rows[k])
    decreases |rows| - from
  {
    if from < |rows| && IsUnknown(rows[from]) {
      i := from;
    } else {
      i := FirstUnknown(rows, from + 1);
    }
  }

  lemma {:induction false} MibCoversBytes(rows: seq<Row>)
    ensures ActiveBytes(rows) <= ActiveMib(rows) * MIB
  {
    if rows != [] {
      MibCoversBytes(rows[1..]);
      RoundedUp(BytesOf(rows[0]));
    }
  }

  lemma RoundedUp(n: nat)
    ensures n <= DivCeil(n, MIB) * MIB
  {
  }

  lemma LeastMultiple(n: nat, m: nat)
    requires m == DivCeil(n, QUANTUM_MIB) * QUANTUM_MIB
    ensures m % QUANTUM_MIB == 0 && n <= m
    ensures forall k: nat :: k % QUANTUM_MIB == 0 && n <= k ==> m <= k
  {
  }

  /** A reclaim means: every active row had a metric and every other row is known to be inactive;
      the target is the least multiple of 256 that is at least 1536 and covers used memory and
      reserve; it covers the bytes in use with the reserve on top; and it leaves at least 256 MiB. */
  lemma ReclaimIsSafe(nodeMib: dword, rows: seq<Row>)
    requires PlanReclaim(nodeMib, rows).ReclaimTo?
    ensures var p := PlanReclaim(nodeMib, rows);
      && AllKnown(rows) && p.usedMib == ActiveMib(rows) && p.activeInstances == ActiveCount(rows)
      && p.targetMib % QUANTUM_MIB == 0 && NeededMib(rows) <= p.targetMib
      && (forall k: nat :: k % QUANTUM_MIB == 0 && NeededMib(rows) <= k ==> p.targetMib <= k)
      && ActiveBytes(rows) + ReserveMib(rows) * MIB <= p.targetMib * MIB
      && p.targetMib + QUANTUM_MIB <= nodeMib
    ensures QUANTUM_MIB == 256 && NeededMib(rows) == Max(1536, ActiveMib(rows) + Max(768, ActiveCount(rows) * 512))
  {
    PlanExact(nodeMib, rows);
    MibCoversBytes(rows);
    LeastMultiple(NeededMib(rows), ExactTarget(rows));
  }
}
