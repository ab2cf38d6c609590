/** Collision-free 8.3 names with `~N` tails. */
module FatNames {
  import opened Bytes
  import opened Decimal

  type ShortBytes = seq<byte>

  datatype ShortNameError = NoUsableCharacters | NoUniqueShortName

  datatype ShortName = ShortName(bytes: ShortBytes, ntFlags: byte)

  const MAX_TAIL := 999_999

  // ------------------------------------------------------------ sanitizing --

  predicate IsLower(c: char) { 'a' <= c <= 'z' }

  predicate IsPunctuation(c: char) {
    '!' <= c <= '/' || ':' <= c <= '@' || '[' <= c <= '`' || '{' <= c <= '~'
  }

  /** Carried over unchanged: capitals, digits, and the punctuation that 8.3 allows. */
  predicate IsKept(c: char) {
    || 'A' <= c <= 'Z'
    || '0' <= c <= '9'
    || (IsPunctuation(c) && c !in "\"*+,./:;<=>?[\\]|")
  }

  function ShortByte(c: char): (b: byte)
    ensures IsShortByte(b)
  {
    if IsLower(c) then (c as int - 0x20) as byte
    else if IsKept(c) then c as int as byte
    else 0x5F
  }

  /** A printable, non-blank ASCII byte that is not a lowercase letter. */
  predicate IsShortByte(b: byte) {
    0x21 <= b <= 0x7E && !(0x61 <= b <= 0x7A)
  }

  predicate AllShort(s: seq<byte>) {
    forall i :: 0 <= i < |s| ==> IsShortByte(s[i])
  }

  function Sanitized(s: string): (r: seq<byte>)
    ensures AllShort(r)
  {
    if s == [] then []
    else Sanitized(s[..|s| - 1]) + if s[|s| - 1] == ' ' then [] else [ShortByte(s[|s| - 1])]
  }

  /** Something was dropped or replaced. */
  predicate IsLossy(s: string) {
    exists i :: 0 <= i < |s| && !IsLower(s[i]) && !IsKept(s[i])
  }

  predicate HasLower(s: string) {
    exists i :: 0 <= i < |s| && IsLower(s[i])
  }

  method SanitizeChunk(s: string) returns (out: seq<byte>, lossy: bool, hadLower: bool)
    ensures out == Sanitized(s)
    ensures lossy == IsLossy(s)
    ensures hadLower == HasLower(s)
  {
    out, lossy, hadLower := [], false, false;
    for i := 0 to |s|
      invariant out == Sanitized(s[..i])
      invariant lossy == IsLossy(s[..i])
      invariant hadLower == HasLower(s[..i])
    {
      var c := s[i];
      assert s[..i + 1][..i] == s[..i] && s[..i + 1][i] == c;
      if c == ' ' {
        lossy := true;
        assert !IsLower(s[..i + 1][i]) && !IsKept(s[..i + 1][i]);
      } else if IsLower(c) {
        hadLower := true;
        out := out + [(c as int - 0x20) as byte];
      } else if IsKept(c) {
        out := out + [c as int as byte];
      } else {
        out := out + [0x5F];
        lossy := true;
        assert !IsLower(s[..i + 1][i]) && !IsKept(s[..i + 1][i]);
      }
      StepFlags(s, i);
    }
    assert s[..|s|] == s;
  }

  lemma StepFlags(s: string, i: nat)
    requires i < |s|
    ensures IsLossy(s[..i + 1]) == (IsLossy(s[..i]) || (!IsLower(s[i]) && !IsKept(s[i])))
    ensures HasLower(s[..i + 1]) == (HasLower(s[..i]) || IsLower(s[i]))
  {
    assert s[..i + 1][i] == s[i];
    assert forall k :: 0 <= k < i ==> s[..i + 1][k] == s[..i][k];
  }

  // --------------------------------------------------------------- packing --

  function PackShort(base: seq<byte>, ext: seq<byte>): (r: ShortBytes)
    ensures |r| == 11
    ensures AllShort(base) && AllShort(ext) ==> IsShortName(r)
  {
    seq(11, i requires 0 <= i < 11 =>
      if i < 8 then if i < |base| then base[i] else 0x20
      else if i - 8 < |ext| then ext[i - 8] else 0x20)
  }

  /** `long.rfind('.')`, kept only when something follows the dot. */
  function LastDot(long: string): (r: Option<nat>)
    ensures r.Some? ==> r.value < |long| && long[r.value] == '.'
    ensures r.Some? ==> '.' !in long[r.value + 1..]
    ensures r.None? ==> '.' !in long
  {
    if long == [] then None
    else if long[|long| - 1] == '.' then Some(|long| - 1)
    else
      var r := LastDot(long[..|long| - 1]);
      assert long == long[..|long| - 1] + [long[|long| - 1]];
      assert r.Some? ==> long[r.value + 1..] == long[..|long| - 1][r.value + 1..] + [long[|long| - 1]];
      r
  }

  function RawBase(long: string): (s: string) {
    var d := LastDot(long);
    if d.Some? && d.value + 1 < |long| then long[..d.value] else long
  }

  function RawExt(long: string): (s: string) {
    var d := LastDot(long);
    if d.Some? && d.value + 1 < |long| then long[d.value + 1..] else []
  }

  function Take(s: seq<byte>, n: nat): (r: seq<byte>) {
    if n < |s| then s[..n] else s
  }

  /** The 8.3 name whose base is cut so that `~` and the decimal tail fit 8 bytes. */
  function Candidate(base: seq<byte>, ext: seq<byte>, tail: nat): (r: ShortBytes)
    ensures |r| == 11
    ensures AllShort(base) && AllShort(ext) ==> IsShortName(r)
  {
    PackShort(TailedBase(base, tail), Take(ext, 3))
  }

  function TailedBase(base: seq<byte>, tail: nat): (r: seq<byte>)
    ensures |Digits(tail)| <= 6 ==> |r| <= 8
    ensures |r| > |Digits(tail)| && r[|r| - |Digits(tail)| - 1] == 0x7E
    ensures r[|r| - |Digits(tail)|..] == Digits(tail)
    ensures AllShort(base) ==> AllShort(r)
  {
    var digits := |Digits(tail)|;
    var room := if 1 + digits <= 8 then 8 - 1 - digits else 0;
    Take(base, if room < 6 then room else 6) + [0x7E] + Digits(tail)
  }

  /** The least tail from `tail` on whose candidate is unused; none once it needs 7 digits. */
  function FirstFreeTail(base: seq<byte>, ext: seq<byte>, used: set<ShortBytes>, tail: nat): (r: Option<nat>)
    requires 1 <= tail <= MAX_TAIL + 1
    ensures r.Some? ==> tail <= r.value <= MAX_TAIL && Candidate(base, ext, r.value) !in used
    ensures forall n :: tail <= n < (if r.Some? then r.value else MAX_TAIL + 1) ==> Candidate(base, ext, n) in used
    decreases MAX_TAIL + 1 - tail, |used|
  {
    TailDigits(tail);
    if |Digits(tail)| > 6 then None
    else if Candidate(base, ext, tail) !in used then Some(tail)
    else FirstFreeTail(base, ext, used, tail + 1)
  }

  predicate FitsPlain(long: string) {
    && !IsLossy(RawBase(long)) && !IsLossy(RawExt(long))
    && |Sanitized(RawBase(long))| <= 8 && |Sanitized(RawExt(long))| <= 3
  }

  function NtFlags(long: string): (b: byte) {
    (if HasLower(RawBase(long)) then 0x08 else 0) + (if HasLower(RawExt(long)) then 0x10 else 0)
  }

  /** The 8.3 name a long name gets when the names in `used` are taken. */
  function Derived(long: string, used: set<ShortBytes>): (r: Result<ShortName, ShortNameError>)
    ensures r.Ok? ==> r.value.bytes !in used && IsShortName(r.value.bytes)
  {
    var base, ext := Sanitized(RawBase(long)), Sanitized(RawExt(long));
    if base == [] && ext == [] then Err(NoUsableCharacters)
    else if FitsPlain(long) && PackShort(base, ext) !in used then
      Ok(ShortName(PackShort(base, ext), NtFlags(long)))
    else
      match FirstFreeTail(base, ext, used, 1)
      case None => Err(NoUniqueShortName)
      case Some(tail) => Ok(ShortName(Candidate(base, ext, tail), NtFlags(long)))
  }

  /** 11 bytes, each blank padding or a printable capital-case ASCII byte. In particular none is
      0x00 (end of directory) or 0xE5 (deleted). */
  predicate IsShortName(b: ShortBytes) {
    |b| == 11 && forall i :: 0 <= i < 11 ==> b[i] == 0x20 || IsShortByte(b[i])
  }

  method DeriveShortName(long: string, used: set<ShortBytes>)
    returns (r: Result<ShortName, ShortNameError>, nowUsed: set<ShortBytes>)
    ensures r == Derived(long, used)
    ensures nowUsed == if r.Ok? then used + {r.value.bytes} else used
  {
    nowUsed := used;
    var base, baseLossy, baseLower := SanitizeChunk(RawBase(long));
    var ext, extLossy, extLower := SanitizeChunk(RawExt(long));
    if base == [] && ext == [] {
      return Err(NoUsableCharacters), used;
    }
    var lossy := baseLossy || extLossy;
    if |base| > 8 || |ext| > 3 {
      lossy := true;
    }
    var ntFlags := 0;
    if baseLower {
      ntFlags := ntFlags + 0x08;
    }
    if extLower {
      ntFlags := ntFlags + 0x10;
    }
    if !lossy {
      var candidate := PackShort(base, ext);
      if candidate !in used {
        return Ok(ShortName(candidate, ntFlags)), used + {candidate};
      }
    }
    var tail := NextTail(base, ext, used);
    if tail.None? {
      return Err(NoUniqueShortName), used;
    }
    var candidate := Candidate(base, ext, tail.value);
    return Ok(ShortName(candidate, ntFlags)), used + {candidate};
  }

  method NextTail(base: seq<byte>, ext: seq<byte>, used: set<ShortBytes>) returns (r: Option<nat>)
    ensures r == FirstFreeTail(base, ext, used, 1)
  {
    var tail := 1;
    while true
      invariant 1 <= tail <= MAX_TAIL + 1
      invariant FirstFreeTail(base, ext, used, 1) == FirstFreeTail(base, ext, used, tail)
      decreases MAX_TAIL + 1 - tail
    {
      TailDigits(tail);
      if |Digits(tail)| > 6 {
        return None;
      }
      if Candidate(base, ext, tail) !in used {
        return Some(tail);
      }
      tail := tail + 1;
    }
  }

  // ---------------------------------------------------- tails never run out --

  /** Different tails give different names, whatever the base: the digits are what follows the
      last `~`. */
  lemma CandidateInjective(base: seq<byte>, ext: seq<byte>, a: nat, b: nat)
    requires AllShort(base)
    requires 1 <= a <= MAX_TAIL && 1 <= b <= MAX_TAIL
    requires Candidate(base, ext, a) == Candidate(base, ext, b)
    ensures a == b
  {
    TailDigits(a);
    TailDigits(b);
    UnpackBase(TailedBase(base, a), TailedBase(base, b), Take(ext, 3));
    SameDigits(TailedBase(base, a), Digits(a), Digits(b));
    DigitsInjective(a, b);
  }

  lemma TailDigits(tail: nat)
    ensures |Digits(tail)| <= 6 <==> tail <= MAX_TAIL
  {
    DigitsLength(tail, 6);
    assert Pow10(6) == MAX_TAIL + 1;
  }

  /** A string ends in `~` and digits in at most one way. */
  lemma SameDigits(s: seq<byte>, a: seq<byte>, b: seq<byte>)
    requires |a| < |s| && s[|s| - |a| - 1] == 0x7E && s[|s| - |a|..] == a
    requires |b| < |s| && s[|s| - |b| - 1] == 0x7E && s[|s| - |b|..] == b
    requires 0x7E !in a && 0x7E !in b
    ensures a == b
  {
    assert forall i :: |s| - |a| <= i < |s| ==> s[i] in a;
    assert forall i :: |s| - |b| <= i < |s| ==> s[i] in b;
  }

  /** Two blank-free bases of at most 8 bytes that pack alike are equal. */
  lemma UnpackBase(a: seq<byte>, b: seq<byte>, ext: seq<byte>)
    requires |a| <= 8 && |b| <= 8 && AllShort(a) && AllShort(b)
    requires PackShort(a, ext) == PackShort(b, ext)
    ensures a == b
  {
    var pa, pb := PackShort(a, ext), PackShort(b, ext);
    assert forall i :: 0 <= i < 8 ==> (pa[i] == 0x20 <==> |a| <= i) && (pb[i] == 0x20 <==> |b| <= i);
    assert pa[if |a| < 8 then |a| else 7] == pb[if |a| < 8 then |a| else 7];
    assert pa[if |b| < 8 then |b| else 7] == pb[if |b| < 8 then |b| else 7];
    assert forall i :: 0 <= i < |a| ==> a[i] == pa[i] == pb[i] == b[i];
  }

  /** With fewer than 999999 names taken, deriving never fails for want of a unique name. */
  lemma TailsNeverRunOut(long: string, used: set<ShortBytes>)
    requires |used| < MAX_TAIL
    ensures Derived(long, used) != Err(NoUniqueShortName)
  {
    SomeTailIsFree(Sanitized(RawBase(long)), Sanitized(RawExt(long)), used);
  }

  lemma CandidatesDiffer(base: seq<byte>, ext: seq<byte>, tried: seq<ShortBytes>)
    requires AllShort(base) && |tried| <= MAX_TAIL
    requires forall i :: 0 <= i < |tried| ==> tried[i] == Candidate(base, ext, i + 1)
    ensures forall i, j :: 0 <= i < j < |tried| ==> tried[i] != tried[j]
  {
    forall i, j | 0 <= i < j < |tried|
      ensures tried[i] != tried[j]
    {
      if tried[i] == tried[j] {
        CandidateInjective(base, ext, i + 1, j + 1);
      }
    }
  }

  lemma SomeTailIsFree(base: seq<byte>, ext: seq<byte>, used: set<ShortBytes>)
    requires AllShort(base) && |used| < MAX_TAIL
    ensures FirstFreeTail(base, ext, used, 1).Some?
  {
    if FirstFreeTail(base, ext, used, 1).None? {
      var k := |used| + 1;
      var tried := seq(k, i requires 0 <= i < k => Candidate(base, ext, i + 1));
      CandidatesDiffer(base, ext, tried);
      DistinctInSet(tried, used);
      assert false;
    }
  }

  lemma {:induction false} DistinctInSet<T>(s: seq<T>, into: set<T>)
    requires forall i, j :: 0 <= i < j < |s| ==> s[i] != s[j]
    requires forall i :: 0 <= i < |s| ==> s[i] in into
    ensures |s| <= |into|
  {
    if s != [] {
      var last := s[|s| - 1];
      DistinctInSet(s[..|s| - 1], into - {last});
    }
  }
}
