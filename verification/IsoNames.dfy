/** Names of a seed image's files: case, validity, order; and the normal form of a file list. */
module IsoNames {
  import opened Bytes
  import opened Text

  const MAX_TOTAL_FILE_BYTES := 16 * 1024 * 1024
  const MAX_FILES := 32

  datatype InputFile = InputFile(name: string, contents: seq<byte>)

  datatype IsoError =
    | BadName(name: string) | TooManyFiles(count: nat) | FileTooLarge(size: nat)
    | NotIso | Truncated
    /** An index of the parser was out of bounds. */
    | OutOfBounds

  // ------------------------------------------------------------------ names --

  predicate NameChar(c: char)
  {
    'A' <= c <= 'Z' || '0' <= c <= '9' || c == '_' || c == '-'
  }

  /** A name as it is stored: 1 to 24 capitals, digits, `_` and `-`. */
  predicate StoredName(u: string)
  {
    1 <= |u| <= 24 && forall i :: 0 <= i < |u| ==> NameChar(u[i])
  }

  function ValidateName(name: string): (r: Result<string, IsoError>)
  {
    if StoredName(Upper(name)) then Ok(Upper(name)) else Err(BadName(name))
  }

  // ------------------------------------------------------------------ order --

  /** The order of strings by their characters. */
  predicate Leq(a: string, b: string)
  {
    a == [] || (b != [] && (a[0] < b[0] || (a[0] == b[0] && Leq(a[1..], b[1..]))))
  }

  lemma {:induction false} LeqTotal(a: string, b: string)
    ensures Leq(a, b) || Leq(b, a)
  {
    if a != [] && b != [] && a[0] == b[0] {
      LeqTotal(a[1..], b[1..]);
    }
  }

  lemma {:induction false} LeqTransitive(a: string, b: string, c: string)
    requires Leq(a, b) && Leq(b, c)
    ensures Leq(a, c)
  {
    if a != [] && a[0] == b[0] && b[0] == c[0] {
      LeqTransitive(a[1..], b[1..], c[1..]);
    }
  }

  lemma {:induction false} LeqAntisymmetric(a: string, b: string)
    requires Leq(a, b) && Leq(b, a)
    ensures a == b
  {
    if a != [] {
      LeqAntisymmetric(a[1..], b[1..]);
      assert a == [a[0]] + a[1..] && b == [b[0]] + b[1..];
    }
  }

  // ------------------------------------------------------------ normal form --

  function AsStored(f: InputFile): (g: InputFile)
  {
    InputFile(Upper(f.name), f.contents)
  }

  /** All files under their stored names, or the first name that is not valid. */
  function Normalized(files: seq<InputFile>): (r: Result<seq<InputFile>, IsoError>)
  {
    if files == [] then Ok([])
    else
      match ValidateName(files[0].name)
      case Err(e) => Err(e)
      case Ok(u) =>
        match Normalized(files[1..])
        case Err(e) => Err(e)
        case Ok(rest) => Ok([InputFile(u, files[0].contents)] + rest)
  }

  function Inserted(x: InputFile, s: seq<InputFile>): (r: seq<InputFile>)
  {
    if s == [] then [x] else if Leq(x.name, s[0].name) then [x] + s else [s[0]] + Inserted(x, s[1..])
  }

  /** Sorted by name, files of the same name in the order given. */
  function SortedByName(s: seq<InputFile>): (r: seq<InputFile>)
  {
    if s == [] then [] else Inserted(s[0], SortedByName(s[1..]))
  }

  ghost predicate IsSorted(s: seq<InputFile>)
  {
    forall i, j :: 0 <= i < j < |s| ==> Leq(s[i].name, s[j].name)
  }

  lemma {:induction false} InsertedPermutes(x: InputFile, s: seq<InputFile>)
    ensures multiset(Inserted(x, s)) == multiset{x} + multiset(s)
  {
    if s != [] && !Leq(x.name, s[0].name) {
      InsertedPermutes(x, s[1..]);
      assert s == [s[0]] + s[1..];
    }
  }

  lemma LeastStaysLeast(low: string, x: InputFile, s: seq<InputFile>, r: seq<InputFile>)
    requires multiset(r) == multiset{x} + multiset(s)
    requires Leq(low, x.name) && forall j :: 0 <= j < |s| ==> Leq(low, s[j].name)
    ensures forall j :: 0 <= j < |r| ==> Leq(low, r[j].name)
  {
    forall j | 0 <= j < |r|
      ensures Leq(low, r[j].name)
    {
      assert r[j] in multiset(r);
      assert r[j] == x || r[j] in s;
    }
  }

  lemma {:induction false} InsertedSorts(x: InputFile, s: seq<InputFile>)
    requires IsSorted(s)
    ensures IsSorted(Inserted(x, s))
  {
    if s != [] {
      var tail := s[1..];
      if Leq(x.name, s[0].name) {
        forall j | 0 < j < |s|
          ensures Leq(x.name, s[j].name)
        {
          LeqTransitive(x.name, s[0].name, s[j].name);
        }
      } else {
        InsertedSorts(x, tail);
        InsertedPermutes(x, tail);
        LeqTotal(x.name, s[0].name);
        LeastStaysLeast(s[0].name, x, tail, Inserted(x, tail));
      }
    }
  }

  /** The result is sorted and a permutation. */
  lemma {:induction false} SortedByNameSorts(s: seq<InputFile>)
    ensures IsSorted(SortedByName(s)) && multiset(SortedByName(s)) == multiset(s)
  {
    if s != [] {
      SortedByNameSorts(s[1..]);
      InsertedSorts(s[0], SortedByName(s[1..]));
      InsertedPermutes(s[0], SortedByName(s[1..]));
      assert s == [s[0]] + s[1..];
    }
  }

  predicate DuplicateAt(s: seq<InputFile>, i: nat)
  {
    i + 1 < |s| && s[i + 1].name == s[i].name
  }

  /** The first file from `i` on that has the name of the next one. */
  function FirstDuplicate(s: seq<InputFile>, i: nat): (r: Option<nat>)
    requires i <= |s|
    ensures r.None? ==> forall k :: i <= k < |s| ==> !DuplicateAt(s, k)
    ensures r.Some? ==> i <= r.value && DuplicateAt(s, r.value) && forall k :: i <= k < r.value ==> !DuplicateAt(s, k)
    decreases |s| - i
  {
    if i == |s| then None else if DuplicateAt(s, i) then Some(i) else FirstDuplicate(s, i + 1)
  }

  function TotalBytes(s: seq<InputFile>): (n: nat)
  {
    if s == [] then 0 else |s[0].contents| + TotalBytes(s[1..])
  }

  /** The size of the first file above the limit. */
  function FirstOversized(s: seq<InputFile>): (r: Option<nat>)
  {
    if s == [] then None
    else if |s[0].contents| > MAX_TOTAL_FILE_BYTES then Some(|s[0].contents|)
    else FirstOversized(s[1..])
  }

  /** Everything `build_iso` checks, and the files in the order in which it stores them. */
  function Accepted(files: seq<InputFile>): (r: Result<seq<InputFile>, IsoError>)
  {
    if |files| > MAX_FILES then Err(TooManyFiles(|files|))
    else
      match Normalized(files)
      case Err(e) => Err(e)
      case Ok(norm) =>
        var s := SortedByName(norm);
        if FirstDuplicate(s, 0).Some? then Err(BadName(s[FirstDuplicate(s, 0).value].name + " (duplicate)"))
        else if FirstOversized(s).Some? then Err(FileTooLarge(FirstOversized(s).value))
        else if TotalBytes(s) > MAX_TOTAL_FILE_BYTES then Err(FileTooLarge(TotalBytes(s)))
        else Ok(s)
  }

  // -------------------------------------------------------- what is accepted --

  lemma {:induction false} NormalizedIs(files: seq<InputFile>)
    ensures match Normalized(files)
      case Ok(norm) => |norm| == |files|
        && forall i :: 0 <= i < |files| ==> StoredName(Upper(files[i].name)) && norm[i] == AsStored(files[i])
      case Err(e) => e.BadName? && exists i :: 0 <= i < |files| && !StoredName(Upper(files[i].name))
  {
    if files != [] {
      NormalizedIs(files[1..]);
      if Normalized(files[1..]).Err? {
        var i :| 0 <= i < |files| - 1 && !StoredName(Upper(files[1..][i].name));
        assert files[i + 1] == files[1..][i];
      }
    }
  }

  /** At most 32 files with valid, distinct names, in strictly increasing order. */
  ghost predicate Stored(s: seq<InputFile>)
  {
    && |s| <= MAX_FILES && TotalBytes(s) <= MAX_TOTAL_FILE_BYTES
    && (forall i :: 0 <= i < |s| ==> StoredName(s[i].name) && |s[i].contents| <= MAX_TOTAL_FILE_BYTES)
    && IsSorted(s) && forall i, j :: 0 <= i < j < |s| ==> s[i].name != s[j].name
  }

  lemma {:induction false} ContentsBounded(s: seq<InputFile>, i: nat)
    requires i < |s|
    ensures |s[i].contents| <= TotalBytes(s)
  {
    if i > 0 {
      ContentsBounded(s[1..], i - 1);
    }
  }

  lemma SortedDistinct(s: seq<InputFile>)
    requires IsSorted(s) && FirstDuplicate(s, 0).None?
    ensures forall i, j :: 0 <= i < j < |s| ==> s[i].name != s[j].name
  {
    forall i, j | 0 <= i < j < |s|
      ensures s[i].name != s[j].name
    {
      if s[i].name == s[j].name {
        assert !DuplicateAt(s, i);
        assert Leq(s[i].name, s[i + 1].name) && (i + 1 < j ==> Leq(s[i + 1].name, s[j].name));
        LeqAntisymmetric(s[i].name, s[i + 1].name);
      }
    }
  }

  /** What is stored is a permutation of the input under uppercased names, sorted. */
  lemma AcceptedIsStored(files: seq<InputFile>)
    requires Accepted(files).Ok?
    ensures Stored(Accepted(files).value)
    ensures Normalized(files).Ok? && multiset(Accepted(files).value) == multiset(Normalized(files).value)
  {
    hide SortedByName;
    var norm, s := Normalized(files).value, Accepted(files).value;
    NormalizedIs(files);
    SortedByNameSorts(norm);
    assert |multiset(s)| == |multiset(norm)|;
    SortedDistinct(s);
    forall i | 0 <= i < |s|
      ensures StoredName(s[i].name) && |s[i].contents| <= MAX_TOTAL_FILE_BYTES
    {
      assert s[i] in multiset(norm);
      ContentsBounded(s, i);
    }
  }

  // -------------------------------------------------------------- canonical --

  function Names(s: seq<InputFile>): (names: seq<string>)
    ensures |names| == |s| && forall i :: 0 <= i < |s| ==> names[i] == s[i].name
  {
    seq(|s|, i requires 0 <= i < |s| => s[i].name)
  }

  ghost predicate NamesSorted(x: seq<string>)
  {
    forall i, j :: 0 <= i < j < |x| ==> Leq(x[i], x[j])
  }

  lemma FirstIsLeast(x: seq<string>, n: string)
    requires NamesSorted(x) && n in x
    ensures Leq(x[0], n)
  {
    LeqTotal(n, n);
  }

  lemma Cancel<T>(h: T, a: multiset<T>, b: multiset<T>)
    requires multiset{h} + a == multiset{h} + b
    ensures a == b
  {
    assert a == (multiset{h} + a) - multiset{h} && b == (multiset{h} + b) - multiset{h};
  }

  lemma SameFirst(x: seq<string>, y: seq<string>)
    requires NamesSorted(x) && NamesSorted(y) && multiset(x) == multiset(y) && x != [] && y != []
    ensures x[0] == y[0] && multiset(x[1..]) == multiset(y[1..])
  {
    assert x[0] in multiset(y) && y[0] in multiset(x);
    FirstIsLeast(x, y[0]);
    FirstIsLeast(y, x[0]);
    LeqAntisymmetric(x[0], y[0]);
    assert x == [x[0]] + x[1..] && y == [y[0]] + y[1..];
    Cancel(x[0], multiset(x[1..]), multiset(y[1..]));
  }

  /** A sorted list is determined by its elements. */
  lemma {:induction false} SortedUnique(x: seq<string>, y: seq<string>)
    requires NamesSorted(x) && NamesSorted(y) && multiset(x) == multiset(y)
    ensures x == y
  {
    assert |multiset(x)| == |x| && |multiset(y)| == |y|;
    if x != [] {
      SameFirst(x, y);
      SortedUnique(x[1..], y[1..]);
    }
  }

  function Drop<T>(t: seq<T>, k: nat): (r: seq<T>)
    requires k < |t|
  {
    t[..k] + t[k + 1..]
  }

  /** Two lists with the same elements stay so when the head of one is dropped from both. */
  lemma FindHead<T>(s: seq<T>, t: seq<T>) returns (k: nat)
    requires multiset(s) == multiset(t) && s != []
    ensures k < |t| && t[k] == s[0] && multiset(s[1..]) == multiset(Drop(t, k))
  {
    assert s[0] in multiset(t);
    k :| 0 <= k < |t| && t[k] == s[0];
    assert s == [s[0]] + s[1..];
    assert t == t[..k] + [t[k]] + t[k + 1..];
    Cancel(s[0], multiset(s[1..]), multiset(Drop(t, k)));
  }

  lemma EmptyToo<T>(s: seq<T>, t: seq<T>)
    requires multiset(s) == multiset(t) && s == []
    ensures t == []
  {
    assert |multiset(s)| == |s| && |multiset(t)| == |t|;
  }

  lemma NamesDrop(t: seq<InputFile>, k: nat)
    requires k < |t|
    ensures multiset(Names(t)) == multiset{t[k].name} + multiset(Names(Drop(t, k)))
  {
    assert Names(t) == Names(t[..k]) + [t[k].name] + Names(t[k + 1..]);
    assert Names(Drop(t, k)) == Names(t[..k]) + Names(t[k + 1..]);
  }

  lemma {:induction false} NamesCarry(s: seq<InputFile>, t: seq<InputFile>)
    requires multiset(s) == multiset(t)
    ensures multiset(Names(s)) == multiset(Names(t))
  {
    if s == [] {
      EmptyToo(s, t);
    } else {
      var k := FindHead(s, t);
      NamesCarry(s[1..], Drop(t, k));
      NamesDrop(t, k);
      assert Names(s) == [s[0].name] + Names(s[1..]);
    }
  }

  lemma DropValid(t: seq<InputFile>, k: nat)
    requires k < |t| && Normalized(t).Ok?
    ensures Normalized(Drop(t, k)).Ok?
  {
    NormalizedIs(t);
    NormalizedIs(Drop(t, k));
  }

  lemma NormalizedDrop(t: seq<InputFile>, k: nat, rest: seq<InputFile>, a: seq<InputFile>, b: seq<InputFile>)
    requires k < |t| && rest == Drop(t, k) && Normalized(t) == Ok(a) && Normalized(rest) == Ok(b)
    ensures multiset(a) == multiset{AsStored(t[k])} + multiset(b)
  {
    NormalizedIs(t);
    NormalizedIs(rest);
    DropStored(t, k, a, b);
  }

  lemma DropStored(t: seq<InputFile>, k: nat, a: seq<InputFile>, b: seq<InputFile>)
    requires k < |t| == |a| == |b| + 1
    requires forall i :: 0 <= i < |t| ==> a[i] == AsStored(t[i])
    requires forall i :: 0 <= i < |b| ==> b[i] == AsStored(Drop(t, k)[i])
    ensures multiset(a) == multiset{AsStored(t[k])} + multiset(b)
  {
    hide AsStored;
    assert b == Drop(a, k);
    assert a == a[..k] + [a[k]] + a[k + 1..];
  }

  lemma {:induction false} NormalizedCarries(s: seq<InputFile>, t: seq<InputFile>)
    requires multiset(s) == multiset(t) && Normalized(s).Ok? && Normalized(t).Ok?
    ensures multiset(Normalized(s).value) == multiset(Normalized(t).value)
  {
    if s == [] {
      EmptyToo(s, t);
    } else {
      var k := FindHead(s, t);
      DropValid(s, 0);
      DropValid(t, k);
      assert Drop(s, 0) == s[1..];
      NormalizedCarries(s[1..], Drop(t, k));
      NormalizedDrop(s, 0, s[1..], Normalized(s).value, Normalized(s[1..]).value);
      NormalizedDrop(t, k, Drop(t, k), Normalized(t).value, Normalized(Drop(t, k)).value);
    }
  }

  lemma AllValidCarries(s: seq<InputFile>, t: seq<InputFile>)
    requires multiset(s) == multiset(t) && Normalized(s).Ok?
    ensures Normalized(t).Ok?
  {
    NormalizedIs(s);
    NormalizedIs(t);
    forall i | 0 <= i < |t|
      ensures StoredName(Upper(t[i].name))
    {
      assert t[i] in multiset(s);
    }
  }

  /** Sorting forgets the order of the input, unless two files have the same name; then the names
      at least are the same. */
  lemma SortForgets(s: seq<InputFile>, t: seq<InputFile>)
    requires multiset(s) == multiset(t)
    ensures Names(SortedByName(s)) == Names(SortedByName(t))
    ensures FirstDuplicate(SortedByName(s), 0).None? ==> SortedByName(s) == SortedByName(t)
  {
    hide SortedByName, FirstDuplicate;
    var a, b := SortedByName(s), SortedByName(t);
    SortedByNameSorts(s);
    SortedByNameSorts(t);
    NamesCarry(a, b);
    SortedUnique(Names(a), Names(b));
    if FirstDuplicate(a, 0).None? {
      SortedDistinct(a);
      forall i | 0 <= i < |a|
        ensures a[i] == b[i]
      {
        assert b[i] in multiset(a);
        var k :| 0 <= k < |a| && a[k] == b[i];
        assert a[k].name == Names(b)[i] == a[i].name;
      }
    }
  }

  lemma DuplicateByNames(a: seq<InputFile>, b: seq<InputFile>)
    requires Names(a) == Names(b)
    ensures FirstDuplicate(a, 0) == FirstDuplicate(b, 0)
  {
    assert forall k :: DuplicateAt(a, k) <==> DuplicateAt(b, k) by {
      forall k: nat
        ensures DuplicateAt(a, k) <==> DuplicateAt(b, k)
      {
        if k + 1 < |a| {
          assert Names(a)[k] == Names(b)[k] && Names(a)[k + 1] == Names(b)[k + 1];
        }
      }
    }
  }

  /** Acceptance does not depend on the order of the input: the same files are stored in the same
      order, or the same error is reported, except that a bad name is the first one met. */
  lemma AcceptedForgetsOrder(s: seq<InputFile>, t: seq<InputFile>)
    requires multiset(s) == multiset(t)
    ensures Accepted(s) == Accepted(t)
      || (Accepted(s).Err? && Accepted(t).Err? && Accepted(s).error.BadName? && Accepted(t).error.BadName?)
  {
    assert |multiset(s)| == |s| && |multiset(t)| == |t|;
    NormalizedIs(s);
    NormalizedIs(t);
    if Normalized(s).Ok? {
      AllValidCarries(s, t);
      NormalizedCarries(s, t);
      var a, b := SortedByName(Normalized(s).value), SortedByName(Normalized(t).value);
      SortForgets(Normalized(s).value, Normalized(t).value);
      DuplicateByNames(a, b);
    } else if Normalized(t).Ok? {
      AllValidCarries(t, s);
    }
  }
}
