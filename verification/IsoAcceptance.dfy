/** Which file lists `build_iso` accepts, in terms of the list as it is given. */
module IsoAcceptance {
  import opened Bytes
  import opened Text
  import opened IsoNames
  import opened IsoImage

  ghost predicate Distinct(names: seq<string>)
  {
    forall i, j :: 0 <= i < j < |names| ==> names[i] != names[j]
  }

  function Distinguished(names: seq<string>): (s: set<string>)
  {
    set n | n in names
  }

  lemma {:induction false} DistinctByCount(names: seq<string>)
    ensures |Distinguished(names)| <= |names| && (Distinct(names) <==> |Distinguished(names)| == |names|)
  {
    if names != [] {
      var init, last := names[..|names| - 1], names[|names| - 1];
      DistinctByCount(init);
      assert names == init + [last];
      assert Distinguished(names) == Distinguished(init) + {last};
      if last in init {
        assert Distinguished(names) == Distinguished(init);
        var i :| 0 <= i < |init| && init[i] == last;
        assert names[i] == names[|names| - 1];
      }
    }
  }

  lemma SameNames(a: seq<InputFile>, b: seq<InputFile>)
    requires multiset(a) == multiset(b)
    ensures Distinguished(Names(a)) == Distinguished(Names(b)) && |a| == |b|
  {
    assert |multiset(a)| == |a| && |multiset(b)| == |b|;
    NamesWithin(a, b);
    NamesWithin(b, a);
  }

  lemma NamesWithin(a: seq<InputFile>, b: seq<InputFile>)
    requires multiset(a) == multiset(b)
    ensures Distinguished(Names(a)) <= Distinguished(Names(b))
  {
    forall n | n in Distinguished(Names(a))
      ensures n in Distinguished(Names(b))
    {
      var i :| 0 <= i < |a| && Names(a)[i] == n;
      assert a[i] in multiset(b);
      var k :| 0 <= k < |b| && b[k] == a[i];
      assert Names(b)[k] == n;
    }
  }

  lemma {:induction false} InsertedBytes(x: InputFile, s: seq<InputFile>)
    ensures TotalBytes(Inserted(x, s)) == |x.contents| + TotalBytes(s)
  {
    hide Leq;
    if s != [] && !Leq(x.name, s[0].name) {
      InsertedBytes(x, s[1..]);
    }
  }

  lemma {:induction false} SortedBytes(s: seq<InputFile>)
    ensures TotalBytes(SortedByName(s)) == TotalBytes(s)
  {
    if s != [] {
      SortedBytes(s[1..]);
      InsertedBytes(s[0], SortedByName(s[1..]));
    }
  }

  lemma {:induction false} NormalizedBytes(files: seq<InputFile>)
    requires Normalized(files).Ok?
    ensures TotalBytes(Normalized(files).value) == TotalBytes(files)
  {
    if files != [] {
      NormalizedBytes(files[1..]);
    }
  }

  lemma {:induction false} NormalizedExact(files: seq<InputFile>)
    ensures Normalized(files).Ok? <==> forall i :: 0 <= i < |files| ==> StoredName(Upper(files[i].name))
    ensures Normalized(files).Ok? ==> Names(Normalized(files).value) == StoredNames(files)
  {
    NormalizedIs(files);
  }

  /** The names under which the files would be stored. */
  function StoredNames(files: seq<InputFile>): (names: seq<string>)
    ensures |names| == |files| && forall i :: 0 <= i < |files| ==> names[i] == Upper(files[i].name)
  {
    seq(|files|, i requires 0 <= i < |files| => Upper(files[i].name))
  }

  lemma {:induction false} OversizedExceeds(s: seq<InputFile>)
    ensures FirstOversized(s).Some? ==> 16 * 1024 * 1024 < FirstOversized(s).value <= TotalBytes(s)
  {
    if s != [] {
      OversizedExceeds(s[1..]);
    }
  }

  lemma DuplicatesExact(s: seq<InputFile>)
    requires IsSorted(s)
    ensures FirstDuplicate(s, 0).None? <==> Distinct(Names(s))
  {
    if FirstDuplicate(s, 0).None? {
      SortedDistinct(s);
    } else {
      var k := FirstDuplicate(s, 0).value;
      assert Names(s)[k] == Names(s)[k + 1];
    }
  }

  /** The names are accepted, and their distinctness is that of the names as stored. */
  lemma SortedFacts(files: seq<InputFile>)
    requires Normalized(files).Ok?
    ensures var s := SortedByName(Normalized(files).value);
      && (FirstDuplicate(s, 0).None? <==> Distinct(StoredNames(files))) && TotalBytes(s) == TotalBytes(files)
  {
    var norm := Normalized(files).value;
    var s := SortedByName(norm);
    SortedByNameSorts(norm);
    SortedBytes(norm);
    NormalizedBytes(files);
    NormalizedExact(files);
    SameNames(s, norm);
    DistinctByCount(Names(s));
    DistinctByCount(Names(norm));
    DuplicatesExact(s);
  }

  ghost predicate AllValid(files: seq<InputFile>)
  {
    forall i :: 0 <= i < |files| ==> StoredName(Upper(files[i].name))
  }

  lemma AcceptedExact(files: seq<InputFile>, r: Result<seq<InputFile>, IsoError>)
    requires r == Accepted(files)
    ensures var valid, distinct := AllValid(files), Distinct(StoredNames(files));
      var fits := TotalBytes(files) <= 16 * 1024 * 1024;
      && (r.Ok? <==> |files| <= 32 && valid && distinct && fits)
      && (|files| > 32 <==> r == Err(TooManyFiles(|files|)))
      && (r.Err? && r.error.BadName? <==> |files| <= 32 && !(valid && distinct))
      && (r.Err? && r.error.FileTooLarge? <==> |files| <= 32 && valid && distinct && !fits)
      && (r.Err? && r.error.FileTooLarge? ==> r.error.size > 16 * 1024 * 1024)
  {
    hide Normalized, SortedByName, StoredName, Distinct, StoredNames, TotalBytes, FirstOversized, Stored;
    NormalizedExact(files);
    NormalizedIs(files);
    if Normalized(files).Ok? {
      SortedFacts(files);
      OversizedExceeds(SortedByName(Normalized(files).value));
    }
  }

  lemma BuildIsAccepted(files: seq<InputFile>)
    ensures Build(files).Ok? <==> Accepted(files).Ok?
    ensures Build(files).Err? ==> Build(files) == Err(Accepted(files).error)
  {
    hide Accepted, Image, Root, Stored;
  }

  /** A list is accepted if and only if it has at most 32 files, all names are valid and differ also when
      case is ignored, and the contents are at most 16 MiB together. Each error says which of these
      fails first. */
  lemma BuildIsoSucceeds(files: seq<InputFile>)
    ensures var r, valid, distinct := Build(files), AllValid(files), Distinct(StoredNames(files));
      var fits := TotalBytes(files) <= 16 * 1024 * 1024;
      && (r.Ok? <==> |files| <= 32 && valid && distinct && fits)
      && (|files| > 32 <==> r == Err(TooManyFiles(|files|)))
      && (r.Err? && r.error.BadName? <==> |files| <= 32 && !(valid && distinct))
      && (r.Err? && r.error.FileTooLarge? <==> |files| <= 32 && valid && distinct && !fits)
      && (r.Err? && r.error.FileTooLarge? ==> r.error.size > 16 * 1024 * 1024)
  {
    hide Build, Accepted, AllValid, Distinct, TotalBytes;
    AcceptedExact(files, Accepted(files));
    BuildIsAccepted(files);
  }
}
