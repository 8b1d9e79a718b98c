/** Planning the export of a selection (card_login_mount_session.cpp:3556-3600):
    what is chosen is flattened side by side, so nothing may be chosen twice. */
module ExportPlan {
  import opened Wrappers
  import opened Paths
  import opened VolumePaths
  import opened ContainerTable
  import opened VaultRuntime
  import opened Session

  datatype Entry = Entry(id: nat, directory: string, name: string)

  const SELECTION_LIMIT := 4096
  const PATH_MAXIMUM := 259

  /** The names that lead to an entry of a volume, when the path is allowed. */
  function Location(e: Entry): Option<seq<string>> {
    if !ValidName(e.name) then None
    else match Resolve(e.directory)
      case None => None
      case Some(parts) =>
        var all := parts + [e.name];
        if 3 + |Join(all, SEPARATOR)| <= PATH_MAXIMUM then Some(all) else None
  }

  /** Drive and names of an export location. */
  function Destination(directory: string, name: string): Option<(char, seq<string>)> {
    if !ValidName(name) || |directory| < 3 || directory[1] != ':' || !IsSeparator(directory[2]) || !IsLetter(FoldChar(directory[0]))
    then None
    else match Resolve(directory[3..])
      case None => None
      case Some(parts) =>
        if 3 + |Join(parts + [name], SEPARATOR)| <= PATH_MAXIMUM then Some((FoldChar(directory[0]), parts + [name])) else None
  }

  // -- The overlap test ------------------------------------------------------------------------------

  /** The path as the test sees it, with both separators as one. */
  function Relative(e: Entry): string {
    Unified(if e.directory == "" then e.name else e.directory + [SEPARATOR] + e.name)
  }

  /** The test, on strings and without regard to letter case. */
  predicate Contains(outer: string, inner: string) {
    && |inner| >= |outer|
    && Fold(inner[..|outer|]) == Fold(outer)
    && (|inner| == |outer| || inner[|outer|] == SEPARATOR)
  }

  predicate Overlap(a: Entry, b: Entry) {
    a.id == b.id && (Contains(Relative(a), Relative(b)) || Contains(Relative(b), Relative(a)))
  }

  /** What the test is for: one entry is the other, or lies inside it. */
  predicate Within(outer: Entry, inner: Entry)
    requires Location(outer).Some? && Location(inner).Some?
  {
    outer.id == inner.id && FoldAll(Location(outer).value) <= FoldAll(Location(inner).value)
  }

  lemma ContainsIsAtOrUnder(outer: string, inner: string)
    ensures Contains(outer, inner) <==> AtOrUnder(Fold(outer), Fold(inner), SEPARATOR)
  {
    var a, b := Fold(outer), Fold(inner);
    if |inner| >= |outer| {
      assert b[..|outer|] == Fold(inner[..|outer|]);
      assert |inner| > |outer| ==> b[..|outer| + 1] == b[..|outer|] + [b[|outer|]];
    }
  }

  lemma ContainsIsPrefix(outer: string, inner: string)
    ensures Contains(outer, inner) <==> FoldAll(Split(outer, SEPARATOR)) <= FoldAll(Split(inner, SEPARATOR))
  {
    ContainsIsAtOrUnder(outer, inner);
    AtOrUnderIsPrefix(Fold(outer), Fold(inner), SEPARATOR);
    SplitOfFold(outer, SEPARATOR);
    SplitOfFold(inner, SEPARATOR);
  }

  predicate EndsInSeparator(directory: string) {
    directory != "" && IsSeparator(directory[|directory| - 1])
  }

  /** The names the test compares: a separator at the end of the directory adds
      an empty one in front of the last. */
  function Compared(e: Entry): seq<string>
    requires Location(e).Some?
  {
    if EndsInSeparator(e.directory) then Resolve(e.directory).value + [""] + [e.name] else Location(e).value
  }

  lemma RelativeSplits(e: Entry)
    requires Location(e).Some?
    ensures Split(Relative(e), SEPARATOR) == Compared(e)
  {
    NamesHoldNoSeparator(e.name);
    SplitOfOne(e.name, SEPARATOR);
    if e.directory == "" {
      assert [] + [e.name] == [e.name];
    } else {
      assert Relative(e) == Unified(e.directory) + [SEPARATOR] + e.name;
      SplitConcat(Unified(e.directory), e.name, SEPARATOR);
      DirectorySplits(e.directory);
    }
  }

  lemma DirectorySplits(directory: string)
    requires directory != ""
    ensures Split(Unified(directory), SEPARATOR)
         == Split(Unified(Trimmed(directory)), SEPARATOR) + if EndsInSeparator(directory) then [""] else []
  {
    if EndsInSeparator(directory) {
      var front := Unified(Trimmed(directory));
      assert Unified(directory) == front + [SEPARATOR] + "";
      SplitConcat(front, "", SEPARATOR);
    }
  }

  /** Without a separator at the end of a directory the test is exact. */
  lemma TestIsExact(a: Entry, b: Entry)
    requires Location(a).Some? && Location(b).Some?
    requires !EndsInSeparator(a.directory) && !EndsInSeparator(b.directory)
    ensures Overlap(a, b) <==> Within(a, b) || Within(b, a)
  {
    RelativeSplits(a);
    RelativeSplits(b);
    ContainsIsPrefix(Relative(a), Relative(b));
    ContainsIsPrefix(Relative(b), Relative(a));
  }

  /** Names that lead to `last`, with an empty one in front of it or not. */
  function WithGap(front: seq<string>, last: string, gap: bool): seq<string> {
    if gap then front + [""] + [last] else front + [last]
  }

  predicate AllNamed(names: seq<string>) {
    forall i :: 0 <= i < |names| ==> names[i] != ""
  }

  /** An empty name is a prefix of no real one. */
  lemma GapPrefix(a: seq<string>, x: string, gapA: bool, b: seq<string>, y: string, gapB: bool)
    requires AllNamed(a + [x]) && AllNamed(b + [y])
    ensures WithGap(a, x, gapA) <= WithGap(b, y, gapB) <==>
      a + [x] <= b + [y] && if b + [y] <= a + [x] then gapA == gapB else !gapA
  {
    var s, t, u, v := WithGap(a, x, gapA), WithGap(b, y, gapB), a + [x], b + [y];
    assert forall i :: 0 <= i < |a| ==> s[i] == a[i] == u[i];
    assert forall i :: 0 <= i < |b| ==> t[i] == b[i] == v[i];
    assert gapA ==> s[|a|] == "" && s[|a| + 1] == x;
    assert gapB ==> t[|b|] == "" && t[|b| + 1] == y;
    assert u[|a|] == x && v[|b|] == y;
    if s <= t {
      assert forall i :: 0 <= i < |s| ==> s[i] == t[i];
    }
  }

  /** The test sees that one entry is or contains the other if, at one place, both
      directories or neither ends in a separator; at two places, if the outer one's
      does not. */
  predicate Sees(outer: Entry, inner: Entry)
    requires Location(outer).Some? && Location(inner).Some?
  {
    && Within(outer, inner)
    && if Within(inner, outer) then EndsInSeparator(outer.directory) == EndsInSeparator(inner.directory)
       else !EndsInSeparator(outer.directory)
  }

  lemma ComparedGap(e: Entry)
    requires Location(e).Some?
    ensures var front := FoldAll(Resolve(e.directory).value);
      && FoldAll(Compared(e)) == WithGap(front, Fold(e.name), EndsInSeparator(e.directory))
      && FoldAll(Location(e).value) == front + [Fold(e.name)] && AllNamed(front + [Fold(e.name)])
  {
    var front := Resolve(e.directory).value;
    FoldedGap(front, e.name, EndsInSeparator(e.directory));
    FoldedGap(front, e.name, false);
    assert forall i :: 0 <= i < |front| ==> ValidName(front[i]);
  }

  lemma FoldedGap(front: seq<string>, last: string, gap: bool)
    ensures FoldAll(WithGap(front, last, gap)) == WithGap(FoldAll(front), Fold(last), gap)
    ensures AllNamed(front) && last != "" ==> AllNamed(FoldAll(front) + [Fold(last)])
  {
    assert Fold("") == "";
    assert forall i :: 0 <= i < |front| ==> |Fold(front[i])| == |front[i]|;
    assert |Fold(last)| == |last|;
  }

  /** Exactly what the test refuses, however the directories are spelled. */
  lemma TestSees(a: Entry, b: Entry)
    requires Location(a).Some? && Location(b).Some?
    ensures Overlap(a, b) <==> Sees(a, b) || Sees(b, a)
  {
    RelativeSplits(a);
    RelativeSplits(b);
    ContainsIsPrefix(Relative(a), Relative(b));
    ContainsIsPrefix(Relative(b), Relative(a));
    ComparedGap(a);
    ComparedGap(b);
    var x, y := FoldAll(Resolve(a.directory).value), FoldAll(Resolve(b.directory).value);
    GapPrefix(x, Fold(a.name), EndsInSeparator(a.directory), y, Fold(b.name), EndsInSeparator(b.directory));
    GapPrefix(y, Fold(b.name), EndsInSeparator(b.directory), x, Fold(a.name), EndsInSeparator(a.directory));
  }

  /** With one, the test misses the very same entry spelled without it. */
  lemma TrailingSeparatorSlips(e: Entry)
    requires Location(e).Some? && EndsInSeparator(e.directory)
    ensures var twin := e.(directory := Trimmed(e.directory));
      && Location(twin) == Location(e) && !EndsInSeparator(twin.directory)
      && Within(e, twin) && !Overlap(e, twin)
  {
    var twin := e.(directory := Trimmed(e.directory));
    TrimmedResolves(e.directory);
    RelativeSplits(e);
    RelativeSplits(twin);
    ContainsIsPrefix(Relative(e), Relative(twin));
    ContainsIsPrefix(Relative(twin), Relative(e));
    var n := |Resolve(e.directory).value|;
    assert FoldAll(Compared(e))[n] == "" && FoldAll(Compared(twin))[n] == Fold(e.name) && |Fold(e.name)| == |e.name|;
  }

  lemma TrimmedResolves(directory: string)
    requires EndsInSeparator(directory) && Resolve(directory).Some?
    ensures Resolve(Trimmed(directory)) == Resolve(directory)
    ensures !EndsInSeparator(Trimmed(directory)) && Trimmed(directory) != ""
  {
    var front := Trimmed(directory);
    assert ValidName(Split(Unified(front), SEPARATOR)[0]);
    EndsInEmptyName(front);
  }

  lemma EndsInEmptyName(directory: string)
    ensures var parts := Split(Unified(directory), SEPARATOR);
            EndsInSeparator(directory) ==> parts[|parts| - 1] == ""
  {
    if EndsInSeparator(directory) {
      var front := Unified(directory[..|directory| - 1]);
      assert Unified(directory) == front + [SEPARATOR] + "";
      SplitConcat(front, "", SEPARATOR);
    }
  }

  /** The test tells right about an entry, whatever entry without a separator at
      the end of its directory it is compared with, exactly when the entry's own
      directory does not end in one. */
  lemma TestIsReliable(e: Entry)
    requires Location(e).Some?
    ensures !EndsInSeparator(e.directory) <==>
      forall other :: Location(other).Some? && !EndsInSeparator(other.directory) ==>
        (Overlap(e, other) <==> Within(e, other) || Within(other, e))
  {
    if EndsInSeparator(e.directory) {
      TrailingSeparatorSlips(e);
    } else {
      forall other | Location(other).Some? && !EndsInSeparator(other.directory)
        ensures Overlap(e, other) <==> Within(e, other) || Within(other, e)
      {
        TestIsExact(e, other);
      }
    }
  }

  /** Whatever it is compared with, the test tells right about the entries of the
      volume's root only: the spelling of any other directory can differ. */
  lemma OnlyRootEntriesAreSafe(e: Entry)
    requires Location(e).Some?
    ensures e.directory == "" <==>
      forall other :: Location(other).Some? ==> (Overlap(e, other) <==> Within(e, other) || Within(other, e))
  {
    if e.directory == "" {
      forall other | Location(other).Some? ensures Overlap(e, other) <==> Within(e, other) || Within(other, e) {
        RootEntryIsSeen(e, other);
      }
    } else if EndsInSeparator(e.directory) {
      TrailingSeparatorSlips(e);
    } else {
      var twin := e.(directory := e.directory + [SEPARATOR]);
      SeparatorAdded(e.directory);
      TrailingSeparatorSlips(twin);
    }
  }

  lemma RootEntryIsSeen(e: Entry, other: Entry)
    requires Location(e).Some? && Location(other).Some? && e.directory == ""
    ensures Overlap(e, other) <==> Within(e, other) || Within(other, e)
  {
    TestSees(e, other);
    if EndsInSeparator(other.directory) {
      TrimmedResolves(other.directory);
      assert |Location(e).value| == 1 < |Location(other).value|;
    }
  }

  lemma SeparatorAdded(directory: string)
    requires directory != "" && !EndsInSeparator(directory) && Resolve(directory).Some?
    ensures Resolve(directory + [SEPARATOR]) == Resolve(directory)
    ensures Trimmed(directory + [SEPARATOR]) == directory
  {
  }

  /** A concrete selection that is accepted and publishes one file twice. */
  lemma SameFileAcceptedTwice()
    ensures var a, b := Entry(1, "a", "b"), Entry(1, "a/", "b");
      && Location(a) == Location(b) == Some(["a", "b"]) && !Overlap(b, a) && !Overlap(a, b)
  {
    LetterIsName("a");
    LetterIsName("b");
    SplitOfOne("a", SEPARATOR);
    assert Unified("a") == "a" && Trimmed("a/") == "a";
    assert Resolve("a") == Some(["a"]) == Resolve("a/");
    JoinConcat(["a"], ["b"], SEPARATOR);
    assert ["a"] + ["b"] == ["a", "b"];
    TrailingSeparatorSlips(Entry(1, "a/", "b"));
  }

  lemma LetterIsName(name: string)
    requires |name| == 1 && 'a' <= name[0] <= 'z'
    ensures ValidName(name)
  {
    SplitOfOne(name, '.');
    LettersAreAllowed(name[0]);
    NoDeviceIsThatShort(Fold(Stem(name)));
  }

  lemma LettersAreAllowed(c: char)
    requires 'a' <= c <= 'z'
    ensures c !in FORBIDDEN
  {
  }

  lemma NoDeviceIsThatShort(stem: string)
    requires |stem| == 1
    ensures stem !in DEVICES
  {
  }

  // -- What an accepted selection publishes -----------------------------------------------------------

  /** An entry overlaps none of those before it. */
  ghost predicate Clear(entries: seq<Entry>, j: nat)
    requires j < |entries|
  {
    forall i :: 0 <= i < j ==> !Overlap(entries[i], entries[j])
  }

  ghost predicate Disjoint(entries: seq<Entry>) {
    forall j :: 0 <= j < |entries| ==> Clear(entries, j)
  }

  ghost predicate WellFormed(entries: seq<Entry>) {
    forall i :: 0 <= i < |entries| ==> Location(entries[i]).Some? && !EndsInSeparator(entries[i].directory)
  }

  /** Whether a file or folder leaves with a chosen entry. */
  predicate Publishes(e: Entry, id: nat, path: seq<string>)
    requires Location(e).Some?
  {
    e.id == id && FoldAll(Location(e).value) <= FoldAll(path)
  }

  /** No file leaves twice. */
  lemma NothingPublishedTwice(entries: seq<Entry>, i: nat, j: nat, id: nat, path: seq<string>)
    requires WellFormed(entries) && Disjoint(entries) && i < |entries| && j < |entries|
    requires Publishes(entries[i], id, path) && Publishes(entries[j], id, path)
    ensures i == j
  {
    var a, b := FoldAll(Location(entries[i]).value), FoldAll(Location(entries[j]).value);
    assert a <= b || b <= a;
    if i < j {
      TestIsExact(entries[i], entries[j]);
      ClearIsApart(entries, i, j);
    } else if j < i {
      TestIsExact(entries[j], entries[i]);
      ClearIsApart(entries, j, i);
    }
  }

  lemma ClearIsApart(entries: seq<Entry>, i: nat, j: nat)
    requires i < j < |entries| && Disjoint(entries)
    ensures !Overlap(entries[i], entries[j])
  {
    assert Clear(entries, j);
  }

  // -- The plan ----------------------------------------------------------------------------------------

  datatype Source = Source(drive: char, path: seq<string>)

  predicate Exportable(rows: seq<Row>, e: Entry) {
    var k := FindById(rows, e.id);
    k < |rows| && rows[k].mounted && !rows[k].maintenance && Location(e).Some?
  }

  /** One entry, against all before it. */
  method PlanEntry(rows: seq<Row>, entries: seq<Entry>, i: nat) returns (r: Result<Source, Error>)
    requires i < |entries|
    ensures r.Ok? <==> Exportable(rows, entries[i]) && Clear(entries, i)
    ensures r.Ok? ==> r.value == SourceOf(rows, entries[i])
  {
    var e := entries[i];
    var k := FindById(rows, e.id);
    if k == |rows| || !rows[k].mounted || rows[k].maintenance {
      return Err(WrongState);
    }
    if Location(e).None? {
      return Err(InvalidArgument);
    }
    var clear := IsClear(entries, i);
    return if clear then Ok(Source(rows[k].letter, Location(e).value)) else Err(InvalidArgument);
  }

  method IsClear(entries: seq<Entry>, j: nat) returns (clear: bool)
    requires j < |entries|
    ensures clear <==> Clear(entries, j)
  {
    clear := NoneBefore(Overlap, entries, j);
  }

  /** Item `j` is in this relation to none of those before it. */
  method NoneBefore<T>(related: (T, T) -> bool, items: seq<T>, j: nat) returns (none: bool)
    requires j < |items|
    ensures none <==> forall i :: 0 <= i < j ==> !related(items[i], items[j])
  {
    for i := 0 to j
      invariant forall m :: 0 <= m < i ==> !related(items[m], items[j])
    {
      if related(items[i], items[j]) {
        return false;
      }
    }
    return true;
  }

  function SourceOf(rows: seq<Row>, e: Entry): Source
    requires Exportable(rows, e)
  {
    Source(rows[FindById(rows, e.id)].letter, Location(e).value)
  }

  ghost predicate PlannedUpTo(rows: seq<Row>, entries: seq<Entry>, sources: seq<Source>) {
    && |sources| <= |entries|
    && forall i :: 0 <= i < |sources| ==>
         Exportable(rows, entries[i]) && Clear(entries, i) && sources[i] == SourceOf(rows, entries[i])
  }

  method PlanEntries(rows: seq<Row>, entries: seq<Entry>) returns (r: Result<seq<Source>, Error>)
    ensures r.Ok? <==> Disjoint(entries) && forall i :: 0 <= i < |entries| ==> Exportable(rows, entries[i])
    ensures r.Ok? ==> |r.value| == |entries| && PlannedUpTo(rows, entries, r.value)
  {
    var sources: seq<Source> := [];
    while |sources| < |entries|
      invariant PlannedUpTo(rows, entries, sources)
    {
      var source := PlanEntry(rows, entries, |sources|);
      if source.Err? {
        return Err(source.error);
      }
      sources := sources + [source.value];
    }
    return Ok(sources);
  }

  method PlanSelectionExport(s: SessionCore, entries: seq<Entry>, directory: string, folder: string)
    returns (r: Result<(seq<Source>, (char, seq<string>)), Error>)
    requires s.Valid()
    ensures r.Ok? <==>
      && s.auth.Authenticated() && !s.formatActive
      && 0 < |entries| <= SELECTION_LIMIT && (folder == "" ==> |entries| == 1)
      && var destination := Destination(directory, if folder == "" then entries[0].name else folder);
         && destination.Some? && destination.value.0 !in MountedLetters(s.rows)
         && Disjoint(entries) && forall i :: 0 <= i < |entries| ==> Exportable(s.rows, entries[i])
    ensures r.Ok? ==>
      && |r.value.0| == |entries|
      && (forall i :: 0 <= i < |entries| ==>
            r.value.0[i] == SourceOf(s.rows, entries[i]) && r.value.0[i].drive in MountedLetters(s.rows))
      && r.value.1.0 !in MountedLetters(s.rows)
  {
    if !s.auth.Authenticated() || s.formatActive {
      return Err(WrongState);
    }
    if entries == [] || |entries| > SELECTION_LIMIT || (folder == "" && |entries| != 1) {
      return Err(InvalidArgument);
    }
    var destination := Destination(directory, if folder == "" then entries[0].name else folder);
    if destination.None? || destination.value.0 in MountedLetters(s.rows) {
      return Err(InvalidArgument);
    }
    var sources := PlanEntries(s.rows, entries);
    if sources.Err? {
      return Err(sources.error);
    }
    return Ok((sources.value, destination.value));
  }
}
