/** The export list of the page (ui/card_session.js:1924-1925, 2506-2521,
    2822-2922): what is ticked, in any folder of any container. */
module ExportPage {
  import opened Wrappers
  import opened VolumePaths
  import opened Decimal
  import Plan = ExportPlan

  const SLASH := '/'

  datatype Key = Key(id: nat, directory: string, name: string)

  datatype Pick = Pick(isDirectory: bool, size: int, modified: int)

  type Selection = map<Key, Pick>

  /** The names of a directory written with slashes; the root has none. */
  function Names(directory: string): seq<string> {
    if directory == "" then [] else Split(directory, SLASH)
  }

  function PathOf(k: Key): seq<string> {
    Names(k.directory) + [k.name]
  }

  /** A name as a listing gives it. */
  predicate IsName(name: string) {
    name != "" && SLASH !in name && SEPARATOR !in name
  }

  /** A directory as the page writes it: names, joined by slashes. */
  predicate IsDirectoryPath(directory: string) {
    forall i :: 0 <= i < |Names(directory)| ==> IsName(Names(directory)[i])
  }

  predicate IsKey(k: Key) {
    IsName(k.name) && IsDirectoryPath(k.directory)
  }

  /** The text of the folder or file itself. */
  function TextOf(k: Key): string {
    if k.directory == "" then k.name else k.directory + [SLASH] + k.name
  }

  lemma TextSplits(k: Key)
    requires IsKey(k)
    ensures Split(TextOf(k), SLASH) == PathOf(k) && TextOf(k) != ""
  {
    SplitOfOne(k.name, SLASH);
    if k.directory != "" {
      SplitConcat(k.directory, k.name, SLASH);
    }
  }

  lemma NamesAreInjective(a: string, b: string)
    requires Names(a) == Names(b)
    ensures a == b
  {
    if a != "" && b != "" {
      SplitIsInjective(a, b, SLASH);
    }
  }

  lemma PathIsInjective(a: Key, b: Key)
    requires a.id == b.id && PathOf(a) == PathOf(b)
    ensures a == b
  {
    assert Names(a.directory) == PathOf(a)[..|PathOf(a)| - 1] == Names(b.directory);
    assert a.name == PathOf(a)[|PathOf(a)| - 1] == b.name;
    NamesAreInjective(a.directory, b.directory);
  }

  const NUL := '\0'

  /** The text under which the page files an entry. */
  function KeyText(k: Key): string {
    Digits(k.id) + [NUL] + k.directory + [NUL] + k.name
  }

  /** Two entries never share a text. */
  lemma KeyTextIsInjective(a: Key, b: Key)
    requires NUL !in a.directory && NUL !in a.name && NUL !in b.directory && NUL !in b.name
    requires KeyText(a) == KeyText(b)
    ensures a == b
  {
    KeyTextSplits(a);
    KeyTextSplits(b);
    var x, y := Split(KeyText(a), NUL), Split(KeyText(b), NUL);
    assert x[0] == y[0] && x[1] == y[1] && x[2] == y[2];
    DigitsAreInjective(a.id, b.id);
  }

  lemma KeyTextSplits(k: Key)
    requires NUL !in k.directory && NUL !in k.name
    ensures Split(KeyText(k), NUL) == [Digits(k.id), k.directory, k.name]
  {
    SplitConcat(Digits(k.id) + [NUL] + k.directory, k.name, NUL);
    SplitConcat(Digits(k.id), k.directory, NUL);
    SplitOfOne(Digits(k.id), NUL);
    SplitOfOne(k.directory, NUL);
    SplitOfOne(k.name, NUL);
  }

  // -- The selection ----------------------------------------------------------------------------------

  /** Nothing ticked lies under anything else that is ticked. */
  ghost predicate Antichain(sel: Selection) {
    && (forall k :: k in sel ==> IsKey(k))
    && forall a, b :: a in sel && b in sel && a.id == b.id && a != b ==> !(PathOf(a) <= PathOf(b))
  }

  /** Something ticked is this entry or carries it. */
  ghost predicate Carried(sel: Selection, id: nat, path: seq<string>) {
    exists k :: k in sel && k.id == id && PathOf(k) <= path
  }

  /** Something ticked lies strictly inside this entry. */
  ghost predicate HoldsTicked(sel: Selection, id: nat, path: seq<string>) {
    exists k :: k in sel && k.id == id && path <= PathOf(k) && path != PathOf(k)
  }

  // -- Above ------------------------------------------------------------------------------------------

  /** The key of the folder `depth` names down along a directory. */
  function Ancestor(id: nat, parts: seq<string>, depth: nat): Key
    requires depth < |parts|
  {
    Key(id, Join(parts[..depth], SLASH), parts[depth])
  }

  lemma AncestorPath(id: nat, directory: string, depth: nat)
    requires IsDirectoryPath(directory) && depth < |Names(directory)|
    ensures PathOf(Ancestor(id, Names(directory), depth)) == Names(directory)[..depth + 1]
    ensures IsKey(Ancestor(id, Names(directory), depth))
  {
    var parts := Names(directory);
    if depth > 0 {
      JoinSplits(parts[..depth], SLASH);
      JoinIsNotEmpty(parts[..depth]);
    }
  }

  lemma JoinIsNotEmpty(parts: seq<string>)
    requires parts != [] && parts[0] != ""
    ensures Join(parts, SLASH) != ""
  {
  }

  /** Whether a ticked folder above, or the directory itself, carries what is in
      it: one lookup for every name on the way. */
  method CoveredBy(sel: Selection, id: nat, directory: string) returns (covered: bool)
    requires IsDirectoryPath(directory)
    ensures covered <==> Carried(sel, id, Names(directory))
  {
    if directory == "" {
      return false;
    }
    var parts := Split(directory, SLASH);
    for depth := 0 to |parts|
      invariant forall d :: 0 <= d < depth ==> Ancestor(id, parts, d) !in sel
    {
      AncestorPath(id, directory, depth);
      if Ancestor(id, parts, depth) in sel {
        return true;
      }
    }
    forall k | k in sel && k.id == id && PathOf(k) <= parts ensures false {
      var d := |PathOf(k)| - 1;
      AncestorPath(id, directory, d);
      PathIsInjective(k, Ancestor(id, parts, d));
    }
    return false;
  }

  // -- Below ------------------------------------------------------------------------------------------

  /** The test by text: the directory is the folder, or continues it. */
  predicate InsideText(x: Key, id: nat, path: string) {
    x.id == id && (x.directory == path || path + [SLASH] <= x.directory)
  }

  /** The test by text finds exactly what lies strictly below. */
  lemma InsideIsBelow(k: Key, x: Key)
    requires IsKey(k) && IsKey(x) && k.id == x.id
    ensures InsideText(x, k.id, TextOf(k)) <==> PathOf(k) <= PathOf(x) && PathOf(k) != PathOf(x)
    ensures InsideText(x, k.id, TextOf(k)) <==> PathOf(k) <= Names(x.directory)
  {
    TextSplits(k);
    AtOrUnderIsPrefix(TextOf(k), x.directory, SLASH);
    var p, d := PathOf(k), Names(x.directory);
    assert PathOf(x) == d + [x.name];
    assert |p| <= |d| ==> PathOf(x)[..|p|] == d[..|p|];
    if x.directory == "" {
      assert p[|p| - 1] == k.name != "";
    }
  }

  /** Looking up from an entry and clearing down from a folder agree: one meets
      the other exactly when the other meets it. */
  lemma CoverAndClearAreDual(k: Key, x: Key)
    requires IsKey(k) && IsKey(x) && k.id == x.id
    ensures InsideText(x, k.id, TextOf(k)) <==>
      exists depth: nat :: depth < |Names(x.directory)| && Ancestor(x.id, Names(x.directory), depth) == k
  {
    InsideIsBelow(k, x);
    var parts := Names(x.directory);
    if PathOf(k) <= parts {
      var d := |PathOf(k)| - 1;
      AncestorPath(x.id, x.directory, d);
      PathIsInjective(k, Ancestor(x.id, parts, d));
    }
    if depth: nat :| depth < |parts| && Ancestor(x.id, parts, depth) == k {
      AncestorPath(x.id, x.directory, depth);
    }
  }

  function ClearedInside(sel: Selection, id: nat, path: string): Selection {
    map k | k in sel && !InsideText(k, id, path) :: sel[k]
  }

  function OfOthers(sel: Selection, id: nat): Selection {
    map k | k in sel && k.id != id :: sel[k]
  }

  // -- What the page does ------------------------------------------------------------------------------

  /** One action of the user, with what the page knows at that moment. */
  datatype Action =
    | Toggle(key: Key, pick: Pick, maintenance: bool)
    | Offer(key: Key, known: Option<Pick>, available: bool)
    | TickRoot(id: nat, listing: seq<(string, Pick)>)
    | Untick(id: nat)

  function Put(sel: Selection, k: Key, pick: Pick): Selection {
    (if pick.isDirectory then ClearedInside(sel, k.id, TextOf(k)) else sel)[k := pick]
  }

  function RootPicks(id: nat, listing: seq<(string, Pick)>): (r: Selection)
    ensures forall k :: k in r ==> k.id == id && k.directory == "" && exists i :: 0 <= i < |listing| && listing[i].0 == k.name
  {
    if listing == [] then map[]
    else
      var n := |listing| - 1;
      RootPicks(id, listing[..n])[Key(id, "", listing[n].0) := listing[n].1]
  }

  ghost function After(sel: Selection, a: Action): Selection {
    match a
    case Toggle(k, pick, maintenance) =>
      if maintenance || Carried(sel, k.id, Names(k.directory)) then sel
      else if k in sel then sel - {k}
      else Put(sel, k, pick)
    case Offer(k, known, available) =>
      if !available || Carried(sel, k.id, Names(k.directory)) then sel
      else Put(sel, k, if known.Some? then known.value else Pick(false, 0, 0))
    case TickRoot(id, listing) => OfOthers(sel, id) + RootPicks(id, listing)
    case Untick(id) => OfOthers(sel, id)
  }

  predicate FromListing(a: Action) {
    match a
    case Toggle(k, _, _) => IsKey(k)
    case Offer(k, _, _) => IsKey(k)
    case TickRoot(_, listing) => forall i :: 0 <= i < |listing| ==> IsName(listing[i].0)
    case Untick(_) => true
  }

  /** The action does not tick, as a file, something that has ticked entries
      inside it. */
  ghost predicate Plain(sel: Selection, a: Action) {
    match a
    case Toggle(k, pick, maintenance) => maintenance || pick.isDirectory || !HoldsTicked(sel, k.id, PathOf(k))
    case Offer(k, known, available) =>
      !available || (known.Some? && known.value.isDirectory) || !HoldsTicked(sel, k.id, PathOf(k))
    case _ => true
  }

  lemma PutKeepsAntichain(sel: Selection, k: Key, pick: Pick)
    requires Antichain(sel) && IsKey(k) && !Carried(sel, k.id, Names(k.directory))
    ensures Antichain(Put(sel, k, pick)) <==> pick.isDirectory || !HoldsTicked(sel, k.id, PathOf(k))
  {
    var after := Put(sel, k, pick);
    forall a | a in after && a.id == k.id && a != k
      ensures !(PathOf(a) <= PathOf(k))
      ensures PathOf(k) <= PathOf(a) ==> PathOf(k) != PathOf(a)
      ensures pick.isDirectory ==> !(PathOf(k) <= PathOf(a))
    {
      InsideIsBelow(a, k);
      InsideIsBelow(k, a);
      if PathOf(a) == PathOf(k) {
        PathIsInjective(a, k);
      }
    }
    if !pick.isDirectory && HoldsTicked(sel, k.id, PathOf(k)) {
      var x :| x in sel && x.id == k.id && PathOf(k) <= PathOf(x) && PathOf(k) != PathOf(x);
      assert x in after && k in after && x != k;
    }
  }

  /** Below something carried, and below something ticked, nothing is ticked. */
  lemma NothingBelow(sel: Selection, k: Key)
    requires Antichain(sel) && IsKey(k) && (Carried(sel, k.id, Names(k.directory)) || k in sel)
    ensures !HoldsTicked(sel, k.id, PathOf(k))
  {
  }

  /** An action leaves nothing ticked under anything ticked exactly when it does
      not tick, as a file, something with ticked entries inside it. */
  lemma ActionKeepsAntichain(sel: Selection, a: Action)
    requires Antichain(sel) && FromListing(a)
    ensures Antichain(After(sel, a)) <==> Plain(sel, a)
  {
    match a
    case Toggle(k, pick, maintenance) =>
      if !maintenance {
        if Carried(sel, k.id, Names(k.directory)) || k in sel {
          NothingBelow(sel, k);
        } else {
          PutKeepsAntichain(sel, k, pick);
        }
      }
    case Offer(k, known, available) =>
      if available {
        if Carried(sel, k.id, Names(k.directory)) {
          NothingBelow(sel, k);
        } else {
          PutKeepsAntichain(sel, k, if known.Some? then known.value else Pick(false, 0, 0));
        }
      }
    case TickRoot(id, listing) =>
      RootKeepsAntichain(sel, id, listing);
    case Untick(id) =>
  }

  lemma RootKeepsAntichain(sel: Selection, id: nat, listing: seq<(string, Pick)>)
    requires Antichain(sel) && forall i :: 0 <= i < |listing| ==> IsName(listing[i].0)
    ensures Antichain(OfOthers(sel, id) + RootPicks(id, listing))
  {
    RootPicksAreKeys(id, listing);
    BesideEachOther(OfOthers(sel, id), RootPicks(id, listing), id);
  }

  lemma RootPicksAreKeys(id: nat, listing: seq<(string, Pick)>)
    requires forall i :: 0 <= i < |listing| ==> IsName(listing[i].0)
    ensures forall k :: k in RootPicks(id, listing) ==> IsKey(k) && PathOf(k) == [k.name]
  {
    forall k | k in RootPicks(id, listing) ensures IsKey(k) && PathOf(k) == [k.name] {
      var i :| 0 <= i < |listing| && listing[i].0 == k.name;
    }
  }

  /** Entries of different containers never lie in each other, and entries of one
      root do not either. */
  lemma BesideEachOther(others: Selection, root: Selection, id: nat)
    requires Antichain(others) && forall k :: k in others ==> k.id != id
    requires forall k :: k in root ==> IsKey(k) && k.id == id && k.directory == "" && PathOf(k) == [k.name]
    ensures Antichain(others + root)
  {
    forall a: Key, b: Key | a in others + root && b in others + root && a.id == b.id && a != b ensures !(PathOf(a) <= PathOf(b)) {
      assert a.id == id ==> a in root && b in root;
      assert a.id != id ==> a in others && b in others;
      assert [a.name] <= [b.name] ==> a.name == [b.name][0];
    }
  }

  // -- Any run of actions --------------------------------------------------------------------------------

  ghost function AfterAll(sel: Selection, actions: seq<Action>): Selection {
    if actions == [] then sel else After(AfterAll(sel, actions[..|actions| - 1]), actions[|actions| - 1])
  }

  /** Nothing ticked ever lies under anything ticked, at any moment of the run. */
  ghost predicate AlwaysAntichain(actions: seq<Action>) {
    forall n :: 0 <= n <= |actions| ==> Antichain(AfterAll(map[], actions[..n]))
  }

  /** No action ticks, as a file, something with ticked entries inside it. */
  ghost predicate AlwaysPlain(actions: seq<Action>) {
    forall i :: 0 <= i < |actions| ==> Plain(AfterAll(map[], actions[..i]), actions[i])
  }

  lemma OneMoreAction(actions: seq<Action>, i: nat)
    requires i < |actions| && FromListing(actions[i]) && Antichain(AfterAll(map[], actions[..i]))
    ensures Antichain(AfterAll(map[], actions[..i + 1])) <==> Plain(AfterAll(map[], actions[..i]), actions[i])
  {
    assert actions[..i + 1][..i] == actions[..i];
    ActionKeepsAntichain(AfterAll(map[], actions[..i]), actions[i]);
  }

  lemma {:induction false} PlainSoFar(actions: seq<Action>, n: nat)
    requires n <= |actions| && forall i :: 0 <= i < |actions| ==> FromListing(actions[i])
    requires AlwaysPlain(actions)
    ensures Antichain(AfterAll(map[], actions[..n]))
  {
    if n > 0 {
      PlainSoFar(actions, n - 1);
      OneMoreAction(actions, n - 1);
    }
  }

  /** However long the page is used: nothing ticked ever lies under anything
      ticked, exactly when no action of the run ticks a folder with ticked
      entries as a file. */
  lemma RunKeepsAntichain(actions: seq<Action>)
    requires forall i :: 0 <= i < |actions| ==> FromListing(actions[i])
    ensures AlwaysAntichain(actions) <==> AlwaysPlain(actions)
  {
    if AlwaysAntichain(actions) {
      forall i | 0 <= i < |actions| ensures Plain(AfterAll(map[], actions[..i]), actions[i]) {
        OneMoreAction(actions, i);
      }
    }
    if AlwaysPlain(actions) {
      forall n | 0 <= n <= |actions| ensures Antichain(AfterAll(map[], actions[..n])) {
        PlainSoFar(actions, n);
      }
    }
  }

  /** The run that breaks it: a file inside a folder is ticked, and the file
      manager then hands over the folder without knowing what it is. */
  lemma UnknownFolderBreaksAntichain()
    ensures var inner, folder := Key(1, "a", "b"), Key(1, "", "a");
      !Antichain(AfterAll(map[], [Toggle(inner, Pick(false, 1, 1), false), Offer(folder, None, true)]))
  {
    var inner, folder := Key(1, "a", "b"), Key(1, "", "a");
    var ticked := Toggle(inner, Pick(false, 1, 1), false);
    SplitOfOne("a", SLASH);
    assert [ticked, Offer(folder, None, true)][..1] == [ticked];
    assert AfterAll(map[], [ticked]) == map[inner := Pick(false, 1, 1)];
    assert PathOf(folder) == ["a"] && PathOf(inner) == ["a", "b"];
    assert HoldsTicked(map[inner := Pick(false, 1, 1)], 1, PathOf(folder));
    ActionKeepsAntichain(map[inner := Pick(false, 1, 1)], Offer(folder, None, true));
  }

  // -- The page's own state --------------------------------------------------------------------------------

  class Page {
    var selection: Selection

    constructor ()
      ensures selection == map[] && Antichain(selection)
    {
      selection := map[];
    }

    method ClearInside(id: nat, path: string)
      modifies this
      ensures selection == ClearedInside(old(selection), id, path)
    {
      var todo := selection.Keys;
      while todo != {}
        invariant todo <= selection.Keys <= old(selection).Keys
        invariant forall k :: k in selection ==> selection[k] == old(selection)[k]
        invariant forall k :: k in old(selection) ==>
          (k in selection <==> k in todo || !InsideText(k, id, path))
        decreases todo
      {
        var k :| k in todo;
        if InsideText(k, id, path) {
          selection := selection - {k};
        }
        todo := todo - {k};
      }
    }

    method Toggle(k: Key, pick: Pick, maintenance: bool)
      requires IsKey(k)
      modifies this
      ensures selection == After(old(selection), Action.Toggle(k, pick, maintenance))
    {
      if maintenance {
        return;
      }
      var covered := CoveredBy(selection, k.id, k.directory);
      if covered {
        return;
      }
      if k in selection {
        selection := selection - {k};
      } else {
        if pick.isDirectory {
          ClearInside(k.id, TextOf(k));
        }
        selection := selection[k := pick];
      }
    }

    /** The file manager's entry; what it did not list counts as a file. */
    method Offer(k: Key, known: Option<Pick>, available: bool)
      requires IsKey(k)
      modifies this
      ensures selection == After(old(selection), Action.Offer(k, known, available))
    {
      if !available {
        return;
      }
      var covered := CoveredBy(selection, k.id, k.directory);
      if !covered {
        if known.Some? && known.value.isDirectory {
          ClearInside(k.id, TextOf(k));
        }
        selection := selection[k := if known.Some? then known.value else Pick(false, 0, 0)];
      }
    }

    method UntickContainer(id: nat)
      modifies this
      ensures selection == After(old(selection), Action.Untick(id))
    {
      var todo := selection.Keys;
      while todo != {}
        invariant todo <= selection.Keys <= old(selection).Keys
        invariant forall k :: k in selection ==> selection[k] == old(selection)[k]
        invariant forall k :: k in old(selection) ==> (k in selection <==> k in todo || k.id != id)
        decreases todo
      {
        var k :| k in todo;
        if k.id == id {
          selection := selection - {k};
        }
        todo := todo - {k};
      }
    }

    /** The whole root carries everything below it. */
    method TickContainer(id: nat, listing: seq<(string, Pick)>)
      modifies this
      ensures selection == After(old(selection), TickRoot(id, listing))
    {
      UntickContainer(id);
      ghost var others := selection;
      for i := 0 to |listing|
        invariant selection == others + RootPicks(id, listing[..i])
      {
        assert listing[..i + 1][..i] == listing[..i];
        UpdateInUnion(others, RootPicks(id, listing[..i]), Key(id, "", listing[i].0), listing[i].1);
        selection := selection[Key(id, "", listing[i].0) := listing[i].1];
      }
      assert listing[..|listing|] == listing;
    }
  }

  lemma UpdateInUnion(a: Selection, b: Selection, k: Key, pick: Pick)
    ensures (a + b)[k := pick] == a + b[k := pick]
  {
  }

  // -- What the session makes of it ------------------------------------------------------------------------

  /** Names in one directory differ by more than letter case. */
  ghost predicate UniqueUpToCase(sel: Selection) {
    forall a, b, n: nat :: a in sel && b in sel && a.id == b.id && n <= |PathOf(a)| && n <= |PathOf(b)| ==>
      (FoldAll(PathOf(a)[..n]) == FoldAll(PathOf(b)[..n]) ==> PathOf(a)[..n] == PathOf(b)[..n])
  }

  function Planned(k: Key): Plan.Entry {
    Plan.Entry(k.id, k.directory, k.name)
  }

  lemma {:induction false} SplitUnified(s: string)
    requires SEPARATOR !in s
    ensures Split(Unified(s), SEPARATOR) == Split(s, SLASH)
  {
    if s != "" {
      SplitUnified(s[1..]);
      assert Unified(s)[1..] == Unified(s[1..]);
    }
  }

  lemma {:induction false} JoinedSeparators(parts: seq<string>)
    requires forall i :: 0 <= i < |parts| ==> SEPARATOR !in parts[i]
    ensures SEPARATOR !in Join(parts, SLASH)
  {
    if |parts| > 1 {
      JoinedSeparators(parts[1..]);
    }
  }

  /** The session reads the page's directories the way the page wrote them. */
  lemma SameLocation(k: Key)
    requires IsKey(k) && Plan.Location(Planned(k)).Some?
    ensures !Plan.EndsInSeparator(k.directory) && Plan.Location(Planned(k)).value == PathOf(k)
  {
    if k.directory != "" {
      var parts := Names(k.directory);
      SplitJoins(k.directory, SLASH);
      JoinedSeparators(parts);
      SplitUnified(k.directory);
      LastNameIsLast(k.directory);
    }
  }

  lemma LastNameIsLast(directory: string)
    requires SEPARATOR !in directory
    ensures Plan.EndsInSeparator(directory) ==> Split(directory, SLASH)[|Split(directory, SLASH)| - 1] == ""
  {
  }

  /** Whatever the page holds passes the session's overlap test. */
  lemma PageSelectionPasses(sel: Selection, keys: seq<Key>, entries: seq<Plan.Entry>)
    requires Antichain(sel) && UniqueUpToCase(sel)
    requires |entries| == |keys| && forall i :: 0 <= i < |keys| ==>
      keys[i] in sel && entries[i] == Planned(keys[i]) && Plan.Location(entries[i]).Some?
    requires forall i, j :: 0 <= i < j < |keys| ==> keys[i] != keys[j]
    ensures Plan.Disjoint(entries)
  {
    forall j | 0 <= j < |entries| ensures Plan.Clear(entries, j) {
      forall i | 0 <= i < j ensures !Plan.Overlap(entries[i], entries[j]) {
        SameLocation(keys[i]);
        SameLocation(keys[j]);
        Plan.TestIsExact(entries[i], entries[j]);
        NotWithin(sel, keys[i], keys[j]);
        NotWithin(sel, keys[j], keys[i]);
      }
    }
  }

  lemma NotWithin(sel: Selection, a: Key, b: Key)
    requires Antichain(sel) && UniqueUpToCase(sel) && a in sel && b in sel && a != b
    ensures a.id == b.id ==> !(FoldAll(PathOf(a)) <= FoldAll(PathOf(b)))
  {
    assert PathOf(a)[..|PathOf(a)|] == PathOf(a);
    FoldedPrefix(PathOf(a), PathOf(b));
  }

  lemma FoldedPrefix(p: seq<string>, q: seq<string>)
    ensures FoldAll(p) <= FoldAll(q) ==> |p| <= |q| && FoldAll(q[..|p|]) == FoldAll(p)
  {
  }
}
