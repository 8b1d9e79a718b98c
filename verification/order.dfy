/** The saved order of the list: dragging it into a new order, and finding it
    again at the next login (card_login_mount_session.cpp:1752-1902). */
module SessionOrder {
  import opened Wrappers
  import opened Permutations
  import opened ContainerIndex
  import opened ContainerTable
  import opened WriteAhead
  import opened VaultRuntime
  import opened Session

  // -- Rearranging the list ----------------------------------------------------------------

  /** A rearrangement touches no mount. */
  lemma RearrangedTable(rows: seq<Row>, at: seq<nat>, nextId: nat, nextRevision: nat)
    requires TableOk(rows, nextId, nextRevision) && IsPermutation(at, |rows|)
    ensures var after := Rearranged(rows, at);
            && TableOk(after, nextId, nextRevision)
            && Evolves(rows, nextRevision, after, nextRevision)
            && MountedLetters(after) == MountedLetters(rows)
  {
    var after := Rearranged(rows, at);
    EmbeddedTable(after, rows, at, nextId, nextRevision);
    forall c | c in MountedLetters(rows) ensures c in MountedLetters(after) {
      var k :| 0 <= k < |rows| && rows[k].mounted && rows[k].letter == c;
      var i := HitsEverything(at, |rows|, k);
      assert after[i] == rows[k];
    }
  }

  method Rearrange(s: SessionCore, at: seq<nat>)
    requires s.Valid() && IsPermutation(at, |s.rows|)
    modifies s`rows
    ensures s.Valid() && Evolves(old(s.rows), s.nextRevision, s.rows, s.nextRevision)
    ensures s.rows == Rearranged(old(s.rows), at)
  {
    RearrangedTable(s.rows, at, s.nextId, s.nextRevision);
    s.rows := Rearranged(s.rows, at);
  }

  // -- Reordering by identifiers -------------------------------------------------------------

  /** Every row is named exactly once. */
  ghost predicate NamesEachOnce(ids: seq<nat>, rows: seq<Row>) {
    && |ids| == |rows|
    && (forall i :: 0 <= i < |ids| ==> FindById(rows, ids[i]) < |rows|)
    && (forall i, j :: 0 <= i < j < |ids| ==> ids[i] != ids[j])
  }

  function Places(ids: seq<nat>, rows: seq<Row>): (at: seq<nat>)
    ensures |at| == |ids| && forall i :: 0 <= i < |ids| ==> at[i] == FindById(rows, ids[i])
  {
    seq(|ids|, i requires 0 <= i < |ids| => FindById(rows, ids[i]))
  }

  lemma NamedOnceIsPermutation(ids: seq<nat>, rows: seq<Row>)
    requires NamesEachOnce(ids, rows)
    ensures IsPermutation(Places(ids, rows), |rows|)
    ensures forall i :: 0 <= i < |ids| ==> Rearranged(rows, Places(ids, rows))[i].id == ids[i]
  {
  }

  /** Walks over the identifiers the way a caller gives them. */
  method FindPlaces(rows: seq<Row>, ids: seq<nat>) returns (at: Option<seq<nat>>)
    requires |ids| == |rows|
    ensures at.Some? <==> NamesEachOnce(ids, rows)
    ensures at.Some? ==> at.value == Places(ids, rows)
  {
    var found: seq<nat> := [];
    for i := 0 to |ids|
      invariant |found| == i
      invariant forall j :: 0 <= j < i ==> found[j] == FindById(rows, ids[j]) < |rows|
      invariant forall j, k :: 0 <= j < k < i ==> ids[j] != ids[k]
    {
      var k := FindById(rows, ids[i]);
      if k == |rows| || ids[i] in ids[..i] {
        return None;
      }
      found := found + [k];
    }
    return Some(found);
  }

  // -- What is written down ------------------------------------------------------------------

  function TargetsOf(rows: seq<Row>): (r: seq<Target>)
    ensures |r| == |rows| && forall i :: 0 <= i < |r| ==> r[i] == rows[i].target
  {
    seq(|rows|, i requires 0 <= i < |rows| => rows[i].target)
  }

  /** File containers the index does not know yet get a record. */
  method AddMissing(ix: Index, refs: seq<Target>) returns (r: Option<Index>)
    requires Unambiguous(ix)
    ensures r.Some? ==> KeepsStates(ix, r.value) && Extends(ix, r.value)
    ensures r.Some? ==> forall t :: t in refs && t.File? ==> Known(r.value, t)
  {
    var all := ix;
    for i := 0 to |refs|
      invariant KeepsStates(ix, all) && Extends(ix, all)
      invariant forall t :: t in refs[..i] && t.File? ==> Known(all, t)
    {
      if refs[i].File? && !Known(ix, refs[i]) {
        match AddPath(all, refs[i].path)
        case Full => return None;
        case AlreadyPresent =>
        case Added(more, _) =>
          AddEffect(all, refs[i].path);
          ExtendsKnown(all, more);
          assert more[|all|].target == refs[i] && Rank(more, refs[i]) <= |all|;
          all := more;
      } else if refs[i].File? {
        ExtendsKnown(ix, all);
      }
    }
    assert refs[..|refs|] == refs;
    return Some(all);
  }

  /** The same records in the same order, with more after them. */
  predicate Extends(ix: Index, more: Index) {
    ix <= more && forall i :: |ix| <= i < |more| ==> more[i].target.File?
  }

  lemma ExtendsKnown(ix: Index, more: Index)
    requires ix <= more
    ensures forall t :: Known(ix, t) ==> Known(more, t)
  {
  }

  /** What of the order can be written down: a partition without a record is
      left out rather than refusing the whole arrangement. */
  function RecordedOnly(ix: Index, refs: seq<Target>): (r: seq<Target>)
    ensures forall t :: t in r <==> t in refs && (t.File? || Known(ix, t))
    ensures (forall t :: t in refs ==> t.File? || Known(ix, t)) ==> r == refs
  {
    if refs == [] then []
    else (if refs[0].File? || Known(ix, refs[0]) then [refs[0]] else []) + RecordedOnly(ix, refs[1..])
  }

  /** The index ranks the named targets first, in this order. */
  ghost predicate Ranks(ix: Index, refs: seq<Target>) {
    |refs| <= |ix| && forall i :: 0 <= i < |refs| ==> Rank(ix, refs[i]) == i
  }

  method SaveOrder(s: SessionCore, refs: seq<Target>) returns (failure: Option<Error>)
    requires s.Valid()
    modifies s.rt`index, s.rt`trace, s.rt`faults
    ensures s.Valid()
    ensures failure.Some? ==> s.rt.index == old(s.rt.index)
    ensures failure.None? ==>
      && Ranks(s.rt.index, RecordedOnly(old(s.rt.index), refs))
      && (forall r :: r in old(s.rt.index) ==> r in s.rt.index)
      && (forall p :: StateOf(s.rt.index, p) == StateOf(old(s.rt.index), p))
  {
    var read := s.rt.ReadIndex();
    if read.Err? {
      return Some(read.error);
    }
    var added := AddMissing(read.value, refs);
    if added.None? {
      return Some(WrongState);
    }
    var named := RecordedOnly(read.value, refs);
    if !Orderable(added.value, named) {
      return Some(InvalidArgument);
    }
    ReorderedRecords(added.value, named);
    failure := s.SaveIndex(Reordered(added.value, named));
  }

  /** The whole list in a new order. Whatever fails, list and index stay as they
      were. */
  method ReorderContainers(s: SessionCore, ids: seq<nat>) returns (failure: Option<Error>)
    requires s.Valid()
    modifies s`rows, s.rt`index, s.rt`trace, s.rt`faults
    ensures s.Valid() && Evolves(old(s.rows), s.nextRevision, s.rows, s.nextRevision)
    ensures failure.Some? ==> s.rows == old(s.rows) && s.rt.index == old(s.rt.index)
    ensures failure.None? ==>
      && NamesEachOnce(ids, old(s.rows)) && s.rows == Rearranged(old(s.rows), Places(ids, old(s.rows)))
      && (s.rt.remembers ==> Ranks(s.rt.index, RecordedOnly(old(s.rt.index), TargetsOf(s.rows)))
                             && forall r :: r in old(s.rt.index) ==> r in s.rt.index)
    ensures !s.rt.remembers ==>
      && s.rt.index == old(s.rt.index)
      && (failure.None? <==> s.auth.Authenticated() && 0 < |ids| <= INDEX_CAPACITY && NamesEachOnce(ids, old(s.rows)))
  {
    if !s.auth.Authenticated() {
      return Some(NotAuthenticated);
    }
    if ids == [] || |ids| != |s.rows| || |ids| > INDEX_CAPACITY {
      return Some(InvalidArgument);
    }
    var at := FindPlaces(s.rows, ids);
    if at.None? {
      return Some(InvalidArgument);
    }
    NamedOnceIsPermutation(ids, s.rows);
    if s.rt.remembers {
      failure := SaveOrder(s, TargetsOf(Rearranged(s.rows, at.value)));
      if failure.Some? {
        return;
      }
    }
    Rearrange(s, at.value);
    return None;
  }
}
