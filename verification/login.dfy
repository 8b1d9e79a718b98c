/** Logging in, and finding the list as it was left
    (card_login_mount_session.cpp:1578-1629, 1826-1902). */
module SessionLogin {
  import opened Wrappers
  import opened Paths
  import opened Permutations
  import opened ContainerIndex
  import opened ContainerTable
  import opened WriteAhead
  import opened VaultRuntime
  import opened Session
  import opened SessionPartitions
  import opened SessionOrder
  import opened CardAuthentication
  import Log = OperationLog

  // -- What is adopted -------------------------------------------------------------------------

  /** Recorded partitions the list does not hold yet, in saved order. */
  function UnlistedDisks(rows: seq<Row>, ix: Index): seq<Record> {
    if ix == [] then []
    else (if ix[0].target.Disk? && !Listed(rows, ix[0].target) then [ix[0]] else []) + UnlistedDisks(rows, ix[1..])
  }

  /** Recorded files that are there and not listed yet, in saved order. */
  function UnlistedFiles(rows: seq<Row>, files: set<string>, ix: Index): seq<Record> {
    if ix == [] then []
    else
      var rest := UnlistedFiles(rows, files, ix[..|ix| - 1]);
      var last := ix[|ix| - 1];
      if last.target.File? && last.target.path in files && !Listed(rows, last.target) then rest + [last] else rest
  }

  /** A row made from a record. */
  predicate MadeFrom(row: Row, rec: Record) {
    && row == NewRow(row.id, rec.target, row.name, "", false, false, row.conversion)
    && row.conversion == (if rec.target.Disk? then rec.conversion else Normal)
    && (rec.target.File? ==> row.name == FileNameOf(rec.target.path))
    && (rec.target.Disk? && rec.sequence != 0 ==> row.name == PartitionName(rec.sequence))
  }

  ghost predicate AllMadeFrom(rows: seq<Row>, recs: seq<Record>) {
    |rows| == |recs| && forall i :: 0 <= i < |rows| ==> MadeFrom(rows[i], recs[i])
  }

  /** Before sorting: adopted partitions in front, adopted files at the end. */
  ghost predicate Adopted(before: seq<Row>, files: set<string>, ix: Index, after: seq<Row>) {
    var front := UnlistedDisks(before, ix);
    var back := UnlistedFiles(before, files, ix);
    && |after| == |front| + |before| + |back|
    && AllMadeFrom(after[..|front|], front)
    && after[|front|..|front| + |before|] == before
    && AllMadeFrom(after[|front| + |before|..], back)
  }

  predicate StandAt(before: seq<Row>, after: seq<Row>, n: nat) {
    n + |before| <= |after| && after[n..n + |before|] == before
  }

  /** The old rows stand together in the new list, as they were. */
  ghost predicate KeepsTogether(before: seq<Row>, after: seq<Row>) {
    exists n: nat :: StandAt(before, after, n)
  }

  lemma FrontKeeps(before: seq<Row>, ix: Index, after: seq<Row>)
    requires FrontAdopted(before, ix, after)
    ensures KeepsTogether(before, after)
  {
    var n := |UnlistedDisks(before, ix)|;
    assert after[n..n + |before|] == after[n..];
    assert StandAt(before, after, n);
  }

  lemma StillTogether(before: seq<Row>, middle: seq<Row>, after: seq<Row>)
    requires KeepsTogether(before, middle) && middle <= after
    ensures KeepsTogether(before, after)
  {
    var n: nat :| StandAt(before, middle, n);
    assert after[n..n + |before|] == middle[n..n + |before|];
    assert StandAt(before, after, n);
  }

  lemma UnlistedFrom(rows: seq<Row>, files: set<string>, ix: Index)
    ensures forall r :: r in UnlistedDisks(rows, ix) <==> r in ix && r.target.Disk? && !Listed(rows, r.target)
    ensures forall r :: r in UnlistedFiles(rows, files, ix) <==>
      r in ix && r.target.File? && r.target.path in files && !Listed(rows, r.target)
  {
    UnlistedDisksFrom(rows, ix);
    UnlistedFilesFrom(rows, files, ix);
  }

  lemma UnlistedDisksFrom(rows: seq<Row>, ix: Index)
    ensures forall r :: r in UnlistedDisks(rows, ix) <==> r in ix && r.target.Disk? && !Listed(rows, r.target)
  {
  }

  lemma UnlistedFilesFrom(rows: seq<Row>, files: set<string>, ix: Index)
    ensures forall r :: r in UnlistedFiles(rows, files, ix) <==>
      r in ix && r.target.File? && r.target.path in files && !Listed(rows, r.target)
  {
  }

  /** In front, the last record first, so that they end up in saved order. */
  method AdoptDisks(s: SessionCore, ix: Index) returns (complete: bool)
    requires s.Valid() && ix == s.rt.index
    modifies s`rows, s`nextId, s`nextOrdinal
    ensures s.Valid() && Evolves(old(s.rows), s.nextRevision, s.rows, s.nextRevision)
    ensures MountedLetters(s.rows) == MountedLetters(old(s.rows)) && KeepsTogether(old(s.rows), s.rows)
    ensures complete ==>
      var front := UnlistedDisks(old(s.rows), ix);
      |s.rows| == |front| + |old(s.rows)| && AllMadeFrom(s.rows[..|front|], front) && s.rows[|front|..] == old(s.rows)
  {
    ghost var before := s.rows;
    var i := |ix|;
    while i > 0
      invariant 0 <= i <= |ix|
      invariant s.Valid() && Evolves(before, s.nextRevision, s.rows, s.nextRevision)
      invariant MountedLetters(s.rows) == MountedLetters(before)
      invariant FrontAdopted(before, ix[i..], s.rows)
    {
      FrontKeeps(before, ix[i..], s.rows);
      i := i - 1;
      if ix[i].target.Disk? {
        if !ValidPartition(ix[i].target.partition) {
          return false;
        }
        AdoptDisk(s, i, before);
      } else {
        assert UnlistedDisks(before, ix[i..]) == UnlistedDisks(before, ix[i + 1..]);
      }
    }
    FrontKeeps(before, ix[i..], s.rows);
    return true;
  }

  /** A listed partition already says what its record says. */
  method AdoptDisk(s: SessionCore, i: nat, ghost before: seq<Row>)
    requires s.Valid() && i < |s.rt.index| && s.rt.index[i].target.Disk?
    requires Evolves(before, s.nextRevision, s.rows, s.nextRevision) && MountedLetters(s.rows) == MountedLetters(before)
    requires FrontAdopted(before, s.rt.index[i + 1..], s.rows)
    modifies s`rows, s`nextId, s`nextOrdinal
    ensures s.Valid() && Evolves(before, s.nextRevision, s.rows, s.nextRevision)
    ensures MountedLetters(s.rows) == MountedLetters(before)
    ensures FrontAdopted(before, s.rt.index[i..], s.rows)
  {
    var record := s.rt.index[i];
    ghost var later := s.rt.index[i + 1..];
    assert s.rt.index[i..] == [record] + later;
    OthersDiffer(s.rt.index, i);
    FrontLists(before, later, s.rows, record.target);
    if FindTarget(s.rows, record.target) == |s.rows| {
      RankIsUnique(s.rt.index, record.target, i);
      var id := AdoptPartition(s, record.target.partition, record.sequence, record.conversion);
      EvolvesTransitively(before, s.nextRevision, old(s.rows), s.nextRevision, s.rows, s.nextRevision);
      FrontGrows(before, later, old(s.rows), record, s.rows[0]);
    }
  }

  lemma OthersDiffer(ix: Index, i: nat)
    requires Unambiguous(ix) && i < |ix|
    ensures forall r :: r in ix[..i] || r in ix[i + 1..] ==> r.target != ix[i].target
  {
  }

  lemma FrontGrows(before: seq<Row>, later: Index, listed: seq<Row>, record: Record, row: Row)
    requires FrontAdopted(before, later, listed) && record.target.Disk? && !Listed(before, record.target)
    requires MadeFrom(row, record)
    ensures FrontAdopted(before, [record] + later, [row] + listed)
  {
  }

  ghost predicate FrontAdopted(before: seq<Row>, ix: Index, after: seq<Row>) {
    var front := UnlistedDisks(before, ix);
    |after| == |front| + |before| && AllMadeFrom(after[..|front|], front) && after[|front|..] == before
  }

  lemma FrontLists(before: seq<Row>, ix: Index, after: seq<Row>, t: Target)
    requires FrontAdopted(before, ix, after)
    requires forall r :: r in ix ==> r.target != t
    ensures Listed(after, t) <==> Listed(before, t)
  {
    var front := UnlistedDisks(before, ix);
    UnlistedDisksFrom(before, ix);
    forall k | 0 <= k < |front| ensures after[k].target != t {
      assert MadeFrom(after[..|front|][k], front[k]) && front[k] in front;
    }
    forall k | 0 <= k < |before| ensures after[|front| + k] == before[k] {
      assert after[|front|..][k] == before[k];
    }
    if k :| 0 <= k < |after| && after[k].target == t {
      assert before[k - |front|].target == t;
    }
  }

  method AppendFile(s: SessionCore, path: string, releaseFirst: bool, known: bool)
    requires s.Valid() && !Listed(s.rows, File(path)) && !AnyMounted(s.rows)
    modifies s`rows, s`nextId
    ensures s.Valid() && Evolves(old(s.rows), s.nextRevision, s.rows, s.nextRevision) && !AnyMounted(s.rows)
    ensures s.rows == old(s.rows) + [NewRow(old(s.nextId), File(path), FileNameOf(path), "", releaseFirst, known, Normal)]
    ensures s.nextId == old(s.nextId) + 1
  {
    var row := NewRow(s.nextId, File(path), FileNameOf(path), "", releaseFirst, known, Normal);
    InsertKeepsTable(s.rows, |s.rows|, row, s.nextId, s.nextRevision);
    assert s.rows[..|s.rows|] + [row] + s.rows[|s.rows|..] == s.rows + [row];
    s.rows := s.rows + [row];
    s.nextId := s.nextId + 1;
  }

  /** What listing a path again makes of its row: it stands as unmounted. */
  function AdoptedAgain(row: Row, releaseFirst: bool, known: bool): Row {
    row.(letter := NO_LETTER, mounted := false,
         releaseFirst := row.releaseFirst || releaseFirst, derivationKnown := row.derivationKnown || known)
  }

  /** A recorded file that is listed keeps its row exactly when it is not
      mounted: nothing but the guard of the login keeps a mounted row's volume
      on it. */
  lemma AdoptingForgetsMount(row: Row, nextId: nat, nextRevision: nat)
    requires RowOk(row, nextId, nextRevision)
    ensures AdoptedAgain(row, false, false) == row <==> !row.mounted
  {
  }

  ghost predicate BackAdopted(before: seq<Row>, files: set<string>, ix: Index, after: seq<Row>) {
    before <= after && AllMadeFrom(after[|before|..], UnlistedFiles(before, files, ix))
  }

  lemma BackLists(before: seq<Row>, files: set<string>, ix: Index, after: seq<Row>, t: Target)
    requires BackAdopted(before, files, ix, after)
    requires forall r :: r in ix ==> r.target != t
    ensures Listed(after, t) <==> Listed(before, t)
  {
    var back := UnlistedFiles(before, files, ix);
    UnlistedFilesFrom(before, files, ix);
    forall k | |before| <= k < |after| ensures after[k].target != t {
      assert MadeFrom(after[|before|..][k - |before|], back[k - |before|]) && back[k - |before|] in back;
    }
    if k :| 0 <= k < |before| && before[k].target == t {
      assert after[k].target == t;
    }
  }

  lemma BackGrows(before: seq<Row>, files: set<string>, earlier: Index, listed: seq<Row>, record: Record, row: Row)
    requires BackAdopted(before, files, earlier, listed) && record.target.File? && record.target.path in files
    requires !Listed(before, record.target) && MadeFrom(row, record)
    ensures BackAdopted(before, files, earlier + [record], listed + [row])
  {
  }

  /** A recorded file that is not there is passed over and stays recorded. */
  method AdoptFiles(s: SessionCore, ix: Index) returns (complete: bool)
    requires s.Valid() && Unambiguous(ix) && !AnyMounted(s.rows)
    modifies s`rows, s`nextId
    ensures s.Valid() && Evolves(old(s.rows), s.nextRevision, s.rows, s.nextRevision) && !AnyMounted(s.rows)
    ensures complete ==> BackAdopted(old(s.rows), s.rt.files, ix, s.rows)
    ensures old(s.rows) <= s.rows
  {
    ghost var before := s.rows;
    for i := 0 to |ix|
      invariant s.Valid() && Evolves(before, s.nextRevision, s.rows, s.nextRevision) && !AnyMounted(s.rows)
      invariant BackAdopted(before, s.rt.files, ix[..i], s.rows)
    {
      assert ix[..i + 1] == ix[..i] + [ix[i]] && ix[..i + 1][..i] == ix[..i];
      if ix[i].target.File? {
        var present := s.rt.Exists(ix[i].target.path);
        if present.Err? {
          return false;
        }
        if present.value {
          AdoptFile(s, ix, i, before);
        }
      }
    }
    assert ix[..|ix|] == ix;
    return true;
  }

  method AdoptFile(s: SessionCore, ix: Index, i: nat, ghost before: seq<Row>)
    requires s.Valid() && Unambiguous(ix) && i < |ix| && ix[i].target.File? && ix[i].target.path in s.rt.files
    requires Evolves(before, s.nextRevision, s.rows, s.nextRevision) && !AnyMounted(s.rows)
    requires BackAdopted(before, s.rt.files, ix[..i], s.rows)
    modifies s`rows, s`nextId
    ensures s.Valid() && Evolves(before, s.nextRevision, s.rows, s.nextRevision) && !AnyMounted(s.rows)
    ensures BackAdopted(before, s.rt.files, ix[..i + 1], s.rows)
  {
    var record := ix[i];
    assert ix[..i + 1] == ix[..i] + [record] && ix[..i + 1][..i] == ix[..i];
    OthersDiffer(ix, i);
    BackLists(before, s.rt.files, ix[..i], s.rows, record.target);
    var k := FindTarget(s.rows, record.target);
    if k < |s.rows| {
      AdoptingForgetsMount(s.rows[k], s.nextId, s.nextRevision);
      s.rows := s.rows[k := AdoptedAgain(s.rows[k], false, false)];
      assert s.rows == old(s.rows);
    } else {
      AppendFile(s, record.target.path, false, false);
      EvolvesTransitively(before, s.nextRevision, old(s.rows), s.nextRevision, s.rows, s.nextRevision);
      BackGrows(before, s.rt.files, ix[..i], old(s.rows), record, s.rows[|s.rows| - 1]);
    }
  }

  lemma SameUnlistedFiles(a: seq<Row>, b: seq<Row>, files: set<string>, ix: Index)
    requires forall r :: r in ix && r.target.File? ==> (Listed(a, r.target) <==> Listed(b, r.target))
    ensures UnlistedFiles(a, files, ix) == UnlistedFiles(b, files, ix)
  {
  }

  lemma BothAdopted(before: seq<Row>, files: set<string>, ix: Index, middle: seq<Row>, after: seq<Row>)
    requires FrontAdopted(before, ix, middle) && BackAdopted(middle, files, ix, after)
    ensures Adopted(before, files, ix, after)
  {
    var n := |UnlistedDisks(before, ix)|;
    UnlistedDisksFrom(before, ix);
    forall r | r in ix && r.target.File? ensures Listed(middle, r.target) <==> Listed(before, r.target) {
      forall k | 0 <= k < n ensures middle[k].target != r.target {
        assert MadeFrom(middle[..n][k], UnlistedDisks(before, ix)[k]) && UnlistedDisks(before, ix)[k] in UnlistedDisks(before, ix);
      }
      if k :| 0 <= k < |before| && before[k].target == r.target {
        assert middle[n + k] == middle[n..][k];
      }
      if k :| 0 <= k < |middle| && middle[k].target == r.target {
        assert before[k - n] == middle[n..][k - n];
      }
    }
    SameUnlistedFiles(middle, before, files, ix);
    assert after[..n] == middle[..n];
    assert after[n..n + |before|] == middle[n..];
  }

  // -- Sorting by saved rank ------------------------------------------------------------------

  datatype Position = Position(at: nat, rank: nat)

  /** Into a sorted list, after everything of the same rank. */
  function Placed(sorted: seq<Position>, p: Position): (r: seq<Position>)
    ensures |r| == |sorted| + 1
  {
    var n := |sorted|;
    if n == 0 || sorted[n - 1].rank <= p.rank then sorted + [p]
    else Placed(sorted[..n - 1], p) + [sorted[n - 1]]
  }

  function StableSorted(ps: seq<Position>): (r: seq<Position>)
    ensures |r| == |ps|
  {
    if ps == [] then [] else Placed(StableSorted(ps[..|ps| - 1]), ps[|ps| - 1])
  }

  predicate Earlier(a: Position, b: Position) {
    a.rank < b.rank || (a.rank == b.rank && a.at < b.at)
  }

  predicate InOrder(ps: seq<Position>) {
    forall i, j :: 0 <= i < j < |ps| ==> Earlier(ps[i], ps[j])
  }

  lemma {:induction false} PlacedInOrder(sorted: seq<Position>, p: Position)
    requires InOrder(sorted) && forall q :: q in sorted ==> q.at < p.at
    ensures InOrder(Placed(sorted, p))
    ensures forall q :: q in Placed(sorted, p) <==> q == p || q in sorted
  {
    var n := |sorted|;
    if n != 0 && sorted[n - 1].rank > p.rank {
      var front, last := sorted[..n - 1], sorted[n - 1];
      assert sorted == front + [last];
      PlacedInOrder(front, p);
      var inner := Placed(front, p);
      forall i | 0 <= i < |inner| ensures Earlier(inner[i], last) {
        assert inner[i] in inner;
      }
    } else {
      forall i | 0 <= i < n ensures Earlier(sorted[i], p) {
        assert sorted[i] in sorted;
        assert i < n - 1 ==> Earlier(sorted[i], sorted[n - 1]);
      }
    }
  }

  lemma {:induction false} SortedInOrder(ps: seq<Position>)
    requires forall i, j :: 0 <= i < j < |ps| ==> ps[i].at < ps[j].at
    ensures InOrder(StableSorted(ps))
    ensures forall q :: q in StableSorted(ps) <==> q in ps
  {
    if ps != [] {
      var front, last := ps[..|ps| - 1], ps[|ps| - 1];
      assert ps == front + [last];
      SortedInOrder(front);
      PlacedInOrder(StableSorted(front), last);
    }
  }

  function PositionsOf(rows: seq<Row>, ix: Index): (r: seq<Position>)
    ensures |r| == |rows| && forall k :: 0 <= k < |r| ==> r[k] == Position(k, Rank(ix, rows[k].target))
  {
    seq(|rows|, k requires 0 <= k < |rows| => Position(k, Rank(ix, rows[k].target)))
  }

  /** Where each row of the sorted list comes from. */
  function SavedOrder(rows: seq<Row>, ix: Index): (at: seq<nat>)
    ensures |at| == |rows|
  {
    var sorted := StableSorted(PositionsOf(rows, ix));
    seq(|sorted|, i requires 0 <= i < |sorted| => sorted[i].at)
  }

  /** A rearrangement by rank that keeps rows of equal rank, the unrecorded ones
      among them, in the order they had. */
  ghost predicate StableByRank(rows: seq<Row>, ix: Index, at: seq<nat>) {
    && IsPermutation(at, |rows|)
    && forall i, j :: 0 <= i < j < |at| ==>
         Earlier(Position(at[i], Rank(ix, rows[at[i]].target)), Position(at[j], Rank(ix, rows[at[j]].target)))
  }

  lemma SavedOrderIsStable(rows: seq<Row>, ix: Index)
    ensures StableByRank(rows, ix, SavedOrder(rows, ix))
  {
    var ps := PositionsOf(rows, ix);
    var sorted, at := StableSorted(ps), SavedOrder(rows, ix);
    SortedInOrder(ps);
    forall i | 0 <= i < |sorted| ensures at[i] < |rows| && sorted[i] == Position(at[i], Rank(ix, rows[at[i]].target)) {
      assert sorted[i] in ps;
    }
    forall i, j | 0 <= i < j < |at| ensures at[i] != at[j] && Earlier(sorted[i], sorted[j]) {
      assert Earlier(sorted[i], sorted[j]);
    }
  }

  /** Rows of recorded containers show the recorded names. */
  function WithSavedNames(rows: seq<Row>, ix: Index): (r: seq<Row>)
    ensures |r| == |rows|
    ensures OnlyRenamed(rows, r)
  {
    seq(|rows|, i requires 0 <= i < |rows| =>
      var k := Rank(ix, rows[i].target);
      if k < |ix| then rows[i].(alias := ix[k].name) else rows[i])
  }

  lemma RenamedTable(rows: seq<Row>, after: seq<Row>, nextId: nat, nextRevision: nat)
    requires TableOk(rows, nextId, nextRevision) && OnlyRenamed(rows, after)
    ensures TableOk(after, nextId, nextRevision)
    ensures Evolves(rows, nextRevision, after, nextRevision)
    ensures MountedLetters(after) == MountedLetters(rows)
  {
  }

  method ApplyNames(s: SessionCore, ix: Index)
    requires s.Valid()
    modifies s`rows
    ensures s.Valid() && Evolves(old(s.rows), s.nextRevision, s.rows, s.nextRevision)
    ensures s.rows == WithSavedNames(old(s.rows), ix)
  {
    RenamedTable(s.rows, WithSavedNames(s.rows, ix), s.nextId, s.nextRevision);
    s.rows := WithSavedNames(s.rows, ix);
  }

  function Sorted(rows: seq<Row>, ix: Index): (r: seq<Row>) {
    SavedOrderIsStable(rows, ix);
    WithSavedNames(Rearranged(rows, SavedOrder(rows, ix)), ix)
  }

  method SortBySavedOrder(s: SessionCore, ix: Index)
    requires s.Valid()
    modifies s`rows
    ensures s.Valid() && Evolves(old(s.rows), s.nextRevision, s.rows, s.nextRevision)
    ensures s.rows == Sorted(old(s.rows), ix)
  {
    SavedOrderIsStable(s.rows, ix);
    Rearrange(s, SavedOrder(s.rows, ix));
    ghost var rearranged := s.rows;
    ApplyNames(s, ix);
    EvolvesTransitively(old(s.rows), s.nextRevision, rearranged, s.nextRevision, s.rows, s.nextRevision);
  }

  // -- The whole adoption ------------------------------------------------------------------------

  /** Reads the index, numbering records that have no number yet. */
  method ReadNumbered(s: SessionCore) returns (ix: Option<Index>)
    requires s.Valid()
    modifies s.rt`index, s.rt`trace, s.rt`faults
    ensures s.Valid()
    ensures ix.Some? ==> ix.value == s.rt.index
    ensures s.rt.index == old(s.rt.index) || (NeedsNumbers(old(s.rt.index)) && s.rt.index == Numbered(old(s.rt.index)))
    ensures ix.Some? && NeedsNumbers(old(s.rt.index)) ==> s.rt.index == Numbered(old(s.rt.index))
  {
    var read := s.rt.ReadIndex();
    if read.Err? {
      return None;
    }
    if !NeedsNumbers(read.value) {
      return Some(read.value);
    }
    RelabelEffect(read.value, Numbered(read.value));
    var failure := s.SaveIndex(Numbered(read.value));
    return if failure.None? then Some(Numbered(read.value)) else None;
  }

  /** What came of the index: the recorded containers that are there are listed
      and the list is in saved order, or what was listed stands together. */
  ghost predicate Remembered(before: seq<Row>, files: set<string>, ix: Index, complete: bool, middle: seq<Row>, after: seq<Row>) {
    if complete then Adopted(before, files, ix, middle) && after == Sorted(middle, ix)
    else KeepsTogether(before, after)
  }

  /** A convenience that never fails the login: what could not be read is left
      out, and the rows found so far stay. */
  method AdoptRemembered(s: SessionCore) returns (complete: bool, ghost middle: seq<Row>)
    requires s.Valid() && !AnyMounted(s.rows)
    modifies s`rows, s`nextId, s`nextOrdinal, s.rt`index, s.rt`trace, s.rt`faults
    ensures s.Valid() && Evolves(old(s.rows), s.nextRevision, s.rows, s.nextRevision) && !AnyMounted(s.rows)
    ensures s.rt.index == old(s.rt.index) || s.rt.index == Numbered(old(s.rt.index))
    ensures Remembered(old(s.rows), s.rt.files, s.rt.index, complete, middle, s.rows)
    ensures complete ==> TableOk(middle, s.nextId, s.nextRevision)
  {
    ghost var before := s.rows;
    middle := [];
    assert StandAt(before, before, 0);
    if !s.rt.remembers {
      return false, [];
    }
    var ix := ReadNumbered(s);
    if ix.None? {
      return false, [];
    }
    complete := AdoptDisks(s, ix.value);
    NothingMounted(before, s.rows);
    if !complete {
      return false, [];
    }
    ghost var fronted := s.rows;
    complete := AdoptFiles(s, ix.value);
    middle := s.rows;
    StillTogether(before, fronted, middle);
    EvolvesTransitively(before, s.nextRevision, fronted, s.nextRevision, middle, s.nextRevision);
    if complete {
      BothAdopted(before, s.rt.files, ix.value, fronted, middle);
      SortBySavedOrder(s, ix.value);
      SortedLetters(middle, ix.value, s.nextId, s.nextRevision);
      NothingMounted(middle, s.rows);
      EvolvesTransitively(before, s.nextRevision, middle, s.nextRevision, s.rows, s.nextRevision);
    }
  }

  lemma SortedLetters(rows: seq<Row>, ix: Index, nextId: nat, nextRevision: nat)
    requires TableOk(rows, nextId, nextRevision)
    ensures MountedLetters(Sorted(rows, ix)) == MountedLetters(rows)
  {
    SavedOrderIsStable(rows, ix);
    RearrangedTable(rows, SavedOrder(rows, ix), nextId, nextRevision);
    RenamedTable(Rearranged(rows, SavedOrder(rows, ix)), Sorted(rows, ix), nextId, nextRevision);
  }

  // -- The saved order comes back ---------------------------------------------------------------

  predicate Ascending(rs: seq<nat>) {
    forall i, j :: 0 <= i < j < |rs| ==> rs[i] <= rs[j]
  }

  predicate Shared(rs: seq<nat>, n: nat) {
    exists i, j :: 0 <= i < j < |rs| && rs[i] == rs[j] < n
  }

  /** Ascending ranks that reach every number below n, and share none, start
      with exactly these numbers. */
  lemma RanksInPlace(rs: seq<nat>, n: nat)
    requires Ascending(rs) && forall v: nat :: v < n ==> v in rs
    ensures !Shared(rs, n) <==> n <= |rs| && forall i :: 0 <= i < |rs| ==> if i < n then rs[i] == i else rs[i] >= n
  {
    if !Shared(rs, n) {
      forall v: nat | v < n ensures v < |rs| && rs[v] == v {
        RankInPlace(rs, n, v);
      }
      forall i | n <= i < |rs| && n > 0 ensures rs[i] >= n {
        assert rs[n - 1] == n - 1 <= rs[i];
      }
    }
  }

  lemma {:induction false} RankInPlace(rs: seq<nat>, n: nat, v: nat)
    requires Ascending(rs) && !Shared(rs, n) && v < n && forall w: nat :: w < n ==> w in rs
    ensures v < |rs| && rs[v] == v
  {
    assert v in rs;
    var j :| 0 <= j < |rs| && rs[j] == v;
    if v > 0 {
      RankInPlace(rs, n, v - 1);
      assert j > v - 1;
      assert rs[v - 1] <= rs[v] <= rs[j];
    } else {
      assert rs[0] <= rs[j];
    }
  }

  lemma RankTellsReference(ix: Index, refs: seq<Target>, j: nat, t: Target)
    requires Unambiguous(ix) && Ranks(ix, refs) && j < |refs|
    ensures Rank(ix, t) == j <==> Matches(t, refs[j])
  {
  }

  /** A record whose container is there gets a row. */
  lemma RecordIsListed(before: seq<Row>, files: set<string>, ix: Index, middle: seq<Row>, j: nat) returns (k: nat)
    requires Adopted(before, files, ix, middle) && j < |ix|
    requires ix[j].target.File? ==> ix[j].target.path in files
    ensures k < |middle| && middle[k].target == ix[j].target
  {
    var front, back := UnlistedDisks(before, ix), UnlistedFiles(before, files, ix);
    UnlistedFrom(before, files, ix);
    if Listed(before, ix[j].target) {
      var i :| 0 <= i < |before| && before[i].target == ix[j].target;
      assert middle[|front|..|front| + |before|][i] == before[i];
      return |front| + i;
    }
    if ix[j].target.Disk? {
      assert ix[j] in front;
      k := MadeRow(middle[..|front|], front, ix[j]);
    } else {
      assert ix[j] in back;
      k := MadeRow(middle[|front| + |before|..], back, ix[j]);
      k := |front| + |before| + k;
    }
  }

  lemma MadeRow(rows: seq<Row>, recs: seq<Record>, rec: Record) returns (k: nat)
    requires AllMadeFrom(rows, recs) && rec in recs
    ensures k < |rows| && rows[k].target == rec.target
  {
    k :| 0 <= k < |recs| && recs[k] == rec;
    assert MadeFrom(rows[k], recs[k]);
  }

  lemma SharedRearranged(rs: seq<nat>, at: seq<nat>, n: nat)
    requires IsPermutation(at, |rs|)
    ensures Shared(Rearranged(rs, at), n) <==> Shared(rs, n)
  {
    var moved := Rearranged(rs, at);
    if i, j :| 0 <= i < j < |rs| && rs[i] == rs[j] < n {
      var a := HitsEverything(at, |rs|, i);
      var b := HitsEverything(at, |rs|, j);
      SharedPair(moved, a, b, n);
    }
    if i, j :| 0 <= i < j < |moved| && moved[i] == moved[j] < n {
      SharedPair(rs, at[i], at[j], n);
    }
  }

  function RanksOf(rows: seq<Row>, ix: Index): (r: seq<nat>)
    ensures |r| == |rows| && forall i :: 0 <= i < |r| ==> r[i] == Rank(ix, rows[i].target)
  {
    seq(|rows|, i requires 0 <= i < |rows| => Rank(ix, rows[i].target))
  }

  /** A row is an old one, or carries the very target of its record. */
  lemma AdoptedTargets(before: seq<Row>, files: set<string>, ix: Index, middle: seq<Row>, k: nat)
    requires Unambiguous(ix) && Adopted(before, files, ix, middle) && k < |middle|
    ensures
      || (exists i :: 0 <= i < |before| && before[i] == middle[k])
      || (Known(ix, middle[k].target) && ix[Rank(ix, middle[k].target)].target == middle[k].target)
  {
    var front, back := UnlistedDisks(before, ix), UnlistedFiles(before, files, ix);
    if k < |front| {
      FrontTarget(before, ix, middle[..|front|], k);
    } else if |front| + |before| <= k {
      BackTarget(before, files, ix, middle[|front| + |before|..], k - |front| - |before|);
    } else {
      assert before[k - |front|] == middle[|front|..|front| + |before|][k - |front|];
    }
  }

  lemma FrontTarget(before: seq<Row>, ix: Index, rows: seq<Row>, k: nat)
    requires Unambiguous(ix) && AllMadeFrom(rows, UnlistedDisks(before, ix)) && k < |rows|
    ensures Known(ix, rows[k].target) && ix[Rank(ix, rows[k].target)].target == rows[k].target
  {
    UnlistedDisksFrom(before, ix);
    assert UnlistedDisks(before, ix)[k] in UnlistedDisks(before, ix);
    MadeTarget(ix, UnlistedDisks(before, ix), rows, k);
  }

  lemma BackTarget(before: seq<Row>, files: set<string>, ix: Index, rows: seq<Row>, k: nat)
    requires Unambiguous(ix) && AllMadeFrom(rows, UnlistedFiles(before, files, ix)) && k < |rows|
    ensures Known(ix, rows[k].target) && ix[Rank(ix, rows[k].target)].target == rows[k].target
  {
    UnlistedFilesFrom(before, files, ix);
    assert UnlistedFiles(before, files, ix)[k] in UnlistedFiles(before, files, ix);
    MadeTarget(ix, UnlistedFiles(before, files, ix), rows, k);
  }

  lemma MadeTarget(ix: Index, recs: seq<Record>, rows: seq<Row>, k: nat)
    requires Unambiguous(ix) && AllMadeFrom(rows, recs) && k < |rows| && recs[k] in ix
    ensures Known(ix, rows[k].target) && ix[Rank(ix, rows[k].target)].target == rows[k].target
  {
    assert MadeFrom(rows[k], recs[k]);
    var i :| 0 <= i < |ix| && ix[i] == recs[k];
    RankIsUnique(ix, rows[k].target, i);
  }

  /** No row that was listed before names a recorded file in another spelling. */
  predicate SpelledAsRecorded(before: seq<Row>, ix: Index, refs: seq<Target>)
    requires |refs| <= |ix|
  {
    forall k, j :: 0 <= k < |before| && 0 <= j < |refs| && Matches(before[k].target, refs[j]) ==> before[k].target == ix[j].target
  }

  lemma SharedMeansRespelled(before: seq<Row>, files: set<string>, ix: Index, refs: seq<Target>, middle: seq<Row>)
    requires Unambiguous(ix) && Ranks(ix, refs) && Adopted(before, files, ix, middle)
    requires forall k, l :: 0 <= k < l < |middle| ==> middle[k].target != middle[l].target
    requires Shared(RanksOf(middle, ix), |refs|)
    ensures !SpelledAsRecorded(before, ix, refs)
  {
    var rs := RanksOf(middle, ix);
    var k, l :| 0 <= k < l < |rs| && rs[k] == rs[l] < |refs|;
    var j := rs[k];
    var other := if middle[k].target == ix[j].target then l else k;
    AdoptedTargets(before, files, ix, middle, other);
    var i :| 0 <= i < |before| && before[i] == middle[other];
    RankTellsReference(ix, refs, j, before[i].target);
  }

  lemma RespelledMeansShared(before: seq<Row>, files: set<string>, ix: Index, refs: seq<Target>, middle: seq<Row>, i: nat, j: nat)
    requires Unambiguous(ix) && Ranks(ix, refs) && Adopted(before, files, ix, middle)
    requires i < |before| && j < |refs| && Matches(before[i].target, refs[j]) && before[i].target != ix[j].target
    requires ix[j].target.File? ==> ix[j].target.path in files
    ensures Shared(RanksOf(middle, ix), |refs|)
  {
    var rs, n := RanksOf(middle, ix), |UnlistedDisks(before, ix)|;
    RankTellsReference(ix, refs, j, before[i].target);
    var k := RecordIsListed(before, files, ix, middle, j);
    RankIsUnique(ix, middle[k].target, j);
    assert middle[n + i] == middle[n..n + |before|][i] == before[i];
    SharedPair(rs, k, n + i, |refs|);
  }

  lemma SharedPair(rs: seq<nat>, k: nat, l: nat, n: nat)
    requires k < |rs| && l < |rs| && k != l && rs[k] == rs[l] < n
    ensures Shared(rs, n)
  {
  }

  /** The rows named by `refs` come first, in that order, and no other row names
      one of them. */
  predicate Restored(rows: seq<Row>, refs: seq<Target>) {
    && |refs| <= |rows|
    && (forall i :: 0 <= i < |refs| ==> Matches(rows[i].target, refs[i]))
    && (forall i, j :: |refs| <= i < |rows| && 0 <= j < |refs| ==> !Matches(rows[i].target, refs[j]))
  }

  lemma RestoredByRank(rows: seq<Row>, ix: Index, refs: seq<Target>)
    requires Unambiguous(ix) && Ranks(ix, refs)
    requires Ascending(RanksOf(rows, ix))
    ensures Restored(rows, refs) <==>
      var rs, n := RanksOf(rows, ix), |refs|; n <= |rs| && forall i :: 0 <= i < |rs| ==> if i < n then rs[i] == i else rs[i] >= n
  {
    var rs, n := RanksOf(rows, ix), |refs|;
    forall i | 0 <= i < |rows|
      ensures i < n ==> (rs[i] == i <==> Matches(rows[i].target, refs[i]))
      ensures rs[i] >= n <==> forall j :: 0 <= j < n ==> !Matches(rows[i].target, refs[j])
    {
      forall j | 0 <= j < n ensures rs[i] == j <==> Matches(rows[i].target, refs[j]) {
        RankTellsReference(ix, refs, j, rows[i].target);
      }
      if rs[i] < n {
        assert Matches(rows[i].target, refs[rs[i]]);
      }
    }
  }

  lemma SharedExactlyWhenRespelled(ix: Index, refs: seq<Target>, before: seq<Row>, files: set<string>, middle: seq<Row>,
                                   nextId: nat, nextRevision: nat)
    requires Unambiguous(ix) && Ranks(ix, refs) && Adopted(before, files, ix, middle)
    requires forall j :: 0 <= j < |refs| && ix[j].target.File? ==> ix[j].target.path in files
    requires TableOk(middle, nextId, nextRevision)
    ensures Shared(RanksOf(middle, ix), |refs|) <==> !SpelledAsRecorded(before, ix, refs)
  {
    forall k, l | 0 <= k < l < |middle| ensures middle[k].target != middle[l].target {
      assert Apart(middle[k], middle[l]);
    }
    if Shared(RanksOf(middle, ix), |refs|) {
      SharedMeansRespelled(before, files, ix, refs, middle);
    }
    if !SpelledAsRecorded(before, ix, refs) {
      var i, j :| 0 <= i < |before| && 0 <= j < |refs| && Matches(before[i].target, refs[j]) && before[i].target != ix[j].target;
      RespelledMeansShared(before, files, ix, refs, middle, i, j);
    }
  }

  lemma EveryReferenceIsListed(ix: Index, n: nat, before: seq<Row>, files: set<string>, middle: seq<Row>)
    requires Unambiguous(ix) && n <= |ix| && Adopted(before, files, ix, middle)
    requires forall j :: 0 <= j < n && ix[j].target.File? ==> ix[j].target.path in files
    ensures forall v: nat :: v < n ==> v in RanksOf(middle, ix)
  {
    forall v: nat | v < n ensures v in RanksOf(middle, ix) {
      var k := RecordIsListed(before, files, ix, middle, v);
      RankIsUnique(ix, middle[k].target, v);
      assert RanksOf(middle, ix)[k] == v;
    }
  }

  /** What `ReorderContainers` wrote down is what a later login shows, once every
      recorded container is there: exactly when no container listed before the
      index was read goes by another spelling than its record. */
  lemma SavedOrderReturns(ix: Index, refs: seq<Target>, before: seq<Row>, files: set<string>, middle: seq<Row>,
                          nextId: nat, nextRevision: nat)
    requires Unambiguous(ix) && Ranks(ix, refs) && Adopted(before, files, ix, middle)
    requires forall j :: 0 <= j < |refs| && ix[j].target.File? ==> ix[j].target.path in files
    requires TableOk(middle, nextId, nextRevision)
    ensures Restored(Sorted(middle, ix), refs) <==> SpelledAsRecorded(before, ix, refs)
  {
    SharedExactlyWhenRespelled(ix, refs, before, files, middle, nextId, nextRevision);
    EveryReferenceIsListed(ix, |refs|, before, files, middle);
    SortedRanks(middle, ix, |refs|);
    RanksInPlace(RanksOf(Sorted(middle, ix), ix), |refs|);
    RestoredByRank(Sorted(middle, ix), ix, refs);
  }

  /** One record of a file, and a list that has the file under another spelling. */
  lemma RespelledIsAdopted(row: Row, added: Row, rec: Record, files: set<string>)
    requires row.target.File? && rec.target.File? && row.target != rec.target && rec.target.path in files
    requires MadeFrom(added, rec)
    ensures Adopted([row], files, [rec], [row, added])
  {
    assert [rec][..0] == [] && [rec][1..] == [] && UnlistedDisks([row], [rec]) == [];
    assert UnlistedFiles([row], files, [rec]) == [rec];
    assert [row, added][..0] == [] && [row, added][0..1] == [row] && [row, added][1..] == [added];
  }

  /** A container at a fixed path and a record that spells the path otherwise:
      the login lists the file twice, and the order does not come back. */
  lemma RespelledLayoutComesTwice(path: string, spelled: string, files: set<string>)
    requires path != spelled && SamePath(path, spelled) && spelled in files
    ensures var ix, layout := [Record(File(spelled), Normal, 0, "")], [NewRow(1, File(path), FileNameOf(path), "", false, true, Normal)];
      var found := [layout[0], NewRow(2, File(spelled), FileNameOf(spelled), "", false, false, Normal)];
      Ranks(ix, [File(path)]) && Adopted(layout, files, ix, found) && !Restored(Sorted(found, ix), [File(path)])
  {
    var ix, layout := [Record(File(spelled), Normal, 0, "")], [NewRow(1, File(path), FileNameOf(path), "", false, true, Normal)];
    var found := [layout[0], NewRow(2, File(spelled), FileNameOf(spelled), "", false, false, Normal)];
    RankIsUnique(ix, File(path), 0);
    RespelledIsAdopted(found[0], found[1], ix[0], files);
    SavedOrderReturns(ix, [File(path)], layout, files, found, 3, 1);
    assert Matches(layout[0].target, File(path)) && layout[0].target != ix[0].target;
  }

  /** Such a pair of spellings. */
  lemma CapitalLetterComesTwice()
    ensures SamePath("a.hc", "A.hc") && "a.hc" != "A.hc"
  {
    assert Fold("a.hc") == Fold("A.hc");
  }

  /** Sorting puts the ranks in ascending order and changes none of them. */
  lemma SortedRanks(rows: seq<Row>, ix: Index, n: nat)
    ensures Ascending(RanksOf(Sorted(rows, ix), ix))
    ensures Shared(RanksOf(Sorted(rows, ix), ix), n) <==> Shared(RanksOf(rows, ix), n)
    ensures forall v :: v in RanksOf(rows, ix) ==> v in RanksOf(Sorted(rows, ix), ix)
  {
    var at, rs := SavedOrder(rows, ix), RanksOf(Sorted(rows, ix), ix);
    SavedOrderIsStable(rows, ix);
    assert rs == Rearranged(RanksOf(rows, ix), at);
    SharedRearranged(RanksOf(rows, ix), at, n);
    forall v | v in RanksOf(rows, ix) ensures v in rs {
      var k :| 0 <= k < |rows| && RanksOf(rows, ix)[k] == v;
      var i := HitsEverything(at, |rows|, k);
      assert rs[i] == v;
    }
    forall i, j | 0 <= i < j < |rs| ensures rs[i] <= rs[j] {
      assert Earlier(Position(at[i], Rank(ix, rows[at[i]].target)), Position(at[j], Rank(ix, rows[at[j]].target)));
    }
  }

  /** Numbering partitions moves no record. */
  lemma NumberingKeepsRanks(ix: Index, refs: seq<Target>)
    requires Ranks(ix, refs)
    ensures Ranks(Numbered(ix), refs)
  {
  }

  // -- Logging in ---------------------------------------------------------------------------------

  /** The list, and the next identifier, after a container at a fixed path was
      looked for. */
  function AfterLayout(list: (seq<Row>, nat), path: string, releaseFirst: bool, files: set<string>): (seq<Row>, nat) {
    var (rows, id) := list;
    var k := FindTarget(rows, File(path));
    if path !in files then list
    else if k < |rows| then (rows[k := AdoptedAgain(rows[k], releaseFirst, true)], id)
    else (rows + [NewRow(id, File(path), FileNameOf(path), "", releaseFirst, true, Normal)], id + 1)
  }

  /** The container with a hidden volume first, then the standard one. */
  function AfterBothLayouts(list: (seq<Row>, nat), layoutA: string, layoutB: string, files: set<string>): (seq<Row>, nat) {
    AfterLayout(AfterLayout(list, layoutB, true, files), layoutA, false, files)
  }

  /** A container at a fixed path is listed when its file is really there. */
  method AdoptLayout(s: SessionCore, path: string, releaseFirst: bool) returns (failure: Option<Error>)
    requires s.Valid() && !AnyMounted(s.rows)
    modifies s`rows, s`nextId
    ensures s.Valid() && Evolves(old(s.rows), s.nextRevision, s.rows, s.nextRevision) && !AnyMounted(s.rows)
    ensures (s.rows, s.nextId) == if failure.None? then AfterLayout((old(s.rows), old(s.nextId)), path, releaseFirst, s.rt.files)
                                  else (old(s.rows), old(s.nextId))
  {
    var present := s.rt.Exists(path);
    if present.Err? {
      return Some(present.error);
    }
    failure := None;
    if present.value {
      var k := FindTarget(s.rows, File(path));
      if k < |s.rows| {
        var row := AdoptedAgain(s.rows[k], releaseFirst, true);
        RelabelKeepsTable(s.rows, k, row, s.nextId, s.nextRevision);
        s.rows := s.rows[k := row];
      } else {
        AppendFile(s, path, releaseFirst, true);
      }
    }
  }

  /** Logging in authenticates and lists what is there; it mounts nothing. */
  method Login(s: SessionCore, secret: seq<bv8>, password: string)
    returns (failure: Option<Error>, complete: bool, ghost layout: seq<Row>, ghost middle: seq<Row>)
    requires s.Valid()
    modifies s`rows, s`nextId, s`nextOrdinal, s`log, s`login, s`hidden, s.auth, s.rt`index, s.rt`trace, s.rt`faults
    ensures s.Valid() && Evolves(old(s.rows), s.nextRevision, s.rows, s.nextRevision)
    ensures s.rt.volumes == old(s.rt.volumes)
    ensures failure.None? ==>
      && !old(s.auth.Authenticated()) && s.auth.Authenticated() && s.auth.generation == old(s.auth.generation) + 1
      && !AnyMounted(old(s.rows)) && !AnyMounted(s.rows)
      && s.log == old(s.log).Clear().Record(Log.Entry(Log.SessionOpened, true, "", Log.NO_LETTER))
      && s.login == password && s.hidden.None?
      && (s.rt.index == old(s.rt.index) || s.rt.index == Numbered(old(s.rt.index)))
      && Remembered(layout, s.rt.files, s.rt.index, complete, middle, s.rows) && (complete ==> TableOk(middle, s.nextId, s.nextRevision))
      && layout == AfterBothLayouts((old(s.rows), old(s.nextId)), s.layoutA, s.layoutB, s.rt.files).0
      && (old(s.rows) == [] ==> forall k :: 0 <= k < |layout| ==> layout[k].target in {File(s.layoutA), File(s.layoutB)})
    ensures old(s.auth.Authenticated()) || AnyMounted(old(s.rows)) || |secret| != ROOT_SIZE ==>
      failure.Some? && s.rows == old(s.rows) && s.log == old(s.log) && s.auth.root == old(s.auth.root)
  {
    complete, layout, middle := false, [], [];
    if s.AnyRowMounted() || s.auth.Authenticated() {
      return Some(WrongState), false, [], [];
    }
    failure := s.auth.Establish(secret);
    if failure.Some? {
      return;
    }
    s.log := s.log.Clear();
    s.RecordOperation(Log.Entry(Log.SessionOpened, true, "", Log.NO_LETTER));
    s.hidden, s.login := None, password;
    failure := AdoptBothLayouts(s);
    if failure.Some? {
      return;
    }
    layout := s.rows;
    complete, middle := AdoptAfter(s, old(s.rows));
  }

  method AdoptAfter(s: SessionCore, ghost before: seq<Row>) returns (complete: bool, ghost middle: seq<Row>)
    requires s.Valid() && !AnyMounted(s.rows) && Evolves(before, s.nextRevision, s.rows, s.nextRevision)
    modifies s`rows, s`nextId, s`nextOrdinal, s.rt`index, s.rt`trace, s.rt`faults
    ensures s.Valid() && Evolves(before, s.nextRevision, s.rows, s.nextRevision) && !AnyMounted(s.rows)
    ensures s.rt.index == old(s.rt.index) || s.rt.index == Numbered(old(s.rt.index))
    ensures Remembered(old(s.rows), s.rt.files, s.rt.index, complete, middle, s.rows) && (complete ==> TableOk(middle, s.nextId, s.nextRevision))
    ensures s.log == old(s.log)
  {
    complete, middle := AdoptRemembered(s);
    EvolvesTransitively(before, s.nextRevision, old(s.rows), s.nextRevision, s.rows, s.nextRevision);
  }

  lemma NothingMounted(before: seq<Row>, after: seq<Row>)
    requires MountedLetters(after) == MountedLetters(before) && !AnyMounted(before)
    ensures !AnyMounted(after)
  {
    assert forall k :: 0 <= k < |after| && after[k].mounted ==> after[k].letter in MountedLetters(after);
  }

  method AdoptBothLayouts(s: SessionCore) returns (failure: Option<Error>)
    requires s.Valid() && !AnyMounted(s.rows)
    modifies s`rows, s`nextId
    ensures s.Valid() && Evolves(old(s.rows), s.nextRevision, s.rows, s.nextRevision) && !AnyMounted(s.rows)
    ensures old(s.rows) == [] ==> forall k :: 0 <= k < |s.rows| ==> s.rows[k].target in {File(s.layoutA), File(s.layoutB)}
    ensures failure.None? ==>
      (s.rows, s.nextId) == AfterBothLayouts((old(s.rows), old(s.nextId)), s.layoutA, s.layoutB, s.rt.files)
  {
    failure := AdoptLayout(s, s.layoutB, true);
    if failure.None? {
      ghost var current := s.rows;
      failure := AdoptLayout(s, s.layoutA, false);
      EvolvesTransitively(old(s.rows), s.nextRevision, current, s.nextRevision, s.rows, s.nextRevision);
    }
  }

  /** A new card is handed over right after its initialization: its password is
      the login's, and nothing is listed. */
  method CompleteInitialization(s: SessionCore, password: string) returns (failure: Option<Error>)
    requires s.Valid()
    modifies s`login, s`log
    ensures s.Valid()
    ensures failure.None? <==> s.auth.Authenticated() && password != "" && s.rows == [] && old(s.login) == ""
    ensures failure.None? ==>
      s.login == password && s.hidden.None? && s.log == old(s.log).Clear().Record(Log.Entry(Log.SessionOpened, true, "", Log.NO_LETTER))
    ensures failure.Some? ==> s.login == old(s.login) && s.log == old(s.log)
  {
    if !s.auth.Authenticated() || password == "" || s.AnyRowMounted() || s.rows != [] || s.login != "" {
      return Some(WrongState);
    }
    s.login := password;
    s.log := s.log.Clear();
    s.RecordOperation(Log.Entry(Log.SessionOpened, true, "", Log.NO_LETTER));
    return None;
  }

  /** The list is put in order, and then every volume leaves the driver, as when
      the system shuts down. */
  method ReorderAndStop(s: SessionCore, ids: seq<nat>) returns (failure: Option<Error>)
    requires s.Valid() && s.rt.remembers
    requires forall k :: 0 <= k < |s.rows| && s.rows[k].target.Disk? ==> Known(s.rt.index, s.rows[k].target)
    modifies s`rows, s.rt`index, s.rt`trace, s.rt`faults, s.rt`volumes
    ensures s.rt.Valid() && s.rt.volumes <= s.rt.abandoned
    ensures failure.None? ==>
      && NamesEachOnce(ids, old(s.rows)) && s.rows == Rearranged(old(s.rows), Places(ids, old(s.rows)))
      && Ranks(s.rt.index, TargetsOf(s.rows))
  {
    failure := ReorderContainers(s, ids);
    s.VolumesLeave(MountedLetters(s.rows));
  }

  /** The round trip: a list put in order, mounted or not, and a later session over
      the same card and disk. The order comes back exactly when no layout container
      goes by another spelling than its record. */
  method ReorderThenLogin(s: SessionCore, ids: seq<nat>, auth: Authentication, secret: seq<bv8>, password: string)
    returns (later: SessionCore, found: bool, ghost layout: seq<Row>)
    requires s.Valid() && s.rt.remembers && auth != s.auth
    requires forall k :: 0 <= k < |s.rows| && s.rows[k].target.Disk? ==> Known(s.rt.index, s.rows[k].target)
    modifies s`rows, s.rt`index, s.rt`trace, s.rt`faults, s.rt`volumes, auth
    ensures later.rt == s.rt && later.Valid()
    ensures found ==>
      && NamesEachOnce(ids, old(s.rows)) && s.rows == Rearranged(old(s.rows), Places(ids, old(s.rows)))
      && Ranks(s.rt.index, TargetsOf(s.rows))
      && layout == AfterBothLayouts(([], 1), s.layoutA, s.layoutB, s.rt.files).0
    ensures found && (forall j :: 0 <= j < |s.rows| && s.rt.index[j].target.File? ==> s.rt.index[j].target.path in s.rt.files) ==>
      (Restored(later.rows, TargetsOf(s.rows)) <==> SpelledAsRecorded(layout, s.rt.index, TargetsOf(s.rows)))
  {
    var failure := ReorderAndStop(s, ids);
    if failure.Some? {
      later := new SessionCore(auth, s.rt, s.layoutA, s.layoutB, true);
      return later, false, [];
    }
    later, found, layout := LoginAgain(s.rt, auth, s.layoutA, s.layoutB, secret, password, TargetsOf(s.rows));
  }

  /** A fresh session over an index that ranks `refs` first. */
  method LoginAgain(rt: Runtime, auth: Authentication, layoutA: string, layoutB: string, secret: seq<bv8>, password: string,
                    ghost refs: seq<Target>)
    returns (later: SessionCore, found: bool, ghost layout: seq<Row>)
    requires rt.Valid() && rt.volumes <= rt.abandoned && Ranks(rt.index, refs)
    modifies rt`index, rt`trace, rt`faults, auth
    ensures later.rt == rt && later.Valid()
    ensures found ==>
      && Ranks(rt.index, refs)
      && layout == AfterBothLayouts(([], 1), layoutA, layoutB, rt.files).0
      && ((forall j :: 0 <= j < |refs| && rt.index[j].target.File? ==> rt.index[j].target.path in rt.files) ==>
            (Restored(later.rows, refs) <==> SpelledAsRecorded(layout, rt.index, refs)))
  {
    later := new SessionCore(auth, rt, layoutA, layoutB, true);
    var refused, complete;
    ghost var middle;
    refused, complete, layout, middle := Login(later, secret, password);
    found := refused.None? && complete;
    if found {
      OrderSurvivesNumbering(old(rt.index), rt.index, refs, layout, rt.files, middle, later.nextId, later.nextRevision);
    }
  }

  lemma OrderSurvivesNumbering(saved: Index, ix: Index, refs: seq<Target>, before: seq<Row>, files: set<string>, middle: seq<Row>,
                               nextId: nat, nextRevision: nat)
    requires Ranks(saved, refs) && (ix == saved || ix == Numbered(saved))
    requires Unambiguous(ix) && Adopted(before, files, ix, middle) && TableOk(middle, nextId, nextRevision)
    ensures Ranks(ix, refs)
    ensures (forall j :: 0 <= j < |refs| && ix[j].target.File? ==> ix[j].target.path in files) ==>
      (Restored(Sorted(middle, ix), refs) <==> SpelledAsRecorded(before, ix, refs))
  {
    NumberingKeepsRanks(saved, refs);
    if forall j :: 0 <= j < |refs| && ix[j].target.File? ==> ix[j].target.path in files {
      SavedOrderReturns(ix, refs, before, files, middle, nextId, nextRevision);
    }
  }
}
