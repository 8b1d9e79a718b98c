/** The session's list of containers (card_login_mount_session_internal.h:247-270)
    and the invariant every operation keeps: no two rows answer to one
    identifier, file, partition or drive letter, and every mount carries a
    revision of its own. */
module ContainerTable {
  import opened Wrappers
  import opened ContainerIndex

  const NO_LETTER := '\0'

  predicate IsLetter(c: char) {
    'A' <= c <= 'Z'
  }

  /** What the driver says about the volume on a drive. */
  datatype Identity = Identity(letter: char, unique: int, volume: string, length: nat, protectedOuter: bool)

  datatype Watch = Watch(id: nat, letter: char, unique: int, volume: string, length: nat, revision: nat)

  datatype Row = Row(
    id: nat, target: Target, name: string, alias: string,
    letter: char, mounted: bool, watch: Option<Watch>,
    releaseFirst: bool, derivationKnown: bool,
    maintenance: bool, identity: Option<Identity>, recovery: bool,
    conversion: Conversion)

  function NewRow(id: nat, target: Target, name: string, alias: string,
                  releaseFirst: bool, known: bool, state: Conversion): Row
  {
    Row(id, target, name, alias, NO_LETTER, false, None, releaseFirst, known, false, None, false, state)
  }

  function DisplayName(r: Row): string {
    if r.alias == "" then r.name else r.alias
  }

  /** What a volume that has left its drive no longer has. */
  function Released(r: Row): Row {
    r.(mounted := false, maintenance := false, identity := None, watch := None, letter := NO_LETTER)
  }

  function Mounted(r: Row, letter: char, watch: Watch): Row {
    r.(mounted := true, letter := letter, watch := Some(watch))
  }

  /** A watch either carries the whole identity of the volume, or none of it and
      can only confirm an absence. */
  predicate WholeOrAbsent(w: Watch) {
    if w.unique < 0 then w.unique == -1 && w.volume == "" && w.length == 0 else w.volume != "" && w.length != 0
  }

  /** What the driver said about a drive identifies its volume. */
  predicate Identifies(i: Identity, letter: char) {
    i.letter == letter && 0 <= i.unique && i.volume != "" && i.length != 0
  }

  function WatchOf(id: nat, letter: char, revision: nat, identity: Option<Identity>): (w: Watch)
    ensures WholeOrAbsent(w) && w.id == id && w.letter == letter && w.revision == revision
  {
    if identity.Some? && Identifies(identity.value, letter) then
      Watch(id, letter, identity.value.unique, identity.value.volume, identity.value.length, revision)
    else Watch(id, letter, -1, "", 0, revision)
  }

  ghost predicate RowOk(r: Row, nextId: nat, nextRevision: nat) {
    && 1 <= r.id < nextId
    && (if r.mounted
        then IsLetter(r.letter) && r.watch.Some? && r.watch.value.id == r.id
             && r.watch.value.letter == r.letter && r.watch.value.revision < nextRevision
             && WholeOrAbsent(r.watch.value)
        else r == Released(r))
    && (r.target.File? ==> r.conversion == Normal)
  }

  ghost predicate Apart(a: Row, b: Row) {
    && a.id != b.id
    && a.target != b.target
    && (a.mounted && b.mounted ==> a.letter != b.letter)
    && (a.watch.Some? && b.watch.Some? ==> a.watch.value.revision != b.watch.value.revision)
  }

  ghost predicate TableOk(rows: seq<Row>, nextId: nat, nextRevision: nat) {
    && (forall i :: 0 <= i < |rows| ==> RowOk(rows[i], nextId, nextRevision))
    && (forall i, j :: 0 <= i < |rows| && 0 <= j < |rows| && i != j ==> Apart(rows[i], rows[j]))
  }

  function MountedLetters(rows: seq<Row>): (s: set<char>)
    ensures forall c :: c in s <==> exists k :: 0 <= k < |rows| && rows[k].mounted && rows[k].letter == c
  {
    set k | 0 <= k < |rows| && rows[k].mounted :: rows[k].letter
  }

  predicate AnyMounted(rows: seq<Row>) {
    exists k :: 0 <= k < |rows| && rows[k].mounted
  }

  ghost predicate Watches(rows: seq<Row>, w: Watch) {
    exists k :: 0 <= k < |rows| && rows[k].watch == Some(w)
  }

  /** Nothing mounted after `a` was taken carries a revision issued before it. */
  ghost predicate Evolves(a: seq<Row>, aNext: nat, b: seq<Row>, bNext: nat) {
    && aNext <= bNext
    && forall w :: Watches(b, w) && w.revision < aNext ==> Watches(a, w)
  }

  lemma EvolvesTransitively(a: seq<Row>, aNext: nat, b: seq<Row>, bNext: nat, c: seq<Row>, cNext: nat)
    requires Evolves(a, aNext, b, bNext) && Evolves(b, bNext, c, cNext)
    ensures Evolves(a, aNext, c, cNext)
  {
  }

  // -- Finding rows -----------------------------------------------------------------

  function FindById(rows: seq<Row>, id: nat): (k: nat)
    ensures k <= |rows|
    ensures k < |rows| ==> rows[k].id == id
  {
    if rows == [] || rows[0].id == id then 0 else 1 + FindById(rows[1..], id)
  }

  function FindTarget(rows: seq<Row>, t: Target): (k: nat)
    ensures k <= |rows|
    ensures k < |rows| ==> rows[k].target == t
    ensures k == |rows| ==> !Listed(rows, t)
  {
    if rows == [] || rows[0].target == t then 0 else 1 + FindTarget(rows[1..], t)
  }

  lemma FindsOwnId(rows: seq<Row>, k: nat, nextId: nat, nextRevision: nat)
    requires TableOk(rows, nextId, nextRevision) && k < |rows|
    ensures FindById(rows, rows[k].id) == k
  {
    var j := FindById(rows, rows[k].id);
    FindIsFirst(rows, rows[k].id);
    assert j < k ==> Apart(rows[j], rows[k]);
  }

  lemma FindIsFirst(rows: seq<Row>, id: nat)
    ensures forall i :: 0 <= i < FindById(rows, id) ==> rows[i].id != id
  {
  }

  predicate Listed(rows: seq<Row>, t: Target) {
    exists k :: 0 <= k < |rows| && rows[k].target == t
  }

  function WithoutRow(rows: seq<Row>, k: nat): seq<Row>
    requires k < |rows|
  {
    rows[..k] + rows[k + 1..]
  }

  // -- What each kind of change keeps ---------------------------------------------------

  lemma ReleaseKeepsTable(rows: seq<Row>, k: nat, nextId: nat, nextRevision: nat)
    requires TableOk(rows, nextId, nextRevision) && k < |rows| && rows[k].mounted
    ensures var after := rows[k := Released(rows[k])];
            && TableOk(after, nextId, nextRevision)
            && Evolves(rows, nextRevision, after, nextRevision)
            && MountedLetters(after) == MountedLetters(rows) - {rows[k].letter}
  {
    var after := rows[k := Released(rows[k])];
    forall w | Watches(after, w) ensures Watches(rows, w) {
      var i :| 0 <= i < |after| && after[i].watch == Some(w);
      assert rows[i].watch == Some(w);
    }
    forall c ensures c in MountedLetters(after) <==> c in MountedLetters(rows) && c != rows[k].letter {
      if c in MountedLetters(rows) && c != rows[k].letter {
        var i :| 0 <= i < |rows| && rows[i].mounted && rows[i].letter == c;
        assert after[i].mounted;
      }
      if c in MountedLetters(after) {
        var i :| 0 <= i < |after| && after[i].mounted && after[i].letter == c;
        assert i != k && Apart(rows[i], rows[k]);
      }
    }
  }

  lemma MountKeepsTable(rows: seq<Row>, k: nat, r: Row, nextId: nat, nextRevision: nat)
    requires TableOk(rows, nextId, nextRevision) && k < |rows| && !rows[k].mounted
    requires r.mounted && r.id == rows[k].id && r.target == rows[k].target && r.conversion == rows[k].conversion
    requires IsLetter(r.letter) && r.letter !in MountedLetters(rows)
    requires r.watch.Some? && r.watch.value.id == r.id && r.watch.value.letter == r.letter
    requires r.watch.value.revision == nextRevision && WholeOrAbsent(r.watch.value)
    ensures var after := rows[k := r];
            && TableOk(after, nextId, nextRevision + 1)
            && Evolves(rows, nextRevision, after, nextRevision + 1)
            && MountedLetters(after) == MountedLetters(rows) + {r.letter}
  {
    var after := rows[k := r];
    forall i | 0 <= i < |rows| && i != k ensures Apart(rows[i], r) && Apart(r, rows[i]) {
      assert Apart(rows[i], rows[k]) && RowOk(rows[i], nextId, nextRevision);
    }
    forall w | Watches(after, w) && w.revision < nextRevision ensures Watches(rows, w) {
      var i :| 0 <= i < |after| && after[i].watch == Some(w);
      assert rows[i].watch == Some(w);
    }
    forall c ensures c in MountedLetters(after) <==> c in MountedLetters(rows) || c == r.letter {
      if c in MountedLetters(rows) {
        var i :| 0 <= i < |rows| && rows[i].mounted && rows[i].letter == c;
        assert after[i].mounted;
      }
      if c == r.letter {
        assert after[k].mounted;
      }
    }
  }

  /** Changing what is shown or remembered about a row touches no mount. */
  lemma RelabelKeepsTable(rows: seq<Row>, k: nat, r: Row, nextId: nat, nextRevision: nat)
    requires TableOk(rows, nextId, nextRevision) && k < |rows|
    requires r.id == rows[k].id && r.target == rows[k].target
    requires r.mounted == rows[k].mounted && r.letter == rows[k].letter && r.watch == rows[k].watch
    requires !r.mounted ==> !r.maintenance && r.identity.None?
    requires r.target.File? ==> r.conversion == Normal
    ensures var after := rows[k := r];
            && TableOk(after, nextId, nextRevision)
            && Evolves(rows, nextRevision, after, nextRevision)
            && MountedLetters(after) == MountedLetters(rows)
  {
    var after := rows[k := r];
    forall i | 0 <= i < |rows| && i != k ensures Apart(rows[i], r) && Apart(r, rows[i]) {
      assert Apart(rows[i], rows[k]);
    }
    SameMounts(rows, after, nextRevision);
  }

  lemma SameMounts(rows: seq<Row>, after: seq<Row>, nextRevision: nat)
    requires |rows| == |after|
    requires forall i :: 0 <= i < |rows| ==>
      && after[i].mounted == rows[i].mounted
      && after[i].letter == rows[i].letter
      && after[i].watch == rows[i].watch
    ensures Evolves(rows, nextRevision, after, nextRevision)
    ensures MountedLetters(after) == MountedLetters(rows)
  {
  }

  /** Rows of one list found, unchanged and once each, in another. */
  ghost predicate Embeds(rows: seq<Row>, from: seq<Row>, at: seq<nat>) {
    && |at| == |rows|
    && (forall i :: 0 <= i < |at| ==> at[i] < |from| && rows[i] == from[at[i]])
    && (forall i, j :: 0 <= i < j < |at| ==> at[i] != at[j])
  }

  lemma EmbeddedTable(rows: seq<Row>, from: seq<Row>, at: seq<nat>, nextId: nat, nextRevision: nat)
    requires TableOk(from, nextId, nextRevision) && Embeds(rows, from, at)
    ensures TableOk(rows, nextId, nextRevision)
    ensures Evolves(from, nextRevision, rows, nextRevision)
    ensures MountedLetters(rows) <= MountedLetters(from)
  {
  }

  lemma EraseKeepsTable(rows: seq<Row>, k: nat, nextId: nat, nextRevision: nat)
    requires TableOk(rows, nextId, nextRevision) && k < |rows| && !rows[k].mounted
    ensures TableOk(WithoutRow(rows, k), nextId, nextRevision)
    ensures Evolves(rows, nextRevision, WithoutRow(rows, k), nextRevision)
    ensures MountedLetters(WithoutRow(rows, k)) == MountedLetters(rows)
  {
    var after := WithoutRow(rows, k);
    EmbeddedTable(after, rows, seq(|after|, i => if i < k then i else i + 1), nextId, nextRevision);
    forall c | c in MountedLetters(rows) ensures c in MountedLetters(after) {
      var i :| 0 <= i < |rows| && rows[i].mounted && rows[i].letter == c;
      assert after[if i < k then i else i - 1] == rows[i];
    }
  }

  function Inserted(rows: seq<Row>, k: nat, r: Row): (after: seq<Row>)
    requires k <= |rows|
    ensures |after| == |rows| + 1 && after[k] == r
    ensures forall i :: 0 <= i < k ==> after[i] == rows[i]
    ensures forall i :: k < i < |after| ==> after[i] == rows[i - 1]
  {
    rows[..k] + [r] + rows[k..]
  }

  /** A fresh unmounted row may be put anywhere. */
  lemma InsertKeepsTable(rows: seq<Row>, k: nat, r: Row, nextId: nat, nextRevision: nat)
    requires TableOk(rows, nextId, nextRevision) && k <= |rows|
    requires r.id == nextId && 1 <= nextId && !r.mounted && r == Released(r)
    requires r.target.File? ==> r.conversion == Normal
    requires forall i :: 0 <= i < |rows| ==> rows[i].target != r.target
    ensures var after := Inserted(rows, k, r);
            && TableOk(after, nextId + 1, nextRevision)
            && Evolves(rows, nextRevision, after, nextRevision)
            && MountedLetters(after) == MountedLetters(rows)
  {
    var after := Inserted(rows, k, r);
    forall i, j | 0 <= i < |after| && 0 <= j < |after| && i != j ensures Apart(after[i], after[j]) {
      var a, b := if i < k then i else i - 1, if j < k then j else j - 1;
      if i != k && j != k {
        assert Apart(rows[a], rows[b]);
      } else if i == k {
        assert RowOk(rows[b], nextId, nextRevision);
      } else {
        assert RowOk(rows[a], nextId, nextRevision);
      }
    }
    InsertKeepsMounts(rows, k, r, nextRevision);
  }

  lemma InsertKeepsMounts(rows: seq<Row>, k: nat, r: Row, nextRevision: nat)
    requires k <= |rows| && !r.mounted && r.watch.None?
    ensures Evolves(rows, nextRevision, Inserted(rows, k, r), nextRevision)
    ensures MountedLetters(Inserted(rows, k, r)) == MountedLetters(rows)
  {
    var after := Inserted(rows, k, r);
    forall w | Watches(after, w) ensures Watches(rows, w) {
      var i :| 0 <= i < |after| && after[i].watch == Some(w);
      assert rows[if i < k then i else i - 1].watch == Some(w);
    }
    forall c ensures c in MountedLetters(after) <==> c in MountedLetters(rows) {
      if i :| 0 <= i < |rows| && rows[i].mounted && rows[i].letter == c {
        assert after[if i < k then i else i + 1] == rows[i];
      }
      if i :| 0 <= i < |after| && after[i].mounted && after[i].letter == c {
        assert rows[if i < k then i else i - 1] == after[i];
      }
    }
  }

  // -- Stale observations -----------------------------------------------------------------

  /** A watch taken earlier that a later list still carries belongs to a mount
      that was up all along: the very row it was taken from. A newer mount of
      the same container, on the same letter or not, never answers to it. */
  lemma OldWatchMeansSameMount(a: seq<Row>, aId: nat, aNext: nat, b: seq<Row>, bId: nat, bNext: nat, w: Watch, k: nat)
    requires TableOk(a, aId, aNext) && TableOk(b, bId, bNext) && Evolves(a, aNext, b, bNext)
    requires Watches(a, w) && k < |b| && b[k].id == w.id && b[k].mounted
    ensures b[k].watch == Some(w) <==> b[k].watch.value.revision < aNext
  {
  }
}
