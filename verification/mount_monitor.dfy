/** Reconciling the list with what a monitor saw, and asking the driver about
    each row (card_login_mount_session.cpp:3886-3995). An observation arrives
    later than it was made, and the container may have been mounted anew. */
module MountMonitor {
  import opened Wrappers
  import opened ContainerIndex
  import opened ContainerTable
  import opened VaultRuntime
  import opened Session

  datatype Presence = Present | Missing | Replaced | BackingLost | Unclear

  datatype Observation = Observation(id: nat, presence: Presence)

  predicate VolumeGone(p: Presence) {
    p == Missing || p == Replaced
  }

  /** Targets and observations were made for the same containers. */
  predicate Paired(targets: seq<Watch>, seen: seq<Observation>) {
    |targets| == |seen| && forall i :: 0 <= i < |targets| ==> targets[i].id == seen[i].id
  }

  /** Among the first `n`, someone saw this very mount so. */
  predicate Seen(row: Row, targets: seq<Watch>, seen: seq<Observation>, n: nat, gone: bool)
    requires n <= |targets| == |seen|
  {
    n != 0 &&
    (|| Seen(row, targets, seen, n - 1, gone)
     || (row.watch == Some(targets[n - 1])
         && if gone then VolumeGone(seen[n - 1].presence) else seen[n - 1].presence == BackingLost))
  }

  /** What reconciling may do to a row: a mount seen gone is given up, one whose
      medium is lost may be, and no other mount is touched. */
  predicate Settled(before: Row, after: Row, targets: seq<Watch>, seen: seq<Observation>, n: nat)
    requires n <= |targets| == |seen|
  {
    && (after == before || (before.mounted && after == Released(before)))
    && (Seen(before, targets, seen, n, true) ==> after == Released(before))
    && (after != before ==> Seen(before, targets, seen, n, true) || Seen(before, targets, seen, n, false))
  }

  ghost predicate AllSettled(before: seq<Row>, after: seq<Row>, targets: seq<Watch>, seen: seq<Observation>, n: nat)
    requires n <= |targets| == |seen|
  {
    |after| == |before| && forall k :: 0 <= k < |before| ==> Settled(before[k], after[k], targets, seen, n)
  }

  /** The same for a single observation. */
  predicate SettledBy(before: Row, after: Row, w: Watch, presence: Presence) {
    && (after == before || (before.mounted && after == Released(before)))
    && (before.watch == Some(w) && VolumeGone(presence) ==> after == Released(before))
    && (after != before ==> before.watch == Some(w) && (VolumeGone(presence) || presence == BackingLost))
  }

  method WatchTargets(s: SessionCore) returns (targets: seq<Watch>)
    requires s.Valid()
    ensures forall w :: w in targets <==> Watches(s.rows, w)
    ensures forall i :: 0 <= i < |targets| ==> targets[i].revision < s.nextRevision
  {
    targets := [];
    for i := 0 to |s.rows|
      invariant forall w :: w in targets <==> exists k :: 0 <= k < i && s.rows[k].watch == Some(w)
    {
      assert RowOk(s.rows[i], s.nextId, s.nextRevision);
      if s.rows[i].mounted && s.rows[i].watch.Some? {
        targets := targets + [s.rows[i].watch.value];
      }
    }
    forall i | 0 <= i < |targets| ensures targets[i].revision < s.nextRevision {
      assert targets[i] in targets;
    }
  }

  lemma OnlyItsRowAnswers(rows: seq<Row>, w: Watch, nextId: nat, nextRevision: nat)
    requires TableOk(rows, nextId, nextRevision)
    ensures forall k :: 0 <= k < |rows| && rows[k].watch == Some(w) ==> rows[k].mounted && k == FindById(rows, w.id)
  {
  }

  /** A volume reported gone that is up. */
  ghost predicate WronglyGone(rows: seq<Row>, volumes: set<char>, targets: seq<Watch>, seen: seq<Observation>, c: char) {
    exists i :: 0 <= i < |targets| && i < |seen| && VolumeGone(seen[i].presence) && Watches(rows, targets[i])
                && targets[i].letter == c && c in volumes
  }

  /** No volume is lost but those wrongly reported gone. */
  ghost predicate LostOnly(rows: seq<Row>, volumes: set<char>, targets: seq<Watch>, seen: seq<Observation>,
                           before: set<char>, after: set<char>)
  {
    before <= after && forall c :: c in after && c !in before ==> WronglyGone(rows, volumes, targets, seen, c)
  }

  lemma LosesOneMore(rows: seq<Row>, volumes: set<char>, targets: seq<Watch>, seen: seq<Observation>, i: nat,
                     before: set<char>, current: set<char>, after: set<char>)
    requires LostOnly(rows, volumes, targets, seen, before, current) && i < |targets| && i < |seen|
    requires after == current ||
      (after == current + {targets[i].letter} && targets[i].letter in volumes
       && VolumeGone(seen[i].presence) && Watches(rows, targets[i]))
    ensures LostOnly(rows, volumes, targets, seen, before, after)
  {
  }

  /** One observation. Only the mount it was made for can be affected. A wrong
      one makes the session lose the volume, and says so. */
  method ReconcileOne(s: SessionCore, w: Watch, presence: Presence) returns (changed: bool)
    requires s.Valid()
    modifies s`rows, s`log, s`helperTarget, s.rt`volumes, s.rt`abandoned, s.rt`attempts
    ensures s.Valid() && Evolves(old(s.rows), s.nextRevision, s.rows, s.nextRevision)
    ensures |s.rows| == |old(s.rows)|
    ensures forall k :: 0 <= k < |s.rows| ==> SettledBy(old(s.rows)[k], s.rows[k], w, presence)
    ensures changed <==> s.rows != old(s.rows)
    ensures s.rt.volumes <= old(s.rt.volumes)
    ensures s.rt.abandoned == old(s.rt.abandoned) +
      if changed && VolumeGone(presence) && w.letter in old(s.rt.volumes) then {w.letter} else {}
    ensures changed ==> Watches(old(s.rows), w)
  {
    if presence == Present || presence == Unclear {
      return false;
    }
    OnlyItsRowAnswers(s.rows, w, s.nextId, s.nextRevision);
    var k := FindById(s.rows, w.id);
    if k == |s.rows| || !s.rows[k].mounted || s.rows[k].watch != Some(w) {
      return false;
    }
    assert RowOk(s.rows[k], s.nextId, s.nextRevision);
    changed := ReleaseSeen(s, k, presence == BackingLost);
  }

  method ReleaseSeen(s: SessionCore, k: nat, lost: bool) returns (released: bool)
    requires s.Valid() && k < |s.rows| && s.rows[k].mounted
    modifies s`rows, s`log, s`helperTarget, s.rt`volumes, s.rt`abandoned, s.rt`attempts
    ensures s.Valid() && Evolves(old(s.rows), s.nextRevision, s.rows, s.nextRevision)
    ensures s.rows == if released then old(s.rows)[k := Released(old(s.rows)[k])] else old(s.rows)
    ensures released || lost
    ensures s.rt.volumes <= old(s.rt.volumes)
    ensures s.rt.abandoned == old(s.rt.abandoned) +
      if !lost && old(s.rows)[k].letter in old(s.rt.volumes) then {old(s.rows)[k].letter} else {}
  {
    var helper := s.rows[k].maintenance && s.helperTarget == s.rows[k].id;
    if lost {
      FindsOwnId(s.rows, k, s.nextId, s.nextRevision);
      var failure := s.Unmount(s.rows[k].id, true);
      if failure.Some? {
        return false;
      }
    } else {
      s.rt.GiveUp(s.rows[k].letter);
      s.ReleaseMount(k);
    }
    if helper {
      s.helperTarget := 0;
    }
    return true;
  }

  /** A batch of observations, possibly stale. Those that do not pair up with
      their targets are dropped as a whole. No volume is lost but those wrongly
      reported gone. */
  method ReconcileMounts(s: SessionCore, targets: seq<Watch>, seen: seq<Observation>) returns (changed: bool)
    requires s.Valid()
    modifies s`rows, s`log, s`helperTarget, s.rt`volumes, s.rt`abandoned, s.rt`attempts
    ensures s.Valid() && Evolves(old(s.rows), s.nextRevision, s.rows, s.nextRevision)
    ensures if Paired(targets, seen) then AllSettled(old(s.rows), s.rows, targets, seen, |targets|)
            else s.rows == old(s.rows) && s.log == old(s.log) && s.rt.volumes == old(s.rt.volumes) && s.rt.abandoned == old(s.rt.abandoned)
    ensures changed <==> s.rows != old(s.rows)
    ensures LostOnly(old(s.rows), old(s.rt.volumes), targets, seen, old(s.rt.abandoned), s.rt.abandoned)
  {
    changed := false;
    if !Paired(targets, seen) {
      return;
    }
    for i := 0 to |targets|
      invariant s.Valid() && Evolves(old(s.rows), s.nextRevision, s.rows, s.nextRevision)
      invariant s.rt.volumes <= old(s.rt.volumes)
      invariant LostOnly(old(s.rows), old(s.rt.volumes), targets, seen, old(s.rt.abandoned), s.rt.abandoned)
      invariant AllSettled(old(s.rows), s.rows, targets, seen, i)
      invariant changed <==> s.rows != old(s.rows)
    {
      changed := ReconcileNext(s, targets, seen, i, changed, old(s.rows), old(s.rt.volumes), old(s.rt.abandoned));
    }
  }

  method ReconcileNext(s: SessionCore, targets: seq<Watch>, seen: seq<Observation>, i: nat, sofar: bool,
                       ghost before: seq<Row>, ghost volumes: set<char>, ghost lost: set<char>)
    returns (changed: bool)
    requires s.Valid() && Evolves(before, s.nextRevision, s.rows, s.nextRevision) && s.rt.volumes <= volumes
    requires Paired(targets, seen) && i < |targets| && AllSettled(before, s.rows, targets, seen, i)
    requires LostOnly(before, volumes, targets, seen, lost, s.rt.abandoned)
    requires sofar <==> s.rows != before
    modifies s`rows, s`log, s`helperTarget, s.rt`volumes, s.rt`abandoned, s.rt`attempts
    ensures s.Valid() && Evolves(before, s.nextRevision, s.rows, s.nextRevision) && s.rt.volumes <= volumes
    ensures AllSettled(before, s.rows, targets, seen, i + 1)
    ensures LostOnly(before, volumes, targets, seen, lost, s.rt.abandoned)
    ensures changed <==> s.rows != before
  {
    StillWatched(before, s.rows, targets[i], s.nextRevision, s.nextId);
    changed := ReconcileOne(s, targets[i], seen[i].presence);
    LosesOneMore(before, volumes, targets, seen, i, lost, old(s.rt.abandoned), s.rt.abandoned);
    EvolvesTransitively(before, s.nextRevision, old(s.rows), s.nextRevision, s.rows, s.nextRevision);
    SettledTogether(before, old(s.rows), s.rows, targets, seen, i);
    changed := sofar || changed;
  }

  lemma StillWatched(before: seq<Row>, current: seq<Row>, w: Watch, next: nat, nextId: nat)
    requires TableOk(current, nextId, next) && Evolves(before, next, current, next)
    ensures Watches(current, w) ==> Watches(before, w)
  {
  }

  lemma SettledTogether(before: seq<Row>, current: seq<Row>, after: seq<Row>, targets: seq<Watch>, seen: seq<Observation>, i: nat)
    requires Paired(targets, seen) && i < |targets| && AllSettled(before, current, targets, seen, i)
    requires |after| == |current|
    requires forall k :: 0 <= k < |current| ==> SettledBy(current[k], after[k], targets[i], seen[i].presence)
    ensures AllSettled(before, after, targets, seen, i + 1)
    ensures current != before || after != current ==> after != before
  {
  }

  /** A container that was unmounted at any moment since the targets were taken
      is never given up because of them: what is mounted now is another mount,
      even of the same container on the same letter. */
  lemma RemountsAreSpared(earlier: seq<Row>, earlierNext: nat, between: seq<Row>, betweenId: nat, betweenNext: nat,
                          now: seq<Row>, nowId: nat, nowNext: nat,
                          after: seq<Row>, targets: seq<Watch>, seen: seq<Observation>, k: nat)
    requires Evolves(earlier, earlierNext, between, betweenNext) && Evolves(between, betweenNext, now, nowNext)
    requires TableOk(between, betweenId, betweenNext) && TableOk(now, nowId, nowNext)
    requires forall i :: 0 <= i < |targets| ==> targets[i].revision < earlierNext
    requires Paired(targets, seen) && AllSettled(now, after, targets, seen, |targets|)
    requires k < |now| && forall j :: 0 <= j < |between| && between[j].id == now[k].id ==> !between[j].mounted
    ensures after[k] == now[k]
  {
    assert RowOk(now[k], nowId, nowNext) && Settled(now[k], after[k], targets, seen, |targets|);
    SeenMeansTargeted(now[k], targets, seen, |targets|);
    if now[k].mounted {
      assert Watches(now, now[k].watch.value);
      forall j | 0 <= j < |between| ensures between[j].watch != now[k].watch {
        assert RowOk(between[j], betweenId, betweenNext);
      }
    }
  }

  lemma SeenMeansTargeted(row: Row, targets: seq<Watch>, seen: seq<Observation>, n: nat)
    requires n <= |targets| == |seen|
    ensures Seen(row, targets, seen, n, true) || Seen(row, targets, seen, n, false) ==>
      exists i :: 0 <= i < n && row.watch == Some(targets[i])
  {
    if n != 0 {
      SeenMeansTargeted(row, targets, seen, n - 1);
      assert row.watch == Some(targets[n - 1]) ==> exists i :: 0 <= i < n && row.watch == Some(targets[i]);
    }
  }

  // -- Asking the driver about every row -----------------------------------------------------

  datatype Status = Status(id: nat, name: string, mounted: bool, size: nat, letter: char,
                           partition: bool, conversion: Conversion, unavailable: bool)

  /** One line of the list, for the row as it stands after the driver was asked. */
  predicate Describes(st: Status, row: Row) {
    && st == Status(row.id, DisplayName(row), row.mounted, st.size, row.letter, row.target.Disk?, row.conversion, st.unavailable)
    && (st.unavailable <==> row.mounted && st.size == 0)
    && (!row.mounted ==> st.size == 0)
  }

  /** A volume the driver says is gone is given up; a driver that does not answer
      disproves nothing. */
  method ContainerStatuses(s: SessionCore) returns (list: seq<Status>)
    requires s.Valid()
    modifies s`rows
    ensures s.Valid() && Evolves(old(s.rows), s.nextRevision, s.rows, s.nextRevision)
    ensures |list| == |s.rows| == |old(s.rows)|
    ensures forall k :: 0 <= k < |list| ==> Describes(list[k], s.rows[k])
    ensures forall k :: 0 <= k < |list| ==>
      || s.rows[k] == old(s.rows)[k]
      || (old(s.rows)[k].mounted && old(s.rows)[k].letter !in s.rt.volumes && s.rows[k] == Released(old(s.rows)[k]))
  {
    ghost var before := s.rows;
    list := [];
    for i := 0 to |s.rows|
      invariant |list| == i <= |s.rows| == |before|
      invariant s.Valid() && Evolves(before, s.nextRevision, s.rows, s.nextRevision)
      invariant forall k :: 0 <= k < i ==> Describes(list[k], s.rows[k])
      invariant forall k :: i <= k < |before| ==> s.rows[k] == before[k]
      invariant forall k :: 0 <= k < i ==>
        || s.rows[k] == before[k]
        || (before[k].mounted && before[k].letter !in s.rt.volumes && s.rows[k] == Released(before[k]))
    {
      ghost var current := s.rows;
      var size := AskSize(s, i);
      EvolvesTransitively(before, s.nextRevision, current, s.nextRevision, s.rows, s.nextRevision);
      list := list + [Status(s.rows[i].id, DisplayName(s.rows[i]), s.rows[i].mounted, size, s.rows[i].letter,
                             s.rows[i].target.Disk?, s.rows[i].conversion, s.rows[i].mounted && size == 0)];
    }
  }

  method AskSize(s: SessionCore, k: nat) returns (size: nat)
    requires s.Valid() && k < |s.rows|
    modifies s`rows
    ensures s.Valid() && Evolves(old(s.rows), s.nextRevision, s.rows, s.nextRevision)
    ensures |s.rows| == |old(s.rows)| && s.rows == old(s.rows)[k := s.rows[k]]
    ensures
      || s.rows[k] == old(s.rows)[k]
      || (old(s.rows)[k].mounted && old(s.rows)[k].letter !in s.rt.volumes && s.rows[k] == Released(old(s.rows)[k]))
    ensures !s.rows[k].mounted ==> size == 0
  {
    if !s.rows[k].mounted {
      assert RowOk(s.rows[k], s.nextId, s.nextRevision);
      return 0;
    }
    var answer := s.rt.MountedSize(s.rows[k].letter);
    if answer.Err? {
      return 0;
    }
    if answer.value.None? {
      s.ReleaseMount(k);
      return 0;
    }
    return answer.value.value;
  }
}
