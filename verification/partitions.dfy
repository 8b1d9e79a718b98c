/** Partitions that become containers: erased and formatted, or encrypted in
    place (card_login_mount_session.cpp:1967-2240). The helper that writes to
    the disk is modelled step by step; a step can always be its last. */
module SessionPartitions {
  import opened Wrappers
  import opened Decimal
  import opened ContainerIndex
  import opened ContainerTable
  import opened WriteAhead
  import opened VaultRuntime
  import opened Session

  const PARTITION_PREFIX := "\U{78C1}\U{76D8}\U{5B89}\U{5168}\U{76D8} "

  function PartitionName(n: nat): string {
    PARTITION_PREFIX + Digits(n)
  }

  /** A partition's row, named after its recorded number, or after the session's
      own count when no number is recorded. */
  method AdoptPartition(s: SessionCore, p: Partition, sequence: nat, state: Conversion, ghost unsettled: set<Partition> := {})
    returns (id: nat)
    requires s.Holds({}, unsettled) && !Listed(s.rows, Disk(p))
    requires p in unsettled || StateOf(s.rt.index, p) in {None, Some(state)}
    modifies s`rows, s`nextId, s`nextOrdinal
    ensures s.Holds({}, unsettled) && Evolves(old(s.rows), s.nextRevision, s.rows, s.nextRevision)
    ensures id == old(s.nextId) && s.nextId == old(s.nextId) + 1
    ensures s.rows == [NewRow(id, Disk(p), PartitionName(if sequence != 0 then sequence else old(s.nextOrdinal)), "", false, false, state)]
                      + old(s.rows)
    ensures MountedLetters(s.rows) == MountedLetters(old(s.rows))
    ensures s.nextOrdinal >= old(s.nextOrdinal)
    ensures s.nextOrdinal > if sequence != 0 then sequence else old(s.nextOrdinal)
  {
    var shown := if sequence != 0 then sequence else s.nextOrdinal;
    id := s.InsertNewest(Disk(p), PartitionName(shown), "", false, false, state, {}, unsettled);
    s.nextOrdinal := if s.nextOrdinal < shown + 1 then shown + 1 else s.nextOrdinal;
  }

  method Revoked(s: SessionCore) returns (gone: bool)
    ensures !gone ==> s.auth.Authenticated()
  {
    var asked := s.rt.Ask();
    return !s.auth.Authenticated() || asked;
  }

  /** A first record of this partition, and no other change. */
  ghost predicate AddsRecord(before: Index, after: Index, p: Partition, state: Conversion) {
    && Unambiguous(after) && StateOf(before, p).None?
    && forall q :: StateOf(after, q) == if q == p then Some(state) else StateOf(before, q)
  }

  /** The index with a record of this partition in front, before anything is
      written. */
  method PlanRecord(s: SessionCore, p: Partition, state: Conversion) returns (r: Result<(Index, nat), Error>)
    requires s.rt.Valid()
    modifies s.rt`faults
    ensures r.Ok? ==>
      var written := PrependPartition(s.rt.index, p, state);
      && written.Added? && r.value == (written.index, written.sequence) && r.value.1 != 0
      && AddsRecord(s.rt.index, r.value.0, p, state)
  {
    var read := s.rt.ReadIndex();
    if read.Err? {
      return Err(read.error);
    }
    var written := PrependPartition(read.value, p, state);
    if !written.Added? {
      return Err(WrongState);
    }
    PrependEffect(read.value, Record(Disk(p), state, written.sequence, ""));
    return Ok((written.index, written.sequence));
  }

  // -- Erasing and formatting --------------------------------------------------------------

  /** Only destructive writes to this partition. */
  predicate OnlyErases(t: Trace, p: Partition) {
    forall e :: e in t ==> e == Erased(p)
  }

  /** The trace of a creation: nothing, or the record first and the writes after. */
  ghost predicate RecordedFirst(before: Trace, after: Trace, recorded: Option<Index>, p: Partition) {
    match recorded
    case None => after == before
    case Some(ix) =>
      && |before| < |after| && after[..|before|] == before && after[|before|] == IndexWritten(ix)
      && OnlyErases(after[|before| + 1..], p)
  }

  lemma ErasesOnce(before: Trace, after: Trace, ix: Index, p: Partition)
    requires RecordedFirst(before, after, Some(ix), p)
    ensures RecordedFirst(before, after + [Erased(p)], Some(ix), p)
  {
    var more := after + [Erased(p)];
    assert more[..|before|] == before;
    assert more[|before| + 1..] == after[|before| + 1..] + [Erased(p)];
  }

  /** Asks for consent once. The record goes to disk before consent is given;
      an index that cannot be written refuses it. */
  method ConsentToErase(s: SessionCore, p: Partition, ix: Index) returns (recorded: bool, accepted: bool)
    requires s.Valid()
    requires AddsRecord(s.rt.index, ix, p, Normal) && Agree(s.rows, ix)
    modifies s.rt`index, s.rt`trace, s.rt`faults
    ensures s.Valid()
    ensures accepted ==> recorded
    ensures RecordedFirst(old(s.rt.trace), s.rt.trace, if recorded then Some(ix) else None, p)
    ensures s.rt.index == if recorded then ix else old(s.rt.index)
  {
    var confirmed := s.rt.Ask();
    if !confirmed {
      return false, false;
    }
    var failure := s.rt.WriteIndex(ix);
    if failure.Some? {
      return false, false;
    }
    var gone := Revoked(s);
    return true, !gone;
  }

  /** The formatting helper: it asks for consent, and writes only once it has
      it. Asking again is refused. */
  method RunFormat(s: SessionCore, p: Partition, ix: Index) returns (failure: Option<Error>, recorded: bool, accepted: bool)
    requires s.Valid()
    requires AddsRecord(s.rt.index, ix, p, Normal) && Agree(s.rows, ix)
    modifies s.rt`index, s.rt`trace, s.rt`faults
    ensures s.Valid()
    ensures accepted ==> recorded
    ensures RecordedFirst(old(s.rt.trace), s.rt.trace, if recorded then Some(ix) else None, p)
    ensures s.rt.index == if recorded then ix else old(s.rt.index)
  {
    var requested := false;
    recorded, accepted := false, false;
    var steps := s.rt.Steps();
    for i := 0 to steps
      invariant s.Valid()
      invariant accepted ==> recorded
      invariant !requested ==> !recorded
      invariant RecordedFirst(old(s.rt.trace), s.rt.trace, if recorded then Some(ix) else None, p)
      invariant s.rt.index == if recorded then ix else old(s.rt.index)
    {
      failure := s.rt.Try();
      if failure.Some? {
        return;
      }
      var asks := s.rt.Ask();
      if asks && !requested {
        requested := true;
        recorded, accepted := ConsentToErase(s, p, ix);
      } else if accepted {
        ErasesOnce(old(s.rt.trace), s.rt.trace, ix, p);
        s.rt.Happens(Erased(p));
      }
    }
    return None, recorded, accepted;
  }

  const MIB := 1024 * 1024

  /** A hidden volume comes with a password of its own and leaves the outer
      volume at least a quarter of the partition. */
  predicate ValidPair(p: Partition, hiddenBytes: nat, decoy: Option<string>, hasLogin: bool) {
    && (decoy.None? <==> hiddenBytes == 0)
    && (decoy.Some? ==>
          && decoy.value != "" && hasLogin
          && MIB <= hiddenBytes <= p.length / 4 * 3 && hiddenBytes % 65536 == 0)
  }

  /** Formats under the guard that nothing else does. A return without a
      failure means consent was given. */
  method FormatPartition(s: SessionCore, p: Partition, ix: Index, decoy: Option<string>) returns (failure: Option<Error>, recorded: bool)
    requires s.Valid()
    requires AddsRecord(s.rt.index, ix, p, Normal) && Agree(s.rows, ix)
    modifies s`formatActive, s`hidden, s.rt`index, s.rt`trace, s.rt`faults
    ensures s.Valid() && s.formatActive == old(s.formatActive)
    ensures failure.None? ==> recorded && s.auth.Authenticated()
    ensures RecordedFirst(old(s.rt.trace), s.rt.trace, if recorded then Some(ix) else None, p)
    ensures s.rt.index == if recorded then ix else old(s.rt.index)
  {
    if !s.auth.Authenticated() || s.formatActive {
      return Some(WrongState), false;
    }
    s.formatActive := true;
    failure, recorded := FormatGuarded(s, p, ix, decoy);
    s.formatActive := false;
  }

  method FormatGuarded(s: SessionCore, p: Partition, ix: Index, decoy: Option<string>) returns (failure: Option<Error>, recorded: bool)
    requires s.Valid()
    requires AddsRecord(s.rt.index, ix, p, Normal) && Agree(s.rows, ix)
    modifies s`hidden, s.rt`index, s.rt`trace, s.rt`faults
    ensures s.Valid()
    ensures failure.None? ==> recorded
    ensures RecordedFirst(old(s.rt.trace), s.rt.trace, if recorded then Some(ix) else None, p)
    ensures s.rt.index == if recorded then ix else old(s.rt.index)
  {
    var gone := Revoked(s);
    if gone {
      return Some(Cancelled), false;
    }
    var key := s.rt.Derive(if decoy.Some? then Password(decoy.value) else Fixed);
    if key.Err? {
      return Some(key.error), false;
    }
    if decoy.Some? {
      var hidden := s.HiddenPassword();
      if hidden.Err? {
        return Some(hidden.error), false;
      }
    }
    var accepted;
    failure, recorded, accepted := RunFormat(s, p, ix);
    if failure.None? && !accepted {
      failure := Some(WrongState);
    }
  }

  /** The same container after something happened to its mount only. */
  predicate SameContainer(before: Row, after: Row) {
    after == before.(letter := after.letter, mounted := after.mounted, watch := after.watch,
                     releaseFirst := after.releaseFirst, derivationKnown := after.derivationKnown)
  }

  /** Mounts a written partition, and takes it down again if the card left
      meanwhile. */
  method MountWritten(s: SessionCore, k: nat) returns (failure: Option<Error>, gone: bool)
    requires s.Valid() && k < |s.rows| && !s.rows[k].mounted && s.rows[k].conversion == Normal
    modifies s`rows, s`nextRevision, s`log, s`hidden, s.rt`volumes, s.rt`misreports, s.rt`abandoned, s.rt`tried, s.rt`attempts
    ensures s.Valid() && Evolves(old(s.rows), old(s.nextRevision), s.rows, s.nextRevision)
    ensures |s.rows| == |old(s.rows)| && s.rows == old(s.rows)[k := s.rows[k]] && SameContainer(old(s.rows)[k], s.rows[k])
    ensures old(s.rows)[k].derivationKnown ==> s.rows[k].releaseFirst == old(s.rows)[k].releaseFirst
    ensures failure.None? ==> s.rows[k].mounted == !gone
  {
    gone := false;
    failure := MountRow(s, k);
    if failure.None? {
      ghost var mounted, revision := s.rows, s.nextRevision;
      failure, gone := TakeBack(s, k);
      EvolvesTransitively(old(s.rows), old(s.nextRevision), mounted, revision, s.rows, s.nextRevision);
    }
  }

  method TakeBack(s: SessionCore, k: nat) returns (failure: Option<Error>, gone: bool)
    requires s.Valid() && k < |s.rows| && s.rows[k].mounted && !s.rows[k].maintenance && s.rows[k].identity.None?
    modifies s`rows, s`log, s.rt`volumes, s.rt`attempts
    ensures s.Valid() && Evolves(old(s.rows), s.nextRevision, s.rows, s.nextRevision)
    ensures |s.rows| == |old(s.rows)| && s.rows == old(s.rows)[k := s.rows[k]] && SameContainer(old(s.rows)[k], s.rows[k])
    ensures s.rows[k].releaseFirst == old(s.rows)[k].releaseFirst
    ensures failure.None? ==> s.rows[k].mounted == !gone
  {
    gone := Revoked(s);
    if !gone {
      return None, gone;
    }
    FindsOwnId(s.rows, k, s.nextId, s.nextRevision);
    failure := s.Unmount(s.rows[k].id, true);
  }

  method MountRow(s: SessionCore, k: nat) returns (failure: Option<Error>)
    requires s.Valid() && k < |s.rows| && !s.rows[k].mounted && s.rows[k].conversion == Normal
    modifies s`rows, s`nextRevision, s`log, s`hidden, s.rt`volumes, s.rt`misreports, s.rt`abandoned, s.rt`tried
    ensures s.Valid() && Evolves(old(s.rows), old(s.nextRevision), s.rows, s.nextRevision)
    ensures |s.rows| == |old(s.rows)| && s.rows == old(s.rows)[k := s.rows[k]] && SameContainer(old(s.rows)[k], s.rows[k])
    ensures old(s.rows)[k].derivationKnown ==> s.rows[k].releaseFirst == old(s.rows)[k].releaseFirst
    ensures failure.None? ==> s.rows[k].mounted
  {
    FindsOwnId(s.rows, k, s.nextId, s.nextRevision);
    failure := s.MountAdopted(s.rows[k].id);
  }

  method MarkWhenHidden(s: SessionCore, withHidden: bool)
    requires s.Valid() && s.rows != []
    modifies s`rows
    ensures s.Valid() && Evolves(old(s.rows), s.nextRevision, s.rows, s.nextRevision)
    ensures s.rows != [] && s.rows[1..] == old(s.rows)[1..] && SameContainer(old(s.rows)[0], s.rows[0])
    ensures s.rows[0].mounted == old(s.rows)[0].mounted
    ensures withHidden ==> s.rows[0].releaseFirst && s.rows[0].derivationKnown
  {
    if withHidden {
      s.MarkHidden(0);
    }
  }

  /** What follows a finished write. The row is there to stay, so nothing here
      touches the list's order, the index or the disk. */
  method FinishPartition(s: SessionCore, withHidden: bool) returns (failure: Option<Error>)
    requires s.Valid() && s.rows != [] && !s.rows[0].mounted && s.rows[0].conversion == Normal
    modifies s`rows, s`nextRevision, s`log, s`hidden, s.rt`volumes, s.rt`misreports, s.rt`abandoned, s.rt`tried, s.rt`attempts
    ensures s.Valid() && Evolves(old(s.rows), old(s.nextRevision), s.rows, s.nextRevision)
    ensures s.rows != [] && s.rows[1..] == old(s.rows)[1..] && SameContainer(old(s.rows)[0], s.rows[0])
    ensures withHidden && failure.None? ==> s.rows[0].releaseFirst
    ensures failure.None? ==> s.rows[0].mounted
  {
    MarkWhenHidden(s, withHidden);
    ghost var marked := s.rows;
    var feedback := s.rt.Try();
    if feedback.Some? && feedback.value != Cancelled {
      return feedback;
    }
    var gone := Revoked(s);
    if gone {
      return Some(MountFailed);
    }
    failure, gone := MountWritten(s, 0);
    EvolvesTransitively(old(s.rows), old(s.nextRevision), marked, old(s.nextRevision), s.rows, s.nextRevision);
    if failure.None? {
      failure := s.rt.Try();
      if gone {
        failure := Some(MountFailed);
      }
    }
  }

  /** The partition is recorded, its row is in front, and only destructive writes
      followed the record. */
  twostate predicate RecordedAndListed(s: SessionCore, p: Partition, decoy: Option<string>, new r: Result<nat, Error>)
    reads s, s.rt
  {
    var written := PrependPartition(old(s.rt.index), p, Normal);
    && written.Added? && s.rt.index == written.index
    && RecordedFirst(old(s.rt.trace), s.rt.trace, Some(s.rt.index), p)
    && |s.rows| == |old(s.rows)| + 1 && s.rows[1..] == old(s.rows)
    && IsPartitionRow(s.rows[0], old(s.nextId), p, written.sequence)
    && (r.Ok? ==> r.value == s.rows[0].id && s.rows[0].mounted && (decoy.Some? ==> s.rows[0].releaseFirst))
  }

  twostate predicate NothingWritten(s: SessionCore, new r: Result<nat, Error>)
    reads s, s.rt
  {
    && r.Err? && s.rows == old(s.rows) && s.rt.trace == old(s.rt.trace) && s.rt.index == old(s.rt.index)
    && s.rt.volumes == old(s.rt.volumes) && s.log == old(s.log)
  }

  ghost predicate MayErase(s: SessionCore, p: Partition, hiddenBytes: nat, decoy: Option<string>)
    reads s, s.rt, s.auth
  {
    && s.auth.Authenticated() && s.rt.remembers && ValidPartition(p) && ValidPair(p, hiddenBytes, decoy, s.login != "")
    && !Listed(s.rows, Disk(p))
  }

  method CheckErase(s: SessionCore, p: Partition, hiddenBytes: nat, decoy: Option<string>) returns (refusal: Option<Error>)
    ensures refusal.None? <==> MayErase(s, p, hiddenBytes, decoy)
  {
    if !ValidPair(p, hiddenBytes, decoy, s.login != "") {
      return Some(InvalidArgument);
    }
    if !s.auth.Authenticated() || !s.rt.remembers {
      return Some(WrongState);
    }
    if !ValidPartition(p) {
      return Some(InvalidArgument);
    }
    return if FindTarget(s.rows, Disk(p)) < |s.rows| then Some(WrongState) else None;
  }

  /** Everything a creation writes is announced first: a record before the first
      destructive write, a row for as long as there is a record, and without a
      record no row and no write at all. */
  method CreatePartition(s: SessionCore, p: Partition, hiddenBytes: nat, decoy: Option<string>)
    returns (r: Result<nat, Error>, ghost recorded: bool)
    requires s.Valid()
    modifies s`rows, s`nextId, s`nextOrdinal, s`nextRevision, s`log, s`hidden, s`formatActive,
             s.rt`volumes, s.rt`misreports, s.rt`abandoned, s.rt`tried, s.rt`attempts, s.rt`index, s.rt`trace, s.rt`faults
    ensures s.Valid() && Evolves(old(s.rows), old(s.nextRevision), s.rows, s.nextRevision)
    ensures s.formatActive == old(s.formatActive)
    ensures !recorded ==> NothingWritten(s, r)
    ensures recorded ==> old(MayErase(s, p, hiddenBytes, decoy)) && RecordedAndListed(s, p, decoy, r)
  {
    var refusal := CheckErase(s, p, hiddenBytes, decoy);
    if refusal.Some? {
      return Err(refusal.value), false;
    }
    r, recorded := PlanAndErase(s, p, decoy);
  }

  method PlanAndErase(s: SessionCore, p: Partition, decoy: Option<string>) returns (r: Result<nat, Error>, ghost recorded: bool)
    requires s.Valid() && !Listed(s.rows, Disk(p))
    modifies s`rows, s`nextId, s`nextOrdinal, s`nextRevision, s`log, s`hidden, s`formatActive,
             s.rt`volumes, s.rt`misreports, s.rt`abandoned, s.rt`tried, s.rt`attempts, s.rt`index, s.rt`trace, s.rt`faults
    ensures s.Valid() && Evolves(old(s.rows), old(s.nextRevision), s.rows, s.nextRevision)
    ensures s.formatActive == old(s.formatActive)
    ensures !recorded ==> NothingWritten(s, r)
    ensures recorded ==> RecordedAndListed(s, p, decoy, r)
  {
    var plan := PlanRecord(s, p, Normal);
    if plan.Err? {
      return Err(plan.error), false;
    }
    r, recorded := EraseAndList(s, p, plan.value.0, plan.value.1, decoy);
  }

  predicate IsPartitionRow(row: Row, id: nat, p: Partition, sequence: nat) {
    row.id == id && row.target == Disk(p) && row.conversion == Normal && row.name == PartitionName(sequence)
  }

  method EraseAndList(s: SessionCore, p: Partition, ix: Index, sequence: nat, decoy: Option<string>)
    returns (r: Result<nat, Error>, ghost recorded: bool)
    requires s.Valid() && !Listed(s.rows, Disk(p)) && sequence != 0
    requires AddsRecord(s.rt.index, ix, p, Normal)
    modifies s`rows, s`nextId, s`nextOrdinal, s`nextRevision, s`log, s`hidden, s`formatActive,
             s.rt`volumes, s.rt`misreports, s.rt`abandoned, s.rt`tried, s.rt`attempts, s.rt`index, s.rt`trace, s.rt`faults
    ensures s.Valid() && Evolves(old(s.rows), old(s.nextRevision), s.rows, s.nextRevision)
    ensures s.formatActive == old(s.formatActive)
    ensures RecordedFirst(old(s.rt.trace), s.rt.trace, if recorded then Some(ix) else None, p)
    ensures s.rt.index == if recorded then ix else old(s.rt.index)
    ensures !recorded ==> r.Err? && s.rows == old(s.rows) && s.rt.volumes == old(s.rt.volumes) && s.log == old(s.log)
    ensures recorded ==>
      && |s.rows| == |old(s.rows)| + 1 && s.rows[1..] == old(s.rows)
      && IsPartitionRow(s.rows[0], old(s.nextId), p, sequence)
      && (r.Ok? ==> r.value == s.rows[0].id && s.rows[0].mounted && (decoy.Some? ==> s.rows[0].releaseFirst))
  {
    var id := AdoptPartition(s, p, sequence, Normal);
    ghost var listed, revision := s.rows, s.nextRevision;
    AgreesWithNewRecord(old(s.rows), old(s.rt.index), listed, ix, p);
    var failure;
    failure, recorded := EraseListed(s, p, ix, decoy);
    EvolvesTransitively(old(s.rows), old(s.nextRevision), listed, revision, s.rows, s.nextRevision);
    return if failure.None? then Ok(id) else Err(failure.value), recorded;
  }

  /** The row is listed first, and stays exactly when the record was written. */
  method EraseListed(s: SessionCore, p: Partition, ix: Index, decoy: Option<string>)
    returns (failure: Option<Error>, ghost recorded: bool)
    requires s.Valid()
    requires s.rows != [] && !s.rows[0].mounted && s.rows[0].conversion == Normal
    requires AddsRecord(s.rt.index, ix, p, Normal) && Agree(s.rows, ix)
    modifies s`rows, s`nextRevision, s`log, s`hidden, s`formatActive,
             s.rt`volumes, s.rt`misreports, s.rt`abandoned, s.rt`tried, s.rt`attempts, s.rt`index, s.rt`trace, s.rt`faults
    ensures s.Valid() && Evolves(old(s.rows), old(s.nextRevision), s.rows, s.nextRevision)
    ensures s.formatActive == old(s.formatActive)
    ensures RecordedFirst(old(s.rt.trace), s.rt.trace, if recorded then Some(ix) else None, p)
    ensures s.rt.index == if recorded then ix else old(s.rt.index)
    ensures !recorded ==>
      failure.Some? && s.rows == old(s.rows)[1..] && s.rt.volumes == old(s.rt.volumes) && s.log == old(s.log)
    ensures recorded ==>
      && s.rows != [] && s.rows[1..] == old(s.rows)[1..] && SameContainer(old(s.rows)[0], s.rows[0])
      && (failure.None? ==> s.rows[0].mounted && (decoy.Some? ==> s.rows[0].releaseFirst))
  {
    var written;
    failure, written := FormatPartition(s, p, ix, decoy);
    recorded := written;
    failure := SettleListed(s, failure, written, decoy.Some?);
  }

  /** A finished partition is mounted; one that was never recorded leaves. */
  method SettleListed(s: SessionCore, formatting: Option<Error>, recorded: bool, withHidden: bool) returns (failure: Option<Error>)
    requires s.Valid() && s.rows != [] && !s.rows[0].mounted && s.rows[0].conversion == Normal
    requires formatting.None? ==> recorded
    modifies s`rows, s`nextRevision, s`log, s`hidden, s.rt`volumes, s.rt`misreports, s.rt`abandoned, s.rt`tried, s.rt`attempts
    ensures s.Valid() && Evolves(old(s.rows), old(s.nextRevision), s.rows, s.nextRevision)
    ensures !recorded ==>
      failure == formatting && s.rows == old(s.rows)[1..] && s.rt.volumes == old(s.rt.volumes) && s.log == old(s.log)
    ensures recorded ==>
      && s.rows != [] && s.rows[1..] == old(s.rows)[1..] && SameContainer(old(s.rows)[0], s.rows[0])
      && (failure.None? ==> s.rows[0].mounted && (withHidden ==> s.rows[0].releaseFirst))
  {
    failure := formatting;
    if failure.None? {
      failure := FinishPartition(s, withHidden);
    } else if !recorded {
      s.DropNewest();
    }
  }

  lemma AgreesWithNewRecord(before: seq<Row>, ix: Index, after: seq<Row>, written: Index, p: Partition)
    requires Agree(before, ix) && !Listed(before, Disk(p))
    requires |after| == |before| + 1 && after[1..] == before && after[0].target == Disk(p) && after[0].conversion == Normal
    requires AddsRecord(ix, written, p, Normal)
    ensures Agree(after, written)
  {
  }
}
