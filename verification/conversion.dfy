/** Encrypting a partition in place (card_login_mount_session.cpp:1983-2079).
    Consent, a pause and the end of the work each become durable before the
    next thing may happen; the helper may stop at any step. */
module SessionConversion {
  import opened Wrappers
  import opened ContainerIndex
  import opened ContainerTable
  import opened WriteAhead
  import opened VaultRuntime
  import opened Session
  import opened SessionPartitions

  /** The first thing a conversion writes is the record that it may be under
      way; everything after it concerns this partition. */
  ghost predicate ConsentFirst(before: Trace, after: Trace, accepted: bool, p: Partition) {
    if !accepted then after == before
    else
      && |before| < |after| && after[..|before|] == before
      && after[|before|].IndexWritten? && StateOf(after[|before|].index, p) == Some(Uncertain)
      && forall i :: |before| < i < |after| ==> after[i].IndexWritten? || after[i].partition == p
  }

  lemma ConsentStaysFirst(before: Trace, after: Trace, e: DiskEvent, p: Partition)
    requires ConsentFirst(before, after, true, p) && (e.IndexWritten? || e.partition == p)
    ensures ConsentFirst(before, after + [e], true, p)
  {
  }

  /** Once consent is written down nothing has been reported yet. */
  lemma ConsentClearsReport(start: Index, t: Trace, ix: Index, p: Partition)
    requires Durable(start, t, p) != Some(Uncertain) && StateOf(ix, p) == Some(Uncertain)
    ensures Underway(start, t + [IndexWritten(ix)], p)
  {
  }

  /** Recorded as under way, with no word from the helper. */
  predicate Underway(start: Index, t: Trace, p: Partition) {
    Durable(start, t, p) == Some(Uncertain) && LastReport(start, t, p).None?
  }

  lemma WritingStaysUnderway(start: Index, t: Trace, p: Partition)
    requires Underway(start, t, p)
    ensures Underway(start, t + [Encrypted(p)], p)
  {
  }

  lemma ReportIsLast(start: Index, t: Trace, p: Partition, paused: bool)
    requires Underway(start, t, p)
    ensures var u := t + [Reported(p, paused)];
            Durable(start, u, p) == Some(Uncertain) && LastReport(start, u, p) == Some(paused)
  {
  }

  // -- The durable record --------------------------------------------------------------------

  /** The number a partition's record carries; zero when there is none. */
  function RecordedNumber(ix: Index, p: Partition): nat {
    var k := Rank(ix, Disk(p));
    if k < |ix| then ix[k].sequence else 0
  }

  function Renamed(row: Row, sequence: nat): Row {
    if sequence == 0 then row else row.(name := PartitionName(sequence))
  }

  /** One partition's recorded state changed, and no other. */
  ghost predicate OnlyState(before: Index, after: Index, p: Partition, state: Conversion) {
    forall q :: StateOf(after, q) == if q == p then Some(state) else StateOf(before, q)
  }

  /** What may be asked of the record: a first consent, a resumed one, or the
      outcome the helper reported. */
  ghost predicate MayPersist(s: SessionCore, p: Partition, state: Conversion, insert: bool)
    reads s, s.rt
  {
    && s.Holds({}, if insert then {p} else {})
    && (insert ==> state == Uncertain)
    && (!insert && state != Uncertain ==>
          && Durable(s.rt.origin, s.rt.trace, p) == Some(Uncertain)
          && LastReport(s.rt.origin, s.rt.trace, p) == Some(state == Paused))
  }

  /** The index this change would write. A resumed conversion has to find its
      permission still there. */
  method PlanChange(s: SessionCore, p: Partition, state: Conversion, insert: bool) returns (r: Result<(Index, nat), Error>)
    requires MayPersist(s, p, state, insert)
    modifies s.rt`faults
    ensures r.Ok? ==>
      && LegalEvent(s.rt.origin, s.rt.trace, IndexWritten(r.value.0))
      && OnlyState(s.rt.index, r.value.0, p, state)
      && (state == Uncertain ==> StateOf(s.rt.index, p) != Some(Uncertain))
      && r.value.1 == RecordedNumber(r.value.0, p)
  {
    if insert {
      r := PlanRecord(s, p, state);
      return;
    }
    var read := s.rt.ReadIndex();
    if read.Err? {
      return Err(read.error);
    }
    if state == Uncertain && StateOf(read.value, p) != Some(Paused) {
      return Err(WrongState);
    }
    var changed := SetState(read.value, p, state);
    if changed.None? {
      return Err(WrongState);
    }
    SetStateEffect(read.value, p, state);
    NumberStays(read.value, p, state);
    return Ok((changed.value, read.value[Rank(read.value, Disk(p))].sequence));
  }

  lemma NumberStays(ix: Index, p: Partition, state: Conversion)
    requires Known(ix, Disk(p))
    ensures SetState(ix, p, state).Some? && RecordedNumber(SetState(ix, p, state).value, p) == ix[Rank(ix, Disk(p))].sequence
  {
    RankReadsTargets(ix, SetState(ix, p, state).value, Disk(p));
  }

  /** Puts the change on disk, unless the card left in the meantime. */
  method WriteChange(s: SessionCore, p: Partition, state: Conversion, insert: bool) returns (r: Result<nat, Error>)
    requires MayPersist(s, p, state, insert)
    modifies s.rt`index, s.rt`trace, s.rt`faults
    ensures s.rt.Valid()
    ensures r.Err? ==>
      && s.rt.index == old(s.rt.index) && s.rt.trace == old(s.rt.trace)
      && s.Holds({}, if insert then {p} else {})
    ensures r.Ok? ==>
      && s.rt.trace == old(s.rt.trace) + [IndexWritten(s.rt.index)]
      && OnlyState(old(s.rt.index), s.rt.index, p, state) && StateOf(s.rt.index, p) == Some(state)
      && r.value == RecordedNumber(s.rt.index, p)
      && (state == Uncertain ==> Underway(s.rt.origin, s.rt.trace, p))
  {
    var plan := PlanChange(s, p, state, insert);
    if plan.Err? {
      return Err(plan.error);
    }
    var gone := Revoked(s);
    if gone {
      return Err(Cancelled);
    }
    var failure := s.rt.WriteIndex(plan.value.0);
    if failure.Some? {
      return Err(failure.value);
    }
    if state == Uncertain {
      ConsentClearsReport(s.rt.origin, old(s.rt.trace), s.rt.index, p);
    }
    return Ok(plan.value.1);
  }

  method Persist(s: SessionCore, k: nat, p: Partition, state: Conversion, insert: bool) returns (failure: Option<Error>)
    requires MayPersist(s, p, state, insert)
    requires k < |s.rows| && s.rows[k].target == Disk(p)
    modifies s`rows, s.rt`index, s.rt`trace, s.rt`faults
    ensures failure.Some? ==>
      && s.Holds({}, if insert then {p} else {})
      && s.rows == old(s.rows) && s.rt.index == old(s.rt.index) && s.rt.trace == old(s.rt.trace)
    ensures failure.None? ==>
      && s.Valid() && Evolves(old(s.rows), s.nextRevision, s.rows, s.nextRevision)
      && s.rows == old(s.rows)[k := Renamed(old(s.rows)[k].(conversion := state), RecordedNumber(s.rt.index, p))]
      && s.rt.trace == old(s.rt.trace) + [IndexWritten(s.rt.index)]
      && StateOf(s.rt.index, p) == Some(state)
      && (state == Uncertain ==> Underway(s.rt.origin, s.rt.trace, p))
  {
    var written := WriteChange(s, p, state, insert);
    if written.Err? {
      return Some(written.error);
    }
    SettleRow(s, k, p, Renamed(s.rows[k].(conversion := state), written.value), old(s.rt.index), insert);
    return None;
  }

  /** The row takes over what was just recorded. */
  method SettleRow(s: SessionCore, k: nat, p: Partition, row: Row, ghost before: Index, ghost insert: bool)
    requires s.rt.Valid() && s.HiddenInOrder() && 1 <= s.nextId && TableOk(s.rows, s.nextId, s.nextRevision)
    requires s.rt.volumes <= MountedLetters(s.rows) + s.rt.abandoned
    requires Agree(s.rows, before, if insert then {p} else {})
    requires k < |s.rows| && s.rows[k].target == Disk(p)
    requires row == s.rows[k].(conversion := row.conversion, name := row.name)
    requires OnlyState(before, s.rt.index, p, row.conversion)
    modifies s`rows
    ensures s.Valid() && Evolves(old(s.rows), s.nextRevision, s.rows, s.nextRevision)
    ensures s.rows == old(s.rows)[k := row]
  {
    RelabelKeepsTable(s.rows, k, row, s.nextId, s.nextRevision);
    forall i | 0 <= i < |s.rows| && i != k ensures s.rows[i].target != Disk(p) {
      assert Apart(s.rows[i], s.rows[k]);
    }
    s.rows := s.rows[k := row];
  }

  // -- The helper --------------------------------------------------------------------------

  /** Where a running conversion stands. */
  ghost predicate Progress(s: SessionCore, k: nat, p: Partition, insert: bool, accepted: bool, rows: seq<Row>, trace: Trace)
    reads s, s.rt
  {
    && s.Holds({}, if insert && !accepted then {p} else {})
    && Evolves(rows, s.nextRevision, s.rows, s.nextRevision)
    && k < |s.rows| == |rows| && s.rows[k].target == Disk(p)
    && (if accepted then Converted(rows, s.rows, k, s.rt.index, p) && s.rows[k].conversion == Uncertain
        else s.rows == rows)
    && ConsentFirst(trace, s.rt.trace, accepted, p)
  }

  /** The helper's one question. Consent is written down before it is given. */
  method AskConsent(s: SessionCore, k: nat, p: Partition, insert: bool, ghost rows: seq<Row>, ghost trace: Trace)
    returns (failure: Option<Error>, accepted: bool, granted: bool)
    requires Progress(s, k, p, insert, false, rows, trace)
    modifies s`rows, s.rt`index, s.rt`trace, s.rt`faults
    ensures Progress(s, k, p, insert, accepted, rows, trace)
    ensures accepted ==> Underway(s.rt.origin, s.rt.trace, p)
    ensures granted ==> accepted
  {
    var gone := Revoked(s);
    if gone {
      return None, false, false;
    }
    var confirmed := s.rt.Ask();
    gone := Revoked(s);
    if !confirmed || gone {
      return None, false, false;
    }
    failure := Persist(s, k, p, Uncertain, insert);
    if failure.Some? {
      return failure, false, false;
    }
    gone := Revoked(s);
    return None, true, !gone;
  }

  /** Step by step until it returns or fails; with `r` it tells whether it was
      paused. Without consent it writes nothing. */
  method RunHelper(s: SessionCore, k: nat, p: Partition, insert: bool, ghost rows: seq<Row>, ghost trace: Trace)
    returns (r: Result<bool, Error>, accepted: bool)
    requires Progress(s, k, p, insert, false, rows, trace)
    modifies s`rows, s.rt`index, s.rt`trace, s.rt`faults
    ensures Progress(s, k, p, insert, accepted, rows, trace)
    ensures r.Ok? && accepted ==> LastReport(s.rt.origin, s.rt.trace, p) == Some(r.value)
  {
    var requested, granted := false, false;
    accepted := false;
    var steps := s.rt.Steps();
    for i := 0 to steps
      invariant Progress(s, k, p, insert, accepted, rows, trace)
      invariant accepted ==> Underway(s.rt.origin, s.rt.trace, p)
      invariant granted ==> accepted
      invariant accepted ==> requested
    {
      var stop := s.rt.Try();
      if stop.Some? {
        return Err(stop.value), accepted;
      }
      var asks := s.rt.Ask();
      if asks && !requested {
        requested := true;
        var failure;
        failure, accepted, granted := AskConsent(s, k, p, insert, rows, trace);
        if failure.Some? {
          return Err(failure.value), accepted;
        }
      } else if granted {
        HelperActs(s, k, p, insert, rows, trace, Encrypted(p));
      }
    }
    var paused := s.rt.Ask();
    if accepted {
      HelperActs(s, k, p, insert, rows, trace, Reported(p, paused));
    }
    return Ok(paused), accepted;
  }

  ghost method HelperActs(s: SessionCore, k: nat, p: Partition, insert: bool, rows: seq<Row>, trace: Trace, e: DiskEvent)
    requires Progress(s, k, p, insert, true, rows, trace) && Underway(s.rt.origin, s.rt.trace, p)
    requires e == Encrypted(p) || (e.Reported? && e.partition == p)
    modifies s.rt`trace, s.rt`faults
    ensures Progress(s, k, p, insert, true, rows, trace)
    ensures if e.Encrypted? then Underway(s.rt.origin, s.rt.trace, p)
            else LastReport(s.rt.origin, s.rt.trace, p) == Some(e.paused)
  {
    ConsentStaysFirst(trace, s.rt.trace, e, p);
    WritingStaysUnderway(s.rt.origin, s.rt.trace, p);
    if e.Reported? {
      ReportIsLast(s.rt.origin, s.rt.trace, p, e.paused);
    }
    s.rt.Happens(e);
  }

  // -- The whole operation ---------------------------------------------------------------------

  /** Runs the helper and records what it reported. */
  method ConvertRow(s: SessionCore, k: nat, p: Partition, insert: bool, ghost rows: seq<Row>, ghost trace: Trace)
    returns (r: Result<bool, Error>, accepted: bool)
    requires Progress(s, k, p, insert, false, rows, trace)
    modifies s`rows, s.rt`index, s.rt`trace, s.rt`faults
    ensures s.Holds({}, if insert && !accepted then {p} else {}) && Evolves(rows, s.nextRevision, s.rows, s.nextRevision)
    ensures ConsentFirst(trace, s.rt.trace, accepted, p)
    ensures !accepted ==> r.Err? && s.rows == rows && s.log == old(s.log) && s.rt.volumes == old(s.rt.volumes)
    ensures accepted ==> k < |rows| == |s.rows| && Converted(rows, s.rows, k, s.rt.index, p)
    ensures r.Ok? ==> s.rows[k].conversion == if r.value then Paused else Normal
  {
    r, accepted := RunHelper(s, k, p, insert, rows, trace);
    if r.Err? {
      return;
    }
    var gone := Revoked(s);
    if gone {
      return Err(Cancelled), accepted;
    }
    if !accepted {
      return Err(WrongState), accepted;
    }
    var failure := RecordOutcome(s, k, p, insert, rows, trace, r.value);
    if failure.Some? {
      r := Err(failure.value);
    }
  }

  /** What the helper reported becomes durable; until then the record keeps
      saying that the work is under way. */
  method RecordOutcome(s: SessionCore, k: nat, p: Partition, insert: bool, ghost rows: seq<Row>, ghost trace: Trace, paused: bool)
    returns (failure: Option<Error>)
    requires Progress(s, k, p, insert, true, rows, trace)
    requires LastReport(s.rt.origin, s.rt.trace, p) == Some(paused)
    modifies s`rows, s.rt`index, s.rt`trace, s.rt`faults
    ensures s.Valid() && Evolves(rows, s.nextRevision, s.rows, s.nextRevision)
    ensures ConsentFirst(trace, s.rt.trace, true, p)
    ensures Converted(rows, s.rows, k, s.rt.index, p)
    ensures failure.None? ==> s.rows[k].conversion == if paused then Paused else Normal
  {
    ghost var current := s.rows;
    failure := Persist(s, k, p, if paused then Paused else Normal, false);
    if failure.None? {
      ConsentStaysFirst(trace, old(s.rt.trace), IndexWritten(s.rt.index), p);
      ConvertedAgain(rows, current, k, old(s.rt.index), s.rt.index, p, if paused then Paused else Normal);
      EvolvesTransitively(rows, s.nextRevision, current, s.nextRevision, s.rows, s.nextRevision);
    }
  }

  lemma ConvertedAgain(rows: seq<Row>, current: seq<Row>, k: nat, before: Index, after: Index, p: Partition, state: Conversion)
    requires Converted(rows, current, k, before, p) && StateOf(after, p) == Some(state)
    ensures var changed := current[k := Renamed(current[k].(conversion := state), RecordedNumber(after, p))];
            Converted(rows, changed, k, after, p) && changed[k].conversion == state
  {
  }

  /** Only the partition's own row changed, and it says what the record says. */
  predicate Converted(before: seq<Row>, after: seq<Row>, k: nat, ix: Index, p: Partition) {
    && k < |before| == |after|
    && after == before[k := before[k].(conversion := after[k].conversion, name := after[k].name)]
    && StateOf(ix, p) == Some(after[k].conversion)
    && (RecordedNumber(ix, p) != 0 ==> after[k].name == PartitionName(RecordedNumber(ix, p)))
  }

  /** The finished container is mounted, unless a pause was asked for. */
  method FinishConversion(s: SessionCore, k: nat, paused: bool, ghost before: seq<Row>) returns (failure: Option<Error>)
    requires s.Valid() && k < |s.rows| && !s.rows[k].mounted && s.rows[k].conversion == if paused then Paused else Normal
    requires Evolves(before, s.nextRevision, s.rows, s.nextRevision)
    modifies s`rows, s`nextRevision, s`log, s`hidden, s.rt`volumes, s.rt`misreports, s.rt`abandoned, s.rt`tried, s.rt`attempts
    ensures s.Valid() && Evolves(before, old(s.nextRevision), s.rows, s.nextRevision)
    ensures s.rt.index == old(s.rt.index) && s.rt.trace == old(s.rt.trace)
    ensures |s.rows| == |old(s.rows)| && s.rows == old(s.rows)[k := s.rows[k]] && SameContainer(old(s.rows)[k], s.rows[k])
    ensures paused ==> s.rows == old(s.rows)
  {
    var cancelled := Revoked(s);
    if cancelled {
      return Some(Cancelled);
    }
    if paused {
      return None;
    }
    failure := None;
    var stop := s.rt.Ask();
    if !stop {
      var gone;
      failure, gone := MountWritten(s, k);
      EvolvesTransitively(before, old(s.nextRevision), old(s.rows), old(s.nextRevision), s.rows, s.nextRevision);
      if failure.None? && gone {
        cancelled := Revoked(s);
        failure := if cancelled then Some(Cancelled) else None;
      }
    }
    if failure.None? {
      failure := s.rt.Try();
    }
  }

  method ConvertAndFinish(s: SessionCore, k: nat, p: Partition, insert: bool) returns (r: Result<bool, Error>, accepted: bool)
    requires s.Holds({}, if insert then {p} else {})
    requires k < |s.rows| && s.rows[k].target == Disk(p) && !s.rows[k].mounted
    modifies s`rows, s`nextRevision, s`log, s`hidden,
             s.rt`volumes, s.rt`misreports, s.rt`abandoned, s.rt`tried, s.rt`attempts, s.rt`index, s.rt`trace, s.rt`faults
    ensures s.Holds({}, if insert && !accepted then {p} else {})
    ensures Evolves(old(s.rows), old(s.nextRevision), s.rows, s.nextRevision)
    ensures ConsentFirst(old(s.rt.trace), s.rt.trace, accepted, p)
    ensures !accepted ==> r.Err? && s.rows == old(s.rows) && s.log == old(s.log) && s.rt.volumes == old(s.rt.volumes)
    ensures accepted ==> AfterConversion(old(s.rows), s.rows, k, s.rt.index, p)
    ensures r.Ok? ==> s.rows[k].conversion == if r.value then Paused else Normal
  {
    r, accepted := ConvertRow(s, k, p, insert, s.rows, s.rt.trace);
    if r.Ok? {
      var failure := FinishConversion(s, k, r.value, old(s.rows));
      if failure.Some? {
        r := Err(failure.value);
      }
    }
  }

  /** The partition's row is there to stay, and only its own mount, name and
      state changed. An unfinished one is not mounted. */
  predicate AfterConversion(before: seq<Row>, after: seq<Row>, k: nat, ix: Index, p: Partition) {
    && k < |before| == |after|
    && after == before[k := after[k]]
    && SameContainer(before[k].(conversion := after[k].conversion, name := after[k].name), after[k])
    && StateOf(ix, p) == Some(after[k].conversion)
    && (RecordedNumber(ix, p) != 0 ==> after[k].name == PartitionName(RecordedNumber(ix, p)))
    && (after[k].mounted ==> after[k].conversion == Normal)
  }

  /** The part of the guard that both ways into a conversion share. */
  method MayConvert(s: SessionCore, p: Partition) returns (refusal: Option<Error>)
    ensures refusal.None? ==> s.auth.Authenticated() && !s.formatActive && s.rt.remembers && ValidPartition(p)
  {
    if !s.auth.Authenticated() || s.formatActive || !s.rt.remembers {
      return Some(WrongState);
    }
    if !ValidPartition(p) {
      return Some(InvalidArgument);
    }
    var gone := Revoked(s);
    if gone {
      return Some(Cancelled);
    }
    var key := s.rt.Derive(Fixed);
    return if key.Err? then Some(key.error) else None;
  }

  /** The row a conversion lists, telling the same as the record. */
  ghost predicate ListedByConversion(before: seq<Row>, after: seq<Row>, id: nat, p: Partition, ix: Index, r: Result<bool, Error>) {
    && |after| == |before| + 1 && after[1..] == before
    && after[0].id == id && after[0].target == Disk(p)
    && StateOf(ix, p) == Some(after[0].conversion)
    && (after[0].mounted ==> after[0].conversion == Normal)
    && (r.Ok? ==> after[0].conversion == if r.value then Paused else Normal)
  }

  /** Starts encrypting a partition the session does not list. If consent is
      never written down the session is as before; once it is, the row stays
      and tells the same as the record, whatever happens next. */
  method BeginConversion(s: SessionCore, p: Partition) returns (r: Result<bool, Error>, ghost accepted: bool)
    requires s.Valid()
    modifies s`rows, s`nextId, s`nextOrdinal, s`nextRevision, s`log, s`hidden, s`formatActive,
             s.rt`volumes, s.rt`misreports, s.rt`abandoned, s.rt`tried, s.rt`attempts, s.rt`index, s.rt`trace, s.rt`faults
    ensures s.Valid() && Evolves(old(s.rows), old(s.nextRevision), s.rows, s.nextRevision)
    ensures s.formatActive == old(s.formatActive)
    ensures ConsentFirst(old(s.rt.trace), s.rt.trace, accepted, p)
    ensures !accepted ==> r.Err? && s.rows == old(s.rows) && s.log == old(s.log) && s.rt.volumes == old(s.rt.volumes)
    ensures accepted ==>
      && s.auth.Authenticated() && s.rt.remembers && ValidPartition(p) && !Listed(old(s.rows), Disk(p))
      && ListedByConversion(old(s.rows), s.rows, old(s.nextId), p, s.rt.index, r)
  {
    var refusal := MayConvert(s, p);
    if refusal.Some? || FindTarget(s.rows, Disk(p)) < |s.rows| {
      return Err(if refusal.Some? then refusal.value else WrongState), false;
    }
    s.formatActive := true;
    r, accepted := ListAndConvert(s, p);
    s.formatActive := false;
  }

  method ListAndConvert(s: SessionCore, p: Partition) returns (r: Result<bool, Error>, ghost accepted: bool)
    requires s.Valid() && !Listed(s.rows, Disk(p))
    modifies s`rows, s`nextId, s`nextOrdinal, s`nextRevision, s`log, s`hidden,
             s.rt`volumes, s.rt`misreports, s.rt`abandoned, s.rt`tried, s.rt`attempts, s.rt`index, s.rt`trace, s.rt`faults
    ensures s.Valid() && Evolves(old(s.rows), old(s.nextRevision), s.rows, s.nextRevision)
    ensures ConsentFirst(old(s.rt.trace), s.rt.trace, accepted, p)
    ensures !accepted ==> r.Err? && s.rows == old(s.rows) && s.log == old(s.log) && s.rt.volumes == old(s.rt.volumes)
    ensures accepted ==> ListedByConversion(old(s.rows), s.rows, old(s.nextId), p, s.rt.index, r)
  {
    var id := AdoptPartition(s, p, 0, Normal, {p});
    ghost var listed, revision := s.rows, s.nextRevision;
    r, accepted := ConvertListed(s, p);
    EvolvesTransitively(old(s.rows), old(s.nextRevision), listed, revision, s.rows, s.nextRevision);
  }

  method ConvertListed(s: SessionCore, p: Partition) returns (r: Result<bool, Error>, ghost accepted: bool)
    requires s.Holds({}, {p}) && s.rows != [] && s.rows[0].target == Disk(p) && !s.rows[0].mounted
    modifies s`rows, s`nextRevision, s`log, s`hidden,
             s.rt`volumes, s.rt`misreports, s.rt`abandoned, s.rt`tried, s.rt`attempts, s.rt`index, s.rt`trace, s.rt`faults
    ensures s.Valid() && Evolves(old(s.rows), old(s.nextRevision), s.rows, s.nextRevision)
    ensures ConsentFirst(old(s.rt.trace), s.rt.trace, accepted, p)
    ensures !accepted ==> r.Err? && s.rows == old(s.rows)[1..] && s.log == old(s.log) && s.rt.volumes == old(s.rt.volumes)
    ensures accepted ==>
      && AfterConversion(old(s.rows), s.rows, 0, s.rt.index, p)
      && (r.Ok? ==> s.rows[0].conversion == if r.value then Paused else Normal)
  {
    var consented;
    r, consented := ConvertAndFinish(s, 0, p, true);
    accepted := consented;
    if !consented {
      s.DropNewest({p});
    }
  }

  /** Goes on with a paused partition. Each run uses up one recorded pause. */
  method ResumeConversion(s: SessionCore, id: nat) returns (r: Result<bool, Error>, ghost accepted: bool)
    requires s.Valid()
    modifies s`rows, s`nextRevision, s`log, s`hidden, s`formatActive,
             s.rt`volumes, s.rt`misreports, s.rt`abandoned, s.rt`tried, s.rt`attempts, s.rt`index, s.rt`trace, s.rt`faults
    ensures s.Valid() && Evolves(old(s.rows), old(s.nextRevision), s.rows, s.nextRevision)
    ensures s.formatActive == old(s.formatActive)
    ensures !accepted ==>
      r.Err? && s.rows == old(s.rows) && s.log == old(s.log) && s.rt.volumes == old(s.rt.volumes) && s.rt.trace == old(s.rt.trace)
    ensures accepted ==>
      var k := FindById(old(s.rows), id);
      && s.auth.Authenticated() && k < |old(s.rows)| && old(s.rows)[k].target.Disk?
      && old(s.rows)[k].conversion == Paused && !old(s.rows)[k].mounted
      && var p := old(s.rows)[k].target.partition;
         && ConsentFirst(old(s.rt.trace), s.rt.trace, true, p)
         && AfterConversion(old(s.rows), s.rows, k, s.rt.index, p)
         && (r.Ok? ==> s.rows[k].conversion == if r.value then Paused else Normal)
  {
    var k := FindById(s.rows, id);
    if !s.auth.Authenticated() || k == |s.rows| || !s.rows[k].target.Disk? || s.rows[k].mounted || s.rows[k].conversion != Paused {
      return Err(WrongState), false;
    }
    var p := s.rows[k].target.partition;
    var missing := s.rt.Try();
    if missing.Some? {
      return Err(missing.value), false;
    }
    var refusal := MayConvert(s, p);
    if refusal.Some? {
      return Err(refusal.value), false;
    }
    s.formatActive := true;
    var consented;
    r, consented := ConvertAndFinish(s, k, p, false);
    accepted := consented;
    s.formatActive := false;
  }
}
