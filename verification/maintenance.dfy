/** Opening the outer volume of a two-volume container with its hidden volume
    protected, for good or only to try a password
    (card_login_mount_session.cpp:2547-2998). Whatever the driver refuses at
    whichever step, the session keeps an account of the volume. */
module SessionMaintenance {
  import opened Wrappers
  import opened ContainerTable
  import opened VaultRuntime
  import opened Session
  import Log = OperationLog

  /** How an attempt to bring up the outer volume ended. */
  datatype End =
    | NotStarted
    | Refused
    /** The wrong volume came up and would not leave: the row owns it. */
    | Stranded
    /** The driver would not say which volume came up. */
    | Unclassified
    | Up

  /** What an attempt may leave of a row that was free. */
  predicate EndsAs(before: Row, after: Row, end: End, open: bool) {
    match end
    case Stranded => after.watch.Some? && after == Mounted(before, after.letter, after.watch.value)
    case Up =>
      && after.watch.Some?
      && after == Mounted(before, after.letter, after.watch.value).(
           releaseFirst := true, derivationKnown := true, maintenance := open,
           identity := after.identity, recovery := false)
      && (if open then after.identity.Some? && after.identity.value.protectedOuter && after.identity.value.letter == after.letter
          else after.identity.None?)
    case _ => after == before
  }

  function Freed(row: Row): Row {
    if row.mounted then Released(row) else row
  }

  /** What the attempt adds to the history: only opening is shown. */
  function AttemptLog(before: Log.Log, row: Row, end: End, letter: char, open: bool): Log.Log {
    var base := if row.mounted then before.Record(UnmountEvent(true, DisplayName(row), row.letter)) else before;
    if !open || end == NotStarted || end == Unclassified then base
    else if end == Up then base.Record(MountEvent(true, DisplayName(row), letter))
    else base.Record(MountEvent(false, DisplayName(row), Log.NO_LETTER))
  }

  /** The attempt ended before the driver was asked for the outer volume: the
      row would not let its volume go, or it did. */
  predicate StoppedEarly(before: Row, after: Row, log: Log.Log, logAfter: Log.Log) {
    || (before.mounted && after == before && logAfter == log.Record(UnmountEvent(false, DisplayName(before), before.letter)))
    || (after == Freed(before) && logAfter == AttemptLog(log, before, NotStarted, NO_LETTER, false))
  }

  /** Whatever became of an attempt, the row is as it was, or free, or on the
      volume that came up. */
  predicate AttemptLeft(before: Row, after: Row, open: bool) {
    || after == before || after == Freed(before)
    || EndsAs(Freed(before), after, Stranded, open) || EndsAs(Freed(before), after, Up, open)
  }

  /** The outer volume is up on the row for maintenance, opened with the key. */
  predicate OuterUp(before: Row, after: Row, log: Log.Log, logAfter: Log.Log, letter: char, tried: seq<Key>, key: Key) {
    && EndsAs(Freed(before), after, Up, true) && after.letter == letter
    && logAfter == AttemptLog(log, before, Up, letter, true)
    && LastTried(tried, key)
  }

  /** At most this row changed. */
  predicate OneAttemptLeft(before: seq<Row>, after: seq<Row>, k: nat, open: bool) {
    || after == before
    || (k < |before| == |after| && after == before[k := after[k]] && AttemptLeft(before[k], after[k], open))
  }

  /** One container serves one volume: what it serves now goes first. */
  method FreeRow(s: SessionCore, k: nat) returns (failure: Option<Error>)
    requires s.Valid() && k < |s.rows|
    modifies s`rows, s`log, s.rt`volumes, s.rt`attempts
    ensures s.Valid() && Evolves(old(s.rows), s.nextRevision, s.rows, s.nextRevision)
    ensures failure.None? ==>
      && s.rows == old(s.rows)[k := Freed(old(s.rows)[k])]
      && s.log == AttemptLog(old(s.log), old(s.rows)[k], NotStarted, NO_LETTER, false)
    ensures failure.Some? ==>
      && s.rows == old(s.rows) && s.rt.volumes == old(s.rt.volumes) && old(s.rows)[k].mounted && failure.value.System?
      && s.log == old(s.log).Record(UnmountEvent(false, DisplayName(old(s.rows)[k]), old(s.rows)[k].letter))
    ensures s.rt.volumes <= old(s.rt.volumes)
  {
    if s.rows[k].mounted {
      FindsOwnId(s.rows, k, s.nextId, s.nextRevision);
      failure := s.Unmount(s.rows[k].id, true);
    } else {
      failure := None;
    }
  }

  method TryOuterVolume(s: SessionCore, key: Key) returns (letter: Option<char>)
    modifies s.rt`volumes, s.rt`misreports, s.rt`abandoned, s.rt`tried
    ensures letter.Some? ==> LastTried(s.rt.tried, key)
    ensures letter.Some? ==>
      && IsLetter(letter.value) && letter.value !in MountedLetters(s.rows) && letter.value !in old(s.rt.volumes)
      && s.rt.volumes == old(s.rt.volumes) + {letter.value} && s.rt.abandoned == old(s.rt.abandoned) - {letter.value}
    ensures letter.None? ==> s.rt.volumes == old(s.rt.volumes) && s.rt.abandoned == old(s.rt.abandoned)
  {
    var mounted := s.MountReserved(key);
    return if mounted.Ok? then Some(mounted.value) else None;
  }

  /** A volume that must not stay: it leaves, or its row owns it from here on. */
  method RejectVolume(s: SessionCore, k: nat, letter: char) returns (end: End)
    requires s.Holds({letter}) && k < |s.rows| && !s.rows[k].mounted
    requires IsLetter(letter) && letter !in MountedLetters(s.rows)
    modifies s`rows, s`nextRevision, s.rt`volumes, s.rt`attempts
    ensures s.Valid() && Evolves(old(s.rows), old(s.nextRevision), s.rows, s.nextRevision)
    ensures end.Refused? || end == Stranded
    ensures |s.rows| == |old(s.rows)| && s.rows == old(s.rows)[k := s.rows[k]] && EndsAs(old(s.rows)[k], s.rows[k], end, false)
    ensures s.rt.volumes == (if end.Refused? then old(s.rt.volumes) - {letter} else old(s.rt.volumes))
    ensures end == Stranded ==> s.rows[k].letter == letter
  {
    var forced := s.rt.UnmountForced(letter);
    if forced.Ok? {
      return End.Refused;
    }
    s.AttachRow(k, s.rows[k].(letter := letter, mounted := true));
    return Stranded;
  }

  /** The volume's type and, when it is to stay, its identity decide. */
  method JudgeVolume(s: SessionCore, k: nat, letter: char, open: bool) returns (end: End)
    requires s.Holds({letter}) && k < |s.rows| && !s.rows[k].mounted
    requires IsLetter(letter) && letter !in MountedLetters(s.rows)
    modifies s`rows, s`nextRevision, s.rt`volumes, s.rt`attempts, s.rt`abandoned
    ensures s.Valid() && Evolves(old(s.rows), old(s.nextRevision), s.rows, s.nextRevision)
    ensures end != NotStarted
    ensures |s.rows| == |old(s.rows)| && s.rows == old(s.rows)[k := s.rows[k]] && EndsAs(old(s.rows)[k], s.rows[k], end, open)
    ensures s.rt.volumes == (if end.Refused? then old(s.rt.volumes) - {letter} else old(s.rt.volumes))
    ensures s.rt.abandoned == (if end == Unclassified then old(s.rt.abandoned) + {letter} else old(s.rt.abandoned))
    ensures end == Up || end == Stranded ==> s.rows[k].letter == letter
  {
    var outer := s.rt.MountedOuter(letter);
    if outer.Err? {
      return Unclassified;
    }
    var accepted := outer.value;
    var identity: Option<Identity> := None;
    if accepted && open {
      var answer := s.rt.MountIdentity(letter);
      accepted := answer.Ok? && answer.value.protectedOuter && answer.value.letter == letter;
      identity := if accepted then Some(answer.value) else None;
    }
    if !accepted {
      end := RejectVolume(s, k, letter);
      return;
    }
    s.AttachRow(k, s.rows[k].(letter := letter, mounted := true, releaseFirst := true, derivationKnown := true,
                              maintenance := open, identity := identity, recovery := false));
    return Up;
  }

  /** Brings the outer volume up on a row, or leaves the row unmounted, or lets
      it own the wrong volume that would not leave. A volume is left to nobody
      in one case only: the driver would not say what it is. */
  method MountOuter(s: SessionCore, k: nat, key: Key, open: bool) returns (r: Result<char, Error>, ghost end: End)
    requires s.Valid() && k < |s.rows|
    modifies s`rows, s`nextRevision, s`log, s`hidden, s.rt`volumes, s.rt`attempts, s.rt`misreports, s.rt`tried, s.rt`abandoned
    ensures s.Valid() && Evolves(old(s.rows), old(s.nextRevision), s.rows, s.nextRevision)
    ensures |s.rows| == |old(s.rows)| && s.rows == old(s.rows)[k := s.rows[k]]
    ensures r.Ok? ==> end == Up && s.rows[k].mounted && s.rows[k].letter == r.value
    ensures r == Err(MaintenanceRefused) <==> end.Refused? || end == Stranded
    ensures end == Up && !open ==> r.Ok?
    ensures end == Up ==> LastTried(s.rt.tried, key)
    ensures AttemptLeft(old(s.rows)[k], s.rows[k], open)
    ensures r.Ok? && open ==> OuterUp(old(s.rows)[k], s.rows[k], old(s.log), s.log, r.value, s.rt.tried, key)
    ensures end == NotStarted ==> StoppedEarly(old(s.rows)[k], s.rows[k], old(s.log), s.log)
    ensures end != NotStarted ==>
      && EndsAs(Freed(old(s.rows)[k]), s.rows[k], end, open)
      && s.log == AttemptLog(old(s.log), old(s.rows)[k], end, s.rows[k].letter, open)
    ensures end != Unclassified ==> s.rt.abandoned <= old(s.rt.abandoned)
  {
    end := NotStarted;
    var stuck := FreeRow(s, k);
    if stuck.Some? {
      return Err(stuck.value), end;
    }
    var hidden := s.HiddenPassword();
    if hidden.Err? {
      return Err(hidden.error), end;
    }
    r, end := MountFreeRow(s, k, key, open, old(s.rows));
  }

  method MountFreeRow(s: SessionCore, k: nat, key: Key, open: bool, ghost before: seq<Row>)
    returns (r: Result<char, Error>, ghost end: End)
    requires s.Valid() && k < |s.rows| && !s.rows[k].mounted && Evolves(before, s.nextRevision, s.rows, s.nextRevision)
    modifies s`rows, s`nextRevision, s`log, s.rt`volumes, s.rt`attempts, s.rt`misreports, s.rt`tried, s.rt`abandoned
    ensures s.Valid() && Evolves(before, old(s.nextRevision), s.rows, s.nextRevision)
    ensures |s.rows| == |old(s.rows)| && s.rows == old(s.rows)[k := s.rows[k]]
    ensures r.Ok? ==> end == Up && s.rows[k].mounted && s.rows[k].letter == r.value
    ensures r == Err(MaintenanceRefused) <==> end.Refused? || end == Stranded
    ensures end == Up && !open ==> r.Ok?
    ensures end == Up ==> LastTried(s.rt.tried, key)
    ensures end != NotStarted && EndsAs(old(s.rows)[k], s.rows[k], end, open)
    ensures s.log == AttemptLog(old(s.log), old(s.rows)[k], end, s.rows[k].letter, open)
    ensures end != Unclassified ==> s.rt.abandoned <= old(s.rt.abandoned)
  {
    var name := DisplayName(s.rows[k]);
    var letter := TryOuterVolume(s, key);
    var came := End.Refused;
    if letter.Some? {
      came := JudgeVolume(s, k, letter.value, open);
      EvolvesTransitively(before, old(s.nextRevision), old(s.rows), old(s.nextRevision), s.rows, s.nextRevision);
    }
    end := came;
    r := Report(s, name, came, if letter.Some? then letter.value else NO_LETTER, open);
  }

  /** The answer, and the event that an attempt to open leaves. */
  method Report(s: SessionCore, name: string, end: End, letter: char, open: bool) returns (r: Result<char, Error>)
    requires end != NotStarted
    modifies s`log
    ensures r.Ok? ==> end == Up && r.value == letter
    ensures r == Err(MaintenanceRefused) <==> end.Refused? || end == Stranded
    ensures end == Up && !open ==> r.Ok?
    ensures s.log == if !open || end == Unclassified then old(s.log)
                     else old(s.log).Record(if end == Up then MountEvent(true, name, letter) else MountEvent(false, name, Log.NO_LETTER))
  {
    if end == Unclassified {
      return Err(System(0));
    }
    if end != Up {
      if open {
        s.RecordOperation(MountEvent(false, name, Log.NO_LETTER));
      }
      return Err(MaintenanceRefused);
    }
    if open {
      s.RecordOperation(MountEvent(true, name, letter));
      var late := s.rt.Try();
      if late.Some? {
        return Err(late.value);
      }
    }
    return Ok(letter);
  }

  // -- Trying a password ------------------------------------------------------------------

  /** What a trial teaches about one container. */
  datatype Verdict =
    | Skipped
    | Opens
    | DoesNot
    | Unknown

  /** A container known to open on the standard derivation has no outer volume. */
  predicate HasNoOuter(row: Row) {
    row.derivationKnown && !row.releaseFirst
  }

  predicate Leaves(before: Row, after: Row, v: Verdict) {
    match v
    case Skipped => after == before
    case Opens => after == Freed(before).(releaseFirst := true, derivationKnown := true, recovery := false)
    case DoesNot => after == Freed(before) || EndsAs(Freed(before), after, Stranded, false)
    case Unknown => after == before || after == Freed(before) || EndsAs(Freed(before), after, Up, false)
  }

  predicate Tried(before: Row, after: Row, v: Verdict) {
    (v == Skipped <==> HasNoOuter(before)) && Leaves(before, after, v)
  }

  /** The history shows at most that the container was unmounted for a trial,
      or would not be. */
  predicate TrialLog(before: Row, after: Row, v: Verdict, log: Log.Log, logAfter: Log.Log) {
    || logAfter == AttemptLog(log, before, NotStarted, NO_LETTER, false)
    || (v == Unknown && StoppedEarly(before, after, log, logAfter))
  }

  /** What a trial that ended one way or the other tells, and leaves. */
  lemma RefusedTrial(before: Row, after: Row, end: End, log: Log.Log, logAfter: Log.Log)
    requires end.Refused? || end == Stranded
    requires EndsAs(Freed(before), after, end, false) && logAfter == AttemptLog(log, before, end, after.letter, false)
    ensures Leaves(before, after, DoesNot) && TrialLog(before, after, DoesNot, log, logAfter)
  {
  }

  lemma StoppedTrial(before: Row, after: Row, end: End, log: Log.Log, logAfter: Log.Log)
    requires end == NotStarted || end == Unclassified
    requires end == NotStarted ==> StoppedEarly(before, after, log, logAfter)
    requires end == Unclassified ==> EndsAs(Freed(before), after, end, false) && logAfter == AttemptLog(log, before, end, after.letter, false)
    ensures Leaves(before, after, Unknown) && TrialLog(before, after, Unknown, log, logAfter)
  {
  }

  lemma FinishedTrial(before: Row, up: Row, after: Row, released: bool, log: Log.Log, logAfter: Log.Log)
    requires !before.mounted ==> before == Released(before)
    requires EndsAs(Freed(before), up, Up, false) && logAfter == AttemptLog(log, before, Up, up.letter, false)
    requires after == if released then Released(up) else up
    ensures var v := if released then Opens else Unknown;
            Leaves(before, after, v) && TrialLog(before, after, v, log, logAfter)
  {
  }

  /** Brings the outer volume up and takes it down again. */
  method Trial(s: SessionCore, k: nat, key: Key) returns (v: Verdict, failure: Option<Error>)
    requires s.Valid() && k < |s.rows|
    modifies s`rows, s`nextRevision, s`log, s`hidden, s.rt`volumes, s.rt`attempts, s.rt`misreports, s.rt`tried, s.rt`abandoned
    ensures s.Valid() && Evolves(old(s.rows), old(s.nextRevision), s.rows, s.nextRevision)
    ensures |s.rows| == |old(s.rows)| && s.rows == old(s.rows)[k := s.rows[k]]
    ensures v != Skipped && Leaves(old(s.rows)[k], s.rows[k], v)
    ensures TrialLog(old(s.rows)[k], s.rows[k], v, old(s.log), s.log)
    ensures s.rt.abandoned <= old(s.rt.abandoned) || v == Unknown
    ensures v == Unknown <==> failure.Some?
    ensures v == Opens ==> LastTried(s.rt.tried, key)
  {
    var r, end := MountOuter(s, k, key, false);
    if r.Err? {
      if r.error == MaintenanceRefused {
        RefusedTrial(old(s.rows)[k], s.rows[k], end, old(s.log), s.log);
        return DoesNot, None;
      }
      StoppedTrial(old(s.rows)[k], s.rows[k], end, old(s.log), s.log);
      return Unknown, Some(r.error);
    }
    ghost var up := s.rows[k];
    assert RowOk(old(s.rows)[k], old(s.nextId), old(s.nextRevision));
    failure := TakeDownAgain(s, k, old(s.rows), old(s.nextRevision));
    FinishedTrial(old(s.rows)[k], up, s.rows[k], failure.None?, old(s.log), s.log);
    v := if failure.None? then Opens else Unknown;
  }

  /** What came up only for the trial leaves, or stays on its row. */
  method TakeDownAgain(s: SessionCore, k: nat, ghost before: seq<Row>, ghost revision: nat) returns (failure: Option<Error>)
    requires s.Valid() && k < |s.rows| && s.rows[k].mounted && Evolves(before, revision, s.rows, s.nextRevision)
    modifies s`rows, s.rt`volumes, s.rt`attempts
    ensures s.Valid() && Evolves(before, revision, s.rows, s.nextRevision)
    ensures s.rows == if failure.None? then old(s.rows)[k := Released(old(s.rows)[k])] else old(s.rows)
    ensures s.rt.tried == old(s.rt.tried) && s.rt.abandoned == old(s.rt.abandoned)
  {
    var forced := s.rt.UnmountForced(s.rows[k].letter);
    if forced.Err? {
      return Some(forced.error);
    }
    s.ReleaseMount(k);
    EvolvesTransitively(before, revision, old(s.rows), s.nextRevision, s.rows, s.nextRevision);
    return None;
  }

  datatype Survey = Survey(maintainable: seq<nat>, unreachable: nat, cancelled: bool)

  function Maintainable(rows: seq<Row>, verdicts: seq<Verdict>): (ids: seq<nat>)
    requires |verdicts| <= |rows|
    ensures forall id :: id in ids <==> exists k :: 0 <= k < |verdicts| && verdicts[k] == Opens && rows[k].id == id
  {
    if verdicts == [] then []
    else
      var n := |verdicts| - 1;
      var rest := Maintainable(rows, verdicts[..n]);
      if verdicts[n] == Opens then rest + [rows[n].id] else rest
  }

  function Unreached(verdicts: seq<Verdict>): (n: nat)
    ensures n == 0 <==> Unknown !in verdicts
  {
    if verdicts == [] then 0
    else Unreached(verdicts[..|verdicts| - 1]) + if verdicts[|verdicts| - 1] == Unknown then 1 else 0
  }

  /** Every row up to where the walk stopped was judged on its own, and every
      other row is as it was. */
  ghost predicate Surveyed(before: seq<Row>, after: seq<Row>, verdicts: seq<Verdict>) {
    && |after| == |before| && |verdicts| <= |before|
    && (forall k :: 0 <= k < |verdicts| ==> Tried(before[k], after[k], verdicts[k]))
    && (forall k :: |verdicts| <= k < |before| ==> after[k] == before[k])
  }

  /** Tries one password on the whole list. It becomes the session's maintenance
      password exactly when it opened something. */
  method SurveyMaintenance(s: SessionCore, password: string) returns (r: Result<Survey, Error>, ghost verdicts: seq<Verdict>)
    requires s.Valid()
    modifies s`rows, s`nextRevision, s`log, s`hidden, s`decoyOuter, s`candidates,
             s.rt`volumes, s.rt`attempts, s.rt`misreports, s.rt`tried, s.rt`abandoned
    ensures s.Valid() && Evolves(old(s.rows), old(s.nextRevision), s.rows, s.nextRevision)
    ensures Surveyed(old(s.rows), s.rows, verdicts)
    ensures s.rt.abandoned <= old(s.rt.abandoned) || Unknown in verdicts
    ensures r.Ok? ==>
      && s.auth.Authenticated() && s.login != "" && password != ""
      && r.value.maintainable == Maintainable(old(s.rows), verdicts) == s.candidates
      && r.value.unreachable == Unreached(verdicts)
      && (r.value.cancelled <==> |verdicts| < |s.rows|)
      && s.decoyOuter == (if s.candidates == [] then old(s.decoyOuter) else Some(Password(password)))
    ensures r.Err? ==> s.decoyOuter == old(s.decoyOuter) && (s.candidates == [] || s.candidates == old(s.candidates))
  {
    verdicts := [];
    if !s.auth.Authenticated() {
      return Err(NotAuthenticated), [];
    }
    if s.login == "" {
      return Err(WrongState), [];
    }
    if password == "" {
      return Err(InvalidArgument), [];
    }
    var key := s.rt.Derive(Password(password));
    if key.Err? {
      return Err(key.error), [];
    }
    r, verdicts := SurveyWith(s, key.value);
  }

  /** The candidates, and the key that opens them, are kept. */
  method SurveyWith(s: SessionCore, key: Key) returns (r: Result<Survey, Error>, ghost verdicts: seq<Verdict>)
    requires s.Valid()
    modifies s`rows, s`nextRevision, s`log, s`hidden, s`decoyOuter, s`candidates,
             s.rt`volumes, s.rt`attempts, s.rt`misreports, s.rt`tried, s.rt`abandoned
    ensures s.Valid() && Evolves(old(s.rows), old(s.nextRevision), s.rows, s.nextRevision)
    ensures Surveyed(old(s.rows), s.rows, verdicts)
    ensures s.rt.abandoned <= old(s.rt.abandoned) || Unknown in verdicts
    ensures r.Ok? ==>
      && r.value == Survey(Maintainable(old(s.rows), verdicts), Unreached(verdicts), |verdicts| < |s.rows|)
      && s.candidates == r.value.maintainable
      && s.decoyOuter == (if s.candidates == [] then old(s.decoyOuter) else Some(key))
    ensures r.Err? ==> s.decoyOuter == old(s.decoyOuter) && s.candidates == []
  {
    s.candidates := [];
    r, verdicts := SurveyWalk(s, key);
    if r.Ok? && r.value.maintainable != [] {
      s.decoyOuter, s.candidates := Some(key), r.value.maintainable;
    }
  }

  method SurveyWalk(s: SessionCore, key: Key) returns (r: Result<Survey, Error>, ghost verdicts: seq<Verdict>)
    requires s.Valid()
    modifies s`rows, s`nextRevision, s`log, s`hidden, s.rt`volumes, s.rt`attempts, s.rt`misreports, s.rt`tried, s.rt`abandoned
    ensures s.Valid() && Evolves(old(s.rows), old(s.nextRevision), s.rows, s.nextRevision)
    ensures Surveyed(old(s.rows), s.rows, verdicts)
    ensures s.rt.abandoned <= old(s.rt.abandoned) || Unknown in verdicts
    ensures r.Ok? ==> r.value == Survey(Maintainable(old(s.rows), verdicts), Unreached(verdicts), |verdicts| < |s.rows|)
  {
    var found, unreachable, i := [], 0, 0;
    verdicts := [];
    ghost var before, revision := s.rows, s.nextRevision;
    while i < |s.rows|
      invariant i == |verdicts| && Surveyed(before, s.rows, verdicts)
      invariant s.Valid() && Evolves(before, revision, s.rows, s.nextRevision)
      invariant s.rt.abandoned <= old(s.rt.abandoned) || Unknown in verdicts
      invariant found == Maintainable(before, verdicts) && unreachable == Unreached(verdicts)
    {
      var cancelled := s.rt.Ask();
      if cancelled {
        break;
      }
      var v := SurveyRow(s, i, key, before, revision, verdicts);
      CountsOneMore(before, verdicts, v);
      verdicts := verdicts + [v];
      if v == Opens {
        found := found + [s.rows[i].id];
      } else if v == Unknown {
        unreachable := unreachable + 1;
      }
      i := i + 1;
      var progress := s.rt.Try();
      if progress.Some? {
        return Err(progress.value), verdicts;
      }
    }
    return Ok(Survey(found, unreachable, i < |s.rows|)), verdicts;
  }

  lemma CountsOneMore(rows: seq<Row>, verdicts: seq<Verdict>, v: Verdict)
    requires |verdicts| < |rows|
    ensures Maintainable(rows, verdicts + [v])
         == Maintainable(rows, verdicts) + if v == Opens then [rows[|verdicts|].id] else []
    ensures Unreached(verdicts + [v]) == Unreached(verdicts) + if v == Unknown then 1 else 0
  {
  }

  method SurveyRow(s: SessionCore, i: nat, key: Key, ghost before: seq<Row>, ghost revision: nat, ghost verdicts: seq<Verdict>)
    returns (v: Verdict)
    requires s.Valid() && i == |verdicts| < |s.rows|
    requires Surveyed(before, s.rows, verdicts) && Evolves(before, revision, s.rows, s.nextRevision)
    modifies s`rows, s`nextRevision, s`log, s`hidden, s.rt`volumes, s.rt`attempts, s.rt`misreports, s.rt`tried, s.rt`abandoned
    ensures s.Valid() && Evolves(before, revision, s.rows, s.nextRevision)
    ensures Surveyed(before, s.rows, verdicts + [v]) && s.rows[i].id == before[i].id
    ensures s.rt.abandoned <= old(s.rt.abandoned) || v == Unknown
  {
    if HasNoOuter(s.rows[i]) {
      return Skipped;
    }
    var failure;
    v, failure := Trial(s, i, key);
    EvolvesTransitively(before, revision, old(s.rows), old(s.nextRevision), s.rows, s.nextRevision);
  }

  // -- Opening, verifying and ending --------------------------------------------------------

  /** What is asked of a request that brings a password along. */
  method MaintenanceRow(s: SessionCore, id: nat, password: string) returns (r: Result<nat, Error>)
    ensures r.Ok? ==>
      && s.auth.Authenticated() && s.login != "" && password != ""
      && r.value == FindById(s.rows, id) < |s.rows|
  {
    if !s.auth.Authenticated() {
      return Err(NotAuthenticated);
    }
    if s.login == "" {
      return Err(WrongState);
    }
    var k := FindById(s.rows, id);
    if password == "" || k == |s.rows| {
      return Err(InvalidArgument);
    }
    return Ok(k);
  }

  /** Answers whether a password opens one container and leaves nothing up
      because of the question. */
  method VerifyMaintenance(s: SessionCore, id: nat, password: string) returns (r: Result<bool, Error>)
    requires s.Valid()
    modifies s`rows, s`nextRevision, s`log, s`hidden, s.rt`volumes, s.rt`attempts, s.rt`misreports, s.rt`tried, s.rt`abandoned
    ensures s.Valid() && Evolves(old(s.rows), old(s.nextRevision), s.rows, s.nextRevision)
    ensures |s.rows| == |old(s.rows)|
    ensures var k := FindById(old(s.rows), id);
      r.Ok? ==>
        && k < |s.rows| && s.rows == old(s.rows)[k := s.rows[k]]
        && Leaves(old(s.rows)[k], s.rows[k], if r.value then Opens else DoesNot)
        && s.rt.abandoned <= old(s.rt.abandoned)
        && (r.value ==> LastTried(s.rt.tried, Password(password)))
    ensures r.Err? ==> OneAttemptLeft(old(s.rows), s.rows, FindById(old(s.rows), id), false)
  {
    var found := MaintenanceRow(s, id, password);
    if found.Err? {
      return Err(found.error);
    }
    var key := s.rt.Derive(Password(password));
    if key.Err? {
      return Err(key.error);
    }
    var v, failure := Trial(s, found.value, key.value);
    return if failure.Some? then Err(failure.value) else Ok(v == Opens);
  }

  predicate OtherInMaintenance(rows: seq<Row>, id: nat) {
    exists k :: 0 <= k < |rows| && rows[k].id != id && rows[k].maintenance
  }

  /** Opens a container with a typed password, or finds it already open. A
      password other than the one the session works with is refused while
      another container is open with that one. */
  method OpenMaintenance(s: SessionCore, id: nat, password: string) returns (r: Result<char, Error>)
    requires s.Valid()
    modifies s`rows, s`nextRevision, s`log, s`hidden, s`decoyOuter, s`candidates, s`helperTarget,
             s.rt`volumes, s.rt`attempts, s.rt`misreports, s.rt`tried, s.rt`abandoned
    ensures s.Valid() && Evolves(old(s.rows), old(s.nextRevision), s.rows, s.nextRevision)
    ensures |s.rows| == |old(s.rows)|
    ensures var k := FindById(old(s.rows), id);
      r.Ok? ==>
        && k < |s.rows| && s.rows == old(s.rows)[k := s.rows[k]] && s.helperTarget == id
        && s.rows[k].mounted && s.rows[k].maintenance && !s.rows[k].recovery && s.rows[k].letter == r.value
        && if old(s.rows)[k].mounted && old(s.rows)[k].maintenance then
             s.rows == old(s.rows) && s.log == old(s.log) && s.decoyOuter == old(s.decoyOuter)
           else
             && OuterUp(old(s.rows)[k], s.rows[k], old(s.log), s.log, r.value, s.rt.tried, Password(password))
             && s.decoyOuter == Some(Password(password)) && id in s.candidates
             && (s.decoyOuter != old(s.decoyOuter) ==> !OtherInMaintenance(old(s.rows), id))
    ensures r.Err? ==> s.decoyOuter == old(s.decoyOuter) && (s.candidates == [] || s.candidates == old(s.candidates))
    ensures r.Err? ==> OneAttemptLeft(old(s.rows), s.rows, FindById(old(s.rows), id), true)
  {
    var found := MaintenanceRow(s, id, password);
    if found.Err? {
      return Err(found.error);
    }
    var k := found.value;
    if s.rows[k].mounted && s.rows[k].maintenance {
      if s.rows[k].recovery {
        return Err(WrongState);
      }
      s.helperTarget := id;
      return Ok(s.rows[k].letter);
    }
    s.helperTarget := id;
    var key := s.rt.Derive(Password(password));
    if key.Err? {
      return Err(key.error);
    }
    r := OpenWithKey(s, k, key.value);
  }

  method OpenWithKey(s: SessionCore, k: nat, key: Key) returns (r: Result<char, Error>)
    requires s.Valid() && k < |s.rows|
    modifies s`rows, s`nextRevision, s`log, s`hidden, s`decoyOuter, s`candidates,
             s.rt`volumes, s.rt`attempts, s.rt`misreports, s.rt`tried, s.rt`abandoned
    ensures s.Valid() && Evolves(old(s.rows), old(s.nextRevision), s.rows, s.nextRevision)
    ensures |s.rows| == |old(s.rows)| && s.rows == old(s.rows)[k := s.rows[k]] && AttemptLeft(old(s.rows)[k], s.rows[k], true)
    ensures r.Ok? ==>
      && OuterUp(old(s.rows)[k], s.rows[k], old(s.log), s.log, r.value, s.rt.tried, key)
      && s.decoyOuter == Some(key) && old(s.rows)[k].id in s.candidates
      && (s.decoyOuter != old(s.decoyOuter) ==> !OtherInMaintenance(old(s.rows), old(s.rows)[k].id))
    ensures r.Err? ==> s.decoyOuter == old(s.decoyOuter) && (s.candidates == [] || s.candidates == old(s.candidates))
  {
    var id := s.rows[k].id;
    if s.decoyOuter != Some(key) && OtherInMaintenance(s.rows, id) {
      return Err(WrongState);
    }
    ForgetOtherCandidates(s, key);
    ghost var end;
    r, end := MountOuter(s, k, key, true);
    if r.Ok? {
      KeepKey(s, key, id);
    }
  }

  method ForgetOtherCandidates(s: SessionCore, key: Key)
    requires s.Valid()
    modifies s`candidates
    ensures s.Valid() && s.candidates == if s.decoyOuter == Some(key) then old(s.candidates) else []
  {
    if s.decoyOuter != Some(key) {
      s.candidates := [];
    }
  }

  method KeepKey(s: SessionCore, key: Key, id: nat)
    requires s.Valid()
    modifies s`decoyOuter, s`candidates
    ensures s.Valid() && s.decoyOuter == Some(key)
    ensures s.candidates == if id in old(s.candidates) then old(s.candidates) else old(s.candidates) + [id]
  {
    s.decoyOuter := Some(key);
    if id !in s.candidates {
      s.candidates := s.candidates + [id];
    }
  }

  /** The same with the password a survey left behind. */
  method OpenSurveyed(s: SessionCore, id: nat) returns (r: Result<char, Error>)
    requires s.Valid()
    modifies s`rows, s`nextRevision, s`log, s`hidden, s`helperTarget,
             s.rt`volumes, s.rt`attempts, s.rt`misreports, s.rt`tried, s.rt`abandoned
    ensures s.Valid() && Evolves(old(s.rows), old(s.nextRevision), s.rows, s.nextRevision)
    ensures |s.rows| == |old(s.rows)|
    ensures var k := FindById(old(s.rows), id);
      r.Ok? ==>
        && old(s.decoyOuter).Some? && k < |s.rows| && s.rows == old(s.rows)[k := s.rows[k]]
        && s.rows[k].mounted && s.rows[k].maintenance && !s.rows[k].recovery && s.rows[k].letter == r.value
        && if old(s.rows)[k].mounted && old(s.rows)[k].maintenance then s.rows == old(s.rows) && s.log == old(s.log)
           else OuterUp(old(s.rows)[k], s.rows[k], old(s.log), s.log, r.value, s.rt.tried, old(s.decoyOuter).value)
    ensures r.Err? ==> OneAttemptLeft(old(s.rows), s.rows, FindById(old(s.rows), id), true)
  {
    if !s.auth.Authenticated() {
      return Err(NotAuthenticated);
    }
    if s.decoyOuter.None? {
      return Err(WrongState);
    }
    var k := FindById(s.rows, id);
    if k == |s.rows| {
      return Err(InvalidArgument);
    }
    if s.rows[k].mounted && s.rows[k].maintenance {
      if s.rows[k].recovery {
        return Err(WrongState);
      }
      s.helperTarget := id;
      return Ok(s.rows[k].letter);
    }
    s.helperTarget := id;
    ghost var end;
    r, end := MountOuter(s, k, s.decoyOuter.value, true);
  }

  /** Ending is the ordinary unmount of a volume that is open for maintenance. */
  method EndMaintenance(s: SessionCore, id: nat) returns (failure: Option<Error>)
    requires s.Valid()
    modifies s`rows, s`log, s.rt`volumes, s.rt`attempts
    ensures s.Valid() && Evolves(old(s.rows), s.nextRevision, s.rows, s.nextRevision)
    ensures var k := FindById(old(s.rows), id);
      failure.None? ==>
        && k < |old(s.rows)| && old(s.rows)[k].maintenance
        && s.rows == old(s.rows)[k := Released(old(s.rows)[k])]
        && s.log == old(s.log).Record(UnmountEvent(true, DisplayName(old(s.rows)[k]), old(s.rows)[k].letter))
    ensures failure.Some? ==> s.rows == old(s.rows)
  {
    if !s.auth.Authenticated() {
      return Some(NotAuthenticated);
    }
    var k := FindById(s.rows, id);
    if k == |s.rows| {
      return Some(InvalidArgument);
    }
    if !s.rows[k].mounted || !s.rows[k].maintenance {
      return Some(WrongState);
    }
    failure := s.Unmount(id, false);
  }
}
