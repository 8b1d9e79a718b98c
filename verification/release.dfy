/** Taking every volume down: the forms that stop at the first failure
    and the form for a removed card that never stops
    (card_login_mount_session.cpp:3012-3022, 3254-3262, 4019-4086). */
module SessionRelease {
  import opened Wrappers
  import opened ContainerTable
  import opened VaultRuntime
  import opened Session
  import Log = OperationLog

  // -- What a pass over the list does -------------------------------------------------

  /** Letters of the mounted rows of one kind, in list order. */
  function LettersOf(rows: seq<Row>, first: bool): (r: seq<char>)
    ensures forall c :: c in r <==> exists k :: 0 <= k < |rows| && rows[k].mounted && rows[k].releaseFirst == first && rows[k].letter == c
  {
    if rows == [] then []
    else
      var rest := LettersOf(rows[..|rows| - 1], first);
      var last := rows[|rows| - 1];
      if last.mounted && last.releaseFirst == first then rest + [last.letter] else rest
  }

  function Asked(attempts: seq<Attempt>): (r: seq<char>)
    ensures |r| == |attempts| && forall i :: 0 <= i < |r| ==> r[i] == attempts[i].letter
  {
    seq(|attempts|, i requires 0 <= i < |attempts| => attempts[i].letter)
  }

  ghost predicate AnyRefused(attempts: seq<Attempt>) {
    exists a :: a in attempts && !a.released
  }

  /** A mounted row of the pass's kind whose volume left. */
  predicate Leaves(row: Row, first: bool, attempts: seq<Attempt>) {
    row.mounted && row.releaseFirst == first && Attempt(row.letter, true) in attempts
  }

  function AfterPass(rows: seq<Row>, first: bool, attempts: seq<Attempt>): (r: seq<Row>)
    ensures |r| == |rows|
  {
    seq(|rows|, k requires 0 <= k < |rows| => if Leaves(rows[k], first, attempts) then Released(rows[k]) else rows[k])
  }

  function WithoutIdentities(rows: seq<Row>): (r: seq<Row>)
    ensures |r| == |rows|
  {
    seq(|rows|, k requires 0 <= k < |rows| => rows[k].(identity := None))
  }

  /** Rows the pass has not reached are as they were. */
  lemma NotYetAsked(rows: seq<Row>, first: bool, attempts: seq<Attempt>, i: nat, nextId: nat, nextRevision: nat)
    requires TableOk(rows, nextId, nextRevision) && i < |rows|
    requires Asked(attempts) == LettersOf(rows[..i], first)
    ensures AfterPass(rows, first, attempts)[i] == rows[i]
  {
    forall j | 0 <= j < |attempts| && rows[i].mounted ensures attempts[j].letter != rows[i].letter {
      assert Asked(attempts)[j] in LettersOf(rows[..i], first);
      var k :| 0 <= k < i && rows[..i][k].letter == attempts[j].letter && rows[..i][k].mounted;
      assert Apart(rows[k], rows[i]);
    }
  }

  /** An attempt on one row decides that row and no other. */
  lemma PassAdvances(rows: seq<Row>, first: bool, attempts: seq<Attempt>, i: nat, released: bool,
                     nextId: nat, nextRevision: nat)
    requires TableOk(rows, nextId, nextRevision) && i < |rows|
    requires rows[i].mounted && rows[i].releaseFirst == first
    requires Asked(attempts) == LettersOf(rows[..i], first)
    ensures var more := attempts + [Attempt(rows[i].letter, released)];
      && Asked(more) == LettersOf(rows[..i + 1], first)
      && AfterPass(rows, first, attempts)[i] == rows[i]
      && AfterPass(rows, first, more)
      == AfterPass(rows, first, attempts)[i := if released then Released(rows[i]) else rows[i]]
  {
    var more := attempts + [Attempt(rows[i].letter, released)];
    assert rows[..i + 1][..i] == rows[..i];
    NotYetAsked(rows, first, attempts, i, nextId, nextRevision);
    forall k | 0 <= k < |rows| && k != i ensures Leaves(rows[k], first, more) == Leaves(rows[k], first, attempts) {
      assert Apart(rows[k], rows[i]);
    }
  }

  lemma PassSkips(rows: seq<Row>, first: bool, i: nat)
    requires i < |rows| && !(rows[i].mounted && rows[i].releaseFirst == first)
    ensures LettersOf(rows[..i + 1], first) == LettersOf(rows[..i], first)
  {
    assert rows[..i + 1][..i] == rows[..i];
  }

  // -- The card is gone -----------------------------------------------------------------

  lemma ForgettingKeepsTable(rows: seq<Row>, nextId: nat, nextRevision: nat)
    requires TableOk(rows, nextId, nextRevision)
    ensures var after := WithoutIdentities(rows);
            && TableOk(after, nextId, nextRevision)
            && Evolves(rows, nextRevision, after, nextRevision)
            && MountedLetters(after) == MountedLetters(rows)
  {
    var after := WithoutIdentities(rows);
    forall i, j | 0 <= i < |rows| && 0 <= j < |rows| && i != j ensures Apart(after[i], after[j]) {
      assert Apart(rows[i], rows[j]);
    }
    SameMounts(rows, after, nextRevision);
  }

  method ForgetSecrets(s: SessionCore)
    requires s.Valid()
    modifies s`rows, s`login, s`hidden, s`decoyOuter, s`candidates
    ensures s.Valid() && Evolves(old(s.rows), s.nextRevision, s.rows, s.nextRevision)
    ensures s.rows == WithoutIdentities(old(s.rows))
    ensures s.login == "" && s.hidden.None? && s.decoyOuter.None? && s.candidates == []
  {
    ghost var before := s.rows;
    for i := 0 to |s.rows|
      invariant |s.rows| == |before|
      invariant forall k :: 0 <= k < |before| ==>
        s.rows[k] == if k < i then before[k].(identity := None) else before[k]
    {
      s.rows := s.rows[i := s.rows[i].(identity := None)];
    }
    ForgettingKeepsTable(before, s.nextId, s.nextRevision);
    assert s.rows == WithoutIdentities(before);
    s.login, s.hidden, s.decoyOuter, s.candidates := "", None, None, [];
  }

  /** One forced unmount. A refusal changes nothing. */
  method ForceRow(s: SessionCore, i: nat, ghost before: seq<Row>, first: bool, ghost made: seq<Attempt>)
    returns (r: Result<bool, Error>)
    requires s.Valid() && Evolves(before, s.nextRevision, s.rows, s.nextRevision)
    requires TableOk(before, s.nextId, s.nextRevision)
    requires i < |before| && before[i].mounted && before[i].releaseFirst == first
    requires Asked(made) == LettersOf(before[..i], first) && s.rows == AfterPass(before, first, made)
    modifies s`rows, s.rt`volumes, s.rt`attempts
    ensures s.Valid() && Evolves(before, s.nextRevision, s.rows, s.nextRevision)
    ensures s.rt.attempts == old(s.rt.attempts) + [Attempt(before[i].letter, r.Ok?)]
    ensures var more := made + [Attempt(before[i].letter, r.Ok?)];
            Asked(more) == LettersOf(before[..i + 1], first) && s.rows == AfterPass(before, first, more)
  {
    PassAdvances(before, first, made, i, true, s.nextId, s.nextRevision);
    PassAdvances(before, first, made, i, false, s.nextId, s.nextRevision);
    r := s.rt.UnmountForced(s.rows[i].letter);
    if r.Ok? {
      s.ReleaseMount(i);
      EvolvesTransitively(before, s.nextRevision, old(s.rows), s.nextRevision, s.rows, s.nextRevision);
    }
  }

  method ForcePass(s: SessionCore, first: bool) returns (forced: bool, failure: Option<Error>, ghost made: seq<Attempt>)
    requires s.Valid()
    modifies s`rows, s.rt`volumes, s.rt`attempts
    ensures s.Valid() && Evolves(old(s.rows), s.nextRevision, s.rows, s.nextRevision)
    ensures s.rt.attempts == old(s.rt.attempts) + made
    ensures Asked(made) == LettersOf(old(s.rows), first)
    ensures s.rows == AfterPass(old(s.rows), first, made)
    ensures failure.Some? <==> AnyRefused(made)
  {
    ghost var before := s.rows;
    forced, failure, made := false, None, [];
    var i := 0;
    assert AfterPass(before, first, []) == before;
    while i < |s.rows|
      invariant i <= |s.rows| == |before|
      invariant s.Valid() && Evolves(before, s.nextRevision, s.rows, s.nextRevision)
      invariant s.rt.attempts == old(s.rt.attempts) + made
      invariant Asked(made) == LettersOf(before[..i], first)
      invariant s.rows == AfterPass(before, first, made)
      invariant failure.Some? <==> AnyRefused(made)
    {
      NotYetAsked(before, first, made, i, s.nextId, s.nextRevision);
      if s.rows[i].mounted && s.rows[i].releaseFirst == first {
        var r := ForceRow(s, i, before, first, made);
        Associates(old(s.rt.attempts), made, [Attempt(before[i].letter, r.Ok?)]);
        made := made + [Attempt(before[i].letter, r.Ok?)];
        if r.Err? {
          failure := if failure.None? then Some(r.error) else failure;
        } else {
          forced := r.value || forced;
        }
      } else {
        PassSkips(before, first, i);
      }
      i := i + 1;
    }
    assert before[..i] == before;
  }

  // -- Both passes ----------------------------------------------------------------------

  lemma SameLetters(a: seq<Row>, b: seq<Row>, first: bool)
    requires |a| == |b|
    requires forall k :: 0 <= k < |a| ==>
      && (a[k].mounted && a[k].releaseFirst == first <==> b[k].mounted && b[k].releaseFirst == first)
      && (a[k].mounted && a[k].releaseFirst == first ==> a[k].letter == b[k].letter)
    ensures LettersOf(a, first) == LettersOf(b, first)
  {
  }

  lemma EachLetterOnce(rows: seq<Row>, first: bool, nextId: nat, nextRevision: nat)
    requires TableOk(rows, nextId, nextRevision)
    ensures forall i, j :: 0 <= i < j < |LettersOf(rows, first)| ==> LettersOf(rows, first)[i] != LettersOf(rows, first)[j]
  {
    if rows != [] {
      var front, last := rows[..|rows| - 1], rows[|rows| - 1];
      EachLetterOnce(front, first, nextId, nextRevision);
      var known := LettersOf(front, first);
      forall i | 0 <= i < |known| && last.mounted ensures known[i] != last.letter {
        assert known[i] in known;
        var k :| 0 <= k < |front| && front[k].mounted && front[k].letter == known[i];
        assert Apart(rows[k], rows[|rows| - 1]);
      }
    }
  }

  /** The two passes ask about different letters. */
  lemma KindsAreApart(rows: seq<Row>, c: char, nextId: nat, nextRevision: nat)
    requires TableOk(rows, nextId, nextRevision) && c in LettersOf(rows, true)
    ensures c !in LettersOf(rows, false)
  {
  }

  /** Within a pass, asking about a letter decides it: it left or it did not. */
  lemma AskedOnce(attempts: seq<Attempt>, c: char)
    requires forall i, j :: 0 <= i < j < |attempts| ==> Asked(attempts)[i] != Asked(attempts)[j]
    ensures c in Asked(attempts) ==> (Attempt(c, true) in attempts <==> Attempt(c, false) !in attempts)
    ensures c !in Asked(attempts) ==> Attempt(c, true) !in attempts && Attempt(c, false) !in attempts
  {
  }

  lemma LettersStay(rows: seq<Row>, one: seq<Attempt>)
    ensures LettersOf(WithoutIdentities(rows), true) == LettersOf(rows, true)
    ensures LettersOf(AfterPass(WithoutIdentities(rows), true, one), false) == LettersOf(rows, false)
  {
    SameLetters(WithoutIdentities(rows), rows, true);
    SameLetters(AfterPass(WithoutIdentities(rows), true, one), rows, false);
  }

  /** What the two passes leave of the list: a row is still mounted only if the
      driver refused it. */
  ghost predicate AllAsked(before: seq<Row>, after: seq<Row>, made: seq<Attempt>) {
    && Asked(made) == LettersOf(before, true) + LettersOf(before, false)
    && |after| == |before|
    && forall k :: 0 <= k < |before| ==>
         after[k] == if before[k].mounted && Attempt(before[k].letter, true) in made then Released(before[k])
                     else before[k].(identity := None)
  }

  /** Over both passes a mounted row is asked exactly once, in its own pass. */
  lemma RowDecided(rows: seq<Row>, k: nat, one: seq<Attempt>, two: seq<Attempt>, nextId: nat, nextRevision: nat)
    requires TableOk(rows, nextId, nextRevision) && k < |rows| && rows[k].mounted
    requires Asked(one) == LettersOf(rows, true) && Asked(two) == LettersOf(rows, false)
    ensures var c, mine := rows[k].letter, if rows[k].releaseFirst then one else two;
      && (Attempt(c, true) in one + two <==> Attempt(c, true) in mine)
      && (Attempt(c, false) in one + two <==> Attempt(c, true) !in mine)
  {
    var c := rows[k].letter;
    EachLetterOnce(rows, true, nextId, nextRevision);
    EachLetterOnce(rows, false, nextId, nextRevision);
    AskedOnce(one, c);
    AskedOnce(two, c);
    if c in LettersOf(rows, true) {
      KindsAreApart(rows, c, nextId, nextRevision);
    }
    assert c in LettersOf(rows, rows[k].releaseFirst);
  }

  lemma RowAfterBoth(rows: seq<Row>, k: nat, one: seq<Attempt>, two: seq<Attempt>, nextId: nat, nextRevision: nat)
    requires TableOk(rows, nextId, nextRevision) && k < |rows|
    requires Asked(one) == LettersOf(rows, true) && Asked(two) == LettersOf(rows, false)
    ensures AfterPass(AfterPass(WithoutIdentities(rows), true, one), false, two)[k]
         == if rows[k].mounted && Attempt(rows[k].letter, true) in one + two then Released(rows[k])
            else rows[k].(identity := None)
  {
    var middle := AfterPass(WithoutIdentities(rows), true, one);
    assert middle[k] == if Leaves(rows[k], true, one) then Released(rows[k]) else rows[k].(identity := None);
    if rows[k].mounted {
      RowDecided(rows, k, one, two, nextId, nextRevision);
    }
  }

  lemma PassesTogether(rows: seq<Row>, one: seq<Attempt>, two: seq<Attempt>, nextId: nat, nextRevision: nat)
    requires TableOk(rows, nextId, nextRevision)
    requires Asked(one) == LettersOf(rows, true) && Asked(two) == LettersOf(rows, false)
    ensures AllAsked(rows, AfterPass(AfterPass(WithoutIdentities(rows), true, one), false, two), one + two)
  {
    forall k | 0 <= k < |rows|
      ensures AfterPass(AfterPass(WithoutIdentities(rows), true, one), false, two)[k]
           == if rows[k].mounted && Attempt(rows[k].letter, true) in one + two then Released(rows[k])
              else rows[k].(identity := None)
    {
      RowAfterBoth(rows, k, one, two, nextId, nextRevision);
    }
  }

  /** Something is still mounted exactly when something was refused. */
  lemma RefusalsShow(rows: seq<Row>, after: seq<Row>, one: seq<Attempt>, two: seq<Attempt>, nextId: nat, nextRevision: nat)
    requires TableOk(rows, nextId, nextRevision) && AllAsked(rows, after, one + two)
    requires Asked(one) == LettersOf(rows, true) && Asked(two) == LettersOf(rows, false)
    ensures AnyMounted(after) <==> AnyRefused(one) || AnyRefused(two)
  {
    if a :| a in one + two && !a.released {
      var k := RefusedRow(rows, a, one, two);
      RowDecided(rows, k, one, two, nextId, nextRevision);
      assert after[k].mounted;
    }
    if k :| 0 <= k < |after| && after[k].mounted {
      RowDecided(rows, k, one, two, nextId, nextRevision);
      assert Attempt(rows[k].letter, false) in one || Attempt(rows[k].letter, false) in two;
    }
  }

  lemma RefusedRow(rows: seq<Row>, a: Attempt, one: seq<Attempt>, two: seq<Attempt>) returns (k: nat)
    requires Asked(one) == LettersOf(rows, true) && Asked(two) == LettersOf(rows, false)
    requires a in one + two && !a.released
    ensures k < |rows| && rows[k].mounted && Attempt(rows[k].letter, false) == a
  {
    var i :| 0 <= i < |one + two| && (one + two)[i] == a;
    if i < |one| {
      assert Asked(one)[i] in LettersOf(rows, true);
    } else {
      assert Asked(two)[i - |one|] in LettersOf(rows, false);
    }
    k :| 0 <= k < |rows| && rows[k].mounted && rows[k].letter == a.letter;
  }

  lemma BothPasses(before: seq<Row>, after: seq<Row>, one: seq<Attempt>, two: seq<Attempt>, nextId: nat, nextRevision: nat)
    requires TableOk(before, nextId, nextRevision)
    requires Asked(one) == LettersOf(WithoutIdentities(before), true)
    requires Asked(two) == LettersOf(AfterPass(WithoutIdentities(before), true, one), false)
    requires after == AfterPass(AfterPass(WithoutIdentities(before), true, one), false, two)
    ensures AllAsked(before, after, one + two)
    ensures AnyMounted(after) <==> AnyRefused(one) || AnyRefused(two)
  {
    LettersStay(before, one);
    PassesTogether(before, one, two, nextId, nextRevision);
    RefusalsShow(before, after, one, two, nextId, nextRevision);
  }

  /** The two passes, in this order, and the first failure of either. */
  method ForceBoth(s: SessionCore, ghost before: seq<Row>) returns (r: Result<bool, Error>, ghost made: seq<Attempt>)
    requires s.Valid() && s.rows == WithoutIdentities(before) && TableOk(before, s.nextId, s.nextRevision)
    modifies s`rows, s.rt`volumes, s.rt`attempts
    ensures s.Valid() && Evolves(old(s.rows), s.nextRevision, s.rows, s.nextRevision)
    ensures s.rt.attempts == old(s.rt.attempts) + made && AllAsked(before, s.rows, made)
    ensures r.Err? <==> AnyMounted(s.rows)
  {
    var forcedFirst, failedFirst, one := ForcePass(s, true);
    ghost var middle := s.rows;
    var forcedThen, failedThen, two := ForcePass(s, false);
    made := one + two;
    Associates(old(s.rt.attempts), one, two);
    BothPasses(before, s.rows, one, two, s.nextId, s.nextRevision);
    EvolvesTransitively(old(s.rows), s.nextRevision, middle, s.nextRevision, s.rows, s.nextRevision);
    if failedFirst.Some? || failedThen.Some? {
      return Err(if failedFirst.Some? then failedFirst.value else failedThen.value), made;
    }
    return Ok(forcedFirst || forcedThen), made;
  }

  /** The card was taken out: the secrets go first, then every volume is asked
      to leave once, the hidden-volume containers before the others, and no
      refusal stops the rest. */
  method ForceUnmountActive(s: SessionCore) returns (r: Result<bool, Error>, ghost made: seq<Attempt>)
    requires s.Valid()
    modifies s`rows, s`login, s`hidden, s`decoyOuter, s`candidates, s`log, s.rt`volumes, s.rt`attempts
    ensures s.Valid() && Evolves(old(s.rows), s.nextRevision, s.rows, s.nextRevision)
    ensures s.login == "" && s.hidden.None? && s.decoyOuter.None? && s.candidates == []
    ensures s.log == old(s.log).Clear()
    ensures s.rt.attempts == old(s.rt.attempts) + made && AllAsked(old(s.rows), s.rows, made)
    ensures r.Err? <==> AnyMounted(s.rows)
  {
    ghost var before := s.rows;
    ForgetSecrets(s);
    ghost var start := s.rows;
    s.log := s.log.Clear();
    r, made := ForceBoth(s, before);
    EvolvesTransitively(before, s.nextRevision, start, s.nextRevision, s.rows, s.nextRevision);
  }

  // -- The forms that stop -----------------------------------------------------------------

  /** The rows of one kind among the first `n` are no longer mounted. */
  function ReleasedUpTo(rows: seq<Row>, first: bool, n: nat): (r: seq<Row>)
    requires n <= |rows|
    ensures |r| == |rows|
  {
    seq(|rows|, k requires 0 <= k < |rows| =>
      if k < n && rows[k].mounted && rows[k].releaseFirst == first then Released(rows[k]) else rows[k])
  }

  /** One succeeded event for every row that a pass took down so far. */
  function PassLog(log: Log.Log, rows: seq<Row>, first: bool, n: nat): Log.Log
    requires n <= |rows|
  {
    if n == 0 then log
    else
      var row := rows[n - 1];
      var sofar := PassLog(log, rows, first, n - 1);
      if row.mounted && row.releaseFirst == first then sofar.Record(UnmountEvent(true, DisplayName(row), row.letter)) else sofar
  }

  /** Where a pass stands, or stopped: a failure left its own event. */
  predicate PassEnd(before: seq<Row>, rows: seq<Row>, log: Log.Log, logAfter: Log.Log, first: bool, reached: nat, failed: bool) {
    && reached <= |before| && rows == ReleasedUpTo(before, first, reached)
    && (failed ==> reached < |before| && before[reached].mounted && before[reached].releaseFirst == first)
    && logAfter == if failed
                   then PassLog(log, before, first, reached).Record(
                          UnmountEvent(false, DisplayName(before[reached]), before[reached].letter))
                   else PassLog(log, before, first, reached)
  }

  lemma PassStarts(rows: seq<Row>, log: Log.Log, first: bool)
    ensures PassEnd(rows, rows, log, log, first, 0, false)
  {
    assert ReleasedUpTo(rows, first, 0) == rows;
  }

  lemma RefusedIsMounted(before: seq<Row>, rows: seq<Row>, log: Log.Log, logAfter: Log.Log, first: bool, reached: nat)
    requires PassEnd(before, rows, log, logAfter, first, reached, true)
    ensures AnyMounted(rows)
  {
    assert rows[reached].mounted;
  }

  lemma BothPassesFree(rows: seq<Row>)
    ensures !AnyMounted(ReleasedUpTo(ReleasedUpTo(rows, true, |rows|), false, |rows|))
  {
  }

  /** One pass ends at its first failure. */
  method UnmountPass(s: SessionCore, first: bool, force: bool) returns (failure: Option<Error>, ghost reached: nat)
    requires s.Valid()
    modifies s`rows, s`log, s.rt`volumes, s.rt`attempts
    ensures s.Valid() && Evolves(old(s.rows), s.nextRevision, s.rows, s.nextRevision)
    ensures PassEnd(old(s.rows), s.rows, old(s.log), s.log, first, reached, failure.Some?)
    ensures failure.None? ==> reached == |s.rows|
    ensures !force ==> s.rt.attempts == old(s.rt.attempts)
  {
    PassStarts(s.rows, s.log, first);
    var i := 0;
    while i < |s.rows|
      invariant i <= |s.rows| == |old(s.rows)|
      invariant s.Valid() && Evolves(old(s.rows), s.nextRevision, s.rows, s.nextRevision)
      invariant PassEnd(old(s.rows), s.rows, old(s.log), s.log, first, i, false)
      invariant !force ==> s.rt.attempts == old(s.rt.attempts)
    {
      failure := UnmountNext(s, i, first, force, old(s.rows), old(s.log));
      if failure.Some? {
        return failure, i;
      }
      i := i + 1;
    }
    return None, i;
  }

  method UnmountNext(s: SessionCore, i: nat, first: bool, force: bool, ghost before: seq<Row>, ghost log: Log.Log)
    returns (failure: Option<Error>)
    requires s.Valid() && i < |before| && Evolves(before, s.nextRevision, s.rows, s.nextRevision)
    requires PassEnd(before, s.rows, log, s.log, first, i, false)
    modifies s`rows, s`log, s.rt`volumes, s.rt`attempts
    ensures s.Valid() && Evolves(before, s.nextRevision, s.rows, s.nextRevision)
    ensures PassEnd(before, s.rows, log, s.log, first, if failure.Some? then i else i + 1, failure.Some?)
    ensures !force ==> s.rt.attempts == old(s.rt.attempts)
  {
    failure := None;
    ReleasesOneMore(before, first, i);
    if s.rows[i].mounted && s.rows[i].releaseFirst == first {
      FindsOwnId(s.rows, i, s.nextId, s.nextRevision);
      failure := s.Unmount(s.rows[i].id, force);
      EvolvesTransitively(before, s.nextRevision, old(s.rows), s.nextRevision, s.rows, s.nextRevision);
    }
  }

  lemma ReleasesOneMore(rows: seq<Row>, first: bool, i: nat)
    requires i < |rows|
    ensures ReleasedUpTo(rows, first, i + 1)
         == if rows[i].mounted && rows[i].releaseFirst == first
            then ReleasedUpTo(rows, first, i)[i := Released(rows[i])] else ReleasedUpTo(rows, first, i)
    ensures ReleasedUpTo(rows, first, i)[i] == rows[i]
  {
  }

  /** Everything on request, with or without force, hidden-volume containers
      first; a failure leaves every later row as it was. */
  method UnmountActive(s: SessionCore, force: bool) returns (failure: Option<Error>, ghost pass: bool, ghost reached: nat)
    requires s.Valid()
    modifies s`rows, s`log, s.rt`volumes, s.rt`attempts
    ensures s.Valid() && Evolves(old(s.rows), s.nextRevision, s.rows, s.nextRevision)
    ensures var n := |old(s.rows)|;
      if pass then PassEnd(old(s.rows), s.rows, old(s.log), s.log, true, reached, failure.Some?)
      else PassEnd(ReleasedUpTo(old(s.rows), true, n), s.rows, PassLog(old(s.log), old(s.rows), true, n), s.log,
                   false, reached, failure.Some?)
    ensures failure.None? <==> !AnyMounted(s.rows)
    ensures failure.None? ==> !pass && reached == |s.rows|
  {
    pass := true;
    failure, reached := UnmountPass(s, true, force);
    if failure.Some? {
      RefusedIsMounted(old(s.rows), s.rows, old(s.log), s.log, true, reached);
      return;
    }
    ghost var middle, recorded := s.rows, s.log;
    pass := false;
    failure, reached := UnmountPass(s, false, force);
    EvolvesTransitively(old(s.rows), s.nextRevision, middle, s.nextRevision, s.rows, s.nextRevision);
    BothPassesFree(old(s.rows));
    if failure.Some? {
      RefusedIsMounted(middle, s.rows, recorded, s.log, false, reached);
    }
  }
}
