/** The card reader's page before a session exists: what an inserted card asks
    for, and the actions offered on it (card_entry_context_controller.cpp,
    card_entry_router.cpp, card_reset_confirmation.h). */
module CardEntry {
  import opened Wrappers
  import opened VaultRuntime
  import opened CardAuthentication

  // -- Routing --------------------------------------------------------------------------------

  datatype Route = InitializationRequired | LoginRequired | Unavailable

  datatype Media = Initializable | Blocked | ProductRecord | OtherMedia

  datatype RecordState = Provisioned | Initialized | Legacy | UnsupportedVersion | Malformed | OtherRecord

  /** What reading an inserted card yields. A read that throws is `None`, and
      leaves the code of its failure. */
  datatype Inspection = Inspection(identity: nat, media: Option<Media>, record: Option<RecordState>, thrown: nat)

  const UNSUPPORTED_VERSION_CODE := 4002
  const NO_ADAPTER_CODE := 4004

  /** The route an insertion keeps for its lifetime, with the code of what
      stands in the way. */
  function RouteOf(card: Inspection): (r: (Route, nat))
    ensures r.0 == LoginRequired <==> card.media == Some(ProductRecord) && card.record == Some(Initialized)
    ensures r.0 == InitializationRequired <==>
      card.media == Some(Initializable) || (card.media == Some(ProductRecord) && card.record == Some(Provisioned))
  {
    match card.media
    case None => (Unavailable, card.thrown)
    case Some(Initializable) => (InitializationRequired, 0)
    case Some(Blocked) => (Unavailable, 4001)
    case Some(OtherMedia) => (Unavailable, 4005)
    case Some(ProductRecord) =>
      match card.record
      case None => (Unavailable, card.thrown)
      case Some(Provisioned) => (InitializationRequired, 0)
      case Some(Initialized) => (LoginRequired, 0)
      case Some(Legacy) => (Unavailable, 4001)
      case Some(UnsupportedVersion) => (Unavailable, UNSUPPORTED_VERSION_CODE)
      case Some(Malformed) => (Unavailable, 4003)
      case Some(OtherRecord) => (Unavailable, 4005)
  }

  // -- The trace of a run -----------------------------------------------------------------------

  /** What matters about a run: a reset was prepared on a reading of the card, a
      prepared reset was carried out, or something else happened that passed
      its own guard. */
  datatype CardEvent =
    | Interrupted
    | Prepared(ticket: nat, snapshot: seq<bv8>)
    | LoginReset(ticket: nat, snapshot: seq<bv8>)

  type Trace = seq<CardEvent>

  /** A reset writes over the reading it was prepared on, and nothing came in
      between. */
  ghost predicate Lawful(t: Trace) {
    forall i :: 0 <= i < |t| && t[i].LoginReset? ==> i > 0 && t[i - 1] == Prepared(t[i].ticket, t[i].snapshot)
  }

  /** Tickets are handed out in ascending order, starting above zero. */
  ghost predicate Issued(t: Trace, sequence: nat) {
    && (forall i :: 0 <= i < |t| && t[i].Prepared? ==> 0 < t[i].ticket <= sequence)
    && (forall i, j :: 0 <= i < j < |t| && t[i].Prepared? && t[j].Prepared? ==> t[i].ticket < t[j].ticket)
  }

  function Prepares(t: Trace): nat {
    if t == [] then 0 else Prepares(t[..|t| - 1]) + if t[|t| - 1].Prepared? then 1 else 0
  }

  function Resets(t: Trace): nat {
    if t == [] then 0 else Resets(t[..|t| - 1]) + if t[|t| - 1].LoginReset? then 1 else 0
  }

  /** Every reset uses up a preparation of its own. */
  lemma {:induction false} ResetsUsePrepares(t: Trace)
    requires Lawful(t)
    ensures Resets(t) + (if t != [] && t[|t| - 1].Prepared? then 1 else 0) <= Prepares(t)
  {
    if t != [] {
      var front := t[..|t| - 1];
      assert Lawful(front) by {
        forall i | 0 <= i < |front| && front[i].LoginReset? ensures i > 0 && front[i - 1] == Prepared(front[i].ticket, front[i].snapshot) {
          assert t[i].LoginReset?;
        }
      }
      ResetsUsePrepares(front);
    }
  }

  /** A ticket is carried out at most once, and only if nothing at all happened
      since that very ticket was prepared. */
  lemma ResetFollowsItsPrepare(t: Trace, sequence: nat, j: nat, i: nat)
    requires Lawful(t) && Issued(t, sequence) && j < |t| && i < |t|
    requires t[j].Prepared? && t[i].LoginReset? && t[i].ticket == t[j].ticket
    ensures i == j + 1 && t[i].snapshot == t[j].snapshot
  {
    assert t[i - 1] == Prepared(t[i].ticket, t[i].snapshot);
  }

  lemma NoTicketTwice(t: Trace, sequence: nat, i: nat, k: nat)
    requires Lawful(t) && Issued(t, sequence) && i < k < |t| && t[i].LoginReset? && t[k].LoginReset?
    ensures t[i].ticket != t[k].ticket
  {
    assert t[i - 1].ticket == t[i].ticket;
    if t[i].ticket == t[k].ticket {
      ResetFollowsItsPrepare(t, sequence, i - 1, k);
    }
  }

  // -- The reader ---------------------------------------------------------------------------------

  /** A write to the card; it may be torn. */
  datatype CardWrite = Initialization | PasswordChange | RecordReset(over: seq<bv8>)

  /** The card adapter: any call may fail. */
  class CardReader {
    ghost var writes: seq<CardWrite>
    /** What the record read as, each time it could be read. */
    ghost var readings: seq<seq<bv8>>

    constructor ()
      ensures writes == [] && readings == []
    {
      writes, readings := [], [];
    }

    method Inspect() returns (r: Result<Option<Inspection>, nat>) {
      var code: int := *;
      var identity: int := *;
      var media: Option<Media> := *;
      var record: Option<RecordState> := *;
      if * {
        return Err(if code < 0 then 0 else code);
      }
      if * {
        return Ok(None);
      }
      return Ok(Some(Inspection(if identity < 0 then 0 else identity, media, record, if code < 0 then 0 else code)));
    }

    /** Waiting for the reader, or building a target for the insertion. */
    method Reach() returns (failure: Option<Error>)
      ensures failure.Some? ==> failure.value.System?
    {
      var code: int := *;
      if * {
        return Some(System(code));
      }
      return None;
    }

    method Read() returns (r: Result<seq<bv8>, Error>)
      modifies this`readings
      ensures r.Err? ==> r.error.System? && readings == old(readings)
      ensures r.Ok? ==> readings == old(readings) + [r.value]
    {
      var code: int := *;
      var bytes: seq<bv8> := *;
      if * {
        return Err(System(code));
      }
      readings := readings + [bytes];
      return Ok(bytes);
    }

    method Write(ghost w: CardWrite) returns (failure: Option<Error>)
      modifies this`writes
      ensures writes == old(writes) + [w]
    {
      writes := writes + [w];
      failure := Reach();
    }

    /** Opens a record with a password: the root, or a refusal. */
    method Unlock() returns (r: Result<seq<bv8>, Error>)
      ensures r.Ok? ==> |r.value| == ROOT_SIZE
    {
      var code: int := *;
      if * {
        return Err(AuthenticationRejected);
      }
      if * {
        return Err(System(code));
      }
      var fill: bv8 := *;
      return Ok(seq(ROOT_SIZE, _ => fill));
    }
  }

  class EntryController {
    const reader: CardReader
    /** Classifies the bytes of a record. */
    const classify: seq<bv8> -> RecordState

    var route: Option<Route>
    var context: Option<Inspection>
    var failureCode: nat
    var sequence: nat
    var pending: nat
    var resetTarget: bool
    var snapshot: seq<bv8>
    ghost var trace: Trace

    /** A reset that is held is a reset of the card that is in the reader, on a
        route that offers it, and nothing happened since it was prepared. */
    ghost predicate Valid()
      reads this
    {
      && Lawful(trace) && Issued(trace, sequence)
      && (resetTarget <==> pending != 0)
      && (context.Some? ==> route.Some?)
      && (resetTarget ==>
            && CanLoginReset()
            && trace != [] && trace[|trace| - 1] == Prepared(pending, snapshot)
            && classify(snapshot) == Expected(route))
      && (!resetTarget ==> snapshot == [])
    }

    constructor (reader: CardReader, classify: seq<bv8> -> RecordState)
      ensures Valid() && route.None? && context.None? && trace == []
      ensures this.reader == reader && this.classify == classify
    {
      this.reader, this.classify := reader, classify;
      route, context, failureCode := None, None, 0;
      sequence, pending, resetTarget, snapshot, trace := 0, 0, false, [], [];
    }

    predicate CanLoginReset()
      reads this
    {
      context.Some? && (route == Some(LoginRequired) || (route == Some(Unavailable) && failureCode == UNSUPPORTED_VERSION_CODE))
    }

    function Expected(route: Option<Route>): RecordState {
      if route == Some(LoginRequired) then Initialized else UnsupportedVersion
    }

    predicate LoginResetPending(ticket: nat)
      reads this
    {
      CanLoginReset() && resetTarget && ticket != 0 && ticket == pending
    }

    /** Drops a prepared reset. */
    method CancelLoginReset()
      requires Valid()
      modifies this`pending, this`resetTarget, this`snapshot, this`trace
      ensures Valid() && !resetTarget
      ensures trace == old(trace) + [Interrupted]
    {
      pending, resetTarget, snapshot := 0, false, [];
      trace := trace + [Interrupted];
    }

    /** The insertion is over for every action. */
    method Retire()
      requires Valid() && !resetTarget
      modifies this`route, this`context
      ensures Valid() && route == Some(Unavailable) && context.None?
    {
      route, context := Some(Unavailable), None;
    }

    method HandleArrival() returns (r: Route)
      requires Valid()
      modifies this
      ensures Valid() && !resetTarget && route == Some(r)
      ensures trace == old(trace) + [Interrupted]
      ensures context.Some? ==> (r, failureCode) == RouteOf(context.value)
      ensures context.None? ==> r == Unavailable
    {
      CancelLoginReset();
      failureCode := 0;
      Retire();
      var seen := reader.Inspect();
      if seen.Err? {
        failureCode := seen.error;
        return Unavailable;
      }
      if seen.value.None? {
        failureCode := NO_ADAPTER_CODE;
        return Unavailable;
      }
      var routed := RouteOf(seen.value.value);
      route, failureCode, context := Some(routed.0), routed.1, seen.value;
      return routed.0;
    }

    method HandleRemoval()
      requires Valid()
      modifies this
      ensures Valid() && !resetTarget && route.None? && context.None? && failureCode == 0
      ensures trace == old(trace) + [Interrupted]
    {
      CancelLoginReset();
      failureCode, context, route := 0, None, None;
    }

    /** Initializes a fresh card. Every attempt that passes the guard uses up the
        insertion. */
    method InitializeAndAuthenticate(auth: Authentication) returns (failure: Option<Error>)
      requires Valid()
      modifies this, auth, reader
      ensures Valid() && sequence == old(sequence)
      ensures reader.writes == old(reader.writes) || (reader.writes == old(reader.writes) + [Initialization] && Retired())
      ensures failure.None? ==> reader.writes != old(reader.writes)
      ensures if old(route) == Some(InitializationRequired) && old(context).Some? && !old(auth.Authenticated()) then
                && trace == old(trace) + [Interrupted]
                && ((context.None? && route == Some(Unavailable)) || (context == old(context) && route == old(route) && failure.Some?))
                && (failure.None? ==> auth.Authenticated() && auth.generation == old(auth.generation) + 1)
              else
                && failure == Some(WrongState) && trace == old(trace) && route == old(route) && context == old(context)
                && reader.writes == old(reader.writes)
                && auth.root == old(auth.root) && auth.generation == old(auth.generation)
    {
      if route != Some(InitializationRequired) || context.None? || auth.Authenticated() {
        return Some(WrongState);
      }
      CancelLoginReset();
      failure := reader.Reach();
      if failure.Some? {
        return;
      }
      Retire();
      failure := reader.Reach();
      if failure.Some? {
        return;
      }
      failure := reader.Write(Initialization);
      if failure.Some? {
        return;
      }
      var root := reader.Unlock();
      if root.Err? {
        return Some(root.error);
      }
      failure := auth.Establish(root.value);
    }

    /** Reads the card anew and writes over an initialized record. */
    method RewriteCard(reset: bool) returns (failure: Option<Error>)
      requires Valid() && !resetTarget
      modifies this`route, this`context, reader
      ensures Valid() && Retired()
      ensures reader.writes == old(reader.writes) || Rewrote(old(reader.writes), reader.writes, reset)
      ensures failure.None? ==> reader.writes != old(reader.writes)
    {
      Retire();
      var seen := reader.Inspect();
      if seen.Err? {
        return Some(System(seen.error));
      }
      if seen.value.None? || RouteOf(seen.value.value).0 != LoginRequired {
        return Some(WrongState);
      }
      failure := reader.Reach();
      if failure.Some? {
        return;
      }
      var current := reader.Read();
      if current.Err? {
        return Some(current.error);
      }
      if classify(current.value) != Initialized {
        return Some(WrongState);
      }
      failure := reader.Write(if reset then RecordReset(current.value) else PasswordChange);
    }

    /** The insertion is over. */
    predicate Retired()
      reads this
    {
      route == Some(Unavailable) && context.None?
    }

    /** The record was read as initialized, and then once more to the same bytes. */
    ghost predicate ReadTwice(before: seq<seq<bv8>>, after: seq<seq<bv8>>) {
      |after| == |before| + 2 && after[|before|] == after[|before| + 1] && classify(after[|before|]) == Initialized
    }

    /** One write more, over a record that read as initialized. */
    ghost predicate Rewrote(before: seq<CardWrite>, after: seq<CardWrite>, reset: bool) {
      && |after| == |before| + 1 && after[..|before|] == before
      && (if reset then after[|before|].RecordReset? && classify(after[|before|].over) == Initialized
          else after[|before|] == PasswordChange)
    }

    /** Sets a second password on the record of the card present now. */
    method SetSecondPassword(bothGiven: bool) returns (failure: Option<Error>)
      requires Valid()
      modifies this, reader
      ensures Valid() && sequence == old(sequence) && failureCode == old(failureCode)
      ensures !bothGiven ==>
        && failure == Some(InvalidArgument) && trace == old(trace) && route == old(route) && context == old(context)
        && reader.writes == old(reader.writes)
      ensures bothGiven ==> trace == old(trace) + [Interrupted] && !resetTarget
      ensures reader.writes == old(reader.writes) || (Rewrote(old(reader.writes), reader.writes, false) && Retired())
      ensures failure.None? ==> reader.writes != old(reader.writes)
    {
      if !bothGiven {
        return Some(InvalidArgument);
      }
      CancelLoginReset();
      failure := reader.Reach();
      if failure.Some? {
        return;
      }
      failure := RewriteCard(false);
    }

    /** Resets the record of an authenticated session's card. */
    method ResetCardRecord(auth: Authentication) returns (failure: Option<Error>)
      requires Valid()
      modifies this, reader
      ensures Valid() && sequence == old(sequence) && failureCode == old(failureCode)
      ensures !auth.Authenticated() ==>
        && failure == Some(NotAuthenticated) && trace == old(trace) && route == old(route) && context == old(context)
        && reader.writes == old(reader.writes)
      ensures auth.Authenticated() ==> trace == old(trace) + [Interrupted] && !resetTarget
      ensures reader.writes == old(reader.writes) || (Rewrote(old(reader.writes), reader.writes, true) && Retired())
      ensures failure.None? ==> reader.writes != old(reader.writes)
    {
      if !auth.Authenticated() {
        return Some(NotAuthenticated);
      }
      CancelLoginReset();
      failure := reader.Reach();
      if failure.Some? {
        return;
      }
      failure := RewriteCard(true);
    }

    /** A refused password leaves the insertion for another try; every other end
        uses it up. A root leaves only from a record that read the same twice. */
    method AuthenticateLogin() returns (r: Result<seq<bv8>, Error>)
      requires Valid()
      modifies this, reader`readings
      ensures Valid() && sequence == old(sequence) && failureCode == old(failureCode)
      ensures if old(route) == Some(LoginRequired) && old(context).Some? then
                trace == old(trace) + [Interrupted] && !resetTarget
              else r == Err(WrongState) && trace == old(trace) && route == old(route) && context == old(context)
      ensures r.Ok? ==> |r.value| == ROOT_SIZE && Retired() && ReadTwice(old(reader.readings), reader.readings)
      ensures r == Err(AuthenticationRejected) ==> route == old(route) && context == old(context)
      ensures old(route) == Some(LoginRequired) ==>
        || (route == Some(Unavailable) && context.None?)
        || (route == old(route) && context == old(context) && r.Err?)
    {
      if route != Some(LoginRequired) || context.None? {
        return Err(WrongState);
      }
      CancelLoginReset();
      var busy := reader.Reach();
      if busy.Some? {
        return Err(busy.value);
      }
      var unreachable := reader.Reach();
      if unreachable.Some? {
        Retire();
        return Err(unreachable.value);
      }
      var record := reader.Read();
      if record.Err? {
        Retire();
        return record;
      }
      if classify(record.value) != Initialized {
        Retire();
        return Err(WrongState);
      }
      var root := reader.Unlock();
      if root.Err? {
        if root.error != AuthenticationRejected {
          Retire();
        }
        return root;
      }
      var again := reader.Read();
      Retire();
      if again.Err? {
        return Err(again.error);
      }
      if again.value != record.value {
        return Err(System(0));
      }
      return root;
    }

    /** Holds a reset of the card in the reader, bound to what its record says
        now. Any failure past the guard ends the insertion. */
    method PrepareLoginReset() returns (r: Result<nat, Error>)
      requires Valid()
      modifies this, reader`readings
      ensures Valid() && failureCode == old(failureCode)
      ensures r.Ok? ==>
        && LoginResetPending(r.value) && r.value == sequence == old(sequence) + 1
        && route == old(route) && context == old(context)
        && trace == old(trace) + [Interrupted, Prepared(r.value, snapshot)]
        && classify(snapshot) == Expected(route) && reader.readings == old(reader.readings) + [snapshot]
      ensures r.Err? ==> !resetTarget && sequence == old(sequence) && trace == old(trace) + [Interrupted]
                         && (old(CanLoginReset()) ==> route == Some(Unavailable) && context.None?)
    {
      CancelLoginReset();
      if !CanLoginReset() {
        return Err(WrongState);
      }
      var read := ReadExpected(Expected(route));
      if read.Err? {
        Retire();
        return Err(read.error);
      }
      HoldReset(read.value);
      return Ok(sequence);
    }

    /** A reading of the card as the route promised it. */
    method ReadExpected(expected: RecordState) returns (r: Result<seq<bv8>, Error>)
      requires Valid()
      modifies reader`readings
      ensures Valid()
      ensures r.Ok? ==> classify(r.value) == expected && reader.readings == old(reader.readings) + [r.value]
    {
      var busy := reader.Reach();
      if busy.Some? {
        return Err(busy.value);
      }
      r := reader.Read();
      if r.Ok? && classify(r.value) != expected {
        r := Err(WrongState);
      }
    }

    /** Binds a reset under a new ticket to what was just read. */
    method HoldReset(read: seq<bv8>)
      requires Valid() && CanLoginReset() && classify(read) == Expected(route)
      modifies this`sequence, this`pending, this`resetTarget, this`snapshot, this`trace
      ensures Valid() && sequence == old(sequence) + 1 && LoginResetPending(sequence) && snapshot == read
      ensures trace == old(trace) + [Prepared(sequence, read)]
    {
      sequence := sequence + 1;
      pending, resetTarget, snapshot := sequence, true, read;
      trace := trace + [Prepared(sequence, snapshot)];
    }

    /** Carries out the held reset, once; a wrong ticket drops it. */
    method ConfirmLoginReset(ticket: nat) returns (failure: Option<Error>)
      requires Valid()
      modifies this, reader
      ensures Valid() && !resetTarget && sequence == old(sequence)
      ensures if old(LoginResetPending(ticket)) then
                && (|| (trace == old(trace) + [LoginReset(ticket, old(snapshot))]
                        && reader.writes == old(reader.writes) + [RecordReset(old(snapshot))])
                    || (trace == old(trace) + [Interrupted] && failure.Some? && reader.writes == old(reader.writes)))
                && Retired()
              else failure == Some(WrongState) && trace == old(trace) + [Interrupted]
                   && route == old(route) && context == old(context) && reader.writes == old(reader.writes)
    {
      if !LoginResetPending(ticket) {
        CancelLoginReset();
        return Some(WrongState);
      }
      var reading := snapshot;
      pending, resetTarget, snapshot := 0, false, [];
      route, context := Some(Unavailable), None;
      failure := reader.Reach();
      if failure.Some? {
        trace := trace + [Interrupted];
        return;
      }
      trace := trace + [LoginReset(ticket, reading)];
      failure := reader.Write(RecordReset(reading));
    }
  }
}
