/** CardLoginMountSessionCore (card_login_mount_session.cpp): the session that
    owns the list of containers. Exceptions are results; a catch block is the
    branch that inspects one. */
module Session {
  import opened Wrappers
  import opened Paths
  import opened ContainerIndex
  import opened ContainerTable
  import opened WriteAhead
  import opened VaultRuntime
  import opened CardAuthentication
  import Log = OperationLog

  /** No row disagrees with the durable record of its partition, but for
      partitions whose row stands only until their record is accepted. */
  ghost predicate Agree(rows: seq<Row>, ix: Index, unsettled: set<Partition> := {}) {
    forall k :: 0 <= k < |rows| && rows[k].target.Disk? && rows[k].target.partition !in unsettled ==>
      var recorded := StateOf(ix, rows[k].target.partition);
      recorded.None? || recorded.value == rows[k].conversion
  }

  /** The same container, now mounted; the derivation that opened it is known. */
  predicate IsMountOf(after: Row, before: Row) {
    && after.watch.Some?
    && after == Mounted(before.(releaseFirst := after.releaseFirst, derivationKnown := true),
                        after.letter, after.watch.value)
  }

  /** A rewrite of the index that starts or finishes no conversion. */
  ghost predicate KeepsStates(before: Index, after: Index) {
    && Unambiguous(after)
    && forall p :: StateOf(after, p).None? || StateOf(after, p) == StateOf(before, p)
  }

  lemma WithoutKeepsStates(ix: Index, t: Target)
    requires Unambiguous(ix)
    ensures KeepsStates(ix, Without(ix, t)) && !Known(Without(ix, t), t)
  {
    WithoutEffect(ix, t);
  }

  /** A new path record and its name go in together, in front. */
  lemma PrependedPath(ix: Index, path: string, alias: string)
    requires Unambiguous(ix) && PrependPath(ix, path).Added?
    ensures var written := PrependPath(ix, path).index;
      var named := [Record(File(path), Normal, 0, alias)] + ix;
      && (if alias == "" then written == named else SetName(written, File(path), alias) == Some(named))
      && KeepsStates(ix, named)
  {
    var written := PrependPath(ix, path).index;
    PrependEffect(ix, Record(File(path), Normal, 0, ""));
    RankIsUnique(written, File(path), 0);
    PrependEffect(ix, Record(File(path), Normal, 0, alias));
    assert written[0 := written[0].(name := alias)] == [Record(File(path), Normal, 0, alias)] + ix;
  }

  predicate OnlyRenamed(before: seq<Row>, after: seq<Row>) {
    |after| == |before|
    && forall i :: 0 <= i < |after| ==> after[i] == before[i].(alias := after[i].alias)
  }

  /** What came of a request to write a path down: held back while records are
      deferred; passed over, because nothing is remembered or the index cannot
      be read; or looked up, and written unless the write failed. */
  datatype Note = Held | Passed | LookedUp(written: bool)

  /** A path that is already recorded shows the recorded name. */
  function NotedAlias(alias: string, ix: Index, path: string, note: Note): string {
    if note.LookedUp? && Known(ix, File(path)) then ix[Rank(ix, File(path))].name else alias
  }

  function NotedRows(rows: seq<Row>, ix: Index, path: string, note: Note): (after: seq<Row>)
    ensures OnlyRenamed(rows, after)
  {
    var k := FindTarget(rows, File(path));
    if k < |rows| then rows[k := rows[k].(alias := NotedAlias(rows[k].alias, ix, path, note))] else rows
  }

  /** A path that is not recorded goes in front, with its name. */
  function NotedIndex(ix: Index, path: string, alias: string, note: Note): Index {
    if note == LookedUp(true) && PrependPath(ix, path).Added? then [Record(File(path), Normal, 0, alias)] + ix else ix
  }

  function NotedPaths(pending: seq<(string, string)>, path: string, alias: string, note: Note): seq<(string, string)> {
    if note.Held? then pending + [(path, alias)] else pending
  }

  /** Where paths are written down: the index, and the list of those held back. */
  datatype Notebook = Notebook(deferring: bool, remembers: bool, faults: nat, index: Index, pending: seq<(string, string)>)

  /** What noting a path does besides names. */
  predicate Noted(before: Notebook, after: Notebook, path: string, alias: string, note: Note) {
    && (note.Held? <==> before.deferring) && (note.Held? ==> after.faults == before.faults)
    && (!note.Held? ==> Possible(note, before.remembers, after.faults == before.faults))
    && before.faults <= after.faults
    && after == Notebook(before.deferring, before.remembers, after.faults,
                       NotedIndex(before.index, path, alias, note), NotedPaths(before.pending, path, alias, note))
  }

  lemma NotedByLookup(before: Notebook, after: Notebook, path: string, alias: string, failed: bool)
    requires !before.deferring && before.remembers
    requires after == before.(faults := before.faults + if failed then 1 else 0,
                              index := NotedIndex(before.index, path, alias, LookedUp(!failed)))
    ensures Noted(before, after, path, alias, LookedUp(!failed))
  {
  }

  lemma NotLookedUp(rows: seq<Row>, ix: Index, path: string, note: Note)
    requires !note.LookedUp?
    ensures NotedRows(rows, ix, path, note) == rows
  {
  }

  /** What a note says when nothing is held back: the path was looked up unless
      nothing is remembered, and written unless a call failed. */
  predicate Possible(note: Note, remembers: bool, noFault: bool) {
    && !note.Held? && (note.LookedUp? ==> remembers)
    && (noFault && remembers ==> note == LookedUp(true))
  }

  /** What a path is called before it is mounted. */
  function NameOfPath(rows: seq<Row>, path: string): string {
    var k := FindTarget(rows, File(path));
    if k < |rows| then DisplayName(rows[k]) else FileNameOf(path)
  }

  /** The list with a row for the path, in front when it is new. */
  function PathBase(rows: seq<Row>, id: nat, path: string, hiddenOpened: bool): seq<Row> {
    if Listed(rows, File(path)) then rows
    else [NewRow(id, File(path), FileNameOf(path), "", hiddenOpened, true, Normal)] + rows
  }

  /** Only the path's row changed: it is mounted now, and shows what noting the
      path makes of its name. */
  predicate AttachedTo(base: seq<Row>, after: seq<Row>, k: nat, path: string, hiddenOpened: bool, ix: Index, note: Note) {
    && k < |base| == |after| && after == base[k := after[k]] && base[k].target == File(path)
    && IsMountOf(after[k].(alias := base[k].alias), base[k])
    && after[k].releaseFirst == (base[k].releaseFirst || hiddenOpened)
    && after[k].alias == NotedAlias(base[k].alias, ix, path, note)
  }

  lemma OnlyRowNames(rows: seq<Row>, k: nat, nextId: nat, nextRevision: nat)
    requires TableOk(rows, nextId, nextRevision) && k < |rows|
    ensures forall i :: 0 <= i < |rows| && i != k ==> rows[i].target != rows[k].target
  {
    assert forall i :: 0 <= i < |rows| && i != k ==> Apart(rows[i], rows[k]);
  }

  lemma NotedAttached(base: seq<Row>, attached: seq<Row>, k: nat, path: string, hiddenOpened: bool, ix: Index, note: Note)
    requires k < |base| && base[k].target == File(path)
    requires |attached| == |base| && attached == base[k := attached[k]]
    requires IsMountOf(attached[k], base[k]) && attached[k].releaseFirst == (base[k].releaseFirst || hiddenOpened)
    requires forall i :: 0 <= i < |attached| && i != k ==> attached[i].target != File(path)
    ensures AttachedTo(base, NotedRows(attached, ix, path, note), k, path, hiddenOpened, ix, note)
  {
    assert FindTarget(attached, File(path)) == k;
  }

  lemma NotedInFront(row: Row, rest: seq<Row>, ix: Index, path: string, note: Note)
    requires row.target == File(path)
    ensures NotedRows([row] + rest, ix, path, note) == [row.(alias := NotedAlias(row.alias, ix, path, note))] + rest
  {
  }

  /** A list and an index after these paths were noted one after the other. */
  function AfterNotes(rows: seq<Row>, ix: Index, paths: seq<(string, string)>, notes: seq<Note>): (after: (seq<Row>, Index))
    requires |notes| == |paths|
    ensures OnlyRenamed(rows, after.0)
  {
    if paths == [] then (rows, ix)
    else
      var n := |paths| - 1;
      var (r, i) := AfterNotes(rows, ix, paths[..n], notes[..n]);
      (NotedRows(r, i, paths[n].0, notes[n]), NotedIndex(i, paths[n].0, paths[n].1, notes[n]))
  }

  lemma OneMoreNote(rows: seq<Row>, ix: Index, paths: seq<(string, string)>, i: nat, notes: seq<Note>, note: Note)
    requires i < |paths| && |notes| == i
    ensures var (r, found) := AfterNotes(rows, ix, paths[..i], notes);
      AfterNotes(rows, ix, paths[..i + 1], notes + [note])
      == (NotedRows(r, found, paths[i].0, note), NotedIndex(found, paths[i].0, paths[i].1, note))
  {
    assert (notes + [note])[..i] == notes && paths[..i + 1][..i] == paths[..i];
  }

  predicate AllPossible(notes: seq<Note>, remembers: bool, noFault: bool) {
    forall i :: 0 <= i < |notes| ==> Possible(notes[i], remembers, noFault)
  }

  /** Looked up and written, every path has a record, unless there is no room. */
  lemma {:induction false} NotedPathsAreKnown(rows: seq<Row>, ix: Index, paths: seq<(string, string)>, notes: seq<Note>)
    requires |notes| == |paths| && forall i :: 0 <= i < |notes| ==> notes[i] == LookedUp(true)
    ensures var after := AfterNotes(rows, ix, paths, notes).1;
      && (forall t :: Known(ix, t) ==> Known(after, t))
      && (|after| >= INDEX_CAPACITY || forall e :: e in paths ==> Known(after, File(e.0)))
  {
    if paths != [] {
      var n := |paths| - 1;
      NotedPathsAreKnown(rows, ix, paths[..n], notes[..n]);
      var before := AfterNotes(rows, ix, paths[..n], notes[..n]).1;
      assert paths == paths[..n] + [paths[n]];
      NotedIndexKeeps(before, paths[n].0, paths[n].1, notes[n]);
    }
  }

  lemma NotedIndexKeeps(ix: Index, path: string, alias: string, note: Note)
    ensures var after := NotedIndex(ix, path, alias, note);
      && |ix| <= |after| && (forall t :: Known(ix, t) ==> Known(after, t))
      && (note == LookedUp(true) && |ix| < INDEX_CAPACITY ==> Known(after, File(path)))
  {
    MatchesIsEquivalence(File(path), File(path), File(path));
  }

  function CreateEvent(succeeded: bool, name: string): Log.Entry {
    Log.Entry(Log.ContainerCreated, succeeded, name, Log.NO_LETTER)
  }

  function MountEvent(succeeded: bool, name: string, letter: char): Log.Entry {
    Log.Entry(Log.ContainerMounted, succeeded, name, letter)
  }

  function UnmountEvent(succeeded: bool, name: string, letter: char): Log.Entry {
    Log.Entry(Log.ContainerUnmounted, succeeded, name, letter)
  }

  /** The two kinds of file container and what the caller gives for each. */
  datatype NewContainer =
    | Standard(size: nat)
    | WithHidden(outer: nat, hidden: nat, decoy: string)

  const SECTOR := 512

  predicate ValidSizes(kind: NewContainer) {
    match kind
    case Standard(size) => size != 0 && size % SECTOR == 0
    case WithHidden(outer, hidden, decoy) =>
      && outer != 0 && hidden != 0 && outer % SECTOR == 0 && hidden % SECTOR == 0
      && hidden < outer && decoy != ""
  }

  /** What an unpublished creation leaves behind: nothing, but for a staging file
      or a folder of its own whose removal was refused. A refused file is
      reported together with the failure it followed. */
  ghost predicate OnlyWhatWouldNotGo(error: Error, path: string, folder: Option<string>, before: Storage, after: Storage) {
    && after.files == before.files + (if error.CleanupFailed? then {StagingPathFor(path)} else {})
    && (error.CleanupFailed? ==> !error.operation.CleanupFailed? && !error.cleanup.CleanupFailed?)
    && (after.dirs == before.dirs || (after.dirs == before.dirs + Only(folder) && Only(folder) <= after.stuck))
  }

  /** The key a container is opened with: the login's own, or the fixed one. */
  function KeyOf(login: string, loginDerived: bool): Key {
    if loginDerived then Password(login) else Fixed
  }

  /** The drive a row is on. */
  function MountedOn(row: Row): set<char> {
    if row.mounted then {row.letter} else {}
  }

  /** The key last offered to the driver. */
  predicate LastTried(tried: seq<Key>, key: Key) {
    tried != [] && tried[|tried| - 1] == key
  }

  /** What a probe offers: the standard key first, the login key only after it. */
  predicate Probed(before: seq<Key>, after: seq<Key>, login: string) {
    || after == before
    || after == before + [KeyOf(login, false)]
    || after == before + [KeyOf(login, false), KeyOf(login, true)]
  }

  /** The key of the outer (or only) volume and the key to mount with. */
  datatype NewKeys = NewKeys(outer: Key, mount: Key)

  predicate KeysAreOf(keys: NewKeys, kind: NewContainer, login: string) {
    && keys.mount == KeyOf(login, kind.WithHidden?)
    && keys.outer == if kind.WithHidden? then Password(kind.decoy) else Fixed
  }

  /** A container whose outer volume the session's maintenance password opens is
      known to be maintainable. */
  function CandidateOf(kind: NewContainer, id: nat, decoyOuter: Option<Key>): seq<nat> {
    if kind.WithHidden? && decoyOuter == Some(Password(kind.decoy)) then [id] else []
  }

  function CreatedFolder(path: string, displayName: string): Option<string> {
    if displayName == "" then None else ProtectedDirectoryOf(path)
  }

  function Only<T>(o: Option<T>): set<T> {
    if o.None? then {} else {o.value}
  }

  function CreatedName(path: string, displayName: string): string {
    if displayName == "" then FileNameOf(path) else displayName
  }

  /** How the first mount of a new container went. */
  function NewMountEvent(name: string, row: Row): Log.Entry {
    MountEvent(row.mounted, name, if row.mounted then row.letter else Log.NO_LETTER)
  }

  /** One event for the creation and one for the mount. */
  function CreationLog(before: Log.Log, name: string, row: Row): Log.Log {
    before.Record(CreateEvent(true, name)).Record(NewMountEvent(name, row))
  }

  /** A discarded container's log: it was discarded, and unmounted if need be. */
  function TakenDownLog(before: Log.Log, row: Row): Log.Log {
    var discarded := before.Discard(DisplayName(row));
    if row.mounted then discarded.Record(UnmountEvent(true, DisplayName(row), row.letter)) else discarded
  }

  /** What a discard that failed part-way leaves: the row still on its volume, or
      free of it, and the events that say so. */
  predicate DiscardStopped(before: seq<Row>, after: seq<Row>, k: nat, log: Log.Log, logAfter: Log.Log) {
    && k < |before|
    && var row := before[k];
       || (row.mounted && after == before
           && logAfter == log.Discard(DisplayName(row)).Record(UnmountEvent(false, DisplayName(row), row.letter)))
       || (after == before[k := if row.mounted then Released(row) else row] && logAfter == TakenDownLog(log, row))
  }

  /** Everything a creation recorded while deferring is dropped with it. */
  lemma CreationIsUndone(started: Log.Log, row: Row)
    requires started.deferring && started.held == [] && started.discarded == []
    ensures TakenDownLog(CreationLog(started, DisplayName(row), row), row).Settle(false)
         == started.(deferring := false, held := [], discarded := [])
  {
    var undone := TakenDownLog(CreationLog(started, DisplayName(row), row), row);
    assert undone.discarded == [DisplayName(row)];
    Log.NothingSurvives(undone.held, undone.discarded);
  }

  function WithoutPath(pending: seq<(string, string)>, path: string): (r: seq<(string, string)>)
    ensures forall e :: e in r <==> e in pending && e.0 != path
  {
    if pending == [] then []
    else (if pending[0].0 == path then [] else [pending[0]]) + WithoutPath(pending[1..], path)
  }

  /** The list with the row a publication leaves in front. */
  predicate IsListedFirst(before: seq<Row>, after: seq<Row>, id: nat, path: string, releaseFirst: bool) {
    && |after| == |before| + 1 && after[1..] == before
    && var row := NewRow(id, File(path), FileNameOf(path), after[0].alias, releaseFirst, true, Normal);
       after[0] == row || (IsMountOf(after[0], row) && after[0].releaseFirst == releaseFirst)
  }

  lemma MountKeepsListing(before: seq<Row>, listed: seq<Row>, after: seq<Row>, id: nat, path: string, releaseFirst: bool)
    requires IsListedFirst(before, listed, id, path, releaseFirst) && !listed[0].mounted
    requires after != [] && after[1..] == listed[1..]
    requires after[0] == listed[0] || (IsMountOf(after[0], listed[0]) && after[0].releaseFirst == releaseFirst)
    ensures IsListedFirst(before, after, id, path, releaseFirst)
    ensures after[0].alias == listed[0].alias && after[0].target == listed[0].target && after[0].id == id
  {
  }

  /** Files, folders, and folders that would not go. */
  datatype Storage = Storage(files: set<string>, dirs: set<string>, stuck: set<string>)

  /** What bringing a file container into the list touches of the session. */
  datatype Snapshot = Snapshot(rows: seq<Row>, nextId: nat, book: Notebook, log: Log.Log,
                               tried: seq<Key>, volumes: set<char>, abandoned: set<char>)

  /** The driver brought a volume up, and nothing else happened. */
  predicate Opened(before: Snapshot, after: Snapshot, login: string, letter: char, hiddenOpened: bool) {
    && LastTried(after.tried, KeyOf(login, hiddenOpened))
    && after == before.(tried := after.tried, volumes := before.volumes + {letter}, abandoned := before.abandoned - {letter})
  }

  /** No volume came up: one failed event, and nothing else. */
  predicate Failed(before: Snapshot, after: Snapshot, name: string) {
    after == before.(tried := after.tried, log := before.log.Record(MountEvent(false, name, Log.NO_LETTER)))
  }

  /** The path's one row took the volume over, the path was noted, and the event
      bears the name the row then shows. */
  predicate PathAttached(before: Snapshot, after: Snapshot, path: string, k: nat, hiddenOpened: bool, note: Note) {
    && AttachedTo(PathBase(before.rows, before.nextId, path, hiddenOpened), after.rows, k, path, hiddenOpened, before.book.index, note)
    && Noted(before.book, after.book, path, "", note)
    && after.log == before.log.Record(MountEvent(true, DisplayName(after.rows[k]), after.rows[k].letter))
    && after.tried == before.tried && after.volumes == before.volumes && after.abandoned == before.abandoned
  }

  /** The path's one row is mounted, with the key that opened it on record. */
  predicate PathMounted(before: Snapshot, after: Snapshot, login: string, path: string, k: nat, hiddenOpened: bool, note: Note) {
    && k < |after.rows|
    && var letter := after.rows[k].letter;
       && LastTried(after.tried, KeyOf(login, hiddenOpened))
       && PathAttached(before.(tried := after.tried, volumes := before.volumes + {letter}, abandoned := before.abandoned - {letter}),
                       after, path, k, hiddenOpened, note)
  }

  lemma OpenedThenAttached(before: Snapshot, up: Snapshot, after: Snapshot, login: string, letter: char, hiddenOpened: bool,
                           path: string, k: nat, note: Note)
    requires Opened(before, up, login, letter, hiddenOpened)
    requires PathAttached(up, after, path, k, hiddenOpened, note) && after.rows[k].letter == letter
    ensures PathMounted(before, after, login, path, k, hiddenOpened, note)
  {
  }

  /** The new row is in front, under the name that noting its path gives it, and
      mounted with the key of its kind if it is mounted; one event says which. */
  predicate ListedAndTried(before: Snapshot, after: Snapshot, path: string, displayName: string,
                           kind: NewContainer, key: Key, note: Note)
  {
    && IsListedFirst(before.rows, after.rows, before.nextId, path, kind.WithHidden?)
    && after.rows[0].alias == NotedAlias(displayName, before.book.index, path, note)
    && Noted(before.book, after.book, path, displayName, note)
    && (after.rows[0].mounted ==> LastTried(after.tried, key))
    && after.volumes == before.volumes + MountedOn(after.rows[0]) && after.abandoned == before.abandoned - MountedOn(after.rows[0])
    && after.log == before.log.Record(NewMountEvent(CreatedName(path, displayName), after.rows[0]))
  }

  /** The file and its folder are there, and both are new. */
  predicate PublishedIn(before: Storage, after: Storage, path: string, folder: Option<string>) {
    && after == before.(files := before.files + {path}, dirs := before.dirs + Only(folder))
    && Only(folder) !! before.dirs
  }

  /** The file and its folder are gone, and nothing else. */
  predicate TakenFrom(before: Storage, after: Storage, path: string, folder: Option<string>) {
    after.files == before.files - {path} && after.dirs == before.dirs - Only(folder)
  }

  /** How far a creation got. */
  datatype Stage = Refused | Unpublished | Published(note: Note)

  /** How far a mount by path got. */
  datatype PathMount = NotMounted | MountedAt(row: nat, hiddenOpened: bool, note: Note)

  class SessionCore {
    const auth: Authentication
    const rt: Runtime
    const layoutA: string
    const layoutB: string

    var rows: seq<Row>
    var nextId: nat
    var nextRevision: nat
    var nextOrdinal: nat

    /** The login password, while the session holds it. */
    var login: string
    /** What was derived from it, once it was needed. */
    var hidden: Option<Key>
    var decoyOuter: Option<Key>
    var candidates: seq<nat>

    var log: Log.Log
    var pendingPaths: seq<(string, string)>
    var formatActive: bool
    var helperTarget: nat

    /** The invariant, but for volumes on the letters in `pending` that no row
        has taken over yet. */
    ghost predicate Holds(pending: set<char>, unsettled: set<Partition> := {})
      reads this, rt
    {
      && rt.Valid()
      && 1 <= nextId
      && TableOk(rows, nextId, nextRevision)
      && rt.volumes <= MountedLetters(rows) + rt.abandoned + pending
      && Agree(rows, rt.index, unsettled)
      && HiddenInOrder()
    }

    ghost predicate HiddenInOrder()
      reads this
    {
      hidden.Some? ==> login != "" && hidden.value == Password(login)
    }

    /** Every volume this session mounted is on a listed, mounted row's letter,
        or is known to be accounted for by nobody; and the list, the index and
        the trace are in order. */
    ghost predicate Valid()
      reads this, rt
    {
      Holds({})
    }

    constructor (auth: Authentication, rt: Runtime, layoutA: string, layoutB: string, logging: bool)
      requires rt.Valid() && rt.volumes <= rt.abandoned
      ensures Valid() && this.auth == auth && this.rt == rt && rows == [] && nextId == 1
      ensures this.layoutA == layoutA && this.layoutB == layoutB
      ensures log == Log.Log([], logging, false, [], [])
    {
      this.auth, this.rt, this.layoutA, this.layoutB := auth, rt, layoutA, layoutB;
      rows, nextId, nextRevision, nextOrdinal := [], 1, 1, 1;
      login, hidden, decoyOuter, candidates := "", None, None, [];
      log, pendingPaths := Log.Log([], logging, false, [], []), [];
      formatActive, helperTarget := false, 0;
    }

    ghost function Book(): Notebook
      reads this, rt
    {
      Notebook(log.deferring, rt.remembers, rt.faults, rt.index, pendingPaths)
    }

    ghost function Now(): Snapshot
      reads this, rt
    {
      Snapshot(rows, nextId, Book(), log, rt.tried, rt.volumes, rt.abandoned)
    }

    ghost function Stored(): Storage
      reads rt
    {
      Storage(rt.files, rt.dirs, rt.stuck)
    }

    predicate AnyRowMounted()
      reads this`rows
    {
      AnyMounted(rows)
    }

    /** A volume that leaves by itself breaks nothing. */
    method VolumesLeave(letters: set<char>)
      requires Valid()
      modifies rt`volumes
      ensures Valid() && rt.volumes == old(rt.volumes) - letters
    {
      rt.VolumesLeave(letters);
    }

    method RecordOperation(e: Log.Entry)
      modifies this`log
      ensures log == old(log).Record(e)
    {
      log := log.Record(e);
    }

    // -- Settings ---------------------------------------------------------------------

    /** Logging goes on or off once the setting is saved; nothing recorded goes. */
    method SwitchLogging(on: bool) returns (failure: Option<Error>)
      requires Valid()
      modifies this`log
      ensures Valid() && Book() == old(Book())
      ensures log == if failure.None? then old(log).(enabled := on) else old(log)
    {
      failure := rt.Try();
      if failure.None? {
        log := log.(enabled := on);
      }
    }

    /** No record goes with the setting. */
    method SwitchRemembering(on: bool) returns (failure: Option<Error>)
      requires Valid()
      modifies rt`remembers
      ensures Valid() && Book() == old(Book()).(remembers := if failure.None? then on else old(rt.remembers))
    {
      failure := rt.SaveRemembers(on);
    }

    // -- Derivations and drive letters ------------------------------------------------

    /** The login derivation, made once per login. */
    method HiddenPassword() returns (r: Result<Key, Error>)
      requires HiddenInOrder()
      modifies this`hidden
      ensures HiddenInOrder()
      ensures r.Err? ==> hidden == old(hidden) == None && (r.error.System? || r.error.WrongState?)
      ensures r.Ok? ==> hidden == Some(r.value) && login != "" && r.value == KeyOf(old(login), true)
    {
      if hidden.Some? {
        return Ok(hidden.value);
      }
      if login == "" {
        return Err(WrongState);
      }
      r := rt.Derive(Password(login));
      if r.Ok? {
        hidden := Some(r.value);
      }
    }

    method ReserveLetter() returns (r: Result<char, Error>)
      ensures r.Ok? ==> IsLetter(r.value) && r.value !in MountedLetters(rows)
      ensures r.Err? ==> r.error.System? || r.error.WrongState?
    {
      r := rt.AllocateLetter();
      if r.Ok? && (!IsLetter(r.value) || r.value in MountedLetters(rows)) {
        return Err(WrongState);
      }
    }

    /** One driver mount and the check that it named a drive. */
    method MountVolume(key: Key, requested: char) returns (r: Result<char, Error>)
      modifies rt`volumes, rt`misreports, rt`abandoned, rt`tried
      ensures rt.tried == old(rt.tried) + [key]
      ensures r.Ok? ==>
        && IsLetter(r.value) && r.value !in MountedLetters(rows) && r.value !in old(rt.volumes)
        && rt.volumes == old(rt.volumes) + {r.value} && rt.abandoned == old(rt.abandoned) - {r.value}
      ensures r.Err? ==> rt.volumes == old(rt.volumes) && rt.abandoned == old(rt.abandoned) && !r.error.CleanupFailed?
    {
      r := rt.Mount(key, requested, MountedLetters(rows));
      if r.Ok? && !IsLetter(r.value) {
        return Err(WrongState);
      }
    }

    /** Reserves a letter and mounts there. */
    method MountReserved(key: Key) returns (r: Result<char, Error>)
      modifies rt`volumes, rt`misreports, rt`abandoned, rt`tried
      ensures rt.tried == old(rt.tried) || rt.tried == old(rt.tried) + [key]
      ensures r.Ok? ==>
        && IsLetter(r.value) && r.value !in MountedLetters(rows) && r.value !in old(rt.volumes) && LastTried(rt.tried, key)
        && rt.volumes == old(rt.volumes) + {r.value} && rt.abandoned == old(rt.abandoned) - {r.value}
      ensures r.Err? ==> rt.volumes == old(rt.volumes) && rt.abandoned == old(rt.abandoned)
    {
      r := ReserveLetter();
      if r.Ok? {
        r := MountVolume(key, r.value);
      }
    }

    /** Takes down what is known about a fresh mount. The revision is new; the
        identity is filled in when the driver can be asked. */
    method CaptureWatch(k: nat) returns (w: Watch)
      requires k < |rows|
      modifies this`rows, this`nextRevision
      ensures nextRevision == old(nextRevision) + 1
      ensures rows == old(rows)[k := old(rows)[k].(watch := Some(w))]
      ensures w.id == rows[k].id && w.letter == rows[k].letter && w.revision == old(nextRevision) && WholeOrAbsent(w)
      ensures rows[k].identity.Some? ==> w == WatchOf(rows[k].id, rows[k].letter, old(nextRevision), rows[k].identity)
    {
      var identity := rows[k].identity;
      if identity.None? {
        var answer := rt.MountIdentity(rows[k].letter);
        identity := if answer.Ok? then Some(answer.value) else None;
      }
      w := WatchOf(rows[k].id, rows[k].letter, nextRevision, identity);
      nextRevision := nextRevision + 1;
      rows := rows[k := rows[k].(watch := Some(w))];
    }

    /** A row takes over the volume just mounted on its letter. */
    method AttachRow(k: nat, row: Row)
      requires Holds({row.letter})
      requires k < |rows| && !rows[k].mounted
      requires row.id == rows[k].id && row.target == rows[k].target && row.conversion == rows[k].conversion
      requires row.mounted && IsLetter(row.letter) && row.letter !in MountedLetters(rows)
      modifies this`rows, this`nextRevision
      ensures Valid() && Evolves(old(rows), old(nextRevision), rows, nextRevision)
      ensures nextRevision == old(nextRevision) + 1
      ensures |rows| == |old(rows)| && rows == old(rows)[k := rows[k]]
      ensures rows[k].watch.Some? && rows[k] == row.(watch := rows[k].watch)
      ensures rows[k].watch.value.revision == old(nextRevision)
      ensures row.identity.Some? ==> rows[k].watch.value == WatchOf(row.id, row.letter, old(nextRevision), row.identity)
    {
      ghost var before := rows;
      rows := rows[k := row];
      var w := CaptureWatch(k);
      assert rows == before[k := rows[k]];
      MountKeepsTable(before, k, rows[k], nextId, nextRevision - 1);
    }

    /** The same, once it is known which derivation opens the container. */
    method AttachMount(k: nat, letter: char, releaseFirst: bool)
      requires Holds({letter})
      requires k < |rows| && !rows[k].mounted
      requires IsLetter(letter) && letter !in MountedLetters(rows)
      modifies this`rows, this`nextRevision
      ensures Valid() && Evolves(old(rows), old(nextRevision), rows, nextRevision)
      ensures nextRevision == old(nextRevision) + 1
      ensures |rows| == |old(rows)| && rows == old(rows)[k := rows[k]]
      ensures IsMountOf(rows[k], old(rows)[k]) && rows[k].letter == letter && rows[k].releaseFirst == releaseFirst
      ensures rows[k].watch.value.revision == old(nextRevision)
    {
      AttachRow(k, rows[k].(letter := letter, mounted := true, releaseFirst := releaseFirst, derivationKnown := true));
    }

    method ReleaseMount(k: nat)
      requires Valid() && k < |rows| && rows[k].mounted
      requires rows[k].letter in rt.volumes ==> rows[k].letter in rt.abandoned
      modifies this`rows
      ensures Valid() && Evolves(old(rows), nextRevision, rows, nextRevision)
      ensures rows == old(rows)[k := Released(old(rows)[k])]
    {
      ReleaseKeepsTable(rows, k, nextId, nextRevision);
      rows := rows[k := Released(rows[k])];
    }

    /** Changes what is shown about a row, and nothing about its mount. */
    method Rename(k: nat, alias: string)
      requires Valid() && k < |rows|
      modifies this`rows
      ensures Valid() && Evolves(old(rows), nextRevision, rows, nextRevision)
      ensures rows == old(rows)[k := old(rows)[k].(alias := alias)]
    {
      RelabelKeepsTable(rows, k, rows[k].(alias := alias), nextId, nextRevision);
      rows := rows[k := rows[k].(alias := alias)];
    }

    /** A container whose hidden volume the login password opens. */
    method MarkHidden(k: nat)
      requires Valid() && k < |rows|
      modifies this`rows
      ensures Valid() && Evolves(old(rows), nextRevision, rows, nextRevision)
      ensures rows == old(rows)[k := old(rows)[k].(releaseFirst := true, derivationKnown := true)]
    {
      var row := rows[k].(releaseFirst := true, derivationKnown := true);
      RelabelKeepsTable(rows, k, row, nextId, nextRevision);
      rows := rows[k := row];
    }

    method DropRow(k: nat)
      requires Valid() && k < |rows| && !rows[k].mounted
      modifies this`rows
      ensures Valid() && Evolves(old(rows), nextRevision, rows, nextRevision)
      ensures rows == WithoutRow(old(rows), k)
    {
      DropUnsettled(k, {});
    }

    /** A row whose record was never accepted goes, and the rest is in order. */
    method DropUnsettled(k: nat, ghost unsettled: set<Partition>)
      requires Holds({}, unsettled) && k < |rows| && !rows[k].mounted
      requires forall p :: p in unsettled ==> rows[k].target == Disk(p)
      modifies this`rows
      ensures Valid() && Evolves(old(rows), nextRevision, rows, nextRevision)
      ensures rows == WithoutRow(old(rows), k)
    {
      EraseKeepsTable(rows, k, nextId, nextRevision);
      forall i | 0 <= i < |rows| && i != k ensures rows[i].target != rows[k].target {
        assert Apart(rows[i], rows[k]);
      }
      rows := WithoutRow(rows, k);
    }

    method DropNewest(ghost unsettled: set<Partition> := {})
      requires Holds({}, unsettled) && rows != [] && !rows[0].mounted
      requires forall p :: p in unsettled ==> rows[0].target == Disk(p)
      modifies this`rows
      ensures Valid() && Evolves(old(rows), nextRevision, rows, nextRevision)
      ensures rows == old(rows)[1..]
    {
      DropUnsettled(0, unsettled);
    }

    /** Adds a fresh row at the front of the list. */
    method InsertNewest(target: Target, name: string, alias: string, releaseFirst: bool, known: bool, state: Conversion,
                        ghost pending: set<char> := {}, ghost unsettled: set<Partition> := {})
      returns (id: nat)
      requires Holds(pending, unsettled) && !Listed(rows, target)
      requires target.File? ==> state == Normal
      requires target.Disk? ==> target.partition in unsettled || StateOf(rt.index, target.partition) in {None, Some(state)}
      modifies this`rows, this`nextId
      ensures Holds(pending, unsettled) && Evolves(old(rows), nextRevision, rows, nextRevision)
      ensures id == old(nextId) && nextId == old(nextId) + 1
      ensures rows == [NewRow(id, target, name, alias, releaseFirst, known, state)] + old(rows)
      ensures MountedLetters(rows) == MountedLetters(old(rows))
    {
      id := nextId;
      var row := NewRow(id, target, name, alias, releaseFirst, known, state);
      InsertKeepsTable(rows, 0, row, nextId, nextRevision);
      assert rows[..0] + [row] + rows[0..] == [row] + rows;
      rows := [row] + rows;
      nextId := nextId + 1;
    }

    // -- Unmounting ---------------------------------------------------------------------

    method Unmount(id: nat, force: bool) returns (failure: Option<Error>)
      requires Valid()
      modifies this`rows, this`log, rt`volumes, rt`attempts
      ensures Valid() && Evolves(old(rows), nextRevision, rows, nextRevision)
      ensures var k := FindById(old(rows), id);
        if k == |old(rows)| then
          failure == Some(InvalidArgument) && rows == old(rows) && log == old(log)
          && rt.volumes == old(rt.volumes) && rt.attempts == old(rt.attempts)
        else if !old(rows)[k].mounted then
          failure.None? && rows == old(rows) && log == old(log)
          && rt.volumes == old(rt.volumes) && rt.attempts == old(rt.attempts)
        else
          var row := old(rows)[k];
          && rows == (if failure.None? then old(rows)[k := Released(row)] else old(rows))
          && rt.volumes == (if failure.None? then old(rt.volumes) - {row.letter} else old(rt.volumes))
          && log == old(log).Record(UnmountEvent(failure.None?, DisplayName(row), row.letter))
          && (!force ==> rt.attempts == old(rt.attempts))
          && (failure.Some? ==> failure.value.System?)
    {
      var k := FindById(rows, id);
      if k == |rows| {
        return Some(InvalidArgument);
      }
      if !rows[k].mounted {
        return None;
      }
      var letter := rows[k].letter;
      if force {
        var forced := rt.UnmountForced(letter);
        failure := if forced.Ok? then None else Some(forced.error);
      } else {
        failure := rt.Unmount(letter);
      }
      if failure.None? {
        ReleaseMount(k);
        RecordOperation(UnmountEvent(true, DisplayName(rows[k]), letter));
      } else {
        RecordOperation(UnmountEvent(false, DisplayName(rows[k]), letter));
      }
    }

    // -- Mounting -------------------------------------------------------------------------

    /** Tries the standard derivation and, when the driver rejects it, the login
        derivation. */
    method MountProbed() returns (r: Result<(char, bool), Error>)
      requires HiddenInOrder()
      modifies this`hidden, rt`volumes, rt`misreports, rt`abandoned, rt`tried
      ensures HiddenInOrder() && Probed(old(rt.tried), rt.tried, old(login))
      ensures r.Ok? ==> LastTried(rt.tried, KeyOf(old(login), r.value.1))
      ensures r.Ok? ==>
        && IsLetter(r.value.0) && r.value.0 !in MountedLetters(rows) && r.value.0 !in old(rt.volumes)
        && rt.volumes == old(rt.volumes) + {r.value.0} && rt.abandoned == old(rt.abandoned) - {r.value.0}
      ensures r.Err? ==> rt.volumes == old(rt.volumes) && rt.abandoned == old(rt.abandoned) && !r.error.CleanupFailed?
    {
      var standard := rt.Derive(Fixed);
      if standard.Err? {
        return Err(standard.error);
      }
      var requested := ReserveLetter();
      if requested.Err? {
        return Err(requested.error);
      }
      var first := MountVolume(standard.value, requested.value);
      if first.Ok? {
        return Ok((first.value, false));
      }
      if !first.error.AuthenticationRejected? || login == "" {
        return Err(first.error);
      }
      var derived := HiddenPassword();
      if derived.Err? {
        return Err(derived.error);
      }
      var second := MountVolume(derived.value, requested.value);
      if second.Err? {
        return Err(second.error);
      }
      return Ok((second.value, true));
    }

    /** The driver call behind a listed file container. */
    method MountListedFile(row: Row) returns (r: Result<(char, bool), Error>)
      requires row.target.File? && HiddenInOrder()
      modifies this`hidden, rt`volumes, rt`misreports, rt`abandoned, rt`tried
      ensures HiddenInOrder()
      ensures if row.derivationKnown then rt.tried == old(rt.tried) || rt.tried == old(rt.tried) + [KeyOf(old(login), row.releaseFirst)]
              else Probed(old(rt.tried), rt.tried, old(login))
      ensures r.Ok? ==> LastTried(rt.tried, KeyOf(old(login), r.value.1))
      ensures r.Ok? ==>
        && IsLetter(r.value.0) && r.value.0 !in MountedLetters(rows) && r.value.0 !in old(rt.volumes)
        && rt.volumes == old(rt.volumes) + {r.value.0} && rt.abandoned == old(rt.abandoned) - {r.value.0}
        && row.target.path in rt.files
        && (row.derivationKnown ==> r.value.1 == row.releaseFirst)
      ensures r.Err? ==> rt.volumes == old(rt.volumes) && rt.abandoned == old(rt.abandoned)
    {
      var present := rt.Exists(row.target.path);
      if present.Err? {
        return Err(present.error);
      }
      if !present.value {
        return Err(NotFound);
      }
      if !row.derivationKnown {
        r := MountProbed();
        return;
      }
      if row.releaseFirst && login == "" {
        return Err(WrongState);
      }
      var password: Result<Key, Error>;
      if row.releaseFirst {
        password := HiddenPassword();
      } else {
        password := rt.Derive(Fixed);
      }
      if password.Err? {
        return Err(password.error);
      }
      var letter := MountReserved(password.value);
      return if letter.Ok? then Ok((letter.value, row.releaseFirst)) else Err(letter.error);
    }

    /** The driver call behind a listed partition. */
    method MountListedPartition(row: Row) returns (r: Result<(char, bool), Error>)
      requires row.target.Disk? && HiddenInOrder()
      modifies this`hidden, rt`volumes, rt`misreports, rt`abandoned, rt`tried
      ensures HiddenInOrder()
      ensures if row.derivationKnown then rt.tried == old(rt.tried) || rt.tried == old(rt.tried) + [KeyOf(old(login), row.releaseFirst)]
              else Probed(old(rt.tried), rt.tried, old(login))
      ensures r.Ok? ==> LastTried(rt.tried, KeyOf(old(login), r.value.1))
      ensures r.Ok? ==>
        && IsLetter(r.value.0) && r.value.0 !in MountedLetters(rows) && r.value.0 !in old(rt.volumes)
        && rt.volumes == old(rt.volumes) + {r.value.0} && rt.abandoned == old(rt.abandoned) - {r.value.0}
        && (row.derivationKnown ==> r.value.1 == row.releaseFirst)
      ensures r.Err? ==> rt.volumes == old(rt.volumes) && rt.abandoned == old(rt.abandoned)
    {
      var requested := ReserveLetter();
      if requested.Err? {
        return Err(requested.error);
      }
      var loginDerived := row.derivationKnown && row.releaseFirst;
      if !loginDerived {
        var standard := rt.Derive(Fixed);
        if standard.Err? {
          return Err(standard.error);
        }
        var first := MountVolume(standard.value, requested.value);
        if first.Ok? {
          return Ok((first.value, false));
        }
        if row.derivationKnown || login == "" || !first.error.AuthenticationRejected? {
          return Err(first.error);
        }
      }
      var derived := HiddenPassword();
      if derived.Err? {
        return Err(derived.error);
      }
      var second := MountVolume(derived.value, requested.value);
      return if second.Ok? then Ok((second.value, true)) else Err(second.error);
    }

    /** What mounting a free row leaves: the row of a volume, opened with the key
        its mark says, or the row as it was. A failed partition mount leaves no
        event; a failed file mount leaves one. */
    twostate predicate MountedOrNot(k: nat, new failure: Option<Error>)
      requires k < |old(rows)| == |rows|
      reads this, rt
    {
      var row := old(rows)[k];
      && rows == old(rows)[k := rows[k]]
      && (if rows[k].mounted then IsMountOf(rows[k], row) else rows[k] == row && failure.Some?)
      && (row.derivationKnown ==> rows[k].releaseFirst == row.releaseFirst)
      && (rows[k].mounted ==> LastTried(rt.tried, KeyOf(old(login), rows[k].releaseFirst)))
      && rt.volumes == old(rt.volumes) + MountedOn(rows[k]) && rt.abandoned == old(rt.abandoned) - MountedOn(rows[k])
      && log == (if rows[k].mounted then old(log).Record(MountEvent(true, DisplayName(row), rows[k].letter))
                 else if row.target.File? then old(log).Record(MountEvent(false, DisplayName(row), Log.NO_LETTER))
                 else old(log))
    }

    /** Mounts a listed container. A row whose conversion is not finished is
        refused before anything is asked of the driver. */
    method MountAdopted(id: nat) returns (failure: Option<Error>)
      requires Valid()
      modifies this`rows, this`nextRevision, this`log, this`hidden, rt`volumes, rt`misreports, rt`abandoned, rt`tried
      ensures Valid() && Evolves(old(rows), old(nextRevision), rows, nextRevision)
      ensures |rows| == |old(rows)|
      ensures var k := FindById(old(rows), id);
        if !auth.Authenticated() || k == |old(rows)| || old(rows)[k].mounted || old(rows)[k].conversion != Normal then
          && rows == old(rows) && log == old(log)
          && rt.volumes == old(rt.volumes) && rt.abandoned == old(rt.abandoned) && rt.tried == old(rt.tried)
          && failure == (if !auth.Authenticated() then Some(NotAuthenticated)
                         else if k == |old(rows)| then Some(InvalidArgument)
                         else if old(rows)[k].mounted then None else Some(WrongState))
        else MountedOrNot(k, failure)
    {
      if !auth.Authenticated() {
        return Some(NotAuthenticated);
      }
      var k := FindById(rows, id);
      if k == |rows| {
        return Some(InvalidArgument);
      }
      if rows[k].mounted {
        return None;
      }
      if rows[k].conversion != Normal {
        return Some(WrongState);
      }
      failure := MountListed(k);
    }

    method MountListed(k: nat) returns (failure: Option<Error>)
      requires Valid() && k < |rows| && !rows[k].mounted
      modifies this`rows, this`nextRevision, this`log, this`hidden, rt`volumes, rt`misreports, rt`abandoned, rt`tried
      ensures Valid() && Evolves(old(rows), old(nextRevision), rows, nextRevision)
      ensures |rows| == |old(rows)| && MountedOrNot(k, failure)
    {
      var row := rows[k];
      var mounted := OpenListed(row);
      if mounted.Err? {
        if row.target.File? {
          RecordOperation(MountEvent(false, DisplayName(row), Log.NO_LETTER));
        }
        return Some(mounted.error);
      }
      failure := AttachListed(k, mounted.value.0, mounted.value.1);
    }

    method AttachListed(k: nat, letter: char, releaseFirst: bool) returns (failure: Option<Error>)
      requires Holds({letter}) && k < |rows| && !rows[k].mounted
      requires IsLetter(letter) && letter !in MountedLetters(rows)
      modifies this`rows, this`nextRevision, this`log
      ensures Valid() && Evolves(old(rows), old(nextRevision), rows, nextRevision)
      ensures |rows| == |old(rows)| && rows == old(rows)[k := rows[k]]
      ensures IsMountOf(rows[k], old(rows)[k]) && rows[k].letter == letter && rows[k].releaseFirst == releaseFirst
      ensures log == old(log).Record(MountEvent(true, DisplayName(old(rows)[k]), letter))
      ensures rt.tried == old(rt.tried) && rt.volumes == old(rt.volumes) && rt.abandoned == old(rt.abandoned)
    {
      var name := DisplayName(rows[k]);
      AttachMount(k, letter, releaseFirst);
      RecordOperation(MountEvent(true, name, letter));
      failure := rt.Try();
    }

    method OpenListed(row: Row) returns (r: Result<(char, bool), Error>)
      requires HiddenInOrder()
      modifies this`hidden, rt`volumes, rt`misreports, rt`abandoned, rt`tried
      ensures HiddenInOrder()
      ensures r.Ok? ==>
        && IsLetter(r.value.0) && r.value.0 !in MountedLetters(rows) && r.value.0 !in old(rt.volumes)
        && rt.volumes == old(rt.volumes) + {r.value.0} && rt.abandoned == old(rt.abandoned) - {r.value.0}
        && LastTried(rt.tried, KeyOf(old(login), r.value.1)) && (row.derivationKnown ==> r.value.1 == row.releaseFirst)
      ensures r.Err? ==> rt.volumes == old(rt.volumes) && rt.abandoned == old(rt.abandoned)
    {
      if row.target.Disk? {
        r := MountListedPartition(row);
      } else {
        r := MountListedFile(row);
      }
    }

    // -- The list and the durable index --------------------------------------------------

    method SaveIndex(ix: Index) returns (failure: Option<Error>)
      requires Valid() && KeepsStates(rt.index, ix)
      modifies rt`index, rt`trace, rt`faults
      ensures Valid() && rt.faults == old(rt.faults) + if failure.Some? then 1 else 0
      ensures failure.Some? ==> rt.index == old(rt.index) && failure.value.System?
      ensures failure.None? ==> rt.index == ix
    {
      failure := rt.WriteIndex(ix);
    }

    /** Writes a path down as a convenience: no failure reaches the caller. A
        path that is already recorded gives its row the recorded name. */
    method RememberPath(path: string, alias: string) returns (ghost note: Note)
      requires Valid()
      modifies this`rows, this`pendingPaths, rt`index, rt`trace, rt`faults
      ensures Valid() && Evolves(old(rows), nextRevision, rows, nextRevision)
      ensures Noted(old(Book()), Book(), path, alias, note)
      ensures rows == NotedRows(old(rows), old(rt.index), path, note)
    {
      NotLookedUp(rows, rt.index, path, Held);
      NotLookedUp(rows, rt.index, path, Passed);
      if log.deferring {
        HoldPath(path, alias);
        return Held;
      }
      if !rt.remembers {
        return Passed;
      }
      var read := rt.ReadIndex();
      if read.Err? {
        return Passed;
      }
      var failed := WritePath(read.value, path, alias);
      NotedByLookup(old(Book()), Book(), path, alias, failed);
      return LookedUp(!failed);
    }

    method HoldPath(path: string, alias: string)
      requires Valid()
      modifies this`pendingPaths
      ensures Valid() && Book() == old(Book()).(pending := old(pendingPaths) + [(path, alias)])
    {
      pendingPaths := pendingPaths + [(path, alias)];
    }

    method WritePath(ix: Index, path: string, alias: string) returns (failed: bool)
      requires Valid() && ix == rt.index
      modifies this`rows, rt`index, rt`trace, rt`faults
      ensures Valid() && Evolves(old(rows), nextRevision, rows, nextRevision)
      ensures rows == NotedRows(old(rows), ix, path, LookedUp(!failed))
      ensures Book() == old(Book()).(faults := old(rt.faults) + if failed then 1 else 0,
                                     index := NotedIndex(ix, path, alias, LookedUp(!failed)))
    {
      failed := false;
      match PrependPath(ix, path)
      case Added(more, _) =>
        PrependedPath(ix, path, alias);
        var failure := SaveIndex(if alias == "" then more else SetName(more, File(path), alias).value);
        failed := failure.Some?;
      case AlreadyPresent =>
        ShowSavedName(ix, path);
      case Full =>
    }

    method ShowSavedName(ix: Index, path: string)
      requires Valid() && Known(ix, File(path))
      modifies this`rows
      ensures Valid() && Evolves(old(rows), nextRevision, rows, nextRevision)
      ensures rows == NotedRows(old(rows), ix, path, LookedUp(true))
    {
      var k := FindTarget(rows, File(path));
      if k < |rows| {
        Rename(k, ix[Rank(ix, File(path))].name);
      }
    }

    /** A convenience too: the record goes unless the index could not be read or
        written. */
    method ForgetPath(path: string)
      requires Valid()
      modifies rt`index, rt`trace, rt`faults
      ensures Valid() && old(rt.faults) <= rt.faults
      ensures rt.index == if rt.faults == old(rt.faults) then Without(old(rt.index), File(path)) else old(rt.index)
    {
      var read := rt.ReadIndex();
      if read.Ok? {
        if Known(read.value, File(path)) {
          WithoutKeepsStates(read.value, File(path));
          var _ := SaveIndex(Without(read.value, File(path)));
        } else {
          WithoutUnknown(read.value, File(path));
        }
      }
    }

    /** Drops an unmounted container. A partition's record goes with it, or the
        row stays; a file's record is removed when it can be. */
    method Forget(id: nat) returns (failure: Option<Error>)
      requires Valid()
      modifies this`rows, rt`index, rt`trace, rt`faults
      ensures Valid() && Evolves(old(rows), nextRevision, rows, nextRevision)
      ensures var k := FindById(old(rows), id);
        if failure.Some? then rows == old(rows) && rt.index == old(rt.index)
        else
          && k < |old(rows)| && !old(rows)[k].mounted && rows == WithoutRow(old(rows), k)
          && (old(rows)[k].target.Disk? ==> !Known(rt.index, old(rows)[k].target))
          && rt.index == (if old(rows)[k].target.Disk? || rt.faults == old(rt.faults)
                          then Without(old(rt.index), old(rows)[k].target) else old(rt.index))
      ensures var k := FindById(old(rows), id);
        k < |old(rows)| && !old(rows)[k].mounted && old(rows)[k].target.File? ==> failure.None?
    {
      var k := FindById(rows, id);
      if k == |rows| {
        return Some(InvalidArgument);
      }
      if rows[k].mounted {
        return Some(WrongState);
      }
      var target := rows[k].target;
      if target.Disk? {
        var read := rt.ReadIndex();
        if read.Err? {
          return Some(read.error);
        }
        if Known(read.value, target) {
          WithoutKeepsStates(read.value, target);
          failure := SaveIndex(Without(read.value, target));
          if failure.Some? {
            return;
          }
        } else {
          WithoutUnknown(read.value, target);
        }
        DropRow(k);
        return None;
      }
      DropRow(k);
      ForgetPath(target.path);
      return None;
    }

    /** Lists an existing file without mounting it. */
    method AdoptContainer(path: string) returns (r: Result<nat, Error>, ghost note: Option<Note>)
      requires Valid()
      modifies this`rows, this`nextId, this`pendingPaths, rt`index, rt`trace, rt`faults
      ensures Valid() && Evolves(old(rows), nextRevision, rows, nextRevision)
      ensures note.None? ==> rows == old(rows) && Book() == old(Book())
      ensures r.Ok? && note.None? ==>
        var k := FindTarget(rows, File(path)); k < |rows| && r.value == rows[k].id
      ensures note.Some? ==>
        && !Listed(old(rows), File(path)) && path in rt.files && r == Ok(old(nextId))
        && rows == [NewRow(r.value, File(path), FileNameOf(path), NotedAlias("", old(rt.index), path, note.value), false, false, Normal)]
                   + old(rows)
        && Noted(old(Book()), Book(), path, "", note.value)
    {
      if !auth.Authenticated() {
        return Err(NotAuthenticated), None;
      }
      var k := FindTarget(rows, File(path));
      if k < |rows| {
        return Ok(rows[k].id), None;
      }
      var present := rt.Exists(path);
      if present.Err? {
        return Err(present.error), None;
      }
      if !present.value {
        return Err(NotFound), None;
      }
      var id;
      ghost var noted;
      id, noted := ListNewest(path, "", false, false);
      return Ok(id), Some(noted);
    }

    /** A file enters the list in front, and its path is written down. */
    method ListNewest(path: string, alias: string, releaseFirst: bool, known: bool) returns (id: nat, ghost note: Note)
      requires Valid() && !Listed(rows, File(path))
      modifies this`rows, this`nextId, this`pendingPaths, rt`index, rt`trace, rt`faults
      ensures Valid() && Evolves(old(rows), nextRevision, rows, nextRevision)
      ensures id == old(nextId) && nextId == id + 1 && Noted(old(Book()), Book(), path, alias, note)
      ensures var shown := NotedAlias(alias, old(rt.index), path, note);
        rows == [NewRow(id, File(path), FileNameOf(path), shown, releaseFirst, known, Normal)] + old(rows)
    {
      id := InsertNewest(File(path), FileNameOf(path), alias, releaseFirst, known, Normal);
      ghost var listed := rows;
      note := RememberPath(path, alias);
      NotedInFront(listed[0], old(rows), old(rt.index), path, note);
      EvolvesTransitively(old(rows), nextRevision, listed, nextRevision, rows, nextRevision);
    }

    // -- Creating a file container ----------------------------------------------------------

    /** Everything up to publication. On failure nothing is published, and the
        flags say what this creation owns. */
    method BuildAndPublish(path: string, folder: Option<string>, kind: NewContainer, hideFile: bool)
      returns (failure: Option<Error>, dirOwned: bool, stagingOwned: bool, keys: NewKeys)
      requires path !in rt.files && StagingPathFor(path) !in rt.files && HiddenInOrder()
      modifies this`hidden, rt`files, rt`dirs
      ensures rt.dirs == old(rt.dirs) + (if dirOwned then Only(folder) else {})
      ensures dirOwned ==> Only(folder) !! old(rt.dirs)
      ensures HiddenInOrder() && Now() == old(Now()) && rt.stuck == old(rt.stuck)
      ensures failure.None? ==> rt.files == old(rt.files) + {path} && (folder.Some? ==> dirOwned) && KeysAreOf(keys, kind, old(login))
      ensures failure.Some? ==>
        && rt.files == old(rt.files) + (if stagingOwned then {StagingPathFor(path)} else {})
        && !failure.value.CleanupFailed?
    {
      var derived := NewContainerKeys(kind);
      if derived.Err? {
        return Some(derived.error), false, false, NewKeys(Fixed, Fixed);
      }
      keys := derived.value;
      failure, dirOwned, stagingOwned := BuildFile(path, StagingPathFor(path), folder, hideFile);
    }

    method NewContainerKeys(kind: NewContainer) returns (r: Result<NewKeys, Error>)
      requires HiddenInOrder()
      modifies this`hidden
      ensures HiddenInOrder() && Now() == old(Now())
      ensures r.Ok? ==> KeysAreOf(r.value, kind, old(login))
      ensures r.Err? ==> !r.error.CleanupFailed?
    {
      var key := rt.Derive(if kind.WithHidden? then Password(kind.decoy) else Fixed);
      if key.Err? {
        return Err(key.error);
      }
      if !kind.WithHidden? {
        return Ok(NewKeys(key.value, key.value));
      }
      var derived := HiddenPassword();
      return if derived.Ok? then Ok(NewKeys(key.value, derived.value)) else Err(derived.error);
    }

    method BuildFile(path: string, staging: string, folder: Option<string>, hideFile: bool)
      returns (failure: Option<Error>, dirOwned: bool, stagingOwned: bool)
      requires path !in rt.files && staging !in rt.files
      modifies rt`files, rt`dirs
      ensures rt.dirs == old(rt.dirs) + (if dirOwned then Only(folder) else {})
      ensures dirOwned ==> Only(folder) !! old(rt.dirs)
      ensures failure.None? ==> rt.files == old(rt.files) + {path} && (folder.Some? ==> dirOwned)
      ensures failure.Some? ==>
        && rt.files == old(rt.files) + (if stagingOwned then {staging} else {})
        && !failure.value.CleanupFailed?
    {
      dirOwned, stagingOwned := false, false;
      if folder.Some? {
        failure := rt.CreateDirectory(folder.value);
        if failure.Some? {
          return;
        }
        dirOwned := true;
      }
      failure := rt.CreateFile(staging);
      if failure.Some? {
        return;
      }
      stagingOwned := true;
      var cancelled := rt.Ask();
      if cancelled {
        return Some(Cancelled), dirOwned, stagingOwned;
      }
      failure := rt.Try();
      if failure.Some? {
        return;
      }
      if hideFile {
        failure := rt.Try();
        if failure.Some? {
          return;
        }
      }
      cancelled := rt.Ask();
      if cancelled {
        return Some(Cancelled), dirOwned, stagingOwned;
      }
      failure := rt.Publish(staging, path);
    }

    /** Undoes an unpublished creation. Failing to remove the folder never
        replaces the error; failing to remove the file is reported with it. */
    method AbandonUnpublished(staging: string, stagingOwned: bool, owned: Option<string>, failure: Error) returns (error: Error)
      requires stagingOwned <==> staging in rt.files
      modifies rt`files, rt`dirs, rt`stuck
      ensures Now() == old(Now())
      ensures rt.files == old(rt.files) - {staging} || rt.files == old(rt.files)
      ensures if staging in rt.files
              then error.CleanupFailed? && error.operation == failure && !error.cleanup.CleanupFailed?
              else error == failure
      ensures
        || (rt.dirs == old(rt.dirs) - Only(owned) && rt.stuck == old(rt.stuck))
        || (rt.dirs == old(rt.dirs) && rt.stuck == old(rt.stuck) + Only(owned))
    {
      error := failure;
      if stagingOwned {
        var cleanup := rt.RemoveFile(staging);
        if cleanup.Some? {
          error := CleanupFailed(failure, cleanup.value);
        }
      }
      if owned.Some? {
        var _ := rt.RemoveEmptyDirectory(owned.value);
      }
    }

    method NoteCandidate(kind: NewContainer, keys: NewKeys, id: nat)
      requires KeysAreOf(keys, kind, login)
      modifies this`candidates
      ensures candidates == old(candidates) + CandidateOf(kind, id, old(decoyOuter))
    {
      if kind.WithHidden? && decoyOuter == Some(keys.outer) {
        candidates := candidates + [id];
      }
    }

    /** A published file enters the list before anything else can fail. */
    method ListPublished(path: string, displayName: string, kind: NewContainer) returns (ghost note: Note)
      requires Valid() && !Listed(rows, File(path))
      modifies this`rows, this`nextId, this`pendingPaths, rt`index, rt`trace, rt`faults
      ensures Valid() && Evolves(old(rows), nextRevision, rows, nextRevision)
      ensures IsListedFirst(old(rows), rows, old(nextId), path, kind.WithHidden?)
      ensures !rows[0].mounted && rows[0].alias == NotedAlias(displayName, old(rt.index), path, note)
      ensures Stored() == old(Stored())
      ensures Noted(old(Book()), Book(), path, displayName, note)
    {
      var id;
      id, note := ListNewest(path, displayName, kind.WithHidden?, true);
    }

    /** Mounts the newest row with the password at hand; exactly one event says
        how it went. */
    method MountNewest(name: string, key: Key) returns (failure: Option<Error>)
      requires Valid() && rows != [] && !rows[0].mounted && rows[0].derivationKnown
      modifies this`rows, this`nextRevision, this`log, rt`volumes, rt`misreports, rt`abandoned, rt`tried
      ensures Valid() && Evolves(old(rows), old(nextRevision), rows, nextRevision)
      ensures rows != [] && rows[1..] == old(rows)[1..]
      ensures if rows[0].mounted then IsMountOf(rows[0], old(rows)[0]) && rows[0].releaseFirst == old(rows)[0].releaseFirst
              else rows[0] == old(rows)[0] && failure.Some?
      ensures rt.volumes == old(rt.volumes) + MountedOn(rows[0]) && rt.abandoned == old(rt.abandoned) - MountedOn(rows[0])
      ensures rows[0].mounted ==> LastTried(rt.tried, key)
      ensures log == old(log).Record(NewMountEvent(name, rows[0]))
    {
      var letter := MountReserved(key);
      if letter.Err? {
        RecordOperation(MountEvent(false, name, Log.NO_LETTER));
        return Some(letter.error);
      }
      failure := AttachNewest(name, letter.value);
    }

    method AttachNewest(name: string, letter: char) returns (failure: Option<Error>)
      requires Holds({letter}) && rows != [] && !rows[0].mounted && rows[0].derivationKnown
      requires IsLetter(letter) && letter !in MountedLetters(rows)
      modifies this`rows, this`nextRevision, this`log
      ensures Valid() && Evolves(old(rows), old(nextRevision), rows, nextRevision)
      ensures rows != [] && rows[1..] == old(rows)[1..]
      ensures IsMountOf(rows[0], old(rows)[0]) && rows[0].letter == letter && rows[0].releaseFirst == old(rows)[0].releaseFirst
      ensures log == old(log).Record(NewMountEvent(name, rows[0]))
      ensures rt.tried == old(rt.tried) && rt.volumes == old(rt.volumes) && rt.abandoned == old(rt.abandoned)
    {
      AttachMount(0, letter, rows[0].releaseFirst);
      RecordOperation(MountEvent(true, name, letter));
      failure := rt.Try();
    }

    /** Builds and publishes, or records the failure and undoes the work. */
    method TryToPublish(path: string, folder: Option<string>, name: string, kind: NewContainer, hideFile: bool)
      returns (failure: Option<Error>, keys: NewKeys)
      requires Valid() && path !in rt.files && StagingPathFor(path) !in rt.files
      modifies this`log, this`hidden, rt`files, rt`dirs, rt`stuck
      ensures Valid()
      ensures failure.None? ==>
        && Now() == old(Now()) && PublishedIn(old(Stored()), Stored(), path, folder)
        && KeysAreOf(keys, kind, old(login))
      ensures failure.Some? ==>
        && Now() == old(Now()).(log := old(log).Record(CreateEvent(false, name)))
        && OnlyWhatWouldNotGo(failure.value, path, folder, old(Stored()), Stored())
    {
      var dirOwned, stagingOwned;
      failure, dirOwned, stagingOwned, keys := BuildAndPublish(path, folder, kind, hideFile);
      if failure.Some? {
        RecordOperation(CreateEvent(false, name));
        var error := AbandonUnpublished(StagingPathFor(path), stagingOwned, if dirOwned then folder else None, failure.value);
        failure := Some(error);
      }
    }

    /** The second half of a creation: whatever fails from here on, the file is
        a container and its row stays. */
    method ListAndMount(path: string, displayName: string, kind: NewContainer, keys: NewKeys)
      returns (r: Result<nat, Error>, ghost note: Note)
      requires Valid() && !Listed(rows, File(path)) && KeysAreOf(keys, kind, login)
      modifies this`rows, this`nextId, this`nextRevision, this`log, this`candidates, this`pendingPaths,
               rt`volumes, rt`misreports, rt`abandoned, rt`tried, rt`index, rt`trace, rt`faults
      ensures Valid() && Evolves(old(rows), old(nextRevision), rows, nextRevision)
      ensures candidates == old(candidates) + CandidateOf(kind, old(nextId), old(decoyOuter)) && Stored() == old(Stored())
      ensures var made := old(Now()).(log := old(log).Record(CreateEvent(true, CreatedName(path, displayName))));
        ListedAndTried(made, Now(), path, displayName, kind, keys.mount, note)
      ensures r.Ok? ==> rows != [] && r.value == rows[0].id && rows[0].mounted
    {
      NoteCandidate(kind, keys, nextId);
      RecordOperation(CreateEvent(true, CreatedName(path, displayName)));
      r, note := ListAndTry(path, displayName, kind, keys.mount);
    }

    method ListAndTry(path: string, displayName: string, kind: NewContainer, key: Key)
      returns (r: Result<nat, Error>, ghost note: Note)
      requires Valid() && !Listed(rows, File(path))
      modifies this`rows, this`nextId, this`nextRevision, this`log, this`pendingPaths,
               rt`volumes, rt`misreports, rt`abandoned, rt`tried, rt`index, rt`trace, rt`faults
      ensures Valid() && Evolves(old(rows), old(nextRevision), rows, nextRevision)
      ensures ListedAndTried(old(Now()), Now(), path, displayName, kind, key, note) && Stored() == old(Stored())
      ensures r.Ok? ==> rows != [] && r.value == rows[0].id && rows[0].mounted
    {
      note := ListPublished(path, displayName, kind);
      r := MountPublished(path, displayName, kind, key, old(rows), old(nextId));
    }

    method MountPublished(path: string, displayName: string, kind: NewContainer, key: Key, ghost before: seq<Row>, ghost id: nat)
      returns (r: Result<nat, Error>)
      requires Valid() && Evolves(before, nextRevision, rows, nextRevision)
      requires IsListedFirst(before, rows, id, path, kind.WithHidden?) && !rows[0].mounted
      modifies this`rows, this`nextRevision, this`log, rt`volumes, rt`misreports, rt`abandoned, rt`tried
      ensures Valid() && Evolves(before, old(nextRevision), rows, nextRevision)
      ensures IsListedFirst(before, rows, id, path, kind.WithHidden?) && rows[0].alias == old(rows)[0].alias
      ensures Stored() == old(Stored())
      ensures r.Ok? ==> r.value == rows[0].id && rows[0].mounted
      ensures rows[0].mounted ==> LastTried(rt.tried, key)
      ensures rt.volumes == old(rt.volumes) + MountedOn(rows[0]) && rt.abandoned == old(rt.abandoned) - MountedOn(rows[0])
      ensures log == old(log).Record(NewMountEvent(CreatedName(path, displayName), rows[0]))
    {
      var late := MountNewest(CreatedName(path, displayName), key);
      MountKeepsListing(before, old(rows), rows, id, path, kind.WithHidden?);
      EvolvesTransitively(before, old(nextRevision), old(rows), old(nextRevision), rows, nextRevision);
      r := if late.None? then Ok(rows[0].id) else Err(late.value);
    }

    /** What a creation asks for before it starts. */
    ghost predicate MayCreate(path: string, kind: NewContainer, displayName: string)
      reads this, rt, auth
    {
      && auth.Authenticated() && ValidSizes(kind) && (kind.WithHidden? ==> login != "")
      && !Listed(rows, File(path))
      && path !in rt.files && StagingPathFor(path) !in rt.files
      && ValidDisplayName(displayName) && (displayName != "" ==> CreatedFolder(path, displayName).Some?)
    }

    /** What is refused before any work starts, in this order. */
    method CheckNewFile(path: string, kind: NewContainer, displayName: string) returns (refusal: Option<Error>)
      ensures refusal.None? ==> MayCreate(path, kind, displayName)
      ensures path in rt.files || StagingPathFor(path) in rt.files ==> refusal.Some?
    {
      if !auth.Authenticated() {
        return Some(NotAuthenticated);
      }
      if kind.WithHidden? && login == "" {
        return Some(WrongState);
      }
      if !ValidSizes(kind) {
        return Some(InvalidArgument);
      }
      if FindTarget(rows, File(path)) < |rows| {
        return Some(WrongState);
      }
      var target := rt.Exists(path);
      if target.Err? || target.value {
        return Some(if target.Err? then target.error else FileExists);
      }
      var leftover := rt.Exists(StagingPathFor(path));
      if leftover.Err? || leftover.value {
        return Some(if leftover.Err? then leftover.error else FileExists);
      }
      if displayName != "" && (!ValidDisplayName(displayName) || ProtectedDirectoryOf(path).None?) {
        return Some(InvalidArgument);
      }
      return None;
    }

    /** Nothing was published: the error is the first one, or carries it. */
    twostate predicate LeftUnpublished(path: string, displayName: string, new r: Result<nat, Error>)
      reads this, rt
    {
      && r.Err? && candidates == old(candidates)
      && Now() == old(Now()).(log := old(log).Record(CreateEvent(false, CreatedName(path, displayName))))
      && OnlyWhatWouldNotGo(r.error, path, CreatedFolder(path, displayName), old(Stored()), Stored())
    }

    /** The file is a container: its row is in front, mounted or not. */
    twostate predicate LeftPublished(path: string, displayName: string, kind: NewContainer, new r: Result<nat, Error>, new note: Note)
      reads this, rt
    {
      var made := old(Now()).(log := old(log).Record(CreateEvent(true, CreatedName(path, displayName))));
      && PublishedIn(old(Stored()), Stored(), path, CreatedFolder(path, displayName))
      && ListedAndTried(made, Now(), path, displayName, kind, KeyOf(old(login), kind.WithHidden?), note)
      && candidates == old(candidates) + CandidateOf(kind, old(nextId), old(decoyOuter))
      && (r.Ok? ==> r.value == rows[0].id && rows[0].mounted)
    }

    /** Publish or nothing. Before publication no file, folder, row or success
        is left, except what could not be removed; after it the row stands. */
    method CreateContainer(path: string, kind: NewContainer, displayName: string)
      returns (r: Result<nat, Error>, ghost stage: Stage)
      requires Valid()
      modifies this`rows, this`nextId, this`nextRevision, this`log, this`candidates, this`pendingPaths,
               this`hidden, rt`volumes, rt`misreports, rt`abandoned, rt`tried, rt`index, rt`trace, rt`faults, rt`files, rt`dirs, rt`stuck
      ensures Valid() && Evolves(old(rows), old(nextRevision), rows, nextRevision)
      ensures stage.Refused? ==>
        && r.Err? && Now() == old(Now()) && Stored() == old(Stored())
      ensures !stage.Refused? ==> old(MayCreate(path, kind, displayName))
      ensures stage.Unpublished? ==> LeftUnpublished(path, displayName, r)
      ensures stage.Published? ==> LeftPublished(path, displayName, kind, r, stage.note)
    {
      var refusal := CheckNewFile(path, kind, displayName);
      if refusal.Some? {
        return Err(refusal.value), Refused;
      }
      r, stage := CreateChecked(path, kind, displayName);
    }

    method CreateChecked(path: string, kind: NewContainer, displayName: string)
      returns (r: Result<nat, Error>, ghost stage: Stage)
      requires Valid() && MayCreate(path, kind, displayName)
      modifies this`rows, this`nextId, this`nextRevision, this`log, this`candidates, this`pendingPaths,
               this`hidden, rt`volumes, rt`misreports, rt`abandoned, rt`tried, rt`index, rt`trace, rt`faults, rt`files, rt`dirs, rt`stuck
      ensures Valid() && Evolves(old(rows), old(nextRevision), rows, nextRevision)
      ensures !stage.Refused?
      ensures stage.Unpublished? ==> LeftUnpublished(path, displayName, r)
      ensures stage.Published? ==> LeftPublished(path, displayName, kind, r, stage.note)
    {
      var hideByDefault := rt.Ask();
      var failure, keys := TryToPublish(path, CreatedFolder(path, displayName), CreatedName(path, displayName), kind,
                                        hideByDefault || displayName != "");
      if failure.Some? {
        return Err(failure.value), Unpublished;
      }
      ghost var note;
      r, note := ListAndMount(path, displayName, kind, keys);
      stage := Published(note);
    }

    /** Mounts a file named by its path, listing it first when it is not listed. */
    method MountContainer(path: string) returns (r: Result<nat, Error>, ghost end: PathMount)
      requires Valid()
      modifies this`rows, this`nextId, this`nextRevision, this`log, this`pendingPaths, this`hidden,
               rt`volumes, rt`misreports, rt`abandoned, rt`tried, rt`index, rt`trace, rt`faults
      ensures Valid() && Evolves(old(rows), old(nextRevision), rows, nextRevision)
      ensures r.Ok? ==> end.MountedAt? && path in old(rt.files)
      ensures end.NotMounted? ==> Now() == old(Now()) || Failed(old(Now()), Now(), NameOfPath(old(rows), path))
      ensures end.MountedAt? ==>
        && !(exists i :: 0 <= i < |old(rows)| && old(rows)[i].target == File(path) && old(rows)[i].mounted)
        && PathMounted(old(Now()), Now(), old(login), path, end.row, end.hiddenOpened, end.note)
        && (r.Ok? ==> r.value == rows[end.row].id)
    {
      if !auth.Authenticated() {
        return Err(NotAuthenticated), NotMounted;
      }
      var k := FindTarget(rows, File(path));
      if k < |rows| && rows[k].mounted {
        return Err(WrongState), NotMounted;
      }
      OnlyRowOf(k, path);
      r, end := MountFreePath(path);
    }

    method MountFreePath(path: string) returns (r: Result<nat, Error>, ghost end: PathMount)
      requires Valid()
      requires forall i :: 0 <= i < |rows| && rows[i].target == File(path) ==> !rows[i].mounted
      modifies this`rows, this`nextId, this`nextRevision, this`log, this`pendingPaths, this`hidden,
               rt`volumes, rt`misreports, rt`abandoned, rt`tried, rt`index, rt`trace, rt`faults
      ensures Valid() && Evolves(old(rows), old(nextRevision), rows, nextRevision)
      ensures r.Ok? ==> end.MountedAt? && path in old(rt.files)
      ensures end.NotMounted? ==> Failed(old(Now()), Now(), NameOfPath(old(rows), path))
      ensures end.MountedAt? ==>
        && PathMounted(old(Now()), Now(), old(login), path, end.row, end.hiddenOpened, end.note)
        && (r.Ok? ==> r.value == rows[end.row].id)
    {
      var volume := OpenPath(path, NameOfPath(rows, path));
      if volume.Err? {
        return Err(volume.error), NotMounted;
      }
      ghost var up := Now();
      r, end := ListOpened(path, volume.value.0, volume.value.1);
      OpenedThenAttached(old(Now()), up, Now(), old(login), volume.value.0, volume.value.1, path, end.row, end.note);
    }

    method ListOpened(path: string, letter: char, hiddenOpened: bool) returns (r: Result<nat, Error>, ghost end: PathMount)
      requires Holds({letter}) && IsLetter(letter) && letter !in MountedLetters(rows)
      requires forall i :: 0 <= i < |rows| && rows[i].target == File(path) ==> !rows[i].mounted
      modifies this`rows, this`nextId, this`nextRevision, this`log, this`pendingPaths, rt`index, rt`trace, rt`faults
      ensures Valid() && Evolves(old(rows), old(nextRevision), rows, nextRevision)
      ensures end.MountedAt? && end.hiddenOpened == hiddenOpened
      ensures PathAttached(old(Now()), Now(), path, end.row, hiddenOpened, end.note)
      ensures rows[end.row].letter == letter && (r.Ok? ==> r.value == rows[end.row].id)
    {
      var at;
      ghost var note;
      at, note := AttachToPath(path, letter, hiddenOpened);
      RecordOperation(MountEvent(true, DisplayName(rows[at]), letter));
      var late := rt.Try();
      return if late.None? then Ok(rows[at].id) else Err(late.value), MountedAt(at, hiddenOpened, note);
    }

    /** The driver's part; a refusal leaves one failed event. */
    method OpenPath(path: string, name: string) returns (r: Result<(char, bool), Error>)
      requires HiddenInOrder()
      modifies this`log, this`hidden, rt`volumes, rt`misreports, rt`abandoned, rt`tried
      ensures HiddenInOrder()
      ensures r.Ok? ==>
        && path in old(rt.files) && Opened(old(Now()), Now(), old(login), r.value.0, r.value.1)
        && IsLetter(r.value.0) && r.value.0 !in MountedLetters(rows)
      ensures r.Err? ==> Failed(old(Now()), Now(), name)
    {
      var present := rt.Exists(path);
      if present.Err? || !present.value {
        r := Err(if present.Err? then present.error else NotFound);
      } else {
        r := MountProbed();
      }
      if r.Err? {
        RecordOperation(MountEvent(false, name, Log.NO_LETTER));
      }
    }

    lemma OnlyRowOf(k: nat, path: string)
      requires Valid() && k == FindTarget(rows, File(path)) && (k < |rows| ==> !rows[k].mounted)
      ensures forall i :: 0 <= i < |rows| && rows[i].target == File(path) ==> !rows[i].mounted
    {
    }

    /** The row of a path, listed now when it was not. */
    method RowOfPath(path: string, hiddenOpened: bool, ghost pending: set<char>) returns (k: nat)
      requires Holds(pending)
      requires forall i :: 0 <= i < |rows| && rows[i].target == File(path) ==> !rows[i].mounted
      modifies this`rows, this`nextId
      ensures Holds(pending) && Evolves(old(rows), nextRevision, rows, nextRevision)
      ensures rows == PathBase(old(rows), old(nextId), path, hiddenOpened)
      ensures k < |rows| && rows[k].target == File(path) && !rows[k].mounted
      ensures MountedLetters(rows) == MountedLetters(old(rows))
    {
      k := FindTarget(rows, File(path));
      if k == |rows| {
        var _ := InsertNewest(File(path), FileNameOf(path), "", hiddenOpened, true, Normal, pending);
        k := 0;
      }
    }

    /** The volume just mounted from a path belongs to that path's row. */
    method AttachToPath(path: string, letter: char, hiddenOpened: bool) returns (k: nat, ghost note: Note)
      requires Holds({letter})
      requires IsLetter(letter) && letter !in MountedLetters(rows)
      requires forall i :: 0 <= i < |rows| && rows[i].target == File(path) ==> !rows[i].mounted
      modifies this`rows, this`nextId, this`nextRevision, this`pendingPaths, rt`index, rt`trace, rt`faults
      ensures Valid() && Evolves(old(rows), old(nextRevision), rows, nextRevision)
      ensures AttachedTo(PathBase(old(rows), old(nextId), path, hiddenOpened), rows, k, path, hiddenOpened, old(rt.index), note)
      ensures rows[k].letter == letter && Noted(old(Book()), Book(), path, "", note)
    {
      k := RowOfPath(path, hiddenOpened, {letter});
      note := AttachAndNote(k, path, letter, hiddenOpened, old(rows));
    }

    method AttachAndNote(k: nat, path: string, letter: char, hiddenOpened: bool, ghost before: seq<Row>) returns (ghost note: Note)
      requires Holds({letter}) && Evolves(before, nextRevision, rows, nextRevision)
      requires k < |rows| && rows[k].target == File(path) && !rows[k].mounted
      requires IsLetter(letter) && letter !in MountedLetters(rows)
      modifies this`rows, this`nextRevision, this`pendingPaths, rt`index, rt`trace, rt`faults
      ensures Valid() && Evolves(before, old(nextRevision), rows, nextRevision)
      ensures AttachedTo(old(rows), rows, k, path, hiddenOpened, old(rt.index), note)
      ensures rows[k].letter == letter && Noted(old(Book()), Book(), path, "", note)
    {
      AttachMount(k, letter, rows[k].releaseFirst || hiddenOpened);
      EvolvesTransitively(before, old(nextRevision), old(rows), old(nextRevision), rows, nextRevision);
      note := NoteAttached(k, path, hiddenOpened, before, old(nextRevision), old(rows));
    }

    method NoteAttached(k: nat, path: string, hiddenOpened: bool, ghost before: seq<Row>, ghost revision: nat, ghost base: seq<Row>)
      returns (ghost note: Note)
      requires Valid() && Evolves(before, revision, rows, nextRevision)
      requires k < |base| == |rows| && base[k].target == File(path) && rows == base[k := rows[k]]
      requires IsMountOf(rows[k], base[k]) && rows[k].releaseFirst == (base[k].releaseFirst || hiddenOpened)
      modifies this`rows, this`pendingPaths, rt`index, rt`trace, rt`faults
      ensures Valid() && Evolves(before, revision, rows, nextRevision)
      ensures AttachedTo(base, rows, k, path, hiddenOpened, old(rt.index), note)
      ensures rows[k].letter == old(rows)[k].letter && Noted(old(Book()), Book(), path, "", note)
    {
      OnlyRowNames(rows, k, nextId, nextRevision);
      note := RememberPath(path, "");
      NotedAttached(base, old(rows), k, path, hiddenOpened, old(rt.index), note);
      EvolvesTransitively(before, revision, old(rows), nextRevision, rows, nextRevision);
    }

    // -- Undoing a creation ---------------------------------------------------------------

    /** Deletes a new container's file, folder and row. On success nothing of it
        is left; until the file is gone the row stays. */
    method DiscardNew(id: nat) returns (failure: Option<Error>)
      requires Valid()
      modifies this`rows, this`log, this`pendingPaths,
               rt`volumes, rt`attempts, rt`files, rt`dirs, rt`stuck, rt`index, rt`trace, rt`faults
      ensures Valid() && Evolves(old(rows), nextRevision, rows, nextRevision)
      ensures var k := FindById(old(rows), id);
        failure.None? ==>
          if k == |old(rows)| then rows == old(rows) && log == old(log) && Stored() == old(Stored()) && Book() == old(Book())
          else
            var row := old(rows)[k];
            && row.target.File?
            && rows == WithoutRow(old(rows), k)
            && TakenFrom(old(Stored()), Stored(), row.target.path, CreatedFolder(row.target.path, row.alias))
            && log == TakenDownLog(old(log), row)
            && pendingPaths == (if log.deferring then WithoutPath(old(pendingPaths), row.target.path) else old(pendingPaths))
            && rt.index == (if rt.faults == old(rt.faults) then Without(old(rt.index), row.target) else old(rt.index))
      ensures failure.Some? ==>
        && Book() == old(Book())
        && ((rows == old(rows) && log == old(log)) || DiscardStopped(old(rows), rows, FindById(old(rows), id), old(log), log))
    {
      var k := FindById(rows, id);
      if k == |rows| {
        return None;
      }
      if rows[k].target.Disk? {
        return Some(WrongState);
      }
      if rows[k].alias != "" && CreatedFolder(rows[k].target.path, rows[k].alias).None? {
        return Some(InvalidArgument);
      }
      failure := DiscardRow(k);
    }

    method DiscardRow(k: nat) returns (failure: Option<Error>)
      requires Valid() && k < |rows| && rows[k].target.File?
      modifies this`rows, this`log, this`pendingPaths,
               rt`volumes, rt`attempts, rt`files, rt`dirs, rt`stuck, rt`index, rt`trace, rt`faults
      ensures Valid() && Evolves(old(rows), nextRevision, rows, nextRevision)
      ensures failure.None? ==>
        var row := old(rows)[k];
        && rows == WithoutRow(old(rows), k)
        && TakenFrom(old(Stored()), Stored(), row.target.path, CreatedFolder(row.target.path, row.alias))
        && log == TakenDownLog(old(log), row)
        && pendingPaths == (if log.deferring then WithoutPath(old(pendingPaths), row.target.path) else old(pendingPaths))
        && rt.index == (if rt.faults == old(rt.faults) then Without(old(rt.index), row.target) else old(rt.index))
      ensures failure.Some? ==> Book() == old(Book()) && DiscardStopped(old(rows), rows, k, old(log), log)
    {
      var row := rows[k];
      failure := TakeDown(k);
      if failure.Some? {
        return;
      }
      failure := RemoveListed(k, row.target.path, CreatedFolder(row.target.path, row.alias), old(rows));
      if failure.None? {
        ForgetHeld(row.target.path);
      }
    }

    method ForgetHeld(path: string)
      requires Valid()
      modifies this`pendingPaths
      ensures Valid() && Stored() == old(Stored())
      ensures pendingPaths == if log.deferring then WithoutPath(old(pendingPaths), path) else old(pendingPaths)
    {
      if log.deferring {
        pendingPaths := WithoutPath(pendingPaths, path);
      }
    }

    /** Marks a container as discarded and takes its volume down. */
    method TakeDown(k: nat) returns (failure: Option<Error>)
      requires Valid() && k < |rows|
      modifies this`rows, this`log, rt`volumes, rt`attempts
      ensures Valid() && Evolves(old(rows), nextRevision, rows, nextRevision)
      ensures |rows| == |old(rows)| && Stored() == old(Stored()) && Book() == old(Book())
      ensures failure.Some? ==> DiscardStopped(old(rows), rows, k, old(log), log)
      ensures failure.None? ==>
        && rows == old(rows)[k := if old(rows)[k].mounted then Released(old(rows)[k]) else old(rows)[k]]
        && WithoutRow(rows, k) == WithoutRow(old(rows), k)
        && rows[k].target == old(rows)[k].target && !rows[k].mounted
        && log == TakenDownLog(old(log), old(rows)[k])
    {
      log := log.Discard(DisplayName(rows[k]));
      if rows[k].mounted {
        FindsOwnId(rows, k, nextId, nextRevision);
        failure := Unmount(rows[k].id, true);
      } else {
        failure := None;
      }
    }

    /** The file goes before the row: a failure part-way leaves it listed. */
    method RemoveListed(k: nat, path: string, folder: Option<string>, ghost before: seq<Row>) returns (failure: Option<Error>)
      requires Valid() && k < |rows| && rows[k].target == File(path) && !rows[k].mounted
      requires Evolves(before, nextRevision, rows, nextRevision)
      modifies this`rows, rt`files, rt`dirs, rt`stuck, rt`index, rt`trace, rt`faults
      ensures Valid() && Evolves(before, nextRevision, rows, nextRevision)
      ensures failure.Some? ==> rows == old(rows) && Book() == old(Book())
      ensures failure.None? ==>
        && rows == WithoutRow(old(rows), k)
        && TakenFrom(old(Stored()), Stored(), path, folder)
        && rt.index == (if rt.faults == old(rt.faults) then Without(old(rt.index), File(path)) else old(rt.index))
    {
      failure := RemoveStored(path, folder);
      if failure.None? {
        failure := ForgetListed(k, before);
      }
    }

    method RemoveStored(path: string, folder: Option<string>) returns (failure: Option<Error>)
      requires Valid()
      modifies rt`files, rt`dirs, rt`stuck
      ensures Valid() && Book() == old(Book()) && (failure.None? ==> TakenFrom(old(Stored()), Stored(), path, folder))
    {
      failure := rt.RemoveFile(path);
      if failure.None? && folder.Some? {
        failure := rt.RemoveEmptyDirectory(folder.value);
      }
    }

    method ForgetListed(k: nat, ghost before: seq<Row>) returns (failure: Option<Error>)
      requires Valid() && k < |rows| && rows[k].target.File? && !rows[k].mounted && Evolves(before, nextRevision, rows, nextRevision)
      modifies this`rows, rt`index, rt`trace, rt`faults
      ensures Valid() && Evolves(before, nextRevision, rows, nextRevision)
      ensures failure.None? && rows == WithoutRow(old(rows), k) && Stored() == old(Stored())
      ensures rt.index == if rt.faults == old(rt.faults) then Without(old(rt.index), old(rows)[k].target) else old(rt.index)
    {
      FindsOwnId(rows, k, nextId, nextRevision);
      failure := Forget(rows[k].id);
      EvolvesTransitively(before, nextRevision, old(rows), nextRevision, rows, nextRevision);
    }

    method DeferOperations() returns (failure: Option<Error>)
      modifies this`log, this`pendingPaths
      ensures failure.Some? <==> old(log).deferring
      ensures failure.Some? ==> log == old(log) && pendingPaths == old(pendingPaths)
      ensures failure.None? ==> log == old(log).Defer() && pendingPaths == []
    {
      if log.deferring {
        return Some(WrongState);
      }
      log, pendingPaths := log.Defer(), [];
      return None;
    }

    /** What was held back is recorded, or dropped with the container it was
        about; a kept container's path is written down now. */
    method SettleOperations(keep: bool) returns (ghost notes: seq<Note>)
      requires Valid()
      modifies this`rows, this`log, this`pendingPaths, rt`index, rt`trace, rt`faults
      ensures Valid() && Evolves(old(rows), nextRevision, rows, nextRevision)
      ensures log == old(log).Settle(keep) && pendingPaths == [] && Stored() == old(Stored())
      ensures !keep ==> rows == old(rows) && rt.index == old(rt.index) && rt.faults == old(rt.faults)
      ensures OnlyRenamed(old(rows), rows)
      ensures keep ==>
        && |notes| == |old(pendingPaths)| && (rows, rt.index) == AfterNotes(old(rows), old(rt.index), old(pendingPaths), notes)
        && AllPossible(notes, rt.remembers, rt.faults == old(rt.faults))
    {
      var paths := pendingPaths;
      log, pendingPaths, notes := log.Settle(keep), [], [];
      Log.SettledIsNotDeferring(old(log), keep);
      if !keep {
        return;
      }
      for i := 0 to |paths|
        invariant Valid() && Evolves(old(rows), nextRevision, rows, nextRevision)
        invariant pendingPaths == [] && !log.deferring && log == old(log).Settle(keep)
        invariant |notes| == i && (rows, rt.index) == AfterNotes(old(rows), old(rt.index), paths[..i], notes)
        invariant old(rt.faults) <= rt.faults && AllPossible(notes, rt.remembers, rt.faults == old(rt.faults))
      {
        notes := NoteNext(paths, i, notes, old(rows), old(rt.index), old(rt.faults));
      }
      assert paths[..|paths|] == paths;
    }

    method NoteNext(paths: seq<(string, string)>, i: nat, ghost sofar: seq<Note>,
                    ghost before: seq<Row>, ghost found: Index, ghost faults: nat)
      returns (ghost notes: seq<Note>)
      requires Valid() && !log.deferring && i < |paths| && |sofar| == i && faults <= rt.faults
      requires Evolves(before, nextRevision, rows, nextRevision)
      requires (rows, rt.index) == AfterNotes(before, found, paths[..i], sofar)
      requires AllPossible(sofar, rt.remembers, rt.faults == faults)
      modifies this`rows, this`pendingPaths, rt`index, rt`trace, rt`faults
      ensures Valid() && Evolves(before, nextRevision, rows, nextRevision) && pendingPaths == old(pendingPaths)
      ensures |notes| == i + 1 && (rows, rt.index) == AfterNotes(before, found, paths[..i + 1], notes)
      ensures faults <= rt.faults && AllPossible(notes, rt.remembers, rt.faults == faults)
    {
      ghost var note := RememberPath(paths[i].0, paths[i].1);
      EvolvesTransitively(before, nextRevision, old(rows), nextRevision, rows, nextRevision);
      notes := sofar + [note];
      OneMoreNote(before, found, paths, i, sofar, note);
    }

    /** Undoes the newest row's creation and closes the deferral. */
    method UndoNewest(ghost started: Log.Log) returns (failure: Option<Error>)
      requires Valid() && rows != [] && rows[0].target.File?
      requires started.deferring && started.held == [] && started.discarded == []
      requires log == CreationLog(started, DisplayName(rows[0]), rows[0])
      modifies this`rows, this`log, this`pendingPaths,
               rt`volumes, rt`attempts, rt`files, rt`dirs, rt`stuck, rt`index, rt`trace, rt`faults
      ensures Valid() && Evolves(old(rows), nextRevision, rows, nextRevision)
      ensures failure.None? ==>
        && rows == old(rows)[1..] && log == started.(deferring := false, held := [], discarded := [])
        && pendingPaths == []
        && rt.index == (if rt.faults == old(rt.faults) then Without(old(rt.index), old(rows)[0].target) else old(rt.index))
        && TakenFrom(old(Stored()), Stored(), old(rows)[0].target.path, CreatedFolder(old(rows)[0].target.path, old(rows)[0].alias))
    {
      ghost var row := rows[0];
      failure := DiscardNewest(started);
      if failure.Some? {
        return;
      }
      ghost var dropped := rows;
      CreationIsUndone(started, row);
      ghost var _ := SettleOperations(false);
      EvolvesTransitively(old(rows), nextRevision, dropped, nextRevision, rows, nextRevision);
    }

    method DiscardNewest(ghost started: Log.Log) returns (failure: Option<Error>)
      requires Valid() && rows != [] && rows[0].target.File?
      requires started.deferring && log == CreationLog(started, DisplayName(rows[0]), rows[0])
      modifies this`rows, this`log, this`pendingPaths,
               rt`volumes, rt`attempts, rt`files, rt`dirs, rt`stuck, rt`index, rt`trace, rt`faults
      ensures Valid() && Evolves(old(rows), nextRevision, rows, nextRevision)
      ensures failure.None? ==>
        && rows == old(rows)[1..] && log == TakenDownLog(CreationLog(started, DisplayName(old(rows)[0]), old(rows)[0]), old(rows)[0])
        && rt.index == (if rt.faults == old(rt.faults) then Without(old(rt.index), old(rows)[0].target) else old(rt.index))
        && TakenFrom(old(Stored()), Stored(), old(rows)[0].target.path, CreatedFolder(old(rows)[0].target.path, old(rows)[0].alias))
    {
      FindsOwnId(rows, 0, nextId, nextRevision);
      failure := DiscardNew(rows[0].id);
    }

    /** A creation while records are held back, as far as undoing it needs. */
    method CreateDeferred(path: string, kind: NewContainer, displayName: string) returns (created: bool)
      requires Valid() && log.deferring
      modifies this`rows, this`nextId, this`nextRevision, this`log, this`candidates, this`pendingPaths,
               this`hidden, rt`volumes, rt`misreports, rt`abandoned, rt`tried, rt`index, rt`trace, rt`faults, rt`files, rt`dirs, rt`stuck
      ensures Valid() && Evolves(old(rows), old(nextRevision), rows, nextRevision)
      ensures created ==>
        && rows != [] && rows[1..] == old(rows) && rows[0].target == File(path) && rows[0].alias == displayName
        && log == CreationLog(old(log), DisplayName(rows[0]), rows[0])
        && path !in old(rt.files) && PublishedIn(old(Stored()), Stored(), path, CreatedFolder(path, displayName))
        && rt.index == old(rt.index) && rt.faults == old(rt.faults)
    {
      var r, stage := CreateContainer(path, kind, displayName);
      return r.Ok?;
    }

    /** Deferring, creating, undoing and settling leaves the list, the files and
        the history as they were: every event of the creation bears the
        discarded name. A record that the path had before goes with the creation,
        so the index is as it was exactly when there was none, or when a call to
        the index failed. */
    method CreateAndUndo(path: string, kind: NewContainer, displayName: string) returns (undone: bool)
      requires Valid() && !log.deferring
      modifies this`rows, this`nextId, this`nextRevision, this`log, this`candidates, this`pendingPaths,
               this`hidden, rt`volumes, rt`misreports, rt`abandoned, rt`tried, rt`attempts,
               rt`index, rt`trace, rt`faults, rt`files, rt`dirs, rt`stuck
      ensures Valid() && Evolves(old(rows), old(nextRevision), rows, nextRevision)
      ensures undone ==>
        && rows == old(rows) && pendingPaths == []
        && rt.files == old(rt.files) && rt.dirs == old(rt.dirs)
        && log == old(log).(held := [], discarded := [])
        && rt.index == (if rt.faults == old(rt.faults) then Without(old(rt.index), File(path)) else old(rt.index))
        && (rt.index == old(rt.index) <==> !Known(old(rt.index), File(path)) || rt.faults != old(rt.faults))
    {
      WithoutKnown(rt.index, File(path));
      var deferred := DeferOperations();
      ghost var started := log;
      var created := CreateDeferred(path, kind, displayName);
      if !created {
        return false;
      }
      ghost var made, madeRevision := rows, nextRevision;
      var failure := UndoNewest(started);
      EvolvesTransitively(old(rows), old(nextRevision), made, madeRevision, rows, nextRevision);
      return failure.None?;
    }
  }
}
