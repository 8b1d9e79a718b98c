/** The names that the history shows while records are deferred
    (card_login_mount_session.cpp:1683-1733, 3163-3234, 3733-3758). A path noted
    while records are held back does not take its recorded name until they are
    settled, so events recorded meanwhile can bear another name. */
module SessionNaming {
  import opened Wrappers
  import opened Paths
  import opened ContainerIndex
  import opened ContainerTable
  import opened VaultRuntime
  import opened Session
  import opened SessionDeletion
  import Log = OperationLog

  // -- What names and events depend on ---------------------------------------------------------

  /** The names of the list, what is recorded, and the history. */
  datatype Desk = Desk(rows: seq<Row>, index: Index, remembers: bool, log: Log.Log, pending: seq<(string, string)>)

  /** A row without anything that no name depends on. */
  function Bare(target: Target, name: string, alias: string): Row {
    NewRow(0, target, name, alias, false, false, Normal)
  }

  function NamesOf(rows: seq<Row>): (r: seq<Row>)
    ensures |r| == |rows|
  {
    seq(|rows|, i requires 0 <= i < |rows| => Bare(rows[i].target, rows[i].name, rows[i].alias))
  }

  lemma {:induction false} FindsSameTarget(rows: seq<Row>, names: seq<Row>, t: Target)
    requires |names| == |rows| && forall i :: 0 <= i < |rows| ==> names[i].target == rows[i].target
    ensures FindTarget(names, t) == FindTarget(rows, t)
  {
    if rows != [] && rows[0].target != t {
      FindsSameTarget(rows[1..], names[1..], t);
    }
  }

  /** The single things that happen to names, records and history. They say what
      was done and what the environment answered, never what the index held:
      `saved` says that no call to the index failed. */
  datatype Deed =
    | PutInFront(path: string, alias: string)
    | WriteDown(path: string, alias: string, note: Note)
    | TellPath(succeeded: bool, path: string, letter: char)
    | Tell(kind: Log.Kind, succeeded: bool, k: nat, letter: char)
    | Say(entry: Log.Entry)
    | TakeOut(k: nat, saved: bool)
    | Relabel(k: nat, alias: string, saved: bool)
    | LookAtName(k: nat)
    | Disown(k: nat)
    | Unhold(path: string)
    | SwitchLogging(on: bool)
    | SwitchRemembering(on: bool)

  function Recorded(d: Desk, e: Log.Entry): Desk {
    d.(log := d.log.Record(e))
  }

  /** What a deed makes of a desk, its own index included. */
  function Did(d: Desk, deed: Deed): Desk {
    match deed
    case PutInFront(path, alias) => d.(rows := [Bare(File(path), FileNameOf(path), alias)] + d.rows)
    case WriteDown(path, alias, note) =>
      if d.log.deferring then d.(pending := d.pending + [(path, alias)])
      else if !d.remembers then d
      else d.(rows := NotedRows(d.rows, d.index, path, note), index := NotedIndex(d.index, path, alias, note))
    case TellPath(succeeded, path, letter) => Recorded(d, MountEvent(succeeded, NameOfPath(d.rows, path), letter))
    case Tell(kind, succeeded, k, letter) =>
      if k < |d.rows| then Recorded(d, Log.Entry(kind, succeeded, DisplayName(d.rows[k]), letter)) else d
    case Say(entry) => Recorded(d, entry)
    case TakeOut(k, saved) =>
      if k < |d.rows| then
        d.(rows := WithoutRow(d.rows, k), index := if saved then Without(d.index, d.rows[k].target) else d.index)
      else d
    case Relabel(k, alias, saved) =>
      if k < |d.rows| && Renames(d.index, d.rows[k].target, alias, saved) then
        d.(rows := d.rows[k := d.rows[k].(alias := alias)], index := NamedIndex(d.index, d.rows[k].target, alias).value)
      else d
    case LookAtName(_) => d
    case Disown(k) => if k < |d.rows| then d.(log := d.log.Discard(DisplayName(d.rows[k]))) else d
    case Unhold(path) => if d.log.deferring then d.(pending := WithoutPath(d.pending, path)) else d
    case SwitchLogging(on) => d.(log := d.log.(enabled := on))
    case SwitchRemembering(on) => d.(remembers := on)
  }

  /** The event a deed tells, under the name that its row goes by. */
  function Told(d: Desk, deed: Deed): Option<Log.Entry> {
    match deed
    case TellPath(succeeded, path, letter) => Some(MountEvent(succeeded, NameOfPath(d.rows, path), letter))
    case Tell(kind, succeeded, k, letter) =>
      if k < |d.rows| then Some(Log.Entry(kind, succeeded, DisplayName(d.rows[k]), letter)) else None
    case Say(entry) => Some(entry)
    case _ => None
  }

  /** One step after the other. */
  function Through<S, E>(step: (S, E) -> S, start: S, steps: seq<E>): S {
    if steps == [] then start else step(Through(step, start, steps[..|steps| - 1]), steps[|steps| - 1])
  }

  lemma {:induction false} ThroughBoth<S, E>(step: (S, E) -> S, start: S, first: seq<E>, second: seq<E>)
    ensures Through(step, start, first + second) == Through(step, Through(step, start, first), second)
  {
    if second == [] {
      assert first + second == first;
    } else {
      var n, both := |second| - 1, first + second;
      assert both[..|both| - 1] == first + second[..n] && both[|both| - 1] == second[n];
      ThroughBoth(step, start, first, second[..n]);
    }
  }

  function DidAll(d: Desk, deeds: seq<Deed>): Desk {
    Through(Did, d, deeds)
  }

  /** After the first `n` deeds. */
  function At(d: Desk, deeds: seq<Deed>, n: nat): Desk
    requires n <= |deeds|
  {
    DidAll(d, deeds[..n])
  }

  lemma OneMoreDeed(d: Desk, deeds: seq<Deed>, n: nat)
    requires n < |deeds|
    ensures At(d, deeds, n + 1) == Did(At(d, deeds, n), deeds[n])
  {
    assert deeds[..n + 1][..n] == deeds[..n];
  }

  lemma DidBoth(d: Desk, first: seq<Deed>, second: seq<Deed>)
    ensures DidAll(d, first + second) == DidAll(DidAll(d, first), second)
  {
    ThroughBoth(Did, d, first, second);
  }

  // -- The same deeds with and without deferral --------------------------------------------------

  /** The same list but for what the rows are called. */
  predicate SameRows(a: seq<Row>, b: seq<Row>) {
    |a| == |b| && forall i :: 0 <= i < |a| ==> a[i] == b[i].(alias := a[i].alias)
  }

  predicate SameNames(a: seq<Row>, b: seq<Row>) {
    |a| == |b| && forall i :: 0 <= i < |a| ==> DisplayName(a[i]) == DisplayName(b[i])
  }

  /** The same partitions are recorded. */
  ghost predicate SameDisks(a: Index, b: Index) {
    forall p :: Known(a, Disk(p)) <==> Known(b, Disk(p))
  }

  /** A run that holds its records back, next to one that does not. Both started
      from the history `l`. */
  ghost predicate Twins(a: Desk, b: Desk, l: Log.Log) {
    && a.log.deferring && !b.log.deferring && a.log.enabled == b.log.enabled && a.remembers == b.remembers
    && a.log.all == l.all && |b.log.all| == |l.all| + |a.log.held|
    && b.log.held == l.held && b.log.discarded == l.discarded
    && SameRows(a.rows, b.rows) && SameDisks(a.index, b.index)
  }

  /** What one holds back is what the other recorded. */
  predicate SameHistory(a: Desk, b: Desk, l: Log.Log) {
    b.log.all == l.all + a.log.held
  }

  /** An event told while logging is on finds its row under the same name. */
  predicate TellsSame(a: Desk, b: Desk, deed: Deed) {
    a.log.enabled ==> Told(a, deed) == Told(b, deed)
  }

  lemma SameRowsFind(a: seq<Row>, b: seq<Row>, t: Target)
    requires SameRows(a, b)
    ensures FindTarget(a, t) == FindTarget(b, t)
  {
    FindsSameTarget(b, a, t);
  }

  lemma RecordedTwins(a: Desk, b: Desk, l: Log.Log, e: Log.Entry, f: Log.Entry)
    requires Twins(a, b, l)
    ensures Twins(Recorded(a, e), Recorded(b, f), l)
    ensures SameHistory(Recorded(a, e), Recorded(b, f), l) <==> SameHistory(a, b, l) && (e == f || !a.log.enabled)
  {
    var x, y := b.log.all + [f], l.all + (a.log.held + [e]);
    assert y == (l.all + a.log.held) + [e];
    assert x[..|b.log.all|] == b.log.all && y[..|b.log.all|] == l.all + a.log.held;
    assert x[|b.log.all|] == f && y[|b.log.all|] == e;
  }

  lemma RowsStaySame(a: Desk, b: Desk, deed: Deed)
    requires a.log.deferring && !b.log.deferring && SameRows(a.rows, b.rows)
    ensures SameRows(Did(a, deed).rows, Did(b, deed).rows)
  {
    if deed.TakeOut? {
      if deed.k < |a.rows| {
        RowsTakenOut(a.rows, b.rows, deed.k);
      }
    } else if deed.PutInFront? {
      RowsPutInFront(a.rows, b.rows, Bare(File(deed.path), FileNameOf(deed.path), deed.alias));
    } else {
      OthersRename(a, deed);
      OthersRename(b, deed);
      RenamingStaysSame(a.rows, b.rows, Did(a, deed).rows, Did(b, deed).rows);
    }
  }

  /** No other deed does more to the list than to rename rows. */
  lemma OthersRename(d: Desk, deed: Deed)
    requires !deed.TakeOut? && !deed.PutInFront?
    ensures OnlyRenamed(d.rows, Did(d, deed).rows)
  {
  }

  lemma RenamingStaysSame(a: seq<Row>, b: seq<Row>, x: seq<Row>, y: seq<Row>)
    requires SameRows(a, b) && OnlyRenamed(a, x) && OnlyRenamed(b, y)
    ensures SameRows(x, y)
  {
    forall i | 0 <= i < |x| ensures x[i] == y[i].(alias := x[i].alias) {
      assert x[i] == a[i].(alias := x[i].alias) && y[i] == b[i].(alias := y[i].alias);
    }
  }

  lemma RowsPutInFront(a: seq<Row>, b: seq<Row>, row: Row)
    requires SameRows(a, b)
    ensures SameRows([row] + a, [row] + b)
  {
  }

  lemma RowsTakenOut(a: seq<Row>, b: seq<Row>, k: nat)
    requires SameRows(a, b) && k < |a|
    ensures SameRows(WithoutRow(a, k), WithoutRow(b, k))
  {
  }

  /** Whether a partition is recorded depends on what is recorded only. */
  lemma KnownDisk(ix: Index, p: Partition)
    ensures Known(ix, Disk(p)) <==> exists r :: r in ix && r.target == Disk(p)
  {
    var k := Rank(ix, Disk(p));
    if k < |ix| {
      assert ix[k] in ix;
    }
  }

  /** No deed but a removal changes which partitions are recorded. */
  lemma DisksAfter(d: Desk, deed: Deed, p: Partition)
    ensures Known(Did(d, deed).index, Disk(p)) <==>
      Known(d.index, Disk(p)) && !(deed.TakeOut? && deed.saved && deed.k < |d.rows| && d.rows[deed.k].target == Disk(p))
  {
    KnownDisk(d.index, p);
    KnownDisk(Did(d, deed).index, p);
    match deed
    case WriteDown(path, alias, note) => NotedDisks(d.index, path, alias, note, p);
    case TakeOut(k, saved) =>
    case Relabel(k, alias, saved) =>
      if k < |d.rows| && Renames(d.index, d.rows[k].target, alias, saved) {
        NamedDisks(d.index, d.rows[k].target, alias, p);
      }
    case _ =>
  }

  lemma NotedDisks(ix: Index, path: string, alias: string, note: Note, p: Partition)
    ensures Known(NotedIndex(ix, path, alias, note), Disk(p)) <==> Known(ix, Disk(p))
  {
  }

  lemma NamedDisks(ix: Index, t: Target, name: string, p: Partition)
    requires NamedIndex(ix, t, name).Some?
    ensures Known(NamedIndex(ix, t, name).value, Disk(p)) <==> Known(ix, Disk(p))
  {
    var named := NamedIndex(ix, t, name).value;
    if Known(ix, t) {
      RankReadsTargets(ix, named, Disk(p));
    } else {
      var base := AddPath(ix, t.path).index;
      RankReadsTargets(base, named, Disk(p));
      KnownDisk(ix, p);
      KnownDisk(base, p);
    }
  }

  lemma DisksStaySame(a: Desk, b: Desk, deed: Deed)
    requires SameRows(a.rows, b.rows) && SameDisks(a.index, b.index)
    ensures SameDisks(Did(a, deed).index, Did(b, deed).index)
  {
    forall p ensures Known(Did(a, deed).index, Disk(p)) <==> Known(Did(b, deed).index, Disk(p)) {
      DisksAfter(a, deed, p);
      DisksAfter(b, deed, p);
    }
  }

  /** What happens to rows and records, apart from events. */
  lemma RowsStayTwins(a: Desk, b: Desk, l: Log.Log, deed: Deed)
    requires Twins(a, b, l) && Told(a, deed).None?
    ensures Twins(Did(a, deed), Did(b, deed), l)
    ensures Did(a, deed).log.all == a.log.all && Did(a, deed).log.held == a.log.held && Did(b, deed).log.all == b.log.all
  {
    RowsStaySame(a, b, deed);
    DisksStaySame(a, b, deed);
  }

  /** Histories stay the same exactly while events find their rows under the same
      name. */
  lemma TwinsStay(a: Desk, b: Desk, l: Log.Log, deed: Deed)
    requires Twins(a, b, l)
    ensures Twins(Did(a, deed), Did(b, deed), l)
    ensures SameHistory(Did(a, deed), Did(b, deed), l) <==> SameHistory(a, b, l) && TellsSame(a, b, deed)
  {
    if Told(a, deed).Some? {
      RecordedTwins(a, b, l, Told(a, deed).value, Told(b, deed).value);
    } else {
      RowsStayTwins(a, b, l, deed);
    }
  }

  // -- What changes a name in one run only ------------------------------------------------------------

  /** The row is not recorded, or shows the recorded name. */
  predicate ShowsRecord(row: Row, ix: Index) {
    Known(ix, row.target) ==> DisplayName(row.(alias := ix[Rank(ix, row.target)].name)) == DisplayName(row)
  }

  /** No path is noted that is recorded by then under a name other than the one
      its row shows, unless nothing is remembered or the index cannot be read;
      and no renaming succeeds in one of the two runs only. */
  predicate Harmless(a: Desk, b: Desk, deed: Deed) {
    match deed
    case WriteDown(path, _, note) =>
      b.remembers && note.LookedUp? ==>
        var k := FindTarget(b.rows, File(path));
        k < |b.rows| ==> ShowsRecord(b.rows[k], b.index)
    case Relabel(k, alias, saved) =>
      k < |a.rows| && k < |b.rows| ==>
        || (Renames(a.index, a.rows[k].target, alias, saved) <==> Renames(b.index, b.rows[k].target, alias, saved))
        || DisplayName(b.rows[k].(alias := alias)) == DisplayName(b.rows[k])
    case _ => true
  }

  /** A renaming that reaches an index which can be written succeeds in one run
      only if an index is full. */
  lemma OnlyAFullIndexMatters(a: Desk, b: Desk, l: Log.Log, k: nat, alias: string)
    requires Twins(a, b, l) && |a.index| < INDEX_CAPACITY && |b.index| < INDEX_CAPACITY
    ensures Harmless(a, b, Relabel(k, alias, true))
  {
    if k < |a.rows| {
      NamedWhenRoom(a.index, a.rows[k].target, alias);
      NamedWhenRoom(b.index, b.rows[k].target, alias);
    }
  }

  lemma NamesStay(a: Desk, b: Desk, l: Log.Log, deed: Deed)
    requires Twins(a, b, l) && SameNames(a.rows, b.rows)
    ensures SameNames(Did(a, deed).rows, Did(b, deed).rows) <==> Harmless(a, b, deed)
  {
    match deed
    case WriteDown(path, alias, note) => NoteDecides(a, b, path, alias, note);
    case Relabel(k, alias, saved) => RelabelDecides(a, b, k, alias, saved);
    case _ =>
  }

  lemma NoteDecides(a: Desk, b: Desk, path: string, alias: string, note: Note)
    requires a.log.deferring && !b.log.deferring && SameNames(a.rows, b.rows)
    ensures var deed := WriteDown(path, alias, note);
      SameNames(Did(a, deed).rows, Did(b, deed).rows) <==> Harmless(a, b, deed)
  {
    var k := FindTarget(b.rows, File(path));
    var after := Did(b, WriteDown(path, alias, note)).rows;
    if k < |b.rows| && b.remembers {
      assert after == b.rows[k := b.rows[k].(alias := NotedAlias(b.rows[k].alias, b.index, path, note))];
      assert DisplayName(after[k]) == DisplayName(a.rows[k]) <==> Harmless(a, b, WriteDown(path, alias, note));
    }
  }

  lemma RelabelDecides(a: Desk, b: Desk, k: nat, alias: string, saved: bool)
    requires SameRows(a.rows, b.rows) && SameNames(a.rows, b.rows)
    ensures var deed := Relabel(k, alias, saved);
      SameNames(Did(a, deed).rows, Did(b, deed).rows) <==> Harmless(a, b, deed)
  {
    if k < |a.rows| {
      var deed := Relabel(k, alias, saved);
      var x := if Renames(a.index, a.rows[k].target, alias, saved) then a.rows[k].(alias := alias) else a.rows[k];
      var y := if Renames(b.index, b.rows[k].target, alias, saved) then b.rows[k].(alias := alias) else b.rows[k];
      NamesChangedAt(a.rows, b.rows, k, x, y);
      assert Did(a, deed).rows == a.rows[k := x] && Did(b, deed).rows == b.rows[k := y];
      assert a.rows[k] == b.rows[k].(alias := a.rows[k].alias);
    }
  }

  lemma NamesChangedAt(a: seq<Row>, b: seq<Row>, k: nat, x: Row, y: Row)
    requires SameNames(a, b) && k < |a|
    ensures SameNames(a[k := x], b[k := y]) <==> DisplayName(x) == DisplayName(y)
  {
    assert a[k := x][k] == x && b[k := y][k] == y;
  }

  // -- Whole runs --------------------------------------------------------------------------------

  /** The desk a run starts from, with and without deferral. */
  function Deferred(d: Desk): Desk {
    d.(log := d.log.Defer(), pending := [])
  }

  predicate Starts(d: Desk) {
    !d.log.deferring && d.log.held == [] && d.log.discarded == []
  }

  /** The run that defers, and the one that does not, after `n` deeds. */
  function Deferring(d: Desk, deeds: seq<Deed>, n: nat): Desk
    requires n <= |deeds|
  {
    At(Deferred(d), deeds, n)
  }

  predicate HarmlessAt(d: Desk, deeds: seq<Deed>, i: nat)
    requires i < |deeds|
  {
    Harmless(Deferring(d, deeds, i), At(d, deeds, i), deeds[i])
  }

  ghost predicate AllHarmless(d: Desk, deeds: seq<Deed>) {
    forall i :: 0 <= i < |deeds| ==> HarmlessAt(d, deeds, i)
  }

  predicate TellsSameAt(d: Desk, deeds: seq<Deed>, i: nat)
    requires i < |deeds|
  {
    TellsSame(Deferring(d, deeds, i), At(d, deeds, i), deeds[i])
  }

  ghost predicate ToldSame(d: Desk, deeds: seq<Deed>, n: nat)
    requires n <= |deeds|
  {
    forall i :: 0 <= i < n ==> TellsSameAt(d, deeds, i)
  }

  ghost predicate AllToldSame(d: Desk, deeds: seq<Deed>) {
    ToldSame(d, deeds, |deeds|)
  }

  ghost predicate TwinsAt(d: Desk, deeds: seq<Deed>, n: nat)
    requires n <= |deeds|
  {
    Twins(Deferring(d, deeds, n), At(d, deeds, n), d.log)
  }

  predicate SameHistoryAt(d: Desk, deeds: seq<Deed>, n: nat)
    requires n <= |deeds|
  {
    SameHistory(Deferring(d, deeds, n), At(d, deeds, n), d.log)
  }

  lemma OneMoreTwin(d: Desk, deeds: seq<Deed>, n: nat)
    requires n < |deeds| && TwinsAt(d, deeds, n)
    ensures TwinsAt(d, deeds, n + 1)
    ensures SameHistoryAt(d, deeds, n + 1) <==> SameHistoryAt(d, deeds, n) && TellsSameAt(d, deeds, n)
  {
    OneMoreDeed(d, deeds, n);
    OneMoreDeed(Deferred(d), deeds, n);
    TwinsStay(Deferring(d, deeds, n), At(d, deeds, n), d.log, deeds[n]);
  }

  lemma {:induction false} TwinRuns(d: Desk, deeds: seq<Deed>, n: nat)
    requires Starts(d) && n <= |deeds|
    ensures TwinsAt(d, deeds, n)
    ensures SameHistoryAt(d, deeds, n) <==> ToldSame(d, deeds, n)
  {
    if n == 0 {
      TwinsAtFirst(d, deeds);
    } else {
      TwinRuns(d, deeds, n - 1);
      OneMoreTwin(d, deeds, n - 1);
      OneMoreTold(d, deeds, n - 1);
    }
  }

  lemma TwinsAtFirst(d: Desk, deeds: seq<Deed>)
    requires Starts(d)
    ensures TwinsAt(d, deeds, 0) && SameHistoryAt(d, deeds, 0)
  {
    assert deeds[..0] == [];
  }

  lemma OneMoreTold(d: Desk, deeds: seq<Deed>, n: nat)
    requires n < |deeds|
    ensures ToldSame(d, deeds, n + 1) <==> ToldSame(d, deeds, n) && TellsSameAt(d, deeds, n)
  {
  }

  /** Deferred or not, every row goes by the same name. */
  predicate AgreeAt(d: Desk, deeds: seq<Deed>, n: nat)
    requires n <= |deeds|
  {
    SameNames(Deferring(d, deeds, n).rows, At(d, deeds, n).rows)
  }

  lemma HarmShows(d: Desk, deeds: seq<Deed>, i: nat)
    requires Starts(d) && i < |deeds| && AgreeAt(d, deeds, i)
    ensures AgreeAt(d, deeds, i + 1) <==> HarmlessAt(d, deeds, i)
  {
    TwinRuns(d, deeds, i);
    OneMoreDeed(d, deeds, i);
    OneMoreDeed(Deferred(d), deeds, i);
    NamesStay(Deferring(d, deeds, i), At(d, deeds, i), d.log, deeds[i]);
  }

  lemma {:induction false} HarmlessSoFar(d: Desk, deeds: seq<Deed>, n: nat)
    requires Starts(d) && n <= |deeds| && forall i :: 0 <= i < n ==> HarmlessAt(d, deeds, i)
    ensures AgreeAt(d, deeds, n)
  {
    if n == 0 {
      assert deeds[..0] == [];
    } else {
      HarmlessSoFar(d, deeds, n - 1);
      HarmShows(d, deeds, n - 1);
    }
  }

  /** Whatever happens while records are deferred: every row goes by the name it
      would have without deferral, at every moment, exactly when no path is noted
      that would by then be recorded under a name other than the one its row
      shows, and no renaming finds a full index in one of the two runs only. */
  lemma NamesAgreeExactly(d: Desk, deeds: seq<Deed>)
    requires Starts(d)
    ensures (forall n :: 0 <= n <= |deeds| ==> AgreeAt(d, deeds, n)) <==> AllHarmless(d, deeds)
  {
    if forall n :: 0 <= n <= |deeds| ==> AgreeAt(d, deeds, n) {
      forall i | 0 <= i < |deeds| ensures HarmlessAt(d, deeds, i) {
        HarmShows(d, deeds, i);
      }
    }
    if AllHarmless(d, deeds) {
      forall n | 0 <= n <= |deeds| ensures AgreeAt(d, deeds, n) {
        HarmlessSoFar(d, deeds, n);
      }
    }
  }

  // -- What the history shows ---------------------------------------------------------------------

  lemma SettledTwins(a: Desk, b: Desk, l: Log.Log)
    requires Twins(a, b, l) && l.held == [] && l.discarded == []
    ensures a.log.Settle(true) == b.log <==> SameHistory(a, b, l) && (a.log.enabled || a.log.held == [])
  {
    Log.RecordAllAppends(a.log.(deferring := false, held := [], discarded := []), a.log.held);
  }

  /** Deferring and keeping gives the history that would have been recorded
      otherwise, exactly when every event told while logging was on finds its row
      under the same name in both runs, and logging is on at the end or nothing
      was held back. */
  lemma HistoriesAgreeExactly(d: Desk, deeds: seq<Deed>)
    requires Starts(d)
    ensures var a, b := Deferring(d, deeds, |deeds|).log, At(d, deeds, |deeds|).log;
      a.Settle(true) == b <==> AllToldSame(d, deeds) && (a.enabled || a.held == [])
  {
    TwinRuns(d, deeds, |deeds|);
    SettledTwins(Deferring(d, deeds, |deeds|), At(d, deeds, |deeds|), d.log);
  }

  lemma SameNamesTellSame(a: Desk, b: Desk, l: Log.Log, deed: Deed)
    requires Twins(a, b, l) && SameNames(a.rows, b.rows)
    ensures TellsSame(a, b, deed)
  {
    if deed.TellPath? {
      SameRowsFind(a.rows, b.rows, File(deed.path));
    }
  }

  /** Without harm every event finds its row under the same name. */
  lemma HarmlessDeferral(d: Desk, deeds: seq<Deed>)
    requires Starts(d) && AllHarmless(d, deeds)
    ensures AllToldSame(d, deeds)
    ensures var a, b := Deferring(d, deeds, |deeds|).log, At(d, deeds, |deeds|).log;
      a.Settle(true) == b <==> a.enabled || a.held == []
  {
    HistoriesAgreeExactly(d, deeds);
    forall i | 0 <= i < |deeds| ensures TellsSameAt(d, deeds, i) {
      HarmlessSoFar(d, deeds, i);
      TwinRuns(d, deeds, i);
      SameNamesTellSame(Deferring(d, deeds, i), At(d, deeds, i), d.log, deeds[i]);
    }
  }

  /** The event of a mount follows the note of its path at once. */
  predicate NotedAndTold(deeds: seq<Deed>, i: nat)
    requires i < |deeds|
  {
    deeds[i].WriteDown? && i + 1 < |deeds| && deeds[i + 1].TellPath? && deeds[i + 1].path == deeds[i].path
  }

  /** It is told with logging on. */
  predicate ToldAtOnce(d: Desk, deeds: seq<Deed>, i: nat)
    requires i < |deeds|
  {
    NotedAndTold(deeds, i) && At(d, deeds, i).log.enabled
  }

  lemma HarmIsTold(a: Desk, b: Desk, l: Log.Log, note: Deed, event: Deed)
    requires Twins(a, b, l) && SameNames(a.rows, b.rows) && !Harmless(a, b, note) && b.log.enabled
    requires note.WriteDown? && event.TellPath? && event.path == note.path
    ensures !TellsSame(Did(a, note), Did(b, note), event)
  {
    SameRowsFind(a.rows, b.rows, File(note.path));
    FindsSameTarget(b.rows, Did(b, note).rows, File(note.path));
  }

  lemma FirstHarm(d: Desk, deeds: seq<Deed>, k: nat) returns (i: nat)
    requires k < |deeds| && !HarmlessAt(d, deeds, k)
    ensures i < |deeds| && !HarmlessAt(d, deeds, i) && forall j :: 0 <= j < i ==> HarmlessAt(d, deeds, j)
  {
    if j :| 0 <= j < k && !HarmlessAt(d, deeds, j) {
      i := FirstHarm(d, deeds, j);
    } else {
      i := k;
    }
  }

  /** Where every harm is told at once, as a mount by path tells it, the events
      are the same exactly when there is none. */
  lemma DeferralShowsExactly(d: Desk, deeds: seq<Deed>)
    requires Starts(d)
    requires forall i :: 0 <= i < |deeds| ==> HarmlessAt(d, deeds, i) || ToldAtOnce(d, deeds, i)
    ensures AllToldSame(d, deeds) <==> AllHarmless(d, deeds)
    ensures var a, b := Deferring(d, deeds, |deeds|).log, At(d, deeds, |deeds|).log;
      a.Settle(true) == b <==> AllHarmless(d, deeds) && (a.enabled || a.held == [])
  {
    HistoriesAgreeExactly(d, deeds);
    if AllHarmless(d, deeds) {
      HarmlessDeferral(d, deeds);
    } else {
      var k :| 0 <= k < |deeds| && !HarmlessAt(d, deeds, k);
      var i := FirstHarm(d, deeds, k);
      HarmlessSoFar(d, deeds, i);
      TwinRuns(d, deeds, i);
      HarmIsTold(Deferring(d, deeds, i), At(d, deeds, i), d.log, deeds[i], deeds[i + 1]);
      OneMoreDeed(d, deeds, i);
      OneMoreDeed(Deferred(d), deeds, i);
      assert !TellsSameAt(d, deeds, i + 1);
    }
  }

  /** What a mount by path of a file that is not listed does. */
  function NewMount(path: string, letter: char): seq<Deed> {
    [PutInFront(path, ""), WriteDown(path, "", LookedUp(true)), TellPath(true, path, letter)]
  }

  /** A session that remembers a file under this name and lists nothing. */
  function OneRecord(path: string, name: string): Desk {
    Desk([], [Record(File(path), Normal, 0, name)], true, Log.Log([], true, false, [], []), [])
  }

  lemma NameOfOnly(row: Row, path: string)
    requires row.target == File(path)
    ensures NameOfPath([row], path) == DisplayName(row)
    ensures forall alias :: NotedRows([row], [Record(File(path), Normal, 0, alias)], path, LookedUp(true)) == [row.(alias := alias)]
  {
    assert FindTarget([row], File(path)) == 0;
    forall alias: string ensures Rank([Record(File(path), Normal, 0, alias)], File(path)) == 0 {
    }
  }

  /** A file recorded under a name of its own: deferred, the event of its mount
      bears the file name; otherwise the recorded one. */
  lemma RecordedNameIsMissed(path: string, name: string, letter: char)
    requires name != "" && name != FileNameOf(path)
    ensures DidAll(Deferred(OneRecord(path, name)), NewMount(path, letter)).log.held == [MountEvent(true, FileNameOf(path), letter)]
    ensures DidAll(OneRecord(path, name), NewMount(path, letter)).log.all == [MountEvent(true, name, letter)]
  {
    var d, row := OneRecord(path, name), Bare(File(path), FileNameOf(path), "");
    MountsNew(d, path, letter);
    MountsNew(Deferred(d), path, letter);
    NameOfOnly(row, path);
    NameOfOnly(row.(alias := name), path);
    assert Did(d, PutInFront(path, "")).rows == [row] == Did(Deferred(d), PutInFront(path, "")).rows;
  }

  lemma MountsNew(d: Desk, path: string, letter: char)
    ensures DidAll(d, NewMount(path, letter))
         == Did(Did(Did(d, PutInFront(path, "")), WriteDown(path, "", LookedUp(true))), TellPath(true, path, letter))
  {
    var deeds := NewMount(path, letter);
    assert deeds[..3] == deeds && deeds[..0] == [];
    OneMoreDeed(d, deeds, 0);
    OneMoreDeed(d, deeds, 1);
    OneMoreDeed(d, deeds, 2);
  }

  /** What a mount by path of the listed file does. */
  function MountAgain(path: string, letter: char): seq<Deed> {
    [WriteDown(path, "", LookedUp(true)), TellPath(true, path, letter)]
  }

  /** The first of two listed files is mounted, taken down and mounted again, and
      the other one is forgotten in between. */
  function TwiceMounted(path: string, letter: char): seq<Deed> {
    MountAgain(path, letter) + [Tell(Log.ContainerUnmounted, true, 0, letter), TakeOut(1, true)] + MountAgain(path, letter)
  }

  function Logged(events: seq<Log.Entry>): Log.Log {
    Log.Log(events, true, false, [], [])
  }

  /** A session that lists two files, the first of them under a name that could
      not be recorded. */
  function Unrecorded(path: string, name: string, other: string): Desk {
    Desk([Bare(File(path), FileNameOf(path), name), Bare(File(other), FileNameOf(other), "")],
         [Record(File(other), Normal, 0, "")], true, Logged([]), [])
  }

  function TwiceMountedLog(first: string, second: string, letter: char): seq<Log.Entry> {
    [MountEvent(true, first, letter), UnmountEvent(true, first, letter), MountEvent(true, second, letter)]
  }

  /** The first mount writes the path down without a name, and the second finds it
      and takes that for the name. Deferred, both mounts show the name. */
  lemma UnrecordedNameIsKept(path: string, name: string, other: string, letter: char)
    requires name != "" && !SamePath(path, other)
    ensures var d, deeds := Unrecorded(path, name, other), TwiceMounted(path, letter);
      && DidAll(Deferred(d), deeds).log.held == TwiceMountedLog(name, name, letter)
      && DidAll(d, deeds).log.all == TwiceMountedLog(name, FileNameOf(path), letter)
  {
    var d := Unrecorded(path, name, other);
    HeldTwice(Deferred(d), path, name, letter);
    ThreePairs(d, path, letter);
    WrittenOnce(d, path, name, other, letter);
    DownWritten(d, path, name, other, letter);
    FoundAgain(path, name, letter, [MountEvent(true, name, letter)] + [UnmountEvent(true, name, letter)]);
  }

  lemma ThreePairs(d: Desk, path: string, letter: char)
    ensures var once := DidAll(d, MountAgain(path, letter));
      var down := Did(Did(once, Tell(Log.ContainerUnmounted, true, 0, letter)), TakeOut(1, true));
      DidAll(d, TwiceMounted(path, letter)) == DidAll(down, MountAgain(path, letter))
  {
    var mount, between := MountAgain(path, letter), [Tell(Log.ContainerUnmounted, true, 0, letter), TakeOut(1, true)];
    DidBoth(d, mount + between, mount);
    DidBoth(d, mount, between);
    DidTwo(DidAll(d, mount), between[0], between[1]);
  }

  /** Deferred, the row shows what it showed. */
  lemma MountedHeld(d: Desk, row: Row, path: string, letter: char)
    requires d.log.deferring && d.log.enabled && d.rows != [] && d.rows[0] == row && row.target == File(path)
    ensures DidAll(d, MountAgain(path, letter))
         == d.(pending := d.pending + [(path, "")], log := d.log.Record(MountEvent(true, DisplayName(row), letter)))
  {
    DidTwo(d, WriteDown(path, "", LookedUp(true)), TellPath(true, path, letter));
    assert FindTarget(d.rows, File(path)) == 0;
  }

  lemma HeldTwice(d: Desk, path: string, name: string, letter: char)
    requires d.log == Logged([]).Defer() && |d.rows| == 2
    requires d.rows[0] == Bare(File(path), FileNameOf(path), name) && name != ""
    ensures DidAll(d, TwiceMounted(path, letter)).log.held == TwiceMountedLog(name, name, letter)
  {
    ThreePairs(d, path, letter);
    MountedHeld(d, d.rows[0], path, letter);
    var once := DidAll(d, MountAgain(path, letter));
    DownHeld(once, letter);
    MountedHeld(Did(Did(once, Tell(Log.ContainerUnmounted, true, 0, letter)), TakeOut(1, true)), d.rows[0], path, letter);
  }

  lemma DownHeld(d: Desk, letter: char)
    requires d.log.deferring && d.log.enabled && |d.rows| == 2
    ensures var down := Did(Did(d, Tell(Log.ContainerUnmounted, true, 0, letter)), TakeOut(1, true));
      && down.rows == [d.rows[0]] && down.log == d.log.Record(UnmountEvent(true, DisplayName(d.rows[0]), letter))
  {
  }

  /** Without a record, the path is written down, and the row shows what it showed. */
  lemma WrittenOnce(d: Desk, path: string, name: string, other: string, letter: char)
    requires name != "" && !SamePath(path, other) && d == Unrecorded(path, name, other)
    ensures DidAll(d, MountAgain(path, letter))
         == d.(index := [Record(File(path), Normal, 0, ""), d.index[0]], log := Logged([MountEvent(true, name, letter)]))
  {
    DidTwo(d, WriteDown(path, "", LookedUp(true)), TellPath(true, path, letter));
    TwoRows(d.rows[0], d.rows[1]);
    WrittenThenForgotten(path, other);
    assert Did(d, WriteDown(path, "", LookedUp(true))) == d.(index := [Record(File(path), Normal, 0, ""), d.index[0]]);
  }

  /** Then the other file goes with its record. */
  lemma DownWritten(d: Desk, path: string, name: string, other: string, letter: char)
    requires name != "" && !SamePath(path, other) && d == Unrecorded(path, name, other)
    ensures var once := d.(index := [Record(File(path), Normal, 0, ""), d.index[0]], log := Logged([MountEvent(true, name, letter)]));
      Did(Did(once, Tell(Log.ContainerUnmounted, true, 0, letter)), TakeOut(1, true))
      == Desk([d.rows[0]], [Record(File(path), Normal, 0, "")], true,
              Logged([MountEvent(true, name, letter)] + [UnmountEvent(true, name, letter)]), [])
  {
    TwoRows(d.rows[0], d.rows[1]);
    WrittenThenForgotten(path, other);
  }

  lemma FoundAgain(path: string, name: string, letter: char, events: seq<Log.Entry>)
    ensures var row := Bare(File(path), FileNameOf(path), name);
      DidAll(Desk([row], [Record(File(path), Normal, 0, "")], true, Logged(events), []), MountAgain(path, letter)).log
      == Logged(events + [MountEvent(true, FileNameOf(path), letter)])
  {
    var row := Bare(File(path), FileNameOf(path), name);
    DidTwo(Desk([row], [Record(File(path), Normal, 0, "")], true, Logged(events), []),
           WriteDown(path, "", LookedUp(true)), TellPath(true, path, letter));
    NameOfOnly(row, path);
    NameOfOnly(row.(alias := ""), path);
  }

  lemma TwoRows(row: Row, other: Row)
    requires row.target.File?
    ensures NameOfPath([row, other], row.target.path) == DisplayName(row)
    ensures FindTarget([row, other], row.target) == 0
    ensures WithoutRow([row, other], 1) == [row]
  {
  }

  lemma WrittenThenForgotten(path: string, other: string)
    requires !SamePath(path, other)
    ensures !Known([Record(File(other), Normal, 0, "")], File(path))
    ensures Without([Record(File(path), Normal, 0, ""), Record(File(other), Normal, 0, "")], File(other))
         == [Record(File(path), Normal, 0, "")]
  {
  }

  /** For instance "v.hc", recorded as "Diary". */
  lemma DiaryIsMissed()
    ensures FileNameOf("v.hc") == "v.hc" != "Diary"
  {
    NoFolder("v.hc");
  }

  lemma NoFolder(path: string)
    requires forall c :: c in path ==> !IsSeparator(c)
    ensures FileNameOf(path) == path
  {
    NoSeparator(path);
  }

  lemma NoSeparator(path: string)
    requires forall c :: c in path ==> !IsSeparator(c)
    ensures LastSeparator(path).None?
  {
  }

  // -- The session does these deeds ---------------------------------------------------------------

  function DeskFrom(now: Snapshot): Desk {
    Desk(NamesOf(now.rows), now.book.index, now.book.remembers, now.log, now.book.pending)
  }

  lemma DidOne(d: Desk, deed: Deed)
    ensures DidAll(d, [deed]) == Did(d, deed)
  {
    assert Through(Did, d, [deed][..0]) == d;
  }

  lemma DidTwo(d: Desk, one: Deed, two: Deed)
    ensures DidAll(d, [one, two]) == Did(Did(d, one), two)
  {
    assert [one] + [two] == [one, two];
    DidBoth(d, [one], [two]);
    DidOne(d, one);
    DidOne(Did(d, one), two);
  }

  lemma SameLabels(rows: seq<Row>, path: string)
    ensures NameOfPath(NamesOf(rows), path) == NameOfPath(rows, path)
    ensures FindTarget(NamesOf(rows), File(path)) == FindTarget(rows, File(path))
  {
    FindsSameTarget(rows, NamesOf(rows), File(path));
  }

  /** These deeds lead from one to the other. */
  predicate Done(before: Desk, after: Desk, deeds: seq<Deed>) {
    after == DidAll(before, deeds)
  }

  /** Noting a path, as a deed. */
  lemma NotedIsDeed(before: Notebook, after: Notebook, names: seq<Row>, log: Log.Log, path: string, alias: string, note: Note)
    requires Noted(before, after, path, alias, note) && before.deferring == log.deferring
    ensures Did(Desk(names, before.index, before.remembers, log, before.pending), WriteDown(path, alias, note))
         == Desk(NotedRows(names, before.index, path, note), after.index, after.remembers, log, after.pending)
  {
    if !note.LookedUp? {
      NotLookedUp(names, before.index, path, note);
    }
  }

  lemma AttachedNames(base: seq<Row>, after: seq<Row>, k: nat, path: string, hiddenOpened: bool, ix: Index, note: Note)
    requires AttachedTo(base, after, k, path, hiddenOpened, ix, note)
    requires forall i :: 0 <= i < |after| && i != k ==> after[i].target != File(path)
    ensures NamesOf(after) == NotedRows(NamesOf(base), ix, path, note)
  {
    forall i | 0 <= i < |base| && i != k ensures base[i].target != File(path) {
      assert after[i] == base[i];
    }
    assert FindTarget(base, File(path)) == k;
    FindsSameTarget(base, NamesOf(base), File(path));
  }

  function ListingDeeds(rows: seq<Row>, path: string): seq<Deed> {
    if Listed(rows, File(path)) then [] else [PutInFront(path, "")]
  }

  lemma BaseIsDeeds(rows: seq<Row>, id: nat, path: string, hiddenOpened: bool, d: Desk)
    requires d.rows == NamesOf(rows)
    ensures DidAll(d, ListingDeeds(rows, path)) == d.(rows := NamesOf(PathBase(rows, id, path, hiddenOpened)))
  {
    DidOne(d, PutInFront(path, ""));
  }

  function MountDeeds(rows: seq<Row>, path: string, letter: char, note: Note): seq<Deed> {
    ListingDeeds(rows, path) + [WriteDown(path, "", note), TellPath(true, path, letter)]
  }

  lemma MountIsDeeds(before: Snapshot, after: Snapshot, login: string, path: string, k: nat, hiddenOpened: bool, note: Note)
    requires PathMounted(before, after, login, path, k, hiddenOpened, note) && before.book.deferring == before.log.deferring
    requires forall i :: 0 <= i < |after.rows| && i != k ==> after.rows[i].target != File(path)
    ensures DeskFrom(after) == DidAll(DeskFrom(before), MountDeeds(before.rows, path, after.rows[k].letter, note))
  {
    var d, base, letter := DeskFrom(before), PathBase(before.rows, before.nextId, path, hiddenOpened), after.rows[k].letter;
    BaseIsDeeds(before.rows, before.nextId, path, hiddenOpened, d);
    AttachedNames(base, after.rows, k, path, hiddenOpened, before.book.index, note);
    NotedIsDeed(before.book, after.book, NamesOf(base), before.log, path, "", note);
    SameLabels(after.rows, path);
    assert FindTarget(after.rows, File(path)) == k;
    DidTwo(d.(rows := NamesOf(base)), WriteDown(path, "", note), TellPath(true, path, letter));
    DidBoth(d, ListingDeeds(before.rows, path), [WriteDown(path, "", note), TellPath(true, path, letter)]);
  }

  lemma FrontNames(before: seq<Row>, after: seq<Row>, path: string, alias: string, ix: Index, note: Note)
    requires |after| == |before| + 1 && after[1..] == before
    requires after[0].target == File(path) && after[0].name == FileNameOf(path) && after[0].alias == NotedAlias(alias, ix, path, note)
    ensures NamesOf(after) == NotedRows([Bare(File(path), FileNameOf(path), alias)] + NamesOf(before), ix, path, note)
  {
    NotedInFront(Bare(File(path), FileNameOf(path), alias), NamesOf(before), ix, path, note);
    assert forall i :: 0 <= i < |before| ==> after[i + 1] == after[1..][i];
  }

  function FrontDeeds(path: string, alias: string, note: Note): seq<Deed> {
    [PutInFront(path, alias), WriteDown(path, alias, note)]
  }

  /** A new row in front, whose path is noted. */
  lemma FrontIsDeeds(before: Snapshot, after: Snapshot, path: string, alias: string, note: Note)
    requires Noted(before.book, after.book, path, alias, note) && before.book.deferring == before.log.deferring
    requires |after.rows| == |before.rows| + 1 && after.rows[1..] == before.rows
    requires after.rows[0].target == File(path) && after.rows[0].name == FileNameOf(path)
    requires after.rows[0].alias == NotedAlias(alias, before.book.index, path, note)
    ensures DidAll(DeskFrom(before), FrontDeeds(path, alias, note)) == DeskFrom(after).(log := before.log)
  {
    FrontNames(before.rows, after.rows, path, alias, before.book.index, note);
    var names := [Bare(File(path), FileNameOf(path), alias)] + NamesOf(before.rows);
    NotedIsDeed(before.book, after.book, names, before.log, path, alias, note);
    DidTwo(DeskFrom(before), PutInFront(path, alias), WriteDown(path, alias, note));
  }

  lemma AdoptIsDeeds(before: Snapshot, after: Snapshot, path: string, note: Note)
    requires Noted(before.book, after.book, path, "", note) && before.book.deferring == before.log.deferring && after.log == before.log
    requires |after.rows| == |before.rows| + 1 && after.rows[1..] == before.rows
    requires after.rows[0].target == File(path) && after.rows[0].name == FileNameOf(path)
    requires after.rows[0].alias == NotedAlias("", before.book.index, path, note)
    ensures Done(DeskFrom(before), DeskFrom(after), FrontDeeds(path, "", note))
  {
    FrontIsDeeds(before, after, path, "", note);
  }

  lemma SayIsDeed(before: Snapshot, after: Snapshot, e: Log.Entry)
    requires after == before.(log := before.log.Record(e))
    ensures Done(DeskFrom(before), DeskFrom(after), [Say(e)])
  {
    DidOne(DeskFrom(before), Say(e));
  }

  function CreateDeeds(path: string, alias: string, note: Note, row: Row): seq<Deed> {
    [Say(CreateEvent(true, CreatedName(path, alias)))] + FrontDeeds(path, alias, note)
    + [Say(NewMountEvent(CreatedName(path, alias), row))]
  }

  lemma CreateIsDeeds(before: Snapshot, after: Snapshot, path: string, alias: string, kind: NewContainer, key: Key, note: Note)
    requires before.book.deferring == before.log.deferring
    requires ListedAndTried(before.(log := before.log.Record(CreateEvent(true, CreatedName(path, alias)))), after,
                            path, alias, kind, key, note)
    ensures DeskFrom(after) == DidAll(DeskFrom(before), CreateDeeds(path, alias, note, after.rows[0]))
  {
    var name := CreatedName(path, alias);
    var made, front := before.(log := before.log.Record(CreateEvent(true, name))), FrontDeeds(path, alias, note);
    FrontIsDeeds(made, after, path, alias, note);
    SayThen(DeskFrom(before), CreateEvent(true, name), front);
    ThenSay(DeskFrom(before), [Say(CreateEvent(true, name))] + front, NewMountEvent(name, after.rows[0]));
  }

  lemma SayThen(d: Desk, e: Log.Entry, deeds: seq<Deed>)
    ensures DidAll(d, [Say(e)] + deeds) == DidAll(Recorded(d, e), deeds)
  {
    DidOne(d, Say(e));
    DidBoth(d, [Say(e)], deeds);
  }

  lemma ThenSay(d: Desk, deeds: seq<Deed>, e: Log.Entry)
    ensures DidAll(d, deeds + [Say(e)]) == Recorded(DidAll(d, deeds), e)
  {
    DidOne(DidAll(d, deeds), Say(e));
    DidBoth(d, deeds, [Say(e)]);
  }

  /** What a session is asked to do while records are deferred. */
  datatype NamedOperation =
    | MountByPath(path: string)
    | MountRow(id: nat)
    | UnmountRow(id: nat, force: bool)
    | Adopt(path: string)
    | Create(path: string, kind: NewContainer, displayName: string)
    | Forget(id: nat)
    | Discard(id: nat)
    | Rename(id: nat, name: string)
    | Logging(on: bool)
    | Remembering(on: bool)

  /** What one call may do, whatever the environment answers. */
  predicate IsDeedOf(op: NamedOperation, deeds: seq<Deed>) {
    match op
    case MountByPath(path) => IsMountBy(path, deeds)
    case MountRow(_) => deeds == [] || (|deeds| == 1 && deeds[0].Tell? && deeds[0].kind == Log.ContainerMounted)
    case UnmountRow(_, _) => deeds == [] || (|deeds| == 1 && deeds[0].Tell? && deeds[0].kind == Log.ContainerUnmounted)
    case Adopt(path) => deeds == [] || (|deeds| == 2 && deeds[1].WriteDown? && deeds == FrontDeeds(path, "", deeds[1].note))
    case Create(path, _, displayName) => IsCreateBy(path, displayName, deeds)
    case Forget(_) => deeds == [] || (|deeds| == 1 && deeds[0].TakeOut?)
    case Discard(_) => deeds == [] || (deeds[0].LookAtName? && forall deed :: deed in deeds[1..] ==> UndoesCreation(deed))
    case Rename(_, name) => deeds == [] || (|deeds| == 1 && deeds[0].Relabel? && deeds[0].alias == name)
    case Logging(on) => deeds == [] || deeds == [SwitchLogging(on)]
    case Remembering(on) => deeds == [] || deeds == [SwitchRemembering(on)]
  }

  predicate UndoesCreation(deed: Deed) {
    deed.Disown? || deed.Tell? || deed.TakeOut? || deed.Unhold?
  }

  /** Nothing, a failed event, or the row listed if need be, its path noted, and
      the mount told under its name. */
  predicate IsMountBy(path: string, deeds: seq<Deed>) {
    || deeds == [] || deeds == [TellPath(false, path, Log.NO_LETTER)]
    || (|deeds| >= 2
        && var n := |deeds| - 2;
           && deeds[..n] in {[], [PutInFront(path, "")]}
           && deeds[n].WriteDown? && deeds[n] == WriteDown(path, "", deeds[n].note)
           && deeds[n + 1].TellPath? && deeds[n + 1] == TellPath(true, path, deeds[n + 1].letter))
  }

  predicate IsCreateBy(path: string, displayName: string, deeds: seq<Deed>) {
    var name := CreatedName(path, displayName);
    || deeds == [] || deeds == [Say(CreateEvent(false, name))]
    || (|deeds| == 4 && deeds[2].WriteDown? && deeds[3].Say?
        && deeds[0] == Say(CreateEvent(true, name)) && deeds[1..3] == FrontDeeds(path, displayName, deeds[2].note)
        && deeds[3].entry == MountEvent(deeds[3].entry.succeeded, name, deeds[3].entry.letter))
  }

  method Do(s: SessionCore, op: NamedOperation) returns (ghost deeds: seq<Deed>)
    requires s.Valid()
    modifies s, s.rt
    ensures s.Valid() && Done(old(DeskFrom(s.Now())), DeskFrom(s.Now()), deeds) && IsDeedOf(op, deeds)
  {
    match op
    case MountByPath(path) => deeds := DoMount(s, path);
    case MountRow(id) => deeds := DoMountRow(s, id);
    case UnmountRow(id, force) => deeds := DoUnmount(s, id, force);
    case Adopt(path) => deeds := DoAdopt(s, path);
    case Create(path, kind, displayName) => deeds := DoCreate(s, path, kind, displayName);
    case Forget(id) => deeds := DoForget(s, id);
    case Discard(id) => deeds := DoDiscard(s, id);
    case Rename(id, name) => deeds := DoRename(s, id, name);
    case Logging(on) => deeds := DoSwitchLogging(s, on);
    case Remembering(on) => deeds := DoSwitchRemembering(s, on);
  }

  method DoMount(s: SessionCore, path: string) returns (ghost deeds: seq<Deed>)
    requires s.Valid()
    modifies s, s.rt
    ensures s.Valid() && Done(old(DeskFrom(s.Now())), DeskFrom(s.Now()), deeds) && IsDeedOf(MountByPath(path), deeds)
  {
    ghost var before := s.Now();
    var r;
    ghost var end;
    r, end := s.MountContainer(path);
    if end.MountedAt? {
      OnlyRowNames(s.rows, end.row, s.nextId, s.nextRevision);
      MountIsDeeds(before, s.Now(), old(s.login), path, end.row, end.hiddenOpened, end.note);
      deeds := MountDeeds(before.rows, path, s.rows[end.row].letter, end.note);
    } else {
      deeds := if s.Now() == before then [] else [TellPath(false, path, Log.NO_LETTER)];
      NotMountedIsDeed(before, s.Now(), path);
    }
  }

  lemma NotMountedIsDeed(before: Snapshot, after: Snapshot, path: string)
    requires after == before || Failed(before, after, NameOfPath(before.rows, path))
    ensures Done(DeskFrom(before), DeskFrom(after), if after == before then [] else [TellPath(false, path, Log.NO_LETTER)])
  {
    DidOne(DeskFrom(before), TellPath(false, path, Log.NO_LETTER));
    SameLabels(before.rows, path);
  }

  /** A change of a mount, told under the name of its row. */
  lemma TellIsDeed(before: Snapshot, after: Snapshot, kind: Log.Kind, succeeded: bool, k: nat, letter: char)
    requires k < |before.rows| && NamesOf(after.rows) == NamesOf(before.rows) && after.book == before.book
    requires after.log == before.log.Record(Log.Entry(kind, succeeded, DisplayName(before.rows[k]), letter))
    ensures Done(DeskFrom(before), DeskFrom(after), [Tell(kind, succeeded, k, letter)])
  {
    DidOne(DeskFrom(before), Tell(kind, succeeded, k, letter));
  }

  /** Rows that differ in their mounts only go by the same names. */
  lemma SameBareRow(before: seq<Row>, after: seq<Row>, k: nat)
    requires k < |before| == |after| && after == before[k := after[k]]
    requires after[k].target == before[k].target && after[k].name == before[k].name && after[k].alias == before[k].alias
    ensures NamesOf(after) == NamesOf(before)
  {
  }

  method DoUnmount(s: SessionCore, id: nat, force: bool) returns (ghost deeds: seq<Deed>)
    requires s.Valid()
    modifies s, s.rt
    ensures s.Valid() && Done(old(DeskFrom(s.Now())), DeskFrom(s.Now()), deeds) && IsDeedOf(UnmountRow(id, force), deeds)
  {
    ghost var before, k := s.Now(), FindById(s.rows, id);
    var failure := s.Unmount(id, force);
    if k < |before.rows| {
      SameBareRow(before.rows, s.rows, k);
    }
    if k < |before.rows| && before.rows[k].mounted {
      deeds := [Tell(Log.ContainerUnmounted, failure.None?, k, before.rows[k].letter)];
      TellIsDeed(before, s.Now(), Log.ContainerUnmounted, failure.None?, k, before.rows[k].letter);
    } else {
      deeds := [];
    }
  }

  method DoMountRow(s: SessionCore, id: nat) returns (ghost deeds: seq<Deed>)
    requires s.Valid()
    modifies s, s.rt
    ensures s.Valid() && Done(old(DeskFrom(s.Now())), DeskFrom(s.Now()), deeds) && IsDeedOf(MountRow(id), deeds)
  {
    ghost var before, k := s.Now(), FindById(s.rows, id);
    var failure := s.MountAdopted(id);
    if k < |before.rows| {
      SameBareRow(before.rows, s.rows, k);
    }
    if s.log == before.log {
      deeds := [];
    } else {
      ghost var letter := if s.rows[k].mounted then s.rows[k].letter else Log.NO_LETTER;
      deeds := [Tell(Log.ContainerMounted, s.rows[k].mounted, k, letter)];
      TellIsDeed(before, s.Now(), Log.ContainerMounted, s.rows[k].mounted, k, letter);
    }
  }

  method DoAdopt(s: SessionCore, path: string) returns (ghost deeds: seq<Deed>)
    requires s.Valid()
    modifies s, s.rt
    ensures s.Valid() && Done(old(DeskFrom(s.Now())), DeskFrom(s.Now()), deeds) && IsDeedOf(Adopt(path), deeds)
  {
    ghost var before := s.Now();
    var r;
    ghost var note;
    r, note := s.AdoptContainer(path);
    if note.Some? {
      AdoptIsDeeds(before, s.Now(), path, note.value);
    }
    deeds := if note.Some? then FrontDeeds(path, "", note.value) else [];
  }

  method DoCreate(s: SessionCore, path: string, kind: NewContainer, displayName: string) returns (ghost deeds: seq<Deed>)
    requires s.Valid()
    modifies s, s.rt
    ensures s.Valid() && Done(old(DeskFrom(s.Now())), DeskFrom(s.Now()), deeds) && IsDeedOf(Create(path, kind, displayName), deeds)
  {
    ghost var before := s.Now();
    var r;
    ghost var stage;
    r, stage := s.CreateContainer(path, kind, displayName);
    match stage
    case Refused => deeds := [];
    case Unpublished =>
      deeds := [Say(CreateEvent(false, CreatedName(path, displayName)))];
      SayIsDeed(before, s.Now(), CreateEvent(false, CreatedName(path, displayName)));
    case Published(note) =>
      deeds := CreateDeeds(path, displayName, note, s.rows[0]);
      CreateIsDeeds(before, s.Now(), path, displayName, kind, KeyOf(old(s.login), kind.WithHidden?), note);
  }

  /** The row disowned, and its volume taken down if it is up. */
  function DownDeeds(row: Row, k: nat, released: bool): seq<Deed> {
    [Disown(k)] + if row.mounted then [Tell(Log.ContainerUnmounted, released, k, row.letter)] else []
  }

  lemma DownIsDeeds(d: Desk, rows: seq<Row>, k: nat, released: bool)
    requires k < |rows| && d.rows == NamesOf(rows)
    ensures var row := rows[k];
      var discarded := d.log.Discard(DisplayName(row));
      DidAll(d, DownDeeds(row, k, released))
      == d.(log := if row.mounted then discarded.Record(UnmountEvent(released, DisplayName(row), row.letter)) else discarded)
  {
    DidOne(d, Disown(k));
    DidTwo(d, Disown(k), Tell(Log.ContainerUnmounted, released, k, rows[k].letter));
  }

  lemma StoppedIsDeeds(before: Snapshot, after: Snapshot, k: nat)
    requires DiscardStopped(before.rows, after.rows, k, before.log, after.log) && after.book == before.book
    ensures exists released :: Done(DeskFrom(before), DeskFrom(after), DownDeeds(before.rows[k], k, released))
  {
    var row := before.rows[k];
    DownIsDeeds(DeskFrom(before), before.rows, k, true);
    DownIsDeeds(DeskFrom(before), before.rows, k, false);
    assert NamesOf(after.rows) == NamesOf(before.rows);
    assert Done(DeskFrom(before), DeskFrom(after), DownDeeds(row, k, true))
        || Done(DeskFrom(before), DeskFrom(after), DownDeeds(row, k, false));
  }

  function GoneDeeds(row: Row, k: nat, saved: bool, path: string): seq<Deed> {
    DownDeeds(row, k, true) + [TakeOut(k, saved), Unhold(path)]
  }

  lemma GoneIsDeeds(before: Snapshot, after: Snapshot, k: nat, saved: bool, path: string)
    requires k < |before.rows| && before.book.deferring == before.log.deferring
    requires after.rows == WithoutRow(before.rows, k) && after.log == TakenDownLog(before.log, before.rows[k])
    requires after.book.remembers == before.book.remembers
    requires after.book.index == if saved then Without(before.book.index, before.rows[k].target) else before.book.index
    requires after.book.pending == if before.log.deferring then WithoutPath(before.book.pending, path) else before.book.pending
    ensures Done(DeskFrom(before), DeskFrom(after), GoneDeeds(before.rows[k], k, saved, path))
  {
    var d, down := DeskFrom(before), DownDeeds(before.rows[k], k, true);
    DownIsDeeds(d, before.rows, k, true);
    DidTwo(d.(log := after.log), TakeOut(k, saved), Unhold(path));
    DidBoth(d, down, [TakeOut(k, saved), Unhold(path)]);
    assert NamesOf(after.rows) == WithoutRow(NamesOf(before.rows), k);
  }

  lemma LookThen(d: Desk, k: nat, deeds: seq<Deed>)
    ensures DidAll(d, [LookAtName(k)] + deeds) == DidAll(d, deeds)
  {
    DidOne(d, LookAtName(k));
    DidBoth(d, [LookAtName(k)], deeds);
  }

  lemma DiscardIsDeeds(before: Snapshot, after: Snapshot, k: nat, failed: bool) returns (deeds: seq<Deed>)
    requires k < |before.rows| && before.book.deferring == before.log.deferring && after.book.remembers == before.book.remembers
    requires failed ==>
      && after.book == before.book
      && ((after.rows == before.rows && after.log == before.log)
          || DiscardStopped(before.rows, after.rows, k, before.log, after.log))
    requires !failed ==>
      && before.rows[k].target.File?
      && after.rows == WithoutRow(before.rows, k) && after.log == TakenDownLog(before.log, before.rows[k])
      && after.book.pending == (if before.log.deferring then WithoutPath(before.book.pending, before.rows[k].target.path)
                                else before.book.pending)
      && after.book.index == if after.book.faults == before.book.faults then Without(before.book.index, before.rows[k].target)
                             else before.book.index
    ensures Done(DeskFrom(before), DeskFrom(after), deeds)
    ensures forall deed :: deed in deeds ==> UndoesCreation(deed)
  {
    if !failed {
      var saved := after.book.faults == before.book.faults;
      deeds := GoneDeeds(before.rows[k], k, saved, before.rows[k].target.path);
      GoneIsDeeds(before, after, k, saved, before.rows[k].target.path);
    } else if after.rows == before.rows && after.log == before.log {
      deeds := [];
    } else {
      StoppedIsDeeds(before, after, k);
      var released :| Done(DeskFrom(before), DeskFrom(after), DownDeeds(before.rows[k], k, released));
      deeds := DownDeeds(before.rows[k], k, released);
    }
  }

  method DoDiscard(s: SessionCore, id: nat) returns (ghost deeds: seq<Deed>)
    requires s.Valid()
    modifies s, s.rt
    ensures s.Valid() && Done(old(DeskFrom(s.Now())), DeskFrom(s.Now()), deeds) && IsDeedOf(Discard(id), deeds)
  {
    ghost var before, k := s.Now(), FindById(s.rows, id);
    var failure := s.DiscardNew(id);
    if k == |before.rows| {
      deeds := [];
    } else {
      deeds := DiscardIsDeeds(before, s.Now(), k, failure.Some?);
      LookThen(DeskFrom(before), k, deeds);
      deeds := [LookAtName(k)] + deeds;
    }
  }

  lemma TakeOutIsDeed(before: Snapshot, after: Snapshot, k: nat, saved: bool)
    requires k < |before.rows| && after.rows == WithoutRow(before.rows, k) && after.log == before.log
    requires after.book.remembers == before.book.remembers && after.book.pending == before.book.pending
    requires after.book.index == if saved then Without(before.book.index, before.rows[k].target) else before.book.index
    ensures Done(DeskFrom(before), DeskFrom(after), [TakeOut(k, saved)])
  {
    DidOne(DeskFrom(before), TakeOut(k, saved));
    assert NamesOf(after.rows) == WithoutRow(NamesOf(before.rows), k);
  }

  method DoForget(s: SessionCore, id: nat) returns (ghost deeds: seq<Deed>)
    requires s.Valid()
    modifies s, s.rt
    ensures s.Valid() && Done(old(DeskFrom(s.Now())), DeskFrom(s.Now()), deeds) && IsDeedOf(Forget(id), deeds)
  {
    ghost var before, k := s.Now(), FindById(s.rows, id);
    var failure := s.Forget(id);
    if failure.None? {
      ghost var saved := before.rows[k].target.Disk? || s.rt.faults == before.book.faults;
      deeds := [TakeOut(k, saved)];
      TakeOutIsDeed(before, s.Now(), k, saved);
    } else {
      deeds := [];
    }
  }

  lemma RelabelIsDeed(before: Snapshot, after: Snapshot, k: nat, name: string, saved: bool)
    requires k < |before.rows| && after.log == before.log
    requires after.book.remembers == before.book.remembers && after.book.pending == before.book.pending
    requires if Renames(before.book.index, before.rows[k].target, name, saved) then
               && after.rows == before.rows[k := before.rows[k].(alias := name)]
               && Some(after.book.index) == NamedIndex(before.book.index, before.rows[k].target, name)
             else after.rows == before.rows && after.book.index == before.book.index
    ensures Done(DeskFrom(before), DeskFrom(after), [Relabel(k, name, saved)])
  {
    DidOne(DeskFrom(before), Relabel(k, name, saved));
    if Renames(before.book.index, before.rows[k].target, name, saved) {
      assert NamesOf(after.rows) == NamesOf(before.rows)[k := NamesOf(before.rows)[k].(alias := name)];
    }
  }

  /** A renaming that did not get as far as the index did nothing, and would not
      have with another index. */
  method DoRename(s: SessionCore, id: nat, name: string) returns (ghost deeds: seq<Deed>)
    requires s.Valid()
    modifies s, s.rt
    ensures s.Valid() && Done(old(DeskFrom(s.Now())), DeskFrom(s.Now()), deeds) && IsDeedOf(Rename(id, name), deeds)
  {
    ghost var before, k := s.Now(), FindById(s.rows, id);
    var failure;
    ghost var reached;
    failure, reached := RenameContainer(s, id, name);
    if reached.TheIndex? {
      deeds := [Relabel(k, name, reached.saved)];
      RelabelIsDeed(before, s.Now(), k, name, reached.saved);
    } else {
      deeds := [];
    }
  }

  method DoSwitchLogging(s: SessionCore, on: bool) returns (ghost deeds: seq<Deed>)
    requires s.Valid()
    modifies s, s.rt
    ensures s.Valid() && Done(old(DeskFrom(s.Now())), DeskFrom(s.Now()), deeds) && IsDeedOf(Logging(on), deeds)
  {
    var failure := s.SwitchLogging(on);
    deeds := if failure.None? then [SwitchLogging(on)] else [];
    DidOne(old(DeskFrom(s.Now())), SwitchLogging(on));
  }

  method DoSwitchRemembering(s: SessionCore, on: bool) returns (ghost deeds: seq<Deed>)
    requires s.Valid()
    modifies s, s.rt
    ensures s.Valid() && Done(old(DeskFrom(s.Now())), DeskFrom(s.Now()), deeds) && IsDeedOf(Remembering(on), deeds)
  {
    var failure := s.SwitchRemembering(on);
    deeds := if failure.None? then [SwitchRemembering(on)] else [];
    DidOne(old(DeskFrom(s.Now())), SwitchRemembering(on));
  }

  /** One call after the other. */
  function Joined(parts: seq<seq<Deed>>): seq<Deed> {
    if parts == [] then [] else Joined(parts[..|parts| - 1]) + parts[|parts| - 1]
  }

  ghost predicate AreDeedsOf(ops: seq<NamedOperation>, parts: seq<seq<Deed>>) {
    |parts| == |ops| && forall i :: 0 <= i < |ops| ==> IsDeedOf(ops[i], parts[i])
  }

  method DoEverything(s: SessionCore, ops: seq<NamedOperation>) returns (ghost parts: seq<seq<Deed>>)
    requires s.Valid()
    modifies s, s.rt
    ensures s.Valid() && Done(old(DeskFrom(s.Now())), DeskFrom(s.Now()), Joined(parts)) && AreDeedsOf(ops, parts)
  {
    parts := [];
    for i := 0 to |ops|
      invariant s.Valid() && Done(old(DeskFrom(s.Now())), DeskFrom(s.Now()), Joined(parts)) && AreDeedsOf(ops[..i], parts)
    {
      ghost var more := Do(s, ops[i]);
      OneMoreCall(old(DeskFrom(s.Now())), DeskFrom(s.Now()), ops, i, parts, more);
      parts := parts + [more];
    }
    assert ops[..|ops|] == ops;
  }

  lemma OneMoreCall(before: Desk, after: Desk, ops: seq<NamedOperation>, i: nat, parts: seq<seq<Deed>>, more: seq<Deed>)
    requires i < |ops| && AreDeedsOf(ops[..i], parts) && IsDeedOf(ops[i], more)
    requires Done(DidAll(before, Joined(parts)), after, more)
    ensures AreDeedsOf(ops[..i + 1], parts + [more]) && Done(before, after, Joined(parts + [more]))
  {
    assert (parts + [more])[..i] == parts;
    DidBoth(before, Joined(parts), more);
  }

  // -- An index that answers ------------------------------------------------------------------------

  function Answer(deed: Deed): Deed {
    if deed.WriteDown? then deed.(note := LookedUp(true)) else deed
  }

  /** The same deeds with an index that could be read and written throughout. */
  function Answered(deeds: seq<Deed>): (r: seq<Deed>)
    ensures |r| == |deeds|
  {
    seq(|deeds|, i requires 0 <= i < |deeds| => Answer(deeds[i]))
  }

  lemma NotAsked(d: Desk, deed: Deed)
    requires d.log.deferring
    ensures Did(d, Answer(deed)) == Did(d, deed) && Did(d, deed).log.deferring
  {
  }

  /** Nobody is asked while records are deferred. */
  lemma {:induction false} NobodyIsAsked(d: Desk, deeds: seq<Deed>)
    requires d.log.deferring
    ensures DidAll(d, Answered(deeds)) == DidAll(d, deeds) && DidAll(d, deeds).log.deferring
  {
    if deeds != [] {
      var n := |deeds| - 1;
      assert Answered(deeds)[..n] == Answered(deeds[..n]);
      NobodyIsAsked(d, deeds[..n]);
      NotAsked(DidAll(d, deeds[..n]), deeds[n]);
    }
  }

  // -- Where every harm is told ---------------------------------------------------------------------

  /** The history shows what this deed does to names, at once. */
  predicate IsPlain(deeds: seq<Deed>, i: nat)
    requires i < |deeds|
  {
    !deeds[i].Relabel? && !deeds[i].SwitchLogging? && (deeds[i].WriteDown? ==> NotedAndTold(deeds, i))
  }

  ghost predicate AllPlain(deeds: seq<Deed>) {
    forall i :: 0 <= i < |deeds| ==> IsPlain(deeds, i)
  }

  lemma PlainTogether(first: seq<Deed>, second: seq<Deed>)
    requires AllPlain(first) && AllPlain(second)
    ensures AllPlain(first + second)
  {
    var both := first + second;
    forall i | 0 <= i < |both| ensures IsPlain(both, i) {
      assert if i < |first| then IsPlain(first, i) else IsPlain(second, i - |first|);
    }
  }

  /** A listing and a creation note a path without an event under its name, and a
      renaming tells nothing. */
  predicate ActsQuietly(op: NamedOperation) {
    op.Adopt? || op.Create? || op.Rename? || op.Logging?
  }

  lemma CallIsPlain(op: NamedOperation, deeds: seq<Deed>)
    requires IsDeedOf(op, deeds) && !ActsQuietly(op)
    ensures AllPlain(deeds)
  {
    if op.MountByPath? {
      MountIsPlain(op.path, deeds);
    } else if |deeds| > 1 {
      assert op.Discard?;
      forall i | 0 <= i < |deeds| ensures IsPlain(deeds, i) {
        assert i == 0 || deeds[i] in deeds[1..];
      }
    }
  }

  lemma MountIsPlain(path: string, deeds: seq<Deed>)
    requires IsMountBy(path, deeds)
    ensures AllPlain(deeds)
  {
    if |deeds| >= 2 {
      var n := |deeds| - 2;
      assert deeds[n].WriteDown? && deeds[n + 1].TellPath? && deeds[n + 1].path == deeds[n].path;
      forall i | 0 <= i < |deeds| ensures IsPlain(deeds, i) {
        if i < n {
          assert deeds[i] == deeds[..n][i];
        } else {
          assert i == n || i == n + 1;
        }
      }
    }
  }

  lemma {:induction false} CallsArePlain(ops: seq<NamedOperation>, parts: seq<seq<Deed>>)
    requires AreDeedsOf(ops, parts) && forall op :: op in ops ==> !ActsQuietly(op)
    ensures AllPlain(Joined(parts))
  {
    if parts != [] {
      var n := |parts| - 1;
      CallsArePlain(ops[..n], parts[..n]);
      CallIsPlain(ops[n], parts[n]);
      PlainTogether(Joined(parts[..n]), parts[n]);
    }
  }

  lemma {:induction false} StaysOn(d: Desk, deeds: seq<Deed>, n: nat)
    requires AllPlain(deeds) && n <= |deeds|
    ensures At(d, deeds, n).log.enabled == d.log.enabled
  {
    if n == 0 {
      assert deeds[..0] == [];
    } else {
      StaysOn(d, deeds, n - 1);
      OneMoreDeed(d, deeds, n - 1);
      assert IsPlain(deeds, n - 1);
    }
  }

  lemma PlainShowsExactly(d: Desk, deeds: seq<Deed>)
    requires Starts(d) && d.log.enabled && AllPlain(deeds)
    ensures AllToldSame(d, Answered(deeds)) <==> AllHarmless(d, Answered(deeds))
  {
    var answered := Answered(deeds);
    forall i | 0 <= i < |answered| ensures IsPlain(answered, i) {
      assert IsPlain(deeds, i);
    }
    forall i | 0 <= i < |answered| ensures HarmlessAt(d, answered, i) || ToldAtOnce(d, answered, i) {
      StaysOn(d, answered, i);
      assert IsPlain(answered, i);
    }
    DeferralShowsExactly(d, answered);
  }

  // -- Deferring, working, keeping -------------------------------------------------------------------

  /** A discard asks whether its row has a name of its own. Its deeds are what it
      does in both runs only if both answer alike. */
  ghost predicate SameCourse(d: Desk, deeds: seq<Deed>) {
    forall i :: 0 <= i < |deeds| ==> SameCourseAt(d, deeds, i)
  }

  predicate SameCourseAt(d: Desk, deeds: seq<Deed>, i: nat)
    requires i < |deeds|
  {
    deeds[i].LookAtName? ==>
      var a, b, k := Deferring(d, deeds, i).rows, At(d, deeds, i).rows, deeds[i].k;
      k < |a| && k < |b| ==> (a[k].alias == "" <==> b[k].alias == "")
  }

  /** When the kept history is the one without deferral. */
  ghost predicate ShowsTheSame(d: Desk, ops: seq<NamedOperation>, deeds: seq<Deed>, kept: Log.Log) {
    && (kept == DidAll(d, deeds).log <==>
          AllToldSame(d, deeds) && (kept.enabled || DidAll(Deferred(d), deeds).log.held == []))
    && (AllHarmless(d, deeds) ==> AllToldSame(d, deeds))
    && (d.log.enabled && (forall op :: op in ops ==> !ActsQuietly(op)) ==>
          (AllToldSame(d, deeds) <==> AllHarmless(d, deeds)))
  }

  /** Records deferred, any operations, records kept. The history is what the same
      deeds would have recorded without deferral, and an index that can be read
      and written, exactly when every event told while logging was on finds its
      row under the same name in both runs. It is enough that nothing done is
      harmful; where nothing but mounts notes paths and nothing is renamed, it is
      also needed. */
  method KeptDeferral(s: SessionCore, ops: seq<NamedOperation>) returns (ghost parts: seq<seq<Deed>>)
    requires s.Valid() && Starts(DeskFrom(s.Now()))
    modifies s, s.rt
    ensures s.Valid() && AreDeedsOf(ops, parts)
    ensures s.log == DidAll(Deferred(old(DeskFrom(s.Now()))), Joined(parts)).log.Settle(true)
    ensures var d, deeds := old(DeskFrom(s.Now())), Answered(Joined(parts));
      SameCourse(d, deeds) ==> ShowsTheSame(d, ops, deeds, s.log)
  {
    ghost var d := DeskFrom(s.Now());
    var refused := s.DeferOperations();
    parts := DoEverything(s, ops);
    ghost var held := s.log;
    ghost var _ := s.SettleOperations(true);
    KeptHistory(d, ops, parts, held);
  }

  lemma KeptHistory(d: Desk, ops: seq<NamedOperation>, parts: seq<seq<Deed>>, held: Log.Log)
    requires Starts(d) && AreDeedsOf(ops, parts) && held == DidAll(Deferred(d), Joined(parts)).log
    ensures ShowsTheSame(d, ops, Answered(Joined(parts)), held.Settle(true))
  {
    var deeds := Answered(Joined(parts));
    NobodyIsAsked(Deferred(d), Joined(parts));
    Log.RecordAllAppends(held.(deferring := false, held := [], discarded := []), held.held);
    HistoriesAgreeExactly(d, deeds);
    assert deeds[..|deeds|] == deeds;
    if AllHarmless(d, deeds) {
      HarmlessDeferral(d, deeds);
    }
    if d.log.enabled && forall op :: op in ops ==> !ActsQuietly(op) {
      CallsArePlain(ops, parts);
      PlainShowsExactly(d, Joined(parts));
    }
  }
}
