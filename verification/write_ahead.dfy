/** The order in which the durable index and the partitions themselves are
    written. Every write, and every report of the conversion helper, is one
    event of a trace; what survives a crash is the index after a prefix of it.
    `Legal` is the protocol the session follows
    (card_login_mount_session.cpp:1983-2240), event by event. */
module WriteAhead {
  import opened Wrappers
  import opened ContainerIndex

  datatype DiskEvent =
    | IndexWritten(index: Index)
    | Encrypted(partition: Partition)
    | Erased(partition: Partition)
    | Reported(partition: Partition, paused: bool)

  type Trace = seq<DiskEvent>

  function Last(t: Trace): DiskEvent
    requires t != []
  {
    t[|t| - 1]
  }

  function Before(t: Trace): Trace
    requires t != []
  {
    t[..|t| - 1]
  }

  /** What a reader finds on disk after the trace. */
  function IndexAfter(start: Index, t: Trace): Index {
    if t == [] then start
    else if Last(t).IndexWritten? then Last(t).index
    else IndexAfter(start, Before(t))
  }

  function Durable(start: Index, t: Trace, p: Partition): Option<Conversion> {
    StateOf(IndexAfter(start, t), p)
  }

  /** The helper's report since the partition last became uncertain. */
  function LastReport(start: Index, t: Trace, p: Partition): Option<bool> {
    if t == [] then None
    else if Last(t).Reported? && Last(t).partition == p then Some(Last(t).paused)
    else if Accepts(start, t, p) then None
    else LastReport(start, Before(t), p)
  }

  /** The last event wrote consent down: the partition became uncertain. */
  predicate Accepts(start: Index, t: Trace, p: Partition)
    requires t != []
  {
    Durable(start, t, p) == Some(Uncertain) && Durable(start, Before(t), p) != Some(Uncertain)
  }

  predicate Pauses(start: Index, t: Trace, p: Partition)
    requires t != []
  {
    Durable(start, t, p) == Some(Paused) && Durable(start, Before(t), p) != Some(Paused)
  }

  predicate Removes(start: Index, t: Trace, p: Partition)
    requires t != []
  {
    Durable(start, t, p).None? && Durable(start, Before(t), p).Some?
  }

  // -- The protocol ---------------------------------------------------------------

  predicate AllowedChange(before: Option<Conversion>, after: Option<Conversion>, report: Option<bool>) {
    || after == before
    || after.None?
    || (before.None? && after.value != Paused)
    || (before == Some(Paused) && after.value == Uncertain)
    || (before == Some(Uncertain) && after.value == Normal && report == Some(false))
    || (before == Some(Uncertain) && after.value == Paused && report == Some(true))
  }

  ghost predicate LegalEvent(start: Index, t: Trace, e: DiskEvent) {
    match e
    case IndexWritten(ix) =>
      && Unambiguous(ix)
      && forall p :: AllowedChange(Durable(start, t, p), StateOf(ix, p), LastReport(start, t, p))
    case Encrypted(p) => Durable(start, t, p) == Some(Uncertain) && LastReport(start, t, p).None?
    case Erased(p) => Durable(start, t, p) == Some(Normal)
    case Reported(p, _) => Durable(start, t, p) == Some(Uncertain)
  }

  /** Event `k` was allowed after what came before it. */
  ghost predicate LegalAt(start: Index, t: Trace, k: nat)
    requires k < |t|
  {
    LegalEvent(start, t[..k], t[k])
  }

  ghost predicate Legal(start: Index, t: Trace) {
    forall k :: 0 <= k < |t| ==> LegalAt(start, t, k)
  }

  lemma LegalExtends(start: Index, t: Trace, e: DiskEvent)
    requires Legal(start, t) && LegalEvent(start, t, e)
    ensures Legal(start, t + [e])
    ensures IndexAfter(start, t + [e]) == if e.IndexWritten? then e.index else IndexAfter(start, t)
  {
    var u := t + [e];
    assert Before(u) == t;
    forall k | 0 <= k < |u| ensures LegalAt(start, u, k) {
      assert u[..k] == t[..k];
      assert t[..|t|] == t;
      assert k < |t| ==> LegalAt(start, t, k);
    }
  }

  /** A crash after any event leaves a trace that still obeys the protocol. */
  lemma CrashKeepsProtocol(start: Index, t: Trace, n: nat)
    requires Legal(start, t) && n <= |t|
    ensures Legal(start, t[..n])
  {
    forall k | 0 <= k < n ensures LegalAt(start, t[..n], k) {
      assert LegalAt(start, t, k) && t[..n][..k] == t[..k];
    }
  }

  /** The protocol one event at a time. */
  lemma LegalStep(start: Index, t: Trace)
    requires Legal(start, t) && t != []
    ensures Legal(start, Before(t)) && LegalEvent(start, Before(t), Last(t))
  {
    assert LegalAt(start, t, |t| - 1);
    CrashKeepsProtocol(start, t, |t| - 1);
  }

  /** Where the index was last written, if it was. */
  function LastWrite(t: Trace): (w: Option<nat>)
    ensures w.Some? ==> w.value < |t| && t[w.value].IndexWritten?
    ensures forall k :: (w.None? || w.value < k) && 0 <= k < |t| ==> !t[k].IndexWritten?
  {
    if t == [] then None
    else if Last(t).IndexWritten? then Some(|t| - 1)
    else LastWrite(Before(t))
  }

  lemma {:induction false} DurableIsLastWrite(start: Index, t: Trace)
    ensures IndexAfter(start, t) == if LastWrite(t).Some? then t[LastWrite(t).value].index else start
  {
    if t != [] && !Last(t).IndexWritten? {
      DurableIsLastWrite(start, Before(t));
    }
  }

  /** No partition is touched before the index says so: the last index written
      before a conversion write, or the index found at the start when none was,
      records the partition as uncertain, and the one before a destructive write
      records it as a finished container. */
  lemma WritesFollowTheRecord(start: Index, t: Trace, i: nat)
    requires Legal(start, t) && i < |t|
    ensures var w := LastWrite(t[..i]);
      var found := if w.Some? then t[w.value].index else start;
      && (t[i].Encrypted? ==> StateOf(found, t[i].partition) == Some(Uncertain))
      && (t[i].Erased? ==> StateOf(found, t[i].partition) == Some(Normal))
  {
    assert LegalAt(start, t, i);
    DurableIsLastWrite(start, t[..i]);
  }

  // -- How often a conversion may run ------------------------------------------------

  function AcceptedRuns(start: Index, t: Trace, p: Partition): nat {
    if t == [] then 0
    else AcceptedRuns(start, Before(t), p) + if Accepts(start, t, p) then 1 else 0
  }

  function PausedRuns(start: Index, t: Trace, p: Partition): nat {
    if t == [] then 0
    else PausedRuns(start, Before(t), p) + if Pauses(start, t, p) then 1 else 0
  }

  function Removals(start: Index, t: Trace, p: Partition): nat {
    if t == [] then 0
    else Removals(start, Before(t), p) + if Removes(start, t, p) then 1 else 0
  }

  /** A run can be accepted only from these two states. */
  function Openings(state: Option<Conversion>): nat {
    if state.None? || state.value == Paused then 1 else 0
  }

  /** Every accepted run consumes one opening: the partition's first record,
      one durable pause, or one removal of its record. */
  lemma {:induction false} RunsConsumeOpenings(start: Index, t: Trace, p: Partition)
    requires Legal(start, t)
    ensures AcceptedRuns(start, t, p) + Openings(Durable(start, t, p))
         <= PausedRuns(start, t, p) + Removals(start, t, p) + Openings(StateOf(start, p))
  {
    if t != [] {
      LegalStep(start, t);
      RunsConsumeOpenings(start, Before(t), p);
      if Last(t).IndexWritten? {
        assert AllowedChange(Durable(start, Before(t), p), StateOf(Last(t).index, p),
                             LastReport(start, Before(t), p));
      }
    }
  }

  /** While the record of a partition is not removed, it is converted at most
      once more than it was durably paused. */
  lemma AcceptedRunsAreBounded(start: Index, t: Trace, p: Partition)
    requires Legal(start, t) && Removals(start, t, p) == 0
    ensures AcceptedRuns(start, t, p) <= 1 + PausedRuns(start, t, p)
  {
    RunsConsumeOpenings(start, t, p);
  }

  // -- What a record proves ---------------------------------------------------------

  /** Consent was written down and the record has not been removed since. */
  predicate Consented(start: Index, t: Trace, p: Partition) {
    t != [] && !Removes(start, t, p)
    && (Accepts(start, t, p) || Consented(start, Before(t), p))
  }

  /** After consent the record tells exactly what the helper last reported:
      normal only after a completion, paused only after a pause, and uncertain
      as long as nothing was reported, wherever the run was cut off. */
  lemma {:induction false} RecordFollowsReport(start: Index, t: Trace, p: Partition)
    requires Legal(start, t) && Consented(start, t, p)
    ensures Durable(start, t, p).Some?
    ensures Durable(start, t, p) == Some(Normal) ==> LastReport(start, t, p) == Some(false)
    ensures Durable(start, t, p) == Some(Paused) ==> LastReport(start, t, p) == Some(true)
    ensures LastReport(start, t, p).None? ==> Durable(start, t, p) == Some(Uncertain)
  {
    LegalStep(start, t);
    if !Accepts(start, t, p) {
      RecordFollowsReport(start, Before(t), p);
      if Last(t).IndexWritten? {
        assert AllowedChange(Durable(start, Before(t), p), StateOf(Last(t).index, p),
                             LastReport(start, Before(t), p));
      }
    }
  }

  /** What one event can make of a record that stays. */
  lemma OneMoreEvent(start: Index, t: Trace, p: Partition)
    requires t != [] && Legal(start, t) && !Removes(start, t, p) && Durable(start, Before(t), p).Some?
    ensures var d, r := Durable(start, t, p), LastReport(start, Before(t), p);
      && (d == Durable(start, Before(t), p) || d == Some(Uncertain)
          || (d == Some(Normal) && r == Some(false)) || (d == Some(Paused) && r == Some(true)))
      && (LastReport(start, t, p) in {None, r} || Last(t) == Reported(p, LastReport(start, t, p).value))
  {
    LegalStep(start, t);
    if Last(t).IndexWritten? {
      assert AllowedChange(Durable(start, Before(t), p), StateOf(Last(t).index, p), LastReport(start, Before(t), p));
    }
  }

  predicate ReportedSince(t: Trace, i: nat, p: Partition, paused: bool) {
    exists k :: i < k < |t| && t[k] == Reported(p, paused)
  }

  /** The record of the partition was not removed after event `i`. */
  predicate KeptSince(start: Index, t: Trace, i: nat, p: Partition) {
    |t| <= i + 1 || (!Removes(start, t, p) && KeptSince(start, Before(t), i, p))
  }

  /** The record says finished, or paused, only if the helper reported so. */
  predicate Tells(t: Trace, i: nat, p: Partition, d: Option<Conversion>, r: Option<bool>) {
    && d.Some?
    && (r == Some(false) ==> ReportedSince(t, i, p, false))
    && (r == Some(true) ==> ReportedSince(t, i, p, true))
    && (d == Some(Normal) ==> ReportedSince(t, i, p, false))
    && (d == Some(Paused) ==> ReportedSince(t, i, p, true))
  }

  lemma TellsOneMore(t: Trace, i: nat, p: Partition,
                     d: Option<Conversion>, r: Option<bool>, d': Option<Conversion>, r': Option<bool>)
    requires i < |t| - 1 && Tells(Before(t), i, p, d, r)
    requires d' == d || d' == Some(Uncertain) || (d' == Some(Normal) && r == Some(false)) || (d' == Some(Paused) && r == Some(true))
    requires r' in {None, r} || Last(t) == Reported(p, r'.value)
    ensures Tells(t, i, p, d', r')
  {
    forall paused: bool ensures ReportedSince(Before(t), i, p, paused) ==> ReportedSince(t, i, p, paused) {
    }
  }

  /** Wherever a run is cut off after a conversion write, the index found then
      still has the partition, and says that it is finished, or paused, only if
      the helper reported so after the write. */
  lemma {:induction false} CrashFindsTheReport(start: Index, t: Trace, i: nat, p: Partition)
    requires Legal(start, t) && i < |t| && t[i] == Encrypted(p) && KeptSince(start, t, i, p)
    ensures Tells(t, i, p, Durable(start, t, p), LastReport(start, t, p))
    decreases |t|
  {
    var b := Before(t);
    LegalStep(start, t);
    if i < |b| {
      CrashFindsTheReport(start, b, i, p);
      OneMoreEvent(start, t, p);
      TellsOneMore(t, i, p, Durable(start, b, p), LastReport(start, b, p), Durable(start, t, p), LastReport(start, t, p));
    }
  }

  lemma NothingToldIsUncertain(t: Trace, i: nat, p: Partition, d: Option<Conversion>, r: Option<bool>)
    requires Tells(t, i, p, d, r) && !ReportedSince(t, i, p, true) && !ReportedSince(t, i, p, false)
    ensures d == Some(Uncertain) && r.None?
  {
    assert d != Some(Normal) && d != Some(Paused) && r != Some(false) && r != Some(true);
    OneOfThree(d.value);
    TwoAnswers(r);
  }

  lemma OneOfThree(c: Conversion)
    ensures c == Normal || c == Uncertain || c == Paused
  {
  }

  lemma TwoAnswers(r: Option<bool>)
    ensures r in {None, Some(false), Some(true)}
  {
    if r.Some? && r.value {
      assert r == Some(true);
    }
  }

  /** A conversion write with no report after it leaves a record that no later
      login can take for a finished container. */
  lemma UnreportedWriteStaysUncertain(start: Index, t: Trace, i: nat, p: Partition)
    requires Legal(start, t) && i < |t| && t[i] == Encrypted(p) && KeptSince(start, t, i, p)
    requires !ReportedSince(t, i, p, true) && !ReportedSince(t, i, p, false)
    ensures Durable(start, t, p) == Some(Uncertain) && LastReport(start, t, p).None?
  {
    CrashFindsTheReport(start, t, i, p);
    NothingToldIsUncertain(t, i, p, Durable(start, t, p), LastReport(start, t, p));
  }
}
