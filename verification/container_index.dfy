/** The durable container index as its readers see it: an ordered list of
    records (container_index_view_v1.cpp). Sealing, slots and padding are not
    modelled; a record that carries no saved position is kept after all the
    records that carry one. */
module ContainerIndex {
  import opened Wrappers
  import opened Paths

  const INDEX_CAPACITY := 1024

  datatype Conversion = Normal | Uncertain | Paused

  datatype Partition = Partition(device: nat, layout: nat, sector: nat, offset: nat, length: nat)

  /** What a session row or an index record names. */
  datatype Target = File(path: string) | Disk(partition: Partition)

  datatype Record = Record(target: Target, conversion: Conversion, sequence: nat, name: string)

  type Index = seq<Record>

  predicate ValidPartition(p: Partition) {
    && p.device != 0
    && (p.layout == 1 || p.layout == 2)
    && p.sector == 512
    && p.offset != 0 && p.offset % 512 == 0
    && p.length % 512 == 0
    && 20 * 1024 * 1024 <= p.length <= 1024 * 1024 * 1024 * 1024
    && p.offset + p.length <= 0x7FFF_FFFF_FFFF_FFFF
  }

  predicate Matches(a: Target, b: Target) {
    match (a, b)
    case (File(x), File(y)) => SamePath(x, y)
    case (Disk(p), Disk(q)) => p == q
    case _ => false
  }

  lemma MatchesIsEquivalence(a: Target, b: Target, c: Target)
    ensures Matches(a, a)
    ensures Matches(a, b) == Matches(b, a)
    ensures Matches(a, b) && Matches(b, c) ==> Matches(a, c)
  {
  }

  /** No record is named twice. */
  ghost predicate Unambiguous(ix: Index) {
    forall i, j :: 0 <= i < j < |ix| ==> !Matches(ix[i].target, ix[j].target)
  }

  /** Rank of a target in the list, or the list's length when nothing names it. */
  function Rank(ix: Index, t: Target): (k: nat)
    ensures k <= |ix|
    ensures k < |ix| ==> Matches(ix[k].target, t)
    ensures forall i :: 0 <= i < k ==> !Matches(ix[i].target, t)
  {
    if ix == [] then 0
    else if Matches(ix[0].target, t) then 0
    else 1 + Rank(ix[1..], t)
  }

  predicate Known(ix: Index, t: Target) {
    Rank(ix, t) < |ix|
  }

  /** The durable conversion state of a partition, when it is recorded. */
  function StateOf(ix: Index, p: Partition): Option<Conversion> {
    var k := Rank(ix, Disk(p));
    if k < |ix| then Some(ix[k].conversion) else None
  }

  /** In an unambiguous list any record naming the target decides the rank. */
  lemma RankIsUnique(ix: Index, t: Target, k: nat)
    requires Unambiguous(ix) && k < |ix| && Matches(ix[k].target, t)
    ensures Rank(ix, t) == k
  {
  }

  /** Two unambiguous lists of the same records agree on every state. */
  lemma StateIgnoresOrder(a: Index, b: Index, p: Partition)
    requires Unambiguous(a) && Unambiguous(b)
    requires forall r :: r in a <==> r in b
    ensures StateOf(a, p) == StateOf(b, p)
  {
    var i, j := Rank(a, Disk(p)), Rank(b, Disk(p));
    if i < |a| {
      assert a[i] in b;
      var k :| 0 <= k < |b| && b[k] == a[i];
      RankIsUnique(b, Disk(p), k);
    }
    if j < |b| {
      assert b[j] in a;
    }
  }

  // -- Changes to the list ------------------------------------------------------

  datatype Write = Added(index: Index, sequence: nat) | AlreadyPresent | Full

  /** The smallest number from `n` on that is not used. */
  function FreeNumber(n: nat, used: set<nat>): (m: nat)
    ensures n <= m && m !in used
    ensures forall j :: n <= j < m ==> j in used
    decreases used
  {
    if n in used then FreeNumber(n + 1, used - {n}) else n
  }

  function NextSequence(ix: Index): nat {
    FreeNumber(1, set r | r in ix && r.target.Disk? :: r.sequence)
  }

  function PrependPath(ix: Index, path: string): Write {
    if Known(ix, File(path)) then AlreadyPresent
    else if |ix| >= INDEX_CAPACITY then Full
    else Added([Record(File(path), Normal, 0, "")] + ix, 0)
  }

  function AddPath(ix: Index, path: string): Write {
    if Known(ix, File(path)) then AlreadyPresent
    else if |ix| >= INDEX_CAPACITY then Full
    else Added(ix + [Record(File(path), Normal, 0, "")], 0)
  }

  function PrependPartition(ix: Index, p: Partition, state: Conversion): Write {
    if Known(ix, Disk(p)) then AlreadyPresent
    else if |ix| >= INDEX_CAPACITY then Full
    else Added([Record(Disk(p), state, NextSequence(ix), "")] + ix, NextSequence(ix))
  }

  function SetState(ix: Index, p: Partition, state: Conversion): Option<Index> {
    var k := Rank(ix, Disk(p));
    if k < |ix| then Some(ix[k := ix[k].(conversion := state)]) else None
  }

  function SetName(ix: Index, t: Target, name: string): Option<Index> {
    var k := Rank(ix, t);
    if k < |ix| then Some(ix[k := ix[k].(name := name)]) else None
  }

  function Without(ix: Index, t: Target): (r: Index)
    ensures forall x :: x in r <==> x in ix && !Matches(x.target, t)
    ensures |r| <= |ix|
  {
    if ix == [] then []
    else if Matches(ix[0].target, t) then Without(ix[1..], t)
    else [ix[0]] + Without(ix[1..], t)
  }

  lemma WithoutUnknown(ix: Index, t: Target)
    requires !Known(ix, t)
    ensures Without(ix, t) == ix
  {
  }

  lemma WithoutKnown(ix: Index, t: Target)
    ensures Without(ix, t) == ix <==> !Known(ix, t)
  {
    if Known(ix, t) {
      assert ix[Rank(ix, t)] in ix;
    } else {
      WithoutUnknown(ix, t);
    }
  }

  /** Legacy partition records get a number, from the last record to the first. */
  function Numbered(ix: Index): (r: Index)
    ensures |r| == |ix|
    ensures forall i :: 0 <= i < |ix| ==> r[i] == ix[i].(sequence := r[i].sequence)
  {
    NumberedFrom(ix, |ix|)
  }

  function NumberedFrom(ix: Index, n: nat): (r: Index)
    requires n <= |ix|
    ensures |r| == |ix|
    ensures forall i :: 0 <= i < |ix| ==> r[i] == ix[i].(sequence := r[i].sequence)
    decreases n
  {
    if n == 0 then ix
    else if ix[n - 1].target.Disk? && ix[n - 1].sequence == 0 then
      NumberedFrom(ix[n - 1 := ix[n - 1].(sequence := NextSequence(ix))], n - 1)
    else NumberedFrom(ix, n - 1)
  }

  /** Every partition has a number afterwards. Records that had one keep it, and
      a number given now is shared with no other partition. */
  ghost predicate WellNumbered(before: Index, after: Index) {
    && |after| == |before| && !NeedsNumbers(after)
    && (forall i :: 0 <= i < |before| && (before[i].target.File? || before[i].sequence != 0) ==> after[i] == before[i])
    && forall i, j :: 0 <= i < j < |after| && SameNumber(after[i], after[j]) ==>
         SameNumber(before[i], before[j]) && before[i].sequence != 0
  }

  predicate SameNumber(a: Record, b: Record) {
    a.target.Disk? && b.target.Disk? && a.sequence == b.sequence
  }

  lemma OneNumberGiven(ix: Index, k: nat, number: nat, after: Index)
    requires k < |ix| && ix[k].target.Disk? && ix[k].sequence == 0
    requires number != 0 && forall j :: 0 <= j < |ix| && ix[j].target.Disk? ==> ix[j].sequence != number
    requires WellNumbered(ix[k := ix[k].(sequence := number)], after)
    ensures WellNumbered(ix, after)
  {
    var more := ix[k := ix[k].(sequence := number)];
    forall i, j | 0 <= i < j < |after| && SameNumber(after[i], after[j])
      ensures SameNumber(ix[i], ix[j]) && ix[i].sequence != 0
    {
      assert SameNumber(more[i], more[j]) && i != k && j != k;
    }
  }

  lemma NumberingIsFresh(ix: Index)
    ensures WellNumbered(ix, Numbered(ix))
  {
    NumberingFromIsFresh(ix, |ix|);
  }

  lemma {:induction false} NumberingFromIsFresh(ix: Index, n: nat)
    requires n <= |ix| && forall i :: n <= i < |ix| && ix[i].target.Disk? ==> ix[i].sequence != 0
    ensures WellNumbered(ix, NumberedFrom(ix, n))
    decreases n
  {
    if n != 0 && ix[n - 1].target.Disk? && ix[n - 1].sequence == 0 {
      NumberingFromIsFresh(ix[n - 1 := ix[n - 1].(sequence := NextSequence(ix))], n - 1);
      forall j | 0 <= j < |ix| && ix[j].target.Disk? ensures ix[j].sequence != NextSequence(ix) {
        assert ix[j] in ix;
      }
      OneNumberGiven(ix, n - 1, NextSequence(ix), NumberedFrom(ix, n));
    } else if n != 0 {
      NumberingFromIsFresh(ix, n - 1);
    }
  }

  predicate NeedsNumbers(ix: Index) {
    exists r :: r in ix && r.target.Disk? && r.sequence == 0
  }

  // -- Saved order -------------------------------------------------------------

  predicate Named(refs: seq<Target>, t: Target) {
    exists r :: r in refs && Matches(r, t)
  }

  /** Every reference is recorded and none is given twice. */
  predicate Orderable(ix: Index, refs: seq<Target>) {
    && (forall i :: 0 <= i < |refs| ==> Known(ix, refs[i]))
    && (forall i, j :: 0 <= i < j < |refs| ==> Rank(ix, refs[i]) != Rank(ix, refs[j]))
  }

  function Unnamed(ix: Index, refs: seq<Target>): (r: Index)
    ensures forall x :: x in r <==> x in ix && !Named(refs, x.target)
  {
    if ix == [] then []
    else if Named(refs, ix[0].target) then Unnamed(ix[1..], refs)
    else [ix[0]] + Unnamed(ix[1..], refs)
  }

  function Selected(ix: Index, refs: seq<Target>): (r: Index)
    requires Orderable(ix, refs)
    ensures |r| == |refs|
    ensures forall i :: 0 <= i < |refs| ==> r[i] in ix && Matches(r[i].target, refs[i])
  {
    seq(|refs|, i requires 0 <= i < |refs| => ix[Rank(ix, refs[i])])
  }

  /** The named records first, in the given order; the rest after them, in the
      order they already had. */
  function Reordered(ix: Index, refs: seq<Target>): Index
    requires Orderable(ix, refs)
  {
    Selected(ix, refs) + Unnamed(ix, refs)
  }

  lemma UnnamedKeepsOrder(ix: Index, refs: seq<Target>)
    requires Unambiguous(ix)
    ensures Unambiguous(Unnamed(ix, refs))
  {
  }

  lemma SelectedIsUnambiguous(ix: Index, refs: seq<Target>)
    requires Unambiguous(ix) && Orderable(ix, refs)
    ensures Unambiguous(Selected(ix, refs))
  {
  }

  /** Reordering is a rearrangement of the same records. */
  lemma ReorderedRecords(ix: Index, refs: seq<Target>)
    requires Unambiguous(ix) && Orderable(ix, refs)
    ensures Unambiguous(Reordered(ix, refs))
    ensures forall r :: r in Reordered(ix, refs) <==> r in ix
    ensures forall i :: 0 <= i < |refs| ==> Rank(Reordered(ix, refs), refs[i]) == i
    ensures forall p :: StateOf(Reordered(ix, refs), p) == StateOf(ix, p)
  {
    var s, u := Selected(ix, refs), Unnamed(ix, refs);
    var all := Reordered(ix, refs);
    SelectedIsUnambiguous(ix, refs);
    UnnamedKeepsOrder(ix, refs);
    forall i, j | 0 <= i < |s| && 0 <= j < |u| ensures !Matches(s[i].target, u[j].target) {
      assert u[j] in u && !Named(refs, u[j].target) && refs[i] in refs;
      MatchesIsEquivalence(refs[i], s[i].target, u[j].target);
    }
    assert Unambiguous(all);
    forall r | r in ix ensures r in all {
      if Named(refs, r.target) {
        var t :| t in refs && Matches(t, r.target);
        var i :| 0 <= i < |refs| && refs[i] == t;
        var k :| 0 <= k < |ix| && ix[k] == r;
        MatchesIsEquivalence(t, r.target, t);
        RankIsUnique(ix, t, k);
        assert s[i] == r && all[i] == r;
      } else {
        assert r in u;
      }
    }
    forall r | r in all ensures r in ix {
      assert r in s || r in u;
    }
    forall i | 0 <= i < |refs| ensures Rank(all, refs[i]) == i {
      assert all[i] == s[i];
      RankIsUnique(all, refs[i], i);
    }
    forall p ensures StateOf(all, p) == StateOf(ix, p) {
      StateIgnoresOrder(all, ix, p);
    }
  }

  // -- What each change keeps ---------------------------------------------------------

  lemma RankReadsTargets(a: Index, b: Index, t: Target)
    requires |a| == |b| && forall i :: 0 <= i < |a| ==> a[i].target == b[i].target
    ensures Rank(a, t) == Rank(b, t)
  {
  }

  lemma PrependEffect(ix: Index, r: Record)
    requires Unambiguous(ix) && !Known(ix, r.target)
    ensures Unambiguous([r] + ix)
    ensures forall p :: StateOf([r] + ix, p) == if r.target == Disk(p) then Some(r.conversion) else StateOf(ix, p)
  {
  }

  /** Adding a file record at the end changes no partition. */
  lemma AddEffect(ix: Index, path: string)
    requires Unambiguous(ix) && !Known(ix, File(path))
    ensures var after := ix + [Record(File(path), Normal, 0, "")];
            Unambiguous(after) && forall p :: StateOf(after, p) == StateOf(ix, p)
  {
    var after := ix + [Record(File(path), Normal, 0, "")];
    forall p ensures StateOf(after, p) == StateOf(ix, p) {
      var k := Rank(after, Disk(p));
      if k < |ix| {
        RankIsUnique(ix, Disk(p), k);
      }
      var j := Rank(ix, Disk(p));
      if j < |ix| {
        assert after[j] == ix[j];
      }
    }
  }

  lemma SetStateEffect(ix: Index, p: Partition, state: Conversion)
    requires Unambiguous(ix) && SetState(ix, p, state).Some?
    ensures var after := SetState(ix, p, state).value;
            && Unambiguous(after)
            && forall q :: StateOf(after, q) == if q == p then Some(state) else StateOf(ix, q)
  {
    var after := SetState(ix, p, state).value;
    forall q ensures StateOf(after, q) == if q == p then Some(state) else StateOf(ix, q) {
      RankReadsTargets(ix, after, Disk(q));
      RankReadsTargets(ix, after, Disk(p));
    }
  }

  /** Rewriting only names or numbers changes no state. */
  lemma RelabelEffect(ix: Index, after: Index)
    requires Unambiguous(ix) && |after| == |ix|
    requires forall i :: 0 <= i < |ix| ==>
      after[i].target == ix[i].target && after[i].conversion == ix[i].conversion
    ensures Unambiguous(after) && forall p :: StateOf(after, p) == StateOf(ix, p)
  {
  }

  lemma WithoutEffect(ix: Index, t: Target)
    requires Unambiguous(ix)
    ensures Unambiguous(Without(ix, t))
    ensures forall p :: StateOf(Without(ix, t), p) == if t == Disk(p) then None else StateOf(ix, p)
    ensures !Known(Without(ix, t), t)
  {
    var after := Without(ix, t);
    WithoutKeepsOrder(ix, t);
    forall p ensures StateOf(after, p) == if t == Disk(p) then None else StateOf(ix, p) {
      var i, j := Rank(ix, Disk(p)), Rank(after, Disk(p));
      if i < |ix| && t != Disk(p) {
        assert ix[i] in after;
        var k :| 0 <= k < |after| && after[k] == ix[i];
        RankIsUnique(after, Disk(p), k);
      }
      if j < |after| {
        assert after[j] in ix && after[j] in after;
      }
    }
  }

  lemma WithoutKeepsOrder(ix: Index, t: Target)
    requires Unambiguous(ix)
    ensures Unambiguous(Without(ix, t))
  {
    if ix != [] {
      WithoutKeepsOrder(ix[1..], t);
      var rest := Without(ix[1..], t);
      forall j | 0 <= j < |rest| ensures !Matches(ix[0].target, rest[j].target) {
        assert rest[j] in rest && rest[j] in ix[1..];
      }
    }
  }
}
