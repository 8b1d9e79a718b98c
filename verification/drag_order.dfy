/** Dragging a container to another place in one of the page's lists
    (ui/card_session.js:2153-2169, 2204-2234, 2396-2414). A list may show only
    some of the containers; the others keep their places. */
module DragOrder {
  import opened Wrappers
  import opened ContainerTable
  import Order = SessionOrder

  ghost predicate Distinct(ids: seq<nat>) {
    forall i, j :: 0 <= i < j < |ids| ==> ids[i] != ids[j]
  }

  /** The same containers, each once, in whatever order. */
  ghost predicate Rearranges(a: seq<nat>, b: seq<nat>) {
    Distinct(a) && Distinct(b) && forall x :: x in a <==> x in b
  }

  lemma {:induction false} DistinctLength(a: seq<nat>, s: set<nat>)
    requires Distinct(a) && forall x :: x in a <==> x in s
    ensures |a| == |s|
  {
    if a != [] {
      var front, last := a[..|a| - 1], a[|a| - 1];
      assert a == front + [last];
      assert forall i :: 0 <= i < |front| ==> front[i] != last;
      DistinctLength(front, s - {last});
    }
  }

  lemma RearrangedLength(a: seq<nat>, b: seq<nat>)
    requires Rearranges(a, b)
    ensures |a| == |b|
  {
    var s := set x | x in a;
    DistinctLength(a, s);
    DistinctLength(b, s);
  }

  function Without(ids: seq<nat>, id: nat): (r: seq<nat>)
    ensures forall x :: x in r <==> x in ids && x != id
  {
    if ids == [] then []
    else (if ids[0] == id then [] else [ids[0]]) + Without(ids[1..], id)
  }

  // -- The order of the page ------------------------------------------------------------------------

  /** Remembered containers first, as they were put; the others as they were
      adopted. What is remembered but no longer there is passed over. */
  function OrderedIds(ids: seq<nat>, order: seq<nat>): seq<nat>
    decreases |order|
  {
    if order == [] then ids
    else if order[0] in ids then [order[0]] + OrderedIds(Without(ids, order[0]), order[1..])
    else OrderedIds(ids, order[1..])
  }

  lemma WithoutIsDistinct(ids: seq<nat>, id: nat)
    requires Distinct(ids)
    ensures Distinct(Without(ids, id))
  {
    if ids != [] {
      WithoutIsDistinct(ids[1..], id);
      var rest := Without(ids[1..], id);
      forall k | 0 <= k < |rest| ensures rest[k] != ids[0] {
        assert rest[k] in rest && rest[k] in ids[1..];
      }
    }
  }

  lemma WithoutNone(ids: seq<nat>, id: nat)
    requires id !in ids
    ensures Without(ids, id) == ids
  {
  }

  lemma {:induction false} OrderedIsRearranged(ids: seq<nat>, order: seq<nat>)
    requires Distinct(ids)
    ensures Rearranges(OrderedIds(ids, order), ids)
    decreases |order|
  {
    if order != [] {
      if order[0] in ids {
        WithoutIsDistinct(ids, order[0]);
        OrderedIsRearranged(Without(ids, order[0]), order[1..]);
        var rest := OrderedIds(Without(ids, order[0]), order[1..]);
        assert forall k :: 0 <= k < |rest| ==> rest[k] in rest;
      } else {
        OrderedIsRearranged(ids, order[1..]);
      }
    }
  }

  /** A complete order is followed to the letter. */
  lemma {:induction false} CompleteOrderIsFollowed(ids: seq<nat>, order: seq<nat>)
    requires Rearranges(order, ids)
    ensures OrderedIds(ids, order) == order
    decreases |order|
  {
    if order == [] {
      RearrangedLength(order, ids);
    } else {
      var rest := order[1..];
      assert order == [order[0]] + rest;
      assert forall k :: 0 <= k < |rest| ==> rest[k] != order[0];
      WithoutIsDistinct(ids, order[0]);
      CompleteOrderIsFollowed(Without(ids, order[0]), rest);
    }
  }

  // -- Moving one container within a shown list --------------------------------------------------------

  function Shown(ordered: seq<nat>, shown: set<nat>): (r: seq<nat>)
    ensures forall x :: x in r <==> x in ordered && x in shown
  {
    if ordered == [] then []
    else
      var front := Shown(ordered[..|ordered| - 1], shown);
      if ordered[|ordered| - 1] in shown then front + [ordered[|ordered| - 1]] else front
  }

  /** One taken out and put back in front of another. */
  function Moved(visible: seq<nat>, from: nat, to: nat): (r: seq<nat>)
    requires from < |visible| && to < |visible|
    ensures |r| == |visible|
  {
    var rest := visible[..from] + visible[from + 1..];
    rest[..to] + [visible[from]] + rest[to..]
  }

  /** Where the page puts it for a gap before the index-th row. */
  function Target(from: nat, index: nat, length: nat): (to: nat)
    requires from < length
    ensures to < length
  {
    var to := if index > from then index - 1 else index;
    if to < length then to else length - 1
  }

  /** It lands in the gap: what was above the gap stays above it, what was below
      stays below, and nothing else changes its order. */
  lemma LandsInGap(visible: seq<nat>, from: nat, index: nat)
    requires Distinct(visible) && from < |visible| && index <= |visible|
    ensures var id := visible[from];
      Moved(visible, from, Target(from, index, |visible|)) == Without(visible[..index], id) + [id] + Without(visible[index..], id)
  {
    if index > from {
      LandsBelow(visible, from, index);
    } else {
      LandsAbove(visible, from, index);
    }
  }

  lemma LandsBelow(visible: seq<nat>, from: nat, index: nat)
    requires Distinct(visible) && from < index <= |visible|
    ensures var id := visible[from];
      Moved(visible, from, index - 1) == Without(visible[..index], id) + [id] + Without(visible[index..], id)
  {
    var id, rest := visible[from], visible[..from] + visible[from + 1..];
    WithoutAt(visible[..index], from);
    WithoutNone(visible[index..], id);
    assert rest[..index - 1] == visible[..index][..from] + visible[..index][from + 1..];
    assert rest[index - 1..] == visible[index..];
  }

  lemma LandsAbove(visible: seq<nat>, from: nat, index: nat)
    requires Distinct(visible) && index <= from < |visible|
    ensures var id := visible[from];
      Moved(visible, from, index) == Without(visible[..index], id) + [id] + Without(visible[index..], id)
  {
    var id, rest := visible[from], visible[..from] + visible[from + 1..];
    WithoutNone(visible[..index], id);
    WithoutAt(visible[index..], from - index);
    assert rest[..index] == visible[..index];
    assert rest[index..] == visible[index..][..from - index] + visible[index..][from - index + 1..];
  }

  lemma {:induction false} WithoutAt(ids: seq<nat>, at: nat)
    requires Distinct(ids) && at < |ids|
    ensures Without(ids, ids[at]) == ids[..at] + ids[at + 1..]
  {
    var front, back := ids[..at], ids[at + 1..];
    assert ids == front + ([ids[at]] + back);
    WithoutConcat(front, [ids[at]] + back, ids[at]);
    WithoutNone(front, ids[at]);
    WithoutFirst(ids[at], back);
  }

  lemma WithoutFirst(id: nat, back: seq<nat>)
    requires id !in back
    ensures Without([id] + back, id) == back
  {
    assert ([id] + back)[1..] == back;
    WithoutNone(back, id);
  }

  lemma {:induction false} WithoutConcat(a: seq<nat>, b: seq<nat>, id: nat)
    ensures Without(a + b, id) == Without(a, id) + Without(b, id)
  {
    if a == [] {
      assert a + b == b;
    } else {
      WithoutConcat(a[1..], b, id);
      assert (a + b)[1..] == a[1..] + b;
      Associates(if a[0] == id then [] else [a[0]], Without(a[1..], id), Without(b, id));
    }
  }

  lemma MovedIsRearranged(visible: seq<nat>, from: nat, to: nat)
    requires Distinct(visible) && from < |visible| && to < |visible|
    ensures Rearranges(Moved(visible, from, to), visible)
  {
    var rest := visible[..from] + visible[from + 1..];
    PutBack(rest, visible[from], to);
    assert visible == visible[..from] + [visible[from]] + visible[from + 1..];
    forall x ensures x in Moved(visible, from, to) <==> x in visible {
      assert x in rest <==> x in rest[..to] || x in rest[to..];
    }
  }

  lemma PutBack(rest: seq<nat>, id: nat, to: nat)
    requires Distinct(rest) && id !in rest && to <= |rest|
    ensures Distinct(rest[..to] + [id] + rest[to..])
  {
  }

  // -- Back among the hidden ones -----------------------------------------------------------------------

  /** Shown places are filled from `visible` in turn; hidden ones stay. */
  function Scattered(ordered: seq<nat>, shown: set<nat>, visible: seq<nat>): (r: seq<nat>)
    requires |visible| == |Shown(ordered, shown)|
    ensures |r| == |ordered|
  {
    if ordered == [] then []
    else
      var n := |ordered| - 1;
      if ordered[n] in shown then Scattered(ordered[..n], shown, visible[..|visible| - 1]) + [visible[|visible| - 1]]
      else Scattered(ordered[..n], shown, visible) + [ordered[n]]
  }

  lemma {:induction false} ScatteredKeepsHidden(ordered: seq<nat>, shown: set<nat>, visible: seq<nat>, i: nat)
    requires |visible| == |Shown(ordered, shown)| && (forall x :: x in visible ==> x in shown) && i < |ordered|
    ensures var r := Scattered(ordered, shown, visible);
      if ordered[i] in shown then r[i] in shown else r[i] == ordered[i]
  {
    var n := |ordered| - 1;
    if i < n {
      ScatteredKeepsHidden(ordered[..n], shown, if ordered[n] in shown then visible[..|visible| - 1] else visible, i);
    }
  }

  lemma ShownGrows(front: seq<nat>, x: nat, shown: set<nat>)
    ensures Shown(front + [x], shown) == if x in shown then Shown(front, shown) + [x] else Shown(front, shown)
  {
  }

  lemma {:induction false} ScatteredShowsVisible(ordered: seq<nat>, shown: set<nat>, visible: seq<nat>)
    requires |visible| == |Shown(ordered, shown)| && forall x :: x in visible ==> x in shown
    ensures Shown(Scattered(ordered, shown, visible), shown) == visible
  {
    if ordered != [] {
      var n := |ordered| - 1;
      var used := if ordered[n] in shown then visible[..|visible| - 1] else visible;
      ScatteredShowsVisible(ordered[..n], shown, used);
      var front := Scattered(ordered[..n], shown, used);
      if ordered[n] in shown {
        var last := visible[|visible| - 1];
        assert last in visible && visible == used + [last];
        ShownGrows(front, last, shown);
      } else {
        ShownGrows(front, ordered[n], shown);
      }
    }
  }

  lemma {:induction false} ScatteredMembers(ordered: seq<nat>, shown: set<nat>, visible: seq<nat>)
    requires |visible| == |Shown(ordered, shown)|
    ensures forall x :: x in Scattered(ordered, shown, visible) <==> x in visible || (x in ordered && x !in shown)
  {
    if ordered != [] {
      var n := |ordered| - 1;
      var used := if ordered[n] in shown then visible[..|visible| - 1] else visible;
      ScatteredMembers(ordered[..n], shown, used);
      assert ordered == ordered[..n] + [ordered[n]];
      assert ordered[n] in shown ==> visible == used + [visible[|visible| - 1]];
    }
  }

  lemma {:induction false} ScatteredIsDistinct(ordered: seq<nat>, shown: set<nat>, visible: seq<nat>)
    requires |visible| == |Shown(ordered, shown)| && forall x :: x in visible ==> x in shown
    requires Distinct(ordered) && Distinct(visible)
    ensures Distinct(Scattered(ordered, shown, visible))
  {
    if ordered != [] {
      var n := |ordered| - 1;
      var used := if ordered[n] in shown then visible[..|visible| - 1] else visible;
      ScatteredIsDistinct(ordered[..n], shown, used);
      ScatteredMembers(ordered[..n], shown, used);
      var front := Scattered(ordered[..n], shown, used);
      forall k | 0 <= k < n ensures front[k] != Scattered(ordered, shown, visible)[n] {
        assert front[k] in front;
      }
    }
  }

  /** Rearranging what is shown rearranges the whole list. */
  lemma ScatteredIsRearranged(ordered: seq<nat>, shown: set<nat>, visible: seq<nat>)
    requires Distinct(ordered) && Rearranges(visible, Shown(ordered, shown))
    ensures |visible| == |Shown(ordered, shown)|
    ensures Rearranges(Scattered(ordered, shown, visible), ordered)
  {
    RearrangedLength(visible, Shown(ordered, shown));
    ScatteredIsDistinct(ordered, shown, visible);
    ScatteredMembers(ordered, shown, visible);
  }

  // -- The page's own state -------------------------------------------------------------------------------

  class ContainerList {
    /** In the order the session last reported them. */
    var containers: seq<nat>
    /** As last dragged; may name containers that are gone. */
    var order: seq<nat>

    constructor (containers: seq<nat>)
      requires Distinct(containers)
      ensures this.containers == containers && order == [] && Distinct(this.containers)
    {
      this.containers, order := containers, [];
    }

    method OrderedContainers() returns (ordered: seq<nat>)
      requires Distinct(containers)
      ensures ordered == OrderedIds(containers, order)
      ensures Rearranges(ordered, containers)
    {
      OrderedIsRearranged(containers, order);
      ordered := [];
      var left := containers;
      for i := 0 to |order|
        invariant ordered + OrderedIds(left, order[i..]) == OrderedIds(containers, order)
      {
        if order[i] in left {
          left := Without(left, order[i]);
          assert ordered + ([order[i]] + OrderedIds(left, order[i + 1..])) == ordered + [order[i]] + OrderedIds(left, order[i + 1..]);
          ordered := ordered + [order[i]];
        }
      }
      ordered := ordered + left;
    }

    /** Where dropping `id` at the gap before the index-th row of a list puts
        every container; no result when it is not in the list. */
    method Dropped(id: nat, index: nat, shown: set<nat>) returns (result: Option<seq<nat>>)
      requires Distinct(containers)
      ensures result.Some? ==>
        var ordered := OrderedIds(containers, order);
        var visible := Shown(ordered, shown);
        && Rearranges(result.value, containers)
        && |result.value| == |ordered|
        && (forall i :: 0 <= i < |ordered| && ordered[i] !in shown ==> result.value[i] == ordered[i])
        && Without(Shown(result.value, shown), id) == Without(visible, id)
        && (index <= |visible| ==>
              Shown(result.value, shown) == Without(visible[..index], id) + [id] + Without(visible[index..], id))
      ensures result.Some? <==> id in containers && id in shown
    {
      var ordered := OrderedContainers();
      var visible := Shown(ordered, shown);
      ShownIsDistinct(ordered, shown);
      var from := 0;
      while from < |visible| && visible[from] != id
        invariant from <= |visible| && id !in visible[..from]
      {
        from := from + 1;
      }
      if from == |visible| {
        assert visible[..from] == visible;
        return None;
      }
      var to := Target(from, index, |visible|);
      var moved := Moved(visible, from, to);
      DropIsSound(ordered, shown, from, index);
      return Some(Scattered(ordered, shown, moved));
    }

    /** A drag that changes nothing is not sent; one the session refuses is taken
        back. */
    method Remember(ids: seq<nat>, accepted: bool)
      requires Rearranges(ids, containers)
      modifies this
      ensures Distinct(containers) && Rearranges(containers, old(containers))
      ensures OrderedIds(containers, order) == if accepted then ids else OrderedIds(old(containers), old(order))
      ensures ids == OrderedIds(old(containers), old(order)) ==> containers == old(containers) && order == old(order)
    {
      var previous := OrderedContainers();
      if ids == previous {
        return;
      }
      order := ids;
      CompleteOrderIsFollowed(containers, ids);
      containers := ids;
      CompleteOrderIsFollowed(containers, ids);
      if !accepted {
        order := previous;
        CompleteOrderIsFollowed(containers, previous);
        containers := previous;
        CompleteOrderIsFollowed(containers, previous);
      }
    }
  }

  lemma {:induction false} ShownIsDistinct(ordered: seq<nat>, shown: set<nat>)
    requires Distinct(ordered)
    ensures Distinct(Shown(ordered, shown))
  {
    if ordered != [] {
      var front := ordered[..|ordered| - 1];
      ShownIsDistinct(front, shown);
      var rest := Shown(front, shown);
      forall k | 0 <= k < |rest| ensures rest[k] != ordered[|ordered| - 1] {
        assert rest[k] in rest && rest[k] in front;
      }
    }
  }

  lemma DropIsSound(ordered: seq<nat>, shown: set<nat>, from: nat, index: nat)
    requires Distinct(ordered) && from < |Shown(ordered, shown)|
    ensures var visible := Shown(ordered, shown);
      var id, moved := visible[from], Moved(visible, from, Target(from, index, |visible|));
      var result := Scattered(ordered, shown, moved);
      && Rearranges(result, ordered)
      && (forall i :: 0 <= i < |ordered| && ordered[i] !in shown ==> result[i] == ordered[i])
      && Shown(result, shown) == moved
      && Without(moved, id) == Without(visible, id)
      && (index <= |visible| ==> moved == Without(visible[..index], id) + [id] + Without(visible[index..], id))
  {
    var visible := Shown(ordered, shown);
    ShownIsDistinct(ordered, shown);
    var to := Target(from, index, |visible|);
    var moved := Moved(visible, from, to);
    MovedIsRearranged(visible, from, to);
    ScatteredIsRearranged(ordered, shown, moved);
    ScatteredShowsVisible(ordered, shown, moved);
    forall i | 0 <= i < |ordered| && ordered[i] !in shown ensures Scattered(ordered, shown, moved)[i] == ordered[i] {
      ScatteredKeepsHidden(ordered, shown, moved, i);
    }
    OthersKeepOrder(visible, from, to);
    if index <= |visible| {
      LandsInGap(visible, from, index);
    }
  }

  lemma OthersKeepOrder(visible: seq<nat>, from: nat, to: nat)
    requires Distinct(visible) && from < |visible| && to < |visible|
    ensures Without(Moved(visible, from, to), visible[from]) == Without(visible, visible[from])
  {
    MovedIsRearranged(visible, from, to);
    WithoutAt(visible, from);
    WithoutAt(Moved(visible, from, to), to);
    TakenOutAgain(visible[..from] + visible[from + 1..], visible[from], to);
  }

  lemma TakenOutAgain(rest: seq<nat>, id: nat, to: nat)
    requires to <= |rest|
    ensures var all := rest[..to] + [id] + rest[to..]; all[to] == id && all[..to] + all[to + 1..] == rest
  {
  }

  // -- What the session makes of it ---------------------------------------------------------------------------

  /** Every order the page can send names each listed container exactly once. */
  lemma SessionAccepts(ids: seq<nat>, containers: seq<nat>, rows: seq<Row>, nextId: nat, nextRevision: nat)
    requires Rearranges(ids, containers) && TableOk(rows, nextId, nextRevision)
    requires |containers| == |rows| && forall k :: 0 <= k < |rows| ==> containers[k] == rows[k].id
    ensures Order.NamesEachOnce(ids, rows)
  {
    RearrangedLength(ids, containers);
    forall i | 0 <= i < |ids| ensures FindById(rows, ids[i]) < |rows| {
      assert ids[i] in containers;
      var k :| 0 <= k < |containers| && containers[k] == ids[i];
      FindsOwnId(rows, k, nextId, nextRevision);
    }
  }
}
