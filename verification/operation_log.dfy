/** The operation history of a session (card_login_mount_session.cpp:1507-1576,
    3733-3760): a plain list of what happened, the ring buffer that keeps only
    its tail, and the deferral used while an import may still be undone. */
module OperationLog {
  datatype Kind = SessionOpened | ContainerCreated | ContainerMounted | ContainerUnmounted

  datatype Entry = Entry(kind: Kind, succeeded: bool, name: string, letter: char)

  datatype Event = Event(sequence: nat, entry: Entry)

  const NO_LETTER := '\0'

  /** `all` is everything recorded since the last clear. */
  datatype Log = Log(all: seq<Entry>, enabled: bool, deferring: bool,
                     held: seq<Entry>, discarded: seq<string>)
  {
    function Record(e: Entry): Log {
      if !enabled then this
      else if deferring then this.(held := held + [e])
      else this.(all := all + [e])
    }

    function RecordAll(es: seq<Entry>): Log
      decreases |es|
    {
      if es == [] then this else Record(es[0]).RecordAll(es[1..])
    }

    function Clear(): Log {
      this.(all := [])
    }

    function Defer(): Log {
      this.(deferring := true, held := [], discarded := [])
    }

    function Discard(name: string): Log {
      if deferring then this.(discarded := discarded + [name]) else this
    }

    function Settle(keep: bool): Log {
      this.(deferring := false, held := [], discarded := [])
          .RecordAll(Kept(held, keep, discarded))
    }

    /** What the history shows when it has room for `capacity` events. */
    function Shown(capacity: nat): (r: seq<Event>)
      ensures |r| == if |all| < capacity then |all| else capacity
      ensures forall i :: 0 <= i < |r| ==>
        r[i] == Event(|all| - |r| + i + 1, all[|all| - |r| + i])
    {
      var n := if |all| < capacity then |all| else capacity;
      seq(n, i requires 0 <= i < n => Event(|all| - n + i + 1, all[|all| - n + i]))
    }
  }

  /** The entries whose name was not discarded, in order. */
  function Surviving(es: seq<Entry>, discarded: seq<string>): (r: seq<Entry>)
    ensures forall e :: e in r <==> e in es && e.name !in discarded
  {
    if es == [] then []
    else (if es[0].name in discarded then [] else [es[0]]) + Surviving(es[1..], discarded)
  }

  lemma NothingSurvives(es: seq<Entry>, discarded: seq<string>)
    requires forall e :: e in es ==> e.name in discarded
    ensures Surviving(es, discarded) == []
  {
  }

  /** What settling records: everything, or what no discarded container said
      about itself. */
  function Kept(es: seq<Entry>, keep: bool, discarded: seq<string>): seq<Entry> {
    if keep then es else Surviving(es, discarded)
  }

  lemma RecordAllAppends(l: Log, es: seq<Entry>)
    ensures l.enabled && !l.deferring ==> l.RecordAll(es) == l.(all := l.all + es)
    ensures l.enabled && l.deferring ==> l.RecordAll(es) == l.(held := l.held + es)
    ensures !l.enabled ==> l.RecordAll(es) == l
    decreases |es|
  {
    if es == [] {
      assert l.all + es == l.all && l.held + es == l.held;
    } else {
      RecordAllAppends(l.Record(es[0]), es[1..]);
      assert [es[0]] + es[1..] == es;
      assert l.all + [es[0]] + es[1..] == l.all + es;
      assert l.held + [es[0]] + es[1..] == l.held + es;
    }
  }

  lemma SettledIsNotDeferring(l: Log, keep: bool)
    ensures !l.Settle(keep).deferring
  {
    RecordAllAppends(l.(deferring := false, held := [], discarded := []), Kept(l.held, keep, l.discarded));
  }

  // -- Deferral --------------------------------------------------------------------

  /** What may happen between deferring and settling. */
  datatype Step = Happened(entry: Entry) | SetEnabled(on: bool) | Discarded(name: string)

  function Apply(l: Log, s: Step): Log {
    match s
    case Happened(e) => l.Record(e)
    case SetEnabled(on) => l.(enabled := on)
    case Discarded(name) => l.Discard(name)
  }

  function Run(l: Log, steps: seq<Step>): Log {
    if steps == [] then l
    else Apply(Run(l, steps[..|steps| - 1]), steps[|steps| - 1])
  }

  /** While deferring, exactly what would have been recorded is held back. */
  lemma {:induction false} HeldIsWhatWouldBeRecorded(l: Log, steps: seq<Step>)
    requires !l.deferring
    ensures var a, b := Run(l.Defer(), steps), Run(l, steps);
            && a.deferring && !b.deferring && a.enabled == b.enabled
            && a.all == l.all && b.all == l.all + a.held
            && b.held == l.held && b.discarded == l.discarded
  {
    if steps == [] {
      assert l.all + [] == l.all;
    } else {
      HeldIsWhatWouldBeRecorded(l, steps[..|steps| - 1]);
    }
  }

  /** Deferring and keeping is invisible exactly when logging is on at the end
      or nothing was held back. */
  lemma DeferralIsInvisible(l: Log, steps: seq<Step>)
    requires !l.deferring && l.held == [] && l.discarded == []
    ensures var a, b := Run(l.Defer(), steps), Run(l, steps);
            a.Settle(true) == b <==> a.enabled || a.held == []
  {
    var a, b := Run(l.Defer(), steps), Run(l, steps);
    HeldIsWhatWouldBeRecorded(l, steps);
    RecordAllAppends(a.(deferring := false, held := [], discarded := []), a.held);
  }

  /** Undoing drops exactly the entries that bear a discarded name; everything
      else that happened meanwhile is kept, in order. */
  lemma UndoingKeepsTheRest(l: Log, steps: seq<Step>)
    requires !l.deferring && Run(l, steps).enabled
    ensures var a, b := Run(l.Defer(), steps), Run(l, steps);
            && l.all <= b.all
            && a.Settle(false).all == l.all + Surviving(b.all[|l.all|..], a.discarded)
  {
    var a, b := Run(l.Defer(), steps), Run(l, steps);
    HeldIsWhatWouldBeRecorded(l, steps);
    assert b.all[|l.all|..] == a.held;
    RecordAllAppends(a.(deferring := false, held := [], discarded := []), Surviving(a.held, a.discarded));
  }

  // -- The ring buffer ---------------------------------------------------------------

  /** Where the i-th oldest event sits in a ring of `n` slots. */
  function Slot(start: nat, i: nat, n: nat): (slot: nat)
    requires start < n && i <= n
    ensures slot < n
  {
    if start + i < n then start + i else start + i - n
  }

  lemma WrapsOnce(x: nat, n: nat)
    requires x < 2 * n
    ensures x % n == if x < n then x else x - n
  {
  }

  /** One step past the end starts over. */
  function Wrapped(x: nat, n: nat): (slot: nat)
    requires x < 2 * n
    ensures slot == if x < n then x else x - n
  {
    WrapsOnce(x, n);
    x % n
  }

  /** The ring holds the last `count` events of `all`, oldest at `start`. */
  ghost predicate Tail(ring: seq<Event>, start: nat, count: nat, all: seq<Entry>) {
    && start < |ring|
    && count == (if |all| < |ring| then |all| else |ring|)
    && (count < |ring| ==> start == 0)
    && forall i :: 0 <= i < count ==>
         ring[Slot(start, i, |ring|)] == Event(|all| - count + i + 1, all[|all| - count + i])
  }

  /** Writing over the oldest slot of a full ring, or the next free one, keeps
      the tail. */
  lemma TailAdvances(ring: seq<Event>, start: nat, count: nat, all: seq<Entry>, e: Entry)
    requires Tail(ring, start, count, all)
    ensures var n := |ring|;
            var full := count == n;
            && Tail(ring[(if full then start else Slot(start, count, n)) := Event(|all| + 1, e)],
                    if full then Slot(start, 1, n) else start, if full then count else count + 1, all + [e])
  {
    var n := |ring|;
    var full := count == n;
    var dest := if full then start else Slot(start, count, n);
    var ring', all' := ring[dest := Event(|all| + 1, e)], all + [e];
    var start', count' := if full then Slot(start, 1, n) else start, if full then count else count + 1;
    forall i | 0 <= i < count'
      ensures ring'[Slot(start', i, n)] == Event(|all'| - count' + i + 1, all'[|all'| - count' + i])
    {
      if i == count' - 1 {
        assert Slot(start', i, n) == dest;
      } else {
        var j := if full then i + 1 else i;
        assert Slot(start', i, n) == Slot(start, j, n) != dest;
      }
    }
  }

  const BLANK := Event(0, Entry(SessionOpened, true, "", NO_LETTER))

  class OperationHistory {
    const events: array<Event>
    var start: nat
    var count: nat
    var nextSequence: nat
    var enabled: bool
    var deferring: bool
    var held: seq<Entry>
    var discarded: seq<string>
    ghost var all: seq<Entry>

    ghost predicate Valid()
      reads this, events
    {
      nextSequence == |all| + 1 && Tail(events[..], start, count, all)
    }

    ghost function View(): Log
      reads this
    {
      Log(all, enabled, deferring, held, discarded)
    }

    constructor (capacity: nat, loggingEnabled: bool)
      requires 0 < capacity
      ensures Valid() && fresh(events) && events.Length == capacity
      ensures View() == Log([], loggingEnabled, false, [], [])
    {
      events := new Event[capacity](_ => BLANK);
      start, count, nextSequence := 0, 0, 1;
      enabled, deferring, held, discarded, all := loggingEnabled, false, [], [], [];
    }

    method Record(e: Entry)
      requires Valid()
      modifies this`start, this`count, this`nextSequence, this`held, this`all, events
      ensures Valid() && View() == old(View()).Record(e)
    {
      if !enabled {
        return;
      }
      if deferring {
        held := held + [e];
        return;
      }
      TailAdvances(events[..], start, count, all, e);
      var full := count == events.Length;
      var slot := Wrapped(start + count, events.Length);
      var destination := if full then start else slot;
      events[destination] := Event(nextSequence, e);
      if full {
        start := Wrapped(start + 1, events.Length);
      } else {
        count := count + 1;
      }
      nextSequence := nextSequence + 1;
      all := all + [e];
    }

    method History() returns (r: seq<Event>)
      requires Valid()
      ensures r == View().Shown(events.Length)
    {
      r := [];
      for i := 0 to count
        invariant |r| == i
        invariant forall j :: 0 <= j < i ==> r[j] == events[Slot(start, j, events.Length)]
      {
        var slot := Wrapped(start + i, events.Length);
        r := r + [events[slot]];
      }
    }

    method Clear()
      requires Valid()
      modifies this`start, this`count, this`nextSequence, this`all, events
      ensures Valid() && View() == old(View()).Clear()
      ensures forall i :: 0 <= i < events.Length ==> events[i] == BLANK
    {
      for i := 0 to events.Length
        invariant forall j :: 0 <= j < i ==> events[j] == BLANK
      {
        events[i] := BLANK;
      }
      start, count, nextSequence, all := 0, 0, 1, [];
    }

    method Defer() returns (accepted: bool)
      requires Valid()
      modifies this`deferring, this`held, this`discarded
      ensures Valid() && accepted == !old(deferring)
      ensures View() == if accepted then old(View()).Defer() else old(View())
    {
      if deferring {
        return false;
      }
      held, discarded, deferring := [], [], true;
      return true;
    }

    method Settle(keep: bool)
      requires Valid()
      modifies this`start, this`count, this`nextSequence, this`deferring, this`held, this`discarded, this`all, events
      ensures Valid() && View() == old(View()).Settle(keep)
    {
      var pending, dropped := held, discarded;
      held, discarded, deferring := [], [], false;
      ghost var base := View();
      var i := 0;
      while i < |pending|
        invariant i <= |pending| && Valid()
        invariant View() == base.RecordAll(Kept(pending[..i], keep, dropped))
      {
        KeptSplits(pending[..i], pending[i], keep, dropped);
        RecordAllSplits(base, Kept(pending[..i], keep, dropped), pending[i]);
        assert pending[..i + 1] == pending[..i] + [pending[i]];
        if keep || pending[i].name !in dropped {
          Record(pending[i]);
        }
        i := i + 1;
      }
      assert pending[..i] == pending;
    }
  }

  lemma KeptSplits(es: seq<Entry>, e: Entry, keep: bool, discarded: seq<string>)
    ensures Kept(es + [e], keep, discarded)
         == if keep || e.name !in discarded then Kept(es, keep, discarded) + [e] else Kept(es, keep, discarded)
  {
    if !keep && es != [] {
      assert (es + [e])[1..] == es[1..] + [e];
      KeptSplits(es[1..], e, keep, discarded);
    } else if es == [] {
      assert es + [e] == [e] && [e][1..] == [];
    }
  }

  lemma RecordAllSplits(l: Log, es: seq<Entry>, e: Entry)
    ensures l.RecordAll(es + [e]) == l.RecordAll(es).Record(e)
  {
    RecordAllAppends(l, es + [e]);
    RecordAllAppends(l, es);
  }
}
