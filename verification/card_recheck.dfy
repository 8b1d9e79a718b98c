/** The background recheck of the card behind a session
    (card_identity_recheck.cpp): when it runs, and when its answer counts as a
    removal. */
module CardRecheck {
  import opened Wrappers

  datatype Recheck = SameCard | DifferentCard | Unreadable | CredentialsRejected | Busy

  datatype Verdict = Present | Retry | Lost | Skipped

  // -- The trace of a run ------------------------------------------------------------------------

  /** `current` says that the session was still eligible and the card epoch had
      not changed since the check started. */
  datatype Event =
    | Started(at: int, epoch: nat)
    | Ended(at: int, result: Recheck, current: bool, verdict: Verdict)
    | Abandoned(at: int)
    | Stopped

  type Trace = seq<Event>

  /** The last result that said something about the card, since the session was
      last found ineligible, the card changed, or the card was given up. */
  function LastJudged(t: Trace): Option<Recheck> {
    if t == [] then None else JudgedAfter(LastJudged(t[..|t| - 1]), t[|t| - 1])
  }

  function JudgedAfter(before: Option<Recheck>, e: Event): Option<Recheck> {
    match e
    case Started(_, _) => before
    case Abandoned(_) => before
    case Stopped => None
    case Ended(_, result, current, verdict) =>
      if !current || verdict == Lost then None
      else if result == Busy then before
      else Some(result)
  }

  function StartedEpoch(t: Trace): nat {
    if t == [] then 0
    else if t[|t| - 1].Started? then t[|t| - 1].epoch
    else StartedEpoch(t[..|t| - 1])
  }

  /** What an answer means, given the last one that was judged. */
  function Meaning(last: Option<Recheck>, result: Recheck, current: bool): Verdict {
    if !current || result == Busy then Skipped
    else match result
      case SameCard => Present
      case DifferentCard => Lost
      case CredentialsRejected => Lost
      case Unreadable => if last == Some(Unreadable) then Lost else Retry
      case Busy => Skipped
  }

  /** Every verdict of the run means what its answer means. */
  ghost predicate Judges(t: Trace) {
    forall i :: 0 <= i < |t| && t[i].Ended? ==> t[i].verdict == Meaning(LastJudged(t[..i]), t[i].result, t[i].current)
  }

  /** No check starts while another is under way. */
  ghost predicate OneAtATime(t: Trace) {
    forall i :: 0 < i < |t| && t[i].Started? ==> !t[i - 1].Started?
  }

  predicate Ends(e: Event) {
    e.Ended? || e.Abandoned?
  }

  /** A check starts at least this long after any earlier one was over. */
  ghost predicate Spaced(t: Trace, gap: nat) {
    forall i, j :: 0 <= i < j < |t| && Ends(t[i]) && t[j].Started? ==> t[i].at + gap <= t[j].at
  }

  ghost predicate Sound(t: Trace, gap: nat) {
    Judges(t) && OneAtATime(t) && Spaced(t, gap)
  }

  /** Nothing was still going on after this time. */
  ghost predicate OverBy(t: Trace, time: int) {
    forall i :: 0 <= i < |t| && Ends(t[i]) ==> t[i].at <= time
  }

  predicate UnderWay(t: Trace) {
    t != [] && t[|t| - 1].Started?
  }

  /** What one more event needs to keep a run sound. */
  lemma SoundOneMore(t: Trace, e: Event, gap: nat)
    requires Sound(t, gap)
    requires e.Ended? ==> e.verdict == Meaning(LastJudged(t), e.result, e.current)
    requires e.Started? ==> !UnderWay(t) && OverBy(t, e.at - gap)
    ensures Sound(t + [e], gap)
    ensures LastJudged(t + [e]) == JudgedAfter(LastJudged(t), e)
    ensures StartedEpoch(t + [e]) == if e.Started? then e.epoch else StartedEpoch(t)
    ensures forall time :: OverBy(t, time) && (Ends(e) ==> e.at <= time) ==> OverBy(t + [e], time)
  {
    var u := t + [e];
    assert u[..|t|] == t;
    forall i | 0 <= i < |u| && u[i].Ended? ensures u[i].verdict == Meaning(LastJudged(u[..i]), u[i].result, u[i].current) {
      assert u[..i] == t[..i];
      assert t[..|t|] == t;
    }
  }

  /** One unreadable answer never gives up a card: an earlier one was answered
      with a retry, and nothing else was learned in between. */
  lemma UnreadableIsRetriedFirst(t: Trace, i: nat) returns (j: nat)
    requires Judges(t) && i < |t| && t[i].Ended? && t[i].verdict == Lost && t[i].result == Unreadable
    ensures j < i && t[j].Ended? && t[j].result == Unreadable && t[j].verdict == Retry
    ensures forall k :: j < k < i ==> !t[k].Stopped? && (t[k].Ended? ==> t[k].result == Busy && t[k].current)
  {
    j := WhereJudged(t[..i]);
    assert t[..i][..j] == t[..j];
    assert t[j].verdict == Meaning(LastJudged(t[..j]), t[j].result, t[j].current);
    forall k | j < k < i ensures !t[k].Stopped? && (t[k].Ended? ==> t[k].result == Busy && t[k].current) {
      assert t[..i][k] == t[k];
    }
  }

  /** The event behind `LastJudged`. */
  lemma {:induction false} WhereJudged(t: Trace) returns (j: nat)
    requires LastJudged(t).Some?
    ensures j < |t| && t[j].Ended? && t[j].current && t[j].verdict != Lost && Some(t[j].result) == LastJudged(t)
    ensures forall k :: j < k < |t| ==> !t[k].Stopped? && (t[k].Ended? ==> t[k].result == Busy && t[k].current)
  {
    var last := t[|t| - 1];
    if last.Ended? && last.result != Busy {
      j := |t| - 1;
    } else {
      j := WhereJudged(t[..|t| - 1]);
    }
  }

  // -- The policy -----------------------------------------------------------------------------------

  class RecheckPolicy {
    var unreadablePending: bool

    constructor ()
      ensures !unreadablePending
    {
      unreadablePending := false;
    }

    method Observe(result: Recheck) returns (v: Verdict)
      modifies this
      ensures v == Meaning(if old(unreadablePending) then Some(Unreadable) else None, result, true)
      ensures unreadablePending == if result == Busy then old(unreadablePending) else v == Retry
    {
      if result == SameCard {
        unreadablePending := false;
        return Present;
      }
      if result == Busy {
        return Skipped;
      }
      if result == Unreadable && !unreadablePending {
        unreadablePending := true;
        return Retry;
      }
      unreadablePending := false;
      return Lost;
    }

    method Reset()
      modifies this
      ensures !unreadablePending
    {
      unreadablePending := false;
    }
  }

  // -- The schedule ---------------------------------------------------------------------------------

  class RecheckSchedule {
    const interval: nat
    const retry: nat
    const policy: RecheckPolicy
    var next: Option<int>
    var startedEpoch: nat
    var inFlight: bool
    ghost var trace: Trace
    /** The latest time the clock showed. */
    ghost var clock: int

    ghost function Gap(): nat {
      if interval < retry then interval else retry
    }

    ghost predicate Valid()
      reads this, policy
    {
      && Sound(trace, Gap())
      && (policy.unreadablePending <==> LastJudged(trace) == Some(Unreadable))
      && (inFlight <==> UnderWay(trace))
      && startedEpoch == StartedEpoch(trace)
      && OverBy(trace, clock)
      && (next.Some? && !inFlight ==> OverBy(trace, next.value - Gap()))
    }

    constructor (interval: nat, retry: nat, ghost now: int)
      ensures Valid() && trace == [] && clock == now && !inFlight && next.None?
      ensures this.interval == interval && this.retry == retry && fresh(policy)
    {
      this.interval, this.retry := interval, retry;
      policy := new RecheckPolicy();
      next, startedEpoch, inFlight, trace, clock := None, 0, false, [], now;
    }

    /** Starts a check when one is due. */
    method StartDue(now: int, eligible: bool, epoch: nat) returns (start: bool)
      requires Valid() && clock <= now
      modifies this, policy
      ensures Valid() && clock == now
      ensures start <==> !old(inFlight) && eligible && old(next).Some? && old(next).value <= now
      ensures trace == if start then old(trace) + [Started(now, epoch)]
                       else if !old(inFlight) && !eligible then old(trace) + [Stopped] else old(trace)
    {
      clock := now;
      if inFlight {
        return false;
      }
      if !eligible {
        Stop();
        return false;
      }
      if next.None? {
        next := Some(now + interval);
        return false;
      }
      if now < next.value {
        return false;
      }
      Begin(epoch);
      return true;
    }

    /** Forgets what was learned while there is no session to check for. */
    method Stop()
      requires Valid() && !inFlight
      modifies this`next, this`trace, policy
      ensures Valid() && trace == old(trace) + [Stopped]
    {
      policy.Reset();
      next := None;
      SoundOneMore(trace, Stopped, Gap());
      trace := trace + [Stopped];
    }

    method Begin(epoch: nat)
      requires Valid() && !inFlight && next.Some? && next.value <= clock
      modifies this`inFlight, this`startedEpoch, this`trace
      ensures Valid() && trace == old(trace) + [Started(clock, epoch)]
    {
      inFlight, startedEpoch := true, epoch;
      SoundOneMore(trace, Started(clock, epoch), Gap());
      trace := trace + [Started(clock, epoch)];
    }

    /** Judges an answer; `lost` means the card is to be treated as removed. */
    method Finish(result: Recheck, now: int, eligible: bool, epoch: nat) returns (v: Verdict)
      requires Valid() && clock <= now
      modifies this, policy
      ensures Valid() && clock == now && !inFlight
      ensures trace == old(trace) + [Ended(now, result, eligible && epoch == StartedEpoch(old(trace)), v)]
      ensures v == Lost <==>
        && eligible && epoch == StartedEpoch(old(trace))
        && (result == DifferentCard || result == CredentialsRejected
            || (result == Unreadable && LastJudged(old(trace)) == Some(Unreadable)))
    {
      clock := now;
      inFlight := false;
      var current := eligible && epoch == startedEpoch;
      v := Judge(result, now, current);
      SoundOneMore(trace, Ended(now, result, current, v), Gap());
      trace := trace + [Ended(now, result, current, v)];
    }

    /** The verdict on an answer, and when the next check is due. */
    method Judge(result: Recheck, now: int, current: bool) returns (v: Verdict)
      modifies this`next, policy
      ensures v == Meaning(if old(policy.unreadablePending) then Some(Unreadable) else None, result, current)
      ensures policy.unreadablePending <==> current && (if result == Busy then old(policy.unreadablePending) else v == Retry)
      ensures next == if !current || v == Lost then None else Some(now + if v == Retry then retry else interval)
    {
      if !current {
        policy.Reset();
        next := None;
        return Skipped;
      }
      v := policy.Observe(result);
      match v
      case Lost =>
        policy.Reset();
        next := None;
      case Retry =>
        next := Some(now + retry);
      case _ =>
        next := Some(now + interval);
    }

    /** The check could not be started after all. */
    method Abandon(now: int)
      requires Valid() && clock <= now
      modifies this
      ensures Valid() && clock == now && !inFlight
      ensures trace == old(trace) + [Abandoned(now)]
    {
      clock := now;
      inFlight := false;
      next := Some(now + interval);
      SoundOneMore(trace, Abandoned(now), Gap());
      trace := trace + [Abandoned(now)];
    }
  }
}
