/** What the arrival and the removal of the card set off: the mounted volumes,
    the insertion on the entry page and the authentication
    (card_presence_controller.cpp, card_device_lifecycle_controller.cpp). */
module CardLifecycle {
  import opened Wrappers
  import opened ContainerTable
  import opened VaultRuntime
  import opened CardAuthentication
  import opened Session
  import opened SessionRelease
  import Entry = CardEntry

  datatype Transition =
    | NoChange
    | CardAvailable
    | CardUnavailable
    | Unmounted
    | ForceUnmounted
    | SessionRemains

  class PresenceController {
    const session: SessionCore
    var present: bool

    constructor (session: SessionCore, present: bool)
      ensures this.session == session && this.present == present
    {
      this.session, this.present := session, present;
    }

    method HandleArrival() returns (t: Transition)
      modifies this
      ensures present && t == if old(present) then NoChange else CardAvailable
    {
      if present {
        return NoChange;
      }
      present := true;
      return CardAvailable;
    }

    /** The first removal takes every volume down, or says that one remains. A
        session with nothing mounted is left as it is, its secrets included. */
    method HandleRemoval() returns (t: Transition, ghost made: seq<Attempt>)
      requires session.Valid()
      modifies this, session`rows, session`login, session`hidden, session`decoyOuter, session`candidates,
               session`log, session.rt`volumes, session.rt`attempts
      ensures session.Valid() && Evolves(old(session.rows), session.nextRevision, session.rows, session.nextRevision)
      ensures !present
      ensures t == NoChange <==> !old(present)
      ensures t == CardUnavailable <==> old(present) && !AnyMounted(old(session.rows))
      ensures t == SessionRemains <==> old(present) && AnyMounted(session.rows)
      ensures session.rt.attempts == old(session.rt.attempts) + made
      ensures if old(present) && AnyMounted(old(session.rows)) then
                && AllAsked(old(session.rows), session.rows, made)
                && session.login == "" && session.hidden.None? && session.decoyOuter.None? && session.candidates == []
                && session.log == old(session.log).Clear()
              else
                && made == [] && session.rows == old(session.rows) && session.log == old(session.log)
                && session.login == old(session.login) && session.hidden == old(session.hidden)
    {
      made := [];
      if !present {
        return NoChange, [];
      }
      present := false;
      if !session.AnyRowMounted() {
        return CardUnavailable, [];
      }
      var forced;
      forced, made := ForceUnmountActive(session);
      if forced.Err? || session.AnyRowMounted() {
        return SessionRemains, made;
      }
      return if forced.value then ForceUnmounted else Unmounted, made;
    }
  }

  /** Secrets outlive a removal exactly when there was nothing to take down: the
      release that drops them is part of the forced unmount. */
  method RemovalAndSecrets(p: PresenceController) returns (t: Transition)
    requires p.session.Valid() && p.present && p.session.login != ""
    modifies p, p.session`rows, p.session`login, p.session`hidden, p.session`decoyOuter, p.session`candidates,
             p.session`log, p.session.rt`volumes, p.session.rt`attempts
    ensures p.session.login != "" <==> !AnyMounted(old(p.session.rows))
    ensures p.session.login != "" <==> t == CardUnavailable
  {
    ghost var made;
    t, made := p.HandleRemoval();
  }

  /** What the surrounding program is told. */
  datatype DeviceTransition = DeviceTransition(presence: Transition, route: Option<Entry.Route>, entryChanged: bool)

  class DeviceLifecycle {
    const presence: PresenceController
    const entry: Entry.EntryController
    const auth: Authentication

    constructor (presence: PresenceController, entry: Entry.EntryController, auth: Authentication)
      ensures this.presence == presence && this.entry == entry && this.auth == auth
    {
      this.presence, this.entry, this.auth := presence, entry, auth;
    }

    /** A card that arrives starts from nothing: no authentication, a fresh
        reading. A second arrival of a card already there changes nothing. */
    method HandleArrival() returns (d: DeviceTransition)
      requires entry.Valid()
      modifies presence, entry, auth
      ensures entry.Valid() && presence.present
      ensures d.route == entry.route
      ensures if old(presence.present) then
                && d.presence == NoChange && !d.entryChanged
                && entry.route == old(entry.route) && entry.context == old(entry.context) && entry.trace == old(entry.trace)
                && entry.resetTarget == old(entry.resetTarget) && auth.root == old(auth.root)
              else
                && d.presence == CardAvailable && d.entryChanged
                && !auth.Authenticated() && !entry.resetTarget && entry.route.Some?
                && entry.trace == old(entry.trace) + [Entry.Interrupted]
      ensures auth.generation == old(auth.generation)
    {
      var t := presence.HandleArrival();
      if t != CardAvailable {
        return DeviceTransition(t, entry.route, false);
      }
      auth.Clear();
      var route := entry.HandleArrival();
      return DeviceTransition(t, Some(route), true);
    }

    /** A card that is there but was not read leaves the page without a card. */
    method HandleUninspectedArrival() returns (d: DeviceTransition)
      requires entry.Valid()
      modifies presence, entry, auth
      ensures entry.Valid() && presence.present
      ensures d.route == entry.route && (d.entryChanged <==> !old(presence.present))
      ensures !old(presence.present) ==> !auth.Authenticated() && entry.route.None? && entry.context.None? && !entry.resetTarget
      ensures old(presence.present) ==> entry.route == old(entry.route) && auth.root == old(auth.root)
    {
      var t := presence.HandleArrival();
      if t == CardAvailable {
        auth.Clear();
        entry.HandleRemoval();
      }
      return DeviceTransition(t, entry.route, t == CardAvailable);
    }

    /** After a removal nothing is authenticated and no reset is held, whatever
        the volumes did; the answer says whether one of them remains. */
    method HandleRemoval() returns (d: DeviceTransition, ghost made: seq<Attempt>)
      requires entry.Valid() && presence.session.Valid()
      modifies presence, entry, auth,
               presence.session`rows, presence.session`login, presence.session`hidden, presence.session`decoyOuter,
               presence.session`candidates, presence.session`log, presence.session.rt`volumes, presence.session.rt`attempts
      ensures entry.Valid() && presence.session.Valid() && !presence.present
      ensures !auth.Authenticated() && entry.route.None? && entry.context.None? && !entry.resetTarget
      ensures d.route.None? && (d.entryChanged <==> old(entry.route).Some?)
      ensures d.presence == SessionRemains <==> old(presence.present) && AnyMounted(presence.session.rows)
      ensures old(presence.present) && AnyMounted(old(presence.session.rows)) ==>
        && AllAsked(old(presence.session.rows), presence.session.rows, made)
        && presence.session.rt.attempts == old(presence.session.rt.attempts) + made
        && presence.session.login == ""
      ensures old(presence.present) && d.presence != SessionRemains ==> presence.session.rt.volumes <= presence.session.rt.abandoned
    {
      var changed := entry.route.Some?;
      entry.HandleRemoval();
      auth.Clear();
      var t;
      t, made := presence.HandleRemoval();
      NothingLeft(presence.session.rows);
      return DeviceTransition(t, None, changed), made;
    }

    lemma NothingLeft(rows: seq<Row>)
      ensures !AnyMounted(rows) ==> MountedLetters(rows) == {}
    {
    }
  }
}
