/**
 * The event factory of src/index.js: the event record, the catalog it is
 * built from, and the pure parts of `createEvent` and `getUnconfirmedEvents`.
 */
module Events {
  import opened Optional
  import opened Decimal
  import opened Subsequences

  /** One row of the event-type catalog: `{ code, symbol, desc }`. */
  datatype EventType = EventType(code: int, symbol: string, desc: string)

  datatype UserDef = UserDef(id: int, name: string)

  /**
   * The static reference data `createEvent` consults: the site identifier,
   * the event-type table (`configuration.events`) and the user list.
   */
  datatype Catalog = Catalog(site: string, eventTypes: seq<EventType>, users: seq<UserDef>)

  /** The definition passed as `reasonPoint`: a zone, a portal, or the synthetic `SYS` point. */
  datatype Origin = ZoneOrigin(zone: int) | PortalOrigin(portal: int) | SystemOrigin

  /** The `reason` block: the causing entity, its `type` and `family`, and the symbol as its value. */
  datatype Reason = Reason(origin: Origin, kind: string, family: string, value: string)

  datatype Trigger = Trigger(code: int, template: string)

  datatype UserRef = UserRef(id: int, name: string)

  /** An event as published; `dateTime`, `created` and the always-empty `points`/`extensions` are not kept. */
  datatype Event = Event(
    site: string,
    id: string,
    trigger: Trigger,
    reason: Option<Reason>,
    user: Option<UserRef>,
    operator: Option<int>)

  /** The `(code, symbol)` pair an accepted control operation hands to `createEvent`. */
  datatype Emission = Emission(code: int, symbol: string)

  // Event codes used by the control operations (the catalog's codes for these symbols).
  const EchoCode := 0
  const ArmCode := 100
  const DisarmCode := 101
  const TestStartCode := 110
  const TestEndCode := 111
  const ZoneBlockedCode := 120
  const AlarmRestoreCode := 201
  const PortalReleasedCode := 310
  const PortalEmergencyCode := 311
  const PortalRestoredCode := 312

  /**
   * The trigger template: the `desc` of the first catalog entry with this
   * code, or the symbol when there is none or its `desc` is empty
   * (`eventDef?.desc || symbol`).
   */
  function Template(types: seq<EventType>, code: int, symbol: string): (t: string)
    ensures (forall j :: 0 <= j < |types| ==> types[j].code != code) ==> t == symbol
    ensures forall i :: 0 <= i < |types| && types[i].code == code && (forall j :: 0 <= j < i ==> types[j].code != code)
              ==> t == (if types[i].desc != "" then types[i].desc else symbol)
  {
    match FirstIndex(types, (e: EventType) => e.code == code)
    case None => symbol
    case Some(i) => if types[i].desc != "" then types[i].desc else symbol
  }

  /**
   * The `user` block: absent for a missing or zero id; otherwise the id with
   * the name of the first user having it, or "Unknown".
   */
  function UserRefOf(users: seq<UserDef>, userId: Option<int>): (u: Option<UserRef>)
    ensures u.None? <==> userId.None? || userId.value == 0
    ensures u.Some? ==> u.value.id == userId.value
    ensures u.Some? && (forall j :: 0 <= j < |users| ==> users[j].id != userId.value) ==> u.value.name == "Unknown"
    ensures u.Some? && u.value.name != "Unknown" ==>
              exists j :: 0 <= j < |users| && users[j].id == userId.value && users[j].name == u.value.name
    ensures u.Some? ==>
              forall i :: 0 <= i < |users| && users[i].id == userId.value && (forall j :: 0 <= j < i ==> users[j].id != userId.value)
                ==> u.value.name == (if users[i].name != "" then users[i].name else "Unknown")
  {
    if userId.None? || userId.value == 0 then None
    else
      var name := match FirstIndex(users, (d: UserDef) => d.id == userId.value)
        case None => ""
        case Some(i) => users[i].name;
      Some(UserRef(userId.value, if name != "" then name else "Unknown"))
  }

  /**
   * The `reason` block built from `reasonPoint`: absent without one; otherwise
   * the point, its `type` ("SYSTEM" for the synthetic System point; zone and
   * portal definitions carry none, so "EVENT"), family "SYSTEM", and the
   * symbol as its value.
   */
  function ReasonFor(origin: Option<Origin>, symbol: string): (r: Option<Reason>)
    ensures r.Some? <==> origin.Some?
    ensures r.Some? ==> r.value.origin == origin.value && r.value.family == "SYSTEM" && r.value.value == symbol
    ensures r.Some? ==> (r.value.kind == "SYSTEM" <==> origin.value.SystemOrigin?)
    ensures r.Some? ==> r.value.kind in {"SYSTEM", "EVENT"}
  {
    match origin
    case None => None
    case Some(o) => Some(Reason(o, if o.SystemOrigin? then "SYSTEM" else "EVENT", "SYSTEM", symbol))
  }

  /**
   * The record `createEvent` builds when the counter stands at `n`: it is
   * named by `n`, typed by the code, and carries a reason exactly when a
   * point is given and a user exactly when a non-zero user id is given.
   */
  function NewEvent(cat: Catalog, n: nat, code: int, symbol: string, origin: Option<Origin>,
                    userId: Option<int>, operator: Option<int>): (e: Event)
    ensures ParseEventId(e.id) == Some(n) && e.site == cat.site && e.operator == operator
    ensures e.trigger.code == code && e.trigger.template == Template(cat.eventTypes, code, symbol)
    ensures e.reason == ReasonFor(origin, symbol) && (e.reason.Some? <==> origin.Some?)
    ensures e.user == UserRefOf(cat.users, userId) && (e.user.Some? <==> userId.Some? && userId.value != 0)
  {
    ParseEventIdRoundTrip(n);
    Event(cat.site, EventId(n), Trigger(code, Template(cat.eventTypes, code, symbol)),
          ReasonFor(origin, symbol), UserRefOf(cat.users, userId), operator)
  }

  /**
   * `getUnconfirmedEvents`: the logged events whose position is not marked
   * confirmed, in log order.
   */
  function Unconfirmed(events: seq<Event>, confirmed: set<nat>): (r: seq<Event>)
    ensures IsSubsequence(r, events)
    decreases |events|
  {
    if events == [] then []
    else
      var k := |events| - 1;
      var keep := k !in confirmed;
      var r := Unconfirmed(events[..k], confirmed) + (if keep then [events[k]] else []);
      assert events == events[..k] + [events[k]];
      IsSubsequenceAppend(Unconfirmed(events[..k], confirmed), events[..k], events[k], keep);
      r
  }

  /**
   * The unconfirmed events are exactly the logged events at positions not
   * marked confirmed.
   */
  lemma {:induction false} UnconfirmedMembers(events: seq<Event>, confirmed: set<nat>)
    ensures var r := Unconfirmed(events, confirmed);
            (forall e :: e in r ==> exists i :: 0 <= i < |events| && i !in confirmed && events[i] == e)
            && (forall i :: 0 <= i < |events| && i !in confirmed ==> events[i] in r)
    decreases |events|
  {
    if events != [] {
      var k := |events| - 1;
      var front := events[..k];
      UnconfirmedMembers(front, confirmed);
      var r := Unconfirmed(events, confirmed);
      assert r == Unconfirmed(front, confirmed) + (if k !in confirmed then [events[k]] else []);
      forall e | e in r
        ensures exists i :: 0 <= i < |events| && i !in confirmed && events[i] == e
      {
        if e in Unconfirmed(front, confirmed) {
          var i :| 0 <= i < |front| && i !in confirmed && front[i] == e;
          assert events[i] == e;
        } else {
          assert events[k] == e;
        }
      }
      forall i | 0 <= i < |events| && i !in confirmed
        ensures events[i] in r
      {
        if i < k {
          assert front[i] == events[i];
        }
      }
    }
  }

  /** With nothing confirmed, every logged event is unconfirmed. */
  lemma {:induction false} UnconfirmedNoneConfirmed(events: seq<Event>)
    ensures Unconfirmed(events, {}) == events
    decreases |events|
  {
    if events != [] {
      var k := |events| - 1;
      UnconfirmedNoneConfirmed(events[..k]);
      assert Unconfirmed(events, {}) == Unconfirmed(events[..k], {}) + [events[k]];
      assert events[..k] + [events[k]] == events;
    }
  }

  /** Once every logged position is confirmed, nothing is unconfirmed. */
  lemma {:induction false} UnconfirmedAllConfirmed(events: seq<Event>, confirmed: set<nat>)
    requires forall i :: 0 <= i < |events| ==> i in confirmed
    ensures Unconfirmed(events, confirmed) == []
    decreases |events|
  {
    if events != [] {
      UnconfirmedAllConfirmed(events[..|events| - 1], confirmed);
    }
  }
}
