/**
 * The controller of src/index.js as the program runs it: one object whose
 * fields the resolvers update in place, the event log `publishEvent`
 * appends to, and the set of live subscriptions, each with its own FIFO
 * queue. Every resolver is proved against its function in ControllerState.
 */
module Controller {
  import opened Optional
  import opened Replies
  import opened Events
  import opened ControllerState
  import Zones
  import Portals

  /** One `events` subscription: the queue its callback fills and `next` drains. */
  class Subscription {
    var queue: seq<Event>
    /** How many events were logged when it subscribed. */
    ghost var joined: nat
    /** What `next` has handed out so far. */
    ghost var received: seq<Event>

    constructor (at: nat)
      ensures queue == [] && joined == at && received == []
    {
      queue := [];
      joined := at;
      received := [];
    }

    /** The subscription's callback: the event waits in the queue until `next` takes it. */
    method Deliver(e: Event)
      modifies this`queue
      ensures queue == old(queue) + [e]
    {
      queue := queue + [e];
    }
  }

  /** A non-empty set has an element. */
  lemma HasElement(s: set<int>)
    requires s != {}
    ensures exists y :: y in s
  {
    if forall y :: y !in s {
      assert false;
    }
  }

  /** Some element of a non-empty set: the next entry a `for..of` over a map visits. */
  method Pick(s: set<int>) returns (x: int)
    requires s != {}
    ensures x in s
  {
    HasElement(s);
    x :| x in s;
  }

  class Controller {
    /** The reference data `createEvent` reads: site id, event-type table, users. */
    const catalog: Catalog
    var zones: map<int, Zones.ZoneState>
    var portals: map<int, Portals.PortalState>
    var apbSuspended: bool
    var events: seq<Event>
    var eventIdCounter: nat
    var confirmed: set<nat>
    var tokenTTL: int
    /** The label points of `state.points`. */
    var points: map<PointKey, PointValue>
    /** The callbacks of the live subscriptions. */
    var subscribers: set<Subscription>

    /** The runtime state as a value. */
    function Snapshot(): Store
      reads this
    {
      Store(zones, portals, apbSuspended, events, eventIdCounter, confirmed, tokenTTL)
    }

    /**
     * The store invariant, and for every live subscription: what `next` has
     * handed out followed by what is still queued is exactly the events
     * published since it subscribed, in publish order.
     */
    ghost predicate Valid()
      reads this, subscribers
    {
      && Wf(Snapshot())
      && forall s :: s in subscribers ==> s.joined <= |events| && s.received + s.queue == events[s.joined..]
    }

    /**
     * Between two states: the same subscriptions are live, and each has had
     * exactly the newly published events appended to its queue.
     */
    twostate predicate Delivered()
      reads this, subscribers
    {
      && subscribers == old(subscribers)
      && |old(events)| <= |events|
      && forall s :: s in subscribers ==>
           && s.joined == old(s.joined) && s.received == old(s.received)
           && s.queue == old(s.queue) + events[|old(events)|..]
    }

    /** The process start: the given zones and portals in their initial state, no events, no subscriptions. */
    constructor (cat: Catalog, zoneIds: set<int>, portalIds: set<int>)
      ensures Valid() && catalog == cat
      ensures Snapshot() == Init(zoneIds, portalIds)
      ensures subscribers == {} && points == map[]
    {
      catalog := cat;
      zones := map id | id in zoneIds :: Zones.Initial;
      portals := map id | id in portalIds :: Portals.Initial;
      apbSuspended := false;
      events := [];
      eventIdCounter := 1;
      confirmed := {};
      tokenTTL := DefaultTokenTTL;
      points := map[];
      subscribers := {};
    }

    /** `publishEvent`: append to the log, then hand the event to every live subscription. */
    method PublishEvent(e: Event)
      modifies this`events, subscribers
      ensures events == old(events) + [e]
      ensures forall s :: s in subscribers ==>
                s.queue == old(s.queue) + [e] && s.joined == old(s.joined) && s.received == old(s.received)
    {
      events := events + [e];
      var pending := subscribers;
      while pending != {}
        invariant events == old(events) + [e]
        invariant pending <= subscribers
        invariant forall s :: s in subscribers && s !in pending ==> s.queue == old(s.queue) + [e]
        invariant forall s :: s in pending ==> s.queue == old(s.queue)
        invariant forall s :: s in subscribers ==> s.joined == old(s.joined) && s.received == old(s.received)
        decreases pending
      {
        var s :| s in pending;
        s.Deliver(e);
        pending := pending - {s};
      }
    }

    /** `createEvent`: stamp the next id, advance the counter, publish. */
    method CreateEvent(code: int, symbol: string, origin: Option<Origin>, userId: Option<int>, operator: Option<int>)
      returns (e: Event)
      requires Valid()
      modifies this, subscribers
      ensures Valid() && Delivered() && points == old(points)
      ensures (e, Snapshot()) == ControllerState.CreateEvent(catalog, old(Snapshot()), code, symbol, origin, userId, operator)
    {
      e := NewEvent(catalog, eventIdCounter, code, symbol, origin, userId, operator);
      eventIdCounter := eventIdCounter + 1;
      PublishEvent(e);
      forall s | s in subscribers
        ensures s.received + s.queue == events[s.joined..]
      {
        assert events[s.joined..] == old(events)[s.joined..] + [e];
      }
      assert events[|old(events)|..] == [e];
    }

    /** `controlZone` (src/index.js:331-354). */
    method ControlZone(zone: int, override: bool, operator: Option<int>) returns (r: Reply)
      requires Valid()
      modifies this, subscribers
      ensures Valid() && Delivered() && points == old(points)
      ensures (r, Snapshot()) == ApplyZone(catalog, old(Snapshot()), zone, Zones.ControlCmd(override), operator)
    {
      if zone !in zones {
        return Unknown;
      }
      var z := zones[zone];
      if z.armed {
        zones := zones[zone := z.(armed := false, alarm := false)];
        var _ := CreateEvent(DisarmCode, "DISARM", Some(ZoneOrigin(zone)), None, operator);
        return ZoneDisarmed;
      }
      if z.blocked && !override {
        return BlockedSensor;
      }
      zones := zones[zone := z.(armed := true)];
      var _ := CreateEvent(ArmCode, "ARM", Some(ZoneOrigin(zone)), None, operator);
      return ZoneArmed;
    }

    /** `restoreZone` (src/index.js:356-369). */
    method RestoreZone(zone: int, operator: Option<int>) returns (r: Reply)
      requires Valid()
      modifies this, subscribers
      ensures Valid() && Delivered() && points == old(points)
      ensures (r, Snapshot()) == ApplyZone(catalog, old(Snapshot()), zone, Zones.RestoreCmd, operator)
    {
      if zone !in zones {
        return Unknown;
      }
      var z := zones[zone];
      if !z.alarm {
        return AlarmNotActive;
      }
      zones := zones[zone := z.(alarm := false)];
      var _ := CreateEvent(AlarmRestoreCode, "ALARM_RESTORE", Some(ZoneOrigin(zone)), None, operator);
      return Restored;
    }

    /** `testZone` (src/index.js:371-390), the toggling variant. */
    method TestZone(zone: int, operator: Option<int>) returns (r: Reply)
      requires Valid()
      modifies this, subscribers
      ensures Valid() && Delivered() && points == old(points)
      ensures (r, Snapshot()) == ApplyZone(catalog, old(Snapshot()), zone, Zones.TestCmd, operator)
    {
      if zone !in zones {
        return Unknown;
      }
      var z := zones[zone];
      if z.armed {
        return DisarmRequired;
      }
      if z.testing {
        zones := zones[zone := z.(testing := false)];
        var _ := CreateEvent(TestEndCode, "TEST_END", Some(ZoneOrigin(zone)), None, operator);
        return ZoneTestEnded;
      }
      zones := zones[zone := z.(testing := true)];
      var _ := CreateEvent(TestStartCode, "TEST_START", Some(ZoneOrigin(zone)), None, operator);
      return Started;
    }

    /** `blockZone` (src/index.js:392-409). */
    method BlockZone(zone: int, operator: Option<int>) returns (r: Reply)
      requires Valid()
      modifies this, subscribers
      ensures Valid() && Delivered() && points == old(points)
      ensures (r, Snapshot()) == ApplyZone(catalog, old(Snapshot()), zone, Zones.BlockCmd, operator)
    {
      if zone !in zones {
        return Unknown;
      }
      var z := zones[zone];
      if z.armed {
        return DisarmRequired;
      }
      if z.blocked {
        return AlreadyBlocked;
      }
      zones := zones[zone := z.(blocked := true)];
      var _ := CreateEvent(ZoneBlockedCode, "ZONE_BLOCKED", Some(ZoneOrigin(zone)), None, operator);
      return Blocked;
    }

    /**
     * `releasePortal` (src/index.js:423-444). The reset it schedules is
     * `ReleaseTimerFires`, invoked separately.
     */
    method ReleasePortal(portal: int, operator: Option<int>) returns (r: Reply)
      requires Valid()
      modifies this, subscribers
      ensures Valid() && Delivered() && points == old(points)
      ensures (r, Snapshot()) == ApplyPortal(catalog, old(Snapshot()), portal, Portals.ReleaseCmd, operator)
    {
      if portal !in portals {
        return Unknown;
      }
      var p := portals[portal];
      if p.emergency {
        return Emergency;
      }
      portals := portals[portal := p.(released := true)];
      var _ := CreateEvent(PortalReleasedCode, "PORTAL_RELEASED", Some(PortalOrigin(portal)), None, operator);
      return Released;
    }

    /** `emergencyPortal` (src/index.js:446-460). */
    method EmergencyPortal(portal: int, operator: Option<int>) returns (r: Reply)
      requires Valid()
      modifies this, subscribers
      ensures Valid() && Delivered() && points == old(points)
      ensures (r, Snapshot()) == ApplyPortal(catalog, old(Snapshot()), portal, Portals.EmergencyCmd, operator)
    {
      if portal !in portals {
        return Unknown;
      }
      var p := portals[portal];
      if p.emergency {
        return AlreadyEmergency;
      }
      portals := portals[portal := p.(emergency := true, released := true)];
      var _ := CreateEvent(PortalEmergencyCode, "PORTAL_EMERGENCY", Some(PortalOrigin(portal)), None, operator);
      return Done;
    }

    /** `restorePortal` (src/index.js:462-476). */
    method RestorePortal(portal: int, operator: Option<int>) returns (r: Reply)
      requires Valid()
      modifies this, subscribers
      ensures Valid() && Delivered() && points == old(points)
      ensures (r, Snapshot()) == ApplyPortal(catalog, old(Snapshot()), portal, Portals.RestorePortalCmd, operator)
    {
      if portal !in portals {
        return Unknown;
      }
      var p := portals[portal];
      if !p.emergency {
        return NormalOperation;
      }
      portals := portals[portal := p.(emergency := false, released := false)];
      var _ := CreateEvent(PortalRestoredCode, "PORTAL_RESTORED", Some(PortalOrigin(portal)), None, operator);
      return Restored;
    }

    /**
     * The timer `releasePortal` sets: `released` back to false, whatever
     * `emergency` is, then a refresh of the label points.
     */
    method ReleaseTimerFires(portal: int)
      requires Valid()
      modifies this`portals, this`points
      ensures Valid()
      ensures Snapshot() == ReleaseTimeout(old(Snapshot()), portal)
      ensures points == Relabelled(old(points), zones, portals)
    {
      if portal in portals {
        portals := portals[portal := portals[portal].(released := false)];
      }
      ApplyKeepsWf(catalog, old(Snapshot()), ReleaseTimer(portal));
      SimulatePoints();
    }

    /** `suspendAntipassback` (src/index.js:480-487). */
    method SuspendAntipassback(operator: Option<int>) returns (r: Reply)
      requires Valid()
      modifies this`apbSuspended
      ensures Valid()
      ensures (r, Snapshot()) == ControllerState.SuspendAntipassback(old(Snapshot()))
    {
      if apbSuspended {
        return AlreadySuspended;
      }
      apbSuspended := true;
      return Suspended;
    }

    /** `resumeAntipassback` (src/index.js:489-496). */
    method ResumeAntipassback(operator: Option<int>) returns (r: Reply)
      requires Valid()
      modifies this`apbSuspended
      ensures Valid()
      ensures (r, Snapshot()) == ControllerState.ResumeAntipassback(old(Snapshot()))
    {
      if !apbSuspended {
        return AlreadyResumed;
      }
      apbSuspended := false;
      return Resumed;
    }

    /** `reactivateAntipassback` (src/index.js:498-501): an acknowledgement that changes nothing. */
    method ReactivateAntipassback(credential: string, operator: Option<int>) returns (r: Reply)
      ensures r == Reactivated
    {
      return Reactivated;
    }

    /** `echoEvent` (src/index.js:313-316). */
    method EchoEvent() returns (msg: string)
      requires Valid()
      modifies this, subscribers
      ensures Valid() && Delivered() && points == old(points)
      ensures (msg, Snapshot()) == ControllerState.EchoEvent(catalog, old(Snapshot()))
    {
      var _ := CreateEvent(EchoCode, "ECHO", Some(SystemOrigin), None, None);
      return "Event published";
    }

    /** `setSiteIdentifier` (src/index.js:318-321): only logs; the site id stays the catalog's. */
    method SetSiteIdentifier(id: string) returns (ok: bool)
      ensures ok
    {
      return true;
    }

    /** `setTokenTTL` (src/index.js:323-327). */
    method SetTokenTTL(ttl: int) returns (ok: bool)
      requires Valid()
      modifies this`tokenTTL
      ensures Valid() && ok
      ensures Snapshot() == ControllerState.SetTokenTTL(old(Snapshot()), ttl)
    {
      tokenTTL := ttl;
      return true;
    }

    /** `getAuthToken` (src/index.js:266-282), up to the signing of the tokens. */
    method GetAuthToken(login: string, password: string) returns (r: Option<TokenGrant>)
      ensures r == ControllerState.GetAuthToken(Snapshot(), login, password)
    {
      if login == "admin" && password == "admin" {
        return Some(TokenGrant(tokenTTL, RefreshTokenTTL));
      }
      return None;
    }

    /** `getUnconfirmedEvents` (src/index.js:299). */
    method GetUnconfirmedEvents() returns (r: seq<Event>)
      ensures r == Unconfirmed(events, confirmed)
    {
      r := Unconfirmed(events, confirmed);
    }

    /** `confirmEvent` (src/index.js:505-513): one answer per id, in order, marking what it finds. */
    method ConfirmEvent(ids: seq<string>) returns (results: seq<Confirmation>)
      requires Valid()
      modifies this`confirmed
      ensures Valid()
      ensures (results, Snapshot()) == ConfirmEvents(old(Snapshot()), ids)
    {
      results := [];
      var k := 0;
      while k < |ids|
        invariant 0 <= k <= |ids|
        invariant (results, Snapshot()) == ConfirmEvents(old(Snapshot()), ids[..k])
      {
        assert ids[..k + 1][..k] == ids[..k];
        ghost var prefix := ConfirmEvents(old(Snapshot()), ids[..k + 1]);
        match FindEvent(events, ids[k]) {
          case None =>
            results := results + [Confirmation(ids[k], NotFound)];
            assert (results, Snapshot()) == prefix;
          case Some(i) =>
            confirmed := confirmed + {i};
            results := results + [Confirmation(ids[k], Confirmed)];
            assert (results, Snapshot()) == prefix;
        }
        k := k + 1;
      }
      assert ids[..|ids|] == ids;
      ApplyKeepsWf(catalog, old(Snapshot()), ConfirmCall(ids));
    }

    /** `subscribe` on the `events` channel (src/index.js:670-684): a fresh, empty queue registered on the bus. */
    method Subscribe() returns (s: Subscription)
      requires Valid()
      modifies this`subscribers
      ensures Valid() && fresh(s)
      ensures subscribers == old(subscribers) + {s}
      ensures s.queue == [] && s.received == [] && s.joined == |events|
    {
      s := new Subscription(|events|);
      subscribers := subscribers + {s};
    }

    /**
     * The iterator's `next` (src/index.js:687-692): the oldest queued event;
     * `None` stands for the promise left pending on an empty queue.
     */
    method Next(s: Subscription) returns (e: Option<Event>)
      requires Valid()
      modifies s
      ensures Valid() && s.joined == old(s.joined)
      ensures old(s.queue) == [] ==> e.None? && s.queue == [] && s.received == old(s.received)
      ensures old(s.queue) != [] ==>
                && e == Some(old(s.queue)[0])
                && s.queue == old(s.queue)[1..]
                && s.received == old(s.received) + [old(s.queue)[0]]
    {
      if s.queue == [] {
        return None;
      }
      e := Some(s.queue[0]);
      s.received := s.received + [s.queue[0]];
      s.queue := s.queue[1..];
    }

    /** The iterator's `return` and `throw` (src/index.js:693-700): the callback leaves the bus. */
    method Unsubscribe(s: Subscription)
      requires Valid()
      modifies this`subscribers
      ensures Valid()
      ensures subscribers == old(subscribers) - {s}
    {
      subscribers := subscribers - {s};
    }

    /**
     * The label loop of `simulatePoints` (src/index.js:142-160): every
     * zone's state label and alarm flag, then every portal's state label,
     * written into the points.
     */
    method SimulatePoints()
      modifies this`points
      ensures points == Relabelled(old(points), zones, portals)
    {
      var zoned := LabelZones(zones, points);
      points := LabelPortals(portals, zoned);
    }
  }

  /** The zone half of the label loop: each zone's label and alarm flag written over `base`. */
  method LabelZones(zones: map<int, Zones.ZoneState>, base: map<PointKey, PointValue>)
    returns (pts: map<PointKey, PointValue>)
    ensures pts == base + ZonePoints(zones, zones.Keys)
  {
    pts := base;
    var todo := zones.Keys;
    ghost var done: set<int> := {};
    while todo != {}
      invariant todo !! done && todo + done == zones.Keys
      invariant pts == base + ZonePoints(zones, done)
      decreases todo
    {
      var id := Pick(todo);
      var z := zones[id];
      LabelOneZone(base, zones, done, id);
      pts := pts[ZoneStateKey(id) := ZoneText(Zones.Label(z))][ZoneAlarmKey(id) := Flag(z.alarm)];
      done := done + {id};
      todo := todo - {id};
    }
    assert done == zones.Keys;
  }

  /** The portal half of the label loop: each portal's label written over `base`. */
  method LabelPortals(portals: map<int, Portals.PortalState>, base: map<PointKey, PointValue>)
    returns (pts: map<PointKey, PointValue>)
    ensures pts == base + PortalPoints(portals, portals.Keys)
  {
    pts := base;
    var todo := portals.Keys;
    ghost var done: set<int> := {};
    while todo != {}
      invariant todo !! done && todo + done == portals.Keys
      invariant pts == base + PortalPoints(portals, done)
      decreases todo
    {
      var id := Pick(todo);
      LabelOnePortal(base, portals, done, id);
      pts := pts[PortalStateKey(id) := PortalText(Portals.Label(portals[id]))];
      done := done + {id};
      todo := todo - {id};
    }
    assert done == portals.Keys;
  }
}
