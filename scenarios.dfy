/**
 * Whole call sequences run against a freshly started controller with the
 * fixture's zones and portals 1, 2 and 3: what the resolvers answer, what a
 * subscriber receives, and what the label points show afterwards.
 */
module Scenarios {
  import opened Optional
  import opened Replies
  import opened Decimal
  import opened Events
  import opened ControllerState
  import opened Controller
  import Zones
  import Portals

  /**
   * Zone 1 armed by operator 7, refused a block while armed, then disarmed:
   * the subscriber sees exactly the two accepted changes, EVT-1 and EVT-2,
   * the first one carrying the operator.
   */
  method ArmBlockDisarm(cat: Catalog) returns (replies: seq<Reply>, delivered: seq<Event>)
    ensures replies == [ZoneArmed, DisarmRequired, ZoneDisarmed]
    ensures |delivered| == 2
    ensures delivered[0].id == EventId(1) && delivered[1].id == EventId(2)
    ensures delivered[0].trigger.code == ArmCode && delivered[0].operator == Some(7)
    ensures delivered[1].trigger.code == DisarmCode
  {
    var c := new Controller(cat, FixtureIds, FixtureIds);
    var s := c.Subscribe();
    ArmBlockDisarmRun(cat, c.Snapshot());
    var r1 := c.ControlZone(1, false, Some(7));
    assert s in c.subscribers && s.queue == c.events;
    var r2 := c.BlockZone(1, None);
    assert s in c.subscribers && s.queue == c.events;
    var r3 := c.ControlZone(1, false, None);
    assert s in c.subscribers && s.queue == c.events;
    replies := [r1, r2, r3];
    delivered := s.queue;
  }

  /** The store-level run behind `ArmBlockDisarm`. */
  lemma ArmBlockDisarmRun(cat: Catalog, st: Store)
    requires Wf(st) && 1 in st.zones && st.zones[1] == Zones.Initial && st.events == []
    ensures var (r1, st1) := ApplyZone(cat, st, 1, Zones.ControlCmd(false), Some(7));
            var (r2, st2) := ApplyZone(cat, st1, 1, Zones.BlockCmd, None);
            var (r3, st3) := ApplyZone(cat, st2, 1, Zones.ControlCmd(false), None);
            && r1 == ZoneArmed && r2 == DisarmRequired && r3 == ZoneDisarmed
            && |st3.events| == 2
            && st3.events[0].id == EventId(1) && st3.events[1].id == EventId(2)
            && st3.events[0].trigger.code == ArmCode && st3.events[0].operator == Some(7)
            && st3.events[1].trigger.code == DisarmCode
  {
    var armed := Zones.ZoneState(true, false, false, false);
    assert Zones.Step(Zones.ControlCmd(false), Zones.Initial).reply == ZoneArmed;
    var (r1, st1) := ApplyZone(cat, st, 1, Zones.ControlCmd(false), Some(7));
    assert st1.zones[1] == armed && |st1.events| == 1 && st1.counter == 2;
    assert st1.events[0].trigger.code == ArmCode && st1.events[0].operator == Some(7);
    assert Zones.Step(Zones.BlockCmd, armed).reply == DisarmRequired;
    var (r2, st2) := ApplyZone(cat, st1, 1, Zones.BlockCmd, None);
    assert st2 == st1;
    assert Zones.Step(Zones.ControlCmd(false), armed).reply == ZoneDisarmed;
    var (r3, st3) := ApplyZone(cat, st2, 1, Zones.ControlCmd(false), None);
    assert st3.events[1].trigger.code == DisarmCode;
  }

  /**
   * Zone 2 blocked, blocked again, armed without and then with override:
   * BLOCKED, ALREADY_BLOCKED, BLOCKED_SENSOR, ZONE_ARMED; the override
   * arms the zone although its sensor stays blocked.
   */
  method BlockedZone(cat: Catalog) returns (replies: seq<Reply>, last: Zones.ZoneState, delivered: seq<Event>)
    ensures replies == [Blocked, AlreadyBlocked, BlockedSensor, ZoneArmed]
    ensures last.armed && last.blocked
    ensures |delivered| == 2
    ensures delivered[0].trigger.code == ZoneBlockedCode && delivered[1].trigger.code == ArmCode
  {
    var c := new Controller(cat, FixtureIds, FixtureIds);
    var s := c.Subscribe();
    var blocked := Zones.ZoneState(false, false, true, false);
    assert c.zones[2] == Zones.Initial;
    assert Zones.Step(Zones.BlockCmd, Zones.Initial).reply == Blocked;
    var r1 := c.BlockZone(2, None);
    assert r1 == Blocked && c.zones[2] == blocked;
    assert |c.events| == 1 && c.events[0].trigger.code == ZoneBlockedCode;
    assert Zones.Step(Zones.BlockCmd, blocked).reply == AlreadyBlocked;
    var r2 := c.BlockZone(2, None);
    assert r2 == AlreadyBlocked && c.zones[2] == blocked && |c.events| == 1;
    assert Zones.Step(Zones.ControlCmd(false), blocked).reply == BlockedSensor;
    var r3 := c.ControlZone(2, false, None);
    assert r3 == BlockedSensor && c.zones[2] == blocked && |c.events| == 1;
    assert Zones.Step(Zones.ControlCmd(true), blocked).reply == ZoneArmed;
    var r4 := c.ControlZone(2, true, None);
    replies := [r1, r2, r3, r4];
    last := c.zones[2];
    assert s in c.subscribers;
    delivered := s.queue;
  }

  /**
   * A subscription sees only what is published after it subscribed, in
   * order, and `next` on an empty queue yields nothing.
   */
  method LateSubscriber(cat: Catalog) returns (first: Option<Event>, second: Option<Event>)
    ensures first.Some? && first.value.id == EventId(2) && first.value.trigger.code == EchoCode
    ensures second.None?
  {
    var c := new Controller(cat, {}, {});
    var m1 := c.EchoEvent();
    var s := c.Subscribe();
    var m2 := c.EchoEvent();
    assert s in c.subscribers;
    first := c.Next(s);
    second := c.Next(s);
  }

  /** After `return` on the iterator, later events no longer reach that subscription. */
  method Unsubscribed(cat: Catalog) returns (queued: seq<Event>, logged: nat)
    ensures queued == [] && logged == 1
  {
    var c := new Controller(cat, {}, {});
    var s := c.Subscribe();
    c.Unsubscribe(s);
    var m := c.EchoEvent();
    queued := s.queue;
    logged := |c.events|;
  }

  /** A new token lifetime is what the next login's main token gets; wrong credentials get nothing. */
  method TokenLifetime(cat: Catalog) returns (good: Option<TokenGrant>, bad: Option<TokenGrant>)
    ensures good == Some(TokenGrant(60, 7 * 24 * 3600))
    ensures bad.None?
  {
    var c := new Controller(cat, {}, {});
    var ok := c.SetTokenTTL(60);
    good := c.GetAuthToken("admin", "admin");
    bad := c.GetAuthToken("admin", "secret");
  }

  /**
   * Two events, then a confirmation of EVT-1 and of an id never issued:
   * CONFIRMED then NOT_FOUND, and only EVT-2 is still unconfirmed.
   */
  method ConfirmFlow(cat: Catalog) returns (answers: seq<Confirmation>, pending: seq<Event>)
    ensures answers == [Confirmation(EventId(1), Confirmed), Confirmation(EventId(9), NotFound)]
    ensures |pending| == 1 && pending[0].id == EventId(2)
  {
    var c := new Controller(cat, {}, {});
    var m1 := c.EchoEvent();
    var m2 := c.EchoEvent();
    ConfirmFirstOfTwo(c.Snapshot());
    answers := c.ConfirmEvent([EventId(1), EventId(9)]);
    pending := c.GetUnconfirmedEvents();
  }

  /** On a log of two unconfirmed events, confirming EVT-1 and EVT-9 leaves exactly the second pending. */
  lemma ConfirmFirstOfTwo(st: Store)
    requires Wf(st) && |st.events| == 2 && st.confirmed == {}
    ensures var (rs, st') := ConfirmEvents(st, [EventId(1), EventId(9)]);
            && rs == [Confirmation(EventId(1), Confirmed), Confirmation(EventId(9), NotFound)]
            && st'.events == st.events
            && Unconfirmed(st'.events, st'.confirmed) == [st.events[1]]
  {
    var evs := st.events;
    assert evs[0].id == EventId(1) && evs[1].id == EventId(2);
    assert FindEvent(evs, EventId(1)) == Some(0);
    assert FindEvent(evs, EventId(9)) == None by {
      EventIdInjective(1, 9);
      EventIdInjective(2, 9);
    }
    ConfirmFoundThenMissing(st, EventId(1), EventId(9), 0);
    assert st.confirmed + {0} == {0};
    SecondLeftUnconfirmed(evs);
  }

  /** Confirming an id found at position `p` and then one not found. */
  lemma ConfirmFoundThenMissing(st: Store, a: string, b: string, p: nat)
    requires FindEvent(st.events, a) == Some(p) && FindEvent(st.events, b) == None
    ensures ConfirmEvents(st, [a, b])
         == ([Confirmation(a, Confirmed), Confirmation(b, NotFound)], st.(confirmed := st.confirmed + {p}))
  {
    assert [a, b][..1] == [a] && [a][..0] == [];
    assert ConfirmEvents(st, []) == ([], st);
    var first := ConfirmEvents(st, [a]);
    assert first.0 == [] + [Confirmation(a, Confirmed)];
    assert first.1 == st.(confirmed := st.confirmed + {p});
    assert ConfirmEvents(st, [a, b]) == (first.0 + [Confirmation(b, NotFound)], first.1);
    assert first.0 + [Confirmation(b, NotFound)] == [Confirmation(a, Confirmed), Confirmation(b, NotFound)];
  }

  /** With only the first of two events confirmed, the second is all that is unconfirmed. */
  lemma SecondLeftUnconfirmed(evs: seq<Event>)
    requires |evs| == 2
    ensures Unconfirmed(evs, {0}) == [evs[1]]
  {
    assert evs[..1][..0] == [];
    assert Unconfirmed(evs[..1], {0}) == [];
  }

  /**
   * Portal 1 through release, emergency, release during the emergency,
   * restore and a second restore: the replies, with the portal back to
   * normal at the end.
   */
  method PortalFlow(cat: Catalog) returns (replies: seq<Reply>, last: Portals.PortalState)
    ensures replies == [Released, Done, Emergency, Restored, NormalOperation]
    ensures last == Portals.Initial
  {
    var c := new Controller(cat, FixtureIds, FixtureIds);
    var released := Portals.PortalState(false, true);
    var both := Portals.PortalState(true, true);
    assert c.portals[1] == Portals.Initial;
    assert Portals.Step(Portals.ReleaseCmd, Portals.Initial).reply == Released;
    var r1 := c.ReleasePortal(1, None);
    assert r1 == Released && c.portals[1] == released;
    assert Portals.Step(Portals.EmergencyCmd, released).reply == Done;
    var r2 := c.EmergencyPortal(1, None);
    assert r2 == Done && c.portals[1] == both;
    assert Portals.Step(Portals.ReleaseCmd, both).reply == Emergency;
    var r3 := c.ReleasePortal(1, None);
    assert r3 == Emergency && c.portals[1] == both;
    assert Portals.Step(Portals.RestorePortalCmd, both).reply == Restored;
    var r4 := c.RestorePortal(1, None);
    assert r4 == Restored && c.portals[1] == Portals.Initial;
    assert Portals.Step(Portals.RestorePortalCmd, Portals.Initial).reply == NormalOperation;
    var r5 := c.RestorePortal(1, None);
    replies := [r1, r2, r3, r4, r5];
    last := c.portals[1];
  }

  /**
   * A release followed by an emergency within the release window: when the
   * release timer fires the portal is in emergency but no longer released,
   * and its label point still reads EMERGENCY.
   */
  method TimerDuringEmergency(cat: Catalog) returns (p: Portals.PortalState, shown: PointValue)
    ensures p.emergency && !p.released
    ensures shown == PortalText(Portals.EmergencyLabel)
  {
    var c := new Controller(cat, FixtureIds, FixtureIds);
    var both := Portals.PortalState(true, true);
    assert Portals.Step(Portals.ReleaseCmd, Portals.Initial).reply == Released;
    var r1 := c.ReleasePortal(1, None);
    assert c.portals[1] == Portals.PortalState(false, true);
    assert Portals.Step(Portals.EmergencyCmd, Portals.PortalState(false, true)).reply == Done;
    var r2 := c.EmergencyPortal(1, None);
    assert c.portals[1] == both;
    assert Portals.TimeoutReset(both) == Portals.PortalState(true, false);
    var before := c.points;
    c.ReleaseTimerFires(1);
    p := c.portals[1];
    RelabelledContent(before, c.zones, c.portals);
    shown := c.points[PortalStateKey(1)];
  }

  /** Arming zone 2 and refreshing the points shows ARMED for it and no alarm. */
  method ArmedLabel(cat: Catalog) returns (state: PointValue, alarm: PointValue)
    ensures state == ZoneText(Zones.ArmedLabel) && alarm == Flag(false)
  {
    var c := new Controller(cat, FixtureIds, FixtureIds);
    var r := c.ControlZone(2, false, None);
    var before := c.points;
    c.SimulatePoints();
    RelabelledContent(before, c.zones, c.portals);
    state := c.points[ZoneStateKey(2)];
    alarm := c.points[ZoneAlarmKey(2)];
  }

  /** Suspending and resuming antipassback twice each: the second call of each is refused. */
  method AntipassbackToggle(cat: Catalog) returns (replies: seq<Reply>)
    ensures replies == [Suspended, AlreadySuspended, Resumed, AlreadyResumed, Reactivated]
  {
    var c := new Controller(cat, {}, {});
    var r1 := c.SuspendAntipassback(None);
    var r2 := c.SuspendAntipassback(None);
    var r3 := c.ResumeAntipassback(None);
    var r4 := c.ResumeAntipassback(None);
    var r5 := c.ReactivateAntipassback("CARD", None);
    replies := [r1, r2, r3, r4, r5];
  }
}
