/**
 * The controller's runtime state (`state` in src/index.js) as a value, and
 * every state-changing resolver as a function from the old store to its
 * reply and the new store. The imperative controller is proved against
 * these functions; the properties of whole operation sequences are proved
 * here.
 */
module ControllerState {
  import opened Optional
  import opened Replies
  import opened Decimal
  import opened Subsequences
  import opened Events
  import Zones
  import Portals

  /** `TOKEN_TTL`: the main token's lifetime in seconds until `setTokenTTL` changes it. */
  const DefaultTokenTTL := 3600

  /** The refresh token's fixed lifetime, `'7d'`, in seconds. */
  const RefreshTokenTTL := 7 * 24 * 3600

  /** The zone and portal ids of the fixture tables. */
  const FixtureIds: set<int> := {1, 2, 3}

  /**
   * Zone and portal flags keyed by id, the antipassback flag, the event log
   * with the positions marked confirmed, the event-id counter and the token
   * lifetime.
   */
  datatype Store = Store(
    zones: map<int, Zones.ZoneState>,
    portals: map<int, Portals.PortalState>,
    apbSuspended: bool,
    events: seq<Event>,
    counter: nat,
    confirmed: set<nat>,
    tokenTTL: int)

  /**
   * The store invariant: the counter is one past the number of logged
   * events, the events carry `EVT-1`, `EVT-2`, ... in log order, and only
   * logged positions are marked confirmed.
   */
  ghost predicate Wf(st: Store) {
    && st.counter == |st.events| + 1
    && (forall i :: 0 <= i < |st.events| ==> st.events[i].id == EventId(i + 1))
    && (forall p :: p in st.confirmed ==> p < |st.events|)
  }

  /** The store at process start: the listed zones and portals in their initial state, no events, the counter at 1. */
  function Init(zoneIds: set<int>, portalIds: set<int>): (st: Store)
    ensures Wf(st)
    ensures st.zones.Keys == zoneIds && st.portals.Keys == portalIds
    ensures forall id :: id in zoneIds ==> st.zones[id] == Zones.Initial
    ensures forall id :: id in portalIds ==> st.portals[id] == Portals.Initial
    ensures st.events == [] && st.counter == 1 && !st.apbSuspended
    ensures st.confirmed == {} && st.tokenTTL == DefaultTokenTTL
  {
    Store(map id | id in zoneIds :: Zones.Initial, map id | id in portalIds :: Portals.Initial,
          false, [], 1, {}, DefaultTokenTTL)
  }

  /**
   * `createEvent` followed by `publishEvent`: the event is stamped
   * `EVT-<counter>` with the catalog's template, the reason block of its
   * point and the user block of its user id; the counter goes up by exactly
   * one, and the event is appended to the log; nothing else changes.
   */
  function CreateEvent(cat: Catalog, st: Store, code: int, symbol: string, origin: Option<Origin>,
                       userId: Option<int>, operator: Option<int>): (r: (Event, Store))
    ensures r.0.id == EventId(st.counter) && r.0.site == cat.site
    ensures r.0.trigger == Trigger(code, Template(cat.eventTypes, code, symbol)) && r.0.operator == operator
    ensures r.0.reason == ReasonFor(origin, symbol) && r.0.user == UserRefOf(cat.users, userId)
    ensures r.1 == st.(events := st.events + [r.0], counter := st.counter + 1)
  {
    var e := NewEvent(cat, st.counter, code, symbol, origin, userId, operator);
    (e, st.(events := st.events + [e], counter := st.counter + 1))
  }

  /** Creating an event keeps the store invariant: the new event carries the next id in sequence. */
  lemma CreateEventKeepsWf(cat: Catalog, st: Store, code: int, symbol: string, origin: Option<Origin>,
                           userId: Option<int>, operator: Option<int>)
    requires Wf(st)
    ensures var (e, st') := CreateEvent(cat, st, code, symbol, origin, userId, operator);
            Wf(st') && e.id == EventId(|st.events| + 1)
  {
  }

  /** The event (if any) a step asked for. */
  function Emit(cat: Catalog, st: Store, em: Option<Emission>, origin: Origin, operator: Option<int>): Store {
    match em
    case None => st
    case Some(Emission(code, symbol)) => CreateEvent(cat, st, code, symbol, Some(origin), None, operator).1
  }

  /**
   * A zone resolver: UNKNOWN and no change for an absent id; otherwise the
   * zone's step, with its event created only when the step is accepted.
   * Only that one zone and the log can change.
   */
  function ApplyZone(cat: Catalog, st: Store, zone: int, cmd: Zones.ZoneCommand, operator: Option<int>): (r: (Reply, Store))
    ensures zone !in st.zones ==> r == (Unknown, st)
    ensures r.0.IsRejection() ==> r.1 == st
    ensures !r.0.IsRejection() ==> zone in st.zones && r.1.counter == st.counter + 1 && |r.1.events| == |st.events| + 1
    ensures st.events <= r.1.events
    ensures r.1.zones.Keys == st.zones.Keys
    ensures forall id :: id in st.zones && id != zone ==> r.1.zones[id] == st.zones[id]
    ensures r.1.portals == st.portals && r.1.apbSuspended == st.apbSuspended
    ensures r.1.confirmed == st.confirmed && r.1.tokenTTL == st.tokenTTL
    ensures zone in st.zones ==>
              var s := Zones.Step(cmd, st.zones[zone]);
              r.0 == s.reply && r.1.zones == st.zones[zone := s.zone]
    ensures zone in st.zones && !r.0.IsRejection() ==>
              var em := Zones.ZoneEmission(r.0).value;
              r.1.events == st.events + [NewEvent(cat, st.counter, em.code, em.symbol, Some(ZoneOrigin(zone)), None, operator)]
  {
    if zone !in st.zones then (Unknown, st)
    else
      var s := Zones.Step(cmd, st.zones[zone]);
      assert s.reply.IsRejection() ==> st.zones[zone := s.zone] == st.zones;
      (s.reply, Emit(cat, st.(zones := st.zones[zone := s.zone]), s.emission, ZoneOrigin(zone), operator))
  }

  /** A portal resolver, in the same shape as `ApplyZone`. */
  function ApplyPortal(cat: Catalog, st: Store, portal: int, cmd: Portals.PortalCommand, operator: Option<int>): (r: (Reply, Store))
    ensures portal !in st.portals ==> r == (Unknown, st)
    ensures r.0.IsRejection() ==> r.1 == st
    ensures !r.0.IsRejection() ==> portal in st.portals && r.1.counter == st.counter + 1 && |r.1.events| == |st.events| + 1
    ensures st.events <= r.1.events
    ensures r.1.portals.Keys == st.portals.Keys
    ensures forall id :: id in st.portals && id != portal ==> r.1.portals[id] == st.portals[id]
    ensures r.1.zones == st.zones && r.1.apbSuspended == st.apbSuspended
    ensures r.1.confirmed == st.confirmed && r.1.tokenTTL == st.tokenTTL
    ensures portal in st.portals ==>
              var s := Portals.Step(cmd, st.portals[portal]);
              r.0 == s.reply && r.1.portals == st.portals[portal := s.portal]
    ensures portal in st.portals && !r.0.IsRejection() ==>
              var em := Portals.PortalEmission(r.0).value;
              r.1.events == st.events + [NewEvent(cat, st.counter, em.code, em.symbol, Some(PortalOrigin(portal)), None, operator)]
  {
    if portal !in st.portals then (Unknown, st)
    else
      var s := Portals.Step(cmd, st.portals[portal]);
      assert s.reply.IsRejection() ==> st.portals[portal := s.portal] == st.portals;
      (s.reply, Emit(cat, st.(portals := st.portals[portal := s.portal]), s.emission, PortalOrigin(portal), operator))
  }

  /** The auto-release timer firing: `released` goes back to false, with no event and no look at `emergency`. */
  function ReleaseTimeout(st: Store, portal: int): (st': Store)
    ensures portal in st.portals ==> st' == st.(portals := st.portals[portal := Portals.TimeoutReset(st.portals[portal])])
    ensures portal !in st.portals ==> st' == st
  {
    if portal in st.portals then st.(portals := st.portals[portal := Portals.TimeoutReset(st.portals[portal])]) else st
  }

  /** `suspendAntipassback`: afterwards antipassback is suspended; the reply says whether it already was. */
  function SuspendAntipassback(st: Store): (r: (Reply, Store))
    ensures r.0 == (if st.apbSuspended then AlreadySuspended else Suspended)
    ensures r.1 == st.(apbSuspended := true)
  {
    if st.apbSuspended then (AlreadySuspended, st) else (Suspended, st.(apbSuspended := true))
  }

  /** `resumeAntipassback`: afterwards antipassback is active; the reply says whether it already was. */
  function ResumeAntipassback(st: Store): (r: (Reply, Store))
    ensures r.0 == (if st.apbSuspended then Resumed else AlreadyResumed)
    ensures r.1 == st.(apbSuspended := false)
  {
    if !st.apbSuspended then (AlreadyResumed, st) else (Resumed, st.(apbSuspended := false))
  }

  /**
   * `echoEvent`: one event with code 0 and symbol ECHO, caused by the System
   * point and with no user, is appended; the counter advances and nothing
   * else changes.
   */
  function EchoEvent(cat: Catalog, st: Store): (r: (string, Store))
    ensures r.0 == "Event published"
    ensures r.1 == st.(events := st.events + [NewEvent(cat, st.counter, EchoCode, "ECHO", Some(SystemOrigin), None, None)],
                       counter := st.counter + 1)
    ensures |r.1.events| == |st.events| + 1 && r.1.events[|st.events|].trigger.code == EchoCode
    ensures r.1.events[|st.events|].id == EventId(st.counter)
    ensures r.1.events[|st.events|].reason == Some(Reason(SystemOrigin, "SYSTEM", "SYSTEM", "ECHO"))
    ensures r.1.events[|st.events|].user.None?
  {
    ("Event published", CreateEvent(cat, st, EchoCode, "ECHO", Some(SystemOrigin), None, None).1)
  }

  datatype ConfirmStatus = Confirmed | NotFound

  /** One entry of `confirmEvent`'s answer: `{ id, status }`. */
  datatype Confirmation = Confirmation(id: string, status: ConfirmStatus)

  /** `state.events.find(e => e.id === id)`, as a position. */
  function FindEvent(events: seq<Event>, id: string): (r: Option<nat>)
    ensures r.Some? ==> r.value < |events| && events[r.value].id == id
    ensures r.Some? ==> forall j :: 0 <= j < r.value ==> events[j].id != id
    ensures r.None? ==> forall j :: 0 <= j < |events| ==> events[j].id != id
  {
    FirstIndex(events, (e: Event) => e.id == id)
  }

  /**
   * `confirmEvent`: one answer per requested id, in request order; each id
   * found in the log marks the position of its first event confirmed. The
   * log itself is not changed.
   */
  function ConfirmEvents(st: Store, ids: seq<string>): (r: (seq<Confirmation>, Store))
    ensures |r.0| == |ids|
    ensures r.1 == st.(confirmed := r.1.confirmed)
    decreases |ids|
  {
    if ids == [] then ([], st)
    else
      var n := |ids| - 1;
      var (rs, st') := ConfirmEvents(st, ids[..n]);
      match FindEvent(st.events, ids[n])
      case None => (rs + [Confirmation(ids[n], NotFound)], st')
      case Some(i) => (rs + [Confirmation(ids[n], Confirmed)], st'.(confirmed := st'.confirmed + {i}))
  }

  /** The answers name the requested ids, in request order. */
  lemma {:induction false} ConfirmEventsIds(st: Store, ids: seq<string>)
    ensures forall k :: 0 <= k < |ids| ==> ConfirmEvents(st, ids).0[k].id == ids[k]
    decreases |ids|
  {
    if ids != [] {
      var n := |ids| - 1;
      ConfirmEventsIds(st, ids[..n]);
    }
  }

  /** An answer is CONFIRMED exactly when some logged event has that id. */
  lemma {:induction false} ConfirmEventsStatus(st: Store, ids: seq<string>)
    ensures forall k :: 0 <= k < |ids| ==>
              (ConfirmEvents(st, ids).0[k].status == Confirmed <==>
               exists i :: 0 <= i < |st.events| && st.events[i].id == ids[k])
    decreases |ids|
  {
    if ids != [] {
      var n := |ids| - 1;
      ConfirmEventsStatus(st, ids[..n]);
      var rs := ConfirmEvents(st, ids[..n]).0;
      assert forall k :: 0 <= k < n ==> ConfirmEvents(st, ids).0[k] == rs[k] && ids[..n][k] == ids[k];
      match FindEvent(st.events, ids[n])
      case None =>
      case Some(i) =>
    }
  }

  /** The confirmed positions grow by exactly the first event of each id found. */
  lemma {:induction false} ConfirmEventsMarks(st: Store, ids: seq<string>)
    ensures forall p :: p in ConfirmEvents(st, ids).1.confirmed <==>
              p in st.confirmed || exists k :: 0 <= k < |ids| && FindEvent(st.events, ids[k]) == Some(p)
    decreases |ids|
  {
    if ids != [] {
      var n := |ids| - 1;
      ConfirmEventsMarks(st, ids[..n]);
      assert forall k :: 0 <= k < n ==> ids[..n][k] == ids[k];
    }
  }

  /**
   * In a well-formed store, an id answered CONFIRMED no longer appears among
   * the unconfirmed events: event ids are distinct, so the event that was
   * marked is the only one with that id.
   */
  lemma ConfirmedLeaveUnconfirmed(st: Store, ids: seq<string>, k: nat)
    requires Wf(st) && k < |ids|
    requires ConfirmEvents(st, ids).0[k].status == Confirmed
    ensures var st' := ConfirmEvents(st, ids).1;
            Wf(st') && forall e :: e in Unconfirmed(st'.events, st'.confirmed) ==> e.id != ids[k]
  {
    var st' := ConfirmEvents(st, ids).1;
    ConfirmEventsMarks(st, ids);
    ConfirmEventsStatus(st, ids);
    var p := FindEvent(st.events, ids[k]).value;
    assert p in st'.confirmed;
    NoUnconfirmedWithId(st'.events, st'.confirmed, p);
  }

  /** With distinct ids, a confirmed position's id is not carried by any unconfirmed event. */
  lemma NoUnconfirmedWithId(events: seq<Event>, confirmed: set<nat>, p: nat)
    requires forall i :: 0 <= i < |events| ==> events[i].id == EventId(i + 1)
    requires p in confirmed && p < |events|
    ensures forall e :: e in Unconfirmed(events, confirmed) ==> e.id != events[p].id
  {
    UnconfirmedMembers(events, confirmed);
    forall e | e in Unconfirmed(events, confirmed)
      ensures e.id != events[p].id
    {
      var i :| 0 <= i < |events| && i !in confirmed && events[i] == e;
      DistinctPositionsDistinctIds(events, i, p);
    }
  }

  /** Two different logged positions carry different ids. */
  lemma DistinctPositionsDistinctIds(events: seq<Event>, i: nat, p: nat)
    requires i < |events| && p < |events| && i != p
    requires events[i].id == EventId(i + 1) && events[p].id == EventId(p + 1)
    ensures events[i].id != events[p].id
  {
    EventIdInjective(i + 1, p + 1);
  }

  /** Every logged id reads back as its 1-based position: ids are consecutive and strictly increasing. */
  lemma {:induction false} LoggedIdsAreConsecutive(st: Store)
    requires Wf(st)
    ensures forall i :: 0 <= i < |st.events| ==> ParseEventId(st.events[i].id) == Some(i + 1)
  {
    forall i | 0 <= i < |st.events|
      ensures ParseEventId(st.events[i].id) == Some(i + 1)
    {
      ParseEventIdRoundTrip(i + 1);
    }
  }

  /** `setTokenTTL` on the store. */
  function SetTokenTTL(st: Store, ttl: int): (st': Store)
    ensures st' == st.(tokenTTL := ttl)
  {
    st.(tokenTTL := ttl)
  }

  /** The lifetimes of the two signed tokens `getAuthToken` and `refreshAuthToken` hand out. */
  datatype TokenGrant = TokenGrant(mainTTL: int, refreshTTL: int)

  /**
   * `getAuthToken`: only `admin`/`admin` gets tokens (any other pair is an
   * "Invalid credentials" error, `None`); the main token lives for the
   * current TTL, the refresh token for seven days.
   */
  function GetAuthToken(st: Store, login: string, password: string): (r: Option<TokenGrant>)
    ensures r.Some? <==> login == "admin" && password == "admin"
    ensures r.Some? ==> r.value == TokenGrant(st.tokenTTL, RefreshTokenTTL)
  {
    if login == "admin" && password == "admin" then Some(TokenGrant(st.tokenTTL, RefreshTokenTTL)) else None
  }

  /** `refreshAuthToken`: a new pair for anybody, the prior refresh token is not checked. */
  function RefreshAuthToken(st: Store): (g: TokenGrant)
    ensures g.mainTTL == st.tokenTTL && g.refreshTTL == RefreshTokenTTL
  {
    TokenGrant(st.tokenTTL, RefreshTokenTTL)
  }

  /** One call into the controller's mutation surface, or the release timer firing. */
  datatype Op =
    | ZoneCall(zone: int, zoneCmd: Zones.ZoneCommand, operator: Option<int>)
    | PortalCall(portal: int, portalCmd: Portals.PortalCommand, operator: Option<int>)
    | ReleaseTimer(portal: int)
    | SuspendCall | ResumeCall | ReactivateCall
    | EchoCall
    | ConfirmCall(ids: seq<string>)
    | SetTokenTTLCall(ttl: int)

  function Apply(cat: Catalog, st: Store, op: Op): Store {
    match op
    case ZoneCall(zone, cmd, operator) => ApplyZone(cat, st, zone, cmd, operator).1
    case PortalCall(portal, cmd, operator) => ApplyPortal(cat, st, portal, cmd, operator).1
    case ReleaseTimer(portal) => ReleaseTimeout(st, portal)
    case SuspendCall => SuspendAntipassback(st).1
    case ResumeCall => ResumeAntipassback(st).1
    case ReactivateCall => st
    case EchoCall => EchoEvent(cat, st).1
    case ConfirmCall(ids) => ConfirmEvents(st, ids).1
    case SetTokenTTLCall(ttl) => SetTokenTTL(st, ttl)
  }

  /** The store after a sequence of calls, one after another. */
  function Run(cat: Catalog, st: Store, ops: seq<Op>): Store
    decreases |ops|
  {
    if ops == [] then st else Run(cat, Apply(cat, st, ops[0]), ops[1..])
  }

  /** Every call keeps the store invariant. */
  lemma ApplyKeepsWf(cat: Catalog, st: Store, op: Op)
    requires Wf(st)
    ensures Wf(Apply(cat, st, op))
    ensures st.events <= Apply(cat, st, op).events
    ensures Apply(cat, st, op).zones.Keys == st.zones.Keys && Apply(cat, st, op).portals.Keys == st.portals.Keys
  {
    match op
    case ZoneCall(zone, cmd, operator) => ZoneCallKeepsWf(cat, st, zone, cmd, operator);
    case PortalCall(portal, cmd, operator) => PortalCallKeepsWf(cat, st, portal, cmd, operator);
    case ReleaseTimer(portal) =>
    case SuspendCall =>
    case ResumeCall =>
    case ReactivateCall =>
    case EchoCall =>
    case ConfirmCall(ids) => ConfirmEventsMarks(st, ids);
    case SetTokenTTLCall(ttl) =>
  }

  lemma ZoneCallKeepsWf(cat: Catalog, st: Store, zone: int, cmd: Zones.ZoneCommand, operator: Option<int>)
    requires Wf(st)
    ensures var st' := ApplyZone(cat, st, zone, cmd, operator).1;
            Wf(st') && st.events <= st'.events && st'.zones.Keys == st.zones.Keys && st'.portals.Keys == st.portals.Keys
  {
    var st' := ApplyZone(cat, st, zone, cmd, operator).1;
    assert forall i :: 0 <= i < |st.events| ==> st'.events[i] == st.events[i];
  }

  lemma PortalCallKeepsWf(cat: Catalog, st: Store, portal: int, cmd: Portals.PortalCommand, operator: Option<int>)
    requires Wf(st)
    ensures var st' := ApplyPortal(cat, st, portal, cmd, operator).1;
            Wf(st') && st.events <= st'.events && st'.zones.Keys == st.zones.Keys && st'.portals.Keys == st.portals.Keys
  {
    var st' := ApplyPortal(cat, st, portal, cmd, operator).1;
    assert forall i :: 0 <= i < |st.events| ==> st'.events[i] == st.events[i];
  }

  /**
   * Over any sequence of calls the invariant holds, the log only grows at
   * its end, and no zone or portal appears or disappears: event ids stay
   * consecutive, so a refused call never uses up a counter value.
   */
  lemma {:induction false} RunKeepsWf(cat: Catalog, st: Store, ops: seq<Op>)
    requires Wf(st)
    ensures Wf(Run(cat, st, ops))
    ensures st.events <= Run(cat, st, ops).events
    ensures Run(cat, st, ops).zones.Keys == st.zones.Keys && Run(cat, st, ops).portals.Keys == st.portals.Keys
    decreases |ops|
  {
    if ops != [] {
      ApplyKeepsWf(cat, st, ops[0]);
      RunKeepsWf(cat, Apply(cat, st, ops[0]), ops[1..]);
    }
  }

  /** No zone is in alarm. */
  ghost predicate NoAlarm(st: Store) {
    forall id :: id in st.zones ==> !st.zones[id].alarm
  }

  /** A blocked zone stays blocked: nothing in the controller unblocks a zone. */
  ghost predicate BlockedIn(st: Store, id: int) {
    id in st.zones && st.zones[id].blocked
  }

  lemma ApplyKeepsNoAlarmAndBlocks(cat: Catalog, st: Store, op: Op)
    ensures NoAlarm(st) ==> NoAlarm(Apply(cat, st, op))
    ensures forall id :: BlockedIn(st, id) ==> BlockedIn(Apply(cat, st, op), id)
  {
    match op
    case ZoneCall(zone, cmd, operator) =>
      if zone in st.zones {
        var s := Zones.Step(cmd, st.zones[zone]);
        assert ApplyZone(cat, st, zone, cmd, operator).1.zones == st.zones[zone := s.zone];
      }
    case _ =>
  }

  /**
   * No call ever raises an alarm, and none clears `blocked`: whatever a
   * sequence of calls does, a store without alarms stays without alarms and
   * a blocked zone stays blocked.
   */
  lemma {:induction false} RunKeepsNoAlarmAndBlocks(cat: Catalog, st: Store, ops: seq<Op>)
    ensures NoAlarm(st) ==> NoAlarm(Run(cat, st, ops))
    ensures forall id :: BlockedIn(st, id) ==> BlockedIn(Run(cat, st, ops), id)
    decreases |ops|
  {
    if ops != [] {
      ApplyKeepsNoAlarmAndBlocks(cat, st, ops[0]);
      RunKeepsNoAlarmAndBlocks(cat, Apply(cat, st, ops[0]), ops[1..]);
    }
  }

  /**
   * Since no call raises an alarm, `restoreZone` on a controller started
   * from its initial state can only answer ALARM_NOT_ACTIVE or UNKNOWN.
   */
  lemma RestoreZoneNeverRestores(cat: Catalog, zoneIds: set<int>, portalIds: set<int>, ops: seq<Op>,
                                 zone: int, operator: Option<int>)
    ensures var st := Run(cat, Init(zoneIds, portalIds), ops);
            ApplyZone(cat, st, zone, Zones.RestoreCmd, operator).0 in {AlarmNotActive, Unknown}
  {
    RunKeepsNoAlarmAndBlocks(cat, Init(zoneIds, portalIds), ops);
  }

  /** Every portal is released whenever it is in emergency. */
  ghost predicate PortalsConsistent(st: Store) {
    forall id :: id in st.portals ==> Portals.Consistent(st.portals[id])
  }

  lemma ApplyKeepsPortalsConsistent(cat: Catalog, st: Store, op: Op)
    requires !op.ReleaseTimer?
    ensures PortalsConsistent(st) ==> PortalsConsistent(Apply(cat, st, op))
  {
    match op
    case PortalCall(portal, cmd, operator) =>
      if portal in st.portals {
        var s := Portals.Step(cmd, st.portals[portal]);
        assert ApplyPortal(cat, st, portal, cmd, operator).1.portals == st.portals[portal := s.portal];
      }
    case _ =>
  }

  /**
   * As long as no release timer fires, "emergency implies released" holds
   * for every portal. (`Portals.TimeoutAfterEmergencyBreaksConsistency`
   * shows the timer breaks it.)
   */
  lemma {:induction false} RunKeepsPortalsConsistent(cat: Catalog, st: Store, ops: seq<Op>)
    requires forall k :: 0 <= k < |ops| ==> !ops[k].ReleaseTimer?
    ensures PortalsConsistent(st) ==> PortalsConsistent(Run(cat, st, ops))
    decreases |ops|
  {
    if ops != [] {
      ApplyKeepsPortalsConsistent(cat, st, ops[0]);
      RunKeepsPortalsConsistent(cat, Apply(cat, st, ops[0]), ops[1..]);
    }
  }

  /** A key of `state.points` written by the label loop of `simulatePoints`. */
  datatype PointKey = ZoneStateKey(id: int) | ZoneAlarmKey(id: int) | PortalStateKey(id: int)

  datatype PointValue = ZoneText(zoneLabel: Zones.ZoneLabel) | PortalText(portalLabel: Portals.PortalLabel) | Flag(flag: bool)

  /** The keys of the `ZONE<id>_STATE` and `ZONE<id>_ALARM` points of the zones in `ids`. */
  function ZoneKeys(ids: set<int>): set<PointKey>
  {
    (set id | id in ids :: ZoneStateKey(id)) + (set id | id in ids :: ZoneAlarmKey(id))
  }

  /** What the label loop writes under a zone key: the alarm flag, or the state label. */
  function ZoneValue(zones: map<int, Zones.ZoneState>, k: PointKey): PointValue
    requires k.id in zones
  {
    if k.ZoneAlarmKey? then Flag(zones[k.id].alarm) else ZoneText(Zones.Label(zones[k.id]))
  }

  /** Both zone points for the zones in `ids`. */
  function ZonePoints(zones: map<int, Zones.ZoneState>, ids: set<int>): map<PointKey, PointValue>
    requires ids <= zones.Keys
  {
    map k | k in ZoneKeys(ids) :: ZoneValue(zones, k)
  }

  /** The `PORTAL<id>_STATE` points for the portals in `ids`. */
  function PortalPoints(portals: map<int, Portals.PortalState>, ids: set<int>): map<PointKey, PointValue>
    requires ids <= portals.Keys
  {
    map id | id in ids :: PortalStateKey(id) := PortalText(Portals.Label(portals[id]))
  }

  /** Everything one pass of the label loop writes over `base`. */
  function Relabelled(base: map<PointKey, PointValue>, zones: map<int, Zones.ZoneState>,
                      portals: map<int, Portals.PortalState>): map<PointKey, PointValue>
  {
    base + ZonePoints(zones, zones.Keys) + PortalPoints(portals, portals.Keys)
  }

  /**
   * After a pass of the label loop every zone shows its label and alarm
   * flag, every portal its label, and every other point is untouched.
   */
  lemma RelabelledContent(base: map<PointKey, PointValue>, zones: map<int, Zones.ZoneState>,
                          portals: map<int, Portals.PortalState>)
    ensures forall id :: id in zones ==>
              && ZoneStateKey(id) in Relabelled(base, zones, portals)
              && Relabelled(base, zones, portals)[ZoneStateKey(id)] == ZoneText(Zones.Label(zones[id]))
              && ZoneAlarmKey(id) in Relabelled(base, zones, portals)
              && Relabelled(base, zones, portals)[ZoneAlarmKey(id)] == Flag(zones[id].alarm)
    ensures forall id :: id in portals ==>
              && PortalStateKey(id) in Relabelled(base, zones, portals)
              && Relabelled(base, zones, portals)[PortalStateKey(id)] == PortalText(Portals.Label(portals[id]))
    ensures forall k :: k in Relabelled(base, zones, portals) ==>
              || k in base
              || ((k.ZoneStateKey? || k.ZoneAlarmKey?) && k.id in zones)
              || (k.PortalStateKey? && k.id in portals)
    ensures forall k :: k in base && !((k.ZoneStateKey? || k.ZoneAlarmKey?) && k.id in zones)
                         && !(k.PortalStateKey? && k.id in portals) ==>
              k in Relabelled(base, zones, portals) && Relabelled(base, zones, portals)[k] == base[k]
  {
    var zp := ZonePoints(zones, zones.Keys);
    var pp := PortalPoints(portals, portals.Keys);
    forall id | id in zones
      ensures ZoneStateKey(id) in zp && ZoneAlarmKey(id) in zp
    {
      assert ZoneStateKey(id) in ZoneKeys(zones.Keys);
      assert ZoneAlarmKey(id) in ZoneKeys(zones.Keys);
    }
    forall k | k in zp
      ensures (k.ZoneStateKey? || k.ZoneAlarmKey?) && k.id in zones
    {
      if id :| id in zones && k == ZoneAlarmKey(id) {
      } else {
        var id :| id in zones && k == ZoneStateKey(id);
      }
    }
    forall k | k in pp
      ensures k.PortalStateKey? && k.id in portals
    {
      var id :| id in portals && k == PortalStateKey(id);
    }
  }

  /** Updating the right operand of a union is updating the union. */
  lemma UnionUpdate<K, V>(a: map<K, V>, b: map<K, V>, k: K, v: V)
    ensures (a + b)[k := v] == a + b[k := v]
  {
  }

  /** Labelling one more zone adds exactly its two points. */
  lemma ZonePointsInsert(zones: map<int, Zones.ZoneState>, ids: set<int>, id: int)
    requires ids <= zones.Keys && id in zones
    ensures ZonePoints(zones, ids + {id})
         == ZonePoints(zones, ids)[ZoneStateKey(id) := ZoneText(Zones.Label(zones[id]))][ZoneAlarmKey(id) := Flag(zones[id].alarm)]
  {
    assert ZoneKeys(ids + {id}) == ZoneKeys(ids) + {ZoneStateKey(id), ZoneAlarmKey(id)};
  }

  /** One round of the zone label loop over `base` extends the labelled set by `id`. */
  lemma LabelOneZone(base: map<PointKey, PointValue>, zones: map<int, Zones.ZoneState>, ids: set<int>, id: int)
    requires ids <= zones.Keys && id in zones
    ensures (base + ZonePoints(zones, ids))[ZoneStateKey(id) := ZoneText(Zones.Label(zones[id]))][ZoneAlarmKey(id) := Flag(zones[id].alarm)]
         == base + ZonePoints(zones, ids + {id})
  {
    var z := zones[id];
    ZonePointsInsert(zones, ids, id);
    UnionUpdate(base, ZonePoints(zones, ids), ZoneStateKey(id), ZoneText(Zones.Label(z)));
    UnionUpdate(base, ZonePoints(zones, ids)[ZoneStateKey(id) := ZoneText(Zones.Label(z))], ZoneAlarmKey(id), Flag(z.alarm));
  }

  /** One round of the portal label loop over `base` extends the labelled set by `id`. */
  lemma LabelOnePortal(base: map<PointKey, PointValue>, portals: map<int, Portals.PortalState>, ids: set<int>, id: int)
    requires ids <= portals.Keys && id in portals
    ensures (base + PortalPoints(portals, ids))[PortalStateKey(id) := PortalText(Portals.Label(portals[id]))]
         == base + PortalPoints(portals, ids + {id})
  {
    PortalPointsInsert(portals, ids, id);
    UnionUpdate(base, PortalPoints(portals, ids), PortalStateKey(id), PortalText(Portals.Label(portals[id])));
  }

  /** Labelling one more portal adds exactly its state point. */
  lemma PortalPointsInsert(portals: map<int, Portals.PortalState>, ids: set<int>, id: int)
    requires ids <= portals.Keys && id in portals
    ensures PortalPoints(portals, ids + {id})
         == PortalPoints(portals, ids)[PortalStateKey(id) := PortalText(Portals.Label(portals[id]))]
  {
  }
}
