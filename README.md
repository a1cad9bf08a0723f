# Virtual access-control controller in Dafny

This project models the in-memory core of the virtual controller. That controller is a GraphQL mock of a physical
access-control and alarm panel. The model covers two of its parts.

- **The controller of `src/index.js`.** It models:
  - the runtime `state` (zones, portals, the antipassback flag, the event log, the event-id counter, the token lifetime);
  - the zone and portal resolvers with their exact reply strings;
  - `createEvent`/`publishEvent`, and the subscription bus with one FIFO queue per subscriber;
  - `confirmEvent` and `getUnconfirmedEvents`;
  - the label part of `simulatePoints`.
- **The stand-alone server of `server.js`.** It models:
  - the `EVENTS_BUFFER` that `echoEvent` appends to and `confirmEvent` splices;
  - the `resource` id filter;
  - `setTokenTTL`/`setSiteIdentifier` and `configuration`.

The modules are as follows.

| file | module | role |
|---|---|---|
| `optional.dfy` | `Optional` | `Option` |
| `replies.dfy` | `Replies` | the reply vocabulary (`ZONE_ARMED`, `DISARM_REQUIRED`, …) with its wire spelling |
| `decimal.dfy` | `Decimal` | decimal numerals and the `EVT-<n>` identifiers, with their parser |
| `subsequences.dfy` | `Subsequences` | JavaScript `find`/`findIndex`, `filter` and `splice(i, 1)` on sequences, and the order-preserving subsequence relation |
| `events.dfy` | `Events` | the event record, the catalog it is built from, `getUnconfirmedEvents` |
| `zones.dfy` | `Zones` | one zone's state machine and its `ZONE<id>_STATE` label |
| `portals.dfy` | `Portals` | one portal's state machine, the release timer's reset, and the `PORTAL<id>_STATE` label |
| `store.dfy` | `ControllerState` | the whole `state` as a value, each resolver as a function, and invariants over arbitrary call sequences |
| `controller.dfy` | `Controller` | the controller as a class whose methods update its fields in place, each method proved against its `ControllerState` function; subscriptions as objects |
| `scenarios.dfy` | `Scenarios` | whole call sequences on a freshly started controller, with their outcomes |
| `echo_server.dfy` | `EchoServer` | `server.js`: the event buffer as a class, confirmation as a specification function, and the `resource` filter |

The imperative members follow the source's own form:
- `Controller.Controller` and `EchoServer.Server` are classes whose fields are the source's mutable globals.
- `PublishEvent` loops over the subscriber set.
- Both `ConfirmEvent` methods loop over the requested ids.
- The label loop of `simulatePoints` iterates over the zone and portal maps.
- Each such method states its result and its new state through a specification function. The properties are proved about those functions.

### Where the code departs from the expected rules

The model follows the code in each of these cases.

- **Zone rules.** One would expect `testing` and `blocked` to require a disarmed zone. `controlZone` does not enforce this.
  - `controlZone` (src/index.js:331-354) arms a zone that is in test mode.
  - With `override`, it also arms a blocked zone.
  - `Zones.ArmingIgnoresTestAndBlock` exhibits both.
- **`testZone` toggles.** A second call on a zone in test mode ends the test (ZONE_TEST_ENDED). It is not an idempotent ALREADY_STARTED (src/index.js:381-385).
- **Release timer.** One would expect the deferred reset not to undo a release once the portal entered emergency.
  - The timer (src/index.js:438-441) clears `released` without looking at `emergency`.
  - So "emergency implies released" holds only while no timer fires (`ControllerState.RunKeepsPortalsConsistent`).
  - `Portals.TimeoutAfterEmergencyBreaksConsistency` shows the break.
- **The event-type table.**
  - `createEvent` looks its code up in `configuration.events` (src/index.js:178).
  - The `configuration` object in src/testData.js has `eventTypes` and no `events` key. Loaded with that fixture, the lookup would fail after the resolver has already changed the zone or portal.
  - The model follows the evident intent. It looks the code up in the event-type table (which testData.js also exports as `events`), passed as the `Catalog` parameter.
- **`setSiteIdentifier` in `src/index.js`** (318-321) only logs. The site stays what it was. In `server.js` (410-414) it does overwrite `SITE_ID`.
- **Confirmation differs between the two servers.**
  - `src/index.js` marks the found event confirmed and keeps it in the log.
  - `server.js` removes it from the buffer.
  - Both are modelled, each as written.

## Model

| member | source | states |
|---|---|---|
| Decimal.NatToString | src/index.js:181 | the counter written as a non-empty string of decimal digits, with no leading zero except for 0 itself |
| Decimal.ParseNatToString | src/index.js:181 | the decimal numeral of a counter value reads back as that value |
| Decimal.NatToStringInjective | src/index.js:181 | different counter values give different numerals |
| Decimal.EventId | src/index.js:181 | the event id is longer than, and starts with, `EVT-` |
| Decimal.ParseEventIdRoundTrip | src/index.js:181 | `EVT-<n>` parses back to `n` |
| Decimal.EventIdInjective | src/index.js:181 | different counter values give different event ids |
| Subsequences.FirstIndex | src/index.js:178 | `find`: the first position satisfying the predicate, or none when no element does |
| Subsequences.Filter | server.js:374-378 | `filter`: every element satisfying the predicate occurs in the result as often as in the input, no other element occurs, and the original order is kept |
| Subsequences.FilterMembers | server.js:374-378 | an element is in `filter`'s result iff it is in the input and satisfies the predicate |
| Subsequences.RemoveAtIsSubsequence | server.js:404 | `splice(i, 1)` leaves the other elements in their original order |
| Subsequences.IsSubsequenceTransitive | server.js:399-407 | removing elements in several rounds still preserves the original order |
| Events.Template | src/index.js:178-187 | the trigger template is the `desc` of the first catalog entry with the code, or the symbol when there is none or its `desc` is empty |
| Events.UserRefOf | src/index.js:197 | no user block for a missing or zero id; otherwise the id with the name of the first user with that id, or "Unknown" when there is none or its name is empty |
| Events.ReasonFor | src/index.js:187-194 | a reason block iff a point is given: that point, type SYSTEM for the System point and EVENT for a zone or portal, family SYSTEM, the symbol as value |
| Events.NewEvent | src/index.js:177-198 | the new record: its id parses back to the counter value, the site, the code and template, the operator, a reason iff a point is given, a user iff a non-zero user id is given |
| Events.Unconfirmed | src/index.js:299 | `getUnconfirmedEvents` keeps log order |
| Events.UnconfirmedMembers | src/index.js:299 | the unconfirmed events are exactly the logged events whose position is not marked confirmed |
| Events.UnconfirmedNoneConfirmed | src/index.js:299 | with nothing confirmed, every logged event is unconfirmed |
| Events.UnconfirmedAllConfirmed | src/index.js:299 | once every position is confirmed, nothing is unconfirmed |
| Replies.Reply.Name | src/index.js:333-500 | the exact string each modelled resolver returns (`UNKNOWN`, `ZONE_ARMED`, …, `REACTIVATED`); each a non-empty upper-case constant |
| Replies.NameInjective | src/index.js:333-500 | different replies have different strings, so a caller can tell every outcome apart |
| Zones.ZoneEmission | src/index.js:341-407 | the code and symbol each zone resolver passes to `createEvent`: exactly the six accepting replies get one, never a rejection, always a zone event code |
| Zones.ZoneCodesDistinct | src/index.js:341-407 | distinct accepting zone replies carry distinct event codes |
| Zones.ControlStep | src/index.js:331-354 | an armed zone is disarmed and its alarm cleared; a disarmed zone is armed unless blocked without override (BLOCKED_SENSOR, no change); `blocked`/`testing` untouched; ARM/DISARM event exactly on acceptance |
| Zones.RestoreStep | src/index.js:356-369 | RESTORED and alarm cleared when the alarm is active, otherwise ALARM_NOT_ACTIVE with no change |
| Zones.TestStep | src/index.js:371-390 | DISARM_REQUIRED iff armed; otherwise test mode flips, STARTED iff it is now on |
| Zones.BlockStep | src/index.js:392-409 | DISARM_REQUIRED iff armed, ALREADY_BLOCKED iff disarmed and blocked, BLOCKED iff disarmed and unblocked; only BLOCKED changes the zone |
| Zones.Step | src/index.js:331-409 | for every zone command: a rejection is exactly a step that changes nothing and emits no event; no step raises an alarm; `blocked` is only ever set, by BLOCKED |
| Zones.Label | src/index.js:142-151 | the zone label by priority ALARM, TESTING, BLOCKED, ARMED, else DISARMED (each label iff its condition) |
| Zones.ZoneLabel.Name | src/index.js:142-146 | the exact `ZONE<id>_STATE` texts `ALARM`, `TESTING`, `BLOCKED`, `ARMED`, `DISARMED`; each a non-empty upper-case constant |
| Zones.LabelNameInjective | src/index.js:142-146 | different zone labels have different texts |
| Zones.ControlTwice | src/index.js:337-352 | arming then disarming a free zone answers ZONE_ARMED then ZONE_DISARMED and leaves it disarmed without alarm |
| Zones.BlockTwice | src/index.js:402-407 | blocking twice answers BLOCKED then ALREADY_BLOCKED and the zone stays blocked |
| Zones.TestTwice | src/index.js:381-389 | two `testZone` calls on a disarmed zone restore its flags, one STARTED and one ZONE_TEST_ENDED |
| Zones.ArmingIgnoresTestAndBlock | src/index.js:345-351 | `controlZone` arms a testing zone, and with override a blocked one |
| Portals.PortalEmission | src/index.js:434-474 | the code and symbol each portal resolver passes to `createEvent`: exactly RELEASED, DONE and RESTORED get one, never a rejection |
| Portals.PortalCodesDistinct | src/index.js:434-474 | distinct accepting portal replies carry distinct event codes |
| Portals.ReleaseStep | src/index.js:423-444 | EMERGENCY with no change during an emergency, otherwise RELEASED with `released` set |
| Portals.EmergencyStep | src/index.js:446-460 | ALREADY_EMERGENCY with no change, otherwise DONE with the portal in emergency and released |
| Portals.RestoreStep | src/index.js:462-476 | RESTORED with both flags cleared during an emergency, otherwise NORMAL_OPERATION with no change |
| Portals.Step | src/index.js:423-476 | a rejection changes nothing and emits no event; every step keeps "emergency implies released" |
| Portals.TimeoutReset | src/index.js:438-441 | the timer clears `released` and leaves `emergency` as it is |
| Portals.TimeoutAfterEmergencyBreaksConsistency | src/index.js:438-441 | release, then emergency, then the timer leaves a portal in emergency but not released |
| Portals.ReleaseDuringEmergency | src/index.js:429-431 | `releasePortal` during an emergency answers EMERGENCY and `released` stays true |
| Portals.Label | src/index.js:154-158 | the portal label by priority EMERGENCY, RELEASED, else NORMAL (each label iff its condition) |
| Portals.PortalLabel.Name | src/index.js:154-156 | the exact `PORTAL<id>_STATE` texts `EMERGENCY`, `RELEASED`, `NORMAL`; each a non-empty upper-case constant |
| Portals.LabelNameInjective | src/index.js:154-156 | different portal labels have different texts |
| ControllerState.Init | src/index.js:40-48 | at start the store holds exactly the listed zones and portals, each in its initial state; the log and the confirmed marks are empty, the counter is 1, anti-passback is not suspended and the token lifetime is 3600 s; the store invariant holds |
| ControllerState.CreateEvent | src/index.js:177-205 | the new event carries id `EVT-<counter>`, the site, the code with its template, the reason block of its point, the user block of its user id and the operator; it is appended to the log and the counter advances by one; nothing else changes |
| ControllerState.CreateEventKeepsWf | src/index.js:181 | creating an event keeps the ids consecutive |
| ControllerState.ApplyZone | src/index.js:331-409 | UNKNOWN with no change for an absent zone; otherwise the reply and the zone's new flags are that zone's step; a rejection changes nothing; an acceptance appends exactly the event of its reply, with the zone as reason and the caller's operator, and advances the counter; no other zone, no portal and nothing else changes |
| ControllerState.ApplyPortal | src/index.js:423-476 | UNKNOWN with no change for an absent portal; otherwise the reply and the portal's new flags are that portal's step; a rejection changes nothing; an acceptance appends exactly the event of its reply, with the portal as reason and the caller's operator, and advances the counter; nothing else changes |
| ControllerState.ReleaseTimeout | src/index.js:438-441 | the timer resets `released` of that portal only, and does nothing for an unknown portal |
| ControllerState.SuspendAntipassback | src/index.js:480-487 | afterwards suspended; SUSPENDED or ALREADY_SUSPENDED says whether it already was |
| ControllerState.ResumeAntipassback | src/index.js:489-496 | afterwards resumed; RESUMED or ALREADY_RESUMED says whether it was suspended |
| ControllerState.EchoEvent | src/index.js:313-316 | answers "Event published"; appends exactly one event, `EVT-<counter>` with code 0, the System point as reason (type and family SYSTEM, value ECHO) and no user; the counter advances; nothing else changes |
| ControllerState.ConfirmEvents | src/index.js:505-513 | one answer per id; only the confirmed marks can change |
| ControllerState.FindEvent | src/index.js:507 | the position of the first logged event with the id, if there is one; none exactly when no logged event has it |
| ControllerState.ConfirmEventsIds | src/index.js:506-512 | the answers name the requested ids in request order |
| ControllerState.ConfirmEventsStatus | src/index.js:507-511 | an answer is CONFIRMED iff some logged event has that id |
| ControllerState.ConfirmEventsMarks | src/index.js:507-510 | the confirmed positions grow by exactly the first logged event of each id found |
| ControllerState.ConfirmedLeaveUnconfirmed | src/index.js:505-513 | an id answered CONFIRMED is no longer among the unconfirmed events |
| ControllerState.NoUnconfirmedWithId | src/index.js:299 | with distinct ids, a confirmed position's id is carried by no unconfirmed event |
| ControllerState.LoggedIdsAreConsecutive | src/index.js:181 | in a reachable store the i-th logged id parses back as i+1 |
| ControllerState.SetTokenTTL | src/index.js:323-327 | only the token lifetime changes, to the new value |
| ControllerState.GetAuthToken | src/index.js:266-282 | tokens iff login and password are both `admin`; the main token lives for the current TTL, the refresh token 7 days |
| ControllerState.RefreshAuthToken | src/index.js:284-297 | a new pair for anybody, with the same lifetimes |
| ControllerState.ApplyKeepsWf | src/index.js:331-513 | every call keeps the store invariant, only appends to the log, and keeps the zone and portal ids |
| ControllerState.ZoneCallKeepsWf | src/index.js:331-409 | a zone call keeps the store invariant and only appends to the log |
| ControllerState.PortalCallKeepsWf | src/index.js:423-476 | a portal call keeps the store invariant and only appends to the log |
| ControllerState.RunKeepsWf | src/index.js:177-205 | over any sequence of calls, event ids stay consecutive, the log only grows at its end, and no zone or portal appears or disappears |
| ControllerState.ApplyKeepsNoAlarmAndBlocks | src/index.js:331-409 | no call raises an alarm or clears `blocked` |
| ControllerState.RunKeepsNoAlarmAndBlocks | src/index.js:331-409 | over any sequence of calls a store without alarms stays so, and a blocked zone stays blocked |
| ControllerState.RestoreZoneNeverRestores | src/index.js:356-369 | from the initial state `restoreZone` can only answer ALARM_NOT_ACTIVE or UNKNOWN |
| ControllerState.ApplyKeepsPortalsConsistent | src/index.js:423-476 | every call other than the timer keeps "emergency implies released" |
| ControllerState.RunKeepsPortalsConsistent | src/index.js:423-476 | over any sequence of calls without timer firings, "emergency implies released" holds for every portal |
| ControllerState.RelabelledContent | src/index.js:142-160 | after the label loop every zone shows its label and alarm flag and every portal its label; no other key is added and every other point is unchanged |
| ControllerState.ZonePointsInsert | src/index.js:142-152 | labelling one more zone adds exactly its two points |
| ControllerState.PortalPointsInsert | src/index.js:154-160 | labelling one more portal adds exactly its state point |
| ControllerState.LabelOneZone | src/index.js:149-150 | one round of the zone loop over the points extends the labelled set by one zone |
| ControllerState.LabelOnePortal | src/index.js:159 | one round of the portal loop over the points extends the labelled set by one portal |
| Controller.Subscription.constructor | src/index.js:670-684 | a new subscription starts with an empty queue and nothing received, positioned at the given log length |
| Controller.Subscription.Deliver | src/index.js:675-683 | the callback appends the event to the queue |
| Controller.Pick | src/index.js:142 | the next entry a `for..of` over the map visits is one not yet visited |
| Controller.Controller.constructor | src/index.js:40-48 | the controller starts in `Init` with no subscriptions and no points |
| Controller.Controller.PublishEvent | src/index.js:170-175 | the event is appended to the log and to the queue of every live subscription, and nothing else in them changes |
| Controller.Controller.CreateEvent | src/index.js:177-205 | the fields change as `ControllerState.CreateEvent` says, and every subscriber receives exactly the new event |
| Controller.Controller.ControlZone | src/index.js:331-354 | reply and new state are `ApplyZone` for `controlZone`; subscribers receive exactly the new events; points untouched |
| Controller.Controller.RestoreZone | src/index.js:356-369 | reply and new state are `ApplyZone` for `restoreZone`; subscribers receive exactly the new events |
| Controller.Controller.TestZone | src/index.js:371-390 | reply and new state are `ApplyZone` for `testZone`; subscribers receive exactly the new events |
| Controller.Controller.BlockZone | src/index.js:392-409 | reply and new state are `ApplyZone` for `blockZone`; subscribers receive exactly the new events |
| Controller.Controller.ReleasePortal | src/index.js:423-444 | reply and new state are `ApplyPortal` for `releasePortal`; subscribers receive exactly the new events |
| Controller.Controller.EmergencyPortal | src/index.js:446-460 | reply and new state are `ApplyPortal` for `emergencyPortal`; subscribers receive exactly the new events |
| Controller.Controller.RestorePortal | src/index.js:462-476 | reply and new state are `ApplyPortal` for `restorePortal`; subscribers receive exactly the new events |
| Controller.Controller.ReleaseTimerFires | src/index.js:438-441 | the timer's reset as `ReleaseTimeout`, then the points relabelled from the new state |
| Controller.Controller.SuspendAntipassback | src/index.js:480-487 | as `ControllerState.SuspendAntipassback` |
| Controller.Controller.ResumeAntipassback | src/index.js:489-496 | as `ControllerState.ResumeAntipassback` |
| Controller.Controller.ReactivateAntipassback | src/index.js:498-501 | always REACTIVATED, nothing changes |
| Controller.Controller.EchoEvent | src/index.js:313-316 | as `ControllerState.EchoEvent`; subscribers receive the echo event |
| Controller.Controller.SetSiteIdentifier | src/index.js:318-321 | answers true and changes nothing |
| Controller.Controller.SetTokenTTL | src/index.js:323-327 | answers true; only the token lifetime changes |
| Controller.Controller.GetAuthToken | src/index.js:266-282 | as `ControllerState.GetAuthToken` on the current state |
| Controller.Controller.GetUnconfirmedEvents | src/index.js:299 | the logged events not marked confirmed, in log order |
| Controller.Controller.ConfirmEvent | src/index.js:505-513 | answers and new state are `ConfirmEvents` on the old state; the invariant is kept |
| Controller.Controller.Subscribe | src/index.js:670-684 | registers a fresh, empty subscription positioned at the end of the log |
| Controller.Controller.Next | src/index.js:687-692 | hands out the oldest queued event and removes it; nothing on an empty queue |
| Controller.Controller.Unsubscribe | src/index.js:693-700 | the subscription leaves the bus and receives nothing more |
| Controller.Controller.SimulatePoints | src/index.js:142-160 | the points become `Relabelled` over their old value |
| Controller.LabelZones | src/index.js:142-152 | the zone loop writes both points of every zone over the given points |
| Controller.LabelPortals | src/index.js:154-160 | the portal loop writes the label point of every portal over the given points |
| Scenarios.ArmBlockDisarm | src/index.js:331-409 | arm, refused block, disarm answer ZONE_ARMED, DISARM_REQUIRED, ZONE_DISARMED; a subscriber sees exactly EVT-1 (ARM, with its operator) and EVT-2 (DISARM) |
| Scenarios.ArmBlockDisarmRun | src/index.js:331-409 | the same run on the store |
| Scenarios.BlockedZone | src/index.js:337-352 | BLOCKED, ALREADY_BLOCKED, BLOCKED_SENSOR, ZONE_ARMED; the override arms the still-blocked zone; two events delivered |
| Scenarios.LateSubscriber | src/index.js:670-692 | a subscriber sees only events published after it subscribed; `next` on an empty queue yields nothing |
| Scenarios.Unsubscribed | src/index.js:693-700 | after `return`, published events no longer reach the subscription |
| Scenarios.TokenLifetime | src/index.js:266-282 | a new TTL is the next login's main-token lifetime; wrong credentials get nothing |
| Scenarios.ConfirmFlow | src/index.js:505-513 | confirming EVT-1 and an unknown id answers CONFIRMED then NOT_FOUND, and only EVT-2 stays unconfirmed |
| Scenarios.ConfirmFirstOfTwo | src/index.js:505-513 | the same on the store |
| Scenarios.ConfirmFoundThenMissing | src/index.js:505-513 | a found id then a missing one: CONFIRMED, NOT_FOUND, one position marked |
| Scenarios.SecondLeftUnconfirmed | src/index.js:299 | with the first of two events confirmed, only the second is unconfirmed |
| Scenarios.PortalFlow | src/index.js:423-476 | release, emergency, release, restore, restore answer RELEASED, DONE, EMERGENCY, RESTORED, NORMAL_OPERATION, ending in the initial state |
| Scenarios.TimerDuringEmergency | src/index.js:438-441 | a timer firing during an emergency leaves the portal in emergency, not released, still labelled EMERGENCY |
| Scenarios.ArmedLabel | src/index.js:142-151 | an armed zone is labelled ARMED with no alarm |
| Scenarios.AntipassbackToggle | src/index.js:480-501 | SUSPENDED, ALREADY_SUSPENDED, RESUMED, ALREADY_RESUMED, REACTIVATED |
| EchoServer.EchoRecord | server.js:297-317 | the echo event: the site, the given id, type 9999 with the fixed template, the first point (if any) as reason and sole point, the first user (if any), operator 1 |
| EchoServer.ConfirmOne | server.js:399-406 | one round answers with the id it was given |
| EchoServer.ConfirmOneSpec | server.js:400-405 | a round is CONFIRMED iff some buffered event has the id; then exactly the first such event is spliced out, otherwise the buffer is unchanged |
| EchoServer.RemoveAtMembers | server.js:404 | `splice(i, 1)` keeps every other element, adds none, and keeps ids distinct |
| EchoServer.ConfirmOneRemainder | server.js:400-405 | a round shrinks the buffer by one exactly when CONFIRMED, keeps order and every event with another id; with distinct ids the confirmed id is gone |
| EchoServer.CountConfirmed | server.js:396-409 | the number of CONFIRMED answers, never more than the answers; the measure `ConfirmAllRemainder` uses for how many events leave the buffer (not itself a promise of server.js) |
| EchoServer.ConfirmAll | server.js:396-409 | one answer per requested id |
| EchoServer.ConfirmAllRemainder | server.js:396-409 | the buffer keeps its order, loses exactly one event per CONFIRMED answer, keeps every event whose id was not asked for, gains nothing, and keeps ids distinct |
| EchoServer.ConfirmAllAppend | server.js:399-407 | confirming a list and then another is confirming their concatenation |
| EchoServer.ConfirmAllAt | server.js:399-407 | the k-th answer names `ids[k]` and is CONFIRMED iff an event with that id is still buffered when it is processed |
| EchoServer.GoneAfterOwnRound | server.js:400-405 | with distinct ids, after an id's round no event with it is buffered |
| EchoServer.StaysGone | server.js:396-409 | confirming never brings an id back into the buffer |
| EchoServer.RepeatedIdNotFound | server.js:396-409 | with distinct buffer ids, a later repetition of an id in the same call is NOT_FOUND |
| EchoServer.ConfirmTwice | server.js:396-409 | `[id, id]` on a buffer holding it answers CONFIRMED then NOT_FOUND |
| EchoServer.Resource | server.js:369-380 | with a non-empty list, a point (group) is in the answer iff it is in the table and its id is listed, as often as it occurs in the table, in table order; with no list or an empty one, the whole table |
| EchoServer.Server.constructor | server.js:15-21 | the server starts with the given site, TTL 3600 and an empty buffer |
| EchoServer.Server.Config | server.js:346-359 | `configuration` reports the current site, the current TTL and the event-type table |
| EchoServer.Server.GetUnconfirmedEvents | server.js:381-386 | the number of buffered events |
| EchoServer.Server.EchoEvent | server.js:390-395 | answers true and appends exactly the echo record to the end of the buffer |
| EchoServer.Server.ConfirmEvent | server.js:396-409 | the answers and the new buffer are `ConfirmAll` on the old buffer |
| EchoServer.Server.SetSiteIdentifier | server.js:410-414 | answers true and overwrites the site |
| EchoServer.Server.SetTokenTTL | server.js:415-419 | answers true and overwrites the token lifetime |
| EchoServer.EchoConfirmFlow | server.js:390-409 | two echoes, then confirming the first id twice and an unknown one: CONFIRMED, NOT_FOUND, NOT_FOUND, and one event left |
| EchoServer.SettingsReported | server.js:346-359 | after both setters, `configuration` reports the new site and lifetime |

## Left out

- **Transport and I/O.** Not modelled:
  - Apollo/Express/WebSocket setup, health routes and logging (src/index.js:710-778, server.js:434-483);
  - `console.log` calls.
- **Token signing.**
  - JWT signing and its secret (src/index.js:266-297) are not modelled. Only the credential check and the token lifetimes are.
  - `server.js`'s `getAuthToken`/`refreshAuthToken` (328-345) issue uuid tokens for any login, which is not modelled.
- **Clock and randomness.**
  - Timestamps (`dateTime`, `created`) are not kept.
  - uuids are parameters: the id given to `EchoServer.Server.EchoEvent`, and the site given to `EchoServer.Server.constructor` in place of the environment or the generated `VC-…` name.
- **Timers.**
  - The 10-second `setInterval` and the release delay are not modelled.
  - The delay is `portalDef?.release || 5` (src/index.js:437). The fixture keeps each portal's `release` inside its JSON `content` string, so the delay is 5 seconds.
  - The release timer's callback is an operation the caller invokes (`Controller.Controller.ReleaseTimerFires`), so any interleaving of it with other calls can be expressed. Its delay is not.
  - This over-approximates the source. The model also lets the timer fire for a portal with no pending release, or twice for one release, which the source cannot do. The lemmas about runs quantify over all of these sequences, so they cover the source's runs in particular.
  - The environmental part of `simulatePoints` (temperatures, CO2, battery; src/index.js:94-139) uses clock time, `Math.random` and floating point. Only the zone and portal label loop is modelled.
  - The random event generator (src/index.js:781-802) is driven by `Math.random` and a timer, and is not modelled.
- **Controller.Controller.Next** models the promise left pending on an empty queue as `None`. An event published later goes to the queue and is returned by the following `Next`. The direct hand-over to a waiting `resolve` (src/index.js:676-678) is not modelled separately. It delivers the same events in the same order.
- **Controller.Controller.PublishEvent** visits the subscriptions of the `Set` in an unspecified order. Insertion order does not matter here, because each subscription only sees its own queue.
- **Confirmed flag.** `src/index.js` sets `confirmed` on the event object, which subscribers' copies share by reference. The model keeps the confirmed positions in the store and hands subscribers plain values. The aliasing is not modelled because the API never exposes the flag to subscribers.
- **Static tables.** `configuration`, `authorization` and the CRUD mutations for schedulers, special days, access levels and users (src/index.js:517-665) are not modelled, nor are `getControllerInfo` (src/index.js:301-309) and `blockZoneSensor`/`unblockZoneSensor` (src/index.js:411-421); the `UNBLOCKED` reply of the latter is therefore not among the replies modelled.
  - src/testData.js and src/testData-3.js are not part of this model. The event-type table, the users and the site they supply are the `Catalog` parameter that `createEvent` reads. The zones and portals are the store's maps, with ids 1 to 3 (`ControllerState.FixtureIds`).
- **Point values in `src/index.js`.**
  - Not modelled: `resource`, `getPointValue`, `buildPointWithValue` and `buildGroupWithValues` (src/index.js:208-262). They build JSON renderings of the points with timestamps.
  - Not modelled: the initial points table (src/index.js:51-89), including its `ZONE3_STATE` of ARMED for a zone that starts disarmed.
  - The labels and alarm flags themselves are modelled, as typed values whose `Name()` is the wire text. They are not JSON strings.
- **`server.js` fixture tables.** The inputs, outputs, readers, zones, portals and faults tables are not part of `EchoServer.Configuration`. Only the site, the event types and the token lifetime are.
  - The `Subscription.events` resolver of `server.js` (422-428) always throws and is not modelled.
- **Integer widths.** `setTokenTTL` accepts any integer. The GraphQL `Int` range is not modelled.
- **The event-id counter** `state.eventIdCounter` is a JavaScript number. From 2^53, `++` no longer changes it, so ids repeat. From 10^21, `${n}` switches to exponent notation, so ids change form. The model's counter is an unbounded `nat`. The lemmas below therefore describe the source only while the counter stays below 2^53, that is, for the first 2^53 - 1 events.
- Decimal.EventIdInjective: holds for the source only for counter values below 2^53, because of the JavaScript number limits above.
- ControllerState.LoggedIdsAreConsecutive: holds for the source only while fewer than 2^53 - 1 events have been created.
- ControllerState.RunKeepsWf: the consecutive-ids part holds for the source only while the counter stays below 2^53.
- **EchoServer.ConfirmOne** states only that its answer names the id. What it means is stated by `EchoServer.ConfirmOneSpec` and `EchoServer.ConfirmOneRemainder`, kept apart to keep each proof small.
- **EchoServer.ConfirmAll** states only the answer count. The order, the per-id outcome and the remaining buffer are proved in `EchoServer.ConfirmAllAt`, `EchoServer.ConfirmAllRemainder` and `EchoServer.RepeatedIdNotFound`.
- **ControllerState.ConfirmEvents** states only the answer count and that nothing but the confirmed marks changes. The rest is in `ConfirmEventsIds`, `ConfirmEventsStatus` and `ConfirmEventsMarks`.
