/**
 * The stand-alone virtual controller of server.js: a buffer of echo events
 * that clients confirm by id, the `resource` id filter, and the two settings
 * `configuration` reports.
 */
module EchoServer {
  import opened Optional
  import opened Subsequences
  import Events

  /** An entry of the static `POINTS` table. */
  datatype Point = Point(id: string, name: string, valueType: string, value: string)

  /** An entry of the static `GROUPS` table; a group nests points and further groups. */
  datatype Group = Group(id: string, name: string, leader: Option<string>, points: seq<Point>, groups: seq<Group>)

  /** The part of a `USERS` entry the echo event carries. */
  datatype User = User(id: int, name: string)

  datatype Trigger = Trigger(kind: int, template: string)

  /** A buffered echo event; `dateTime` and the always-empty `extensions` are not kept. */
  datatype BufferedEvent = BufferedEvent(
    site: string,
    id: string,
    trigger: Trigger,
    reason: Option<Point>,
    points: seq<Point>,
    user: Option<User>,
    operator: int)

  datatype ConfirmStatus = Confirmed | NotFound

  /** One entry of `confirmEvent`'s answer: `{ id, result }`. */
  datatype ConfirmReply = ConfirmReply(id: string, result: ConfirmStatus)

  /** What `configuration` reports that can change; the static device tables are not kept. */
  datatype Configuration = Configuration(site: string, events: seq<Events.EventType>, tokenTTL: int)

  /** `resource`'s answer. */
  datatype Selection = Selection(points: seq<Point>, groups: seq<Group>)

  const EchoTriggerType := 9999
  const EchoTemplate := "Echo event from virtual controller"
  const EchoOperator := 1
  const InitialTokenTTL := 3600

  /**
   * `createEchoEvent` with `id` as the fresh uuid: the first point (if any)
   * as the reason and sole point, the first user (if any), operator 1.
   */
  function EchoRecord(site: string, id: string, points: seq<Point>, users: seq<User>): (e: BufferedEvent)
    ensures e.site == site && e.id == id && e.operator == EchoOperator
    ensures e.trigger == Trigger(EchoTriggerType, EchoTemplate)
    ensures e.reason.Some? <==> points != []
    ensures e.points == (if e.reason.Some? then [e.reason.value] else [])
    ensures e.reason.Some? ==> e.reason.value == points[0]
    ensures e.user.Some? <==> users != []
    ensures e.user.Some? ==> e.user.value == users[0]
  {
    var reason := if points != [] then Some(points[0]) else None;
    BufferedEvent(site, id, Trigger(EchoTriggerType, EchoTemplate), reason,
                  if reason.Some? then [reason.value] else [],
                  if users != [] then Some(users[0]) else None,
                  EchoOperator)
  }

  /** No two buffered events share an id. */
  ghost predicate DistinctIds(buf: seq<BufferedEvent>) {
    forall i, j :: 0 <= i < |buf| && 0 <= j < |buf| && buf[i].id == buf[j].id ==> i == j
  }

  /** Some buffered event has this id. */
  ghost predicate Present(buf: seq<BufferedEvent>, id: string) {
    exists e :: e in buf && e.id == id
  }

  /** Position `i` holds the first buffered event with this id (JavaScript `findIndex`). */
  ghost predicate FirstWith(buf: seq<BufferedEvent>, id: string, i: int) {
    0 <= i < |buf| && buf[i].id == id && forall j :: 0 <= j < i ==> buf[j].id != id
  }

  /**
   * One round of `confirmEvent`'s loop: the first event with this id is
   * spliced out and the id is CONFIRMED, or nothing changes and it is NOT_FOUND.
   */
  function ConfirmOne(buf: seq<BufferedEvent>, id: string): (r: (ConfirmReply, seq<BufferedEvent>))
    ensures r.0.id == id
  {
    match FirstIndex(buf, (e: BufferedEvent) => e.id == id)
    case None => (ConfirmReply(id, NotFound), buf)
    case Some(i) => (ConfirmReply(id, Confirmed), buf[..i] + buf[i + 1..])
  }

  /**
   * A round answers CONFIRMED exactly when some buffered event has the id;
   * then the first such event, and only it, is removed, otherwise the buffer
   * is left as it was.
   */
  lemma ConfirmOneSpec(buf: seq<BufferedEvent>, id: string)
    ensures var r := ConfirmOne(buf, id);
            (r.0.result == Confirmed <==> Present(buf, id))
            && (r.0.result == NotFound ==> r.1 == buf)
            && (r.0.result == Confirmed ==> exists i :: FirstWith(buf, id, i) && r.1 == buf[..i] + buf[i + 1..])
  {
    match FirstIndex(buf, (e: BufferedEvent) => e.id == id)
    case None =>
      forall e | e in buf
        ensures e.id != id
      {
        var k :| 0 <= k < |buf| && buf[k] == e;
      }
    case Some(i) =>
      assert buf[i] in buf;
  }

  /** What `splice(i, 1)` leaves: every other element, in order. */
  lemma RemoveAtMembers(buf: seq<BufferedEvent>, i: nat)
    requires i < |buf|
    ensures var rest := buf[..i] + buf[i + 1..];
            |rest| == |buf| - 1
            && (forall e :: e in rest ==> e in buf)
            && (forall k :: 0 <= k < |buf| && k != i ==> buf[k] in rest)
            && (DistinctIds(buf) ==> DistinctIds(rest) && forall e :: e in rest ==> e.id != buf[i].id)
  {
    var rest := buf[..i] + buf[i + 1..];
    assert forall k :: 0 <= k < |rest| ==> rest[k] == buf[if k < i then k else k + 1];
    forall k | 0 <= k < |buf| && k != i
      ensures buf[k] in rest
    {
      assert rest[if k < i then k else k - 1] == buf[k];
    }
  }

  /**
   * The buffer after one round keeps its order and loses exactly the
   * confirmed event; distinct ids stay distinct, and the confirmed id is gone.
   */
  lemma ConfirmOneRemainder(buf: seq<BufferedEvent>, id: string)
    ensures var r := ConfirmOne(buf, id);
            |r.1| == |buf| - (if r.0.result == Confirmed then 1 else 0)
            && IsSubsequence(r.1, buf)
            && (forall e :: e in r.1 ==> e in buf)
            && (forall e :: e in buf && e.id != id ==> e in r.1)
            && (DistinctIds(buf) ==> DistinctIds(r.1) && !Present(r.1, id))
  {
    var r := ConfirmOne(buf, id);
    ConfirmOneSpec(buf, id);
    if r.0.result == NotFound {
      IsSubsequenceReflexive(buf);
    } else {
      var i :| FirstWith(buf, id, i) && r.1 == buf[..i] + buf[i + 1..];
      RemoveAtIsSubsequence(buf, i);
      RemoveAtMembers(buf, i);
      forall e | e in buf && e.id != id
        ensures e in r.1
      {
        var k :| 0 <= k < |buf| && buf[k] == e;
      }
    }
  }

  /** How many answers are CONFIRMED. */
  function CountConfirmed(rs: seq<ConfirmReply>): (n: nat)
    ensures n <= |rs|
    decreases |rs|
  {
    if rs == [] then 0 else (if rs[0].result == Confirmed then 1 else 0) + CountConfirmed(rs[1..])
  }

  /**
   * `confirmEvent(ids)` on buffer `buf`: one answer per id, in the order of
   * `ids`, and the buffer left behind.
   */
  function ConfirmAll(buf: seq<BufferedEvent>, ids: seq<string>): (r: (seq<ConfirmReply>, seq<BufferedEvent>))
    ensures |r.0| == |ids|
    decreases |ids|
  {
    if ids == [] then ([], buf)
    else
      var one := ConfirmOne(buf, ids[0]);
      var more := ConfirmAll(one.1, ids[1..]);
      ([one.0] + more.0, more.1)
  }

  /**
   * What `confirmEvent` leaves in the buffer: the remaining events in their
   * old order, one fewer per CONFIRMED answer, every event whose id was not
   * asked for, and nothing new; distinct ids stay distinct.
   */
  lemma {:induction false} ConfirmAllRemainder(buf: seq<BufferedEvent>, ids: seq<string>)
    ensures var r := ConfirmAll(buf, ids);
            |r.1| + CountConfirmed(r.0) == |buf|
            && IsSubsequence(r.1, buf)
            && (forall e :: e in r.1 ==> e in buf)
            && (forall e :: e in buf && e.id !in ids ==> e in r.1)
            && (DistinctIds(buf) ==> DistinctIds(r.1))
    decreases |ids|
  {
    if ids == [] {
      IsSubsequenceReflexive(buf);
    } else {
      var one := ConfirmOne(buf, ids[0]);
      ConfirmOneRemainder(buf, ids[0]);
      ConfirmAllRemainder(one.1, ids[1..]);
      var more := ConfirmAll(one.1, ids[1..]);
      IsSubsequenceTransitive(more.1, one.1, buf);
      assert ([one.0] + more.0)[1..] == more.0;
      forall e | e in buf && e.id !in ids
        ensures e in more.1
      {
        assert ids == [ids[0]] + ids[1..];
      }
    }
  }

  /** Confirming `a` and then `b` is confirming `a + b`. */
  lemma {:induction false} ConfirmAllAppend(buf: seq<BufferedEvent>, a: seq<string>, b: seq<string>)
    ensures var first := ConfirmAll(buf, a);
            var second := ConfirmAll(first.1, b);
            ConfirmAll(buf, a + b) == (first.0 + second.0, second.1)
    decreases |a|
  {
    if a == [] {
      assert a + b == b;
      assert [] + ConfirmAll(buf, b).0 == ConfirmAll(buf, b).0;
    } else {
      assert (a + b)[0] == a[0] && (a + b)[1..] == a[1..] + b;
      var one := ConfirmOne(buf, a[0]);
      ConfirmAllAppend(one.1, a[1..], b);
      var tail := ConfirmAll(one.1, a[1..]);
      var second := ConfirmAll(tail.1, b);
      assert ConfirmAll(buf, a) == ([one.0] + tail.0, tail.1);
      assert ConfirmAll(buf, a + b) == ([one.0] + (tail.0 + second.0), second.1);
      assert [one.0] + (tail.0 + second.0) == ([one.0] + tail.0) + second.0;
    }
  }

  /**
   * The `k`-th answer is CONFIRMED exactly when an event with `ids[k]` is
   * still in the buffer once the ids before it have been processed.
   */
  lemma ConfirmAllAt(buf: seq<BufferedEvent>, ids: seq<string>, k: nat)
    requires k < |ids|
    ensures var before := ConfirmAll(buf, ids[..k]).1;
            ConfirmAll(buf, ids).0[k] == ConfirmOne(before, ids[k]).0
            && ConfirmAll(buf, ids).0[k].id == ids[k]
            && (ConfirmAll(buf, ids).0[k].result == Confirmed <==> Present(before, ids[k]))
  {
    assert ids == ids[..k] + ids[k..];
    ConfirmAllAppend(buf, ids[..k], ids[k..]);
    ConfirmOneSpec(ConfirmAll(buf, ids[..k]).1, ids[k]);
  }

  /**
   * With distinct ids in the buffer, an id given again later in the same call
   * is NOT_FOUND the second time: the first occurrence removed its only event.
   */
  lemma RepeatedIdNotFound(buf: seq<BufferedEvent>, ids: seq<string>, k: nat, l: nat)
    requires DistinctIds(buf)
    requires k < l < |ids| && ids[k] == ids[l]
    ensures ConfirmAll(buf, ids).0[l].result == NotFound
  {
    GoneAfterOwnRound(buf, ids, k);
    var bk1 := ConfirmAll(buf, ids[..k + 1]).1;
    assert ids[..l] == ids[..k + 1] + ids[k + 1..l];
    ConfirmAllAppend(buf, ids[..k + 1], ids[k + 1..l]);
    StaysGone(bk1, ids[k + 1..l], ids[k]);
    ConfirmAllAt(buf, ids, l);
  }

  /** With distinct ids, once the round for `ids[k]` is over no buffered event carries that id. */
  lemma GoneAfterOwnRound(buf: seq<BufferedEvent>, ids: seq<string>, k: nat)
    requires DistinctIds(buf) && k < |ids|
    ensures !Present(ConfirmAll(buf, ids[..k + 1]).1, ids[k])
  {
    var bk := ConfirmAll(buf, ids[..k]).1;
    ConfirmAllRemainder(buf, ids[..k]);
    ConfirmOneRemainder(bk, ids[k]);
    assert ids[..k + 1] == ids[..k] + [ids[k]];
    ConfirmAllAppend(buf, ids[..k], [ids[k]]);
    assert ConfirmAll(bk, [ids[k]]).1 == ConfirmOne(bk, ids[k]).1;
  }

  /** Confirming cannot bring an id back into the buffer. */
  lemma StaysGone(buf: seq<BufferedEvent>, ids: seq<string>, id: string)
    requires !Present(buf, id)
    ensures !Present(ConfirmAll(buf, ids).1, id)
  {
    ConfirmAllRemainder(buf, ids);
  }

  /** On a buffer holding an event with `id` and no other with it, `[id, id]` is CONFIRMED then NOT_FOUND. */
  lemma ConfirmTwice(buf: seq<BufferedEvent>, id: string)
    requires DistinctIds(buf) && Present(buf, id)
    ensures ConfirmAll(buf, [id, id]).0 == [ConfirmReply(id, Confirmed), ConfirmReply(id, NotFound)]
  {
    ConfirmAllAt(buf, [id, id], 0);
    assert [id, id][..0] == [];
    RepeatedIdNotFound(buf, [id, id], 0, 1);
  }

  /** `args.points && args.points.length`: a list given and non-empty narrows the answer. */
  predicate Narrows(wanted: Option<seq<string>>) {
    wanted.Some? && |wanted.value| > 0
  }

  /**
   * `resource`: the points, and the groups, whose id is in the requested
   * list, in table order; all of them when no list or an empty list is given.
   */
  function Resource(points: seq<Point>, groups: seq<Group>,
                    wantedPoints: Option<seq<string>>, wantedGroups: Option<seq<string>>): (r: Selection)
    ensures !Narrows(wantedPoints) ==> r.points == points
    ensures Narrows(wantedPoints) ==> IsSubsequence(r.points, points)
    ensures Narrows(wantedPoints) ==> forall p :: p in r.points <==> p in points && p.id in wantedPoints.value
    ensures Narrows(wantedPoints) ==>
              forall p :: multiset(r.points)[p] == (if p.id in wantedPoints.value then multiset(points)[p] else 0)
    ensures !Narrows(wantedGroups) ==> r.groups == groups
    ensures Narrows(wantedGroups) ==> IsSubsequence(r.groups, groups)
    ensures Narrows(wantedGroups) ==> forall g :: g in r.groups <==> g in groups && g.id in wantedGroups.value
    ensures Narrows(wantedGroups) ==>
              forall g :: multiset(r.groups)[g] == (if g.id in wantedGroups.value then multiset(groups)[g] else 0)
  {
    var pts :=
      if Narrows(wantedPoints) then
        var keep := (p: Point) => p.id in wantedPoints.value;
        FilterMembers(points, keep);
        Filter(points, keep)
      else points;
    var grps :=
      if Narrows(wantedGroups) then
        var keep := (g: Group) => g.id in wantedGroups.value;
        FilterMembers(groups, keep);
        Filter(groups, keep)
      else groups;
    Selection(pts, grps)
  }

  /**
   * The module-level state of server.js: `SITE_ID`, `TOKEN_TTL` and
   * `EVENTS_BUFFER`, over the fixed `POINTS`, `GROUPS`, `USERS` and event-type
   * tables.
   */
  class Server {
    var site: string
    var tokenTTL: int
    var buffer: seq<BufferedEvent>
    const points: seq<Point>
    const groups: seq<Group>
    const users: seq<User>
    const eventTypes: seq<Events.EventType>

    /** Start-up: `site` is `SITE_ID` from the environment or the generated `VC-…` name. */
    constructor (site: string, points: seq<Point>, groups: seq<Group>, users: seq<User>,
                 eventTypes: seq<Events.EventType>)
      ensures this.site == site && tokenTTL == InitialTokenTTL && buffer == []
      ensures this.points == points && this.groups == groups && this.users == users
      ensures this.eventTypes == eventTypes
    {
      this.site := site;
      tokenTTL := InitialTokenTTL;
      buffer := [];
      this.points := points;
      this.groups := groups;
      this.users := users;
      this.eventTypes := eventTypes;
    }

    /** `configuration`: the current site identifier and token lifetime with the event-type table. */
    function Config(): (c: Configuration)
      reads this
      ensures c.site == site && c.tokenTTL == tokenTTL && c.events == eventTypes
    {
      Configuration(site, eventTypes, tokenTTL)
    }

    /** `getUnconfirmedEvents`: how many events are buffered. */
    method GetUnconfirmedEvents() returns (n: nat)
      ensures n == |buffer|
    {
      n := |buffer|;
    }

    /** `echoEvent` with `id` as the fresh uuid: appends exactly one event and answers true. */
    method EchoEvent(id: string) returns (ok: bool)
      modifies this`buffer
      ensures ok
      ensures buffer == old(buffer) + [EchoRecord(site, id, points, users)]
    {
      buffer := buffer + [EchoRecord(site, id, points, users)];
      ok := true;
    }

    /** `confirmEvent`: for each id in turn, splice out the first event carrying it. */
    method ConfirmEvent(ids: seq<string>) returns (results: seq<ConfirmReply>)
      modifies this`buffer
      ensures (results, buffer) == ConfirmAll(old(buffer), ids)
    {
      results := [];
      var k := 0;
      assert ids[k..] == ids;
      assert results + ConfirmAll(buffer, ids).0 == ConfirmAll(buffer, ids).0;
      while k < |ids|
        invariant 0 <= k <= |ids|
        invariant var rest := ConfirmAll(buffer, ids[k..]);
                  ConfirmAll(old(buffer), ids) == (results + rest.0, rest.1)
      {
        var evId := ids[k];
        assert ids[k..][0] == evId && ids[k..][1..] == ids[k + 1..];
        var one := ConfirmOne(buffer, evId);
        var more := ConfirmAll(one.1, ids[k + 1..]);
        assert ConfirmAll(buffer, ids[k..]) == ([one.0] + more.0, more.1);
        assert results + ([one.0] + more.0) == (results + [one.0]) + more.0;
        match FirstIndex(buffer, (e: BufferedEvent) => e.id == evId) {
          case None =>
            results := results + [ConfirmReply(evId, NotFound)];
          case Some(idx) =>
            buffer := buffer[..idx] + buffer[idx + 1..];
            results := results + [ConfirmReply(evId, Confirmed)];
        }
        k := k + 1;
      }
      assert ids[k..] == [];
      assert results + [] == results;
    }

    /** `setSiteIdentifier`: later events and `configuration` carry the new site. */
    method SetSiteIdentifier(id: string) returns (ok: bool)
      modifies this`site
      ensures ok && site == id
    {
      site := id;
      ok := true;
    }

    /** `setTokenTTL`: `configuration` reports the new lifetime. */
    method SetTokenTTL(ttl: int) returns (ok: bool)
      modifies this`tokenTTL
      ensures ok && tokenTTL == ttl
    {
      tokenTTL := ttl;
      ok := true;
    }
  }

  /**
   * Two echo events, then a confirmation of the first id twice and of an
   * unknown id: CONFIRMED, NOT_FOUND, NOT_FOUND, and only the second event
   * is left.
   */
  method EchoConfirmFlow(pts: seq<Point>, usr: seq<User>) returns (answers: seq<ConfirmReply>, left: nat)
    ensures answers == [ConfirmReply("a", Confirmed), ConfirmReply("a", NotFound), ConfirmReply("z", NotFound)]
    ensures left == 1
  {
    var s := new Server("VC-1", pts, [], usr, []);
    var ok1 := s.EchoEvent("a");
    var ok2 := s.EchoEvent("b");
    var buf := s.buffer;
    assert buf[0].id == "a" && buf[1].id == "b";
    assert DistinctIds(buf);
    assert buf[0] in buf;
    ConfirmTwice(buf, "a");
    var ids := ["a", "a", "z"];
    ConfirmAllAt(buf, ids, 2);
    assert ids[..2] == ["a", "a"];
    assert !Present(ConfirmAll(buf, ["a", "a"]).1, "z");
    assert ConfirmAll(buf, ids).0[..2] == ConfirmAll(buf, ["a", "a"]).0 by {
      assert ids == ids[..2] + ids[2..];
      ConfirmAllAppend(buf, ids[..2], ids[2..]);
    }
    answers := s.ConfirmEvent(ids);
    left := s.GetUnconfirmedEvents();
  }

  /** After both setters, `configuration` reports the new site and token lifetime. */
  method SettingsReported(types: seq<Events.EventType>) returns (c: Configuration)
    ensures c == Configuration("SITE-B", types, 60)
  {
    var s := new Server("VC-1", [], [], [], types);
    var ok1 := s.SetSiteIdentifier("SITE-B");
    var ok2 := s.SetTokenTTL(60);
    c := s.Config();
  }
}
