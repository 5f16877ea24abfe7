/** Laws of the bridge in every state that any schedule can reach. */
module BridgeLaws {
  import opened CText
  import opened Json
  import opened Framing
  import opened Records
  import opened PanelSpec
  import opened Runs
  import opened Requests
  import opened Topics
  import opened Mirror
  import opened Bridge
  import opened Sequences
  import A = AreaLaws
  import Z = ZoneLaws
  import P = PanelLaws

  // -------------------------------------------------------- in-flight mirror

  /** What an area's JSON topic shows once the reports in flight are published. */
  function AreaDue(g: Setting, s: State, n: int): Option<string> {
    match LastArea(n, s.areaQueue)
    case Some(a) => Some(AreaText(a))
    case None => LastOn(s.calls, Printed(g.base, AreaTopic(n, AreaState)))
  }

  function ZoneDue(g: Setting, s: State, n: int, z: int): Option<string> {
    match LastZone(z, s.zoneQueue)
    case Some(r) => Some(ZoneText(r))
    case None => LastOn(s.calls, Printed(g.base, AreaTopic(n, OfZone(z, ZoneState))))
  }

  /** The field values that can be read off what a topic shows. */
  function Seen(labels: seq<string>, shown: Option<string>): string {
    match shown case Some(text) => Legible(labels, text) case None => ""
  }

  lemma {:induction false} AreaDueIsLast(g: Setting, s: State, n: int)
    requires MqttSide(g, s) && n in g.start.areas
    ensures AreaDue(g, s, n)
         == match LastArea(n, s.areaDone + s.areaQueue) case Some(a) => Some(AreaText(a)) case None => None
  {
    assert AreaDisplayed(g.base, s.calls, s.areaDone, n);
    LastAreaOfTwo(n, s.areaDone, s.areaQueue);
  }

  lemma {:induction false} ZoneDueIsLast(g: Setting, s: State, z: int)
    requires MqttSide(g, s) && z in g.start.zones
    ensures ZoneDue(g, s, g.start.zones[z].area, z)
         == match LastZone(z, s.zoneDone + s.zoneQueue) case Some(r) => Some(ZoneText(r)) case None => None
  {
    assert ZoneDisplayed(g.base, s.calls, s.zoneDone, g.start.zones[z].area, z);
    LastZoneOfTwo(z, s.zoneDone, s.zoneQueue);
  }

  /** The last report of an area holds the manager's fields, and its JSON shows them as far as they were ever set. */
  lemma LastAreaReport(g: Setting, s: State, n: int)
    requires Initial(g.start) && PanelSide(g, s) && n in g.start.areas
    ensures n in s.tables.areas
    ensures match LastArea(n, s.areaDone + s.areaQueue)
            case None => s.tables.areas[n].fields == ZERO_AREA
            case Some(a) =>
              a.fields == s.tables.areas[n].fields && Legible(AREA_LABELS, AreaText(a)) == CStr(AreaBytes(a.fields))
  {
    var ops := AreaOpsOf(ConfigOf(g.start), s.handled, n);
    P.AreaReportsAreChanges(ConfigOf(g.start), s.handled, g.start, n);
    AreaProjects(ConfigOf(g.start), s.handled, g.start, n);
    A.LabelsFit(ops, NewArea(n));
    AreaRunNumber(ops, NewArea(n));
    var mine := AreaReportsFor(n, s.areaDone + s.areaQueue);
    MappedAt(mine, A.FieldsOf);
    if mine != [] {
      assert mine[|mine| - 1] in mine;
      AreaTextShape(mine[|mine| - 1]);
    }
  }

  lemma LastZoneReport(g: Setting, s: State, z: int)
    requires Initial(g.start) && PanelSide(g, s) && z in g.start.zones
    ensures z in s.tables.zones && s.tables.zones[z].bypassed == OK
    ensures match LastZone(z, s.zoneDone + s.zoneQueue)
            case None => s.tables.zones[z].fields == ZERO_ZONE
            case Some(r) =>
              r.fields == s.tables.zones[z].fields && Legible(ZONE_LABELS, ZoneText(r)) == CStr(ZoneBytes(r.fields, OK))
  {
    var ops, start := ZoneOpsOf(ConfigOf(g.start), s.handled, z), NewZone(z, g.start.zones[z].area);
    P.ZoneReportsAreChanges(ConfigOf(g.start), s.handled, g.start, z);
    ZoneProjects(ConfigOf(g.start), s.handled, g.start, z);
    Z.LabelsFit(ops, start);
    ZoneRunNumber(ops, start);
    var mine := ZoneReportsFor(z, s.zoneDone + s.zoneQueue);
    MappedAt(mine, Z.FieldsOf);
    if mine != [] {
      assert mine[|mine| - 1] in mine;
      ZoneTextShape(mine[|mine| - 1]);
    }
  }

  /**
   What can be read off an area's JSON topic, brought up to date with the reports in flight,
   is what the manager holds of it, as far as the first field that was never set.
   */
  lemma {:induction false} AreaMirror(g: Setting, events: seq<Event>, n: int)
    requires Initial(g.start) && BaseFits(g.base) && n in g.start.areas
    ensures var s := After(g, events);
            && n in s.tables.areas
            && Seen(AREA_LABELS, AreaDue(g, s, n)) == CStr(AreaBytes(s.tables.areas[n].fields))
  {
    var s := After(g, events);
    PanelSideAlways(g, events);
    MqttSideAlways(g, events);
    AreaDueIsLast(g, s, n);
    LastAreaReport(g, s, n);
  }

  lemma {:induction false} ZoneMirror(g: Setting, events: seq<Event>, z: int)
    requires Initial(g.start) && BaseFits(g.base) && z in g.start.zones
    ensures var s := After(g, events);
            && z in s.tables.zones
            && Seen(ZONE_LABELS, ZoneDue(g, s, g.start.zones[z].area, z))
               == CStr(ZoneBytes(s.tables.zones[z].fields, OK))
  {
    var s := After(g, events);
    PanelSideAlways(g, events);
    MqttSideAlways(g, events);
    ZoneDueIsLast(g, s, z);
    LastZoneReport(g, s, z);
  }

  lemma FramesNulFree(g: Setting, s: State)
    requires PanelSide(g, s)
    ensures forall f :: f in s.handled ==> NUL !in f
  {
    FrameShape("", s.received);
    assert forall f :: f in s.handled ==> f in s.handled + s.serialQueue;
  }

  predicate AllSafe(g: Setting, frames: seq<string>) {
    forall f :: f in frames ==> Safe(ConfigOf(g.start), f)
  }

  /**
   When a JSON text tells everything: the text due on an area's topic leaves one choice of
   fields exactly when a status response for the area has been accepted, and is a whole
   JSON exactly when the last one accepted had all its twelve bytes.
   */
  lemma {:induction false} AreaJsonTells(g: Setting, events: seq<Event>, n: int)
    requires Initial(g.start) && BaseFits(g.base) && n in g.start.areas
    requires AllSafe(g, After(g, events).handled)
    ensures var s := After(g, events);
            var seen, last := Seen(AREA_LABELS, AreaDue(g, s, n)), P.LastResponse(ConfigOf(g.start), s.handled, n);
            && n in s.tables.areas
            && ((forall f :: CStr(AreaBytes(f)) == seen ==> f == s.tables.areas[n].fields) <==> last != None)
            && (|seen| == 7 <==> last != None && |last.value| >= 12)
  {
    var s := After(g, events);
    AreaMirror(g, events, n);
    PanelSideAlways(g, events);
    FramesNulFree(g, s);
    P.ResponsesFill(ConfigOf(g.start), s.handled, g.start, n);
    AreaBytesTell(s.tables.areas[n].fields);
    AreaLegible(s.tables.areas[n].fields);
  }

  lemma {:induction false} ZoneJsonTells(g: Setting, events: seq<Event>, z: int)
    requires Initial(g.start) && BaseFits(g.base) && z in g.start.zones
    requires AllSafe(g, After(g, events).handled)
    ensures var s := After(g, events);
            var seen := Seen(ZONE_LABELS, ZoneDue(g, s, g.start.zones[z].area, z));
            var last := P.LastZoneResponse(ConfigOf(g.start), s.handled, z);
            && z in s.tables.zones
            && ((forall f :: CStr(ZoneBytes(f, OK)) == seen ==> f == s.tables.zones[z].fields) <==> last != None)
            && (|seen| == 6 <==> last != None && |last.value| >= 10)
  {
    var s := After(g, events);
    ZoneMirror(g, events, z);
    PanelSideAlways(g, events);
    FramesNulFree(g, s);
    P.ZoneResponsesFill(ConfigOf(g.start), s.handled, g.start, z);
    ZoneBytesTell(s.tables.zones[z].fields, OK);
    ZoneLegible(s.tables.zones[z].fields, OK);
  }

  /** Without an accepted status response an area's JSON ends before `ready`; no alarm is ever to be read there. */
  lemma {:induction false} AreaJsonStops(g: Setting, events: seq<Event>, n: int)
    requires Initial(g.start) && BaseFits(g.base) && n in g.start.areas
    requires forall f :: f in After(g, events).handled ==> !P.AcceptedRecord(ConfigOf(g.start), f, n)
    ensures |Seen(AREA_LABELS, AreaDue(g, After(g, events), n))| <= 3
  {
    var s := After(g, events);
    var ops := AreaOpsOf(ConfigOf(g.start), s.handled, n);
    AreaMirror(g, events, n);
    PanelSideAlways(g, events);
    P.NoRecordOps(ConfigOf(g.start), s.handled, n);
    AreaProjects(ConfigOf(g.start), s.handled, g.start, n);
    A.EventsKeep(ops, NewArea(n));
    AreaLegible(s.tables.areas[n].fields);
  }

  lemma {:induction false} ZoneJsonStops(g: Setting, events: seq<Event>, z: int)
    requires Initial(g.start) && BaseFits(g.base) && z in g.start.zones
    requires forall f :: f in After(g, events).handled ==> !P.AcceptedZoneRecord(ConfigOf(g.start), f, z)
    ensures |Seen(ZONE_LABELS, ZoneDue(g, After(g, events), g.start.zones[z].area, z))| <= 3
  {
    var s := After(g, events);
    var ops := ZoneOpsOf(ConfigOf(g.start), s.handled, z);
    ZoneMirror(g, events, z);
    PanelSideAlways(g, events);
    P.NoZoneRecordOps(ConfigOf(g.start), s.handled, z);
    ZoneProjects(ConfigOf(g.start), s.handled, g.start, z);
    Z.EventsKeep(ops, NewZone(z, g.start.zones[z].area));
    ZoneLegible(s.tables.zones[z].fields, OK);
  }

  /** Under every schedule: area 8's JSON never gets as far as its alarm, and zone 96's never past its fire. */
  lemma {:induction false} LastOnesNeverWhole(g: Setting, events: seq<Event>)
    requires Initial(g.start) && BaseFits(g.base)
    ensures MAX_AREAS in g.start.areas ==> |Seen(AREA_LABELS, AreaDue(g, After(g, events), MAX_AREAS))| <= 3
    ensures MAX_ZONES in g.start.zones ==>
              |Seen(ZONE_LABELS, ZoneDue(g, After(g, events), g.start.zones[MAX_ZONES].area, MAX_ZONES))| <= 3
  {
    if MAX_AREAS in g.start.areas {
      AreaJsonStops(g, events, MAX_AREAS);
    }
    if MAX_ZONES in g.start.zones {
      ZoneJsonStops(g, events, MAX_ZONES);
    }
  }

  predicate ReadsRight(r: Zone) {
    Z.Matches(r) && Legible(ZONE_LABELS, ZoneText(r)) == CStr(ZoneBytes(r.fields, r.bypassed))
  }

  lemma ZoneReportsRead(g: Setting, s: State, z: int)
    requires Initial(g.start) && PanelSide(g, s) && z in g.start.zones
    ensures forall r :: r in ZoneReportsFor(z, s.zoneDone + s.zoneQueue) ==> ReadsRight(r)
  {
    var ops, start := ZoneOpsOf(ConfigOf(g.start), s.handled, z), NewZone(z, g.start.zones[z].area);
    ZoneProjects(ConfigOf(g.start), s.handled, g.start, z);
    Z.LabelsFit(ops, start);
    Z.ReportsMatch(ops, start);
    ZoneRunNumber(ops, start);
    forall r | r in ZoneReportsFor(z, s.zoneDone + s.zoneQueue) ensures ReadsRight(r) {
      ZoneTextShape(r);
    }
  }

  lemma {:induction false} PublishedZoneReads(g: Setting, events: seq<Event>, z: int)
    requires Initial(g.start) && z in g.start.zones
    ensures var shown := LastZone(z, After(g, events).zoneDone); shown != None ==> ReadsRight(shown.value)
  {
    var s := After(g, events);
    PanelSideAlways(g, events);
    ZoneReportsRead(g, s, z);
    ZoneReportsAppend(z, s.zoneDone, s.zoneQueue);
    var mine := ZoneReportsFor(z, s.zoneDone);
    assert mine != [] ==> mine[|mine| - 1] in mine + ZoneReportsFor(z, s.zoneQueue);
  }

  lemma PrefixLegible(p: string, s: string)
    requires NUL !in p && |p| <= |s|
    ensures p <= CStr(s) <==> p <= s
  {
    CStrShape(s);
    if p <= s {
      assert s == p + s[|p|..];
      CStrAppend(p, s[|p|..]);
    }
  }

  lemma SwitchTold(r: Zone)
    requires Z.Matches(r)
    ensures Switch(r.on) == "off" <==> [ZONE_CLOSED, OK, OK] <= CStr(ZoneBytes(r.fields, r.bypassed))
  {
    var p, s := [ZONE_CLOSED, OK, OK], ZoneBytes(r.fields, r.bypassed);
    PrefixLegible(p, s);
    assert s[..3] == [r.fields.status, r.fields.alarm, r.fields.fire];
    assert p <= s <==> p == s[..3];
    assert |Switch(true)| == 2;
  }

  /** A zone's switch topic is `off` exactly when its JSON topic shows it closed with alarm and fire OK. */
  lemma {:induction false} ZoneTopicsAgree(g: Setting, events: seq<Event>, z: int)
    requires Initial(g.start) && BaseFits(g.base) && z in g.start.zones
    ensures var s, n := After(g, events), g.start.zones[z].area;
            var switch := LastOn(s.calls, Printed(g.base, AreaTopic(n, OfZone(z, Status))));
            var json := LastOn(s.calls, Printed(g.base, AreaTopic(n, OfZone(z, ZoneState))));
            && (switch == Some("off") <==> [ZONE_CLOSED, OK, OK] <= Seen(ZONE_LABELS, json))
            && (switch == None <==> json == None)
  {
    var s := After(g, events);
    MqttSideAlways(g, events);
    assert ZoneDisplayed(g.base, s.calls, s.zoneDone, g.start.zones[z].area, z);
    PublishedZoneReads(g, events, z);
    match LastZone(z, s.zoneDone) {
      case Some(r) => SwitchTold(r);
      case None =>
    }
  }

  // -------------------------------------------------------------- subscriptions

  /** Each area's first report, and no other, says that it is the first. */
  ghost predicate FirstsMarked(reports: seq<Area>) {
    && (forall a :: a in reports ==> 1 <= a.num <= MAX_AREAS)
    && (forall n, i :: 0 <= i < |AreaReportsFor(n, reports)| ==> AreaReportsFor(n, reports)[i].firstReport == (i == 0))
  }

  ghost predicate NoRepeats(s: seq<string>) {
    forall i, j :: 0 <= i < j < |s| ==> s[i] != s[j]
  }

  lemma FirstsMarkedPrefix(s: seq<Area>, t: seq<Area>)
    requires FirstsMarked(s + t)
    ensures FirstsMarked(s)
  {
    assert forall a :: a in s ==> a in s + t;
    forall n, i | 0 <= i < |AreaReportsFor(n, s)|
      ensures AreaReportsFor(n, s)[i].firstReport == (i == 0)
    {
      AreaReportsAppend(n, s, t);
      assert AreaReportsFor(n, s)[i] == AreaReportsFor(n, s + t)[i];
    }
  }

  lemma SubscriptionsDiffer(base: string, n: int, m: int)
    requires BaseFits(base) && 1 <= n <= MAX_AREAS && 1 <= m <= MAX_AREAS
    requires Subscription(base, n) == Subscription(base, m)
    ensures n == m
  {
    TopicsTold(base, AreaTopic(n, Set), AreaTopic(m, Set));
  }

  lemma {:induction false} FirstsSubscribe(base: string, done: seq<Area>)
    requires BaseFits(base) && FirstsMarked(done)
    ensures NoRepeats(Subscriptions(base, done))
    ensures forall n :: 1 <= n <= MAX_AREAS ==>
              (Subscription(base, n) in Subscriptions(base, done) <==> AreaReportsFor(n, done) != [])
    decreases |done|
  {
    if done != [] {
      var pre, a := done[..|done| - 1], done[|done| - 1];
      assert done == pre + [a];
      FirstsMarkedPrefix(pre, [a]);
      FirstsSubscribe(base, pre);
      SubscriptionsAppend(base, pre, [a]);
      assert [a][1..] == [];
      assert a in done;
      forall n ensures AreaReportsFor(n, done) == AreaReportsFor(n, pre) + if n == a.num then [a] else [] {
        AreaReportsAppend(n, pre, [a]);
        AreaReportsOwn(n, a.num, [a]);
      }
      assert AreaReportsFor(a.num, done)[|AreaReportsFor(a.num, pre)|] == a;
      assert a.firstReport <==> AreaReportsFor(a.num, pre) == [];
      forall n | 1 <= n <= MAX_AREAS && Subscription(base, n) == Subscription(base, a.num) ensures n == a.num {
        SubscriptionsDiffer(base, n, a.num);
      }
    }
  }

  lemma ReportsMarked(g: Setting, s: State)
    requires Initial(g.start) && PanelSide(g, s)
    ensures FirstsMarked(s.areaDone)
  {
    var all := s.areaDone + s.areaQueue;
    RunReportsInRange(ConfigOf(g.start), s.handled, g.start);
    forall n, i | 0 <= i < |AreaReportsFor(n, all)| ensures AreaReportsFor(n, all)[i].firstReport == (i == 0) {
      if n in g.start.areas {
        P.AreaReportsAreChanges(ConfigOf(g.start), s.handled, g.start, n);
      } else {
        NoReportsFor(n, all);
      }
    }
    FirstsMarkedPrefix(s.areaDone, s.areaQueue);
  }

  lemma {:induction false} NoReportsFor(n: int, reports: seq<Area>)
    requires forall a :: a in reports ==> a.num != n
    ensures AreaReportsFor(n, reports) == []
    decreases |reports|
  {
    if reports != [] {
      NoReportsFor(n, reports[1..]);
    }
  }

  /** The control topic of each area is subscribed at most once, and exactly when anything of the area is on display. */
  lemma {:induction false} SubscribedOnce(g: Setting, events: seq<Event>)
    requires Initial(g.start) && BaseFits(g.base)
    ensures var s := After(g, events);
            && NoRepeats(Subscribed(s.calls))
            && forall n :: n in g.start.areas ==>
                 (Subscription(g.base, n) in Subscribed(s.calls)
                  <==> LastOn(s.calls, Printed(g.base, AreaTopic(n, AreaState))) != None)
  {
    var s := After(g, events);
    PanelSideAlways(g, events);
    MqttSideAlways(g, events);
    ReportsMarked(g, s);
    FirstsSubscribe(g.base, s.areaDone);
    assert forall n :: n in g.start.areas ==> AreaDisplayed(g.base, s.calls, s.areaDone, n);
  }

  /** A message on one of area `n`'s own topics. */
  predicate OfArea(base: string, c: Call, n: int) {
    c.Publish? && (c.topic == Printed(base, AreaTopic(n, Main)) || c.topic == Printed(base, AreaTopic(n, AreaState)))
  }

  /** Before any message of an area stands the subscription to its control topic. */
  ghost predicate SubscribedBefore(base: string, calls: seq<Call>) {
    forall i, n :: 0 <= i < |calls| && 1 <= n <= MAX_AREAS && OfArea(base, calls[i], n)
      ==> Subscribe(Subscription(base, n)) in calls[..i]
  }

  lemma OneMoreCall(base: string, calls: seq<Call>, c: Call)
    requires SubscribedBefore(base, calls)
    requires forall n :: 1 <= n <= MAX_AREAS && OfArea(base, c, n) ==> Subscribe(Subscription(base, n)) in calls
    ensures SubscribedBefore(base, calls + [c])
  {
    var all := calls + [c];
    forall i, n | 0 <= i < |all| && 1 <= n <= MAX_AREAS && OfArea(base, all[i], n)
      ensures Subscribe(Subscription(base, n)) in all[..i]
    {
      assert all[..i] == calls[..i];
    }
  }

  lemma MessageOfArea(base: string, t: Topic, payload: string, n: int)
    requires BaseFits(base) && InRange(t) && 1 <= n <= MAX_AREAS
    ensures OfArea(base, Message(base, t, payload), n) <==> t == AreaTopic(n, Main) || t == AreaTopic(n, AreaState)
  {
    TopicsTold(base, t, AreaTopic(n, Main));
    TopicsTold(base, t, AreaTopic(n, AreaState));
  }

  lemma {:induction false} OneMoreMessage(base: string, calls: seq<Call>, t: Topic, payload: string)
    requires BaseFits(base) && InRange(t) && t.AreaTopic? && SubscribedBefore(base, calls)
    requires !t.tail.OfZone? ==> Subscribe(Subscription(base, t.area)) in calls
    ensures SubscribedBefore(base, calls + [Message(base, t, payload)])
  {
    forall n | 1 <= n <= MAX_AREAS && OfArea(base, Message(base, t, payload), n)
      ensures Subscribe(Subscription(base, n)) in calls
    {
      MessageOfArea(base, t, payload, n);
    }
    OneMoreCall(base, calls, Message(base, t, payload));
  }

  lemma AreaCallsInOrder(base: string, calls: seq<Call>, a: Area)
    requires BaseFits(base) && 1 <= a.num <= MAX_AREAS && SubscribedBefore(base, calls)
    requires !a.firstReport ==> Subscribe(Subscription(base, a.num)) in calls
    ensures SubscribedBefore(base, calls + AreaCalls(base, a))
  {
    var c := calls + FirstCalls(base, a);
    var m := Message(base, AreaTopic(a.num, Main), StateName(a.state));
    if a.firstReport {
      OneMoreCall(base, calls, Subscribe(Subscription(base, a.num)));
      assert c[|calls|] == Subscribe(Subscription(base, a.num));
    } else {
      assert c == calls;
    }
    OneMoreMessage(base, c, AreaTopic(a.num, Main), StateName(a.state));
    OneMoreMessage(base, c + [m], AreaTopic(a.num, AreaState), AreaText(a));
    assert calls + AreaCalls(base, a) == c + [m] + [Message(base, AreaTopic(a.num, AreaState), AreaText(a))];
  }

  lemma {:induction false} ZoneCallsInOrder(base: string, calls: seq<Call>, z: Zone)
    requires BaseFits(base) && 1 <= z.area <= MAX_AREAS && 1 <= z.num <= MAX_ZONES && SubscribedBefore(base, calls)
    ensures SubscribedBefore(base, calls + ZoneCalls(base, z))
  {
    var c := calls + [Message(base, ZoneTopic(z, Status), Switch(z.on))];
    var d := c + [Message(base, ZoneTopic(z, AlarmStatus), Switch(z.fields.alarm == IN_ALARM))];
    OneMoreMessage(base, calls, ZoneTopic(z, Status), Switch(z.on));
    OneMoreMessage(base, c, ZoneTopic(z, AlarmStatus), Switch(z.fields.alarm == IN_ALARM));
    OneMoreMessage(base, d, ZoneTopic(z, ZoneState), ZoneText(z));
    assert calls + ZoneCalls(base, z) == d + [Message(base, ZoneTopic(z, ZoneState), ZoneText(z))];
  }

  lemma SeenBefore(done: seq<Area>, a: Area)
    requires FirstsMarked(done + [a]) && !a.firstReport
    ensures AreaReportsFor(a.num, done) != []
  {
    var all, pre := AreaReportsFor(a.num, done + [a]), AreaReportsFor(a.num, done);
    AreaReportsAppend(a.num, done, [a]);
    AreaReportsOwn(a.num, a.num, [a]);
    assert all[|pre|] == a && all[|pre|].firstReport == (|pre| == 0);
  }

  /** A report that is not its area's first finds the area subscribed. */
  lemma LaterReport(g: Setting, s: State, a: Area)
    requires Initial(g.start) && BaseFits(g.base) && MqttSide(g, s) && PanelSide(g, s)
    requires s.areaQueue != [] && a == s.areaQueue[0]
    ensures a.num in g.start.areas
    ensures !a.firstReport ==> Subscribe(Subscription(g.base, a.num)) in s.calls
  {
    ReportTaken(g, s);
    ReportsInRange(g, s);
    QueuesInRange(g, s);
    ReportsMarked(g, s);
    ReportsMarked(g, TakeArea(g, s));
    if !a.firstReport {
      SeenBefore(s.areaDone, a);
      FirstsSubscribe(g.base, s.areaDone);
      SubscribedIn(s.calls, Subscription(g.base, a.num));
    }
  }

  lemma {:induction false} SubscribedStep(g: Setting, s: State, e: Event)
    requires Initial(g.start) && BaseFits(g.base) && MqttSide(g, s) && PanelSide(g, s)
    requires SubscribedBefore(g.base, s.calls)
    ensures SubscribedBefore(g.base, Step(g, s, e).calls)
  {
    Publishes(g, s);
    if e == PublishAreaReport && s.areaQueue != [] {
      LaterReport(g, s, s.areaQueue[0]);
      AreaCallsInOrder(g.base, s.calls, s.areaQueue[0]);
    } else if e == PublishZoneReport && s.zoneQueue != [] {
      ReportsInRange(g, s);
      QueuesInRange(g, s);
      ZoneCallsInOrder(g.base, s.calls, s.zoneQueue[0]);
    } else {
      NothingPublished(g, s, e);
    }
  }

  /** Under every schedule the subscription to an area's control topic comes before the first message of the area. */
  lemma {:induction false} SubscribedFirst(g: Setting, events: seq<Event>)
    requires Initial(g.start) && BaseFits(g.base)
    ensures SubscribedBefore(g.base, After(g, events).calls)
    decreases |events|
  {
    if events != [] {
      var pre := events[..|events| - 1];
      SubscribedFirst(g, pre);
      PanelSideAlways(g, pre);
      MqttSideAlways(g, pre);
      SubscribedStep(g, After(g, pre), events[|events| - 1]);
    }
  }

  // ---------------------------------------------------------------- end to end

  /** Every frame that the bytes read so far complete has been handled. */
  predicate Drained(s: State) {
    s.serialQueue == []
  }

  /**
   End to end: while lines fit, what the bridge holds and reports is what the manager makes
   of the stream cut at its CRs.
   */
  lemma {:induction false} EndToEnd(g: Setting, events: seq<Event>)
    requires var s := After(g, events); Fits("", Concat(s.received)) && Drained(s)
    ensures var s := After(g, events);
            Out(s.tables, s.areaDone + s.areaQueue, s.zoneDone + s.zoneQueue)
            == Run(ConfigOf(g.start), Split("", Concat(s.received)).frames, g.start)
  {
    var s := After(g, events);
    PanelSideAlways(g, events);
    AnyChunking("", s.received);
    assert s.handled + [] == s.handled;
  }

  /** However the same bytes are read and the threads scheduled, the same reports come out. */
  lemma {:induction false} SchedulesAgree(g: Setting, events: seq<Event>, others: seq<Event>)
    requires var s, u := After(g, events), After(g, others);
             && Concat(s.received) == Concat(u.received) && Fits("", Concat(s.received))
             && Drained(s) && Drained(u)
    ensures var s, u := After(g, events), After(g, others);
            && s.tables == u.tables
            && s.areaDone + s.areaQueue == u.areaDone + u.areaQueue
            && s.zoneDone + s.zoneQueue == u.zoneDone + u.zoneQueue
  {
    EndToEnd(g, events);
    EndToEnd(g, others);
  }

  // ----------------------------------------------------------- non-interference

  predicate OfPanel(e: Event) {
    e.Read? || e.HandleFrame?
  }

  predicate OfCommands(e: Event) {
    e.MqttMessage? || e.HandleCommand?
  }

  function Only(events: seq<Event>, p: Event -> bool): seq<Event>
    decreases |events|
  {
    if events == [] then []
    else
      var k := |events| - 1;
      Only(events[..k], p) + if p(events[k]) then [events[k]] else []
  }

  datatype PanelView = PanelView(
    received: seq<string>, pending: string, serialQueue: seq<string>, handled: seq<string>,
    tables: Tables, areaReports: seq<Area>, zoneReports: seq<Zone>)

  function SeenByPanel(s: State): PanelView {
    PanelView(s.received, s.pending, s.serialQueue, s.handled, s.tables,
              s.areaDone + s.areaQueue, s.zoneDone + s.zoneQueue)
  }

  datatype CommandView = CommandView(queue: seq<Command>, obeyed: seq<Command>, requests: seq<string>)

  function SeenByCommands(s: State): CommandView {
    CommandView(s.commandQueue, s.obeyed, FromOrigin(FromCommand, s.pushed))
  }

  lemma {:induction false} PanelStepAlone(g: Setting, s: State, u: State, e: Event)
    requires SeenByPanel(s) == SeenByPanel(u)
    ensures OfPanel(e) ==> SeenByPanel(Step(g, s, e)) == SeenByPanel(Step(g, u, e))
    ensures !OfPanel(e) ==> SeenByPanel(Step(g, s, e)) == SeenByPanel(u)
  {
    match e {
      case HandleFrame =>
        if s.serialQueue != [] {
          var out := Handle(ConfigOf(g.start), s.serialQueue[0], s.tables);
          Regroup(s.areaDone, s.areaQueue, out.areaReports);
          Regroup(u.areaDone, u.areaQueue, out.areaReports);
          Regroup(s.zoneDone, s.zoneQueue, out.zoneReports);
          Regroup(u.zoneDone, u.zoneQueue, out.zoneReports);
        }
      case PublishAreaReport => Dequeued(s.areaDone, s.areaQueue);
      case PublishZoneReport => Dequeued(s.zoneDone, s.zoneQueue);
      case _ =>
    }
  }

  /** Leaving out every command, timeout, write and publication changes nothing of the tables or the reports. */
  lemma {:induction false} PanelIgnoresTheRest(g: Setting, events: seq<Event>)
    ensures SeenByPanel(After(g, events)) == SeenByPanel(After(g, Only(events, OfPanel)))
    decreases |events|
  {
    if events != [] {
      var k := |events| - 1;
      var pre, e := events[..k], events[k];
      PanelIgnoresTheRest(g, pre);
      PanelStepAlone(g, After(g, pre), After(g, Only(pre, OfPanel)), e);
      if OfPanel(e) {
        assert (Only(pre, OfPanel) + [e])[..|Only(pre, OfPanel)|] == Only(pre, OfPanel);
      } else {
        assert Only(events, OfPanel) == Only(pre, OfPanel);
      }
    }
  }

  lemma CommandStepAlone(g: Setting, s: State, u: State, e: Event)
    requires SeenByCommands(s) == SeenByCommands(u) && s.tables.areas.Keys == u.tables.areas.Keys
    ensures OfCommands(e) ==> SeenByCommands(Step(g, s, e)) == SeenByCommands(Step(g, u, e))
    ensures !OfCommands(e) ==> SeenByCommands(Step(g, s, e)) == SeenByCommands(u)
  {
    match e {
      case HandleCommand =>
        if s.commandQueue != [] {
          var more := Tagged(FromCommand, CommandRequests(s.tables.areas.Keys, g.code, s.commandQueue[0]));
          FromOriginAppend(FromCommand, s.pushed, more);
          FromOriginAppend(FromCommand, u.pushed, more);
        }
      case ThreadStep(i) =>
        if i < |s.threads| && s.threads[i] != [] {
          var more := [Request(FromThread(i), s.threads[i][0])];
          FromOriginAppend(FromCommand, s.pushed, more);
          assert more[1..] == [];
        }
      case _ =>
    }
  }

  /** Leaving out everything but commands changes nothing of the requests that commands cause. */
  lemma {:induction false} CommandsIgnoreTheRest(g: Setting, events: seq<Event>)
    requires WellFormed(g.start)
    ensures SeenByCommands(After(g, events)) == SeenByCommands(After(g, Only(events, OfCommands)))
    ensures SeenByCommands(After(g, events)).requests
         == AllCommandRequests(g.start.areas.Keys, g.code, After(g, events).obeyed)
    decreases |events|
  {
    RequestSideAlways(g, events);
    if events != [] {
      var k := |events| - 1;
      var pre, e := events[..k], events[k];
      CommandsIgnoreTheRest(g, pre);
      RequestSideAlways(g, pre);
      RequestSideAlways(g, Only(pre, OfCommands));
      CommandStepAlone(g, After(g, pre), After(g, Only(pre, OfCommands)), e);
      if OfCommands(e) {
        assert (Only(pre, OfCommands) + [e])[..|Only(pre, OfCommands)|] == Only(pre, OfCommands);
      } else {
        assert Only(events, OfCommands) == Only(pre, OfCommands);
      }
    }
  }

  // ------------------------------------------------------- the state on display

  lemma StateNamesDiffer(s: PanelState, u: PanelState)
    requires StateName(s) == StateName(u)
    ensures s == u
  {
    assert forall x :: |StateName(x)| == match x
      case Disarmed => 8 case ArmedHome => 10 case ArmedAway => 10 case ArmedNight => 11 case ArmedVacation => 14
      case ArmedCustomBypass => 19 case PendingAlarm => 7 case Triggered => 9 case Arming => 6 case Disarming => 9;
    assert StateName(ArmedHome)[6] == 'h' && StateName(ArmedAway)[6] == 'a';
    assert StateName(Triggered)[0] == 't' && StateName(Disarming)[0] == 'd';
  }

  /** With none of an area's reports in flight, its main topic shows the state in its last report. */
  lemma {:induction false} MainTopicShown(g: Setting, events: seq<Event>, n: int)
    requires Initial(g.start) && BaseFits(g.base) && n in g.start.areas
    requires AreaReportsFor(n, After(g, events).areaQueue) == []
    ensures var s := After(g, events);
            var out := AreaRun(AreaOpsOf(ConfigOf(g.start), s.handled, n), NewArea(n));
            && n in s.tables.areas && s.tables.areas[n] == out.area
            && LastOn(s.calls, Printed(g.base, AreaTopic(n, Main)))
               == if out.reports == [] then None else Some(StateName(A.Shown(Disarmed, out.reports)))
  {
    var s := After(g, events);
    PanelSideAlways(g, events);
    MqttSideAlways(g, events);
    assert AreaDisplayed(g.base, s.calls, s.areaDone, n);
    AreaProjects(ConfigOf(g.start), s.handled, g.start, n);
    AreaReportsAppend(n, s.areaDone, s.areaQueue);
    var mine := AreaReportsFor(n, s.areaDone);
    assert mine + [] == mine;
  }

  /**
   With none of an area's reports in flight, its main topic shows a state other than the
   manager's exactly when the state was put right with no field changing then or since.
   */
  lemma {:induction false} MainTopicLags(g: Setting, events: seq<Event>, n: int)
    requires Initial(g.start) && BaseFits(g.base) && n in g.start.areas
    requires AreaReportsFor(n, After(g, events).areaQueue) == []
    requires LastOn(After(g, events).calls, Printed(g.base, AreaTopic(n, Main))) != None
    ensures var s := After(g, events);
            && n in s.tables.areas
            && (LastOn(s.calls, Printed(g.base, AreaTopic(n, Main))) != Some(StateName(s.tables.areas[n].state))
                <==> var ops := AreaOpsOf(ConfigOf(g.start), s.handled, n);
                     exists k :: 0 <= k < |ops| && A.RepairedUnseen(ops, k, NewArea(n)))
  {
    MainTopicShown(g, events, n);
    var ops := AreaOpsOf(ConfigOf(g.start), After(g, events).handled, n);
    A.ShownLags(ops, NewArea(n));
    var out := AreaRun(ops, NewArea(n));
    if StateName(A.Shown(Disarmed, out.reports)) == StateName(out.area.state) {
      StateNamesDiffer(A.Shown(Disarmed, out.reports), out.area.state);
    }
  }

  /**
   With no zone response that put the area in alarm among the frames handled, its main topic
   shows the manager's state whenever none of its reports is in flight.
   */
  lemma {:induction false} MainTopicCurrent(g: Setting, events: seq<Event>, n: int)
    requires Initial(g.start) && BaseFits(g.base) && n in g.start.areas
    requires AreaReportsFor(n, After(g, events).areaQueue) == []
    requires forall f :: f in After(g, events).handled ==> !P.ZoneAlarmResponse(ConfigOf(g.start), f, n)
    ensures var s := After(g, events);
            var shown := LastOn(s.calls, Printed(g.base, AreaTopic(n, Main)));
            && n in s.tables.areas
            && (shown == None || shown == Some(StateName(s.tables.areas[n].state)))
  {
    var s := After(g, events);
    MainTopicShown(g, events, n);
    P.NoRaises(ConfigOf(g.start), s.handled, n);
    A.NothingRaised(AreaOpsOf(ConfigOf(g.start), s.handled, n), NewArea(n));
  }

  lemma WordsDiffer()
    ensures forall i, j :: 0 <= i < j < 5 ==>
              ["triggered", "disarmed", "armed_home", "armed_away", "arming"][i]
              != ["triggered", "disarmed", "armed_home", "armed_away", "arming"][j]
  {
    var w := ["triggered", "disarmed", "armed_home", "armed_away", "arming"];
    assert |w[0]| == 9 && |w[1]| == 8 && |w[2]| == 10 && |w[3]| == 10 && |w[4]| == 6;
    assert w[2][6] == 'h' && w[3][6] == 'a';
  }

  /** The word that tells a coherent area's state, from its fields alone. */
  lemma WordOf(a: Area)
    requires A.Coherent(a)
    ensures var f, word := a.fields, StateName(a.state);
            && (f.alarm == 'A' ==> word == "triggered")
            && (f.alarm != 'A' && f.status == 'D' ==> word == "disarmed")
            && (f.alarm != 'A' && f.status == 'S' ==> word == "armed_home")
            && (f.alarm != 'A' && f.status in {'A', 'F', 'I'} ==> word == "armed_away")
            && (f.alarm != 'A' && f.status == 'E' ==> word == "arming")
            && (f.alarm != 'A' && f.status == '\0' && A.Understood(a) ==> word == "disarmed")
  {
  }

  /** Something stands on the area's main topic, and no report of the area is in flight. */
  predicate OnShow(g: Setting, s: State, n: int) {
    AreaReportsFor(n, s.areaQueue) == [] && LastOn(s.calls, g.base + "/area/" + Signed(n)) != None
  }

  /** With none of its reports in flight and no zone response in alarm handled, the topic shows the area's state. */
  lemma {:induction false} CoherentShown(g: Setting, events: seq<Event>, n: int)
    requires Initial(g.start) && BaseFits(g.base) && n in g.start.areas
    requires OnShow(g, After(g, events), n)
    requires forall f :: f in After(g, events).handled ==> !P.ZoneAlarmResponse(ConfigOf(g.start), f, n)
    ensures var s := After(g, events);
            && n in s.tables.areas && A.Coherent(s.tables.areas[n])
            && s.tables.areas[n] == AreaRun(AreaOpsOf(ConfigOf(g.start), s.handled, n), NewArea(n)).area
            && LastOn(s.calls, g.base + "/area/" + Signed(n)) == Some(StateName(s.tables.areas[n].state))
  {
    TopicsSpelled(g.base, n, 1);
    MainTopicShown(g, events, n);
    P.NoRaises(ConfigOf(g.start), After(g, events).handled, n);
    A.NothingRaised(AreaOpsOf(ConfigOf(g.start), After(g, events).handled, n), NewArea(n));
  }

  lemma ExactlyOneWord(a: Area)
    requires A.Coherent(a) && A.Understood(a)
    ensures var f, word := a.fields, StateName(a.state);
            && (word == "triggered" <==> f.alarm == 'A')
            && (word == "disarmed" <==> f.alarm != 'A' && f.status in {'D', '\0'})
            && (word == "armed_home" <==> f.alarm != 'A' && f.status == 'S')
            && (word == "armed_away" <==> f.alarm != 'A' && f.status in {'A', 'F', 'I'})
            && (word == "arming" <==> f.alarm != 'A' && f.status == 'E')
  {
    WordOf(a);
    WordsDiffer();
    var w := ["triggered", "disarmed", "armed_home", "armed_away", "arming"];
    assert w[0] != w[1] && w[0] != w[2] && w[0] != w[3] && w[0] != w[4] && w[1] != w[2] && w[1] != w[3];
    assert w[1] != w[4] && w[2] != w[3] && w[2] != w[4] && w[3] != w[4];
  }

  /**
   The words on an area's main topic, in every reachable state with something there, no
   report of the area in flight, and no zone response in alarm handled for it: `triggered`
   in alarm, and otherwise the word for its status.
   */
  lemma {:induction false} MainTopicSays(g: Setting, events: seq<Event>, n: int)
    requires Initial(g.start) && BaseFits(g.base) && n in g.start.areas
    requires OnShow(g, After(g, events), n)
    requires forall f :: f in After(g, events).handled ==> !P.ZoneAlarmResponse(ConfigOf(g.start), f, n)
    ensures n in After(g, events).tables.areas
    ensures var f := After(g, events).tables.areas[n].fields;
            var shown := LastOn(After(g, events).calls, g.base + "/area/" + Signed(n));
            && (f.alarm == 'A' ==> shown == Some("triggered"))
            && (f.alarm != 'A' && f.status == 'D' ==> shown == Some("disarmed"))
            && (f.alarm != 'A' && f.status == 'S' ==> shown == Some("armed_home"))
            && (f.alarm != 'A' && f.status in {'A', 'F', 'I'} ==> shown == Some("armed_away"))
            && (f.alarm != 'A' && f.status == 'E' ==> shown == Some("arming"))
  {
    CoherentShown(g, events, n);
    WordOf(After(g, events).tables.areas[n]);
  }

  /**
   And each word exactly then, as long as the responses have only brought known statuses; a
   status that was never set shows as `disarmed`.
   */
  lemma {:induction false} MainTopicSaysExactly(g: Setting, events: seq<Event>, n: int)
    requires Initial(g.start) && BaseFits(g.base) && n in g.start.areas
    requires OnShow(g, After(g, events), n)
    requires forall f :: f in After(g, events).handled ==> P.Plain(ConfigOf(g.start), f, n)
    ensures n in After(g, events).tables.areas
    ensures var f := After(g, events).tables.areas[n].fields;
            var shown := LastOn(After(g, events).calls, g.base + "/area/" + Signed(n));
            && (shown == Some("triggered") <==> f.alarm == 'A')
            && (shown == Some("disarmed") <==> f.alarm != 'A' && f.status in {'D', '\0'})
            && (shown == Some("armed_home") <==> f.alarm != 'A' && f.status == 'S')
            && (shown == Some("armed_away") <==> f.alarm != 'A' && f.status in {'A', 'F', 'I'})
            && (shown == Some("arming") <==> f.alarm != 'A' && f.status == 'E')
  {
    var ops := AreaOpsOf(ConfigOf(g.start), After(g, events).handled, n);
    assert forall f :: P.Plain(ConfigOf(g.start), f, n) ==> !P.ZoneAlarmResponse(ConfigOf(g.start), f, n);
    CoherentShown(g, events, n);
    P.PlainOps(ConfigOf(g.start), After(g, events).handled, n);
    A.StaysUnderstood(ops, NewArea(n));
    ExactlyOneWord(After(g, events).tables.areas[n]);
  }

  lemma {:induction false} ZoneShown(g: Setting, events: seq<Event>, z: int)
    requires Initial(g.start) && BaseFits(g.base) && z in g.start.zones
    requires ZoneReportsFor(z, After(g, events).zoneQueue) == []
    ensures z in After(g, events).tables.zones
    ensures var s, n := After(g, events), g.start.zones[z].area;
            && ZoneDisplayed(g.base, s.calls, s.zoneDone, n, z)
            && match LastZone(z, s.zoneDone)
               case None => true
               case Some(r) => r.fields == s.tables.zones[z].fields && Z.Matches(r)
  {
    var s := After(g, events);
    PanelSideAlways(g, events);
    MqttSideAlways(g, events);
    LastZoneReport(g, s, z);
    LastZoneOfTwo(z, s.zoneDone, s.zoneQueue);
    PublishedZoneReads(g, events, z);
  }

  /** The words on a zone's topics, none of its reports being in flight, from the manager's fields. */
  lemma {:induction false} ZoneTopicsSay(g: Setting, events: seq<Event>, z: int)
    requires Initial(g.start) && BaseFits(g.base) && z in g.start.zones
    requires ZoneReportsFor(z, After(g, events).zoneQueue) == []
    ensures z in After(g, events).tables.zones
    ensures var s, f := After(g, events), After(g, events).tables.zones[z].fields;
            var topic := g.base + "/area/" + Signed(g.start.zones[z].area) + "/zone/" + Signed(z);
            var switch, alarm := LastOn(s.calls, topic), LastOn(s.calls, Cut(255, topic + "/alarm"));
            && (switch == None <==> alarm == None)
            && (switch != None ==>
                  && switch == Some(if f.status == 'C' && f.alarm == 'O' && f.fire == 'O' then "off" else "on")
                  && alarm == Some(if f.alarm == 'A' then "on" else "off"))
  {
    ZoneShown(g, events, z);
    TopicsSpelled(g.base, g.start.zones[z].area, z);
  }

  // -------------------------------------------------------------- what is asked

  /** The commands that the messages of a schedule ask for, in order. */
  function Asked(base: string, events: seq<Event>): seq<Command>
    decreases |events|
  {
    if events == [] then []
    else
      var e := events[|events| - 1];
      Asked(base, events[..|events| - 1])
      + if e.MqttMessage? && e.name != AreaPrefix(base) then
          match Requested(base, e.name, e.payload) case Some(cmd) => [cmd] case None => []
        else []
  }

  function Timeouts(events: seq<Event>): nat
    decreases |events|
  {
    if events == [] then 0
    else Timeouts(events[..|events| - 1]) + if events[|events| - 1] == Timeout then 1 else 0
  }

  /** Every command asked for reaches the manager, in order, and every timeout starts one more request thread. */
  lemma {:induction false} NothingAskedIsLost(g: Setting, events: seq<Event>)
    ensures var s := After(g, events);
            s.obeyed + s.commandQueue == Asked(g.base, events) && |s.threads| == 1 + Timeouts(events)
    decreases |events|
  {
    if events != [] {
      var pre, e := events[..|events| - 1], events[|events| - 1];
      var s := After(g, pre);
      NothingAskedIsLost(g, pre);
      AskedStep(g, s, e);
    }
  }

  lemma AskedStep(g: Setting, s: State, e: Event)
    ensures var u := Step(g, s, e);
            && |u.threads| == |s.threads| + (if e == Timeout then 1 else 0)
            && u.obeyed + u.commandQueue
               == s.obeyed + s.commandQueue
                  + if e.MqttMessage? && e.name != AreaPrefix(g.base) then
                      match Requested(g.base, e.name, e.payload) case Some(cmd) => [cmd] case None => []
                    else []
  {
    NothingMore(s.obeyed + s.commandQueue);
    match e {
      case HandleCommand => Dequeued(s.obeyed, s.commandQueue);
      case MqttMessage(name, payload) =>
        if name != AreaPrefix(g.base) && Requested(g.base, name, payload) != None {
          Regroup(s.obeyed, s.commandQueue, [Requested(g.base, name, payload).value]);
        }
      case _ =>
    }
  }
}
