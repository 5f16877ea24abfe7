/**
 The whole bridge as a transition system: the serial thread, the manager, the threads the
 manager starts and the MQTT thread, joined by FIFO queues, each branch of a poll loop a
 step.  An event that is not enabled changes nothing; any sequence of events is a schedule.
 What a step does is what the class methods of `SerialPort`, `PanelManager` and `Mirror`
 are proved to do.
 */
module Bridge {
  import opened CText
  import opened Framing
  import opened Records
  import opened PanelSpec
  import opened Runs
  import opened Requests
  import opened Topics
  import opened Mirror
  import opened Sequences

  /** Who pushed a request: the manager for a command, or one of the threads it started. */
  datatype Origin = FromCommand | FromThread(id: nat)

  datatype Request = Request(origin: Origin, text: string)

  /** What does not change while the bridge runs. */
  datatype Setting = Setting(base: string, code: Option<string>, start: Tables)

  datatype State = State(
    // the serial thread
    received: seq<string>, pending: string, serialQueue: seq<string>,
    pushed: seq<Request>, wrote: nat, written: string,
    // the manager
    handled: seq<string>, tables: Tables, areaQueue: seq<Area>, zoneQueue: seq<Zone>,
    commandQueue: seq<Command>, obeyed: seq<Command>, threads: seq<seq<string>>,
    // the MQTT thread
    areaDone: seq<Area>, zoneDone: seq<Zone>, calls: seq<Call>)

  datatype Event =
    | Read(chunk: string)                         // bytes arrive from the panel
    | WriteRequest                                // the serial thread takes a request
    | HandleFrame                                 // the manager takes a frame
    | HandleCommand                               // the manager takes a command
    | Timeout                                     // the manager's poll times out
    | ThreadStep(id: nat)                         // a request thread sends its next request
    | MqttMessage(name: string, payload: string)  // the broker delivers a message
    | PublishAreaReport                           // the MQTT thread takes an area report
    | PublishZoneReport                           // the MQTT thread takes a zone report

  function Begin(g: Setting): State {
    State([], "", [], [], 0, "",
          [], g.start, [], [], [], [], [StartupRequests(ConfigOf(g.start))],
          [], [], [])
  }

  function Tagged(o: Origin, texts: seq<string>): seq<Request>
    decreases |texts|
  {
    if texts == [] then [] else [Request(o, texts[0])] + Tagged(o, texts[1..])
  }

  function TakeChunk(s: State, c: string): State {
    var r := FeedChunk(s.pending, c);
    s.(received := s.received + [c], pending := r.pending, serialQueue := s.serialQueue + r.frames)
  }

  function TakeRequest(s: State): State
    requires s.wrote < |s.pushed|
  {
    s.(wrote := s.wrote + 1, written := s.written + s.pushed[s.wrote].text + [CR])
  }

  function TakeFrame(g: Setting, s: State): State
    requires s.serialQueue != []
  {
    var out := Handle(ConfigOf(g.start), s.serialQueue[0], s.tables);
    s.(serialQueue := s.serialQueue[1..], handled := s.handled + [s.serialQueue[0]], tables := out.tables,
       areaQueue := s.areaQueue + out.areaReports, zoneQueue := s.zoneQueue + out.zoneReports)
  }

  function TakeCommand(g: Setting, s: State): State
    requires s.commandQueue != []
  {
    s.(commandQueue := s.commandQueue[1..], obeyed := s.obeyed + [s.commandQueue[0]],
       pushed := s.pushed + Tagged(FromCommand, CommandRequests(s.tables.areas.Keys, g.code, s.commandQueue[0])))
  }

  function SendFromThread(s: State, i: nat): State
    requires i < |s.threads| && s.threads[i] != []
  {
    s.(pushed := s.pushed + [Request(FromThread(i), s.threads[i][0])], threads := s.threads[i := s.threads[i][1..]])
  }

  function TakeMessage(g: Setting, s: State, name: string, payload: string): State
    requires name != AreaPrefix(g.base)
  {
    match Requested(g.base, name, payload)
    case Some(cmd) => s.(commandQueue := s.commandQueue + [cmd])
    case None => s
  }

  function TakeArea(g: Setting, s: State): State
    requires s.areaQueue != []
  {
    var a := s.areaQueue[0];
    s.(areaQueue := s.areaQueue[1..], areaDone := s.areaDone + [a], calls := s.calls + AreaCalls(g.base, a))
  }

  function TakeZone(g: Setting, s: State): State
    requires s.zoneQueue != []
  {
    var z := s.zoneQueue[0];
    s.(zoneQueue := s.zoneQueue[1..], zoneDone := s.zoneDone + [z], calls := s.calls + ZoneCalls(g.base, z))
  }

  function Step(g: Setting, s: State, e: Event): State {
    match e
    case Read(c) => TakeChunk(s, c)
    case WriteRequest => if s.wrote < |s.pushed| then TakeRequest(s) else s
    case HandleFrame => if s.serialQueue != [] then TakeFrame(g, s) else s
    case HandleCommand => if s.commandQueue != [] then TakeCommand(g, s) else s
    case Timeout => s.(threads := s.threads + [StatusFrom(s.tables.areas.Keys, 1)])
    case ThreadStep(i) => if i < |s.threads| && s.threads[i] != [] then SendFromThread(s, i) else s
    case MqttMessage(name, payload) => if name != AreaPrefix(g.base) then TakeMessage(g, s, name, payload) else s
    case PublishAreaReport => if s.areaQueue != [] then TakeArea(g, s) else s
    case PublishZoneReport => if s.zoneQueue != [] then TakeZone(g, s) else s
  }

  /** The state after a schedule. */
  function After(g: Setting, events: seq<Event>): State
    decreases |events|
  {
    if events == [] then Begin(g) else Step(g, After(g, events[..|events| - 1]), events[|events| - 1])
  }

  // --------------------------------------------------------- the panel's side

  /** Nothing is lost, repeated or reordered between the bytes read and the reports queued. */
  ghost predicate PanelSide(g: Setting, s: State) {
    && FeedAll("", s.received) == Framed(s.pending, s.handled + s.serialQueue)
    && Run(ConfigOf(g.start), s.handled, g.start) == Out(s.tables, s.areaDone + s.areaQueue, s.zoneDone + s.zoneQueue)
  }

  lemma FeedAppend(p: string, chunks: seq<string>, c: string)
    ensures var h := FeedAll(p, chunks);
            var r := FeedChunk(h.pending, c);
            FeedAll(p, chunks + [c]) == Framed(r.pending, h.frames + r.frames)
  {
    FeedAllAppend(p, chunks, [c]);
    OneRead(FeedAll(p, chunks).pending, c);
  }

  lemma FrameTaken(g: Setting, s: State)
    requires PanelSide(g, s) && s.serialQueue != []
    ensures PanelSide(g, TakeFrame(g, s))
  {
    var out := Handle(ConfigOf(g.start), s.serialQueue[0], s.tables);
    RunSnoc(ConfigOf(g.start), s.handled, s.serialQueue[0], g.start);
    Regroup(s.areaDone, s.areaQueue, out.areaReports);
    Regroup(s.zoneDone, s.zoneQueue, out.zoneReports);
    Dequeued(s.handled, s.serialQueue);
  }

  lemma ChunkTaken(g: Setting, s: State, c: string)
    requires PanelSide(g, s)
    ensures PanelSide(g, TakeChunk(s, c))
  {
    FeedAppend("", s.received, c);
    Regroup(s.handled, s.serialQueue, FeedChunk(s.pending, c).frames);
  }

  lemma {:induction false} ReportTaken(g: Setting, s: State)
    requires PanelSide(g, s)
    ensures s.areaQueue != [] ==> PanelSide(g, TakeArea(g, s))
    ensures s.zoneQueue != [] ==> PanelSide(g, TakeZone(g, s))
  {
    Dequeued(s.areaDone, s.areaQueue);
    Dequeued(s.zoneDone, s.zoneQueue);
  }

  lemma {:induction false} PanelSideStep(g: Setting, s: State, e: Event)
    requires PanelSide(g, s)
    ensures PanelSide(g, Step(g, s, e))
  {
    match e {
      case Read(c) => ChunkTaken(g, s, c);
      case HandleFrame =>
        if s.serialQueue != [] {
          FrameTaken(g, s);
        }
      case PublishAreaReport => ReportTaken(g, s);
      case PublishZoneReport => ReportTaken(g, s);
      case _ =>
    }
  }

  lemma {:induction false} PanelSideAlways(g: Setting, events: seq<Event>)
    ensures PanelSide(g, After(g, events))
    decreases |events|
  {
    if events != [] {
      PanelSideAlways(g, events[..|events| - 1]);
      PanelSideStep(g, After(g, events[..|events| - 1]), events[|events| - 1]);
    }
  }

  // ---------------------------------------------------------- the MQTT side

  /** Every report in flight or published is of a configured record, under its own area. */
  ghost predicate InRangeReports(g: Setting, s: State) {
    && (forall a :: a in s.areaDone || a in s.areaQueue ==> a.num in g.start.areas)
    && (forall z :: z in s.zoneDone || z in s.zoneQueue ==>
          z.num in g.start.zones && z.area == g.start.zones[z.num].area)
  }

  lemma {:induction false} RunReportsInRange(cfg: Config, frames: seq<string>, t: Tables)
    requires WellFormed(t)
    ensures var out := Run(cfg, frames, t);
            && (forall a :: a in out.areaReports ==> a.num in t.areas)
            && (forall z :: z in out.zoneReports ==> z.num in t.zones && z.area == t.zones[z.num].area)
    decreases |frames|
  {
    if frames != [] {
      var h := Handle(cfg, frames[0], t);
      var e := Decode(cfg, frames[0]);
      HandleProjects(cfg, frames[0], t);
      if e.area in t.areas {
        AreaRunNumber(e.areaOps, t.areas[e.area]);
      }
      if e.zone in t.zones {
        ZoneRunNumber(e.zoneOps, t.zones[e.zone]);
      }
      RunReportsInRange(cfg, frames[1..], h.tables);
      assert ConfigOf(h.tables).areas == ConfigOf(t).areas;
      assert ConfigOf(h.tables).zoneArea == ConfigOf(t).zoneArea;
      assert forall z :: z in h.tables.zones ==> ConfigOf(h.tables).zoneArea[z] == h.tables.zones[z].area;
    }
  }

  lemma ReportsInRange(g: Setting, s: State)
    requires WellFormed(g.start) && PanelSide(g, s)
    ensures InRangeReports(g, s)
  {
    RunReportsInRange(ConfigOf(g.start), s.handled, g.start);
    var a, z := s.areaDone + s.areaQueue, s.zoneDone + s.zoneQueue;
    assert forall x :: x in s.areaDone || x in s.areaQueue ==> x in a;
    assert forall x :: x in s.zoneDone || x in s.zoneQueue ==> x in z;
  }

  ghost predicate AreasShown(g: Setting, calls: seq<Call>, done: seq<Area>) {
    forall n :: n in g.start.areas ==> AreaDisplayed(g.base, calls, done, n)
  }

  ghost predicate ZonesShown(g: Setting, calls: seq<Call>, done: seq<Zone>) {
    forall z :: z in g.start.zones ==> ZoneDisplayed(g.base, calls, done, g.start.zones[z].area, z)
  }

  /** Every topic shows the last report published for its record. */
  ghost predicate MqttSide(g: Setting, s: State) {
    && AreasShown(g, s.calls, s.areaDone)
    && ZonesShown(g, s.calls, s.zoneDone)
    && Subscribed(s.calls) == Subscriptions(g.base, s.areaDone)
  }

  lemma {:induction false} AreaTopicsUpdated(g: Setting, s: State, a: Area)
    requires WellFormed(g.start) && BaseFits(g.base) && MqttSide(g, s) && a.num in g.start.areas
    ensures AreasShown(g, s.calls + AreaCalls(g.base, a), s.areaDone + [a])
    ensures ZonesShown(g, s.calls + AreaCalls(g.base, a), s.zoneDone)
  {
    forall n | n in g.start.areas
      ensures AreaDisplayed(g.base, s.calls + AreaCalls(g.base, a), s.areaDone + [a], n)
    {
      PublishArea(g.base, s.calls, s.areaDone, a, n);
    }
    forall z | z in g.start.zones
      ensures ZoneDisplayed(g.base, s.calls + AreaCalls(g.base, a), s.zoneDone, g.start.zones[z].area, z)
    {
      PublishAreaKeepsZone(g.base, s.calls, s.zoneDone, a, g.start.zones[z].area, z);
    }
  }

  lemma {:induction false} ZoneTopicsUpdated(g: Setting, s: State, r: Zone)
    requires WellFormed(g.start) && BaseFits(g.base) && MqttSide(g, s)
    requires r.num in g.start.zones && r.area == g.start.zones[r.num].area
    ensures AreasShown(g, s.calls + ZoneCalls(g.base, r), s.areaDone)
    ensures ZonesShown(g, s.calls + ZoneCalls(g.base, r), s.zoneDone + [r])
  {
    forall n | n in g.start.areas ensures AreaDisplayed(g.base, s.calls + ZoneCalls(g.base, r), s.areaDone, n) {
      PublishZoneKeepsArea(g.base, s.calls, s.areaDone, r, n);
    }
    forall z | z in g.start.zones
      ensures ZoneDisplayed(g.base, s.calls + ZoneCalls(g.base, r), s.zoneDone + [r], g.start.zones[z].area, z)
    {
      PublishZone(g.base, s.calls, s.zoneDone, r, g.start.zones[z].area, z);
    }
  }

  lemma {:induction false} AreaReportTaken(g: Setting, s: State)
    requires WellFormed(g.start) && BaseFits(g.base) && MqttSide(g, s) && s.areaQueue != []
    requires s.areaQueue[0].num in g.start.areas
    ensures MqttSide(g, TakeArea(g, s))
  {
    var a := s.areaQueue[0];
    AreaTopicsUpdated(g, s, a);
    SubscribedAppend(s.calls, AreaCalls(g.base, a));
    AreaSubscribes(g.base, a);
    SubscriptionsAppend(g.base, s.areaDone, [a]);
    assert [a][1..] == [];
  }

  lemma {:induction false} ZoneReportTaken(g: Setting, s: State)
    requires WellFormed(g.start) && BaseFits(g.base) && MqttSide(g, s) && s.zoneQueue != []
    requires s.zoneQueue[0].num in g.start.zones && s.zoneQueue[0].area == g.start.zones[s.zoneQueue[0].num].area
    ensures MqttSide(g, TakeZone(g, s))
  {
    var r := s.zoneQueue[0];
    ZoneTopicsUpdated(g, s, r);
    SubscribedAppend(s.calls, ZoneCalls(g.base, r));
    ZoneSubscribes(g.base, r);
    assert Subscribed(s.calls) + [] == Subscribed(s.calls);
  }

  /** The other steps publish nothing. */
  lemma NothingPublished(g: Setting, s: State, e: Event)
    requires e.PublishAreaReport? ==> s.areaQueue == []
    requires e.PublishZoneReport? ==> s.zoneQueue == []
    ensures var u := Step(g, s, e);
            u.calls == s.calls && u.areaDone == s.areaDone && u.zoneDone == s.zoneDone
  {
  }

  lemma MqttSideSame(g: Setting, s: State, u: State)
    requires MqttSide(g, s)
    requires u.calls == s.calls && u.areaDone == s.areaDone && u.zoneDone == s.zoneDone
    ensures MqttSide(g, u)
  {
  }

  /** The reports taken next are of configured records. */
  ghost predicate HeadsInRange(g: Setting, s: State) {
    && (s.areaQueue != [] ==> s.areaQueue[0].num in g.start.areas)
    && (s.zoneQueue != [] ==>
          s.zoneQueue[0].num in g.start.zones && s.zoneQueue[0].area == g.start.zones[s.zoneQueue[0].num].area)
  }

  lemma QueuesInRange(g: Setting, s: State)
    requires InRangeReports(g, s)
    ensures HeadsInRange(g, s)
  {
    assert s.areaQueue != [] ==> s.areaQueue[0] in s.areaQueue;
    assert s.zoneQueue != [] ==> s.zoneQueue[0] in s.zoneQueue;
  }

  /** What a publishing step is, when there is something to publish. */
  lemma Publishes(g: Setting, s: State)
    ensures s.areaQueue != [] ==> Step(g, s, PublishAreaReport) == TakeArea(g, s)
    ensures s.zoneQueue != [] ==> Step(g, s, PublishZoneReport) == TakeZone(g, s)
  {
  }

  lemma {:induction false} MqttSideStep(g: Setting, s: State, e: Event)
    requires WellFormed(g.start) && BaseFits(g.base) && MqttSide(g, s) && HeadsInRange(g, s)
    ensures MqttSide(g, Step(g, s, e))
  {
    Publishes(g, s);
    if e == PublishAreaReport && s.areaQueue != [] {
      AreaReportTaken(g, s);
    } else if e == PublishZoneReport && s.zoneQueue != [] {
      ZoneReportTaken(g, s);
    } else {
      NothingPublished(g, s, e);
      MqttSideSame(g, s, Step(g, s, e));
    }
  }

  lemma {:induction false} MqttSideAlways(g: Setting, events: seq<Event>)
    requires WellFormed(g.start) && BaseFits(g.base)
    ensures MqttSide(g, After(g, events))
    decreases |events|
  {
    if events != [] {
      var pre := events[..|events| - 1];
      MqttSideAlways(g, pre);
      PanelSideAlways(g, pre);
      ReportsInRange(g, After(g, pre));
      QueuesInRange(g, After(g, pre));
      MqttSideStep(g, After(g, pre), events[|events| - 1]);
    }
  }

  // ------------------------------------------------------- the requests' side

  function FromOrigin(o: Origin, requests: seq<Request>): seq<string>
    decreases |requests|
  {
    if requests == [] then []
    else (if requests[0].origin == o then [requests[0].text] else []) + FromOrigin(o, requests[1..])
  }

  function AllCommandRequests(areas: set<int>, code: Option<string>, commands: seq<Command>): seq<string>
    decreases |commands|
  {
    if commands == [] then []
    else CommandRequests(areas, code, commands[0]) + AllCommandRequests(areas, code, commands[1..])
  }

  function Texts(requests: seq<Request>): seq<string>
    decreases |requests|
  {
    if requests == [] then [] else [requests[0].text] + Texts(requests[1..])
  }

  /** What the thread with this number has to send. */
  function Plan(g: Setting, id: nat): seq<string> {
    if id == 0 then StartupRequests(ConfigOf(g.start)) else StatusFrom(g.start.areas.Keys, 1)
  }

  /** Every pushed request is accounted for: by the commands obeyed, or by its thread's plan, in order. */
  ghost predicate RequestSide(g: Setting, s: State) {
    && s.tables.areas.Keys == g.start.areas.Keys
    && FromOrigin(FromCommand, s.pushed) == AllCommandRequests(g.start.areas.Keys, g.code, s.obeyed)
    && |s.threads| > 0
    && (forall i :: 0 <= i < |s.threads| ==> FromOrigin(FromThread(i), s.pushed) + s.threads[i] == Plan(g, i))
    && (forall i :: i >= |s.threads| ==> FromOrigin(FromThread(i), s.pushed) == [])
    && s.wrote <= |s.pushed| && s.written == Terminated(Texts(s.pushed[..s.wrote]))
  }

  lemma {:induction false} FromOriginAppend(o: Origin, s: seq<Request>, t: seq<Request>)
    ensures FromOrigin(o, s + t) == FromOrigin(o, s) + FromOrigin(o, t)
    decreases |s|
  {
    if s == [] {
      assert s + t == t;
    } else {
      assert (s + t)[1..] == s[1..] + t;
      FromOriginAppend(o, s[1..], t);
    }
  }

  lemma {:induction false} FromOriginTagged(o: Origin, p: Origin, texts: seq<string>)
    ensures FromOrigin(o, Tagged(p, texts)) == if o == p then texts else []
    decreases |texts|
  {
    if texts != [] {
      var t := Tagged(p, texts);
      assert t[1..] == Tagged(p, texts[1..]);
      FromOriginTagged(o, p, texts[1..]);
    }
  }

  lemma {:induction false} AllCommandsAppend(areas: set<int>, code: Option<string>, s: seq<Command>, c: Command)
    ensures AllCommandRequests(areas, code, s + [c])
         == AllCommandRequests(areas, code, s) + CommandRequests(areas, code, c)
    decreases |s|
  {
    if s == [] {
      assert s + [c] == [c] && [c][1..] == [];
    } else {
      assert (s + [c])[1..] == s[1..] + [c];
      AllCommandsAppend(areas, code, s[1..], c);
    }
  }

  lemma {:induction false} WrittenAppend(s: seq<Request>, r: Request)
    ensures Terminated(Texts(s + [r])) == Terminated(Texts(s)) + r.text + [CR]
    decreases |s|
  {
    if s == [] {
      assert s + [r] == [r] && [r][1..] == [] && Texts([r])[1..] == [];
      assert Texts([r]) == [r.text];
      assert Terminated([r.text]) == r.text + [CR] + "";
    } else {
      assert (s + [r])[1..] == s[1..] + [r];
      WrittenAppend(s[1..], r);
      assert Texts(s)[1..] == Texts(s[1..]);
      assert Texts(s + [r])[1..] == Texts(s[1..] + [r]);
      var h := s[0].text + [CR];
      assert h + (Terminated(Texts(s[1..])) + r.text + [CR]) == h + Terminated(Texts(s[1..])) + r.text + [CR];
    }
  }

  lemma CommandTaken(g: Setting, s: State)
    requires RequestSide(g, s) && s.commandQueue != []
    ensures RequestSide(g, TakeCommand(g, s))
  {
    var u, c := TakeCommand(g, s), s.commandQueue[0];
    var texts := CommandRequests(g.start.areas.Keys, g.code, c);
    var more := Tagged(FromCommand, texts);
    AllCommandsAppend(g.start.areas.Keys, g.code, s.obeyed, c);
    forall o ensures FromOrigin(o, u.pushed) == FromOrigin(o, s.pushed) + if o == FromCommand then texts else [] {
      FromOriginAppend(o, s.pushed, more);
      FromOriginTagged(o, FromCommand, texts);
    }
    assert u.pushed[..u.wrote] == s.pushed[..s.wrote];
  }

  lemma ThreadSends(g: Setting, s: State, i: nat)
    requires RequestSide(g, s) && i < |s.threads| && s.threads[i] != []
    ensures RequestSide(g, SendFromThread(s, i))
  {
    var u, text := SendFromThread(s, i), s.threads[i][0];
    var more := [Request(FromThread(i), text)];
    forall o ensures FromOrigin(o, u.pushed) == FromOrigin(o, s.pushed) + if o == FromThread(i) then [text] else [] {
      FromOriginAppend(o, s.pushed, more);
      assert more[1..] == [];
    }
    forall j | 0 <= j < |u.threads| ensures FromOrigin(FromThread(j), u.pushed) + u.threads[j] == Plan(g, j) {
      if j == i {
        assert FromOrigin(FromThread(i), s.pushed) + [text] + s.threads[i][1..]
            == FromOrigin(FromThread(i), s.pushed) + s.threads[i];
      }
    }
    assert u.pushed[..u.wrote] == s.pushed[..s.wrote];
  }

  lemma RequestTaken(g: Setting, s: State)
    requires RequestSide(g, s) && s.wrote < |s.pushed|
    ensures RequestSide(g, TakeRequest(s))
  {
    WrittenAppend(s.pushed[..s.wrote], s.pushed[s.wrote]);
    assert s.pushed[..s.wrote + 1] == s.pushed[..s.wrote] + [s.pushed[s.wrote]];
  }

  lemma FrameKeepsRequests(g: Setting, s: State)
    requires RequestSide(g, s) && WellFormed(s.tables) && s.serialQueue != []
    ensures RequestSide(g, TakeFrame(g, s))
  {
    HandleProjects(ConfigOf(g.start), s.serialQueue[0], s.tables);
    assert ConfigOf(TakeFrame(g, s).tables).areas == ConfigOf(s.tables).areas;
  }

  lemma ThreadStarts(g: Setting, s: State)
    requires RequestSide(g, s)
    ensures RequestSide(g, Step(g, s, Timeout))
  {
    var k := |s.threads|;
    assert FromOrigin(FromThread(k), s.pushed) == [];
    assert [] + Plan(g, k) == Plan(g, k);
  }

  lemma RequestSideStep(g: Setting, s: State, e: Event)
    requires WellFormed(g.start) && RequestSide(g, s) && WellFormed(s.tables)
    ensures RequestSide(g, Step(g, s, e))
  {
    match e {
      case HandleCommand =>
        if s.commandQueue != [] {
          CommandTaken(g, s);
        }
      case ThreadStep(i) =>
        if i < |s.threads| && s.threads[i] != [] {
          ThreadSends(g, s, i);
        }
      case WriteRequest =>
        if s.wrote < |s.pushed| {
          RequestTaken(g, s);
        }
      case HandleFrame =>
        if s.serialQueue != [] {
          FrameKeepsRequests(g, s);
        }
      case Timeout => ThreadStarts(g, s);
      case _ =>
    }
  }

  lemma {:induction false} RequestSideAlways(g: Setting, events: seq<Event>)
    requires WellFormed(g.start)
    ensures RequestSide(g, After(g, events)) && WellFormed(After(g, events).tables)
    decreases |events|
  {
    if events != [] {
      var pre := events[..|events| - 1];
      RequestSideAlways(g, pre);
      RequestSideStep(g, After(g, pre), events[|events| - 1]);
      PanelSideAlways(g, events);
      RunKeepsConfig(ConfigOf(g.start), After(g, events).handled, g.start);
    } else {
      assert [] + Plan(g, 0) == Plan(g, 0);
    }
  }
}
