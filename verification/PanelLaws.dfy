/** Laws of whole runs of the manager, stated on the frames it is given. */
module PanelLaws {
  import opened CText
  import opened Records
  import opened PanelSpec
  import opened Runs
  import opened Json
  import A = AreaLaws
  import Z = ZoneLaws

  // ---------------------------------------------------------------- reporting

  /** From the start, over any run: each area's history of reports is the history of its changes. */
  lemma {:induction false} AreaReportsAreChanges(cfg: Config, frames: seq<string>, t: Tables, n: int)
    requires Initial(t) && n in t.areas
    ensures var out := Run(cfg, frames, t);
            n in out.tables.areas
            && A.History(AreaOpsOf(cfg, frames, n), out.tables.areas[n], AreaReportsFor(n, out.areaReports))
  {
    AreaProjects(cfg, frames, t, n);
    A.HistoryFromStart(AreaOpsOf(cfg, frames, n), n);
  }

  lemma {:induction false} ZoneReportsAreChanges(cfg: Config, frames: seq<string>, t: Tables, z: int)
    requires Initial(t) && z in t.zones
    ensures var out := Run(cfg, frames, t);
            z in out.tables.zones
            && Z.History(ZoneOpsOf(cfg, frames, z), out.tables.zones[z], ZoneReportsFor(z, out.zoneReports))
  {
    ZoneProjects(cfg, frames, t, z);
    Z.HistoryFromStart(ZoneOpsOf(cfg, frames, z), z, t.zones[z].area);
  }

  // ---------------------------------------------------------------- coherence

  /** A zone response that puts area `n` in alarm. */
  predicate ZoneAlarmResponse(cfg: Config, f: string, n: int) {
    && At(f, 0) == 'R' && At(f, 1) == 'Z' && At(f, 6) == IN_ALARM
    && ZoneAccepted(cfg, NumberAt(f, 2, 3)) && cfg.zoneArea[NumberAt(f, 2, 3)] == n
  }

  lemma OnlyZoneResponsesRaise(cfg: Config, f: string, n: int)
    ensures RaiseFromZone in AreaOpsIn(Decode(cfg, f), n) <==> ZoneAlarmResponse(cfg, f, n)
  {
  }

  /**
   At the end of any run an area is coherent unless a zone response raised its alarm from
   a state other than triggered and nothing derived its state since.
   */
  lemma {:induction false} AreaCoherence(cfg: Config, frames: seq<string>, t: Tables, n: int)
    requires Initial(t) && n in t.areas
    ensures var out, ops := Run(cfg, frames, t), AreaOpsOf(cfg, frames, n);
            && n in out.tables.areas
            && (!A.Coherent(out.tables.areas[n]) <==>
                  exists k :: 0 <= k < |ops| && A.DepartsForGood(ops, k, NewArea(n)))
            && ((forall f :: f in frames ==> !ZoneAlarmResponse(cfg, f, n)) ==> A.Coherent(out.tables.areas[n]))
  {
    AreaProjects(cfg, frames, t, n);
    A.CoherenceOverRuns(AreaOpsOf(cfg, frames, n), NewArea(n));
    if forall f :: f in frames ==> !ZoneAlarmResponse(cfg, f, n) {
      NoRaises(cfg, frames, n);
    }
  }

  lemma {:induction false} NoRaises(cfg: Config, frames: seq<string>, n: int)
    requires forall f :: f in frames ==> !ZoneAlarmResponse(cfg, f, n)
    ensures RaiseFromZone !in AreaOpsOf(cfg, frames, n)
    decreases |frames|
  {
    if frames != [] {
      OnlyZoneResponsesRaise(cfg, frames[0], n);
      NoRaises(cfg, frames[1..], n);
    }
  }

  /** A frame that brings area `n` no unknown status, if it is a status response, and no alarm from a zone response. */
  predicate Plain(cfg: Config, f: string, n: int) {
    !ZoneAlarmResponse(cfg, f, n) && (AcceptedRecord(cfg, f, n) ==> At(f, 5) in {'D', 'S', 'A', 'F', 'I', 'E'})
  }

  lemma {:induction false} PlainOps(cfg: Config, frames: seq<string>, n: int)
    requires forall f :: f in frames ==> Plain(cfg, f, n)
    ensures forall op :: op in AreaOpsOf(cfg, frames, n) ==> A.BringsKnown(op)
    decreases |frames|
  {
    if frames != [] {
      PlainFrame(cfg, frames[0], n);
      PlainOps(cfg, frames[1..], n);
    }
  }

  lemma PlainFrame(cfg: Config, f: string, n: int)
    requires Plain(cfg, f, n)
    ensures forall op :: op in AreaOpsIn(Decode(cfg, f), n) ==> A.BringsKnown(op)
  {
  }

  // -------------------------------------------------------------- alarm latch

  /** A status response the manager accepts for area `n`. */
  predicate AcceptedRecord(cfg: Config, f: string, n: int) {
    At(f, 0) == 'R' && At(f, 1) == 'A' && NumberAt(f, 2, 3) == n && AreaAccepted(cfg, n)
  }

  lemma RecordsAreAccepted(cfg: Config, f: string, n: int)
    ensures (exists op :: op in AreaOpsIn(Decode(cfg, f), n) && op.Record?) <==> AcceptedRecord(cfg, f, n)
  {
    if AcceptedRecord(cfg, f, n) {
      assert Record(RecordIn(f)) in AreaOpsIn(Decode(cfg, f), n);
    }
  }

  lemma {:induction false} NoRecordOps(cfg: Config, frames: seq<string>, n: int)
    requires forall f :: f in frames ==> !AcceptedRecord(cfg, f, n)
    ensures forall op :: op in AreaOpsOf(cfg, frames, n) ==> !op.Record?
    decreases |frames|
  {
    if frames != [] {
      RecordsAreAccepted(cfg, frames[0], n);
      NoRecordOps(cfg, frames[1..], n);
    }
  }

  /**
   Once an area is in alarm and shown so, only an accepted status response for it ends
   that: no arming, disarming, restore or status event, no zone response, no label.
   */
  lemma AlarmLatch(cfg: Config, frames: seq<string>, t: Tables, n: int)
    requires WellFormed(t) && n in t.areas
    requires t.areas[n].fields.alarm == IN_ALARM && t.areas[n].state == Triggered
    requires forall f :: f in frames ==> !AcceptedRecord(cfg, f, n)
    ensures var out := Run(cfg, frames, t);
            && n in out.tables.areas
            && out.tables.areas[n].fields.alarm == IN_ALARM && out.tables.areas[n].state == Triggered
            && forall r :: r in AreaReportsFor(n, out.areaReports) ==> r.state == Triggered
  {
    NoRecordOps(cfg, frames, n);
    AreaProjects(cfg, frames, t, n);
    A.AlarmLatched(AreaOpsOf(cfg, frames, n), t.areas[n]);
  }

  /** Area 8's responses are never accepted, so its alarm never ends. */
  lemma AreaEightStaysInAlarm(cfg: Config, frames: seq<string>, t: Tables)
    requires WellFormed(t) && MAX_AREAS in t.areas
    requires t.areas[MAX_AREAS].fields.alarm == IN_ALARM && t.areas[MAX_AREAS].state == Triggered
    ensures var out := Run(cfg, frames, t);
            && MAX_AREAS in out.tables.areas
            && out.tables.areas[MAX_AREAS].state == Triggered
            && forall r :: r in AreaReportsFor(MAX_AREAS, out.areaReports) ==> r.state == Triggered
  {
    AlarmLatch(cfg, frames, t, MAX_AREAS);
  }

  // ---------------------------------------------------- alarms of zone responses

  lemma RaisingOps(cfg: Config, f: string, n: int)
    requires ZoneAlarmResponse(cfg, f, n)
    ensures AreaOpsIn(Decode(cfg, f), n) == [RaiseFromZone]
  {
  }

  lemma HandledArea(cfg: Config, f: string, t: Tables, n: int)
    requires WellFormed(t) && n in t.areas
    ensures n in Handle(cfg, f, t).tables.areas
    ensures Handle(cfg, f, t).tables.areas[n] == AreaRun(AreaOpsIn(Decode(cfg, f), n), t.areas[n]).area
  {
    HandleProjects(cfg, f, t);
  }

  /** A zone response in alarm puts its area in alarm exactly when the area's alarm field says OK or alarm already. */
  lemma ZoneAlarmRaises(cfg: Config, f: string, t: Tables, n: int)
    requires WellFormed(t) && n in t.areas && ZoneAlarmResponse(cfg, f, n)
    ensures n in Handle(cfg, f, t).tables.areas
    ensures Handle(cfg, f, t).tables.areas[n].fields.alarm == IN_ALARM <==> t.areas[n].fields.alarm in {OK, IN_ALARM}
  {
    HandledArea(cfg, f, t, n);
    RaisingOps(cfg, f, n);
    A.OneStep(RaiseFromZone, t.areas[n]);
  }

  lemma UnansweredArea(cfg: Config, frames: seq<string>, t: Tables, n: int)
    requires Initial(t) && n in t.areas && forall g :: g in frames ==> !AcceptedRecord(cfg, g, n)
    ensures var u := Run(cfg, frames, t).tables;
            WellFormed(u) && n in u.areas && !u.areas[n].updated && u.areas[n].fields.alarm != OK
  {
    var ops := AreaOpsOf(cfg, frames, n);
    AreaProjects(cfg, frames, t, n);
    RunKeepsConfig(cfg, frames, t);
    NoRecordOps(cfg, frames, n);
    A.AlarmNeverOk(ops, NewArea(n));
    A.ReportsAreChanges(ops, NewArea(n));
  }

  /** Before its first accepted status response an area's record is changed by no zone response. */
  lemma {:induction false} ZoneAlarmIgnored(cfg: Config, frames: seq<string>, f: string, t: Tables, n: int)
    requires Initial(t) && n in t.areas && ZoneAlarmResponse(cfg, f, n)
    requires forall g :: g in frames ==> !AcceptedRecord(cfg, g, n)
    ensures var u := Run(cfg, frames, t).tables;
            && n in u.areas && n in Handle(cfg, f, u).tables.areas
            && Handle(cfg, f, u).tables.areas[n] == u.areas[n]
  {
    var u := Run(cfg, frames, t).tables;
    UnansweredArea(cfg, frames, t, n);
    HandledArea(cfg, f, u, n);
    RaisingOps(cfg, f, n);
    A.RaiseIgnored(u.areas[n]);
  }

  /** Area 8's never is: an alarm of its zones that only their responses tell is lost. */
  lemma {:induction false} AreaEightIgnoresZones(cfg: Config, frames: seq<string>, f: string, t: Tables)
    requires Initial(t) && MAX_AREAS in t.areas && ZoneAlarmResponse(cfg, f, MAX_AREAS)
    ensures var u := Run(cfg, frames, t).tables;
            && MAX_AREAS in u.areas && MAX_AREAS in Handle(cfg, f, u).tables.areas
            && Handle(cfg, f, u).tables.areas[MAX_AREAS] == u.areas[MAX_AREAS]
  {
    ZoneAlarmIgnored(cfg, frames, f, t, MAX_AREAS);
  }

  // ------------------------------------------------------ what responses fill

  /** The last status response accepted for area `n`. */
  function LastResponse(cfg: Config, frames: seq<string>, n: int): Option<string>
    decreases |frames|
  {
    if frames == [] then None
    else
      var k := |frames| - 1;
      if AcceptedRecord(cfg, frames[k], n) then Some(frames[k]) else LastResponse(cfg, frames[..k], n)
  }

  /** A status response accepted for zone `z`. */
  predicate AcceptedZoneRecord(cfg: Config, f: string, z: int) {
    At(f, 0) == 'R' && At(f, 1) == 'Z' && NumberAt(f, 2, 3) == z && ZoneAccepted(cfg, z)
  }

  function LastZoneResponse(cfg: Config, frames: seq<string>, z: int): Option<string>
    decreases |frames|
  {
    if frames == [] then None
    else
      var k := |frames| - 1;
      if AcceptedZoneRecord(cfg, frames[k], z) then Some(frames[k]) else LastZoneResponse(cfg, frames[..k], z)
  }

  lemma ZoneRecordsAreAccepted(cfg: Config, f: string, z: int)
    ensures (exists op :: op in ZoneOpsIn(Decode(cfg, f), z) && op.RecordZone?) <==> AcceptedZoneRecord(cfg, f, z)
  {
    if AcceptedZoneRecord(cfg, f, z) {
      assert RecordZone(ZoneRecordIn(f)) in ZoneOpsIn(Decode(cfg, f), z);
    }
  }

  lemma {:induction false} NoZoneRecordOps(cfg: Config, frames: seq<string>, z: int)
    requires forall f :: f in frames ==> !AcceptedZoneRecord(cfg, f, z)
    ensures forall op :: op in ZoneOpsOf(cfg, frames, z) ==> !op.RecordZone?
    decreases |frames|
  {
    if frames != [] {
      ZoneRecordsAreAccepted(cfg, frames[0], z);
      NoZoneRecordOps(cfg, frames[1..], z);
    }
  }

  /** What a safe frame without NULs writes: a response fills the record, anything else writes letters. */
  lemma FrameWrites(cfg: Config, f: string, n: int)
    requires Safe(cfg, f) && NUL !in f
    ensures var ops := AreaOpsIn(Decode(cfg, f), n);
            if AcceptedRecord(cfg, f, n) then ops == [Record(RecordIn(f))] && AreaFilled(RecordIn(f))
            else forall op :: op in ops ==> A.Letters(op)
  {
    if AcceptedRecord(cfg, f, n) {
      assert Record(RecordIn(f)) in Decode(cfg, f).areaOps;
    }
  }

  lemma ZoneFrameWrites(cfg: Config, f: string, z: int)
    requires Safe(cfg, f) && NUL !in f
    ensures var ops := ZoneOpsIn(Decode(cfg, f), z);
            if AcceptedZoneRecord(cfg, f, z) then ops == [RecordZone(ZoneRecordIn(f))] && ZoneFilled(ZoneRecordIn(f))
            else forall op :: op in ops ==> Z.Letters(op)
  {
    if AcceptedZoneRecord(cfg, f, z) {
      assert RecordZone(ZoneRecordIn(f)) in Decode(cfg, f).zoneOps;
    }
  }

  /** What is known of an area's fields, given the last response accepted for it. */
  predicate FilledBy(f: AreaFields, last: Option<string>) {
    match last
    case None => f.ready == NUL
    case Some(r) => AreaFilled(f) && f.strobe == At(r, 11) && NUL !in r
  }

  predicate ZoneFilledBy(f: ZoneFields, last: Option<string>) {
    match last
    case None => f.supervision == NUL
    case Some(r) => ZoneFilled(f) && f.battery == At(r, 9) && NUL !in r
  }

  lemma HandledZone(cfg: Config, f: string, t: Tables, z: int)
    requires WellFormed(t) && z in t.zones
    ensures z in Handle(cfg, f, t).tables.zones
    ensures Handle(cfg, f, t).tables.zones[z] == ZoneRun(ZoneOpsIn(Decode(cfg, f), z), t.zones[z]).zone
  {
    HandleProjects(cfg, f, t);
  }

  lemma LettersFill(ops: seq<AreaOp>, a: Area, last: Option<string>)
    requires FilledBy(a.fields, last) && forall op :: op in ops ==> A.Letters(op)
    ensures FilledBy(AreaRun(ops, a).area.fields, last)
  {
    A.EventsKeep(ops, a);
    A.LettersFill(ops, a);
  }

  lemma ZoneLettersFill(ops: seq<ZoneOp>, z: Zone, last: Option<string>)
    requires ZoneFilledBy(z.fields, last) && forall op :: op in ops ==> Z.Letters(op)
    ensures ZoneFilledBy(ZoneRun(ops, z).zone.fields, last)
  {
    Z.EventsKeep(ops, z);
    Z.LettersFill(ops, z);
  }

  lemma FrameFills(cfg: Config, f: string, t: Tables, n: int, last: Option<string>)
    requires WellFormed(t) && n in t.areas && Safe(cfg, f) && NUL !in f && FilledBy(t.areas[n].fields, last)
    ensures var out := Handle(cfg, f, t).tables;
            n in out.areas && FilledBy(out.areas[n].fields, if AcceptedRecord(cfg, f, n) then Some(f) else last)
  {
    HandledArea(cfg, f, t, n);
    FrameWrites(cfg, f, n);
    if AcceptedRecord(cfg, f, n) {
      A.Recorded(RecordIn(f), t.areas[n]);
    } else {
      LettersFill(AreaOpsIn(Decode(cfg, f), n), t.areas[n], last);
    }
  }

  /**
   From the start, over safe frames without NULs: all fields but the last are set exactly once a
   response is accepted.
  */
  lemma {:induction false} ResponsesFill(cfg: Config, frames: seq<string>, t: Tables, n: int)
    requires Initial(t) && n in t.areas
    requires forall f :: f in frames ==> Safe(cfg, f) && NUL !in f
    ensures var out := Run(cfg, frames, t);
            n in out.tables.areas && FilledBy(out.tables.areas[n].fields, LastResponse(cfg, frames, n))
    decreases |frames|
  {
    if frames != [] {
      var k := |frames| - 1;
      var pre, f := frames[..k], frames[k];
      assert frames == pre + [f];
      ResponsesFill(cfg, pre, t, n);
      RunSnoc(cfg, pre, f, t);
      RunKeepsConfig(cfg, pre, t);
      FrameFills(cfg, f, Run(cfg, pre, t).tables, n, LastResponse(cfg, pre, n));
    }
  }

  lemma ZoneFrameFills(cfg: Config, f: string, t: Tables, z: int, last: Option<string>)
    requires WellFormed(t) && z in t.zones && Safe(cfg, f) && NUL !in f && ZoneFilledBy(t.zones[z].fields, last)
    ensures var out := Handle(cfg, f, t).tables;
            z in out.zones && ZoneFilledBy(out.zones[z].fields, if AcceptedZoneRecord(cfg, f, z) then Some(f) else last)
  {
    HandledZone(cfg, f, t, z);
    ZoneFrameWrites(cfg, f, z);
    if AcceptedZoneRecord(cfg, f, z) {
      Z.Recorded(ZoneRecordIn(f), t.zones[z]);
    } else {
      ZoneLettersFill(ZoneOpsIn(Decode(cfg, f), z), t.zones[z], last);
    }
  }

  lemma {:induction false} ZoneResponsesFill(cfg: Config, frames: seq<string>, t: Tables, z: int)
    requires Initial(t) && z in t.zones
    requires forall f :: f in frames ==> Safe(cfg, f) && NUL !in f
    ensures var out := Run(cfg, frames, t);
            z in out.tables.zones && ZoneFilledBy(out.tables.zones[z].fields, LastZoneResponse(cfg, frames, z))
    decreases |frames|
  {
    if frames != [] {
      var k := |frames| - 1;
      var pre, f := frames[..k], frames[k];
      assert frames == pre + [f];
      ZoneResponsesFill(cfg, pre, t, z);
      RunSnoc(cfg, pre, f, t);
      RunKeepsConfig(cfg, pre, t);
      ZoneFrameFills(cfg, f, Run(cfg, pre, t).tables, z, LastZoneResponse(cfg, pre, z));
    }
  }

  // --------------------------------------------------------- status automaton

  predicate EventFor(f: string, n: int) {
    IsEvent(f) && EventArea(f) == n
  }

  predicate ExitDelayEvent(f: string, n: int) {
    EventFor(f, n) && EventGroup(f) == 65 && EventNumber(f) == 1
  }

  predicate ArmingEvent(f: string, n: int) {
    EventFor(f, n) && 9 <= EventGroup(f) <= 12
  }

  predicate DisarmEvent(f: string, n: int) {
    EventFor(f, n) && 13 <= EventGroup(f) <= 22
  }

  predicate ArmedEvent(f: string, n: int) {
    EventFor(f, n) && EventGroup(f) == 64 && EventNumber(f) in {0, 1, 3}
  }

  predicate StayEvent(f: string, n: int) {
    EventFor(f, n) && ((EventGroup(f) == 12 && EventNumber(f) == 4) || (EventGroup(f) == 64 && EventNumber(f) == 2))
  }

  predicate DisarmDone(cfg: Config, f: string, n: int) {
    && At(f, 0) == 'A' && At(f, 1) == 'D' && NumberAt(f, 2, 3) == n && AreaAccepted(cfg, n)
    && At(f, 6) == 'o' && At(f, 7) == 'k'
  }

  /** What operations can do to a status, given which kinds of frame they came from. */
  predicate StatusShape(ops: seq<AreaOp>, exit: bool, arming: bool, disarming: bool, armed: bool, stay: bool) {
    && |ops| <= 2
    && (|ops| == 2 ==> ops == [BeginExit, SetTrouble] && exit && !arming)
    && (|ops| == 1 ==>
          && !ops[0].BeginExit? && !ops[0].Record?
          && (ops[0].Arm? <==> arming)
          && (ops[0].Arm? ==> ops[0].to == if stay then STAY_ARMED else ARMED)
          && (ops[0].SetStatus? ==>
                || (disarming && ops[0].to == DISARMED)
                || (armed && ops[0].to == ARMED)
                || (stay && ops[0].to == STAY_ARMED)))
  }

  lemma StatusOps(cfg: Config, f: string, n: int)
    requires !AcceptedRecord(cfg, f, n)
    ensures StatusShape(AreaOpsIn(Decode(cfg, f), n), ExitDelayEvent(f, n), ArmingEvent(f, n),
                        DisarmEvent(f, n) || DisarmDone(cfg, f, n), ArmedEvent(f, n), StayEvent(f, n))
  {
  }

  lemma ShapeMoves(ops: seq<AreaOp>, a: Area, exit: bool, arming: bool, disarming: bool, armed: bool, stay: bool)
    requires StatusShape(ops, exit, arming, disarming, armed, stay)
    ensures var s, s' := a.fields.status, AreaRun(ops, a).area.fields.status;
            s' != s ==>
              && s' in {DISARMED, STAY_ARMED, ARMED, EXIT_DELAY}
              && (s' == EXIT_DELAY ==> s == DISARMED && exit)
              && (s' == DISARMED ==> disarming)
              && (s' == ARMED ==> arming || armed)
              && (s' == STAY_ARMED ==> stay)
              && (arming ==> s in {DISARMED, EXIT_DELAY} && s' in {ARMED, STAY_ARMED})
              && (s == STAY_ARMED ==> disarming || armed)
  {
    if |ops| == 2 {
      assert ops == [BeginExit] + [SetTrouble];
      AreaRunAppend([BeginExit], [SetTrouble], a);
      A.OneStep(BeginExit, a);
      A.OneStep(SetTrouble, AreaStep(BeginExit, a).area);
    } else if |ops| == 1 {
      assert ops == [ops[0]];
      A.OneStep(ops[0], a);
    }
  }

  /** The moves a single frame other than an accepted status response can make. */
  lemma StatusMoves(cfg: Config, f: string, t: Tables, n: int)
    requires WellFormed(t) && n in t.areas && !AcceptedRecord(cfg, f, n)
    ensures n in Handle(cfg, f, t).tables.areas
    ensures var s, s' := t.areas[n].fields.status, Handle(cfg, f, t).tables.areas[n].fields.status;
            s' != s ==>
              && s' in {DISARMED, STAY_ARMED, ARMED, EXIT_DELAY}
              && (s' == EXIT_DELAY ==> s == DISARMED && ExitDelayEvent(f, n))
              && (s' == DISARMED ==> DisarmEvent(f, n) || DisarmDone(cfg, f, n))
              && (s' == ARMED ==> ArmingEvent(f, n) || ArmedEvent(f, n))
              && (s' == STAY_ARMED ==> StayEvent(f, n))
              && (ArmingEvent(f, n) ==> s in {DISARMED, EXIT_DELAY} && s' in {ARMED, STAY_ARMED})
              && (s == STAY_ARMED ==> DisarmEvent(f, n) || ArmedEvent(f, n) || DisarmDone(cfg, f, n))
  {
    HandleProjects(cfg, f, t);
    StatusOps(cfg, f, n);
    ShapeMoves(AreaOpsIn(Decode(cfg, f), n), t.areas[n], ExitDelayEvent(f, n), ArmingEvent(f, n),
               DisarmEvent(f, n) || DisarmDone(cfg, f, n), ArmedEvent(f, n), StayEvent(f, n));
  }

  function StatusBefore(cfg: Config, frames: seq<string>, k: nat, t: Tables, n: int): char
    requires WellFormed(t) && n in t.areas && k <= |frames|
  {
    RunKeepsConfig(cfg, frames[..k], t);
    assert n in ConfigOf(t).areas;
    Run(cfg, frames[..k], t).tables.areas[n].fields.status
  }

  /** A property of the status that a run ends is ended by one of its frames. */
  lemma {:induction false} Crossing(cfg: Config, frames: seq<string>, t: Tables, n: int, p: char -> bool)
    returns (k: nat)
    requires WellFormed(t) && n in t.areas
    requires p(StatusBefore(cfg, frames, 0, t, n)) && !p(StatusBefore(cfg, frames, |frames|, t, n))
    ensures k < |frames|
    ensures p(StatusBefore(cfg, frames, k, t, n)) && !p(StatusBefore(cfg, frames, k + 1, t, n))
    decreases |frames|
  {
    var m := |frames| - 1;
    assert frames[..|frames|] == frames;
    if p(StatusBefore(cfg, frames, m, t, n)) {
      k := m;
    } else {
      var pre := frames[..m];
      assert pre[..m] == pre && pre[..0] == frames[..0];
      k := Crossing(cfg, pre, t, n, p);
      assert pre[..k] == frames[..k] && pre[..k + 1] == frames[..k + 1];
    }
  }

  lemma StatusMovesAt(cfg: Config, frames: seq<string>, k: nat, t: Tables, n: int)
    requires WellFormed(t) && n in t.areas && k < |frames| && !AcceptedRecord(cfg, frames[k], n)
    ensures var s, s' := StatusBefore(cfg, frames, k, t, n), StatusBefore(cfg, frames, k + 1, t, n);
            s' != s ==>
              && (s' == EXIT_DELAY ==> s == DISARMED && ExitDelayEvent(frames[k], n))
              && (s == STAY_ARMED ==>
                    DisarmEvent(frames[k], n) || ArmedEvent(frames[k], n) || DisarmDone(cfg, frames[k], n))
  {
    assert frames[..k + 1] == frames[..k] + [frames[k]];
    RunAppend(cfg, frames[..k], [frames[k]], t);
    RunKeepsConfig(cfg, frames[..k], t);
    var u := Run(cfg, frames[..k], t).tables;
    assert n in ConfigOf(t).areas;
    StatusMoves(cfg, frames[k], u, n);
    assert [frames[k]][1..] == [];
    assert Run(cfg, [frames[k]], u).tables == Handle(cfg, frames[k], u).tables;
  }

  /** Over any run without an accepted status response: exit delay begins only from disarmed. */
  lemma ExitDelayBegins(cfg: Config, frames: seq<string>, t: Tables, n: int) returns (k: nat)
    requires WellFormed(t) && n in t.areas
    requires forall f :: f in frames ==> !AcceptedRecord(cfg, f, n)
    requires StatusBefore(cfg, frames, 0, t, n) != EXIT_DELAY
    requires StatusBefore(cfg, frames, |frames|, t, n) == EXIT_DELAY
    ensures k < |frames| && ExitDelayEvent(frames[k], n)
    ensures StatusBefore(cfg, frames, k, t, n) == DISARMED && StatusBefore(cfg, frames, k + 1, t, n) == EXIT_DELAY
  {
    k := Crossing(cfg, frames, t, n, s => s != EXIT_DELAY);
    StatusMovesAt(cfg, frames, k, t, n);
  }

  /** Stay-armed ends only with a disarming, an armed status, or a disarm request that went through. */
  lemma StayArmedEnds(cfg: Config, frames: seq<string>, t: Tables, n: int) returns (k: nat)
    requires WellFormed(t) && n in t.areas
    requires forall f :: f in frames ==> !AcceptedRecord(cfg, f, n)
    requires StatusBefore(cfg, frames, 0, t, n) == STAY_ARMED
    requires StatusBefore(cfg, frames, |frames|, t, n) != STAY_ARMED
    ensures k < |frames|
    ensures StatusBefore(cfg, frames, k, t, n) == STAY_ARMED && StatusBefore(cfg, frames, k + 1, t, n) != STAY_ARMED
    ensures DisarmEvent(frames[k], n) || ArmedEvent(frames[k], n) || DisarmDone(cfg, frames[k], n)
  {
    k := Crossing(cfg, frames, t, n, s => s == STAY_ARMED);
    StatusMovesAt(cfg, frames, k, t, n);
  }
}
