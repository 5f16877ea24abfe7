/**
 The panel's lines as the panel prints them, read back by the manager; and, with them, the
 alarm that the home automation is never told of.
 */
module Wire {
  import opened CText
  import opened Records
  import opened PanelSpec
  import opened Runs
  import opened Sequences
  import opened Json
  import A = AreaLaws

  /** A zero-padded number anywhere in a frame is read back, for every width it fits and every `int`. */
  lemma NumberReadBack(before: string, w: nat, n: nat, after: string)
    requires |Decimal(n)| <= w && n < 0x8000_0000
    ensures |Padded(w, n)| == w && NumberAt(before + Padded(w, n) + after, |before|, w) == n
  {
    PaddedShape(w, n);
    PaddedRoundTrip(w, n);
    var f := before + Padded(w, n) + after;
    assert f[|before|..|before| + w] == Padded(w, n);
  }

  lemma ThreeDigits(before: string, n: nat, after: string)
    requires n < 1000
    ensures |Padded(3, n)| == 3 && NumberAt(before + Padded(3, n) + after, |before|, 3) == n
  {
    ShortDecimal(n);
    NumberReadBack(before, 3, n, after);
  }

  lemma ShortDecimal(n: nat)
    requires n < 1000
    ensures |Decimal(n)| <= 3
  {
    DecimalLength(n);
    DecimalDigits(n);
    assert n < 10 || 10 <= n < 100 || 100 <= n < 1000;
  }

  function EventFrame(g: nat, e: nat, n: nat): string {
    "G" + Padded(3, g) + "N" + Padded(3, e) + "A" + Padded(3, n)
  }

  function StatusFrame(n: nat, f: AreaFields): string {
    "RA" + Padded(3, n) + [f.status, f.memory, f.trouble, f.ready, f.programming, f.alarm, f.strobe]
  }

  function ZoneFrame(z: nat, f: ZoneFields): string {
    "RZ" + Padded(3, z) + [f.status, f.alarm, f.fire, f.supervision, f.battery]
  }

  /** An event names the group, number and area it was printed from. */
  lemma EventReadBack(g: nat, e: nat, n: nat)
    requires g < 1000 && e < 1000 && n < 1000
    ensures var f := EventFrame(g, e, n);
            |f| == 12 && IsEvent(f) && EventGroup(f) == g && EventNumber(f) == e && EventArea(f) == n
  {
    var x, y, z := Padded(3, g), Padded(3, e), Padded(3, n);
    ThreeDigits("G", g, "N" + y + "A" + z);
    ThreeDigits("G" + x + "N", e, "A" + z);
    ThreeDigits("G" + x + "N" + y + "A", n, "");
    Regroup("G" + x, "N" + y + "A", z);
    Regroup("G" + x, "N" + y, "A");
    Regroup("G" + x, "N", y);
    Regroup("G" + x + "N" + y, "A", z);
    NothingMore(EventFrame(g, e, n));
  }

  /** An accepted status response writes exactly the fields it was printed from. */
  lemma StatusReadBack(cfg: Config, n: nat, f: AreaFields)
    requires AreaAccepted(cfg, n)
    ensures Decode(cfg, StatusFrame(n, f)) == Effect(0, [], n, [Record(f)])
    ensures Safe(cfg, StatusFrame(n, f))
  {
    var tail := [f.status, f.memory, f.trouble, f.ready, f.programming, f.alarm, f.strobe];
    ThreeDigits("RA", n, tail);
    var s := StatusFrame(n, f);
    assert |s| == 12 && s[0] == 'R' && s[1] == 'A' && s[5..] == tail;
    assert forall i :: 5 <= i < 12 ==> At(s, i) == tail[i - 5];
  }

  lemma ZoneReadBack(cfg: Config, z: nat, f: ZoneFields)
    requires ZoneAccepted(cfg, z) && cfg.zoneArea[z] in cfg.areas
    ensures Decode(cfg, ZoneFrame(z, f))
         == Effect(z, [RecordZone(f)], cfg.zoneArea[z], [if f.alarm == IN_ALARM then RaiseFromZone else Flush])
    ensures Safe(cfg, ZoneFrame(z, f))
  {
    var tail := [f.status, f.alarm, f.fire, f.supervision, f.battery];
    ThreeDigits("RZ", z, tail);
    var s := ZoneFrame(z, f);
    assert |s| == 10 && s[0] == 'R' && s[1] == 'Z' && s[5..] == tail;
    assert forall i :: 5 <= i < 10 ==> At(s, i) == tail[i - 5];
  }

  // ----------------------------------------------------------- the unseen alarm

  const IDLE: AreaFields := AreaFields(DISARMED, OK, TROUBLE, OK, OK, OK, OK)
  const ALARMED: ZoneFields := ZoneFields(ZONE_OPEN, IN_ALARM, OK, OK, OK)

  /** A status response, a zone response in alarm, and a trouble event that changes nothing. */
  function UnseenAlarmFrames(n: nat, z: nat): seq<string> {
    [StatusFrame(n, IDLE), ZoneFrame(z, ALARMED), EventFrame(65, 3, n)]
  }

  lemma OpsOfThree(cfg: Config, f: string, g: string, h: string, n: int)
    ensures AreaOpsOf(cfg, [f, g, h], n)
         == AreaOpsIn(Decode(cfg, f), n) + AreaOpsIn(Decode(cfg, g), n) + AreaOpsIn(Decode(cfg, h), n)
  {
    assert [f, g, h] == [f, g] + [h];
    OpsAppend(cfg, [f, g], [h], n);
    OpsOfTwo(cfg, f, g, n);
    OpsOfOne(cfg, h, n);
  }

  lemma ThreeOps(p: AreaOp, q: AreaOp, r: AreaOp, a: Area)
    ensures var x := AreaStep(p, a);
            var y := AreaStep(q, x.area);
            var z := AreaStep(r, y.area);
            AreaRun([p, q, r], a) == AreaOut(z.area, x.reports + y.reports + z.reports)
  {
    assert [p, q, r] == [p] + [q] + [r];
    AreaRunAppend([p] + [q], [r], a);
    AreaRunAppend([p], [q], a);
    A.OneStep(p, a);
    A.OneStep(q, AreaStep(p, a).area);
    A.OneStep(r, AreaStep(q, AreaStep(p, a).area).area);
  }

  lemma TroubleEventDecodes(cfg: Config, n: nat)
    requires 1 <= n <= MAX_AREAS
    ensures Decode(cfg, EventFrame(65, 3, n)) == Effect(3, [], n, [SetTrouble])
    ensures n in cfg.areas ==> Safe(cfg, EventFrame(65, 3, n))
  {
    EventReadBack(65, 3, n);
  }

  lemma UnseenAlarmOps(cfg: Config, n: nat, z: nat)
    requires AreaAccepted(cfg, n) && ZoneAccepted(cfg, z) && cfg.zoneArea[z] == n
    ensures AreaOpsOf(cfg, UnseenAlarmFrames(n, z), n) == [Record(IDLE), RaiseFromZone, SetTrouble]
    ensures forall f :: f in UnseenAlarmFrames(n, z) ==> Safe(cfg, f)
  {
    StatusReadBack(cfg, n, IDLE);
    ZoneReadBack(cfg, z, ALARMED);
    TroubleEventDecodes(cfg, n);
    OpsOfThree(cfg, StatusFrame(n, IDLE), ZoneFrame(z, ALARMED), EventFrame(65, 3, n), n);
  }

  lemma UnseenAlarmRun(n: int)
    ensures var out := AreaRun([Record(IDLE), RaiseFromZone, SetTrouble], NewArea(n));
            && out.area.state == Triggered
            && |out.reports| == 2 && out.reports[1].state == Disarmed && out.reports[1].fields.alarm == IN_ALARM
  {
    ThreeOps(Record(IDLE), RaiseFromZone, SetTrouble, NewArea(n));
    var x := AreaStep(Record(IDLE), NewArea(n));
    assert x.area == Area(n, "", IDLE, Disarmed, false, false) && |x.reports| == 1;
    var y := AreaStep(RaiseFromZone, x.area);
    assert y.area == Area(n, "", IDLE.(alarm := IN_ALARM), Disarmed, false, false) && |y.reports| == 1;
  }

  /**
   For every configured area and zone within the accepted numbers there is a run after
   which the manager holds the area triggered while the last report, and so the main
   topic, says disarmed: dirty-flag reporting does not cover the derived state.
   */
  lemma {:induction false} UnseenAlarm(t: Tables, n: nat, z: nat)
    requires Initial(t) && AreaAccepted(ConfigOf(t), n) && ZoneAccepted(ConfigOf(t), z) && t.zones[z].area == n
    ensures var cfg, frames := ConfigOf(t), UnseenAlarmFrames(n, z);
            var out := Run(cfg, frames, t);
            var mine := AreaReportsFor(n, out.areaReports);
            && (forall f :: f in frames ==> Safe(cfg, f))
            && n in out.tables.areas && out.tables.areas[n].state == Triggered
            && |mine| == 2 && mine[1].state == Disarmed && mine[1].fields.alarm == IN_ALARM
  {
    var cfg := ConfigOf(t);
    UnseenAlarmOps(cfg, n, z);
    AreaProjects(cfg, UnseenAlarmFrames(n, z), t, n);
    UnseenAlarmRun(n);
  }

  // ------------------------------------------------- the alarm JSON leaves out

  lemma AlarmEventDecodes(cfg: Config, n: nat, z: nat)
    requires 1 <= n <= MAX_AREAS && 1 <= z <= MAX_ZONES
    ensures Decode(cfg, EventFrame(24, z, n)) == Effect(z, [SetZoneAlarm(IN_ALARM)], n, [SetAlarm])
    ensures n in cfg.areas && z in cfg.zoneArea ==> Safe(cfg, EventFrame(24, z, n))
  {
    EventReadBack(24, z, n);
  }

  lemma FirstAlarm(n: int)
    ensures AreaRun([SetAlarm], NewArea(n))
         == AreaOut(Area(n, "", ZERO_AREA.(alarm := IN_ALARM), Triggered, false, false),
                    [Area(n, "", ZERO_AREA.(alarm := IN_ALARM), Triggered, true, true)])
  {
    A.OneStep(SetAlarm, NewArea(n));
  }

  /**
   For every configured area and zone: an alarm before any status response triggers the area
   and is reported, and of that report's JSON not one field can be read.
   */
  lemma {:induction false} AlarmNotInJson(t: Tables, n: nat, z: nat)
    requires Initial(t) && n in t.areas && z in t.zones
    ensures var cfg, f := ConfigOf(t), EventFrame(24, z, n);
            var out := Run(cfg, [f], t);
            var mine := AreaReportsFor(n, out.areaReports);
            && Safe(cfg, f) && n in out.tables.areas && out.tables.areas[n].state == Triggered
            && |mine| == 1 && mine[0].state == Triggered && mine[0].fields.alarm == IN_ALARM
            && Legible(AREA_LABELS, AreaText(mine[0])) == ""
  {
    var cfg, f := ConfigOf(t), EventFrame(24, z, n);
    AlarmEventDecodes(cfg, n, z);
    OpsOfOne(cfg, f, n);
    AreaProjects(cfg, [f], t, n);
    FirstAlarm(n);
    AreaTextShape(AreaReportsFor(n, Run(cfg, [f], t).areaReports)[0]);
  }
}
