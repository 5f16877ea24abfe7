/**
 What each line of the panel means (src/para_mgr.c:425-730), said one record at a time:
 `Decode` names the one area and the one zone a frame touches and the operations it
 performs on each, without looking at any record.
 */
module PanelSpec {
  import opened CText
  import opened Records

  // --------------------------------------------------------------- operations

  datatype AreaOp =
    | Arm(to: char)                 // only from disarmed or exit delay
    | SetStatus(to: char)
    | BeginExit                     // only from disarmed
    | SetTrouble
    | SetMemory
    | SetAlarm
    | Record(fields: AreaFields)    // an RA response
    | RaiseFromZone                 // an RZ response for a zone in alarm
    | Flush                         // an RZ response for any other zone
    | Label(text: string)

  datatype ZoneOp =
    | SetZoneStatus(to: char)
    | SetZoneAlarm(alarm: char)
    | SetZoneFire(fire: char)
    | RecordZone(fields: ZoneFields)
    | LabelZone(text: string)

  function DeriveState(f: AreaFields, old': PanelState): PanelState {
    if f.alarm == IN_ALARM then Triggered
    else if f.status == DISARMED then Disarmed
    else if f.status == STAY_ARMED then ArmedHome
    else if f.status == ARMED || f.status == FORCE_ARMED || f.status == INSTANT_ARMED then ArmedAway
    else if f.status == EXIT_DELAY then Arming
    else old'
  }

  predicate ZoneIsOn(f: ZoneFields) {
    !(f.status == ZONE_CLOSED && f.alarm == OK && f.fire == OK)
  }

  /** Whether the operation does anything at all in the present status. */
  predicate Fires(op: AreaOp, f: AreaFields) {
    match op
    case Arm(_) => f.status == DISARMED || f.status == EXIT_DELAY
    case BeginExit => f.status == DISARMED
    case _ => true
  }

  function AreaEffect(op: AreaOp, f: AreaFields): AreaFields {
    if !Fires(op, f) then f
    else
      match op
      case Arm(to) => f.(status := to)
      case SetStatus(to) => f.(status := to)
      case BeginExit => f.(status := EXIT_DELAY)
      case SetTrouble => f.(trouble := TROUBLE)
      case SetMemory => f.(memory := ZONE_IN_MEMORY)
      case SetAlarm => f.(alarm := IN_ALARM)
      case Record(g) => g
      case RaiseFromZone => if f.alarm == OK then f.(alarm := IN_ALARM) else f
      case Flush => f
      case Label(_) => f
  }

  /** Whether the derived state is computed anew. */
  predicate Refreshes(op: AreaOp, f: AreaFields) {
    Fires(op, f) && !op.RaiseFromZone? && !op.Flush? && !op.Label?
  }

  predicate Sends(op: AreaOp, f: AreaFields) {
    Fires(op, f) && !op.Label?
  }

  function ZoneEffect(op: ZoneOp, f: ZoneFields): ZoneFields {
    match op
    case SetZoneStatus(c) => f.(status := c)
    case SetZoneAlarm(c) => f.(alarm := c)
    case SetZoneFire(c) => f.(fire := c)
    case RecordZone(g) => g
    case LabelZone(_) => f
  }

  function WriteArea(a: Area, f: AreaFields): Area {
    a.(fields := f, updated := a.updated || f != a.fields)
  }

  function RefreshArea(a: Area): Area {
    a.(state := DeriveState(a.fields, a.state))
  }

  function SentArea(a: Area): Area {
    if a.updated then a.(updated := false, firstReport := false) else a
  }

  function AreaMail(a: Area): seq<Area> {
    if a.updated then [a] else []
  }

  function TrimRight(s: string): string {
    if s != "" && s[|s| - 1] == SPACE then TrimRight(s[..|s| - 1]) else s
  }

  /** The label as kept: at most 17 bytes, without the spaces it ends in. */
  function LabelText(src: string): string {
    var t := CStr(src);
    TrimRight(t[..Min(LABEL_LENGTH, |t|)])
  }

  datatype AreaOut = AreaOut(area: Area, reports: seq<Area>)

  /** The record just before the operation sends it, if it does. */
  function ChangedArea(op: AreaOp, a: Area): Area {
    if op.Label? then a.(name := LabelText(op.text))
    else
      var b := WriteArea(a, AreaEffect(op, a.fields));
      if Refreshes(op, a.fields) then RefreshArea(b) else b
  }

  function AreaStep(op: AreaOp, a: Area): AreaOut {
    var b := ChangedArea(op, a);
    if Sends(op, a.fields) then AreaOut(SentArea(b), AreaMail(b)) else AreaOut(b, [])
  }

  function AreaRun(ops: seq<AreaOp>, a: Area): AreaOut
    decreases |ops|
  {
    if ops == [] then AreaOut(a, [])
    else
      var h := AreaStep(ops[0], a);
      var r := AreaRun(ops[1..], h.area);
      AreaOut(r.area, h.reports + r.reports)
  }

  function WriteZone(z: Zone, f: ZoneFields): Zone {
    z.(fields := f, updated := z.updated || f != z.fields)
  }

  function RefreshZone(z: Zone): Zone {
    z.(on := ZoneIsOn(z.fields))
  }

  function SentZone(z: Zone): Zone {
    if z.updated then z.(updated := false) else z
  }

  function ZoneMail(z: Zone): seq<Zone> {
    if z.updated then [z] else []
  }

  datatype ZoneOut = ZoneOut(zone: Zone, reports: seq<Zone>)

  function ZoneStep(op: ZoneOp, z: Zone): ZoneOut {
    if op.LabelZone? then ZoneOut(z.(name := LabelText(op.text)), [])
    else
      var b := RefreshZone(WriteZone(z, ZoneEffect(op, z.fields)));
      ZoneOut(SentZone(b), ZoneMail(b))
  }

  function ZoneRun(ops: seq<ZoneOp>, z: Zone): ZoneOut
    decreases |ops|
  {
    if ops == [] then ZoneOut(z, [])
    else
      var h := ZoneStep(ops[0], z);
      var r := ZoneRun(ops[1..], h.zone);
      ZoneOut(r.zone, h.reports + r.reports)
  }

  // ------------------------------------------------------------------- frames

  /** The zone and the area a frame touches; no operation means none is touched. */
  datatype Effect = Effect(zone: int, zoneOps: seq<ZoneOp>, area: int, areaOps: seq<AreaOp>)

  const NOTHING: Effect := Effect(0, [], 0, [])

  predicate ZoneGroup(g: int) {
    0 <= g <= 3 || 23 <= g <= 27
  }

  function EventArea(f: string): int { NumberAt(f, 9, 3) }

  function EventNumber(f: string): int { NumberAt(f, 5, 3) }

  function EventGroup(f: string): int { NumberAt(f, 1, 3) }

  function EventZoneOps(g: int): seq<ZoneOp> {
    match g
    case 0 => [SetZoneStatus(ZONE_CLOSED)]
    case 1 => [SetZoneStatus(ZONE_OPEN)]
    case 2 => [SetZoneStatus(ZONE_TAMPERED)]
    case 3 => [SetZoneStatus(ZONE_FIRE)]
    case 24 => [SetZoneAlarm(IN_ALARM)]
    case 25 => [SetZoneFire(ZONE_FIRE)]
    case 26 => [SetZoneAlarm(OK)]
    case 27 => [SetZoneFire(OK)]
    case _ => []
  }

  function EventAreaOps(g: int, e: int): seq<AreaOp> {
    if 9 <= g <= 12 then [Arm(if g == 12 && e == 4 then STAY_ARMED else ARMED)]
    else if 13 <= g <= 22 then [SetStatus(DISARMED)]
    else if g == 24 || g == 25 then [SetAlarm]
    else if g == 64 then
      if e == 2 then [SetStatus(STAY_ARMED)]
      else if e == 0 || e == 1 || e == 3 then [SetStatus(ARMED)]
      else if 4 <= e <= 7 then [SetAlarm]
      else []
    else if g == 65 then
      if e == 1 then [BeginExit, SetTrouble]   // falls through to event 3
      else if e == 3 then [SetTrouble]
      else if e == 4 then [SetMemory]
      else []
    else []
  }

  function EventEffect(f: string): Effect {
    var g, e, n := EventGroup(f), EventNumber(f), EventArea(f);
    if ZoneGroup(g) && e < 1 then NOTHING
    else if n < 1 || n > MAX_AREAS then NOTHING
    else Effect(e, EventZoneOps(g), n, EventAreaOps(g, e))
  }

  /** Responses are accepted below the table's last index only. */
  predicate AreaAccepted(cfg: Config, n: int) {
    0 < n < MAX_AREAS && n in cfg.areas
  }

  predicate ZoneAccepted(cfg: Config, z: int) {
    0 < z < MAX_ZONES && z in cfg.zoneArea
  }

  function ResponseEffect(cfg: Config, f: string): Effect {
    var n := NumberAt(f, 2, 3);
    match At(f, 0)
    case 'A' =>
      if At(f, 1) == 'L' && AreaAccepted(cfg, n) then Effect(0, [], n, [Label(f[Min(5, |f|)..])])
      else if At(f, 1) == 'D' && AreaAccepted(cfg, n) && At(f, 6) == 'o' && At(f, 7) == 'k' then
        Effect(0, [], n, [SetStatus(DISARMED)])
      else NOTHING
    case 'R' =>
      if At(f, 1) == 'A' && AreaAccepted(cfg, n) then Effect(0, [], n, [Record(RecordIn(f))])
      else if At(f, 1) == 'Z' && ZoneAccepted(cfg, n) then
        Effect(n, [RecordZone(ZoneRecordIn(f))],
               cfg.zoneArea[n], [if At(f, 6) == IN_ALARM then RaiseFromZone else Flush])
      else NOTHING
    case 'Z' =>
      if At(f, 1) == 'L' && ZoneAccepted(cfg, n) then Effect(n, [LabelZone(f[Min(5, |f|)..])], 0, [])
      else NOTHING
    case _ => NOTHING
  }

  function RecordIn(f: string): AreaFields {
    AreaFields(At(f, 5), At(f, 6), At(f, 7), At(f, 8), At(f, 9), At(f, 10), At(f, 11))
  }

  function ZoneRecordIn(f: string): ZoneFields {
    ZoneFields(At(f, 5), At(f, 6), At(f, 7), At(f, 8), At(f, 9))
  }

  predicate IsEvent(f: string) {
    At(f, 0) == 'G'
  }

  function Decode(cfg: Config, f: string): Effect {
    if IsEvent(f) then EventEffect(f) else ResponseEffect(cfg, f)
  }

  // --------------------------------------------------------------- safe frames

  predicate HasInk(src: string) {
    LabelText(src) != ""
  }

  /**
   The frames the C code can process without reading past the frame, following a null
   table entry, or trimming a label past its beginning.
   */
  predicate Safe(cfg: Config, f: string) {
    && f != ""
    && (IsEvent(f) ==> |f| >= 9)
    && (var e := Decode(cfg, f);
        && (e.zoneOps != [] ==> e.zone in cfg.zoneArea)
        && (e.areaOps != [] ==> e.area in cfg.areas)
        && (forall op :: op in e.areaOps ==>
              && (op.Label? ==> |f| >= 5 && HasInk(op.text))
              && (op.Record? ==> |f| >= 11))
        && (forall op :: op in e.zoneOps ==>
              && (op.LabelZone? ==> |f| >= 5 && HasInk(op.text))
              && (op.RecordZone? ==> |f| >= 9)))
    && (f[0] == 'A' && At(f, 1) == 'D' && AreaAccepted(cfg, NumberAt(f, 2, 3)) ==> |f| >= 6)
  }

  // ----------------------------------------------------------------- whole runs

  datatype Out = Out(tables: Tables, areaReports: seq<Area>, zoneReports: seq<Zone>)

  /** Applying an effect; one on a record that does not exist has none (no safe frame has one). */
  function Apply(e: Effect, t: Tables): Out {
    var a := if e.area in t.areas then AreaRun(e.areaOps, t.areas[e.area]).reports else [];
    var z := if e.zone in t.zones then ZoneRun(e.zoneOps, t.zones[e.zone]).reports else [];
    Out(Tables(if e.area in t.areas then t.areas[e.area := AreaRun(e.areaOps, t.areas[e.area]).area] else t.areas,
               if e.zone in t.zones then t.zones[e.zone := ZoneRun(e.zoneOps, t.zones[e.zone]).zone] else t.zones),
        a, z)
  }

  function Handle(cfg: Config, f: string, t: Tables): Out {
    Apply(Decode(cfg, f), t)
  }

  function Run(cfg: Config, frames: seq<string>, t: Tables): Out
    decreases |frames|
  {
    if frames == [] then Out(t, [], [])
    else
      var h := Handle(cfg, frames[0], t);
      var r := Run(cfg, frames[1..], h.tables);
      Out(r.tables, h.areaReports + r.areaReports, h.zoneReports + r.zoneReports)
  }
}
