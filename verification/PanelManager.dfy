/**
 The panel manager (src/para_mgr.c): its two tables of records, the handlers that change
 them in place, and the queues it pushes to.  Every handler is proved to do to the tables
 and the queues what `PanelSpec` says.
 */
module PanelManager {
  import opened CText
  import opened Records
  import opened PanelSpec
  import opened PanelRecords
  import opened Requests
  import opened Runs
  import opened Sequences

  class Manager {
    const areas: array<AreaRecord?>
    const zones: array<ZoneRecord?>
    const userCode: Option<string>
    /** The queues to the MQTT and serial threads: everything pushed, oldest first. */
    var areaReports: seq<Area>
    var zoneReports: seq<Zone>
    var requests: seq<string>
    /** What the tables hold. */
    ghost var tables: Tables
    ghost var Repr: set<object>
    /** The one record each label buffer belongs to. */
    ghost var owner: map<object, object?>

    ghost predicate Valid()
      reads this, Repr
    {
      areas in Repr && zones in Repr && Shape() && Shown()
    }

    ghost predicate Shape()
      reads this, areas, zones
    {
      && areas in Repr && zones in Repr && this !in Repr
      && areas.Length == MAX_AREAS && zones.Length == MAX_ZONES
      && (forall i :: 0 <= i < areas.Length && areas[i] != null ==>
            && areas[i] in Repr && areas[i].name in Repr && areas[i].name.Length == LABEL_LENGTH + 1
            && areas[i].name in owner && owner[areas[i].name] == areas[i])
      && (forall i :: 0 <= i < zones.Length && zones[i] != null ==>
            && zones[i] in Repr && zones[i].name in Repr && zones[i].name.Length == LABEL_LENGTH + 1
            && zones[i].name in owner && owner[zones[i].name] == zones[i])
    }

    /** `tables` is what the records say. */
    ghost predicate Shown()
      requires Shape()
      reads this, Repr
    {
      && WellFormed(tables)
      && (forall i :: 0 <= i < areas.Length ==> (areas[i] != null <==> i + 1 in tables.areas))
      && (forall i :: 0 <= i < zones.Length ==> (zones[i] != null <==> i + 1 in tables.zones))
      && (forall i :: 0 <= i < areas.Length && areas[i] != null ==> areas[i].View() == tables.areas[i + 1])
      && (forall i :: 0 <= i < zones.Length && zones[i] != null ==> zones[i].View() == tables.zones[i + 1])
    }

    /** Empty tables. */
    constructor (code: Option<string>)
      ensures Valid() && fresh(Repr)
      ensures tables == Tables(map[], map[]) && userCode == code
      ensures areaReports == [] && zoneReports == [] && requests == []
    {
      areas := new AreaRecord?[MAX_AREAS](_ => null);
      zones := new ZoneRecord?[MAX_ZONES](_ => null);
      userCode := code;
      areaReports, zoneReports, requests := [], [], [];
      tables := Tables(map[], map[]);
      new;
      Repr, owner := {areas, zones}, map[];
    }

    // ------------------------------------------------------------- configuring

    /** Clears the record of an area, first making one where there is none. */
    method SetArea(n: int)
      requires Valid() && 1 <= n <= MAX_AREAS
      modifies this`Repr, this`owner, this`tables, Repr
      ensures Valid() && fresh(Repr - old(Repr))
      ensures tables == old(tables).(areas := old(tables).areas[n := NewArea(n)])
    {
      if areas[n - 1] == null {
        AllocateArea(n);
      } else {
        areas[n - 1].Reset(n);
        tables := tables.(areas := tables.areas[n := NewArea(n)]);
        AreaShown(n);
      }
    }

    method AllocateArea(n: int)
      requires Valid() && 1 <= n <= MAX_AREAS && n !in tables.areas
      modifies this`Repr, this`owner, this`tables, areas
      ensures Valid() && fresh(Repr - old(Repr))
      ensures tables == old(tables).(areas := old(tables).areas[n := NewArea(n)])
    {
      var r := new AreaRecord(n);
      areas[n - 1] := r;
      Repr, owner := Repr + {r, r.name}, owner[r.name := r];
      tables := tables.(areas := tables.areas[n := NewArea(n)]);
      AreaAdded(n);
    }

    /** Likewise for a zone, whose area must have its record already. */
    method SetZone(n: int, z: int)
      requires Valid() && n in tables.areas && 1 <= z <= MAX_ZONES
      modifies this`Repr, this`owner, this`tables, Repr
      ensures Valid() && fresh(Repr - old(Repr))
      ensures tables == old(tables).(zones := old(tables).zones[z := NewZone(z, n)])
    {
      if zones[z - 1] == null {
        AllocateZone(n, z);
      } else {
        zones[z - 1].Reset(z, n);
        tables := tables.(zones := tables.zones[z := NewZone(z, n)]);
        ZoneShown(z);
      }
    }

    method AllocateZone(n: int, z: int)
      requires Valid() && n in tables.areas && 1 <= z <= MAX_ZONES && z !in tables.zones
      modifies this`Repr, this`owner, this`tables, zones
      ensures Valid() && fresh(Repr - old(Repr))
      ensures tables == old(tables).(zones := old(tables).zones[z := NewZone(z, n)])
    {
      var r := new ZoneRecord(z, n);
      zones[z - 1] := r;
      Repr, owner := Repr + {r, r.name}, owner[r.name := r];
      tables := tables.(zones := tables.zones[z := NewZone(z, n)]);
      ZoneAdded(z);
    }

    twostate lemma AreaAdded(n: int)
      requires old(Valid()) && areas.Length == MAX_AREAS && 1 <= n <= MAX_AREAS && n !in old(tables).areas
      requires unchanged(zones) && areas[n - 1] != null && areas[n - 1].View() == NewArea(n)
      requires areas[..] == old(areas[..])[n - 1 := areas[n - 1]]
      requires fresh(areas[n - 1]) && fresh(areas[n - 1].name)
      requires areas[n - 1].name.Length == LABEL_LENGTH + 1
      requires Repr == old(Repr) + {areas[n - 1], areas[n - 1].name}
      requires owner == old(owner)[areas[n - 1].name := areas[n - 1]]
      requires forall o :: o in old(Repr) && o != areas ==> unchanged(o)
      requires tables == old(tables).(areas := old(tables).areas[n := NewArea(n)])
      ensures Valid()
    {
      assert forall i :: 0 <= i < areas.Length && i != n - 1 ==>
        areas[i] == areas[..][i] == old(areas[..])[i] == old(areas[i]);
    }

    twostate lemma ZoneAdded(z: int)
      requires old(Valid()) && zones.Length == MAX_ZONES && 1 <= z <= MAX_ZONES && z !in old(tables).zones
      requires unchanged(areas) && zones[z - 1] != null && zones[z - 1].View() == NewZone(z, zones[z - 1].area)
      requires zones[z - 1].area in old(tables).areas
      requires zones[..] == old(zones[..])[z - 1 := zones[z - 1]]
      requires fresh(zones[z - 1]) && fresh(zones[z - 1].name)
      requires zones[z - 1].name.Length == LABEL_LENGTH + 1
      requires Repr == old(Repr) + {zones[z - 1], zones[z - 1].name}
      requires owner == old(owner)[zones[z - 1].name := zones[z - 1]]
      requires forall o :: o in old(Repr) && o != zones ==> unchanged(o)
      requires tables == old(tables).(zones := old(tables).zones[z := zones[z - 1].View()])
      ensures Valid()
    {
      assert forall i :: 0 <= i < zones.Length && i != z - 1 ==>
        zones[i] == zones[..][i] == old(zones[..])[i] == old(zones[i]);
    }

    // ----------------------------------------------------------------- reports

    /** When only one area's record has changed, keeping `tables` in step is enough. */
    twostate lemma AreaShown(n: int)
      requires old(Valid()) && n in old(tables).areas
      requires Repr == old(Repr) && owner == old(owner) && unchanged(areas) && unchanged(zones)
      requires forall o :: o in Repr && o != areas[n - 1] && o != areas[n - 1].name ==> unchanged(o)
      requires tables == old(tables).(areas := old(tables).areas[n := areas[n - 1].View()])
      requires areas[n - 1].num == n
      ensures Valid()
    {
    }

    twostate lemma ZoneShown(z: int)
      requires old(Valid()) && z in old(tables).zones
      requires Repr == old(Repr) && owner == old(owner) && unchanged(areas) && unchanged(zones)
      requires forall o :: o in Repr && o != zones[z - 1] && o != zones[z - 1].name ==> unchanged(o)
      requires tables == old(tables).(zones := old(tables).zones[z := zones[z - 1].View()])
      requires zones[z - 1].num == z && zones[z - 1].area in old(tables).areas
      ensures Valid()
    {
    }

    /** The operations `ops`, and nothing else, have been done to area `n` and its reports pushed. */
    twostate predicate AreaDid(n: int, ops: seq<AreaOp>)
      requires n in old(tables).areas
      reads this, Repr
    {
      var out := AreaRun(ops, old(tables).areas[n]);
      && Valid()
      && tables == old(tables).(areas := old(tables).areas[n := out.area])
      && areaReports == old(areaReports) + out.reports
    }

    twostate predicate ZoneDid(z: int, ops: seq<ZoneOp>)
      requires z in old(tables).zones
      reads this, Repr
    {
      var out := ZoneRun(ops, old(tables).zones[z]);
      && Valid()
      && tables == old(tables).(zones := old(tables).zones[z := out.zone])
      && zoneReports == old(zoneReports) + out.reports
    }

    /** Takes the report out of a record that has already been changed by `op`. */
    method SendAreaReport(n: int, ghost op: AreaOp, ghost a: Area)
      requires Valid() && n in tables.areas && Sends(op, a.fields) && tables.areas[n] == ChangedArea(op, a)
      modifies this`tables, this`areaReports, Repr
      ensures Valid() && tables == old(tables).(areas := old(tables).areas[n := AreaRun([op], a).area])
      ensures areaReports == old(areaReports) + AreaRun([op], a).reports
    {
      var mail := areas[n - 1].Send();
      areaReports := areaReports + mail;
      tables := tables.(areas := tables.areas[n := SentArea(tables.areas[n])]);
      AreaShown(n);
      assert AreaStep(op, a).reports + [] == AreaStep(op, a).reports;
    }

    method SendZoneReport(z: int, ghost op: ZoneOp, ghost r: Zone)
      requires Valid() && z in tables.zones && !op.LabelZone?
      requires tables.zones[z] == RefreshZone(WriteZone(r, ZoneEffect(op, r.fields)))
      modifies this`tables, this`zoneReports, Repr
      ensures Valid() && tables == old(tables).(zones := old(tables).zones[z := ZoneRun([op], r).zone])
      ensures zoneReports == old(zoneReports) + ZoneRun([op], r).reports
    {
      var mail := zones[z - 1].Send();
      zoneReports := zoneReports + mail;
      tables := tables.(zones := tables.zones[z := SentZone(tables.zones[z])]);
      ZoneShown(z);
      assert ZoneStep(op, r).reports + [] == ZoneStep(op, r).reports;
    }

    // ------------------------------------------- one area or zone, changed and sent

    method AreaStatus(n: int, c: char)
      requires Valid() && n in tables.areas
      modifies this`tables, this`areaReports, Repr
      ensures AreaDid(n, [SetStatus(c)])
    {
      ghost var a := tables.areas[n];
      areas[n - 1].SetStatus(c);
      areas[n - 1].UpdateMqttState();
      tables := tables.(areas := tables.areas[n := ChangedArea(SetStatus(c), a)]);
      AreaShown(n);
      SendAreaReport(n, SetStatus(c), a);
    }

    /** An arming event counts only from disarmed or exit delay. */
    method AreaArmed(n: int, c: char)
      requires Valid() && n in tables.areas
      modifies this`tables, this`areaReports, Repr
      ensures AreaDid(n, [Arm(c)])
    {
      ghost var a := tables.areas[n];
      if areas[n - 1].status == DISARMED || areas[n - 1].status == EXIT_DELAY {
        areas[n - 1].SetStatus(c);
        areas[n - 1].UpdateMqttState();
        tables := tables.(areas := tables.areas[n := ChangedArea(Arm(c), a)]);
        AreaShown(n);
        SendAreaReport(n, Arm(c), a);
      } else {
        assert tables.areas[n := a] == tables.areas;
      }
    }

    /** Exit delay counts only from disarmed. */
    method AreaLeaving(n: int)
      requires Valid() && n in tables.areas
      modifies this`tables, this`areaReports, Repr
      ensures AreaDid(n, [BeginExit])
    {
      ghost var a := tables.areas[n];
      if areas[n - 1].status == DISARMED {
        areas[n - 1].SetStatus(EXIT_DELAY);
        areas[n - 1].UpdateMqttState();
        tables := tables.(areas := tables.areas[n := ChangedArea(BeginExit, a)]);
        AreaShown(n);
        SendAreaReport(n, BeginExit, a);
      } else {
        assert tables.areas[n := a] == tables.areas;
      }
    }

    method AreaAlarm(n: int)
      requires Valid() && n in tables.areas
      modifies this`tables, this`areaReports, Repr
      ensures AreaDid(n, [SetAlarm])
    {
      ghost var a := tables.areas[n];
      areas[n - 1].SetAlarm(IN_ALARM);
      areas[n - 1].UpdateMqttState();
      tables := tables.(areas := tables.areas[n := ChangedArea(SetAlarm, a)]);
      AreaShown(n);
      SendAreaReport(n, SetAlarm, a);
    }

    method AreaTrouble(n: int)
      requires Valid() && n in tables.areas
      modifies this`tables, this`areaReports, Repr
      ensures AreaDid(n, [SetTrouble])
    {
      ghost var a := tables.areas[n];
      areas[n - 1].SetTrouble(TROUBLE);
      areas[n - 1].UpdateMqttState();
      tables := tables.(areas := tables.areas[n := ChangedArea(SetTrouble, a)]);
      AreaShown(n);
      SendAreaReport(n, SetTrouble, a);
    }

    method AreaMemory(n: int)
      requires Valid() && n in tables.areas
      modifies this`tables, this`areaReports, Repr
      ensures AreaDid(n, [SetMemory])
    {
      ghost var a := tables.areas[n];
      areas[n - 1].SetMemory(ZONE_IN_MEMORY);
      areas[n - 1].UpdateMqttState();
      tables := tables.(areas := tables.areas[n := ChangedArea(SetMemory, a)]);
      AreaShown(n);
      SendAreaReport(n, SetMemory, a);
    }

    method AreaRecorded(n: int, f: string)
      requires Valid() && n in tables.areas
      modifies this`tables, this`areaReports, Repr
      ensures AreaDid(n, [Record(RecordIn(f))])
    {
      ghost var a := tables.areas[n];
      areas[n - 1].Update(f);
      tables := tables.(areas := tables.areas[n := ChangedArea(Record(RecordIn(f)), a)]);
      AreaShown(n);
      SendAreaReport(n, Record(RecordIn(f)), a);
    }

    method ZoneStatus(z: int, c: char)
      requires Valid() && z in tables.zones
      modifies this`tables, this`zoneReports, Repr
      ensures ZoneDid(z, [SetZoneStatus(c)])
    {
      ghost var r := tables.zones[z];
      zones[z - 1].SetStatus(c);
      zones[z - 1].UpdateMqttState();
      tables := tables.(zones := tables.zones[z := RefreshZone(WriteZone(r, ZoneEffect(SetZoneStatus(c), r.fields)))]);
      ZoneShown(z);
      SendZoneReport(z, SetZoneStatus(c), r);
    }

    method ZoneAlarm(z: int, c: char)
      requires Valid() && z in tables.zones
      modifies this`tables, this`zoneReports, Repr
      ensures ZoneDid(z, [SetZoneAlarm(c)])
    {
      ghost var r := tables.zones[z];
      zones[z - 1].SetAlarm(c);
      zones[z - 1].UpdateMqttState();
      tables := tables.(zones := tables.zones[z := RefreshZone(WriteZone(r, ZoneEffect(SetZoneAlarm(c), r.fields)))]);
      ZoneShown(z);
      SendZoneReport(z, SetZoneAlarm(c), r);
    }

    method ZoneFire(z: int, c: char)
      requires Valid() && z in tables.zones
      modifies this`tables, this`zoneReports, Repr
      ensures ZoneDid(z, [SetZoneFire(c)])
    {
      ghost var r := tables.zones[z];
      zones[z - 1].SetFire(c);
      zones[z - 1].UpdateMqttState();
      tables := tables.(zones := tables.zones[z := RefreshZone(WriteZone(r, ZoneEffect(SetZoneFire(c), r.fields)))]);
      ZoneShown(z);
      SendZoneReport(z, SetZoneFire(c), r);
    }

    method AreaLabel(n: int, src: string)
      requires Valid() && n in tables.areas && HasInk(src)
      modifies this`tables, Repr
      ensures Valid()
      ensures tables == old(tables).(areas := old(tables).areas[n := AreaRun([Label(src)], old(tables).areas[n]).area])
      ensures AreaRun([Label(src)], old(tables).areas[n]).reports == []
    {
      ghost var a := tables.areas[n];
      SetLabel(areas[n - 1].name, src);
      tables := tables.(areas := tables.areas[n := ChangedArea(Label(src), a)]);
      AreaShown(n);
    }

    method ZoneLabel(z: int, src: string)
      requires Valid() && z in tables.zones && HasInk(src)
      modifies this`tables, Repr
      ensures Valid()
      ensures tables
           == old(tables).(zones := old(tables).zones[z := ZoneRun([LabelZone(src)], old(tables).zones[z]).zone])
      ensures ZoneRun([LabelZone(src)], old(tables).zones[z]).reports == []
    {
      ghost var r := tables.zones[z];
      SetLabel(zones[z - 1].name, src);
      tables := tables.(zones := tables.zones[z := ZoneStep(LabelZone(src), r).zone]);
      ZoneShown(z);
    }

    /** An RZ response: the zone's five fields, then its area's alarm, then both reports. */
    method ZoneRecorded(z: int, f: string)
      requires Valid() && z in tables.zones
      modifies this`tables, this`areaReports, this`zoneReports, Repr
      ensures Valid()
      ensures var r := old(tables).zones[z];
              var zo := ZoneRun([RecordZone(ZoneRecordIn(f))], r);
              var ao := AreaRun([if At(f, 6) == IN_ALARM then RaiseFromZone else Flush], old(tables).areas[r.area]);
              && tables == Tables(old(tables).areas[r.area := ao.area], old(tables).zones[z := zo.zone])
              && areaReports == old(areaReports) + ao.reports
              && zoneReports == old(zoneReports) + zo.reports
    {
      ghost var r := tables.zones[z];
      var n := zones[z - 1].area;
      ghost var a := tables.areas[n];
      var raise := At(f, 6) == IN_ALARM;
      UpdateZoneRecord(z, f);
      SendZoneReport(z, RecordZone(ZoneRecordIn(f)), r);
      if raise {
        SendAreaReport(n, RaiseFromZone, a);
      } else {
        SendAreaReport(n, Flush, a);
      }
    }

    method UpdateZoneRecord(z: int, f: string)
      requires Valid() && z in tables.zones
      modifies this`tables, Repr
      ensures Valid()
      ensures var r := old(tables).zones[z];
              var a := old(tables).areas[r.area];
              tables == Tables(
                old(tables).areas[r.area := ChangedArea(if At(f, 6) == IN_ALARM then RaiseFromZone else Flush, a)],
                old(tables).zones[z := RefreshZone(WriteZone(r, ZoneRecordIn(f)))])
    {
      ghost var r := tables.zones[z];
      ghost var a := tables.areas[r.area];
      zones[z - 1].Update(f);
      tables := tables.(zones := tables.zones[z := RefreshZone(WriteZone(r, ZoneRecordIn(f)))]);
      ZoneShown(z);
      RaiseAreaAlarm(z);
      assert !(At(f, 6) == IN_ALARM) ==> tables.areas[r.area := a] == tables.areas;
    }

    /** A zone in alarm puts its area in alarm, without computing the area's state anew. */
    method RaiseAreaAlarm(z: int)
      requires Valid() && z in tables.zones
      modifies this`tables, Repr
      ensures Valid()
      ensures var r := old(tables).zones[z];
              tables == if r.fields.alarm == IN_ALARM then
                old(tables).(areas :=
                   old(tables).areas[r.area := ChangedArea(RaiseFromZone, old(tables).areas[r.area])])
              else old(tables)
    {
      var n := zones[z - 1].area;
      ghost var a := tables.areas[n];
      if zones[z - 1].alarm == IN_ALARM {
        areas[n - 1].RaiseAlarm();
        tables := tables.(areas := tables.areas[n := ChangedArea(RaiseFromZone, a)]);
        AreaShown(n);
      }
    }

    // -------------------------------------------------------------- the handlers

    /** The tables and the report queues are what handling `f` makes of what they were. */
    twostate predicate Handled(f: string)
      reads this, Repr
    {
      var out := Handle(ConfigOf(old(tables)), f, old(tables));
      && Valid()
      && tables == out.tables
      && areaReports == old(areaReports) + out.areaReports
      && zoneReports == old(zoneReports) + out.zoneReports
    }

    method ProcessEvent(f: string)
      requires Valid() && IsEvent(f) && Safe(ConfigOf(tables), f)
      modifies this`tables, this`areaReports, this`zoneReports, Repr
      ensures Handled(f)
    {
      var group, number, n := EventGroup(f), EventNumber(f), EventArea(f);
      ghost var t := tables;
      Untouched(t);
      if ZoneGroup(group) && number < 1 {
        return;
      }
      if n < 1 || n > MAX_AREAS {
        return;
      }
      if ZoneGroup(group) {
        ZoneEvent(group, number, n);
      } else {
        AreaEvent(group, number, n);
      }
    }

    method ZoneEvent(group: int, number: int, n: int)
      requires Valid() && ZoneGroup(group)
      requires EventZoneOps(group) != [] ==> number in tables.zones
      requires EventAreaOps(group, number) != [] ==> n in tables.areas
      modifies this`tables, this`areaReports, this`zoneReports, Repr
      ensures var out := Apply(Effect(number, EventZoneOps(group), n, EventAreaOps(group, number)), old(tables));
              && Valid() && tables == out.tables
              && areaReports == old(areaReports) + out.areaReports
              && zoneReports == old(zoneReports) + out.zoneReports
    {
      Untouched(tables);
      match group {
        case 0 => ZoneStatus(number, ZONE_CLOSED);
        case 1 => ZoneStatus(number, ZONE_OPEN);
        case 2 => ZoneStatus(number, ZONE_TAMPERED);
        case 3 => ZoneStatus(number, ZONE_FIRE);
        case 24 =>
          ZoneAlarm(number, IN_ALARM);
          AreaAlarm(n);
        case 25 =>
          ZoneFire(number, ZONE_FIRE);
          AreaAlarm(n);
        case 26 => ZoneAlarm(number, OK);
        case 27 => ZoneFire(number, OK);
        case _ =>
      }
    }

    method AreaEvent(group: int, number: int, n: int)
      requires Valid() && !ZoneGroup(group)
      requires EventAreaOps(group, number) != [] ==> n in tables.areas
      modifies this`tables, this`areaReports, Repr
      ensures var out := Apply(Effect(number, EventZoneOps(group), n, EventAreaOps(group, number)), old(tables));
              && Valid() && tables == out.tables
              && areaReports == old(areaReports) + out.areaReports && out.zoneReports == []
    {
      Untouched(tables);
      if 9 <= group <= 12 {
        AreaArmed(n, if group == 12 && number == 4 then STAY_ARMED else ARMED);
      } else if 13 <= group <= 22 {
        AreaStatus(n, DISARMED);
      } else if group == 64 {
        Status1(number, n);
      } else if group == 65 {
        Status2(number, n);
      }
    }

    method Status1(number: int, n: int)
      requires Valid() && (EventAreaOps(64, number) != [] ==> n in tables.areas)
      modifies this`tables, this`areaReports, Repr
      ensures var out := Apply(Effect(0, [], n, EventAreaOps(64, number)), old(tables));
              && Valid() && tables == out.tables && areaReports == old(areaReports) + out.areaReports
    {
      Untouched(tables);
      match number {
        case 2 => AreaStatus(n, STAY_ARMED);
        case 0 => AreaStatus(n, ARMED);
        case 1 => AreaStatus(n, ARMED);
        case 3 => AreaStatus(n, ARMED);
        case 4 => AreaAlarm(n);
        case 5 => AreaAlarm(n);
        case 6 => AreaAlarm(n);
        case 7 => AreaAlarm(n);
        case _ =>
      }
    }

    /** Event 1 falls through into event 3. */
    method Status2(number: int, n: int)
      requires Valid() && (EventAreaOps(65, number) != [] ==> n in tables.areas)
      modifies this`tables, this`areaReports, Repr
      ensures var out := Apply(Effect(0, [], n, EventAreaOps(65, number)), old(tables));
              && Valid() && tables == out.tables && areaReports == old(areaReports) + out.areaReports
    {
      ghost var t := tables;
      Untouched(t);
      if number == 1 {
        AreaLeaving(n);
        AreaTrouble(n);
        TwoOps(BeginExit, SetTrouble, t.areas[n]);
      } else if number == 3 {
        AreaTrouble(n);
      } else if number == 4 {
        AreaMemory(n);
      }
    }

    method ProcessResponse(f: string)
      requires Valid() && !IsEvent(f) && Safe(ConfigOf(tables), f)
      modifies this`tables, this`areaReports, this`zoneReports, Repr
      ensures Handled(f)
    {
      Untouched(tables);
      if At(f, 0) == 'A' {
        AreaResponse(f);
      } else if At(f, 0) == 'R' {
        RequestResponse(f);
      } else if At(f, 0) == 'Z' {
        if At(f, 1) == 'L' {
          var z := NumberAt(f, 2, 3);
          if z > 0 && z < MAX_ZONES && zones[z - 1] != null {
            ZoneLabel(z, f[5..]);
          }
        }
      }
    }

    method AreaResponse(f: string)
      requires Valid() && At(f, 0) == 'A' && Safe(ConfigOf(tables), f)
      modifies this`tables, this`areaReports, Repr
      ensures Valid()
      ensures var out := Handle(ConfigOf(old(tables)), f, old(tables));
              tables == out.tables && areaReports == old(areaReports) + out.areaReports && out.zoneReports == []
    {
      Untouched(tables);
      if At(f, 1) == 'L' {
        var n := NumberAt(f, 2, 3);
        if n > 0 && n < MAX_AREAS && areas[n - 1] != null {
          AreaLabel(n, f[5..]);
        }
      } else if At(f, 1) == 'D' {
        var n := NumberAt(f, 2, 3);
        if n > 0 && n < MAX_AREAS && areas[n - 1] != null {
          if At(f, 6) == 'o' && At(f, 7) == 'k' {
            AreaStatus(n, DISARMED);
          }
        }
      }
    }

    method RequestResponse(f: string)
      requires Valid() && At(f, 0) == 'R' && Safe(ConfigOf(tables), f)
      modifies this`tables, this`areaReports, this`zoneReports, Repr
      ensures Handled(f)
    {
      Untouched(tables);
      if At(f, 1) == 'A' {
        var n := NumberAt(f, 2, 3);
        if n > 0 && n < MAX_AREAS && areas[n - 1] != null {
          AreaRecorded(n, f);
        }
      } else if At(f, 1) == 'Z' {
        var z := NumberAt(f, 2, 3);
        if z > 0 && z < MAX_ZONES && zones[z - 1] != null {
          ZoneRecorded(z, f);
        }
      }
    }

    /** The branch of the poll loop that takes a frame from the serial thread. */
    method HandleFrame(f: string)
      requires Valid() && Safe(ConfigOf(tables), f)
      modifies this`tables, this`areaReports, this`zoneReports, Repr
      ensures Handled(f)
    {
      if f[0] == 'G' {
        ProcessEvent(f);
      } else {
        ProcessResponse(f);
      }
    }

    /** The poll loop over a run of frames. */
    method HandleFrames(frames: seq<string>)
      requires Valid() && forall f :: f in frames ==> Safe(ConfigOf(tables), f)
      modifies this`tables, this`areaReports, this`zoneReports, Repr
      ensures Valid()
      ensures var out := Run(ConfigOf(old(tables)), frames, old(tables));
              && tables == out.tables
              && areaReports == old(areaReports) + out.areaReports
              && zoneReports == old(zoneReports) + out.zoneReports
    {
      ghost var cfg, start := ConfigOf(tables), tables;
      var i := 0;
      assert frames[..0] == [];
      while i < |frames|
        invariant 0 <= i <= |frames| && Valid() && ConfigOf(tables) == cfg
        invariant tables == Run(cfg, frames[..i], start).tables
        invariant areaReports == old(areaReports) + Run(cfg, frames[..i], start).areaReports
        invariant zoneReports == old(zoneReports) + Run(cfg, frames[..i], start).zoneReports
        decreases |frames| - i
      {
        ghost var t, before := tables, Run(cfg, frames[..i], start);
        assert frames[i] in frames && frames[..i + 1] == frames[..i] + [frames[i]];
        RunSnoc(cfg, frames[..i], frames[i], start);
        HandleProjects(cfg, frames[i], t);
        HandleFrame(frames[i]);
        ghost var out := Handle(cfg, frames[i], t);
        Regroup(old(areaReports), before.areaReports, out.areaReports);
        Regroup(old(zoneReports), before.zoneReports, out.zoneReports);
        i := i + 1;
      }
      assert frames[..|frames|] == frames;
    }

    // ---------------------------------------------------------------- requests

    /** The branch of the poll loop that takes a command from the MQTT thread. */
    method ProcessCommand(cmd: Command)
      requires Valid()
      modifies this`requests
      ensures Valid()
      ensures requests == old(requests) + CommandRequests(tables.areas.Keys, userCode, cmd)
    {
      if cmd.kind == AreaControl {
        if cmd.num > 0 && cmd.num <= MAX_AREAS && areas[cmd.num - 1] != null {
          match cmd.what {
            case ArmAway =>
              if userCode == None {
                requests := requests + [QuickArmRequest(cmd.num, ARMED)];
              } else {
                requests := requests + [ArmRequest(cmd.num, ARMED, userCode.value)];
              }
            case ArmHome =>
              requests := requests + [QuickArmRequest(cmd.num, STAY_ARMED)];
            case Disarm =>
              if userCode != None {
                requests := requests + [DisarmRequest(cmd.num, userCode.value)];
              }
          }
        }
      } else if cmd.num > 0 && cmd.num <= MAX_UTILITY_KEY {
        requests := requests + [UtilityKeyRequest(cmd.num)];
      }
    }

    /** The thread a timeout starts. */
    method AreaStatusThread()
      requires Valid()
      modifies this`requests
      ensures Valid() && requests == old(requests) + StatusFrom(tables.areas.Keys, 1)
    {
      ghost var keys := tables.areas.Keys;
      ghost var total := requests + StatusFrom(keys, 1);
      var i := 0;
      while i < MAX_AREAS
        invariant 0 <= i <= MAX_AREAS
        invariant requests + StatusFrom(keys, i + 1) == total
        decreases MAX_AREAS - i
      {
        ghost var sent, rest := requests, StatusFrom(keys, i + 2);
        if areas[i] != null {
          requests := requests + [StatusRequest(i + 1)];
          Regroup(sent, [StatusRequest(i + 1)], rest);
        } else {
          NothingMore(sent);
          Regroup(sent, [], rest);
        }
        i := i + 1;
      }
      assert requests == total;
    }

    /** The thread started before the poll loop. */
    method InitialRequestThread()
      requires Valid()
      modifies this`requests
      ensures Valid() && requests == old(requests) + StartupRequests(ConfigOf(tables))
    {
      assert ConfigOf(tables).zoneArea.Keys == tables.zones.Keys;
      InitialAreaRequests();
      InitialZoneRequests();
    }

    method InitialAreaRequests()
      requires Valid()
      modifies this`requests
      ensures Valid() && requests == old(requests) + AreasFrom(tables.areas.Keys, 1)
    {
      ghost var keys := tables.areas.Keys;
      ghost var total := requests + AreasFrom(keys, 1);
      var i := 0;
      while i < MAX_AREAS
        invariant 0 <= i <= MAX_AREAS
        invariant requests + AreasFrom(keys, i + 1) == total
        decreases MAX_AREAS - i
      {
        ghost var sent, rest := requests, AreasFrom(keys, i + 2);
        if areas[i] != null {
          requests := requests + [LabelRequest(i + 1)];
          requests := requests + [StatusRequest(i + 1)];
          assert requests == sent + [LabelRequest(i + 1), StatusRequest(i + 1)];
          Regroup(sent, [LabelRequest(i + 1), StatusRequest(i + 1)], rest);
        } else {
          NothingMore(sent);
          Regroup(sent, [], rest);
        }
        i := i + 1;
      }
      assert requests == total;
    }

    method InitialZoneRequests()
      requires Valid()
      modifies this`requests
      ensures Valid() && requests == old(requests) + ZonesFrom(tables.zones.Keys, 1)
    {
      ghost var keys := tables.zones.Keys;
      ghost var total := requests + ZonesFrom(keys, 1);
      var i := 0;
      while i < MAX_ZONES
        invariant 0 <= i <= MAX_ZONES
        invariant requests + ZonesFrom(keys, i + 1) == total
        decreases MAX_ZONES - i
      {
        ghost var sent, rest := requests, ZonesFrom(keys, i + 2);
        if zones[i] != null {
          requests := requests + [ZoneLabelRequest(i + 1)];
          requests := requests + [ZoneStatusRequest(i + 1)];
          assert requests == sent + [ZoneLabelRequest(i + 1), ZoneStatusRequest(i + 1)];
          Regroup(sent, [ZoneLabelRequest(i + 1), ZoneStatusRequest(i + 1)], rest);
        } else {
          NothingMore(sent);
          Regroup(sent, [], rest);
        }
        i := i + 1;
      }
      assert requests == total;
    }
  }

  /** Doing nothing to a record leaves its table as it is. */
  lemma Untouched(t: Tables)
    ensures forall z, n :: Apply(Effect(z, [], n, []), t) == Out(t, [], [])
    ensures forall z, n, ops :: ops != [] && n in t.areas ==>
              Apply(Effect(z, [], n, ops), t)
              == Out(t.(areas := t.areas[n := AreaRun(ops, t.areas[n]).area]), AreaRun(ops, t.areas[n]).reports, [])
    ensures forall z, n, ops :: ops != [] && z in t.zones ==>
              Apply(Effect(z, ops, n, []), t)
              == Out(t.(zones := t.zones[z := ZoneRun(ops, t.zones[z]).zone]), [], ZoneRun(ops, t.zones[z]).reports)
  {
    assert forall n :: n in t.areas ==> t.areas[n := t.areas[n]] == t.areas;
    assert forall z :: z in t.zones ==> t.zones[z := t.zones[z]] == t.zones;
  }

  lemma TwoOps(p: AreaOp, q: AreaOp, a: Area)
    ensures var h := AreaRun([p], a);
            var r := AreaRun([q], h.area);
            AreaRun([p, q], a) == AreaOut(r.area, h.reports + r.reports)
  {
    assert [p, q][1..] == [q];
    assert AreaStep(p, a).reports + [] == AreaStep(p, a).reports;
  }
}
