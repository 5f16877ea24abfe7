/**
 What each line of the panel makes of the records (src/para_mgr.c:425-730), said of the
 tables before and after it, byte by byte and field by field.  These laws stand beside
 `PanelSpec`, whose operations they do not mention.
 */
module FrameLaws {
  import opened CText
  import opened Records
  import opened PanelSpec
  import opened Runs
  import PanelRecords
  import P = PanelLaws
  import Wire

  function Handled(f: string, t: Tables): Tables {
    Handle(ConfigOf(t), f, t).tables
  }

  /** Nothing but the named parts of an area's record can differ. */
  predicate SameAreaBut(a: Area, b: Area, f: AreaFields) {
    b.num == a.num && b.name == a.name && b.fields == f
  }

  predicate SameZoneBut(z: Zone, y: Zone, f: ZoneFields) {
    y.num == z.num && y.area == z.area && y.name == z.name && y.bypassed == z.bypassed && y.fields == f
  }

  lemma {:induction false} AreaKept(ops: seq<AreaOp>, a: Area)
    requires forall op :: op in ops ==> !op.Label?
    ensures AreaRun(ops, a).area.num == a.num && AreaRun(ops, a).area.name == a.name
    decreases |ops|
  {
    if ops != [] {
      assert !ops[0].Label?;
      AreaKept(ops[1..], AreaStep(ops[0], a).area);
    }
  }

  /** The fields after at most two operations. */
  function AreaEffects(ops: seq<AreaOp>, f: AreaFields): AreaFields
    requires |ops| <= 2
  {
    if ops == [] then f
    else if |ops| == 1 then AreaEffect(ops[0], f)
    else AreaEffect(ops[1], AreaEffect(ops[0], f))
  }

  lemma FewOps(ops: seq<AreaOp>, a: Area)
    requires |ops| <= 2
    ensures AreaRun(ops, a).area.fields == AreaEffects(ops, a.fields)
  {
    if ops != [] {
      var b := AreaStep(ops[0], a).area;
      assert b.fields == AreaEffect(ops[0], a.fields);
      if |ops| == 2 {
        assert ops[1..] == [ops[1]] && ops[1..][1..] == [];
        assert AreaStep(ops[1], b).area.fields == AreaEffect(ops[1], b.fields);
      } else {
        assert ops[1..] == [];
      }
    }
  }

  lemma AreaAfter(f: string, t: Tables, n: int)
    requires WellFormed(t) && n in t.areas
    ensures n in Handled(f, t).areas
    ensures var ops := AreaOpsIn(Decode(ConfigOf(t), f), n);
            && (ops == [] ==> Handled(f, t).areas[n] == t.areas[n])
            && (|ops| <= 2 && (forall op :: op in ops ==> !op.Label?) ==>
                  SameAreaBut(t.areas[n], Handled(f, t).areas[n], AreaEffects(ops, t.areas[n].fields)))
  {
    var ops := AreaOpsIn(Decode(ConfigOf(t), f), n);
    P.HandledArea(ConfigOf(t), f, t, n);
    if |ops| <= 2 {
      FewOps(ops, t.areas[n]);
      if forall op :: op in ops ==> !op.Label? {
        AreaKept(ops, t.areas[n]);
      }
    }
  }

  lemma ZoneAfter(f: string, t: Tables, z: int)
    requires WellFormed(t) && z in t.zones
    ensures z in Handled(f, t).zones
    ensures var ops := ZoneOpsIn(Decode(ConfigOf(t), f), z);
            && (ops == [] ==> Handled(f, t).zones[z] == t.zones[z])
            && (|ops| == 1 && !ops[0].LabelZone? ==>
                  SameZoneBut(t.zones[z], Handled(f, t).zones[z], ZoneEffect(ops[0], t.zones[z].fields)))
            && (|ops| == 1 && ops[0].LabelZone? ==>
                  Handled(f, t).zones[z] == t.zones[z].(name := LabelText(ops[0].text)))
  {
    var ops := ZoneOpsIn(Decode(ConfigOf(t), f), z);
    P.HandledZone(ConfigOf(t), f, t, z);
    if |ops| == 1 {
      assert ops == [ops[0]] && [ops[0]][1..] == [];
    }
  }

  // ------------------------------------------------------------------ events

  /** An event about area `n`; those of the zone groups need a zone number. */
  predicate About(f: string, n: int) {
    At(f, 0) == 'G' && EventArea(f) == n && (EventGroup(f) in {24, 25} ==> EventNumber(f) >= 1)
  }

  lemma EventAreaOpsFew(f: string, t: Tables, n: int)
    requires At(f, 0) == 'G'
    ensures var ops := AreaOpsIn(Decode(ConfigOf(t), f), n);
            |ops| <= 2 && (forall op :: op in ops ==> !op.Label?) && (!About(f, n) ==> ops == [])
  {
  }

  /**
   What an event makes of an area, field by field: it disarms in groups 13 to 22, arms from
   disarmed or exit delay in groups 9 to 12, and so on; an event about another area, and
   every event not named here, leaves the record as it is.
   */
  lemma EventOnArea(f: string, t: Tables, n: int)
    requires WellFormed(t) && n in t.areas && At(f, 0) == 'G'
    ensures n in Handled(f, t).areas
    ensures !About(f, n) ==> Handled(f, t).areas[n] == t.areas[n]
    ensures var a, b := t.areas[n], Handled(f, t).areas[n];
            && b.num == a.num && b.name == a.name
            && b.fields.ready == a.fields.ready && b.fields.programming == a.fields.programming
            && b.fields.strobe == a.fields.strobe
    ensures var g, e, x, y := EventGroup(f), EventNumber(f), t.areas[n].fields, Handled(f, t).areas[n].fields;
            About(f, n) ==>
              && y.alarm == (if g in {24, 25} || (g == 64 && 4 <= e <= 7) then 'A' else x.alarm)
              && y.trouble == (if g == 65 && e in {1, 3} then 'T' else x.trouble)
              && y.memory == (if g == 65 && e == 4 then 'M' else x.memory)
    ensures var s, s' := t.areas[n].fields.status, Handled(f, t).areas[n].fields.status;
            var g, e := EventGroup(f), EventNumber(f);
            About(f, n) ==>
              && (13 <= g <= 22 ==> s' == 'D')
              && (9 <= g <= 12 && s in {'D', 'E'} ==> s' == if g == 12 && e == 4 then 'S' else 'A')
              && (g == 64 && e in {0, 1, 3} ==> s' == 'A')
              && (g == 64 && e == 2 ==> s' == 'S')
              && (g == 65 && e == 1 && s == 'D' ==> s' == 'E')
              && (!(9 <= g <= 22) && !(g == 64 && 0 <= e <= 3) && !(g == 65 && e == 1) ==> s' == s)
              && (9 <= g <= 12 && s !in {'D', 'E'} ==> s' == s)
              && (g == 65 && e == 1 && s != 'D' ==> s' == s)
  {
    EventAreaOpsFew(f, t, n);
    AreaAfter(f, t, n);
  }

  lemma EventZoneOpsFew(f: string, t: Tables, z: int)
    requires At(f, 0) == 'G'
    ensures var ops := ZoneOpsIn(Decode(ConfigOf(t), f), z);
            |ops| <= 1 && (|ops| == 1 ==> !ops[0].LabelZone?)
  {
  }

  /** An event that names zone `z`; it must name some area the panel has. */
  predicate AboutZone(f: string, z: int) {
    At(f, 0) == 'G' && EventNumber(f) == z && 1 <= EventArea(f) <= 8
  }

  /** What an event makes of a zone: groups 0 to 3 set its status, 24 to 27 its alarm or fire. */
  lemma EventOnZone(f: string, t: Tables, z: int)
    requires WellFormed(t) && z in t.zones && At(f, 0) == 'G'
    ensures z in Handled(f, t).zones
    ensures !(AboutZone(f, z) && EventGroup(f) in {0, 1, 2, 3, 24, 25, 26, 27}) ==> Handled(f, t).zones[z] == t.zones[z]
    ensures var z', y := t.zones[z], Handled(f, t).zones[z];
            && y.num == z'.num && y.area == z'.area && y.name == z'.name && y.bypassed == z'.bypassed
            && y.fields.supervision == z'.fields.supervision && y.fields.battery == z'.fields.battery
    ensures var g, x, y := EventGroup(f), t.zones[z].fields, Handled(f, t).zones[z].fields;
            AboutZone(f, z) ==>
              && y.status == (if g == 0 then 'C' else if g == 1 then 'O' else if g == 2 then 'T'
                              else if g == 3 then 'F' else x.status)
              && y.alarm == (if g == 24 then 'A' else if g == 26 then 'O' else x.alarm)
              && y.fire == (if g == 25 then 'F' else if g == 27 then 'O' else x.fire)
  {
    EventZoneOpsFew(f, t, z);
    ZoneAfter(f, t, z);
  }

  // --------------------------------------------------------------- responses

  /** A response of this kind about the number in its three-digit field. */
  predicate Response(f: string, first: char, second: char, n: int) {
    At(f, 0) == first && At(f, 1) == second && NumberAt(f, 2, 3) == n
  }

  /** A disarm acknowledgement disarms its area, and changes nothing else, if it says `ok` and the area is below 8. */
  lemma DisarmAnswered(f: string, t: Tables, n: int)
    requires WellFormed(t) && n in t.areas && At(f, 0) == 'A' && At(f, 1) == 'D'
    ensures n in Handled(f, t).areas
    ensures if Response(f, 'A', 'D', n) && n <= 7 && At(f, 6) == 'o' && At(f, 7) == 'k'
            then SameAreaBut(t.areas[n], Handled(f, t).areas[n], t.areas[n].fields.(status := 'D'))
            else Handled(f, t).areas[n] == t.areas[n]
  {
    AreaAfter(f, t, n);
  }

  /** A status response puts its bytes 5 to 11 into the fields of its area, below 8. */
  lemma StatusTaken(f: string, t: Tables, n: int)
    requires WellFormed(t) && n in t.areas && At(f, 0) == 'R' && At(f, 1) == 'A'
    ensures n in Handled(f, t).areas
    ensures if Response(f, 'R', 'A', n) && n <= 7
            then SameAreaBut(t.areas[n], Handled(f, t).areas[n],
                             AreaFields(At(f, 5), At(f, 6), At(f, 7), At(f, 8), At(f, 9), At(f, 10), At(f, 11)))
            else Handled(f, t).areas[n] == t.areas[n]
  {
    AreaAfter(f, t, n);
  }

  /** A zone response puts its bytes 5 to 9 into the fields of its zone, below 96. */
  lemma ZoneStatusTaken(f: string, t: Tables, z: int)
    requires WellFormed(t) && z in t.zones && At(f, 0) == 'R' && At(f, 1) == 'Z'
    ensures z in Handled(f, t).zones
    ensures if Response(f, 'R', 'Z', z) && z <= 95
            then SameZoneBut(t.zones[z], Handled(f, t).zones[z],
                             ZoneFields(At(f, 5), At(f, 6), At(f, 7), At(f, 8), At(f, 9)))
            else Handled(f, t).zones[z] == t.zones[z]
  {
    assert ConfigOf(t).zoneArea.Keys == t.zones.Keys;
    ZoneAfter(f, t, z);
  }

  /** The label kept of a text: its first 17 bytes without the spaces at their end. */
  predicate LabelOf(text: string, name: string) {
    && name <= text && |name| <= 17
    && (name != "" ==> name[|name| - 1] != ' ')
    && forall k :: |name| <= k < |text| && k < 17 ==> text[k] == ' '
  }

  lemma LabelIsOf(text: string)
    requires NUL !in text
    ensures LabelOf(text, LabelText(text))
  {
    CStrWhole(text);
    PanelRecords.LabelNormalised(text);
  }

  /** A text has one label. */
  lemma OneLabel(text: string, x: string, y: string)
    requires LabelOf(text, x) && LabelOf(text, y)
    ensures x == y
  {
    assert x == text[..|x|] && y == text[..|y|];
  }

  /** A label response names its area, below 8, after the text from its byte 5 on, and changes nothing else. */
  lemma AreaNamed(f: string, t: Tables, n: int)
    requires WellFormed(t) && n in t.areas && At(f, 0) == 'A' && At(f, 1) == 'L' && |f| >= 5 && NUL !in f
    ensures n in Handled(f, t).areas
    ensures if Response(f, 'A', 'L', n) && n <= 7
            then var b := Handled(f, t).areas[n]; b == t.areas[n].(name := b.name) && LabelOf(f[5..], b.name)
            else Handled(f, t).areas[n] == t.areas[n]
  {
    var ops := AreaOpsIn(Decode(ConfigOf(t), f), n);
    AreaAfter(f, t, n);
    LabelIsOf(f[5..]);
    if ops != [] {
      P.HandledArea(ConfigOf(t), f, t, n);
      assert ops == [Label(f[5..])] && [Label(f[5..])][1..] == [];
    }
  }

  lemma ZoneNamed(f: string, t: Tables, z: int)
    requires WellFormed(t) && z in t.zones && At(f, 0) == 'Z' && At(f, 1) == 'L' && |f| >= 5 && NUL !in f
    ensures z in Handled(f, t).zones
    ensures if Response(f, 'Z', 'L', z) && z <= 95
            then var y := Handled(f, t).zones[z]; y == t.zones[z].(name := y.name) && LabelOf(f[5..], y.name)
            else Handled(f, t).zones[z] == t.zones[z]
  {
    assert ConfigOf(t).zoneArea.Keys == t.zones.Keys;
    ZoneAfter(f, t, z);
    LabelIsOf(f[5..]);
  }

  /** Printed, for any label text: the text stands at byte 5 after its three-digit number. */
  lemma LabelPrinted(kind: string, n: nat, text: string)
    requires |kind| == 2 && n < 1000 && NUL !in kind && NUL !in text
    ensures var f := kind + Padded(3, n) + text;
            Response(f, kind[0], kind[1], n) && |f| >= 5 && f[5..] == text && NUL !in f
  {
    Wire.ThreeDigits(kind, n, text);
    PaddedShape(3, n);
    assert forall c :: c in Padded(3, n) ==> IsDigit(c);
  }

  /** A zone response concerns one area, the zone's own, of which it can only turn an alarm field that says OK. */
  lemma ZoneStatusOnArea(f: string, t: Tables, n: int)
    requires WellFormed(t) && n in t.areas && !t.areas[n].updated && At(f, 0) == 'R' && At(f, 1) == 'Z'
    ensures n in Handled(f, t).areas
    ensures var z := NumberAt(f, 2, 3);
            if 1 <= z <= 95 && z in t.zones && t.zones[z].area == n && At(f, 6) == 'A' && t.areas[n].fields.alarm == 'O'
            then SameAreaBut(t.areas[n], Handled(f, t).areas[n], t.areas[n].fields.(alarm := 'A'))
                 && Handled(f, t).areas[n].state == t.areas[n].state
            else Handled(f, t).areas[n] == t.areas[n]
  {
    assert ConfigOf(t).zoneArea.Keys == t.zones.Keys;
    var ops := AreaOpsIn(Decode(ConfigOf(t), f), n);
    AreaAfter(f, t, n);
    if ops != [] {
      P.HandledArea(ConfigOf(t), f, t, n);
      assert ops == [ops[0]] && [ops[0]][1..] == [];
    }
  }

  /** The kinds of line that concern areas, and those that concern zones. */
  predicate OfAreas(f: string) {
    At(f, 0) == 'G' || (At(f, 0) == 'A' && At(f, 1) in {'L', 'D'}) || (At(f, 0) == 'R' && At(f, 1) in {'A', 'Z'})
  }

  predicate OfZones(f: string) {
    At(f, 0) == 'G' || (At(f, 0) == 'Z' && At(f, 1) == 'L') || (At(f, 0) == 'R' && At(f, 1) == 'Z')
  }

  /** Lines of no such kind change no record and report nothing. */
  lemma OtherLines(f: string, t: Tables)
    requires WellFormed(t)
    ensures var out := Handle(ConfigOf(t), f, t);
            && (!OfAreas(f) ==> out.tables.areas == t.areas && out.areaReports == [])
            && (!OfZones(f) ==> out.tables.zones == t.zones && out.zoneReports == [])
  {
    var e := Decode(ConfigOf(t), f);
    assert !OfAreas(f) ==> e.areaOps == [];
    assert !OfZones(f) ==> e.zoneOps == [];
    assert e.area in t.areas ==> t.areas[e.area := t.areas[e.area]] == t.areas;
    assert e.zone in t.zones ==> t.zones[e.zone := t.zones[e.zone]] == t.zones;
  }
}
