/** The laws of one zone under any sequence of operations (src/para_mgr.c:830-849, 975-1049). */
module ZoneLaws {
  import opened CText
  import opened Records
  import opened PanelSpec
  import opened Json
  import opened Sequences
  import Changes
  import PanelRecords

  /** The values of the reported fields at the points where the source calls `send_zone_report`. */
  function FieldTrace(ops: seq<ZoneOp>, f: ZoneFields): seq<ZoneFields>
    decreases |ops|
  {
    if ops == [] then []
    else
      var g := ZoneEffect(ops[0], f);
      (if ops[0].LabelZone? then [] else [g]) + FieldTrace(ops[1..], g)
  }

  function FieldsOf(z: Zone): ZoneFields { z.fields }

  function FieldsIn(reports: seq<Zone>): seq<ZoneFields> {
    Mapped(reports, FieldsOf)
  }

  /** As for areas: the reports are the changes of the fields, each sent once. */
  lemma {:induction false} ReportsAreChanges(ops: seq<ZoneOp>, z: Zone)
    requires !z.updated
    ensures var out := ZoneRun(ops, z);
            && !out.zone.updated
            && FieldsIn(out.reports) == Changes.Of(z.fields, FieldTrace(ops, z.fields))
            && out.zone.fields == Changes.Last(z.fields, FieldsIn(out.reports))
    decreases |ops|
  {
    if ops != [] {
      var h := ZoneStep(ops[0], z);
      ReportsAreChanges(ops[1..], h.zone);
      var r := ZoneRun(ops[1..], h.zone);
      MappedAppend(h.reports, r.reports, FieldsOf);
      var trace := FieldTrace(ops[1..], h.zone.fields);
      assert h.zone.fields == ZoneEffect(ops[0], z.fields);
      if !ops[0].LabelZone? {
        assert ([h.zone.fields] + trace)[1..] == trace;
        assert h.reports != [] ==> FieldsIn(h.reports) == [h.zone.fields];
      } else {
        assert [] + trace == trace;
      }
    }
  }

  /** The zone's display matches its fields. */
  predicate Matches(z: Zone) {
    !z.on <==> z.fields.status == ZONE_CLOSED && z.fields.alarm == OK && z.fields.fire == OK
  }

  /** Never touched by more than a label, or matching. */
  predicate Coherent(z: Zone) {
    (z.fields == ZERO_ZONE && !z.on) || Matches(z)
  }

  /** Every report shows `off` exactly for a closed zone with alarm and fire both OK. */
  lemma {:induction false} ReportsMatch(ops: seq<ZoneOp>, z: Zone)
    requires !z.updated && Coherent(z)
    ensures var out := ZoneRun(ops, z);
            && Coherent(out.zone) && !out.zone.updated
            && (out.reports != [] ==> Matches(out.zone))
            && forall r :: r in out.reports ==> Matches(r)
    decreases |ops|
  {
    if ops != [] {
      var h := ZoneStep(ops[0], z);
      ReportsMatch(ops[1..], h.zone);
      if h.reports != [] {
        assert Matches(h.zone);
        MatchingStays(ops[1..], h.zone);
      }
    }
  }

  lemma {:induction false} MatchingStays(ops: seq<ZoneOp>, z: Zone)
    requires Matches(z)
    ensures Matches(ZoneRun(ops, z).zone)
    decreases |ops|
  {
    if ops != [] {
      MatchingStays(ops[1..], ZoneStep(ops[0], z).zone);
    }
  }

  /** A zone and its reports after the operations `ops` from the zeroed record. */
  ghost predicate History(ops: seq<ZoneOp>, z: Zone, reports: seq<Zone>) {
    && !z.updated
    && FieldsIn(reports) == Changes.Of(ZERO_ZONE, FieldTrace(ops, ZERO_ZONE))
    && z.fields == Changes.Last(ZERO_ZONE, FieldsIn(reports))
    && (forall i :: 0 <= i < |reports| ==>
          && Matches(reports[i])
          && reports[i].fields != if i == 0 then ZERO_ZONE else reports[i - 1].fields)
    && (reports != [] ==> Matches(z))
  }

  lemma HistoryFromStart(ops: seq<ZoneOp>, z: int, area: int)
    ensures History(ops, ZoneRun(ops, NewZone(z, area)).zone, ZoneRun(ops, NewZone(z, area)).reports)
  {
    ReportsAreChanges(ops, NewZone(z, area));
    ReportsMatch(ops, NewZone(z, area));
    var mine := ZoneRun(ops, NewZone(z, area)).reports;
    MappedAt(mine, FieldsOf);
    Changes.Shape(ZERO_ZONE, FieldTrace(ops, ZERO_ZONE));
    var sent := FieldsIn(mine);
    forall i | 0 <= i < |mine|
      ensures mine[i].fields != if i == 0 then ZERO_ZONE else mine[i - 1].fields
    {
      assert sent == Changes.Of(ZERO_ZONE, FieldTrace(ops, ZERO_ZONE));
      assert sent[i] != if i == 0 then ZERO_ZONE else sent[i - 1];
      assert sent[i] == mine[i].fields && (i > 0 ==> sent[i - 1] == mine[i - 1].fields);
    }
  }

  // -------------------------------------------------------- what is never set

  lemma {:induction false} LabelsFit(ops: seq<ZoneOp>, z: Zone)
    requires LabelFits(z.name)
    ensures var out := ZoneRun(ops, z);
            && LabelFits(out.zone.name) && out.zone.bypassed == z.bypassed
            && forall r :: r in out.reports ==> LabelFits(r.name) && r.bypassed == z.bypassed
    decreases |ops|
  {
    if ops != [] {
      if ops[0].LabelZone? {
        PanelRecords.LabelNormalised(ops[0].text);
      }
      LabelsFit(ops[1..], ZoneStep(ops[0], z).zone);
    }
  }

  lemma Recorded(f: ZoneFields, z: Zone)
    ensures ZoneRun([RecordZone(f)], z).zone.fields == f
  {
    assert [RecordZone(f)][1..] == [];
  }

  /** An operation other than a zone response; what it sets, it sets to a letter. */
  predicate Letters(op: ZoneOp) {
    match op
    case SetZoneStatus(c) => c != NUL
    case SetZoneAlarm(c) => c != NUL
    case SetZoneFire(c) => c != NUL
    case RecordZone(_) => false
    case LabelZone(_) => true
  }

  /** Only a zone response ever sets `supervision` or the battery. */
  lemma {:induction false} EventsKeep(ops: seq<ZoneOp>, z: Zone)
    requires forall op :: op in ops ==> !op.RecordZone?
    ensures var f := ZoneRun(ops, z).zone.fields;
            f.supervision == z.fields.supervision && f.battery == z.fields.battery
    decreases |ops|
  {
    if ops != [] {
      assert ops[0] in ops;
      EventsKeep(ops[1..], ZoneStep(ops[0], z).zone);
    }
  }

  /** What is set stays set. */
  lemma {:induction false} LettersFill(ops: seq<ZoneOp>, z: Zone)
    requires forall op :: op in ops ==> Letters(op)
    ensures ZoneFilled(z.fields) ==> ZoneFilled(ZoneRun(ops, z).zone.fields)
    decreases |ops|
  {
    if ops != [] {
      assert Letters(ops[0]);
      LettersFill(ops[1..], ZoneStep(ops[0], z).zone);
    }
  }
}
