/**
 The laws of one area under any sequence of operations (src/para_mgr.c:806-828, 874-973,
 1051-1060).  `Runs.AreaProjects` makes each of them a law of that area in every run.
 */
module AreaLaws {
  import opened CText
  import opened Records
  import opened PanelSpec
  import opened Runs
  import opened Json
  import opened Sequences
  import Changes
  import PanelRecords

  // ---------------------------------------------------------------- reporting

  /** The values of the reported fields at the points where the source calls `send_area_report`. */
  function FieldTrace(ops: seq<AreaOp>, f: AreaFields): seq<AreaFields>
    decreases |ops|
  {
    if ops == [] then []
    else
      var g := AreaEffect(ops[0], f);
      (if Sends(ops[0], f) then [g] else []) + FieldTrace(ops[1..], g)
  }

  function FieldsOf(a: Area): AreaFields { a.fields }

  function FieldsIn(reports: seq<Area>): seq<AreaFields> {
    Mapped(reports, FieldsOf)
  }

  /** What one operation does to a record whose flag is clear. */
  lemma StepShape(op: AreaOp, a: Area)
    requires !a.updated
    ensures var out, f := AreaStep(op, a), AreaEffect(op, a.fields);
            && out.area.fields == f && !out.area.updated
            && out.area.state == (if Refreshes(op, a.fields) then DeriveState(f, a.state) else a.state)
            && (out.reports == [] <==> f == a.fields)
            && (out.reports != [] ==>
                  && |out.reports| == 1 && Sends(op, a.fields)
                  && out.reports[0].state == out.area.state && out.reports[0].fields == f)
  {
  }

  /**
   The `updated` flag does its work: the reports are the changes of the fields, each sent
   once, and the flag is clear again after every operation.
   */
  lemma {:induction false} ReportsAreChanges(ops: seq<AreaOp>, a: Area)
    requires !a.updated
    ensures var out := AreaRun(ops, a);
            && !out.area.updated
            && FieldsIn(out.reports) == Changes.Of(a.fields, FieldTrace(ops, a.fields))
            && out.area.fields == Changes.Last(a.fields, FieldsIn(out.reports))
    decreases |ops|
  {
    if ops != [] {
      var h := AreaStep(ops[0], a);
      StepShape(ops[0], a);
      ReportsAreChanges(ops[1..], h.area);
      MappedAppend(h.reports, AreaRun(ops[1..], h.area).reports, FieldsOf);
      MappedAt(h.reports, FieldsOf);
      var trace := FieldTrace(ops[1..], h.area.fields);
      ChangesStep(a.fields, h.area.fields, Sends(ops[0], a.fields), trace);
      assert FieldsIn(h.reports) == if h.area.fields == a.fields then [] else [h.area.fields];
    }
  }

  lemma ChangesStep(f: AreaFields, g: AreaFields, sends: bool, trace: seq<AreaFields>)
    requires f != g ==> sends
    ensures Changes.Of(f, (if sends then [g] else []) + trace) == (if g == f then [] else [g]) + Changes.Of(g, trace)
  {
    assert ([g] + trace)[1..] == trace && [] + trace == trace;
  }

  /** A record says it is the first report exactly when no report went before it. */
  lemma {:induction false} FirstReportOnce(ops: seq<AreaOp>, a: Area)
    ensures var out := AreaRun(ops, a);
            && (forall i :: 0 <= i < |out.reports| ==> out.reports[i].firstReport == (i == 0 && a.firstReport))
            && out.area.firstReport == (a.firstReport && out.reports == [])
    decreases |ops|
  {
    if ops != [] {
      FirstReportOnce(ops[1..], AreaStep(ops[0], a).area);
    }
  }

  /**
   An area and its reports after the operations `ops` from the zeroed record: the reports
   are the changes of its fields, in order, each sent once and none equal to the one
   before it; the last one is current; only the first says it is the first.
   */
  ghost predicate History(ops: seq<AreaOp>, a: Area, reports: seq<Area>) {
    && !a.updated
    && FieldsIn(reports) == Changes.Of(ZERO_AREA, FieldTrace(ops, ZERO_AREA))
    && a.fields == Changes.Last(ZERO_AREA, FieldsIn(reports))
    && (forall i :: 0 <= i < |reports| ==>
          && reports[i].firstReport == (i == 0)
          && reports[i].fields != if i == 0 then ZERO_AREA else reports[i - 1].fields)
  }

  lemma HistoryFromStart(ops: seq<AreaOp>, n: int)
    ensures History(ops, AreaRun(ops, NewArea(n)).area, AreaRun(ops, NewArea(n)).reports)
  {
    ReportsAreChanges(ops, NewArea(n));
    FirstReportOnce(ops, NewArea(n));
    var mine := AreaRun(ops, NewArea(n)).reports;
    MappedAt(mine, FieldsOf);
    Changes.Shape(ZERO_AREA, FieldTrace(ops, ZERO_AREA));
    var sent := FieldsIn(mine);
    forall i | 0 <= i < |mine|
      ensures mine[i].fields != if i == 0 then ZERO_AREA else mine[i - 1].fields
    {
      assert sent == Changes.Of(ZERO_AREA, FieldTrace(ops, ZERO_AREA));
      assert sent[i] != if i == 0 then ZERO_AREA else sent[i - 1];
      assert sent[i] == mine[i].fields && (i > 0 ==> sent[i - 1] == mine[i - 1].fields);
    }
  }

  lemma OneStep(op: AreaOp, a: Area)
    ensures AreaRun([op], a) == AreaStep(op, a)
  {
    assert [op][1..] == [];
    assert AreaStep(op, a).reports + [] == AreaStep(op, a).reports;
  }

  // ---------------------------------------------------------------- coherence

  predicate Known(status: char) {
    status in {DISARMED, STAY_ARMED, ARMED, FORCE_ARMED, INSTANT_ARMED, EXIT_DELAY}
  }

  function StateOf(status: char): PanelState
    requires Known(status)
  {
    if status == DISARMED then Disarmed
    else if status == STAY_ARMED then ArmedHome
    else if status == EXIT_DELAY then Arming
    else ArmedAway
  }

  /** An area in alarm is triggered; one that is not shows its status. */
  predicate Coherent(a: Area) {
    if a.fields.alarm == IN_ALARM then a.state == Triggered
    else Known(a.fields.status) ==> a.state == StateOf(a.fields.status)
  }

  /** An alarm seen only in a zone's response. */
  predicate Departs(op: AreaOp, a: Area) {
    op.RaiseFromZone? && a.fields.alarm == OK && a.state != Triggered
  }

  /** Exactly one thing makes a coherent area incoherent, and any fresh derivation mends it. */
  lemma CoherenceStep(op: AreaOp, a: Area)
    ensures Coherent(a) ==> (Coherent(AreaStep(op, a).area) <==> !Departs(op, a))
    ensures Refreshes(op, a.fields) ==> Coherent(AreaStep(op, a).area)
    ensures Departs(op, a) ==> !Coherent(AreaStep(op, a).area)
  {
  }

  lemma {:induction false} LastStep(ops: seq<AreaOp>, a: Area)
    requires ops != []
    ensures var k := |ops| - 1;
            var h := AreaRun(ops[..k], a);
            var s := AreaStep(ops[k], h.area);
            AreaRun(ops, a) == AreaOut(s.area, h.reports + s.reports)
  {
    var k := |ops| - 1;
    assert ops == ops[..k] + [ops[k]];
    AreaRunAppend(ops[..k], [ops[k]], a);
    var h := AreaRun(ops[..k], a);
    assert [ops[k]][1..] == [];
    assert AreaStep(ops[k], h.area).reports + [] == AreaStep(ops[k], h.area).reports;
  }

  function Before(ops: seq<AreaOp>, k: nat, a: Area): Area
    requires k <= |ops|
  {
    AreaRun(ops[..k], a).area
  }

  /** Operation `k` departs and nothing after it derives the state anew. */
  ghost predicate DepartsForGood(ops: seq<AreaOp>, k: nat, a: Area)
    requires k < |ops|
  {
    && Departs(ops[k], Before(ops, k, a))
    && forall j :: k < j < |ops| ==> !Refreshes(ops[j], Before(ops, j, a).fields)
  }

  lemma DepartsForGoodPrefix(ops: seq<AreaOp>, k: nat, a: Area)
    requires k < |ops| - 1
    ensures var pre, m := ops[..|ops| - 1], |ops| - 1;
            DepartsForGood(ops, k, a) <==> DepartsForGood(pre, k, a) && !Refreshes(ops[m], Before(ops, m, a).fields)
  {
    var pre, m := ops[..|ops| - 1], |ops| - 1;
    forall j | 0 <= j < m ensures pre[j] == ops[j] && Before(pre, j, a) == Before(ops, j, a) {
      assert pre[..j] == ops[..j];
    }
  }

  lemma StillIncoherent(op: AreaOp, a: Area)
    requires a.fields.alarm == IN_ALARM && !Coherent(a)
    ensures !Refreshes(op, a.fields) ==>
              !Coherent(AreaStep(op, a).area) && AreaStep(op, a).area.fields.alarm == IN_ALARM
  {
  }

  /** One more operation leaves the area incoherent exactly when it departs, or it was so and is not mended. */
  lemma IncoherenceStep(ops: seq<AreaOp>, a: Area)
    requires ops != []
    ensures var m := |ops| - 1;
            var b, out := AreaRun(ops[..m], a).area, AreaRun(ops, a).area;
            && (Coherent(b) ==> (!Coherent(out) <==> Departs(ops[m], b)))
            && (!Coherent(b) && b.fields.alarm == IN_ALARM ==>
                  (!Coherent(out) <==> !Refreshes(ops[m], b.fields)))
            && (Departs(ops[m], b) || (!Coherent(out) && b.fields.alarm == IN_ALARM) ==> out.fields.alarm == IN_ALARM)
  {
    var m := |ops| - 1;
    var b := AreaRun(ops[..m], a).area;
    LastStep(ops, a);
    CoherenceStep(ops[m], b);
    if b.fields.alarm == IN_ALARM && !Coherent(b) {
      StillIncoherent(ops[m], b);
    }
    DepartingAlarm(ops[m], b);
  }

  lemma DepartingAlarm(op: AreaOp, a: Area)
    ensures Departs(op, a) || (!Coherent(AreaStep(op, a).area) && a.fields.alarm == IN_ALARM) ==>
              AreaStep(op, a).area.fields.alarm == IN_ALARM
  {
    CoherenceStep(op, a);
  }

  /** An incoherent end has a cause. */
  lemma {:induction false} IncoherenceHasCause(ops: seq<AreaOp>, a: Area)
    requires Coherent(a) && !Coherent(AreaRun(ops, a).area)
    ensures AreaRun(ops, a).area.fields.alarm == IN_ALARM
    ensures exists k :: 0 <= k < |ops| && DepartsForGood(ops, k, a)
    decreases |ops|
  {
    var m := |ops| - 1;
    var pre, b := ops[..m], AreaRun(ops[..m], a).area;
    IncoherenceStep(ops, a);
    if Coherent(b) {
      assert DepartsForGood(ops, m, a);
    } else {
      IncoherenceHasCause(pre, a);
      var k :| 0 <= k < m && DepartsForGood(pre, k, a);
      DepartsForGoodPrefix(ops, k, a);
    }
  }

  /** The cause has its effect. */
  lemma {:induction false} DepartureStays(ops: seq<AreaOp>, k: nat, a: Area)
    requires Coherent(a) && k < |ops| && DepartsForGood(ops, k, a)
    ensures !Coherent(AreaRun(ops, a).area)
    decreases |ops|
  {
    var m := |ops| - 1;
    var pre, b := ops[..m], AreaRun(ops[..m], a).area;
    IncoherenceStep(ops, a);
    if k < m {
      DepartsForGoodPrefix(ops, k, a);
      DepartureStays(pre, k, a);
      IncoherenceHasCause(pre, a);
    } else {
      LastStep(ops, a);
      CoherenceStep(ops[m], b);
    }
  }

  /** A run leaves an area incoherent exactly when such an alarm came with no derivation after it. */
  lemma {:induction false} CoherenceOverRuns(ops: seq<AreaOp>, a: Area)
    requires Coherent(a)
    ensures !Coherent(AreaRun(ops, a).area) <==> exists k :: 0 <= k < |ops| && DepartsForGood(ops, k, a)
    ensures !Coherent(AreaRun(ops, a).area) ==> AreaRun(ops, a).area.fields.alarm == IN_ALARM
  {
    if !Coherent(AreaRun(ops, a).area) {
      IncoherenceHasCause(ops, a);
    } else if k :| 0 <= k < |ops| && DepartsForGood(ops, k, a) {
      DepartureStays(ops, k, a);
    }
  }

  // -------------------------------------------------------- what is never set

  lemma {:induction false} LabelsFit(ops: seq<AreaOp>, a: Area)
    requires LabelFits(a.name)
    ensures var out := AreaRun(ops, a);
            LabelFits(out.area.name) && forall r :: r in out.reports ==> LabelFits(r.name)
    decreases |ops|
  {
    if ops != [] {
      if ops[0].Label? {
        PanelRecords.LabelNormalised(ops[0].text);
      }
      LabelsFit(ops[1..], AreaStep(ops[0], a).area);
    }
  }

  /** An operation other than a status response; what it sets, it sets to a letter. */
  predicate Letters(op: AreaOp) {
    !op.Record? && (op.Arm? || op.SetStatus? ==> op.to != NUL)
  }

  lemma Recorded(f: AreaFields, a: Area)
    ensures AreaRun([Record(f)], a).area.fields == f
  {
    assert [Record(f)][1..] == [];
  }

  /** Only a status response ever sets `ready` or the strobe. */
  lemma {:induction false} EventsKeep(ops: seq<AreaOp>, a: Area)
    requires forall op :: op in ops ==> !op.Record?
    ensures var f := AreaRun(ops, a).area.fields;
            f.ready == a.fields.ready && f.strobe == a.fields.strobe
    decreases |ops|
  {
    if ops != [] {
      assert ops[0] in ops;
      EventsKeep(ops[1..], AreaStep(ops[0], a).area);
    }
  }

  /** Only a status response ever sets the alarm to OK. */
  lemma {:induction false} AlarmNeverOk(ops: seq<AreaOp>, a: Area)
    requires a.fields.alarm != OK && forall op :: op in ops ==> !op.Record?
    ensures AreaRun(ops, a).area.fields.alarm != OK
    decreases |ops|
  {
    if ops != [] {
      assert ops[0] in ops;
      AlarmNeverOk(ops[1..], AreaStep(ops[0], a).area);
    }
  }

  lemma RaiseIgnored(a: Area)
    requires !a.updated && a.fields.alarm != OK
    ensures AreaRun([RaiseFromZone], a).area == a
  {
    OneStep(RaiseFromZone, a);
  }

  /** What is set stays set. */
  lemma {:induction false} LettersFill(ops: seq<AreaOp>, a: Area)
    requires forall op :: op in ops ==> Letters(op)
    ensures AreaFilled(a.fields) ==> AreaFilled(AreaRun(ops, a).area.fields)
    decreases |ops|
  {
    if ops != [] {
      assert Letters(ops[0]);
      LettersFill(ops[1..], AreaStep(ops[0], a).area);
    }
  }

  // -------------------------------------------------------------- alarm latch

  /** Nothing but an RA response takes an area out of alarm. */
  lemma {:induction false} AlarmLatched(ops: seq<AreaOp>, a: Area)
    requires a.fields.alarm == IN_ALARM && a.state == Triggered
    requires forall op :: op in ops ==> !op.Record?
    ensures var out := AreaRun(ops, a);
            && out.area.fields.alarm == IN_ALARM && out.area.state == Triggered
            && forall r :: r in out.reports ==> r.fields.alarm == IN_ALARM && r.state == Triggered
    decreases |ops|
  {
    if ops != [] {
      AlarmLatched(ops[1..], AreaStep(ops[0], a).area);
    }
  }

  // ------------------------------------------------------ the state last shown

  /** The state in the last report, `shown` being on display before the first. */
  function Shown(shown: PanelState, reports: seq<Area>): PanelState {
    if reports == [] then shown else reports[|reports| - 1].state
  }

  /** The state is put right and, as no field changes with it, nobody is told. */
  predicate SilentRepair(op: AreaOp, a: Area) {
    Refreshes(op, a.fields) && !Coherent(a) && AreaEffect(op, a.fields) == a.fields
  }

  lemma CoherentIsDerived(a: Area)
    ensures Coherent(a) <==> DeriveState(a.fields, a.state) == a.state
    ensures DeriveState(a.fields, DeriveState(a.fields, a.state)) == DeriveState(a.fields, a.state)
  {
  }

  lemma {:induction false} ShownStep(op: AreaOp, a: Area, shown: PanelState)
    requires !a.updated
    ensures var out := AreaStep(op, a);
            && (shown == a.state ==> (Shown(shown, out.reports) == out.area.state <==> !SilentRepair(op, a)))
            && (out.reports != [] ==> Shown(shown, out.reports) == out.area.state)
            && (out.reports == [] && Coherent(a) ==> out.area.state == a.state && Coherent(out.area))
            && (SilentRepair(op, a) ==> out.reports == [] && Coherent(out.area))
  {
    StepShape(op, a);
    CoherentIsDerived(a);
    CoherentIsDerived(AreaStep(op, a).area);
  }

  predicate Unchanging(op: AreaOp, f: AreaFields) {
    AreaEffect(op, f) == f
  }

  /** Operation `k` puts the state right silently, and no operation after it changes a field. */
  ghost predicate RepairedUnseen(ops: seq<AreaOp>, k: nat, a: Area)
    requires k < |ops|
  {
    && SilentRepair(ops[k], Before(ops, k, a))
    && forall j :: k < j < |ops| ==> Unchanging(ops[j], Before(ops, j, a).fields)
  }

  lemma RepairedUnseenPrefix(ops: seq<AreaOp>, k: nat, a: Area)
    requires k < |ops| - 1
    ensures var pre, m := ops[..|ops| - 1], |ops| - 1;
            RepairedUnseen(ops, k, a) <==> RepairedUnseen(pre, k, a) && Unchanging(ops[m], Before(ops, m, a).fields)
  {
    var pre, m := ops[..|ops| - 1], |ops| - 1;
    forall j | 0 <= j < m ensures pre[j] == ops[j] && Before(pre, j, a) == Before(ops, j, a) {
      assert pre[..j] == ops[..j];
    }
  }

  /** One more operation: it tells the state, or changes no field and the lag stays as it was or begins. */
  lemma LagStep(ops: seq<AreaOp>, a: Area)
    requires ops != [] && !a.updated
    ensures var pre, m := ops[..|ops| - 1], |ops| - 1;
            var h, out := AreaRun(pre, a), AreaRun(ops, a);
            && (Shown(a.state, h.reports) == h.area.state ==>
                  (Shown(a.state, out.reports) != out.area.state <==> RepairedUnseen(ops, m, a)))
            && (RepairedUnseen(ops, m, a) ==>
                  Coherent(out.area) && Shown(a.state, out.reports) == Shown(a.state, h.reports))
            && if Unchanging(ops[m], h.area.fields) then
                 && Shown(a.state, out.reports) == Shown(a.state, h.reports)
                 && (Coherent(h.area) ==> out.area.state == h.area.state && Coherent(out.area))
               else Shown(a.state, out.reports) == out.area.state
  {
    var pre, m := ops[..|ops| - 1], |ops| - 1;
    var h := AreaRun(pre, a);
    ReportsAreChanges(pre, a);
    LastStep(ops, a);
    StepShape(ops[m], h.area);
    ShownStep(ops[m], h.area, Shown(a.state, h.reports));
    var r := AreaStep(ops[m], h.area).reports;
    assert r == [] ==> h.reports + r == h.reports;
  }

  /** A lag comes from a repair that nobody was told of. */
  lemma {:induction false} LagHasCause(ops: seq<AreaOp>, a: Area)
    requires !a.updated
    ensures var out := AreaRun(ops, a);
            Shown(a.state, out.reports) != out.area.state ==>
              Coherent(out.area) && exists k :: 0 <= k < |ops| && RepairedUnseen(ops, k, a)
    decreases |ops|
  {
    if ops != [] {
      var pre, m := ops[..|ops| - 1], |ops| - 1;
      var h, out := AreaRun(pre, a), AreaRun(ops, a);
      LagHasCause(pre, a);
      LagStep(ops, a);
      if Shown(a.state, out.reports) != out.area.state && Shown(a.state, h.reports) != h.area.state {
        var k :| 0 <= k < m && RepairedUnseen(pre, k, a);
        RepairedUnseenPrefix(ops, k, a);
      }
    }
  }

  /** A repair that nobody was told of leaves a lag. */
  lemma {:induction false} RepairLags(ops: seq<AreaOp>, k: nat, a: Area)
    requires !a.updated && k < |ops| && RepairedUnseen(ops, k, a)
    ensures var out := AreaRun(ops, a); Shown(a.state, out.reports) != out.area.state && Coherent(out.area)
    decreases |ops|
  {
    var pre, m := ops[..|ops| - 1], |ops| - 1;
    LagStep(ops, a);
    if k < m {
      RepairedUnseenPrefix(ops, k, a);
      RepairLags(pre, k, a);
    } else if Shown(a.state, AreaRun(pre, a).reports) != AreaRun(pre, a).area.state {
      LagHasCause(pre, a);
    }
  }

  /**
   The state on display is not the area's state exactly when the state was put right with no
   field changing then or since.
   */
  lemma {:induction false} ShownLags(ops: seq<AreaOp>, a: Area)
    requires !a.updated
    ensures var out := AreaRun(ops, a);
            Shown(a.state, out.reports) != out.area.state <==> exists k :: 0 <= k < |ops| && RepairedUnseen(ops, k, a)
    ensures var out := AreaRun(ops, a);
            Shown(a.state, out.reports) != out.area.state ==> Coherent(out.area)
  {
    LagHasCause(ops, a);
    if k :| 0 <= k < |ops| && RepairedUnseen(ops, k, a) {
      RepairLags(ops, k, a);
    }
  }

  /** An operation that only brings known statuses, and no alarm from a zone response. */
  predicate BringsKnown(op: AreaOp) {
    match op
    case Arm(to) => Known(to)
    case SetStatus(to) => Known(to)
    case Record(f) => Known(f.status)
    case RaiseFromZone => false
    case _ => true
  }

  /** The status is known, or was never set and the state says as much. */
  predicate Understood(a: Area) {
    Known(a.fields.status) || (a.fields.status == NUL && (a.fields.alarm != IN_ALARM ==> a.state == Disarmed))
  }

  lemma {:induction false} StaysUnderstood(ops: seq<AreaOp>, a: Area)
    requires Understood(a) && Coherent(a) && forall op :: op in ops ==> BringsKnown(op)
    ensures Understood(AreaRun(ops, a).area)
    decreases |ops|
  {
    if ops != [] {
      assert BringsKnown(ops[0]);
      CoherenceStep(ops[0], a);
      StaysUnderstood(ops[1..], AreaStep(ops[0], a).area);
    }
  }

  /** Without an alarm raised by a zone response an area stays coherent and what is shown is its state. */
  lemma {:induction false} NothingRaised(ops: seq<AreaOp>, a: Area)
    requires !a.updated && Coherent(a) && RaiseFromZone !in ops
    ensures var out := AreaRun(ops, a); Coherent(out.area) && Shown(a.state, out.reports) == out.area.state
  {
    CoherenceOverRuns(ops, a);
    ShownLags(ops, a);
    if k :| 0 <= k < |ops| && RepairedUnseen(ops, k, a) {
      CoherenceOverRuns(ops[..k], a);
    }
  }
}
