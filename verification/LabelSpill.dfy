/**
 Where the terminator of an area's label goes.  `set_label` stores it one byte past the
 label's field (src/para_mgr.c:863-865, src/include/paratypes.h:58-59), which with the usual
 layout of the record is the area's status.  The records of this project give the
 terminator a byte of its own; here is what changes with the usual layout, and when.
 */
module LabelSpill {
  import opened CText
  import opened Records
  import opened PanelSpec
  import opened Sequences
  import opened Json
  import opened Runs
  import A = AreaLaws
  import P = PanelLaws
  import Changes
  import PanelRecords
  import Wire

  /** One operation with the usual layout: a label clears the status, marks nothing and sends nothing. */
  function SpillStep(op: AreaOp, a: Area): AreaOut {
    var out := AreaStep(op, a);
    if op.Label? then AreaOut(out.area.(fields := out.area.fields.(status := NUL)), []) else out
  }

  function SpillRun(ops: seq<AreaOp>, a: Area): AreaOut
    decreases |ops|
  {
    if ops == [] then AreaOut(a, [])
    else
      var h := SpillRun(ops[..|ops| - 1], a);
      var s := SpillStep(ops[|ops| - 1], h.area);
      AreaOut(s.area, h.reports + s.reports)
  }

  /** Operation `k` is a label kept while the status is set. */
  predicate Spills(ops: seq<AreaOp>, k: nat, a: Area)
    requires k < |ops|
  {
    ops[k].Label? && A.Before(ops, k, a).fields.status != NUL
  }

  lemma {:induction false} HarmlessRun(ops: seq<AreaOp>, a: Area)
    requires forall k :: 0 <= k < |ops| ==> !Spills(ops, k, a)
    ensures SpillRun(ops, a) == AreaRun(ops, a)
    decreases |ops|
  {
    if ops != [] {
      var m := |ops| - 1;
      var pre := ops[..m];
      forall k | 0 <= k < m ensures !Spills(pre, k, a) {
        assert pre[..k] == ops[..k] && !Spills(ops, k, a);
      }
      HarmlessRun(pre, a);
      A.LastStep(ops, a);
      assert !Spills(ops, m, a);
    }
  }

  lemma SpillDiffers(ops: seq<AreaOp>, k: nat, a: Area)
    requires k < |ops| && Spills(ops, k, a)
    ensures SpillRun(ops[..k], a) == AreaRun(ops[..k], a) ==> SpillRun(ops[..k + 1], a) != AreaRun(ops[..k + 1], a)
  {
    assert ops[..k + 1][..k] == ops[..k];
    A.LastStep(ops[..k + 1], a);
  }

  /** The two layouts agree all along a run exactly when no label is kept while the status is set. */
  lemma HarmlessExactly(ops: seq<AreaOp>, a: Area)
    ensures (forall m :: 0 <= m <= |ops| ==> SpillRun(ops[..m], a) == AreaRun(ops[..m], a))
            <==> forall k :: 0 <= k < |ops| ==> !Spills(ops, k, a)
  {
    if forall k :: 0 <= k < |ops| ==> !Spills(ops, k, a) {
      forall m | 0 <= m <= |ops| ensures SpillRun(ops[..m], a) == AreaRun(ops[..m], a) {
        forall k | 0 <= k < m ensures !Spills(ops[..m], k, a) {
          assert ops[..m][..k] == ops[..k] && !Spills(ops, k, a);
        }
        HarmlessRun(ops[..m], a);
      }
    } else {
      var k :| 0 <= k < |ops| && Spills(ops, k, a);
      SpillDiffers(ops, k, a);
    }
  }

  /**
   A label that spills is never reported: the status is gone from the record and the last
   report still shows it, until some operation changes a field.
   */
  lemma SpillUnseen(text: string, ops: seq<AreaOp>, a: Area)
    requires !a.updated && a.fields.status != NUL
    ensures var b := SpillStep(Label(text), a);
            var out := AreaRun(ops, b.area);
            && b.reports == [] && b.area.fields == a.fields.(status := NUL) && !b.area.updated
            && (var trace := A.FieldTrace(ops, b.area.fields);
                out.reports == [] <==> forall i :: 0 <= i < |trace| ==> trace[i] == b.area.fields)
            && (out.reports == [] ==> out.area.fields != a.fields)
  {
    var b := SpillStep(Label(text), a).area;
    A.ReportsAreChanges(ops, b);
    MappedAt(AreaRun(ops, b).reports, A.FieldsOf);
    NoChanges(b.fields, A.FieldTrace(ops, b.fields));
  }

  lemma {:induction false} NoChanges(prev: AreaFields, trace: seq<AreaFields>)
    ensures Changes.Of(prev, trace) == [] <==> forall i :: 0 <= i < |trace| ==> trace[i] == prev
    decreases |trace|
  {
    if trace != [] {
      NoChanges(prev, trace[1..]);
      if trace[0] == prev && forall i :: 0 <= i < |trace[1..]| ==> trace[1..][i] == prev {
        assert forall i :: 0 < i < |trace| ==> trace[i] == trace[1..][i - 1];
      }
      assert forall i :: 0 <= i < |trace[1..]| ==> trace[1..][i] == trace[i + 1];
    }
  }

  // ------------------------------------------------------------ runs of frames

  /** A label response the manager accepts for area `n`. */
  predicate AcceptedLabel(cfg: Config, f: string, n: int) {
    At(f, 0) == 'A' && At(f, 1) == 'L' && NumberAt(f, 2, 3) == n && AreaAccepted(cfg, n)
  }

  lemma LabelOps(cfg: Config, f: string, n: int)
    ensures var ops := AreaOpsIn(Decode(cfg, f), n);
            if AcceptedLabel(cfg, f, n) then |ops| == 1 && ops[0].Label? else forall op :: op in ops ==> !op.Label?
  {
  }

  lemma {:induction false} SpillRunAppend(s: seq<AreaOp>, t: seq<AreaOp>, a: Area)
    ensures var h := SpillRun(s, a);
            var r := SpillRun(t, h.area);
            SpillRun(s + t, a) == AreaOut(r.area, h.reports + r.reports)
    decreases |t|
  {
    var h := SpillRun(s, a);
    if t == [] {
      assert s + t == s;
      NothingMore(h.reports);
    } else {
      var m := |t| - 1;
      assert (s + t)[..|s + t| - 1] == s + t[..m] && (s + t)[|s + t| - 1] == t[m];
      SpillRunAppend(s, t[..m], a);
      var r := SpillRun(t[..m], h.area);
      Regroup(h.reports, r.reports, SpillStep(t[m], r.area).reports);
    }
  }

  /** An area with the usual layout after a run of frames. */
  function SpilledArea(cfg: Config, frames: seq<string>, n: int, a: Area): AreaOut {
    SpillRun(AreaOpsOf(cfg, frames, n), a)
  }

  /** And as it is modelled elsewhere. */
  function ModelledArea(cfg: Config, frames: seq<string>, n: int, a: Area): AreaOut {
    AreaRun(AreaOpsOf(cfg, frames, n), a)
  }

  /** A label accepted while the status is set. */
  predicate LabelSpills(cfg: Config, frames: seq<string>, k: nat, n: int, a: Area)
    requires k < |frames|
  {
    AcceptedLabel(cfg, frames[k], n) && ModelledArea(cfg, frames[..k], n, a).area.fields.status != NUL
  }

  lemma OneLabel(op: AreaOp, a: Area)
    requires op.Label?
    ensures SpillRun([op], a) == AreaRun([op], a) <==> a.fields.status == NUL
  {
    A.OneStep(op, a);
    assert [op][..0] == [];
    assert SpillRun([op], a).area == SpillStep(op, a).area;
    assert SpillRun([op], a).reports == [] == AreaRun([op], a).reports;
  }

  lemma NoLabels(ops: seq<AreaOp>, a: Area)
    requires forall op :: op in ops ==> !op.Label?
    ensures SpillRun(ops, a) == AreaRun(ops, a)
  {
    forall k | 0 <= k < |ops| ensures !Spills(ops, k, a) {
      assert ops[k] in ops;
    }
    HarmlessRun(ops, a);
  }

  /** The layouts agree on an area after the first `m` frames. */
  predicate AgreeAfter(cfg: Config, frames: seq<string>, m: nat, n: int, a: Area)
    requires m <= |frames|
  {
    SpilledArea(cfg, frames[..m], n, a) == ModelledArea(cfg, frames[..m], n, a)
  }

  lemma AgreeAtFirst(cfg: Config, frames: seq<string>, n: int, a: Area)
    ensures AgreeAfter(cfg, frames, 0, n, a)
  {
    assert AreaOpsOf(cfg, frames[..0], n) == [];
  }

  /** While the layouts agree, one more frame keeps them so unless it is a label that spills. */
  lemma OneMoreFrame(cfg: Config, frames: seq<string>, k: nat, n: int, a: Area)
    requires k < |frames| && AgreeAfter(cfg, frames, k, n, a)
    ensures AgreeAfter(cfg, frames, k + 1, n, a) <==> !LabelSpills(cfg, frames, k, n, a)
  {
    var ops, h := AreaOpsIn(Decode(cfg, frames[k]), n), ModelledArea(cfg, frames[..k], n, a);
    assert frames[..k + 1] == frames[..k] + [frames[k]];
    OpsAppend(cfg, frames[..k], [frames[k]], n);
    OpsOfOne(cfg, frames[k], n);
    SpillRunAppend(AreaOpsOf(cfg, frames[..k], n), ops, a);
    AreaRunAppend(AreaOpsOf(cfg, frames[..k], n), ops, a);
    LabelOps(cfg, frames[k], n);
    if AcceptedLabel(cfg, frames[k], n) {
      assert ops == [ops[0]];
      OneLabel(ops[0], h.area);
      A.OneStep(ops[0], h.area);
      assert SpillRun(ops, h.area).area != AreaRun(ops, h.area).area || SpillRun(ops, h.area) == AreaRun(ops, h.area);
    } else {
      NoLabels(ops, h.area);
    }
  }

  lemma AgreeThroughout(cfg: Config, frames: seq<string>, n: int, a: Area)
    requires forall k :: 0 <= k < |frames| ==> !LabelSpills(cfg, frames, k, n, a)
    ensures forall m :: 0 <= m <= |frames| ==> AgreeAfter(cfg, frames, m, n, a)
  {
    var m: nat := 0;
    AgreeAtFirst(cfg, frames, n, a);
    while m < |frames|
      invariant m <= |frames| && forall i :: 0 <= i <= m ==> AgreeAfter(cfg, frames, i, n, a)
    {
      OneMoreFrame(cfg, frames, m, n, a);
      assert !LabelSpills(cfg, frames, m, n, a);
      m := m + 1;
    }
  }

  /**
   Over frames: with the usual layout an area's record and reports go as modelled all along
   a run exactly when no label is accepted for it while its status is set.
   */
  lemma FramesHarmlessExactly(cfg: Config, frames: seq<string>, n: int, a: Area)
    ensures (forall m :: 0 <= m <= |frames| ==> AgreeAfter(cfg, frames, m, n, a))
            <==> forall k :: 0 <= k < |frames| ==> !LabelSpills(cfg, frames, k, n, a)
  {
    if forall k :: 0 <= k < |frames| ==> !LabelSpills(cfg, frames, k, n, a) {
      AgreeThroughout(cfg, frames, n, a);
    } else {
      var k :| 0 <= k < |frames| && LabelSpills(cfg, frames, k, n, a);
      if AgreeAfter(cfg, frames, k, n, a) {
        OneMoreFrame(cfg, frames, k, n, a);
      }
    }
  }

  /** The moves of the status with the usual layout: those of `StatusMoves`, and being cleared by a label. */
  lemma SpillMoves(cfg: Config, f: string, n: int, a: Area)
    requires !P.AcceptedRecord(cfg, f, n)
    ensures var s, s' := a.fields.status, SpillRun(AreaOpsIn(Decode(cfg, f), n), a).area.fields.status;
            if AcceptedLabel(cfg, f, n) then s' == NUL
            else s' != s ==>
              && s' in {DISARMED, STAY_ARMED, ARMED, EXIT_DELAY}
              && (s' == EXIT_DELAY ==> s == DISARMED && P.ExitDelayEvent(f, n))
              && (s' == DISARMED ==> P.DisarmEvent(f, n) || P.DisarmDone(cfg, f, n))
              && (s' == ARMED ==> P.ArmingEvent(f, n) || P.ArmedEvent(f, n))
              && (s' == STAY_ARMED ==> P.StayEvent(f, n))
              && (P.ArmingEvent(f, n) ==> s in {DISARMED, EXIT_DELAY} && s' in {ARMED, STAY_ARMED})
              && (s == STAY_ARMED ==> P.DisarmEvent(f, n) || P.ArmedEvent(f, n) || P.DisarmDone(cfg, f, n))
  {
    var ops := AreaOpsIn(Decode(cfg, f), n);
    LabelOps(cfg, f, n);
    if AcceptedLabel(cfg, f, n) {
      assert ops == [ops[0]] && [ops[0]][..0] == [];
    } else {
      NoLabels(ops, a);
      P.StatusOps(cfg, f, n);
      P.ShapeMoves(ops, a, P.ExitDelayEvent(f, n), P.ArmingEvent(f, n),
                   P.DisarmEvent(f, n) || P.DisarmDone(cfg, f, n), P.ArmedEvent(f, n), P.StayEvent(f, n));
    }
  }

  // -------------------------------------------------------- a status that is lost

  function LabelFrame(n: nat, text: string): string {
    "AL" + Padded(3, n) + text
  }

  const HALL: string := "Hall"

  function LostStatusFrames(n: nat): seq<string> {
    [Wire.StatusFrame(n, Wire.IDLE), LabelFrame(n, HALL)]
  }

  lemma LabelReadBack(cfg: Config, n: nat)
    requires AreaAccepted(cfg, n)
    ensures Decode(cfg, LabelFrame(n, HALL)) == Effect(0, [], n, [Label(HALL)])
    ensures Safe(cfg, LabelFrame(n, HALL)) && LabelText(HALL) == HALL
  {
    Wire.ThreeDigits("AL", n, HALL);
    PanelRecords.LabelOfLabel(HALL);
    var s := LabelFrame(n, HALL);
    assert |s| == 9 && s[0] == 'A' && s[1] == 'L' && s[5..] == HALL;
  }

  lemma SpillOne(op: AreaOp, a: Area)
    ensures SpillRun([op], a) == SpillStep(op, a)
  {
    assert [op][..0] == [];
    assert [] + SpillStep(op, a).reports == SpillStep(op, a).reports;
  }

  lemma LostStatusRun(n: nat)
    requires LabelText(HALL) == HALL
    ensures SpillRun([Record(Wire.IDLE), Label(HALL)], NewArea(n))
         == AreaOut(Area(n, HALL, Wire.IDLE.(status := NUL), Disarmed, false, false),
                    [Area(n, "", Wire.IDLE, Disarmed, true, true)])
  {
    var x := SpillStep(Record(Wire.IDLE), NewArea(n));
    assert x.area == Area(n, "", Wire.IDLE, Disarmed, false, false);
    assert x.reports == [Area(n, "", Wire.IDLE, Disarmed, true, true)];
    assert [Record(Wire.IDLE), Label(HALL)] == [Record(Wire.IDLE)] + [Label(HALL)];
    SpillRunAppend([Record(Wire.IDLE)], [Label(HALL)], NewArea(n));
    SpillOne(Record(Wire.IDLE), NewArea(n));
    SpillOne(Label(HALL), x.area);
    NothingMore(x.reports);
  }

  lemma LostStatusOps(cfg: Config, n: nat)
    requires AreaAccepted(cfg, n)
    ensures AreaOpsOf(cfg, LostStatusFrames(n), n) == [Record(Wire.IDLE), Label(HALL)]
    ensures AreaOpsOf(cfg, LostStatusFrames(n)[..1], n) == [Record(Wire.IDLE)]
    ensures forall f :: f in LostStatusFrames(n) ==> Safe(cfg, f)
  {
    var f, g := Wire.StatusFrame(n, Wire.IDLE), LabelFrame(n, HALL);
    Wire.StatusReadBack(cfg, n, Wire.IDLE);
    LabelReadBack(cfg, n);
    OpsOfTwo(cfg, f, g, n);
    OpsOfOne(cfg, f, n);
    assert LostStatusFrames(n)[..1] == [f];
  }

  lemma HallAccepted(cfg: Config, n: nat)
    requires AreaAccepted(cfg, n)
    ensures AcceptedLabel(cfg, LabelFrame(n, HALL), n)
  {
    Wire.ThreeDigits("AL", n, HALL);
  }

  lemma IdleJson(n: nat)
    requires 1 <= n <= MAX_AREAS
    ensures Legible(AREA_LABELS, AreaText(Area(n, "", Wire.IDLE, Disarmed, true, true))) == AreaBytes(Wire.IDLE)
  {
    assert NUL !in AreaBytes(Wire.IDLE);
    CStrWhole(AreaBytes(Wire.IDLE));
    AreaTextShape(Area(n, "", Wire.IDLE, Disarmed, true, true));
  }

  /**
   For every accepted area: a status response and then a label, both processable.  With the
   usual layout the record has lost its status, no report tells, and the area's JSON goes on
   showing all seven fields as the response had them.
   */
  lemma StatusLost(cfg: Config, n: nat)
    requires AreaAccepted(cfg, n)
    ensures var frames := LostStatusFrames(n);
            var out := SpilledArea(cfg, frames, n, NewArea(n));
            && (forall f :: f in frames ==> Safe(cfg, f))
            && LabelSpills(cfg, frames, 1, n, NewArea(n))
            && out.area.fields == Wire.IDLE.(status := NUL) && out.area.name == HALL && !out.area.updated
            && |out.reports| == 1 && Legible(AREA_LABELS, AreaText(out.reports[0])) == AreaBytes(Wire.IDLE)
  {
    LostStatusOps(cfg, n);
    LabelReadBack(cfg, n);
    HallAccepted(cfg, n);
    A.Recorded(Wire.IDLE, NewArea(n));
    LostStatusRun(n);
    IdleJson(n);
  }

  // -------------------------------------------------- a label without terminator

  /** With the usual layout a label that fills its field runs on into the status; padding ends it there. */
  function SpilledName(a: Area): string {
    if |a.name| == LABEL_LENGTH && a.fields.status != NUL then a.name + [a.fields.status] else a.name
  }

  function SpilledText(a: Area): string {
    CStr(Cut(PAYLOAD_SIZE - 1, AreaHead(a.num, SpilledName(a)) + Body(AREA_LABELS, AreaBytes(a.fields))))
  }

  lemma SpilledHeadShape(num: int, name: string)
    requires 1 <= num <= MAX_AREAS && |name| <= LABEL_LENGTH + 1 && NUL !in name
    ensures NUL !in AreaHead(num, name) && |AreaHead(num, name)| <= 38
  {
    NumberShape(num);
    assert NUL !in "{\"num\": " && NUL !in ",\"name\": \"";
  }

  /** The same fields can be read off the text; it is the same text exactly for shorter labels and before a status. */
  lemma SpilledTextReads(a: Area)
    requires 1 <= a.num <= MAX_AREAS && LabelFits(a.name)
    ensures Legible(AREA_LABELS, SpilledText(a)) == CStr(AreaBytes(a.fields))
    ensures SpilledText(a) == AreaText(a) <==> |a.name| < LABEL_LENGTH || a.fields.status == NUL
  {
    SpilledHeadShape(a.num, SpilledName(a));
    AreaLabelsTell();
    BodyLengths();
    TextShape(AREA_LABELS, AreaHead(a.num, SpilledName(a)), AreaBytes(a.fields));
    AreaTextShape(a);
  }
}
