/**
 Whole runs of the manager.  A run does to each record what the operations its frames
 name for that record do to it alone: everything said of a record's own sequence of
 operations holds of it in every run, whatever happens to the others in between.
 */
module Runs {
  import opened Records
  import opened PanelSpec
  import opened Sequences

  function AreaReportsFor(n: int, reports: seq<Area>): seq<Area>
    decreases |reports|
  {
    if reports == [] then []
    else (if reports[0].num == n then [reports[0]] else []) + AreaReportsFor(n, reports[1..])
  }

  function ZoneReportsFor(z: int, reports: seq<Zone>): seq<Zone>
    decreases |reports|
  {
    if reports == [] then []
    else (if reports[0].num == z then [reports[0]] else []) + ZoneReportsFor(z, reports[1..])
  }

  function AreaOpsIn(e: Effect, n: int): seq<AreaOp> {
    if e.area == n then e.areaOps else []
  }

  function ZoneOpsIn(e: Effect, z: int): seq<ZoneOp> {
    if e.zone == z then e.zoneOps else []
  }

  /** The operations the frames name for area `n`, in order. */
  function AreaOpsOf(cfg: Config, frames: seq<string>, n: int): seq<AreaOp>
    decreases |frames|
  {
    if frames == [] then []
    else AreaOpsIn(Decode(cfg, frames[0]), n) + AreaOpsOf(cfg, frames[1..], n)
  }

  function ZoneOpsOf(cfg: Config, frames: seq<string>, z: int): seq<ZoneOp>
    decreases |frames|
  {
    if frames == [] then []
    else ZoneOpsIn(Decode(cfg, frames[0]), z) + ZoneOpsOf(cfg, frames[1..], z)
  }

  // ------------------------------------------------------------------ filters

  lemma {:induction false} AreaReportsAppend(n: int, s: seq<Area>, t: seq<Area>)
    ensures AreaReportsFor(n, s + t) == AreaReportsFor(n, s) + AreaReportsFor(n, t)
    decreases |s|
  {
    if s == [] {
      assert s + t == t;
    } else {
      assert (s + t)[1..] == s[1..] + t;
      AreaReportsAppend(n, s[1..], t);
      Regroup(if s[0].num == n then [s[0]] else [], AreaReportsFor(n, s[1..]), AreaReportsFor(n, t));
    }
  }

  lemma {:induction false} AreaReportsOwn(n: int, m: int, s: seq<Area>)
    requires forall a :: a in s ==> a.num == m
    ensures AreaReportsFor(n, s) == if n == m then s else []
    decreases |s|
  {
    if s != [] {
      AreaReportsOwn(n, m, s[1..]);
    }
  }

  lemma {:induction false} ZoneReportsAppend(z: int, s: seq<Zone>, t: seq<Zone>)
    ensures ZoneReportsFor(z, s + t) == ZoneReportsFor(z, s) + ZoneReportsFor(z, t)
    decreases |s|
  {
    if s == [] {
      assert s + t == t;
    } else {
      assert (s + t)[1..] == s[1..] + t;
      ZoneReportsAppend(z, s[1..], t);
      Regroup(if s[0].num == z then [s[0]] else [], ZoneReportsFor(z, s[1..]), ZoneReportsFor(z, t));
    }
  }

  lemma {:induction false} ZoneReportsOwn(z: int, m: int, s: seq<Zone>)
    requires forall a :: a in s ==> a.num == m
    ensures ZoneReportsFor(z, s) == if z == m then s else []
    decreases |s|
  {
    if s != [] {
      ZoneReportsOwn(z, m, s[1..]);
    }
  }

  // -------------------------------------------------------------------- runs

  lemma {:induction false} AreaRunAppend(s: seq<AreaOp>, t: seq<AreaOp>, a: Area)
    ensures var h := AreaRun(s, a);
            var r := AreaRun(t, h.area);
            AreaRun(s + t, a) == AreaOut(r.area, h.reports + r.reports)
    decreases |s|
  {
    if s == [] {
      assert s + t == t;
    } else {
      assert (s + t)[1..] == s[1..] + t;
      AreaRunAppend(s[1..], t, AreaStep(s[0], a).area);
      var h := AreaRun(s[1..], AreaStep(s[0], a).area);
      var r := AreaRun(t, h.area);
      assert AreaStep(s[0], a).reports + (h.reports + r.reports) == AreaStep(s[0], a).reports + h.reports + r.reports;
    }
  }

  lemma {:induction false} ZoneRunAppend(s: seq<ZoneOp>, t: seq<ZoneOp>, z: Zone)
    ensures var h := ZoneRun(s, z);
            var r := ZoneRun(t, h.zone);
            ZoneRun(s + t, z) == ZoneOut(r.zone, h.reports + r.reports)
    decreases |s|
  {
    if s == [] {
      assert s + t == t;
    } else {
      assert (s + t)[1..] == s[1..] + t;
      ZoneRunAppend(s[1..], t, ZoneStep(s[0], z).zone);
      var h := ZoneRun(s[1..], ZoneStep(s[0], z).zone);
      var r := ZoneRun(t, h.zone);
      assert ZoneStep(s[0], z).reports + (h.reports + r.reports) == ZoneStep(s[0], z).reports + h.reports + r.reports;
    }
  }

  lemma {:induction false} AreaRunNumber(ops: seq<AreaOp>, a: Area)
    ensures AreaRun(ops, a).area.num == a.num
    ensures forall r :: r in AreaRun(ops, a).reports ==> r.num == a.num
    decreases |ops|
  {
    if ops != [] {
      AreaRunNumber(ops[1..], AreaStep(ops[0], a).area);
    }
  }

  lemma {:induction false} ZoneRunNumber(ops: seq<ZoneOp>, z: Zone)
    ensures var out := ZoneRun(ops, z);
            && out.zone.num == z.num && out.zone.area == z.area
            && forall r :: r in out.reports ==> r.num == z.num && r.area == z.area
    decreases |ops|
  {
    if ops != [] {
      ZoneRunNumber(ops[1..], ZoneStep(ops[0], z).zone);
    }
  }

  lemma AreasHandled(cfg: Config, f: string, t: Tables, n: int)
    requires WellFormed(t) && n in t.areas
    ensures var out := Handle(cfg, f, t);
            && n in out.tables.areas
            && AreaOut(out.tables.areas[n], AreaReportsFor(n, out.areaReports))
               == AreaRun(AreaOpsIn(Decode(cfg, f), n), t.areas[n])
  {
    var e, out := Decode(cfg, f), Handle(cfg, f, t);
    if e.area in t.areas {
      AreaRunNumber(e.areaOps, t.areas[e.area]);
      AreaReportsOwn(n, e.area, out.areaReports);
    }
  }

  lemma ZonesHandled(cfg: Config, f: string, t: Tables, z: int)
    requires WellFormed(t) && z in t.zones
    ensures var out := Handle(cfg, f, t);
            && z in out.tables.zones
            && ZoneOut(out.tables.zones[z], ZoneReportsFor(z, out.zoneReports))
               == ZoneRun(ZoneOpsIn(Decode(cfg, f), z), t.zones[z])
  {
    var e, out := Decode(cfg, f), Handle(cfg, f, t);
    if e.zone in t.zones {
      ZoneRunNumber(e.zoneOps, t.zones[e.zone]);
      ZoneReportsOwn(z, e.zone, out.zoneReports);
    }
  }

  lemma ConfigKept(cfg: Config, f: string, t: Tables)
    requires WellFormed(t)
    ensures var out := Handle(cfg, f, t).tables; WellFormed(out) && ConfigOf(out) == ConfigOf(t)
  {
    var e, out := Decode(cfg, f), Handle(cfg, f, t).tables;
    if e.area in t.areas {
      AreaRunNumber(e.areaOps, t.areas[e.area]);
    }
    if e.zone in t.zones {
      ZoneRunNumber(e.zoneOps, t.zones[e.zone]);
    }
    assert out.areas.Keys == t.areas.Keys;
    assert ConfigOf(out).zoneArea == ConfigOf(t).zoneArea;
  }

  /** One frame: the configuration stays, and each record changes by its own operations only. */
  lemma HandleProjects(cfg: Config, f: string, t: Tables)
    requires WellFormed(t)
    ensures var out := Handle(cfg, f, t);
            && WellFormed(out.tables) && ConfigOf(out.tables) == ConfigOf(t)
            && (forall n :: n in t.areas ==>
                  && n in out.tables.areas
                  && AreaOut(out.tables.areas[n], AreaReportsFor(n, out.areaReports))
                     == AreaRun(AreaOpsIn(Decode(cfg, f), n), t.areas[n]))
            && (forall z :: z in t.zones ==>
                  && z in out.tables.zones
                  && ZoneOut(out.tables.zones[z], ZoneReportsFor(z, out.zoneReports))
                     == ZoneRun(ZoneOpsIn(Decode(cfg, f), z), t.zones[z]))
  {
    var out := Handle(cfg, f, t);
    ConfigKept(cfg, f, t);
    forall n | n in t.areas
      ensures n in out.tables.areas
      ensures AreaOut(out.tables.areas[n], AreaReportsFor(n, out.areaReports))
           == AreaRun(AreaOpsIn(Decode(cfg, f), n), t.areas[n])
    {
      AreasHandled(cfg, f, t, n);
    }
    forall z | z in t.zones
      ensures z in out.tables.zones
      ensures ZoneOut(out.tables.zones[z], ZoneReportsFor(z, out.zoneReports))
           == ZoneRun(ZoneOpsIn(Decode(cfg, f), z), t.zones[z])
    {
      ZonesHandled(cfg, f, t, z);
    }
  }

  /** A run of the whole panel, seen from one area, is a run of that area alone. */
  lemma {:induction false} AreaProjects(cfg: Config, frames: seq<string>, t: Tables, n: int)
    requires WellFormed(t) && n in t.areas
    ensures var out := Run(cfg, frames, t);
            && n in out.tables.areas
            && AreaOut(out.tables.areas[n], AreaReportsFor(n, out.areaReports))
               == AreaRun(AreaOpsOf(cfg, frames, n), t.areas[n])
    decreases |frames|
  {
    if frames != [] {
      HandleProjects(cfg, frames[0], t);
      var h := Handle(cfg, frames[0], t);
      AreaProjects(cfg, frames[1..], h.tables, n);
      AreaReportsAppend(n, h.areaReports, Run(cfg, frames[1..], h.tables).areaReports);
      AreaRunAppend(AreaOpsIn(Decode(cfg, frames[0]), n), AreaOpsOf(cfg, frames[1..], n), t.areas[n]);
    }
  }

  lemma {:induction false} ZoneProjects(cfg: Config, frames: seq<string>, t: Tables, z: int)
    requires WellFormed(t) && z in t.zones
    ensures var out := Run(cfg, frames, t);
            && z in out.tables.zones
            && ZoneOut(out.tables.zones[z], ZoneReportsFor(z, out.zoneReports))
               == ZoneRun(ZoneOpsOf(cfg, frames, z), t.zones[z])
    decreases |frames|
  {
    if frames != [] {
      HandleProjects(cfg, frames[0], t);
      var h := Handle(cfg, frames[0], t);
      ZoneProjects(cfg, frames[1..], h.tables, z);
      ZoneReportsAppend(z, h.zoneReports, Run(cfg, frames[1..], h.tables).zoneReports);
      ZoneRunAppend(ZoneOpsIn(Decode(cfg, frames[0]), z), ZoneOpsOf(cfg, frames[1..], z), t.zones[z]);
    }
  }

  lemma {:induction false} RunKeepsConfig(cfg: Config, frames: seq<string>, t: Tables)
    requires WellFormed(t)
    ensures var out := Run(cfg, frames, t);
            && WellFormed(out.tables) && ConfigOf(out.tables) == ConfigOf(t)
            && out.tables.zones.Keys == t.zones.Keys
    decreases |frames|
  {
    assert ConfigOf(t).zoneArea.Keys == t.zones.Keys;
    if frames != [] {
      HandleProjects(cfg, frames[0], t);
      RunKeepsConfig(cfg, frames[1..], Handle(cfg, frames[0], t).tables);
      assert ConfigOf(Run(cfg, frames, t).tables).zoneArea.Keys == Run(cfg, frames, t).tables.zones.Keys;
    }
  }

  lemma {:induction false} RunAppend(cfg: Config, s: seq<string>, t: seq<string>, tables: Tables)
    ensures var h := Run(cfg, s, tables);
            var r := Run(cfg, t, h.tables);
            Run(cfg, s + t, tables) == Out(r.tables, h.areaReports + r.areaReports, h.zoneReports + r.zoneReports)
    decreases |s|
  {
    if s == [] {
      assert s + t == t;
    } else {
      var u := s + t;
      assert u[0] == s[0] && u[1..] == s[1..] + t;
      var g := Handle(cfg, s[0], tables);
      RunAppend(cfg, s[1..], t, g.tables);
      var h := Run(cfg, s[1..], g.tables);
      var r := Run(cfg, t, h.tables);
      Regroup(g.areaReports, h.areaReports, r.areaReports);
      Regroup(g.zoneReports, h.zoneReports, r.zoneReports);
    }
  }

  lemma RunOne(cfg: Config, f: string, t: Tables)
    ensures Run(cfg, [f], t) == Handle(cfg, f, t)
  {
    assert [f][1..] == [];
    var h := Handle(cfg, f, t);
    assert h.areaReports + [] == h.areaReports && h.zoneReports + [] == h.zoneReports;
  }

  lemma {:induction false} RunSnoc(cfg: Config, s: seq<string>, f: string, tables: Tables)
    ensures var h := Run(cfg, s, tables);
            var out := Handle(cfg, f, h.tables);
            Run(cfg, s + [f], tables) == Out(
              out.tables, h.areaReports + out.areaReports, h.zoneReports + out.zoneReports)
  {
    RunAppend(cfg, s, [f], tables);
    RunOne(cfg, f, Run(cfg, s, tables).tables);
  }

  // -------------------------------------------------- order that does not matter

  ghost predicate SameToEachRecord(cfg: Config, fs: seq<string>, gs: seq<string>) {
    && (forall n :: AreaOpsOf(cfg, fs, n) == AreaOpsOf(cfg, gs, n))
    && (forall z :: ZoneOpsOf(cfg, fs, z) == ZoneOpsOf(cfg, gs, z))
  }

  /** The same tables, and for every record the same reports in the same order. */
  ghost predicate Alike(p: Out, q: Out) {
    && p.tables == q.tables
    && (forall n :: n in p.tables.areas ==> AreaReportsFor(n, p.areaReports) == AreaReportsFor(n, q.areaReports))
    && (forall z :: z in p.tables.zones ==> ZoneReportsFor(z, p.zoneReports) == ZoneReportsFor(z, q.zoneReports))
  }

  lemma {:induction false} SameTables(cfg: Config, fs: seq<string>, gs: seq<string>, t: Tables)
    requires WellFormed(t) && SameToEachRecord(cfg, fs, gs)
    ensures Run(cfg, fs, t).tables == Run(cfg, gs, t).tables
  {
    var p, q := Run(cfg, fs, t).tables, Run(cfg, gs, t).tables;
    RunKeepsConfig(cfg, fs, t);
    RunKeepsConfig(cfg, gs, t);
    assert p.areas.Keys == t.areas.Keys == q.areas.Keys by {
      assert ConfigOf(p).areas == ConfigOf(t).areas == ConfigOf(q).areas;
    }
    forall n | n in t.areas ensures p.areas[n] == q.areas[n] {
      AreaProjects(cfg, fs, t, n);
      AreaProjects(cfg, gs, t, n);
    }
    forall z | z in t.zones ensures p.zones[z] == q.zones[z] {
      ZoneProjects(cfg, fs, t, z);
      ZoneProjects(cfg, gs, t, z);
    }
    assert p.areas == q.areas && p.zones == q.zones;
  }

  /** Runs that give every record the same operations end in the same tables and send each record's reports alike. */
  lemma {:induction false} SameOperationsSameOutcome(cfg: Config, fs: seq<string>, gs: seq<string>, t: Tables)
    requires WellFormed(t) && SameToEachRecord(cfg, fs, gs)
    ensures Alike(Run(cfg, fs, t), Run(cfg, gs, t))
  {
    var p, q := Run(cfg, fs, t), Run(cfg, gs, t);
    SameTables(cfg, fs, gs, t);
    RunKeepsConfig(cfg, fs, t);
    assert ConfigOf(p.tables).areas == ConfigOf(t).areas;
    forall n | n in p.tables.areas
      ensures AreaReportsFor(n, p.areaReports) == AreaReportsFor(n, q.areaReports)
    {
      AreaProjects(cfg, fs, t, n);
      AreaProjects(cfg, gs, t, n);
    }
    forall z | z in p.tables.zones
      ensures ZoneReportsFor(z, p.zoneReports) == ZoneReportsFor(z, q.zoneReports)
    {
      ZoneProjects(cfg, fs, t, z);
      ZoneProjects(cfg, gs, t, z);
    }
  }

  /** Two frames with no record in common. */
  predicate Independent(cfg: Config, f: string, g: string) {
    var d, e := Decode(cfg, f), Decode(cfg, g);
    && (d.areaOps == [] || e.areaOps == [] || d.area != e.area)
    && (d.zoneOps == [] || e.zoneOps == [] || d.zone != e.zone)
  }

  lemma {:induction false} OpsAppend(cfg: Config, s: seq<string>, t: seq<string>, n: int)
    ensures AreaOpsOf(cfg, s + t, n) == AreaOpsOf(cfg, s, n) + AreaOpsOf(cfg, t, n)
    ensures ZoneOpsOf(cfg, s + t, n) == ZoneOpsOf(cfg, s, n) + ZoneOpsOf(cfg, t, n)
    decreases |s|
  {
    if s == [] {
      assert s + t == t;
    } else {
      assert (s + t)[1..] == s[1..] + t;
      OpsAppend(cfg, s[1..], t, n);
      Regroup(AreaOpsIn(Decode(cfg, s[0]), n), AreaOpsOf(cfg, s[1..], n), AreaOpsOf(cfg, t, n));
      Regroup(ZoneOpsIn(Decode(cfg, s[0]), n), ZoneOpsOf(cfg, s[1..], n), ZoneOpsOf(cfg, t, n));
    }
  }

  lemma OpsOfOne(cfg: Config, f: string, n: int)
    ensures AreaOpsOf(cfg, [f], n) == AreaOpsIn(Decode(cfg, f), n)
    ensures ZoneOpsOf(cfg, [f], n) == ZoneOpsIn(Decode(cfg, f), n)
  {
    assert [f][1..] == [];
    assert AreaOpsIn(Decode(cfg, f), n) + [] == AreaOpsIn(Decode(cfg, f), n);
    assert ZoneOpsIn(Decode(cfg, f), n) + [] == ZoneOpsIn(Decode(cfg, f), n);
  }

  lemma OpsOfTwo(cfg: Config, f: string, g: string, n: int)
    ensures AreaOpsOf(cfg, [f, g], n) == AreaOpsIn(Decode(cfg, f), n) + AreaOpsIn(Decode(cfg, g), n)
    ensures ZoneOpsOf(cfg, [f, g], n) == ZoneOpsIn(Decode(cfg, f), n) + ZoneOpsIn(Decode(cfg, g), n)
  {
    assert [f, g] == [f] + [g];
    OpsAppend(cfg, [f], [g], n);
    OpsOfOne(cfg, f, n);
    OpsOfOne(cfg, g, n);
  }

  lemma {:induction false} SwappedOps(
      cfg: Config, before: seq<string>, f: string, g: string, after: seq<string>, n: int)
    ensures AreaOpsOf(cfg, before + [f, g] + after, n)
         == AreaOpsOf(cfg, before, n) + (AreaOpsIn(Decode(cfg, f), n) + AreaOpsIn(Decode(cfg, g), n))
            + AreaOpsOf(cfg, after, n)
    ensures ZoneOpsOf(cfg, before + [f, g] + after, n)
         == ZoneOpsOf(cfg, before, n) + (ZoneOpsIn(Decode(cfg, f), n) + ZoneOpsIn(Decode(cfg, g), n))
            + ZoneOpsOf(cfg, after, n)
  {
    OpsAppend(cfg, before + [f, g], after, n);
    OpsAppend(cfg, before, [f, g], n);
    OpsOfTwo(cfg, f, g, n);
  }

  lemma IndependentOps(cfg: Config, f: string, g: string, n: int)
    requires Independent(cfg, f, g)
    ensures AreaOpsIn(Decode(cfg, f), n) + AreaOpsIn(Decode(cfg, g), n)
         == AreaOpsIn(Decode(cfg, g), n) + AreaOpsIn(Decode(cfg, f), n)
    ensures ZoneOpsIn(Decode(cfg, f), n) + ZoneOpsIn(Decode(cfg, g), n)
         == ZoneOpsIn(Decode(cfg, g), n) + ZoneOpsIn(Decode(cfg, f), n)
  {
    var p, q := AreaOpsIn(Decode(cfg, f), n), AreaOpsIn(Decode(cfg, g), n);
    var r, s := ZoneOpsIn(Decode(cfg, f), n), ZoneOpsIn(Decode(cfg, g), n);
    EitherOrder(p, q);
    EitherOrder(r, s);
  }

  /** Two neighbouring frames with no record in common can change places anywhere in a run. */
  lemma IndependentFramesCommute(cfg: Config, before: seq<string>, f: string, g: string, after: seq<string>, t: Tables)
    requires WellFormed(t) && Independent(cfg, f, g)
    ensures Alike(Run(cfg, before + [f, g] + after, t), Run(cfg, before + [g, f] + after, t))
  {
    var fs, gs := before + [f, g] + after, before + [g, f] + after;
    forall n
      ensures AreaOpsOf(cfg, fs, n) == AreaOpsOf(cfg, gs, n)
      ensures ZoneOpsOf(cfg, fs, n) == ZoneOpsOf(cfg, gs, n)
    {
      SwappedOps(cfg, before, f, g, after, n);
      SwappedOps(cfg, before, g, f, after, n);
      IndependentOps(cfg, f, g, n);
    }
    SameOperationsSameOutcome(cfg, fs, gs, t);
  }
}
