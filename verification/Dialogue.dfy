/**
 What the panel makes of what the bridge writes: the startup requests read back from the
 line, and the requests a message on a control topic leads to.
 */
module Dialogue {
  import opened CText
  import opened Framing
  import opened Records
  import opened Requests
  import opened Sequences
  import opened Topics
  import opened Mirror
  import opened Bridge
  import Wire

  /** The verb of a request and the number in its three-digit field. */
  function Parsed(r: string): (string, int) {
    (r[..Min(2, |r|)], NumberAt(r, 2, 3))
  }

  function AllParsed(rs: seq<string>): seq<(string, int)>
    decreases |rs|
  {
    if rs == [] then [] else [Parsed(rs[0])] + AllParsed(rs[1..])
  }

  // ----------------------------------------------------------------- startup

  /** A label and a status request for each configured number, ascending. */
  function Asked(naming: string, status: string, keys: set<int>, max: nat, n: nat): seq<(string, int)>
    decreases max + 1 - n, keys
  {
    if n > max then []
    else (if n in keys then [(naming, n), (status, n)] else []) + Asked(naming, status, keys, max, n + 1)
  }

  lemma {:induction false} ParsedAppend(s: seq<string>, t: seq<string>)
    ensures AllParsed(s + t) == AllParsed(s) + AllParsed(t)
    decreases |s|
  {
    if s == [] {
      assert s + t == t;
    } else {
      assert (s + t)[1..] == s[1..] + t;
      ParsedAppend(s[1..], t);
    }
  }

  lemma RequestShape(verb: string, n: nat)
    requires |verb| == 2 && n < 1000 && CR !in verb && NUL !in verb
    ensures Sendable(verb + Padded(3, n)) && |verb + Padded(3, n)| == 5 && Parsed(verb + Padded(3, n)) == (verb, n)
  {
    Wire.ThreeDigits(verb, n, "");
    PaddedShape(3, n);
    assert verb + Padded(3, n) + "" == verb + Padded(3, n);
    assert forall c :: c in Padded(3, n) ==> IsDigit(c);
  }

  lemma PairShape(v: string, w: string, n: nat)
    requires |v| == 2 && |w| == 2 && n < 1000 && CR !in v && NUL !in v && CR !in w && NUL !in w
    ensures Sendable(v + Padded(3, n)) && Sendable(w + Padded(3, n))
    ensures |v + Padded(3, n)| == 5 && |w + Padded(3, n)| == 5
    ensures AllParsed([v + Padded(3, n), w + Padded(3, n)]) == [(v, n as int), (w, n as int)]
  {
    RequestShape(v, n);
    RequestShape(w, n);
    var p, q := v + Padded(3, n), w + Padded(3, n);
    assert [p, q] == [p] + [q];
    ParsedAppend([p], [q]);
    ParsedOne(p);
    ParsedOne(q);
  }

  lemma ParsedOne(r: string)
    ensures AllParsed([r]) == [Parsed(r)]
  {
    assert [r][1..] == [];
  }

  lemma {:induction false} AreasAsked(keys: set<int>, n: nat)
    ensures AllParsed(AreasFrom(keys, n)) == Asked("AL", "RA", keys, MAX_AREAS, n)
    ensures forall r :: r in AreasFrom(keys, n) ==> Sendable(r) && |r| == 5
    decreases MAX_AREAS + 1 - n
  {
    if n <= MAX_AREAS {
      PairShape("AL", "RA", n);
      AreasAsked(keys, n + 1);
      ParsedAppend(if n in keys then [LabelRequest(n), StatusRequest(n)] else [], AreasFrom(keys, n + 1));
    }
  }

  lemma {:induction false} ZonesAsked(keys: set<int>, z: nat)
    ensures AllParsed(ZonesFrom(keys, z)) == Asked("ZL", "RZ", keys, MAX_ZONES, z)
    ensures forall r :: r in ZonesFrom(keys, z) ==> Sendable(r) && |r| == 5
    decreases MAX_ZONES + 1 - z
  {
    if z <= MAX_ZONES {
      PairShape("ZL", "RZ", z);
      ZonesAsked(keys, z + 1);
      ParsedAppend(if z in keys then [ZoneLabelRequest(z), ZoneStatusRequest(z)] else [], ZonesFrom(keys, z + 1));
    }
  }

  /** What the panel is to be asked at startup. */
  function StartupPlan(cfg: Config): seq<(string, int)> {
    Asked("AL", "RA", cfg.areas, MAX_AREAS, 1) + Asked("ZL", "RZ", cfg.zoneArea.Keys, MAX_ZONES, 1)
  }

  /** The startup requests, written out and framed again in any chunking, say exactly the plan. */
  lemma StartupReadBack(cfg: Config, chunks: seq<string>)
    requires Concat(chunks) == Terminated(StartupRequests(cfg))
    ensures FeedAll("", chunks).pending == "" && AllParsed(FeedAll("", chunks).frames) == StartupPlan(cfg)
    ensures forall f :: f in FeedAll("", chunks).frames ==> |f| == 5
  {
    AreasAsked(cfg.areas, 1);
    ZonesAsked(cfg.zoneArea.Keys, 1);
    ParsedAppend(AreasFrom(cfg.areas, 1), ZonesFrom(cfg.zoneArea.Keys, 1));
    WriterFramerRoundTrip(StartupRequests(cfg), chunks);
  }

  lemma {:induction false} SingleOrigin(o: Origin, requests: seq<Request>)
    requires forall p :: p != o ==> FromOrigin(p, requests) == []
    ensures Texts(requests) == FromOrigin(o, requests)
    decreases |requests|
  {
    if requests != [] {
      var h := requests[0];
      assert FromOrigin(h.origin, requests) != [];
      assert h.origin == o;
      forall p | p != o ensures FromOrigin(p, requests[1..]) == [] {
        assert FromOrigin(p, requests) == [] + FromOrigin(p, requests[1..]);
      }
      SingleOrigin(o, requests[1..]);
    }
  }

  /** In any schedule in which only the startup thread has spoken, and to the end, the line carries exactly the plan. */
  lemma StartupOnTheLine(g: Setting, events: seq<Event>, chunks: seq<string>)
    requires WellFormed(g.start)
    requires var s := After(g, events);
             && s.obeyed == [] && |s.threads| == 1 && s.threads[0] == [] && s.wrote == |s.pushed|
             && Concat(chunks) == s.written
    ensures AllParsed(FeedAll("", chunks).frames) == StartupPlan(ConfigOf(g.start))
  {
    var s := After(g, events);
    RequestSideAlways(g, events);
    forall p | p != FromThread(0) ensures FromOrigin(p, s.pushed) == [] {
      if p.FromThread? {
        assert p.id >= |s.threads|;
      }
    }
    SingleOrigin(FromThread(0), s.pushed);
    assert FromOrigin(FromThread(0), s.pushed) + [] == FromOrigin(FromThread(0), s.pushed);
    assert s.pushed[..s.wrote] == s.pushed;
    StartupReadBack(ConfigOf(g.start), chunks);
  }

  // ---------------------------------------------------------------- commands

  lemma NumberKept(verb: string, n: nat, rest: string, size: nat)
    requires |verb| == 2 && n < 1000 && size >= 6
    ensures var r := Clipped(size, verb + Padded(3, n) + rest);
            Parsed(r) == (verb, n)
  {
    Wire.ThreeDigits(verb, n, rest);
    var s := verb + Padded(3, n) + rest;
    var r := Clipped(size, s);
    assert r[..2] == verb && r[2..5] == s[2..5];
  }

  /** A message on the control topic an area subscribed to asks for that area and for no other. */
  lemma ControlAsksItsArea(base: string, n: nat, payload: string)
    requires 1 <= n <= MAX_AREAS && |base + Suffix(AreaTopic(n, Set))| < TOPIC_SIZE
    ensures Subscription(base, n) != AreaPrefix(base)
    ensures var cmd := Requested(base, Subscription(base, n), payload);
            && (cmd != None <==> payload in {ARM_AWAY, ARM_HOME, DISARM})
            && (cmd != None ==> cmd.value.kind == AreaControl && cmd.value.num == n)
            && (payload == ARM_AWAY ==> cmd.value.what == ArmAway)
            && (payload == ARM_HOME ==> cmd.value.what == ArmHome)
            && (payload == DISARM ==> cmd.value.what == Disarm)
  {
    ControlTopicParses(base, n);
    assert ARM_AWAY[4] == 'A' && ARM_HOME[4] == 'H' && |DISARM| == 6;
  }

  /** The verb the panel is sent for a command. */
  function VerbFor(what: AreaCommand, code: Option<string>): string {
    if what == Disarm then "AD" else if what == ArmAway && code != None then "AA" else "AQ"
  }

  /** A command for a configured area sends one request, for that area; only a disarming without a code sends none. */
  lemma RequestsNameTheirArea(areas: set<int>, code: Option<string>, n: nat, what: AreaCommand)
    requires 1 <= n <= MAX_AREAS
    ensures var rs := CommandRequests(areas, code, Command(AreaControl, n, what));
            && |rs| <= 1
            && (rs == [] <==> n !in areas || (what == Disarm && code == None))
            && (rs != [] ==> Parsed(rs[0]) == (VerbFor(what, code), n as int))
  {
    NumberKept("AQ", n, [ARMED], 13);
    NumberKept("AQ", n, [STAY_ARMED], 13);
    QuickWhole(n, ARMED);
    QuickWhole(n, STAY_ARMED);
    if code != None {
      NumberKept("AA", n, [ARMED] + code.value, 13);
      assert "AA" + Padded(3, n) + ([ARMED] + code.value) == "AA" + Padded(3, n) + [ARMED] + code.value;
      NumberKept("AD", n, code.value, 12);
    }
  }

  lemma QuickWhole(n: nat, mode: char)
    requires n < 1000
    ensures Clipped(13, "AQ" + Padded(3, n) + [mode]) == QuickArmRequest(n, mode)
  {
    Wire.ShortDecimal(n);
    PaddedShape(3, n);
  }

  /** At most six bytes of the user code go out. */
  function CodeSent(code: string): string {
    code[..Min(6, |code|)]
  }

  /** What a request looks like to the panel: a verb, a three-digit number, and the rest. */
  predicate Reads(r: string, verb: string, n: int, rest: string) {
    |r| >= 5 && r[..2] == verb && NumberAt(r, 2, 3) == n && r[5..] == rest
  }

  lemma ReadsPrinted(size: nat, verb: string, n: nat, rest: string)
    requires |verb| == 2 && n < 1000 && size >= 6
    ensures Reads(Clipped(size, verb + Padded(3, n) + rest), verb, n, rest[..Min(size - 6, |rest|)])
  {
    Wire.ThreeDigits(verb, n, rest);
    var s := verb + Padded(3, n) + rest;
    var r := Clipped(size, s);
    assert r[..2] == verb && r[2..5] == s[2..5] && s[5..] == rest;
  }

  /** The requests a command leads to, byte by byte. */
  predicate Sends(rs: seq<string>, verb: string, n: int, rest: string) {
    |rs| == 1 && Reads(rs[0], verb, n, rest)
  }

  lemma HomeReads(areas: set<int>, code: Option<string>, n: int)
    requires n in areas && 1 <= n <= 8
    ensures Sends(CommandRequests(areas, code, Command(AreaControl, n, ArmHome)), "AQ", n, "S")
  {
    ReadsPrinted(13, "AQ", n, "S");
    QuickWhole(n, STAY_ARMED);
  }

  lemma AwayReads(areas: set<int>, code: Option<string>, n: int)
    requires n in areas && 1 <= n <= 8
    ensures var rs := CommandRequests(areas, code, Command(AreaControl, n, ArmAway));
            if code == None then Sends(rs, "AQ", n, "A") else Sends(rs, "AA", n, "A" + CodeSent(code.value))
  {
    if code == None {
      ReadsPrinted(13, "AQ", n, "A");
      QuickWhole(n, ARMED);
    } else {
      ReadsPrinted(13, "AA", n, "A" + code.value);
      Regroup("AA" + Padded(3, n), "A", code.value);
      assert ("A" + code.value)[..Min(7, 1 + |code.value|)] == "A" + CodeSent(code.value);
    }
  }

  lemma DisarmReads(areas: set<int>, code: Option<string>, n: int)
    requires n in areas && 1 <= n <= 8
    ensures var rs := CommandRequests(areas, code, Command(AreaControl, n, Disarm));
            if code == None then rs == [] else Sends(rs, "AD", n, CodeSent(code.value))
  {
    if code != None {
      ReadsPrinted(12, "AD", n, code.value);
    }
  }

  /**
   Each command for an area as the panel reads it: home is the quick arming `S`, away the
   quick arming `A` or an arming `A` with the code, disarm a request with the code; no
   request for an area that is not configured.
   */
  lemma AreaCommandsRead(areas: set<int>, code: Option<string>, n: int)
    ensures var away := CommandRequests(areas, code, Command(AreaControl, n, ArmAway));
            var home := CommandRequests(areas, code, Command(AreaControl, n, ArmHome));
            var disarm := CommandRequests(areas, code, Command(AreaControl, n, Disarm));
            if n in areas && 1 <= n <= 8 then
              && Sends(home, "AQ", n, "S")
              && (if code == None then Sends(away, "AQ", n, "A") else Sends(away, "AA", n, "A" + CodeSent(code.value)))
              && (if code == None then disarm == [] else Sends(disarm, "AD", n, CodeSent(code.value)))
            else away == [] && home == [] && disarm == []
  {
    if n in areas && 1 <= n <= 8 {
      HomeReads(areas, code, n);
      AwayReads(areas, code, n);
      DisarmReads(areas, code, n);
    }
  }

  /** A utility key command sends its key's request for the keys there are, and nothing otherwise. */
  lemma UtilityCommandReads(areas: set<int>, code: Option<string>, k: int, what: AreaCommand)
    ensures var rs := CommandRequests(areas, code, Command(UtilityKey, k, what));
            if 1 <= k <= 251 then Sends(rs, "UK", k, "") else rs == []
  {
    if 1 <= k <= 251 {
      ReadsPrinted(6, "UK", k, "");
      Wire.ShortDecimal(k);
      PaddedShape(3, k);
      assert "UK" + Padded(3, k) + "" == UtilityKeyRequest(k);
    }
  }

  // ------------------------------------------------------ from topic to request

  /** The requests pushed when a message is delivered and what it asks for is obeyed at once. */
  function Caused(g: Setting, s: State, name: string, payload: string): seq<string>
    requires s.commandQueue == []
  {
    var u := Step(g, Step(g, s, MqttMessage(name, payload)), HandleCommand);
    if |s.pushed| <= |u.pushed| then Texts(u.pushed[|s.pushed|..]) else []
  }

  lemma {:induction false} TextsTagged(o: Origin, texts: seq<string>)
    ensures Texts(Tagged(o, texts)) == texts
    decreases |texts|
  {
    if texts != [] {
      assert Tagged(o, texts)[1..] == Tagged(o, texts[1..]);
      TextsTagged(o, texts[1..]);
    }
  }

  lemma CausedIs(g: Setting, s: State, name: string, payload: string)
    requires s.commandQueue == [] && name != AreaPrefix(g.base)
    ensures Caused(g, s, name, payload)
         == match Requested(g.base, name, payload)
            case None => []
            case Some(cmd) => CommandRequests(s.tables.areas.Keys, g.code, cmd)
  {
    match Requested(g.base, name, payload) {
      case None => assert s.pushed[|s.pushed|..] == [];
      case Some(cmd) =>
        var texts := CommandRequests(s.tables.areas.Keys, g.code, cmd);
        var more := Tagged(FromCommand, texts);
        assert ([] + [cmd])[0] == cmd;
        assert (s.pushed + more)[|s.pushed|..] == more;
        TextsTagged(FromCommand, texts);
    }
  }

  predicate RoomForTopics(base: string) {
    |base + "/utilitykey"| < 256
  }

  lemma UtilityTopic(base: string, payload: string)
    requires RoomForTopics(base)
    ensures base + "/utilitykey" != AreaPrefix(base)
    ensures Requested(base, base + "/utilitykey", payload) == Some(Command(UtilityKey, ReadInt(payload), ArmAway))
  {
    var name, p := base + "/utilitykey", base + "/area/";
    CutWhole(TOPIC_SIZE - 1, p);
    CutWhole(TOPIC_SIZE - 1, name);
    assert name[|base| + 1] == 'u' && p[|base| + 1] == 'a';
  }

  /** A number on the utility key topic, however padded, presses that key, if there is one, and no other. */
  lemma UtilityKeyPressed(g: Setting, s: State, w: nat, k: nat)
    requires RoomForTopics(g.base) && s.commandQueue == [] && k < 0x8000_0000
    ensures var rs := Caused(g, s, g.base + "/utilitykey", Padded(w, k));
            if 1 <= k <= 251 then Sends(rs, "UK", k, "") else rs == []
  {
    UtilityTopic(g.base, Padded(w, k));
    CausedIs(g, s, g.base + "/utilitykey", Padded(w, k));
    PaddedRoundTrip(w, k);
    UtilityCommandReads(s.tables.areas.Keys, g.code, k, ArmAway);
  }

  lemma SetTopic(base: string, n: nat, payload: string)
    requires RoomForTopics(base) && 1 <= n <= 8
    ensures var name := base + "/area/" + Signed(n) + "/set";
            && name != AreaPrefix(base)
            && Requested(base, name, payload)
               == if payload == "ARM_AWAY" then Some(Command(AreaControl, n, ArmAway))
                  else if payload == "ARM_HOME" then Some(Command(AreaControl, n, ArmHome))
                  else if payload == "DISARM" then Some(Command(AreaControl, n, Disarm))
                  else None
  {
    var name, p := base + "/area/" + Signed(n) + "/set", base + "/area/";
    DecimalLength(n);
    CutWhole(TOPIC_SIZE - 1, p);
    assert name == p + [DigitChar(n)] + "/set";
    assert name[|p|] == DigitChar(n) && name[|p| + 1..] == "/set";
    assert name != base + "/utilitykey" by {
      assert name[|base| + 1] == 'a' && (base + "/utilitykey")[|base| + 1] == 'u';
    }
    CutWhole(TOPIC_SIZE - 1, base + "/utilitykey");
  }

  /**
   The three payloads on an area's control topic, all the way to the bytes the panel is sent;
   no other payload, and no area that is not configured, sends any.
   */
  lemma AreaControlled(g: Setting, s: State, n: nat, payload: string)
    requires RoomForTopics(g.base) && s.commandQueue == [] && 1 <= n <= 8
    ensures var rs := Caused(g, s, g.base + "/area/" + Signed(n) + "/set", payload);
            if n !in s.tables.areas then rs == []
            else if payload == "ARM_HOME" then Sends(rs, "AQ", n, "S")
            else if payload == "ARM_AWAY" then
              if g.code == None then Sends(rs, "AQ", n, "A") else Sends(rs, "AA", n, "A" + CodeSent(g.code.value))
            else if payload == "DISARM" && g.code != None then Sends(rs, "AD", n, CodeSent(g.code.value))
            else rs == []
  {
    SetTopic(g.base, n, payload);
    CausedIs(g, s, g.base + "/area/" + Signed(n) + "/set", payload);
    AreaCommandsRead(s.tables.areas.Keys, g.code, n);
  }

  /** No other byte in the place of the area's digit sends anything. */
  lemma OtherAreaBytes(g: Setting, s: State, c: char, payload: string)
    requires RoomForTopics(g.base) && s.commandQueue == [] && c as int < 256 && !('1' <= c <= '8')
    ensures Caused(g, s, g.base + "/area/" + [c] + "/set", payload) == []
  {
    var name, p := g.base + "/area/" + [c] + "/set", g.base + "/area/";
    CutWhole(TOPIC_SIZE - 1, p);
    assert name == p + [c] + "/set" && name[|p|] == c && name[|p| + 1..] == "/set";
    CausedIs(g, s, name, payload);
    AreaCommandsRead(s.tables.areas.Keys, g.code, SignedByte(c) - 48);
  }

  lemma ControlShape(p: string, name: string)
    ensures name != p && p <= name && name[|p| + 1..] == "/set" ==> exists c :: name == p + [c] + "/set"
  {
    if name != p && p <= name && name[|p| + 1..] == "/set" {
      assert name == p + [name[|p|]] + "/set";
    }
  }

  /** A topic that is neither the utility key's nor a control topic with one byte for its area asks nothing. */
  lemma OtherTopics(g: Setting, s: State, name: string, payload: string)
    requires RoomForTopics(g.base) && name != g.base + "/utilitykey"
    requires forall c :: name != g.base + "/area/" + [c] + "/set"
    ensures Step(g, s, MqttMessage(name, payload)) == s
  {
    var p := g.base + "/area/";
    CutWhole(TOPIC_SIZE - 1, p);
    CutWhole(TOPIC_SIZE - 1, g.base + "/utilitykey");
    ControlShape(p, name);
  }

  // ----------------------------------------------------------- periodic requests

  /** A status request for each configured area, ascending. */
  function StatusPlan(keys: set<int>, n: nat): seq<(string, int)>
    decreases 9 - n, keys
  {
    if n > 8 then [] else (if n in keys then [("RA", n)] else []) + StatusPlan(keys, n + 1)
  }

  lemma {:induction false} StatusAsked(keys: set<int>, n: nat)
    ensures AllParsed(StatusFrom(keys, n)) == StatusPlan(keys, n)
    ensures forall r :: r in StatusFrom(keys, n) ==> |r| == 5
    decreases 9 - n
  {
    if n <= 8 {
      RequestShape("RA", n);
      Wire.ThreeDigits("RA", n, "");
      StatusAsked(keys, n + 1);
      ParsedAppend(if n in keys then [StatusRequest(n)] else [], StatusFrom(keys, n + 1));
      ParsedOne(StatusRequest(n));
    }
  }

  /** The plan names each configured area once and no other, ascending. */
  lemma {:induction false} StatusPlanOnce(keys: set<int>, n: nat)
    ensures forall m :: ("RA", m) in StatusPlan(keys, n) <==> m in keys && n <= m <= 8
    ensures forall i, j :: 0 <= i < j < |StatusPlan(keys, n)| ==> StatusPlan(keys, n)[i].1 < StatusPlan(keys, n)[j].1
    ensures forall i :: 0 <= i < |StatusPlan(keys, n)| ==>
              StatusPlan(keys, n)[i].0 == "RA" && n <= StatusPlan(keys, n)[i].1
    decreases 9 - n
  {
    if n <= 8 {
      StatusPlanOnce(keys, n + 1);
    }
  }

  /** The panel gets the whole user code exactly when it has at most six digits. */
  lemma CodeFits(n: nat, mode: char, code: string)
    requires n < 1000
    ensures DisarmRequest(n, code) == "AD" + Padded(3, n) + code <==> |code| <= 6
    ensures ArmRequest(n, mode, code) == "AA" + Padded(3, n) + [mode] + code <==> |code| <= 6
  {
    Wire.ShortDecimal(n);
    PaddedShape(3, n);
  }
}
