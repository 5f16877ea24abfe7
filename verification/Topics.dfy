/** The MQTT topics (src/mqtt_mgr.c:16-39) as printed, and how far they can be told apart. */
module Topics {
  import opened CText
  import opened Records

  const TOPIC_SIZE: nat := 256

  datatype Topic =
    | AreaTopic(area: int, tail: Tail)
    | UtilityKeyTopic
    | DaemonTopic
  datatype Tail = Main | Set | AreaState | OfZone(zone: int, end: End)
  datatype End = Status | AlarmStatus | ZoneState

  const AREA: string := "/area/"
  const ZONE: string := "/zone/"
  const SET: string := "/set"

  function EndText(e: End): string {
    match e
    case Status => ""
    case AlarmStatus => "/alarm"
    case ZoneState => "/state"
  }

  function TailText(t: Tail): string {
    match t
    case Main => ""
    case Set => SET
    case AreaState => "/state"
    case OfZone(z, e) => ZONE + Signed(z) + EndText(e)
  }

  function Suffix(t: Topic): string {
    match t
    case AreaTopic(a, tail) => AREA + Signed(a) + TailText(tail)
    case UtilityKeyTopic => "/utilitykey"
    case DaemonTopic => "/daemon"
  }

  /** `snprintf` of a topic into its buffer. */
  function Printed(base: string, t: Topic): string {
    Cut(TOPIC_SIZE - 1, base + Suffix(t))
  }

  // ------------------------------------------------------------ telling apart

  /** How many bytes of the end of a topic are enough to tell it from every other. */
  function TailNeed(t: Tail): nat {
    if t.OfZone? then |ZONE| + |Signed(t.zone)| + 2 else 3
  }

  function Need(t: Topic): nat {
    if t.AreaTopic? then |AREA| + |Signed(t.area)| + TailNeed(t.tail) else 2
  }

  lemma CutAfter(j: nat, p: string, d: string, x: string)
    requires |p| + |d| <= j
    ensures Cut(j, p + d + x) == p + (d + Cut(j - |p| - |d|, x))
  {
  }

  /** The second byte of an ending tells which of the three it is. */
  lemma EndMark(j: nat, e: End)
    requires j >= 2
    ensures At(Cut(j, EndText(e)), 1) == match e case Status => NUL case AlarmStatus => 'a' case ZoneState => 's'
    ensures !StartsWithDigit(Cut(j, EndText(e)))
  {
  }

  lemma TailMark(j: nat, t: Tail)
    requires j >= 3
    ensures var s := Cut(j, TailText(t));
            At(s, 2) == match t case Main => NUL case Set => 'e' case AreaState => 't' case OfZone(_, _) => 'o'
    ensures !StartsWithDigit(Cut(j, TailText(t)))
  {
    if t.OfZone? {
      assert TailText(t) == ZONE + (Signed(t.zone) + EndText(t.end));
    }
  }

  lemma CutByte(j: nat, x: string, y: string, z: string)
    requires j >= 2 && |x| >= 2
    ensures At(Cut(j, x + y + z), 1) == x[1]
  {
  }

  lemma SuffixMark(j: nat, t: Topic)
    requires j >= 2
    ensures At(Cut(j, Suffix(t)), 1)
         == match t case AreaTopic(_, _) => 'a' case UtilityKeyTopic => 'u' case DaemonTopic => 'd'
  {
    match t {
      case AreaTopic(a, tail) => CutByte(j, AREA, Signed(a), TailText(tail));
      case UtilityKeyTopic => CutByte(j, "/utilitykey", "", "");
        assert "/utilitykey" + "" + "" == Suffix(t);
      case DaemonTopic => CutByte(j, "/daemon", "", "");
        assert "/daemon" + "" + "" == Suffix(t);
    }
  }

  lemma ZoneTailCut(j: nat, t: Tail)
    requires t.OfZone? && j >= TailNeed(t)
    ensures Cut(j, TailText(t)) == ZONE + (Signed(t.zone) + Cut(j - |ZONE| - |Signed(t.zone)|, EndText(t.end)))
  {
    CutAfter(j, ZONE, Signed(t.zone), EndText(t.end));
  }

  lemma AreaTopicCut(j: nat, t: Topic)
    requires t.AreaTopic? && j >= Need(t)
    ensures Cut(j, Suffix(t)) == AREA + (Signed(t.area) + Cut(j - |AREA| - |Signed(t.area)|, TailText(t.tail)))
  {
    CutAfter(j, AREA, Signed(t.area), TailText(t.tail));
  }

  lemma StripPrefix(p: string, x: string, y: string)
    requires p + x == p + y
    ensures x == y
  {
    assert (p + x)[|p|..] == x && (p + y)[|p|..] == y;
  }

  lemma TailsTold(j: nat, t: Tail, u: Tail)
    requires j >= TailNeed(t) && j >= TailNeed(u)
    requires Cut(j, TailText(t)) == Cut(j, TailText(u))
    ensures t == u
  {
    TailMark(j, t);
    TailMark(j, u);
    if t.OfZone? {
      ZoneTailCut(j, t);
      ZoneTailCut(j, u);
      var k, l := j - |ZONE| - |Signed(t.zone)|, j - |ZONE| - |Signed(u.zone)|;
      var x, y := Cut(k, EndText(t.end)), Cut(l, EndText(u.end));
      StripPrefix(ZONE, Signed(t.zone) + x, Signed(u.zone) + y);
      EndMark(k, t.end);
      EndMark(l, u.end);
      SignedCancel(t.zone, x, u.zone, y);
    }
  }

  lemma PartsTold(a: int, x: string, b: int, y: string)
    requires AREA + (Signed(a) + x) == AREA + (Signed(b) + y)
    requires !StartsWithDigit(x) && !StartsWithDigit(y)
    ensures a == b && x == y
  {
    StripPrefix(AREA, Signed(a) + x, Signed(b) + y);
    SignedCancel(a, x, b, y);
  }

  lemma AreaParts(j: nat, t: Topic) returns (k: nat)
    requires t.AreaTopic? && j >= Need(t)
    ensures k == j - |AREA| - |Signed(t.area)| && k >= TailNeed(t.tail) && !StartsWithDigit(Cut(k, TailText(t.tail)))
    ensures Cut(j, Suffix(t)) == AREA + (Signed(t.area) + Cut(k, TailText(t.tail)))
  {
    k := j - |AREA| - |Signed(t.area)|;
    AreaTopicCut(j, t);
    TailMark(k, t.tail);
  }

  lemma AreaTopicsTold(j: nat, t: Topic, u: Topic)
    requires t.AreaTopic? && u.AreaTopic? && j >= Need(t) && j >= Need(u)
    requires Cut(j, Suffix(t)) == Cut(j, Suffix(u))
    ensures t == u
  {
    var k := AreaParts(j, t);
    var l := AreaParts(j, u);
    PartsTold(t.area, Cut(k, TailText(t.tail)), u.area, Cut(l, TailText(u.tail)));
    TailsTold(k, t.tail, u.tail);
  }

  lemma SuffixesTold(j: nat, t: Topic, u: Topic)
    requires j >= Need(t) && j >= Need(u)
    requires Cut(j, Suffix(t)) == Cut(j, Suffix(u))
    ensures t == u
  {
    SuffixMark(j, t);
    SuffixMark(j, u);
    if t.AreaTopic? {
      AreaTopicsTold(j, t, u);
    }
  }

  /** Topics that fit their buffer differ whenever the kind, the area or the zone does, over all integers. */
  lemma TopicsInjective(base: string, t: Topic, u: Topic)
    requires |base + Suffix(t)| < TOPIC_SIZE && |base + Suffix(u)| < TOPIC_SIZE
    requires Printed(base, t) == Printed(base, u)
    ensures t == u
  {
    CutWhole(TOPIC_SIZE - 1, base + Suffix(t));
    CutWhole(TOPIC_SIZE - 1, base + Suffix(u));
    StripPrefix(base, Suffix(t), Suffix(u));
    SuffixesTold(Need(t) + Need(u), t, u);
  }

  // ------------------------------------------------- how long the base may be

  /** The topics a configured bridge uses. */
  predicate InRange(t: Topic) {
    t.AreaTopic? ==>
      && 1 <= t.area <= MAX_AREAS
      && (t.tail.OfZone? ==> 1 <= t.tail.zone <= MAX_ZONES)
  }

  ghost predicate Distinct(base: string) {
    forall t, u :: InRange(t) && InRange(u) && Printed(base, t) == Printed(base, u) ==> t == u
  }

  /** The bytes of a suffix that are enough to tell it from every other in range. */
  const TELLING: nat := 17

  lemma NeedInRange(t: Topic)
    requires InRange(t)
    ensures Need(t) <= TELLING
  {
    if t.AreaTopic? {
      DecimalLength(t.area);
      if t.tail.OfZone? {
        DecimalLength(t.tail.zone);
      }
    }
  }

  lemma CutTwice(j: nat, k: nat, base: string, x: string)
    requires |base| + j <= k
    ensures |base| <= |Cut(k, base + x)|
    ensures Cut(j, Cut(k, base + x)[|base|..]) == Cut(j, x)
  {
    assert Cut(k, base + x) == base + Cut(k - |base|, x);
  }

  const LONGEST_BASE: nat := TOPIC_SIZE - 1 - TELLING

  /** The topics of a configured bridge are distinct exactly for base topics of at most 238 bytes. */
  lemma DistinctExactly(base: string)
    ensures Distinct(base) <==> |base| <= LONGEST_BASE
  {
    if |base| <= LONGEST_BASE {
      forall t, u | InRange(t) && InRange(u) && Printed(base, t) == Printed(base, u) ensures t == u {
        CutTwice(TELLING, TOPIC_SIZE - 1, base, Suffix(t));
        CutTwice(TELLING, TOPIC_SIZE - 1, base, Suffix(u));
        NeedInRange(t);
        NeedInRange(u);
        SuffixesTold(TELLING, t, u);
      }
    } else {
      var t, u := AreaTopic(1, OfZone(12, AlarmStatus)), AreaTopic(1, OfZone(12, ZoneState));
      var common := AREA + Signed(1) + ZONE + Signed(12) + "/";
      assert Signed(12) == "12" && Signed(1) == "1";
      assert |common| == 16;
      assert EndText(AlarmStatus) == "/" + "alarm" && EndText(ZoneState) == "/" + "state";
      assert Suffix(t) == common + "alarm";
      assert Suffix(u) == common + "state";
      assert Printed(base, t) == Cut(TOPIC_SIZE - 1, base + common);
      assert Printed(base, u) == Cut(TOPIC_SIZE - 1, base + common);
      assert InRange(t) && InRange(u) && t != u;
    }
  }

  predicate BaseFits(base: string) {
    |base| <= LONGEST_BASE
  }

  lemma TopicsTold(base: string, t: Topic, u: Topic)
    requires BaseFits(base) && InRange(t) && InRange(u)
    ensures Printed(base, t) == Printed(base, u) <==> t == u
  {
    DistinctExactly(base);
  }

  /** The topics in full; with the longest base topics the two longest are cut by their buffer. */
  lemma TopicsSpelled(base: string, n: int, z: int)
    requires BaseFits(base) && 1 <= n <= MAX_AREAS && 1 <= z <= MAX_ZONES
    ensures var area := base + "/area/" + Signed(n);
            && Printed(base, AreaTopic(n, Main)) == area
            && Printed(base, AreaTopic(n, Set)) == area + "/set"
            && Printed(base, AreaTopic(n, AreaState)) == area + "/state"
    ensures var zone := base + "/area/" + Signed(n) + "/zone/" + Signed(z);
            && Printed(base, AreaTopic(n, OfZone(z, Status))) == zone
            && Printed(base, AreaTopic(n, OfZone(z, AlarmStatus))) == Cut(255, zone + "/alarm")
            && Printed(base, AreaTopic(n, OfZone(z, ZoneState))) == Cut(255, zone + "/state")
  {
    DecimalLength(n);
    DecimalLength(z);
    var area := base + "/area/" + Signed(n);
    var zone := area + "/zone/" + Signed(z);
    assert area == base + (AREA + Signed(n) + TailText(Main));
    assert area + "/set" == base + (AREA + Signed(n) + TailText(Set));
    assert area + "/state" == base + (AREA + Signed(n) + TailText(AreaState));
    assert zone == base + (AREA + Signed(n) + TailText(OfZone(z, Status)));
    assert zone + "/alarm" == base + (AREA + Signed(n) + TailText(OfZone(z, AlarmStatus)));
    assert zone + "/state" == base + (AREA + Signed(n) + TailText(OfZone(z, ZoneState)));
    CutWhole(TOPIC_SIZE - 1, area);
    CutWhole(TOPIC_SIZE - 1, area + "/set");
    CutWhole(TOPIC_SIZE - 1, area + "/state");
    CutWhole(TOPIC_SIZE - 1, zone);
  }

  // ---------------------------------------------------------------- commands

  const ARM_AWAY: string := "ARM_AWAY"
  const ARM_HOME: string := "ARM_HOME"
  const DISARM: string := "DISARM"

  /** A byte as the signed `char` it is read as. */
  function SignedByte(c: char): int {
    if c as int >= 128 then c as int - 256 else c as int
  }

  function AreaPrefix(base: string): string {
    Cut(TOPIC_SIZE - 1, base + AREA)
  }

  /** The area of a control topic: the one byte between the prefix and `/set`. */
  function ControlledArea(base: string, name: string): Option<int>
    requires name != AreaPrefix(base)
  {
    var p := AreaPrefix(base);
    if p <= name && name[|p| + 1..] == SET then Some(SignedByte(name[|p|]) - 48) else None
  }

  function AreaVerb(payload: string): Option<AreaCommand> {
    if payload == ARM_AWAY then Some(ArmAway)
    else if payload == ARM_HOME then Some(ArmHome)
    else if payload == DISARM then Some(Disarm)
    else None
  }

  /** What a message from the broker asks of the manager, if anything. */
  function Requested(base: string, name: string, payload: string): Option<Command>
    requires name != AreaPrefix(base)
  {
    match ControlledArea(base, name)
    case Some(n) =>
      (match AreaVerb(payload)
       case Some(verb) => Some(Command(AreaControl, n, verb))
       case None => None)
    case None =>
      if name == Printed(base, UtilityKeyTopic) then Some(Command(UtilityKey, ReadInt(payload), ArmAway)) else None
  }

  /** A control topic names its own area exactly when the area has one digit. */
  lemma ControlTopicParses(base: string, n: nat)
    requires |base + Suffix(AreaTopic(n, Set))| < TOPIC_SIZE
    ensures var name := Printed(base, AreaTopic(n, Set));
            && name != AreaPrefix(base)
            && (ControlledArea(base, name) == Some(n) <==> n < 10)
            && (n >= 10 ==> ControlledArea(base, name) == None)
  {
    var p, name, d := AreaPrefix(base), Printed(base, AreaTopic(n, Set)), Decimal(n);
    DecimalDigits(n);
    DecimalLength(n);
    assert name == base + (AREA + d + SET);
    assert p == base + AREA;
    assert name == p + (d + SET);
    assert name[|p|] == d[0];
    assert name[|p| + 1..] == d[1..] + SET;
    if n < 10 {
      assert d == [DigitChar(n)];
      assert d[1..] + SET == SET;
    } else {
      assert |d| >= 2;
      assert |d[1..] + SET| > |SET|;
    }
  }

  lemma UtilityKeyNotPrefix(base: string)
    requires |base| + |AREA| < TOPIC_SIZE - 1
    ensures Printed(base, UtilityKeyTopic) != AreaPrefix(base)
  {
    CutWhole(TOPIC_SIZE - 1, base + AREA);
    assert AreaPrefix(base)[|base| + 1] == AREA[1];
    assert Printed(base, UtilityKeyTopic)[|base| + 1] == Suffix(UtilityKeyTopic)[1];
  }

  /**
   The callback is given topics subscribed to; it can take them apart, none of them being the
   bare prefix, exactly while the base topic leaves room for the prefix and a byte more.
   */
  lemma NeverThePrefix(base: string, n: int)
    ensures Printed(base, AreaTopic(n, Set)) != AreaPrefix(base) <==> |base| + |AREA| < TOPIC_SIZE - 1
    ensures |base| + |AREA| < TOPIC_SIZE - 1 ==> Printed(base, UtilityKeyTopic) != AreaPrefix(base)
  {
    var p, rest, k := base + AREA, Signed(n) + SET, TOPIC_SIZE - 1;
    assert base + Suffix(AreaTopic(n, Set)) == p + rest;
    if |p| < k {
      CutWhole(k, p);
      assert |Cut(k, p + rest)| > |p|;
      UtilityKeyNotPrefix(base);
    } else {
      assert Cut(k, p + rest) == p[..k] == Cut(k, p);
    }
  }
}
