/**
 What the MQTT thread asks of its client for each report (src/mqtt_mgr.c:206-366), and what
 the last message on each topic then shows.
 */
module Mirror {
  import opened CText
  import opened Records
  import opened Runs
  import opened Sequences
  import opened Topics
  import opened Json

  /** A call on the MQTT client. */
  datatype Call =
    | Subscribe(topic: string)
    | Publish(topic: string, payload: string)

  function StateName(s: PanelState): string {
    match s
    case Disarmed => "disarmed"
    case ArmedHome => "armed_home"
    case ArmedAway => "armed_away"
    case ArmedNight => "armed_night"
    case ArmedVacation => "armed_vacation"
    case ArmedCustomBypass => "armed_custom_bypass"
    case PendingAlarm => "pending"
    case Triggered => "triggered"
    case Arming => "arming"
    case Disarming => "disarming"
  }

  function Switch(on: bool): string {
    if on then "on" else "off"
  }

  lemma NamesPlain()
    ensures forall s :: NUL !in StateName(s)
    ensures forall on :: NUL !in Switch(on)
  {
  }

  function ZoneTopic(z: Zone, e: End): Topic { AreaTopic(z.area, OfZone(z.num, e)) }

  function Subscription(base: string, n: int): string {
    Printed(base, AreaTopic(n, Set))
  }

  function Message(base: string, t: Topic, payload: string): Call {
    Publish(Printed(base, t), payload)
  }

  /** A first report subscribes to the area's control topic before anything of it is published. */
  function FirstCalls(base: string, a: Area): seq<Call> {
    if a.firstReport then [Subscribe(Subscription(base, a.num))] else []
  }

  function AreaCalls(base: string, a: Area): seq<Call> {
    FirstCalls(base, a)
    + [Message(base, AreaTopic(a.num, Main), StateName(a.state))]
    + [Message(base, AreaTopic(a.num, AreaState), AreaText(a))]
  }

  function ZoneCalls(base: string, z: Zone): seq<Call> {
    [Message(base, ZoneTopic(z, Status), Switch(z.on))]
    + [Message(base, ZoneTopic(z, AlarmStatus), Switch(z.fields.alarm == IN_ALARM))]
    + [Message(base, ZoneTopic(z, ZoneState), ZoneText(z))]
  }

  /** The MQTT thread: its two static buffers, and the calls it makes on the client. */
  class Publisher {
    const base: string
    var topic: string
    var payload: string
    var calls: seq<Call>
    /** Commands pushed to the manager. */
    var commands: seq<Command>

    constructor (baseTopic: string)
      ensures base == baseTopic && calls == [] && commands == []
    {
      base, topic, payload := baseTopic, "", "";
      calls, commands := [], [];
    }

    /** Publishes a text on the topic in the buffer, up to the text's first NUL. */
    method Send(text: string)
      modifies this`calls
      ensures calls == old(calls) + [Publish(topic, CStr(text))]
    {
      calls := calls + [Publish(topic, CStr(text))];
    }

    method AreaReport(a: Area)
      modifies this`topic, this`payload, this`calls
      ensures calls == old(calls) + AreaCalls(base, a)
    {
      NamesPlain();
      CStrWhole(StateName(a.state));
      if a.firstReport {
        topic := Printed(base, AreaTopic(a.num, Set));
        calls := calls + [Subscribe(topic)];
      }
      topic := Printed(base, AreaTopic(a.num, Main));
      Send(StateName(a.state));
      topic, payload := Printed(base, AreaTopic(a.num, AreaState)), AreaPayload(a);
      Send(payload);
    }

    method ZoneReport(z: Zone)
      modifies this`topic, this`payload, this`calls
      ensures calls == old(calls) + ZoneCalls(base, z)
    {
      NamesPlain();
      CStrWhole(Switch(z.on));
      CStrWhole(Switch(z.fields.alarm == IN_ALARM));
      topic := Printed(base, ZoneTopic(z, Status));
      Send(Switch(z.on));
      topic := Printed(base, ZoneTopic(z, AlarmStatus));
      Send(Switch(z.fields.alarm == IN_ALARM));
      topic, payload := Printed(base, ZoneTopic(z, ZoneState)), ZonePayload(z);
      Send(payload);
    }

    /** The callback for a message the broker delivers. */
    method AreaControl(name: string, message: string)
      requires name != AreaPrefix(base)
      modifies this`commands
      ensures commands == old(commands)
                + match Requested(base, name, message) case Some(cmd) => [cmd] case None => []
    {
      var prefix := AreaPrefix(base);
      if prefix <= name && name[|prefix| + 1..] == SET {
        var n := SignedByte(name[|prefix|]) - 48;
        if message == ARM_AWAY {
          commands := commands + [Command(CommandType.AreaControl, n, ArmAway)];
        } else if message == ARM_HOME {
          commands := commands + [Command(CommandType.AreaControl, n, ArmHome)];
        } else if message == DISARM {
          commands := commands + [Command(CommandType.AreaControl, n, Disarm)];
        }
      } else if name == Printed(base, UtilityKeyTopic) {
        commands := commands + [Command(UtilityKey, ReadInt(message), ArmAway)];
      }
    }
  }

  /** The calls for a report in full, in their order. */
  lemma CallsSpelled(base: string, a: Area, z: Zone)
    requires BaseFits(base) && 1 <= a.num <= MAX_AREAS && 1 <= z.area <= MAX_AREAS && 1 <= z.num <= MAX_ZONES
    ensures var area := base + "/area/" + Signed(a.num);
            AreaCalls(base, a)
            == (if a.firstReport then [Subscribe(area + "/set")] else [])
               + [Publish(area, StateName(a.state))] + [Publish(area + "/state", AreaText(a))]
    ensures var zone := base + "/area/" + Signed(z.area) + "/zone/" + Signed(z.num);
            ZoneCalls(base, z)
            == [Publish(zone, if z.on then "on" else "off")]
               + [Publish(Cut(255, zone + "/alarm"), if z.fields.alarm == 'A' then "on" else "off")]
               + [Publish(Cut(255, zone + "/state"), ZoneText(z))]
  {
    TopicsSpelled(base, a.num, 1);
    TopicsSpelled(base, z.area, z.num);
  }

  // ------------------------------------------------------- the last message

  /** The last message on a topic. */
  function LastOn(calls: seq<Call>, topic: string): Option<string>
    decreases |calls|
  {
    if calls == [] then None
    else
      var c := calls[|calls| - 1];
      if c.Publish? && c.topic == topic then Some(c.payload) else LastOn(calls[..|calls| - 1], topic)
  }

  lemma LastAfter(calls: seq<Call>, c: Call, topic: string)
    ensures LastOn(calls + [c], topic)
         == if c.Publish? && c.topic == topic then Some(c.payload) else LastOn(calls, topic)
  {
    assert (calls + [c])[..|calls|] == calls;
  }

  lemma LastAfterMessage(base: string, calls: seq<Call>, t: Topic, payload: string, u: Topic)
    requires BaseFits(base) && InRange(t) && InRange(u)
    ensures LastOn(calls + [Message(base, t, payload)], Printed(base, u))
         == if t == u then Some(payload) else LastOn(calls, Printed(base, u))
  {
    TopicsTold(base, t, u);
    LastAfter(calls, Message(base, t, payload), Printed(base, u));
  }

  lemma LastAfterFirst(base: string, calls: seq<Call>, a: Area, topic: string)
    ensures LastOn(calls + FirstCalls(base, a), topic) == LastOn(calls, topic)
  {
    if a.firstReport {
      LastAfter(calls, Subscribe(Subscription(base, a.num)), topic);
    } else {
      assert calls + [] == calls;
    }
  }

  lemma LastAfterArea(base: string, calls: seq<Call>, a: Area, u: Topic)
    requires BaseFits(base) && InRange(u) && 1 <= a.num <= MAX_AREAS
    ensures LastOn(calls + AreaCalls(base, a), Printed(base, u)) ==
              if u == AreaTopic(a.num, Main) then Some(StateName(a.state))
              else if u == AreaTopic(a.num, AreaState) then Some(AreaText(a))
              else LastOn(calls, Printed(base, u))
  {
    var t, s := AreaTopic(a.num, Main), AreaTopic(a.num, AreaState);
    var c := calls + FirstCalls(base, a);
    var d := c + [Message(base, t, StateName(a.state))];
    assert calls + AreaCalls(base, a) == d + [Message(base, s, AreaText(a))];
    LastAfterFirst(base, calls, a, Printed(base, u));
    LastAfterMessage(base, c, t, StateName(a.state), u);
    LastAfterMessage(base, d, s, AreaText(a), u);
  }

  lemma LastAfterZone(base: string, calls: seq<Call>, z: Zone, u: Topic)
    requires BaseFits(base) && InRange(u) && 1 <= z.area <= MAX_AREAS && 1 <= z.num <= MAX_ZONES
    ensures LastOn(calls + ZoneCalls(base, z), Printed(base, u)) ==
              if u == ZoneTopic(z, Status) then Some(Switch(z.on))
              else if u == ZoneTopic(z, AlarmStatus) then Some(Switch(z.fields.alarm == IN_ALARM))
              else if u == ZoneTopic(z, ZoneState) then Some(ZoneText(z))
              else LastOn(calls, Printed(base, u))
  {
    var c := calls + [Message(base, ZoneTopic(z, Status), Switch(z.on))];
    var d := c + [Message(base, ZoneTopic(z, AlarmStatus), Switch(z.fields.alarm == IN_ALARM))];
    assert calls + ZoneCalls(base, z) == d + [Message(base, ZoneTopic(z, ZoneState), ZoneText(z))];
    LastAfterMessage(base, calls, ZoneTopic(z, Status), Switch(z.on), u);
    LastAfterMessage(base, c, ZoneTopic(z, AlarmStatus), Switch(z.fields.alarm == IN_ALARM), u);
    LastAfterMessage(base, d, ZoneTopic(z, ZoneState), ZoneText(z), u);
  }

  // ------------------------------------------------------------ the display

  function LastArea(n: int, done: seq<Area>): Option<Area> {
    var mine := AreaReportsFor(n, done);
    if mine == [] then None else Some(mine[|mine| - 1])
  }

  function LastZone(z: int, done: seq<Zone>): Option<Zone> {
    var mine := ZoneReportsFor(z, done);
    if mine == [] then None else Some(mine[|mine| - 1])
  }

  lemma LastAreaOfTwo(n: int, s: seq<Area>, t: seq<Area>)
    ensures LastArea(n, s + t) == if LastArea(n, t) != None then LastArea(n, t) else LastArea(n, s)
  {
    AreaReportsAppend(n, s, t);
    assert AreaReportsFor(n, s) + [] == AreaReportsFor(n, s);
  }

  lemma LastZoneOfTwo(z: int, s: seq<Zone>, t: seq<Zone>)
    ensures LastZone(z, s + t) == if LastZone(z, t) != None then LastZone(z, t) else LastZone(z, s)
  {
    ZoneReportsAppend(z, s, t);
    assert ZoneReportsFor(z, s) + [] == ZoneReportsFor(z, s);
  }

  /** What each topic of area `n` shows once the reports `done` have been published. */
  ghost predicate AreaDisplayed(base: string, calls: seq<Call>, done: seq<Area>, n: int) {
    && LastOn(calls, Printed(base, AreaTopic(n, Main)))
       == (match LastArea(n, done) case None => None case Some(a) => Some(StateName(a.state)))
    && LastOn(calls, Printed(base, AreaTopic(n, AreaState)))
       == (match LastArea(n, done) case None => None case Some(a) => Some(AreaText(a)))
  }

  ghost predicate ZoneDisplayed(base: string, calls: seq<Call>, done: seq<Zone>, n: int, z: int) {
    && LastOn(calls, Printed(base, AreaTopic(n, OfZone(z, Status))))
       == (match LastZone(z, done) case None => None case Some(r) => Some(Switch(r.on)))
    && LastOn(calls, Printed(base, AreaTopic(n, OfZone(z, AlarmStatus))))
       == (match LastZone(z, done) case None => None case Some(r) => Some(Switch(r.fields.alarm == IN_ALARM)))
    && LastOn(calls, Printed(base, AreaTopic(n, OfZone(z, ZoneState))))
       == (match LastZone(z, done) case None => None case Some(r) => Some(ZoneText(r)))
  }

  lemma LastAreaAfter(n: int, done: seq<Area>, a: Area)
    ensures LastArea(n, done + [a]) == if a.num == n then Some(a) else LastArea(n, done)
  {
    AreaReportsAppend(n, done, [a]);
    AreaReportsOwn(n, a.num, [a]);
  }

  lemma LastZoneAfter(z: int, done: seq<Zone>, r: Zone)
    ensures LastZone(z, done + [r]) == if r.num == z then Some(r) else LastZone(z, done)
  {
    ZoneReportsAppend(z, done, [r]);
    ZoneReportsOwn(z, r.num, [r]);
  }

  /** Publishing a report updates its own topics and no others. */
  lemma PublishArea(base: string, calls: seq<Call>, done: seq<Area>, a: Area, n: int)
    requires BaseFits(base) && 1 <= a.num <= MAX_AREAS && 1 <= n <= MAX_AREAS
    requires AreaDisplayed(base, calls, done, n)
    ensures AreaDisplayed(base, calls + AreaCalls(base, a), done + [a], n)
  {
    LastAreaAfter(n, done, a);
    LastAfterArea(base, calls, a, AreaTopic(n, Main));
    LastAfterArea(base, calls, a, AreaTopic(n, AreaState));
  }

  lemma {:induction false} PublishAreaKeepsZone(
      base: string, calls: seq<Call>, done: seq<Zone>, a: Area, n: int, z: int)
    requires BaseFits(base) && 1 <= a.num <= MAX_AREAS && 1 <= n <= MAX_AREAS && 1 <= z <= MAX_ZONES
    requires ZoneDisplayed(base, calls, done, n, z)
    ensures ZoneDisplayed(base, calls + AreaCalls(base, a), done, n, z)
  {
    LastAfterArea(base, calls, a, AreaTopic(n, OfZone(z, Status)));
    LastAfterArea(base, calls, a, AreaTopic(n, OfZone(z, AlarmStatus)));
    LastAfterArea(base, calls, a, AreaTopic(n, OfZone(z, ZoneState)));
  }

  lemma {:induction false} PublishZone(base: string, calls: seq<Call>, done: seq<Zone>, r: Zone, n: int, z: int)
    requires BaseFits(base) && 1 <= r.area <= MAX_AREAS && 1 <= r.num <= MAX_ZONES
    requires 1 <= n <= MAX_AREAS && 1 <= z <= MAX_ZONES && (r.num == z ==> r.area == n)
    requires ZoneDisplayed(base, calls, done, n, z)
    ensures ZoneDisplayed(base, calls + ZoneCalls(base, r), done + [r], n, z)
  {
    LastZoneAfter(z, done, r);
    LastAfterZone(base, calls, r, AreaTopic(n, OfZone(z, Status)));
    LastAfterZone(base, calls, r, AreaTopic(n, OfZone(z, AlarmStatus)));
    LastAfterZone(base, calls, r, AreaTopic(n, OfZone(z, ZoneState)));
  }

  lemma {:induction false} PublishZoneKeepsArea(base: string, calls: seq<Call>, done: seq<Area>, r: Zone, n: int)
    requires BaseFits(base) && 1 <= r.area <= MAX_AREAS && 1 <= r.num <= MAX_ZONES && 1 <= n <= MAX_AREAS
    requires AreaDisplayed(base, calls, done, n)
    ensures AreaDisplayed(base, calls + ZoneCalls(base, r), done, n)
  {
    LastAfterZone(base, calls, r, AreaTopic(n, Main));
    LastAfterZone(base, calls, r, AreaTopic(n, AreaState));
  }

  /** The topics subscribed to, in order. */
  function Subscribed(calls: seq<Call>): seq<string>
    decreases |calls|
  {
    if calls == [] then []
    else (if calls[0].Subscribe? then [calls[0].topic] else []) + Subscribed(calls[1..])
  }

  lemma {:induction false} SubscribedAppend(s: seq<Call>, t: seq<Call>)
    ensures Subscribed(s + t) == Subscribed(s) + Subscribed(t)
    decreases |s|
  {
    if s == [] {
      assert s + t == t;
    } else {
      assert (s + t)[1..] == s[1..] + t;
      SubscribedAppend(s[1..], t);
    }
  }

  lemma {:induction false} SubscribedIn(calls: seq<Call>, topic: string)
    ensures topic in Subscribed(calls) <==> Subscribe(topic) in calls
    decreases |calls|
  {
    if calls != [] {
      assert calls == [calls[0]] + calls[1..];
      SubscribedIn(calls[1..], topic);
    }
  }

  lemma {:induction false} NoneSubscribed(calls: seq<Call>)
    requires forall c :: c in calls ==> c.Publish?
    ensures Subscribed(calls) == []
    decreases |calls|
  {
    if calls != [] {
      assert calls[0] in calls;
      NoneSubscribed(calls[1..]);
    }
  }

  lemma ZoneSubscribes(base: string, z: Zone)
    ensures Subscribed(ZoneCalls(base, z)) == []
  {
    NoneSubscribed(ZoneCalls(base, z));
  }

  lemma AreaSubscribes(base: string, a: Area)
    ensures Subscribed(AreaCalls(base, a)) == FirstTopics(base, a)
  {
    var f := FirstCalls(base, a);
    var p := [Message(base, AreaTopic(a.num, Main), StateName(a.state))]
           + [Message(base, AreaTopic(a.num, AreaState), AreaText(a))];
    assert AreaCalls(base, a) == f + p;
    SubscribedAppend(f, p);
    NoneSubscribed(p);
    assert a.firstReport ==> f[1..] == [];
  }

  function FirstTopics(base: string, a: Area): seq<string> {
    if a.firstReport then [Subscription(base, a.num)] else []
  }

  /** The subscriptions asked for while publishing `done`. */
  function Subscriptions(base: string, done: seq<Area>): seq<string>
    decreases |done|
  {
    if done == [] then [] else FirstTopics(base, done[0]) + Subscriptions(base, done[1..])
  }

  lemma {:induction false} SubscriptionsAppend(base: string, s: seq<Area>, t: seq<Area>)
    ensures Subscriptions(base, s + t) == Subscriptions(base, s) + Subscriptions(base, t)
    decreases |s|
  {
    if s == [] {
      assert s + t == t;
    } else {
      assert (s + t)[1..] == s[1..] + t;
      SubscriptionsAppend(base, s[1..], t);
      Regroup(FirstTopics(base, s[0]), Subscriptions(base, s[1..]), Subscriptions(base, t));
    }
  }
}
