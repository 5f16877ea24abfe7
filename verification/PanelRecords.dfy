/**
 The manager's records, updated in place by one setter a field (src/para_mgr.c:863-1060),
 and the trimming loop that keeps a label.
 */
module PanelRecords {
  import opened CText
  import opened Records
  import opened PanelSpec

  // -------------------------------------------------------------------- labels

  lemma {:induction false} TrimRightShape(s: string)
    ensures var t := TrimRight(s);
            && t <= s && (t != "" ==> t[|t| - 1] != SPACE)
            && forall k :: |t| <= k < |s| ==> s[k] == SPACE
  {
    if s != "" && s[|s| - 1] == SPACE {
      TrimRightShape(s[..|s| - 1]);
    }
  }

  lemma LabelShape(src: string)
    ensures var t, c := LabelText(src), CStr(src);
            && t <= c && |t| <= LABEL_LENGTH && NUL !in c
            && (t != "" ==> t[|t| - 1] != SPACE)
            && (forall k :: |t| <= k < |c| && k < LABEL_LENGTH ==> c[k] == SPACE)
  {
    CStrShape(src);
    var c := CStr(src);
    TrimRightShape(c[..Min(LABEL_LENGTH, |c|)]);
  }

  lemma LabelOfLabel(t: string)
    requires NUL !in t && |t| <= LABEL_LENGTH && (t != "" ==> t[|t| - 1] != SPACE)
    ensures LabelText(t) == t
  {
    CStrWhole(t);
    assert t[..Min(LABEL_LENGTH, |t|)] == t;
  }

  /** The label kept is the label given, cut at 17 bytes and trimmed; keeping it again changes nothing. */
  lemma LabelNormalised(src: string)
    ensures var t := LabelText(src);
            && t <= CStr(src) && |t| <= LABEL_LENGTH && NUL !in t
            && (t != "" ==> t[|t| - 1] != SPACE)
            && (forall k :: |t| <= k < |CStr(src)| && k < LABEL_LENGTH ==> CStr(src)[k] == SPACE)
            && LabelText(t) == t
  {
    LabelShape(src);
    var t, c := LabelText(src), CStr(src);
    assert forall k :: 0 <= k < |t| ==> t[k] == c[k] && c[k] in c;
    LabelOfLabel(t);
  }

  /**
   Copies a label into a field and blanks its tail.  The field has one byte more than
   the label, for the terminator.
   */
  method SetLabel(dst: array<char>, src: string)
    requires dst.Length == LABEL_LENGTH + 1 && HasInk(src)
    modifies dst
    ensures CStr(dst[..]) == LabelText(src)
    ensures forall k :: |LabelText(src)| <= k < dst.Length ==> dst[k] == NUL
  {
    var t := CStr(src);
    ghost var kept := LabelText(src);
    LabelNormalised(src);
    forall k | 0 <= k < LABEL_LENGTH {
      dst[k] := if k < |t| then t[k] else NUL;
    }
    dst[LABEL_LENGTH] := NUL;
    var end: int := LABEL_LENGTH - 1;
    while dst[end] == SPACE || dst[end] == NUL
      invariant |kept| - 1 <= end < LABEL_LENGTH
      invariant forall k :: 0 <= k <= end ==> dst[k] == if k < |t| then t[k] else NUL
      invariant forall k :: end < k < dst.Length ==> dst[k] == NUL
      decreases end
    {
      assert dst[|kept| - 1] == kept[|kept| - 1] && kept[|kept| - 1] in kept;
      dst[end] := NUL;
      end := end - 1;
    }
    assert end == |kept| - 1;
    assert dst[..] == kept + dst[..][|kept|..];
    CStrAppend(kept, dst[..][|kept|..]);
  }

  // --------------------------------------------------------------------- areas

  class AreaRecord {
    var num: int
    const name: array<char>
    var status: char
    var memory: char
    var trouble: char
    var ready: char
    var programming: char
    var alarm: char
    var strobe: char
    var mqttState: PanelState
    var firstreport: bool
    var updated: bool

    function Fields(): AreaFields
      reads this
    {
      AreaFields(status, memory, trouble, ready, programming, alarm, strobe)
    }

    function View(): Area
      reads this, name
    {
      Area(num, CStr(name[..]), Fields(), mqttState, firstreport, updated)
    }

    constructor (n: int)
      ensures View() == NewArea(n) && name.Length == LABEL_LENGTH + 1 && fresh(name)
    {
      num := n;
      name := new char[LABEL_LENGTH + 1](_ => NUL);
      status, memory, trouble, ready, programming, alarm, strobe := NUL, NUL, NUL, NUL, NUL, NUL, NUL;
      mqttState, firstreport, updated := Disarmed, true, false;
    }

    /** Clears a record that already exists. */
    method Reset(n: int)
      requires name.Length == LABEL_LENGTH + 1
      modifies this, name
      ensures View() == NewArea(n)
    {
      forall k | 0 <= k < name.Length {
        name[k] := NUL;
      }
      num := n;
      status, memory, trouble, ready, programming, alarm, strobe := NUL, NUL, NUL, NUL, NUL, NUL, NUL;
      mqttState, firstreport, updated := Disarmed, true, false;
    }

    method SetStatus(c: char)
      modifies this
      ensures View() == old(WriteArea(View(), Fields().(status := c)))
    {
      if status != c { status := c; updated := true; }
    }

    method SetMemory(c: char)
      modifies this
      ensures View() == old(WriteArea(View(), Fields().(memory := c)))
    {
      if memory != c { memory := c; updated := true; }
    }

    method SetTrouble(c: char)
      modifies this
      ensures View() == old(WriteArea(View(), Fields().(trouble := c)))
    {
      if trouble != c { trouble := c; updated := true; }
    }

    method SetReady(c: char)
      modifies this
      ensures View() == old(WriteArea(View(), Fields().(ready := c)))
    {
      if ready != c { ready := c; updated := true; }
    }

    method SetProgramming(c: char)
      modifies this
      ensures View() == old(WriteArea(View(), Fields().(programming := c)))
    {
      if programming != c { programming := c; updated := true; }
    }

    method SetAlarm(c: char)
      modifies this
      ensures View() == old(WriteArea(View(), Fields().(alarm := c)))
    {
      if alarm != c { alarm := c; updated := true; }
    }

    method SetStrobe(c: char)
      modifies this
      ensures View() == old(WriteArea(View(), Fields().(strobe := c)))
    {
      if strobe != c { strobe := c; updated := true; }
    }

    method UpdateMqttState()
      modifies this
      ensures View() == old(RefreshArea(View()))
    {
      if alarm != IN_ALARM {
        if status == DISARMED {
          mqttState := Disarmed;
        } else if status == STAY_ARMED {
          mqttState := ArmedHome;
        } else if status == ARMED || status == FORCE_ARMED || status == INSTANT_ARMED {
          mqttState := ArmedAway;
        } else if status == EXIT_DELAY {
          mqttState := Arming;
        }
      } else {
        mqttState := Triggered;
      }
    }

    /** What an alarm in one of its zones does to an area whose alarm field says OK. */
    method RaiseAlarm()
      modifies this
      ensures View() == old(WriteArea(View(), AreaEffect(RaiseFromZone, Fields())))
    {
      if alarm == OK {
        alarm := IN_ALARM;
        updated := true;
      }
    }

    /** The message an area report makes of the record, and the flags it clears. */
    method Send() returns (mail: seq<Area>)
      modifies this
      ensures View() == old(SentArea(View())) && mail == old(AreaMail(View()))
    {
      mail := [];
      if updated {
        mail := [View()];
        updated := false;
        firstreport := false;
      }
    }

    /** All seven fields of an RA response, then the derived state. */
    method Update(f: string)
      modifies this
      ensures View() == old(RefreshArea(WriteArea(View(), RecordIn(f))))
    {
      SetStatus(At(f, 5));
      SetMemory(At(f, 6));
      SetTrouble(At(f, 7));
      SetReady(At(f, 8));
      SetProgramming(At(f, 9));
      SetAlarm(At(f, 10));
      SetStrobe(At(f, 11));
      UpdateMqttState();
    }
  }

  // --------------------------------------------------------------------- zones

  class ZoneRecord {
    var num: int
    var area: int
    const name: array<char>
    var on: bool
    var status: char
    var alarm: char
    var fire: char
    var supervision: char
    var battery: char
    var bypassed: char
    var updated: bool

    function Fields(): ZoneFields
      reads this
    {
      ZoneFields(status, alarm, fire, supervision, battery)
    }

    function View(): Zone
      reads this, name
    {
      Zone(num, area, CStr(name[..]), Fields(), on, bypassed, updated)
    }

    constructor (z: int, n: int)
      ensures View() == NewZone(z, n) && name.Length == LABEL_LENGTH + 1 && fresh(name)
    {
      num, area := z, n;
      name := new char[LABEL_LENGTH + 1](_ => NUL);
      status, alarm, fire, supervision, battery := NUL, NUL, NUL, NUL, NUL;
      on, bypassed, updated := false, OK, false;
    }

    method Reset(z: int, n: int)
      requires name.Length == LABEL_LENGTH + 1
      modifies this, name
      ensures View() == NewZone(z, n)
    {
      forall k | 0 <= k < name.Length {
        name[k] := NUL;
      }
      num, area := z, n;
      status, alarm, fire, supervision, battery := NUL, NUL, NUL, NUL, NUL;
      on, bypassed, updated := false, OK, false;
    }

    method SetStatus(c: char)
      modifies this
      ensures View() == old(WriteZone(View(), Fields().(status := c)))
    {
      if status != c { status := c; updated := true; }
    }

    method SetAlarm(c: char)
      modifies this
      ensures View() == old(WriteZone(View(), Fields().(alarm := c)))
    {
      if alarm != c { alarm := c; updated := true; }
    }

    method SetFire(c: char)
      modifies this
      ensures View() == old(WriteZone(View(), Fields().(fire := c)))
    {
      if fire != c { fire := c; updated := true; }
    }

    method SetSupervision(c: char)
      modifies this
      ensures View() == old(WriteZone(View(), Fields().(supervision := c)))
    {
      if supervision != c { supervision := c; updated := true; }
    }

    method SetBattery(c: char)
      modifies this
      ensures View() == old(WriteZone(View(), Fields().(battery := c)))
    {
      if battery != c { battery := c; updated := true; }
    }

    method UpdateMqttState()
      modifies this
      ensures View() == old(RefreshZone(View()))
    {
      on := !(status == ZONE_CLOSED && alarm == OK && fire == OK);
    }

    method Send() returns (mail: seq<Zone>)
      modifies this
      ensures View() == old(SentZone(View())) && mail == old(ZoneMail(View()))
    {
      mail := [];
      if updated {
        mail := [View()];
        updated := false;
      }
    }

    /** All five fields of an RZ response, then the derived state. */
    method Update(f: string)
      modifies this
      ensures View() == old(RefreshZone(WriteZone(View(), ZoneRecordIn(f))))
    {
      SetStatus(At(f, 5));
      SetAlarm(At(f, 6));
      SetFire(At(f, 7));
      SetSupervision(At(f, 8));
      SetBattery(At(f, 9));
      UpdateMqttState();
    }
  }
}
