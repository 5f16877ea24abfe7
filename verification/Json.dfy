/**
 The JSON texts the MQTT thread prints for a report (src/mqtt_mgr.c:23-50, 317-327,
 351-362) and how much of a record can be read off one.  `%c` prints a NUL for a field that
 was never set, and the text is published up to its first NUL (src/mqtt_mgr.c:493).
 */
module Json {
  import opened CText
  import opened Records

  const PAYLOAD_SIZE: nat := 256

  const AREA_LABELS: seq<string> := ["status", "memory", "trouble", "ready", "programming", "alarm", "strobe"]
  const ZONE_LABELS: seq<string> := ["status", "alarm", "fire", "supervision", "battery", "bypassed"]

  /** The printed fields of a record, in the order of their labels. */
  function AreaBytes(f: AreaFields): string {
    [f.status, f.memory, f.trouble, f.ready, f.programming, f.alarm, f.strobe]
  }

  function ZoneBytes(f: ZoneFields, bypassed: char): string {
    [f.status, f.alarm, f.fire, f.supervision, f.battery, bypassed]
  }

  /** From the quote that ends one value to the quote that begins the next. */
  function Opening(key: string): string {
    "\",\"" + key + "\": \""
  }

  /** What follows a body's first `k` values, up to the next value. */
  function Ending(labels: seq<string>, k: nat): string
    requires k <= |labels|
  {
    if k == |labels| then "\"}" else Opening(labels[k])
  }

  /** The text after a record's name: the labels with their values, as far as the values go. */
  function Body(labels: seq<string>, bytes: string): string
    requires |bytes| <= |labels|
    decreases |bytes|
  {
    if bytes == "" then Ending(labels, 0) else Opening(labels[0]) + [bytes[0]] + Body(labels[1..], bytes[1..])
  }

  function AreaHead(num: int, name: string): string {
    "{\"num\": " + Signed(num) + ",\"name\": \"" + name
  }

  function ZoneHead(num: int, area: int, name: string): string {
    "{\"num\": " + Signed(num) + ",\"area\": " + Signed(area) + ",\"name\": \"" + name
  }

  /** The payload buffer after `snprintf`. */
  function AreaPayload(a: Area): string {
    Cut(PAYLOAD_SIZE - 1, AreaHead(a.num, a.name) + Body(AREA_LABELS, AreaBytes(a.fields)))
  }

  function ZonePayload(z: Zone): string {
    Cut(PAYLOAD_SIZE - 1, ZoneHead(z.num, z.area, z.name) + Body(ZONE_LABELS, ZoneBytes(z.fields, z.bypassed)))
  }

  /** The text that is published. */
  function AreaText(a: Area): string {
    CStr(AreaPayload(a))
  }

  function ZoneText(z: Zone): string {
    CStr(ZonePayload(z))
  }

  // ---------------------------------------------------------- reading a text

  predicate EndsWith(s: string, t: string) {
    |t| <= |s| && s[|s| - |t|..] == t
  }

  /** How many values a text carries, told by what it ends in. */
  function ValueCount(labels: seq<string>, text: string, k: nat): (n: nat)
    requires k <= |labels|
    ensures k <= n <= |labels|
    decreases |labels| - k
  {
    if k == |labels| || EndsWith(text, Opening(labels[k])) then k else ValueCount(labels, text, k + 1)
  }

  /** The length of a body with `k` values. */
  function BodyLength(labels: seq<string>, k: nat): nat
    requires k <= |labels|
    decreases k
  {
    if k == 0 then |Ending(labels, 0)| else |labels[0]| + 8 + BodyLength(labels[1..], k - 1)
  }

  /** The values at their places in a body. */
  function Values(labels: seq<string>, k: nat, body: string): string
    requires k <= |labels|
    decreases k
  {
    if k == 0 || |body| < |labels[0]| + 8 then ""
    else [body[|labels[0]| + 7]] + Values(labels[1..], k - 1, body[|labels[0]| + 8..])
  }

  /** The values that can be read off a text: they stand at fixed distances from its end. */
  function Legible(labels: seq<string>, text: string): string {
    var k := ValueCount(labels, text, 0);
    var n := BodyLength(labels, k);
    if n <= |text| then Values(labels, k, text[|text| - n..]) else ""
  }

  // -------------------------------------------------- what can be read off it

  /** A label of at least two bytes, free of the bytes that delimit it. */
  predicate Plain(key: string) {
    |key| >= 2 && '"' !in key && ',' !in key && NUL !in key
  }

  ghost predicate Telling(labels: seq<string>) {
    && (forall i :: 0 <= i < |labels| ==> Plain(labels[i]))
    && (forall i, j :: 0 <= i < j < |labels| ==> labels[i] != labels[j])
  }

  lemma AreaLabelsTell()
    ensures Telling(AREA_LABELS)
  {
    var l := AREA_LABELS;
    assert l[0][0] == 's' && l[1][0] == 'm' && l[2][0] == 't' && l[3][0] == 'r' && l[4][0] == 'p'
        && l[5][0] == 'a' && l[6][0] == 's';
    assert l[0][2] == 'a' && l[6][2] == 'r';
    assert forall i :: 0 <= i < 7 ==> Plain(l[i]);
  }

  lemma ZoneLabelsTell()
    ensures Telling(ZONE_LABELS)
  {
    var l := ZONE_LABELS;
    assert l[0][0] == 's' && l[1][0] == 'a' && l[2][0] == 'f' && l[3][0] == 's' && l[4][0] == 'b' && l[5][0] == 'b';
    assert |l[0]| != |l[3]| && |l[4]| != |l[5]|;
    assert forall i :: 0 <= i < 6 ==> Plain(l[i]);
  }

  lemma OpeningLength(key: string)
    ensures |Opening(key)| == |key| + 7
  {
  }

  lemma OneValue(labels: seq<string>, k: nat, o: string, c: char, rest: string)
    requires 0 < k <= |labels| && |o| == |labels[0]| + 7
    ensures Values(labels, k, o + [c] + rest) == [c] + Values(labels[1..], k - 1, rest)
  {
    var b := o + [c] + rest;
    assert b[|o|] == c && b[|o| + 1..] == rest;
  }

  lemma {:induction false} BodyReads(labels: seq<string>, bytes: string)
    requires |bytes| <= |labels|
    ensures |Body(labels, bytes)| == BodyLength(labels, |bytes|)
    ensures Values(labels, |bytes|, Body(labels, bytes)) == bytes
    decreases |bytes|
  {
    if bytes != "" {
      BodyReads(labels[1..], bytes[1..]);
      OpeningLength(labels[0]);
      OneValue(labels, |bytes|, Opening(labels[0]), bytes[0], Body(labels[1..], bytes[1..]));
      assert bytes == [bytes[0]] + bytes[1..];
    }
  }

  lemma StillEnds(s: string, t: string, e: string)
    requires EndsWith(t, e)
    ensures EndsWith(s + t, e)
  {
    assert (s + t)[|s + t| - |e|..] == t[|t| - |e|..];
  }

  lemma {:induction false} BodyEnds(labels: seq<string>, bytes: string)
    requires |bytes| <= |labels|
    ensures EndsWith(Body(labels, bytes), Ending(labels, |bytes|))
    decreases |bytes|
  {
    if bytes != "" {
      BodyEnds(labels[1..], bytes[1..]);
      StillEnds(Opening(labels[0]) + [bytes[0]], Body(labels[1..], bytes[1..]), Ending(labels[1..], |bytes| - 1));
    }
  }

  lemma Delimiters(key: string, i: nat)
    requires |key| >= 2 && '"' !in key && ',' !in key && i < |key| + 3
    ensures Opening(key)[i] == '"' <==> i == 0 || i == 2
    ensures Opening(key)[i] == ',' <==> i == 1
  {
    assert Opening(key)[3..3 + |key|] == key;
    assert i >= 3 ==> Opening(key)[i] == key[i - 3] && key[i - 3] in key;
  }

  /** No label's opening is the end of another's. */
  lemma OpeningsDiffer(x: string, y: string)
    requires |x| >= 2 && |y| >= 2 && '"' !in x && '"' !in y && ',' !in x && ',' !in y
    requires EndsWith(Opening(y), Opening(x))
    ensures x == y
  {
    var o, p, d := Opening(x), Opening(y), |y| - |x|;
    assert p[d] == p[d..][0] == o[0] && p[d + 1] == p[d..][1] == o[1];
    Delimiters(y, d);
    Delimiters(y, d + 1);
    assert p[3..3 + |y|] == y && o[3..3 + |x|] == x;
  }

  /** Endings of the same text: one is the end of the other. */
  lemma EndingsNest(s: string, t: string, u: string)
    requires EndsWith(s, t) && EndsWith(s, u) && |t| <= |u|
    ensures EndsWith(u, t)
  {
    assert u[|u| - |t|..] == s[|s| - |u|..][|u| - |t|..] == s[|s| - |t|..];
  }

  lemma EndingTold(labels: seq<string>, text: string, j: nat, k: nat)
    requires Telling(labels) && j < k <= |labels| && EndsWith(text, Ending(labels, k))
    ensures !EndsWith(text, Opening(labels[j]))
  {
    if EndsWith(text, Opening(labels[j])) {
      var o := Opening(labels[j]);
      assert o[|o| - 1] == '"' && text[|text| - 1] == text[|text| - |o|..][|o| - 1];
      var e := Ending(labels, k);
      assert text[|text| - 1] == text[|text| - |e|..][|e| - 1];
      assert k < |labels|;
      if |o| <= |e| {
        EndingsNest(text, o, e);
        OpeningsDiffer(labels[j], labels[k]);
      } else {
        EndingsNest(text, e, o);
        OpeningsDiffer(labels[k], labels[j]);
      }
    }
  }

  lemma {:induction false} CountTold(labels: seq<string>, text: string, j: nat, k: nat)
    requires Telling(labels) && j <= k <= |labels| && EndsWith(text, Ending(labels, k))
    ensures ValueCount(labels, text, j) == k
    decreases k - j
  {
    if j < k {
      EndingTold(labels, text, j, k);
      CountTold(labels, text, j + 1, k);
    }
  }

  /** Whatever a text begins with, its values are read back. */
  lemma {:induction false} ReadBack(labels: seq<string>, head: string, bytes: string)
    requires Telling(labels) && |bytes| <= |labels|
    ensures Legible(labels, head + Body(labels, bytes)) == bytes
  {
    var b := Body(labels, bytes);
    var text, e := head + b, Ending(labels, |bytes|);
    BodyReads(labels, bytes);
    BodyEnds(labels, bytes);
    StillEnds(head, b, e);
    assert text[|text| - |b|..] == b;
    CountTold(labels, text, 0, |bytes|);
  }

  lemma OpeningPlain(key: string)
    requires Plain(key)
    ensures NUL !in Opening(key)
  {
  }

  lemma CStrStep(o: string, c: char, rest: string)
    requires NUL !in o
    ensures CStr(o + [c] + rest) == if c == NUL then o else o + [c] + CStr(rest)
  {
    assert o + [c] + rest == o + ([c] + rest);
    CStrAppend(o, [c] + rest);
    assert ([c] + rest)[1..] == rest;
    assert o + ([c] + CStr(rest)) == o + [c] + CStr(rest);
  }

  lemma {:induction false} BodyCut(labels: seq<string>, bytes: string)
    requires Telling(labels) && |bytes| == |labels|
    ensures |CStr(bytes)| <= |labels| && CStr(Body(labels, bytes)) == Body(labels, CStr(bytes))
    decreases |bytes|
  {
    CStrShape(bytes);
    if bytes == "" {
      CStrWhole("\"}");
    } else {
      OpeningPlain(labels[0]);
      CStrStep(Opening(labels[0]), bytes[0], Body(labels[1..], bytes[1..]));
      BodyCut(labels[1..], bytes[1..]);
      assert bytes[0] != NUL ==> CStr(bytes)[1..] == CStr(bytes[1..]);
    }
  }

  // -------------------------------------------------------- the texts printed

  lemma NumberShape(num: int)
    requires 1 <= num <= MAX_ZONES
    ensures |Signed(num)| <= 2 && NUL !in Signed(num)
  {
    DecimalLength(num);
    DecimalDigits(num);
    assert forall c :: c in Decimal(num) ==> IsDigit(c);
  }

  lemma BodyLengths()
    ensures BodyLength(AREA_LABELS, 7) == 104 && BodyLength(ZONE_LABELS, 6) == 91
  {
    var a, z := AREA_LABELS, ZONE_LABELS;
    assert BodyLength(a[7..], 0) == 2 && BodyLength(z[6..], 0) == 2;
    assert BodyLength(a[6..], 1) == 16 && BodyLength(a[5..], 2) == 29 && BodyLength(a[4..], 3) == 48;
    assert BodyLength(z[5..], 1) == 18 && BodyLength(z[4..], 2) == 33 && BodyLength(z[3..], 3) == 52;
  }

  lemma TextShape(labels: seq<string>, head: string, bytes: string)
    requires Telling(labels) && |bytes| == |labels| && NUL !in head
    requires |head| + BodyLength(labels, |labels|) < PAYLOAD_SIZE
    ensures |CStr(bytes)| <= |labels|
    ensures CStr(Cut(PAYLOAD_SIZE - 1, head + Body(labels, bytes))) == head + Body(labels, CStr(bytes))
    ensures Legible(labels, head + Body(labels, CStr(bytes))) == CStr(bytes)
  {
    BodyReads(labels, bytes);
    CutWhole(PAYLOAD_SIZE - 1, head + Body(labels, bytes));
    CStrAppend(head, Body(labels, bytes));
    BodyCut(labels, bytes);
    ReadBack(labels, head, CStr(bytes));
  }

  lemma AreaHeadShape(num: int, name: string)
    requires 1 <= num <= MAX_AREAS && LabelFits(name)
    ensures NUL !in AreaHead(num, name) && |AreaHead(num, name)| <= 37
  {
    NumberShape(num);
    assert NUL !in "{\"num\": " && NUL !in ",\"name\": \"";
  }

  lemma ZoneHeadShape(num: int, area: int, name: string)
    requires 1 <= num <= MAX_ZONES && LabelFits(name) && 1 <= area <= MAX_AREAS
    ensures NUL !in ZoneHead(num, area, name) && |ZoneHead(num, area, name)| <= 48
  {
    NumberShape(num);
    NumberShape(area);
    assert NUL !in "{\"num\": " && NUL !in ",\"area\": " && NUL !in ",\"name\": \"";
  }

  /** No JSON is cut by its buffer; it is published up to its first field that was never set. */
  lemma AreaTextShape(a: Area)
    requires 1 <= a.num <= MAX_AREAS && LabelFits(a.name)
    ensures var seen := CStr(AreaBytes(a.fields));
            && |seen| <= |AREA_LABELS|
            && AreaText(a) == AreaHead(a.num, a.name) + Body(AREA_LABELS, seen)
            && Legible(AREA_LABELS, AreaText(a)) == seen
  {
    AreaHeadShape(a.num, a.name);
    AreaLabelsTell();
    BodyLengths();
    TextShape(AREA_LABELS, AreaHead(a.num, a.name), AreaBytes(a.fields));
  }

  lemma ZoneTextShape(z: Zone)
    requires 1 <= z.num <= MAX_ZONES && LabelFits(z.name) && 1 <= z.area <= MAX_AREAS
    ensures var seen := CStr(ZoneBytes(z.fields, z.bypassed));
            && |seen| <= |ZONE_LABELS|
            && ZoneText(z) == ZoneHead(z.num, z.area, z.name) + Body(ZONE_LABELS, seen)
            && Legible(ZONE_LABELS, ZoneText(z)) == seen
  {
    ZoneHeadShape(z.num, z.area, z.name);
    ZoneLabelsTell();
    BodyLengths();
    TextShape(ZONE_LABELS, ZoneHead(z.num, z.area, z.name), ZoneBytes(z.fields, z.bypassed));
  }

  // ----------------------------------------------------- the texts in full

  lemma Joins(key: string, c: char, rest: string, more: seq<string>)
    requires rest == Concat(more)
    ensures Opening(key) + [c] + rest == Concat([Opening(key), [c]] + more)
  {
    var l := [Opening(key), [c]] + more;
    assert l[1..] == [[c]] + more && l[1..][1..] == more;
    assert Concat(l) == Opening(key) + ([c] + rest);
  }

  function Pieces(labels: seq<string>, bytes: string): seq<string>
    requires |bytes| == |labels|
    decreases |bytes|
  {
    if bytes == "" then ["\"}"] else [Opening(labels[0]), [bytes[0]]] + Pieces(labels[1..], bytes[1..])
  }

  lemma {:induction false} BodyPieces(labels: seq<string>, bytes: string)
    requires |bytes| == |labels|
    ensures Body(labels, bytes) == Concat(Pieces(labels, bytes))
    decreases |bytes|
  {
    if bytes == "" {
      assert ["\"}"][1..] == [] && "\"}" + "" == "\"}";
    } else {
      BodyPieces(labels[1..], bytes[1..]);
      Joins(labels[0], bytes[0], Body(labels[1..], bytes[1..]), Pieces(labels[1..], bytes[1..]));
    }
  }

  /** Each key of an area's JSON with the field that stands under it. */
  function AreaSpelled(f: AreaFields): seq<string> {
    [
      "\",\"status\": \"", [f.status],
      "\",\"memory\": \"", [f.memory],
      "\",\"trouble\": \"", [f.trouble],
      "\",\"ready\": \"", [f.ready],
      "\",\"programming\": \"", [f.programming],
      "\",\"alarm\": \"", [f.alarm],
      "\",\"strobe\": \"", [f.strobe],
      "\"}"]
  }

  function ZoneSpelled(f: ZoneFields, bypassed: char): seq<string> {
    [
      "\",\"status\": \"", [f.status],
      "\",\"alarm\": \"", [f.alarm],
      "\",\"fire\": \"", [f.fire],
      "\",\"supervision\": \"", [f.supervision],
      "\",\"battery\": \"", [f.battery],
      "\",\"bypassed\": \"", [bypassed],
      "\"}"]
  }

  lemma PiecesAt(labels: seq<string>, bytes: string, i: nat)
    requires i < |bytes| == |labels|
    ensures Pieces(labels[i..], bytes[i..])
         == [Opening(labels[i]), [bytes[i]]] + Pieces(labels[i + 1..], bytes[i + 1..])
  {
    assert labels[i..][1..] == labels[i + 1..] && bytes[i..][1..] == bytes[i + 1..];
  }

  lemma AreaOpenings()
    ensures forall i :: 0 <= i < 4 ==> Opening(AREA_LABELS[i]) == AreaSpelled(ZERO_AREA)[2 * i]
  {
    assert Opening("status") == "\",\"status\": \"";
    assert Opening("memory") == "\",\"memory\": \"";
    assert Opening("trouble") == "\",\"trouble\": \"";
    assert Opening("ready") == "\",\"ready\": \"";
  }

  lemma MoreAreaOpenings()
    ensures forall i :: 4 <= i < 7 ==> Opening(AREA_LABELS[i]) == AreaSpelled(ZERO_AREA)[2 * i]
  {
    assert Opening("programming") == "\",\"programming\": \"";
    assert Opening("alarm") == "\",\"alarm\": \"";
    assert Opening("strobe") == "\",\"strobe\": \"";
  }

  lemma ZoneOpenings()
    ensures forall i :: 0 <= i < 6 ==> Opening(ZONE_LABELS[i]) == ZoneSpelled(ZERO_ZONE, OK)[2 * i]
  {
    assert Opening("status") == "\",\"status\": \"";
    assert Opening("alarm") == "\",\"alarm\": \"";
    assert Opening("fire") == "\",\"fire\": \"";
    assert Opening("supervision") == "\",\"supervision\": \"";
    assert Opening("battery") == "\",\"battery\": \"";
    assert Opening("bypassed") == "\",\"bypassed\": \"";
  }

  lemma AreaSpelledAt(f: AreaFields, i: nat)
    requires i < 7
    ensures AreaSpelled(f)[2 * i..] == [Opening(AREA_LABELS[i]), [AreaBytes(f)[i]]] + AreaSpelled(f)[2 * i + 2..]
  {
    AreaOpenings();
    MoreAreaOpenings();
    assert AreaSpelled(f)[2 * i] == AreaSpelled(ZERO_AREA)[2 * i];
    assert AreaSpelled(f)[2 * i + 1] == [AreaBytes(f)[i]];
  }

  lemma {:induction false} AreaPieces(f: AreaFields, i: nat)
    requires i <= 7
    ensures Pieces(AREA_LABELS[i..], AreaBytes(f)[i..]) == AreaSpelled(f)[2 * i..]
    decreases 7 - i
  {
    if i < 7 {
      AreaPieces(f, i + 1);
      AreaSpelledAt(f, i);
      PiecesAt(AREA_LABELS, AreaBytes(f), i);
    }
  }

  lemma ZoneSpelledAt(f: ZoneFields, bypassed: char, i: nat)
    requires i < 6
    ensures ZoneSpelled(f, bypassed)[2 * i..]
         == [Opening(ZONE_LABELS[i]), [ZoneBytes(f, bypassed)[i]]] + ZoneSpelled(f, bypassed)[2 * i + 2..]
  {
    ZoneOpenings();
    assert ZoneSpelled(f, bypassed)[2 * i] == ZoneSpelled(ZERO_ZONE, OK)[2 * i];
    assert ZoneSpelled(f, bypassed)[2 * i + 1] == [ZoneBytes(f, bypassed)[i]];
  }

  lemma {:induction false} ZonePieces(f: ZoneFields, bypassed: char, i: nat)
    requires i <= 6
    ensures Pieces(ZONE_LABELS[i..], ZoneBytes(f, bypassed)[i..]) == ZoneSpelled(f, bypassed)[2 * i..]
    decreases 6 - i
  {
    if i < 6 {
      ZonePieces(f, bypassed, i + 1);
      ZoneSpelledAt(f, bypassed, i);
      PiecesAt(ZONE_LABELS, ZoneBytes(f, bypassed), i);
    }
  }

  lemma AreaFilledWhole(f: AreaFields)
    requires AreaFilled(f) && f.strobe != NUL
    ensures CStr(AreaBytes(f)) == AreaBytes(f)
  {
    AreaLegible(f);
    CStrShape(AreaBytes(f));
  }

  lemma ZoneFilledWhole(f: ZoneFields, bypassed: char)
    requires ZoneFilled(f) && f.battery != NUL && bypassed != NUL
    ensures CStr(ZoneBytes(f, bypassed)) == ZoneBytes(f, bypassed)
  {
    ZoneLegible(f, bypassed);
    CStrShape(ZoneBytes(f, bypassed));
  }

  lemma AreaWhole(a: Area)
    requires 1 <= a.num <= MAX_AREAS && LabelFits(a.name) && AreaFilled(a.fields) && a.fields.strobe != NUL
    ensures AreaText(a) == AreaHead(a.num, a.name) + Body(AREA_LABELS, AreaBytes(a.fields))
  {
    AreaFilledWhole(a.fields);
    AreaHeadShape(a.num, a.name);
    AreaLabelsTell();
    BodyLengths();
    TextWhole(AREA_LABELS, AreaHead(a.num, a.name), AreaBytes(a.fields));
  }

  lemma ZoneWhole(z: Zone)
    requires 1 <= z.num <= MAX_ZONES && 1 <= z.area <= MAX_AREAS && LabelFits(z.name)
    requires ZoneFilled(z.fields) && z.fields.battery != NUL && z.bypassed != NUL
    ensures ZoneText(z) == ZoneHead(z.num, z.area, z.name) + Body(ZONE_LABELS, ZoneBytes(z.fields, z.bypassed))
  {
    ZoneFilledWhole(z.fields, z.bypassed);
    ZoneHeadShape(z.num, z.area, z.name);
    ZoneLabelsTell();
    BodyLengths();
    TextWhole(ZONE_LABELS, ZoneHead(z.num, z.area, z.name), ZoneBytes(z.fields, z.bypassed));
  }

  lemma TextWhole(labels: seq<string>, head: string, bytes: string)
    requires Telling(labels) && |bytes| == |labels| && NUL !in head && CStr(bytes) == bytes
    requires |head| + BodyLength(labels, |labels|) < PAYLOAD_SIZE
    ensures CStr(Cut(PAYLOAD_SIZE - 1, head + Body(labels, bytes))) == head + Body(labels, bytes)
  {
    TextShape(labels, head, bytes);
  }

  lemma AreaBodySpelled(f: AreaFields)
    ensures Body(AREA_LABELS, AreaBytes(f)) == Concat(AreaSpelled(f))
  {
    AreaPieces(f, 0);
    BodyPieces(AREA_LABELS, AreaBytes(f));
    var b := AreaBytes(f);
    assert AREA_LABELS[0..] == AREA_LABELS && b[0..] == b && AreaSpelled(f)[0..] == AreaSpelled(f);
  }

  lemma ZoneBodySpelled(f: ZoneFields, bypassed: char)
    ensures Body(ZONE_LABELS, ZoneBytes(f, bypassed)) == Concat(ZoneSpelled(f, bypassed))
  {
    var b := ZoneBytes(f, bypassed);
    ZonePieces(f, bypassed, 0);
    BodyPieces(ZONE_LABELS, b);
    assert ZONE_LABELS[0..] == ZONE_LABELS && b[0..] == b && ZoneSpelled(f, bypassed)[0..] == ZoneSpelled(f, bypassed);
  }

  /** An area's whole JSON, written out. */
  lemma AreaJsonSpelled(a: Area)
    requires 1 <= a.num <= MAX_AREAS && LabelFits(a.name) && AreaFilled(a.fields) && a.fields.strobe != NUL
    ensures AreaText(a) == "{\"num\": " + Signed(a.num) + ",\"name\": \"" + a.name + Concat(AreaSpelled(a.fields))
  {
    AreaWhole(a);
    AreaBodySpelled(a.fields);
  }

  /** A zone's. */
  lemma ZoneJsonSpelled(z: Zone)
    requires 1 <= z.num <= MAX_ZONES && 1 <= z.area <= MAX_AREAS && LabelFits(z.name)
    requires ZoneFilled(z.fields) && z.fields.battery != NUL && z.bypassed != NUL
    ensures ZoneText(z)
         == "{\"num\": " + Signed(z.num) + ",\"area\": " + Signed(z.area) + ",\"name\": \"" + z.name
            + Concat(ZoneSpelled(z.fields, z.bypassed))
  {
    ZoneWhole(z);
    ZoneBodySpelled(z.fields, z.bypassed);
  }

  // ------------------------------------------------------ when it tells it all

  lemma {:induction false} FirstNul(s: string, n: nat)
    requires n <= |s|
    ensures |CStr(s)| < n <==> NUL in s[..n]
  {
    if n > 0 {
      assert s[..n] == [s[0]] + s[1..][..n - 1];
      FirstNul(s[1..], n - 1);
    }
  }

  /** Two texts that agree up to a NUL at `k` or to their end are the same C string. */
  lemma SameUpTo(s: string, t: string, k: nat)
    requires k <= |s| == |t| && s[..k] == t[..k] && (k < |s| ==> s[k] == NUL && t[k] == NUL)
    ensures CStr(s) == CStr(t)
    decreases k
  {
    if k > 0 {
      assert s[0] == s[..k][0] == t[..k][0] == t[0];
      assert s[1..][..k - 1] == s[..k][1..] && t[1..][..k - 1] == t[..k][1..];
      SameUpTo(s[1..], t[1..], k - 1);
    }
  }

  lemma SameSoFar(s: string, t: string, n: nat)
    requires |s| == |t| && CStr(s) == CStr(t) && n < |s| && n <= |CStr(s)|
    ensures s[..n + 1] == t[..n + 1]
  {
    CStrShape(s);
    CStrShape(t);
    var c := CStr(s);
    assert s[..|c|] == c == t[..|c|];
    assert s[..n] == c[..n] == t[..n];
    assert |c| > n ==> s[n] == c[n] == t[n];
  }

  /** Every field but the last, the strobe, has been set. */
  predicate AreaFilled(f: AreaFields) {
    && f.status != NUL && f.memory != NUL && f.trouble != NUL && f.ready != NUL
    && f.programming != NUL && f.alarm != NUL
  }

  /** Every field but the last, the battery, has been set. */
  predicate ZoneFilled(f: ZoneFields) {
    f.status != NUL && f.alarm != NUL && f.fire != NUL && f.supervision != NUL
  }

  lemma AreaLegible(f: AreaFields)
    ensures var n := |CStr(AreaBytes(f))|;
            (n >= 6 <==> AreaFilled(f)) && (n == 7 <==> AreaFilled(f) && f.strobe != NUL) && (f.ready == NUL ==> n <= 3)
  {
    var s := AreaBytes(f);
    FirstNul(s, 6);
    FirstNul(s, 7);
    FirstNul(s, 4);
    CStrShape(s);
    assert s[..6] == [f.status, f.memory, f.trouble, f.ready, f.programming, f.alarm] && s[..7] == s;
    assert s[..4] == [f.status, f.memory, f.trouble, f.ready];
  }

  lemma ZoneLegible(f: ZoneFields, bypassed: char)
    ensures var n := |CStr(ZoneBytes(f, bypassed))|;
            (n >= 4 <==> ZoneFilled(f)) && (n >= 5 <==> ZoneFilled(f) && f.battery != NUL)
            && (n == 6 <==> n >= 5 && bypassed != NUL)
  {
    var s := ZoneBytes(f, bypassed);
    FirstNul(s, 4);
    FirstNul(s, 5);
    FirstNul(s, 6);
    CStrShape(s);
    assert s[..4] == [f.status, f.alarm, f.fire, f.supervision] && s[..6] == s;
    assert s[..5] == [f.status, f.alarm, f.fire, f.supervision, f.battery];
  }

  /** The legible bytes of an area leave one choice of fields exactly when all but the last field have been set. */
  lemma AreaBytesTell(f: AreaFields)
    ensures (forall g :: CStr(AreaBytes(g)) == CStr(AreaBytes(f)) ==> g == f) <==> AreaFilled(f)
  {
    var s := AreaBytes(f);
    AreaLegible(f);
    CStrShape(s);
    if !AreaFilled(f) {
      var g := f.(strobe := if f.strobe == OK then TROUBLE else OK);
      SameUpTo(s, AreaBytes(g), |CStr(s)|);
      assert g != f;
    } else {
      forall g | CStr(AreaBytes(g)) == CStr(s) ensures g == f {
        var t := AreaBytes(g);
        SameSoFar(s, t, 6);
        assert s == s[..7] == t[..7] == t;
        assert s[0] == t[0] && s[1] == t[1] && s[2] == t[2] && s[3] == t[3] && s[4] == t[4] && s[5] == t[5]
            && s[6] == t[6];
      }
    }
  }

  /** Likewise for a zone, whose `bypassed` never changes. */
  lemma ZoneBytesTell(f: ZoneFields, bypassed: char)
    ensures (forall g :: CStr(ZoneBytes(g, bypassed)) == CStr(ZoneBytes(f, bypassed)) ==> g == f) <==> ZoneFilled(f)
  {
    var s := ZoneBytes(f, bypassed);
    ZoneLegible(f, bypassed);
    CStrShape(s);
    if !ZoneFilled(f) {
      var g := f.(battery := if f.battery == OK then TROUBLE else OK);
      SameUpTo(s, ZoneBytes(g, bypassed), |CStr(s)|);
      assert g != f;
    } else {
      forall g | CStr(ZoneBytes(g, bypassed)) == CStr(s) ensures g == f {
        var t := ZoneBytes(g, bypassed);
        SameSoFar(s, t, 4);
        assert s[..5][0] == t[..5][0] && s[..5][1] == t[..5][1] && s[..5][2] == t[..5][2] && s[..5][3] == t[..5][3]
            && s[..5][4] == t[..5][4];
      }
    }
  }
}
