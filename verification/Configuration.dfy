/**
 The configuration path: the launcher prints the areas and zones of its file as command
 line arguments (start_daemon.py:54-76) and the daemon parses them into the manager's
 tables (src/main.c:116-223, 251-261).
 */
module Configuration {
  import opened CText
  import opened Records
  import opened PanelManager
  import opened Sequences

  // ---------------------------------------------------------------- printing

  /** An area of the configuration file; either key may be missing. */
  datatype Entry = Entry(num: Option<int>, zones: Option<seq<int>>)

  /** `",".join(str(z) for z in zones)`. */
  function Joined(zones: seq<int>): string
    decreases |zones|
  {
    if zones == [] then ""
    else if |zones| == 1 then Signed(zones[0])
    else Signed(zones[0]) + "," + Joined(zones[1..])
  }

  /** The words the shell makes of the text printed for one area: an empty zone list leaves no word. */
  function Words(num: int, zones: seq<int>): seq<string> {
    ["-a", Signed(num), "-z"] + if zones == [] then [] else [Joined(zones)]
  }

  function AllWords(entries: seq<Entry>): Option<seq<string>>
    decreases |entries|
  {
    if entries == [] then Some([])
    else if entries[0].num == None || entries[0].zones == None then None
    else
      match AllWords(entries[1..])
      case None => None
      case Some(rest) => Some(Words(entries[0].num.value, entries[0].zones.value) + rest)
  }

  /** What follows the areas: the user code and the status period, where the file has them. */
  function Trailer(code: Option<string>, period: Option<int>): seq<string> {
    (if code != None && code.value != "" then ["-u", code.value] else [])
    + (if period != None then ["-S", Signed(period.value)] else [])
  }

  function After(words: seq<string>, rest: Option<seq<string>>): Option<seq<string>> {
    match rest case None => None case Some(r) => Some(words + r)
  }

  lemma NothingPrinted(entries: seq<Entry>)
    ensures After([], AllWords(entries)) == AllWords(entries)
  {
    var r := AllWords(entries);
    assert r.Some? ==> [] + r.value == r.value;
  }

  lemma PrintsOne(before: seq<string>, words: seq<string>, e: Entry, rest: seq<Entry>)
    requires e.num.Some? && e.zones.Some? && words == before + Words(e.num.value, e.zones.value)
    ensures After(before, AllWords([e] + rest)) == After(words, AllWords(rest))
  {
    assert ([e] + rest)[1..] == rest;
    var r, w := AllWords(rest), Words(e.num.value, e.zones.value);
    if r.Some? {
      Regroup(before, w, r.value);
    }
  }

  /** The launcher's loop over the areas; `None` when it gives up. */
  method PrintAreas(areas: seq<Entry>) returns (args: Option<seq<string>>)
    ensures args == AllWords(areas)
  {
    var words: seq<string> := [];
    var i := 0;
    assert areas[0..] == areas;
    NothingPrinted(areas);
    while i < |areas|
      invariant 0 <= i <= |areas|
      invariant AllWords(areas) == After(words, AllWords(areas[i..]))
      decreases |areas| - i
    {
      var area := areas[i];
      assert areas[i..] == [area] + areas[i + 1..];
      ghost var before := words;
      if area.num == None {
        return None;
      }
      words := words + ["-a", Signed(area.num.value)];
      if area.zones == None {
        return None;
      }
      words := words + (["-z"] + if area.zones.value == [] then [] else [Joined(area.zones.value)]);
      PrintsOne(before, words, area, areas[i + 1..]);
      i := i + 1;
    }
    assert words + [] == words;
    return Some(words);
  }

  /** The launcher from the areas on. */
  method PrintArguments(areas: Option<seq<Entry>>, code: Option<string>, period: Option<int>)
    returns (args: Option<seq<string>>)
    ensures args == if areas == None then None
                    else match AllWords(areas.value) case None => None case Some(w) => Some(w + Trailer(code, period))
  {
    if areas == None {
      return None;
    }
    args := PrintAreas(areas.value);
    if args == None {
      return None;
    }
    var words := args.value;
    if code != None && code.value != "" {
      words := words + ["-u", code.value];
    }
    if period != None {
      words := words + ["-S", Signed(period.value)];
    }
    assert words == args.value + Trailer(code, period);
    return Some(words);
  }

  // ----------------------------------------------------------------- parsing

  /** The options of areas, zones, user code and status period. */
  datatype Opt = AreaOpt(arg: string) | ZonesOpt(arg: string) | CodeOpt(arg: string) | PeriodOpt(arg: string)

  predicate TakesWord(word: string) {
    word == "-a" || word == "-z" || word == "-u" || word == "-S"
  }

  function OptOf(word: string, arg: string): Opt
    requires TakesWord(word)
  {
    if word == "-a" then AreaOpt(arg) else if word == "-z" then ZonesOpt(arg)
    else if word == "-u" then CodeOpt(arg) else PeriodOpt(arg)
  }

  /** `getopt` on the words the launcher prints: an option takes the next word, whatever it is, if there is one. */
  function Getopt(words: seq<string>): seq<Opt>
    decreases |words|
  {
    if words == [] then []
    else if TakesWord(words[0]) then
      if |words| == 1 then [] else [OptOf(words[0], words[1])] + Getopt(words[2..])
    else Getopt(words[1..])
  }

  function TokenEnd(s: string): nat
    decreases |s|
    ensures TokenEnd(s) <= |s|
  {
    if s == "" || s[0] == ',' then 0 else 1 + TokenEnd(s[1..])
  }

  /** The tokens `strtok` finds between commas; empty ones are skipped. */
  function Tokens(s: string): seq<string>
    decreases |s|
  {
    if s == "" then []
    else if s[0] == ',' then Tokens(s[1..])
    else [s[..TokenEnd(s)]] + Tokens(s[TokenEnd(s)..])
  }

  /** What the other two options set (src/main.c:71-72, 211-222). */
  datatype Settings = Settings(code: Option<string>, period: int)

  const DEFAULTS: Settings := Settings(None, 60)
  const SHORTEST_PERIOD: int := 60

  /** The option loop's variables. */
  datatype Progress = Progress(area: int, areaSet: bool, zonesSet: bool, settings: Settings, tables: Tables)

  datatype Outcome = Outcome(rc: int, settings: Settings, tables: Tables)

  function WithArea(t: Tables, n: int): Tables {
    t.(areas := t.areas[n := NewArea(n)])
  }

  function WithZone(t: Tables, z: int, area: int): Tables {
    t.(zones := t.zones[z := NewZone(z, area)])
  }

  /** Registers zones until one is out of range; whether none was. */
  function SetZones(tokens: seq<string>, p: Progress): (bool, Progress)
    decreases |tokens|
  {
    if tokens == [] then (true, p)
    else
      var z := ReadInt(tokens[0]);
      if z <= 0 || z > MAX_ZONES then (false, p)
      else SetZones(tokens[1..], p.(zonesSet := true, tables := WithZone(p.tables, z, p.area)))
  }

  function Parse(opts: seq<Opt>, p: Progress): Outcome
    decreases |opts|
  {
    if opts == [] then Outcome(if !p.areaSet then -5 else if !p.zonesSet then -6 else 0, p.settings, p.tables)
    else
      match opts[0]
      case AreaOpt(arg) =>
        var n := ReadInt(arg);
        if n <= 0 || n > MAX_AREAS then Outcome(-2, p.settings, p.tables)
        else
          Parse(opts[1..], p.(area := n, areaSet := true, tables := WithArea(p.tables, n)))
      case ZonesOpt(arg) =>
        if p.area == 0 then Outcome(-3, p.settings, p.tables)
        else
          var r := SetZones(Tokens(arg), p);
          if !r.0 then Outcome(-4, p.settings, r.1.tables) else Parse(opts[1..], r.1.(area := 0))
      case CodeOpt(arg) => Parse(opts[1..], p.(settings := p.settings.(code := Some(arg))))
      case PeriodOpt(arg) =>
        var q := p.(settings := p.settings.(period := ReadInt(arg)));
        if q.settings.period < SHORTEST_PERIOD then Outcome(-9, q.settings, q.tables) else Parse(opts[1..], q)
  }

  const NO_TABLES: Tables := Tables(map[], map[])
  const START: Progress := Progress(0, false, false, DEFAULTS, NO_TABLES)

  function ParseAll(words: seq<string>): Outcome {
    Parse(Getopt(words), START)
  }

  /** One call of `strtok`: the next token at or after `p`, and where to look for the one after. */
  method NextToken(s: string, p: nat) returns (found: bool, token: string, q: nat)
    requires p <= |s|
    ensures q <= |s|
    ensures found ==> q > p && Tokens(s[p..]) == [token] + Tokens(s[q..])
    ensures !found ==> Tokens(s[p..]) == []
  {
    var start := SkipCommas(s, p);
    if start == |s| {
      return false, "", start;
    }
    var end := FindComma(s, start);
    ghost var rest := s[start..];
    assert rest[..end - start] == s[start..end] && rest[end - start..] == s[end..];
    return true, s[start..end], end;
  }

  method SkipCommas(s: string, p: nat) returns (start: nat)
    requires p <= |s|
    ensures p <= start <= |s| && Tokens(s[p..]) == Tokens(s[start..])
    ensures start < |s| ==> s[start] != ','
  {
    start := p;
    while start < |s| && s[start] == ','
      invariant p <= start <= |s|
      invariant Tokens(s[p..]) == Tokens(s[start..])
      decreases |s| - start
    {
      assert s[start..][1..] == s[start + 1..];
      start := start + 1;
    }
  }

  method FindComma(s: string, start: nat) returns (end: nat)
    requires start < |s| && s[start] != ','
    ensures start < end <= |s| && TokenEnd(s[start..]) == end - start
  {
    end := start;
    while end < |s| && s[end] != ','
      invariant start <= end <= |s|
      invariant TokenEnd(s[start..]) == end - start + TokenEnd(s[end..])
      invariant end == start ==> s[end] != ','
      decreases |s| - end
    {
      assert s[end..][1..] == s[end + 1..];
      end := end + 1;
    }
  }

  /** The loop over one `-z` argument. */
  method RegisterZones(m: Manager, arg: string, area: int, zonesSet: bool, ghost p: Progress)
    returns (ok: bool, anyZone: bool)
    requires m.Valid() && area in m.tables.areas
    requires p.area == area && p.zonesSet == zonesSet && p.tables == m.tables
    modifies m`Repr, m`owner, m`tables, m.Repr
    ensures m.Valid() && fresh(m.Repr - old(m.Repr))
    ensures (ok, p.(zonesSet := anyZone, tables := m.tables)) == SetZones(Tokens(arg), p)
  {
    ghost var total := SetZones(Tokens(arg), p);
    anyZone := zonesSet;
    var found, zone, pos := NextToken(arg, 0);
    assert arg[0..] == arg;
    while found
      invariant m.Valid() && fresh(m.Repr - old(m.Repr)) && area in m.tables.areas
      invariant pos <= |arg|
      invariant total
             == SetZones(if found then [zone] + Tokens(arg[pos..]) else [], p.(zonesSet := anyZone, tables := m.tables))
      decreases found, |arg| - pos
    {
      var z := ReadInt(zone);
      assert ([zone] + Tokens(arg[pos..]))[1..] == Tokens(arg[pos..]);
      if z <= 0 || z > MAX_ZONES {
        return false, anyZone;
      }
      m.SetZone(area, z);
      anyZone := true;
      found, zone, pos := NextToken(arg, pos);
    }
    return true, anyZone;
  }

  /** The option loop of the daemon and the checks after it. */
  method ParseOptions(m: Manager, opts: seq<Opt>) returns (rc: int, settings: Settings)
    requires m.Valid()
    modifies m`Repr, m`owner, m`tables, m.Repr
    ensures m.Valid() && fresh(m.Repr - old(m.Repr))
    ensures Outcome(rc, settings, m.tables) == Parse(opts, Progress(0, false, false, DEFAULTS, old(m.tables)))
  {
    var areanum, areaset, zonesset := 0, false, false;
    settings := DEFAULTS;
    ghost var total := Parse(opts, Progress(0, false, false, settings, m.tables));
    var i := 0;
    while i < |opts|
      invariant 0 <= i <= |opts|
      invariant m.Valid() && fresh(m.Repr - old(m.Repr))
      invariant areanum != 0 ==> areanum in m.tables.areas
      invariant total == Parse(opts[i..], Progress(areanum, areaset, zonesset, settings, m.tables))
      decreases |opts| - i
    {
      assert opts[i..][1..] == opts[i + 1..];
      match opts[i] {
        case AreaOpt(arg) =>
          areanum := ReadInt(arg);
          if areanum <= 0 || areanum > MAX_AREAS {
            return -2, settings;
          }
          m.SetArea(areanum);
          areaset := true;
        case ZonesOpt(arg) =>
          if areanum == 0 {
            return -3, settings;
          }
          var ok;
          ghost var p := Progress(areanum, areaset, zonesset, settings, m.tables);
          ok, zonesset := RegisterZones(m, arg, areanum, zonesset, p);
          if !ok {
            return -4, settings;
          }
          areanum := 0;
        case CodeOpt(arg) =>
          settings := settings.(code := Some(arg));
        case PeriodOpt(arg) =>
          settings := settings.(period := ReadInt(arg));
          if settings.period < SHORTEST_PERIOD {
            return -9, settings;
          }
      }
      i := i + 1;
    }
    if !areaset {
      return -5, settings;
    }
    if !zonesset {
      return -6, settings;
    }
    return 0, settings;
  }

  // ------------------------------------------------- what parsing establishes

  lemma {:induction false} SetZonesKeeps(tokens: seq<string>, p: Progress)
    requires Initial(p.tables) && p.area in p.tables.areas
    ensures Initial(SetZones(tokens, p).1.tables)
    ensures SetZones(tokens, p).1.tables.areas == p.tables.areas
    decreases |tokens|
  {
    if tokens != [] {
      var z := ReadInt(tokens[0]);
      if 0 < z <= MAX_ZONES {
        SetZonesKeeps(tokens[1..],
          p.(zonesSet := true, tables := WithZone(p.tables, z, p.area)));
      }
    }
  }

  lemma {:induction false} ParseKeeps(opts: seq<Opt>, p: Progress)
    requires Initial(p.tables) && (p.area != 0 ==> p.area in p.tables.areas)
    ensures Initial(Parse(opts, p).tables)
    decreases |opts|
  {
    if opts != [] {
      match opts[0] {
        case AreaOpt(arg) =>
          var n := ReadInt(arg);
          if 0 < n <= MAX_AREAS {
            ParseKeeps(opts[1..],
              p.(area := n, areaSet := true, tables := WithArea(p.tables, n)));
          }
        case ZonesOpt(arg) =>
          if p.area != 0 {
            SetZonesKeeps(Tokens(arg), p);
            var r := SetZones(Tokens(arg), p);
            if r.0 {
              ParseKeeps(opts[1..], r.1.(area := 0));
            }
          }
        case CodeOpt(arg) => ParseKeeps(opts[1..], p.(settings := p.settings.(code := Some(arg))));
        case PeriodOpt(arg) =>
          var q := p.(settings := p.settings.(period := ReadInt(arg)));
          if q.settings.period >= SHORTEST_PERIOD {
            ParseKeeps(opts[1..], q);
          }
      }
    }
  }

  /**
   Whatever options `getopt` finds, in whatever form they were given, every zone configured
   belongs to an area configured, and all records are fresh.
   */
  lemma AnyOptions(opts: seq<Opt>)
    ensures Initial(Parse(opts, START).tables)
  {
    ParseKeeps(opts, START);
  }

  // -------------------------------------------------------------- round trip

  predicate InBounds(e: Entry) {
    && e.num != None && 1 <= e.num.value <= MAX_AREAS
    && e.zones != None
    && forall z :: z in e.zones.value ==> 1 <= z <= MAX_ZONES
  }

  /** The area of the last entry that lists zone `z`. */
  function LastListing(entries: seq<Entry>, z: int): Option<int>
    decreases |entries|
  {
    if entries == [] then None
    else
      var e := entries[|entries| - 1];
      if e.zones != None && z in e.zones.value then e.num
      else LastListing(entries[..|entries| - 1], z)
  }

  /** The tables hold fresh records of exactly the entries' areas and zones, each zone under its last listing. */
  ghost predicate Configured(entries: seq<Entry>, t: Tables) {
    && (forall n :: n in t.areas <==> exists e :: e in entries && e.num == Some(n))
    && (forall n :: n in t.areas ==> t.areas[n] == NewArea(n))
    && (forall z :: z in t.zones <==> LastListing(entries, z) != None)
    && (forall z :: z in t.zones ==> t.zones[z] == NewZone(z, LastListing(entries, z).value))
  }

  function ZonesSet(zones: seq<int>, n: int, t: Tables): Tables
    decreases |zones|
  {
    if zones == [] then t
    else ZonesSet(zones[1..], n, WithZone(t, zones[0], n))
  }

  function EntrySet(e: Entry, t: Tables): Tables
    requires InBounds(e)
  {
    ZonesSet(e.zones.value, e.num.value, WithArea(t, e.num.value))
  }

  lemma {:induction false} TokenEndAt(d: string, rest: string)
    requires ',' !in d && (rest == "" || rest[0] == ',')
    ensures TokenEnd(d + rest) == |d|
    decreases |d|
  {
    if d == "" {
      assert d + rest == rest;
    } else {
      assert (d + rest)[1..] == d[1..] + rest && d[0] in d;
      TokenEndAt(d[1..], rest);
    }
  }

  lemma {:induction false} FirstToken(d: string, rest: string)
    requires d != "" && ',' !in d && (rest == "" || rest[0] == ',')
    ensures Tokens(d + rest) == [d] + Tokens(rest)
  {
    TokenEndAt(d, rest);
    var s := d + rest;
    assert s[0] == d[0] && d[0] in d;
    assert s[..|d|] == d && s[|d|..] == rest;
  }

  lemma SignedPlain(n: int)
    ensures Signed(n) != "" && ',' !in Signed(n)
  {
    DecimalDigits(if n < 0 then -n else n);
    assert forall c :: c in Decimal(if n < 0 then -n else n) ==> IsDigit(c);
  }

  function EachPrinted(zones: seq<int>): seq<string>
    decreases |zones|
  {
    if zones == [] then [] else [Signed(zones[0])] + EachPrinted(zones[1..])
  }

  lemma {:induction false} TokensOfJoined(zones: seq<int>)
    ensures Tokens(Joined(zones)) == EachPrinted(zones)
    decreases |zones|
  {
    if zones != [] {
      var z, more := zones[0], zones[1..];
      TokensOfJoined(more);
      SignedPlain(z);
      if more == [] {
        FirstToken(Signed(z), "");
        assert Joined(zones) == Signed(z) + "";
      } else {
        FirstToken(Signed(z), "," + Joined(more));
        assert Joined(zones) == Signed(z) + ("," + Joined(more));
        assert ("," + Joined(more))[1..] == Joined(more);
      }
    }
  }

  lemma {:induction false} PrintedZonesSet(zones: seq<int>, p: Progress)
    requires forall z :: z in zones ==> 1 <= z <= MAX_ZONES
    ensures SetZones(EachPrinted(zones), p)
         == (true, p.(zonesSet := p.zonesSet || zones != [], tables := ZonesSet(zones, p.area, p.tables)))
    decreases |zones|
  {
    if zones != [] {
      var z, more := zones[0], zones[1..];
      assert z in zones && forall y :: y in more ==> y in zones;
      DecimalRoundTrip(z);
      assert EachPrinted(zones)[1..] == EachPrinted(more);
      PrintedZonesSet(more, p.(zonesSet := true, tables := WithZone(p.tables, z, p.area)));
    }
  }

  /** The daemon finds in a printed zone list exactly the zones printed, and sets each of them. */
  lemma ZonesReadBack(zones: seq<int>, p: Progress)
    requires forall z :: z in zones ==> 1 <= z <= MAX_ZONES
    ensures SetZones(Tokens(Joined(zones)), p)
         == (true, p.(zonesSet := p.zonesSet || zones != [], tables := ZonesSet(zones, p.area, p.tables)))
  {
    TokensOfJoined(zones);
    PrintedZonesSet(zones, p);
  }

  lemma {:induction false} ZonesSetHolds(zones: seq<int>, n: int, t: Tables)
    ensures var u := ZonesSet(zones, n, t);
            && u.areas == t.areas
            && (forall z :: z in u.zones <==> z in zones || z in t.zones)
            && (forall z :: z in u.zones ==> u.zones[z] == if z in zones then NewZone(z, n) else t.zones[z])
    decreases |zones|
  {
    if zones != [] {
      ZonesSetHolds(zones[1..], n, WithZone(t, zones[0], n));
    }
  }

  lemma NextConfigured(entries: seq<Entry>, e: Entry, t: Tables)
    requires Configured(entries, t) && InBounds(e)
    ensures Configured(entries + [e], EntrySet(e, t))
  {
    var all, u := entries + [e], EntrySet(e, t);
    assert all[..|all| - 1] == entries && all[|all| - 1] == e;
    ZonesSetHolds(e.zones.value, e.num.value, WithArea(t, e.num.value));
    forall n ensures n in u.areas <==> exists x :: x in all && x.num == Some(n) {
      if n == e.num.value {
        assert e in all;
      } else if n in t.areas {
        var x :| x in entries && x.num == Some(n);
        assert x in all;
      }
    }
  }

  lemma PrintedWords(e: Entry, rest: seq<string>)
    requires InBounds(e) && e.zones.value != []
    ensures var n, zones := e.num.value, e.zones.value;
            Getopt(Words(n, zones) + rest) == [AreaOpt(Decimal(n)), ZonesOpt(Joined(zones))] + Getopt(rest)
  {
    var n, zones := e.num.value, e.zones.value;
    var w := Words(n, zones) + rest;
    assert w == ["-a", Decimal(n)] + (["-z", Joined(zones)] + rest);
    var v := ["-z", Joined(zones)] + rest;
    assert w[2..] == v && v[2..] == rest;
    assert [AreaOpt(Decimal(n))] + ([ZonesOpt(Joined(zones))] + Getopt(rest))
        == [AreaOpt(Decimal(n)), ZonesOpt(Joined(zones))] + Getopt(rest);
  }

  /** Parsing one printed entry sets it, and leaves the loop ready for the next. */
  lemma {:induction false} ParsesEntry(e: Entry, rest: seq<Opt>, p: Progress)
    requires InBounds(e) && e.zones.value != []
    ensures Parse([AreaOpt(Decimal(e.num.value)), ZonesOpt(Joined(e.zones.value))] + rest, p)
         == Parse(rest, Progress(0, true, true, p.settings, EntrySet(e, p.tables)))
  {
    var n, zones := e.num.value, e.zones.value;
    var opts := [AreaOpt(Decimal(n)), ZonesOpt(Joined(zones))] + rest;
    DecimalRoundTrip(n);
    var q := p.(area := n, areaSet := true, tables := WithArea(p.tables, n));
    assert opts[1..] == [ZonesOpt(Joined(zones))] + rest && opts[1..][1..] == rest;
    ZonesReadBack(zones, q);
  }

  lemma FirstEntryParses(e: Entry, rest: seq<string>, p: Progress)
    requires InBounds(e) && e.zones.value != []
    ensures Parse(Getopt(Words(e.num.value, e.zones.value) + rest), p)
         == Parse(Getopt(rest), Progress(0, true, true, p.settings, EntrySet(e, p.tables)))
  {
    PrintedWords(e, rest);
    ParsesEntry(e, Getopt(rest), p);
  }

  /** Entries in bounds that all list a zone. */
  predicate Full(entries: seq<Entry>) {
    forall e :: e in entries ==> InBounds(e) && e.zones.value != []
  }

  lemma {:induction false} FullWords(entries: seq<Entry>)
    requires Full(entries)
    ensures AllWords(entries) != None
    decreases |entries|
  {
    if entries != [] {
      FullWords(entries[1..]);
    }
  }

  lemma {:induction false} AllWordsAppend(s: seq<Entry>, t: seq<Entry>)
    ensures AllWords(s + t)
         == match AllWords(s)
            case None => None
            case Some(w) => After(w, AllWords(t))
    decreases |s|
  {
    if s == [] {
      assert s + t == t;
      NothingPrinted(t);
    } else {
      assert (s + t)[1..] == s[1..] + t && (s + t)[0] == s[0];
      AllWordsAppend(s[1..], t);
      if s[0].num != None && s[0].zones != None && AllWords(s[1..]) != None && AllWords(t) != None {
        Regroup(Words(s[0].num.value, s[0].zones.value), AllWords(s[1..]).value, AllWords(t).value);
      }
    }
  }

  function EntriesSet(entries: seq<Entry>, t: Tables): Tables
    requires Full(entries)
    decreases |entries|
  {
    if entries == [] then t else EntriesSet(entries[1..], EntrySet(entries[0], t))
  }

  lemma {:induction false} EntriesConfigured(entries: seq<Entry>, done: seq<Entry>, t: Tables)
    requires Full(entries) && Configured(done, t)
    ensures Configured(done + entries, EntriesSet(entries, t))
    decreases |entries|
  {
    if entries == [] {
      assert done + entries == done;
    } else {
      NextConfigured(done, entries[0], t);
      EntriesConfigured(entries[1..], done + [entries[0]], EntrySet(entries[0], t));
      assert done + [entries[0]] + entries[1..] == done + entries;
    }
  }

  /** The loop's variables after the words of full entries. */
  function AfterFull(entries: seq<Entry>, p: Progress): Progress
    requires Full(entries)
  {
    if entries == [] then p else Progress(0, true, true, p.settings, EntriesSet(entries, p.tables))
  }

  lemma AfterFirst(entries: seq<Entry>, p: Progress)
    requires Full(entries) && entries != []
    ensures AfterFull(entries, p)
         == AfterFull(entries[1..], Progress(0, true, true, p.settings, EntrySet(entries[0], p.tables)))
  {
    var t := EntrySet(entries[0], p.tables);
    assert EntriesSet(entries, p.tables) == EntriesSet(entries[1..], t);
    assert entries[1..] == [] ==> EntriesSet(entries[1..], t) == t;
  }

  lemma {:induction false} FullEntriesParse(entries: seq<Entry>, rest: seq<string>, p: Progress)
    requires Full(entries) && AllWords(entries) != None
    ensures Parse(Getopt(AllWords(entries).value + rest), p) == Parse(Getopt(rest), AfterFull(entries, p))
    decreases |entries|
  {
    if entries == [] {
      assert [] + rest == rest;
    } else {
      var e, more := entries[0], entries[1..];
      var w, m := Words(e.num.value, e.zones.value), AllWords(more).value;
      var q := Progress(0, true, true, p.settings, EntrySet(e, p.tables));
      assert AllWords(entries).value == w + m;
      Regroup(w, m, rest);
      FirstEntryParses(e, m + rest, p);
      FullEntriesParse(more, rest, q);
      AfterFirst(entries, p);
    }
  }

  // --------------------------------------------------- what follows the areas

  /** A printed number as the daemon reads it back. */
  function NumberRead(n: int): int {
    AsInt(Clamped(n))
  }

  predicate PeriodAllowed(period: Option<int>) {
    period != None ==> NumberRead(period.value) >= 60
  }

  function CodeGiven(code: Option<string>, s: Settings): Settings {
    if code != None && code.value != "" then s.(code := code) else s
  }

  function SettingsGiven(code: Option<string>, period: Option<int>, s: Settings): Settings {
    var t := CodeGiven(code, s);
    if period != None then t.(period := NumberRead(period.value)) else t
  }

  function EndOf(p: Progress): int {
    if !p.areaSet then -5 else if !p.zonesSet then -6 else 0
  }

  lemma PeriodParses(period: Option<int>, p: Progress)
    ensures Parse(Getopt(Trailer(None, period)), p)
         == Outcome(if PeriodAllowed(period) then EndOf(p) else -9, SettingsGiven(None, period, p.settings), p.tables)
  {
    if period == None {
      assert Trailer(None, period) == [];
    } else {
      var w := ["-S", Signed(period.value)];
      assert Trailer(None, period) == w && w[2..] == [];
      assert Getopt(w) == [PeriodOpt(w[1])] + [];
      SignedReadBack(period.value);
      assert Getopt(w)[1..] == [];
    }
  }

  /** The words after the areas set what they say, unless the period is too short. */
  lemma TrailerParses(code: Option<string>, period: Option<int>, p: Progress)
    ensures Parse(Getopt(Trailer(code, period)), p)
         == Outcome(if PeriodAllowed(period) then EndOf(p) else -9, SettingsGiven(code, period, p.settings), p.tables)
  {
    var rest := Trailer(None, period);
    if code != None && code.value != "" {
      var w := ["-u", code.value] + rest;
      assert Trailer(code, period) == w && w[2..] == rest;
      assert Getopt(w) == [CodeOpt(code.value)] + Getopt(rest);
      assert Getopt(w)[1..] == Getopt(rest);
      PeriodParses(period, p.(settings := p.settings.(code := Some(code.value))));
    } else {
      assert Trailer(code, period) == rest;
      PeriodParses(period, p);
    }
  }

  // ------------------------------------------------------- an empty zone list

  lemma FlagIsNoZone(flag: string)
    requires flag == "-a" || flag == "-u" || flag == "-S"
    ensures Tokens(flag) == [flag] && ReadInt(flag) == 0
  {
    assert |flag| == 2 && flag[0] == '-' && !IsDigit(flag[1]) && flag[1] != ',';
    assert flag[1..][1..] == "" && flag[1..][0] == flag[1];
    assert TokenEnd("") == 0;
    assert TokenEnd(flag[1..]) == 1;
    assert TokenEnd(flag) == 2;
    assert flag[..2] == flag && flag[2..] == "";
  }

  lemma AreaParses(n: nat, rest: seq<Opt>, p: Progress)
    requires 1 <= n <= MAX_AREAS
    ensures Parse([AreaOpt(Decimal(n))] + rest, p)
         == Parse(rest, p.(area := n, areaSet := true, tables := WithArea(p.tables, n)))
  {
    DecimalRoundTrip(n);
    assert ([AreaOpt(Decimal(n))] + rest)[1..] == rest;
  }

  /** An area printed with no zones takes whatever is printed next for its zone list, and is refused. */
  lemma EmptyListSwallows(n: nat, rest: seq<string>, p: Progress)
    requires 1 <= n <= MAX_AREAS
    requires rest != [] && (rest[0] == "-a" || rest[0] == "-u" || rest[0] == "-S")
    ensures Parse(Getopt(Words(n, []) + rest), p).rc == -4
  {
    var w, v := Words(n, []) + rest, ["-z"] + rest;
    assert w == ["-a", Decimal(n)] + v;
    assert w[2..] == v && v[1] == rest[0];
    var flag := ZonesOpt(rest[0]);
    assert Getopt(v) == [flag] + Getopt(v[2..]);
    AreaParses(n, Getopt(v), p);
    FlagIsNoZone(rest[0]);
    assert Getopt(v)[0] == flag;
  }

  /** At the very end it finds nothing to take: the area is configured without zones. */
  lemma EmptyListLast(n: nat, p: Progress)
    requires 1 <= n <= MAX_AREAS
    ensures Parse(Getopt(Words(n, [])), p)
         == Outcome(if p.zonesSet then 0 else -6, p.settings, WithArea(p.tables, n))
  {
    var w := Words(n, []);
    assert w == ["-a", Decimal(n), "-z"] && w[2..] == ["-z"];
    assert Getopt(w) == [AreaOpt(Decimal(n))] + [];
    AreaParses(n, [], p);
  }

  // ---------------------------------------------------- the exact round trip

  predicate AllInBounds(entries: seq<Entry>) {
    forall e :: e in entries ==> InBounds(e)
  }

  /** There is an area; only the last may list no zone, and then others come before it and nothing after. */
  predicate WellListed(entries: seq<Entry>, trailer: seq<string>)
  {
    && entries != []
    && (forall i :: 0 <= i < |entries| - 1 ==> entries[i].zones != Some([]))
    && (entries[|entries| - 1].zones == Some([]) ==> |entries| > 1 && trailer == [])
  }

  function Parsed(entries: seq<Entry>, code: Option<string>, period: Option<int>): Outcome
    requires AllWords(entries) != None
  {
    ParseAll(AllWords(entries).value + Trailer(code, period))
  }

  lemma NothingConfigured()
    ensures Configured([], NO_TABLES)
  {
  }

  /** What the launcher prints for areas in range with zones in range is parsed back to exactly them. */
  lemma ConfigurationRoundTrip(entries: seq<Entry>, code: Option<string>, period: Option<int>)
    requires entries != [] && Full(entries)
    ensures AllWords(entries) != None
    ensures var out := Parsed(entries, code, period);
            && out.rc == (if PeriodAllowed(period) then 0 else -9)
            && out.settings == SettingsGiven(code, period, DEFAULTS) && Configured(entries, out.tables)
  {
    FullWords(entries);
    FullEntriesParse(entries, Trailer(code, period), START);
    TrailerParses(code, period, AfterFull(entries, START));
    NothingConfigured();
    EntriesConfigured(entries, [], NO_TABLES);
    assert [] + entries == entries;
  }

  lemma WordsAround(pre: seq<Entry>, e: Entry, post: seq<Entry>)
    requires Full(pre) && InBounds(e) && AllWords(pre + [e] + post) != None
    ensures AllWords(pre) != None && AllWords(post) != None
    ensures AllWords(pre + [e] + post).value
         == AllWords(pre).value + (Words(e.num.value, e.zones.value) + AllWords(post).value)
  {
    FullWords(pre);
    assert pre + [e] + post == pre + ([e] + post);
    AllWordsAppend(pre, [e] + post);
    assert ([e] + post)[1..] == post && ([e] + post)[0] == e;
  }

  lemma EmptyAt(pre: seq<Entry>, e: Entry, post: seq<Entry>, trailer: seq<string>)
    requires Full(pre) && InBounds(e) && e.zones.value == [] && AllWords(pre + [e] + post) != None
    ensures AllWords(post) != None
    ensures Parse(Getopt(AllWords(pre + [e] + post).value + trailer), START)
         == Parse(Getopt(Words(e.num.value, []) + (AllWords(post).value + trailer)), AfterFull(pre, START))
  {
    WordsAround(pre, e, post);
    var w, q := Words(e.num.value, []), AllWords(post).value;
    Regroup(AllWords(pre).value, w + q, trailer);
    Regroup(w, q, trailer);
    FullEntriesParse(pre, w + (q + trailer), START);
  }

  lemma NextIsFlag(post: seq<Entry>, code: Option<string>, period: Option<int>)
    requires AllWords(post) != None
    ensures var rest := AllWords(post).value + Trailer(code, period);
            && (rest == [] <==> post == [] && Trailer(code, period) == [])
            && (rest != [] ==> rest[0] == "-a" || rest[0] == "-u" || rest[0] == "-S")
  {
    if post != [] {
      assert AllWords(post).value[0] == "-a";
    }
  }

  /** An empty zone list with anything printed after it makes the daemon refuse its arguments. */
  lemma EmptyZoneListRefused(pre: seq<Entry>, e: Entry, post: seq<Entry>, code: Option<string>, period: Option<int>)
    requires Full(pre) && InBounds(e) && e.zones.value == [] && AllWords(pre + [e] + post) != None
    requires post != [] || Trailer(code, period) != []
    ensures Parsed(pre + [e] + post, code, period).rc == -4
  {
    EmptyAt(pre, e, post, Trailer(code, period));
    NextIsFlag(post, code, period);
    EmptyListSwallows(e.num.value, AllWords(post).value + Trailer(code, period), AfterFull(pre, START));
  }

  /** One at the very end leaves its area without zones, if there are others. */
  lemma EmptyZoneListLast(pre: seq<Entry>, e: Entry, code: Option<string>, period: Option<int>)
    requires Full(pre) && InBounds(e) && e.zones.value == [] && AllWords(pre + [e]) != None
    requires Trailer(code, period) == []
    ensures var out := Parsed(pre + [e], code, period);
            out.rc == (if pre == [] then -6 else 0) && out.settings == DEFAULTS && Configured(pre + [e], out.tables)
  {
    assert pre + [e] + [] == pre + [e];
    EmptyAt(pre, e, [], []);
    assert Words(e.num.value, []) + ([] + []) == Words(e.num.value, []);
    EmptyListLast(e.num.value, AfterFull(pre, START));
    NothingConfigured();
    EntriesConfigured(pre, [], NO_TABLES);
    assert [] + pre == pre;
    NextConfigured(pre, e, EntriesSet(pre, NO_TABLES));
  }

  /** The first entry without zones, if there is one. */
  lemma {:induction false} FirstEmpty(entries: seq<Entry>) returns (i: nat)
    requires AllInBounds(entries)
    ensures i <= |entries| && Full(entries[..i])
    ensures i < |entries| ==> entries[i].zones == Some([])
    decreases |entries|
  {
    if entries == [] || entries[0].zones == Some([]) {
      i := 0;
    } else {
      assert entries[0] in entries;
      var j := FirstEmpty(entries[1..]);
      i := j + 1;
      assert entries[..i] == [entries[0]] + entries[1..][..j];
    }
  }

  lemma ListedInBounds(entries: seq<Entry>, z: int, e: Entry)
    requires e in entries && e.num != None && e.zones != None && z in e.zones.value
    requires forall x :: x in entries ==> x.num != None
    ensures LastListing(entries, z) != None
    decreases |entries|
  {
    var k := |entries| - 1;
    if entries[k].zones == None || z !in entries[k].zones.value {
      assert entries == entries[..k] + [entries[k]];
      ListedInBounds(entries[..k], z, e);
    }
  }

  lemma {:induction false} PrintedComplete(entries: seq<Entry>)
    requires AllWords(entries) != None
    ensures forall e :: e in entries ==> e.num != None && e.zones != None
    decreases |entries|
  {
    if entries != [] {
      PrintedComplete(entries[1..]);
      assert forall e :: e in entries ==> e == entries[0] || e in entries[1..];
    }
  }

  /** Nothing out of range is ever configured. */
  lemma ConfiguredInBounds(entries: seq<Entry>, t: Tables)
    requires AllWords(entries) != None && Configured(entries, t) && Initial(t)
    ensures AllInBounds(entries)
  {
    PrintedComplete(entries);
    forall e | e in entries ensures InBounds(e) {
      var n := e.num.value;
      assert exists x :: x in entries && x.num == Some(n) by {
        assert e in entries && e.num == Some(n);
      }
      assert n in t.areas;
      forall z | z in e.zones.value ensures 1 <= z <= MAX_ZONES {
        ListedInBounds(entries, z, e);
        assert z in t.zones;
      }
    }
  }

  /**
   The configuration path, exactly: of all files the launcher prints arguments for, the
   daemon starts with the areas and zones of the file just when they are in range, the
   zone lists are as `WellListed` says, and the status period is long enough.
   */
  lemma ConfiguredExactly(entries: seq<Entry>, code: Option<string>, period: Option<int>)
    requires AllWords(entries) != None
    ensures var out := Parsed(entries, code, period);
            out.rc == 0 && Configured(entries, out.tables)
            <==> AllInBounds(entries) && WellListed(entries, Trailer(code, period)) && PeriodAllowed(period)
    ensures var out := Parsed(entries, code, period);
            out.rc == 0 && Configured(entries, out.tables) ==> out.settings == SettingsGiven(code, period, DEFAULTS)
  {
    var out, trailer := Parsed(entries, code, period), Trailer(code, period);
    AnyOptions(Getopt(AllWords(entries).value + trailer));
    if Configured(entries, out.tables) {
      ConfiguredInBounds(entries, out.tables);
    }
    if AllInBounds(entries) {
      ListsExactly(entries, code, period);
    }
  }

  ghost predicate StartsAsGiven(entries: seq<Entry>, code: Option<string>, period: Option<int>)
    requires AllWords(entries) != None
  {
    var out := Parsed(entries, code, period);
    out.rc == 0 && Configured(entries, out.tables) && out.settings == SettingsGiven(code, period, DEFAULTS)
  }

  lemma FirstEmptyAt(pre: seq<Entry>, e: Entry, post: seq<Entry>, code: Option<string>, period: Option<int>)
    requires Full(pre) && InBounds(e) && e.zones.value == [] && AllWords(pre + [e] + post) != None
    ensures if pre != [] && post == [] && Trailer(code, period) == [] then StartsAsGiven(pre + [e] + post, code, period)
            else Parsed(pre + [e] + post, code, period).rc != 0
  {
    if post != [] || Trailer(code, period) != [] {
      EmptyZoneListRefused(pre, e, post, code, period);
    } else {
      assert pre + [e] + post == pre + [e];
      EmptyZoneListLast(pre, e, code, period);
    }
  }

  lemma ListedWell(pre: seq<Entry>, e: Entry, post: seq<Entry>, trailer: seq<string>)
    requires Full(pre) && e.zones == Some([])
    ensures WellListed(pre + [e] + post, trailer) <==> pre != [] && post == [] && trailer == []
  {
    var all := pre + [e] + post;
    assert all[|pre|] == e;
    assert forall j :: 0 <= j < |pre| ==> all[j] == pre[j] && pre[j] in pre;
  }

  lemma FullListsExactly(entries: seq<Entry>, code: Option<string>, period: Option<int>)
    requires Full(entries) && AllWords(entries) != None
    ensures if WellListed(entries, Trailer(code, period)) && PeriodAllowed(period)
            then StartsAsGiven(entries, code, period)
            else Parsed(entries, code, period).rc != 0
  {
    if entries == [] {
      assert [] + Trailer(code, period) == Trailer(code, period);
      TrailerParses(code, period, START);
    } else {
      assert forall j :: 0 <= j < |entries| ==> entries[j] in entries;
      ConfigurationRoundTrip(entries, code, period);
    }
  }

  lemma {:induction false} ListsExactly(entries: seq<Entry>, code: Option<string>, period: Option<int>)
    requires AllWords(entries) != None && AllInBounds(entries)
    ensures if WellListed(entries, Trailer(code, period)) && PeriodAllowed(period)
            then StartsAsGiven(entries, code, period)
            else Parsed(entries, code, period).rc != 0
  {
    var i := FirstEmpty(entries);
    if i == |entries| {
      assert entries[..i] == entries;
      FullListsExactly(entries, code, period);
    } else {
      var pre, e, post := entries[..i], entries[i], entries[i + 1..];
      assert entries == pre + [e] + post && e in entries;
      FirstEmptyAt(pre, e, post, code, period);
      ListedWell(pre, e, post, Trailer(code, period));
    }
  }

  // ------------------------------------------------------------ what is refused

  /** The words of some full entries, and then others. */
  function WordsThen(pre: seq<Entry>, words: seq<string>): Outcome
    requires AllWords(pre) != None
  {
    ParseAll(AllWords(pre).value + words)
  }

  lemma TwoWords(flag: string, arg: string, rest: seq<string>)
    requires TakesWord(flag)
    ensures Getopt([flag, arg] + rest) == [OptOf(flag, arg)] + Getopt(rest)
    ensures ([OptOf(flag, arg)] + Getopt(rest))[1..] == Getopt(rest)
  {
    assert ([flag, arg] + rest)[2..] == rest;
  }

  /** An area out of range is refused with -2. */
  lemma BadAreaRefused(pre: seq<Entry>, n: int, rest: seq<string>)
    requires Full(pre) && AllWords(pre) != None && !(1 <= NumberRead(n) <= 8)
    ensures WordsThen(pre, ["-a", Signed(n)] + rest).rc == -2
  {
    FullEntriesParse(pre, ["-a", Signed(n)] + rest, START);
    TwoWords("-a", Signed(n), rest);
    SignedReadBack(n);
  }

  /** A zone list without an area of its own, such as a second one, is refused with -3. */
  lemma ZonesNeedArea(pre: seq<Entry>, arg: string, rest: seq<string>)
    requires Full(pre) && AllWords(pre) != None
    ensures WordsThen(pre, ["-z", arg] + rest).rc == -3
  {
    FullEntriesParse(pre, ["-z", arg] + rest, START);
    TwoWords("-z", arg, rest);
  }

  lemma {:induction false} PrintedZonesTaken(zones: seq<int>, p: Progress)
    ensures SetZones(EachPrinted(zones), p).0 <==> forall z :: z in zones ==> 1 <= NumberRead(z) <= 96
    decreases |zones|
  {
    if zones != [] {
      var z, more := zones[0], zones[1..];
      SignedReadBack(z);
      assert EachPrinted(zones)[0] == Signed(z) && EachPrinted(zones)[1..] == EachPrinted(more);
      assert z in zones && forall y :: y in zones <==> y == z || y in more;
      PrintedZonesTaken(more, p.(zonesSet := true, tables := WithZone(p.tables, ReadInt(Signed(z)), p.area)));
    }
  }

  /** A zone list with a zone out of range is refused with -4. */
  lemma BadZoneRefused(pre: seq<Entry>, n: nat, zones: seq<int>, rest: seq<string>)
    requires Full(pre) && AllWords(pre) != None && 1 <= n <= 8
    requires exists z :: z in zones && !(1 <= NumberRead(z) <= 96)
    ensures WordsThen(pre, ["-a", Signed(n)] + (["-z", Joined(zones)] + rest)).rc == -4
  {
    var words := ["-z", Joined(zones)] + rest;
    var p := AfterFull(pre, START);
    FullEntriesParse(pre, ["-a", Signed(n)] + words, START);
    TwoWords("-a", Signed(n), words);
    TwoWords("-z", Joined(zones), rest);
    AreaParses(n, Getopt(words), p);
    TokensOfJoined(zones);
    PrintedZonesTaken(zones, p.(area := n, areaSet := true, tables := WithArea(p.tables, n)));
  }

  /** Without any area the daemon stops with -5. */
  lemma NoAreaRefused(code: Option<string>)
    ensures ParseAll(Trailer(code, None)).rc == -5
  {
    TrailerParses(code, None, START);
  }

  lemma {:induction false} CommasOnly(s: string)
    requires forall i :: 0 <= i < |s| ==> s[i] == ','
    ensures Tokens(s) == []
    decreases |s|
  {
    if s != "" {
      CommasOnly(s[1..]);
    }
  }

  /** Without any zone, with -6. */
  lemma NoZoneRefused(n: nat, list: string)
    requires 1 <= n <= 8 && forall i :: 0 <= i < |list| ==> list[i] == ','
    ensures ParseAll(["-a", Signed(n)] + (["-z", list] + [])).rc == -6
  {
    var words := ["-z", list] + [];
    TwoWords("-a", Signed(n), words);
    TwoWords("-z", list, []);
    AreaParses(n, Getopt(words), START);
    CommasOnly(list);
  }

  /** Without more, the daemon has no user code and asks for the status every minute. */
  lemma DefaultsKept(entries: seq<Entry>)
    requires entries != [] && Full(entries)
    ensures AllWords(entries) != None && Parsed(entries, None, None).settings == Settings(None, 60)
  {
    ConfigurationRoundTrip(entries, None, None);
  }

  /** The words themselves, of a file with one area of two zones, a user code and a period. */
  lemma PrintedExample()
    ensures AllWords([Entry(Some(1), Some([1, 2]))]) == Some(["-a", "1", "-z", "1,2"])
    ensures Trailer(Some("1234"), Some(120)) == ["-u", "1234", "-S", "120"]
  {
    var e := Entry(Some(1), Some([1, 2]));
    assert Signed(1) == "1" && Signed(2) == "2" && Signed(120) == "120";
    assert [1, 2][1..] == [2] && Joined([2]) == "2" && Joined([1, 2]) == "1,2";
    assert [e][1..] == [] && AllWords([]) == Some([]);
    assert Words(1, [1, 2]) == ["-a", "1", "-z", "1,2"];
    assert ["-a", "1", "-z", "1,2"] + [] == ["-a", "1", "-z", "1,2"];
    assert AllWords([e]) == Some(Words(1, [1, 2]) + []);
  }
}
