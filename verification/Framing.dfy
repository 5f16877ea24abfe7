/**
 The framing rules of the serial thread (src/para_serial.c:104-171) as functions of the
 bytes read, and the law the thread exists for: while no line is too long, how the
 line was cut into reads does not matter.
 */
module Framing {
  import opened CText

  const INPUT_LEN: nat := 32
  const BUFF_LEN: nat := 512

  /** What the framer holds of the current line, and the frames it has sent. */
  datatype Framed = Framed(pending: string, frames: seq<string>)

  /** One read: a CR sends the line, a NUL or a line that grows too long ends the read. */
  function FeedChunk(p: string, c: string): Framed
    decreases |c|
  {
    if c == "" then Framed(p, [])
    else if c[0] == CR then
      var r := FeedChunk("", c[1..]);
      Framed(r.pending, [p] + r.frames)
    else if c[0] == NUL then Framed(p, [])
    else if |p| + 1 >= INPUT_LEN - 1 then Framed("", [])
    else FeedChunk(p + [c[0]], c[1..])
  }

  function FeedAll(p: string, chunks: seq<string>): Framed
    decreases |chunks|
  {
    if chunks == [] then Framed(p, [])
    else
      var h := FeedChunk(p, chunks[0]);
      var r := FeedAll(h.pending, chunks[1..]);
      Framed(r.pending, h.frames + r.frames)
  }

  // --------------------------------------------------------------- reference

  /** Cutting a stream at its CRs, with `p` already read of the first line. */
  function Split(p: string, s: string): Framed
    decreases |s|
  {
    if s == "" then Framed(p, [])
    else if s[0] == CR then
      var r := Split("", s[1..]);
      Framed(r.pending, [p] + r.frames)
    else Split(p + [s[0]], s[1..])
  }

  function Terminated(lines: seq<string>): string {
    if lines == [] then "" else lines[0] + [CR] + Terminated(lines[1..])
  }

  predicate Short(line: string) {
    |line| <= INPUT_LEN - 2
  }

  /** No NUL, and no line of more than 30 bytes. */
  predicate Fits(p: string, s: string) {
    && NUL !in s
    && (forall f :: f in Split(p, s).frames ==> Short(f))
    && Short(Split(p, s).pending)
  }

  lemma TerminatedCons(line: string, lines: seq<string>)
    ensures Terminated([line] + lines) == line + [CR] + Terminated(lines)
  {
    assert ([line] + lines)[1..] == lines;
  }

  lemma JoinAt(p: string, s: string, t: string, u: string)
    requires s != "" && s[0] == CR && s[1..] == t + u
    ensures p + [CR] + t + u == p + s
  {
    assert s == [CR] + s[1..];
  }

  /** `Split` is the cut at the CRs and no other: its pieces are CR-free and make up the stream. */
  lemma {:induction false} SplitSound(p: string, s: string)
    requires CR !in p
    ensures Terminated(Split(p, s).frames) + Split(p, s).pending == p + s
    ensures CR !in Split(p, s).pending
    ensures forall f :: f in Split(p, s).frames ==> CR !in f
    decreases |s|
  {
    if s != "" {
      if s[0] == CR {
        SplitSound("", s[1..]);
        var r := Split("", s[1..]);
        TerminatedCons(p, r.frames);
        assert "" + s[1..] == s[1..];
        JoinAt(p, s, Terminated(r.frames), r.pending);
      } else {
        SplitSound(p + [s[0]], s[1..]);
        assert p + [s[0]] + s[1..] == p + s;
      }
    } else {
      assert p + s == p;
    }
  }

  lemma {:induction false} SplitAppend(p: string, s: string, t: string)
    ensures var h := Split(p, s);
            var r := Split(h.pending, t);
            Split(p, s + t) == Framed(r.pending, h.frames + r.frames)
    decreases |s|
  {
    if s == "" {
      assert s + t == t;
    } else {
      assert (s + t)[1..] == s[1..] + t;
      SplitAppend(if s[0] == CR then "" else p + [s[0]], s[1..], t);
      if s[0] == CR {
        var h := Split("", s[1..]);
        var r := Split(h.pending, t);
        assert [p] + (h.frames + r.frames) == [p] + h.frames + r.frames;
      }
    }
  }

  /** The line being read only grows, so a short piece has a short beginning. */
  lemma {:induction false} SplitGrows(p: string, s: string)
    ensures var r := Split(p, s); |p| <= |(r.frames + [r.pending])[0]|
    decreases |s|
  {
    if s != "" && s[0] != CR {
      SplitGrows(p + [s[0]], s[1..]);
    }
  }

  lemma FitsStep(p: string, s: string)
    requires Fits(p, s) && s != ""
    ensures Short(p)
    ensures if s[0] == CR then Fits("", s[1..]) else Fits(p + [s[0]], s[1..]) && Short(p + [s[0]])
  {
    assert NUL !in s[1..];
    if s[0] == CR {
      var r := Split("", s[1..]);
      assert Split(p, s).frames == [p] + r.frames;
      assert p in [p] + r.frames;
      forall f | f in r.frames ensures Short(f) {
        assert f in [p] + r.frames;
      }
    } else {
      SplitGrows(p + [s[0]], s[1..]);
      var r := Split(p + [s[0]], s[1..]);
      assert r.frames != [] ==> r.frames[0] in r.frames;
    }
  }

  // ------------------------------------------------- the framer is the splitter

  lemma {:induction false} ChunkSplits(p: string, c: string)
    requires Fits(p, c)
    ensures FeedChunk(p, c) == Split(p, c)
    decreases |c|
  {
    if c != "" {
      FitsStep(p, c);
      assert c[0] in c;
      ChunkSplits(if c[0] == CR then "" else p + [c[0]], c[1..]);
    }
  }

  lemma FitsParts(p: string, s: string, t: string)
    requires Fits(p, s + t)
    ensures Fits(p, s) && Fits(Split(p, s).pending, t)
  {
    SplitAppend(p, s, t);
    var h, u := Split(p, s), Split(p, s + t);
    var r := Split(h.pending, t);
    SplitGrows(h.pending, t);
    forall f | f in h.frames || f in r.frames ensures Short(f) {
      assert f in u.frames;
    }
    assert NUL !in s && NUL !in t by {
      assert forall x :: x in s || x in t ==> x in s + t;
    }
    assert r.frames != [] ==> r.frames[0] in u.frames;
  }

  /** Any way of cutting a stream of short lines into reads frames it at its CRs. */
  lemma {:induction false} AnyChunking(p: string, chunks: seq<string>)
    requires Fits(p, Concat(chunks))
    ensures FeedAll(p, chunks) == Split(p, Concat(chunks))
    decreases |chunks|
  {
    if chunks != [] {
      var c, t := chunks[0], Concat(chunks[1..]);
      FitsParts(p, c, t);
      ChunkSplits(p, c);
      SplitAppend(p, c, t);
      AnyChunking(Split(p, c).pending, chunks[1..]);
    }
  }

  /** Two ways of cutting the same stream into reads cannot be told apart. */
  lemma ChunkingIndependence(chunks: seq<string>, others: seq<string>)
    requires Concat(chunks) == Concat(others)
    requires Fits("", Concat(chunks))
    ensures FeedAll("", chunks) == FeedAll("", others)
  {
    AnyChunking("", chunks);
    AnyChunking("", others);
  }

  // ------------------------------------------------------------ what is sent

  /** Whatever is read, every frame is at most 30 bytes with no CR and no NUL in it. */
  lemma {:induction false} FrameShape(p: string, chunks: seq<string>)
    requires Short(p) && CR !in p && NUL !in p
    ensures var r := FeedAll(p, chunks);
            && Short(r.pending) && CR !in r.pending && NUL !in r.pending
            && forall f :: f in r.frames ==> Short(f) && CR !in f && NUL !in f
    decreases |chunks|
  {
    if chunks != [] {
      ChunkShape(p, chunks[0]);
      FrameShape(FeedChunk(p, chunks[0]).pending, chunks[1..]);
    }
  }

  lemma {:induction false} ChunkShape(p: string, c: string)
    requires Short(p) && CR !in p && NUL !in p
    ensures var r := FeedChunk(p, c);
            && Short(r.pending) && CR !in r.pending && NUL !in r.pending
            && forall f :: f in r.frames ==> Short(f) && CR !in f && NUL !in f
    decreases |c|
  {
    if c != "" && c[0] != NUL {
      if c[0] == CR {
        ChunkShape("", c[1..]);
      } else if |p| + 1 < INPUT_LEN - 1 {
        ChunkShape(p + [c[0]], c[1..]);
      }
    }
  }

  // ------------------------------------------------------ the rules of one read

  /** A line that a CR ends is sent if it has at most 30 bytes; a longer one ends the read and nothing is kept. */
  lemma {:induction false} LineRead(p: string, line: string, rest: string)
    requires |p| <= 30 && CR !in line && NUL !in line
    ensures var r := FeedChunk("", rest);
            FeedChunk(p, line + [CR] + rest)
            == if |p + line| <= 30 then Framed(r.pending, [p + line] + r.frames) else Framed("", [])
    decreases |line|
  {
    var c := line + [CR] + rest;
    if line == "" {
      assert c == [CR] + rest && c[1..] == rest && p + line == p;
    } else {
      assert c[0] == line[0] && line[0] in line;
      assert c[1..] == line[1..] + [CR] + rest;
      assert p + [line[0]] + line[1..] == p + line;
      if |p| + 1 <= 30 {
        LineRead(p + [line[0]], line[1..], rest);
      }
    }
  }

  /** Bytes that no CR ends stay pending while they are at most 30. */
  lemma {:induction false} PartRead(p: string, part: string)
    requires |p| <= 30 && CR !in part && NUL !in part
    ensures FeedChunk(p, part) == if |p + part| <= 30 then Framed(p + part, []) else Framed("", [])
    decreases |part|
  {
    if part == "" {
      assert p + part == p;
    } else {
      assert part[0] in part;
      assert p + [part[0]] + part[1..] == p + part;
      if |p| + 1 <= 30 {
        PartRead(p + [part[0]], part[1..]);
      }
    }
  }

  /** A NUL ends the read, whatever follows it. */
  lemma {:induction false} NulEndsRead(p: string, before: string, after: string)
    ensures FeedChunk(p, before + [NUL] + after) == FeedChunk(p, before)
    decreases |before|
  {
    var c := before + [NUL] + after;
    if before == "" {
      assert c[0] == NUL;
    } else {
      assert c[0] == before[0] && c[1..] == before[1..] + [NUL] + after;
      if c[0] == CR {
        NulEndsRead("", before[1..], after);
      } else if c[0] != NUL && |p| + 1 < INPUT_LEN - 1 {
        NulEndsRead(p + [c[0]], before[1..], after);
      }
    }
  }

  // ----------------------------------------------- when a read may be cut up

  predicate AllNul(s: string) {
    forall i :: 0 <= i < |s| ==> s[i] == NUL
  }

  /** Nothing but NULs follows the first NUL or overflowing byte of the read. */
  predicate Quiet(p: string, c: string)
    decreases |c|
  {
    if c == "" then true
    else if c[0] == CR then Quiet("", c[1..])
    else if c[0] == NUL || |p| + 1 >= INPUT_LEN - 1 then AllNul(c[1..])
    else Quiet(p + [c[0]], c[1..])
  }

  lemma {:induction false} FeedAllNul(p: string, chunks: seq<string>)
    requires AllNul(Concat(chunks))
    ensures FeedAll(p, chunks) == Framed(p, [])
    decreases |chunks|
  {
    if chunks != [] {
      var c := chunks[0];
      assert forall i :: 0 <= i < |c| ==> c[i] == Concat(chunks)[i];
      assert Concat(chunks[1..]) == Concat(chunks)[|c|..];
      FeedAllNul(p, chunks[1..]);
    }
  }

  lemma {:induction false} QuietSplits(p: string, chunks: seq<string>)
    requires Quiet(p, Concat(chunks))
    ensures FeedAll(p, chunks) == FeedChunk(p, Concat(chunks))
    decreases |Concat(chunks)| + |chunks|
  {
    if chunks != [] {
      var c, t := chunks[0], chunks[1..];
      if c == "" {
        assert Concat(chunks) == Concat(t);
        QuietSplits(p, t);
      } else {
        var s := Concat(chunks);
        assert s[1..] == c[1..] + Concat(t);
        var rest := [c[1..]] + t;
        assert rest[1..] == t && Concat(rest) == s[1..];
        if c[0] == CR {
          QuietSplits("", rest);
        } else if c[0] == NUL || |p| + 1 >= INPUT_LEN - 1 {
          assert AllNul(Concat(t)) by {
            assert forall i :: 0 <= i < |Concat(t)| ==> Concat(t)[i] == s[1..][|c| - 1 + i];
          }
          FeedAllNul(FeedChunk(p, c).pending, t);
        } else {
          QuietSplits(p + [c[0]], rest);
        }
      }
    }
  }

  /** A read that breaks off can be cut where its lost bytes are not lost. */
  lemma {:induction false} LoudSplit(p: string, c: string) returns (i: nat)
    requires !Quiet(p, c) && Short(p)
    ensures i <= |c|
    ensures FeedAll(p, [c[..i], c[i..]]) != FeedChunk(p, c)
    decreases |c|
  {
    if c[0] == CR {
      var j := LoudSplit("", c[1..]);
      i := j + 1;
      TwoReads("", c[1..], j);
      TwoReads(p, c, i);
      assert c[..i][1..] == c[1..][..j] && c[i..] == c[1..][j..];
      var a := FeedChunk("", c[1..][..j]);
      var b := FeedChunk(a.pending, c[i..]);
      assert ([p] + a.frames + b.frames)[1..] == a.frames + b.frames;
      assert ([p] + FeedChunk("", c[1..]).frames)[1..] == FeedChunk("", c[1..]).frames;
    } else if c[0] == NUL || |p| + 1 >= INPUT_LEN - 1 {
      var j := LastNonNul(c[1..]);
      i := j + 1;
      assert c[i..] == c[1..][j..] && c[i..][1..] == c[1..][j + 1..];
      TwoReads(p, c, i);
      var q := FeedChunk(p, c).pending;
      assert FeedChunk(p, c[..i]) == Framed(q, []);
      LastByteCounts(q, c[i..]);
    } else {
      var j := LoudSplit(p + [c[0]], c[1..]);
      i := j + 1;
      TwoReads(p + [c[0]], c[1..], j);
      TwoReads(p, c, i);
      assert c[..i][1..] == c[1..][..j] && c[i..] == c[1..][j..];
    }
  }

  lemma {:induction false} LastNonNul(s: string) returns (j: nat)
    requires !AllNul(s)
    ensures j < |s| && s[j] != NUL && AllNul(s[j + 1..])
    decreases |s|
  {
    if AllNul(s[1..]) {
      j := 0;
    } else {
      var k := LastNonNul(s[1..]);
      j := k + 1;
      assert s[j + 1..] == s[1..][k + 1..];
    }
  }

  lemma OneRead(q: string, d: string)
    ensures FeedAll(q, [d]) == FeedChunk(q, d)
    ensures Concat([d]) == d
  {
    assert [d][1..] == [];
    assert FeedChunk(q, d).frames + [] == FeedChunk(q, d).frames;
    assert d + "" == d;
  }

  lemma TwoReads(p: string, c: string, i: nat)
    requires i <= |c|
    ensures var a := FeedChunk(p, c[..i]);
            var b := FeedChunk(a.pending, c[i..]);
            && FeedAll(p, [c[..i], c[i..]]) == Framed(b.pending, a.frames + b.frames)
            && Concat([c[..i], c[i..]]) == c
  {
    var a := FeedChunk(p, c[..i]);
    assert [c[..i], c[i..]][1..] == [c[i..]];
    OneRead(a.pending, c[i..]);
  }

  lemma LastByteCounts(q: string, d: string)
    requires d != "" && d[0] != NUL && AllNul(d[1..]) && Short(q)
    ensures FeedChunk(q, d) != Framed(q, [])
  {
    var e := d[1..];
    assert e == "" || e[0] == NUL;
    assert |q + [d[0]]| != |q|;
  }

  /**
   Exactly when one read may be replaced by any sequence of reads of the same bytes:
   when nothing but NULs follows the first NUL or the first byte that makes the line too long.
   */
  lemma ReadMayBeCut(p: string, c: string)
    requires Short(p)
    ensures (forall chunks :: Concat(chunks) == c ==> FeedAll(p, chunks) == FeedChunk(p, c)) <==> Quiet(p, c)
  {
    if Quiet(p, c) {
      forall chunks | Concat(chunks) == c ensures FeedAll(p, chunks) == FeedChunk(p, c) {
        QuietSplits(p, chunks);
      }
    } else {
      var i := LoudSplit(p, c);
      TwoReads(p, c, i);
    }
  }

  // ------------------------------------------- when the cut into reads matters

  /** What `read` can return: at least one byte and at most a buffer of them. */
  predicate Reads(chunks: seq<string>) {
    forall c :: c in chunks ==> 0 < |c| <= BUFF_LEN
  }

  /** The stream read byte by byte. */
  function Singles(s: string): seq<string>
    decreases |s|
  {
    if s == "" then [] else [[s[0]]] + Singles(s[1..])
  }

  lemma {:induction false} SinglesShape(s: string)
    ensures Reads(Singles(s)) && Concat(Singles(s)) == s
    decreases |s|
  {
    if s != "" {
      SinglesShape(s[1..]);
      assert Singles(s)[1..] == Singles(s[1..]);
      assert s == [s[0]] + s[1..];
    }
  }

  lemma {:induction false} ConcatAppend(x: seq<string>, y: seq<string>)
    ensures Concat(x + y) == Concat(x) + Concat(y)
    decreases |x|
  {
    if x == [] {
      assert x + y == y;
    } else {
      assert (x + y)[1..] == x[1..] + y;
      ConcatAppend(x[1..], y);
      assert x[0] + (Concat(x[1..]) + Concat(y)) == x[0] + Concat(x[1..]) + Concat(y);
    }
  }

  lemma {:induction false} FeedAllAppend(p: string, x: seq<string>, y: seq<string>)
    ensures var h := FeedAll(p, x);
            var r := FeedAll(h.pending, y);
            FeedAll(p, x + y) == Framed(r.pending, h.frames + r.frames)
    decreases |x|
  {
    if x == [] {
      assert x + y == y;
    } else {
      assert (x + y)[1..] == x[1..] + y;
      var f := FeedChunk(p, x[0]);
      FeedAllAppend(f.pending, x[1..], y);
      var h := FeedAll(f.pending, x[1..]);
      var r := FeedAll(h.pending, y);
      assert f.frames + (h.frames + r.frames) == f.frames + h.frames + r.frames;
    }
  }

  /** What is pending after one byte read alone. */
  function Next(p: string, c: char): string {
    if c == CR then "" else if c == NUL then p else if |p| + 1 >= INPUT_LEN - 1 then "" else p + [c]
  }

  lemma OneByte(p: string, c: char)
    ensures FeedChunk(p, [c]) == Framed(Next(p, c), if c == CR then [p] else [])
  {
    assert [c][1..] == "";
  }

  lemma OneByteFirst(p: string, s: string)
    requires s != ""
    ensures var r := FeedAll(Next(p, s[0]), Singles(s[1..]));
            FeedAll(p, Singles(s)) == if s[0] == CR then Framed(r.pending, [p] + r.frames) else r
  {
    OneByte(p, s[0]);
    assert Singles(s)[1..] == Singles(s[1..]);
    var r := FeedAll(Next(p, s[0]), Singles(s[1..]));
    assert [] + r.frames == r.frames;
  }

  function Lines(s: string): nat
    decreases |s|
  {
    if s == "" then 0 else (if s[0] == CR then 1 else 0) + Lines(s[1..])
  }

  /** Read byte by byte, every CR sends a frame. */
  lemma {:induction false} LinesSent(p: string, s: string)
    ensures |FeedAll(p, Singles(s)).frames| == Lines(s)
    decreases |s|
  {
    if s != "" {
      OneByteFirst(p, s);
      LinesSent(Next(p, s[0]), s[1..]);
    }
  }

  /** Pending lengths that differ go on differing until a frame shows it. */
  lemma {:induction false} LengthsTell(p: string, q: string, s: string)
    requires Short(p) && Short(q) && |p| != |q|
    ensures FeedAll(p, Singles(s)) != FeedAll(q, Singles(s))
    decreases |s|
  {
    if s != "" {
      OneByteFirst(p, s);
      OneByteFirst(q, s);
      if s[0] == CR {
        assert FeedAll(p, Singles(s)).frames[0] == p && FeedAll(q, Singles(s)).frames[0] == q;
      } else {
        LengthsTell(Next(p, s[0]), Next(q, s[0]), s[1..]);
      }
    }
  }

  /** A read that ends at `b` loses the byte after it. */
  predicate Loses(q: string, b: char) {
    b == NUL || (b != CR && |q| + 1 >= INPUT_LEN - 1)
  }

  /** In a stream that is not quiet there is a byte that a longer read can lose. */
  lemma {:induction false} LosableByte(p: string, s: string) returns (i: nat)
    requires !Quiet(p, s) && Short(p)
    ensures i + 1 < |s| && s[i + 1] != NUL
    ensures var q := FeedAll(p, Singles(s[..i])).pending; Short(q) && Loses(q, s[i])
    decreases |s|
  {
    if Loses(p, s[0]) && s[1] != NUL {
      i := 0;
    } else {
      var j := LosableByte(Next(p, s[0]), s[1..]);
      i := j + 1;
      OneByteFirst(p, s[..i]);
      assert s[..i][1..] == s[1..][..j];
    }
  }

  /** Reading the byte with the one before it is not reading it by itself. */
  lemma LosingTells(q: string, b: char, c: char, rest: string)
    requires Short(q) && Loses(q, b) && c != NUL
    ensures FeedAll(q, Singles([b, c] + rest)) != FeedAll(q, [[b, c]] + Singles(rest))
  {
    var s, r := [b, c] + rest, Next(q, b);
    assert s[1..] == [c] + rest && s[1..][1..] == rest;
    OneByteFirst(q, s);
    OneByteFirst(r, s[1..]);
    LostInRead(q, b, c, Singles(rest));
    if c == CR {
      LinesSent("", rest);
      LinesSent(r, rest);
    } else {
      LengthsTell(Next(r, c), r, rest);
    }
  }

  lemma LostInRead(q: string, b: char, c: char, chunks: seq<string>)
    requires Loses(q, b)
    ensures FeedAll(q, [[b, c]] + chunks) == FeedAll(Next(q, b), chunks)
  {
    assert FeedChunk(q, [b, c]) == Framed(Next(q, b), []);
    assert ([[b, c]] + chunks)[1..] == chunks;
    assert [] + FeedAll(Next(q, b), chunks).frames == FeedAll(Next(q, b), chunks).frames;
  }

  /** What is told apart after the same reads is told apart with them. */
  lemma ToldAfter(p: string, u: seq<string>, x: seq<string>, y: seq<string>)
    requires FeedAll(FeedAll(p, u).pending, x) != FeedAll(FeedAll(p, u).pending, y)
    ensures FeedAll(p, u + x) != FeedAll(p, u + y)
  {
    var h := FeedAll(p, u);
    var f, g := FeedAll(h.pending, x).frames, FeedAll(h.pending, y).frames;
    FeedAllAppend(p, u, x);
    FeedAllAppend(p, u, y);
    assert f == (h.frames + f)[|h.frames|..] && g == (h.frames + g)[|h.frames|..];
  }

  lemma LoudDiffers(p: string, s: string) returns (joined: seq<string>)
    requires !Quiet(p, s) && Short(p)
    ensures Reads(joined) && Concat(joined) == s && FeedAll(p, joined) != FeedAll(p, Singles(s))
  {
    var i := LosableByte(p, s);
    var u, pair, rest := Singles(s[..i]), [s[i], s[i + 1]], s[i + 2..];
    joined := u + ([pair] + Singles(rest));
    assert s[i..] == pair + rest && s == s[..i] + s[i..];
    JoinedReads(s[..i], pair, rest);
    SinglesSplit(s, i);
    LosingTells(FeedAll(p, u).pending, s[i], s[i + 1], rest);
    ToldAfter(p, u, [pair] + Singles(rest), Singles(s[i..]));
  }

  lemma JoinedReads(before: string, pair: string, rest: string)
    requires |pair| == 2
    ensures Reads(Singles(before) + ([pair] + Singles(rest)))
    ensures Concat(Singles(before) + ([pair] + Singles(rest))) == before + (pair + rest)
  {
    SinglesShape(before);
    SinglesShape(rest);
    ConcatAppend(Singles(before), [pair] + Singles(rest));
    assert ([pair] + Singles(rest))[1..] == Singles(rest);
  }

  lemma {:induction false} SinglesSplit(s: string, i: nat)
    requires i <= |s|
    ensures Singles(s) == Singles(s[..i]) + Singles(s[i..])
    decreases |s|
  {
    if i > 0 {
      SinglesSplit(s[1..], i - 1);
      assert s[..i][1..] == s[1..][..i - 1] && s[1..][i - 1..] == s[i..];
    } else {
      assert s[0..] == s;
    }
  }

  /**
   The exact condition for a stream's cut into reads not to matter, over all reads the
   buffer allows; `ChunkingIndependence` is the case of short lines.
   */
  lemma ChunkingExactly(p: string, s: string)
    requires Short(p)
    ensures (forall chunks, others :: Reads(chunks) && Reads(others) && Concat(chunks) == s && Concat(others) == s
               ==> FeedAll(p, chunks) == FeedAll(p, others))
            <==> Quiet(p, s)
  {
    if Quiet(p, s) {
      forall chunks, others | Concat(chunks) == s && Concat(others) == s
        ensures FeedAll(p, chunks) == FeedAll(p, others)
      {
        QuietSplits(p, chunks);
        QuietSplits(p, others);
      }
    } else {
      var joined := LoudDiffers(p, s);
      SinglesShape(s);
    }
  }

  // --------------------------------------------------------------- recovery

  /** Some line of the read, the pending bytes being the beginning of the first, grows too long. */
  predicate Bursts(p: string, c: string)
    decreases |c|
  {
    if c == "" || c[0] == NUL then false
    else if c[0] == CR then Bursts("", c[1..])
    else if |p| + 1 >= INPUT_LEN - 1 then true
    else Bursts(p + [c[0]], c[1..])
  }

  lemma {:induction false} BurstLeavesNothing(p: string, c: string)
    requires Bursts(p, c)
    ensures FeedChunk(p, c).pending == ""
    decreases |c|
  {
    if c[0] == CR {
      BurstLeavesNothing("", c[1..]);
    } else if |p| + 1 < INPUT_LEN - 1 {
      BurstLeavesNothing(p + [c[0]], c[1..]);
    }
  }

  /** A read that overflows sends the lines it completed before that, and leaves the framer as a fresh one. */
  lemma OverflowForgets(p: string, c: string, chunks: seq<string>)
    requires Bursts(p, c)
    ensures var r := FeedAll("", chunks);
            FeedAll(p, [c] + chunks) == Framed(r.pending, FeedChunk(p, c).frames + r.frames)
  {
    BurstLeavesNothing(p, c);
    assert ([c] + chunks)[1..] == chunks;
  }

  /**
   Resynchronisation: whatever was pending, once the first line has been framed the
   framer and a fresh one send the same frames and hold the same bytes.
   */
  lemma Resynchronises(p: string, chunks: seq<string>)
    requires CR !in p && CR in Concat(chunks) && Fits(p, Concat(chunks))
    ensures var old', new' := FeedAll(p, chunks), FeedAll("", chunks);
            && old'.pending == new'.pending
            && old'.frames != [] && new'.frames != []
            && old'.frames[0] == p + new'.frames[0]
            && old'.frames[1..] == new'.frames[1..]
  {
    var s := Concat(chunks);
    assert p + "" == p;
    SplitPrefix(p, "", s);
    AnyChunking(p, chunks);
    AnyChunking("", chunks);
  }

  lemma {:induction false} SplitPrefix(p: string, q: string, s: string)
    requires CR in s && Fits(p + q, s)
    ensures var r, t := Split(p + q, s), Split(q, s);
            && r.pending == t.pending && r.frames != [] && t.frames != []
            && r.frames[0] == p + t.frames[0] && r.frames[1..] == t.frames[1..]
    ensures Fits(q, s)
    decreases |s|
  {
    FitsStep(p + q, s);
    if s[0] == CR {
      assert Split(q, s).frames == [q] + Split("", s[1..]).frames;
      assert Split(p + q, s).frames == [p + q] + Split("", s[1..]).frames;
    } else {
      assert s == [s[0]] + s[1..];
      assert p + q + [s[0]] == p + (q + [s[0]]);
      SplitPrefix(p, q + [s[0]], s[1..]);
    }
  }

  // ------------------------------------------------------------- round trip

  /** A text the writer can send so that the far side frames it back. */
  predicate Sendable(r: string) {
    0 < |r| && Short(r) && CR !in r && NUL !in r
  }

  lemma {:induction false} SplitLine(p: string, r: string, s: string)
    requires CR !in r
    ensures Split(p, r + [CR] + s) == Framed(Split("", s).pending, [p + r] + Split("", s).frames)
    decreases |r|
  {
    if r == "" {
      assert r + [CR] + s == [CR] + s;
      assert p + r == p;
    } else {
      var u := r + [CR] + s;
      assert u[1..] == r[1..] + [CR] + s;
      assert u[0] == r[0] && r[0] in r;
      SplitLine(p + [r[0]], r[1..], s);
      assert p + [r[0]] + r[1..] == p + r;
    }
  }

  lemma {:induction false} SplitTerminated(lines: seq<string>)
    requires forall r :: r in lines ==> CR !in r
    ensures Split("", Terminated(lines)) == Framed("", lines)
  {
    if lines != [] {
      SplitTerminated(lines[1..]);
      SplitLine("", lines[0], Terminated(lines[1..]));
      assert "" + lines[0] == lines[0];
    }
  }

  lemma {:induction false} TerminatedNulFree(lines: seq<string>)
    requires forall r :: r in lines ==> NUL !in r
    ensures NUL !in Terminated(lines)
  {
    if lines != [] {
      TerminatedNulFree(lines[1..]);
    }
  }

  /** What the writer sends is framed back unchanged, however the reads fall. */
  lemma WriterFramerRoundTrip(requests: seq<string>, chunks: seq<string>)
    requires forall r :: r in requests ==> Sendable(r)
    requires Concat(chunks) == Terminated(requests)
    ensures FeedAll("", chunks) == Framed("", requests)
  {
    SplitTerminated(requests);
    TerminatedNulFree(requests);
    AnyChunking("", chunks);
  }
}
