/**
 C strings and numbers as the bridge uses them: `strtol` in base ten, the conversion
 of its result to `int`, and the `%d` and `%0wd` conversions of `sprintf` for
 naturals.  A byte is a `char`; a C string is a `string` cut at its first NUL.
 */
module CText {
  const NUL: char := '\0'
  const CR: char := '\r'
  const SPACE: char := ' '

  predicate IsDigit(c: char) {
    '0' <= c <= '9'
  }

  function DigitValue(c: char): nat
    requires IsDigit(c)
  {
    c as int - '0' as int
  }

  function DigitChar(d: nat): char
    requires d < 10
  {
    ('0' as int + d) as char
  }

  /** The part of a buffer that C reads as a string. */
  function CStr(s: string): string {
    if s == "" || s[0] == NUL then "" else [s[0]] + CStr(s[1..])
  }

  function Concat(parts: seq<string>): string {
    if parts == [] then "" else parts[0] + Concat(parts[1..])
  }

  // ---------------------------------------------------------------- printing

  /** What `snprintf` leaves of a text in a buffer with room for `k` bytes and the terminator. */
  function Cut(k: nat, s: string): string {
    s[..Min(k, |s|)]
  }

  /** `%d` of a natural. */
  function Decimal(n: nat): string {
    if n < 10 then [DigitChar(n)] else Decimal(n / 10) + [DigitChar(n % 10)]
  }

  /** `%d` of any `int`. */
  function Signed(n: int): string {
    if n < 0 then "-" + Decimal(-n) else Decimal(n)
  }

  function Zeros(k: nat): string {
    if k == 0 then "" else ['0'] + Zeros(k - 1)
  }

  /** `%0wd` of a natural. */
  function Padded(w: nat, n: nat): string {
    var d := Decimal(n);
    if |d| < w then Zeros(w - |d|) + d else d
  }

  // ----------------------------------------------------------------- parsing

  predicate IsSpace(c: char) {
    c == ' ' || '\t' <= c <= '\r'
  }

  function SkipSpaces(s: string): string {
    if s != "" && IsSpace(s[0]) then SkipSpaces(s[1..]) else s
  }

  /** The leading digits of `s` read after a prefix worth `acc`. */
  function DigitRun(s: string, acc: nat): nat {
    if s == "" || !IsDigit(s[0]) then acc else DigitRun(s[1..], acc * 10 + DigitValue(s[0]))
  }

  const LONG_MAX: int := 0x7FFF_FFFF_FFFF_FFFF

  /** `strtol(s, NULL, 10)` with a 64-bit `long`. */
  function Strtol(s: string): int {
    var t := SkipSpaces(s);
    if t != "" && t[0] == '-' then
      var v: int := DigitRun(t[1..], 0);
      if v > LONG_MAX then -LONG_MAX - 1 else -v
    else
      var v := DigitRun(if t != "" && t[0] == '+' then t[1..] else t, 0);
      if v > LONG_MAX then LONG_MAX else v
  }

  /** Storing a `long` in a 32-bit `int`. */
  function AsInt(v: int): int {
    (v + 0x8000_0000) % 0x1_0000_0000 - 0x8000_0000
  }

  function ReadInt(s: string): int {
    AsInt(Strtol(s))
  }

  /** The byte at `i` of a frame; the receiver puts a NUL after its last byte. */
  function At(s: string, i: nat): char {
    if i < |s| then s[i] else NUL
  }

  function Min(a: int, b: int): int {
    if a < b then a else b
  }

  /** `len` bytes of `s` from `from`, read as a number. */
  function NumberAt(s: string, from: nat, len: nat): int {
    ReadInt(s[Min(from, |s|)..Min(from + len, |s|)])
  }

  // ------------------------------------------------------------------ lemmas

  /** A C string is what stands before the first NUL. */
  lemma {:induction false} CStrShape(s: string)
    ensures CStr(s) <= s && NUL !in CStr(s)
    ensures |CStr(s)| < |s| ==> s[|CStr(s)|] == NUL
  {
    if s != "" && s[0] != NUL {
      CStrShape(s[1..]);
    }
  }

  lemma {:induction false} CStrAppend(s: string, t: string)
    requires NUL !in s
    ensures CStr(s + t) == s + CStr(t)
  {
    if s == "" {
      assert s + t == t;
    } else {
      assert (s + t)[1..] == s[1..] + t;
      assert s[0] in s;
      CStrAppend(s[1..], t);
    }
  }

  lemma CStrWhole(s: string)
    requires NUL !in s
    ensures CStr(s) == s
  {
    CStrAppend(s, "");
    assert s + "" == s;
  }

  lemma CutWhole(k: nat, s: string)
    requires |s| <= k
    ensures Cut(k, s) == s
  {
  }

  predicate AllDigits(s: string) {
    forall i :: 0 <= i < |s| ==> IsDigit(s[i])
  }

  lemma {:induction false} DecimalDigits(n: nat)
    ensures Decimal(n) != "" && AllDigits(Decimal(n))
  {
    if n >= 10 {
      DecimalDigits(n / 10);
    }
  }

  lemma {:induction false} DecimalLength(n: nat)
    ensures |Decimal(n)| == 1 <==> n < 10
    ensures |Decimal(n)| == 2 <==> 10 <= n < 100
    ensures |Decimal(n)| == 3 <==> 100 <= n < 1000
  {
    DecimalDigits(n);
    if n >= 10 {
      DecimalLength(n / 10);
      DecimalDigits(n / 10);
    }
  }

  /** Reading back `%d`: the digits of `n` followed by `t` are worth `n` followed by `t`. */
  lemma {:induction false} DigitRunDecimal(n: nat, t: string)
    ensures DigitRun(Decimal(n) + t, 0) == DigitRun(t, n)
  {
    if n < 10 {
      assert ([DigitChar(n)] + t)[1..] == t;
    } else {
      var d := [DigitChar(n % 10)];
      assert Decimal(n) + t == Decimal(n / 10) + (d + t);
      DigitRunDecimal(n / 10, d + t);
      assert (d + t)[1..] == t;
    }
  }

  lemma {:induction false} ZerosLength(k: nat)
    ensures |Zeros(k)| == k && AllDigits(Zeros(k))
  {
    if k > 0 {
      ZerosLength(k - 1);
    }
  }

  lemma {:induction false} DigitRunZeros(k: nat, t: string)
    ensures DigitRun(Zeros(k) + t, 0) == DigitRun(t, 0)
  {
    if k == 0 {
      assert Zeros(k) + t == t;
    } else {
      assert (Zeros(k) + t)[1..] == Zeros(k - 1) + t;
      DigitRunZeros(k - 1, t);
    }
  }

  /** `%0wd` fills its width with digits, and exactly its width when the number fits. */
  lemma PaddedShape(w: nat, n: nat)
    ensures Padded(w, n) != "" && AllDigits(Padded(w, n))
    ensures |Decimal(n)| <= w ==> |Padded(w, n)| == w
  {
    DecimalDigits(n);
    ZerosLength(if |Decimal(n)| < w then w - |Decimal(n)| else 0);
  }

  /** `strtol` reads back whatever `%0wd` printed, for every width and every `int`. */
  lemma PaddedRoundTrip(w: nat, n: nat)
    ensures DigitRun(Padded(w, n), 0) == n
    ensures n < 0x8000_0000 ==> ReadInt(Padded(w, n)) == n
  {
    PaddedShape(w, n);
    DigitRunDecimal(n, "");
    assert Decimal(n) + "" == Decimal(n);
    if |Decimal(n)| < w {
      DigitRunZeros(w - |Decimal(n)|, Decimal(n));
    }
    assert SkipSpaces(Padded(w, n)) == Padded(w, n);
  }

  /** The nearest `long`. */
  function Clamped(n: int): int {
    if n > LONG_MAX then LONG_MAX else if n < -LONG_MAX - 1 then -LONG_MAX - 1 else n
  }

  /** Reading back `%d` of any integer at all. */
  lemma SignedReadBack(n: int)
    ensures ReadInt(Signed(n)) == AsInt(Clamped(n))
  {
    var d := Decimal(if n < 0 then -n else n);
    DecimalDigits(if n < 0 then -n else n);
    DigitRunDecimal(if n < 0 then -n else n, "");
    assert d + "" == d;
    assert SkipSpaces(Signed(n)) == Signed(n);
    assert n < 0 ==> Signed(n)[1..] == d;
  }

  lemma DecimalRoundTrip(n: nat)
    ensures n < 0x8000_0000 ==> ReadInt(Decimal(n)) == n
  {
    PaddedRoundTrip(0, n);
  }

  predicate StartsWithDigit(s: string) {
    s != "" && IsDigit(s[0])
  }

  /** A printed number is delimited by whatever non-digit follows it. */
  lemma DecimalCancel(a: nat, s: string, b: nat, t: string)
    requires Decimal(a) + s == Decimal(b) + t
    requires !StartsWithDigit(s) && !StartsWithDigit(t)
    ensures a == b && s == t
  {
    DigitRunDecimal(a, s);
    DigitRunDecimal(b, t);
    var d := Decimal(a);
    assert s == (d + s)[|d|..] && t == (d + t)[|d|..];
  }

  /** A minus sign or a digit comes first. */
  lemma SignedHead(a: int)
    ensures Signed(a) != "" && (a < 0 <==> Signed(a)[0] == '-')
  {
    DecimalDigits(if a < 0 then -a else a);
  }

  lemma SameHead(x: string, s: string, y: string, t: string)
    requires x + s == y + t && x != "" && y != ""
    ensures x[0] == y[0]
  {
    assert (x + s)[0] == x[0] && (y + t)[0] == y[0];
  }

  lemma MinusStripped(x: string, s: string, y: string, t: string)
    requires "-" + x + s == "-" + y + t
    ensures x + s == y + t
  {
    assert ("-" + x + s)[1..] == x + s && ("-" + y + t)[1..] == y + t;
  }

  lemma SignedCancel(a: int, s: string, b: int, t: string)
    requires Signed(a) + s == Signed(b) + t
    requires !StartsWithDigit(s) && !StartsWithDigit(t)
    ensures a == b && s == t
  {
    SignedHead(a);
    SignedHead(b);
    SameHead(Signed(a), s, Signed(b), t);
    if a < 0 {
      MinusStripped(Decimal(-a), s, Decimal(-b), t);
      DecimalCancel(-a, s, -b, t);
    } else {
      DecimalCancel(a, s, b, t);
    }
  }
}
