/** Characters, blanks and decimal numbers, as the text formats use them. */
module Lexical {
  import opened Isa

  /** `std::isspace` in the C locale. */
  predicate IsSpace(ch: char) { ch == ' ' || '\t' <= ch <= '\r' }

  predicate IsInk(ch: char) { !IsSpace(ch) }

  predicate IsDigit(ch: char) { '0' <= ch <= '9' }

  predicate All(s: string, p: char -> bool) { forall k :: 0 <= k < |s| ==> p(s[k]) }

  /** The length of the longest prefix whose characters all satisfy `p`. */
  function Span(s: string, p: char -> bool): (n: nat)
    ensures n <= |s| && All(s[..n], p) && (n < |s| ==> !p(s[n]))
  {
    if s == [] || !p(s[0]) then 0 else 1 + Span(s[1..], p)
  }

  lemma SpanIs(s: string, n: nat, p: char -> bool)
    requires n <= |s| && All(s[..n], p) && (n < |s| ==> !p(s[n]))
    ensures Span(s, p) == n
  {
    var m := Span(s, p);
    forall k | 0 <= k < n
      ensures p(s[k])
    {
      assert s[..n][k] == s[k];
    }
    forall k | 0 <= k < m
      ensures p(s[k])
    {
      assert s[..m][k] == s[k];
    }
  }

  // ----- Trimming. -----

  predicate IsTrimmed(s: string) { s == [] || (IsInk(s[0]) && IsInk(s[|s| - 1])) }

  /** One past the last character that is not a blank. */
  function InkEnd(s: string): (e: nat)
    ensures e <= |s|
  {
    if s == [] then 0 else if IsInk(s[|s| - 1]) then |s| else InkEnd(s[..|s| - 1])
  }

  function Trimmed(s: string): string {
    var t := s[..InkEnd(s)];
    t[Span(t, IsSpace)..]
  }

  lemma {:induction false} InkEndIs(s: string, e: nat)
    requires e <= |s| && (e > 0 ==> IsInk(s[e - 1])) && forall k :: e <= k < |s| ==> IsSpace(s[k])
    ensures InkEnd(s) == e
    decreases |s|
  {
    if e == |s| {
    } else {
      InkEndIs(s[..|s| - 1], e);
    }
  }

  /** Blanks around a trimmed text are what trimming removes. */
  lemma TrimmedIs(s: string, b: nat, e: nat)
    requires b <= e <= |s| && IsTrimmed(s[b..e]) && All(s[..b], IsSpace) && All(s[e..], IsSpace)
    ensures Trimmed(s) == s[b..e]
  {
    if b == e {
      forall k | 0 <= k < |s|
        ensures IsSpace(s[k])
      {
        if k < b { assert s[..b][k] == s[k]; } else { assert s[e..][k - e] == s[k]; }
      }
      InkEndIs(s, 0);
    } else {
      assert s[b..e][e - b - 1] == s[e - 1] && s[b..e][0] == s[b];
      forall k | e <= k < |s|
        ensures IsSpace(s[k])
      {
        assert s[e..][k - e] == s[k];
      }
      InkEndIs(s, e);
      assert s[..e][..b] == s[..b];
      SpanIs(s[..e], b, IsSpace);
    }
  }

  /** `trim`: move in from both ends past the blanks. */
  method Trim(s: string) returns (r: string)
    ensures r == Trimmed(s)
  {
    var b, e := 0, |s|;
    while b < e && IsSpace(s[b])
      invariant b <= e == |s| && All(s[..b], IsSpace)
    {
      b := b + 1;
    }
    while e > b && IsSpace(s[e - 1])
      invariant b <= e <= |s| && All(s[e..], IsSpace) && (b < e ==> IsInk(s[b]))
    {
      e := e - 1;
    }
    r := s[b..e];
    TrimmedIs(s, b, e);
  }

  /** A text between blanks trims to itself. */
  lemma TrimmedBetween(l: string, core: string, r: string)
    requires All(l, IsSpace) && All(r, IsSpace) && IsTrimmed(core)
    ensures Trimmed(l + core + r) == core
  {
    var s := l + core + r;
    assert s[..|l|] == l && s[|l|..|l| + |core|] == core && s[|l| + |core|..] == r;
    TrimmedIs(s, |l|, |l| + |core|);
  }

  // ----- Decimal numbers. -----

  function Digits(n: nat): string {
    if n < 10 then ['0' + n as char] else Digits(n / 10) + ['0' + (n % 10) as char]
  }

  /** A signed number as a stream prints it. */
  function Decimal(v: int): string { if v < 0 then "-" + Digits(-v) else Digits(v) }

  function DigitsValue(s: string): nat
    requires All(s, IsDigit)
  {
    if s == [] then 0 else 10 * DigitsValue(s[..|s| - 1]) + (s[|s| - 1] - '0') as nat
  }

  lemma {:induction false} DigitsRead(n: nat)
    ensures |Digits(n)| > 0 && All(Digits(n), IsDigit) && DigitsValue(Digits(n)) == n
  {
    var s := Digits(n);
    if n >= 10 {
      DigitsRead(n / 10);
      assert s[..|s| - 1] == Digits(n / 10);
    } else {
      assert s[..0] == [];
    }
  }

  /** The outcome of reading a number off a stream: its value, the rest, and whether the stream is still good. */
  datatype Scan = Scan(value: int, rest: string, good: bool)

  predicate IsSign(s: string) { s != [] && (s[0] == '-' || s[0] == '+') }

  function Signed(n: int, negative: bool): int { if negative then -n else n }

  /** A sign to apply and a run of digits: without digits the number is zero, beyond the range the nearest limit. */
  function ReadDigits(u: string, negative: bool): Scan {
    var n := Span(u, IsDigit);
    var v := Signed(DigitsValue(u[..n]), negative);
    if n == 0 then Scan(0, u, false)
    else if v > INT64_MAX then Scan(INT64_MAX, u[n..], false)
    else if v < INT64_MIN then Scan(INT64_MIN, u[n..], false)
    else Scan(v, u[n..], true)
  }

  /** `stream >> number` for a signed 64-bit number: blanks, an optional sign, digits. */
  function Extract(s: string): Scan {
    var t := s[Span(s, IsSpace)..];
    if IsSign(t) then ReadDigits(t[1..], t[0] == '-') else ReadDigits(t, false)
  }

  /** The 64-bit number nearest to `v`. */
  function Limited(v: int): int { if v > INT64_MAX then INT64_MAX else if v < INT64_MIN then INT64_MIN else v }

  lemma ReadDigitsBack(n: nat, negative: bool, rest: string)
    requires rest != [] ==> !IsDigit(rest[0])
    ensures var v := Signed(n, negative);
      ReadDigits(Digits(n) + rest, negative) == Scan(Limited(v), rest, Signed64(v))
  {
    hide Span, Digits, DigitsValue;
    DigitsRead(n);
    var ds := Digits(n);
    var u := ds + rest;
    assert u[..|ds|] == ds && u[|ds|..] == rest;
    SpanIs(u, |ds|, IsDigit);
  }

  lemma DigitsStart(n: nat)
    ensures |Digits(n)| > 0 && IsDigit(Digits(n)[0])
  {
    DigitsRead(n);
  }

  lemma SkipBlanks(gap: string, t: string)
    requires All(gap, IsSpace) && (t != [] ==> IsInk(t[0]))
    ensures (gap + t)[Span(gap + t, IsSpace)..] == t
  {
    var s := gap + t;
    assert s[..|gap|] == gap && s[|gap|..] == t;
    SpanIs(s, |gap|, IsSpace);
  }

  lemma ExtractNatural(gap: string, n: nat, rest: string)
    requires All(gap, IsSpace) && (rest != [] ==> !IsDigit(rest[0]))
    ensures Extract(gap + Digits(n) + rest) == Scan(Limited(n), rest, Signed64(n))
  {
    hide Span, Digits, DigitsValue, ReadDigits, All;
    var t := Digits(n) + rest;
    DigitsStart(n);
    ReadDigitsBack(n, false, rest);
    SkipBlanks(gap, t);
    assert gap + Digits(n) + rest == gap + t;
  }

  lemma ExtractNegative(gap: string, n: nat, rest: string)
    requires All(gap, IsSpace) && (rest != [] ==> !IsDigit(rest[0]))
    ensures Extract(gap + ("-" + Digits(n)) + rest) == Scan(Limited(0 - n), rest, Signed64(0 - n))
  {
    hide Span, Digits, DigitsValue, ReadDigits, All;
    var t := "-" + Digits(n) + rest;
    ReadDigitsBack(n, true, rest);
    assert t[1..] == Digits(n) + rest;
    SkipBlanks(gap, t);
    assert gap + ("-" + Digits(n)) + rest == gap + t;
  }

  /**
   Reading a printed number after blanks gives the number and stops right behind it. A number that does not fit 64 bits
   gives the nearest limit, and the stream fails.
   */
  lemma ExtractDecimal(gap: string, v: int, rest: string)
    requires All(gap, IsSpace) && (rest != [] ==> !IsDigit(rest[0]))
    ensures Extract(gap + Decimal(v) + rest) == Scan(Limited(v), rest, Signed64(v))
  {
    hide Extract, Digits, All;
    if v < 0 { ExtractNegative(gap, -v, rest); } else { ExtractNatural(gap, v, rest); }
  }

  /** No number stands at the start of the text, behind its blanks. */
  predicate NoNumber(s: string) {
    var t := s[Span(s, IsSpace)..];
    var u := if IsSign(t) then t[1..] else t;
    u == "" || !IsDigit(u[0])
  }

  /** Where no number stands, zero is read and the stream fails. */
  lemma ExtractNothing(s: string)
    requires NoNumber(s)
    ensures Extract(s).value == 0 && !Extract(s).good && (s != "" ==> !IsDigit(s[0]))
  {
  }
}
