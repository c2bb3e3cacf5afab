/** Zero-padded decimal ids and the integer parser that reads them back. */
module Numerals {
  import opened Outcomes

  function DigitChar(d: nat): char
    requires d < 10
  {
    '0' + d as char
  }

  predicate IsDigit(c: char) { '0' <= c <= '9' }

  function DigitValue(c: char): nat
    requires IsDigit(c)
  {
    (c - '0') as nat
  }

  /** The decimal digits of `n`, most significant first. */
  function Digits(n: nat): string {
    if n < 10 then [DigitChar(n)] else Digits(n / 10) + [DigitChar(n % 10)]
  }

  function Zeros(n: nat): string { seq(n, _ => '0') }

  /** `f"{n:0{width}d}"`: wider numbers are written in full. */
  function Padded(n: nat, width: nat): string {
    var digits := Digits(n);
    if |digits| < width then Zeros(width - |digits|) + digits else digits
  }

  /** Digits, with single underscores allowed between them. */
  function DigitsValue(s: string): Option<nat> {
    if s == "" || !IsDigit(s[|s| - 1]) then None
    else
      var d := DigitValue(s[|s| - 1]);
      if |s| == 1 then Some(d)
      else
        match DigitsValue(if s[|s| - 2] == '_' then s[..|s| - 2] else s[..|s| - 1])
        case None => None
        case Some(v) => Some(10 * v + d)
  }

  predicate IsSpace(c: char) { c == ' ' || '\t' <= c <= '\r' }

  function StripLeft(s: string): string {
    if s != "" && IsSpace(s[0]) then StripLeft(s[1..]) else s
  }

  function StripRight(s: string): string {
    if s != "" && IsSpace(s[|s| - 1]) then StripRight(s[..|s| - 1]) else s
  }

  /** Python's `int(s)` on ASCII text; `None` is its ValueError. */
  function ParseInt(s: string): Option<int> {
    var t := StripRight(StripLeft(s));
    if t == "" then None
    else
      match DigitsValue(if t[0] == '-' || t[0] == '+' then t[1..] else t)
      case None => None
      case Some(v) => var i: int := v; Some(if t[0] == '-' then -i else i)
  }

  predicate AllDigits(s: string) { forall c | c in s :: IsDigit(c) }

  lemma {:induction false} DigitsRoundTrip(n: nat)
    ensures AllDigits(Digits(n)) && DigitsValue(Digits(n)) == Some(n)
  {
    if n >= 10 {
      DigitsRoundTrip(n / 10);
      var s := Digits(n);
      assert s[..|s| - 1] == Digits(n / 10);
      assert s[|s| - 2] == Digits(n / 10)[|s| - 2] && s[|s| - 2] in Digits(n / 10);
    }
  }

  /** Leading zeros do not change the value. */
  lemma {:induction false} LeadingZeros(zeros: nat, s: string)
    requires s != "" && AllDigits(s)
    ensures AllDigits(Zeros(zeros) + s) && DigitsValue(Zeros(zeros) + s) == DigitsValue(s)
    decreases |s|, zeros
  {
    var t := Zeros(zeros) + s;
    forall c | c in t ensures IsDigit(c) {}
    if |s| > 1 {
      LeadingZeros(zeros, s[..|s| - 1]);
      assert t[..|t| - 1] == Zeros(zeros) + s[..|s| - 1];
      assert t[|t| - 2] in t && s[|s| - 2] in s;
    } else if zeros > 0 {
      assert t[..|t| - 1] == Zeros(zeros - 1) + "0";
      LeadingZeros(zeros - 1, "0");
      assert t[|t| - 2] in t;
    } else {
      assert t == s;
    }
  }

  lemma {:induction false} NoSpaceToStrip(s: string)
    requires AllDigits(s)
    ensures StripRight(StripLeft(s)) == s
  {
    if s != "" {
      assert s[0] in s && s[|s| - 1] in s;
    }
  }

  /** Parsing the padded digits of `n` returns `n`, at any width and any size. */
  lemma PaddedRoundTrip(n: nat, width: nat)
    ensures AllDigits(Padded(n, width)) && ParseInt(Padded(n, width)) == Some(n)
  {
    var digits, s := Digits(n), Padded(n, width);
    DigitsRoundTrip(n);
    if |digits| < width {
      LeadingZeros(width - |digits|, digits);
    }
    NoSpaceToStrip(s);
    assert s[0] in s;
  }

  lemma PaddedInjective(m: nat, n: nat, width: nat)
    requires Padded(m, width) == Padded(n, width)
    ensures m == n
  {
    PaddedRoundTrip(m, width);
    PaddedRoundTrip(n, width);
  }

  /** The number is written in full, and with zeros to the width asked for. */
  lemma PaddedShape(n: nat, width: nat)
    ensures |Padded(n, width)| >= width
    ensures |Padded(n, width)| > width ==> Padded(n, width) == Digits(n)
  {
  }

  /** Signed digits have no white space to strip. */
  lemma NothingAround(sign: string, digits: string)
    requires sign in {"-", "+"} && digits != "" && AllDigits(digits)
    ensures StripRight(StripLeft(sign + digits)) == sign + digits
    ensures (sign + digits)[0] == sign[0] && (sign + digits)[1..] == digits
  {
    var s := sign + digits;
    assert s[|s| - 1] == digits[|digits| - 1] && digits[|digits| - 1] in digits;
    assert StripLeft(s) == s;
  }

  /** A sign in front counts. */
  lemma SignedRoundTrip(n: nat)
    ensures ParseInt("-" + Digits(n)) == Some(0 - n) && ParseInt("+" + Digits(n)) == Some(n)
  {
    DigitsRoundTrip(n);
    NothingAround("-", Digits(n));
    NothingAround("+", Digits(n));
    hide StripLeft, StripRight, Digits, DigitsValue;
  }

  /** Single underscores between digits do not. */
  lemma {:induction false} UnderscoreSkipped(a: string, b: string)
    requires a != "" && b != "" && AllDigits(a) && AllDigits(b)
    ensures DigitsValue(a + "_" + b) == DigitsValue(a + b)
    decreases |b|
  {
    var s, t, init := a + "_" + b, a + b, b[..|b| - 1];
    assert s[|s| - 1] == t[|t| - 1] == b[|b| - 1] && b[|b| - 1] in b && a[|a| - 1] in a;
    if |b| == 1 {
      assert s[|s| - 2] == '_' && s[..|s| - 2] == a;
      assert t[|t| - 2] == a[|a| - 1] && t[..|t| - 1] == a;
    } else {
      assert s[|s| - 2] == t[|t| - 2] == b[|b| - 2] && b[|b| - 2] in b;
      assert s[..|s| - 1] == a + "_" + init && t[..|t| - 1] == a + init;
      UnderscoreSkipped(a, init);
    }
  }

  /** White space, as ASCII has it. */
  predicate Blank(s: string) { forall c | c in s :: c in " \t\n\r" || c as int in {11, 12} }

  lemma {:induction false} StripsLeft(a: string, s: string)
    requires Blank(a)
    ensures StripLeft(a + s) == StripLeft(s)
    decreases |a|
  {
    if a == "" {
      assert a + s == s;
    } else {
      assert a[0] in a && (a + s)[1..] == a[1..] + s;
      StripsLeft(a[1..], s);
    }
  }

  lemma {:induction false} StripsRight(s: string, b: string)
    requires Blank(b)
    ensures StripRight(s + b) == StripRight(s)
    decreases |b|
  {
    if b == "" {
      assert s + b == s;
    } else {
      var init := b[..|b| - 1];
      assert b[|b| - 1] in b && (s + b)[..|s + b| - 1] == s + init;
      StripsRight(s, init);
    }
  }

  lemma {:induction false} StripLeftOf(s: string, b: string)
    ensures StripLeft(s + b) == if StripLeft(s) == "" then StripLeft(b) else StripLeft(s) + b
    decreases |s|
  {
    if s == "" {
      assert s + b == b;
    } else {
      assert (s + b)[1..] == s[1..] + b && (s + b)[0] == s[0];
      StripLeftOf(s[1..], b);
    }
  }

  /** White space around a number is ignored. */
  lemma SpacesAround(a: string, s: string, b: string)
    requires Blank(a) && Blank(b)
    ensures ParseInt(a + s + b) == ParseInt(s)
  {
    assert a + s + b == a + (s + b);
    StripsLeft(a, s + b);
    StripLeftOf(s, b);
    if StripLeft(s) == "" {
      StripsLeft(b, "");
      assert b + "" == b;
    } else {
      StripsRight(StripLeft(s), b);
    }
  }
}
