/** strconv.FormatInt and strconv.ParseInt in base 10, for 64-bit integers. */
module Decimal {

  const MIN_INT64 := -0x8000_0000_0000_0000
  const MAX_INT64 := 0x7FFF_FFFF_FFFF_FFFF

  type Int64 = x: int | MIN_INT64 <= x <= MAX_INT64

  predicate IsDigit(c: char) {
    '0' <= c <= '9'
  }

  function Digits(n: nat): (s: string)
    ensures s != [] && forall i | 0 <= i < |s| :: IsDigit(s[i])
  {
    (if n < 10 then [] else Digits(n / 10)) + [('0' as int + n % 10) as char]
  }

  function FormatInt(n: Int64): string {
    var m: int := n;
    if m < 0 then "-" + Digits(-m) else Digits(m)
  }

  function DigitValue(c: char): (d: nat)
    requires IsDigit(c)
    ensures d < 10
  {
    c as int - '0' as int
  }

  function Value(s: string): nat
    requires forall i | 0 <= i < |s| :: IsDigit(s[i])
  {
    if s == [] then 0 else 10 * Value(s[..|s| - 1]) + DigitValue(s[|s| - 1])
  }

  predicate AllDigits(s: string) {
    s != [] && forall i | 0 <= i < |s| :: IsDigit(s[i])
  }

  /**
   ParseInt(s, 10, 64) with its error ignored: an optional sign and digits; 0 on a syntax error, the
   nearest bound when out of range.
   */
  function ParseInt(s: string): Int64 {
    var signed := s != [] && (s[0] == '-' || s[0] == '+');
    var body := if signed then s[1..] else s;
    if !AllDigits(body) then 0
    else
      var v: int := if signed && s[0] == '-' then -(Value(body) as int) else Value(body);
      if v < MIN_INT64 then MIN_INT64 else if v > MAX_INT64 then MAX_INT64 else v
  }

  lemma {:induction false} DigitsValue(n: nat)
    ensures Value(Digits(n)) == n
  {
    var s := Digits(n);
    assert s[|s| - 1] == ('0' as int + n % 10) as char;
    if n < 10 {
      assert s[..|s| - 1] == [];
    } else {
      assert s[..|s| - 1] == Digits(n / 10);
      DigitsValue(n / 10);
    }
  }

  lemma ParseUnsigned(d: nat)
    requires d <= MAX_INT64
    ensures ParseInt(Digits(d)) == d
  {
    DigitsValue(d);
    assert IsDigit(Digits(d)[0]);
  }

  lemma ParseNegative(d: nat)
    requires d <= -MIN_INT64
    ensures ParseInt("-" + Digits(d)) == -(d as int)
  {
    DigitsValue(d);
    var s := "-" + Digits(d);
    assert s[0] == '-' && s[1..] == Digits(d);
    assert AllDigits(Digits(d));
  }

  /** Formatting and parsing undo each other on every 64-bit integer. */
  lemma ParseFormat(n: Int64)
    ensures ParseInt(FormatInt(n)) == n
  {
    var m: int := n;
    if m < 0 {
      ParseNegative(-m);
    } else {
      ParseUnsigned(m);
    }
  }

  lemma {:induction false} DigitsCanonical(n: nat)
    ensures Digits(n)[0] == '0' ==> n == 0
  {
    if n >= 10 {
      DigitsCanonical(n / 10);
      assert Digits(n)[0] == Digits(n / 10)[0];
    }
  }

  /** No leading zero, except for zero itself. */
  predicate Plain(s: string) {
    AllDigits(s) && (s[0] == '0' ==> |s| == 1)
  }

  lemma {:induction false} PlainValue(s: string)
    requires Plain(s)
    ensures Digits(Value(s)) == s && (s[0] != '0' ==> Value(s) > 0)
    decreases |s|
  {
    var last := s[|s| - 1];
    if |s| == 1 {
      assert s[..0] == [] && Value(s[..0]) == 0;
      assert s == [last];
    } else {
      var front := s[..|s| - 1];
      PlainValue(front);
      assert s == front + [last];
      assert Value(s) / 10 == Value(front) && Value(s) % 10 == DigitValue(last);
    }
  }

  /** The decimal form of a 64-bit integer: a plain number, or a minus and one that is not zero, in range. */
  predicate Canonical(s: string) {
    if s != [] && s[0] == '-' then Plain(s[1..]) && 0 < Value(s[1..]) <= -MIN_INT64
    else Plain(s) && Value(s) <= MAX_INT64
  }

  lemma CanonicalReadsBack(s: string)
    requires Canonical(s)
    ensures FormatInt(ParseInt(s)) == s
  {
    if s[0] == '-' {
      var v := Value(s[1..]);
      PlainValue(s[1..]);
      assert s == "-" + Digits(v);
      ParseNegative(v);
    } else {
      var v := Value(s);
      PlainValue(s);
      ParseUnsigned(v);
    }
  }

  lemma DigitsPlain(n: nat)
    ensures Plain(Digits(n)) && Value(Digits(n)) == n
  {
    DigitsCanonical(n);
    DigitsValue(n);
  }

  lemma FormatCanonical(n: Int64)
    ensures Canonical(FormatInt(n))
  {
    var m: int := n;
    if m < 0 {
      var s, d := FormatInt(n), Digits(-m);
      DigitsPlain(-m);
      assert s == "-" + d && s[0] == '-' && s[1..] == d;
    } else {
      DigitsPlain(m);
      assert IsDigit(Digits(m)[0]);
    }
  }

  /** A string is the key of some agent id, namely of the one it parses to, if and only if it is canonical. */
  lemma FormatParseIff(s: string)
    ensures FormatInt(ParseInt(s)) == s <==> Canonical(s)
    ensures Canonical(s) <==> exists n: Int64 :: FormatInt(n) == s
  {
    FormatCanonical(ParseInt(s));
    if Canonical(s) {
      CanonicalReadsBack(s);
    }
    if n: Int64 :| FormatInt(n) == s {
      FormatCanonical(n);
    }
  }

  /** The decimal form, digit by digit. */
  lemma FormatIs(n: Int64, d: nat)
    requires d < 10
    ensures FormatInt(d) == [('0' as int + d) as char]
    ensures 0 < n <= (MAX_INT64 - d) / 10 ==> FormatInt(10 * n + d) == FormatInt(n) + FormatInt(d)
    ensures n > 0 ==> FormatInt(-n) == ['-'] + FormatInt(n)
  {
    if 0 < n <= (MAX_INT64 - d) / 10 {
      var m: nat := 10 * n + d;
      assert m / 10 == n && m % 10 == d;
    }
  }

  /** Reading digits: leading zeros and a plus do not matter, what is out of range reads as the nearest bound. */
  lemma ParseIs(s: string)
    requires AllDigits(s)
    ensures ParseInt(s) == if Value(s) > MAX_INT64 then MAX_INT64 else Value(s)
    ensures ParseInt(['+'] + s) == ParseInt(s)
    ensures ParseInt(['-'] + s) == if Value(s) > -MIN_INT64 then MIN_INT64 else -(Value(s) as int)
  {
    assert IsDigit(s[0]);
    assert (['+'] + s)[1..] == s && (['-'] + s)[1..] == s;
  }

  /** Anything but an optional sign and at least one digit reads as 0. */
  lemma ParseJunk(s: string)
    requires s == [] || (exists i | 0 < i < |s| :: !('0' <= s[i] <= '9')) || (|s| == 1 && !('0' <= s[0] <= '9'))
      || !('0' <= s[0] <= '9' || s[0] == '-' || s[0] == '+')
    ensures ParseInt(s) == 0
  {
    if i :| 0 < i < |s| && !('0' <= s[i] <= '9') {
      assert s[1..][i - 1] == s[i];
    }
  }

  /** The value of a digit string, the last digit counting once. */
  lemma ValueSnoc(s: string, c: char)
    requires AllDigits(s) && '0' <= c <= '9'
    ensures Value("") == 0 && AllDigits(s + [c]) && Value(s + [c]) == 10 * Value(s) + (c as int - '0' as int)
  {
    assert (s + [c])[..|s|] == s;
  }

  lemma FormatInjective(m: Int64, n: Int64)
    requires FormatInt(m) == FormatInt(n)
    ensures m == n
  {
    ParseFormat(m);
    ParseFormat(n);
  }

  /** A formatted integer consists of digits and perhaps a leading minus. */
  lemma FormatChars(n: Int64, i: nat)
    requires i < |FormatInt(n)|
    ensures IsDigit(FormatInt(n)[i]) || (i == 0 && n < 0 && FormatInt(n)[i] == '-')
  {
    var m: int := n;
    if m < 0 && i > 0 {
      assert FormatInt(n)[i] == Digits(-m)[i - 1];
    }
  }
}
