/**
 Python's `int(s)` on a string in base 10 and `str(n)` on an integer, as far
 as the rating check relies on them: surrounding whitespace is stripped, one
 optional sign, then decimal digits with single underscores allowed between
 digits; anything else raises ValueError (here: None).
 */
module PythonInt {
  import opened Wrappers

  /** The ASCII characters Python counts as whitespace. */
  predicate IsSpace(c: char)
  {
    c == ' ' || ('\t' <= c <= '\r') || (28 <= c as int <= 31)
  }

  function StripLeading(s: string): (r: string)
    ensures |s| > 0 && !IsSpace(s[0]) ==> r == s
  {
    if |s| > 0 && IsSpace(s[0]) then StripLeading(s[1..]) else s
  }

  function StripTrailing(s: string): (r: string)
    ensures |s| > 0 && !IsSpace(s[|s| - 1]) ==> r == s
  {
    if |s| > 0 && IsSpace(s[|s| - 1]) then StripTrailing(s[..|s| - 1]) else s
  }

  /** `s.strip()`. */
  function Strip(s: string): string
  {
    StripTrailing(StripLeading(s))
  }

  predicate IsDigit(c: char)
  {
    '0' <= c <= '9'
  }

  /** A non-empty run of digits in which every underscore stands between two digits. */
  predicate WellFormedDigits(s: string)
  {
    && |s| > 0 && IsDigit(s[0]) && IsDigit(s[|s| - 1])
    && (forall i :: 0 <= i < |s| ==> IsDigit(s[i]) || s[i] == '_')
    && (forall i :: 0 <= i < |s| - 1 && s[i] == '_' ==> IsDigit(s[i + 1]))
  }

  /** The value of a digit string, underscores ignored. */
  function DigitsValue(s: string): nat
    requires forall i :: 0 <= i < |s| ==> IsDigit(s[i]) || s[i] == '_'
  {
    if |s| == 0 then 0
    else if s[|s| - 1] == '_' then DigitsValue(s[..|s| - 1])
    else
      assert IsDigit(s[|s| - 1]);
      10 * DigitsValue(s[..|s| - 1]) + (s[|s| - 1] as int - '0' as int)
  }

  /** An optionally negated digit string, or None when it is not well formed. */
  function SignedValue(negative: bool, body: string): Option<int>
  {
    if WellFormedDigits(body) then
      var v: int := DigitsValue(body);
      Some(if negative then -v else v)
    else None
  }

  /** The stripped text: one optional sign, then the digits. */
  function ParseStripped(t: string): Option<int>
  {
    if |t| > 0 && (t[0] == '+' || t[0] == '-') then SignedValue(t[0] == '-', t[1..])
    else SignedValue(false, t)
  }

  /** `int(s)`: Some(value), or None where Python raises ValueError. */
  function ParseInt(s: string): Option<int>
  {
    ParseStripped(Strip(s))
  }

  function DigitChar(d: nat): (c: char)
    requires d < 10
    ensures IsDigit(c) && c as int - '0' as int == d
  {
    ('0' as int + d) as char
  }

  /** `str(n)` for a natural number: its decimal digits. */
  function NatToString(n: nat): (s: string)
    ensures |s| > 0
    ensures forall i :: 0 <= i < |s| ==> IsDigit(s[i])
  {
    if n < 10 then [DigitChar(n)] else NatToString(n / 10) + [DigitChar(n % 10)]
  }

  /** `str(n)`. */
  function Str(n: int): string
  {
    if n < 0 then "-" + NatToString(-n) else NatToString(n)
  }

  lemma {:induction false} NatToStringValue(n: nat)
    ensures DigitsValue(NatToString(n)) == n
  {
    if n >= 10 {
      var s := NatToString(n);
      assert s[..|s| - 1] == NatToString(n / 10);
      NatToStringValue(n / 10);
    }
  }

  lemma AllDigitsWellFormed(s: string)
    requires |s| > 0 && forall i :: 0 <= i < |s| ==> IsDigit(s[i])
    ensures WellFormedDigits(s)
  {
  }

  lemma SignedValueOfDigits(negative: bool, d: string)
    requires WellFormedDigits(d)
    ensures SignedValue(negative, d) == Some(if negative then -(DigitsValue(d) as int) else DigitsValue(d))
  {
  }

  lemma StripUnpadded(s: string)
    requires |s| > 0 && !IsSpace(s[0]) && !IsSpace(s[|s| - 1])
    ensures Strip(s) == s
  {
  }

  /** An unsigned digit string reads as its value. */
  lemma ParseIntOfDigits(d: string)
    requires |d| > 0 && forall i :: 0 <= i < |d| ==> IsDigit(d[i])
    ensures ParseInt(d) == Some(DigitsValue(d))
  {
    StripUnpadded(d);
    AllDigitsWellFormed(d);
    assert ParseStripped(d) == SignedValue(false, d);
    SignedValueOfDigits(false, d);
  }

  /** A digit string after '-' reads as the negated value. */
  lemma ParseIntOfNegative(d: string)
    requires |d| > 0 && forall i :: 0 <= i < |d| ==> IsDigit(d[i])
    ensures ParseInt("-" + d) == Some(-(DigitsValue(d) as int))
  {
    var s := "-" + d;
    assert s[0] == '-' && s[1..] == d;
    assert s[|s| - 1] == d[|d| - 1];
    StripUnpadded(s);
    assert ParseInt(s) == ParseStripped(s);
    assert ParseStripped(s) == SignedValue(true, d);
    AllDigitsWellFormed(d);
    SignedValueOfDigits(true, d);
  }

  /** `int(str(n)) == n` for every integer. */
  lemma ParseIntOfStr(n: int)
    ensures ParseInt(Str(n)) == Some(n)
  {
    if n < 0 {
      ParseIntOfStrNegative(n);
    } else {
      ParseIntOfStrNatural(n);
    }
  }

  lemma ParseIntOfStrNegative(n: int)
    requires n < 0
    ensures ParseInt(Str(n)) == Some(n)
  {
    var m: nat := -n;
    var d := NatToString(m);
    assert Str(n) == "-" + d;
    assert DigitsValue(d) == m by {
      NatToStringValue(m);
    }
    ParseIntOfNegative(d);
  }

  lemma ParseIntOfStrNatural(n: nat)
    ensures ParseInt(Str(n)) == Some(n)
  {
    var d := NatToString(n);
    assert Str(n) == d;
    assert DigitsValue(d) == n by {
      NatToStringValue(n);
    }
    ParseIntOfDigits(d);
  }

  lemma StripPadded(lead: string, s: string, trail: string)
    requires forall i :: 0 <= i < |lead| ==> IsSpace(lead[i])
    requires forall i :: 0 <= i < |trail| ==> IsSpace(trail[i])
    requires |s| > 0 && !IsSpace(s[0]) && !IsSpace(s[|s| - 1])
    ensures Strip(lead + s + trail) == Strip(s)
  {
    var tail := s + trail;
    assert tail[0] == s[0];
    StripLeadingPad(lead, tail);
    StripTrailingPad(s, trail);
    assert lead + s + trail == lead + tail;
    StripUnpadded(s);
  }

  /** Leading and trailing whitespace, each of any length, does not change what `int()` reads. */
  lemma ParseIntIgnoresPadding(lead: string, s: string, trail: string)
    requires forall i :: 0 <= i < |lead| ==> IsSpace(lead[i])
    requires forall i :: 0 <= i < |trail| ==> IsSpace(trail[i])
    requires |s| > 0 && !IsSpace(s[0]) && !IsSpace(s[|s| - 1])
    ensures ParseInt(lead + s + trail) == ParseInt(s)
  {
    StripPadded(lead, s, trail);
    ParseIntReadsStripped(lead + s + trail, s);
  }

  lemma ParseIntReadsStripped(a: string, b: string)
    requires Strip(a) == Strip(b)
    ensures ParseInt(a) == ParseInt(b)
  {
  }

  lemma {:induction false} StripLeadingPad(pad: string, s: string)
    requires forall i :: 0 <= i < |pad| ==> IsSpace(pad[i])
    requires |s| > 0 && !IsSpace(s[0])
    ensures StripLeading(pad + s) == s
  {
    if |pad| > 0 {
      assert (pad + s)[1..] == pad[1..] + s;
      StripLeadingPad(pad[1..], s);
    }
  }

  lemma {:induction false} StripTrailingPad(s: string, pad: string)
    requires forall i :: 0 <= i < |pad| ==> IsSpace(pad[i])
    requires |s| > 0 && !IsSpace(s[|s| - 1])
    ensures StripTrailing(s + pad) == s
  {
    if |pad| > 0 {
      assert (s + pad)[..|s + pad| - 1] == s + pad[..|pad| - 1];
      StripTrailingPad(s, pad[..|pad| - 1]);
    }
  }
}
