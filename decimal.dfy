/** Decimal text of integers: `str(n)` / `String(n)`, and Python's `int(text)` over ASCII digits. */
module Decimal {
  import opened Wrappers
  import Text

  predicate IsDigit(c: char)
  {
    '0' <= c <= '9'
  }

  predicate AllDigits(s: string)
  {
    forall i :: 0 <= i < |s| ==> IsDigit(s[i])
  }

  function DigitValue(c: char): (d: nat)
    requires IsDigit(c)
    ensures d < 10
  {
    c as int - '0' as int
  }

  function DigitChar(d: nat): (c: char)
    requires d < 10
    ensures IsDigit(c) && DigitValue(c) == d
  {
    ('0' as int + d) as char
  }

  /** Value of a run of decimal digits (the empty run is 0). */
  function DigitsValue(s: string): nat
    requires AllDigits(s)
  {
    if s == [] then 0 else DigitsValue(s[..|s| - 1]) * 10 + DigitValue(s[|s| - 1])
  }

  /** Length of the longest run of decimal digits at the start of `s` (what a greedy `\d+` consumes). */
  function DigitPrefix(s: string): (n: nat)
    ensures n <= |s| && AllDigits(s[..n])
    ensures n == |s| || !IsDigit(s[n])
  {
    if s == [] || !IsDigit(s[0]) then 0
    else
      var n := DigitPrefix(s[1..]);
      assert s[..n + 1] == [s[0]] + s[1..][..n];
      n + 1
  }

  /** A digit run followed by a non-digit is exactly the leading digit run. */
  lemma {:induction false} DigitPrefixOf(d: string, rest: string)
    requires AllDigits(d)
    requires rest == [] || !IsDigit(rest[0])
    ensures DigitPrefix(d + rest) == |d|
  {
    if d != [] {
      assert (d + rest)[1..] == d[1..] + rest;
      DigitPrefixOf(d[1..], rest);
    }
  }

  /** `str(n)` for a natural number: the shortest decimal text of `n`. */
  function NatToString(n: nat): (r: string)
    ensures |r| >= 1 && AllDigits(r)
    ensures r[0] == '0' ==> n == 0
  {
    if n < 10 then [DigitChar(n)] else NatToString(n / 10) + [DigitChar(n % 10)]
  }

  lemma {:induction false} NatToStringValue(n: nat)
    ensures DigitsValue(NatToString(n)) == n
  {
    if n >= 10 {
      NatToStringValue(n / 10);
      var r := NatToString(n);
      assert r[..|r| - 1] == NatToString(n / 10);
    }
  }

  /** `str(i)` for any integer: a minus sign, then the digits of the magnitude. */
  function IntToString(i: int): (r: string)
    ensures |r| >= 1
    ensures i >= 0 <==> r[0] != '-'
  {
    if i < 0 then "-" + NatToString(-i) else NatToString(i)
  }

  /**
   * The digit part `int()` accepts in base 10: digits, where single underscores may
   * separate two digits (`"1_000"`), but not lead, trail or repeat.
   */
  predicate Grouped(s: string)
    decreases |s|
  {
    |s| >= 1 && IsDigit(s[0])
    && (|s| == 1 || if s[1] == '_' then Grouped(s[2..]) else Grouped(s[1..]))
  }

  /** The text with its underscores removed. */
  function Ungrouped(s: string): string
  {
    if s == [] then [] else (if s[0] == '_' then [] else [s[0]]) + Ungrouped(s[1..])
  }

  lemma {:induction false} UngroupedDigits(s: string)
    requires Grouped(s)
    ensures AllDigits(Ungrouped(s))
    decreases |s|
  {
    if |s| > 1 {
      if s[1] == '_' {
        UngroupedDigits(s[2..]);
        assert s[1..][1..] == s[2..];
      } else {
        UngroupedDigits(s[1..]);
      }
    }
  }

  lemma {:induction false} UngroupedAppend(a: string, b: string)
    ensures Ungrouped(a + b) == Ungrouped(a) + Ungrouped(b)
  {
    if a == [] {
      assert a + b == b;
    } else {
      assert (a + b)[1..] == a[1..] + b;
      UngroupedAppend(a[1..], b);
    }
  }

  lemma {:induction false} UngroupedOfDigits(s: string)
    requires AllDigits(s)
    ensures Ungrouped(s) == s
  {
    if s != [] {
      UngroupedOfDigits(s[1..]);
    }
  }

  /** A non-empty digit run is an accepted digit part. */
  lemma {:induction false} GroupedDigits(s: string)
    requires |s| >= 1 && AllDigits(s)
    ensures Grouped(s)
    decreases |s|
  {
    if |s| > 1 {
      GroupedDigits(s[1..]);
    }
  }

  /** The value of the digit part after the sign, if `int()` accepts it. */
  function Magnitude(body: string): (r: Option<int>)
    ensures r.Some? <==> Grouped(body)
    ensures r.Some? ==> r.value >= 0
  {
    if Grouped(body) then
      UngroupedDigits(body);
      Some(DigitsValue(Ungrouped(body)))
    else None
  }

  /** A plain digit run is accepted with its usual value. */
  lemma MagnitudeOfDigits(d: string)
    requires |d| >= 1 && AllDigits(d)
    ensures Magnitude(d) == Some(DigitsValue(d))
  {
    GroupedDigits(d);
    UngroupedOfDigits(d);
  }

  /**
   * Python `int(text)`: surrounding whitespace, an optional sign, then ASCII digits,
   * single underscores allowed between two of them.
   */
  function ParseInt(text: string): Option<int>
  {
    Signed(Text.Strip(text))
  }

  /** The stripped text read as an optional sign and a digit part. */
  function Signed(t: string): Option<int>
  {
    var signed := |t| >= 1 && (t[0] == '-' || t[0] == '+');
    WithSign(signed && t[0] == '-', Magnitude(if signed then t[1..] else t))
  }

  function WithSign(negative: bool, m: Option<int>): Option<int>
  {
    match m
    case Some(v) => Some(if negative then -v else v)
    case None => None
  }

  /** A digit run reads as its value. */
  lemma SignedDigits(d: string)
    requires |d| >= 1 && AllDigits(d)
    ensures Signed(d) == Some(DigitsValue(d))
  {
    MagnitudeOfDigits(d);
    assert !(d[0] == '-' || d[0] == '+');
  }

  /** A digit run after a minus sign reads as its negated value. */
  lemma SignedNegative(t: string)
    requires |t| >= 2 && t[0] == '-' && AllDigits(t[1..])
    ensures Signed(t) == Some(-(DigitsValue(t[1..]) as int))
  {
    MagnitudeOfDigits(t[1..]);
  }

  /** Two digit runs joined by an underscore form an accepted digit part. */
  lemma {:induction false} GroupedJoin(a: string, b: string)
    requires |a| >= 1 && |b| >= 1 && AllDigits(a) && AllDigits(b)
    ensures Grouped(a + "_" + b)
    decreases |a|
  {
    var g := a + "_" + b;
    assert g[0] == a[0];
    if |a| == 1 {
      assert g[1] == '_' && g[2..] == b;
      GroupedDigits(b);
    } else {
      assert g[1] == a[1] && g[1..] == a[1..] + "_" + b;
      GroupedJoin(a[1..], b);
    }
  }

  /** Removing the underscore of such a join gives back the two runs. */
  lemma UngroupedJoin(a: string, b: string)
    requires AllDigits(a) && AllDigits(b)
    ensures Ungrouped(a + "_" + b) == a + b
  {
    var g := a + "_" + b;
    var rest := g[|a|..];
    assert g == a + rest;
    assert rest[0] == '_' && rest[1..] == b;
    assert Ungrouped(rest) == Ungrouped(b);
    UngroupedAppend(a, rest);
    UngroupedOfDigits(a);
    UngroupedOfDigits(b);
  }

  /** An underscore between two digit runs is ignored: `int("1_000") == int("1000")`. */
  lemma ParseIntUnderscore(a: string, b: string)
    requires |a| >= 1 && |b| >= 1 && AllDigits(a) && AllDigits(b)
    ensures ParseInt(a + "_" + b) == ParseInt(a + b) == Some(DigitsValue(a + b))
  {
    var g, d := a + "_" + b, a + b;
    assert AllDigits(d);
    assert g[0] == a[0] && g[|g| - 1] == b[|b| - 1];
    assert !Text.IsSpace(g[0]) && !Text.IsSpace(g[|g| - 1]);
    assert !Text.IsSpace(d[0]) && !Text.IsSpace(d[|d| - 1]);
    Text.StripNoSpace(g);
    Text.StripNoSpace(d);
    SignedDigits(d);
    GroupedJoin(a, b);
    UngroupedJoin(a, b);
    assert !(g[0] == '-' || g[0] == '+');
  }

  /** Every integer reads back from its own decimal text. */
  lemma IntToStringRoundTrip(i: int)
    ensures ParseInt(IntToString(i)) == Some(i)
  {
    var r := IntToString(i);
    var digits := if i < 0 then NatToString(-i) else NatToString(i);
    NatToStringValue(if i < 0 then -i else i);
    assert !Text.IsSpace(r[0]) && !Text.IsSpace(r[|r| - 1]);
    Text.StripNoSpace(r);
    if i < 0 {
      assert r[1..] == digits;
      SignedNegative(r);
    } else {
      SignedDigits(digits);
    }
  }

  /** Text that is not an integer literal, such as `"True"`, is refused. */
  lemma ParseIntRejectsWords(word: string)
    requires word == "True" || word == "False"
    ensures ParseInt(word) == None
  {
    assert !Text.IsSpace(word[0]) && !Text.IsSpace(word[|word| - 1]);
    Text.StripNoSpace(word);
    assert !IsDigit(word[0]) && word[0] != '-' && word[0] != '+';
  }
}
