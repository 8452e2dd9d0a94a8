/**
 * `helpers.py`: the display forms of a number of seconds and of an
 * integer. Python's `seconds / 86400` is a float division truncated by
 * `int()`; it is modelled as exact division truncated toward zero, which
 * agrees with it below `2^53`.
 */
module Helpers {
  import opened Decimal
  import Text

  // ---------------------------------------------------------------- humanize_seconds

  const SecondsPerDay: nat := 86400
  const SecondsPerHour: nat := 3600
  const SecondsPerMinute: nat := 60

  /** The four components `humanize_seconds` computes. */
  datatype Components = Components(days: int, hours: nat, minutes: nat, seconds: nat)

  /** `a == b * n + c` with `0 <= c < n` fixes `a / n` and `a % n`. */
  lemma DivModUnique(a: int, n: int, b: int, c: int)
    requires n > 0 && 0 <= c < n && a == b * n + c
    ensures a / n == b && a % n == c
  {
    var k := b - a / n;
    assert k * n == a % n - c;
    if k > 0 {
      MulAtLeast(k, n);
      assert false;
    } else if k < 0 {
      MulAtLeast(-k, n);
      assert false;
    }
  }

  lemma MulAtLeast(k: int, n: int)
    requires k >= 1 && n > 0
    ensures k * n >= n
  {
  }

  /**
   * The split of `seconds`: `d` truncated toward zero (`int(seconds / 86400)`),
   * the others from Python's `%`, which is never negative for a positive
   * modulus, like Dafny's.
   */
  function Split(seconds: int): (r: Components)
    ensures r.hours < 24 && r.minutes < 60 && r.seconds < 60
    ensures r.hours * SecondsPerHour + r.minutes * SecondsPerMinute + r.seconds == seconds % SecondsPerDay
    ensures seconds >= 0 ==> r.days == seconds / SecondsPerDay
    ensures seconds < 0 ==> r.days == -((-seconds) / SecondsPerDay)
  {
    var rest := seconds % SecondsPerDay;
    var h := rest / SecondsPerHour;
    var q := seconds / SecondsPerDay;
    assert seconds == (q * 24 + h) * SecondsPerHour + rest % SecondsPerHour;
    DivModUnique(seconds, SecondsPerHour, q * 24 + h, rest % SecondsPerHour);
    var m := (seconds % SecondsPerHour) / SecondsPerMinute;
    var q2 := seconds / SecondsPerHour;
    assert seconds == (q2 * 60 + m) * SecondsPerMinute + (seconds % SecondsPerHour) % SecondsPerMinute;
    DivModUnique(seconds, SecondsPerMinute, q2 * 60 + m, (seconds % SecondsPerHour) % SecondsPerMinute);
    Components(
      if seconds >= 0 then q else -((-seconds) / SecondsPerDay),
      h, m, seconds % SecondsPerMinute)
  }

  /** For a non-negative count the split adds back up to it. */
  lemma SplitAddsUp(seconds: int)
    requires seconds >= 0
    ensures var c := Split(seconds);
      c.days * SecondsPerDay + c.hours * SecondsPerHour + c.minutes * SecondsPerMinute + c.seconds == seconds
  {
  }

  /** Below two digits, `'{:>02}'` left-pads with a zero. */
  function Pad2(n: nat): (r: string)
    requires n < 100
    ensures |r| == 2 && AllDigits(r) && DigitsValue(r) == n
  {
    NatToStringValue(n);
    if n < 10 then "0" + NatToString(n) else NatToString(n)
  }

  /** The shown parts, in order: only the components that are not zero. */
  function Parts(c: Components): seq<string>
    requires c.minutes < 60 && c.seconds < 60
  {
    (if c.days != 0 then [IntToString(c.days) + "d"] else [])
    + (if c.hours != 0 then [NatToString(c.hours) + "h"] else [])
    + (if c.minutes != 0 then [Pad2(c.minutes) + "m"] else [])
    + (if c.seconds != 0 then [Pad2(c.seconds) + "s"] else [])
  }

  /** `humanize_seconds`: `''` for zero, otherwise the non-zero parts joined by spaces. */
  function HumanizeSeconds(seconds: int): (r: string)
    ensures r == "" <==> seconds == 0
  {
    if seconds == 0 then ""
    else
      var c := Split(seconds);
      NonZeroShowsPart(seconds);
      JoinNonEmpty(Parts(c));
      Text.Join(Parts(c), " ")
  }

  /** A count that is not zero has a component that is not zero, so `zip(*ret)` never sees an empty list. */
  lemma NonZeroShowsPart(seconds: int)
    requires seconds != 0
    ensures Parts(Split(seconds)) != []
  {
    var c := Split(seconds);
    if seconds > 0 {
      SplitAddsUp(seconds);
    } else if seconds % SecondsPerDay == 0 {
      DivModUnique(-seconds, SecondsPerDay, (-seconds) / SecondsPerDay, 0);
      assert c.days != 0;
    }
  }

  lemma JoinNonEmpty(parts: seq<string>)
    requires parts != [] && parts[0] != ""
    ensures Text.Join(parts, " ") != ""
  {
  }

  /** A part is shown for each component exactly when it is not zero, zero-padded for minutes and seconds. */
  lemma PartsShown(c: Components)
    requires c.minutes < 60 && c.seconds < 60
    ensures |Parts(c)| == (if c.days != 0 then 1 else 0) + (if c.hours != 0 then 1 else 0)
      + (if c.minutes != 0 then 1 else 0) + (if c.seconds != 0 then 1 else 0)
    ensures c.seconds != 0 ==> Parts(c)[|Parts(c)| - 1] == Pad2(c.seconds) + "s"
    ensures c.days != 0 ==> Parts(c)[0] == IntToString(c.days) + "d"
  {
  }

  // ---------------------------------------------------------------- humanize_integer

  /** Three-digit groups of a string whose length is a multiple of three. */
  function Threes(s: string): (r: seq<string>)
    requires |s| % 3 == 0
    ensures |r| == |s| / 3 && forall i :: 0 <= i < |r| ==> |r[i]| == 3
  {
    if s == [] then [] else [s[..3]] + Threes(s[3..])
  }

  /** The groups of `format(n, ',d')`: a first group of one to three digits, then groups of exactly three. */
  function Groups(digits: string): (r: seq<string>)
    requires |digits| >= 1
    ensures |r| >= 1 && 1 <= |r[0]| <= 3
    ensures forall i :: 1 <= i < |r| ==> |r[i]| == 3
  {
    var k := (|digits| - 1) % 3 + 1;
    [digits[..k]] + Threes(digits[k..])
  }

  /** `humanize_integer`: `'0'` for zero, otherwise the grouped digits separated by spaces. */
  function HumanizeInteger(i: int): string
  {
    if i == 0 then "0"
    else (if i < 0 then "-" else "") + Text.Join(Groups(NatToString(if i < 0 then -i else i)), " ")
  }

  /** `s.replace(' ', '')`. */
  function RemoveSpaces(s: string): (r: string)
    ensures ' ' !in r
  {
    if s == [] then [] else (if s[0] == ' ' then [] else [s[0]]) + RemoveSpaces(s[1..])
  }

  function Concat(parts: seq<string>): string
  {
    if parts == [] then [] else parts[0] + Concat(parts[1..])
  }

  lemma {:induction false} RemoveSpacesAppend(a: string, b: string)
    ensures RemoveSpaces(a + b) == RemoveSpaces(a) + RemoveSpaces(b)
  {
    if a == [] {
      assert a + b == b;
    } else {
      assert (a + b)[0] == a[0];
      assert (a + b)[1..] == a[1..] + b;
      RemoveSpacesAppend(a[1..], b);
    }
  }

  lemma {:induction false} RemoveSpacesDigits(s: string)
    requires AllDigits(s)
    ensures RemoveSpaces(s) == s
  {
    if s != [] {
      assert IsDigit(s[0]);
      RemoveSpacesDigits(s[1..]);
    }
  }

  lemma {:induction false} ThreesConcat(s: string)
    requires |s| % 3 == 0
    ensures Concat(Threes(s)) == s
  {
    if s != [] {
      ThreesConcat(s[3..]);
      assert s == s[..3] + s[3..];
    }
  }

  lemma {:induction false} GroupsConcat(digits: string)
    requires |digits| >= 1
    ensures Concat(Groups(digits)) == digits
  {
    var k := (|digits| - 1) % 3 + 1;
    ThreesConcat(digits[k..]);
    assert Groups(digits)[1..] == Threes(digits[k..]);
    assert digits == digits[..k] + digits[k..];
  }

  /** Removing the spaces of digit groups joined by spaces gives the digits back. */
  lemma {:induction false} RemoveSpacesJoin(parts: seq<string>)
    requires forall i :: 0 <= i < |parts| ==> AllDigits(parts[i])
    ensures RemoveSpaces(Text.Join(parts, " ")) == Concat(parts)
  {
    if |parts| == 1 {
      RemoveSpacesDigits(parts[0]);
      assert Concat(parts[1..]) == [];
      assert parts[0] + [] == parts[0];
    } else if |parts| > 1 {
      RemoveSpacesJoin(parts[1..]);
      RemoveSpacesDigits(parts[0]);
      RemoveSpacesAppend(parts[0] + " ", Text.Join(parts[1..], " "));
      RemoveSpacesAppend(parts[0], " ");
    }
  }

  lemma SlicesOfDigits(s: string, i: nat, j: nat)
    requires AllDigits(s) && i <= j <= |s|
    ensures AllDigits(s[i..j])
  {
    assert forall k :: 0 <= k < j - i ==> s[i..j][k] == s[i + k];
  }

  lemma {:induction false} ThreesDigits(s: string)
    requires |s| % 3 == 0 && AllDigits(s)
    ensures forall i :: 0 <= i < |Threes(s)| ==> AllDigits(Threes(s)[i])
  {
    if s != [] {
      SlicesOfDigits(s, 0, 3);
      SlicesOfDigits(s, 3, |s|);
      ThreesDigits(s[3..]);
    }
  }

  /** With the spaces taken out, `humanize_integer` is `str(i)`: the groups only insert spaces. */
  lemma HumanizeIntegerDigits(i: int)
    ensures RemoveSpaces(HumanizeInteger(i)) == IntToString(i)
  {
    if i != 0 {
      var digits := NatToString(if i < 0 then -i else i);
      var gs := Groups(digits);
      var k := (|digits| - 1) % 3 + 1;
      SlicesOfDigits(digits, 0, k);
      SlicesOfDigits(digits, k, |digits|);
      ThreesDigits(digits[k..]);
      assert gs[1..] == Threes(digits[k..]);
      assert forall j :: 0 <= j < |gs| ==> AllDigits(gs[j]) by {
        forall j | 0 <= j < |gs| ensures AllDigits(gs[j]) {
          if j > 0 { assert gs[j] == Threes(digits[k..])[j - 1]; }
        }
      }
      RemoveSpacesJoin(gs);
      GroupsConcat(digits);
      if i < 0 {
        RemoveSpacesAppend("-", Text.Join(gs, " "));
      } else {
        assert "" + Text.Join(gs, " ") == Text.Join(gs, " ");
      }
    }
  }
}
