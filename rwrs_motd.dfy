/**
 * `rwrs/motd.py`: the message of the day, kept in the file `motd` as a
 * type line followed by the message. The file is a field holding its
 * text, `None` when it does not exist. Reading is in text mode, as
 * `open` does by default: universal newlines turn `"\r\n"` and `"\r"`
 * into `"\n"` before `splitlines` runs.
 */
module RwrsMotd {
  import opened Wrappers
  import Text

  /** `Types`: the values a message type may take. */
  predicate IsType(t: string)
  {
    t == "success" || t == "error" || t == "info"
  }

  /** The `ValueError` that `Types(value)` raises for any other value. */
  datatype MotdError = ValueError

  datatype Motd = Motd(motdType: string, message: string)

  /** The line boundaries of `str.splitlines`. */
  predicate IsLineBreak(c: char)
  {
    var n := c as int;
    (10 <= n <= 13) || (28 <= n <= 30) || n == 0x85 || n == 0x2028 || n == 0x2029
  }

  /** Index of the first line boundary, or -1. */
  function FirstBreak(s: string): (k: int)
    ensures -1 <= k < |s|
    ensures k >= 0 ==> IsLineBreak(s[k]) && forall i :: 0 <= i < k ==> !IsLineBreak(s[i])
    ensures k == -1 ==> forall i :: 0 <= i < |s| ==> !IsLineBreak(s[i])
  {
    if s == [] then -1
    else if IsLineBreak(s[0]) then 0
    else
      var k := FirstBreak(s[1..]);
      assert forall i :: 1 <= i < |s| ==> s[i] == s[1..][i - 1];
      if k == -1 then -1 else k + 1
  }

  /** `str.splitlines()`: the lines without their ends; `"\r\n"` is one end, and a last end opens no empty line. */
  function SplitLines(s: string): (r: seq<string>)
    decreases |s|
  {
    if s == [] then []
    else
      var k := FirstBreak(s);
      if k == -1 then [s]
      else
        var width := if s[k] == '\r' && k + 1 < |s| && s[k + 1] == '\n' then 2 else 1;
        [s[..k]] + SplitLines(s[k + width..])
  }

  /** Universal newlines on reading: `"\r\n"` and a lone `"\r"` become `"\n"`. */
  function Universal(s: string): (r: string)
    decreases |s|
  {
    if s == [] then []
    else if s[0] == '\r' then "\n" + Universal(if |s| > 1 && s[1] == '\n' then s[2..] else s[1..])
    else [s[0]] + Universal(s[1..])
  }

  /** The text `save` writes. */
  function Written(motdType: string, message: string): string
  {
    motdType + "\n" + message
  }

  /** What `get` makes of the file's text. */
  function Read(content: Option<string>): (r: Result<Option<Motd>, MotdError>)
    ensures content.None? ==> r == Success(None)
  {
    if content.None? then Success(None)
    else
      var lines := SplitLines(Universal(content.value));
      if |lines| <= 1 then Success(None)
      else if !IsType(lines[0]) then Failure(ValueError)
      else Success(Some(Motd(lines[0], Text.Join(lines[1..], "\n"))))
  }

  lemma {:induction false} UniversalNoReturn(s: string)
    requires '\r' !in s
    ensures Universal(s) == s
  {
    if s != [] {
      UniversalNoReturn(s[1..]);
    }
  }

  /** A message whose only line ends are inner `"\n"` splits into lines exactly as `split('\n')` does. */
  lemma {:induction false} SplitLinesOfNewlines(m: string)
    requires m != [] && m[|m| - 1] != '\n'
    requires forall i :: 0 <= i < |m| ==> IsLineBreak(m[i]) ==> m[i] == '\n'
    ensures SplitLines(m) == Text.Split(m, '\n')
    decreases |m|
  {
    var k := FirstBreak(m);
    FirstBreakIsNewline(m);
    if k != -1 {
      var rest := m[k + 1..];
      NewlinesOnlyTail(m, k);
      SplitLinesAtNewline(m, k);
      SplitLinesOfNewlines(rest);
    }
  }

  /** Both splits cut a line off at a first boundary that is a `"\n"`. */
  lemma SplitLinesAtNewline(m: string, k: int)
    requires 0 <= k < |m| && k == FirstBreak(m) && k == Text.FindChar(m, '\n')
    ensures SplitLines(m) == [m[..k]] + SplitLines(m[k + 1..])
    ensures Text.Split(m, '\n') == [m[..k]] + Text.Split(m[k + 1..], '\n')
  {
    assert m[k] == '\n';
    SplitLinesAt(m, k);
  }

  lemma SplitLinesAt(m: string, k: int)
    requires 0 <= k < |m| && k == FirstBreak(m) && m[k] == '\n'
    ensures SplitLines(m) == [m[..k]] + SplitLines(m[k + 1..])
  {
    assert m != [] && m[k] != '\r';
  }

  /** When `"\n"` is the only line boundary there is, the first boundary is the first `"\n"`. */
  lemma FirstBreakIsNewline(m: string)
    requires forall i :: 0 <= i < |m| ==> IsLineBreak(m[i]) ==> m[i] == '\n'
    ensures FirstBreak(m) == Text.FindChar(m, '\n')
  {
    var k := FirstBreak(m);
    if k == -1 {
      assert '\n' !in m by {
        forall i | 0 <= i < |m| ensures m[i] != '\n' { assert !IsLineBreak(m[i]); }
      }
    } else {
      assert m[k] == '\n';
      assert '\n' !in m[..k] by {
        forall i | 0 <= i < k ensures m[..k][i] != '\n' { assert !IsLineBreak(m[i]); }
      }
    }
  }

  lemma NewlinesOnlyTail(m: string, k: int)
    requires 0 <= k < |m| - 1
    requires forall i :: 0 <= i < |m| ==> IsLineBreak(m[i]) ==> m[i] == '\n'
    ensures var rest := m[k + 1..];
      rest != [] && rest[|rest| - 1] == m[|m| - 1]
      && forall i :: 0 <= i < |rest| ==> IsLineBreak(rest[i]) ==> rest[i] == '\n'
  {
    var rest := m[k + 1..];
    assert forall i :: 0 <= i < |rest| ==> rest[i] == m[k + 1 + i];
  }

  /** No message type holds a line boundary. */
  lemma TypeIsOneLine(t: string)
    requires IsType(t)
    ensures forall i :: 0 <= i < |t| ==> !IsLineBreak(t[i])
  {
  }

  lemma {:induction false} FirstBreakAfter(a: string, b: string)
    requires forall i :: 0 <= i < |a| ==> !IsLineBreak(a[i])
    ensures FirstBreak(a + "\n" + b) == |a|
  {
    if a != [] {
      assert (a + "\n" + b)[1..] == a[1..] + "\n" + b;
      FirstBreakAfter(a[1..], b);
    }
  }

  /** The written text reads back as the type line followed by the message's own lines. */
  lemma WrittenLines(motdType: string, message: string)
    requires IsType(motdType)
    requires forall i :: 0 <= i < |message| ==> message[i] != '\r'
    ensures SplitLines(Universal(Written(motdType, message))) == [motdType] + SplitLines(message)
  {
    var w := Written(motdType, message);
    WrittenNoReturn(motdType, message);
    UniversalNoReturn(w);
    TypeIsOneLine(motdType);
    FirstBreakAfter(motdType, message);
    SplitAtBreak(motdType, message);
  }

  lemma WrittenNoReturn(motdType: string, message: string)
    requires IsType(motdType)
    requires forall i :: 0 <= i < |message| ==> message[i] != '\r'
    ensures '\r' !in Written(motdType, message)
  {
    assert '\r' !in motdType;
    assert '\r' !in message;
  }

  lemma SplitAtBreak(a: string, b: string)
    requires FirstBreak(a + "\n" + b) == |a|
    ensures SplitLines(a + "\n" + b) == [a] + SplitLines(b)
  {
    var w := a + "\n" + b;
    assert w[..|a|] == a;
    assert w[|a| + 1..] == b;
  }

  /** After `save(t, m)`, `get` gives back `t` and `m`, for a message with inner `"\n"` line ends only. */
  lemma RoundTrip(motdType: string, message: string)
    requires IsType(motdType)
    requires message != [] && message[|message| - 1] != '\n'
    requires forall i :: 0 <= i < |message| ==> IsLineBreak(message[i]) ==> message[i] == '\n'
    ensures Read(Some(Written(motdType, message))) == Success(Some(Motd(motdType, message)))
  {
    WrittenLines(motdType, message);
    SplitLinesOfNewlines(message);
    Text.JoinSplit(message, '\n');
    var lines := [motdType] + SplitLines(message);
    assert lines[1..] == SplitLines(message);
    assert |lines| > 1;
  }

  /** A file holding only a type line, or nothing, shows no message. */
  lemma OneLineShowsNothing(motdType: string)
    requires IsType(motdType)
    ensures Read(Some(motdType)) == Success(None)
    ensures Read(Some(Written(motdType, ""))) == Success(None)
  {
    TypeIsOneLine(motdType);
    assert '\r' !in motdType;
    UniversalNoReturn(motdType);
    assert FirstBreak(motdType) == -1;
    assert SplitLines(motdType) == [motdType];
    WrittenLines(motdType, "");
    assert SplitLines(Universal(Written(motdType, ""))) == [motdType];
  }

  /** The `motd` file. */
  class MotdFile {
    var content: Option<string>

    constructor ()
      ensures content.None?
    {
      content := None;
    }

    /** `remove`: `True` exactly when the file existed; afterwards it does not. */
    method Remove() returns (existed: bool)
      modifies this
      ensures existed <==> old(content).Some?
      ensures content.None?
    {
      existed := content.Some?;
      content := None;
    }

    /** `save`: an unknown type raises before the file is opened. */
    method Save(motdType: string, message: string) returns (r: Result<(), MotdError>)
      modifies this
      ensures r.Failure? <==> !IsType(motdType)
      ensures r.Failure? ==> content == old(content)
      ensures r.Success? ==> content == Some(Written(motdType, message))
    {
      if !IsType(motdType) {
        return Failure(ValueError);
      }
      content := Some(Written(motdType, message));
      return Success(());
    }

    /** `get`. */
    function Get(): (r: Result<Option<Motd>, MotdError>)
      reads this
      ensures r == Read(content)
      ensures r.Success? && r.value.Some? ==> IsType(r.value.value.motdType)
    {
      Read(content)
    }
  }
}
