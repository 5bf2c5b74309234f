/**
 * The few string operations of the .NET base library that the modelled code relies on:
 * ordinal substring search, `string.IsNullOrWhiteSpace`, `StringBuilder.AppendLine` /
 * `TextWriter.WriteLine` line termination and the decimal formatting of an `int`.
 */
module Text {
  import opened Wrappers

  /** `Environment.NewLine`, which the model fixes to a line feed. */
  const NewLine: string := "\n"

  predicate StartsWith(s: string, prefix: string) {
    |prefix| <= |s| && s[..|prefix|] == prefix
  }

  /** `sub` occurs in `s` starting at index `i`. */
  predicate OccursAt(s: string, sub: string, i: int) {
    0 <= i && i + |sub| <= |s| && s[i..i + |sub|] == sub
  }

  /** `s.Contains(sub)`: ordinal substring search, scanning from the left. */
  predicate Contains(s: string, sub: string)
    decreases |s|
  {
    StartsWith(s, sub) || (|s| > 0 && Contains(s[1..], sub))
  }

  /** The scan finds `sub` exactly when it occurs somewhere in `s`. */
  lemma {:induction false} ContainsIff(s: string, sub: string)
    ensures Contains(s, sub) <==> exists i :: OccursAt(s, sub, i)
    decreases |s|
  {
    if Contains(s, sub) {
      if StartsWith(s, sub) {
        assert OccursAt(s, sub, 0);
      } else {
        ContainsIff(s[1..], sub);
        var j :| OccursAt(s[1..], sub, j);
        assert s[1..][j..j + |sub|] == s[j + 1..j + 1 + |sub|];
        assert OccursAt(s, sub, j + 1);
      }
    }
    if exists i :: OccursAt(s, sub, i) {
      var i :| OccursAt(s, sub, i);
      if i > 0 {
        assert s[1..][i - 1..i - 1 + |sub|] == s[i..i + |sub|];
        assert OccursAt(s[1..], sub, i - 1);
        ContainsIff(s[1..], sub);
      }
    }
  }

  /** `char.IsWhiteSpace`: the characters of Unicode's White_Space property. */
  predicate IsWhiteSpace(c: char) {
    || ('\t' <= c <= '\r')
    || c == ' '
    || c == '\U{0085}'
    || c == '\U{00A0}'
    || c == '\U{1680}'
    || ('\U{2000}' <= c <= '\U{200A}')
    || c == '\U{2028}'
    || c == '\U{2029}'
    || c == '\U{202F}'
    || c == '\U{205F}'
    || c == '\U{3000}'
  }

  /**
   * `string.IsNullOrWhiteSpace(s)`: true for null, otherwise a scan from the
   * left that stops at the first character that is not white space.
   */
  function IsNullOrWhiteSpace(s: Option<string>): (blank: bool)
    ensures blank <==> s.None? || forall i :: 0 <= i < |s.value| ==> IsWhiteSpace(s.value[i])
  {
    s.None? || AllWhiteSpaceFrom(s.value, 0)
  }

  /** The scan's loop from index `i` on. */
  function AllWhiteSpaceFrom(s: string, i: nat): (blank: bool)
    ensures blank <==> forall j :: i <= j < |s| ==> IsWhiteSpace(s[j])
    decreases |s| - i
  {
    if i >= |s| then true
    else if !IsWhiteSpace(s[i]) then false
    else AllWhiteSpaceFrom(s, i + 1)
  }

  /** The text written by `AppendLine`/`WriteLine` for each of `lines`, in order. */
  function Terminated(lines: seq<string>): string {
    if lines == [] then ""
    else Terminated(lines[..|lines| - 1]) + lines[|lines| - 1] + NewLine
  }

  lemma {:induction false} TerminatedAppend(a: seq<string>, b: seq<string>)
    ensures Terminated(a + b) == Terminated(a) + Terminated(b)
    decreases |b|
  {
    if b == [] {
      assert a + b == a;
    } else {
      var b' := b[..|b| - 1];
      assert (a + b)[..|a + b| - 1] == a + b';
      TerminatedAppend(a, b');
    }
  }

  lemma TerminatedThree(a: string, b: string, c: string)
    ensures Terminated([a, b, c]) == a + NewLine + b + NewLine + c + NewLine
  {
    assert [a, b, c][..2] == [a, b];
    assert [a, b][..1] == [a];
    assert [a][..0] == [];
    assert Terminated([a]) == a + NewLine;
    assert Terminated([a, b]) == a + NewLine + b + NewLine;
  }

  /** Writing the first line and then the rest gives the same text. */
  lemma TerminatedCons(lines: seq<string>)
    requires lines != []
    ensures Terminated(lines) == lines[0] + NewLine + Terminated(lines[1..])
  {
    assert lines == [lines[0]] + lines[1..];
    TerminatedAppend([lines[0]], lines[1..]);
    assert [lines[0]][..0] == [];
  }

  predicate HasNoNewLine(s: string) {
    '\n' !in s
  }

  /** Joining two single-line texts gives a single-line text. */
  lemma NoNewLineConcat(a: string, b: string)
    requires HasNoNewLine(a) && HasNoNewLine(b)
    ensures HasNoNewLine(a + b)
  {
  }

  /** Index of the first line feed in `s`, or `|s|` when there is none. */
  function IndexOfNewLine(s: string): (i: nat)
    ensures i <= |s|
    ensures i < |s| ==> s[i] == '\n'
    ensures forall j :: 0 <= j < i ==> s[j] != '\n'
  {
    if s == [] then 0
    else if s[0] == '\n' then 0
    else IndexOfNewLine(s[1..]) + 1
  }

  /**
   * Reads text back as lines: every line feed ends a line; trailing text
   * without a line feed is a last, unterminated line.
   */
  function SplitLines(text: string): seq<string>
    decreases |text|
  {
    if text == [] then []
    else
      var i := IndexOfNewLine(text);
      if i == |text| then [text]
      else [text[..i]] + SplitLines(text[i + 1..])
  }

  /**
   * Text written line by line reads back as exactly those lines, as long
   * as no line itself contains a line feed.
   */
  lemma {:induction false} SplitTerminated(lines: seq<string>)
    requires forall k :: 0 <= k < |lines| ==> HasNoNewLine(lines[k])
    ensures SplitLines(Terminated(lines)) == lines
    decreases |lines|
  {
    if lines != [] {
      var text := Terminated(lines);
      var rest := Terminated(lines[1..]);
      var first := lines[0];
      TerminatedCons(lines);
      var n := |first|;
      assert text == (first + NewLine) + rest;
      assert text[..n] == first;
      assert text[n] == '\n';
      assert text[n + 1..] == rest;
      assert forall j :: 0 <= j < n ==> text[j] == first[j];
      assert HasNoNewLine(first);
      IndexOfNewLineOf(text, n);
      assert SplitLines(text) == [first] + SplitLines(rest);
      SplitTerminated(lines[1..]);
      assert lines == [first] + lines[1..];
    }
  }

  lemma IndexOfNewLineOf(s: string, n: nat)
    requires n < |s| && s[n] == '\n'
    requires forall j :: 0 <= j < n ==> s[j] != '\n'
    ensures IndexOfNewLine(s) == n
  {
  }

  // Decimal formatting of integers, as `int.ToString()` with the invariant culture.

  function DigitChar(d: nat): char
    requires d < 10
  {
    "0123456789"[d]
  }

  predicate IsDigit(c: char) {
    '0' <= c <= '9'
  }

  function DigitValue(c: char): nat
    requires IsDigit(c)
  {
    (c as int - '0' as int) as nat
  }

  predicate AllDigits(s: string) {
    forall i :: 0 <= i < |s| ==> IsDigit(s[i])
  }

  function NatToString(n: nat): (s: string)
    ensures |s| > 0 && AllDigits(s)
  {
    if n < 10 then [DigitChar(n)]
    else NatToString(n / 10) + [DigitChar(n % 10)]
  }

  /**
   * `n.ToString()`: a minus sign for negative numbers, then the decimal
   * digits. The sign is the invariant culture's `-`.
   */
  function IntToString(n: int): string {
    if n < 0 then "-" + NatToString(-n) else NatToString(n)
  }

  /** The text is a minus sign exactly for a negative number, followed by digits only. */
  lemma IntToStringShape(n: int)
    ensures var s := IntToString(n);
            && |s| > 0 && (s[0] == '-' <==> n < 0)
            && AllDigits(if n < 0 then s[1..] else s)
  {
    var d := NatToString(if n < 0 then -n else n);
    assert IsDigit(d[0]);
    if n < 0 {
      assert IntToString(n)[1..] == d;
    }
  }

  function ParseDigits(s: string): nat
    requires AllDigits(s)
  {
    if s == [] then 0
    else ParseDigits(s[..|s| - 1]) * 10 + DigitValue(s[|s| - 1])
  }

  /** Reads back what `IntToString` writes; `None` for anything else. */
  function ParseInt(s: string): Option<int> {
    if |s| > 1 && s[0] == '-' && AllDigits(s[1..]) then Some(-(ParseDigits(s[1..]) as int))
    else if |s| > 0 && AllDigits(s) then Some(ParseDigits(s))
    else None
  }

  lemma {:induction false} ParseNatToString(n: nat)
    ensures ParseDigits(NatToString(n)) == n
  {
    if n >= 10 {
      var s := NatToString(n);
      assert s[..|s| - 1] == NatToString(n / 10);
      ParseNatToString(n / 10);
      assert DigitValue(DigitChar(n % 10)) == n % 10;
    } else {
      assert DigitValue(DigitChar(n)) == n;
    }
  }

  /** The formatted exit code determines the exit code. */
  lemma IntToStringRoundTrip(n: int)
    ensures ParseInt(IntToString(n)) == Some(n)
  {
    if n < 0 {
      var d := NatToString(-n);
      var s := "-" + d;
      assert s == IntToString(n);
      assert s[1..] == d;
      assert |s| > 1 && s[0] == '-' && AllDigits(s[1..]);
      ParseNatToString(-n);
      assert ParseInt(s) == Some(-(ParseDigits(d) as int));
    } else {
      var d := NatToString(n);
      assert d == IntToString(n);
      assert IsDigit(d[0]);
      ParseNatToString(n);
      assert ParseInt(d) == Some(ParseDigits(d) as int);
    }
  }

  lemma IntToStringInjective(m: int, n: int)
    requires IntToString(m) == IntToString(n)
    ensures m == n
  {
    IntToStringRoundTrip(m);
    IntToStringRoundTrip(n);
  }
}
