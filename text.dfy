/**
 * The string operations the report is built from: Python's
 * `"\n".join(...)`, its inverse `str.split("\n")`, and the decimal
 * rendering of a count in an f-string.
 */
module Text {

  /** `"\n".join(lines)`: separators only between lines, none at the end. */
  function Join(lines: seq<string>): (r: string)
    ensures |lines| == 0 ==> r == ""
    ensures |lines| > 0 ==> |r| >= |lines[0]| && r[..|lines[0]|] == lines[0]
    ensures |lines| > 0 ==> |r| >= |lines[|lines| - 1]| && r[|r| - |lines[|lines| - 1]|..] == lines[|lines| - 1]
  {
    if |lines| == 0 then ""
    else if |lines| == 1 then lines[0]
    else lines[0] + "\n" + Join(lines[1..])
  }

  /** Index of the first newline in `s`, or |s| when there is none. */
  function NewlineIndex(s: string): (k: nat)
    ensures k <= |s|
    ensures k < |s| ==> s[k] == '\n'
    ensures forall i :: 0 <= i < k ==> s[i] != '\n'
  {
    if |s| == 0 || s[0] == '\n' then 0 else 1 + NewlineIndex(s[1..])
  }

  /** `s.split("\n")`: always at least one piece, none holding a newline. */
  function Split(s: string): (pieces: seq<string>)
    ensures |pieces| >= 1
    ensures forall i :: 0 <= i < |pieces| ==> '\n' !in pieces[i]
    decreases |s|
  {
    var k := NewlineIndex(s);
    if k == |s| then [s] else [s[..k]] + Split(s[k + 1..])
  }

  lemma {:induction false} NewlineIndexAfter(a: string, b: string)
    requires '\n' !in a
    ensures NewlineIndex(a + "\n" + b) == |a|
  {
    if |a| > 0 {
      assert (a + "\n" + b)[1..] == a[1..] + "\n" + b;
      NewlineIndexAfter(a[1..], b);
    }
  }

  /** Splitting a joined report on newlines gives back its lines. */
  lemma {:induction false} SplitJoin(lines: seq<string>)
    requires |lines| >= 1
    requires forall i :: 0 <= i < |lines| ==> '\n' !in lines[i]
    ensures Split(Join(lines)) == lines
  {
    if |lines| == 1 {
      assert NewlineIndex(lines[0]) == |lines[0]|;
    } else {
      var head, rest := lines[0], Join(lines[1..]);
      var s := head + "\n" + rest;
      assert Join(lines) == s;
      NewlineIndexAfter(head, rest);
      assert s[..|head|] == head;
      assert s[|head| + 1..] == rest;
      assert Split(s) == [head] + Split(rest);
      SplitJoin(lines[1..]);
      assert lines == [head] + lines[1..];
    }
  }

  /** Joining is empty exactly when there are no lines, if no line is empty. */
  lemma {:induction false} JoinEmpty(lines: seq<string>)
    requires forall i :: 0 <= i < |lines| ==> lines[i] != ""
    ensures Join(lines) == "" <==> |lines| == 0
  {
    if |lines| > 1 {
      assert |Join(lines)| >= |lines[0]| + 1;
    }
  }

  predicate IsDigit(c: char) { '0' <= c <= '9' }

  predicate AllDigits(s: string) { forall i :: 0 <= i < |s| ==> IsDigit(s[i]) }

  function DigitChar(d: nat): (c: char)
    requires d < 10
    ensures IsDigit(c) && c as int - '0' as int == d
  {
    (d + '0' as int) as char
  }

  /** `f"{n}"` for a non-negative int: its decimal digits, most significant first. */
  function NatToString(n: nat): (s: string)
    ensures |s| >= 1 && AllDigits(s)
    ensures '\n' !in s
  {
    if n < 10 then [DigitChar(n)] else NatToString(n / 10) + [DigitChar(n % 10)]
  }

  /** Reads a string of decimal digits back as a number. */
  function ParseNat(s: string): nat
    requires AllDigits(s)
  {
    if |s| == 0 then 0 else ParseNat(s[..|s| - 1]) * 10 + (s[|s| - 1] as int - '0' as int)
  }

  lemma {:induction false} ParseNatToString(n: nat)
    ensures ParseNat(NatToString(n)) == n
  {
    if n >= 10 {
      var s := NatToString(n);
      assert s[..|s| - 1] == NatToString(n / 10);
      ParseNatToString(n / 10);
    }
  }

  /** The longest suffix of `s` made of decimal digits. */
  function TrailingDigits(s: string): (d: string)
    ensures |d| <= |s| && d == s[|s| - |d|..] && AllDigits(d)
  {
    if |s| > 0 && IsDigit(s[|s| - 1]) then TrailingDigits(s[..|s| - 1]) + [s[|s| - 1]] else ""
  }

  lemma {:induction false} TrailingDigitsAfter(p: string, d: string)
    requires AllDigits(d)
    requires |p| > 0 && !IsDigit(p[|p| - 1])
    ensures TrailingDigits(p + d) == d
  {
    if |d| > 0 {
      var s := p + d;
      assert s[..|s| - 1] == p + d[..|d| - 1];
      TrailingDigitsAfter(p, d[..|d| - 1]);
      assert d == d[..|d| - 1] + [d[|d| - 1]];
    } else {
      assert p + d == p;
    }
  }
}
