/** `formatNumber`: `num.toString()` followed by the global replacement of the regular
    expression `\B(?=(\d{3})+(?!\d))` with a comma. The replacement is modelled on any string,
    as the regular expression defines it, and then applied to the decimal form of an integer. */
module NumberFormat {

  predicate IsDigit(c: char) {
    '0' <= c <= '9'
  }

  /** The regular-expression word characters `[A-Za-z0-9_]`. */
  predicate IsWordChar(c: char) {
    IsDigit(c) || 'a' <= c <= 'z' || 'A' <= c <= 'Z' || c == '_'
  }

  predicate AllDigits(s: string) {
    forall i :: 0 <= i < |s| ==> IsDigit(s[i])
  }

  /** `\B` at position `p`: the characters on either side are both word characters or both not
      (a missing character counts as not a word character). */
  predicate NotWordBoundary(s: string, p: int)
    requires 0 <= p <= |s|
  {
    (p > 0 && IsWordChar(s[p - 1])) == (p < |s| && IsWordChar(s[p]))
  }

  /** The number of consecutive digits starting at position `p`. */
  function DigitRun(s: string, p: int): (n: nat)
    requires 0 <= p <= |s|
    ensures p + n <= |s|
    ensures forall k :: p <= k < p + n ==> IsDigit(s[k])
    ensures p + n < |s| ==> !IsDigit(s[p + n])
    decreases |s| - p
  {
    if p == |s| || !IsDigit(s[p]) then 0 else 1 + DigitRun(s, p + 1)
  }

  /** The pattern matches the empty string at `p`: `\B` holds and `(\d{3})+(?!\d)` can match,
      that is the digits starting at `p` come in a positive number of complete triples. */
  predicate CommaAt(s: string, p: int)
    requires 0 <= p <= |s|
  {
    NotWordBoundary(s, p) && DigitRun(s, p) > 0 && DigitRun(s, p) % 3 == 0
  }

  /** The global replacement, from position `p` on: every match is an empty match, so a comma is
      inserted before each position where the pattern matches and every character is kept. */
  function ReplaceFrom(s: string, p: int): string
    requires 0 <= p <= |s|
    decreases |s| - p
  {
    if p == |s| then []
    else (if CommaAt(s, p) then "," else "") + [s[p]] + ReplaceFrom(s, p + 1)
  }

  function InsertCommas(s: string): string {
    ReplaceFrom(s, 0)
  }

  function DigitChar(d: int): (c: char)
    requires 0 <= d < 10
    ensures IsDigit(c)
  {
    ('0' as int + d) as char
  }

  /** The number a digit string denotes in base ten. */
  function DecimalValue(s: string): nat
    requires AllDigits(s)
    decreases |s|
  {
    if s == [] then 0 else DecimalValue(s[..|s| - 1]) * 10 + (s[|s| - 1] as int - '0' as int)
  }

  /** The decimal digits of `n`, without leading zeros. */
  function Digits(n: nat): (s: string)
    ensures |s| >= 1 && AllDigits(s)
    ensures DecimalValue(s) == n
    ensures |s| > 1 ==> s[0] != '0'
  {
    if n < 10 then [DigitChar(n)]
    else
      var front := Digits(n / 10);
      assert (front + [DigitChar(n % 10)])[..|front|] == front;
      front + [DigitChar(n % 10)]
  }

  /** `Number.prototype.toString()` of an integer: its decimal digits without leading zeros,
      after a minus sign when it is negative. */
  function IntToString(n: int): (r: string)
    ensures n >= 0 ==> AllDigits(r) && DecimalValue(r) == n
    ensures n < 0 ==> |r| >= 2 && r[0] == '-' && AllDigits(r[1..]) && DecimalValue(r[1..]) == -n
    ensures n >= 0 ==> |r| >= 1 && (|r| > 1 ==> r[0] != '0')
    ensures n < 0 ==> r[1] != '0'
    ensures forall i :: 0 <= i < |r| ==> r[i] != ','
  {
    if n < 0 then
      var d := Digits(-n);
      assert ("-" + d)[1..] == d;
      "-" + d
    else Digits(n)
  }

  /** `formatNumber(n)`. Removing its commas gives back `n.toString()`, and for a non-negative
      number it is comma-separated digit groups: a first group of one to three digits and every
      later group of exactly three. */
  function FormatNumber(n: int): (r: string)
    ensures StripCommas(r) == IntToString(n)
    ensures n >= 0 ==> Grouped(r)
  {
    var d := IntToString(n);
    StripReplaceFrom(d, 0);
    assert d[0..] == d;
    StripCommasNoComma(d);
    var m := if n < 0 then -n else n;
    InsertCommasGroupsDigits(Digits(m));
    GroupIsGrouped(Digits(m));
    InsertCommas(d)
  }

  /** The string with its commas removed. */
  function StripCommas(s: string): (r: string)
    ensures forall i :: 0 <= i < |r| ==> r[i] != ','
  {
    if s == [] then [] else (if s[0] == ',' then [] else [s[0]]) + StripCommas(s[1..])
  }

  /** A digit string split into groups of three from the right, joined by commas. */
  function Group(s: string): (r: string)
    ensures |s| >= 1 ==> |r| == |s| + (|s| - 1) / 3
    decreases |s|
  {
    if |s| <= 3 then s else Group(s[..|s| - 3]) + "," + s[|s| - 3..]
  }

  /** Comma-separated digit groups: a first group of one to three digits, every later group of
      exactly three. */
  predicate Grouped(t: string)
    decreases |t|
  {
    if |t| <= 3 then 1 <= |t| && AllDigits(t)
    else |t| >= 5 && t[|t| - 4] == ',' && AllDigits(t[|t| - 3..]) && Grouped(t[..|t| - 4])
  }

  lemma {:induction false} StripCommasAppend(a: string, b: string)
    ensures StripCommas(a + b) == StripCommas(a) + StripCommas(b)
  {
    if a == [] {
      assert a + b == b;
    } else {
      assert (a + b)[1..] == a[1..] + b;
      StripCommasAppend(a[1..], b);
    }
  }

  /** Removing the commas from the replacement's output gives back the input without commas:
      the replacement only ever inserts commas. */
  lemma {:induction false} StripReplaceFrom(s: string, p: int)
    requires 0 <= p <= |s|
    ensures StripCommas(ReplaceFrom(s, p)) == StripCommas(s[p..])
    decreases |s| - p
  {
    if p < |s| {
      StripReplaceFrom(s, p + 1);
      var c := if CommaAt(s, p) then "," else "";
      StripCommasAppend(c + [s[p]], ReplaceFrom(s, p + 1));
      StripCommasAppend(c, [s[p]]);
      assert s[p..] == [s[p]] + s[p + 1..];
      StripCommasAppend([s[p]], s[p + 1..]);
    }
  }

  lemma {:induction false} StripCommasNoComma(s: string)
    requires forall i :: 0 <= i < |s| ==> s[i] != ','
    ensures StripCommas(s) == s
  {
    if s != [] {
      StripCommasNoComma(s[1..]);
    }
  }

  /** On a string of one to three digits the replacement changes nothing. */
  lemma {:induction false} ShortDigitsUnchanged(s: string, p: int)
    requires AllDigits(s) && |s| <= 3 && 0 <= p <= |s|
    ensures ReplaceFrom(s, p) == s[p..]
    decreases |s| - p
  {
    if p < |s| {
      ShortDigitsUnchanged(s, p + 1);
      assert DigitRun(s, p) == |s| - p;
      assert !CommaAt(s, p);
      assert s[p..] == [s[p]] + s[p + 1..];
    }
  }

  /** On a digit string longer than three, the output up to the last three digits is the output
      for the string without them, followed by a comma and the last three digits. */
  lemma {:induction false} ReplaceSplitsLastTriple(s: string, p: int)
    requires AllDigits(s) && |s| > 3 && 0 <= p <= |s| - 3
    ensures ReplaceFrom(s, p) == ReplaceFrom(s[..|s| - 3], p) + "," + s[|s| - 3..]
    decreases |s| - p
  {
    if p == |s| - 3 {
      LastTriple(s);
    } else {
      var t := s[..|s| - 3];
      ReplaceSplitsLastTriple(s, p + 1);
      SameCommaAfterDroppingTriple(s, p);
      Associate(ReplaceFrom(t, p + 1), ",", s[|s| - 3..]);
      ReplaceStep(s, t, p, "," + s[|s| - 3..]);
      Associate(ReplaceFrom(t, p), ",", s[|s| - 3..]);
    }
  }

  lemma Associate(a: string, b: string, c: string)
    ensures a + b + c == a + (b + c)
  {
  }

  /** When two strings agree at `p` and their outputs after `p` differ by a suffix, their
      outputs from `p` differ by the same suffix. */
  lemma ReplaceStep(s: string, t: string, p: int, tail: string)
    requires 0 <= p < |t| && p < |s|
    requires ReplaceFrom(s, p + 1) == ReplaceFrom(t, p + 1) + tail
    requires CommaAt(s, p) == CommaAt(t, p) && s[p] == t[p]
    ensures ReplaceFrom(s, p) == ReplaceFrom(t, p) + tail
  {
    var c := if CommaAt(s, p) then "," else "";
    assert ReplaceFrom(s, p) == c + [s[p]] + (ReplaceFrom(t, p + 1) + tail);
    assert ReplaceFrom(t, p) == c + [t[p]] + ReplaceFrom(t, p + 1);
  }

  lemma LastTriple(s: string)
    requires AllDigits(s) && |s| > 3
    ensures ReplaceFrom(s, |s| - 3) == "," + s[|s| - 3..]
  {
    var n := |s|;
    assert DigitRun(s, n - 1) == 1;
    assert DigitRun(s, n - 2) == 2;
    assert DigitRun(s, n - 3) == 3;
    assert CommaAt(s, n - 3);
    assert !CommaAt(s, n - 2) && !CommaAt(s, n - 1);
    assert ReplaceFrom(s, n - 1) == [s[n - 1]];
    assert ReplaceFrom(s, n - 2) == [s[n - 2], s[n - 1]];
    assert s[n - 3..] == [s[n - 3], s[n - 2], s[n - 1]];
  }

  lemma SameCommaAfterDroppingTriple(s: string, p: int)
    requires AllDigits(s) && |s| > 3 && 0 <= p < |s| - 3
    ensures CommaAt(s, p) == CommaAt(s[..|s| - 3], p)
    ensures s[p] == s[..|s| - 3][p]
  {
    var t := s[..|s| - 3];
    assert AllDigits(t);
    assert DigitRun(s, p) == |s| - p;
    assert DigitRun(t, p) == |t| - p;
    assert NotWordBoundary(s, p) == NotWordBoundary(t, p);
  }

  /** On a digit string the regular-expression replacement is exactly the grouping by threes
      from the right. */
  lemma {:induction false} InsertCommasGroupsDigits(s: string)
    requires AllDigits(s)
    ensures InsertCommas(s) == Group(s)
    decreases |s|
  {
    if |s| <= 3 {
      ShortDigitsUnchanged(s, 0);
    } else {
      ReplaceSplitsLastTriple(s, 0);
      InsertCommasGroupsDigits(s[..|s| - 3]);
    }
  }

  /** Grouping a non-empty digit string yields well-formed groups. */
  lemma {:induction false} GroupIsGrouped(s: string)
    requires AllDigits(s) && |s| >= 1
    ensures Grouped(Group(s))
    decreases |s|
  {
    if |s| > 3 {
      var t := s[..|s| - 3];
      var last := s[|s| - 3..];
      GroupIsGrouped(t);
      JoinParts(Group(t), last);
      assert AllDigits(last) by {
        assert forall i :: 0 <= i < |last| ==> last[i] == s[|s| - 3 + i];
      }
    }
  }

  /** The parts of `x + "," + y` for a three-character `y`. */
  lemma JoinParts(x: string, y: string)
    requires |y| == 3
    ensures var g := x + "," + y;
      && |g| == |x| + 4
      && g[..|g| - 4] == x
      && g[|g| - 4] == ','
      && g[|g| - 3..] == y
  {
  }

  /** A leading non-word character, such as the minus sign, never receives a comma after it and
      does not change where the later commas go. */
  lemma {:induction false} ReplaceAfterNonWordChar(c: char, d: string, p: int)
    requires !IsWordChar(c) && 0 <= p <= |d|
    ensures ReplaceFrom([c] + d, p + 1) == ReplaceFrom(d, p)
    decreases |d| - p
  {
    var s := [c] + d;
    if p < |d| {
      ReplaceAfterNonWordChar(c, d, p + 1);
      DigitRunShift(c, d, p);
      assert s[p + 1] == d[p];
      assert p > 0 ==> s[p] == d[p - 1];
      assert NotWordBoundary(s, p + 1) == NotWordBoundary(d, p);
    }
  }

  lemma {:induction false} DigitRunShift(c: char, d: string, p: int)
    requires 0 <= p <= |d|
    ensures DigitRun([c] + d, p + 1) == DigitRun(d, p)
    decreases |d| - p
  {
    if p < |d| {
      assert ([c] + d)[p + 1] == d[p];
      DigitRunShift(c, d, p + 1);
    }
  }

  /** A negative number is formatted as a minus sign followed by its formatted magnitude. */
  lemma FormatNegative(n: int)
    requires n < 0
    ensures FormatNumber(n) == "-" + FormatNumber(-n)
  {
    var d := Digits(-n);
    var s := "-" + d;
    ReplaceAfterNonWordChar('-', d, 0);
    assert DigitRun(s, 0) == 0;
    assert ReplaceFrom(s, 0) == [s[0]] + ReplaceFrom(s, 1);
  }

  /** Removing the commas of well-formed groups leaves their digits: the first group followed by
      the remaining ones. */
  lemma {:induction false} StripGrouped(t: string)
    requires Grouped(t)
    ensures |t| <= 3 ==> StripCommas(t) == t
    ensures |t| > 3 ==> StripCommas(t) == StripCommas(t[..|t| - 4]) + t[|t| - 3..]
    ensures |StripCommas(t)| >= 1
    decreases |t|
  {
    if |t| <= 3 {
      assert forall i :: 0 <= i < |t| ==> IsDigit(t[i]);
      StripCommasNoComma(t);
    } else {
      var head := t[..|t| - 4];
      var last := t[|t| - 3..];
      assert Grouped(head) && AllDigits(last);
      StripGrouped(head);
      assert t == head + ([','] + last);
      StripCommaJoin(head, last);
    }
  }

  /** Equal concatenations with suffixes of equal length have equal parts. */
  lemma SplitEqualSuffix(x: string, y: string, u: string, v: string)
    requires x + y == u + v && |y| == |v|
    ensures x == u && y == v
  {
    assert x == (x + y)[..|x|];
    assert u == (u + v)[..|u|];
    assert y == (x + y)[|x|..];
    assert v == (u + v)[|u|..];
  }

  lemma StripCommaJoin(head: string, last: string)
    requires AllDigits(last)
    ensures StripCommas(head + ([','] + last)) == StripCommas(head) + last
  {
    assert StripCommas([',']) == [] by { assert [','][1..] == []; }
    StripCommasNoComma(last);
    StripCommasAppend([','], last);
    StripCommasAppend(head, [','] + last);
  }

  /** Well-formed groups are determined by their digits: the grouping property and the
      strip-commas property together pin the output of `formatNumber` down completely. */
  lemma {:induction false} GroupedUnique(a: string, b: string)
    requires Grouped(a) && Grouped(b) && StripCommas(a) == StripCommas(b)
    ensures a == b
    decreases |a|
  {
    StripGrouped(a);
    StripGrouped(b);
    if |a| > 3 {
      StripGrouped(a[..|a| - 4]);
    }
    if |b| > 3 {
      StripGrouped(b[..|b| - 4]);
    }
    if |a| > 3 && |b| > 3 {
      SplitEqualSuffix(StripCommas(a[..|a| - 4]), a[|a| - 3..], StripCommas(b[..|b| - 4]), b[|b| - 3..]);
      GroupedUnique(a[..|a| - 4], b[..|b| - 4]);
      assert a == a[..|a| - 4] + [','] + a[|a| - 3..];
      assert b == b[..|b| - 4] + [','] + b[|b| - 3..];
    }
  }
}
