/** The two string primitives the chatbot code relies on: `String.prototype.toLowerCase`
    restricted to ASCII letters, and `String.prototype.includes`. */
module Text {

  predicate IsUpper(c: char) {
    'A' <= c <= 'Z'
  }

  /** One character of `toLowerCase`: ASCII capitals move down by 32, all else is kept. */
  function LowerChar(c: char): (r: char)
    ensures !IsUpper(r)
    ensures IsUpper(c) ==> r as int == c as int + 32
    ensures !IsUpper(c) ==> r == c
  {
    if IsUpper(c) then (c as int + 32) as char else c
  }

  /** `toLowerCase`: every character lowered on its own. */
  function ToLower(s: string): (r: string)
    ensures |r| == |s|
    ensures forall i :: 0 <= i < |s| ==> r[i] == LowerChar(s[i])
  {
    seq(|s|, i requires 0 <= i < |s| => LowerChar(s[i]))
  }

  predicate IsLowerCase(s: string) {
    forall i :: 0 <= i < |s| ==> !IsUpper(s[i])
  }

  /** `needle` occurs in `hay` starting at offset `i`. */
  predicate OccursAt(needle: string, hay: string, i: int) {
    0 <= i && i + |needle| <= |hay| && hay[i..i + |needle|] == needle
  }

  /** The meaning of `hay.includes(needle)`: some offset of `hay` starts a copy of `needle`. */
  ghost predicate IsSubstring(needle: string, hay: string) {
    exists i :: OccursAt(needle, hay, i)
  }

  /** `hay.includes(needle)`, by scanning the offsets of `hay` from the left. */
  function Includes(needle: string, hay: string): (r: bool)
    ensures r <==> IsSubstring(needle, hay)
    decreases |hay|
  {
    if |needle| > |hay| then
      assert forall i :: !OccursAt(needle, hay, i);
      false
    else if hay[..|needle|] == needle then
      assert OccursAt(needle, hay, 0);
      true
    else
      var rest := Includes(needle, hay[1..]);
      assert forall i :: 1 <= i ==> (OccursAt(needle, hay, i) <==> OccursAt(needle, hay[1..], i - 1));
      assert !OccursAt(needle, hay, 0);
      if rest then assert OccursAt(needle, hay, 1 + var j :| OccursAt(needle, hay[1..], j); j); true
      else false
  }

  /** Lower-casing leaves a lower-case string alone. */
  lemma LowerOfLowerCase(s: string)
    requires IsLowerCase(s)
    ensures ToLower(s) == s
  {
  }

  /** Lower-casing is idempotent. */
  lemma ToLowerIdempotent(s: string)
    ensures ToLower(ToLower(s)) == ToLower(s)
  {
    LowerOfLowerCase(ToLower(s));
  }

  /** Lower-casing commutes with taking a slice. */
  lemma ToLowerSlice(s: string, i: int, j: int)
    requires 0 <= i <= j <= |s|
    ensures ToLower(s)[i..j] == ToLower(s[i..j])
  {
    var a := ToLower(s)[i..j];
    var b := ToLower(s[i..j]);
    assert |a| == |b|;
    forall k | 0 <= k < |a|
      ensures a[k] == b[k]
    {
      assert a[k] == LowerChar(s[i + k]);
      assert b[k] == LowerChar(s[i..j][k]);
    }
  }

  /** Two strings that differ only in the case of ASCII letters. */
  predicate EqualIgnoringCase(a: string, b: string) {
    ToLower(a) == ToLower(b)
  }

  /** The message spells `key`, in any mixture of cases, starting at offset `i`. */
  predicate OccursIgnoringCaseAt(key: string, message: string, i: int) {
    0 <= i && i + |key| <= |message| && EqualIgnoringCase(message[i..i + |key|], key)
  }

  /** Searching for a lower-case key in the lower-cased message finds exactly the places where
      the original message spells the key in any mixture of cases. */
  lemma {:induction false} IncludesLoweredIgnoresCase(key: string, message: string)
    requires IsLowerCase(key)
    ensures Includes(key, ToLower(message)) <==> exists i :: OccursIgnoringCaseAt(key, message, i)
  {
    LowerOfLowerCase(key);
    if Includes(key, ToLower(message)) {
      var i :| OccursAt(key, ToLower(message), i);
      ToLowerSlice(message, i, i + |key|);
      assert OccursIgnoringCaseAt(key, message, i);
    }
    if exists i :: OccursIgnoringCaseAt(key, message, i) {
      var i :| OccursIgnoringCaseAt(key, message, i);
      ToLowerSlice(message, i, i + |key|);
      assert OccursAt(key, ToLower(message), i);
    }
  }

  /** Occurrence is transitive: a substring of a substring is a substring. */
  lemma {:induction false} SubstringTransitive(a: string, b: string, c: string)
    requires IsSubstring(a, b) && IsSubstring(b, c)
    ensures IsSubstring(a, c)
  {
    var i :| OccursAt(a, b, i);
    var j :| OccursAt(b, c, j);
    forall k | 0 <= k < |a|
      ensures c[j + i + k] == a[k]
    {
      assert c[j + i + k] == c[j..j + |b|][i + k] == b[i + k];
      assert b[i + k] == b[i..i + |a|][k];
    }
    assert OccursAt(a, c, j + i);
  }

  /** Lower-casing distributes over concatenation. */
  lemma ToLowerAppend(a: string, b: string)
    ensures ToLower(a + b) == ToLower(a) + ToLower(b)
  {
    assert forall i :: 0 <= i < |a + b| ==> ToLower(a + b)[i] == (ToLower(a) + ToLower(b))[i];
  }

  /** A character that no letter of `s` lowers to is absent from the lowered `s`; `u` is the
      capital form of `c`, or `c` itself when it has none. */
  lemma LoweredAbsent(s: string, c: char, u: char)
    requires c !in s && u !in s
    requires forall x :: LowerChar(x) == c ==> x == c || x == u
    ensures c !in ToLower(s)
  {
  }

  /** A needle holding a character the haystack lacks does not occur in it. */
  lemma AbsentChar(needle: string, hay: string, c: char)
    requires c in needle && c !in hay
    ensures !IsSubstring(needle, hay)
  {
  }

  /** An occurrence in `x + y`, where `x` ends with a space, lies inside `x`, inside `y`, or
      covers that space. */
  lemma SplitOccurrence(needle: string, x: string, y: string, i: int)
    requires OccursAt(needle, x + y, i)
    requires |x| > 0 && x[|x| - 1] == ' '
    ensures ' ' in needle || IsSubstring(needle, x) || IsSubstring(needle, y)
  {
    if i + |needle| <= |x| {
      assert (x + y)[i..i + |needle|] == x[i..i + |needle|];
      assert OccursAt(needle, x, i);
    } else if i >= |x| {
      assert (x + y)[i..i + |needle|] == y[i - |x|..i - |x| + |needle|];
      assert OccursAt(needle, y, i - |x|);
    } else {
      assert needle[|x| - 1 - i] == (x + y)[i..i + |needle|][|x| - 1 - i] == ' ';
    }
  }

  /** A needle without spaces that occurs neither in `x` nor in `y` does not occur in `x + y`
      when `x` ends with a space. */
  lemma SplitAtSpace(needle: string, x: string, y: string)
    requires ' ' !in needle
    requires |x| > 0 && x[|x| - 1] == ' '
    requires !IsSubstring(needle, x) && !IsSubstring(needle, y)
    ensures !IsSubstring(needle, x + y)
  {
    if IsSubstring(needle, x + y) {
      var i :| OccursAt(needle, x + y, i);
      SplitOccurrence(needle, x, y, i);
    }
  }

  /** A needle without spaces that lacks a character of `x` and a character of `y`, in either
      case, does not occur in the lowered `x + y` when `x` ends with a space. */
  lemma MissesTwoRuns(needle: string, x: string, y: string, c: char, cu: char, d: char, du: char)
    requires ' ' !in needle && c in needle && d in needle
    requires |x| > 0 && x[|x| - 1] == ' '
    requires c !in x && cu !in x && forall z :: LowerChar(z) == c ==> z == c || z == cu
    requires d !in y && du !in y && forall z :: LowerChar(z) == d ==> z == d || z == du
    ensures !IsSubstring(needle, ToLower(x + y))
  {
    LoweredAbsent(x, c, cu);
    AbsentChar(needle, ToLower(x), c);
    LoweredAbsent(y, d, du);
    AbsentChar(needle, ToLower(y), d);
    ToLowerAppend(x, y);
    SplitAtSpace(needle, ToLower(x), ToLower(y));
  }
}
