/** The product recommendations attached to an assistant reply: the categories named by the
    keywords of the message, and the first four catalogue products of those categories. */
module Recommend {
  import opened Text
  import opened Catalogue

  /** The keyword table exactly as the object literal lists it, "helmet" appearing twice. */
  const KeywordTableAsWritten: seq<(string, string)> := [
    ("mask", "respiratory"), ("respirator", "respiratory"), ("breathing", "respiratory"),
    ("lung", "respiratory"), ("n95", "respiratory"),
    ("helmet", "head"), ("hard hat", "head"), ("head", "head"), ("helmet", "head"),
    ("goggle", "eye"), ("glasses", "eye"), ("eye", "eye"), ("vision", "eye"),
    ("glove", "hand"), ("hand", "hand"),
    ("suit", "body"), ("gown", "body"), ("vest", "body"), ("body", "body"), ("ppe kit", "body"),
    ("shoe", "foot"), ("boot", "foot"), ("foot", "foot"),
    ("harness", "fall"), ("fall", "fall"), ("height", "fall"), ("lanyard", "fall")
  ]

  /** The entries of the built object in iteration order: the repeated "helmet" key keeps its
      first position and takes the value of its last assignment, which is the same category. */
  const KeywordTable: seq<(string, string)> :=
    KeywordTableAsWritten[..8] + KeywordTableAsWritten[9..]

  /** Some entry of `table` whose keyword occurs in `message` names category `c`. */
  ghost predicate Names(table: seq<(string, string)>, c: string, message: string) {
    exists i :: 0 <= i < |table| && table[i].1 == c && IsSubstring(table[i].0, message)
  }

  /** The categories of the entries whose keyword occurs in `message`, in table order, once per
      matching entry. */
  function MatchedCategories(table: seq<(string, string)>, message: string): (r: seq<string>)
    ensures |r| <= |table|
    ensures forall c :: c in r <==> Names(table, c, message)
  {
    if table == [] then []
    else
      var rest := MatchedCategories(table[1..], message);
      assert forall c :: Names(table[1..], c, message) ==> Names(table, c, message) by {
        forall c | Names(table[1..], c, message) ensures Names(table, c, message) {
          var i :| 0 <= i < |table| - 1 && table[1..][i].1 == c && IsSubstring(table[1..][i].0, message);
          assert table[i + 1] == table[1..][i];
        }
      }
      assert forall c :: Names(table, c, message) && c != table[0].1 ==> Names(table[1..], c, message) by {
        forall c | Names(table, c, message) && c != table[0].1 ensures Names(table[1..], c, message) {
          var i :| 0 <= i < |table| && table[i].1 == c && IsSubstring(table[i].0, message);
          assert table[1..][i - 1] == table[i];
        }
      }
      if Includes(table[0].0, message) then [table[0].1] + rest else rest
  }

  function Min(a: int, b: int): int {
    if a < b then a else b
  }

  /** `getRelevantProducts`. When some keyword occurs in the lower-cased message, the first four
      products, in catalogue order, whose category such a keyword names; otherwise the first four
      of `shuffled`, which stands for the randomly ordered copy of the catalogue. */
  function RelevantProducts(table: seq<(string, string)>, userMessage: string,
                            products: seq<Product>, shuffled: seq<Product>): (r: seq<Product>)
    requires multiset(shuffled) == multiset(products)
    ensures |r| <= 4
    ensures multiset(r) <= multiset(products)
    ensures MatchedCategories(table, ToLower(userMessage)) == [] ==>
      && |r| == Min(4, |products|)
      && (Distinct(products) ==> Distinct(r))
    ensures var cats := MatchedCategories(table, ToLower(userMessage));
      cats != [] ==>
        && |r| == Min(4, |KeepCategories(products, cats)|)
        && r == KeepCategories(products, cats)[..|r|]
        && IsSubsequence(r, products)
        && forall i :: 0 <= i < |r| ==>
             Names(table, r[i].category, ToLower(userMessage))
  {
    var cats := MatchedCategories(table, ToLower(userMessage));
    if cats == [] then
      var r := shuffled[..Min(4, |shuffled|)];
      assert |shuffled| == |products| by {
        assert |multiset(shuffled)| == |multiset(products)|;
      }
      PrefixMultiset(shuffled, |r|);
      DistinctPermutation(products, shuffled);
      r
    else
      var kept := KeepCategories(products, cats);
      var r := kept[..Min(4, |kept|)];
      KeepCategoriesSpec(products, cats);
      PrefixMultiset(kept, |r|);
      PrefixSubsequence(kept, products, |r|);
      assert forall i :: 0 <= i < |r| ==> r[i].category in cats;
      r
  }

  /** The repeated "helmet" line changes no category's membership: the table as written and the
      table as built name the same categories for every message. */
  lemma KeywordTablesAgree(message: string)
    ensures forall c :: Names(KeywordTableAsWritten, c, message) <==> Names(KeywordTable, c, message)
  {
    var w := KeywordTableAsWritten;
    assert |KeywordTable| == 26;
    assert forall i :: 0 <= i < 8 ==> KeywordTable[i] == w[i];
    assert forall i :: 8 <= i < 26 ==> KeywordTable[i] == w[i + 1];
    assert w[8] == w[5];
    forall c | Names(w, c, message) ensures Names(KeywordTable, c, message) {
      var i :| 0 <= i < |w| && w[i].1 == c && IsSubstring(w[i].0, message);
      if i < 8 {
        assert KeywordTable[i] == w[i];
      } else if i == 8 {
        assert KeywordTable[5] == w[8];
      } else {
        assert KeywordTable[i - 1] == w[i];
      }
    }
    forall c | Names(KeywordTable, c, message) ensures Names(w, c, message) {
      var i :| 0 <= i < |KeywordTable| && KeywordTable[i].1 == c && IsSubstring(KeywordTable[i].0, message);
      if i < 8 {
        assert KeywordTable[i] == w[i];
      } else {
        assert KeywordTable[i] == w[i + 1];
      }
    }
  }

  /** Reading the keyword table as written, with its repeated line, recommends exactly the same
      products as the table as built. */
  lemma SameProductsAsWritten(userMessage: string, products: seq<Product>, shuffled: seq<Product>)
    requires multiset(shuffled) == multiset(products)
    ensures RelevantProducts(KeywordTableAsWritten, userMessage, products, shuffled) ==
            RelevantProducts(KeywordTable, userMessage, products, shuffled)
  {
    var m := ToLower(userMessage);
    var a := MatchedCategories(KeywordTableAsWritten, m);
    var b := MatchedCategories(KeywordTable, m);
    KeywordTablesAgree(m);
    assert forall c :: c in a <==> c in b;
    if a != [] {
      assert a[0] in b;
    }
    if b != [] {
      assert b[0] in a;
    }
    KeepCategoriesOnlyUsesMembership(products, a, b);
  }

  /** When the keywords of a message name exactly one category, the recommendations are the
      first four products of that category in catalogue order, whatever the shuffle. */
  lemma OneCategoryRecommendations(table: seq<(string, string)>, userMessage: string,
                                   products: seq<Product>, shuffled: seq<Product>, category: string)
    requires multiset(shuffled) == multiset(products)
    requires Names(table, category, ToLower(userMessage))
    requires forall c :: c != category ==> !Names(table, c, ToLower(userMessage))
    ensures var kept := KeepCategories(products, [category]);
      RelevantProducts(table, userMessage, products, shuffled) == kept[..Min(4, |kept|)]
    ensures var kept := KeepCategories(products, [category]);
      |kept| <= 4 ==> RelevantProducts(table, userMessage, products, shuffled) == kept
  {
    var cats := MatchedCategories(table, ToLower(userMessage));
    assert category in cats;
    assert forall c :: c in cats <==> c in [category];
    KeepCategoriesOnlyUsesMembership(products, cats, [category]);
  }

  /** A question whose keywords all name the fall category, such as one about a harness, is
      answered with the catalogue's two fall-protection products, whatever the shuffle. */
  lemma FallQuestionGetsHarnesses(table: seq<(string, string)>, userMessage: string, shuffled: seq<Product>)
    requires multiset(shuffled) == multiset(PPEProducts)
    requires Names(table, "fall", ToLower(userMessage))
    requires forall c :: c != "fall" ==> !Names(table, c, ToLower(userMessage))
    ensures RelevantProducts(table, userMessage, PPEProducts, shuffled) ==
            [PPEProducts[3], PPEProducts[4]]
  {
    OneCategoryRecommendations(table, userMessage, PPEProducts, shuffled, "fall");
    FallProductsAreHarnesses();
  }

  /** A prefix holds no more of any value than the whole sequence. */
  lemma PrefixMultiset<T>(s: seq<T>, n: nat)
    requires n <= |s|
    ensures multiset(s[..n]) <= multiset(s)
  {
    assert s == s[..n] + s[n..];
  }

  /** A prefix of a subsequence of `b` is a subsequence of `b`. */
  lemma {:induction false} PrefixSubsequence<T>(a: seq<T>, b: seq<T>, n: nat)
    requires n <= |a|
    requires IsSubsequence(a, b)
    ensures IsSubsequence(a[..n], b)
    decreases |b|
  {
    if n == 0 || a == [] {
    } else if a[0] == b[0] {
      PrefixSubsequence(a[1..], b[1..], n - 1);
      assert a[..n][1..] == a[1..][..n - 1];
    } else {
      PrefixSubsequence(a, b[1..], n);
    }
  }

  /** A value at two positions of `s` is counted at least twice. */
  lemma CountedTwice<T>(s: seq<T>, i: int, j: int)
    requires 0 <= i < j < |s| && s[i] == s[j]
    ensures multiset(s)[s[i]] >= 2
  {
    assert s == s[..j] + [s[j]] + s[j + 1..];
    assert s[i] in multiset(s[..j]);
  }

  /** A sequence without repetition counts each value at most once. */
  lemma {:induction false} DistinctCountsOnce<T>(s: seq<T>, x: T)
    requires Distinct(s)
    ensures multiset(s)[x] <= 1
  {
    if s != [] {
      DistinctCountsOnce(s[1..], x);
      assert s == [s[0]] + s[1..];
      if s[0] == x {
        assert x !in s[1..];
      }
    }
  }

  /** A sequence that takes no value more often than a sequence without repetition has no
      repetition either. */
  lemma SubmultisetDistinct<T>(r: seq<T>, s: seq<T>)
    requires multiset(r) <= multiset(s) && Distinct(s)
    ensures Distinct(r)
  {
    forall i, j | 0 <= i < j < |r|
      ensures r[i] != r[j]
    {
      if r[i] == r[j] {
        CountedTwice(r, i, j);
        DistinctCountsOnce(s, r[i]);
      }
    }
  }

  /** A reordering of a sequence without repetition has no repetition, nor does any prefix. */
  lemma DistinctPermutation<T>(s: seq<T>, t: seq<T>)
    requires multiset(s) == multiset(t)
    ensures Distinct(s) ==> forall n :: 0 <= n <= |t| ==> Distinct(t[..n])
  {
    forall i, j | Distinct(s) && 0 <= i < j < |t|
      ensures t[i] != t[j]
    {
      if t[i] == t[j] {
        CountedTwice(t, i, j);
        DistinctCountsOnce(s, t[i]);
      }
    }
  }
}
