/** The worked example of the recommendation filter: the question "I need a harness for fall
    protection at height" names only the fall category, so it is answered with the catalogue's
    two harnesses. The question is written as runs of whole words, each ending in a space, so
    that every other keyword can be ruled out one run at a time. */
module HarnessQuestion {
  import opened Text
  import opened Catalogue
  import opened Recommend

  // The question cut after its 1st, 2nd, 3rd, 5th and 7th word ...
  const Upto1 := "I need "
  const Upto2 := Upto1 + "a "
  const Upto3 := Upto2 + "harness "
  const Upto5 := Upto3 + "for fall "
  const Upto7 := Upto5 + "protection at "

  // ... and what follows each cut.
  const From7 := "height"
  const From5 := "protection at " + From7
  const From3 := "for fall " + From5
  const From2 := "harness " + From3
  const From1 := "a " + From2

  /** "I need a harness for fall protection at height". */
  const Question := Upto1 + From1

  /** The keywords of the table that name a category other than "fall". */
  const OtherKeywords := [
    "mask", "respirator", "breathing", "lung", "n95",
    "helmet", "hard hat", "head", "goggle", "glasses", "eye", "vision",
    "glove", "hand", "suit", "gown", "vest", "body", "ppe kit", "shoe", "boot", "foot"]

  /** Each cut splits the question into its two parts. */
  lemma Cuts()
    ensures Question == Upto2 + From2
    ensures Question == Upto3 + From3
    ensures Question == Upto5 + From5
    ensures Question == Upto7 + From7
  {
    assert Upto1 + ("a " + From2) == Upto2 + From2;
    assert Upto2 + ("harness " + From3) == Upto3 + From3;
    assert Upto3 + ("for fall " + From5) == Upto5 + From5;
    assert Upto5 + ("protection at " + From7) == Upto7 + From7;
  }

  // The letters missing on either side of each cut, in both cases.

  lemma Cut1Chars()
    ensures 'r' !in Upto1 && 'R' !in Upto1 && 'd' !in From1 && 'D' !in From1
  {
  }

  lemma Cut2Chars()
    ensures 'h' !in Upto2 && 'H' !in Upto2 && 'd' !in From2 && 'D' !in From2
  {
  }

  lemma Cut3Chars()
    ensures 'o' !in Upto3 && 'O' !in Upto3 && 's' !in From3 && 'S' !in From3
  {
  }

  lemma Cut5CharsA()
    ensures 'p' !in Upto5 && 'P' !in Upto5 && 's' !in From5 && 'S' !in From5
  {
  }

  lemma Cut5CharsB()
    ensures 't' !in Upto5 && 'T' !in Upto5 && 'f' !in From5 && 'F' !in From5
  {
  }

  lemma Cut7Chars()
    ensures 'g' !in Upto7 && 'G' !in Upto7
    ensures 'o' !in From7 && 'O' !in From7 && 'l' !in From7 && 'L' !in From7
  {
  }

  /** The letters the question lacks in both cases, and the digit 9. */
  lemma QuestionLacksM()
    ensures 'm' !in Question && 'M' !in Question
  {
  }

  lemma QuestionLacksB()
    ensures 'b' !in Question && 'B' !in Question
  {
  }

  lemma QuestionLacksU()
    ensures 'u' !in Question && 'U' !in Question
  {
  }

  lemma QuestionLacksY()
    ensures 'y' !in Question && 'Y' !in Question
  {
  }

  lemma QuestionLacksV()
    ensures 'v' !in Question && 'V' !in Question
  {
  }

  lemma QuestionLacksW()
    ensures 'w' !in Question && 'W' !in Question
  {
  }

  lemma QuestionLacksK()
    ensures 'k' !in Question && 'K' !in Question
  {
  }

  lemma QuestionLacks9()
    ensures '9' !in Question
  {
  }

  /** A keyword holding a character that the question lacks in both cases is not in it. */
  lemma MissingChar(key: string, c: char, u: char)
    requires c in key && c !in Question && u !in Question
    requires forall z :: LowerChar(z) == c ==> z == c || z == u
    ensures !IsSubstring(key, ToLower(Question))
  {
    LoweredAbsent(Question, c, u);
    AbsentChar(key, ToLower(Question), c);
  }

  /** Keywords ruled out by a character missing from the whole question. */
  lemma WholeQuestionMisses()
    ensures forall k :: k in ["mask", "breathing", "lung", "n95", "helmet", "eye", "vision",
                             "glove", "suit", "gown", "vest", "body", "ppe kit", "boot"] ==>
                       !IsSubstring(k, ToLower(Question))
  {
    QuestionLacksM();
    QuestionLacksB();
    QuestionLacksU();
    QuestionLacksY();
    QuestionLacksV();
    QuestionLacksW();
    QuestionLacksK();
    QuestionLacks9();
    MissingChar("mask", 'm', 'M');
    MissingChar("breathing", 'b', 'B');
    MissingChar("lung", 'u', 'U');
    MissingChar("n95", '9', '9');
    MissingChar("helmet", 'm', 'M');
    MissingChar("eye", 'y', 'Y');
    MissingChar("vision", 'v', 'V');
    MissingChar("glove", 'v', 'V');
    MissingChar("suit", 'u', 'U');
    MissingChar("gown", 'w', 'W');
    MissingChar("vest", 'v', 'V');
    MissingChar("body", 'b', 'B');
    MissingChar("ppe kit", 'k', 'K');
    MissingChar("boot", 'b', 'B');
  }

  /** Keywords ruled out by a character missing before a cut and another missing after it. */
  lemma CutQuestionMisses()
    ensures forall k :: k in ["respirator", "hard hat", "head", "goggle", "glasses", "hand",
                             "shoe", "foot"] ==>
                       !IsSubstring(k, ToLower(Question))
  {
    Cut1Misses();
    Cut2Misses();
    Cut3Misses();
    Cut5Misses();
    Cut7Misses();
  }

  lemma Cut1Misses()
    ensures !IsSubstring("hard hat", ToLower(Question))
  {
    Cut1Chars();
    MissesTwoRuns("hard", Upto1, From1, 'r', 'R', 'd', 'D');
    HardHatNeedsHard();
  }

  lemma Cut2Misses()
    ensures !IsSubstring("head", ToLower(Question)) && !IsSubstring("hand", ToLower(Question))
  {
    Cuts();
    Cut2Chars();
    MissesTwoRuns("head", Upto2, From2, 'h', 'H', 'd', 'D');
    MissesTwoRuns("hand", Upto2, From2, 'h', 'H', 'd', 'D');
  }

  lemma Cut3Misses()
    ensures !IsSubstring("shoe", ToLower(Question))
  {
    Cuts();
    Cut3Chars();
    MissesTwoRuns("shoe", Upto3, From3, 'o', 'O', 's', 'S');
  }

  lemma Cut5Misses()
    ensures !IsSubstring("respirator", ToLower(Question)) && !IsSubstring("foot", ToLower(Question))
  {
    Cuts();
    Cut5CharsA();
    Cut5CharsB();
    MissesTwoRuns("respirator", Upto5, From5, 'p', 'P', 's', 'S');
    MissesTwoRuns("foot", Upto5, From5, 't', 'T', 'f', 'F');
  }

  lemma Cut7Misses()
    ensures !IsSubstring("goggle", ToLower(Question)) && !IsSubstring("glasses", ToLower(Question))
  {
    Cuts();
    Cut7Chars();
    MissesTwoRuns("goggle", Upto7, From7, 'g', 'G', 'o', 'O');
    MissesTwoRuns("glasses", Upto7, From7, 'g', 'G', 'l', 'L');
  }

  /** "hard hat" holds a space, so it is ruled out through its first word. */
  lemma HardHatNeedsHard()
    requires !IsSubstring("hard", ToLower(Question))
    ensures !IsSubstring("hard hat", ToLower(Question))
  {
    assert OccursAt("hard", "hard hat", 0);
    if IsSubstring("hard hat", ToLower(Question)) {
      SubstringTransitive("hard", "hard hat", ToLower(Question));
    }
  }

  /** No keyword of another category occurs in the lowered question. */
  lemma OtherKeywordsMissed()
    ensures forall k :: k in OtherKeywords ==> !IsSubstring(k, ToLower(Question))
  {
    WholeQuestionMisses();
    CutQuestionMisses();
  }

  /** "harness" occurs in the lowered question, right after the second cut. */
  lemma HarnessOccurs()
    ensures IsSubstring("harness", ToLower(Question))
  {
    Cuts();
    ToLowerAppend(Upto2, From2);
    ToLowerAppend("harness ", From3);
    LowerOfLowerCase("harness ");
    assert OccursAt("harness", ToLower(Question), |Upto2|);
  }

  /** Every entry of the keyword table names "fall" or has one of the other keywords. */
  lemma TableKeywords(e: (string, string))
    requires e in KeywordTableAsWritten
    ensures e.1 == "fall" || e.0 in OtherKeywords
  {
  }

  /** The question names the fall category and no other. */
  lemma OnlyFallNamed()
    ensures Names(KeywordTable, "fall", ToLower(Question))
    ensures forall c :: c != "fall" ==> !Names(KeywordTable, c, ToLower(Question))
  {
    HarnessOccurs();
    assert KeywordTable[22] == ("harness", "fall");
    OtherKeywordsMissed();
    forall c | c != "fall"
      ensures !Names(KeywordTable, c, ToLower(Question))
    {
      forall i | 0 <= i < |KeywordTable| && KeywordTable[i].1 == c
        ensures !IsSubstring(KeywordTable[i].0, ToLower(Question))
      {
        assert KeywordTable[i] in KeywordTableAsWritten;
        TableKeywords(KeywordTable[i]);
      }
    }
  }

  /** Asking "I need a harness for fall protection at height" brings the catalogue's two
      harnesses, products 4 and 5, whatever the random order. */
  lemma HarnessQuestionGetsHarnesses(shuffled: seq<Product>)
    requires multiset(shuffled) == multiset(PPEProducts)
    ensures RelevantProducts(KeywordTable, Question, PPEProducts, shuffled) ==
            [PPEProducts[3], PPEProducts[4]]
  {
    OnlyFallNamed();
    FallQuestionGetsHarnesses(KeywordTable, Question, shuffled);
  }
}
