/**
 * The cases of the repository's unit tests for the matcher, stated as lemmas about the
 * model. Each is an instance of a general lemma about `Normalize` or `MatchScore`; what is
 * left to show is how the literal lower-cases and folds.
 */
module MatchRecipesTests {
  import opened Text
  import opened MatchRecipes

  /** normalize('KYCKLING') == 'kyckling' */
  lemma NormalizeLowercases()
    ensures Normalize("KYCKLING") == "kyckling"
  {
    FoldLowerChars("KYCKLING", "kyckling");
    NormalizeOneWord("KYCKLING");
  }

  /** normalize('Bröd') == 'brod' */
  lemma NormalizeFoldsBrod()
    ensures Normalize("Bröd") == "brod"
  {
    FoldLowerChars("Bröd", "brod");
    NormalizeOneWord("Bröd");
  }

  /** normalize('Ägg') == 'agg' */
  lemma NormalizeFoldsAgg()
    ensures Normalize("Ägg") == "agg"
  {
    FoldLowerChars("Ägg", "agg");
    NormalizeOneWord("Ägg");
  }

  /** normalize('Kött') == 'kott' */
  lemma NormalizeFoldsKott()
    ensures Normalize("Kött") == "kott"
  {
    FoldLowerChars("Kött", "kott");
    NormalizeOneWord("Kött");
  }

  /** normalize('Farsk lax') == 'lax' */
  lemma NormalizeDropsFarsk()
    ensures Normalize("Farsk lax") == "lax"
  {
    FoldLowerChars("Farsk lax", "farsk lax");
    assert "farsk lax" == "farsk" + " " + "lax";
    NormalizeDropsLeading("Farsk lax", "farsk", "lax");
  }

  /** normalize('Fryst broccoli') == 'broccoli' */
  lemma NormalizeDropsFryst()
    ensures Normalize("Fryst broccoli") == "broccoli"
  {
    FoldLowerChars("Fryst broccoli", "fryst broccoli");
    assert "fryst broccoli" == "fryst" + " " + "broccoli";
    NormalizeDropsLeading("Fryst broccoli", "fryst", "broccoli");
  }

  /** normalize('Ekologisk mjölk') == 'mjolk' */
  lemma NormalizeDropsEkologisk()
    ensures Normalize("Ekologisk mjölk") == "mjolk"
  {
    FoldLowerChars("Ekologisk mjölk", "ekologisk mjolk");
    assert "ekologisk mjolk" == "ekologisk" + " " + "mjolk";
    NormalizeDropsLeading("Ekologisk mjölk", "ekologisk", "mjolk");
  }

  /** normalize('Svensk potatis') == 'potatis' */
  lemma NormalizeDropsSvensk()
    ensures Normalize("Svensk potatis") == "potatis"
  {
    FoldLowerChars("Svensk potatis", "svensk potatis");
    assert "svensk potatis" == "svensk" + " " + "potatis";
    NormalizeDropsLeading("Svensk potatis", "svensk", "potatis");
  }

  /** normalize('Kyckling farsk') == 'kyckling' */
  lemma NormalizeDropsTrailingFarsk()
    ensures Normalize("Kyckling farsk") == "kyckling"
  {
    FoldLowerChars("Kyckling farsk", "kyckling farsk");
    assert "kyckling farsk" == "kyckling" + " " + "farsk";
    NormalizeDropsTrailing("Kyckling farsk", "kyckling", "farsk");
  }

  /** normalize('Lax fryst') == 'lax' */
  lemma NormalizeDropsTrailingFryst()
    ensures Normalize("Lax fryst") == "lax"
  {
    FoldLowerChars("Lax fryst", "lax fryst");
    assert "lax fryst" == "lax" + " " + "fryst";
    NormalizeDropsTrailing("Lax fryst", "lax", "fryst");
  }

  /** "hel hel lax" keeps its second "hel". */
  lemma NormalizeHelHelLax()
    ensures Normalize("hel hel lax") == "hel lax"
  {
    HelHelLaxFolded();
    assert "hel lax" == "hel" + " " + "lax";
    NormalizeDropsOneQualifier("hel hel lax", "hel", "hel", "lax");
  }

  /** Normalising "hel hel lax" a second time removes the second "hel". */
  lemma NormalizeHelHelLaxTwice()
    ensures Normalize(Normalize("hel hel lax")) == "lax"
  {
    HelHelLaxFolded();
    NormalizeNotIdempotent("hel hel lax", "hel", "hel", "lax");
  }

  lemma HelHelLaxFolded()
    ensures Fold(Lower("hel hel lax")) == "hel" + " " + ("hel" + " " + "lax")
  {
    FoldLowerChars("hel hel lax", "hel hel lax");
  }

  // ---------------------------------------------------------------------------------------
  // match_score

  // The normal forms of the single words used below, one word per lemma.

  lemma KycklingIsNormal()
    ensures Normalize("kyckling") == "kyckling"
  {
    NormalizeCanonicalWord("kyckling");
  }

  lemma CapitalKycklingIsNormal()
    ensures Normalize("Kyckling") == "kyckling"
  {
    FoldLowerChars("Kyckling", "kyckling");
    NormalizeOneWord("Kyckling");
  }

  lemma KycklingfileIsNormal()
    ensures Normalize("kycklingfilé") == "kycklingfilé"
  {
    NormalizeCanonicalWord("kycklingfilé");
  }

  lemma RisIsNormal()
    ensures Normalize("ris") == "ris"
  {
    NormalizeCanonicalWord("ris");
  }

  lemma RiskakorIsNormal()
    ensures Normalize("riskakor") == "riskakor"
  {
    NormalizeCanonicalWord("riskakor");
  }

  lemma AggIsNormal()
    ensures Normalize("agg") == "agg"
  {
    NormalizeCanonicalWord("agg");
  }

  lemma PalaggIsNormal()
    ensures Normalize("palagg") == "palagg"
  {
    NormalizeCanonicalWord("palagg");
  }

  lemma BrodIsNormal()
    ensures Normalize("brod") == "brod"
  {
    NormalizeCanonicalWord("brod");
  }

  lemma StrobrodIsNormal()
    ensures Normalize("strobrod") == "strobrod"
  {
    NormalizeCanonicalWord("strobrod");
  }

  lemma OstIsNormal()
    ensures Normalize("ost") == "ost"
  {
    NormalizeCanonicalWord("ost");
  }

  lemma ParmesanIsNormal()
    ensures Normalize("parmesan") == "parmesan"
  {
    NormalizeCanonicalWord("parmesan");
  }

  lemma RivenOstIsOst()
    ensures Normalize("riven ost") == "ost"
  {
    FoldLowerChars("riven ost", "riven ost");
    assert "riven ost" == "riven" + " " + "ost";
    NormalizeDropsLeading("riven ost", "riven", "ost");
  }

  lemma OstParmesanIsNormal()
    ensures Normalize("ost parmesan") == "ost parmesan"
  {
    FoldLowerChars("ost parmesan", "ost parmesan");
    assert "ost parmesan" == "ost" + " " + "parmesan";
    NormalizeTwoWords("ost parmesan", "ost", "parmesan");
  }

  /** "kyckling" is not ignored, and contains none of the denylisted ingredient patterns. */
  lemma KycklingIsNotFiltered(d: string)
    ensures !Ignored("kyckling") && !FalseMatch(d, "kyckling")
  {
    NotIgnored("kyckling");
    NotDenylistedIngredient(d, "kyckling");
  }

  lemma KycklingMatchesItself(ratio: Similarity)
    ensures ScoreNormalized("kyckling", "kyckling", ratio) == 1.0
  {
    KycklingIsNotFiltered("kyckling");
    ScoreOneIffEqual("kyckling", "kyckling", ratio);
  }

  /** match_score('kyckling', 'kyckling') == 1.0 */
  lemma ExactMatch(ratio: Similarity)
    ensures MatchScore("kyckling", "kyckling", ratio) == 1.0
  {
    KycklingIsNormal();
    MatchScoreOf("kyckling", "kyckling", "kyckling", "kyckling", ratio);
    KycklingMatchesItself(ratio);
  }

  /** match_score('Kyckling', 'kyckling') == 1.0 */
  lemma ExactMatchIgnoresCase(ratio: Similarity)
    ensures MatchScore("Kyckling", "kyckling", ratio) == 1.0
  {
    CapitalKycklingIsNormal();
    KycklingIsNormal();
    MatchScoreOf("Kyckling", "kyckling", "kyckling", "kyckling", ratio);
    KycklingMatchesItself(ratio);
  }

  /** match_score(word, word) == 0.0 for every ignore word. */
  lemma IgnoreWordsNeverMatch(ratio: Similarity)
    ensures forall w :: w in IgnoreWords ==> MatchScore(w, w, ratio) == 0.0
  {
    IgnoreWordsCanonical();
    forall w | w in IgnoreWords ensures MatchScore(w, w, ratio) == 0.0 {
      NormalizeCanonicalWord(w);
      IgnoredScoresZero(w, w, ratio);
    }
  }

  lemma RiceCakesDenylisted(ratio: Similarity)
    ensures ScoreNormalized("riskakor", "ris", ratio) == 0.0
    ensures ScoreNormalized("riskakor", "riskakor", ratio) == 0.0
  {
    assert FalseMatches[0] == ("ris", "riskakor") && "ris" <= "riskakor";
  }

  /** match_score('riskakor', 'ris') == 0.0 */
  lemma RiceCakesAreNotRice(ratio: Similarity)
    ensures MatchScore("riskakor", "ris", ratio) == 0.0
  {
    RiskakorIsNormal();
    RisIsNormal();
    MatchScoreOf("riskakor", "ris", "riskakor", "ris", ratio);
    RiceCakesDenylisted(ratio);
  }

  lemma SandwichToppingDenylisted(ratio: Similarity)
    ensures ScoreNormalized("palagg", "agg", ratio) == 0.0
  {
    assert FalseMatches[3] == ("agg", "palagg");
  }

  /** match_score('palagg', 'agg') == 0.0 */
  lemma SandwichToppingIsNotEgg(ratio: Similarity)
    ensures MatchScore("palagg", "agg", ratio) == 0.0
  {
    PalaggIsNormal();
    AggIsNormal();
    MatchScoreOf("palagg", "agg", "palagg", "agg", ratio);
    SandwichToppingDenylisted(ratio);
  }

  lemma BreadcrumbsDenylisted(ratio: Similarity)
    ensures ScoreNormalized("strobrod", "brod", ratio) == 0.0
  {
    assert FalseMatches[2] == ("brod", "strobrod");
  }

  /** match_score('strobrod', 'brod') == 0.0 */
  lemma BreadcrumbsAreNotBread(ratio: Similarity)
    ensures MatchScore("strobrod", "brod", ratio) == 0.0
  {
    StrobrodIsNormal();
    BrodIsNormal();
    MatchScoreOf("strobrod", "brod", "strobrod", "brod", ratio);
    BreadcrumbsDenylisted(ratio);
  }

  lemma RiceInRiceCakes(ratio: Similarity)
    ensures ScoreNormalized("ris", "riskakor", ratio) == 0.9
  {
    NotIgnored("riskakor");
    ShortDealNotDenylisted("ris", "riskakor");
    assert "ris" <= "riskakor";
    SubstringTier("ris", "riskakor", ratio);
  }

  /** The same two names the other way round: the ingredient "riskakor" contains the deal "ris". */
  lemma RiceIsInRiceCakes(ratio: Similarity)
    ensures MatchScore("ris", "riskakor", ratio) == 0.9
  {
    RiskakorIsNormal();
    RisIsNormal();
    MatchScoreOf("ris", "riskakor", "ris", "riskakor", ratio);
    RiceInRiceCakes(ratio);
  }

  /** An exact match of a denylisted name still scores 0. */
  lemma DenylistedExactMatch(ratio: Similarity)
    ensures MatchScore("riskakor", "riskakor", ratio) == 0.0
  {
    RiskakorIsNormal();
    MatchScoreOf("riskakor", "riskakor", "riskakor", "riskakor", ratio);
    RiceCakesDenylisted(ratio);
  }

  lemma KycklingInFillet(ratio: Similarity)
    ensures ScoreNormalized("kycklingfilé", "kyckling", ratio) == 0.9
  {
    KycklingIsNotFiltered("kycklingfilé");
    assert "kyckling" <= "kycklingfilé";
    SubstringTier("kycklingfilé", "kyckling", ratio);
  }

  /** match_score('kycklingfilé', 'kyckling') >= 0.8, and > 0.7 */
  lemma SubstringMatch(ratio: Similarity)
    ensures MatchScore("kycklingfilé", "kyckling", ratio) == 0.9
  {
    KycklingfileIsNormal();
    KycklingIsNormal();
    MatchScoreOf("kycklingfilé", "kyckling", "kycklingfilé", "kyckling", ratio);
    KycklingInFillet(ratio);
  }

  /** Of the denylisted ingredient patterns, "ost" contains only "ost", and "parmesan" is no "dessertost". */
  lemma OstPatterns()
    ensures !Contains("ost", "ris") && !Contains("ost", "agg")
    ensures !Contains("ost", "brod") && !Contains("ost", "flask")
    ensures !Contains("parmesan", "dessertost")
  {
    NotContainsChar("ost", "ris", 0);
    NotContainsChar("ost", "agg", 0);
    if Contains("ost", "brod") {
      ContainsLength("ost", "brod");
    }
    if Contains("ost", "flask") {
      ContainsLength("ost", "flask");
    }
    if Contains("parmesan", "dessertost") {
      ContainsLength("parmesan", "dessertost");
    }
  }

  lemma ParmesanNotDenylisted()
    ensures !FalseMatch("parmesan", "ost")
  {
    OstPatterns();
    NotDenylisted("parmesan", "ost");
  }

  lemma ParmesanIsCheeseSynonym()
    ensures SynonymMatch("parmesan", "ost")
  {
    var g := Synonyms[6];
    assert g.0 == "ost" && g.1[2] == "parmesan" && g.1[2] in g.1;
    assert InGroup("parmesan", g) && InGroup("ost", g);
  }

  lemma ParmesanIsCheese(ratio: Similarity)
    ensures ScoreNormalized("parmesan", "ost", ratio) == 0.85
  {
    NotIgnored("ost");
    ParmesanNotDenylisted();
    ParmesanIsCheeseSynonym();
    SynonymTier("parmesan", "ost", ratio);
  }

  /** match_score('parmesan', 'ost') > 0.7 */
  lemma SynonymMatchScore(ratio: Similarity)
    ensures MatchScore("parmesan", "ost", ratio) == 0.85
  {
    ParmesanIsNormal();
    OstIsNormal();
    MatchScoreOf("parmesan", "ost", "parmesan", "ost", ratio);
    ParmesanIsCheese(ratio);
  }

  lemma OstInOstParmesan(ratio: Similarity)
    ensures ScoreNormalized("ost", "ost parmesan", ratio) == 0.9
  {
    NotIgnored("ost parmesan");
    ShortDealNotDenylisted("ost", "ost parmesan");
    assert "ost" <= "ost parmesan";
    SubstringTier("ost", "ost parmesan", ratio);
  }

  /** match_score('riven ost', 'ost parmesan') > 0.5: the leading "riven" goes, and "ost" is then a substring. */
  lemma WordOverlap(ratio: Similarity)
    ensures MatchScore("riven ost", "ost parmesan", ratio) == 0.9
  {
    RivenOstIsOst();
    OstParmesanIsNormal();
    MatchScoreOf("riven ost", "ost parmesan", "ost", "ost parmesan", ratio);
    OstInOstParmesan(ratio);
  }

  // test_no_match: both deal names have five characters, so the fuzzy tier never runs and the
  // value of SequenceMatcher does not matter.

  lemma BananIsNormal()
    ensures Normalize("banan") == "banan"
  {
    NormalizeCanonicalWord("banan");
  }

  lemma MjolkFolds()
    ensures Normalize("mjölk") == "mjolk"
  {
    FoldLowerChars("mjölk", "mjolk");
    NormalizeOneWord("mjölk");
  }

  lemma TomatIsNormal()
    ensures Normalize("tomat") == "tomat"
  {
    NormalizeCanonicalWord("tomat");
  }

  /** The variants of a group that could fit inside "banan": at most five letters, starting with b, a or n. */
  lemma BananCandidates(k: nat)
    requires k < |Synonyms|
    ensures Synonyms[k].0 != "banan"
    ensures forall v :: v in Synonyms[k].1 ==>
      v != [] && (|v| > 5 || v[0] !in "banan" || v == "bacon" || v == "agg" || v == "apple")
  {
  }

  /** "banan" is in no synonym group: no base equals it, and each variant is too long or has a letter it lacks. */
  lemma BananInNoGroup(g: (string, seq<string>))
    requires g.0 != "banan"
    requires forall v :: v in g.1 ==>
      v != [] && (|v| > 5 || v[0] !in "banan" || v == "bacon" || v == "agg" || v == "apple")
    ensures !InGroup("banan", g)
  {
    forall v | v in g.1 ensures !Contains("banan", v) {
      if v == "bacon" {
        NotContainsChar("banan", v, 2);
      } else if v == "agg" {
        NotContainsChar("banan", v, 1);
      } else if v == "apple" {
        NotContainsChar("banan", v, 1);
      } else if Contains("banan", v) {
        ContainsLength("banan", v);
        ContainsChars("banan", v, 0);
      }
    }
  }

  /** The variants of a group that could fit inside "tomat": at most five letters, starting with t, o, m or a. */
  lemma TomatCandidates(k: nat)
    requires k < |Synonyms|
    ensures forall v :: v in Synonyms[k].1 ==>
      v != [] && (|v| > 5 || v[0] !in "tomat" || v == "agg" || v == "apple" || v == "mango" || v == "mjolk")
  {
  }

  /** "tomat" is in no synonym group but one whose base it is. */
  lemma TomatOnlyAsBase(g: (string, seq<string>))
    requires forall v :: v in g.1 ==>
      v != [] && (|v| > 5 || v[0] !in "tomat" || v == "agg" || v == "apple" || v == "mango" || v == "mjolk")
    ensures InGroup("tomat", g) ==> g.0 == "tomat"
  {
    forall v | v in g.1 ensures !Contains("tomat", v) {
      if v == "agg" || v == "apple" || v == "mjolk" {
        NotContainsChar("tomat", v, 1);
      } else if v == "mango" {
        NotContainsChar("tomat", v, 2);
      } else if Contains("tomat", v) {
        ContainsLength("tomat", v);
        ContainsChars("tomat", v, 0);
      }
    }
  }

  /** The one group based on "tomat" has only variants longer than "mjolk". */
  lemma TomatGroup(k: nat)
    requires k < |Synonyms| && Synonyms[k].0 == "tomat"
    ensures Synonyms[k].1 == Synonyms[13].1
    ensures forall v :: v in Synonyms[k].1 ==> |v| > 5
  {
  }

  lemma MjolkNotInLongGroup(g: (string, seq<string>))
    requires g.0 != "mjolk" && forall v :: v in g.1 ==> |v| > 5
    ensures !InGroup("mjolk", g)
  {
    forall v | v in g.1 ensures !Contains("mjolk", v) {
      if Contains("mjolk", v) {
        ContainsLength("mjolk", v);
      }
    }
  }

  lemma BananNotKycklingSynonym()
    ensures !SynonymMatch("banan", "kyckling")
  {
    forall g | g in Synonyms ensures !InGroup("banan", g) {
      var k :| 0 <= k < |Synonyms| && Synonyms[k] == g;
      BananCandidates(k);
      BananInNoGroup(g);
    }
  }

  lemma BananKycklingNoSharedWord()
    ensures !SharesSignificantWord("banan", "kyckling")
  {
    assert NoSpace("banan");
    assert NoSpace("kyckling");
    SingleWordsShareNothing("banan", "kyckling");
  }

  lemma BananVersusKyckling(ratio: Similarity)
    ensures ScoreNormalized("banan", "kyckling", ratio) == 0.0
  {
    KycklingIsNotFiltered("banan");
    NotContainsChar("banan", "kyckling", 0);
    NotContainsChar("kyckling", "banan", 0);
    BananNotKycklingSynonym();
    BananKycklingNoSharedWord();
    NoTierScoresZero("banan", "kyckling", ratio);
  }

  /** match_score('banan', 'kyckling') == 0.0 */
  lemma NoMatchBananKyckling(ratio: Similarity)
    ensures MatchScore("banan", "kyckling", ratio) == 0.0
  {
    BananIsNormal();
    KycklingIsNormal();
    MatchScoreOf("banan", "kyckling", "banan", "kyckling", ratio);
    BananVersusKyckling(ratio);
  }

  lemma TomatNotMjolkSynonym()
    ensures !SynonymMatch("mjolk", "tomat")
  {
    forall g | g in Synonyms ensures !(InGroup("mjolk", g) && InGroup("tomat", g)) {
      var k :| 0 <= k < |Synonyms| && Synonyms[k] == g;
      TomatCandidates(k);
      TomatOnlyAsBase(g);
      if g.0 == "tomat" {
        TomatGroup(k);
        MjolkNotInLongGroup(g);
      }
    }
  }

  lemma TomatNotDenylisted()
    ensures !FalseMatch("mjolk", "tomat")
  {
    NotContainsChar("tomat", "ris", 1);
    NotContainsChar("tomat", "brod", 0);
    NotContainsChar("tomat", "agg", 1);
    NotContainsChar("tomat", "ost", 1);
    NotContainsChar("tomat", "flask", 0);
    NotDenylisted("mjolk", "tomat");
  }

  lemma TomatNotFiltered()
    ensures !Ignored("tomat") && !FalseMatch("mjolk", "tomat")
    ensures !Contains("tomat", "mjolk") && !Contains("mjolk", "tomat")
  {
    NotIgnored("tomat");
    TomatNotDenylisted();
    NotContainsChar("mjolk", "tomat", 0);
    NotContainsChar("tomat", "mjolk", 1);
  }

  lemma MjolkTomatNoSharedWord()
    ensures !SharesSignificantWord("mjolk", "tomat")
  {
    assert NoSpace("mjolk");
    assert NoSpace("tomat");
    SingleWordsShareNothing("mjolk", "tomat");
  }

  lemma MjolkVersusTomat(ratio: Similarity)
    ensures ScoreNormalized("mjolk", "tomat", ratio) == 0.0
  {
    TomatNotFiltered();
    TomatNotMjolkSynonym();
    MjolkTomatNoSharedWord();
    NoTierScoresZero("mjolk", "tomat", ratio);
  }

  /** match_score('mjölk', 'tomat') == 0.0 */
  lemma NoMatchMjolkTomat(ratio: Similarity)
    ensures MatchScore("mjölk", "tomat", ratio) == 0.0
  {
    MjolkFolds();
    TomatIsNormal();
    MatchScoreOf("mjölk", "tomat", "mjolk", "tomat", ratio);
    MjolkVersusTomat(ratio);
  }
}
