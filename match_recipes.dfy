/**
 * The ingredient-to-deal matcher: `normalize`, `match_score`, `find_matching_deals`,
 * `analyze_recipe` and the ranking of the analysed recipes in `main`.
 *
 * Deals and recipes are already-parsed JSON dicts. `difflib.SequenceMatcher(...).ratio()`
 * is library code and enters as a parameter: any function into [0, 1].
 */
module MatchRecipes {
  import opened Wrappers
  import opened Text
  import opened Json
  import opened Seqs
  import opened Sorting

  /** `SequenceMatcher(None, a, b).ratio()`: a similarity in [0, 1]. */
  type Similarity = f: (string, string) -> real | forall a, b :: 0.0 <= f(a, b) <= 1.0
    witness (a: string, b: string) => 0.0

  // ---------------------------------------------------------------------------------------
  // Lexical tables

  /** SYNONYMS: a base word and its variants, in dict order. */
  const Synonyms: seq<(string, seq<string>)> := [
    ("fars", ["blandfars", "notfars", "flaskfars", "kycklingfars", "kottfars", "umamifars"]),
    ("kyckling", ["kycklingfile", "kycklinglar", "kycklingbrost", "kycklingklubba", "strimlad kyckling", "kycklinglarfile"]),
    ("lax", ["laxfile", "varmrokt lax", "gravad lax", "rokt lax"]),
    ("torsk", ["torskfile", "torskrygg"]),
    ("bacon", ["bacon", "sidflask", "stekflask"]),
    ("flask", ["flaskkotlett", "flaskfile", "kassler"]),
    ("ost", ["riven ost", "mozzarella", "parmesan", "parmesanost", "cheddar", "vasterbottensost", "fetaost"]),
    ("gradde", ["vispgradde", "matlagningsgradde", "creme fraiche"]),
    ("graddfil", ["graddfil", "creme fraiche"]),
    ("mjolk", ["mjolk", "havremjolk", "lattmjolk"]),
    ("smor", ["smor"]),
    ("lok", ["gul lok", "rodlok", "purjolok", "salladslok", "lokar"]),
    ("potatis", ["potatis", "farskpotatis"]),
    ("tomat", ["tomater", "krossade tomater", "hela tomater", "plommontomater", "babyplommontomater"]),
    ("paprika", ["paprika", "rod paprika", "gul paprika"]),
    ("agg", ["agg", "aggula"]),
    ("pasta", ["pasta", "spaghetti", "penne", "makaroner", "tagliatelle", "lasagne", "lasagnette"]),
    ("yoghurt", ["yoghurt", "naturell yoghurt", "turkisk yoghurt", "matyoghurt"]),
    ("druvor", ["druvor", "grona druvor", "roda druvor"]),
    ("applen", ["applen", "apple", "svenska applen"]),
    ("rakor", ["rakor", "handskalade rakor", "skaldjur"]),
    ("falukorv", ["falukorv", "korv"]),
    ("kottbullar", ["kottbullar"]),
    ("hamburgare", ["hamburgare", "hamburgarbrod"]),
    ("broccoli", ["broccoli"]),
    ("blomkal", ["blomkal"]),
    ("mango", ["mango"]),
    ("avokado", ["avokado", "avokador"])
  ]

  /** IGNORE_WORDS: pantry staples that never count as a match. */
  const IgnoreWords: set<string> :=
    {"vatten", "salt", "peppar", "olja", "socker", "mjol", "buljong", "fond", "krydda", "kryddor", "orter"}

  /** FALSE_MATCHES: (ingredient pattern, deal pattern) pairs that must not match. */
  const FalseMatches: seq<(string, string)> := [
    ("ris", "riskakor"),
    ("ris", "majskakor"),
    ("brod", "strobrod"),
    ("agg", "palagg"),
    ("ost", "dessertost"),
    ("flask", "flaskfile")
  ]

  /** Words that do not count towards a word overlap. */
  const CommonWords: set<string> := {"med", "och", "i", "pa", "for", "av", "eller", "ca", "g", "kg", "dl", "st"}

  /** The qualifiers stripped from the front, in the order the regular expression tries them. */
  const LeadingQualifiers: seq<string> :=
    ["farsk", "fryst", "ekologisk", "svensk", "riven", "hackad", "skivad", "strimlad", "hel", "hela"]

  /** The qualifiers stripped from the end. */
  const TrailingQualifiers: seq<string> := ["farsk", "fryst", "ekologisk"]

  // ---------------------------------------------------------------------------------------
  // normalize

  /** The diacritic folding: å and ä become a, ö becomes o. */
  function FoldChar(c: char): char {
    if c == 'å' || c == 'ä' then 'a' else if c == 'ö' then 'o' else c
  }

  function Fold(s: string): (r: string)
    ensures |r| == |s|
    ensures forall i :: 0 <= i < |s| ==> r[i] == FoldChar(s[i])
  {
    seq(|s|, i requires 0 <= i < |s| => FoldChar(s[i]))
  }

  /** The first qualifier, in pattern order, that `t` starts with, followed by whitespace. */
  function LeadingQualifier(t: string, qs: seq<string>): (r: Option<string>)
    ensures r.Some? ==> r.value in qs && r.value <= t && |r.value| < |t| && IsSpace(t[|r.value|])
    ensures r.None? ==> forall k :: 0 <= k < |qs| ==> !(qs[k] <= t && |qs[k]| < |t| && IsSpace(t[|qs[k]|]))
  {
    if qs == [] then None
    else if qs[0] <= t && |qs[0]| < |t| && IsSpace(t[|qs[0]|]) then Some(qs[0])
    else LeadingQualifier(t, qs[1..])
  }

  /** `re.sub(r'^(farsk|...|hela)\s+', '', t)`: removes one leading qualifier and the whitespace after it. */
  function DropLeading(t: string): string {
    match LeadingQualifier(t, LeadingQualifiers)
    case None => t
    case Some(w) => t[SkipWhile(t, |w|, IsSpace)..]
  }

  /** The end of a match of `(farsk|fryst|ekologisk)$` at position `j`, if any. */
  function TrailingWordAt(t: string, j: nat, qs: seq<string>): (e: Option<nat>)
    ensures e.Some? ==> j < e.value <= |t| && AtEnd(t, e.value)
  {
    if qs == [] then None
    else if qs[0] != [] && j + |qs[0]| <= |t| && t[j..j + |qs[0]|] == qs[0] && AtEnd(t, j + |qs[0]|)
    then Some(j + |qs[0]|)
    else TrailingWordAt(t, j, qs[1..])
  }

  /**
   * The end of a match of `\s+(farsk|fryst|ekologisk)$` starting at `i`, if any. The qualifiers
   * start with a letter, so `\s+` can only end where the whitespace run from `i` ends.
   */
  function TrailingMatchAt(t: string, i: nat): (e: Option<nat>)
    ensures e.Some? ==> i < e.value <= |t| && AtEnd(t, e.value)
  {
    if i < |t| && IsSpace(t[i]) then TrailingWordAt(t, SkipWhile(t, i, IsSpace), TrailingQualifiers)
    else None
  }

  /** The leftmost match of the trailing pattern at or after `from`: its start and end. */
  function FindTrailing(t: string, from: nat): (m: Option<(nat, nat)>)
    requires from <= |t|
    ensures m.Some? ==> from <= m.value.0 < m.value.1 <= |t| && TrailingMatchAt(t, m.value.0) == Some(m.value.1)
    ensures m.Some? ==> forall i :: from <= i < m.value.0 ==> TrailingMatchAt(t, i).None?
    ensures m.None? ==> forall i :: from <= i < |t| ==> TrailingMatchAt(t, i).None?
    decreases |t| - from
  {
    if from == |t| then None
    else match TrailingMatchAt(t, from)
      case Some(e) => Some((from, e))
      case None => FindTrailing(t, from + 1)
  }

  /** `re.sub(r'\s+(farsk|fryst|ekologisk)$', '', t[from:])`: every leftmost match removed. */
  function DropTrailingFrom(t: string, from: nat): string
    requires from <= |t|
    decreases |t| - from
  {
    match FindTrailing(t, from)
    case None => t[from..]
    case Some((i, e)) => t[from..i] + DropTrailingFrom(t, e)
  }

  function DropTrailing(t: string): string {
    DropTrailingFrom(t, 0)
  }

  /** `normalize(text)`. */
  function Normalize(text: string): string {
    DropTrailing(DropLeading(Fold(Strip(Lower(text)))))
  }

  // ---------------------------------------------------------------------------------------
  // match_score

  /** The ignore-word guard: the ingredient is, or starts with, an ignore word. */
  predicate Ignored(ing: string) {
    ing in IgnoreWords || exists w :: w in IgnoreWords && w <= ing
  }

  /** Some denylisted pair occurs as substrings of the ingredient and of the deal. */
  predicate FalseMatch(deal: string, ing: string) {
    exists p :: p in FalseMatches && Contains(ing, p.0) && Contains(deal, p.1)
  }

  /** One side matches a synonym group: the base by equality, a variant by equality or substring. */
  predicate InGroup(x: string, g: (string, seq<string>)) {
    x == g.0 || exists v :: v in g.1 && (x == v || Contains(x, v))
  }

  predicate SynonymMatch(deal: string, ing: string) {
    exists g :: g in Synonyms && InGroup(deal, g) && InGroup(ing, g)
  }

  /** The two word sets, without the common words, share a word longer than three characters. */
  predicate SharesSignificantWord(deal: string, ing: string) {
    var dw := Words(deal);
    var iw := Words(ing);
    exists k :: 0 <= k < |dw| && dw[k] !in CommonWords && |dw[k]| > 3 && dw[k] in iw
  }

  /** The fuzzy tier applies: both strings longer than five characters, and a ratio above 0.8. */
  predicate FuzzyMatch(deal: string, ing: string, ratio: Similarity) {
    |deal| > 5 && |ing| > 5 && ratio(deal, ing) > 0.8
  }

  /** `match_score` on already-normalised strings. */
  function ScoreNormalized(d: string, i: string, ratio: Similarity): (r: real)
    ensures 0.0 <= r <= 1.0
    ensures r == 0.0 || r == 1.0 || r == 0.9 || r == 0.85 || r == 0.75 || 0.56 < r <= 0.7
  {
    if Ignored(i) then 0.0
    else if FalseMatch(d, i) then 0.0
    else if d == i then 1.0
    else if |i| >= 4 && (Contains(i, d) || Contains(d, i)) then 0.9
    else if SynonymMatch(d, i) then 0.85
    else if SharesSignificantWord(d, i) then 0.75
    else if FuzzyMatch(d, i, ratio) then ratio(d, i) * 0.7
    else 0.0
  }

  /** `match_score(deal_name, ingredient)`: the deal name comes first. */
  function MatchScore(dealName: string, ingredient: string, ratio: Similarity): (r: real)
    ensures 0.0 <= r <= 1.0
  {
    ScoreNormalized(Normalize(dealName), Normalize(ingredient), ratio)
  }

  // ---------------------------------------------------------------------------------------
  // Properties of normalize

  /** A character `normalize` can produce: lower-case and not å, ä or ö. */
  predicate Canonical(c: char) {
    LowerChar(c) == c && c != 'å' && c != 'ä' && c != 'ö'
  }

  lemma {:induction false} DropTrailingFromKeeps(t: string, from: nat, q: char -> bool)
    requires from <= |t| && AllChars(t, q)
    ensures AllChars(DropTrailingFrom(t, from), q)
    decreases |t| - from
  {
    match FindTrailing(t, from)
    case None =>
    case Some((i, e)) =>
      DropTrailingFromKeeps(t, e, q);
      var r := DropTrailingFrom(t, e);
      assert forall k :: 0 <= k < |t[from..i]| ==> t[from..i][k] == t[from + k];
  }

  /** Two positions in the same whitespace run see the same end of that run. */
  lemma SameRun(t: string, i: nat)
    requires 0 < i < |t| && IsSpace(t[i - 1]) && IsSpace(t[i])
    ensures TrailingMatchAt(t, i - 1) == TrailingMatchAt(t, i)
  {
  }

  /** On a trimmed string the trailing rewrite leaves a trimmed string. */
  lemma DropTrailingTrimmed(t: string)
    requires IsTrimmed(t)
    ensures IsTrimmed(DropTrailing(t))
  {
    match FindTrailing(t, 0)
    case None =>
    case Some((i, e)) =>
      assert IsSpace(t[i]);
      assert e == |t|;
      assert FindTrailing(t, |t|) == None;
      assert DropTrailingFrom(t, |t|) == [];
      assert DropTrailing(t) == t[0..i] + [];
      assert t[0..i] + [] == t[..i];
      assert i > 0;
      if IsSpace(t[i - 1]) {
        SameRun(t, i);
        assert false;
      }
  }

  lemma FoldCanonical(s: string)
    requires AllChars(s, IsLowerChar) && IsTrimmed(s)
    ensures AllChars(Fold(s), Canonical) && IsTrimmed(Fold(s))
  {
  }

  lemma DropLeadingKeeps(f: string)
    requires AllChars(f, Canonical) && IsTrimmed(f)
    ensures AllChars(DropLeading(f), Canonical) && IsTrimmed(DropLeading(f))
  {
    match LeadingQualifier(f, LeadingQualifiers)
    case None =>
    case Some(w) =>
      var j := SkipWhile(f, |w|, IsSpace);
      var d := f[j..];
      assert forall k :: 0 <= k < |d| ==> d[k] == f[j + k];
      if d != [] {
        assert d[|d| - 1] == f[|f| - 1];
      }
  }

  /**
   * `normalize` lower-cases, folds å/ä/ö and trims: its result has only lower-case characters
   * other than å, ä and ö, and no whitespace at either end.
   */
  lemma NormalizeIsCanonical(text: string)
    ensures AllChars(Normalize(text), Canonical)
    ensures IsTrimmed(Normalize(text))
  {
    var s := Strip(Lower(text));
    LowerIsLower(text);
    StripKeeps(Lower(text), IsLowerChar);
    StripIsTrimmed(Lower(text));
    FoldCanonical(s);
    DropLeadingKeeps(Fold(s));
    var d := DropLeading(Fold(s));
    DropTrailingFromKeeps(d, 0, Canonical);
    DropTrailingTrimmed(d);
  }

  /** Lower-casing and folding a literal, one character at a time. */
  lemma FoldLowerChars(s: string, r: string)
    requires |s| == |r| && forall i :: 0 <= i < |s| ==> FoldChar(LowerChar(s[i])) == r[i]
    ensures Fold(Lower(s)) == r
  {
  }

  lemma FoldCharSpace(c: char)
    ensures IsSpace(FoldChar(c)) <==> IsSpace(c)
  {
  }

  /** When the folded, lower-cased text has no whitespace at its ends, `strip` changes nothing. */
  lemma CleanedIsFolded(text: string)
    requires IsTrimmed(Fold(Lower(text)))
    ensures Fold(Strip(Lower(text))) == Fold(Lower(text))
  {
    var l := Lower(text);
    if l != [] {
      LowerCharSpace(text[0]);
      FoldCharSpace(l[0]);
      LowerCharSpace(text[|text| - 1]);
      FoldCharSpace(l[|l| - 1]);
    }
    StripTrimmed(l);
  }

  /** Every qualifier is a single word. */
  lemma QualifiersNoSpace()
    ensures forall k :: 0 <= k < |LeadingQualifiers| ==> NoSpace(LeadingQualifiers[k])
    ensures forall k :: 0 <= k < |TrailingQualifiers| ==> NoSpace(TrailingQualifiers[k])
  {
    forall k | 0 <= k < |LeadingQualifiers| ensures NoSpace(LeadingQualifiers[k]) {
      assert AllChars(LeadingQualifiers[k], IsAsciiLetter);
    }
  }

  /**
   * When the first whitespace of `t` is at `n` and no qualifier contains whitespace, the only
   * qualifier that can open `t` is the word `t[..n]`.
   */
  lemma {:induction false} LeadingQualifierAt(t: string, qs: seq<string>, n: nat)
    requires n < |t| && IsSpace(t[n]) && NoSpace(t[..n])
    requires forall k :: 0 <= k < |qs| ==> NoSpace(qs[k])
    ensures LeadingQualifier(t, qs) == if t[..n] in qs then Some(t[..n]) else None
  {
    if qs != [] {
      var q := qs[0];
      if q <= t && |q| < |t| && IsSpace(t[|q|]) {
        assert q == t[..n];
      } else {
        LeadingQualifierAt(t, qs[1..], n);
        if t[..n] in qs {
          assert t[..n] != q;
          assert t[..n] in qs[1..];
        }
      }
    }
  }

  /** Positions inside a word start no trailing match. */
  lemma {:induction false} FindTrailingSkips(t: string, from: nat, n: nat)
    requires from <= n <= |t|
    requires forall i :: from <= i < n ==> !IsSpace(t[i])
    ensures FindTrailing(t, from) == FindTrailing(t, n)
    decreases n - from
  {
    if from < n {
      FindTrailingSkips(t, from + 1, n);
    }
  }

  /**
   * When `t` has no whitespace from `j` on, a trailing qualifier ends at `j` exactly when the
   * rest of `t` is that qualifier, and the match then runs to the end.
   */
  lemma {:induction false} TrailingWordAtRest(t: string, j: nat, qs: seq<string>)
    requires j < |t| && NoSpace(t[j..])
    ensures TrailingWordAt(t, j, qs) == if t[j..] in qs then Some(|t|) else None
  {
    if qs != [] {
      var q := qs[0];
      if q != [] && j + |q| <= |t| && t[j..j + |q|] == q && AtEnd(t, j + |q|) {
        assert t[j..] == q;
      } else {
        TrailingWordAtRest(t, j, qs[1..]);
        if t[j..] in qs {
          assert t[j..] != q;
          assert t[j..] in qs[1..];
        }
      }
    }
  }

  /** A string without whitespace has no qualifier to drop. */
  lemma NoSpaceNoQualifier(t: string)
    requires NoSpace(t)
    ensures DropLeading(t) == t && DropTrailing(t) == t
  {
    assert LeadingQualifier(t, LeadingQualifiers) == None;
    FindTrailingSkips(t, 0, |t|);
  }

  /** `w1 + " " + w2`, two words: the trailing rewrite removes `w2` exactly when it is a trailing qualifier. */
  lemma TwoWordsTrailing(w1: string, w2: string)
    requires w1 != [] && w2 != [] && NoSpace(w1) && NoSpace(w2)
    ensures DropTrailing(w1 + " " + w2) == if w2 in TrailingQualifiers then w1 else w1 + " " + w2
  {
    var t := w1 + " " + w2;
    var n := |w1|;
    assert t[n + 1..] == w2;
    FindTrailingSkips(t, 0, n);
    assert SkipWhile(t, n + 1, IsSpace) == n + 1;
    TrailingWordAtRest(t, n + 1, TrailingQualifiers);
    assert t[..n] == w1;
    if w2 in TrailingQualifiers {
      assert FindTrailing(t, n) == Some((n, |t|));
      assert DropTrailingFrom(t, |t|) == [];
    } else {
      assert FindTrailing(t, n) == FindTrailing(t, n + 1);
      FindTrailingSkips(t, n + 1, |t|);
      assert FindTrailing(t, 0) == None;
    }
  }

  /**
   * A word, one space and a rest that does not start with whitespace: the leading rewrite
   * removes the word and the space exactly when the word is a leading qualifier.
   */
  lemma LeadingWordDropped(w1: string, w2: string)
    requires w1 != [] && NoSpace(w1) && w2 != [] && !IsSpace(w2[0])
    ensures DropLeading(w1 + " " + w2) == if w1 in LeadingQualifiers then w2 else w1 + " " + w2
  {
    var t := w1 + " " + w2;
    var n := |w1|;
    assert t[..n] == w1;
    QualifiersNoSpace();
    LeadingQualifierAt(t, LeadingQualifiers, n);
    if w1 in LeadingQualifiers {
      assert SkipWhile(t, n + 1, IsSpace) == n + 1;
      assert t[n + 1..] == w2;
    }
  }

  /** A one-word text normalises to its lower-cased, folded form. */
  lemma NormalizeOneWord(text: string)
    requires NoSpace(text)
    ensures Normalize(text) == Fold(Lower(text))
  {
    var l := Lower(text);
    var f := Fold(l);
    forall k | 0 <= k < |f| ensures !IsSpace(f[k]) {
      LowerCharSpace(text[k]);
      FoldCharSpace(l[k]);
    }
    CleanedIsFolded(text);
    NoSpaceNoQualifier(f);
    assert Normalize(text) == DropTrailing(DropLeading(f));
  }

  /** A leading qualifier and one word: only the word remains. */
  lemma NormalizeDropsLeading(text: string, q: string, w: string)
    requires q in LeadingQualifiers && w != [] && NoSpace(w)
    requires Fold(Lower(text)) == q + " " + w
    ensures Normalize(text) == w
  {
    QualifiersNoSpace();
    assert q != [];
    var f := q + " " + w;
    assert f[0] == q[0] && f[|f| - 1] == w[|w| - 1];
    CleanedIsFolded(text);
    LeadingWordDropped(q, w);
    NoSpaceNoQualifier(w);
  }

  /** One word that is not a leading qualifier, then a trailing qualifier: only the word remains. */
  lemma NormalizeDropsTrailing(text: string, w: string, q: string)
    requires q in TrailingQualifiers && w != [] && NoSpace(w) && w !in LeadingQualifiers
    requires Fold(Lower(text)) == w + " " + q
    ensures Normalize(text) == w
  {
    QualifiersNoSpace();
    assert q != [];
    var f := w + " " + q;
    assert f[0] == w[0] && f[|f| - 1] == q[|q| - 1];
    CleanedIsFolded(text);
    LeadingWordDropped(w, q);
    TwoWordsTrailing(w, q);
  }

  /**
   * Two leading qualifiers and a word that is not a trailing qualifier: only the first
   * qualifier goes, so the result is not in normal form.
   */
  lemma NormalizeDropsOneQualifier(text: string, q1: string, q2: string, w: string)
    requires q1 in LeadingQualifiers && q2 in LeadingQualifiers
    requires w != [] && NoSpace(w) && w !in TrailingQualifiers
    requires Fold(Lower(text)) == q1 + " " + (q2 + " " + w)
    ensures Normalize(text) == q2 + " " + w
  {
    QualifiersNoSpace();
    assert q1 != [] && q2 != [];
    var r := q2 + " " + w;
    var f := q1 + " " + r;
    assert f[0] == q1[0] && f[|f| - 1] == w[|w| - 1];
    CleanedIsFolded(text);
    LeadingWordDropped(q1, r);
    TwoWordsTrailing(q2, w);
    assert Normalize(text) == DropTrailing(DropLeading(f));
  }

  /** Canonical text is left alone by lower-casing and folding. */
  lemma CanonicalFixed(s: string)
    requires AllChars(s, Canonical)
    ensures Fold(Lower(s)) == s
  {
    FoldLowerChars(s, s);
  }

  lemma SpacedCanonical(a: string, b: string)
    requires AllChars(a, Canonical) && AllChars(b, Canonical)
    ensures AllChars(a + " " + b, Canonical)
  {
    var r := a + " " + b;
    forall k | 0 <= k < |r| ensures Canonical(r[k]) {
      if k < |a| { assert r[k] == a[k]; } else if k > |a| { assert r[k] == b[k - |a| - 1]; }
    }
  }

  lemma LeadingQualifiersCanonical()
    ensures forall k :: 0 <= k < |LeadingQualifiers| ==> AllChars(LeadingQualifiers[k], Canonical)
  {
    forall k | 0 <= k < |LeadingQualifiers| ensures AllChars(LeadingQualifiers[k], Canonical) {
      assert AllChars(LeadingQualifiers[k], c => 'a' <= c <= 'z');
    }
  }

  /**
   * `normalize` is not idempotent: after two leading qualifiers, normalising again removes
   * the second one.
   */
  lemma NormalizeNotIdempotent(text: string, q1: string, q2: string, w: string)
    requires q1 in LeadingQualifiers && q2 in LeadingQualifiers
    requires w != [] && NoSpace(w) && w !in TrailingQualifiers && AllChars(w, Canonical)
    requires Fold(Lower(text)) == q1 + " " + (q2 + " " + w)
    ensures Normalize(Normalize(text)) == w
    ensures Normalize(text) != w
  {
    NormalizeDropsOneQualifier(text, q1, q2, w);
    var r := q2 + " " + w;
    LeadingQualifiersCanonical();
    SpacedCanonical(q2, w);
    CanonicalFixed(r);
    NormalizeDropsLeading(r, q2, w);
  }

  /** Two words, neither of them a qualifier in its place, are left as they are. */
  lemma NormalizeTwoWords(text: string, w1: string, w2: string)
    requires w1 != [] && NoSpace(w1) && w1 !in LeadingQualifiers
    requires w2 != [] && NoSpace(w2) && w2 !in TrailingQualifiers
    requires Fold(Lower(text)) == w1 + " " + w2
    ensures Normalize(text) == w1 + " " + w2
  {
    var f := w1 + " " + w2;
    assert f[0] == w1[0] && f[|f| - 1] == w2[|w2| - 1];
    CleanedIsFolded(text);
    LeadingWordDropped(w1, w2);
    TwoWordsTrailing(w1, w2);
    assert Normalize(text) == DropTrailing(DropLeading(f));
  }

  /** A single word already in normal form normalises to itself. */
  lemma NormalizeCanonicalWord(w: string)
    requires NoSpace(w) && AllChars(w, Canonical)
    ensures Normalize(w) == w
  {
    CanonicalFixed(w);
    NormalizeOneWord(w);
  }

  // ---------------------------------------------------------------------------------------
  // Properties of match_score

  /** An ingredient that is, or starts with, an ignore word scores 0 against every deal. */
  lemma IgnoredScoresZero(dealName: string, ingredient: string, ratio: Similarity)
    requires Ignored(Normalize(ingredient))
    ensures MatchScore(dealName, ingredient, ratio) == 0.0
  {
  }

  /** A denylisted pair scores 0, whatever else the two names have in common. */
  lemma FalseMatchScoresZero(dealName: string, ingredient: string, ratio: Similarity)
    requires FalseMatch(Normalize(dealName), Normalize(ingredient))
    ensures MatchScore(dealName, ingredient, ratio) == 0.0
  {
  }

  /** `match_score` compares the normalised names. */
  lemma MatchScoreOf(dealName: string, ingredient: string, d: string, i: string, ratio: Similarity)
    requires Normalize(dealName) == d && Normalize(ingredient) == i
    ensures MatchScore(dealName, ingredient, ratio) == ScoreNormalized(d, i, ratio)
  {
  }

  /** The substring tier: a contained name scores 0.9 once the ingredient has four characters. */
  lemma SubstringTier(d: string, i: string, ratio: Similarity)
    requires !Ignored(i) && !FalseMatch(d, i) && d != i
    requires |i| >= 4 && (Contains(i, d) || Contains(d, i))
    ensures ScoreNormalized(d, i, ratio) == 0.9
  {
  }

  /** The synonym tier: both names in one synonym group, and no earlier tier, score 0.85. */
  lemma SynonymTier(d: string, i: string, ratio: Similarity)
    requires !Ignored(i) && !FalseMatch(d, i) && d != i
    requires !(|i| >= 4 && (Contains(i, d) || Contains(d, i)))
    requires SynonymMatch(d, i)
    ensures ScoreNormalized(d, i, ratio) == 0.85
  {
  }

  /** The first two letters of every ignore word. */
  const IgnorePrefixes: set<(char, char)> :=
    {('v', 'a'), ('s', 'a'), ('p', 'e'), ('o', 'l'), ('s', 'o'), ('m', 'j'), ('b', 'u'), ('f', 'o'), ('k', 'r'), ('o', 'r')}

  lemma IgnoreWordsPrefixes()
    ensures forall w :: w in IgnoreWords ==> |w| >= 2 && (w[0], w[1]) in IgnorePrefixes
  {
  }

  /** An ingredient whose first two letters start no ignore word is not ignored. */
  lemma NotIgnored(i: string)
    requires |i| >= 2 && (i[0], i[1]) !in IgnorePrefixes
    ensures !Ignored(i)
  {
    IgnoreWordsPrefixes();
    forall w | w in IgnoreWords && w <= i ensures false {
      PrefixPair(w, i);
    }
  }

  lemma PrefixPair(w: string, i: string)
    ensures |w| >= 2 && w <= i ==> w[0] == i[0] && w[1] == i[1]
  {
  }

  /** Every ignore word is one word of plain lower-case letters. */
  lemma IgnoreWordsCanonical()
    ensures forall w :: w in IgnoreWords ==> NoSpace(w) && AllChars(w, Canonical)
  {
    forall w | w in IgnoreWords ensures NoSpace(w) && AllChars(w, Canonical) {
      assert AllChars(w, c => 'a' <= c <= 'z');
    }
  }

  /** No pair of the denylist applies. */
  lemma NotDenylisted(d: string, i: string)
    requires forall k :: 0 <= k < |FalseMatches| ==> !Contains(i, FalseMatches[k].0) || !Contains(d, FalseMatches[k].1)
    ensures !FalseMatch(d, i)
  {
  }

  /** Every denylisted ingredient pattern starts with r, b, a, o or f. */
  lemma NotDenylistedIngredient(d: string, i: string)
    requires 'r' !in i && 'b' !in i && 'a' !in i && 'o' !in i && 'f' !in i
    ensures !FalseMatch(d, i)
  {
    forall p | p in FalseMatches ensures !Contains(i, p.0) {
      NotContainsChar(i, p.0, 0);
    }
  }

  /** Every denylisted deal pattern has six characters or more, so a shorter deal name is never denylisted. */
  lemma ShortDealNotDenylisted(d: string, i: string)
    requires |d| < 6
    ensures !FalseMatch(d, i)
  {
    forall p | p in FalseMatches ensures !Contains(d, p.1) {
      if Contains(d, p.1) {
        ContainsLength(d, p.1);
      }
    }
  }

  /** A score of 1.0 means equal names, neither ignored nor denylisted, and nothing else. */
  lemma ScoreOneIffEqual(d: string, i: string, ratio: Similarity)
    ensures ScoreNormalized(d, i, ratio) == 1.0 <==> d == i && !Ignored(i) && !FalseMatch(d, i)
  {
    if !Ignored(i) && !FalseMatch(d, i) && d != i && !(|i| >= 4 && (Contains(i, d) || Contains(d, i)))
       && !SynonymMatch(d, i) && !SharesSignificantWord(d, i) && FuzzyMatch(d, i, ratio)
    {
      assert ratio(d, i) <= 1.0;
    }
  }

  /**
   * The lexical tiers all score at least 0.75; anything lower but positive is the fuzzy tier,
   * scaled by 0.7, and it reaches a threshold of 0.6 exactly when the similarity is 6/7 or more.
   */
  lemma FuzzyTier(d: string, i: string, ratio: Similarity)
    requires 0.0 < ScoreNormalized(d, i, ratio) < 0.75
    ensures FuzzyMatch(d, i, ratio) && ScoreNormalized(d, i, ratio) == ratio(d, i) * 0.7
    ensures ScoreNormalized(d, i, ratio) >= 0.6 <==> ratio(d, i) >= 6.0 / 7.0
  {
  }

  /**
   * When no lexical tier applies and one of the names has five characters or fewer, the
   * fuzzy tier cannot run either, so the score is 0 whatever the similarity.
   */
  lemma NoTierScoresZero(d: string, i: string, ratio: Similarity)
    requires !Ignored(i) && !FalseMatch(d, i) && d != i
    requires !Contains(i, d) && !Contains(d, i)
    requires !SynonymMatch(d, i) && !SharesSignificantWord(d, i)
    requires |d| <= 5 || |i| <= 5
    ensures ScoreNormalized(d, i, ratio) == 0.0
  {
  }

  /** Two different single words share no word at all. */
  lemma SingleWordsShareNothing(d: string, i: string)
    requires d != [] && NoSpace(d) && i != [] && NoSpace(i) && d != i
    ensures !SharesSignificantWord(d, i)
  {
    WordsOfWord(d);
    WordsOfWord(i);
  }

  /** Characters of `sub` that `s` lacks rule out `sub in s`. */
  lemma NotContainsChar(s: string, sub: string, k: nat)
    requires k < |sub| && sub[k] !in s
    ensures !Contains(s, sub)
  {
    if Contains(s, sub) {
      ContainsChars(s, sub, k);
    }
  }

  /**
   * A deal without a name (`deal.get('name', '')`) scores 0.9 against every ingredient whose
   * normal form has four or more characters and is not ignored: the empty name is a substring
   * of every name.
   */
  lemma NamelessDealScore(ingredient: string, ratio: Similarity)
    requires |Normalize(ingredient)| >= 4 && !Ignored(Normalize(ingredient))
    ensures MatchScore("", ingredient, ratio) == 0.9
  {
    var i := Normalize(ingredient);
    NormalizeCanonicalWord("");
    MatchScoreOf("", ingredient, "", i, ratio);
    ShortDealNotDenylisted("", i);
    assert "" <= i;
    SubstringTier("", i, ratio);
  }
}
