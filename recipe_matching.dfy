/**
 * The matching loop of `match_recipes.py`: `find_matching_deals`, which keeps the deals whose
 * score reaches a threshold and sorts them by score, `analyze_recipe`, which splits a recipe's
 * ingredients into matched and unmatched ones, and the ranking of the analyses in `main`.
 */
module RecipeMatching {
  import opened Wrappers
  import opened Json
  import opened Seqs
  import opened Sorting
  import opened MatchRecipes

  // ---------------------------------------------------------------------------------------
  // Deals and matches

  /** A deal: a dict whose `name`, when present, is a string (`match_score` lower-cases it). */
  predicate IsDeal(d: Json) {
    d.JObj? && (Lookup(d.entries, "name").None? || Lookup(d.entries, "name").value.JStr?)
  }

  type Deal = d: Json | IsDeal(d) witness JObj([])

  /** `deal.get('name', '')`. */
  function DealName(d: Deal): string {
    match Lookup(d.entries, "name")
    case Some(n) => n.s
    case None => ""
  }

  /** `{'deal': deal, 'score': score, 'ingredient': ingredient}`. */
  datatype Match = Match(deal: Deal, score: real, ingredient: string)

  /** The threshold `find_matching_deals` uses by default, and the one `analyze_recipe` uses. */
  const DefaultThreshold: real := 0.6

  /**
   * A scoring function `(deal name, ingredient) -> score`. The functions, methods and lemmas
   * below hold for any such function; the script scores with `match_score`, which is
   * `Scorer(ratio)`.
   */
  type ScoreFn = (string, string) -> real

  function Scorer(ratio: Similarity): ScoreFn {
    (deal: string, ingredient: string) => MatchScore(deal, ingredient, ratio)
  }

  /** Every deal with its score for the ingredient, in catalog order. */
  function Tag(deals: seq<Deal>, ingredient: string, score: ScoreFn): (ms: seq<Match>)
    ensures |ms| == |deals|
    ensures forall k :: 0 <= k < |deals| ==>
      ms[k] == Match(deals[k], score(DealName(deals[k]), ingredient), ingredient)
  {
    seq(|deals|, k requires 0 <= k < |deals| =>
      Match(deals[k], score(DealName(deals[k]), ingredient), ingredient))
  }

  function AtLeast(threshold: real): Match -> bool {
    (m: Match) => m.score >= threshold
  }

  /** The matches the loop of `find_matching_deals` appends, in catalog order. */
  function Candidates(ingredient: string, deals: seq<Deal>, threshold: real, score: ScoreFn): seq<Match> {
    Filter(Tag(deals, ingredient, score), AtLeast(threshold))
  }

  /** `matches.sort(key=lambda x: x['score'], reverse=True)`. */
  function ScoreKey(m: Match): Key {
    (m.score, 0.0)
  }

  /** The list `find_matching_deals` returns. */
  function MatchingDeals(ingredient: string, deals: seq<Deal>, threshold: real, score: ScoreFn): seq<Match> {
    SortDesc(Candidates(ingredient, deals, threshold, score), ScoreKey)
  }

  lemma CandidatesSnoc(ingredient: string, deals: seq<Deal>, i: nat, threshold: real, score: ScoreFn)
    requires i < |deals|
    ensures Candidates(ingredient, deals[..i + 1], threshold, score)
         == Candidates(ingredient, deals[..i], threshold, score)
            + (var m := Match(deals[i], score(DealName(deals[i]), ingredient), ingredient);
               if m.score >= threshold then [m] else [])
  {
    var m := Match(deals[i], score(DealName(deals[i]), ingredient), ingredient);
    assert Tag(deals[..i + 1], ingredient, score) == Tag(deals[..i], ingredient, score) + [m];
    FilterSnoc(Tag(deals[..i], ingredient, score), m, AtLeast(threshold));
  }

  /** `find_matching_deals(ingredient, deals, threshold)`, scoring with `score`. */
  method FindMatchingDeals(ingredient: string, deals: seq<Deal>, threshold: real, score: ScoreFn)
    returns (matches: seq<Match>)
    ensures matches == MatchingDeals(ingredient, deals, threshold, score)
  {
    matches := [];
    for i := 0 to |deals|
      invariant matches == Candidates(ingredient, deals[..i], threshold, score)
    {
      var deal := deals[i];
      var s := score(DealName(deal), ingredient);
      CandidatesSnoc(ingredient, deals, i, threshold, score);
      if s >= threshold {
        matches := matches + [Match(deal, s, ingredient)];
      }
    }
    assert deals[..|deals|] == deals;
    matches := SortDesc(matches, ScoreKey);
  }

  // ---------------------------------------------------------------------------------------
  // Properties of find_matching_deals

  /** Every returned match is a deal of the catalog, tagged with the ingredient and its score, which reaches the threshold. */
  lemma MatchingDealsSound(ingredient: string, deals: seq<Deal>, threshold: real, score: ScoreFn)
    ensures forall k :: 0 <= k < |MatchingDeals(ingredient, deals, threshold, score)| ==>
      var m := MatchingDeals(ingredient, deals, threshold, score)[k];
      m.deal in deals && m.ingredient == ingredient && m.score >= threshold
      && m.score == score(DealName(m.deal), ingredient)
  {
    var tag := Tag(deals, ingredient, score);
    var genuine := (m: Match) =>
      m.deal in deals && m.ingredient == ingredient && m.score == score(DealName(m.deal), ingredient);
    assert All(tag, genuine) by {
      forall k | 0 <= k < |tag| ensures genuine(tag[k]) { assert tag[k].deal == deals[k]; }
    }
    FilterKeepsAll(tag, AtLeast(threshold), genuine);
    FilterPasses(tag, AtLeast(threshold));
    var c := Candidates(ingredient, deals, threshold, score);
    var both := (m: Match) => genuine(m) && AtLeast(threshold)(m);
    assert All(c, both);
    SortDescKeepsAll(c, ScoreKey, both);
  }

  /** Every deal whose score reaches the threshold is returned. */
  lemma MatchingDealsComplete(ingredient: string, deals: seq<Deal>, threshold: real, score: ScoreFn, k: nat)
    requires k < |deals| && score(DealName(deals[k]), ingredient) >= threshold
    ensures Match(deals[k], score(DealName(deals[k]), ingredient), ingredient)
            in MatchingDeals(ingredient, deals, threshold, score)
  {
    var tag := Tag(deals, ingredient, score);
    FilterKeeps(tag, AtLeast(threshold), k);
    var c := Candidates(ingredient, deals, threshold, score);
    SortDescPermutes(c, ScoreKey);
    assert tag[k] in multiset(c);
  }

  /** The result is a reordering of the matches in catalog order: nothing is lost or duplicated. */
  lemma MatchingDealsPermutes(ingredient: string, deals: seq<Deal>, threshold: real, score: ScoreFn)
    ensures multiset(MatchingDeals(ingredient, deals, threshold, score))
         == multiset(Candidates(ingredient, deals, threshold, score))
  {
    SortDescPermutes(Candidates(ingredient, deals, threshold, score), ScoreKey);
  }

  /** Scores do not increase along the result. */
  lemma MatchingDealsSorted(ingredient: string, deals: seq<Deal>, threshold: real, score: ScoreFn)
    ensures forall i, j :: 0 <= i < j < |MatchingDeals(ingredient, deals, threshold, score)| ==>
      MatchingDeals(ingredient, deals, threshold, score)[i].score
      >= MatchingDeals(ingredient, deals, threshold, score)[j].score
  {
    var r := MatchingDeals(ingredient, deals, threshold, score);
    assert SortedDesc(r, ScoreKey);
    forall i, j | 0 <= i < j < |r| ensures r[i].score >= r[j].score {
      assert !Below(ScoreKey(r[i]), ScoreKey(r[j]));
    }
  }

  /** The sort is stable: matches with equal scores stay in catalog order. */
  lemma MatchingDealsStable(ingredient: string, deals: seq<Deal>, threshold: real, score: ScoreFn, s: real)
    ensures WithKey(MatchingDeals(ingredient, deals, threshold, score), ScoreKey, (s, 0.0))
         == WithKey(Candidates(ingredient, deals, threshold, score), ScoreKey, (s, 0.0))
  {
    SortDescStable(Candidates(ingredient, deals, threshold, score), ScoreKey, (s, 0.0));
  }

  /** Raising the threshold keeps a prefix of the result. */
  lemma MatchingDealsThreshold(ingredient: string, deals: seq<Deal>, low: real, high: real, score: ScoreFn)
    requires low <= high
    ensures |MatchingDeals(ingredient, deals, high, score)| <= |MatchingDeals(ingredient, deals, low, score)|
    ensures MatchingDeals(ingredient, deals, high, score)
         == MatchingDeals(ingredient, deals, low, score)[..|MatchingDeals(ingredient, deals, high, score)|]
  {
    var tag := Tag(deals, ingredient, score);
    var cl := Candidates(ingredient, deals, low, score);
    var p := AtLeast(high);
    FilterFilter(tag, AtLeast(low), p);
    SortDescFilter(cl, ScoreKey, p);
    assert forall x, y :: p(y) && !Below(ScoreKey(x), ScoreKey(y)) ==> p(x);
    UpwardFilterIsPrefix(SortDesc(cl, ScoreKey), ScoreKey, p);
  }

  /** The first match is the first candidate, in catalog order, with the highest score. */
  lemma MatchingDealsHead(ingredient: string, deals: seq<Deal>, threshold: real, score: ScoreFn)
    requires MatchingDeals(ingredient, deals, threshold, score) != []
    ensures var c := Candidates(ingredient, deals, threshold, score);
      c != [] && MatchingDeals(ingredient, deals, threshold, score)[0] == c[FirstMax(c, ScoreKey)]
  {
    SortDescHead(Candidates(ingredient, deals, threshold, score), ScoreKey);
  }

  /** The first match scores at least as high as every deal of the catalog. */
  lemma MatchingDealsBest(ingredient: string, deals: seq<Deal>, threshold: real, score: ScoreFn, k: nat)
    requires MatchingDeals(ingredient, deals, threshold, score) != [] && k < |deals|
    ensures MatchingDeals(ingredient, deals, threshold, score)[0].score
         >= score(DealName(deals[k]), ingredient)
  {
    var r := MatchingDeals(ingredient, deals, threshold, score);
    var s := score(DealName(deals[k]), ingredient);
    MatchingDealsSound(ingredient, deals, threshold, score);
    assert r[0].score >= threshold;
    if s >= threshold {
      MatchingDealsComplete(ingredient, deals, threshold, score, k);
      var m := Match(deals[k], s, ingredient);
      var i :| 0 <= i < |r| && r[i] == m;
      MatchingDealsSorted(ingredient, deals, threshold, score);
      if i > 0 {
        assert r[0].score >= r[i].score;
      }
    }
  }

  /** No match at all exactly when no deal reaches the threshold. */
  lemma MatchingDealsEmpty(ingredient: string, deals: seq<Deal>, threshold: real, score: ScoreFn)
    ensures MatchingDeals(ingredient, deals, threshold, score) == []
        <==> forall k :: 0 <= k < |deals| ==> score(DealName(deals[k]), ingredient) < threshold
  {
    var r := MatchingDeals(ingredient, deals, threshold, score);
    if r == [] {
      forall k | 0 <= k < |deals| ensures score(DealName(deals[k]), ingredient) < threshold {
        if score(DealName(deals[k]), ingredient) >= threshold {
          MatchingDealsComplete(ingredient, deals, threshold, score, k);
        }
      }
    } else {
      MatchingDealsSound(ingredient, deals, threshold, score);
      var m := r[0];
      var k :| 0 <= k < |deals| && deals[k] == m.deal;
      assert score(DealName(deals[k]), ingredient) >= threshold;
    }
  }

  /** With `match_score`, an ingredient the ignore list covers has no matching deal at any positive threshold. */
  lemma IgnoredNeverMatched(ingredient: string, deals: seq<Deal>, threshold: real, ratio: Similarity)
    requires Ignored(Normalize(ingredient)) && threshold > 0.0
    ensures MatchingDeals(ingredient, deals, threshold, Scorer(ratio)) == []
  {
    forall k | 0 <= k < |deals| ensures Scorer(ratio)(DealName(deals[k]), ingredient) < threshold {
      IgnoredScoresZero(DealName(deals[k]), ingredient, ratio);
    }
    MatchingDealsEmpty(ingredient, deals, threshold, Scorer(ratio));
  }

  // ---------------------------------------------------------------------------------------
  // analyze_recipe

  /**
   * A recipe: a dict. When its `simplified_ingredients` is a list, the items are strings, as
   * `find_matching_deals(ingredient: str, ...)` asks of each one; any other value is allowed.
   */
  predicate IsRecipe(r: Json) {
    r.JObj? &&
    match Lookup(r.entries, "simplified_ingredients")
    case Some(JArr(items)) => forall k :: 0 <= k < |items| ==> items[k].JStr?
    case _ => true
  }

  type Recipe = r: Json | IsRecipe(r) witness JObj([])

  /**
   * `for ing in recipe.get('simplified_ingredients', [])`: the items of a list, the
   * characters of a string, the keys of a dict; iterating None, a bool or a number raises
   * TypeError.
   */
  function Ingredients(r: Recipe): (ings: Checked<seq<string>>)
    ensures var it := Iterate(GetOr(r, "simplified_ingredients", JArr([])));
      (ings.Raised? <==> it.Raised?)
      && (ings.Ok? ==> |ings.value| == |it.value| && forall k :: 0 <= k < |it.value| ==> it.value[k] == JStr(ings.value[k]))
  {
    match Lookup(r.entries, "simplified_ingredients")
    case None => Ok([])
    case Some(JArr(items)) => Ok(seq(|items|, k requires 0 <= k < |items| => items[k].s))
    case Some(JStr(s)) => Ok(seq(|s|, k requires 0 <= k < |s| => [s[k]]))
    case Some(JObj(entries)) => Ok(seq(|entries|, k requires 0 <= k < |entries| => entries[k].0))
    case Some(_) => Raised
  }

  /** An entry of `matched_ingredients`. */
  datatype MatchedIngredient = MatchedIngredient(
    ingredient: string, dealName: string, dealPrice: Json, dealStore: Json, matchScore: real)

  /** The dict `analyze_recipe` returns; `match_percentage` is kept unrounded. */
  datatype RecipeAnalysis = RecipeAnalysis(
    name: Json, url: Json, image: Json, category: Json,
    totalIngredients: nat, matchedCount: nat, matchPercentage: real,
    matchedIngredients: seq<MatchedIngredient>, unmatchedIngredients: seq<string>,
    time: Json, servings: Json, rating: Json, reviews: Json)

  /** `matches[0]` for `find_matching_deals(ing, deals)`, if there is a match. */
  function Best(ingredient: string, deals: seq<Deal>, score: ScoreFn): Option<Match> {
    var ms := MatchingDeals(ingredient, deals, DefaultThreshold, score);
    if ms == [] then None else Some(ms[0])
  }

  /** The best match of each ingredient, as a function; the loop below is defined for any such function. */
  type BestFn = string -> Option<Match>

  function BestOf(deals: seq<Deal>, score: ScoreFn): BestFn {
    ing => Best(ing, deals, score)
  }

  function HasMatch(best: BestFn): string -> bool {
    ing => best(ing).Some?
  }

  function NoMatch(best: BestFn): string -> bool {
    ing => best(ing).None?
  }

  /** The entry for a best match; `best_match['deal']['name']` raises KeyError on a deal without a name. */
  function Entry(ingredient: string, m: Match): Checked<MatchedIngredient> {
    match Lookup(m.deal.entries, "name")
    case None => Raised
    case Some(n) => Ok(MatchedIngredient(ingredient, n.s, Get(m.deal, "price"), Get(m.deal, "store"), m.score))
  }

  /** One step of the loop: the entry, if any, for `ing` after the entries so far. */
  function AddEntry(acc: Checked<seq<MatchedIngredient>>, ing: string, best: BestFn): Checked<seq<MatchedIngredient>> {
    match acc
    case Raised => Raised
    case Ok(es) =>
      match best(ing)
      case None => Ok(es)
      case Some(m) =>
        match Entry(ing, m)
        case Raised => Raised
        case Ok(e) => Ok(es + [e])
  }

  /** The entries the loop appends to `matched_ingredients`, or Raised when one of them raises. */
  function Entries(ings: seq<string>, best: BestFn): Checked<seq<MatchedIngredient>>
    decreases |ings|
  {
    if ings == [] then Ok([])
    else AddEntry(Entries(ings[..|ings| - 1], best), ings[|ings| - 1], best)
  }

  /** `len(matched) / len(ingredients) * 100 if ingredients else 0`, before rounding. */
  function Percentage(matched: nat, total: nat): real {
    if total == 0 then 0.0 else matched as real / total as real * 100.0
  }

  /** The returned dict, once the two lists are built from the `total` ingredients. */
  function Summary(recipe: Recipe, total: nat, matched: seq<MatchedIngredient>, unmatched: seq<string>): RecipeAnalysis {
    RecipeAnalysis(
      Get(recipe, "name"), Get(recipe, "url"), Get(recipe, "image"), Get(recipe, "ica_category"),
      total, |matched|, Percentage(|matched|, total), matched, unmatched,
      Get(recipe, "time"), Get(recipe, "servings"), Get(recipe, "rating"), Get(recipe, "reviews"))
  }

  /** An entry of `matched_ingredients` as the dict `analyze_recipe` builds. */
  function EntryJson(e: MatchedIngredient): Json {
    JObj([("ingredient", JStr(e.ingredient)), ("deal_name", JStr(e.dealName)), ("deal_price", e.dealPrice),
          ("deal_store", e.dealStore), ("match_score", JFloat(e.matchScore))])
  }

  /**
   * The dict `analyze_recipe` returns, keys in its order. For a recipe without ingredients
   * `match_percentage` is the int `0`, otherwise a float.
   */
  function AnalysisJson(a: RecipeAnalysis): Json {
    JObj([
      ("name", a.name), ("url", a.url), ("image", a.image), ("category", a.category),
      ("total_ingredients", JInt(a.totalIngredients)), ("matched_count", JInt(a.matchedCount)),
      ("match_percentage", if a.totalIngredients == 0 then JInt(0) else JFloat(a.matchPercentage)),
      ("matched_ingredients", JArr(seq(|a.matchedIngredients|, k requires 0 <= k < |a.matchedIngredients| => EntryJson(a.matchedIngredients[k])))),
      ("unmatched_ingredients", JArr(seq(|a.unmatchedIngredients|, k requires 0 <= k < |a.unmatchedIngredients| => JStr(a.unmatchedIngredients[k])))),
      ("time", a.time), ("servings", a.servings), ("rating", a.rating), ("reviews", a.reviews)])
  }

  /** The result of `analyze_recipe(recipe, deals)`. */
  function Analysis(recipe: Recipe, deals: seq<Deal>, score: ScoreFn): Checked<RecipeAnalysis> {
    match Ingredients(recipe)
    case Raised => Raised
    case Ok(ings) =>
      var best := BestOf(deals, score);
      match Entries(ings, best)
      case Raised => Raised
      case Ok(es) => Ok(Summary(recipe, |ings|, es, Filter(ings, NoMatch(best))))
  }

  lemma EntriesSnoc(ings: seq<string>, best: BestFn, i: nat)
    requires i < |ings|
    ensures Entries(ings[..i + 1], best) == AddEntry(Entries(ings[..i], best), ings[i], best)
  {
    assert ings[..i + 1][..i] == ings[..i];
  }

  /** Once the loop has raised, the whole call raises. */
  lemma {:induction false} EntriesRaisedPersists(ings: seq<string>, best: BestFn, i: nat)
    requires i <= |ings| && Entries(ings[..i], best) == Raised
    ensures Entries(ings, best) == Raised
    decreases |ings|
  {
    if i < |ings| {
      var init := ings[..|ings| - 1];
      assert init[..i] == ings[..i];
      EntriesRaisedPersists(init, best, i);
    } else {
      assert ings[..i] == ings;
    }
  }

  /** `analyze_recipe(recipe, deals)`, scoring with `score`. */
  method AnalyzeRecipe(recipe: Recipe, deals: seq<Deal>, score: ScoreFn) returns (result: Checked<RecipeAnalysis>)
    ensures result == Analysis(recipe, deals, score)
  {
    var iterated := Ingredients(recipe);
    if iterated.Raised? {
      return Raised;
    }
    var ings := iterated.value;
    var matched: seq<MatchedIngredient> := [];
    var unmatched: seq<string> := [];
    for i := 0 to |ings|
      invariant Entries(ings[..i], BestOf(deals, score)) == Ok(matched)
      invariant unmatched == Filter(ings[..i], NoMatch(BestOf(deals, score)))
    {
      var ing := ings[i];
      var matches := FindMatchingDeals(ing, deals, DefaultThreshold, score);
      EntriesSnoc(ings, BestOf(deals, score), i);
      FilterPrefix(ings, i, NoMatch(BestOf(deals, score)));
      if matches != [] {
        var entry := Entry(ing, matches[0]);
        if entry.Raised? {
          EntriesRaisedPersists(ings, BestOf(deals, score), i + 1);
          return Raised;
        }
        matched := matched + [entry.value];
      } else {
        unmatched := unmatched + [ing];
      }
    }
    assert ings[..|ings|] == ings;
    result := Ok(Summary(recipe, |ings|, matched, unmatched));
  }

  // ---------------------------------------------------------------------------------------
  // Properties of analyze_recipe

  /** The ingredient of each entry, in order. */
  function EntryIngredients(es: seq<MatchedIngredient>): (r: seq<string>)
    ensures |r| == |es| && forall k :: 0 <= k < |es| ==> r[k] == es[k].ingredient
  {
    seq(|es|, k requires 0 <= k < |es| => es[k].ingredient)
  }

  /** An entry is built from the best match of its ingredient. */
  predicate IsBestEntry(e: MatchedIngredient, best: BestFn) {
    var b := best(e.ingredient);
    b.Some? && Entry(e.ingredient, b.value) == Ok(e)
  }

  /** One entry per matched ingredient, in ingredient order. */
  lemma {:induction false} EntriesIngredients(ings: seq<string>, best: BestFn)
    requires Entries(ings, best).Ok?
    ensures EntryIngredients(Entries(ings, best).value) == Filter(ings, HasMatch(best))
    decreases |ings|
  {
    if ings != [] {
      var init := ings[..|ings| - 1];
      var ing := ings[|ings| - 1];
      assert ings == init + [ing];
      EntriesIngredients(init, best);
      FilterSnoc(init, ing, HasMatch(best));
      var es := Entries(init, best).value;
      if best(ing).Some? {
        var e := Entry(ing, best(ing).value).value;
        assert EntryIngredients(es + [e]) == EntryIngredients(es) + [ing];
      }
    }
  }

  /** Each entry is built from the best match of its ingredient. */
  lemma {:induction false} EntriesBest(ings: seq<string>, best: BestFn)
    requires Entries(ings, best).Ok?
    ensures forall k :: 0 <= k < |Entries(ings, best).value| ==>
      IsBestEntry(Entries(ings, best).value[k], best)
    decreases |ings|
  {
    if ings != [] {
      var init := ings[..|ings| - 1];
      EntriesBest(init, best);
    }
  }

  /** `analyze_recipe` raises exactly when some ingredient's best match is a deal without a name. */
  lemma {:induction false} EntriesRaised(ings: seq<string>, best: BestFn)
    ensures Entries(ings, best).Raised?
        <==> exists k :: 0 <= k < |ings| && best(ings[k]).Some?
                         && Entry(ings[k], best(ings[k]).value).Raised?
    decreases |ings|
  {
    if ings != [] {
      var init := ings[..|ings| - 1];
      EntriesRaised(init, best);
      assert forall k :: 0 <= k < |init| ==> init[k] == ings[k];
    }
  }

  /**
   * `analyze_recipe` raises exactly when its ingredients cannot be iterated, or when some
   * ingredient's best match is a deal without a name.
   */
  lemma AnalysisRaised(recipe: Recipe, deals: seq<Deal>, score: ScoreFn)
    ensures Analysis(recipe, deals, score).Raised?
        <==> Iterate(GetOr(recipe, "simplified_ingredients", JArr([]))).Raised?
             || var ings := Ingredients(recipe).value;
                exists k :: 0 <= k < |ings| && Best(ings[k], deals, score).Some?
                            && Entry(ings[k], Best(ings[k], deals, score).value).Raised?
  {
    if Ingredients(recipe).Ok? {
      EntriesRaised(Ingredients(recipe).value, BestOf(deals, score));
    }
  }

  /** Every ingredient is counted once: `total == matched_count + len(unmatched)`. */
  lemma AnalysisCounts(recipe: Recipe, deals: seq<Deal>, score: ScoreFn)
    requires Analysis(recipe, deals, score).Ok?
    ensures var a := Analysis(recipe, deals, score).value;
      a.totalIngredients == |Ingredients(recipe).value|
      && a.matchedCount == |a.matchedIngredients|
      && a.matchedCount + |a.unmatchedIngredients| == a.totalIngredients
  {
    var ings := Ingredients(recipe).value;
    EntriesIngredients(ings, BestOf(deals, score));
    FilterComplement(ings, HasMatch(BestOf(deals, score)), NoMatch(BestOf(deals, score)));
  }

  /** Both lists keep the order the ingredients have in the recipe. */
  lemma AnalysisOrder(recipe: Recipe, deals: seq<Deal>, score: ScoreFn)
    requires Analysis(recipe, deals, score).Ok?
    ensures var a := Analysis(recipe, deals, score).value;
      IsSubsequence(EntryIngredients(a.matchedIngredients), Ingredients(recipe).value)
      && IsSubsequence(a.unmatchedIngredients, Ingredients(recipe).value)
  {
    var ings := Ingredients(recipe).value;
    EntriesIngredients(ings, BestOf(deals, score));
    FilterIsSubsequence(ings, HasMatch(BestOf(deals, score)));
    FilterIsSubsequence(ings, NoMatch(BestOf(deals, score)));
  }

  /** An ingredient is unmatched exactly when no deal reaches the threshold 0.6 for it. */
  lemma AnalysisUnmatched(recipe: Recipe, deals: seq<Deal>, score: ScoreFn, ing: string)
    requires Analysis(recipe, deals, score).Ok? && ing in Ingredients(recipe).value
    ensures ing in Analysis(recipe, deals, score).value.unmatchedIngredients
        <==> forall k :: 0 <= k < |deals| ==> score(DealName(deals[k]), ing) < DefaultThreshold
  {
    var ings := Ingredients(recipe).value;
    var p := NoMatch(BestOf(deals, score));
    MatchingDealsEmpty(ing, deals, DefaultThreshold, score);
    FilterPasses(ings, p);
    var m :| 0 <= m < |ings| && ings[m] == ing;
    if p(ing) {
      FilterKeeps(ings, p, m);
    }
  }

  /** With `match_score`, an ingredient the ignore list covers always ends up unmatched. */
  lemma IgnoredUnmatched(recipe: Recipe, deals: seq<Deal>, ratio: Similarity, ing: string)
    requires Analysis(recipe, deals, Scorer(ratio)).Ok? && ing in Ingredients(recipe).value
    requires Ignored(Normalize(ing))
    ensures ing in Analysis(recipe, deals, Scorer(ratio)).value.unmatchedIngredients
  {
    forall k | 0 <= k < |deals| ensures Scorer(ratio)(DealName(deals[k]), ing) < DefaultThreshold {
      IgnoredScoresZero(DealName(deals[k]), ing, ratio);
    }
    AnalysisUnmatched(recipe, deals, Scorer(ratio), ing);
  }

  /** Each entry carries the best score of its ingredient: at least 0.6 and at least every deal's score. */
  lemma AnalysisBest(recipe: Recipe, deals: seq<Deal>, score: ScoreFn, k: nat, j: nat)
    requires Analysis(recipe, deals, score).Ok?
    requires k < |Analysis(recipe, deals, score).value.matchedIngredients| && j < |deals|
    ensures var e := Analysis(recipe, deals, score).value.matchedIngredients[k];
      e.matchScore >= DefaultThreshold && e.matchScore >= score(DealName(deals[j]), e.ingredient)
  {
    var ings := Ingredients(recipe).value;
    EntriesBest(ings, BestOf(deals, score));
    var e := Analysis(recipe, deals, score).value.matchedIngredients[k];
    assert IsBestEntry(e, BestOf(deals, score));
    var ms := MatchingDeals(e.ingredient, deals, DefaultThreshold, score);
    MatchingDealsSound(e.ingredient, deals, DefaultThreshold, score);
    MatchingDealsBest(e.ingredient, deals, DefaultThreshold, score, j);
    assert e.matchScore == ms[0].score;
  }

  /** The percentage is 0 for a recipe without ingredients and lies in [0, 100]. */
  lemma AnalysisPercentage(recipe: Recipe, deals: seq<Deal>, score: ScoreFn)
    requires Analysis(recipe, deals, score).Ok?
    ensures var a := Analysis(recipe, deals, score).value;
      0.0 <= a.matchPercentage <= 100.0 && (a.totalIngredients == 0 ==> a.matchPercentage == 0.0)
  {
    AnalysisCounts(recipe, deals, score);
    var a := Analysis(recipe, deals, score).value;
    PercentageBounds(a.matchedCount, a.totalIngredients);
  }

  lemma PercentageBounds(matched: nat, total: nat)
    requires matched <= total
    ensures 0.0 <= Percentage(matched, total) <= 100.0
  {
    if total > 0 {
      assert matched as real / total as real <= 1.0;
    }
  }

  /** The facts about one analysis that hold whatever the deals: counts add up, percentage in range. */
  predicate Consistent(a: RecipeAnalysis) {
    && a.matchedCount == |a.matchedIngredients|
    && a.matchedCount + |a.unmatchedIngredients| == a.totalIngredients
    && 0.0 <= a.matchPercentage <= 100.0
    && (a.totalIngredients == 0 ==> a.matchPercentage == 0.0)
  }

  lemma AnalysisConsistent(recipe: Recipe, deals: seq<Deal>, score: ScoreFn)
    requires Analysis(recipe, deals, score).Ok?
    ensures Consistent(Analysis(recipe, deals, score).value)
  {
    AnalysisCounts(recipe, deals, score);
    AnalysisPercentage(recipe, deals, score);
  }

  // ---------------------------------------------------------------------------------------
  // The ranking in main

  function Analyzer(deals: seq<Deal>, score: ScoreFn): Recipe -> Checked<RecipeAnalysis> {
    (recipe: Recipe) => Analysis(recipe, deals, score)
  }

  /** The analyses of the recipes in order, or Raised when one of them raises. */
  function Analyses(recipes: seq<Recipe>, deals: seq<Deal>, score: ScoreFn): Checked<seq<RecipeAnalysis>> {
    MapChecked(recipes, Analyzer(deals, score))
  }

  /** `results.sort(key=lambda x: (x['matched_count'], x['match_percentage']), reverse=True)`. */
  function RankKey(a: RecipeAnalysis): Key {
    (a.matchedCount as real, a.matchPercentage)
  }

  /** The dict `main` writes to `recipe_matches.json`; the timestamp is a parameter. */
  datatype MatchReport = MatchReport(lastUpdated: string, totalDeals: nat, totalRecipes: nat, recipes: seq<RecipeAnalysis>)

  /** The dict as `json.dump` writes it. */
  function ReportJson(r: MatchReport): Json {
    JObj([("last_updated", JStr(r.lastUpdated)), ("total_deals", JInt(r.totalDeals)),
          ("total_recipes", JInt(r.totalRecipes)),
          ("recipes", JArr(seq(|r.recipes|, k requires 0 <= k < |r.recipes| => AnalysisJson(r.recipes[k]))))])
  }

  function Report(recipes: seq<Recipe>, deals: seq<Deal>, score: ScoreFn, lastUpdated: string): Checked<MatchReport> {
    match Analyses(recipes, deals, score)
    case Raised => Raised
    case Ok(rs) => Ok(MatchReport(lastUpdated, |deals|, |recipes|, SortDesc(rs, RankKey)))
  }

  /** The analysis loop and sort of `main`, from the loaded deals and recipes to the output dict. */
  method BuildReport(recipes: seq<Recipe>, deals: seq<Deal>, score: ScoreFn, lastUpdated: string)
    returns (report: Checked<MatchReport>)
    ensures report == Report(recipes, deals, score, lastUpdated)
  {
    var results: seq<RecipeAnalysis> := [];
    for i := 0 to |recipes|
      invariant MapChecked(recipes[..i], Analyzer(deals, score)) == Ok(results)
    {
      var analysis := AnalyzeRecipe(recipes[i], deals, score);
      MapCheckedSnoc(recipes, Analyzer(deals, score), i);
      if analysis.Raised? {
        MapCheckedRaisedPersists(recipes, Analyzer(deals, score), i + 1);
        return Raised;
      }
      results := results + [analysis.value];
    }
    assert recipes[..|recipes|] == recipes;
    results := SortDesc(results, RankKey);
    report := Ok(MatchReport(lastUpdated, |deals|, |recipes|, results));
  }

  /** The report ranks by matched count, then by percentage, both descending, and keeps every analysis. */
  lemma ReportRanked(recipes: seq<Recipe>, deals: seq<Deal>, score: ScoreFn, lastUpdated: string)
    requires Report(recipes, deals, score, lastUpdated).Ok?
    ensures var r := Report(recipes, deals, score, lastUpdated).value;
      r.totalDeals == |deals| && r.totalRecipes == |recipes| == |r.recipes|
      && multiset(r.recipes) == multiset(Analyses(recipes, deals, score).value)
      && forall i, j :: 0 <= i < j < |r.recipes| ==>
           r.recipes[i].matchedCount > r.recipes[j].matchedCount
           || (r.recipes[i].matchedCount == r.recipes[j].matchedCount
               && r.recipes[i].matchPercentage >= r.recipes[j].matchPercentage)
  {
    var rs := Analyses(recipes, deals, score).value;
    MapCheckedOk(recipes, Analyzer(deals, score));
    SortDescPermutes(rs, RankKey);
    var sorted := SortDesc(rs, RankKey);
    forall i, j | 0 <= i < j < |sorted|
      ensures sorted[i].matchedCount > sorted[j].matchedCount
           || (sorted[i].matchedCount == sorted[j].matchedCount
               && sorted[i].matchPercentage >= sorted[j].matchPercentage)
    {
      assert !Below(RankKey(sorted[i]), RankKey(sorted[j]));
    }
  }

  /** Before the sort there is one analysis per recipe, in recipe order; the run raises exactly when one recipe's analysis raises. */
  lemma AnalysesSpec(recipes: seq<Recipe>, deals: seq<Deal>, score: ScoreFn)
    ensures Analyses(recipes, deals, score).Raised?
        <==> exists k :: 0 <= k < |recipes| && Analysis(recipes[k], deals, score).Raised?
    ensures Analyses(recipes, deals, score).Ok? ==>
      |Analyses(recipes, deals, score).value| == |recipes|
      && forall k :: 0 <= k < |recipes| ==> Analysis(recipes[k], deals, score) == Ok(Analyses(recipes, deals, score).value[k])
  {
    MapCheckedRaised(recipes, Analyzer(deals, score));
    if Analyses(recipes, deals, score).Ok? {
      MapCheckedOk(recipes, Analyzer(deals, score));
    }
  }

  /** Recipes with the same count and percentage keep their input order. */
  lemma ReportStable(recipes: seq<Recipe>, deals: seq<Deal>, score: ScoreFn, lastUpdated: string, k: Key)
    requires Report(recipes, deals, score, lastUpdated).Ok?
    ensures WithKey(Report(recipes, deals, score, lastUpdated).value.recipes, RankKey, k)
         == WithKey(Analyses(recipes, deals, score).value, RankKey, k)
  {
    SortDescStable(Analyses(recipes, deals, score).value, RankKey, k);
  }

  /** Every analysis in the report is consistent. */
  lemma ReportConsistent(recipes: seq<Recipe>, deals: seq<Deal>, score: ScoreFn, lastUpdated: string)
    requires Report(recipes, deals, score, lastUpdated).Ok?
    ensures var r := Report(recipes, deals, score, lastUpdated).value;
      forall k :: 0 <= k < |r.recipes| ==> Consistent(r.recipes[k])
  {
    var rs := Analyses(recipes, deals, score).value;
    AnalysesSpec(recipes, deals, score);
    forall k | 0 <= k < |rs|
      ensures Consistent(rs[k])
    {
      AnalysisConsistent(recipes[k], deals, score);
    }
    SortDescKeepsAll(rs, RankKey, Consistent);
  }
}
