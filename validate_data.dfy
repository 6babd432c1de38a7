/**
 * The schema checks of validate_data.py, applied to already-parsed JSON. Each check
 * returns the list of problems it found; a problem is a value here, standing for the
 * English message the script formats from the same fields.
 */
module ValidateData {
  import opened Wrappers
  import opened Text
  import opened Json
  import opened Seqs
  import opened RecipeMatching

  datatype Problem =
    // validate_deal
    | DealMissingStore(index: nat)
    | DealMissingName(index: nat)
    | DealPriceNotString(index: nat, kind: Kind)
    | DealNameTooShort(index: nat, length: nat)
    | DealNameTooLong(index: nat, length: nat)
    | DealImageNotString(index: nat)
    | DealImageNotUrl(index: nat)
    // validate_recipe
    | RecipeMissing(index: nat, field: string)
    | RecipeUrlNotString(index: nat)
    | RecipeUrlNotUrl(index: nat)
    | RecipeIngredientsNotList(index: nat)
    | RecipeIngredientNotString(index: nat, position: nat)
    | RecipeNotNumeric(index: nat, field: string)
    | RecipeNegative(index: nat, field: string)
    | RecipeServingsType(index: nat)
    // validate_recipe_match
    | MatchMissing(index: nat, field: string)
    | MatchPercentageNotNumeric(index: nat)
    | MatchPercentageOutOfRange(index: nat, percentage: Json)
    | MatchCountExceedsTotal(index: nat, matched: Json, total: Json)
    | MatchNotList(index: nat, field: string)
    // the file checks
    | RootNotArray
    | RootNotObject
    | EmptyDeals
    | EmptyRecipes
    | MissingRecipes
    | RecipesNotArray
    | Duplicate(index: nat, store: Json, name: Json)

  /** `s.startswith('http://') or s.startswith('https://')`. */
  predicate IsHttpUrl(s: string) {
    "http://" <= s || "https://" <= s
  }

  function When(c: bool, p: Problem): (ps: seq<Problem>)
    ensures ps == [] <==> !c
  {
    if c then [p] else []
  }

  // ---------------------------------------------------------------------------
  // validate_deal
  // ---------------------------------------------------------------------------

  function ImageProblems(image: Json, index: nat): seq<Problem> {
    if !Truthy(image) then []
    else if !image.JStr? then [DealImageNotString(index)]
    else When(!IsHttpUrl(image.s), DealImageNotUrl(index))
  }

  /** The length checks of a truthy name; `len` of anything but a string, list or dict raises TypeError. */
  function LengthProblems(name: Json, index: nat): Checked<seq<Problem>> {
    if !Truthy(name) then Ok([])
    else
      match Len(name)
      case Raised => Raised
      case Ok(n) => Ok(When(n < 2, DealNameTooShort(index, n)) + When(n > 200, DealNameTooLong(index, n)))
  }

  /** The problems of one deal, in the order the script reports them. */
  function DealProblems(deal: Json, index: nat): Checked<seq<Problem>>
    requires deal.JObj?
  {
    var name := Get(deal, "name");
    var price := Get(deal, "price");
    match LengthProblems(name, index)
    case Raised => Raised
    case Ok(lengths) =>
      Ok(When(!Truthy(Get(deal, "store")), DealMissingStore(index))
         + When(!Truthy(name), DealMissingName(index))
         + When(Truthy(price) && !price.JStr?, DealPriceNotString(index, KindOf(price)))
         + lengths
         + ImageProblems(Get(deal, "image"), index))
  }

  /** What a well-formed deal looks like, independently of the order of the checks. */
  predicate DealValid(deal: Json)
    requires deal.JObj?
  {
    var name := Get(deal, "name");
    var price := Get(deal, "price");
    var image := Get(deal, "image");
    && Truthy(Get(deal, "store"))
    && Len(name).Ok? && 2 <= Len(name).value <= 200
    && (!Truthy(price) || price.JStr?)
    && (!Truthy(image) || (image.JStr? && IsHttpUrl(image.s)))
  }

  /** A deal has no problems exactly when it is well formed. */
  lemma DealProblemsValid(deal: Json, index: nat)
    requires deal.JObj?
    ensures DealProblems(deal, index) == Ok([]) <==> DealValid(deal)
  {
    var name := Get(deal, "name");
    if Len(name).Ok? && Len(name).value > 0 {
      assert Truthy(name);
    }
  }

  /** Checking a deal raises exactly when its name is truthy but has no length. */
  lemma DealProblemsRaised(deal: Json, index: nat)
    requires deal.JObj?
    ensures DealProblems(deal, index).Raised? <==> Truthy(Get(deal, "name")) && Len(Get(deal, "name")).Raised?
  {
  }

  /** A name has at most one length problem, and a missing name none. */
  lemma LengthProblemsBound(name: Json, index: nat)
    requires LengthProblems(name, index).Ok?
    ensures |LengthProblems(name, index).value| <= 1
    ensures !Truthy(name) ==> LengthProblems(name, index).value == []
  {
  }

  /**
   * A deal has at most four problems; a missing name is reported as missing, never as
   * too short.
   */
  lemma DealProblemsBounds(deal: Json, index: nat)
    requires deal.JObj? && DealProblems(deal, index).Ok?
    ensures |DealProblems(deal, index).value| <= 4
    ensures !Truthy(Get(deal, "name")) ==>
              DealMissingName(index) in DealProblems(deal, index).value
              && forall n :: DealNameTooShort(index, n) !in DealProblems(deal, index).value
  {
    LengthProblemsBound(Get(deal, "name"), index);
  }

  // ---------------------------------------------------------------------------
  // validate_recipe
  // ---------------------------------------------------------------------------

  const RecipeRequired: seq<string> := ["name", "url"]
  const NumericFields: seq<string> := ["rating", "reviews"]

  /** `if field not in recipe or not recipe[field]`, for one field. */
  function MissingCheck(recipe: Json, index: nat): (nat, string) -> seq<Problem>
    requires recipe.JObj?
  {
    (k: nat, field: string) => When(!Truthy(Get(recipe, field)), RecipeMissing(index, field))
  }

  function UrlProblems(url: Json, index: nat): seq<Problem> {
    if !Truthy(url) then []
    else if !url.JStr? then [RecipeUrlNotString(index)]
    else When(!IsHttpUrl(url.s), RecipeUrlNotUrl(index))
  }

  function IngredientCheck(index: nat): (nat, Json) -> seq<Problem> {
    (k: nat, ing: Json) => When(!ing.JStr?, RecipeIngredientNotString(index, k))
  }

  function IngredientProblems(recipe: Json, index: nat): seq<Problem>
    requires recipe.JObj?
  {
    if !HasKey(recipe, "simplified_ingredients") then []
    else
      var ings := Get(recipe, "simplified_ingredients");
      if !ings.JArr? then [RecipeIngredientsNotList(index)]
      else FlatMap(ings.items, IngredientCheck(index))
  }

  /** A numeric field that is present and not None must be a non-negative number. */
  function NumericProblems(value: Json, index: nat, field: string): seq<Problem> {
    if value.JNull? then []
    else if !IsNumber(value) then [RecipeNotNumeric(index, field)]
    else When(NumberValue(value) < 0.0, RecipeNegative(index, field))
  }

  function NumericCheck(recipe: Json, index: nat): (nat, string) -> seq<Problem>
    requires recipe.JObj?
  {
    (k: nat, field: string) => NumericProblems(Get(recipe, field), index, field)
  }

  function ServingsProblems(servings: Json, index: nat): seq<Problem> {
    When(!servings.JNull? && !servings.JStr? && !IsInt(servings), RecipeServingsType(index))
  }

  /** The problems of one recipe, in the order the script reports them. */
  function RecipeProblems(recipe: Json, index: nat): seq<Problem>
    requires recipe.JObj?
  {
    FlatMap(RecipeRequired, MissingCheck(recipe, index))
    + UrlProblems(Get(recipe, "url"), index)
    + IngredientProblems(recipe, index)
    + FlatMap(NumericFields, NumericCheck(recipe, index))
    + ServingsProblems(Get(recipe, "servings"), index)
  }

  predicate NumericOk(value: Json) {
    value.JNull? || (IsNumber(value) && NumberValue(value) >= 0.0)
  }

  /** What a well-formed recipe looks like. */
  predicate RecipeValid(recipe: Json)
    requires recipe.JObj?
  {
    var url := Get(recipe, "url");
    var ings := Get(recipe, "simplified_ingredients");
    var servings := Get(recipe, "servings");
    && Truthy(Get(recipe, "name"))
    && url.JStr? && IsHttpUrl(url.s)
    && (HasKey(recipe, "simplified_ingredients") ==>
          ings.JArr? && forall k :: 0 <= k < |ings.items| ==> ings.items[k].JStr?)
    && NumericOk(Get(recipe, "rating")) && NumericOk(Get(recipe, "reviews"))
    && (servings.JNull? || servings.JStr? || IsInt(servings))
  }

  lemma NumericCheckEmpty(recipe: Json, index: nat)
    requires recipe.JObj?
    ensures FlatMap(NumericFields, NumericCheck(recipe, index)) == []
        <==> NumericOk(Get(recipe, "rating")) && NumericOk(Get(recipe, "reviews"))
  {
    FlatMapEmpty(NumericFields, NumericCheck(recipe, index));
  }

  lemma MissingCheckEmpty(recipe: Json, index: nat)
    requires recipe.JObj?
    ensures FlatMap(RecipeRequired, MissingCheck(recipe, index)) == []
        <==> Truthy(Get(recipe, "name")) && Truthy(Get(recipe, "url"))
  {
    FlatMapEmpty(RecipeRequired, MissingCheck(recipe, index));
  }

  /** A recipe has no problems exactly when it is well formed. */
  lemma RecipeProblemsValid(recipe: Json, index: nat)
    requires recipe.JObj?
    ensures RecipeProblems(recipe, index) == [] <==> RecipeValid(recipe)
  {
    MissingCheckEmpty(recipe, index);
    NumericCheckEmpty(recipe, index);
    var ings := Get(recipe, "simplified_ingredients");
    if ings.JArr? {
      FlatMapEmpty(ings.items, IngredientCheck(index));
    }
    var url := Get(recipe, "url");
    if url.JStr? && IsHttpUrl(url.s) {
      assert Truthy(url);
    }
  }

  /** Every ingredient that is not a string is reported, by its position, and nothing else is. */
  lemma RecipeIngredientFlagged(recipe: Json, index: nat, k: nat)
    requires recipe.JObj?
    ensures RecipeIngredientNotString(index, k) in RecipeProblems(recipe, index)
        <==> var ings := Get(recipe, "simplified_ingredients");
             HasKey(recipe, "simplified_ingredients") && ings.JArr? && k < |ings.items| && !ings.items[k].JStr?
  {
    var p := RecipeIngredientNotString(index, k);
    FlatMapMember(RecipeRequired, MissingCheck(recipe, index), p);
    FlatMapMember(NumericFields, NumericCheck(recipe, index), p);
    var ings := Get(recipe, "simplified_ingredients");
    if ings.JArr? {
      FlatMapMember(ings.items, IngredientCheck(index), p);
    }
  }

  /** The loop of validate_recipe, one check after the other. */
  method ValidateRecipe(recipe: Json, index: nat) returns (errors: seq<Problem>)
    requires recipe.JObj?
    ensures errors == RecipeProblems(recipe, index)
  {
    errors := [];
    var required := RecipeRequired;
    for k := 0 to |required|
      invariant errors == FlatMap(required[..k], MissingCheck(recipe, index))
    {
      FlatMapSnoc(required, MissingCheck(recipe, index), k);
      var field := required[k];
      if !Truthy(Get(recipe, field)) {
        errors := errors + [RecipeMissing(index, field)];
      }
    }
    assert required[..|required|] == required;
    ghost var beforeUrl := errors;
    var url := Get(recipe, "url");
    if Truthy(url) {
      if !url.JStr? {
        errors := errors + [RecipeUrlNotString(index)];
      } else if !IsHttpUrl(url.s) {
        errors := errors + [RecipeUrlNotUrl(index)];
      }
    }
    assert errors == beforeUrl + UrlProblems(url, index);
    ghost var beforeIngredients := errors;
    if HasKey(recipe, "simplified_ingredients") {
      var ings := Get(recipe, "simplified_ingredients");
      if !ings.JArr? {
        errors := errors + [RecipeIngredientsNotList(index)];
      } else {
        var items := ings.items;
        var found := [];
        for i := 0 to |items|
          invariant found == FlatMap(items[..i], IngredientCheck(index))
        {
          FlatMapSnoc(items, IngredientCheck(index), i);
          if !items[i].JStr? {
            found := found + [RecipeIngredientNotString(index, i)];
          }
        }
        assert items[..|items|] == items;
        errors := errors + found;
      }
    }
    assert errors == beforeIngredients + IngredientProblems(recipe, index);
    var numeric := NumericFields;
    var found := [];
    for k := 0 to |numeric|
      invariant found == FlatMap(numeric[..k], NumericCheck(recipe, index))
    {
      FlatMapSnoc(numeric, NumericCheck(recipe, index), k);
      var field := numeric[k];
      var value := Get(recipe, field);
      if !value.JNull? {
        if !IsNumber(value) {
          found := found + [RecipeNotNumeric(index, field)];
        } else if NumberValue(value) < 0.0 {
          found := found + [RecipeNegative(index, field)];
        }
      }
    }
    assert numeric[..|numeric|] == numeric;
    errors := errors + found;
    ghost var beforeServings := errors;
    var servings := Get(recipe, "servings");
    if !servings.JNull? && !servings.JStr? && !IsInt(servings) {
      errors := errors + [RecipeServingsType(index)];
    }
    assert errors == beforeServings + ServingsProblems(servings, index);
  }

  // ---------------------------------------------------------------------------
  // validate_recipe_match
  // ---------------------------------------------------------------------------

  const MatchRequired: seq<string> := ["name", "url", "total_ingredients", "matched_count", "match_percentage"]

  /** `if field not in match`, for one field. */
  function AbsentCheck(m: Json, index: nat): (nat, string) -> seq<Problem> {
    (k: nat, field: string) => When(!HasKey(m, field), MatchMissing(index, field))
  }

  function PercentageProblems(m: Json, index: nat): seq<Problem>
    requires m.JObj?
  {
    if !HasKey(m, "match_percentage") then []
    else
      var pct := Get(m, "match_percentage");
      if !IsNumber(pct) then [MatchPercentageNotNumeric(index)]
      else When(NumberValue(pct) < 0.0 || NumberValue(pct) > 100.0, MatchPercentageOutOfRange(index, pct))
  }

  function ListProblems(m: Json, index: nat, field: string): seq<Problem>
    requires m.JObj?
  {
    When(HasKey(m, field) && !Get(m, field).JArr?, MatchNotList(index, field))
  }

  /**
   * The problems of one recipe match. Comparing `matched_count` with `total_ingredients`
   * raises TypeError unless both are numbers, both strings or both lists (and, for lists,
   * their first unequal items compare).
   */
  function MatchProblems(m: Json, index: nat): Checked<seq<Problem>>
    requires m.JObj?
  {
    var total := GetOr(m, "total_ingredients", JInt(0));
    var matched := GetOr(m, "matched_count", JInt(0));
    match Greater(matched, total)
    case Raised => Raised
    case Ok(exceeds) =>
      Ok(FlatMap(MatchRequired, AbsentCheck(m, index))
         + PercentageProblems(m, index)
         + When(exceeds, MatchCountExceedsTotal(index, matched, total))
         + ListProblems(m, index, "matched_ingredients")
         + ListProblems(m, index, "unmatched_ingredients"))
  }

  /** What a well-formed recipe match looks like. */
  predicate MatchValid(m: Json)
    requires m.JObj?
  {
    var pct := Get(m, "match_percentage");
    && (forall k :: 0 <= k < |MatchRequired| ==> HasKey(m, MatchRequired[k]))
    && IsNumber(pct) && 0.0 <= NumberValue(pct) <= 100.0
    && Greater(GetOr(m, "matched_count", JInt(0)), GetOr(m, "total_ingredients", JInt(0))) == Ok(false)
    && (HasKey(m, "matched_ingredients") ==> Get(m, "matched_ingredients").JArr?)
    && (HasKey(m, "unmatched_ingredients") ==> Get(m, "unmatched_ingredients").JArr?)
  }

  /** A match has no problems exactly when it is well formed. */
  lemma MatchProblemsValid(m: Json, index: nat)
    requires m.JObj?
    ensures MatchProblems(m, index) == Ok([]) <==> MatchValid(m)
  {
    FlatMapEmpty(MatchRequired, AbsentCheck(m, index));
  }

  /**
   * Counts that are lists are compared as Python compares lists: when their items agree up to
   * the shorter length, the count problem is reported exactly when `matched_count` is longer.
   * Two empty lists pass.
   */
  lemma ListCountsCompared(m: Json, index: nat, xs: seq<Json>, ys: seq<Json>)
    requires m.JObj? && forall k :: 0 <= k < |MatchRequired| ==> HasKey(m, MatchRequired[k])
    requires IsNumber(Get(m, "match_percentage")) && 0.0 <= NumberValue(Get(m, "match_percentage")) <= 100.0
    requires Get(m, "matched_count") == JArr(xs) && Get(m, "total_ingredients") == JArr(ys)
    requires forall k :: 0 <= k < |xs| && k < |ys| ==> PyEq(xs[k], ys[k])
    requires !HasKey(m, "matched_ingredients") && !HasKey(m, "unmatched_ingredients")
    ensures MatchProblems(m, index) == Ok(When(|xs| > |ys|, MatchCountExceedsTotal(index, JArr(xs), JArr(ys))))
  {
    assert GetOr(m, "matched_count", JInt(0)) == JArr(xs);
    assert GetOr(m, "total_ingredients", JInt(0)) == JArr(ys);
    GreaterListsPrefix(xs, ys);
    FlatMapEmpty(MatchRequired, AbsentCheck(m, index));
    assert FlatMap(MatchRequired, AbsentCheck(m, index)) == [];
    assert PercentageProblems(m, index) == [];
    assert ListProblems(m, index, "matched_ingredients") == [];
    assert ListProblems(m, index, "unmatched_ingredients") == [];
    var count := When(|xs| > |ys|, MatchCountExceedsTotal(index, JArr(xs), JArr(ys)));
    assert MatchProblems(m, index) == Ok([] + [] + count + [] + []);
    assert [] + [] + count + [] + [] == count;
  }

  /** The loop of validate_recipe_match. */
  method ValidateRecipeMatch(m: Json, index: nat) returns (r: Checked<seq<Problem>>)
    requires m.JObj?
    ensures r == MatchProblems(m, index)
  {
    var errors := [];
    var required := MatchRequired;
    for k := 0 to |required|
      invariant errors == FlatMap(required[..k], AbsentCheck(m, index))
    {
      FlatMapSnoc(required, AbsentCheck(m, index), k);
      var field := required[k];
      if !HasKey(m, field) {
        errors := errors + [MatchMissing(index, field)];
      }
    }
    assert required[..|required|] == required;
    ghost var beforePercentage := errors;
    if HasKey(m, "match_percentage") {
      var pct := Get(m, "match_percentage");
      if !IsNumber(pct) {
        errors := errors + [MatchPercentageNotNumeric(index)];
      } else if NumberValue(pct) < 0.0 || NumberValue(pct) > 100.0 {
        errors := errors + [MatchPercentageOutOfRange(index, pct)];
      }
    }
    assert errors == beforePercentage + PercentageProblems(m, index);
    var total := GetOr(m, "total_ingredients", JInt(0));
    var matched := GetOr(m, "matched_count", JInt(0));
    var exceeds := Greater(matched, total);
    if exceeds.Raised? {
      return Raised;
    }
    ghost var beforeCount := errors;
    if exceeds.value {
      errors := errors + [MatchCountExceedsTotal(index, matched, total)];
    }
    assert errors == beforeCount + When(exceeds.value, MatchCountExceedsTotal(index, matched, total));
    ghost var beforeLists := errors;
    if HasKey(m, "matched_ingredients") && !Get(m, "matched_ingredients").JArr? {
      errors := errors + [MatchNotList(index, "matched_ingredients")];
    }
    assert errors == beforeLists + ListProblems(m, index, "matched_ingredients");
    beforeLists := errors;
    if HasKey(m, "unmatched_ingredients") && !Get(m, "unmatched_ingredients").JArr? {
      errors := errors + [MatchNotList(index, "unmatched_ingredients")];
    }
    assert errors == beforeLists + ListProblems(m, index, "unmatched_ingredients");
    r := Ok(errors);
  }

  // ---------------------------------------------------------------------------
  // The file checks
  // ---------------------------------------------------------------------------

  /**
   * Each element of the array is checked with the record check; an element that is not a
   * dict makes `.get` raise AttributeError.
   */
  function DealAt(i: nat, deal: Json): Checked<seq<Problem>> {
    if deal.JObj? then DealProblems(deal, i) else Raised
  }

  function RecipeAt(i: nat, recipe: Json): Checked<seq<Problem>> {
    if recipe.JObj? then Ok(RecipeProblems(recipe, i)) else Raised
  }

  function MatchAt(i: nat, m: Json): Checked<seq<Problem>> {
    if m.JObj? then MatchProblems(m, i) else Raised
  }

  /** `(deal.get('store'), deal.get('name'))` as Python's set membership compares it. */
  function DupKey(deal: Json): (Json, Json) {
    if deal.JObj? then (Canon(Get(deal, "store")), Canon(Get(deal, "name"))) else (JNull, JNull)
  }

  /** The key tuple can be hashed: neither part is a list or a dict. */
  predicate DupKeyHashable(deal: Json) {
    deal.JObj? && Hashable(Get(deal, "store")) && Hashable(Get(deal, "name"))
  }

  /** The duplicate loop: every deal whose key an earlier deal already had, in order. */
  function DuplicateProblems(deals: seq<Json>): seq<Problem>
    decreases |deals|
  {
    if deals == [] then []
    else
      var init := deals[..|deals| - 1];
      var d := deals[|deals| - 1];
      DuplicateProblems(init)
      + if DupKey(d) in KeySet(init, DupKey) && d.JObj?
        then [Duplicate(|deals| - 1, Get(d, "store"), Get(d, "name"))]
        else []
  }

  /** The outcome of validate_deals_file on the parsed contents of the file. */
  function DealsFileResult(data: Json): Checked<(bool, seq<Problem>)> {
    if !data.JArr? then Ok((false, [RootNotArray]))
    else
      var deals := data.items;
      match ConcatChecked(deals, DealAt)
      case Raised => Raised
      case Ok(ps) =>
        if !All(deals, DupKeyHashable) then Raised
        else
          var errors := When(deals == [], EmptyDeals) + ps + DuplicateProblems(deals);
          Ok((errors == [], errors))
  }

  function RecipesFileResult(data: Json): Checked<(bool, seq<Problem>)> {
    if !data.JArr? then Ok((false, [RootNotArray]))
    else
      match ConcatChecked(data.items, RecipeAt)
      case Raised => Raised
      case Ok(ps) =>
        var errors := When(data.items == [], EmptyRecipes) + ps;
        Ok((errors == [], errors))
  }

  function MatchesFileResult(data: Json): Checked<(bool, seq<Problem>)> {
    if !data.JObj? then Ok((false, [RootNotObject]))
    else if !HasKey(data, "recipes") then Ok((false, [MissingRecipes]))
    else if !Get(data, "recipes").JArr? then Ok((false, [RecipesNotArray]))
    else
      match ConcatChecked(Get(data, "recipes").items, MatchAt)
      case Raised => Raised
      case Ok(errors) => Ok((errors == [], errors))
  }

  /** The duplicate loop reports, in order, the positions whose key an earlier deal already had. */
  lemma {:induction false} DuplicatePositions(deals: seq<Json>)
    requires forall k :: 0 <= k < |deals| ==> deals[k].JObj?
    ensures |DuplicateProblems(deals)| == |RepeatPositions(deals, DupKey)|
    ensures forall k :: 0 <= k < |DuplicateProblems(deals)| ==>
              var p := RepeatPositions(deals, DupKey)[k];
              DuplicateProblems(deals)[k] == Duplicate(p, Get(deals[p], "store"), Get(deals[p], "name"))
    decreases |deals|
  {
    if deals != [] {
      var init := deals[..|deals| - 1];
      DuplicatePositions(init);
      assert forall k :: 0 <= k < |init| ==> init[k] == deals[k];
    }
  }

  /**
   * A deal is reported as a duplicate exactly when an earlier deal has the same store and
   * name; there are as many reports as deals beyond the first of each key.
   */
  lemma DuplicatesSpec(deals: seq<Json>, i: nat)
    requires forall k :: 0 <= k < |deals| ==> deals[k].JObj?
    requires i < |deals|
    ensures |DuplicateProblems(deals)| == |deals| - |KeySet(deals, DupKey)|
    ensures Duplicate(i, Get(deals[i], "store"), Get(deals[i], "name")) in DuplicateProblems(deals)
        <==> exists j :: 0 <= j < i && DupKey(deals[j]) == DupKey(deals[i])
  {
    DuplicatePositions(deals);
    FirstPerKeyCount(deals, DupKey);
    RepeatPositionsSpec(deals, DupKey, i);
    var ds := DuplicateProblems(deals);
    var ps := RepeatPositions(deals, DupKey);
    if i in ps {
      var k :| 0 <= k < |ps| && ps[k] == i;
      assert ds[k] == Duplicate(i, Get(deals[i], "store"), Get(deals[i], "name"));
    }
  }

  /** No duplicate is reported exactly when no two deals share a store and name. */
  lemma NoDuplicates(deals: seq<Json>)
    requires forall k :: 0 <= k < |deals| ==> deals[k].JObj?
    ensures DuplicateProblems(deals) == [] <==> DistinctKeys(deals, DupKey)
  {
    DuplicatePositions(deals);
    var ps := RepeatPositions(deals, DupKey);
    if ps != [] {
      RepeatPositionsSpec(deals, DupKey, ps[0]);
    }
    if !DistinctKeys(deals, DupKey) {
      var i, j :| 0 <= i < j < |deals| && DupKey(deals[i]) == DupKey(deals[j]);
      RepeatPositionsSpec(deals, DupKey, j);
    }
  }

  /**
   * A deals file is valid exactly when it is a non-empty array of well-formed deals with
   * hashable, pairwise distinct (store, name) keys.
   */
  lemma DealsFileValid(data: Json)
    ensures DealsFileResult(data) == Ok((true, []))
        <==> data.JArr? && data.items != []
             && (forall k :: 0 <= k < |data.items| ==> data.items[k].JObj? && DealValid(data.items[k]))
             && All(data.items, DupKeyHashable)
             && DistinctKeys(data.items, DupKey)
  {
    if data.JArr? {
      var deals := data.items;
      DealsValid(deals);
      if forall k :: 0 <= k < |deals| ==> deals[k].JObj? {
        NoDuplicates(deals);
      }
    }
  }

  lemma DealsValid(deals: seq<Json>)
    ensures ConcatChecked(deals, DealAt) == Ok([])
        <==> forall k :: 0 <= k < |deals| ==> deals[k].JObj? && DealValid(deals[k])
  {
    ConcatCheckedEmpty(deals, DealAt);
    forall k | 0 <= k < |deals| && deals[k].JObj?
      ensures DealAt(k, deals[k]) == Ok([]) <==> DealValid(deals[k])
    {
      DealProblemsValid(deals[k], k);
    }
  }

  /** A recipes file is valid exactly when it is a non-empty array of well-formed recipes. */
  lemma RecipesFileValid(data: Json)
    ensures RecipesFileResult(data) == Ok((true, []))
        <==> data.JArr? && data.items != []
             && forall k :: 0 <= k < |data.items| ==> data.items[k].JObj? && RecipeValid(data.items[k])
  {
    if data.JArr? {
      var recipes := data.items;
      ConcatCheckedEmpty(recipes, RecipeAt);
      forall k | 0 <= k < |recipes| && recipes[k].JObj?
        ensures RecipeAt(k, recipes[k]) == Ok([]) <==> RecipeValid(recipes[k])
      {
        RecipeProblemsValid(recipes[k], k);
      }
    }
  }

  /** A matches file is valid exactly when its `recipes` is an array of well-formed matches. */
  lemma MatchesFileValid(data: Json)
    ensures MatchesFileResult(data) == Ok((true, []))
        <==> data.JObj? && HasKey(data, "recipes") && Get(data, "recipes").JArr?
             && forall k :: 0 <= k < |Get(data, "recipes").items| ==>
                  Get(data, "recipes").items[k].JObj? && MatchValid(Get(data, "recipes").items[k])
  {
    if data.JObj? && HasKey(data, "recipes") && Get(data, "recipes").JArr? {
      var matches := Get(data, "recipes").items;
      ConcatCheckedEmpty(matches, MatchAt);
      forall k | 0 <= k < |matches| && matches[k].JObj?
        ensures MatchAt(k, matches[k]) == Ok([]) <==> MatchValid(matches[k])
      {
        MatchProblemsValid(matches[k], k);
      }
    }
  }

  /** validate_deals_file after `json.load`: the record loop, then the duplicate loop. */
  method ValidateDealsFile(data: Json) returns (r: Checked<(bool, seq<Problem>)>)
    ensures r == DealsFileResult(data)
    ensures r.Ok? ==> (r.value.0 <==> r.value.1 == [])
  {
    if !data.JArr? {
      return Ok((false, [RootNotArray]));
    }
    var deals := data.items;
    var errors := [];
    if |deals| == 0 {
      errors := errors + [EmptyDeals];
    }
    assert errors == When(deals == [], EmptyDeals);
    var found := [];
    for i := 0 to |deals|
      invariant ConcatChecked(deals[..i], DealAt) == Ok(found)
    {
      ConcatCheckedSnoc(deals, DealAt, i);
      if !deals[i].JObj? {
        ConcatCheckedRaisedPersists(deals, DealAt, i + 1);
        return Raised;
      }
      var ps := DealProblems(deals[i], i);
      if ps.Raised? {
        ConcatCheckedRaisedPersists(deals, DealAt, i + 1);
        return Raised;
      }
      found := found + ps.value;
    }
    assert deals[..|deals|] == deals;
    errors := errors + found;
    var seen: set<(Json, Json)> := {};
    var dups := [];
    for i := 0 to |deals|
      invariant seen == KeySet(deals[..i], DupKey)
      invariant dups == DuplicateProblems(deals[..i])
      invariant All(deals[..i], DupKeyHashable)
    {
      assert deals[..i + 1][..i] == deals[..i];
      var deal := deals[i];
      if !DupKeyHashable(deal) {
        assert !All(deals, DupKeyHashable);
        return Raised;
      }
      AllSnoc(deals, i, DupKeyHashable);
      var key := DupKey(deal);
      if key in seen {
        dups := dups + [Duplicate(i, Get(deal, "store"), Get(deal, "name"))];
      }
      seen := seen + {key};
    }
    assert deals[..|deals|] == deals;
    errors := errors + dups;
    r := Ok((|errors| == 0, errors));
  }

  /** validate_recipes_file after `json.load`. */
  method ValidateRecipesFile(data: Json) returns (r: Checked<(bool, seq<Problem>)>)
    ensures r == RecipesFileResult(data)
    ensures r.Ok? ==> (r.value.0 <==> r.value.1 == [])
  {
    if !data.JArr? {
      return Ok((false, [RootNotArray]));
    }
    var recipes := data.items;
    var errors := [];
    if |recipes| == 0 {
      errors := errors + [EmptyRecipes];
    }
    assert errors == When(recipes == [], EmptyRecipes);
    var found := [];
    for i := 0 to |recipes|
      invariant ConcatChecked(recipes[..i], RecipeAt) == Ok(found)
    {
      ConcatCheckedSnoc(recipes, RecipeAt, i);
      if !recipes[i].JObj? {
        ConcatCheckedRaisedPersists(recipes, RecipeAt, i + 1);
        return Raised;
      }
      var ps := ValidateRecipe(recipes[i], i);
      found := found + ps;
    }
    assert recipes[..|recipes|] == recipes;
    assert ConcatChecked(recipes, RecipeAt) == Ok(found);
    errors := errors + found;
    r := Ok((|errors| == 0, errors));
  }

  /** validate_recipe_matches_file after `json.load`. */
  method ValidateRecipeMatchesFile(data: Json) returns (r: Checked<(bool, seq<Problem>)>)
    ensures r == MatchesFileResult(data)
    ensures r.Ok? ==> (r.value.0 <==> r.value.1 == [])
  {
    if !data.JObj? {
      return Ok((false, [RootNotObject]));
    }
    if !HasKey(data, "recipes") {
      return Ok((false, [MissingRecipes]));
    }
    if !Get(data, "recipes").JArr? {
      return Ok((false, [RecipesNotArray]));
    }
    var matches := Get(data, "recipes").items;
    var errors := [];
    for i := 0 to |matches|
      invariant ConcatChecked(matches[..i], MatchAt) == Ok(errors)
    {
      ConcatCheckedSnoc(matches, MatchAt, i);
      if !matches[i].JObj? {
        ConcatCheckedRaisedPersists(matches, MatchAt, i + 1);
        return Raised;
      }
      var ps := ValidateRecipeMatch(matches[i], i);
      if ps.Raised? {
        ConcatCheckedRaisedPersists(matches, MatchAt, i + 1);
        return Raised;
      }
      errors := errors + ps.value;
    }
    assert matches[..|matches|] == matches;
    r := Ok((|errors| == 0, errors));
  }

  // ---------------------------------------------------------------------------
  // The matcher's output passes the checks
  // ---------------------------------------------------------------------------

  lemma AnalysisKeyName(a: RecipeAnalysis)
    ensures Lookup(AnalysisJson(a).entries, "name") == Some(a.name)
  {
    LookupAt(AnalysisJson(a).entries, "name", 0);
  }

  lemma AnalysisKeyUrl(a: RecipeAnalysis)
    ensures Lookup(AnalysisJson(a).entries, "url") == Some(a.url)
  {
    LookupAt(AnalysisJson(a).entries, "url", 1);
  }

  lemma AnalysisKeyTotalIngredients(a: RecipeAnalysis)
    ensures Lookup(AnalysisJson(a).entries, "total_ingredients") == Some(JInt(a.totalIngredients))
  {
    LookupAt(AnalysisJson(a).entries, "total_ingredients", 4);
  }

  lemma AnalysisKeyMatchedCount(a: RecipeAnalysis)
    ensures Lookup(AnalysisJson(a).entries, "matched_count") == Some(JInt(a.matchedCount))
  {
    LookupAt(AnalysisJson(a).entries, "matched_count", 5);
  }

  lemma AnalysisKeyMatchPercentage(a: RecipeAnalysis)
    ensures Lookup(AnalysisJson(a).entries, "match_percentage") == Some(if a.totalIngredients == 0 then JInt(0) else JFloat(a.matchPercentage))
  {
    LookupAt(AnalysisJson(a).entries, "match_percentage", 6);
  }

  lemma AnalysisKeyMatchedIngredients(a: RecipeAnalysis)
    ensures Lookup(AnalysisJson(a).entries, "matched_ingredients").Some? && Lookup(AnalysisJson(a).entries, "matched_ingredients").value.JArr?
  {
    LookupAt(AnalysisJson(a).entries, "matched_ingredients", 7);
  }

  lemma AnalysisKeyUnmatchedIngredients(a: RecipeAnalysis)
    ensures Lookup(AnalysisJson(a).entries, "unmatched_ingredients").Some? && Lookup(AnalysisJson(a).entries, "unmatched_ingredients").value.JArr?
  {
    LookupAt(AnalysisJson(a).entries, "unmatched_ingredients", 8);
  }

  /** A match with the keys of analyze_recipe's dict and consistent values has no problems. */
  lemma MatchProblemsOf(m: Json, index: nat, total: nat, matched: nat, pct: Json)
    requires m.JObj?
    requires Lookup(m.entries, "name").Some? && Lookup(m.entries, "url").Some?
    requires Lookup(m.entries, "total_ingredients") == Some(JInt(total))
    requires Lookup(m.entries, "matched_count") == Some(JInt(matched))
    requires Lookup(m.entries, "match_percentage") == Some(pct)
    requires IsNumber(pct) && 0.0 <= NumberValue(pct) <= 100.0 && matched <= total
    requires Lookup(m.entries, "matched_ingredients").Some? && Lookup(m.entries, "matched_ingredients").value.JArr?
    requires Lookup(m.entries, "unmatched_ingredients").Some? && Lookup(m.entries, "unmatched_ingredients").value.JArr?
    ensures MatchProblems(m, index) == Ok([])
  {
    forall k | 0 <= k < |MatchRequired|
      ensures HasKey(m, MatchRequired[k])
    {
      if k == 0 { assert MatchRequired[k] == "name"; }
      else if k == 1 { assert MatchRequired[k] == "url"; }
      else if k == 2 { assert MatchRequired[k] == "total_ingredients"; }
      else if k == 3 { assert MatchRequired[k] == "matched_count"; }
      else { assert MatchRequired[k] == "match_percentage"; }
    }
    assert Greater(JInt(matched), JInt(total)) == Ok(false);
    MatchProblemsValid(m, index);
  }

  /** A consistent analysis, written as analyze_recipe writes it, has no problems. */
  lemma AnalysisJsonValid(a: RecipeAnalysis, index: nat)
    requires Consistent(a)
    ensures MatchProblems(AnalysisJson(a), index) == Ok([])
  {
    AnalysisKeyName(a);
    AnalysisKeyUrl(a);
    AnalysisKeyTotalIngredients(a);
    AnalysisKeyMatchedCount(a);
    AnalysisKeyMatchPercentage(a);
    AnalysisKeyMatchedIngredients(a);
    AnalysisKeyUnmatchedIngredients(a);
    MatchProblemsOf(AnalysisJson(a), index, a.totalIngredients, a.matchedCount,
                    if a.totalIngredients == 0 then JInt(0) else JFloat(a.matchPercentage));
  }

  /** The file the matcher writes passes validate_recipe_matches_file. */
  lemma ReportPassesValidation(recipes: seq<Recipe>, deals: seq<Deal>, score: ScoreFn, lastUpdated: string)
    requires Report(recipes, deals, score, lastUpdated).Ok?
    ensures MatchesFileResult(ReportJson(Report(recipes, deals, score, lastUpdated).value)) == Ok((true, []))
  {
    var r := Report(recipes, deals, score, lastUpdated).value;
    ReportConsistent(recipes, deals, score, lastUpdated);
    var data := ReportJson(r);
    LookupAt(data.entries, "recipes", 3);
    var items := Get(data, "recipes").items;
    forall k | 0 <= k < |items|
      ensures MatchAt(k, items[k]) == Ok([])
    {
      AnalysisJsonValid(r.recipes[k], k);
    }
    ConcatCheckedEmpty(items, MatchAt);
  }
}
