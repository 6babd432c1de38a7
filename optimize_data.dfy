/**
 * optimize_recipe_matches of optimize_data.py on the parsed `recipe_matches.json`: the
 * store names are collected into a sorted index, each matched ingredient refers to its
 * store by position in that index, and empty optional fields are dropped.
 *
 * The script's `stores` set is kept as the sequence of its elements in first-insertion
 * order; `sorted` does not depend on that order (Sorting.AscendingUnique).
 */
module OptimizeData {
  import opened Wrappers
  import opened Json
  import opened Seqs
  import Sorting

  // ---------------------------------------------------------------------------
  // The store index
  // ---------------------------------------------------------------------------

  /**
   * `ing.get('deal_store')` when it is truthy, the value the first loop adds to `stores`.
   * `.get` on a non-dict raises; a store that is not a string raises here.
   */
  function EntryStore(ing: Json): Checked<Option<string>> {
    if !ing.JObj? then Raised
    else
      var store := Get(ing, "deal_store");
      if !Truthy(store) then Ok(None)
      else if store.JStr? then Ok(Some(store.s))
      else Raised
  }

  /** `stores.add(...)` for one entry of `matched_ingredients`. */
  function AddStore(stores: seq<string>, ing: Json): Checked<seq<string>> {
    match EntryStore(ing)
    case Raised => Raised
    case Ok(None) => Ok(stores)
    case Ok(Some(s)) => Ok(if s in stores then stores else stores + [s])
  }

  /** `recipe.get('matched_ingredients', [])` as the first loop iterates it. */
  function EntriesOf(recipe: Json): Checked<seq<Json>> {
    if !recipe.JObj? then Raised else Iterate(GetOr(recipe, "matched_ingredients", JArr([])))
  }

  function AddRecipeStores(stores: seq<string>, recipe: Json): Checked<seq<string>> {
    match EntriesOf(recipe)
    case Raised => Raised
    case Ok(ings) => FoldChecked(ings, stores, AddStore)
  }

  /** The first loop of the script: the set of store names of all matched ingredients. */
  function Stores(recipes: seq<Json>): Checked<seq<string>> {
    FoldChecked(recipes, [], AddRecipeStores)
  }

  /** The entry names store `s`: its `deal_store` is the non-empty string `s`. */
  predicate NamesStore(ing: Json, s: string) {
    ing.JObj? && Get(ing, "deal_store") == JStr(s) && s != []
  }

  /** Some entry of the recipe's `matched_ingredients` names store `s`. */
  predicate RecipeNamesStore(recipe: Json, s: string) {
    EntriesOf(recipe).Ok? && exists j :: 0 <= j < |EntriesOf(recipe).value| && NamesStore(EntriesOf(recipe).value[j], s)
  }

  lemma AddStoreSpec(stores: seq<string>, ing: Json)
    requires Sorting.NoRepeats(stores) && AddStore(stores, ing).Ok?
    ensures Sorting.NoRepeats(AddStore(stores, ing).value)
    ensures forall s :: s in AddStore(stores, ing).value <==> s in stores || NamesStore(ing, s)
  {
  }

  /** Adding the stores of a list of entries keeps the elements distinct and adds exactly the stores they name. */
  lemma {:induction false} AddStoresSpec(ings: seq<Json>, stores: seq<string>)
    requires Sorting.NoRepeats(stores) && FoldChecked(ings, stores, AddStore).Ok?
    ensures Sorting.NoRepeats(FoldChecked(ings, stores, AddStore).value)
    ensures forall s :: s in FoldChecked(ings, stores, AddStore).value
                   <==> s in stores || exists j :: 0 <= j < |ings| && NamesStore(ings[j], s)
    decreases |ings|
  {
    if ings != [] {
      var init := ings[..|ings| - 1];
      AddStoresSpec(init, stores);
      var before := FoldChecked(init, stores, AddStore).value;
      AddStoreSpec(before, ings[|ings| - 1]);
      assert forall j :: 0 <= j < |init| ==> init[j] == ings[j];
    }
  }

  /** The collected stores are distinct and are exactly the stores some matched ingredient names. */
  lemma {:induction false} StoresSpec(recipes: seq<Json>)
    requires Stores(recipes).Ok?
    ensures Sorting.NoRepeats(Stores(recipes).value)
    ensures forall s :: s in Stores(recipes).value <==> exists k :: 0 <= k < |recipes| && RecipeNamesStore(recipes[k], s)
    decreases |recipes|
  {
    if recipes != [] {
      var init := recipes[..|recipes| - 1];
      var last := recipes[|recipes| - 1];
      assert Stores(init).Ok?;
      StoresSpec(init);
      var before := Stores(init).value;
      AddStoresSpec(EntriesOf(last).value, before);
      assert forall k :: 0 <= k < |init| ==> init[k] == recipes[k];
    }
  }

  /**
   * `store_to_id` and `id_to_store`: the sorted stores are strictly ascending, hold exactly
   * the collected stores, and the index map and the list are inverse to each other.
   */
  lemma StoreIndexSpec(recipes: seq<Json>)
    requires Stores(recipes).Ok?
    ensures var ids := Sorting.SortAsc(Stores(recipes).value);
      && Sorting.Ascending(ids)
      && (forall s :: s in ids <==> s in Stores(recipes).value)
      && (forall i :: 0 <= i < |ids| ==> Sorting.IndexMap(ids)[ids[i]] == i)
      && (forall s :: s in Sorting.IndexMap(ids) ==> Sorting.IndexMap(ids)[s] < |ids| && ids[Sorting.IndexMap(ids)[s]] == s)
  {
    var stores := Stores(recipes).value;
    StoresSpec(recipes);
    Sorting.SortAscAscending(stores);
    var ids := Sorting.SortAsc(stores);
    assert forall s :: s in ids <==> s in multiset(ids);
    assert forall s :: s in stores <==> s in multiset(stores);
    Sorting.IndexMapInverse(ids);
  }

  // ---------------------------------------------------------------------------
  // The compact records
  // ---------------------------------------------------------------------------

  /** `store_to_id.get(store)`: None for a store that is not in the index; an unhashable store raises TypeError. */
  function StoreId(index: map<string, nat>, store: Json): Checked<Json> {
    if !Hashable(store) then Raised
    else if store.JStr? && store.s in index then Ok(JInt(index[store.s]))
    else Ok(JNull)
  }

  /**
   * The compact form of one matched ingredient. `ing[...]` raises KeyError on a missing
   * key, and `round` raises TypeError on a truthy score that is not a number.
   */
  function OptIngredient(index: map<string, nat>, ing: Json): (r: Checked<Json>)
    ensures r.Ok? <==> && ing.JObj? && HasKey(ing, "deal_store") && HasKey(ing, "ingredient") && HasKey(ing, "deal_name")
                       && Hashable(Get(ing, "deal_store"))
                       && (Truthy(Get(ing, "match_score")) ==> IsNumber(Get(ing, "match_score")))
    ensures r.Ok? ==> r.value.JObj?
  {
    if !ing.JObj? then Raised
    else
      match Subscript(ing, "deal_store")
      case Raised => Raised
      case Ok(store) =>
        match StoreId(index, store)
        case Raised => Raised
        case Ok(id) =>
          match Subscript(ing, "ingredient")
          case Raised => Raised
          case Ok(name) =>
            match Subscript(ing, "deal_name")
            case Raised => Raised
            case Ok(dealName) =>
              var score := Get(ing, "match_score");
              if Truthy(score) && !IsNumber(score) then Raised
              else
                Ok(JObj([("ingredient", name), ("deal_name", dealName), ("store_id", id)] + OptionalPrices(ing)))
  }

  /** The optional fields of a matched ingredient, each with the name the compact entry gives it. */
  const PriceFields: seq<(string, string)> :=
    [("deal_price", "price"), ("ord_pris", "ord_pris"), ("jfr_pris", "jfr_pris"), ("deal_unit", "unit"), ("match_score", "score")]

  function RenameCheck(d: Json): (nat, (string, string)) -> seq<(string, Json)>
    requires d.JObj?
  {
    (k: nat, field: (string, string)) => CopyIfTruthy(d, field.0, field.1)
  }

  /** The price, unit and score entries of a compact ingredient, each only when the original is truthy. */
  function OptionalPrices(ing: Json): seq<(string, Json)>
    requires ing.JObj?
  {
    FlatMap(PriceFields, RenameCheck(ing))
  }

  function IngredientOptimizer(index: map<string, nat>): Json -> Checked<Json> {
    (ing: Json) => OptIngredient(index, ing)
  }

  const OptionalFields: seq<string> := ["image", "category", "source", "time", "servings", "rating", "reviews", "nutrition"]

  /** The `matched_ingredients` entry of the compact recipe, present only when the original is truthy. */
  function MatchedPart(index: map<string, nat>, recipe: Json): Checked<seq<(string, Json)>>
    requires recipe.JObj?
  {
    var matched := Get(recipe, "matched_ingredients");
    if !Truthy(matched) then Ok([])
    else
      match Iterate(matched)
      case Raised => Raised
      case Ok(ings) =>
        match MapChecked(ings, IngredientOptimizer(index))
        case Raised => Raised
        case Ok(opts) => Ok([("matched_ingredients", JArr(opts))])
  }

  /** The compact form of one recipe; `recipe[...]` raises KeyError on a missing key. */
  function OptRecipe(index: map<string, nat>, recipe: Json): (r: Checked<Json>)
    ensures r.Ok? <==> && recipe.JObj? && HasKey(recipe, "name") && HasKey(recipe, "url")
                       && HasKey(recipe, "total_ingredients") && HasKey(recipe, "matched_count")
                       && HasKey(recipe, "match_percentage") && MatchedPart(index, recipe).Ok?
    ensures r.Ok? ==> r.value.JObj?
  {
    if !recipe.JObj? then Raised
    else
      match Subscript(recipe, "name")
      case Raised => Raised
      case Ok(name) =>
        match Subscript(recipe, "url")
        case Raised => Raised
        case Ok(url) =>
          var optional := FlatMap(OptionalFields, OptionalCheck(recipe));
          match Subscript(recipe, "total_ingredients")
          case Raised => Raised
          case Ok(total) =>
            match Subscript(recipe, "matched_count")
            case Raised => Raised
            case Ok(count) =>
              match Subscript(recipe, "match_percentage")
              case Raised => Raised
              case Ok(pct) =>
                match MatchedPart(index, recipe)
                case Raised => Raised
                case Ok(matched) =>
                  Ok(JObj([("name", name), ("url", url)] + optional
                          + [("total_ingredients", total), ("matched_count", count), ("match_percentage", pct)]
                          + matched
                          + CopyIfTruthy(recipe, "unmatched_ingredients", "unmatched_ingredients")))
  }

  function RecipeOptimizer(index: map<string, nat>): Json -> Checked<Json> {
    (recipe: Json) => OptRecipe(index, recipe)
  }

  function StrList(ids: seq<string>): (js: seq<Json>)
    ensures |js| == |ids|
    ensures forall i :: 0 <= i < |ids| ==> js[i] == JStr(ids[i])
  {
    seq(|ids|, i requires 0 <= i < |ids| => JStr(ids[i]))
  }

  /** `id_to_store`: the collected stores in sorted order. */
  function IdsOf(recipes: seq<Json>): seq<string>
    requires Stores(recipes).Ok?
  {
    Sorting.SortAsc(Stores(recipes).value)
  }

  /** `data.get('recipes', [])` as both loops iterate it. */
  function RecipesOf(data: Json): Checked<seq<Json>> {
    if !data.JObj? then Raised else Iterate(GetOr(data, "recipes", JArr([])))
  }

  /** The file optimize_recipe_matches writes, or Raised when the script stops with an exception. */
  function Optimize(data: Json): Checked<Json> {
    match RecipesOf(data)
    case Raised => Raised
    case Ok(recipes) =>
      if Stores(recipes).Raised? then Raised
      else
        var ids := IdsOf(recipes);
        match MapChecked(recipes, RecipeOptimizer(Sorting.IndexMap(ids)))
        case Raised => Raised
        case Ok(opts) =>
          Ok(JObj([("last_updated", Get(data, "last_updated")), ("total_deals", Get(data, "total_deals")),
                   ("total_recipes", Get(data, "total_recipes")), ("stores", JArr(StrList(ids))),
                   ("recipes", JArr(opts))]))
  }

  // ---------------------------------------------------------------------------
  // The loops
  // ---------------------------------------------------------------------------

  /** The inner loop of the second pass: the compact form of each matched ingredient, in order. */
  method OptimizeMatched(index: map<string, nat>, items: seq<Json>) returns (r: Checked<seq<Json>>)
    ensures r == MapChecked(items, IngredientOptimizer(index))
  {
    var opts := [];
    for j := 0 to |items|
      invariant MapChecked(items[..j], IngredientOptimizer(index)) == Ok(opts)
    {
      MapCheckedSnoc(items, IngredientOptimizer(index), j);
      var opt := OptIngredient(index, items[j]);
      if opt.Raised? {
        MapCheckedRaisedPersists(items, IngredientOptimizer(index), j + 1);
        return Raised;
      }
      opts := opts + [opt.value];
    }
    assert items[..|items|] == items;
    r := Ok(opts);
  }

  /** The body of the second loop: one compact recipe. */
  method OptimizeRecipe(index: map<string, nat>, recipe: Json) returns (r: Checked<Json>)
    ensures r == OptRecipe(index, recipe)
  {
    if !recipe.JObj? {
      return Raised;
    }
    var name := Subscript(recipe, "name");
    if name.Raised? {
      return Raised;
    }
    var url := Subscript(recipe, "url");
    if url.Raised? {
      return Raised;
    }
    var fields := OptionalFields;
    var optional := [];
    for k := 0 to |fields|
      invariant optional == FlatMap(fields[..k], OptionalCheck(recipe))
    {
      FlatMapSnoc(fields, OptionalCheck(recipe), k);
      var field := fields[k];
      if Truthy(Get(recipe, field)) {
        optional := optional + [(field, Get(recipe, field))];
      }
    }
    assert fields[..|fields|] == fields;
    var total := Subscript(recipe, "total_ingredients");
    if total.Raised? {
      return Raised;
    }
    var count := Subscript(recipe, "matched_count");
    if count.Raised? {
      return Raised;
    }
    var pct := Subscript(recipe, "match_percentage");
    if pct.Raised? {
      return Raised;
    }
    var matched := [];
    if Truthy(Get(recipe, "matched_ingredients")) {
      var ings := Iterate(Get(recipe, "matched_ingredients"));
      if ings.Raised? {
        return Raised;
      }
      var opts := OptimizeMatched(index, ings.value);
      if opts.Raised? {
        return Raised;
      }
      matched := [("matched_ingredients", JArr(opts.value))];
    }
    assert MatchedPart(index, recipe) == Ok(matched);
    var unmatched := [];
    if Truthy(Get(recipe, "unmatched_ingredients")) {
      unmatched := [("unmatched_ingredients", Get(recipe, "unmatched_ingredients"))];
    }
    assert unmatched == CopyIfTruthy(recipe, "unmatched_ingredients", "unmatched_ingredients");
    assert optional == FlatMap(OptionalFields, OptionalCheck(recipe));
    r := Ok(JObj([("name", name.value), ("url", url.value)] + optional
                 + [("total_ingredients", total.value), ("matched_count", count.value), ("match_percentage", pct.value)]
                 + matched + unmatched));
  }

  /** optimize_recipe_matches after `json.load`: the store loop, the index, then the recipe loop. */
  method OptimizeRecipeMatches(data: Json) returns (r: Checked<Json>)
    ensures r == Optimize(data)
  {
    var iterated := RecipesOf(data);
    if iterated.Raised? {
      return Raised;
    }
    var recipes := iterated.value;
    var stores: seq<string> := [];
    for i := 0 to |recipes|
      invariant Stores(recipes[..i]) == Ok(stores)
    {
      FoldCheckedSnoc(recipes, [], AddRecipeStores, i);
      var ings := EntriesOf(recipes[i]);
      if ings.Raised? {
        FoldCheckedRaisedPersists(recipes, [], AddRecipeStores, i + 1);
        return Raised;
      }
      var items := ings.value;
      ghost var before := stores;
      for j := 0 to |items|
        invariant FoldChecked(items[..j], before, AddStore) == Ok(stores)
      {
        FoldCheckedSnoc(items, before, AddStore, j);
        var store := EntryStore(items[j]);
        if store.Raised? {
          FoldCheckedRaisedPersists(items, before, AddStore, j + 1);
          assert items[..|items|] == items;
          FoldCheckedRaisedPersists(recipes, [], AddRecipeStores, i + 1);
          return Raised;
        }
        if store.value.Some? && store.value.value !in stores {
          stores := stores + [store.value.value];
        }
      }
      assert items[..|items|] == items;
    }
    assert recipes[..|recipes|] == recipes;
    var ids := Sorting.SortAsc(stores);
    var index := Sorting.IndexMap(ids);
    var opts := [];
    for i := 0 to |recipes|
      invariant MapChecked(recipes[..i], RecipeOptimizer(index)) == Ok(opts)
    {
      MapCheckedSnoc(recipes, RecipeOptimizer(index), i);
      var opt := OptimizeRecipe(index, recipes[i]);
      if opt.Raised? {
        MapCheckedRaisedPersists(recipes, RecipeOptimizer(index), i + 1);
        return Raised;
      }
      opts := opts + [opt.value];
    }
    assert recipes[..|recipes|] == recipes;
    r := Ok(JObj([("last_updated", Get(data, "last_updated")), ("total_deals", Get(data, "total_deals")),
                  ("total_recipes", Get(data, "total_recipes")), ("stores", JArr(StrList(ids))),
                  ("recipes", JArr(opts))]));
  }

  // ---------------------------------------------------------------------------
  // What the compact file keeps
  // ---------------------------------------------------------------------------

  /** Looking a key up past entries that do not carry it. */
  lemma LookupSkip(a: seq<(string, Json)>, b: seq<(string, Json)>, key: string)
    requires forall k :: 0 <= k < |a| ==> a[k].0 != key
    ensures Lookup(a + b, key) == Lookup(b, key)
  {
    LookupAppend(a, b, key);
  }

  /** Every copied optional entry is named after one of the optional fields. */
  lemma OptionalKeys(d: Json)
    requires d.JObj?
    ensures var o := FlatMap(OptionalFields, OptionalCheck(d));
            forall k :: 0 <= k < |o| ==> o[k].0 in OptionalFields
  {
    var o := FlatMap(OptionalFields, OptionalCheck(d));
    forall k | 0 <= k < |o|
      ensures o[k].0 in OptionalFields
    {
      FlatMapMember(OptionalFields, OptionalCheck(d), o[k]);
    }
  }

  /** The compact ingredient is the three fixed entries followed by the optional ones. */
  lemma OptIngredientShape(index: map<string, nat>, ing: Json)
    requires OptIngredient(index, ing).Ok?
    ensures var store := Get(ing, "deal_store");
      OptIngredient(index, ing).value.entries
      == [("ingredient", Get(ing, "ingredient")), ("deal_name", Get(ing, "deal_name")),
          ("store_id", if store.JStr? && store.s in index then JInt(index[store.s]) else JNull)]
         + OptionalPrices(ing)
  {
  }

  lemma FixedEntries(e: seq<(string, Json)>, name: Json, dealName: Json, id: Json, rest: seq<(string, Json)>)
    requires e == [("ingredient", name), ("deal_name", dealName), ("store_id", id)] + rest
    ensures Lookup(e, "ingredient") == Some(name) && Lookup(e, "deal_name") == Some(dealName)
    ensures Lookup(e, "store_id") == Some(id)
  {
    LookupAt(e, "ingredient", 0);
    LookupAt(e, "deal_name", 1);
    LookupAt(e, "store_id", 2);
  }

  /** A compact ingredient keeps the ingredient, the deal name and the store's position in the index. */
  lemma OptIngredientKept(index: map<string, nat>, ing: Json)
    requires OptIngredient(index, ing).Ok?
    ensures var e := OptIngredient(index, ing).value.entries; var store := Get(ing, "deal_store");
      && Lookup(e, "ingredient") == Some(Get(ing, "ingredient"))
      && Lookup(e, "deal_name") == Some(Get(ing, "deal_name"))
      && Lookup(e, "store_id") == Some(if store.JStr? && store.s in index then JInt(index[store.s]) else JNull)
  {
    OptIngredientShape(index, ing);
    var store := Get(ing, "deal_store");
    FixedEntries(OptIngredient(index, ing).value.entries, Get(ing, "ingredient"), Get(ing, "deal_name"),
                 if store.JStr? && store.s in index then JInt(index[store.s]) else JNull, OptionalPrices(ing));
  }

  lemma NameAbsent(d: Json, fields: seq<(string, string)>, name: string)
    requires d.JObj? && forall j :: 0 <= j < |fields| ==> fields[j].1 != name
    ensures Lookup(FlatMap(fields, RenameCheck(d)), name) == None
  {
    var r := Lookup(FlatMap(fields, RenameCheck(d)), name);
    if r.Some? {
      FlatMapMember(fields, RenameCheck(d), (name, r.value));
    }
  }

  /** Copying fields under distinct new names: a name is answered exactly when its field is truthy. */
  lemma {:induction false} LookupRenamed(d: Json, fields: seq<(string, string)>, i: nat)
    requires d.JObj? && i < |fields|
    requires forall j :: 0 <= j < |fields| && j != i ==> fields[j].1 != fields[i].1
    ensures Lookup(FlatMap(fields, RenameCheck(d)), fields[i].1)
         == if Truthy(Get(d, fields[i].0)) then Some(Get(d, fields[i].0)) else None
    decreases |fields|
  {
    var init := fields[..|fields| - 1];
    var name := fields[i].1;
    var last := CopyIfTruthy(d, fields[|fields| - 1].0, fields[|fields| - 1].1);
    LookupAppend(FlatMap(init, RenameCheck(d)), last, name);
    if i == |fields| - 1 {
      NameAbsent(d, init, name);
    } else {
      LookupRenamed(d, init, i);
    }
  }

  /** The five optional field names of a compact ingredient differ from each other and from the fixed ones. */
  lemma PriceNames(i: nat)
    requires i < |PriceFields|
    ensures forall j :: 0 <= j < |PriceFields| && j != i ==> PriceFields[j].1 != PriceFields[i].1
    ensures PriceFields[i].1 != "ingredient" && PriceFields[i].1 != "deal_name" && PriceFields[i].1 != "store_id"
  {
  }

  lemma SkipFixed(e: seq<(string, Json)>, rest: seq<(string, Json)>, name: string)
    requires |e| >= 3 && e == e[..3] + rest
    requires e[0].0 == "ingredient" && e[1].0 == "deal_name" && e[2].0 == "store_id"
    requires name != "ingredient" && name != "deal_name" && name != "store_id"
    ensures Lookup(e, name) == Lookup(rest, name)
  {
    LookupSkip(e[..3], rest, name);
  }

  /**
   * Each optional field of the compact ingredient (`price` for `deal_price`, `unit` for
   * `deal_unit`, `score` for `match_score`, the two comparison prices under their own names)
   * appears exactly when the original field is truthy, holding its value.
   */
  lemma OptIngredientOptional(index: map<string, nat>, ing: Json, i: nat)
    requires OptIngredient(index, ing).Ok? && i < |PriceFields|
    ensures Lookup(OptIngredient(index, ing).value.entries, PriceFields[i].1)
         == if Truthy(Get(ing, PriceFields[i].0)) then Some(Get(ing, PriceFields[i].0)) else None
  {
    OptIngredientShape(index, ing);
    PriceNames(i);
    SkipFixed(OptIngredient(index, ing).value.entries, OptionalPrices(ing), PriceFields[i].1);
    LookupRenamed(ing, PriceFields, i);
  }

  /** The entries of a compact recipe, in the order the script inserts them, around a given matched part. */
  function RecipeEntries(recipe: Json, matched: seq<(string, Json)>): seq<(string, Json)>
    requires recipe.JObj?
  {
    [("name", Get(recipe, "name")), ("url", Get(recipe, "url"))]
    + FlatMap(OptionalFields, OptionalCheck(recipe))
    + [("total_ingredients", Get(recipe, "total_ingredients")), ("matched_count", Get(recipe, "matched_count")),
       ("match_percentage", Get(recipe, "match_percentage"))]
    + matched
    + CopyIfTruthy(recipe, "unmatched_ingredients", "unmatched_ingredients")
  }

  lemma OptRecipeShape(index: map<string, nat>, recipe: Json)
    requires OptRecipe(index, recipe).Ok?
    ensures OptRecipe(index, recipe).value.entries == RecipeEntries(recipe, MatchedPart(index, recipe).value)
  {
  }

  /** At most one entry, and that one is `matched_ingredients`. */
  predicate MatchedShape(matched: seq<(string, Json)>) {
    matched == [] || (|matched| == 1 && matched[0].0 == "matched_ingredients")
  }

  lemma Lookup5(a: seq<(string, Json)>, o: seq<(string, Json)>, c: seq<(string, Json)>, m: seq<(string, Json)>,
                u: seq<(string, Json)>, key: string)
    ensures Lookup(a + o + c + m + u, key)
         == if Lookup(a, key).Some? then Lookup(a, key)
            else if Lookup(o, key).Some? then Lookup(o, key)
            else if Lookup(c, key).Some? then Lookup(c, key)
            else if Lookup(m, key).Some? then Lookup(m, key)
            else Lookup(u, key)
  {
    LookupAppend(a, o, key);
    LookupAppend(a + o, c, key);
    LookupAppend(a + o + c, m, key);
    LookupAppend(a + o + c + m, u, key);
  }

  /** The optional fields share no name with the other entries of a compact recipe. */
  lemma OptionalNotFixed(field: string)
    requires field in OptionalFields
    ensures field != "name" && field != "url" && field != "total_ingredients" && field != "matched_count"
    ensures field != "match_percentage" && field != "matched_ingredients" && field != "unmatched_ingredients"
  {
  }

  lemma FixedNotOptional()
    ensures "name" !in OptionalFields && "url" !in OptionalFields && "total_ingredients" !in OptionalFields
    ensures "matched_count" !in OptionalFields && "match_percentage" !in OptionalFields
    ensures "matched_ingredients" !in OptionalFields && "unmatched_ingredients" !in OptionalFields
  {
  }

  /** A key that is none of the fixed ones is answered by the optional entries alone. */
  lemma RecipeEntriesOptional(recipe: Json, matched: seq<(string, Json)>, key: string)
    requires recipe.JObj? && MatchedShape(matched)
    requires key != "name" && key != "url" && key != "total_ingredients" && key != "matched_count"
    requires key != "match_percentage" && key != "matched_ingredients" && key != "unmatched_ingredients"
    ensures Lookup(RecipeEntries(recipe, matched), key) == Lookup(FlatMap(OptionalFields, OptionalCheck(recipe)), key)
  {
    var o := FlatMap(OptionalFields, OptionalCheck(recipe));
    Lookup5([("name", Get(recipe, "name")), ("url", Get(recipe, "url"))], o,
            [("total_ingredients", Get(recipe, "total_ingredients")), ("matched_count", Get(recipe, "matched_count")),
             ("match_percentage", Get(recipe, "match_percentage"))],
            matched, CopyIfTruthy(recipe, "unmatched_ingredients", "unmatched_ingredients"), key);
  }

  /** A fixed key is answered past the optional entries, which never carry it. */
  lemma RecipeEntriesFixed(recipe: Json, matched: seq<(string, Json)>, key: string)
    requires recipe.JObj? && key !in OptionalFields
    ensures var a := [("name", Get(recipe, "name")), ("url", Get(recipe, "url"))];
      var c := [("total_ingredients", Get(recipe, "total_ingredients")), ("matched_count", Get(recipe, "matched_count")),
                ("match_percentage", Get(recipe, "match_percentage"))];
      var u := CopyIfTruthy(recipe, "unmatched_ingredients", "unmatched_ingredients");
      Lookup(RecipeEntries(recipe, matched), key)
      == if Lookup(a, key).Some? then Lookup(a, key)
         else if Lookup(c, key).Some? then Lookup(c, key)
         else if Lookup(matched, key).Some? then Lookup(matched, key)
         else Lookup(u, key)
  {
    var o := FlatMap(OptionalFields, OptionalCheck(recipe));
    Lookup5([("name", Get(recipe, "name")), ("url", Get(recipe, "url"))], o,
            [("total_ingredients", Get(recipe, "total_ingredients")), ("matched_count", Get(recipe, "matched_count")),
             ("match_percentage", Get(recipe, "match_percentage"))],
            matched, CopyIfTruthy(recipe, "unmatched_ingredients", "unmatched_ingredients"), key);
    LookupCopied(recipe, OptionalFields, key);
  }

  /** The matched part is one compact entry per original entry, present exactly when the original list is truthy. */
  lemma MatchedPartSpec(index: map<string, nat>, recipe: Json)
    requires recipe.JObj? && MatchedPart(index, recipe).Ok?
    ensures MatchedShape(MatchedPart(index, recipe).value)
    ensures var matched := Get(recipe, "matched_ingredients"); var part := MatchedPart(index, recipe).value;
      if !Truthy(matched) then part == []
      else
        && Iterate(matched).Ok? && |part| == 1 && part[0].1.JArr?
        && |part[0].1.items| == |Iterate(matched).value|
        && forall k :: 0 <= k < |part[0].1.items| ==> OptIngredient(index, Iterate(matched).value[k]) == Ok(part[0].1.items[k])
  {
    var matched := Get(recipe, "matched_ingredients");
    if Truthy(matched) {
      MapCheckedOk(Iterate(matched).value, IngredientOptimizer(index));
    }
  }

  lemma KeptName(recipe: Json, matched: seq<(string, Json)>)
    requires recipe.JObj?
    ensures Lookup(RecipeEntries(recipe, matched), "name") == Some(Get(recipe, "name"))
  {
    FixedNotOptional();
    RecipeEntriesFixed(recipe, matched, "name");
  }

  lemma KeptUrl(recipe: Json, matched: seq<(string, Json)>)
    requires recipe.JObj?
    ensures Lookup(RecipeEntries(recipe, matched), "url") == Some(Get(recipe, "url"))
  {
    FixedNotOptional();
    RecipeEntriesFixed(recipe, matched, "url");
  }

  lemma KeptTotal(recipe: Json, matched: seq<(string, Json)>)
    requires recipe.JObj?
    ensures Lookup(RecipeEntries(recipe, matched), "total_ingredients") == Some(Get(recipe, "total_ingredients"))
  {
    FixedNotOptional();
    RecipeEntriesFixed(recipe, matched, "total_ingredients");
  }

  lemma KeptCount(recipe: Json, matched: seq<(string, Json)>)
    requires recipe.JObj?
    ensures Lookup(RecipeEntries(recipe, matched), "matched_count") == Some(Get(recipe, "matched_count"))
  {
    FixedNotOptional();
    RecipeEntriesFixed(recipe, matched, "matched_count");
  }

  lemma KeptPercentage(recipe: Json, matched: seq<(string, Json)>)
    requires recipe.JObj?
    ensures Lookup(RecipeEntries(recipe, matched), "match_percentage") == Some(Get(recipe, "match_percentage"))
  {
    FixedNotOptional();
    RecipeEntriesFixed(recipe, matched, "match_percentage");
    LookupAt([("total_ingredients", Get(recipe, "total_ingredients")), ("matched_count", Get(recipe, "matched_count")),
              ("match_percentage", Get(recipe, "match_percentage"))], "match_percentage", 2);
  }

  lemma KeptMatched(recipe: Json, matched: seq<(string, Json)>)
    requires recipe.JObj? && MatchedShape(matched)
    ensures Lookup(RecipeEntries(recipe, matched), "matched_ingredients") == Lookup(matched, "matched_ingredients")
  {
    FixedNotOptional();
    RecipeEntriesFixed(recipe, matched, "matched_ingredients");
  }

  lemma KeptUnmatched(recipe: Json, matched: seq<(string, Json)>)
    requires recipe.JObj? && MatchedShape(matched)
    ensures var u := Get(recipe, "unmatched_ingredients");
            Lookup(RecipeEntries(recipe, matched), "unmatched_ingredients") == if Truthy(u) then Some(u) else None
  {
    FixedNotOptional();
    RecipeEntriesFixed(recipe, matched, "unmatched_ingredients");
  }

  /** The name, the url and the match statistics of a compact recipe are the original ones. */
  lemma OptRecipeKept(index: map<string, nat>, recipe: Json)
    requires OptRecipe(index, recipe).Ok?
    ensures var e := OptRecipe(index, recipe).value.entries;
      && Lookup(e, "name") == Some(Get(recipe, "name"))
      && Lookup(e, "url") == Some(Get(recipe, "url"))
      && Lookup(e, "total_ingredients") == Some(Get(recipe, "total_ingredients"))
      && Lookup(e, "matched_count") == Some(Get(recipe, "matched_count"))
      && Lookup(e, "match_percentage") == Some(Get(recipe, "match_percentage"))
  {
    OptRecipeShape(index, recipe);
    var matched := MatchedPart(index, recipe).value;
    KeptName(recipe, matched);
    KeptUrl(recipe, matched);
    KeptTotal(recipe, matched);
    KeptCount(recipe, matched);
    KeptPercentage(recipe, matched);
  }

  /** Each optional field of a compact recipe is present exactly when it is truthy in the original. */
  lemma OptRecipeOptional(index: map<string, nat>, recipe: Json, field: string)
    requires OptRecipe(index, recipe).Ok? && field in OptionalFields
    ensures Lookup(OptRecipe(index, recipe).value.entries, field)
         == if Truthy(Get(recipe, field)) then Some(Get(recipe, field)) else None
  {
    OptRecipeShape(index, recipe);
    MatchedPartSpec(index, recipe);
    OptionalNotFixed(field);
    RecipeEntriesOptional(recipe, MatchedPart(index, recipe).value, field);
    LookupCopied(recipe, OptionalFields, field);
  }

  /** `unmatched_ingredients` is kept exactly when it is truthy. */
  lemma OptRecipeUnmatched(index: map<string, nat>, recipe: Json)
    requires OptRecipe(index, recipe).Ok?
    ensures var u := Get(recipe, "unmatched_ingredients");
            Lookup(OptRecipe(index, recipe).value.entries, "unmatched_ingredients") == if Truthy(u) then Some(u) else None
  {
    OptRecipeShape(index, recipe);
    MatchedPartSpec(index, recipe);
    KeptUnmatched(recipe, MatchedPart(index, recipe).value);
  }

  /**
   * `matched_ingredients` is present exactly when the original list is truthy, and then holds
   * the compact form of each original entry, in the original order.
   */
  lemma OptRecipeMatched(index: map<string, nat>, recipe: Json)
    requires OptRecipe(index, recipe).Ok?
    ensures var matched := Get(recipe, "matched_ingredients");
            var e := OptRecipe(index, recipe).value.entries;
      if !Truthy(matched) then Lookup(e, "matched_ingredients") == None
      else
        && Iterate(matched).Ok?
        && Lookup(e, "matched_ingredients").Some? && Lookup(e, "matched_ingredients").value.JArr?
        && |Lookup(e, "matched_ingredients").value.items| == |Iterate(matched).value|
        && forall k :: 0 <= k < |Iterate(matched).value|
             ==> OptIngredient(index, Iterate(matched).value[k]) == Ok(Lookup(e, "matched_ingredients").value.items[k])
  {
    OptRecipeShape(index, recipe);
    MatchedPartSpec(index, recipe);
    KeptMatched(recipe, MatchedPart(index, recipe).value);
  }

  // ---------------------------------------------------------------------------
  // The compact file
  // ---------------------------------------------------------------------------

  /** A store some matched ingredient names has a position in the index, which lists it there. */
  lemma NamedStoreIndexed(recipes: seq<Json>, k: nat, s: string)
    requires Stores(recipes).Ok? && k < |recipes| && RecipeNamesStore(recipes[k], s)
    ensures var ids := IdsOf(recipes); var index := Sorting.IndexMap(ids);
            s in index && index[s] < |ids| && ids[index[s]] == s
  {
    StoresSpec(recipes);
    StoreIndexSpec(recipes);
  }

  /** Falsy stores are never added, so the empty name has no position in the index. */
  lemma EmptyNotIndexed(recipes: seq<Json>)
    requires Stores(recipes).Ok?
    ensures [] !in Sorting.IndexMap(IdsOf(recipes))
  {
    StoresSpec(recipes);
    StoreIndexSpec(recipes);
  }

  /** The sorted stores are strictly ascending and are exactly the stores some matched ingredient names. */
  lemma IdsSpec(recipes: seq<Json>)
    requires Stores(recipes).Ok?
    ensures Sorting.Ascending(IdsOf(recipes))
    ensures forall s :: s in IdsOf(recipes) <==> exists k :: 0 <= k < |recipes| && RecipeNamesStore(recipes[k], s)
  {
    StoresSpec(recipes);
    StoreIndexSpec(recipes);
  }

  lemma OutputEntries(e: seq<(string, Json)>, updated: Json, deals: Json, total: Json, stores: Json, recipes: Json)
    requires e == [("last_updated", updated), ("total_deals", deals), ("total_recipes", total), ("stores", stores), ("recipes", recipes)]
    ensures Lookup(e, "stores") == Some(stores) && Lookup(e, "recipes") == Some(recipes)
  {
    LookupAt(e, "stores", 3);
    LookupAt(e, "recipes", 4);
  }

  lemma OutputMetadata(e: seq<(string, Json)>, updated: Json, deals: Json, total: Json, stores: Json, recipes: Json)
    requires e == [("last_updated", updated), ("total_deals", deals), ("total_recipes", total), ("stores", stores), ("recipes", recipes)]
    ensures Lookup(e, "last_updated") == Some(updated) && Lookup(e, "total_deals") == Some(deals)
    ensures Lookup(e, "total_recipes") == Some(total)
  {
    LookupAt(e, "total_recipes", 2);
  }

  lemma OptimizeShape(data: Json)
    requires Optimize(data).Ok?
    ensures RecipesOf(data).Ok? && Stores(RecipesOf(data).value).Ok?
    ensures var recipes := RecipesOf(data).value; var ids := IdsOf(recipes);
      && MapChecked(recipes, RecipeOptimizer(Sorting.IndexMap(ids))).Ok?
      && Optimize(data).value
         == JObj([("last_updated", Get(data, "last_updated")), ("total_deals", Get(data, "total_deals")),
                  ("total_recipes", Get(data, "total_recipes")), ("stores", JArr(StrList(ids))),
                  ("recipes", JArr(MapChecked(recipes, RecipeOptimizer(Sorting.IndexMap(ids))).value))])
  {
  }

  /** The three metadata fields are copied with `data.get`, so an absent one becomes null. */
  lemma OptimizeMetadata(data: Json)
    requires Optimize(data).Ok?
    ensures var e := Optimize(data).value.entries;
      && Lookup(e, "last_updated") == Some(Get(data, "last_updated"))
      && Lookup(e, "total_deals") == Some(Get(data, "total_deals"))
      && Lookup(e, "total_recipes") == Some(Get(data, "total_recipes"))
  {
    OptimizeShape(data);
    var recipes := RecipesOf(data).value;
    var ids := IdsOf(recipes);
    OutputMetadata(Optimize(data).value.entries, Get(data, "last_updated"), Get(data, "total_deals"),
                  Get(data, "total_recipes"), JArr(StrList(ids)),
                  JArr(MapChecked(recipes, RecipeOptimizer(Sorting.IndexMap(ids))).value));
  }

  /**
   * The `stores` list is strictly ascending (so without repeats) and holds exactly the stores
   * some matched ingredient names.
   */
  lemma OptimizeStores(data: Json)
    requires Optimize(data).Ok?
    ensures RecipesOf(data).Ok? && Stores(RecipesOf(data).value).Ok?
    ensures var recipes := RecipesOf(data).value; var ids := IdsOf(recipes);
      && Lookup(Optimize(data).value.entries, "stores") == Some(JArr(StrList(ids)))
      && Sorting.Ascending(ids)
      && forall s :: s in ids <==> exists k :: 0 <= k < |recipes| && RecipeNamesStore(recipes[k], s)
  {
    OptimizeShape(data);
    var recipes := RecipesOf(data).value;
    var ids := IdsOf(recipes);
    OutputEntries(Optimize(data).value.entries, Get(data, "last_updated"), Get(data, "total_deals"),
                  Get(data, "total_recipes"), JArr(StrList(ids)),
                  JArr(MapChecked(recipes, RecipeOptimizer(Sorting.IndexMap(ids))).value));
    IdsSpec(recipes);
  }

  /** One compact recipe per original recipe, in the original order. */
  lemma OptimizeRecipes(data: Json)
    requires Optimize(data).Ok?
    ensures RecipesOf(data).Ok? && Stores(RecipesOf(data).value).Ok?
    ensures var recipes := RecipesOf(data).value; var index := Sorting.IndexMap(IdsOf(recipes));
            var out := Lookup(Optimize(data).value.entries, "recipes");
      && out.Some? && out.value.JArr? && |out.value.items| == |recipes|
      && forall k :: 0 <= k < |recipes| ==> OptRecipe(index, recipes[k]) == Ok(out.value.items[k])
  {
    OptimizeShape(data);
    var recipes := RecipesOf(data).value;
    var ids := IdsOf(recipes);
    OutputEntries(Optimize(data).value.entries, Get(data, "last_updated"), Get(data, "total_deals"),
                  Get(data, "total_recipes"), JArr(StrList(ids)),
                  JArr(MapChecked(recipes, RecipeOptimizer(Sorting.IndexMap(ids))).value));
    MapCheckedOk(recipes, RecipeOptimizer(Sorting.IndexMap(ids)));
  }

  /**
   * The index covers every store the second loop looks up: a non-empty string store of a
   * matched ingredient resolves to its own position in `stores`, and any other hashable falsy
   * store resolves to None.
   */
  lemma StoreIdResolves(recipes: seq<Json>, k: nat, j: nat)
    requires Stores(recipes).Ok? && k < |recipes| && recipes[k].JObj?
    requires Truthy(Get(recipes[k], "matched_ingredients")) && Iterate(Get(recipes[k], "matched_ingredients")).Ok?
    requires j < |Iterate(Get(recipes[k], "matched_ingredients")).value|
    ensures var ing := Iterate(Get(recipes[k], "matched_ingredients")).value[j];
            var ids := IdsOf(recipes); var index := Sorting.IndexMap(ids);
      ing.JObj? ==>
        var store := Get(ing, "deal_store");
        && (Truthy(store) && store.JStr? ==> store.s in index && index[store.s] < |ids| && ids[index[store.s]] == store.s)
        && (!Truthy(store) && Hashable(store) ==> StoreId(index, store) == Ok(JNull))
  {
    var recipe := recipes[k];
    var ings := Iterate(Get(recipe, "matched_ingredients")).value;
    var ing := ings[j];
    assert EntriesOf(recipe).value == ings;
    if ing.JObj? {
      var store := Get(ing, "deal_store");
      if Truthy(store) && store.JStr? {
        assert NamesStore(ing, store.s);
        NamedStoreIndexed(recipes, k, store.s);
      }
      EmptyNotIndexed(recipes);
    }
  }
}
