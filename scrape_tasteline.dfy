/**
 * scrape_tasteline.py without the HTTP client: `parse_recipe`, which turns one record of the
 * WordPress REST API into a recipe, and the rating filter and sort of `main`. The two lookup
 * tables (ingredient id to name, unit id to name) and the fetched records are inputs.
 */
module ScrapeTasteline {
  import opened Wrappers
  import opened Text
  import opened Json
  import opened Seqs
  import opened Sorting

  /** Recipes rated below this are skipped. */
  const MinRating: real := 4.0

  // ---------------------------------------------------------------------------
  // Python's str(), int() and float() on a JSON value
  // ---------------------------------------------------------------------------

  /**
   * The parts of Python's built-in conversions that are not spelled out here: `repr` of a
   * float, list or dict, and the parsing of a string by `int()` and `float()` (None when the
   * string is not a number, which Python reports as ValueError).
   */
  datatype Conversions = Conversions(
    repr: Json -> string,
    parseInt: string -> Option<int>,
    parseFloat: string -> Option<real>)

  /** `int(f)` for a float: truncation toward zero. */
  function Trunc(f: real): (n: int)
    ensures f >= 0.0 ==> n as real <= f < n as real + 1.0
    ensures f < 0.0 ==> n as real - 1.0 < f <= n as real
  {
    if f >= 0.0 then f.Floor else -((-f).Floor)
  }

  /** Python's `int(x)`: ValueError on a string that is not an integer, TypeError on None, a list or a dict. */
  function ToInt(j: Json, conv: Conversions): Checked<int> {
    match j
    case JBool(b) => Ok(if b then 1 else 0)
    case JInt(i) => Ok(i)
    case JFloat(f) => Ok(Trunc(f))
    case JStr(s) => if conv.parseInt(s).Some? then Ok(conv.parseInt(s).value) else Raised
    case _ => Raised
  }

  /** Python's `float(x)`: ValueError on a string that is not a number, TypeError on None, a list or a dict. */
  function ToFloat(j: Json, conv: Conversions): Checked<real> {
    if IsNumber(j) then Ok(NumberValue(j))
    else if j.JStr? && conv.parseFloat(j.s).Some? then Ok(conv.parseFloat(j.s).value)
    else Raised
  }

  // ---------------------------------------------------------------------------
  // Lookup tables
  // ---------------------------------------------------------------------------

  /** A dict built from API ids: keyed by the value Python hashes (see `Canon`). */
  type Table = map<Json, Json>

  /** `table.get(key, default)`: TypeError when the key is a list or a dict. */
  function TableGet(table: Table, key: Json, default: Json): (r: Checked<Json>)
    ensures r.Raised? <==> !Hashable(key)
    ensures r.Ok? && Canon(key) in table ==> r.value == table[Canon(key)]
    ensures r.Ok? && Canon(key) !in table ==> r.value == default
  {
    if !Hashable(key) then Raised
    else if Canon(key) in table then Ok(table[Canon(key)])
    else Ok(default)
  }

  /** What the loops iterate over: the values of a dict, the items of a list, and nothing otherwise. */
  function Items(j: Json): (r: seq<Json>)
    ensures j.JObj? ==> |r| == |j.entries| && forall k :: 0 <= k < |r| ==> r[k] == j.entries[k].1
    ensures j.JArr? ==> r == j.items
    ensures !j.JObj? && !j.JArr? ==> r == []
  {
    match j
    case JObj(entries) => Values(entries)
    case JArr(items) => items
    case _ => []
  }

  // ---------------------------------------------------------------------------
  // Ingredients
  // ---------------------------------------------------------------------------

  /** One ingredient item: the full text and the simplified (lowercased) name. */
  datatype Ingredient = Ingredient(full: string, simplified: string)

  /** The name: the lookup entry for ingredientId, else the comment when truthy, else 'unknown'. */
  function IngredientName(ing: Json, names: Table): Checked<Json>
    requires ing.JObj?
  {
    var comment := GetOr(ing, "comment", JStr(""));
    TableGet(names, Get(ing, "ingredientId"), if Truthy(comment) then comment else JStr("unknown"))
  }

  /** The unit name: the lookup entry for unitId, else ''. */
  function UnitName(ing: Json, units: Table): Checked<Json>
    requires ing.JObj?
  {
    TableGet(units, Get(ing, "unitId"), JStr(""))
  }

  /** The `parts` list: `str(quantity)` when truthy, the unit when truthy, then the name. */
  function Parts(quantity: Json, unit: Json, name: string, conv: Conversions): seq<string>
    requires !Truthy(unit) || unit.JStr?
  {
    (if Truthy(quantity) then [Str(quantity, conv.repr)] else [])
    + (if Truthy(unit) then [unit.s] else [])
    + [name]
  }

  /**
   * One pass of the ingredient loop. `.get` on an item that is not a dict raises, and so do
   * `' '.join` and `.lower()` when the name or a truthy unit is not a string.
   */
  function ParseIngredient(ing: Json, names: Table, units: Table, conv: Conversions): Checked<Ingredient> {
    if !ing.JObj? then Raised
    else
      match IngredientName(ing, names)
      case Raised => Raised
      case Ok(name) =>
        match UnitName(ing, units)
        case Raised => Raised
        case Ok(unit) =>
          if !name.JStr? || (Truthy(unit) && !unit.JStr?) then Raised
          else
            var quantity := GetOr(ing, "quantity", JStr(""));
            Ok(Ingredient(Join(Parts(quantity, unit, name.s, conv), " "), Lower(name.s)))
  }

  function IngredientParser(names: Table, units: Table, conv: Conversions): Json -> Checked<Ingredient> {
    ing => ParseIngredient(ing, names, units, conv)
  }

  function Fulls(ings: seq<Ingredient>): (r: seq<string>)
    ensures |r| == |ings| && forall k :: 0 <= k < |ings| ==> r[k] == ings[k].full
  {
    seq(|ings|, k requires 0 <= k < |ings| => ings[k].full)
  }

  function Simples(ings: seq<Ingredient>): (r: seq<string>)
    ensures |r| == |ings| && forall k :: 0 <= k < |ings| ==> r[k] == ings[k].simplified
  {
    seq(|ings|, k requires 0 <= k < |ings| => ings[k].simplified)
  }

  /** The `ingredients` and `simplified_ingredients` lists the loop builds, or the exception it raises. */
  function IngredientColumns(items: seq<Json>, names: Table, units: Table, conv: Conversions): Checked<(seq<string>, seq<string>)> {
    match MapChecked(items, IngredientParser(names, units, conv))
    case Raised => Raised
    case Ok(ings) => Ok((Fulls(ings), Simples(ings)))
  }

  /** One pass of the ingredient loop, building the `parts` list. */
  method ParseItem(ing: Json, names: Table, units: Table, conv: Conversions) returns (r: Checked<Ingredient>)
    ensures r == ParseIngredient(ing, names, units, conv)
  {
    if !ing.JObj? {
      return Raised;
    }
    var name := IngredientName(ing, names);
    var unit := UnitName(ing, units);
    if name.Raised? || unit.Raised? || !name.value.JStr? || (Truthy(unit.value) && !unit.value.JStr?) {
      return Raised;
    }
    var quantity := GetOr(ing, "quantity", JStr(""));
    var parts: seq<string> := [];
    if Truthy(quantity) {
      parts := parts + [Str(quantity, conv.repr)];
    }
    if Truthy(unit.value) {
      parts := parts + [unit.value.s];
    }
    parts := parts + [name.value.s];
    assert parts == Parts(quantity, unit.value, name.value.s, conv);
    r := Ok(Ingredient(Join(parts, " "), Lower(name.value.s)));
  }

  /** The ingredient loop of `parse_recipe`, appending to both lists. */
  method ParseIngredients(items: seq<Json>, names: Table, units: Table, conv: Conversions)
    returns (r: Checked<(seq<string>, seq<string>)>)
    ensures r == IngredientColumns(items, names, units, conv)
  {
    var f := IngredientParser(names, units, conv);
    var ingredients: seq<string> := [];
    var simplified: seq<string> := [];
    var i := 0;
    while i < |items|
      invariant 0 <= i <= |items|
      invariant MapChecked(items[..i], f).Ok?
      invariant ingredients == Fulls(MapChecked(items[..i], f).value)
      invariant simplified == Simples(MapChecked(items[..i], f).value)
    {
      MapCheckedSnoc(items, f, i);
      var ing := ParseItem(items[i], names, units, conv);
      assert f(items[i]) == ing;
      if ing.Raised? {
        MapCheckedRaisedPersists(items, f, i + 1);
        return Raised;
      }
      ingredients := ingredients + [ing.value.full];
      simplified := simplified + [ing.value.simplified];
      i := i + 1;
    }
    assert items[..i] == items;
    r := Ok((ingredients, simplified));
  }

  /** Both lists have one entry per item, in item order, and the loop raises exactly when an item does. */
  lemma IngredientsOneToOne(items: seq<Json>, names: Table, units: Table, conv: Conversions)
    ensures IngredientColumns(items, names, units, conv).Raised?
        <==> exists k :: 0 <= k < |items| && ParseIngredient(items[k], names, units, conv).Raised?
    ensures IngredientColumns(items, names, units, conv).Ok? ==>
      var (full, simple) := IngredientColumns(items, names, units, conv).value;
      |full| == |items| && |simple| == |items| &&
      forall k :: 0 <= k < |items| ==> ParseIngredient(items[k], names, units, conv) == Ok(Ingredient(full[k], simple[k]))
  {
    var f := IngredientParser(names, units, conv);
    MapCheckedRaised(items, f);
    if MapChecked(items, f).Ok? {
      MapCheckedOk(items, f);
    }
  }

  /** `' '.join` of the parts: each truthy part followed by a space, then the name. */
  lemma JoinParts(quantity: Json, unit: Json, name: string, conv: Conversions)
    requires !Truthy(unit) || unit.JStr?
    ensures Join(Parts(quantity, unit, name, conv), " ")
         == (if Truthy(quantity) then Str(quantity, conv.repr) + " " else "")
          + (if Truthy(unit) then unit.s + " " else "")
          + name
  {
    var ps := Parts(quantity, unit, name, conv);
    if Truthy(quantity) && Truthy(unit) {
      assert ps == [Str(quantity, conv.repr), unit.s, name];
      assert ps[1..] == [unit.s, name] && ps[1..][1..] == [name];
      assert Join(ps[1..], " ") == unit.s + " " + name;
      assert Join(ps, " ") == Str(quantity, conv.repr) + " " + (unit.s + " " + name);
    } else if Truthy(quantity) {
      assert ps == [Str(quantity, conv.repr), name] && ps[1..] == [name];
    } else if Truthy(unit) {
      assert ps == [unit.s, name] && ps[1..] == [name];
    } else {
      assert ps == [name];
    }
  }

  /**
   * An item that is a dict with a string name (and a string unit when truthy) yields the
   * text "quantity unit name" without its falsy parts and the lowercased name.
   */
  lemma IngredientText(ing: Json, names: Table, units: Table, conv: Conversions)
    requires ing.JObj? && Hashable(Get(ing, "ingredientId")) && Hashable(Get(ing, "unitId"))
    ensures var name := IngredientName(ing, names).value;
            var unit := UnitName(ing, units).value;
            var quantity := GetOr(ing, "quantity", JStr(""));
            var r := ParseIngredient(ing, names, units, conv);
            (r.Ok? <==> name.JStr? && (!Truthy(unit) || unit.JStr?)) &&
            (r.Ok? ==>
               r.value.simplified == Lower(name.s) &&
               r.value.full == (if Truthy(quantity) then Str(quantity, conv.repr) + " " else "")
                             + (if Truthy(unit) then unit.s + " " else "")
                             + name.s)
  {
    var name := IngredientName(ing, names).value;
    var unit := UnitName(ing, units).value;
    if name.JStr? && (!Truthy(unit) || unit.JStr?) {
      JoinParts(GetOr(ing, "quantity", JStr("")), unit, name.s, conv);
    }
  }

  /** The name comes from the lookup table, else from a truthy comment, else it is 'unknown'. */
  lemma IngredientNameSource(ing: Json, names: Table)
    requires ing.JObj? && Hashable(Get(ing, "ingredientId"))
    ensures var id := Get(ing, "ingredientId");
            var comment := GetOr(ing, "comment", JStr(""));
            var name := IngredientName(ing, names);
            name.Ok? &&
            (Canon(id) in names ==> name.value == names[Canon(id)]) &&
            (Canon(id) !in names && Truthy(comment) ==> name.value == comment) &&
            (Canon(id) !in names && !Truthy(comment) ==> name.value == JStr("unknown"))
  {
  }

  /** A missing unit id, or one the table lacks, leaves the unit out of the text. */
  lemma MissingUnitOmitted(ing: Json, units: Table)
    requires ing.JObj? && Hashable(Get(ing, "unitId")) && Canon(Get(ing, "unitId")) !in units
    ensures UnitName(ing, units) == Ok(JStr("")) && !Truthy(UnitName(ing, units).value)
  {
  }

  // ---------------------------------------------------------------------------
  // Instructions
  // ---------------------------------------------------------------------------

  /** The sort key `x.get('order', 0) if isinstance(x, dict) else 0`. */
  function OrderKey(x: Json): Json {
    if x.JObj? then GetOr(x, "order", JInt(0)) else JInt(0)
  }

  /** The numeric order of a step (0 when its key is not a number). */
  function Order(x: Json): real {
    if IsNumber(OrderKey(x)) then NumberValue(OrderKey(x)) else 0.0
  }

  /** Ascending by order, written as a descending sort on the negated order. */
  function ByOrder(x: Json): Key {
    (-Order(x), 0.0)
  }

  /** `sorted` compares keys only when there are two or more; numbers compare with numbers. */
  predicate Comparable(items: seq<Json>) {
    |items| < 2 || forall k :: 0 <= k < |items| ==> IsNumber(OrderKey(items[k]))
  }

  /** `sorted(step_items, key=...)`: TypeError when keys of different kinds meet. */
  function SortedSteps(items: seq<Json>): Checked<seq<Json>> {
    if Comparable(items) then Ok(SortDesc(items, ByOrder)) else Raised
  }

  /** `step.get('content') or step.get('description', '')`. */
  function StepText(step: Json): Json
    requires step.JObj?
  {
    var content := Get(step, "content");
    if Truthy(content) then content else GetOr(step, "description", JStr(""))
  }

  /** What one pass of the instruction loop appends. */
  function StepInstruction(i: nat, step: Json): seq<Json> {
    if step.JObj? && Truthy(StepText(step)) then [JObj([("text", StepText(step))])] else []
  }

  /** The `instructions` list, or the exception the sort raises. */
  function Instructions(stepsData: Json): Checked<seq<Json>> {
    match SortedSteps(Items(stepsData))
    case Raised => Raised
    case Ok(steps) => Ok(FlatMap(steps, StepInstruction))
  }

  /** The instruction loop of `parse_recipe`. */
  method ParseInstructions(stepsData: Json) returns (r: Checked<seq<Json>>)
    ensures r == Instructions(stepsData)
  {
    var sorted := SortedSteps(Items(stepsData));
    if sorted.Raised? {
      return Raised;
    }
    var steps := sorted.value;
    var instructions: seq<Json> := [];
    var i := 0;
    while i < |steps|
      invariant 0 <= i <= |steps|
      invariant instructions == FlatMap(steps[..i], StepInstruction)
    {
      FlatMapSnoc(steps, StepInstruction, i);
      var step := steps[i];
      if step.JObj? {
        var text := StepText(step);
        if Truthy(text) {
          instructions := instructions + [JObj([("text", text)])];
        } else {
          assert instructions + [] == instructions;
        }
      } else {
        assert instructions + [] == instructions;
      }
      i := i + 1;
    }
    assert steps[..i] == steps;
    r := Ok(instructions);
  }

  /**
   * The steps are taken in ascending order, as a rearrangement of the items that keeps steps
   * with equal order in their original order; the sort raises only on keys it cannot compare.
   */
  lemma StepsSorted(items: seq<Json>, k: Key)
    ensures SortedSteps(items).Raised? <==> !Comparable(items)
    ensures SortedSteps(items).Ok? ==>
      var steps := SortedSteps(items).value;
      multiset(steps) == multiset(items) &&
      (forall i, j :: 0 <= i < j < |steps| ==> Order(steps[i]) <= Order(steps[j])) &&
      WithKey(steps, ByOrder, k) == WithKey(items, ByOrder, k)
  {
    if Comparable(items) {
      var steps := SortDesc(items, ByOrder);
      SortDescPermutes(items, ByOrder);
      SortDescStable(items, ByOrder, k);
      forall i, j | 0 <= i < j < |steps|
        ensures Order(steps[i]) <= Order(steps[j])
      {
        assert !Below(ByOrder(steps[i]), ByOrder(steps[j]));
      }
    }
  }

  /**
   * Every instruction is `{'text': t}` for the truthy content, else description, of some dict
   * step; and every dict step with such a text contributes one.
   */
  lemma InstructionTexts(stepsData: Json, t: Json)
    requires Instructions(stepsData).Ok?
    ensures JObj([("text", t)]) in Instructions(stepsData).value
        <==> exists k :: 0 <= k < |Items(stepsData)| && Items(stepsData)[k].JObj?
                          && Truthy(t) && StepText(Items(stepsData)[k]) == t
  {
    var items := Items(stepsData);
    var steps := SortDesc(items, ByOrder);
    var y := JObj([("text", t)]);
    FlatMapMember(steps, StepInstruction, y);
    SortDescPermutes(items, ByOrder);
    if y in Instructions(stepsData).value {
      var k :| 0 <= k < |steps| && y in StepInstruction(k, steps[k]);
      assert steps[k] in multiset(items);
      var m :| 0 <= m < |items| && items[m] == steps[k];
    }
    if exists m :: 0 <= m < |items| && items[m].JObj? && Truthy(t) && StepText(items[m]) == t {
      var m :| 0 <= m < |items| && items[m].JObj? && Truthy(t) && StepText(items[m]) == t;
      assert items[m] in multiset(steps);
      var k :| 0 <= k < |steps| && steps[k] == items[m];
      assert y in StepInstruction(k, steps[k]);
    }
  }

  /** Every instruction has that shape with a truthy text. */
  lemma InstructionShape(stepsData: Json, i: nat)
    requires Instructions(stepsData).Ok? && i < |Instructions(stepsData).value|
    ensures var x := Instructions(stepsData).value[i];
            x.JObj? && |x.entries| == 1 && x.entries[0].0 == "text" && Truthy(x.entries[0].1)
  {
    var steps := SortDesc(Items(stepsData), ByOrder);
    var x := Instructions(stepsData).value[i];
    FlatMapMember(steps, StepInstruction, x);
  }

  // ---------------------------------------------------------------------------
  // Time, rating and reviews
  // ---------------------------------------------------------------------------

  /** `f'PT{int(total_duration) // 60}M'` when totalDuration is truthy; conversion errors give None. */
  function DurationIso(info: Json, conv: Conversions): Option<string>
    requires info.JObj?
  {
    var total := Get(info, "totalDuration");
    if !Truthy(total) then None
    else
      match ToInt(total, conv)
      case Raised => None
      case Ok(seconds) => Some("PT" + IntToString(seconds / 60) + "M")
  }

  /** The time is present exactly for a truthy, convertible duration, and holds its whole minutes. */
  lemma DurationMinutes(info: Json, conv: Conversions)
    requires info.JObj?
    ensures var total := Get(info, "totalDuration");
            DurationIso(info, conv).Some? <==> Truthy(total) && ToInt(total, conv).Ok?
    ensures DurationIso(info, conv).Some? ==>
      var seconds := ToInt(Get(info, "totalDuration"), conv).value;
      exists m: int :: DurationIso(info, conv).value == "PT" + IntToString(m) + "M"
                       && 60 * m <= seconds < 60 * m + 60
  {
    if DurationIso(info, conv).Some? {
      var seconds := ToInt(Get(info, "totalDuration"), conv).value;
      var m := seconds / 60;
      assert 60 * m <= seconds < 60 * m + 60;
      assert DurationIso(info, conv).value == "PT" + IntToString(m) + "M";
    }
  }

  /**
   * `rating_data.get('rating') if rating_data else None`, then `float(...)` with its errors
   * caught; `.get` on a truthy non-dict raises.
   */
  function RatingOf(ratingData: Json, conv: Conversions): Checked<Option<real>> {
    if !Truthy(ratingData) then Ok(None)
    else if !ratingData.JObj? then Raised
    else
      var rating := Get(ratingData, "rating");
      if rating.JNull? then Ok(None)
      else
        match ToFloat(rating, conv)
        case Raised => Ok(None)
        case Ok(f) => Ok(Some(f))
  }

  /** A present rating is the float value of the one given; a failed conversion drops it. */
  lemma RatingSpec(ratingData: Json, conv: Conversions)
    ensures RatingOf(ratingData, conv).Raised? <==> Truthy(ratingData) && !ratingData.JObj?
    ensures RatingOf(ratingData, conv).Ok? && RatingOf(ratingData, conv).value.Some? <==>
      Truthy(ratingData) && ratingData.JObj? && !Get(ratingData, "rating").JNull?
      && ToFloat(Get(ratingData, "rating"), conv).Ok?
    ensures RatingOf(ratingData, conv).Ok? && RatingOf(ratingData, conv).value.Some? ==>
      RatingOf(ratingData, conv).value.value == ToFloat(Get(ratingData, "rating"), conv).value
  {
  }

  /** `int(rating_data.get('votes', 0)) if rating_data else 0`; here a failed conversion raises. */
  function Reviews(ratingData: Json, conv: Conversions): Checked<int> {
    if !Truthy(ratingData) then Ok(0)
    else if !ratingData.JObj? then Raised
    else ToInt(GetOr(ratingData, "votes", JInt(0)), conv)
  }

  // ---------------------------------------------------------------------------
  // parse_recipe
  // ---------------------------------------------------------------------------

  /** The record `parse_recipe` returns. Fields copied from the API stay JSON values. */
  datatype Recipe = Recipe(
    name: Json,
    url: Json,
    description: Json,
    image: Json,
    time: Option<string>,
    servings: Json,
    category: Json,
    difficulty: Json,
    ingredients: seq<string>,
    simplifiedIngredients: seq<string>,
    instructions: seq<Json>,
    rating: Option<real>,
    reviews: int,
    source: string)

  /** The recipe a truthy `tasteline_recipe_data` dict yields, or the exception raised on the way. */
  function ParseData(recipe: Json, data: Json, names: Table, units: Table, conv: Conversions): Checked<Recipe>
    requires recipe.JObj? && data.JObj?
  {
    var info := GetOr(data, "recipe", JObj([]));
    if !info.JObj? then Raised
    else
      var ratingData := GetOr(info, "rating", JObj([]));
      match RatingOf(ratingData, conv)
      case Raised => Raised
      case Ok(rating) =>
        match IngredientColumns(Items(GetOr(data, "ingredients", JObj([]))), names, units, conv)
        case Raised => Raised
        case Ok(columns) =>
          match Instructions(GetOr(data, "steps", JObj([])))
          case Raised => Raised
          case Ok(instructions) =>
            var title := GetOr(recipe, "title", JObj([]));
            if !title.JObj? then Raised
            else
              match Reviews(ratingData, conv)
              case Raised => Raised
              case Ok(reviews) =>
                Ok(Recipe(
                  GetOr(title, "rendered", JStr("")),
                  GetOr(recipe, "link", JStr("")),
                  GetOr(info, "description", JStr("")),
                  GetOr(info, "image", JStr("")),
                  DurationIso(info, conv),
                  GetOr(info, "portions", JStr("")),
                  GetOr(info, "category", JStr("")),
                  GetOr(info, "difficulty", JStr("")),
                  columns.0,
                  columns.1,
                  instructions,
                  rating,
                  reviews,
                  "tasteline"))
  }

  /** `parse_recipe(recipe, ...)`: None without recipe data, else the record, or the exception raised. */
  function Parse(recipe: Json, names: Table, units: Table, conv: Conversions): Checked<Option<Recipe>> {
    if !recipe.JObj? then Raised
    else
      var meta := GetOr(recipe, "meta", JObj([]));
      if !meta.JObj? then Raised
      else
        var data := GetOr(meta, "tasteline_recipe_data", JObj([]));
        if !Truthy(data) then Ok(None)
        else if !data.JObj? then Raised
        else
          match ParseData(recipe, data, names, units, conv)
          case Raised => Raised
          case Ok(r) => Ok(Some(r))
  }

  /** `parse_recipe`, step by step. */
  method ParseRecipe(recipe: Json, names: Table, units: Table, conv: Conversions)
    returns (r: Checked<Option<Recipe>>)
    ensures r == Parse(recipe, names, units, conv)
  {
    if !recipe.JObj? {
      return Raised;
    }
    var meta := GetOr(recipe, "meta", JObj([]));
    if !meta.JObj? {
      return Raised;
    }
    var data := GetOr(meta, "tasteline_recipe_data", JObj([]));
    if !Truthy(data) {
      return Ok(None);
    }
    if !data.JObj? {
      return Raised;
    }
    var parsed := ParseRecipeData(recipe, data, names, units, conv);
    if parsed.Raised? {
      return Raised;
    }
    r := Ok(Some(parsed.value));
  }

  /** The part of `parse_recipe` after the check for recipe data. */
  method ParseRecipeData(recipe: Json, data: Json, names: Table, units: Table, conv: Conversions)
    returns (r: Checked<Recipe>)
    requires recipe.JObj? && data.JObj?
    ensures r == ParseData(recipe, data, names, units, conv)
  {
    var info := GetOr(data, "recipe", JObj([]));
    if !info.JObj? {
      return Raised;
    }
    var ratingData := GetOr(info, "rating", JObj([]));
    var rating := RatingOf(ratingData, conv);
    if rating.Raised? {
      return Raised;
    }
    var columns := ParseIngredients(Items(GetOr(data, "ingredients", JObj([]))), names, units, conv);
    if columns.Raised? {
      return Raised;
    }
    var instructions := ParseInstructions(GetOr(data, "steps", JObj([])));
    if instructions.Raised? {
      return Raised;
    }
    var title := GetOr(recipe, "title", JObj([]));
    if !title.JObj? {
      return Raised;
    }
    var reviews := Reviews(ratingData, conv);
    if reviews.Raised? {
      return Raised;
    }
    r := Ok(Recipe(
      GetOr(title, "rendered", JStr("")),
      GetOr(recipe, "link", JStr("")),
      GetOr(info, "description", JStr("")),
      GetOr(info, "image", JStr("")),
      DurationIso(info, conv),
      GetOr(info, "portions", JStr("")),
      GetOr(info, "category", JStr("")),
      GetOr(info, "difficulty", JStr("")),
      columns.value.0,
      columns.value.1,
      instructions.value,
      rating.value,
      reviews.value,
      "tasteline"));
  }

  /** A dict record is skipped (None) exactly when its recipe data is missing or falsy. */
  lemma NoDataNoRecipe(recipe: Json, names: Table, units: Table, conv: Conversions)
    requires recipe.JObj? && GetOr(recipe, "meta", JObj([])).JObj?
    ensures Parse(recipe, names, units, conv) == Ok(None)
        <==> !Truthy(GetOr(GetOr(recipe, "meta", JObj([])), "tasteline_recipe_data", JObj([])))
  {
  }

  /** A parsed recipe carries one ingredient and one simplified entry per ingredient item. */
  lemma ParsedIngredients(recipe: Json, data: Json, names: Table, units: Table, conv: Conversions)
    requires recipe.JObj? && data.JObj?
    requires ParseData(recipe, data, names, units, conv).Ok?
    ensures var r := ParseData(recipe, data, names, units, conv).value;
            var items := Items(GetOr(data, "ingredients", JObj([])));
            |r.ingredients| == |items| && |r.simplifiedIngredients| == |items| &&
            forall k :: 0 <= k < |items| ==>
              ParseIngredient(items[k], names, units, conv) == Ok(Ingredient(r.ingredients[k], r.simplifiedIngredients[k]))
  {
    IngredientsOneToOne(Items(GetOr(data, "ingredients", JObj([]))), names, units, conv);
  }

  // ---------------------------------------------------------------------------
  // The rating filter and sort of main
  // ---------------------------------------------------------------------------

  /** A recipe `main` keeps: it has a rating of at least MinRating. */
  predicate Passes(r: Recipe) {
    r.rating.Some? && r.rating.value >= MinRating
  }

  /** The kept recipes, in input order. */
  function Passed(ps: seq<Option<Recipe>>): seq<Recipe>
    decreases |ps|
  {
    if ps == [] then []
    else
      var last := ps[|ps| - 1];
      Passed(ps[..|ps| - 1]) + (if last.Some? && Passes(last.value) then [last.value] else [])
  }

  /** How many parsed recipes have no rating. */
  function NoRatingCount(ps: seq<Option<Recipe>>): nat
    decreases |ps|
  {
    if ps == [] then 0
    else
      var last := ps[|ps| - 1];
      NoRatingCount(ps[..|ps| - 1]) + (if last.Some? && last.value.rating.None? then 1 else 0)
  }

  /** How many parsed recipes are rated below MinRating. */
  function LowRatingCount(ps: seq<Option<Recipe>>): nat
    decreases |ps|
  {
    if ps == [] then 0
    else
      var last := ps[|ps| - 1];
      LowRatingCount(ps[..|ps| - 1])
      + (if last.Some? && last.value.rating.Some? && last.value.rating.value < MinRating then 1 else 0)
  }

  /** How many records had no recipe data. */
  function NoneCount(ps: seq<Option<Recipe>>): nat
    decreases |ps|
  {
    if ps == [] then 0 else NoneCount(ps[..|ps| - 1]) + (if ps[|ps| - 1].None? then 1 else 0)
  }

  /** The sort key `(x['rating'] or 0, x['reviews'] or 0)`. */
  function RatingKey(r: Recipe): Key {
    (if r.rating.Some? then r.rating.value else 0.0, r.reviews as real)
  }

  /** What `main` ends with: the sorted kept recipes and the two skip counters. */
  datatype Selection = Selection(recipes: seq<Recipe>, skippedNoRating: nat, skippedLowRating: nat)

  function RecipeParser(names: Table, units: Table, conv: Conversions): Json -> Checked<Option<Recipe>> {
    raw => Parse(raw, names, units, conv)
  }

  /** `main` after fetching, or the exception a record raises. */
  function Select(raws: seq<Json>, names: Table, units: Table, conv: Conversions): Checked<Selection> {
    match MapChecked(raws, RecipeParser(names, units, conv))
    case Raised => Raised
    case Ok(ps) => Ok(Selection(SortDesc(Passed(ps), RatingKey), NoRatingCount(ps), LowRatingCount(ps)))
  }

  /** The parse-and-filter loop of `main` and its in-place sort. */
  method SelectRecipes(raws: seq<Json>, names: Table, units: Table, conv: Conversions)
    returns (r: Checked<Selection>)
    ensures r == Select(raws, names, units, conv)
  {
    var recipes: seq<Recipe> := [];
    var skippedNoRating: nat := 0;
    var skippedLowRating: nat := 0;
    ghost var ps: seq<Option<Recipe>> := [];
    var i := 0;
    while i < |raws|
      invariant 0 <= i <= |raws|
      invariant |ps| == i && forall k :: 0 <= k < i ==> Parse(raws[k], names, units, conv) == Ok(ps[k])
      invariant recipes == Passed(ps)
      invariant skippedNoRating == NoRatingCount(ps)
      invariant skippedLowRating == LowRatingCount(ps)
    {
      var parsed := ParseRecipe(raws[i], names, units, conv);
      if parsed.Raised? {
        ParsingRaises(raws, names, units, conv, i);
        return Raised;
      }
      FilterStep(ps, parsed.value);
      ParsedPrefixStep(raws, names, units, conv, ps, parsed.value);
      ps := ps + [parsed.value];
      if parsed.value.Some? {
        var recipe := parsed.value.value;
        if recipe.rating.None? {
          skippedNoRating := skippedNoRating + 1;
        } else if recipe.rating.value < MinRating {
          skippedLowRating := skippedLowRating + 1;
        } else {
          recipes := recipes + [recipe];
        }
      }
      i := i + 1;
    }
    ParsingSucceeds(raws, names, units, conv, ps);
    recipes := SortDesc(recipes, RatingKey);
    r := Ok(Selection(recipes, skippedNoRating, skippedLowRating));
  }

  /** The records parsed so far, one more of them included. */
  lemma ParsedPrefixStep(raws: seq<Json>, names: Table, units: Table, conv: Conversions,
                         ps: seq<Option<Recipe>>, p: Option<Recipe>)
    requires |ps| < |raws| && forall k :: 0 <= k < |ps| ==> Parse(raws[k], names, units, conv) == Ok(ps[k])
    requires Parse(raws[|ps|], names, units, conv) == Ok(p)
    ensures forall k :: 0 <= k < |ps| + 1 ==> Parse(raws[k], names, units, conv) == Ok((ps + [p])[k])
  {
    forall k | 0 <= k < |ps| + 1
      ensures Parse(raws[k], names, units, conv) == Ok((ps + [p])[k])
    {
      if k < |ps| {
        assert (ps + [p])[k] == ps[k];
      }
    }
  }

  /** A record that raises makes the whole list comprehension raise. */
  lemma ParsingRaises(raws: seq<Json>, names: Table, units: Table, conv: Conversions, i: nat)
    requires i < |raws| && Parse(raws[i], names, units, conv).Raised?
    ensures MapChecked(raws, RecipeParser(names, units, conv)) == Raised
  {
    var f := RecipeParser(names, units, conv);
    assert f(raws[i]).Raised?;
    MapCheckedRaised(raws, f);
  }

  /** Records that all parse give the list of their results. */
  lemma ParsingSucceeds(raws: seq<Json>, names: Table, units: Table, conv: Conversions, ps: seq<Option<Recipe>>)
    requires |ps| == |raws| && forall k :: 0 <= k < |raws| ==> Parse(raws[k], names, units, conv) == Ok(ps[k])
    ensures MapChecked(raws, RecipeParser(names, units, conv)) == Ok(ps)
  {
    var f := RecipeParser(names, units, conv);
    assert forall k :: 0 <= k < |raws| ==> f(raws[k]) == Ok(ps[k]);
    MapCheckedAll(raws, f, ps);
  }

  /** What one pass of the filter loop adds to the kept list and the counters. */
  lemma FilterStep(ps: seq<Option<Recipe>>, p: Option<Recipe>)
    ensures var qs := ps + [p];
      Passed(qs) == (if p.Some? && Passes(p.value) then Passed(ps) + [p.value] else Passed(ps)) &&
      NoRatingCount(qs) == NoRatingCount(ps) + (if p.Some? && p.value.rating.None? then 1 else 0) &&
      LowRatingCount(qs)
        == LowRatingCount(ps) + (if p.Some? && p.value.rating.Some? && p.value.rating.value < MinRating then 1 else 0)
  {
    var qs := ps + [p];
    assert qs[..|qs| - 1] == ps;
    assert Passed(ps) + [] == Passed(ps);
  }

  /** A recipe is kept exactly when it was parsed and passes the rating filter. */
  lemma {:induction false} PassedExactly(ps: seq<Option<Recipe>>, x: Recipe)
    ensures x in Passed(ps) <==> Some(x) in ps && Passes(x)
    decreases |ps|
  {
    if ps != [] {
      var init := ps[..|ps| - 1];
      PassedExactly(init, x);
      assert ps == init + [ps[|ps| - 1]];
    }
  }

  /** Every record is counted once: kept, skipped without rating, skipped for a low rating, or without data. */
  lemma {:induction false} CountsAddUp(ps: seq<Option<Recipe>>)
    ensures |Passed(ps)| + NoRatingCount(ps) + LowRatingCount(ps) + NoneCount(ps) == |ps|
    decreases |ps|
  {
    if ps != [] {
      CountsAddUp(ps[..|ps| - 1]);
    }
  }

  /**
   * `main` keeps exactly the parsed recipes rated at least MinRating, each as often as it was
   * parsed, sorted by (rating, reviews) descending, and the counters cover every other record.
   */
  lemma SelectSpec(raws: seq<Json>, names: Table, units: Table, conv: Conversions, x: Recipe)
    ensures Select(raws, names, units, conv).Raised?
        <==> exists k :: 0 <= k < |raws| && Parse(raws[k], names, units, conv).Raised?
    ensures Select(raws, names, units, conv).Ok? ==>
      var s := Select(raws, names, units, conv).value;
      var ps := MapChecked(raws, RecipeParser(names, units, conv)).value;
      SortedDesc(s.recipes, RatingKey) &&
      multiset(s.recipes) == multiset(Passed(ps)) &&
      (x in s.recipes <==> Some(x) in ps && Passes(x)) &&
      |s.recipes| + s.skippedNoRating + s.skippedLowRating + NoneCount(ps) == |raws|
  {
    var f := RecipeParser(names, units, conv);
    MapCheckedRaised(raws, f);
    if MapChecked(raws, f).Ok? {
      var ps := MapChecked(raws, f).value;
      MapCheckedOk(raws, f);
      SortDescPermutes(Passed(ps), RatingKey);
      PassedExactly(ps, x);
      CountsAddUp(ps);
      assert x in SortDesc(Passed(ps), RatingKey) <==> x in multiset(SortDesc(Passed(ps), RatingKey));
    }
  }
}
