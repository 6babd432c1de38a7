/**
 * The statistics of monitor.py over already-loaded data files: counts per store and per
 * source, counts and percentages of records with a field set, the average rating, and the
 * five-bucket distribution of match percentages.
 */
module Monitor {
  import opened Wrappers
  import opened Json

  // ---------------------------------------------------------------------------
  // Counting dicts: `counts[key] = counts.get(key, 0) + 1`
  // ---------------------------------------------------------------------------

  /** A counting dict, as its entries in insertion order. Keys are compared as Python does (see `Canon`). */
  type Tally = seq<(Json, nat)>

  /** The count stored for `key`, or 0. */
  function CountOf(t: Tally, key: Json): nat {
    if t == [] then 0
    else if Canon(t[0].0) == Canon(key) then t[0].1
    else CountOf(t[1..], key)
  }

  /** The sum of all counts. */
  function Sum(t: Tally): nat {
    if t == [] then 0 else t[0].1 + Sum(t[1..])
  }

  /** The keys of the entries, as Python compares them. */
  function Keys(t: Tally): set<Json> {
    if t == [] then {} else {Canon(t[0].0)} + Keys(t[1..])
  }

  /** No key occurs twice: each entry's key is absent from the entries after it. */
  predicate KeysDistinct(t: Tally) {
    t == [] || (Canon(t[0].0) !in Keys(t[1..]) && KeysDistinct(t[1..]))
  }

  /** `counts[key] = counts.get(key, 0) + 1`: an existing entry keeps its place and its key. */
  function Bump(t: Tally, key: Json): Tally {
    if t == [] then [(key, 1)]
    else if Canon(t[0].0) == Canon(key) then [(t[0].0, t[0].1 + 1)] + t[1..]
    else [t[0]] + Bump(t[1..], key)
  }

  /** One more counted: the sum grows by one. */
  lemma {:induction false} BumpSum(t: Tally, key: Json)
    ensures Sum(Bump(t, key)) == Sum(t) + 1
  {
    if t != [] && Canon(t[0].0) != Canon(key) {
      BumpSum(t[1..], key);
      assert ([t[0]] + Bump(t[1..], key))[1..] == Bump(t[1..], key);
    } else if t != [] {
      assert ([(t[0].0, t[0].1 + 1)] + t[1..])[1..] == t[1..];
    }
  }

  /** Only the bumped key's count changes, and by one. */
  lemma {:induction false} BumpCount(t: Tally, key: Json, other: Json)
    ensures CountOf(Bump(t, key), other) == CountOf(t, other) + (if Canon(other) == Canon(key) then 1 else 0)
  {
    if t != [] && Canon(t[0].0) != Canon(key) {
      BumpCount(t[1..], key, other);
      assert ([t[0]] + Bump(t[1..], key))[1..] == Bump(t[1..], key);
    } else if t != [] {
      assert ([(t[0].0, t[0].1 + 1)] + t[1..])[1..] == t[1..];
    }
  }

  /** The keys after bumping: those before, plus `key`. */
  lemma {:induction false} BumpKeys(t: Tally, key: Json)
    ensures Keys(Bump(t, key)) == Keys(t) + {Canon(key)}
  {
    if t != [] && Canon(t[0].0) != Canon(key) {
      BumpKeys(t[1..], key);
      assert ([t[0]] + Bump(t[1..], key))[1..] == Bump(t[1..], key);
    } else if t != [] {
      assert ([(t[0].0, t[0].1 + 1)] + t[1..])[1..] == t[1..];
    }
  }

  /** Bumping keeps every key in one entry. */
  lemma {:induction false} BumpDistinct(t: Tally, key: Json)
    requires KeysDistinct(t)
    ensures KeysDistinct(Bump(t, key))
  {
    if t != [] && Canon(t[0].0) != Canon(key) {
      BumpDistinct(t[1..], key);
      BumpKeys(t[1..], key);
      assert ([t[0]] + Bump(t[1..], key))[1..] == Bump(t[1..], key);
    } else if t != [] {
      assert ([(t[0].0, t[0].1 + 1)] + t[1..])[1..] == t[1..];
    }
  }

  /** One pass of a counting loop: the key must be hashable to be a dict key. */
  function BumpStep(t: Tally, key: Json): Checked<Tally> {
    if Hashable(key) then Ok(Bump(t, key)) else Raised
  }

  /** The counting dict a loop over `keys` builds, or the TypeError an unhashable key raises. */
  function TallyOf(keys: seq<Json>): Checked<Tally> {
    FoldChecked(keys, [], BumpStep)
  }

  /** How many keys equal `key`. */
  function Occurrences(keys: seq<Json>, key: Json): nat
    decreases |keys|
  {
    if keys == [] then 0
    else Occurrences(keys[..|keys| - 1], key) + (if Canon(keys[|keys| - 1]) == Canon(key) then 1 else 0)
  }

  /**
   * A counting dict counts every key, each in one entry, as often as it occurs; the loop
   * raises exactly when some key is unhashable.
   */
  lemma {:induction false} TallySpec(keys: seq<Json>, key: Json)
    ensures TallyOf(keys).Raised? <==> exists k :: 0 <= k < |keys| && !Hashable(keys[k])
    ensures TallyOf(keys).Ok? ==>
      Sum(TallyOf(keys).value) == |keys| &&
      KeysDistinct(TallyOf(keys).value) &&
      CountOf(TallyOf(keys).value, key) == Occurrences(keys, key)
    decreases |keys|
  {
    if keys != [] {
      var init := keys[..|keys| - 1];
      var last := keys[|keys| - 1];
      TallySpec(init, key);
      assert forall k :: 0 <= k < |init| ==> init[k] == keys[k];
      if TallyOf(init).Ok? && Hashable(last) {
        var t := TallyOf(init).value;
        BumpSum(t, last);
        BumpDistinct(t, last);
        BumpCount(t, last, key);
      }
    }
  }

  // ---------------------------------------------------------------------------
  // Per-field helpers over lists of dicts
  // ---------------------------------------------------------------------------

  /** The lists are annotated `List[Dict[str, Any]]`. */
  predicate Dicts(records: seq<Json>) {
    forall k :: 0 <= k < |records| ==> records[k].JObj?
  }

  /** `[r.get(field, default) for r in records]`. */
  function FieldValues(records: seq<Json>, field: string, default: Json): (r: seq<Json>)
    requires Dicts(records)
    ensures |r| == |records| && forall k :: 0 <= k < |records| ==> r[k] == GetOr(records[k], field, default)
  {
    seq(|records|, k requires 0 <= k < |records| => GetOr(records[k], field, default))
  }

  /** The counting loop `for r in records: key = r.get(field, default); counts[key] = counts.get(key, 0) + 1`. */
  method CountBy(records: seq<Json>, field: string, default: Json) returns (r: Checked<Tally>)
    requires Dicts(records)
    ensures r == TallyOf(FieldValues(records, field, default))
  {
    ghost var keys := FieldValues(records, field, default);
    var counts: Tally := [];
    var i := 0;
    while i < |records|
      invariant 0 <= i <= |records|
      invariant FoldChecked(keys[..i], [], BumpStep) == Ok(counts)
    {
      FoldCheckedSnoc(keys, [], BumpStep, i);
      var key := GetOr(records[i], field, default);
      if !Hashable(key) {
        FoldCheckedRaisedPersists(keys, [], BumpStep, i + 1);
        return Raised;
      }
      counts := Bump(counts, key);
      i := i + 1;
    }
    assert keys[..i] == keys;
    r := Ok(counts);
  }

  /** `sum(1 for r in records if r.get(field))`. */
  function CountTruthy(records: seq<Json>, field: string): (n: nat)
    requires Dicts(records)
    ensures n <= |records|
    decreases |records|
  {
    if records == [] then 0
    else
      CountTruthy(records[..|records| - 1], field)
      + (if Truthy(Get(records[|records| - 1], field)) then 1 else 0)
  }

  /** `[r[field] for r in records if r.get(field)]`. */
  function TruthyValues(records: seq<Json>, field: string): seq<Json>
    requires Dicts(records)
    decreases |records|
  {
    if records == [] then []
    else
      var last := Get(records[|records| - 1], field);
      TruthyValues(records[..|records| - 1], field) + (if Truthy(last) then [last] else [])
  }

  /** The collected values are the truthy ones, and there are as many as are counted. */
  lemma {:induction false} TruthyValuesSpec(records: seq<Json>, field: string)
    requires Dicts(records)
    ensures |TruthyValues(records, field)| == CountTruthy(records, field)
    ensures forall k :: 0 <= k < |TruthyValues(records, field)| ==> Truthy(TruthyValues(records, field)[k])
    decreases |records|
  {
    if records != [] {
      var init := records[..|records| - 1];
      assert Dicts(init) by {
        assert forall k :: 0 <= k < |init| ==> init[k] == records[k];
      }
      TruthyValuesSpec(init, field);
    }
  }

  /** `count / total * 100` when there are records, else 0. */
  function Percentage(count: nat, total: nat): (p: real)
    ensures total == 0 ==> p == 0.0
  {
    if total == 0 then 0.0 else count as real / total as real * 100.0
  }

  /** A part of the whole is between 0 and 100 percent of it, and is the share it stands for. */
  lemma PercentageBounds(count: nat, total: nat)
    requires count <= total
    ensures 0.0 <= Percentage(count, total) <= 100.0
    ensures total > 0 ==> Percentage(count, total) * total as real == count as real * 100.0
  {
    if total > 0 {
      var q := count as real / total as real;
      assert q * total as real == count as real;
      assert q <= 1.0 by {
        if q > 1.0 {
          assert q * total as real > 1.0 * total as real;
        }
      }
    }
  }

  /** Python's `sum(values)`: TypeError as soon as a value is not a number. */
  function SumNumbers(values: seq<Json>): Checked<real>
    decreases |values|
  {
    if values == [] then Ok(0.0)
    else
      match SumNumbers(values[..|values| - 1])
      case Raised => Raised
      case Ok(s) =>
        var last := values[|values| - 1];
        if IsNumber(last) then Ok(s + NumberValue(last)) else Raised
  }

  /** `sum(values) / len(values) if values else 0`. */
  function Mean(values: seq<Json>): Checked<real> {
    if values == [] then Ok(0.0)
    else
      match SumNumbers(values)
      case Raised => Raised
      case Ok(s) => Ok(s / |values| as real)
  }

  /** `sum` succeeds exactly when every value is a number. */
  lemma {:induction false} SumNumbersOk(values: seq<Json>)
    ensures SumNumbers(values).Ok? <==> forall k :: 0 <= k < |values| ==> IsNumber(values[k])
    decreases |values|
  {
    if values != [] {
      var init := values[..|values| - 1];
      SumNumbersOk(init);
      assert forall k :: 0 <= k < |init| ==> init[k] == values[k];
    }
  }

  /** The sum of numbers between `lo` and `hi` lies between `n * lo` and `n * hi`. */
  lemma SumNumbersBounds(values: seq<Json>, lo: real, hi: real)
    requires forall k :: 0 <= k < |values| ==> IsNumber(values[k]) && lo <= NumberValue(values[k]) <= hi
    ensures SumNumbers(values).Ok?
    ensures |values| as real * lo <= SumNumbers(values).value <= |values| as real * hi
  {
    SumAtLeast(values, lo);
    SumAtMost(values, hi);
  }

  lemma {:induction false} SumAtLeast(values: seq<Json>, lo: real)
    requires forall k :: 0 <= k < |values| ==> IsNumber(values[k]) && lo <= NumberValue(values[k])
    ensures SumNumbers(values).Ok? && |values| as real * lo <= SumNumbers(values).value
    decreases |values|
  {
    if values != [] {
      var init := values[..|values| - 1];
      assert forall k :: 0 <= k < |init| ==> init[k] == values[k];
      SumAtLeast(init, lo);
      var last := values[|values| - 1];
      assert SumNumbers(values).value == SumNumbers(init).value + NumberValue(last);
      assert |values| as real == |init| as real + 1.0;
      MulSucc(|init| as real, lo);
    }
  }

  lemma {:induction false} SumAtMost(values: seq<Json>, hi: real)
    requires forall k :: 0 <= k < |values| ==> IsNumber(values[k]) && NumberValue(values[k]) <= hi
    ensures SumNumbers(values).Ok? && SumNumbers(values).value <= |values| as real * hi
    decreases |values|
  {
    if values != [] {
      var init := values[..|values| - 1];
      assert forall k :: 0 <= k < |init| ==> init[k] == values[k];
      SumAtMost(init, hi);
      var last := values[|values| - 1];
      assert SumNumbers(values).value == SumNumbers(init).value + NumberValue(last);
      assert |values| as real == |init| as real + 1.0;
      MulSucc(|init| as real, hi);
    }
  }

  lemma MulSucc(n: real, x: real)
    ensures (n + 1.0) * x == n * x + x
  {
  }

  /** Dividing by a positive count keeps a bound. */
  lemma DivideBounds(s: real, n: real, lo: real, hi: real)
    requires n > 0.0 && n * lo <= s <= n * hi
    ensures lo <= s / n <= hi && s / n * n == s
  {
    assert s / n - lo == (s - n * lo) / n;
    assert hi - s / n == (n * hi - s) / n;
  }

  /** The mean of numbers between `lo` and `hi` lies between them; it is 0 for no values. */
  lemma MeanBounds(values: seq<Json>, lo: real, hi: real)
    requires forall k :: 0 <= k < |values| ==> IsNumber(values[k]) && lo <= NumberValue(values[k]) <= hi
    ensures Mean(values).Ok?
    ensures values == [] ==> Mean(values).value == 0.0
    ensures values != [] ==> lo <= Mean(values).value <= hi
    ensures values != [] ==> Mean(values).value * |values| as real == SumNumbers(values).value
  {
    SumNumbersBounds(values, lo, hi);
    if values != [] {
      var n := |values| as real;
      var total := SumNumbers(values).value;
      assert Mean(values).value == total / n;
      DivideBounds(total, n, lo, hi);
    }
  }

  // ---------------------------------------------------------------------------
  // analyze_deals
  // ---------------------------------------------------------------------------

  datatype DealStats = DealStats(
    total: nat,
    stores: Tally,
    withImages: nat,
    imagePercentage: real,
    withPrices: nat,
    pricePercentage: real,
    withComparisonPrices: nat)

  /** The store of each deal, 'Unknown' when it has none. */
  function StoreKeys(deals: seq<Json>): seq<Json>
    requires Dicts(deals)
  {
    FieldValues(deals, "store", JStr("Unknown"))
  }

  /** `analyze_deals(deals)`, or the TypeError an unhashable store raises. */
  function DealAnalysis(deals: seq<Json>): Checked<DealStats>
    requires Dicts(deals)
  {
    match TallyOf(StoreKeys(deals))
    case Raised => Raised
    case Ok(stores) =>
      var withImages := CountTruthy(deals, "image");
      var withPrices := CountTruthy(deals, "price");
      Ok(DealStats(
        |deals|,
        stores,
        withImages,
        Percentage(withImages, |deals|),
        withPrices,
        Percentage(withPrices, |deals|),
        CountTruthy(deals, "jfr_pris") + CountTruthy(deals, "ord_pris")))
  }

  method AnalyzeDeals(deals: seq<Json>) returns (r: Checked<DealStats>)
    requires Dicts(deals)
    ensures r == DealAnalysis(deals)
  {
    var stores := CountBy(deals, "store", JStr("Unknown"));
    if stores.Raised? {
      return Raised;
    }
    var withImages := CountTruthy(deals, "image");
    var withPrices := CountTruthy(deals, "price");
    var withJfr := CountTruthy(deals, "jfr_pris");
    var withOrd := CountTruthy(deals, "ord_pris");
    r := Ok(DealStats(
      |deals|,
      stores.value,
      withImages,
      Percentage(withImages, |deals|),
      withPrices,
      Percentage(withPrices, |deals|),
      withJfr + withOrd));
  }

  /**
   * The per-store counts add up to the number of deals, each store counted as often as it
   * occurs ('Unknown' for deals without one); the other counts are bounded by the total and
   * their percentages lie in [0, 100].
   */
  lemma DealStatsSpec(deals: seq<Json>, store: Json)
    requires Dicts(deals)
    ensures DealAnalysis(deals).Raised? <==> exists k :: 0 <= k < |deals| && !Hashable(GetOr(deals[k], "store", JStr("Unknown")))
    ensures DealAnalysis(deals).Ok? ==>
      var d := DealAnalysis(deals).value;
      d.total == |deals| && Sum(d.stores) == d.total && KeysDistinct(d.stores) &&
      CountOf(d.stores, store) == Occurrences(StoreKeys(deals), store) &&
      d.withImages <= d.total && d.withPrices <= d.total &&
      0.0 <= d.imagePercentage <= 100.0 && 0.0 <= d.pricePercentage <= 100.0 &&
      (d.total == 0 ==> d.imagePercentage == 0.0 && d.pricePercentage == 0.0) &&
      d.withComparisonPrices == CountTruthy(deals, "jfr_pris") + CountTruthy(deals, "ord_pris") &&
      d.withComparisonPrices <= 2 * d.total
  {
    TallySpec(StoreKeys(deals), store);
    PercentageBounds(CountTruthy(deals, "image"), |deals|);
    PercentageBounds(CountTruthy(deals, "price"), |deals|);
  }

  /** A deal without a store is counted under 'Unknown'. */
  lemma {:induction false} MissingStoreIsUnknown(deals: seq<Json>, k: nat)
    requires Dicts(deals) && k < |deals| && !HasKey(deals[k], "store")
    ensures Occurrences(StoreKeys(deals), JStr("Unknown")) > 0
  {
    OccurrencesAt(StoreKeys(deals), JStr("Unknown"), k);
  }

  /** A key at some position is counted. */
  lemma {:induction false} OccurrencesAt(keys: seq<Json>, key: Json, k: nat)
    requires k < |keys| && Canon(keys[k]) == Canon(key)
    ensures Occurrences(keys, key) > 0
    decreases |keys|
  {
    if k < |keys| - 1 {
      var init := keys[..|keys| - 1];
      assert init[k] == keys[k];
      OccurrencesAt(init, key, k);
    }
  }

  // ---------------------------------------------------------------------------
  // analyze_recipes
  // ---------------------------------------------------------------------------

  datatype RecipeStats = RecipeStats(
    total: nat,
    sources: Tally,
    withRatings: nat,
    averageRating: real,
    withImages: nat,
    imagePercentage: real,
    withNutrition: nat,
    nutritionPercentage: real)

  /** The source of each recipe, 'unknown' when it has none. */
  function SourceKeys(recipes: seq<Json>): seq<Json>
    requires Dicts(recipes)
  {
    FieldValues(recipes, "source", JStr("unknown"))
  }

  /** `analyze_recipes(recipes)`, or the TypeError an unhashable source or a non-numeric rating raises. */
  function RecipeAnalysis(recipes: seq<Json>): Checked<RecipeStats>
    requires Dicts(recipes)
  {
    match TallyOf(SourceKeys(recipes))
    case Raised => Raised
    case Ok(sources) =>
      match Mean(TruthyValues(recipes, "rating"))
      case Raised => Raised
      case Ok(average) =>
        var withImages := CountTruthy(recipes, "image");
        var withNutrition := CountTruthy(recipes, "nutrition");
        Ok(RecipeStats(
          |recipes|,
          sources,
          CountTruthy(recipes, "rating"),
          average,
          withImages,
          Percentage(withImages, |recipes|),
          withNutrition,
          Percentage(withNutrition, |recipes|)))
  }

  method AnalyzeRecipes(recipes: seq<Json>) returns (r: Checked<RecipeStats>)
    requires Dicts(recipes)
    ensures r == RecipeAnalysis(recipes)
  {
    var sources := CountBy(recipes, "source", JStr("unknown"));
    if sources.Raised? {
      return Raised;
    }
    var withRatings := CountTruthy(recipes, "rating");
    var average := Mean(TruthyValues(recipes, "rating"));
    if average.Raised? {
      return Raised;
    }
    var withImages := CountTruthy(recipes, "image");
    var withNutrition := CountTruthy(recipes, "nutrition");
    r := Ok(RecipeStats(
      |recipes|,
      sources.value,
      withRatings,
      average.value,
      withImages,
      Percentage(withImages, |recipes|),
      withNutrition,
      Percentage(withNutrition, |recipes|)));
  }

  /**
   * The per-source counts add up to the number of recipes, each source counted as often as it
   * occurs ('unknown' for recipes without one), and the other counts are bounded by the total.
   */
  lemma RecipeStatsSpec(recipes: seq<Json>, source: Json)
    requires Dicts(recipes)
    ensures TallyOf(SourceKeys(recipes)).Raised? ==> RecipeAnalysis(recipes).Raised?
    ensures RecipeAnalysis(recipes).Ok? ==>
      var d := RecipeAnalysis(recipes).value;
      d.total == |recipes| && Sum(d.sources) == d.total && KeysDistinct(d.sources) &&
      CountOf(d.sources, source) == Occurrences(SourceKeys(recipes), source) &&
      d.withRatings <= d.total && d.withImages <= d.total && d.withNutrition <= d.total &&
      0.0 <= d.imagePercentage <= 100.0 && 0.0 <= d.nutritionPercentage <= 100.0
  {
    TallySpec(SourceKeys(recipes), source);
    PercentageBounds(CountTruthy(recipes, "image"), |recipes|);
    PercentageBounds(CountTruthy(recipes, "nutrition"), |recipes|);
  }

  /**
   * The average rating is 0 without truthy ratings and otherwise their mean (see `MeanBounds`),
   * between the lowest and the highest of them.
   */
  lemma AverageRating(recipes: seq<Json>, lo: real, hi: real)
    requires Dicts(recipes)
    requires forall k :: 0 <= k < |TruthyValues(recipes, "rating")| ==>
      var v := TruthyValues(recipes, "rating")[k]; IsNumber(v) && lo <= NumberValue(v) <= hi
    ensures RecipeAnalysis(recipes).Ok? ==>
      var d := RecipeAnalysis(recipes).value;
      (d.withRatings == 0 ==> d.averageRating == 0.0) &&
      d.withRatings == |TruthyValues(recipes, "rating")| &&
      d.averageRating == Mean(TruthyValues(recipes, "rating")).value &&
      (d.withRatings > 0 ==> lo <= d.averageRating <= hi)
  {
    var ratings := TruthyValues(recipes, "rating");
    TruthyValuesSpec(recipes, "rating");
    MeanBounds(ratings, lo, hi);
    var d := RecipeAnalysis(recipes);
    if d.Ok? {
      assert d.value.averageRating == Mean(ratings).value;
      assert d.value.withRatings == |ratings|;
    }
  }

  /** A non-numeric truthy rating makes `sum` raise. */
  lemma TextRatingRaises(recipes: seq<Json>, k: nat)
    requires Dicts(recipes) && k < |TruthyValues(recipes, "rating")| && !IsNumber(TruthyValues(recipes, "rating")[k])
    ensures RecipeAnalysis(recipes).Raised?
  {
    SumNumbersOk(TruthyValues(recipes, "rating"));
  }

  // ---------------------------------------------------------------------------
  // analyze_matches
  // ---------------------------------------------------------------------------

  /** The five counters of `match_ranges`. */
  datatype Distribution = Distribution(upTo20: nat, upTo40: nat, upTo60: nat, upTo80: nat, above80: nat)

  /** Which range a percentage falls in: 0 for 0-20%, ..., 4 for 81-100%, by inclusive upper bounds. */
  function BucketOf(p: real): (b: nat)
    ensures b < 5
  {
    if p <= 20.0 then 0
    else if p <= 40.0 then 1
    else if p <= 60.0 then 2
    else if p <= 80.0 then 3
    else 4
  }

  /** Each range admits exactly the percentages between its bounds. */
  lemma BucketBounds(p: real)
    ensures BucketOf(p) == 0 <==> p <= 20.0
    ensures BucketOf(p) == 1 <==> 20.0 < p <= 40.0
    ensures BucketOf(p) == 2 <==> 40.0 < p <= 60.0
    ensures BucketOf(p) == 3 <==> 60.0 < p <= 80.0
    ensures BucketOf(p) == 4 <==> 80.0 < p
  {
  }

  function Counter(d: Distribution, b: nat): nat
    requires b < 5
  {
    if b == 0 then d.upTo20
    else if b == 1 then d.upTo40
    else if b == 2 then d.upTo60
    else if b == 3 then d.upTo80
    else d.above80
  }

  function Total(d: Distribution): nat {
    d.upTo20 + d.upTo40 + d.upTo60 + d.upTo80 + d.above80
  }

  /** `match_ranges[...] += 1` for range `b`. */
  function Increment(d: Distribution, b: nat): (r: Distribution)
    requires b < 5
    ensures Total(r) == Total(d) + 1
    ensures forall c :: 0 <= c < 5 ==> Counter(r, c) == Counter(d, c) + (if c == b then 1 else 0)
  {
    if b == 0 then d.(upTo20 := d.upTo20 + 1)
    else if b == 1 then d.(upTo40 := d.upTo40 + 1)
    else if b == 2 then d.(upTo60 := d.upTo60 + 1)
    else if b == 3 then d.(upTo80 := d.upTo80 + 1)
    else d.(above80 := d.above80 + 1)
  }

  /** `recipe.get('match_percentage', 0)`; `.get` on anything but a dict raises. */
  function MatchPercentage(recipe: Json): Checked<Json> {
    GetChecked(recipe, "match_percentage", JInt(0))
  }

  /** A recipe whose percentage can be compared with the bounds, and its range. */
  predicate Bucketable(recipe: Json) {
    MatchPercentage(recipe).Ok? && IsNumber(MatchPercentage(recipe).value)
  }

  function Bucket(recipe: Json): nat
    requires Bucketable(recipe)
  {
    BucketOf(NumberValue(MatchPercentage(recipe).value))
  }

  /** One pass of the bucketing loop: comparing a non-number with 20 raises TypeError. */
  function BucketStep(d: Distribution, recipe: Json): Checked<Distribution> {
    if Bucketable(recipe) then Ok(Increment(d, Bucket(recipe))) else Raised
  }

  const NoMatches := Distribution(0, 0, 0, 0, 0)

  function DistributionOf(recipes: seq<Json>): Checked<Distribution> {
    FoldChecked(recipes, NoMatches, BucketStep)
  }

  /** How many recipes fall in range `b`. */
  function InBucket(recipes: seq<Json>, b: nat): nat
    requires forall k :: 0 <= k < |recipes| ==> Bucketable(recipes[k])
    decreases |recipes|
  {
    if recipes == [] then 0
    else
      var init := recipes[..|recipes| - 1];
      assert forall k :: 0 <= k < |init| ==> init[k] == recipes[k];
      InBucket(init, b) + (if Bucket(recipes[|recipes| - 1]) == b then 1 else 0)
  }

  /** The bucketing loop. */
  method Distribute(recipes: seq<Json>) returns (r: Checked<Distribution>)
    ensures r == DistributionOf(recipes)
  {
    var ranges := NoMatches;
    var i := 0;
    while i < |recipes|
      invariant 0 <= i <= |recipes|
      invariant FoldChecked(recipes[..i], NoMatches, BucketStep) == Ok(ranges)
    {
      FoldCheckedSnoc(recipes, NoMatches, BucketStep, i);
      var recipe := recipes[i];
      if !recipe.JObj? {
        FoldCheckedRaisedPersists(recipes, NoMatches, BucketStep, i + 1);
        return Raised;
      }
      var pct := GetOr(recipe, "match_percentage", JInt(0));
      if !IsNumber(pct) {
        FoldCheckedRaisedPersists(recipes, NoMatches, BucketStep, i + 1);
        return Raised;
      }
      var p := NumberValue(pct);
      if p <= 20.0 {
        ranges := ranges.(upTo20 := ranges.upTo20 + 1);
      } else if p <= 40.0 {
        ranges := ranges.(upTo40 := ranges.upTo40 + 1);
      } else if p <= 60.0 {
        ranges := ranges.(upTo60 := ranges.upTo60 + 1);
      } else if p <= 80.0 {
        ranges := ranges.(upTo80 := ranges.upTo80 + 1);
      } else {
        ranges := ranges.(above80 := ranges.above80 + 1);
      }
      i := i + 1;
    }
    assert recipes[..i] == recipes;
    r := Ok(ranges);
  }

  /** The bucketing loop raises exactly when a recipe is not a dict or its percentage is not a number. */
  lemma {:induction false} DistributionRaises(recipes: seq<Json>)
    ensures DistributionOf(recipes).Raised? <==> exists k :: 0 <= k < |recipes| && !Bucketable(recipes[k])
    decreases |recipes|
  {
    if recipes != [] {
      var init := recipes[..|recipes| - 1];
      DistributionRaises(init);
      assert forall k :: 0 <= k < |init| ==> init[k] == recipes[k];
    }
  }

  /** One pass more of the bucketing loop. */
  lemma DistributionSnoc(recipes: seq<Json>)
    requires recipes != [] && DistributionOf(recipes).Ok?
    ensures var init := recipes[..|recipes| - 1];
            var last := recipes[|recipes| - 1];
            DistributionOf(init).Ok? && Bucketable(last) &&
            DistributionOf(recipes).value == Increment(DistributionOf(init).value, Bucket(last))
  {
  }

  /** Together the buckets count every recipe. */
  lemma {:induction false} DistributionTotal(recipes: seq<Json>)
    requires DistributionOf(recipes).Ok?
    ensures Total(DistributionOf(recipes).value) == |recipes|
    decreases |recipes|
  {
    if recipes != [] {
      DistributionSnoc(recipes);
      DistributionTotal(recipes[..|recipes| - 1]);
    }
  }

  /** Bucket `b` counts the recipes whose percentage falls in its range. */
  lemma {:induction false} DistributionCount(recipes: seq<Json>, b: nat)
    requires b < 5 && DistributionOf(recipes).Ok?
    ensures forall k :: 0 <= k < |recipes| ==> Bucketable(recipes[k])
    ensures Counter(DistributionOf(recipes).value, b) == InBucket(recipes, b)
    decreases |recipes|
  {
    DistributionRaises(recipes);
    if recipes != [] {
      var init := recipes[..|recipes| - 1];
      DistributionSnoc(recipes);
      DistributionCount(init, b);
    }
  }

  /** `r.get('matched_count', 0) > 0`, raising when the count is not a number. */
  function HasMatch(recipe: Json): Checked<bool> {
    if !recipe.JObj? then Raised
    else
      var count := GetOr(recipe, "matched_count", JInt(0));
      if IsNumber(count) then Ok(NumberValue(count) > 0.0) else Raised
  }

  /** `sum(1 for r in recipes if r.get('matched_count', 0) > 0)`. */
  function WithMatches(recipes: seq<Json>): Checked<nat>
    decreases |recipes|
  {
    if recipes == [] then Ok(0)
    else
      match WithMatches(recipes[..|recipes| - 1])
      case Raised => Raised
      case Ok(n) =>
        match HasMatch(recipes[|recipes| - 1])
        case Raised => Raised
        case Ok(b) => Ok(n + if b then 1 else 0)
  }

  /** At most every recipe has a match. */
  lemma {:induction false} WithMatchesBound(recipes: seq<Json>)
    ensures WithMatches(recipes).Ok? ==> WithMatches(recipes).value <= |recipes|
    decreases |recipes|
  {
    if recipes != [] {
      WithMatchesBound(recipes[..|recipes| - 1]);
    }
  }

  datatype MatchStats = MatchStats(
    totalRecipes: nat,
    withMatches: nat,
    matchPercentageAvg: real,
    distribution: Distribution,
    lastUpdated: Json,
    totalDeals: Json)

  /** `[r.get('match_percentage', 0) for r in recipes]` for recipes that are dicts. */
  function Percentages(recipes: seq<Json>): (r: seq<Json>)
    requires Dicts(recipes)
    ensures |r| == |recipes|
  {
    FieldValues(recipes, "match_percentage", JInt(0))
  }

  /** The statistics over a list of recipes that passed the bucketing loop. */
  function MatchFigures(data: Json, recipes: seq<Json>, distribution: Distribution): Checked<MatchStats>
    requires data.JObj? && Dicts(recipes)
  {
    match Mean(Percentages(recipes))
    case Raised => Raised
    case Ok(average) =>
      match WithMatches(recipes)
      case Raised => Raised
      case Ok(withMatches) =>
        Ok(MatchStats(|recipes|, withMatches, average, distribution, Get(data, "last_updated"), GetOr(data, "total_deals", JInt(0))))
  }

  /** `analyze_matches(data)` without the data age, or the exception raised on the way. */
  function MatchAnalysis(data: Json): Checked<MatchStats>
    requires data.JObj?
  {
    match Iterate(GetOr(data, "recipes", JArr([])))
    case Raised => Raised
    case Ok(recipes) =>
      match DistributionOf(recipes)
      case Raised => Raised
      case Ok(distribution) =>
        if Dicts(recipes) then MatchFigures(data, recipes, distribution) else Raised
  }

  method AnalyzeMatches(data: Json) returns (r: Checked<MatchStats>)
    requires data.JObj?
    ensures r == MatchAnalysis(data)
  {
    var recipes := Iterate(GetOr(data, "recipes", JArr([])));
    if recipes.Raised? {
      return Raised;
    }
    var ranges := Distribute(recipes.value);
    if ranges.Raised? {
      return Raised;
    }
    if !Dicts(recipes.value) {
      return Raised;
    }
    var average := Mean(Percentages(recipes.value));
    if average.Raised? {
      return Raised;
    }
    var withMatches := WithMatches(recipes.value);
    if withMatches.Raised? {
      return Raised;
    }
    r := Ok(MatchStats(|recipes.value|, withMatches.value, average.value, ranges.value,
                       Get(data, "last_updated"), GetOr(data, "total_deals", JInt(0))));
  }

  /** Once the buckets were filled, every recipe is a dict. */
  lemma BucketedAreDicts(recipes: seq<Json>)
    requires DistributionOf(recipes).Ok?
    ensures Dicts(recipes)
  {
    DistributionRaises(recipes);
    forall k | 0 <= k < |recipes|
      ensures recipes[k].JObj?
    {
      assert Bucketable(recipes[k]);
    }
  }

  /**
   * The bucket counts add up to total_recipes, with_matches is at most total_recipes, and the
   * average percentage is 0 without recipes.
   */
  lemma MatchStatsSpec(data: Json)
    requires data.JObj?
    ensures MatchAnalysis(data).Ok? ==>
      var m := MatchAnalysis(data).value;
      Total(m.distribution) == m.totalRecipes &&
      m.withMatches <= m.totalRecipes &&
      (m.totalRecipes == 0 ==> m.matchPercentageAvg == 0.0) &&
      m.totalDeals == GetOr(data, "total_deals", JInt(0))
  {
    var recipes := Iterate(GetOr(data, "recipes", JArr([])));
    if recipes.Ok? && DistributionOf(recipes.value).Ok? {
      DistributionTotal(recipes.value);
      BucketedAreDicts(recipes.value);
      WithMatchesBound(recipes.value);
    }
  }
}
