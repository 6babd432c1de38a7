/**
 * scrape_deals.py after the browser has captured the API responses: finding the offer groups
 * in an Incito layout tree, collecting their texts, parsing one offer's texts into a product,
 * reading the hotspots of a paged publication, and keeping the first product per
 * (store, name).
 */
module ScrapeDeals {
  import opened Wrappers
  import opened Text
  import opened Json
  import opened Seqs

  // ---------------------------------------------------------------------------
  // collect_texts
  // ---------------------------------------------------------------------------

  /** The `text` of a dict node, when it is a string. */
  function OwnText(entries: seq<(string, Json)>): seq<string> {
    match Lookup(entries, "text")
    case Some(JStr(t)) => [t]
    case _ => []
  }

  lemma ValuesBelow(obj: Json)
    requires obj.JObj?
    ensures forall k :: 0 <= k < |Values(obj.entries)| ==> Values(obj.entries)[k] < obj
  {
    forall k | 0 <= k < |obj.entries|
      ensures obj.entries[k].1 < obj
    {
      assert obj.entries[k] in obj.entries;
    }
  }

  /** collect_texts: every string `text` of a dict in the tree, in pre-order. */
  function CollectTexts(obj: Json): seq<string>
    decreases obj, 1
  {
    match obj
    case JObj(entries) => ValuesBelow(obj); OwnText(entries) + CollectTextsIn(Values(entries), obj)
    case JArr(items) => CollectTextsIn(items, obj)
    case _ => []
  }

  /** `for item in items: texts.extend(collect_texts(item))`. */
  function CollectTextsIn(items: seq<Json>, ghost parent: Json): seq<string>
    requires forall k :: 0 <= k < |items| ==> items[k] < parent
    decreases parent, 0, |items|
  {
    if items == [] then [] else CollectTextsIn(items[..|items| - 1], parent) + CollectTexts(items[|items| - 1])
  }

  /** Some dict in the tree has the string `t` as its `text`. */
  predicate HasText(obj: Json, t: string)
    decreases obj
  {
    match obj
    case JObj(entries) =>
      Lookup(entries, "text") == Some(JStr(t)) || exists k :: 0 <= k < |entries| && HasText(entries[k].1, t)
    case JArr(items) => exists k :: 0 <= k < |items| && HasText(items[k], t)
    case _ => false
  }

  /** collect_texts finds exactly the texts of the tree. */
  lemma {:induction false} CollectTextsMember(obj: Json, t: string)
    ensures t in CollectTexts(obj) <==> HasText(obj, t)
    decreases obj, 1
  {
    match obj
    case JObj(entries) =>
      ValuesBelow(obj);
      CollectTextsInMember(Values(entries), obj, t);
    case JArr(items) =>
      CollectTextsInMember(items, obj, t);
    case _ =>
  }

  lemma {:induction false} CollectTextsInMember(items: seq<Json>, parent: Json, t: string)
    requires forall k :: 0 <= k < |items| ==> items[k] < parent
    ensures t in CollectTextsIn(items, parent) <==> exists k :: 0 <= k < |items| && HasText(items[k], t)
    decreases parent, 0, |items|
  {
    if items != [] {
      var init := items[..|items| - 1];
      CollectTextsInMember(init, parent, t);
      CollectTextsMember(items[|items| - 1], t);
      assert forall k :: 0 <= k < |init| ==> init[k] == items[k];
    }
  }

  /** Lists contribute their items' texts in order. */
  lemma {:induction false} CollectTextsInAppend(a: seq<Json>, b: seq<Json>, parent: Json)
    requires forall k :: 0 <= k < |a| ==> a[k] < parent
    requires forall k :: 0 <= k < |b| ==> b[k] < parent
    ensures CollectTextsIn(a + b, parent) == CollectTextsIn(a, parent) + CollectTextsIn(b, parent)
    decreases |b|
  {
    if b != [] {
      var c := a + b;
      var init := b[..|b| - 1];
      var last := b[|b| - 1];
      assert c[..|c| - 1] == a + init && c[|c| - 1] == last;
      assert forall k :: 0 <= k < |init| ==> init[k] == b[k];
      CollectTextsInAppend(a, init, parent);
      calc {
        CollectTextsIn(c, parent);
        CollectTextsIn(a + init, parent) + CollectTexts(last);
        CollectTextsIn(a, parent) + CollectTextsIn(init, parent) + CollectTexts(last);
        CollectTextsIn(a, parent) + (CollectTextsIn(init, parent) + CollectTexts(last));
        CollectTextsIn(a, parent) + CollectTextsIn(b, parent);
      }
    } else {
      assert a + b == a;
    }
  }

  // ---------------------------------------------------------------------------
  // find_incito_offers
  // ---------------------------------------------------------------------------

  const MaxDepth: nat := 30

  predicate IsContainer(v: Json) {
    v.JObj? || v.JArr?
  }

  /** `obj.get('role', '') == 'offer'`. */
  predicate IsOffer(obj: Json) {
    obj.JObj? && GetOr(obj, "role", JStr("")) == JStr("offer")
  }

  /** The values under `child_views`, `children` and `root_view`, for the keys present, in that order. */
  function NamedChildren(obj: Json): seq<Json>
    requires obj.JObj?
  {
    (if HasKey(obj, "child_views") then [Get(obj, "child_views")] else [])
    + (if HasKey(obj, "children") then [Get(obj, "children")] else [])
    + (if HasKey(obj, "root_view") then [Get(obj, "root_view")] else [])
  }

  /**
   * The dict and list values of `obj` that are not equal, by Python's `==`, to
   * `obj.get('child_views')` or `obj.get('children')`. `root_view` is not excluded.
   */
  function OtherChildren(obj: Json): seq<Json>
    requires obj.JObj?
  {
    Filter(Values(obj.entries), IsOtherChild(obj))
  }

  function IsOtherChild(obj: Json): Json -> bool
    requires obj.JObj?
  {
    (v: Json) => IsContainer(v) && !PyEq(v, Get(obj, "child_views")) && !PyEq(v, Get(obj, "children"))
  }

  /** find_incito_offers: the texts of each offer group, with the depth cut-off of 30. */
  function FindOffers(obj: Json, depth: nat): (r: seq<seq<string>>)
    ensures depth > MaxDepth ==> r == []
    ensures forall k :: 0 <= k < |r| ==> r[k] != []
    decreases MaxDepth + 1 - depth, 1
  {
    if depth > MaxDepth then []
    else
      match obj
      case JObj(_) =>
        if IsOffer(obj) then
          var texts := CollectTexts(obj);
          if texts != [] then [texts] else []
        else FindOffersIn(NamedChildren(obj), depth) + FindOffersIn(OtherChildren(obj), depth)
      case JArr(items) => FindOffersIn(items, depth)
      case _ => []
  }

  /** `for item in items: offers.extend(find_incito_offers(item, depth + 1))`. */
  function FindOffersIn(items: seq<Json>, depth: nat): (r: seq<seq<string>>)
    requires depth <= MaxDepth
    ensures forall k :: 0 <= k < |r| ==> r[k] != []
    decreases MaxDepth + 1 - depth, 0, |items|
  {
    if items == [] then [] else FindOffersIn(items[..|items| - 1], depth) + FindOffers(items[|items| - 1], depth + 1)
  }

  /** `inner` is `outer` or sits, at any depth, among its items or values. */
  predicate Within(inner: Json, outer: Json)
    decreases outer
  {
    inner == outer
    || match outer
       case JObj(entries) => exists k :: 0 <= k < |entries| && Within(inner, entries[k].1)
       case JArr(items) => exists k :: 0 <= k < |items| && Within(inner, items[k])
       case _ => false
  }

  /** `c` is one of the values of the dict `parent`. */
  predicate ValueOf(c: Json, parent: Json) {
    parent.JObj? && exists k :: 0 <= k < |parent.entries| && parent.entries[k].1 == c
  }

  lemma NamedChildrenAreValues(obj: Json)
    requires obj.JObj?
    ensures forall k :: 0 <= k < |NamedChildren(obj)| ==> ValueOf(NamedChildren(obj)[k], obj)
  {
    var keys := ["child_views", "children", "root_view"];
    forall key | key in keys && HasKey(obj, key)
      ensures ValueOf(Get(obj, key), obj)
    {
      var v := Lookup(obj.entries, key).value;
      var k :| 0 <= k < |obj.entries| && obj.entries[k] == (key, v);
    }
  }

  lemma OtherChildrenAreValues(obj: Json)
    requires obj.JObj?
    ensures forall k :: 0 <= k < |OtherChildren(obj)| ==> ValueOf(OtherChildren(obj)[k], obj)
  {
    var vs := Values(obj.entries);
    var p := IsOtherChild(obj);
    var q := (v: Json) => ValueOf(v, obj);
    assert All(vs, q) by {
      forall k | 0 <= k < |vs| ensures q(vs[k]) {
        assert obj.entries[k].1 == vs[k];
      }
    }
    FilterKeepsAll(vs, p, q);
  }

  /** Every offer group found is the collected texts of an offer dict inside the tree. */
  lemma {:induction false} FindOffersSound(obj: Json, depth: nat)
    ensures forall o :: o in FindOffers(obj, depth) ==> exists node :: Within(node, obj) && IsOffer(node) && o == CollectTexts(node)
    decreases MaxDepth + 1 - depth, 1
  {
    if depth <= MaxDepth {
      match obj
      case JObj(_) =>
        if !IsOffer(obj) {
          NamedChildrenAreValues(obj);
          OtherChildrenAreValues(obj);
          FindOffersInSound(NamedChildren(obj), depth, obj);
          FindOffersInSound(OtherChildren(obj), depth, obj);
        }
      case JArr(items) =>
        FindOffersInSound(items, depth, obj);
      case _ =>
    }
  }

  lemma {:induction false} FindOffersInSound(items: seq<Json>, depth: nat, parent: Json)
    requires depth <= MaxDepth
    requires forall k :: 0 <= k < |items| ==> ValueOf(items[k], parent) || (parent.JArr? && items[k] in parent.items)
    ensures forall o :: o in FindOffersIn(items, depth) ==> exists node :: Within(node, parent) && IsOffer(node) && o == CollectTexts(node)
    decreases MaxDepth + 1 - depth, 0, |items|
  {
    if items != [] {
      var init := items[..|items| - 1];
      var last := items[|items| - 1];
      FindOffersInSound(init, depth, parent);
      FindOffersSound(last, depth + 1);
      var offers := FindOffers(last, depth + 1);
      forall i | 0 <= i < |offers|
        ensures exists node :: Within(node, parent) && IsOffer(node) && offers[i] == CollectTexts(node)
      {
        assert offers[i] in offers;
        var node :| Within(node, last) && IsOffer(node) && offers[i] == CollectTexts(node);
        WithinChild(node, last, parent);
      }
    }
  }

  /** What sits inside a child of `parent` sits inside `parent`. */
  lemma WithinChild(node: Json, c: Json, parent: Json)
    requires Within(node, c)
    requires ValueOf(c, parent) || (parent.JArr? && c in parent.items)
    ensures Within(node, parent)
  {
    if parent.JArr? && c in parent.items {
      var k :| 0 <= k < |parent.items| && parent.items[k] == c;
    } else {
      var k :| 0 <= k < |parent.entries| && parent.entries[k].1 == c;
    }
  }

  /** A list's offer groups are its items' groups, in order. */
  lemma {:induction false} FindOffersInAppend(a: seq<Json>, b: seq<Json>, depth: nat)
    requires depth <= MaxDepth
    ensures FindOffersIn(a + b, depth) == FindOffersIn(a, depth) + FindOffersIn(b, depth)
    decreases |b|
  {
    if b != [] {
      var init := b[..|b| - 1];
      var last := FindOffers(b[|b| - 1], depth + 1);
      assert (a + b)[..|a + b| - 1] == a + init;
      assert (a + b)[|a + b| - 1] == b[|b| - 1];
      assert FindOffersIn(a + b, depth) == FindOffersIn(a + init, depth) + last;
      assert FindOffersIn(b, depth) == FindOffersIn(init, depth) + last;
      FindOffersInAppend(a, init, depth);
    } else {
      assert a + b == a;
    }
  }

  /**
   * A dict that holds only a `root_view` container is searched twice: once as a named child
   * and once more by the values loop, which excludes only `child_views` and `children`.
   */
  lemma RootViewSearchedTwice(v: Json, depth: nat)
    requires IsContainer(v) && depth <= MaxDepth
    ensures FindOffers(JObj([("root_view", v)]), depth) == FindOffers(v, depth + 1) + FindOffers(v, depth + 1)
  {
    var obj := JObj([("root_view", v)]);
    assert !IsOffer(obj);
    assert NamedChildren(obj) == [v];
    assert Values(obj.entries) == [v];
    assert Get(obj, "child_views") == JNull && Get(obj, "children") == JNull;
    assert OtherChildren(obj) == [v];
    assert FindOffersIn([v], depth) == FindOffers(v, depth + 1) by {
      assert [v][..0] == [];
    }
  }

  // ---------------------------------------------------------------------------
  // Products
  // ---------------------------------------------------------------------------

  /**
   * A scraped product dict. An Incito offer carries the parsed texts; a paged-publication
   * hotspot has no `ord_pris` and `jfr_pris`, and its `unit` is whatever JSON value the
   * offer's unit symbol holds.
   */
  datatype Product =
    | Offer(store: string, name: string, price: Option<string>, unit: Option<string>,
            description: Option<string>, ordPris: Option<string>, jfrPris: Option<string>)
    | Paged(store: string, name: string, price: Option<string>, pagedUnit: Option<Json>,
            description: Option<string>)

  // ---------------------------------------------------------------------------
  // parse_offer_texts: the regular expressions
  // ---------------------------------------------------------------------------

  // `re.match(r'^\d+\s*/\s*\d+$', t)`: a page count such as "3 / 12".
  predicate IsPageCount(t: string) {
    var a := SkipWhile(t, 0, IsDigit);
    var b := SkipWhile(t, a, IsSpace);
    a > 0 && b < |t| && t[b] == '/' &&
    var c := SkipWhile(t, b + 1, IsSpace);
    var d := SkipWhile(t, c, IsDigit);
    d > c && AtEnd(t, d)
  }

  /** `re.match(r'^\d+:-$', t)`: a price such as "25:-". */
  predicate IsPriceText(t: string) {
    var a := SkipWhile(t, 0, IsDigit);
    a > 0 && a + 2 <= |t| && t[a..a + 2] == ":-" && AtEnd(t, a + 2)
  }

  /** `re.match(r'^\d+\s+för$', t)`: a multi-buy unit such as "2 för". */
  predicate IsForText(t: string) {
    var a := SkipWhile(t, 0, IsDigit);
    var b := SkipWhile(t, a, IsSpace);
    a > 0 && b > a && b + 3 <= |t| && t[b..b + 3] == "för" && AtEnd(t, b + 3)
  }

  const UnitWords: seq<string> := ["/kg", "/st", "/liter"]

  /** The second and third branches of the loop: a text that sets `unit`. */
  predicate IsUnitText(t: string) {
    !IsPriceText(t) && (t in UnitWords || IsForText(t))
  }

  /** The fourth and fifth branches: a text that joins the description. */
  predicate IsDescriptionText(t: string) {
    !IsPriceText(t) && !IsUnitText(t) && (Contains(t, "|") || Contains(t, "Ord.pris") || Contains(t, "Jfr pris"))
  }

  /** The characters of `[\d:,.-]`. */
  predicate IsPriceChar(c: char) {
    IsDigit(c) || c == ':' || c == ',' || c == '.' || c == '-'
  }

  /**
   * `Ord\.pris\s+([\d:,.-]+)\s*kr` matched at position `i`, with its group. The classes
   * that follow each other are disjoint, so the greedy runs are the only candidates.
   */
  function OrdAt(t: string, i: nat): Option<string> {
    if i + 8 <= |t| && t[i..i + 8] == "Ord.pris" then
      var a := SkipWhile(t, i + 8, IsSpace);
      var b := SkipWhile(t, a, IsPriceChar);
      var c := SkipWhile(t, b, IsSpace);
      if a > i + 8 && b > a && c + 2 <= |t| && t[c..c + 2] == "kr" then Some(t[a..b]) else None
    else None
  }

  /** `Jfr pris\s+([\d:,.-]+)` matched at position `i`, with its group. */
  function JfrAt(t: string, i: nat): Option<string> {
    if i + 8 <= |t| && t[i..i + 8] == "Jfr pris" then
      var a := SkipWhile(t, i + 8, IsSpace);
      var b := SkipWhile(t, a, IsPriceChar);
      if a > i + 8 && b > a then Some(t[a..b]) else None
    else None
  }

  /** `re.search(...).group(1)` for the "Ord.pris" pattern: the leftmost match. */
  function OrdSearch(t: string): Option<string> {
    FirstFrom((i: nat) => OrdAt(t, i), 0, |t|)
  }

  /** `re.search(...).group(1)` for the "Jfr pris" pattern: the leftmost match. */
  function JfrSearch(t: string): Option<string> {
    FirstFrom((i: nat) => JfrAt(t, i), 0, |t|)
  }

  /** A found price group is a non-empty run of price characters inside the text. */
  lemma OrdSearchSpec(t: string)
    ensures OrdSearch(t).Some? ==> exists i :: 0 <= i <= |t| && OrdAt(t, i) == OrdSearch(t) && forall j :: 0 <= j < i ==> OrdAt(t, j).None?
    ensures OrdSearch(t).None? <==> forall i :: 0 <= i <= |t| ==> OrdAt(t, i).None?
  {
    var at := (i: nat) => OrdAt(t, i);
    FirstFromSpec(at, 0, |t|);
    assert forall i: nat :: at(i) == OrdAt(t, i);
  }

  lemma JfrSearchSpec(t: string)
    ensures JfrSearch(t).Some? ==> exists i :: 0 <= i <= |t| && JfrAt(t, i) == JfrSearch(t) && forall j :: 0 <= j < i ==> JfrAt(t, j).None?
    ensures JfrSearch(t).None? <==> forall i :: 0 <= i <= |t| ==> JfrAt(t, i).None?
  {
    var at := (i: nat) => JfrAt(t, i);
    FirstFromSpec(at, 0, |t|);
    assert forall i: nat :: at(i) == JfrAt(t, i);
  }

  /** A group found at a position is a non-empty run of `[\d:,.-]` characters. */
  lemma OrdAtGroup(t: string, i: nat)
    requires OrdAt(t, i).Some?
    ensures OrdAt(t, i).value != [] && forall k :: 0 <= k < |OrdAt(t, i).value| ==> IsPriceChar(OrdAt(t, i).value[k])
  {
  }

  // ---------------------------------------------------------------------------
  // parse_offer_texts
  // ---------------------------------------------------------------------------

  /** The text the name is taken from: the first, or the second when the first is a page count. */
  function ChosenName(texts: seq<string>): Option<string>
    requires texts != []
  {
    if texts[0] != "" && IsPageCount(texts[0]) then (if |texts| > 1 then Some(texts[1]) else None)
    else Some(texts[0])
  }

  function PriceOf(t: string): Option<string> {
    if IsPriceText(t) then Some(t) else None
  }

  function UnitOf(t: string): Option<string> {
    if IsUnitText(t) then Some(t) else None
  }

  function OrdOf(t: string): Option<string> {
    if IsDescriptionText(t) then OrdSearch(t) else None
  }

  function JfrOf(t: string): Option<string> {
    if IsDescriptionText(t) then JfrSearch(t) else None
  }

  function DescriptionOf(parts: seq<string>): Option<string> {
    if parts == [] then None else Some(Join(parts, " | "))
  }

  /** parse_offer_texts: None, or the product the offer's texts describe. */
  function ParseOffer(texts: seq<string>, store: string): Option<Product> {
    if texts == [] then None
    else
      var name := ChosenName(texts);
      if name.None? || |name.value| < 2 then None
      else
        var rest := texts[1..];
        Some(Offer(store, Strip(name.value), Latest(rest, PriceOf), Latest(rest, UnitOf),
                   DescriptionOf(Filter(rest, IsDescriptionText)), Latest(rest, OrdOf), Latest(rest, JfrOf)))
  }

  /** Which of the loop's branches a text takes, and what each accumulator then sees. */
  lemma Classify(t: string)
    ensures IsPriceText(t) ==> PriceOf(t) == Some(t) && UnitOf(t).None? && !IsDescriptionText(t)
    ensures !IsPriceText(t) ==> PriceOf(t).None?
    ensures !IsPriceText(t) && IsUnitText(t) ==> UnitOf(t) == Some(t) && !IsDescriptionText(t)
    ensures !IsUnitText(t) ==> UnitOf(t).None?
    ensures IsDescriptionText(t) ==> OrdOf(t) == OrdSearch(t) && JfrOf(t) == JfrSearch(t)
    ensures !IsDescriptionText(t) ==> OrdOf(t).None? && JfrOf(t).None?
  {
  }

  /** parse_offer_texts: the early exits, then the loop over `texts[1:]`. */
  method ParseOfferTexts(texts: seq<string>, store: string) returns (r: Option<Product>)
    ensures r == ParseOffer(texts, store)
  {
    if texts == [] {
      return None;
    }
    var name := Some(texts[0]);
    if texts[0] != "" && IsPageCount(texts[0]) {
      name := if |texts| > 1 then Some(texts[1]) else None;
    }
    if name.None? || |name.value| < 2 {
      return None;
    }
    var price, unit, parts, ordPris, jfrPris := ScanOfferTexts(texts[1..]);
    r := Some(Offer(store, Strip(name.value), price, unit, DescriptionOf(parts), ordPris, jfrPris));
  }

  /** The loop of parse_offer_texts: each text sets the field of the first branch it matches. */
  method ScanOfferTexts(rest: seq<string>)
    returns (price: Option<string>, unit: Option<string>, parts: seq<string>,
             ordPris: Option<string>, jfrPris: Option<string>)
    ensures price == Latest(rest, PriceOf) && unit == Latest(rest, UnitOf)
    ensures parts == Filter(rest, IsDescriptionText)
    ensures ordPris == Latest(rest, OrdOf) && jfrPris == Latest(rest, JfrOf)
  {
    price, unit, parts, ordPris, jfrPris := None, None, [], None, None;
    var i := 0;
    while i < |rest|
      invariant 0 <= i <= |rest|
      invariant price == Latest(rest[..i], PriceOf)
      invariant unit == Latest(rest[..i], UnitOf)
      invariant parts == Filter(rest[..i], IsDescriptionText)
      invariant ordPris == Latest(rest[..i], OrdOf)
      invariant jfrPris == Latest(rest[..i], JfrOf)
    {
      var t := rest[i];
      LatestSnoc(rest, PriceOf, i);
      LatestSnoc(rest, UnitOf, i);
      LatestSnoc(rest, OrdOf, i);
      LatestSnoc(rest, JfrOf, i);
      assert rest[..i + 1] == rest[..i] + [t];
      FilterSnoc(rest[..i], t, IsDescriptionText);
      Classify(t);
      if IsPriceText(t) {
        price := Some(t);
      } else if IsUnitText(t) {
        unit := Some(t);
      } else if IsDescriptionText(t) {
        parts := parts + [t];
        var ordMatch := OrdSearch(t);
        if ordMatch.Some? {
          ordPris := ordMatch;
        }
        var jfrMatch := JfrSearch(t);
        if jfrMatch.Some? {
          jfrPris := jfrMatch;
        }
      }
      i := i + 1;
    }
    assert rest[..i] == rest;
  }

  /** parse_offer_texts returns None exactly in its three early-exit cases. */
  lemma ParseOfferNone(texts: seq<string>, store: string)
    ensures ParseOffer(texts, store).None? <==>
      texts == [] || ChosenName(texts).None? || |ChosenName(texts).value| < 2
  {
  }

  /** The page-count rule: a leading "N/M" text is skipped for the name. */
  lemma ParseOfferPageCount(texts: seq<string>, store: string)
    requires |texts| >= 2 && texts[0] != "" && IsPageCount(texts[0]) && |texts[1]| >= 2
    ensures ParseOffer(texts, store).Some? && ParseOffer(texts, store).value.name == Strip(texts[1])
  {
  }

  /** Every parsed offer is for the given store and has a trimmed name. */
  lemma ParseOfferStoreName(texts: seq<string>, store: string)
    requires ParseOffer(texts, store).Some?
    ensures ParseOffer(texts, store).value.Offer? && ParseOffer(texts, store).value.store == store
    ensures IsTrimmed(ParseOffer(texts, store).value.name)
  {
    StripIsTrimmed(ChosenName(texts).value);
  }

  /** The price is the last price text after the first, and None when there is none. */
  lemma ParseOfferPrice(texts: seq<string>, store: string)
    requires ParseOffer(texts, store).Some?
    ensures var p := ParseOffer(texts, store).value.price;
      (p.None? <==> forall k :: 1 <= k < |texts| ==> !IsPriceText(texts[k])) &&
      (p.Some? ==> exists k :: 1 <= k < |texts| && texts[k] == p.value && IsPriceText(p.value) &&
                     forall j :: k < j < |texts| ==> !IsPriceText(texts[j]))
  {
    var rest := texts[1..];
    LatestSpec(rest, PriceOf);
    assert forall k :: 1 <= k < |texts| ==> texts[k] == rest[k - 1];
    var p := Latest(rest, PriceOf);
    if p.Some? {
      var k :| 0 <= k < |rest| && PriceOf(rest[k]) == p && forall j :: k < j < |rest| ==> PriceOf(rest[j]).None?;
      assert texts[k + 1] == rest[k];
      forall j | k + 1 < j < |texts| ensures !IsPriceText(texts[j]) {
        assert PriceOf(rest[j - 1]).None?;
      }
    } else {
      forall k | 1 <= k < |texts| ensures !IsPriceText(texts[k]) {
        assert PriceOf(rest[k - 1]).None?;
      }
    }
  }

  /** The unit is the last unit text after the first, and None when there is none. */
  lemma ParseOfferUnit(texts: seq<string>, store: string)
    requires ParseOffer(texts, store).Some?
    ensures var u := ParseOffer(texts, store).value.unit;
      (u.None? <==> forall k :: 1 <= k < |texts| ==> !IsUnitText(texts[k])) &&
      (u.Some? ==> exists k :: 1 <= k < |texts| && texts[k] == u.value && IsUnitText(u.value) &&
                     forall j :: k < j < |texts| ==> !IsUnitText(texts[j]))
  {
    var rest := texts[1..];
    LatestSpec(rest, UnitOf);
    assert forall k :: 1 <= k < |texts| ==> texts[k] == rest[k - 1];
    var u := Latest(rest, UnitOf);
    if u.Some? {
      var k :| 0 <= k < |rest| && UnitOf(rest[k]) == u && forall j :: k < j < |rest| ==> UnitOf(rest[j]).None?;
      assert texts[k + 1] == rest[k];
      forall j | k + 1 < j < |texts| ensures !IsUnitText(texts[j]) {
        assert UnitOf(rest[j - 1]).None?;
      }
    } else {
      forall k | 1 <= k < |texts| ensures !IsUnitText(texts[k]) {
        assert UnitOf(rest[k - 1]).None?;
      }
    }
  }

  /** The joined description texts, in terms of the texts after the first. */
  lemma {:induction false} DescriptionParts(rest: seq<string>)
    ensures var d := DescriptionOf(Filter(rest, IsDescriptionText));
      (d.None? <==> forall k :: 0 <= k < |rest| ==> !IsDescriptionText(rest[k])) &&
      (d.Some? ==> exists parts :: d.value == Join(parts, " | ") && parts != [] &&
                     IsSubsequence(parts, rest) && All(parts, IsDescriptionText))
  {
    var parts := Filter(rest, IsDescriptionText);
    FilterPasses(rest, IsDescriptionText);
    FilterIsSubsequence(rest, IsDescriptionText);
    if parts == [] {
      forall k | 0 <= k < |rest| ensures !IsDescriptionText(rest[k]) {
        if IsDescriptionText(rest[k]) {
          FilterKeeps(rest, IsDescriptionText, k);
        }
      }
    } else if forall k :: 0 <= k < |rest| ==> !IsDescriptionText(rest[k]) {
      FilterNone(rest, IsDescriptionText);
    }
  }

  /**
   * The description is None when no text after the first is a description text, and
   * otherwise joins those texts, each of which is one of them, in order.
   */
  lemma ParseOfferDescription(texts: seq<string>, store: string)
    requires ParseOffer(texts, store).Some?
    ensures var d := ParseOffer(texts, store).value.description;
      (d.None? <==> forall k :: 1 <= k < |texts| ==> !IsDescriptionText(texts[k])) &&
      (d.Some? ==> exists parts :: d.value == Join(parts, " | ") && parts != [] &&
                     IsSubsequence(parts, texts[1..]) && All(parts, IsDescriptionText))
  {
    DescriptionParts(texts[1..]);
    assert forall k :: 1 <= k < |texts| ==> texts[k] == texts[1..][k - 1];
  }

  /** The "Ord.pris" price comes from the last description text whose pattern matches. */
  lemma ParseOfferOrdPris(texts: seq<string>, store: string)
    requires ParseOffer(texts, store).Some?
    ensures var o := ParseOffer(texts, store).value.ordPris;
      (o.None? <==> forall k :: 1 <= k < |texts| ==> !IsDescriptionText(texts[k]) || OrdSearch(texts[k]).None?) &&
      (o.Some? ==> exists k :: 1 <= k < |texts| && IsDescriptionText(texts[k]) && OrdSearch(texts[k]) == o &&
                     forall j :: k < j < |texts| ==> !IsDescriptionText(texts[j]) || OrdSearch(texts[j]).None?)
  {
    var rest := texts[1..];
    LatestSpec(rest, OrdOf);
    assert forall k :: 1 <= k < |texts| ==> texts[k] == rest[k - 1];
    var o := Latest(rest, OrdOf);
    if o.Some? {
      var k :| 0 <= k < |rest| && OrdOf(rest[k]) == o && forall j :: k < j < |rest| ==> OrdOf(rest[j]).None?;
      assert texts[k + 1] == rest[k];
      forall j | k + 1 < j < |texts| ensures !IsDescriptionText(texts[j]) || OrdSearch(texts[j]).None? {
        assert OrdOf(rest[j - 1]).None?;
      }
    } else {
      forall k | 1 <= k < |texts| ensures !IsDescriptionText(texts[k]) || OrdSearch(texts[k]).None? {
        assert OrdOf(rest[k - 1]).None?;
      }
    }
  }

  /** The "Jfr pris" price comes from the last description text whose pattern matches. */
  lemma ParseOfferJfrPris(texts: seq<string>, store: string)
    requires ParseOffer(texts, store).Some?
    ensures var o := ParseOffer(texts, store).value.jfrPris;
      (o.None? <==> forall k :: 1 <= k < |texts| ==> !IsDescriptionText(texts[k]) || JfrSearch(texts[k]).None?) &&
      (o.Some? ==> exists k :: 1 <= k < |texts| && IsDescriptionText(texts[k]) && JfrSearch(texts[k]) == o &&
                     forall j :: k < j < |texts| ==> !IsDescriptionText(texts[j]) || JfrSearch(texts[j]).None?)
  {
    var rest := texts[1..];
    LatestSpec(rest, JfrOf);
    assert forall k :: 1 <= k < |texts| ==> texts[k] == rest[k - 1];
    var o := Latest(rest, JfrOf);
    if o.Some? {
      var k :| 0 <= k < |rest| && JfrOf(rest[k]) == o && forall j :: k < j < |rest| ==> JfrOf(rest[j]).None?;
      assert texts[k + 1] == rest[k];
      forall j | k + 1 < j < |texts| ensures !IsDescriptionText(texts[j]) || JfrSearch(texts[j]).None? {
        assert JfrOf(rest[j - 1]).None?;
      }
    } else {
      forall k | 1 <= k < |texts| ensures !IsDescriptionText(texts[k]) || JfrSearch(texts[k]).None? {
        assert JfrOf(rest[k - 1]).None?;
      }
    }
  }

  /**
   * The length check looks at the unstripped text: a name of one character after a space
   * passes it, and the product's name is then that one character.
   */
  lemma ShortNameAfterStrip(c: char, store: string)
    requires !IsSpace(c) && !IsDigit(c)
    ensures ParseOffer([[' ', c]], store) == Some(Offer(store, [c], None, None, None, None, None))
  {
    var t: string := [' ', c];
    var ts: seq<string> := [t];
    assert SkipWhile(t, 0, IsDigit) == 0;
    assert ChosenName(ts) == Some(t);
    assert ts[1..] == [];
    assert LStrip(t) == [c] by {
      assert t[1..] == [c];
    }
    assert Strip(t) == [c];
  }

  // ---------------------------------------------------------------------------
  // parse_paged_publication
  // ---------------------------------------------------------------------------

  /** `x if x else None`. */
  function IfTruthy(j: Json): Option<Json> {
    if Truthy(j) then Some(j) else None
  }

  /** `f"{prefix}{x}{suffix}" if x else None`, with `repr` for the values `str` leaves to it. */
  function FormatIfTruthy(prefix: string, j: Json, suffix: string, repr: Json -> string): Option<string> {
    if Truthy(j) then Some(prefix + Str(j, repr) + suffix) else None
  }

  /**
   * The body of the hotspot loop: every `.get` runs before the `if name:` test, and `.get`
   * on a value that is not a dict raises, as does `.strip()` on a truthy heading that is not
   * a string. `repr` is Python's `repr` of a float, list or dict, for the f-strings.
   */
  function Hotspot(store: string, hs: Json, repr: Json -> string): Checked<seq<Product>> {
    match GetChecked(hs, "offer", JObj([]))
    case Raised => Raised
    case Ok(offer) =>
      if !Truthy(offer) then Ok([])
      else
        var name := GetChecked(offer, "heading", JStr(""));
        var pricing := GetChecked(offer, "pricing", JObj([]));
        if name.Raised? || pricing.Raised? then Raised
        else
          var price := GetChecked(pricing.value, "price", JNull);
          var prePrice := GetChecked(pricing.value, "pre_price", JNull);
          var quantity := GetChecked(offer, "quantity", JObj([]));
          if price.Raised? || prePrice.Raised? || quantity.Raised? then Raised
          else
            var unitObj := GetChecked(quantity.value, "unit", JObj([]));
            if unitObj.Raised? then Raised
            else
              var unit := GetChecked(unitObj.value, "symbol", JStr(""));
              if unit.Raised? then Raised
              else if !Truthy(name.value) then Ok([])
              else if !name.value.JStr? then Raised
              else Ok([Paged(store, Strip(name.value.s), FormatIfTruthy("", price.value, ":-", repr),
                             IfTruthy(unit.value), FormatIfTruthy("Ord.pris ", prePrice.value, ":-", repr))])
  }

  function HotspotProducts(store: string, repr: Json -> string): (nat, Json) -> Checked<seq<Product>> {
    (k: nat, hs: Json) => Hotspot(store, hs, repr)
  }

  /** parse_paged_publication: nothing for a value that is not a dict, else the hotspots' products. */
  function PagedProducts(data: Json, store: string, repr: Json -> string): Checked<seq<Product>> {
    if !data.JObj? then Ok([])
    else
      match Iterate(GetOr(data, "hotspots", JArr([])))
      case Raised => Raised
      case Ok(hotspots) => ConcatChecked(hotspots, HotspotProducts(store, repr))
  }

  /** parse_paged_publication, with its loop over the hotspots. */
  method ParsePagedPublication(data: Json, store: string, repr: Json -> string) returns (r: Checked<seq<Product>>)
    ensures r == PagedProducts(data, store, repr)
  {
    if !data.JObj? {
      return Ok([]);
    }
    var hotspots := Iterate(GetOr(data, "hotspots", JArr([])));
    if hotspots.Raised? {
      return Raised;
    }
    var hs := hotspots.value;
    var f := HotspotProducts(store, repr);
    var products: seq<Product> := [];
    var i := 0;
    while i < |hs|
      invariant 0 <= i <= |hs|
      invariant ConcatChecked(hs[..i], f) == Ok(products)
    {
      ConcatCheckedSnoc(hs, f, i);
      var found := Hotspot(store, hs[i], repr);
      if found.Raised? {
        ConcatCheckedRaisedPersists(hs, f, i + 1);
        return Raised;
      }
      products := products + found.value;
      i := i + 1;
    }
    assert hs[..i] == hs;
    r := Ok(products);
  }

  /** The hotspot yields a product exactly when it is a dict with a truthy offer and heading. */
  predicate Emits(hs: Json) {
    hs.JObj? && var offer := GetOr(hs, "offer", JObj([]));
    Truthy(offer) && offer.JObj? && Truthy(GetOr(offer, "heading", JStr("")))
  }

  /**
   * A hotspot contributes at most one product; it contributes one exactly when it emits, and
   * that product is a paged product of the store with the stripped heading, the price as
   * `"<price>:-"` and the description as `"Ord.pris <pre_price>:-"` when those are truthy,
   * and the unit symbol when it is truthy.
   */
  lemma HotspotSpec(store: string, hs: Json, repr: Json -> string)
    requires Hotspot(store, hs, repr).Ok?
    ensures var ps := Hotspot(store, hs, repr).value;
      |ps| <= 1 && (|ps| == 1 <==> Emits(hs)) &&
      (|ps| == 1 ==>
        var offer := GetOr(hs, "offer", JObj([]));
        var pricing := GetOr(offer, "pricing", JObj([]));
        ps[0].Paged? && ps[0].store == store &&
        GetOr(offer, "heading", JStr("")).JStr? && ps[0].name == Strip(GetOr(offer, "heading", JStr("")).s) &&
        var price := GetOr(pricing, "price", JNull);
        var prePrice := GetOr(pricing, "pre_price", JNull);
        var unit := GetOr(GetOr(GetOr(offer, "quantity", JObj([])), "unit", JObj([])), "symbol", JStr(""));
        (if Truthy(price) then ps[0].price == Some(Str(price, repr) + ":-") else ps[0].price.None?) &&
        (if Truthy(prePrice) then ps[0].description == Some("Ord.pris " + Str(prePrice, repr) + ":-")
         else ps[0].description.None?) &&
        ps[0].pagedUnit == (if Truthy(unit) then Some(unit) else None))
  {
    var ps := Hotspot(store, hs, repr).value;
    if |ps| == 1 {
      assert hs.JObj?;
      var offer := GetOr(hs, "offer", JObj([]));
      assert Truthy(offer) && offer.JObj?;
      var name := GetOr(offer, "heading", JStr(""));
      var pricing := GetOr(offer, "pricing", JObj([]));
      var quantity := GetOr(offer, "quantity", JObj([]));
      assert pricing.JObj? && quantity.JObj?;
      var unitObj := GetOr(quantity, "unit", JObj([]));
      assert unitObj.JObj?;
      var price := GetOr(pricing, "price", JNull);
      var prePrice := GetOr(pricing, "pre_price", JNull);
      var unit := GetOr(unitObj, "symbol", JStr(""));
      assert Truthy(name) && name.JStr?;
      assert "" + Str(price, repr) == Str(price, repr);
      assert ps == [Paged(store, Strip(name.s), FormatIfTruthy("", price, ":-", repr),
                          IfTruthy(unit), FormatIfTruthy("Ord.pris ", prePrice, ":-", repr))];
    }
  }

  /** The hotspot loop collects at most one product per hotspot. */
  lemma HotspotsAtMostOne(hotspots: seq<Json>, store: string, repr: Json -> string)
    requires ConcatChecked(hotspots, HotspotProducts(store, repr)).Ok?
    ensures |ConcatChecked(hotspots, HotspotProducts(store, repr)).value| <= |hotspots|
  {
    var f := HotspotProducts(store, repr);
    forall k | 0 <= k < |hotspots| && f(k, hotspots[k]).Ok?
      ensures |f(k, hotspots[k]).value| <= 1
    {
      HotspotSpec(store, hotspots[k], repr);
    }
    ConcatCheckedAtMostOne(hotspots, f);
  }

  /** Each collected product is the one product of an emitting hotspot. */
  lemma HotspotsMember(hotspots: seq<Json>, store: string, repr: Json -> string, p: Product)
    requires ConcatChecked(hotspots, HotspotProducts(store, repr)).Ok?
    requires p in ConcatChecked(hotspots, HotspotProducts(store, repr)).value
    ensures p.Paged? && p.store == store
    ensures exists k :: 0 <= k < |hotspots| && Emits(hotspots[k]) && Hotspot(store, hotspots[k], repr) == Ok([p])
  {
    var f := HotspotProducts(store, repr);
    ConcatCheckedMember(hotspots, f, p);
    var k :| 0 <= k < |hotspots| && f(k, hotspots[k]).Ok? && p in f(k, hotspots[k]).value;
    HotspotSpec(store, hotspots[k], repr);
  }

  /**
   * parse_paged_publication returns nothing for a value that is not a dict, and otherwise at
   * most one product per hotspot, each from a hotspot that emits, all for the given store.
   */
  lemma PagedProductsSpec(data: Json, store: string, repr: Json -> string)
    ensures !data.JObj? ==> PagedProducts(data, store, repr) == Ok([])
    ensures data.JObj? && PagedProducts(data, store, repr).Ok? ==>
      var hotspots := Iterate(GetOr(data, "hotspots", JArr([]))).value;
      var ps := PagedProducts(data, store, repr).value;
      |ps| <= |hotspots| &&
      forall p :: p in ps ==>
        (p.Paged? && p.store == store &&
         exists k :: 0 <= k < |hotspots| && Emits(hotspots[k]) && Hotspot(store, hotspots[k], repr) == Ok([p]))
  {
    if data.JObj? && PagedProducts(data, store, repr).Ok? {
      var hotspots := Iterate(GetOr(data, "hotspots", JArr([]))).value;
      HotspotsAtMostOne(hotspots, store, repr);
      forall p | p in PagedProducts(data, store, repr).value
        ensures p.Paged? && p.store == store &&
          exists k :: 0 <= k < |hotspots| && Emits(hotspots[k]) && Hotspot(store, hotspots[k], repr) == Ok([p])
      {
        HotspotsMember(hotspots, store, repr, p);
      }
    }
  }

  // ---------------------------------------------------------------------------
  // Deduplication in main
  // ---------------------------------------------------------------------------

  /** `(p['store'], p['name'])`. */
  function ProductKey(p: Product): (string, string) {
    (p.store, p.name)
  }

  /** The dedup loop of main: the first product per (store, name). */
  method DedupProducts(products: seq<Product>) returns (unique: seq<Product>)
    ensures unique == FirstPerKey(products, ProductKey)
  {
    var seen: set<(string, string)> := {};
    unique := [];
    var i := 0;
    while i < |products|
      invariant 0 <= i <= |products|
      invariant seen == KeySet(products[..i], ProductKey)
      invariant unique == FirstPerKey(products[..i], ProductKey)
    {
      var p := products[i];
      assert products[..i + 1][..i] == products[..i];
      var key := (p.store, p.name);
      if key !in seen {
        seen := seen + {key};
        unique := unique + [p];
      }
      i := i + 1;
    }
    assert products[..i] == products;
  }

  /** The deduplicated products have distinct keys, keep the input order, and miss no key. */
  lemma DedupSpec(products: seq<Product>)
    ensures DistinctKeys(FirstPerKey(products, ProductKey), ProductKey)
    ensures IsSubsequence(FirstPerKey(products, ProductKey), products)
    ensures KeySet(FirstPerKey(products, ProductKey), ProductKey) == KeySet(products, ProductKey)
  {
    FirstPerKeyDistinct(products, ProductKey);
    FirstPerKeySubsequence(products, ProductKey);
    FirstPerKeyKeySet(products, ProductKey);
  }
}
