/**
 * Already-parsed JSON values as the scripts see them after `json.load`, with the bits of
 * Python's dynamic typing they rely on: truthiness, `dict.get`, `in`, `len`, iteration and
 * the numeric tower (bool is an int subclass).
 */
module Json {
  import opened Wrappers
  import opened Text
  import opened Seqs

  /** A JSON value. An object is a dict: its entries, in insertion order, with distinct keys. */
  datatype Json =
    | JNull
    | JBool(b: bool)
    | JInt(i: int)
    | JFloat(f: real)
    | JStr(s: string)
    | JArr(items: seq<Json>)
    | JObj(entries: seq<(string, Json)>)

  /** The outcome of a Python call that either returns a value or raises an exception. */
  datatype Checked<+T> = Ok(value: T) | Raised

  /** `[f(x) for x in s]` where `f` may raise: the first exception ends the loop. */
  function MapChecked<A, B>(s: seq<A>, f: A -> Checked<B>): Checked<seq<B>>
    decreases |s|
  {
    if s == [] then Ok([])
    else
      match MapChecked(s[..|s| - 1], f)
      case Raised => Raised
      case Ok(rs) =>
        match f(s[|s| - 1])
        case Raised => Raised
        case Ok(r) => Ok(rs + [r])
  }

  lemma MapCheckedSnoc<A, B>(s: seq<A>, f: A -> Checked<B>, i: nat)
    requires i < |s|
    ensures MapChecked(s[..i + 1], f)
         == match MapChecked(s[..i], f)
            case Raised => Raised
            case Ok(rs) =>
              match f(s[i])
              case Raised => Raised
              case Ok(r) => Ok(rs + [r])
  {
    assert s[..i + 1][..i] == s[..i];
  }

  /** One more element that does not raise extends the results by its value. */
  lemma MapCheckedStep<A, B>(s: seq<A>, f: A -> Checked<B>, i: nat, rs: seq<B>, r: B)
    requires i < |s| && MapChecked(s[..i], f) == Ok(rs) && f(s[i]) == Ok(r)
    ensures MapChecked(s[..i + 1], f) == Ok(rs + [r])
  {
    MapCheckedSnoc(s, f, i);
  }

  /** When every element maps to its value without raising, the loop returns those values. */
  lemma {:induction false} MapCheckedAll<A, B>(s: seq<A>, f: A -> Checked<B>, rs: seq<B>)
    requires |rs| == |s| && forall k :: 0 <= k < |s| ==> f(s[k]) == Ok(rs[k])
    ensures MapChecked(s, f) == Ok(rs)
    decreases |s|
  {
    if s != [] {
      var n := |s| - 1;
      MapCheckedAll(s[..n], f, rs[..n]);
      assert rs[..n] + [rs[n]] == rs;
    }
  }

  /** Once an element has raised, the whole loop raises. */
  lemma {:induction false} MapCheckedRaisedPersists<A, B>(s: seq<A>, f: A -> Checked<B>, i: nat)
    requires i <= |s| && MapChecked(s[..i], f) == Raised
    ensures MapChecked(s, f) == Raised
    decreases |s|
  {
    if i < |s| {
      var init := s[..|s| - 1];
      assert init[..i] == s[..i];
      MapCheckedRaisedPersists(init, f, i);
    } else {
      assert s[..i] == s;
    }
  }

  /** Without an exception, the result has one value per element, in order. */
  lemma {:induction false} MapCheckedOk<A, B>(s: seq<A>, f: A -> Checked<B>)
    requires MapChecked(s, f).Ok?
    ensures |MapChecked(s, f).value| == |s|
    ensures forall k :: 0 <= k < |s| ==> f(s[k]) == Ok(MapChecked(s, f).value[k])
    decreases |s|
  {
    if s != [] {
      var init := s[..|s| - 1];
      MapCheckedOk(init, f);
      assert forall k :: 0 <= k < |init| ==> init[k] == s[k];
    }
  }

  /** The loop raises exactly when some element raises. */
  lemma {:induction false} MapCheckedRaised<A, B>(s: seq<A>, f: A -> Checked<B>)
    ensures MapChecked(s, f).Raised? <==> exists k :: 0 <= k < |s| && f(s[k]).Raised?
    decreases |s|
  {
    if s != [] {
      var init := s[..|s| - 1];
      MapCheckedRaised(init, f);
      assert forall k :: 0 <= k < |init| ==> init[k] == s[k];
    }
  }

  /** `for i, x in enumerate(s): out.extend(f(i, x))` where `f` may raise. */
  function ConcatChecked<A, B>(s: seq<A>, f: (nat, A) -> Checked<seq<B>>): Checked<seq<B>>
    decreases |s|
  {
    if s == [] then Ok([])
    else
      match ConcatChecked(s[..|s| - 1], f)
      case Raised => Raised
      case Ok(rs) =>
        match f(|s| - 1, s[|s| - 1])
        case Raised => Raised
        case Ok(r) => Ok(rs + r)
  }

  lemma ConcatCheckedSnoc<A, B>(s: seq<A>, f: (nat, A) -> Checked<seq<B>>, i: nat)
    requires i < |s|
    ensures ConcatChecked(s[..i + 1], f)
         == match ConcatChecked(s[..i], f)
            case Raised => Raised
            case Ok(rs) =>
              match f(i, s[i])
              case Raised => Raised
              case Ok(r) => Ok(rs + r)
  {
    assert s[..i + 1][..i] == s[..i];
  }

  /** Once an element has raised, the whole loop raises. */
  lemma {:induction false} ConcatCheckedRaisedPersists<A, B>(s: seq<A>, f: (nat, A) -> Checked<seq<B>>, i: nat)
    requires i <= |s| && ConcatChecked(s[..i], f) == Raised
    ensures ConcatChecked(s, f) == Raised
    decreases |s|
  {
    if i < |s| {
      var init := s[..|s| - 1];
      assert init[..i] == s[..i];
      ConcatCheckedRaisedPersists(init, f, i);
    } else {
      assert s[..i] == s;
    }
  }

  /** The loop raises exactly when some element raises. */
  lemma {:induction false} ConcatCheckedRaised<A, B>(s: seq<A>, f: (nat, A) -> Checked<seq<B>>)
    ensures ConcatChecked(s, f).Raised? <==> exists k :: 0 <= k < |s| && f(k, s[k]).Raised?
    decreases |s|
  {
    if s != [] {
      var init := s[..|s| - 1];
      ConcatCheckedRaised(init, f);
      assert forall k :: 0 <= k < |init| ==> init[k] == s[k];
    }
  }

  /** Nothing is collected exactly when no element raises and every element contributes nothing. */
  lemma {:induction false} ConcatCheckedEmpty<A, B>(s: seq<A>, f: (nat, A) -> Checked<seq<B>>)
    ensures ConcatChecked(s, f) == Ok([]) <==> forall k :: 0 <= k < |s| ==> f(k, s[k]) == Ok([])
    decreases |s|
  {
    if s != [] {
      var init := s[..|s| - 1];
      var last := |s| - 1;
      ConcatCheckedEmpty(init, f);
      assert forall k :: 0 <= k < |init| ==> init[k] == s[k];
      match ConcatChecked(init, f)
      case Raised =>
        ConcatCheckedRaised(init, f);
        var k :| 0 <= k < |init| && f(k, init[k]).Raised?;
        assert f(k, s[k]) != Ok([]);
      case Ok(rs) =>
        match f(last, s[last])
        case Raised =>
        case Ok(r) =>
          assert ConcatChecked(s, f) == Ok(rs + r);
          assert rs + r == [] <==> rs == [] && r == [];
    }
  }

  /** Without an exception, an element is collected exactly when some position contributes it. */
  lemma {:induction false} ConcatCheckedMember<A, B>(s: seq<A>, f: (nat, A) -> Checked<seq<B>>, y: B)
    requires ConcatChecked(s, f).Ok?
    ensures y in ConcatChecked(s, f).value <==> exists k :: 0 <= k < |s| && f(k, s[k]).Ok? && y in f(k, s[k]).value
    decreases |s|
  {
    if s != [] {
      var init := s[..|s| - 1];
      ConcatCheckedMember(init, f, y);
      assert forall k :: 0 <= k < |init| ==> init[k] == s[k];
    }
  }

  /** When every position contributes at most one element, at most |s| are collected. */
  lemma {:induction false} ConcatCheckedAtMostOne<A, B>(s: seq<A>, f: (nat, A) -> Checked<seq<B>>)
    requires ConcatChecked(s, f).Ok?
    requires forall k :: 0 <= k < |s| && f(k, s[k]).Ok? ==> |f(k, s[k]).value| <= 1
    ensures |ConcatChecked(s, f).value| <= |s|
    decreases |s|
  {
    if s != [] {
      var init := s[..|s| - 1];
      assert forall k :: 0 <= k < |init| ==> init[k] == s[k];
      ConcatCheckedAtMostOne(init, f);
    }
  }

  /** `acc = init; for x in s: acc = f(acc, x)` where `f` may raise. */
  function FoldChecked<A, S>(s: seq<A>, init: S, f: (S, A) -> Checked<S>): Checked<S>
    decreases |s|
  {
    if s == [] then Ok(init)
    else
      match FoldChecked(s[..|s| - 1], init, f)
      case Raised => Raised
      case Ok(acc) => f(acc, s[|s| - 1])
  }

  lemma FoldCheckedSnoc<A, S>(s: seq<A>, init: S, f: (S, A) -> Checked<S>, i: nat)
    requires i < |s|
    ensures FoldChecked(s[..i + 1], init, f)
         == match FoldChecked(s[..i], init, f)
            case Raised => Raised
            case Ok(acc) => f(acc, s[i])
  {
    assert s[..i + 1][..i] == s[..i];
  }

  /** Once a step has raised, the whole loop raises. */
  lemma {:induction false} FoldCheckedRaisedPersists<A, S>(s: seq<A>, init: S, f: (S, A) -> Checked<S>, i: nat)
    requires i <= |s| && FoldChecked(s[..i], init, f) == Raised
    ensures FoldChecked(s, init, f) == Raised
    decreases |s|
  {
    if i < |s| {
      var init' := s[..|s| - 1];
      assert init'[..i] == s[..i];
      FoldCheckedRaisedPersists(init', init, f, i);
    } else {
      assert s[..i] == s;
    }
  }

  /** The type of a value, as Python's `type(x)` names it, for error messages. */
  datatype Kind = NoneType | BoolType | IntType | FloatType | StrType | ListType | DictType

  function KindOf(j: Json): Kind {
    match j
    case JNull => NoneType
    case JBool(_) => BoolType
    case JInt(_) => IntType
    case JFloat(_) => FloatType
    case JStr(_) => StrType
    case JArr(_) => ListType
    case JObj(_) => DictType
  }

  /** Python's `bool(x)`. */
  predicate Truthy(j: Json) {
    match j
    case JNull => false
    case JBool(b) => b
    case JInt(i) => i != 0
    case JFloat(f) => f != 0.0
    case JStr(s) => s != ""
    case JArr(items) => items != []
    case JObj(entries) => entries != []
  }

  function Lookup(entries: seq<(string, Json)>, key: string): (r: Option<Json>)
    ensures r.Some? ==> (key, r.value) in entries
    ensures r.None? ==> forall k :: 0 <= k < |entries| ==> entries[k].0 != key
  {
    if entries == [] then None
    else if entries[0].0 == key then Some(entries[0].1)
    else Lookup(entries[1..], key)
  }

  /** A dict's value for a key is the one at the key's first position. */
  lemma {:induction false} LookupAt(entries: seq<(string, Json)>, key: string, k: nat)
    requires k < |entries| && entries[k].0 == key
    requires forall j :: 0 <= j < k ==> entries[j].0 != key
    ensures Lookup(entries, key) == Some(entries[k].1)
  {
    if k > 0 {
      LookupAt(entries[1..], key, k - 1);
    }
  }

  /** Looking a key up in two lists of entries one after the other. */
  lemma {:induction false} LookupAppend(a: seq<(string, Json)>, b: seq<(string, Json)>, key: string)
    ensures Lookup(a + b, key) == if Lookup(a, key).Some? then Lookup(a, key) else Lookup(b, key)
  {
    if a != [] {
      assert (a + b)[1..] == a[1..] + b;
      LookupAppend(a[1..], b, key);
    } else {
      assert a + b == b;
    }
  }

  /** Python's `key in d` for a dict `d` (false for any other value). */
  predicate HasKey(j: Json, key: string) {
    j.JObj? && Lookup(j.entries, key).Some?
  }

  /** Python's `d.get(key, default)` for a dict `d`. */
  function GetOr(j: Json, key: string, default: Json): Json
    requires j.JObj?
  {
    Lookup(j.entries, key).GetOr(default)
  }

  /** Python's `d.get(key)`: None (JNull) when the key is absent. */
  function Get(j: Json, key: string): Json
    requires j.JObj?
  {
    GetOr(j, key, JNull)
  }

  /** Python's `d[key]` for a dict `d`: KeyError when the key is absent. */
  function Subscript(j: Json, key: string): (r: Checked<Json>)
    requires j.JObj?
    ensures r.Raised? <==> !HasKey(j, key)
    ensures r.Ok? ==> r.value == Get(j, key)
  {
    match Lookup(j.entries, key)
    case None => Raised
    case Some(v) => Ok(v)
  }

  /**
   * What `for x in j` iterates over: the items of a list, the one-character strings of a
   * string, the keys of a dict; iterating anything else raises TypeError.
   */
  function Iterate(j: Json): (r: Checked<seq<Json>>)
    ensures j.JArr? ==> r == Ok(j.items)
  {
    match j
    case JArr(items) => Ok(items)
    case JStr(s) => Ok(seq(|s|, k requires 0 <= k < |s| => JStr([s[k]])))
    case JObj(entries) => Ok(seq(|entries|, k requires 0 <= k < |entries| => JStr(entries[k].0)))
    case _ => Raised
  }

  /** `d.get(key, default)` where `d` may be any value: `.get` on a non-dict raises AttributeError. */
  function GetChecked(j: Json, key: string, default: Json): Checked<Json> {
    if j.JObj? then Ok(GetOr(j, key, default)) else Raised
  }

  /** Python's `d.values()`, in insertion order. */
  function Values(entries: seq<(string, Json)>): (vs: seq<Json>)
    ensures |vs| == |entries|
    ensures forall k :: 0 <= k < |entries| ==> vs[k] == entries[k].1
  {
    if entries == [] then [] else [entries[0].1] + Values(entries[1..])
  }

  /** `isinstance(x, (int, float))`; note that a bool is an int in Python. */
  predicate IsNumber(j: Json) {
    j.JBool? || j.JInt? || j.JFloat?
  }

  /** `isinstance(x, int)`, which holds of bools too. */
  predicate IsInt(j: Json) {
    j.JBool? || j.JInt?
  }

  /** The numeric value of an int, float or bool. */
  function NumberValue(j: Json): real
    requires IsNumber(j)
  {
    match j
    case JBool(b) => if b then 1.0 else 0.0
    case JInt(i) => i as real
    case JFloat(f) => f
  }

  /**
   * Python's `str(x)`, which is also what an f-string writes for `{x}`: a string as it is, an
   * int in decimal, `True`, `False` and `None`. Floats, lists and dicts go through `repr`, a
   * parameter: their text rests on Python's shortest round-trip printing of floats.
   */
  function Str(j: Json, repr: Json -> string): string {
    match j
    case JStr(s) => s
    case JInt(i) => IntToString(i)
    case JBool(b) => if b then "True" else "False"
    case JNull => "None"
    case _ => repr(j)
  }

  /** Python's `len(x)`: defined for strings, lists and dicts; anything else raises TypeError. */
  function Len(j: Json): Checked<nat> {
    match j
    case JStr(s) => Ok(|s|)
    case JArr(items) => Ok(|items|)
    case JObj(entries) => Ok(|entries|)
    case _ => Raised
  }

  /**
   * The representative Python's `==` and `hash` see: `True == 1 == 1.0`, so the numeric
   * types compare by value.
   */
  function Canon(j: Json): (c: Json)
    ensures IsNumber(j) ==> c == JFloat(NumberValue(j))
    ensures !IsNumber(j) ==> c == j
  {
    if IsNumber(j) then JFloat(NumberValue(j)) else j
  }

  /**
   * Python's `a == b` on the values JSON holds: numbers by value whatever their type, lists
   * item by item, dicts by their keys and the values under them, whatever the key order;
   * values of different kinds are unequal. It never raises.
   */
  predicate PyEq(a: Json, b: Json)
    decreases a
  {
    if IsNumber(a) || IsNumber(b) then IsNumber(a) && IsNumber(b) && NumberValue(a) == NumberValue(b)
    else match a
      case JArr(xs) =>
        b.JArr? && |xs| == |b.items| && forall k :: 0 <= k < |xs| ==> PyEq(xs[k], b.items[k])
      case JObj(es) =>
        b.JObj? && |es| == |b.entries|
        && forall k :: 0 <= k < |es| ==>
             Lookup(b.entries, es[k].0).Some? && PyEq(es[k].1, Lookup(b.entries, es[k].0).value)
      case _ => a == b
  }

  /** The first position at which two lists hold unequal items, or the length of the shorter one. */
  function FirstDifference(xs: seq<Json>, ys: seq<Json>): (i: nat)
    ensures i <= |xs| && i <= |ys|
    ensures forall k :: 0 <= k < i ==> PyEq(xs[k], ys[k])
    ensures i < |xs| && i < |ys| ==> !PyEq(xs[i], ys[i])
  {
    if xs == [] || ys == [] || !PyEq(xs[0], ys[0]) then 0
    else 1 + FirstDifference(xs[1..], ys[1..])
  }

  /**
   * Python's `a > b` on the values JSON holds: numbers by value, strings by code points,
   * lists lexicographically (the first unequal pair of items decides, and otherwise the
   * longer list is greater). `None`, a dict, or two values of different kinds raise TypeError.
   */
  function Greater(a: Json, b: Json): Checked<bool>
    decreases a
  {
    if IsNumber(a) && IsNumber(b) then Ok(NumberValue(b) < NumberValue(a))
    else if a.JStr? && b.JStr? then Ok(StrLess(b.s, a.s))
    else if a.JArr? && b.JArr? then
      var i := FirstDifference(a.items, b.items);
      if i < |a.items| && i < |b.items| then Greater(a.items[i], b.items[i])
      else Ok(|a.items| > |b.items|)
    else Raised
  }

  /** Two lists with equal items up to the shorter length compare by length alone. */
  lemma GreaterListsPrefix(xs: seq<Json>, ys: seq<Json>)
    requires forall k :: 0 <= k < |xs| && k < |ys| ==> PyEq(xs[k], ys[k])
    ensures Greater(JArr(xs), JArr(ys)) == Ok(|xs| > |ys|)
  {
    var i := FirstDifference(xs, ys);
    assert !(i < |xs| && i < |ys|);
  }

  /** Two lists whose first unequal pair sits at `i` compare as that pair does. */
  lemma GreaterListsAt(xs: seq<Json>, ys: seq<Json>, i: nat)
    requires i < |xs| && i < |ys| && !PyEq(xs[i], ys[i])
    requires forall k :: 0 <= k < i ==> PyEq(xs[k], ys[k])
    ensures Greater(JArr(xs), JArr(ys)) == Greater(xs[i], ys[i])
  {
    assert FirstDifference(xs, ys) == i;
  }

  /** Python's hashability: lists and dicts cannot be set members or dict keys. */
  predicate Hashable(j: Json) {
    !j.JArr? && !j.JObj?
  }

  // ---------------------------------------------------------------------------
  // Copying the truthy fields of a dict
  // ---------------------------------------------------------------------------

  /** `if d.get(key): out[name] = d[key]`, as the entries it adds. */
  function CopyIfTruthy(d: Json, key: string, name: string): seq<(string, Json)>
    requires d.JObj?
  {
    if Truthy(Get(d, key)) then [(name, Get(d, key))] else []
  }

  /** `for f in fields: if d.get(f): out[f] = d[f]`, one field at a time. */
  function OptionalCheck(d: Json): (nat, string) -> seq<(string, Json)>
    requires d.JObj?
  {
    (k: nat, field: string) => CopyIfTruthy(d, field, field)
  }

  /** The copied fields answer a lookup of a field exactly when it is listed and truthy. */
  lemma {:induction false} LookupCopied(d: Json, fields: seq<string>, f: string)
    requires d.JObj?
    ensures Lookup(FlatMap(fields, OptionalCheck(d)), f) == if f in fields && Truthy(Get(d, f)) then Some(Get(d, f)) else None
    decreases |fields|
  {
    if fields != [] {
      var init := fields[..|fields| - 1];
      var last := fields[|fields| - 1];
      LookupCopied(d, init, f);
      LookupAppend(FlatMap(init, OptionalCheck(d)), CopyIfTruthy(d, last, last), f);
      assert f in fields <==> f in init || f == last;
    }
  }

  /** Every copied entry is named after one of the fields. */
  lemma CopiedKeys(d: Json, fields: seq<string>)
    requires d.JObj?
    ensures var o := FlatMap(fields, OptionalCheck(d));
            forall k :: 0 <= k < |o| ==> o[k].0 in fields && Truthy(o[k].1) && o[k].1 == Get(d, o[k].0)
  {
    var o := FlatMap(fields, OptionalCheck(d));
    forall k | 0 <= k < |o|
      ensures o[k].0 in fields && Truthy(o[k].1) && o[k].1 == Get(d, o[k].0)
    {
      FlatMapMember(fields, OptionalCheck(d), o[k]);
    }
  }
}
