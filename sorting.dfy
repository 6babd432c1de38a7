/**
 * Python's `list.sort(key=..., reverse=True)`: a stable sort into descending key order.
 * Elements with equal keys keep their original relative order. Keys are pairs compared
 * lexicographically, which covers both the single-number keys and the tuple keys of the scripts.
 */
module Sorting {
  import opened Seqs
  import opened Text

  type Key = (real, real)

  /** Lexicographic `a < b` on key pairs. */
  predicate Below(a: Key, b: Key) {
    a.0 < b.0 || (a.0 == b.0 && a.1 < b.1)
  }

  predicate SortedDesc<T>(s: seq<T>, key: T -> Key) {
    forall i, j :: 0 <= i < j < |s| ==> !Below(key(s[i]), key(s[j]))
  }

  /** Places `x` before the first element of `s` whose key is not above `x`'s. */
  function Insert<T>(x: T, s: seq<T>, key: T -> Key): (r: seq<T>)
    ensures |r| == |s| + 1
  {
    if s == [] then [x]
    else if Below(key(x), key(s[0])) then
      [s[0]] + Insert(x, s[1..], key)
    else
      [x] + s
  }

  lemma {:induction false} InsertKeepsAll<T>(x: T, s: seq<T>, key: T -> Key, q: T -> bool)
    requires q(x) && All(s, q)
    ensures All(Insert(x, s, key), q)
  {
    if s != [] && Below(key(x), key(s[0])) {
      assert All(s[1..], q) by {
        forall k | 0 <= k < |s[1..]| ensures q(s[1..][k]) { assert s[1..][k] == s[k + 1]; }
      }
      InsertKeepsAll(x, s[1..], key, q);
      var r := [s[0]] + Insert(x, s[1..], key);
      forall k | 0 < k < |r| ensures q(r[k]) { assert r[k] == Insert(x, s[1..], key)[k - 1]; }
    }
  }

  lemma {:induction false} InsertSorted<T>(x: T, s: seq<T>, key: T -> Key)
    requires SortedDesc(s, key)
    ensures SortedDesc(Insert(x, s, key), key)
  {
    if s != [] && Below(key(x), key(s[0])) {
      var t := s[1..];
      var rest := Insert(x, t, key);
      InsertSorted(x, t, key);
      var notAbove := (y: T) => !Below(key(s[0]), key(y));
      assert All(t, notAbove) by {
        forall k | 0 <= k < |t| ensures notAbove(t[k]) { assert t[k] == s[k + 1]; }
      }
      InsertKeepsAll(x, t, key, notAbove);
      var r := [s[0]] + rest;
      forall j | 0 < j < |r|
        ensures !Below(key(r[0]), key(r[j]))
      {
        assert r[j] == rest[j - 1];
      }
    }
  }

  lemma {:induction false} InsertPermutes<T>(x: T, s: seq<T>, key: T -> Key)
    ensures multiset(Insert(x, s, key)) == multiset(s) + multiset{x}
  {
    if s != [] && Below(key(x), key(s[0])) {
      InsertPermutes(x, s[1..], key);
      assert s == [s[0]] + s[1..];
    }
  }

  function SortDesc<T>(s: seq<T>, key: T -> Key): (r: seq<T>)
    ensures |r| == |s|
    ensures SortedDesc(r, key)
  {
    if s == [] then []
    else
      InsertSorted(s[0], SortDesc(s[1..], key), key);
      Insert(s[0], SortDesc(s[1..], key), key)
  }

  /** Sorting only reorders: the result is a permutation of the input. */
  lemma {:induction false} SortDescPermutes<T>(s: seq<T>, key: T -> Key)
    ensures multiset(SortDesc(s, key)) == multiset(s)
  {
    if s != [] {
      SortDescPermutes(s[1..], key);
      InsertPermutes(s[0], SortDesc(s[1..], key), key);
      assert s == [s[0]] + s[1..];
    }
  }

  /** Whatever holds of every element holds of every element after sorting. */
  lemma {:induction false} SortDescKeepsAll<T>(s: seq<T>, key: T -> Key, q: T -> bool)
    requires All(s, q)
    ensures All(SortDesc(s, key), q)
  {
    if s != [] {
      assert All(s[1..], q) by {
        forall k | 0 <= k < |s[1..]| ensures q(s[1..][k]) { assert s[1..][k] == s[k + 1]; }
      }
      SortDescKeepsAll(s[1..], key, q);
      InsertKeepsAll(s[0], SortDesc(s[1..], key), key, q);
    }
  }

  function HasKey<T>(key: T -> Key, k: Key): T -> bool {
    x => key(x) == k
  }

  /** The elements carrying key `k`, in order. */
  function WithKey<T>(s: seq<T>, key: T -> Key, k: Key): seq<T> {
    Filter(s, HasKey(key, k))
  }

  lemma {:induction false} InsertWithKey<T>(x: T, s: seq<T>, key: T -> Key, k: Key)
    ensures WithKey(Insert(x, s, key), key, k) == WithKey([x] + s, key, k)
    decreases |s|
  {
    if s != [] && Below(key(x), key(s[0])) {
      var p := HasKey(key, k);
      var t := s[1..];
      var one := (y: T) => if p(y) then [y] else [];
      assert s == [s[0]] + t;
      calc {
        WithKey(Insert(x, s, key), key, k);
        Filter([s[0]] + Insert(x, t, key), p);
        { FilterCons(s[0], Insert(x, t, key), p); }
        one(s[0]) + Filter(Insert(x, t, key), p);
        { InsertWithKey(x, t, key, k); }
        one(s[0]) + Filter([x] + t, p);
        { FilterCons(x, t, p); }
        one(s[0]) + (one(x) + Filter(t, p));
        { assert one(s[0]) == [] || one(x) == []; }
        one(x) + (one(s[0]) + Filter(t, p));
        { FilterCons(s[0], t, p); }
        one(x) + Filter(s, p);
        { FilterCons(x, s, p); }
        Filter([x] + s, p);
      }
    }
  }

  /** Stability: sorting does not reorder elements whose keys are equal. */
  lemma {:induction false} SortDescStable<T>(s: seq<T>, key: T -> Key, k: Key)
    ensures WithKey(SortDesc(s, key), key, k) == WithKey(s, key, k)
  {
    if s != [] {
      var p := HasKey(key, k);
      SortDescStable(s[1..], key, k);
      InsertWithKey(s[0], SortDesc(s[1..], key), key, k);
      FilterCons(s[0], SortDesc(s[1..], key), p);
      FilterCons(s[0], s[1..], p);
      assert s == [s[0]] + s[1..];
    }
  }

  lemma {:induction false} InsertFront<T>(x: T, s: seq<T>, key: T -> Key, p: T -> bool)
    requires SortedDesc(s, key)
    requires s != [] && !Below(key(x), key(s[0]))
    ensures Insert(x, Filter(s, p), key) == [x] + Filter(s, p)
  {
    var notAbove := (y: T) => !Below(key(x), key(y));
    assert All(s, notAbove) by {
      forall k | 0 <= k < |s| ensures notAbove(s[k]) {
        if k > 0 { assert !Below(key(s[0]), key(s[k])); }
      }
    }
    FilterKeepsAll(s, p, notAbove);
  }

  lemma {:induction false} InsertFilter<T>(x: T, s: seq<T>, key: T -> Key, p: T -> bool)
    requires SortedDesc(s, key)
    ensures Filter(Insert(x, s, key), p)
         == if p(x) then Insert(x, Filter(s, p), key) else Filter(s, p)
    decreases |s|
  {
    if s == [] {
      FilterCons(x, [], p);
    } else if Below(key(x), key(s[0])) {
      var t := s[1..];
      var f := Filter(t, p);
      assert s == [s[0]] + t;
      InsertFilter(x, t, key, p);
      FilterCons(s[0], Insert(x, t, key), p);
      FilterCons(s[0], t, p);
      if p(s[0]) && p(x) {
        calc {
          Filter(Insert(x, s, key), p);
          [s[0]] + Filter(Insert(x, t, key), p);
          [s[0]] + Insert(x, f, key);
          { assert ([s[0]] + f)[0] == s[0] && ([s[0]] + f)[1..] == f; }
          Insert(x, [s[0]] + f, key);
          Insert(x, Filter(s, p), key);
        }
      } else if p(s[0]) {
        assert Filter(Insert(x, s, key), p) == [s[0]] + f;
      } else if p(x) {
        assert Filter(Insert(x, s, key), p) == Insert(x, f, key);
        assert Filter(s, p) == f;
      } else {
        assert Filter(Insert(x, s, key), p) == f;
      }
    } else {
      FilterCons(x, s, p);
      if p(x) {
        InsertFront(x, s, key, p);
      }
    }
  }

  /** Filtering after sorting is the same as sorting after filtering. */
  lemma {:induction false} SortDescFilter<T>(s: seq<T>, key: T -> Key, p: T -> bool)
    ensures Filter(SortDesc(s, key), p) == SortDesc(Filter(s, p), key)
  {
    if s != [] {
      var t := s[1..];
      var f := Filter(t, p);
      assert s == [s[0]] + t;
      FilterCons(s[0], t, p);
      SortDescFilter(t, key, p);
      InsertFilter(s[0], SortDesc(t, key), key, p);
      if p(s[0]) {
        assert Filter(s, p) == [s[0]] + f;
        assert ([s[0]] + f)[0] == s[0] && ([s[0]] + f)[1..] == f;
        assert SortDesc(Filter(s, p), key) == Insert(s[0], SortDesc(f, key), key);
      } else {
        assert Filter(s, p) == f;
      }
    }
  }

  /**
   * If `p` holds of an element then it holds of every element whose key is not below it
   * (a threshold on the key), the elements of a sorted list passing `p` are a prefix of it.
   */
  lemma {:induction false} UpwardFilterIsPrefix<T>(s: seq<T>, key: T -> Key, p: T -> bool)
    requires SortedDesc(s, key)
    requires forall x, y :: p(y) && !Below(key(x), key(y)) ==> p(x)
    ensures Filter(s, p) == s[..|Filter(s, p)|]
  {
    if s != [] {
      UpwardFilterIsPrefix(s[1..], key, p);
      if !p(s[0]) {
        forall k | 0 <= k < |s[1..]|
          ensures !p(s[1..][k])
        {
          assert s[1..][k] == s[k + 1];
        }
        FilterNone(s[1..], p);
      } else {
        assert s == [s[0]] + s[1..];
      }
    }
  }

  /** The position of the first element of `s` whose key is maximal. */
  function FirstMax<T>(s: seq<T>, key: T -> Key): (j: nat)
    requires s != []
    ensures j < |s|
    ensures forall i :: 0 <= i < |s| ==> !Below(key(s[j]), key(s[i]))
    ensures forall i :: 0 <= i < j ==> Below(key(s[i]), key(s[j]))
  {
    if |s| == 1 then 0
    else
      var j := FirstMax(s[1..], key);
      assert forall i :: 1 <= i < |s| ==> s[i] == s[1..][i - 1];
      if Below(key(s[0]), key(s[1 + j])) then 1 + j else 0
  }

  /** The head of the sorted list is the first element with the largest key. */
  lemma {:induction false} SortDescHead<T>(s: seq<T>, key: T -> Key)
    requires s != []
    ensures SortDesc(s, key)[0] == s[FirstMax(s, key)]
  {
    if |s| > 1 {
      SortDescHead(s[1..], key);
    }
  }

  // ---------------------------------------------------------------------------------------
  // sorted() of a set of strings

  /** Strictly ascending in Python's string order, hence without repetitions. */
  predicate Ascending(r: seq<string>) {
    forall i, j :: 0 <= i < j < |r| ==> StrLess(r[i], r[j])
  }

  lemma HeadIn<T>(s: seq<T>)
    ensures s != [] ==> s[0] in s
  {
  }

  predicate NoRepeats(s: seq<string>) {
    forall i, j :: 0 <= i < j < |s| ==> s[i] != s[j]
  }

  /** Places `x` before the first element of `r` that is not below it. */
  function InsertAsc(x: string, r: seq<string>): (q: seq<string>)
    ensures multiset(q) == multiset(r) + multiset{x}
    ensures |q| == |r| + 1
  {
    if r == [] then [x]
    else if StrLess(r[0], x) then
      assert r == [r[0]] + r[1..];
      [r[0]] + InsertAsc(x, r[1..])
    else [x] + r
  }

  lemma {:induction false} InsertAscAscending(x: string, r: seq<string>)
    requires Ascending(r) && x !in r
    ensures Ascending(InsertAsc(x, r))
  {
    if r != [] && StrLess(r[0], x) {
      var t := r[1..];
      assert Ascending(t) by {
        assert forall i :: 0 <= i < |t| ==> t[i] == r[i + 1];
      }
      InsertAscAscending(x, t);
      var q := [r[0]] + InsertAsc(x, t);
      forall j | 0 < j < |q|
        ensures StrLess(r[0], q[j])
      {
        var y := q[j];
        assert y in multiset(InsertAsc(x, t));
        assert y == x || y in multiset(t);
        if y != x {
          var k :| 0 <= k < |t| && t[k] == y;
          assert r[k + 1] == y;
        }
      }
    } else if r != [] {
      StrLessTotal(r[0], x);
      assert StrLess(x, r[0]);
      forall j | 0 < j < |r|
        ensures StrLess(x, r[j])
      {
        StrLessTransitive(x, r[0], r[j]);
      }
    }
  }

  /** `sorted(s)` for strings: an insertion sort into ascending order. */
  function SortAsc(s: seq<string>): (r: seq<string>)
    ensures multiset(r) == multiset(s)
  {
    if s == [] then []
    else
      assert s == [s[0]] + s[1..];
      InsertAsc(s[0], SortAsc(s[1..]))
  }

  /** Sorting a sequence without repetitions gives a strictly ascending sequence of the same elements. */
  lemma {:induction false} SortAscAscending(s: seq<string>)
    requires NoRepeats(s)
    ensures Ascending(SortAsc(s))
  {
    if s != [] {
      var t := s[1..];
      assert NoRepeats(t) by {
        assert forall i :: 0 <= i < |t| ==> t[i] == s[i + 1];
      }
      SortAscAscending(t);
      assert s[0] !in t by {
        assert forall k :: 0 <= k < |t| ==> t[k] == s[k + 1];
      }
      assert s[0] !in multiset(SortAsc(t));
      InsertAscAscending(s[0], SortAsc(t));
    }
  }

  /** Two strictly ascending sequences with the same elements are equal: the order of a set does not matter to `sorted`. */
  lemma {:induction false} AscendingUnique(a: seq<string>, b: seq<string>)
    requires Ascending(a) && Ascending(b)
    requires forall x :: x in a <==> x in b
    ensures a == b
    decreases |a|
  {
    if a != [] && b != [] {
      var a0, b0 := a[0], b[0];
      if a0 != b0 {
        assert a0 in a && b0 in b;
        var i :| 0 <= i < |b| && b[i] == a0;
        var j :| 0 <= j < |a| && a[j] == b0;
        assert i > 0 && j > 0;
        assert StrLess(b0, a0) && StrLess(a0, b0);
        StrLessAsymmetric(a0, b0);
      }
      forall x | x in a[1..]
        ensures x in b[1..]
      {
        var i :| 0 < i < |a| && a[i] == x;
        StrLessIrreflexive(a0);
        assert x in a && x in b;
        var j :| 0 <= j < |b| && b[j] == x;
        if j == 0 { StrLessIrreflexive(x); }
      }
      forall x | x in b[1..]
        ensures x in a[1..]
      {
        var j :| 0 < j < |b| && b[j] == x;
        StrLessIrreflexive(b0);
        assert x in b && x in a;
        var i :| 0 <= i < |a| && a[i] == x;
        if i == 0 { StrLessIrreflexive(x); }
      }
      assert Ascending(a[1..]) by {
        assert forall i :: 0 <= i < |a| - 1 ==> a[1..][i] == a[i + 1];
      }
      assert Ascending(b[1..]) by {
        assert forall i :: 0 <= i < |b| - 1 ==> b[1..][i] == b[i + 1];
      }
      AscendingUnique(a[1..], b[1..]);
      assert a == [a0] + a[1..] && b == [b0] + b[1..];
    } else {
      HeadIn(a);
      HeadIn(b);
    }
  }

  /** Ascending sequences have no repetitions. */
  lemma AscendingDistinct(r: seq<string>, i: nat, j: nat)
    requires Ascending(r) && i < |r| && j < |r| && r[i] == r[j]
    ensures i == j
  {
    if i < j {
      assert StrLess(r[i], r[j]);
      StrLessIrreflexive(r[i]);
    } else if j < i {
      assert StrLess(r[j], r[i]);
      StrLessIrreflexive(r[i]);
    }
  }

  /** `{x: i for i, x in enumerate(r)}`: later positions overwrite earlier ones. */
  function IndexMap(r: seq<string>): (m: map<string, nat>)
    ensures m.Keys == set x | x in r
    decreases |r|
  {
    if r == [] then map[]
    else
      var init := r[..|r| - 1];
      assert forall x :: x in r <==> x in init || x == r[|r| - 1];
      IndexMap(init)[r[|r| - 1] := |r| - 1]
  }

  /** On a sequence without repetitions, the index map and the sequence are inverse. */
  lemma {:induction false} IndexMapInverse(r: seq<string>)
    requires Ascending(r)
    ensures forall i :: 0 <= i < |r| ==> IndexMap(r)[r[i]] == i
    ensures forall x :: x in IndexMap(r) ==> IndexMap(r)[x] < |r| && r[IndexMap(r)[x]] == x
    decreases |r|
  {
    if r != [] {
      var init := r[..|r| - 1];
      assert Ascending(init) by {
        assert forall i :: 0 <= i < |init| ==> init[i] == r[i];
      }
      IndexMapInverse(init);
      forall i | 0 <= i < |r|
        ensures IndexMap(r)[r[i]] == i
      {
        if i < |r| - 1 {
          if r[i] == r[|r| - 1] {
            AscendingDistinct(r, i, |r| - 1);
          }
          assert init[i] == r[i];
        }
      }
    }
  }
}
