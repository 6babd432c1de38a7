/**
 * Sequence helpers shared by the scripts: list comprehensions with a condition, subsequences,
 * and the "first occurrence per key" bookkeeping of the loops that keep a `seen` set.
 * Functions recurse on the last element so that they read like the loops that build them.
 */
module Seqs {
  import opened Wrappers

  /** `[x for x in s if p(x)]`. */
  function Filter<T>(s: seq<T>, p: T -> bool): (r: seq<T>)
    ensures |r| <= |s|
  {
    if s == [] then [] else (if p(s[0]) then [s[0]] else []) + Filter(s[1..], p)
  }

  /** Every element of `s` satisfies `q`. */
  predicate All<T>(s: seq<T>, q: T -> bool) {
    forall k :: 0 <= k < |s| ==> q(s[k])
  }

  /** Every kept element passes the condition. */
  lemma {:induction false} FilterPasses<T>(s: seq<T>, p: T -> bool)
    ensures All(Filter(s, p), p)
  {
    if s != [] {
      FilterPasses(s[1..], p);
    }
  }

  /** Whatever holds of every element of `s` holds of every kept element. */
  lemma {:induction false} FilterKeepsAll<T>(s: seq<T>, p: T -> bool, q: T -> bool)
    requires All(s, q)
    ensures All(Filter(s, p), q)
  {
    if s != [] {
      assert All(s[1..], q) by {
        forall k | 0 <= k < |s[1..]| ensures q(s[1..][k]) { assert s[1..][k] == s[k + 1]; }
      }
      FilterKeepsAll(s[1..], p, q);
    }
  }

  /** Every element of `s` that passes the condition is kept. */
  lemma {:induction false} FilterKeeps<T>(s: seq<T>, p: T -> bool, m: nat)
    requires m < |s| && p(s[m])
    ensures s[m] in Filter(s, p)
  {
    if m > 0 {
      assert s[m] == s[1..][m - 1];
      FilterKeeps(s[1..], p, m - 1);
    }
  }

  lemma {:induction false} FilterAppend<T>(a: seq<T>, b: seq<T>, p: T -> bool)
    ensures Filter(a + b, p) == Filter(a, p) + Filter(b, p)
  {
    if a != [] {
      assert (a + b)[1..] == a[1..] + b;
      FilterAppend(a[1..], b, p);
    } else {
      assert a + b == b;
    }
  }

  lemma FilterCons<T>(x: T, s: seq<T>, p: T -> bool)
    ensures Filter([x] + s, p) == (if p(x) then [x] else []) + Filter(s, p)
  {
    assert ([x] + s)[0] == x && ([x] + s)[1..] == s;
  }

  /** The loop form: appending one element extends the filtered list by at most that element. */
  lemma FilterSnoc<T>(s: seq<T>, x: T, p: T -> bool)
    ensures Filter(s + [x], p) == Filter(s, p) + (if p(x) then [x] else [])
  {
    FilterAppend(s, [x], p);
  }

  /** Filtering by a stronger condition after a weaker one is filtering by the stronger one. */
  lemma {:induction false} FilterFilter<T>(s: seq<T>, p: T -> bool, q: T -> bool)
    requires forall x :: q(x) ==> p(x)
    ensures Filter(Filter(s, p), q) == Filter(s, q)
  {
    if s != [] {
      FilterFilter(s[1..], p, q);
      if p(s[0]) {
        assert Filter(s, p) == [s[0]] + Filter(s[1..], p);
        FilterCons(s[0], Filter(s[1..], p), q);
      } else {
        assert Filter(s, p) == Filter(s[1..], p);
        assert !q(s[0]);
      }
    }
  }

  /** A condition and its negation split the list: their two filters add up to it. */
  lemma {:induction false} FilterComplement<T>(s: seq<T>, p: T -> bool, q: T -> bool)
    requires forall x :: q(x) == !p(x)
    ensures |Filter(s, p)| + |Filter(s, q)| == |s|
  {
    if s != [] {
      FilterComplement(s[1..], p, q);
    }
  }

  /** The loop form over a prefix: one more element of `s` extends the filtered prefix by at most that element. */
  lemma FilterPrefix<T>(s: seq<T>, i: nat, p: T -> bool)
    requires i < |s|
    ensures Filter(s[..i + 1], p) == Filter(s[..i], p) + (if p(s[i]) then [s[i]] else [])
  {
    assert s[..i + 1] == s[..i] + [s[i]];
    FilterSnoc(s[..i], s[i], p);
  }

  /** When every element passes, filtering changes nothing. */
  lemma {:induction false} FilterAll<T>(s: seq<T>, p: T -> bool)
    requires forall k :: 0 <= k < |s| ==> p(s[k])
    ensures Filter(s, p) == s
  {
    if s != [] {
      FilterAll(s[1..], p);
    }
  }

  /** When no element passes, the filtered list is empty. */
  lemma {:induction false} FilterNone<T>(s: seq<T>, p: T -> bool)
    requires forall k :: 0 <= k < |s| ==> !p(s[k])
    ensures Filter(s, p) == []
  {
    if s != [] {
      FilterNone(s[1..], p);
    }
  }

  /** `a` is `b` with some elements deleted. */
  predicate IsSubsequence<T(==)>(a: seq<T>, b: seq<T>)
    decreases |b|
  {
    if a == [] then true
    else if b == [] then false
    else if a[|a| - 1] == b[|b| - 1] then IsSubsequence(a[..|a| - 1], b[..|b| - 1])
    else IsSubsequence(a, b[..|b| - 1])
  }

  lemma {:induction false} SubsequenceOfInit<T>(a: seq<T>, b: seq<T>)
    requires a != [] && IsSubsequence(a, b)
    ensures IsSubsequence(a[..|a| - 1], b)
    decreases |b|, 0
  {
    if a[|a| - 1] == b[|b| - 1] {
      SubsequenceExtend(a[..|a| - 1], b[..|b| - 1], b[|b| - 1]);
      assert b[..|b| - 1] + [b[|b| - 1]] == b;
    } else {
      SubsequenceOfInit(a, b[..|b| - 1]);
      SubsequenceExtend(a[..|a| - 1], b[..|b| - 1], b[|b| - 1]);
      assert b[..|b| - 1] + [b[|b| - 1]] == b;
    }
  }

  /** A subsequence of `b` is a subsequence of `b` extended by one element. */
  lemma {:induction false} SubsequenceExtend<T>(a: seq<T>, b: seq<T>, x: T)
    requires IsSubsequence(a, b)
    ensures IsSubsequence(a, b + [x])
    decreases |b|, 1
  {
    assert (b + [x])[..|b + [x]| - 1] == b;
    if a != [] && a[|a| - 1] == x {
      SubsequenceOfInit(a, b);
    }
  }

  lemma {:induction false} FilterIsSubsequence<T>(s: seq<T>, p: T -> bool)
    ensures IsSubsequence(Filter(s, p), s)
    decreases |s|
  {
    if s != [] {
      var init := s[..|s| - 1];
      var x := s[|s| - 1];
      FilterIsSubsequence(init, p);
      assert init + [x] == s;
      FilterSnoc(init, x, p);
      if p(x) {
        var f := Filter(init, p) + [x];
        assert f[..|f| - 1] == Filter(init, p);
      } else {
        assert Filter(s, p) == Filter(init, p);
        SubsequenceExtend(Filter(init, p), init, x);
      }
    }
  }

  lemma AllSnoc<T>(s: seq<T>, i: nat, q: T -> bool)
    requires i < |s| && All(s[..i], q) && q(s[i])
    ensures All(s[..i + 1], q)
  {
    assert forall k :: 0 <= k < i ==> s[..i + 1][k] == s[..i][k];
  }

  /** Dropping the first two parts of a three-part sequence leaves the third. */
  lemma DropTwo<T>(x: seq<T>, y: seq<T>, z: seq<T>)
    ensures |x| + |y| <= |x + (y + z)| && (x + (y + z))[|x| + |y|..] == z
  {
    assert x + (y + z) == (x + y) + z;
  }

  /** `for i, x in enumerate(s): out.extend(f(i, x))`. */
  function FlatMap<A, B>(s: seq<A>, f: (nat, A) -> seq<B>): seq<B>
    decreases |s|
  {
    if s == [] then [] else FlatMap(s[..|s| - 1], f) + f(|s| - 1, s[|s| - 1])
  }

  lemma FlatMapSnoc<A, B>(s: seq<A>, f: (nat, A) -> seq<B>, i: nat)
    requires i < |s|
    ensures FlatMap(s[..i + 1], f) == FlatMap(s[..i], f) + f(i, s[i])
  {
    assert s[..i + 1][..i] == s[..i];
  }

  /** An element is collected exactly when some position contributes it. */
  lemma {:induction false} FlatMapMember<A, B>(s: seq<A>, f: (nat, A) -> seq<B>, y: B)
    ensures y in FlatMap(s, f) <==> exists k :: 0 <= k < |s| && y in f(k, s[k])
    decreases |s|
  {
    if s != [] {
      var init := s[..|s| - 1];
      FlatMapMember(init, f, y);
      assert forall k :: 0 <= k < |init| ==> init[k] == s[k];
    }
  }

  /** Nothing is collected exactly when no position contributes anything. */
  lemma {:induction false} FlatMapEmpty<A, B>(s: seq<A>, f: (nat, A) -> seq<B>)
    ensures FlatMap(s, f) == [] <==> forall k :: 0 <= k < |s| ==> f(k, s[k]) == []
    decreases |s|
  {
    if s != [] {
      var init := s[..|s| - 1];
      FlatMapEmpty(init, f);
      assert forall k :: 0 <= k < |init| ==> init[k] == s[k];
    }
  }

  /** The set of keys of the elements of `s`. */
  function KeySet<T, K>(s: seq<T>, key: T -> K): (ks: set<K>)
    ensures forall k :: 0 <= k < |s| ==> key(s[k]) in ks
    decreases |s|
  {
    if s == [] then {} else KeySet(s[..|s| - 1], key) + {key(s[|s| - 1])}
  }

  /** Every key in the set is the key of some element. */
  lemma {:induction false} KeySetWitness<T, K>(s: seq<T>, key: T -> K, c: K)
    requires c in KeySet(s, key)
    ensures exists i :: 0 <= i < |s| && key(s[i]) == c
    decreases |s|
  {
    var init := s[..|s| - 1];
    if c != key(s[|s| - 1]) {
      KeySetWitness(init, key, c);
      var i :| 0 <= i < |init| && key(init[i]) == c;
      assert key(s[i]) == c;
    }
  }

  /** No two elements of `s` share a key. */
  predicate DistinctKeys<T, K(==)>(s: seq<T>, key: T -> K) {
    forall i, j :: 0 <= i < j < |s| ==> key(s[i]) != key(s[j])
  }

  /**
   * The loop `for x in s: if key(x) not in seen: seen.add(key(x)); out.append(x)`:
   * the first element of `s` for each key, in order.
   */
  function FirstPerKey<T, K(==)>(s: seq<T>, key: T -> K): seq<T>
    decreases |s|
  {
    if s == [] then []
    else
      var init := s[..|s| - 1];
      FirstPerKey(init, key) + (if key(s[|s| - 1]) in KeySet(init, key) then [] else [s[|s| - 1]])
  }

  /** The positions of `s` whose key already occurred earlier in `s`. */
  function RepeatPositions<T, K(==)>(s: seq<T>, key: T -> K): (ps: seq<nat>)
    ensures forall k :: 0 <= k < |ps| ==> ps[k] < |s|
    decreases |s|
  {
    if s == [] then []
    else
      var init := s[..|s| - 1];
      RepeatPositions(init, key) + (if key(s[|s| - 1]) in KeySet(init, key) then [|s| - 1] else [])
  }

  /** A position is a repeat exactly when its key occurs at some earlier position. */
  lemma {:induction false} RepeatPositionsSpec<T, K>(s: seq<T>, key: T -> K, i: nat)
    requires i < |s|
    ensures i in RepeatPositions(s, key) <==> exists j :: 0 <= j < i && key(s[j]) == key(s[i])
    decreases |s|
  {
    var init := s[..|s| - 1];
    if i < |s| - 1 {
      RepeatPositionsSpec(init, key, i);
      assert init[i] == s[i];
      assert forall j :: 0 <= j < i ==> init[j] == s[j];
    } else {
      assert forall j :: 0 <= j < i ==> init[j] == s[j];
      if exists j :: 0 <= j < i && key(s[j]) == key(s[i]) {
        var j :| 0 <= j < i && key(s[j]) == key(s[i]);
        assert key(init[j]) in KeySet(init, key);
      } else if key(s[i]) in KeySet(init, key) {
        KeySetWitness(init, key, key(s[i]));
      }
    }
  }

  /** First occurrences and repeats split the positions of `s`: |first| + |repeats| == |s|. */
  lemma {:induction false} FirstPerKeyCount<T, K>(s: seq<T>, key: T -> K)
    ensures |FirstPerKey(s, key)| == |KeySet(s, key)|
    ensures |FirstPerKey(s, key)| + |RepeatPositions(s, key)| == |s|
    decreases |s|
  {
    if s != [] {
      FirstPerKeyCount(s[..|s| - 1], key);
    }
  }

  /** The first-per-key loop keeps every key of the input. */
  lemma {:induction false} FirstPerKeyKeySet<T, K>(s: seq<T>, key: T -> K)
    ensures KeySet(FirstPerKey(s, key), key) == KeySet(s, key)
    decreases |s|
  {
    if s != [] {
      var init := s[..|s| - 1];
      var x := s[|s| - 1];
      var f := FirstPerKey(init, key);
      FirstPerKeyKeySet(init, key);
      if key(x) !in KeySet(init, key) {
        var g := f + [x];
        assert FirstPerKey(s, key) == g;
        assert g[..|g| - 1] == f;
        assert KeySet(g, key) == KeySet(f, key) + {key(x)};
      } else {
        assert FirstPerKey(s, key) == f;
      }
    }
  }

  /** The output of the first-per-key loop has distinct keys. */
  lemma {:induction false} FirstPerKeyDistinct<T, K>(s: seq<T>, key: T -> K)
    ensures DistinctKeys(FirstPerKey(s, key), key)
    decreases |s|
  {
    if s != [] {
      var init := s[..|s| - 1];
      var x := s[|s| - 1];
      var f := FirstPerKey(init, key);
      FirstPerKeyDistinct(init, key);
      if key(x) !in KeySet(init, key) {
        FirstPerKeyKeySet(init, key);
        var g := f + [x];
        assert FirstPerKey(s, key) == g;
        forall i | 0 <= i < |f|
          ensures key(g[i]) != key(x)
        {
          assert key(f[i]) in KeySet(f, key);
        }
      }
    }
  }

  /** The first-per-key loop only deletes elements. */
  lemma {:induction false} FirstPerKeySubsequence<T, K>(s: seq<T>, key: T -> K)
    ensures IsSubsequence(FirstPerKey(s, key), s)
    decreases |s|
  {
    if s != [] {
      var init := s[..|s| - 1];
      var x := s[|s| - 1];
      var f := FirstPerKey(init, key);
      FirstPerKeySubsequence(init, key);
      assert init + [x] == s;
      if key(x) in KeySet(init, key) {
        assert FirstPerKey(s, key) == f;
        SubsequenceExtend(f, init, x);
      } else {
        var g := f + [x];
        assert FirstPerKey(s, key) == g;
        assert g[..|g| - 1] == f;
      }
    }
  }

  /**
   * The loop `x = None; for t in s: if g(t) is not None: x = g(t)`: the value of the last
   * element that yields one.
   */
  function Latest<A, B>(s: seq<A>, g: A -> Option<B>): Option<B>
    decreases |s|
  {
    if s == [] then None
    else if g(s[|s| - 1]).Some? then g(s[|s| - 1])
    else Latest(s[..|s| - 1], g)
  }

  lemma LatestSnoc<A, B>(s: seq<A>, g: A -> Option<B>, i: nat)
    requires i < |s|
    ensures Latest(s[..i + 1], g) == if g(s[i]).Some? then g(s[i]) else Latest(s[..i], g)
  {
    assert s[..i + 1][..i] == s[..i];
  }

  /** No element yields a value exactly when the result is None; otherwise it is the last one's. */
  lemma {:induction false} LatestSpec<A, B>(s: seq<A>, g: A -> Option<B>)
    ensures Latest(s, g).None? <==> forall k :: 0 <= k < |s| ==> g(s[k]).None?
    ensures Latest(s, g).Some? ==>
      exists k :: 0 <= k < |s| && g(s[k]) == Latest(s, g) && forall j :: k < j < |s| ==> g(s[j]).None?
    decreases |s|
  {
    if s != [] {
      var init := s[..|s| - 1];
      LatestSpec(init, g);
      assert forall k :: 0 <= k < |init| ==> init[k] == s[k];
      if g(s[|s| - 1]).None? && Latest(init, g).Some? {
        var k :| 0 <= k < |init| && g(init[k]) == Latest(init, g) && forall j :: k < j < |init| ==> g(init[j]).None?;
        assert g(s[k]) == Latest(s, g);
      }
    }
  }

  /** The value at the first position from `i` up to `n` that yields one (a leftmost search). */
  function FirstFrom<B>(at: nat -> Option<B>, i: nat, n: nat): Option<B>
    decreases n - i
  {
    if i > n then None
    else if at(i).Some? then at(i)
    else FirstFrom(at, i + 1, n)
  }

  /** The search finds nothing exactly when no position yields; otherwise the leftmost one's. */
  lemma {:induction false} FirstFromSpec<B>(at: nat -> Option<B>, i: nat, n: nat)
    ensures FirstFrom(at, i, n).None? <==> forall k :: i <= k <= n ==> at(k).None?
    ensures FirstFrom(at, i, n).Some? ==>
      exists k :: i <= k <= n && at(k) == FirstFrom(at, i, n) && forall j :: i <= j < k ==> at(j).None?
    decreases n - i
  {
    if i <= n && at(i).None? {
      FirstFromSpec(at, i + 1, n);
    }
  }
}
