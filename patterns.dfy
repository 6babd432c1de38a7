/**
 * The regular-expression substitutions the ingredient and instruction cleaners apply. Each
 * pattern is written as a matcher: a function from the text at a position to the length of
 * the match starting there, if any. The patterns involved chain character classes that are
 * disjoint where they meet, so the greedy runs are the only candidates and no backtracking
 * has to be modelled.
 */
module Patterns {
  import opened Wrappers
  import opened Text

  /** The length of the match at the start of a text, if there is one. */
  type Matcher = string -> Option<nat>

  /** The matcher finds a non-empty match that fits in the text. */
  predicate Hit(m: Matcher, t: string) {
    m(t).Some? && 0 < m(t).value <= |t|
  }

  /**
   * `re.sub(pattern, rep, s)` for a pattern that never matches the empty string and whose
   * match at a position depends only on the text from that position on: scan left to right,
   * replace each match and go on after it.
   */
  function SubAll(s: string, m: Matcher, rep: string): string
    decreases |s|
  {
    if s == [] then []
    else if Hit(m, s) then rep + SubAll(s[m(s).value..], m, rep)
    else [s[0]] + SubAll(s[1..], m, rep)
  }

  /** `re.sub('^...', rep, s)`: an anchored pattern is replaced at most once, at the start. */
  function SubFirst(s: string, m: Matcher, rep: string): string {
    if Hit(m, s) then rep + s[m(s).value..] else s
  }

  /** Where nothing matches, the substitution changes nothing. */
  lemma {:induction false} SubAllIdentity(s: string, m: Matcher, rep: string)
    requires forall i :: 0 <= i < |s| ==> !Hit(m, s[i..])
    ensures SubAll(s, m, rep) == s
    decreases |s|
  {
    if s != [] {
      assert s[0..] == s;
      forall i | 0 <= i < |s[1..]| ensures !Hit(m, s[1..][i..]) {
        assert s[1..][i..] == s[i + 1..];
      }
      SubAllIdentity(s[1..], m, rep);
    }
  }

  /** A prefix in which no match starts is copied as it is. */
  lemma {:induction false} SubAllSkip(a: string, b: string, m: Matcher, rep: string)
    requires forall i :: 0 <= i < |a| ==> !Hit(m, (a + b)[i..])
    ensures SubAll(a + b, m, rep) == a + SubAll(b, m, rep)
    decreases |a|
  {
    if a != [] {
      assert (a + b)[0..] == a + b;
      assert (a + b)[1..] == a[1..] + b;
      forall i | 0 <= i < |a[1..]| ensures !Hit(m, (a[1..] + b)[i..]) {
        assert (a[1..] + b)[i..] == (a + b)[i + 1..];
      }
      SubAllSkip(a[1..], b, m, rep);
    } else {
      assert a + b == b;
    }
  }

  /** A match at the start of the text is replaced and the scan resumes after it. */
  lemma SubAllHit(s: string, m: Matcher, rep: string, e: nat)
    requires m(s).Some? && m(s).value == e && 0 < e <= |s|
    ensures SubAll(s, m, rep) == rep + SubAll(s[e..], m, rep)
  {
  }

  /** A match right after an unmatched prefix is replaced, and the scan goes on with what follows it. */
  lemma SubAllRemoved(a: string, rest: string, b: string, m: Matcher, rep: string)
    requires forall i :: 0 <= i < |a| ==> !Hit(m, (a + rest)[i..])
    requires |b| < |rest| && rest[|rest| - |b|..] == b
    requires m(rest).Some? && m(rest).value == |rest| - |b|
    ensures SubAll(a + rest, m, rep) == a + (rep + SubAll(b, m, rep))
  {
    SubAllSkip(a, rest, m, rep);
    SubAllHit(rest, m, rep, |rest| - |b|);
  }

  /** The output holds only characters of the input and of the replacement. */
  lemma {:induction false} SubAllChars(s: string, m: Matcher, rep: string, c: char)
    requires c in SubAll(s, m, rep)
    ensures c in s || c in rep
    decreases |s|
  {
    if s != [] {
      if Hit(m, s) {
        var n := m(s).value;
        if c !in rep {
          SubAllChars(s[n..], m, rep, c);
          assert c in s[n..];
        }
      } else if c != s[0] {
        SubAllChars(s[1..], m, rep, c);
      }
    }
  }

  /** The first index at or after `i` holding `c`. */
  function IndexFrom(t: string, i: nat, c: char): (r: Option<nat>)
    ensures r.Some? ==> i <= r.value < |t| && t[r.value] == c && forall k :: i <= k < r.value ==> t[k] != c
    ensures r.None? ==> forall k :: i <= k < |t| ==> t[k] != c
    decreases |t| - i
  {
    if i >= |t| then None else if t[i] == c then Some(i) else IndexFrom(t, i + 1, c)
  }

  // ---------------------------------------------------------------------------
  // Parenthesised groups: `\([^)]*\)` and `\s*\([^)]*\)`
  // ---------------------------------------------------------------------------

  /**
   * A parenthesised group at the start, preceded by whitespace when `lead` holds: the group
   * runs up to the first ')'; without one there is no match.
   */
  function GroupAt(t: string, lead: bool): Option<nat> {
    var w := if lead then SkipWhile(t, 0, IsSpace) else 0;
    if w < |t| && t[w] == '(' then
      match IndexFrom(t, w + 1, ')')
      case Some(c) => Some(c + 1)
      case None => None
    else None
  }

  function Group(lead: bool): Matcher {
    (t: string) => GroupAt(t, lead)
  }

  /** No '(' is followed, anywhere later, by a ')'. */
  predicate NoGroup(r: string) {
    forall i, j :: 0 <= i < j < |r| && r[i] == '(' ==> r[j] != ')'
  }

  /** A slice of a text without groups has none either. */
  lemma NoGroupSlice(s: string, a: nat, b: nat)
    requires NoGroup(s) && a <= b <= |s|
    ensures NoGroup(s[a..b])
  {
    var r := s[a..b];
    forall i, j | 0 <= i < j < |r| && r[i] == '(' ensures r[j] != ')' {
      assert r[i] == s[a + i] && r[j] == s[a + j];
    }
  }

  /** Lower-casing leaves parentheses where they were and creates none. */
  lemma LowerCharParen(c: char)
    ensures LowerChar(c) == '(' <==> c == '('
    ensures LowerChar(c) == ')' <==> c == ')'
  {
  }

  lemma NoGroupLower(r: string)
    requires NoGroup(r)
    ensures NoGroup(Lower(r))
  {
    var t := Lower(r);
    forall i, j | 0 <= i < j < |t| && t[i] == '(' ensures t[j] != ')' {
      LowerCharParen(r[i]);
      LowerCharParen(r[j]);
    }
  }

  /** Lower-casing and stripping keep a text free of groups. */
  lemma NoGroupLowerStrip(s: string)
    requires NoGroup(s)
    ensures NoGroup(Lower(Strip(s)))
  {
    var l := LStrip(s);
    NoGroupSlice(s, |s| - |l|, |s|);
    NoGroupSlice(l, 0, |RStrip(l)|);
    NoGroupLower(RStrip(l));
  }

  /** Removing the parenthesised groups leaves no '(' with a ')' after it. */
  lemma {:induction false} RemoveGroupsNoGroup(s: string, lead: bool)
    ensures NoGroup(SubAll(s, Group(lead), ""))
    decreases |s|
  {
    var m := Group(lead);
    if s != [] {
      if Hit(m, s) {
        RemoveGroupsNoGroup(s[m(s).value..], lead);
      } else {
        var rest := SubAll(s[1..], m, "");
        RemoveGroupsNoGroup(s[1..], lead);
        assert SubAll(s, m, "") == [s[0]] + rest;
        if s[0] == '(' {
          assert SkipWhile(s, 0, IsSpace) == 0;
          assert IndexFrom(s, 1, ')').None?;
          forall j | 0 <= j < |rest| ensures rest[j] != ')' {
            if rest[j] == ')' {
              SubAllChars(s[1..], m, "", ')');
            }
          }
        }
      }
    }
  }

  /** A text without groups has nothing for the group rule to remove. */
  lemma NoGroupIdle(s: string, lead: bool)
    requires NoGroup(s)
    ensures SubAll(s, Group(lead), "") == s
  {
    forall i | 0 <= i < |s| ensures !Hit(Group(lead), s[i..]) {
    }
    SubAllIdentity(s, Group(lead), "");
  }

  /** Removing the groups twice is the same as removing them once. */
  lemma RemoveGroupsIdempotent(s: string, lead: bool)
    ensures SubAll(SubAll(s, Group(lead), ""), Group(lead), "") == SubAll(s, Group(lead), "")
  {
    RemoveGroupsNoGroup(s, lead);
    NoGroupIdle(SubAll(s, Group(lead), ""), lead);
  }

  /** Without a '(' there is nothing to remove. */
  lemma RemoveGroupsIdentity(s: string, lead: bool)
    requires '(' !in s
    ensures SubAll(s, Group(lead), "") == s
  {
    forall i | 0 <= i < |s| ensures !Hit(Group(lead), s[i..]) {
      var t := s[i..];
      var w := if lead then SkipWhile(t, 0, IsSpace) else 0;
      if w < |t| {
        assert t[w] == s[i + w];
      }
    }
    SubAllIdentity(s, Group(lead), "");
  }

  // ---------------------------------------------------------------------------
  // A leading number run: `^[<class>]+\s+`
  // ---------------------------------------------------------------------------

  /** The largest index in [lo, hi) holding whitespace. */
  function LastSpaceIn(t: string, lo: nat, hi: nat): (r: Option<nat>)
    requires hi <= |t|
    ensures r.Some? ==> lo <= r.value < hi && IsSpace(t[r.value]) && forall k :: r.value < k < hi ==> !IsSpace(t[k])
    ensures r.None? ==> forall k :: lo <= k < hi ==> !IsSpace(t[k])
    decreases hi
  {
    if hi <= lo then None else if IsSpace(t[hi - 1]) then Some(hi - 1) else LastSpaceIn(t, lo, hi - 1)
  }

  /**
   * `^[<class>]+\s+` where the class contains the whitespace: the greedy run backs off to
   * its last whitespace character that is not the first, and the match ends just after it.
   */
  function NumberRunAt(t: string, cls: char -> bool): Option<nat> {
    var n := SkipWhile(t, 0, cls);
    match LastSpaceIn(t, 1, n)
    case Some(j) => Some(j + 1)
    case None => None
  }

  function NumberRun(cls: char -> bool): Matcher {
    (t: string) => NumberRunAt(t, cls)
  }

  /** A text that does not start with a character of the class keeps its leading number rule idle. */
  lemma NumberRunIdle(t: string, cls: char -> bool)
    requires t == [] || !cls(t[0])
    ensures SubFirst(t, NumberRun(cls), "") == t
  {
    assert SkipWhile(t, 0, cls) == 0;
  }

  /** A run of class characters ended by whitespace, before a text that does not continue the run, is removed. */
  lemma NumberRunRemoved(d: string, sp: string, w: string, cls: char -> bool)
    requires d != [] && sp != []
    requires forall k :: 0 <= k < |d| ==> cls(d[k])
    requires forall k :: 0 <= k < |sp| ==> IsSpace(sp[k]) && cls(sp[k])
    requires w == [] || !cls(w[0])
    ensures SubFirst(d + sp + w, NumberRun(cls), "") == w
  {
    var t := d + sp + w;
    var n := |d| + |sp|;
    assert forall k :: 0 <= k < n ==> t[k] == (if k < |d| then d[k] else sp[k - |d|]);
    SkipRun(t, 0, n, cls);
    assert IsSpace(t[n - 1]);
    assert t[n..] == w;
  }

  /** Skipping over a run that ends at `n`. */
  lemma SkipRun(t: string, i: nat, n: nat, p: char -> bool)
    requires i <= n <= |t|
    requires forall k :: i <= k < n ==> p(t[k])
    requires n == |t| || !p(t[n])
    ensures SkipWhile(t, i, p) == n
    decreases n - i
  {
    if i < n {
      SkipRun(t, i + 1, n, p);
    }
  }

  // ---------------------------------------------------------------------------
  // A leading quantity: `^[<class>]+\s*(<unit>|...)\s+`, case-insensitive
  // ---------------------------------------------------------------------------

  /**
   * The end of the match of the first unit (in the order the alternation lists them) that
   * occurs at `p`, ignoring case, and is followed by whitespace; the match ends after that
   * whitespace.
   */
  function UnitEnd(t: string, p: nat, units: seq<string>): (r: Option<nat>)
    decreases |units|
  {
    if units == [] then None
    else
      var u := units[0];
      if p + |u| < |t| && Lower(t[p..p + |u|]) == u && IsSpace(t[p + |u|]) then
        Some(SkipWhile(t, p + |u|, IsSpace))
      else UnitEnd(t, p, units[1..])
  }

  /** The unit `u` occurs at `p`, ignoring case, and is followed by whitespace. */
  predicate UnitThere(t: string, p: nat, u: string) {
    p + |u| < |t| && Lower(t[p..p + |u|]) == u && IsSpace(t[p + |u|])
  }

  /**
   * `^[<run>]+\s*` then a unit and whitespace. The run ends where its class ends; any
   * whitespace after it is skipped before the unit.
   */
  function QuantityAt(t: string, run: char -> bool, units: seq<string>): Option<nat> {
    var n := SkipWhile(t, 0, run);
    if n == 0 then None else UnitEnd(t, SkipWhile(t, n, IsSpace), units)
  }

  function Quantity(run: char -> bool, units: seq<string>): Matcher {
    (t: string) => QuantityAt(t, run, units)
  }

  /** Units are words: no whitespace inside them. */
  predicate SpaceFree(units: seq<string>) {
    forall k :: 0 <= k < |units| ==> units[k] != [] && NoSpace(units[k])
  }

  /**
   * Whichever unit the alternation settles on, the match ends the same way: two units that
   * both occur at `p` followed by whitespace are the same unit.
   */
  lemma UnitUnique(t: string, p: nat, u: string, v: string)
    requires UnitThere(t, p, u) && UnitThere(t, p, v) && NoSpace(u) && NoSpace(v)
    ensures u == v
  {
    if |u| < |v| {
      assert v[|u|] == Lower(t[p..p + |v|])[|u|] == LowerChar(t[p + |u|]);
      LowerCharSpace(t[p + |u|]);
    } else if |v| < |u| {
      assert u[|v|] == Lower(t[p..p + |u|])[|v|] == LowerChar(t[p + |v|]);
      LowerCharSpace(t[p + |v|]);
    } else {
      assert u == Lower(t[p..p + |u|]) == v;
    }
  }

  /** A listed unit that occurs at `p` followed by whitespace is what the alternation matches. */
  lemma {:induction false} UnitEndFinds(t: string, p: nat, units: seq<string>, u: string)
    requires SpaceFree(units) && u in units && UnitThere(t, p, u)
    ensures UnitEnd(t, p, units) == Some(SkipWhile(t, p + |u|, IsSpace))
    decreases |units|
  {
    if UnitThere(t, p, units[0]) {
      UnitUnique(t, p, u, units[0]);
    } else {
      assert u in units[1..];
      UnitEndFinds(t, p, units[1..], u);
    }
  }

  /** When no listed unit occurs at `p` followed by whitespace, the alternation fails. */
  lemma {:induction false} UnitEndFails(t: string, p: nat, units: seq<string>)
    requires forall k :: 0 <= k < |units| ==> !UnitThere(t, p, units[k])
    ensures UnitEnd(t, p, units).None?
    decreases |units|
  {
    if units != [] {
      assert !UnitThere(t, p, units[0]);
      UnitEndFails(t, p, units[1..]);
    }
  }

  /** The quantity match, in terms of the positions where its parts end. */
  lemma QuantityEnds(t: string, n: nat, p: nat, q: nat, e: nat, run: char -> bool, units: seq<string>)
    requires 0 < n <= p < q < e <= |t|
    requires SpaceFree(units) && Lower(t[p..q]) in units
    requires forall k :: 0 <= k < n ==> run(t[k])
    requires forall k :: n <= k < p ==> IsSpace(t[k])
    requires forall k :: q <= k < e ==> IsSpace(t[k])
    requires !run(t[n]) && !IsSpace(t[p]) && (e == |t| || !IsSpace(t[e]))
    ensures QuantityAt(t, run, units) == Some(e)
  {
    SkipRun(t, 0, n, run);
    SkipRun(t, n, p, IsSpace);
    SkipRun(t, q, e, IsSpace);
    assert UnitThere(t, p, Lower(t[p..q]));
    UnitEndFinds(t, p, units, Lower(t[p..q]));
  }

  lemma UnitThereShift(t: string, p: nat, u: string)
    requires p <= |t|
    ensures UnitThere(t, p, u) <==> UnitThere(t[p..], 0, u)
  {
    if p + |u| < |t| {
      assert t[p..][0..|u|] == t[p..p + |u|];
      assert t[p..][|u|] == t[p + |u|];
    }
  }

  /** Without a listed unit followed by whitespace after the run and its whitespace, there is no quantity. */
  lemma QuantityFails(t: string, n: nat, p: nat, run: char -> bool, units: seq<string>)
    requires 0 < n <= p <= |t|
    requires forall k :: 0 <= k < n ==> run(t[k])
    requires forall k :: n <= k < p ==> IsSpace(t[k])
    requires n == |t| || !run(t[n])
    requires p == |t| || !IsSpace(t[p])
    requires forall k :: 0 <= k < |units| ==> !UnitThere(t[p..], 0, units[k])
    ensures QuantityAt(t, run, units).None?
  {
    SkipRun(t, 0, n, run);
    SkipRun(t, n, p, IsSpace);
    forall k | 0 <= k < |units| ensures !UnitThere(t, p, units[k]) {
      UnitThereShift(t, p, units[k]);
    }
    UnitEndFails(t, p, units);
  }

  /**
   * A quantity, optional whitespace, a listed unit written in any case, and whitespace are
   * removed together, leaving the text that follows.
   */
  lemma QuantityRemoved(d: string, sp0: string, written: string, sp: string, w: string,
                        run: char -> bool, units: seq<string>)
    requires SpaceFree(units) && Lower(written) in units
    requires d != [] && forall k :: 0 <= k < |d| ==> run(d[k])
    requires forall k :: 0 <= k < |sp0| ==> IsSpace(sp0[k])
    requires sp != [] && forall k :: 0 <= k < |sp| ==> IsSpace(sp[k])
    requires w == [] || !IsSpace(w[0])
    requires written != [] && !run(written[0]) && !IsSpace(written[0])
    requires sp0 != [] ==> !run(sp0[0])
    ensures SubFirst(d + sp0 + written + sp + w, Quantity(run, units), "") == w
  {
    var a1 := d + sp0;
    var a2 := a1 + written;
    var a3 := a2 + sp;
    var t := a3 + w;
    var n := |d|;
    var p := |a1|;
    var q := |a2|;
    var e := |a3|;
    assert forall k :: 0 <= k < e ==> t[k] == a3[k];
    assert forall k :: 0 <= k < q ==> a3[k] == a2[k];
    assert forall k :: 0 <= k < p ==> a2[k] == a1[k];
    assert forall k :: 0 <= k < n ==> t[k] == d[k];
    assert forall k :: n <= k < p ==> t[k] == sp0[k - n];
    assert t[p..q] == a2[p..q] == written;
    assert forall k :: q <= k < e ==> t[k] == sp[k - q];
    assert t[e..] == w;
    QuantityEnds(t, n, p, q, e, run, units);
  }
}
