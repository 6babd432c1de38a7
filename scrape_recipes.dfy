/**
 * scrape_recipes.py without the network and the browser: the ingredient simplifier
 * `simplify_ingredient`, the instruction normaliser `normalize_instructions`, and the
 * one-to-one `simplified_ingredients` list built in `main`.
 */
module ScrapeRecipes {
  import opened Wrappers
  import opened Text
  import opened Json
  import opened Seqs
  import opened Patterns

  // ---------------------------------------------------------------------------
  // simplify_ingredient
  // ---------------------------------------------------------------------------

  /** `[\d/,.\s]`: the characters of a leading amount, whitespace included. */
  predicate IsAmountChar(c: char) {
    IsDigit(c) || c == '/' || c == ',' || c == '.' || IsSpace(c)
  }

  /** The alternation of units of the quantity rule, in the order the pattern lists them. */
  const Units: seq<string> :=
    ["g", "kg", "dl", "l", "ml", "cl", "msk", "tsk", "st", "krm", "port", "burk", "paket", "förp"]

  lemma UnitsSpaceFree()
    ensures SpaceFree(Units)
  {
  }

  /** The units of the trailing weight rule, matched as written. */
  const WeightUnits: seq<string> := ["g", "ml", "dl"]

  /** Removes every parenthesised note. */
  function NotesStep(s: string): string {
    SubAll(s, Group(false), "")
  }

  /** Removes one leading amount with its unit. */
  function QuantityStep(s: string): string {
    SubFirst(s, Quantity(IsAmountChar, Units), "")
  }

  /** Removes a remaining leading number run. */
  function NumberStep(s: string): string {
    SubFirst(s, NumberRun(IsAmountChar), "")
  }

  /** `\s*\w*`: the length of the word after a size, with the whitespace before it. */
  function WordAfter(v: string): nat {
    SkipWhile(v, SkipWhile(v, 0, IsSpace), IsWordChar)
  }

  /** `\d+\s*\w*`: a size and its unit word. */
  function SizeAt(u: string): Option<nat> {
    var b := SkipWhile(u, 0, IsDigit);
    if b == 0 then None else Some(b + WordAfter(u[b..]))
  }

  /** `\s*à\s*\d+\s*\w*`: a per-piece size such as " à 400 g". */
  function PerPieceAt(t: string): Option<nat> {
    var w := SkipWhile(t, 0, IsSpace);
    if w < |t| && t[w] == 'à' then
      var u := t[w + 1..];
      var a := SkipWhile(u, 0, IsSpace);
      var size := SizeAt(u[a..]);
      if size.None? then None else Some(w + 1 + a + size.value)
    else None
  }

  function PerPiece(): Matcher {
    (t: string) => PerPieceAt(t)
  }

  function PerPieceStep(s: string): string {
    SubAll(s, PerPiece(), "")
  }

  /**
   * The end of `(g|ml|dl)\)?$` at `c`: the first listed unit written at `c` and followed
   * by the end, by the end after a ')', or by a final newline.
   */
  function WeightEnd(t: string, c: nat, units: seq<string>): Option<nat>
    decreases |units|
  {
    if units == [] then None
    else
      var e := c + |units[0]|;
      if e <= |t| && t[c..e] == units[0] && e < |t| && t[e] == ')' && AtEnd(t, e + 1) then Some(e + 1)
      else if e <= |t| && t[c..e] == units[0] && AtEnd(t, e) then Some(e)
      else WeightEnd(t, c, units[1..])
  }

  /** `\s*\(?\d+\s*(g|ml|dl)\)?$`: a trailing weight such as " 150 g" or " (150 g)". */
  function WeightAt(t: string): Option<nat> {
    var w := SkipWhile(t, 0, IsSpace);
    var a := if w < |t| && t[w] == '(' then w + 1 else w;
    var e := DigitsUnitAt(t[a..]);
    if e.None? then None else Some(a + e.value)
  }

  /** `\d+\s*(g|ml|dl)\)?$`: a number and a weight unit ending the text. */
  function DigitsUnitAt(v: string): Option<nat> {
    var b := SkipWhile(v, 0, IsDigit);
    if b == 0 then None else WeightEnd(v, SkipWhile(v, b, IsSpace), WeightUnits)
  }

  function Weight(): Matcher {
    (t: string) => WeightAt(t)
  }

  function WeightStep(s: string): string {
    SubAll(s, Weight(), "")
  }

  /** simplify_ingredient: the five substitutions in order, then `strip().lower()`. */
  function SimplifyIngredient(ingredient: string): (r: string)
    ensures IsLower(r) && IsTrimmed(r)
  {
    var s := WeightStep(PerPieceStep(NumberStep(QuantityStep(NotesStep(ingredient)))));
    StripLowerNormal(s);
    Lower(Strip(s))
  }

  /** The notes go first: removing them beforehand changes nothing. */
  lemma NotesFirst(ingredient: string)
    ensures SimplifyIngredient(NotesStep(ingredient)) == SimplifyIngredient(ingredient)
  {
    RemoveGroupsIdempotent(ingredient, false);
  }

  /** A leading note is ignored, so a quantity after it is still recognised. */
  lemma LeadingNoteIgnored(note: string, rest: string)
    requires ')' !in note
    ensures SimplifyIngredient("(" + note + ")" + rest) == SimplifyIngredient(rest)
  {
    var t := "(" + note + ")" + rest;
    var c := |note| + 1;
    assert t[c] == ')';
    assert forall k :: 1 <= k < c ==> t[k] == note[k - 1];
    assert IndexFrom(t, 1, ')') == Some(c);
    assert t[c + 1..] == rest;
    assert NotesStep(t) == NotesStep(rest);
  }

  /** The five substitutions, step by step. */
  lemma Pipeline(s: string, a1: string, a2: string, a3: string, a4: string, a5: string)
    requires NotesStep(s) == a1 && QuantityStep(a1) == a2 && NumberStep(a2) == a3
    requires PerPieceStep(a3) == a4 && WeightStep(a4) == a5
    ensures SimplifyIngredient(s) == Lower(Strip(a5))
  {
  }

  /** Without digits there is no per-piece size and no trailing weight. */
  lemma TailIdle(s: string)
    requires forall k :: 0 <= k < |s| ==> !IsDigit(s[k])
    ensures PerPieceStep(s) == s && WeightStep(s) == s
  {
    forall i | 0 <= i < |s| ensures !Hit(PerPiece(), s[i..]) && !Hit(Weight(), s[i..]) {
    }
    SubAllIdentity(s, PerPiece(), "");
    SubAllIdentity(s, Weight(), "");
  }

  /**
   * A leading amount, a listed unit in any case and whitespace are removed once, before the
   * per-piece and trailing weight rules see the rest: "2 dl Mjölk" becomes "mjölk".
   */
  lemma SimplifyQuantity(d: string, written: string, sp: string, w: string)
    requires Lower(written) in Units
    requires d != [] && forall k :: 0 <= k < |d| ==> IsAmountChar(d[k])
    requires written != [] && !IsAmountChar(written[0])
    requires sp != [] && forall k :: 0 <= k < |sp| ==> IsSpace(sp[k])
    requires w == [] || !IsAmountChar(w[0])
    requires '(' !in written && '(' !in w
    ensures SimplifyIngredient(d + written + sp + w) == Lower(Strip(WeightStep(PerPieceStep(w))))
  {
    var s := d + written + sp + w;
    assert '(' !in d && '(' !in sp;
    RemoveGroupsIdentity(s, false);
    UnitsSpaceFree();
    assert d + [] == d;
    QuantityRemoved(d, [], written, sp, w, IsAmountChar, Units);
    NumberRunIdle(w, IsAmountChar);
    Pipeline(s, s, w, w, PerPieceStep(w), WeightStep(PerPieceStep(w)));
  }

  /** A bare leading number before a word that is no listed unit is no quantity. */
  lemma NoQuantity(d: string, sp: string, w: string)
    requires d != [] && forall k :: 0 <= k < |d| ==> IsDigit(d[k])
    requires sp != [] && forall k :: 0 <= k < |sp| ==> IsSpace(sp[k])
    requires w != [] && !IsAmountChar(w[0])
    requires forall k :: 0 <= k < |Units| ==> !UnitThere(w, 0, Units[k])
    ensures QuantityStep(d + sp + w) == d + sp + w
  {
    var t := d + sp + w;
    var n := |d| + |sp|;
    assert forall k :: 0 <= k < n ==> t[k] == (if k < |d| then d[k] else sp[k - |d|]);
    assert t[n..] == w;
    QuantityFails(t, n, n, IsAmountChar, Units);
  }

  /** Otherwise a bare leading number and whitespace are removed: "3 Ägg" becomes "ägg". */
  lemma SimplifyBareNumber(d: string, sp: string, w: string)
    requires d != [] && forall k :: 0 <= k < |d| ==> IsDigit(d[k])
    requires sp != [] && forall k :: 0 <= k < |sp| ==> IsSpace(sp[k])
    requires w != [] && !IsAmountChar(w[0])
    requires forall k :: 0 <= k < |Units| ==> !UnitThere(w, 0, Units[k])
    requires '(' !in w
    ensures SimplifyIngredient(d + sp + w) == Lower(Strip(WeightStep(PerPieceStep(w))))
  {
    var s := d + sp + w;
    assert '(' !in d && '(' !in sp;
    RemoveGroupsIdentity(s, false);
    NoQuantity(d, sp, w);
    NumberRunRemoved(d, sp, w, IsAmountChar);
    Pipeline(s, s, s, w, PerPieceStep(w), WeightStep(PerPieceStep(w)));
  }

  /** Where the text before a piece has no 'à' and does not end in whitespace, no per-piece size starts in it. */
  lemma NoPerPieceIn(a: string, rest: string)
    requires a == [] || !IsSpace(a[|a| - 1])
    requires 'à' !in a
    ensures forall i :: 0 <= i < |a| ==> !Hit(PerPiece(), (a + rest)[i..])
  {
    forall i | 0 <= i < |a| ensures !Hit(PerPiece(), (a + rest)[i..]) {
      var t := (a + rest)[i..];
      var w := SkipWhile(t, 0, IsSpace);
      if w < |a| - i {
        assert t[w] == a[i + w];
      } else {
        assert IsSpace(t[|a| - i - 1]);
      }
    }
  }

  /** What follows the digits of a per-piece size starts with no digit. */
  lemma DigitsThenRest(sp3: string, word: string, b: string)
    requires forall k :: 0 <= k < |sp3| ==> IsSpace(sp3[k])
    requires sp3 == [] ==> word == [] || !IsDigit(word[0])
    requires b == [] || !IsWordChar(b[0])
    ensures var r := sp3 + (word + b); r == [] || !IsDigit(r[0])
  {
  }

  /** What follows the whitespace after the digits of a per-piece size starts with no whitespace. */
  lemma WordThenSpace(word: string, b: string)
    requires forall k :: 0 <= k < |word| ==> IsWordChar(word[k])
    requires b == [] || (word == [] ==> !IsSpace(b[0]))
    ensures var r := word + b; r == [] || !IsSpace(r[0])
  {
  }

  /** The word after a size: its whitespace, then its word characters, up to what follows. */
  lemma WordAfterMatch(v: string, sp3: string, word: string, b: string)
    requires v == sp3 + (word + b)
    requires forall k :: 0 <= k < |sp3| ==> IsSpace(sp3[k])
    requires forall k :: 0 <= k < |word| ==> IsWordChar(word[k])
    requires b == [] || (!IsWordChar(b[0]) && (word == [] ==> !IsSpace(b[0])))
    ensures WordAfter(v) == |sp3| + |word|
  {
    WordThenSpace(word, b);
    assert v == [] + (sp3 + (word + b));
    SkipPiece(v, [], sp3, word + b, IsSpace);
    SkipPiece(v, sp3, word, b, IsWordChar);
  }

  /** A size: its digits, then its word. */
  lemma SizeMatch(u: string, n: string, sp3: string, word: string, b: string)
    requires u == n + (sp3 + (word + b))
    requires n != [] && forall k :: 0 <= k < |n| ==> IsDigit(n[k])
    requires forall k :: 0 <= k < |sp3| ==> IsSpace(sp3[k])
    requires forall k :: 0 <= k < |word| ==> IsWordChar(word[k])
    requires sp3 == [] ==> word == [] || !IsDigit(word[0])
    requires b == [] || (!IsWordChar(b[0]) && (word == [] ==> !IsSpace(b[0])))
    ensures SizeAt(u).Some? && SizeAt(u).value == |n| + |sp3| + |word|
  {
    DigitsThenRest(sp3, word, b);
    assert u == [] + (n + (sp3 + (word + b)));
    SkipPiece(u, [], n, sp3 + (word + b), IsDigit);
    assert u[|n|..] == sp3 + (word + b);
    WordAfterMatch(u[|n|..], sp3, word, b);
  }

  /** The whitespace and the size after the 'à'. */
  lemma AfterMarkMatch(u: string, sp2: string, n: string, sp3: string, word: string, b: string)
    requires u == sp2 + (n + (sp3 + (word + b)))
    requires forall k :: 0 <= k < |sp2| ==> IsSpace(sp2[k])
    requires n != [] && forall k :: 0 <= k < |n| ==> IsDigit(n[k])
    requires forall k :: 0 <= k < |sp3| ==> IsSpace(sp3[k])
    requires forall k :: 0 <= k < |word| ==> IsWordChar(word[k])
    requires sp3 == [] ==> word == [] || !IsDigit(word[0])
    requires b == [] || (!IsWordChar(b[0]) && (word == [] ==> !IsSpace(b[0])))
    ensures var a := SkipWhile(u, 0, IsSpace);
      a == |sp2| && SizeAt(u[a..]).Some? && SizeAt(u[a..]).value == |n| + |sp3| + |word|
  {
    var rest := n + (sp3 + (word + b));
    assert rest[0] == n[0];
    assert u == [] + (sp2 + rest);
    SkipPiece(u, [], sp2, rest, IsSpace);
    assert u[|sp2|..] == rest;
    SizeMatch(rest, n, sp3, word, b);
  }

  /** The 'à' after the leading whitespace of a per-piece size. */
  lemma MarkAt(t: string, sp1: string, u: string)
    requires t == sp1 + ("à" + u)
    requires forall k :: 0 <= k < |sp1| ==> IsSpace(sp1[k])
    ensures SkipWhile(t, 0, IsSpace) == |sp1| < |t| && t[|sp1|] == 'à' && t[|sp1| + 1..] == u
  {
    assert t == [] + (sp1 + ("à" + u));
    SkipPiece(t, [], sp1, "à" + u, IsSpace);
    assert t[|sp1| + 1..] == ("à" + u)[1..];
  }

  /** The per-piece match at the start of a text ends where the size and its word end. */
  lemma PerPieceMatch(t: string, sp1: string, sp2: string, n: string, sp3: string, word: string, b: string)
    requires t == sp1 + ("à" + (sp2 + (n + (sp3 + (word + b)))))
    requires forall k :: 0 <= k < |sp1| ==> IsSpace(sp1[k])
    requires forall k :: 0 <= k < |sp2| ==> IsSpace(sp2[k])
    requires n != [] && forall k :: 0 <= k < |n| ==> IsDigit(n[k])
    requires forall k :: 0 <= k < |sp3| ==> IsSpace(sp3[k])
    requires forall k :: 0 <= k < |word| ==> IsWordChar(word[k])
    requires sp3 == [] ==> word == [] || !IsDigit(word[0])
    requires b == [] || (!IsWordChar(b[0]) && (word == [] ==> !IsSpace(b[0])))
    ensures PerPieceAt(t).Some? && PerPieceAt(t).value == |t| - |b|
  {
    var u := sp2 + (n + (sp3 + (word + b)));
    MarkAt(t, sp1, u);
    AfterMarkMatch(u, sp2, n, sp3, word, b);
  }

  /** A per-piece size after a name that does not end in whitespace is cut out of the text. */
  lemma PerPieceRemoved(a: string, rest: string, sp1: string, sp2: string, n: string, sp3: string, word: string, b: string)
    requires rest == sp1 + ("à" + (sp2 + (n + (sp3 + (word + b)))))
    requires a == [] || !IsSpace(a[|a| - 1])
    requires 'à' !in a
    requires forall k :: 0 <= k < |sp1| ==> IsSpace(sp1[k])
    requires forall k :: 0 <= k < |sp2| ==> IsSpace(sp2[k])
    requires n != [] && forall k :: 0 <= k < |n| ==> IsDigit(n[k])
    requires forall k :: 0 <= k < |sp3| ==> IsSpace(sp3[k])
    requires forall k :: 0 <= k < |word| ==> IsWordChar(word[k])
    requires sp3 == [] ==> word == [] || !IsDigit(word[0])
    requires b == [] || (!IsWordChar(b[0]) && (word == [] ==> !IsSpace(b[0])))
    ensures PerPieceStep(a + rest) == a + PerPieceStep(b)
  {
    NoPerPieceIn(a, rest);
    PerPieceMatch(rest, sp1, sp2, n, sp3, word, b);
    assert rest[|rest| - |b|..] == b;
    SubAllRemoved(a, rest, b, PerPiece(), "");
    assert "" + PerPieceStep(b) == PerPieceStep(b);
  }

  /** Where the text before a weight has no digit or '(' and does not end in whitespace, no weight starts in it. */
  lemma NoWeightIn(a: string, rest: string)
    requires a == [] || !IsSpace(a[|a| - 1])
    requires forall k :: 0 <= k < |a| ==> !IsDigit(a[k]) && a[k] != '('
    ensures forall i :: 0 <= i < |a| ==> !Hit(Weight(), (a + rest)[i..])
  {
    forall i | 0 <= i < |a| ensures !Hit(Weight(), (a + rest)[i..]) {
      var t := (a + rest)[i..];
      var w := SkipWhile(t, 0, IsSpace);
      if w < |a| - i {
        assert t[w] == a[i + w];
      } else {
        assert IsSpace(t[|a| - i - 1]);
      }
    }
  }

  /** Leading whitespace up to a character that is none. */
  lemma LeadAt(t: string, sp: string, v: string)
    requires t == sp + v && (v == [] || !IsSpace(v[0]))
    requires forall k :: 0 <= k < |sp| ==> IsSpace(sp[k])
    ensures SkipWhile(t, 0, IsSpace) == |sp| && t[|sp|..] == v
  {
    assert t == [] + (sp + v);
    SkipPiece(t, [], sp, v, IsSpace);
  }

  /** Where the number, the whitespace and the weight unit of a number-and-unit match end. */
  lemma DigitsUnitMatch(v: string, n: string, sp2: string, u: string)
    requires v == n + (sp2 + u)
    requires n != [] && forall k :: 0 <= k < |n| ==> IsDigit(n[k])
    requires forall k :: 0 <= k < |sp2| ==> IsSpace(sp2[k])
    requires u != [] && !IsDigit(u[0]) && !IsSpace(u[0])
    ensures SkipWhile(v, 0, IsDigit) == |n| && SkipWhile(v, |n|, IsSpace) == |n| + |sp2| <= |v|
    ensures v[|n| + |sp2|..] == u
  {
    assert (sp2 + u)[0] == if sp2 == [] then u[0] else sp2[0];
    assert v == [] + (n + (sp2 + u));
    SkipPiece(v, [], n, sp2 + u, IsDigit);
    SkipPiece(v, n, sp2, u, IsSpace);
    DropTwo(n, sp2, u);
  }

  /** The number-and-unit match, from where its parts end. */
  lemma DigitsUnitEnds(v: string, b: nat, c: nat, u: string)
    requires 0 < b == SkipWhile(v, 0, IsDigit) && SkipWhile(v, b, IsSpace) == c <= |v|
    requires v[c..] == u && u in WeightUnits
    ensures DigitsUnitAt(v).Some? && DigitsUnitAt(v).value == |v|
  {
    WeightEndAt(v, c, u);
  }

  /** The trailing weight at the start of a text matches all of it. */
  lemma WeightMatch(t: string, sp: string, n: string, sp2: string, u: string)
    requires t == sp + (n + (sp2 + u))
    requires forall k :: 0 <= k < |sp| ==> IsSpace(sp[k])
    requires n != [] && forall k :: 0 <= k < |n| ==> IsDigit(n[k])
    requires forall k :: 0 <= k < |sp2| ==> IsSpace(sp2[k])
    requires u in WeightUnits
    ensures WeightAt(t).Some? && WeightAt(t).value == |t|
  {
    var v := n + (sp2 + u);
    assert v[0] == n[0];
    LeadAt(t, sp, v);
    assert u[0] == 'g' || u[0] == 'm' || u[0] == 'd';
    DigitsUnitMatch(v, n, sp2, u);
    DigitsUnitEnds(v, |n|, |n| + |sp2|, u);
  }

  /** A weight unit that runs to the end of the text ends the match there. */
  lemma WeightEndAt(t: string, c: nat, u: string)
    requires c <= |t| && t[c..] == u && u in WeightUnits
    ensures WeightEnd(t, c, WeightUnits).Some? && WeightEnd(t, c, WeightUnits).value == |t|
  {
    assert |t| == c + |u|;
    assert t[c..c + |u|] == u;
  }

  /** A trailing weight after a name without digits or '(' is removed. */
  lemma WeightRemoved(a: string, sp: string, n: string, sp2: string, u: string)
    requires a == [] || !IsSpace(a[|a| - 1])
    requires forall k :: 0 <= k < |a| ==> !IsDigit(a[k]) && a[k] != '('
    requires forall k :: 0 <= k < |sp| ==> IsSpace(sp[k])
    requires n != [] && forall k :: 0 <= k < |n| ==> IsDigit(n[k])
    requires forall k :: 0 <= k < |sp2| ==> IsSpace(sp2[k])
    requires u in WeightUnits
    ensures WeightStep(a + sp + n + sp2 + u) == a
  {
    var rest := sp + (n + (sp2 + u));
    assert a + sp + n + sp2 + u == a + rest;
    NoWeightIn(a, rest);
    WeightMatch(rest, sp, n, sp2, u);
    assert rest[|rest|..] == [];
    SubAllRemoved(a, rest, [], Weight(), "");
    assert a + ("" + WeightStep([])) == a;
  }

  /** Without 'à' there is no per-piece size to remove. */
  lemma PerPieceIdle(s: string)
    requires 'à' !in s
    ensures PerPieceStep(s) == s
  {
    forall i | 0 <= i < |s| ensures !Hit(PerPiece(), s[i..]) {
      var t := s[i..];
      var w := SkipWhile(t, 0, IsSpace);
      if w < |t| {
        assert t[w] == s[i + w];
      }
    }
    SubAllIdentity(s, PerPiece(), "");
  }

  /** A name followed by a trailing weight simplifies to the name: "riven ost 150 g" becomes "riven ost". */
  lemma SimplifyTrailingWeight(name: string, sp: string, n: string, sp2: string, u: string)
    requires name != [] && !IsAmountChar(name[0]) && !IsSpace(name[|name| - 1])
    requires forall k :: 0 <= k < |name| ==> !IsDigit(name[k]) && name[k] != '(' && name[k] != 'à'
    requires forall k :: 0 <= k < |sp| ==> IsSpace(sp[k])
    requires n != [] && forall k :: 0 <= k < |n| ==> IsDigit(n[k])
    requires forall k :: 0 <= k < |sp2| ==> IsSpace(sp2[k])
    requires u in WeightUnits
    ensures SimplifyIngredient(name + sp + n + sp2 + u) == Lower(Strip(name))
  {
    var s := name + sp + n + sp2 + u;
    assert '(' !in name && '(' !in sp && '(' !in n && '(' !in sp2 && '(' !in u;
    assert 'à' !in name && 'à' !in sp && 'à' !in n && 'à' !in sp2 && 'à' !in u;
    RemoveGroupsIdentity(s, false);
    assert s[0] == name[0];
    assert SkipWhile(s, 0, IsAmountChar) == 0;
    NumberRunIdle(s, IsAmountChar);
    PerPieceIdle(s);
    WeightRemoved(name, sp, n, sp2, u);
    Pipeline(s, s, s, s, s, name);
  }

  /**
   * A quantity with its unit, then a name, then a per-piece size, simplifies to the name:
   * "1 burk krossade tomater à 400 g" becomes "krossade tomater".
   */
  lemma SimplifyQuantityPerPiece(d: string, written: string, sp: string, name: string,
                                 sp1: string, sp2: string, n: string, sp3: string, word: string)
    requires Lower(written) in Units
    requires d != [] && forall k :: 0 <= k < |d| ==> IsAmountChar(d[k])
    requires written != [] && !IsAmountChar(written[0]) && '(' !in written
    requires sp != [] && forall k :: 0 <= k < |sp| ==> IsSpace(sp[k])
    requires name != [] && !IsAmountChar(name[0]) && !IsSpace(name[|name| - 1])
    requires forall k :: 0 <= k < |name| ==> !IsDigit(name[k]) && name[k] != 'à' && name[k] != '('
    requires forall k :: 0 <= k < |sp1| ==> IsSpace(sp1[k])
    requires forall k :: 0 <= k < |sp2| ==> IsSpace(sp2[k])
    requires n != [] && forall k :: 0 <= k < |n| ==> IsDigit(n[k])
    requires forall k :: 0 <= k < |sp3| ==> IsSpace(sp3[k])
    requires forall k :: 0 <= k < |word| ==> IsWordChar(word[k])
    requires sp3 == [] ==> word == [] || !IsDigit(word[0])
    ensures SimplifyIngredient(d + written + sp + (name + sp1 + "à" + sp2 + n + sp3 + word)) == Lower(Strip(name))
  {
    var b: string := [];
    var w := name + sp1 + "à" + sp2 + n + sp3 + word;
    assert w + b == w;
    ParenFree(name, sp1, sp2, n, sp3, word);
    SimplifyQuantity(d, written, sp, w);
    var rest := sp1 + ("à" + (sp2 + (n + (sp3 + (word + b)))));
    PerPieceJoin(name, sp1, sp2, n, sp3, word);
    PerPieceRemoved(name, rest, sp1, sp2, n, sp3, word, b);
    assert PerPieceStep(w) == name;
    TailIdle(name);
  }

  /** A name followed by a per-piece size splits after the name. */
  lemma PerPieceJoin(name: string, sp1: string, sp2: string, n: string, sp3: string, word: string)
    ensures name + sp1 + "à" + sp2 + n + sp3 + word == name + (sp1 + ("à" + (sp2 + (n + (sp3 + (word + []))))))
  {
  }

  /** The per-piece part of a text holds no '(' when its name has none. */
  lemma ParenFree(name: string, sp1: string, sp2: string, n: string, sp3: string, word: string)
    requires '(' !in name
    requires forall k :: 0 <= k < |sp1| ==> IsSpace(sp1[k])
    requires forall k :: 0 <= k < |sp2| ==> IsSpace(sp2[k])
    requires forall k :: 0 <= k < |n| ==> IsDigit(n[k])
    requires forall k :: 0 <= k < |sp3| ==> IsSpace(sp3[k])
    requires forall k :: 0 <= k < |word| ==> IsWordChar(word[k])
    ensures '(' !in name + sp1 + "à" + sp2 + n + sp3 + word
  {
    assert '(' !in sp1 && '(' !in sp2 && '(' !in n && '(' !in sp3 && '(' !in word;
  }

  // ---------------------------------------------------------------------------
  // simplified_ingredients
  // ---------------------------------------------------------------------------

  /** `[simplify_ingredient(ing) for ing in details['ingredients']]`. */
  function SimplifiedIngredients(ingredients: seq<string>): (r: seq<string>)
    ensures |r| == |ingredients|
    ensures forall k :: 0 <= k < |r| ==> r[k] == SimplifyIngredient(ingredients[k]) && IsLower(r[k]) && IsTrimmed(r[k])
  {
    seq(|ingredients|, k requires 0 <= k < |ingredients| => SimplifyIngredient(ingredients[k]))
  }

  // ---------------------------------------------------------------------------
  // normalize_instructions
  // ---------------------------------------------------------------------------

  /** The keys a dict step keeps, in the order they are copied. */
  const StepFields: seq<string> := ["name", "text", "image", "url"]

  /** The truthy fields of a dict step. */
  function StepEntries(step: Json): seq<(string, Json)>
    requires step.JObj?
  {
    FlatMap(StepFields, OptionalCheck(step))
  }

  /** What one step contributes: a string as a text dict, a dict by its truthy fields unless none is. */
  function NormalizeStep(step: Json): seq<Json> {
    match step
    case JStr(s) => [JObj([("text", JStr(s))])]
    case JObj(_) =>
      var entries := StepEntries(step);
      if entries == [] then [] else [JObj(entries)]
    case _ => []
  }

  function StepNormalizer(): (nat, Json) -> seq<Json> {
    (k: nat, step: Json) => NormalizeStep(step)
  }

  /** normalize_instructions, as the list it returns. */
  function NormalizedInstructions(instructions: seq<Json>): seq<Json> {
    FlatMap(instructions, StepNormalizer())
  }

  /** The inner loop over the four keys. */
  method NormalizeDict(step: Json) returns (normalized: seq<(string, Json)>)
    requires step.JObj?
    ensures normalized == StepEntries(step)
  {
    var f := OptionalCheck(step);
    normalized := [];
    var i := 0;
    while i < |StepFields|
      invariant 0 <= i <= |StepFields|
      invariant normalized == FlatMap(StepFields[..i], f)
    {
      FlatMapSnoc(StepFields, f, i);
      var key := StepFields[i];
      if Truthy(Get(step, key)) {
        normalized := normalized + [(key, Get(step, key))];
      } else {
        assert normalized + [] == normalized;
      }
      i := i + 1;
    }
    assert StepFields[..i] == StepFields;
  }

  method NormalizeInstructions(instructions: seq<Json>) returns (result: seq<Json>)
    ensures result == NormalizedInstructions(instructions)
  {
    var f := StepNormalizer();
    result := [];
    var i := 0;
    while i < |instructions|
      invariant 0 <= i <= |instructions|
      invariant result == FlatMap(instructions[..i], f)
    {
      FlatMapSnoc(instructions, f, i);
      var step := instructions[i];
      assert f(i, step) == NormalizeStep(step);
      if step.JStr? {
        result := result + [JObj([("text", JStr(step.s))])];
      } else if step.JObj? {
        var normalized := NormalizeDict(step);
        if normalized != [] {
          result := result + [JObj(normalized)];
        } else {
          assert result + [] == result;
        }
      } else {
        assert result + [] == result;
      }
      i := i + 1;
    }
    assert instructions[..i] == instructions;
  }

  /** Order is kept: normalising a concatenation concatenates the normalised parts. */
  lemma {:induction false} NormalizedAppend(a: seq<Json>, b: seq<Json>)
    ensures NormalizedInstructions(a + b) == NormalizedInstructions(a) + NormalizedInstructions(b)
    decreases |b|
  {
    if b == [] {
      assert a + b == a;
    } else {
      var init := b[..|b| - 1];
      var last := b[|b| - 1];
      NormalizedAppend(a, init);
      assert (a + b)[..|a + b| - 1] == a + init;
      assert (a + b)[|a + b| - 1] == last;
    }
  }

  /** Every step contributes at most one instruction, so there are no more than steps. */
  lemma {:induction false} NormalizedLength(instructions: seq<Json>)
    ensures |NormalizedInstructions(instructions)| <= |instructions|
    decreases |instructions|
  {
    if instructions != [] {
      NormalizedLength(instructions[..|instructions| - 1]);
    }
  }

  /** A list of strings becomes the list of their text dicts, one for one. */
  lemma {:induction false} StringStepsWrapped(instructions: seq<Json>)
    requires forall k :: 0 <= k < |instructions| ==> instructions[k].JStr?
    ensures var r := NormalizedInstructions(instructions);
      |r| == |instructions| &&
      forall k :: 0 <= k < |r| ==> r[k] == JObj([("text", JStr(instructions[k].s))])
    decreases |instructions|
  {
    if instructions != [] {
      StringStepsWrapped(instructions[..|instructions| - 1]);
    }
  }

  /** A dict step is dropped exactly when none of its four fields is truthy. */
  lemma DictStepDropped(step: Json)
    requires step.JObj?
    ensures NormalizeStep(step) == [] <==> forall k :: 0 <= k < |StepFields| ==> !Truthy(Get(step, StepFields[k]))
  {
    FlatMapEmpty(StepFields, OptionalCheck(step));
  }

  /**
   * A kept dict step holds exactly its truthy name, text, image and url fields, with their
   * values, and nothing else.
   */
  lemma DictStepKept(step: Json, key: string)
    requires step.JObj? && NormalizeStep(step) != []
    ensures |NormalizeStep(step)| == 1 && NormalizeStep(step)[0].JObj?
    ensures Lookup(NormalizeStep(step)[0].entries, key)
         == if key in StepFields && Truthy(Get(step, key)) then Some(Get(step, key)) else None
  {
    LookupCopied(step, StepFields, key);
  }

  /** Every instruction comes from some step and is a dict. */
  lemma NormalizedFrom(instructions: seq<Json>, x: Json)
    requires x in NormalizedInstructions(instructions)
    ensures x.JObj?
    ensures exists k :: 0 <= k < |instructions| && x in NormalizeStep(instructions[k])
  {
    FlatMapMember(instructions, StepNormalizer(), x);
  }
}
