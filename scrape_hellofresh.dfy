/**
 * scrape_hellofresh.py without the browser: the ingredient simplifier `parse_ingredient`,
 * the cleanup of the JSON-LD `recipeInstructions` steps, and the one-to-one
 * `simplified_ingredients` list.
 */
module ScrapeHellofresh {
  import opened Wrappers
  import opened Text
  import opened Json
  import opened Seqs
  import opened Patterns

  // ---------------------------------------------------------------------------
  // parse_ingredient
  // ---------------------------------------------------------------------------

  /** `[\d/½¼¾⅓⅔]`: the characters of a leading quantity. */
  predicate IsQuantityChar(c: char) {
    IsDigit(c) || c == '/' || IsFractionGlyph(c)
  }

  /** `[\d/½¼¾⅓⅔,.\s]`: the characters of a leading number run. */
  predicate IsNumberChar(c: char) {
    IsQuantityChar(c) || c == ',' || c == '.' || IsSpace(c)
  }

  /** The alternation of units, in the order the pattern lists them. */
  const Units: seq<string> :=
    ["st", "g", "kg", "dl", "l", "ml", "cl", "msk", "tsk", "krm", "paket", "portionspåse", "port"]

  lemma UnitsSpaceFree()
    ensures SpaceFree(Units)
  {
  }

  /** `\s*\(steg\s*\d+\)`, ignoring case: a step reference such as "(steg 4)". */
  function StegAt(t: string): Option<nat> {
    var w := SkipWhile(t, 0, IsSpace);
    if w + 5 <= |t| && t[w] == '(' && Lower(t[w + 1..w + 5]) == "steg" then
      var a := SkipWhile(t, w + 5, IsSpace);
      var b := SkipWhile(t, a, IsDigit);
      if b > a && b < |t| && t[b] == ')' then Some(b + 1) else None
    else None
  }

  function Steg(): Matcher {
    (t: string) => StegAt(t)
  }

  /** Removes one leading quantity with its unit. */
  function QuantityStep(s: string): string {
    SubFirst(s, Quantity(IsQuantityChar, Units), "")
  }

  /** Removes a remaining leading number run. */
  function NumberStep(s: string): string {
    SubFirst(s, NumberRun(IsNumberChar), "")
  }

  /** Removes every parenthesised note with the whitespace before it. */
  function GroupStep(s: string): string {
    SubAll(s, Group(true), "")
  }

  /** Removes every "(steg N)" reference with the whitespace before it. */
  function StegStep(s: string): string {
    SubAll(s, Steg(), "")
  }

  /** parse_ingredient: the four substitutions, then `strip().lower()`. */
  function ParseIngredient(ingredient: string): (r: string)
    ensures IsLower(r) && IsTrimmed(r)
  {
    var s := StegStep(GroupStep(NumberStep(QuantityStep(ingredient))));
    StripLowerNormal(s);
    Lower(Strip(s))
  }

  /** The step-reference rule finds nothing left once the parenthesised notes are gone. */
  lemma StegIdle(s: string)
    requires NoGroup(s)
    ensures StegStep(s) == s
  {
    forall i | 0 <= i < |s| ensures !Hit(Steg(), s[i..]) {
    }
    SubAllIdentity(s, Steg(), "");
  }

  /** The "(steg N)" substitution is redundant: it never changes what the note removal leaves. */
  lemma StegStepRedundant(s: string)
    ensures StegStep(GroupStep(s)) == GroupStep(s)
  {
    RemoveGroupsNoGroup(s, true);
    StegIdle(GroupStep(s));
  }

  /** No parenthesised group survives in the simplified ingredient. */
  lemma ParseIngredientNoGroup(ingredient: string)
    ensures NoGroup(ParseIngredient(ingredient))
  {
    var s := NumberStep(QuantityStep(ingredient));
    RemoveGroupsNoGroup(s, true);
    StegIdle(GroupStep(s));
    NoGroupLowerStrip(GroupStep(s));
  }

  /** Without '(' and when the text after the prefix steps has none either, the note rules are idle. */
  lemma NotesIdle(s: string)
    requires '(' !in s
    ensures StegStep(GroupStep(s)) == s
  {
    RemoveGroupsIdentity(s, true);
    StegIdle(s);
  }

  /**
   * An input that starts with none of the quantity or number characters and holds no '('
   * is only stripped and lower-cased.
   */
  lemma ParseIngredientPlain(ingredient: string)
    requires ingredient == [] || !IsNumberChar(ingredient[0])
    requires '(' !in ingredient
    ensures ParseIngredient(ingredient) == Lower(Strip(ingredient))
  {
    assert SkipWhile(ingredient, 0, IsQuantityChar) == 0;
    assert QuantityStep(ingredient) == ingredient;
    NumberRunIdle(ingredient, IsNumberChar);
    NotesIdle(ingredient);
  }

  /**
   * A leading quantity, optional whitespace, a listed unit in any case and whitespace are
   * removed once, e.g. "150 g Kycklingfilé" becomes "kycklingfilé".
   */
  lemma ParseIngredientQuantity(d: string, sp0: string, written: string, sp: string, w: string)
    requires Lower(written) in Units
    requires d != [] && forall k :: 0 <= k < |d| ==> IsQuantityChar(d[k])
    requires forall k :: 0 <= k < |sp0| ==> IsSpace(sp0[k])
    requires sp != [] && forall k :: 0 <= k < |sp| ==> IsSpace(sp[k])
    requires written != [] && !IsQuantityChar(written[0]) && !IsSpace(written[0])
    requires w == [] || !IsNumberChar(w[0])
    requires '(' !in w
    ensures ParseIngredient(d + sp0 + written + sp + w) == Lower(Strip(w))
  {
    UnitsSpaceFree();
    QuantityRemoved(d, sp0, written, sp, w, IsQuantityChar, Units);
    NumberRunIdle(w, IsNumberChar);
    NotesIdle(w);
  }

  /** A bare number before a word that is no listed unit followed by whitespace is no quantity. */
  lemma NoQuantity(d: string, sp: string, w: string)
    requires d != [] && forall k :: 0 <= k < |d| ==> IsDigit(d[k])
    requires sp != [] && forall k :: 0 <= k < |sp| ==> IsSpace(sp[k])
    requires w != [] && !IsNumberChar(w[0])
    requires forall k :: 0 <= k < |Units| ==> !UnitThere(w, 0, Units[k])
    ensures QuantityStep(d + sp + w) == d + sp + w
  {
    var t := d + sp + w;
    var n := |d|;
    var p := n + |sp|;
    assert forall k :: 0 <= k < n ==> t[k] == d[k];
    assert forall k :: n <= k < p ==> t[k] == sp[k - n];
    assert t[p..] == w;
    QuantityFails(t, n, p, IsQuantityChar, Units);
  }

  /**
   * A bare leading number before a word that is not a listed unit followed by whitespace
   * is removed by the second rule, e.g. "2 gul lök" becomes "gul lök": the "g" is not a unit.
   */
  lemma ParseIngredientNumber(d: string, sp: string, w: string)
    requires d != [] && forall k :: 0 <= k < |d| ==> IsDigit(d[k])
    requires sp != [] && forall k :: 0 <= k < |sp| ==> IsSpace(sp[k])
    requires w != [] && !IsNumberChar(w[0])
    requires forall k :: 0 <= k < |Units| ==> !UnitThere(w, 0, Units[k])
    requires '(' !in w
    ensures ParseIngredient(d + sp + w) == Lower(Strip(w))
  {
    NoQuantity(d, sp, w);
    NumberRunRemoved(d, sp, w, IsNumberChar);
    NotesIdle(w);
  }

  // ---------------------------------------------------------------------------
  // simplified_ingredients
  // ---------------------------------------------------------------------------

  /** `[parse_ingredient(ing) for ing in ingredients]`. */
  function SimplifiedIngredients(ingredients: seq<string>): (r: seq<string>)
    ensures |r| == |ingredients|
    ensures forall k :: 0 <= k < |r| ==> r[k] == ParseIngredient(ingredients[k]) && IsLower(r[k]) && IsTrimmed(r[k])
  {
    seq(|ingredients|, k requires 0 <= k < |ingredients| => ParseIngredient(ingredients[k]))
  }

  // ---------------------------------------------------------------------------
  // Instruction cleanup
  // ---------------------------------------------------------------------------

  /** `<[^>]+>`: a tag with at least one character inside, up to the first '>'. */
  function TagAt(t: string): Option<nat> {
    if t != [] && t[0] == '<' then
      match IndexFrom(t, 1, '>')
      case Some(c) => if c > 1 then Some(c + 1) else None
      case None => None
    else None
  }

  function Tag(): Matcher {
    (t: string) => TagAt(t)
  }

  /** `\s+`: a whitespace run. */
  function SpaceRunAt(t: string): Option<nat> {
    var n := SkipWhile(t, 0, IsSpace);
    if n > 0 then Some(n) else None
  }

  function SpaceRun(): Matcher {
    (t: string) => SpaceRunAt(t)
  }

  /** Tags become spaces, whitespace runs collapse to one space, and the ends are trimmed. */
  function CleanText(text: string): string {
    Strip(SubAll(SubAll(text, Tag(), " "), SpaceRun(), " "))
  }

  /** Collapsing the whitespace runs leaves every text single-spaced. */
  lemma {:induction false} CollapseSingleSpaced(s: string)
    ensures SingleSpaced(SubAll(s, SpaceRun(), " "))
    ensures s != [] && !IsSpace(s[0]) ==> SubAll(s, SpaceRun(), " ")[0] == s[0]
    decreases |s|
  {
    var m := SpaceRun();
    if s != [] {
      if Hit(m, s) {
        var n := m(s).value;
        CollapseSingleSpaced(s[n..]);
        var rest := SubAll(s[n..], m, " ");
        assert SubAll(s, m, " ") == " " + rest;
        assert s[n..] == [] || !IsSpace(s[n..][0]);
      } else {
        CollapseSingleSpaced(s[1..]);
        var rest := SubAll(s[1..], m, " ");
        assert SubAll(s, m, " ") == [s[0]] + rest;
        assert !IsSpace(s[0]);
        if s[1..] != [] && IsSpace(s[1..][0]) {
          assert Hit(m, s[1..]);
        }
      }
    }
  }

  /** A cleaned text is trimmed and single-spaced. */
  lemma CleanTextSpec(text: string)
    ensures IsTrimmed(CleanText(text)) && SingleSpaced(CleanText(text))
  {
    var c := SubAll(SubAll(text, Tag(), " "), SpaceRun(), " ");
    CollapseSingleSpaced(SubAll(text, Tag(), " "));
    StripSingleSpaced(c);
    StripIsTrimmed(c);
  }

  /** Text without '<' has no tags to replace. */
  lemma TagsIdentity(s: string)
    requires '<' !in s
    ensures SubAll(s, Tag(), " ") == s
  {
    forall i | 0 <= i < |s| ensures !Hit(Tag(), s[i..]) {
      assert s[i..][0] == s[i];
    }
    SubAllIdentity(s, Tag(), " ");
  }

  /** A tag at the front is matched up to its '>'. */
  lemma TagFront(inner: string, b: string)
    requires inner != [] && '>' !in inner
    ensures var t := "<" + inner + ">" + b;
      Hit(Tag(), t) && t[Tag()(t).value..] == b
  {
    var t := "<" + inner + ">" + b;
    var c := |inner| + 1;
    assert t[c] == '>';
    assert forall k :: 1 <= k < c ==> t[k] == inner[k - 1];
    assert IndexFrom(t, 1, '>') == Some(c);
    assert t[c + 1..] == b;
  }

  /** The first tag, after text without '<', is replaced by one space. */
  lemma TagReplaced(a: string, inner: string, b: string)
    requires '<' !in a && inner != [] && '>' !in inner
    ensures SubAll(a + "<" + inner + ">" + b, Tag(), " ") == a + " " + SubAll(b, Tag(), " ")
  {
    var rest := "<" + inner + ">" + b;
    assert a + "<" + inner + ">" + b == a + rest;
    forall i | 0 <= i < |a| ensures !Hit(Tag(), (a + rest)[i..]) {
      assert (a + rest)[i..][0] == a[i];
    }
    SubAllSkip(a, rest, Tag(), " ");
    TagFront(inner, b);
  }

  /**
   * One instruction step: a dict contributes its cleaned `text` when that is non-empty,
   * a string is kept as it is, anything else is skipped. `re.sub` on a `text` that is not a
   * string raises TypeError.
   */
  function CleanStep(step: Json): Checked<seq<string>> {
    match step
    case JObj(_) =>
      var text := GetOr(step, "text", JStr(""));
      if !text.JStr? then Raised
      else
        var t := CleanText(text.s);
        if t == [] then Ok([]) else Ok([t])
    case JStr(s) => Ok([s])
    case _ => Ok([])
  }

  function StepCleaner(): (nat, Json) -> Checked<seq<string>> {
    (k: nat, step: Json) => CleanStep(step)
  }

  /** The instruction texts of `data.get('recipeInstructions', [])`, as the scraper collects them. */
  function CleanSteps(steps: Json): Checked<seq<string>> {
    match Iterate(steps)
    case Raised => Raised
    case Ok(items) => ConcatChecked(items, StepCleaner())
  }

  /** The instruction loop of extract_recipe_data. */
  method CleanInstructions(steps: Json) returns (r: Checked<seq<string>>)
    ensures r == CleanSteps(steps)
  {
    var items := Iterate(steps);
    if items.Raised? {
      return Raised;
    }
    var s := items.value;
    var f := StepCleaner();
    var instructions: seq<string> := [];
    var i := 0;
    while i < |s|
      invariant 0 <= i <= |s|
      invariant ConcatChecked(s[..i], f) == Ok(instructions)
    {
      ConcatCheckedSnoc(s, f, i);
      var step := s[i];
      assert f(i, step) == CleanStep(step);
      if step.JObj? {
        var text := GetOr(step, "text", JStr(""));
        if !text.JStr? {
          ConcatCheckedRaisedPersists(s, f, i + 1);
          return Raised;
        }
        var t := CleanText(text.s);
        if t != [] {
          assert CleanStep(step) == Ok([t]);
          instructions := instructions + [t];
        } else {
          assert CleanStep(step) == Ok([]);
          assert instructions + [] == instructions;
        }
      } else if step.JStr? {
        assert CleanStep(step) == Ok([step.s]);
        instructions := instructions + [step.s];
      } else {
        assert CleanStep(step) == Ok([]);
        assert instructions + [] == instructions;
      }
      i := i + 1;
    }
    assert s[..i] == s;
    r := Ok(instructions);
  }

  /** `t` is a string step kept verbatim or the non-empty, trimmed, single-spaced cleaned text of a dict step. */
  predicate StepSource(items: seq<Json>, t: string) {
    exists k :: 0 <= k < |items| &&
      ((items[k].JStr? && t == items[k].s) ||
       (items[k].JObj? && GetOr(items[k], "text", JStr("")).JStr? &&
        t == CleanText(GetOr(items[k], "text", JStr("")).s) && t != [] && IsTrimmed(t) && SingleSpaced(t)))
  }

  /**
   * Without an exception there is at most one instruction per step, and each one is a
   * string step kept verbatim or the non-empty, trimmed, single-spaced cleaned text of a
   * dict step.
   */
  lemma CleanStepsSpec(steps: Json)
    requires CleanSteps(steps).Ok?
    ensures |CleanSteps(steps).value| <= |Iterate(steps).value|
    ensures forall t :: t in CleanSteps(steps).value ==> StepSource(Iterate(steps).value, t)
  {
    var items := Iterate(steps).value;
    var f := StepCleaner();
    ConcatCheckedAtMostOne(items, f);
    forall t | t in CleanSteps(steps).value
      ensures StepSource(items, t)
    {
      ConcatCheckedMember(items, f, t);
      var k :| 0 <= k < |items| && f(k, items[k]).Ok? && t in f(k, items[k]).value;
      if items[k].JObj? {
        CleanTextSpec(GetOr(items[k], "text", JStr("")).s);
      }
    }
  }

  /** A list of string steps is kept verbatim, in order. */
  lemma {:induction false} StringStepsVerbatim(items: seq<Json>)
    requires forall k :: 0 <= k < |items| ==> items[k].JStr?
    ensures var r := ConcatChecked(items, StepCleaner());
      r.Ok? && |r.value| == |items| && forall k :: 0 <= k < |items| ==> r.value[k] == items[k].s
    decreases |items|
  {
    if items != [] {
      var n := |items| - 1;
      var init := items[..n];
      StringStepsVerbatim(init);
      assert StepCleaner()(n, items[n]) == Ok([items[n].s]);
    }
  }
}
