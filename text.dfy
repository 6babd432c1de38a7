/**
 * Characters and strings as the scripts use them. Python's `str.lower`, `str.strip`,
 * `str.split`, `in` and the regular-expression classes `\s`, `\d` and `\w` are hand-coded
 * over the alphabet the data uses: ASCII, the Swedish letters å ä ö, the accented letters
 * é and à, and the fraction glyphs ½ ¼ ¾ ⅓ ⅔.
 */
module Text {

  /** Python's `\s` and `str.isspace` restricted to ASCII: space, \t \n \v \f \r and \x1c-\x1f. */
  predicate IsSpace(c: char) {
    c == ' ' || ('\t' <= c <= '\r') || ('\U{1c}' <= c <= '\U{1f}')
  }

  /** Python's `\d` restricted to ASCII. */
  predicate IsDigit(c: char) {
    '0' <= c <= '9'
  }

  predicate IsAsciiLetter(c: char) {
    ('a' <= c <= 'z') || ('A' <= c <= 'Z')
  }

  /** The fraction glyphs that occur in ingredient quantities. */
  predicate IsFractionGlyph(c: char) {
    c == '½' || c == '¼' || c == '¾' || c == '⅓' || c == '⅔'
  }

  /** Python's `\w`: letters, digits (fraction glyphs are numeric), and the underscore. */
  predicate IsWordChar(c: char) {
    IsAsciiLetter(c) || IsDigit(c) || c == '_' || IsFractionGlyph(c)
    || c == 'å' || c == 'ä' || c == 'ö' || c == 'é' || c == 'à'
    || c == 'Å' || c == 'Ä' || c == 'Ö' || c == 'É' || c == 'À'
  }

  /** Python's `str.lower` on one character of the alphabet. */
  function LowerChar(c: char): char {
    if 'A' <= c <= 'Z' then (c as int + 32) as char
    else if c == 'Å' then 'å'
    else if c == 'Ä' then 'ä'
    else if c == 'Ö' then 'ö'
    else if c == 'É' then 'é'
    else if c == 'À' then 'à'
    else c
  }

  /** Python's `str.lower`. */
  function Lower(s: string): (r: string)
    ensures |r| == |s|
    ensures forall i :: 0 <= i < |s| ==> r[i] == LowerChar(s[i])
  {
    seq(|s|, i requires 0 <= i < |s| => LowerChar(s[i]))
  }

  /** Every character of `s` has property `q`. */
  predicate AllChars(s: string, q: char -> bool) {
    forall k :: 0 <= k < |s| ==> q(s[k])
  }

  predicate NoSpace(s: string) {
    forall k :: 0 <= k < |s| ==> !IsSpace(s[k])
  }

  predicate IsLowerChar(c: char) {
    LowerChar(c) == c
  }

  /** A string is lower-case when lowering it changes nothing. */
  predicate IsLower(s: string) {
    AllChars(s, IsLowerChar)
  }

  /** Lower-casing maps whitespace to whitespace and nothing else to whitespace. */
  lemma LowerCharSpace(c: char)
    ensures IsSpace(LowerChar(c)) <==> IsSpace(c)
  {
  }

  lemma LowerIsLower(s: string)
    ensures IsLower(Lower(s))
  {
  }

  /** Removes leading whitespace (Python's `str.lstrip`). */
  function LStrip(s: string): (r: string)
    ensures |r| <= |s| && r == s[|s| - |r|..]
    ensures r == [] || !IsSpace(r[0])
    ensures forall i :: 0 <= i < |s| - |r| ==> IsSpace(s[i])
  {
    if s != [] && IsSpace(s[0]) then LStrip(s[1..]) else s
  }

  /** Removes trailing whitespace (Python's `str.rstrip`). */
  function RStrip(s: string): (r: string)
    ensures |r| <= |s| && r == s[..|r|]
    ensures r == [] || !IsSpace(r[|r| - 1])
    ensures forall i :: |r| <= i < |s| ==> IsSpace(s[i])
  {
    if s != [] && IsSpace(s[|s| - 1]) then RStrip(s[..|s| - 1]) else s
  }

  /** Python's `str.strip`. */
  function Strip(s: string): string {
    RStrip(LStrip(s))
  }

  /** A trimmed string has no whitespace at either end. */
  predicate IsTrimmed(s: string) {
    s == [] || (!IsSpace(s[0]) && !IsSpace(s[|s| - 1]))
  }

  lemma StripIsTrimmed(s: string)
    ensures IsTrimmed(Strip(s))
  {
    var l := LStrip(s);
    var r := RStrip(l);
    assert r == l[..|r|];
    if r != [] {
      assert r[0] == l[0];
    }
  }

  lemma LStripKeeps(s: string, q: char -> bool)
    requires AllChars(s, q)
    ensures AllChars(LStrip(s), q)
  {
    var l := LStrip(s);
    forall k | 0 <= k < |l| ensures q(l[k]) { assert l[k] == s[|s| - |l| + k]; }
  }

  lemma RStripKeeps(s: string, q: char -> bool)
    requires AllChars(s, q)
    ensures AllChars(RStrip(s), q)
  {
    var r := RStrip(s);
    forall k | 0 <= k < |r| ensures q(r[k]) { assert r[k] == s[k]; }
  }

  /** Stripping keeps any property every character has. */
  lemma StripKeeps(s: string, q: char -> bool)
    requires AllChars(s, q)
    ensures AllChars(Strip(s), q)
  {
    LStripKeeps(s, q);
    RStripKeeps(LStrip(s), q);
  }

  /** `s.strip().lower()` is lower-case and trimmed. */
  lemma StripLowerNormal(s: string)
    ensures IsLower(Lower(Strip(s))) && IsTrimmed(Lower(Strip(s)))
  {
    var t := Strip(s);
    StripIsTrimmed(s);
    LowerIsLower(t);
    if t != [] {
      LowerCharSpace(t[0]);
      LowerCharSpace(t[|t| - 1]);
    }
  }

  /** Every whitespace character is a plain space, and no two whitespace characters are adjacent. */
  predicate SingleSpaced(r: string) {
    forall k :: 0 <= k < |r| && IsSpace(r[k]) ==> r[k] == ' ' && (k + 1 < |r| ==> !IsSpace(r[k + 1]))
  }

  /** A slice of a single-spaced text is single-spaced. */
  lemma SliceSingleSpaced(s: string, a: nat, b: nat)
    requires a <= b <= |s| && SingleSpaced(s)
    ensures SingleSpaced(s[a..b])
  {
    var r := s[a..b];
    forall k | 0 <= k < |r| && IsSpace(r[k])
      ensures r[k] == ' ' && (k + 1 < |r| ==> !IsSpace(r[k + 1]))
    {
      assert r[k] == s[a + k];
      if k + 1 < |r| {
        assert r[k + 1] == s[a + k + 1];
      }
    }
  }

  /** Stripping keeps a text single-spaced. */
  lemma StripSingleSpaced(s: string)
    requires SingleSpaced(s)
    ensures SingleSpaced(Strip(s))
  {
    var l := LStrip(s);
    SliceSingleSpaced(s, |s| - |l|, |s|);
    SliceSingleSpaced(l, 0, |RStrip(l)|);
  }

  /** Stripping a trimmed string changes nothing. */
  lemma StripTrimmed(s: string)
    requires IsTrimmed(s)
    ensures Strip(s) == s
  {
  }

  /** Python's `sub in s` on strings. */
  predicate Contains(s: string, sub: string) {
    sub <= s || (s != [] && Contains(s[1..], sub))
  }

  /** A string contains only what fits into it. */
  lemma {:induction false} ContainsLength(s: string, sub: string)
    requires Contains(s, sub)
    ensures |sub| <= |s|
  {
    if !(sub <= s) {
      ContainsLength(s[1..], sub);
    }
  }

  /** Every character of a contained string occurs in the containing one. */
  lemma {:induction false} ContainsChars(s: string, sub: string, k: nat)
    requires Contains(s, sub) && k < |sub|
    ensures sub[k] in s
  {
    if sub <= s {
      assert s[k] == sub[k];
    } else {
      ContainsChars(s[1..], sub, k);
      assert s == [s[0]] + s[1..];
    }
  }

  /** Python's `s.endswith(suffix)`. */
  predicate EndsWith(s: string, suffix: string) {
    |suffix| <= |s| && s[|s| - |suffix|..] == suffix
  }

  /** The end of the longest run from `i` on whose characters all satisfy `p`. */
  function SkipWhile(s: string, i: nat, p: char -> bool): (j: nat)
    requires i <= |s|
    ensures i <= j <= |s|
    ensures forall k :: i <= k < j ==> p(s[k])
    ensures j == |s| || !p(s[j])
    decreases |s| - i
  {
    if i < |s| && p(s[i]) then SkipWhile(s, i + 1, p) else i
  }

  /** Skipping in a concatenation past its first part continues in the second part. */
  lemma {:induction false} SkipShift(x: string, y: string, j: nat, p: char -> bool)
    requires j <= |y|
    ensures SkipWhile(x + y, |x| + j, p) == |x| + SkipWhile(y, j, p)
    decreases |y| - j
  {
    if j < |y| {
      assert (x + y)[|x| + j] == y[j];
      if p(y[j]) {
        SkipShift(x, y, j + 1, p);
      }
    }
  }

  /** A run that covers the rest of the first part continues into the second part. */
  lemma {:induction false} SkipAcross(x: string, y: string, i: nat, p: char -> bool)
    requires i <= |x|
    requires forall k :: i <= k < |x| ==> p(x[k])
    ensures SkipWhile(x + y, i, p) == |x| + SkipWhile(y, 0, p)
    decreases |x| - i
  {
    if i < |x| {
      assert (x + y)[i] == x[i];
      SkipAcross(x, y, i + 1, p);
    } else {
      SkipShift(x, y, 0, p);
    }
  }

  /** A run of `p` that fills a middle piece of a text ends where the piece ends. */
  lemma SkipPiece(t: string, x: string, piece: string, y: string, p: char -> bool)
    requires t == x + (piece + y)
    requires forall k :: 0 <= k < |piece| ==> p(piece[k])
    requires y == [] || !p(y[0])
    ensures SkipWhile(t, |x|, p) == |x| + |piece|
  {
    SkipShift(x, piece + y, 0, p);
    SkipAcross(piece, y, 0, p);
  }

  /** Python's `$`: the end of the string, or just before a final newline. */
  predicate AtEnd(s: string, i: nat) {
    i == |s| || (i + 1 == |s| && s[i] == '\n')
  }

  /** The length of the leading run of non-whitespace characters. */
  function TokenLen(s: string): (n: nat)
    ensures n <= |s|
    ensures s != [] && !IsSpace(s[0]) ==> n > 0
    ensures forall k :: 0 <= k < n ==> !IsSpace(s[k])
  {
    if s != [] && !IsSpace(s[0]) then 1 + TokenLen(s[1..]) else 0
  }

  /** Python's `str.split()` with no argument: the maximal runs of non-whitespace. */
  function Words(s: string): (ws: seq<string>)
    ensures forall w :: w in ws ==> w != [] && forall k :: 0 <= k < |w| ==> !IsSpace(w[k])
    decreases |s|
  {
    var t := LStrip(s);
    if t == [] then [] else
      var n := TokenLen(t);
      [t[..n]] + Words(t[n..])
  }

  lemma {:induction false} TokenLenWhole(s: string)
    requires NoSpace(s)
    ensures TokenLen(s) == |s|
    decreases |s|
  {
    if s != [] {
      assert NoSpace(s[1..]) by {
        forall k | 0 <= k < |s[1..]| ensures !IsSpace(s[1..][k]) {
          assert s[1..][k] == s[k + 1];
        }
      }
      TokenLenWhole(s[1..]);
    }
  }

  /** A single word without whitespace splits into itself. */
  lemma WordsOfWord(w: string)
    requires w != [] && NoSpace(w)
    ensures Words(w) == [w]
  {
    assert LStrip(w) == w;
    TokenLenWhole(w);
    assert w[..|w|] == w && w[|w|..] == [];
  }

  /** Python's `sep.join(parts)`. */
  function Join(parts: seq<string>, sep: string): string {
    if parts == [] then ""
    else if |parts| == 1 then parts[0]
    else parts[0] + sep + Join(parts[1..], sep)
  }

  function DigitChar(d: nat): char
    requires d < 10
  {
    ('0' as int + d) as char
  }

  /** Python's `str(n)` for a natural number. */
  function NatToString(n: nat): (s: string)
    ensures s != [] && forall k :: 0 <= k < |s| ==> IsDigit(s[k])
  {
    if n < 10 then [DigitChar(n)] else NatToString(n / 10) + [DigitChar(n % 10)]
  }

  /** Python's `str(i)` for an integer. */
  function IntToString(i: int): string {
    if i < 0 then "-" + NatToString(-i) else NatToString(i)
  }

  /** Python's `<` on strings: lexicographic by code point. */
  predicate StrLess(a: string, b: string) {
    if a == [] then b != []
    else if b == [] then false
    else if a[0] != b[0] then a[0] < b[0]
    else StrLess(a[1..], b[1..])
  }

  lemma {:induction false} StrLessIrreflexive(a: string)
    ensures !StrLess(a, a)
  {
    if a != [] {
      StrLessIrreflexive(a[1..]);
    }
  }

  lemma {:induction false} StrLessTotal(a: string, b: string)
    ensures a == b || StrLess(a, b) || StrLess(b, a)
  {
    if a != [] && b != [] && a[0] == b[0] {
      StrLessTotal(a[1..], b[1..]);
      if a[1..] == b[1..] {
        assert a == [a[0]] + a[1..] && b == [b[0]] + b[1..];
      }
    }
  }

  lemma {:induction false} StrLessTransitive(a: string, b: string, c: string)
    requires StrLess(a, b) && StrLess(b, c)
    ensures StrLess(a, c)
  {
    if a != [] && b != [] && c != [] && a[0] == b[0] && b[0] == c[0] {
      StrLessTransitive(a[1..], b[1..], c[1..]);
    }
  }

  lemma {:induction false} StrLessAsymmetric(a: string, b: string)
    requires StrLess(a, b)
    ensures !StrLess(b, a)
  {
    if a != [] && b != [] && a[0] == b[0] {
      StrLessAsymmetric(a[1..], b[1..]);
    }
  }
}
