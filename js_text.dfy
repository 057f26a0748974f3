/** JavaScript strings as the page sees them: sequences of UTF-16 code units.
    `String.prototype.length`, `trim`, `charAt` and a regular expression without the `u`
    flag all work on code units, so the model does too. */
module JsText {

  newtype CodeUnit = x: int | 0 <= x < 0x1_0000

  type JsString = seq<CodeUnit>

  /** The smaller of two lengths or indices. */
  function Min(a: nat, b: nat): nat { if a <= b then a else b }

  /** ECMAScript's WhiteSpace and LineTerminator code points: the set `trim` strips and the
      regular-expression class `\s` matches (all of them lie in the Basic Multilingual Plane). */
  predicate IsWhiteSpace(c: CodeUnit) {
    c == 0x09 || c == 0x0A || c == 0x0B || c == 0x0C || c == 0x0D || c == 0x20 ||
    c == 0xA0 || c == 0x1680 || (0x2000 <= c <= 0x200A) || c == 0x2028 || c == 0x2029 ||
    c == 0x202F || c == 0x205F || c == 0x3000 || c == 0xFEFF
  }

  predicate AllWhiteSpace(s: JsString) {
    forall i :: 0 <= i < |s| ==> IsWhiteSpace(s[i])
  }

  /** Neither end of `s` is white space: what `trim` leaves behind. */
  predicate Trimmed(s: JsString) {
    s == [] || (!IsWhiteSpace(s[0]) && !IsWhiteSpace(s[|s| - 1]))
  }

  /** Where the text after position `i` starts: the first position at or after `i` that does
      not hold white space, or `|s|`. */
  function SkipWhiteSpace(s: JsString, i: nat): (k: nat)
    requires i <= |s|
    ensures i <= k <= |s|
    ensures forall j :: i <= j < k ==> IsWhiteSpace(s[j])
    ensures k < |s| ==> !IsWhiteSpace(s[k])
    decreases |s| - i
  {
    if i < |s| && IsWhiteSpace(s[i]) then SkipWhiteSpace(s, i + 1) else i
  }

  /** Where the text before position `e` ends, looking no further back than `lo`: the last
      position after `lo` whose predecessor is not white space, or `lo`. */
  function SkipWhiteSpaceBack(s: JsString, lo: nat, e: nat): (k: nat)
    requires lo <= e <= |s|
    ensures lo <= k <= e
    ensures forall j :: k <= j < e ==> IsWhiteSpace(s[j])
    ensures k > lo ==> !IsWhiteSpace(s[k - 1])
    decreases e
  {
    if e > lo && IsWhiteSpace(s[e - 1]) then SkipWhiteSpaceBack(s, lo, e - 1) else e
  }

  /** `String.prototype.trim`: the infix of `s` left after white space is cut from both ends. */
  function Trim(s: JsString): (r: JsString)
    ensures Trimmed(r)
    ensures exists i :: 0 <= i <= |s| - |r| && r == s[i..i + |r|] &&
                        AllWhiteSpace(s[..i]) && AllWhiteSpace(s[i + |r|..])
  {
    var a := SkipWhiteSpace(s, 0);
    var b := SkipWhiteSpaceBack(s, a, |s|);
    var r := s[a..b];
    assert AllWhiteSpace(s[..a]) && AllWhiteSpace(s[b..]);
    assert r == s[a..a + |r|];
    r
  }

  lemma {:induction false} SkipsTo(s: JsString, i: nat, k: nat)
    requires i <= k <= |s|
    requires forall j :: i <= j < k ==> IsWhiteSpace(s[j])
    requires k < |s| ==> !IsWhiteSpace(s[k])
    ensures SkipWhiteSpace(s, i) == k
    decreases k - i
  {
    if i < k {
      SkipsTo(s, i + 1, k);
    }
  }

  lemma {:induction false} SkipsBackTo(s: JsString, lo: nat, k: nat, e: nat)
    requires lo <= k <= e <= |s|
    requires forall j :: k <= j < e ==> IsWhiteSpace(s[j])
    requires k > lo ==> !IsWhiteSpace(s[k - 1])
    ensures SkipWhiteSpaceBack(s, lo, e) == k
    decreases e - k
  {
    if k < e {
      SkipsBackTo(s, lo, k, e - 1);
    }
  }

  /** `trim` is determined by the shape of its input: white space, then a core with no white
      space at either end, then white space again gives back exactly that core. */
  lemma TrimOf(a: JsString, m: JsString, b: JsString)
    requires AllWhiteSpace(a) && AllWhiteSpace(b) && Trimmed(m)
    ensures Trim(a + m + b) == m
  {
    var s := a + m + b;
    if m == [] {
      SkipsTo(s, 0, |s|);
      assert s[|s|..|s|] == m;
    } else {
      assert s[|a|] == m[0] && s[|a| + |m| - 1] == m[|m| - 1];
      SkipsTo(s, 0, |a|);
      SkipsBackTo(s, |a|, |a| + |m|, |s|);
      assert s[|a|..|a| + |m|] == m;
    }
  }

  /** A string with no white space at either end is its own trim. */
  lemma TrimOfTrimmed(s: JsString)
    requires Trimmed(s)
    ensures Trim(s) == s
  {
    assert s == [] + s + [];
    TrimOf([], s, []);
  }

  /** `trim` is idempotent. */
  lemma TrimIdempotent(s: JsString)
    ensures Trim(Trim(s)) == Trim(s)
  {
    TrimOfTrimmed(Trim(s));
  }

  /** The two UTF-16 code units (a surrogate pair) of a character outside the Basic Multilingual
      Plane. */
  function SurrogatePair(c: char): (r: JsString)
    requires c as int >= 0x1_0000
    ensures |r| == 2 && 0xD800 <= r[0] < 0xDC00 && 0xDC00 <= r[1] < 0xE000
  {
    var v := c as int - 0x1_0000;
    [(0xD800 + v / 0x400) as CodeUnit, (0xDC00 + v % 0x400) as CodeUnit]
  }
}
