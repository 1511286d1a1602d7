/**
 * The two character classes of the price pattern: `\d` and `\s` of
 * Python's `re` module on a str pattern.
 */
module CharClasses {

  /** `\d`, restricted to the ASCII decimal digits. */
  predicate IsDigit(c: char) {
    '0' <= c <= '9'
  }

  /**
   * `\s`: exactly the characters for which Python's str.isspace() holds,
   * which is the set `re` uses for `\s` on a str pattern.
   */
  predicate IsSpace(c: char) {
    || c == ' '
    || '\t' <= c <= '\r'                 // tab, line feed, vertical tab, form feed, carriage return
    || '\U{1C}' <= c <= '\U{1F}'         // file, group, record and unit separators
    || c == '\U{85}' || c == '\U{A0}' || c == '\U{1680}'
    || '\U{2000}' <= c <= '\U{200A}'
    || c == '\U{2028}' || c == '\U{2029}' || c == '\U{202F}' || c == '\U{205F}' || c == '\U{3000}'
  }

  /** The two classes, as values a run can be measured against. */
  datatype Class = Digit | Space

  predicate InClass(c: char, k: Class) {
    match k
    case Digit => IsDigit(c)
    case Space => IsSpace(c)
  }

  /** Every character of `s` is in class `k`. */
  predicate All(s: string, k: Class) {
    forall i :: 0 <= i < |s| ==> InClass(s[i], k)
  }

  /** `t` is a prefix of `s` (stated without a quantifier, unlike `t <= s`). */
  predicate StartsWith(s: string, t: string) {
    |t| <= |s| && s[..|t|] == t
  }

  /** No character of class `k` stands at position `i`: a run of `k` ending at `i` cannot go on. */
  predicate RunStopsAt(s: string, i: nat, k: Class) {
    i < |s| ==> !InClass(s[i], k)
  }

  /**
   * Length of the longest run of characters in class `k` that starts at
   * position `i` of `s`: what a greedy `x+` or `x*` consumes there.
   */
  function SpanFrom(s: string, i: nat, k: Class): (n: nat)
    requires i <= |s|
    ensures i + n <= |s|
    decreases |s| - i
  {
    if i == |s| || !InClass(s[i], k) then 0 else 1 + SpanFrom(s, i + 1, k)
  }

  /** The span is a run of class-`k` characters that stops at an out-of-class character or at the end. */
  lemma {:induction false} SpanFromIsMaximalRun(s: string, i: nat, k: Class)
    requires i <= |s|
    ensures All(s[i..i + SpanFrom(s, i, k)], k)
    ensures RunStopsAt(s, i + SpanFrom(s, i, k), k)
    decreases |s| - i
  {
    if i < |s| && InClass(s[i], k) {
      SpanFromIsMaximalRun(s, i + 1, k);
      var n := SpanFrom(s, i, k);
      assert s[i..i + n] == [s[i]] + s[i + 1..i + n];
    }
  }

  /**
   * A run of `n` characters in class `k` at `i` is covered by the span,
   * and is the whole span when an out-of-class character or the end follows it.
   */
  lemma {:induction false} SpanFromCovers(s: string, i: nat, n: nat, k: Class)
    requires i + n <= |s|
    requires All(s[i..i + n], k)
    ensures SpanFrom(s, i, k) >= n
    ensures RunStopsAt(s, i + n, k) ==> SpanFrom(s, i, k) == n
    decreases n
  {
    if n > 0 {
      assert s[i..i + n][0] == s[i];
      assert s[i + 1..i + n] == s[i..i + n][1..];
      SpanFromCovers(s, i + 1, n - 1, k);
    }
  }

  /** A prefix of class `k` followed by a character outside it, or by the end, is exactly the span at the front. */
  lemma SpanOfPrefix(s: string, x: string, k: Class)
    requires All(x, k) && StartsWith(s, x) && RunStopsAt(s, |x|, k)
    ensures SpanFrom(s, 0, k) == |x|
  {
    assert s[0..|x|] == x;
    SpanFromCovers(s, 0, |x|, k);
  }

  /** Dropping the first character shifts every span one place to the left. */
  lemma {:induction false} SpanFromOfTail(s: string, i: nat, k: Class)
    requires s != [] && i < |s|
    ensures SpanFrom(s[1..], i, k) == SpanFrom(s, i + 1, k)
    decreases |s| - i
  {
    if i + 1 < |s| && InClass(s[i + 1], k) {
      assert s[1..][i] == s[i + 1];
      SpanFromOfTail(s, i + 1, k);
    }
  }

  /** A run of class `k` in front of a string adds its length to the span at the front. */
  lemma {:induction false} SpanOfRunBefore(x: string, y: string, k: Class)
    requires All(x, k)
    ensures SpanFrom(x + y, 0, k) == |x| + SpanFrom(y, 0, k)
    decreases |x|
  {
    if x == [] {
      assert x + y == y;
    } else {
      var s := x + y;
      assert s[0] == x[0] && s[1..] == x[1..] + y;
      SpanFromOfTail(s, 0, k);
      SpanOfRunBefore(x[1..], y, k);
    }
  }
}
