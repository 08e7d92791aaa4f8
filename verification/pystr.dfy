/**
 The part of Python's `str` behaviour the chat handler relies on:
 `str.strip()` with no argument, which removes leading and trailing
 whitespace as decided by `str.isspace` on each code point.
 */
module PyStr {

  /** The code points `str.isspace` accepts (bidirectional class WS, B or S,
      or general category Zs). */
  predicate IsWhitespace(c: char) {
    var n := c as int;
    || 0x09 <= n <= 0x0D
    || 0x1C <= n <= 0x20
    || n == 0x85
    || n == 0xA0
    || n == 0x1680
    || 0x2000 <= n <= 0x200A
    || n == 0x2028
    || n == 0x2029
    || n == 0x202F
    || n == 0x205F
    || n == 0x3000
  }

  /** Every character of `s` in `[lo, hi)` is whitespace. */
  predicate BlankBetween(s: string, lo: nat, hi: nat)
    requires lo <= hi <= |s|
  {
    forall k :: lo <= k < hi ==> IsWhitespace(s[k])
  }

  /** Every character of `s` is whitespace (vacuously so for ""). */
  predicate IsBlank(s: string) {
    BlankBetween(s, 0, |s|)
  }

  /** The scan from the left: the first index at or after `i` that does not
      hold whitespace, or `|s|`. */
  function SkipLeading(s: string, i: nat): (n: nat)
    requires i <= |s|
    ensures i <= n <= |s|
    ensures BlankBetween(s, i, n)
    ensures n == |s| || !IsWhitespace(s[n])
    decreases |s| - i
  {
    if i == |s| || !IsWhitespace(s[i]) then i else SkipLeading(s, i + 1)
  }

  /** The scan from the right, never passing `lo`: the end of the text left
      once trailing whitespace before `j` is dropped. */
  function SkipTrailing(s: string, lo: nat, j: nat): (m: nat)
    requires lo <= j <= |s|
    ensures lo <= m <= j
    ensures BlankBetween(s, m, j)
    ensures m == lo || !IsWhitespace(s[m - 1])
    decreases j
  {
    if j == lo || !IsWhitespace(s[j - 1]) then j else SkipTrailing(s, lo, j - 1)
  }

  /** `s.strip()`: the text between the whitespace prefix and suffix. It is
      empty exactly when `s` holds nothing but whitespace, which is what
      Python's `not message.strip()` tests. */
  function Strip(s: string): (r: string)
    ensures exists i, j :: 0 <= i <= j <= |s| && r == s[i..j] && BlankBetween(s, 0, i) && BlankBetween(s, j, |s|)
    ensures r == [] || (!IsWhitespace(r[0]) && !IsWhitespace(r[|r| - 1]))
    ensures r == [] <==> IsBlank(s)
  {
    var i := SkipLeading(s, 0);
    var j := SkipTrailing(s, i, |s|);
    assert i < j ==> s[i..j][0] == s[i] && s[i..j][j - i - 1] == s[j - 1];
    s[i..j]
  }
}
