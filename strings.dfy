/**
 * The parts of the JavaScript string library the application relies on:
 * `trim()` (and the validator sanitiser of the same name, which uses the
 * class `\s`), `toLowerCase()`, `includes()`, `length` in UTF-16 code units,
 * the length counted by the validator library's `isLength`, and the
 * code-point ordering a document store applies when it sorts a text field.
 *
 * Dafny's `char` is a Unicode scalar value, so a `string` here is a sequence
 * of code points.
 */
module Strings {

  /** The ECMAScript WhiteSpace and LineTerminator code points. */
  predicate IsWhitespace(c: char) {
    || c == '\t' || c == '\n' || c == '\U{000B}' || c == '\U{000C}' || c == '\r'
    || c == ' ' || c == '\U{00A0}' || c == '\U{1680}'
    || ('\U{2000}' <= c <= '\U{200A}')
    || c == '\U{2028}' || c == '\U{2029}' || c == '\U{202F}' || c == '\U{205F}'
    || c == '\U{3000}' || c == '\U{FEFF}'
  }

  predicate IsUpperAscii(c: char) { 'A' <= c <= 'Z' }
  predicate IsLowerAscii(c: char) { 'a' <= c <= 'z' }
  predicate IsDigit(c: char) { '0' <= c <= '9' }
  predicate IsAlphanumericAscii(c: char) { IsUpperAscii(c) || IsLowerAscii(c) || IsDigit(c) }

  /** Some character of `s` satisfies the class (a regular expression `/[…]/`). */
  predicate HasChar(s: string, p: char -> bool) {
    exists i :: 0 <= i < |s| && p(s[i])
  }

  /** Leading whitespace removed. */
  function TrimStart(s: string): (r: string)
    ensures |r| <= |s| && r == s[|s| - |r|..]
    ensures r == [] || !IsWhitespace(r[0])
    ensures forall i :: 0 <= i < |s| - |r| ==> IsWhitespace(s[i])
  {
    if s != [] && IsWhitespace(s[0]) then TrimStart(s[1..]) else s
  }

  /** Trailing whitespace removed. */
  function TrimEnd(s: string): (r: string)
    ensures |r| <= |s| && r == s[..|r|]
    ensures r == [] || !IsWhitespace(r[|r| - 1])
    ensures forall i :: |r| <= i < |s| ==> IsWhitespace(s[i])
  {
    if s != [] && IsWhitespace(s[|s| - 1]) then TrimEnd(s[..|s| - 1]) else s
  }

  /** `String.prototype.trim`: the longest slice of `s` that neither starts nor ends with whitespace. */
  function Trim(s: string): (r: string)
    ensures exists k :: OccursAt(s, r, k) && OnlySpaceAround(s, r, k)
    ensures r == [] || (!IsWhitespace(r[0]) && !IsWhitespace(r[|r| - 1]))
  {
    var a := TrimStart(s);
    var r := TrimEnd(a);
    TrimSlice(s, a, r);
    r
  }

  /** The trimmed text sits in `s` after the leading whitespace, with only whitespace after it. */
  lemma TrimSlice(s: string, a: string, r: string)
    requires |a| <= |s| && a == s[|s| - |a|..] && |r| <= |a| && r == a[..|r|]
    requires forall i :: 0 <= i < |s| - |a| ==> IsWhitespace(s[i])
    requires forall i :: |r| <= i < |a| ==> IsWhitespace(a[i])
    ensures OccursAt(s, r, |s| - |a|) && OnlySpaceAround(s, r, |s| - |a|)
  {
    var k := |s| - |a|;
    SliceOfSlice(s, k, 0, |r|);
    forall i | 0 <= i && k + |r| <= i < |s| ensures IsWhitespace(s[i]) {
      assert s[i] == a[i - k];
    }
  }

  /** Everything of `s` before offset `k` and after `r` placed there is whitespace. */
  predicate OnlySpaceAround(s: string, r: string, k: int) {
    && (forall i :: 0 <= i < k && i < |s| ==> IsWhitespace(s[i]))
    && (forall i :: 0 <= i && k + |r| <= i < |s| ==> IsWhitespace(s[i]))
  }

  /** The trimmed text is empty exactly when every character is whitespace. */
  lemma TrimEmptyIff(s: string)
    ensures Trim(s) == [] <==> forall i :: 0 <= i < |s| ==> IsWhitespace(s[i])
  {
  }

  /** Trimming text without surrounding whitespace leaves it as it is. */
  lemma TrimNoSurroundingSpace(s: string)
    requires s == [] || (!IsWhitespace(s[0]) && !IsWhitespace(s[|s| - 1]))
    ensures Trim(s) == s
  {
  }

  /** `toLowerCase` on the ASCII letters. */
  function LowerChar(c: char): (r: char)
    ensures IsUpperAscii(c) ==> IsLowerAscii(r)
    ensures !IsUpperAscii(c) ==> r == c
  {
    if IsUpperAscii(c) then (c as int + 32) as char else c
  }

  function ToLower(s: string): (r: string)
    ensures |r| == |s|
    ensures forall i :: 0 <= i < |s| ==> r[i] == LowerChar(s[i])
  {
    seq(|s|, i requires 0 <= i < |s| => LowerChar(s[i]))
  }

  /** A slice of a suffix is a slice of the whole. */
  lemma SliceOfSlice(s: string, i: int, j: int, k: int)
    requires 0 <= i <= |s| && 0 <= j <= k <= |s| - i
    ensures s[i..][j..k] == s[i + j..i + k]
  {
    var a, b := s[i..][j..k], s[i + j..i + k];
    assert |a| == |b|;
    forall n | 0 <= n < |a| ensures a[n] == b[n] {
      assert a[n] == s[i..][j + n] == s[i + j + n];
    }
  }

  /** `sub` occurs in `s` starting at offset `k`. */
  predicate OccursAt(s: string, sub: string, k: int) {
    0 <= k <= |s| - |sub| && s[k..k + |sub|] == sub
  }

  predicate IsPrefix(p: string, s: string) {
    |p| <= |s| && s[..|p|] == p
  }

  /** `s.includes(sub)`: `sub` occurs in `s` at some offset. */
  function Contains(s: string, sub: string): (r: bool)
    ensures r <==> exists k :: OccursAt(s, sub, k)
  {
    if IsPrefix(sub, s) then
      assert OccursAt(s, sub, 0);
      true
    else if s == [] then
      false
    else
      var r := Contains(s[1..], sub);
      assert forall k :: OccursAt(s, sub, k) <==> (k >= 1 && OccursAt(s[1..], sub, k - 1)) by {
        forall k ensures OccursAt(s, sub, k) <==> (k >= 1 && OccursAt(s[1..], sub, k - 1)) {
          if 1 <= k <= |s| - |sub| {
            SliceOfSlice(s, 1, k - 1, k - 1 + |sub|);
          }
        }
      }
      assert r ==> exists k :: OccursAt(s, sub, k) by {
        if r {
          var j :| OccursAt(s[1..], sub, j);
          assert OccursAt(s, sub, j + 1);
        }
      }
      r
  }

  /** The length JavaScript reports: code points above U+FFFF take two UTF-16 units. */
  function Utf16Length(s: string): (n: nat)
    ensures |s| <= n <= 2 * |s|
  {
    if s == [] then 0 else Utf16Length(s[..|s| - 1]) + (if s[|s| - 1] as int >= 0x1_0000 then 2 else 1)
  }

  predicate IsVariationSelector(c: char) { c == '\U{FE0E}' || c == '\U{FE0F}' }

  /**
   * The length the validator library's `isLength` measures: UTF-16 units,
   * less one per surrogate pair and one per variation selector U+FE0E/U+FE0F;
   * that is, the code points other than variation selectors.
   */
  function ValidatorLength(s: string): (n: nat)
    ensures n <= |s|
  {
    if s == [] then 0 else ValidatorLength(s[..|s| - 1]) + (if IsVariationSelector(s[|s| - 1]) then 0 else 1)
  }

  /** On text without variation selectors the validator counts every code point. */
  lemma {:induction false} ValidatorLengthPlain(s: string)
    requires forall i :: 0 <= i < |s| ==> !IsVariationSelector(s[i])
    ensures ValidatorLength(s) == |s|
  {
    if s != [] {
      ValidatorLengthPlain(s[..|s| - 1]);
    }
  }

  /** On text below U+10000 the UTF-16 length is the number of code points. */
  lemma {:induction false} Utf16LengthBmp(s: string)
    requires forall i :: 0 <= i < |s| ==> s[i] as int < 0x1_0000
    ensures Utf16Length(s) == |s|
  {
    if s != [] {
      Utf16LengthBmp(s[..|s| - 1]);
    }
  }

  /** Lexicographic order by code point (the store's binary comparison of text). */
  predicate LessEq(a: string, b: string) {
    a == [] || (b != [] && (a[0] < b[0] || (a[0] == b[0] && LessEq(a[1..], b[1..]))))
  }

  lemma {:induction false} LessEqTotal(a: string, b: string)
    ensures LessEq(a, b) || LessEq(b, a)
  {
    if a != [] && b != [] && a[0] == b[0] {
      LessEqTotal(a[1..], b[1..]);
    }
  }

  lemma {:induction false} LessEqTransitive(a: string, b: string, c: string)
    requires LessEq(a, b) && LessEq(b, c)
    ensures LessEq(a, c)
  {
    if a != [] && b != [] && c != [] && a[0] == b[0] == c[0] {
      LessEqTransitive(a[1..], b[1..], c[1..]);
    }
  }
}
