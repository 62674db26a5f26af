/**
 * The parts of Python's `str` that the server and loader code rely on:
 * `lower()`/`upper()` (ASCII letters only), `strip()`, the `in` substring
 * test, `\d` (ASCII digits) and `<` between strings.
 */
module Text {

  /** A character that Python's `str.strip()` removes (`str.isspace`). */
  predicate IsSpace(c: char) {
    var n := c as int;
    n == 0x20 || 0x09 <= n <= 0x0D || 0x1C <= n <= 0x1F || n == 0x85 || n == 0xA0
    || n == 0x1680 || 0x2000 <= n <= 0x200A || n == 0x2028 || n == 0x2029
    || n == 0x202F || n == 0x205F || n == 0x3000
  }

  predicate IsDigit(c: char) {
    '0' <= c <= '9'
  }

  function LowerChar(c: char): char {
    if 'A' <= c <= 'Z' then (c as int + 32) as char else c
  }

  function UpperChar(c: char): char {
    if 'a' <= c <= 'z' then (c as int - 32) as char else c
  }

  /** `s.lower()` on ASCII letters; every other character is kept. */
  function ToLower(s: string): (r: string)
    ensures |r| == |s|
    ensures forall i :: 0 <= i < |s| ==> r[i] == LowerChar(s[i])
  {
    if s == [] then [] else [LowerChar(s[0])] + ToLower(s[1..])
  }

  /** `s.upper()` on ASCII letters; every other character is kept. */
  function ToUpper(s: string): (r: string)
    ensures |r| == |s|
    ensures forall i :: 0 <= i < |s| ==> r[i] == UpperChar(s[i])
  {
    if s == [] then [] else [UpperChar(s[0])] + ToUpper(s[1..])
  }

  /** Lower-casing twice is lower-casing once. */
  lemma ToLowerIdempotent(s: string)
    ensures ToLower(ToLower(s)) == ToLower(s)
  {
  }

  /** Leading whitespace removed (`s.lstrip()`). */
  function StripStart(s: string): (r: string)
    ensures |r| <= |s| && r == s[|s| - |r|..]
    ensures r == [] || !IsSpace(r[0])
    ensures forall i :: 0 <= i < |s| - |r| ==> IsSpace(s[i])
  {
    if s != [] && IsSpace(s[0]) then StripStart(s[1..]) else s
  }

  /** Trailing whitespace removed (`s.rstrip()`). */
  function StripEnd(s: string): (r: string)
    ensures |r| <= |s| && r == s[..|r|]
    ensures r == [] || !IsSpace(r[|r| - 1])
    ensures forall i :: |r| <= i < |s| ==> IsSpace(s[i])
  {
    if s != [] && IsSpace(s[|s| - 1]) then StripEnd(s[..|s| - 1]) else s
  }

  /** `s.strip()`: the text between the leading and the trailing whitespace. */
  function Strip(s: string): (r: string)
    ensures |r| <= |s|
    ensures r == [] || (!IsSpace(r[0]) && !IsSpace(r[|r| - 1]))
    ensures r == [] <==> forall i :: 0 <= i < |s| ==> IsSpace(s[i])
  {
    var t := StripStart(s);
    var r := StripEnd(t);
    r
  }

  /** Upper-casing maps whitespace to itself and nothing else to whitespace. */
  lemma UpperCharSpace(c: char)
    ensures IsSpace(UpperChar(c)) == IsSpace(c)
  {
  }

  /** Upper-casing ASCII letters commutes with removing leading whitespace. */
  lemma {:induction false} StripStartUpper(s: string)
    ensures StripStart(ToUpper(s)) == ToUpper(StripStart(s))
    decreases |s|
  {
    if s != [] {
      var u := ToUpper(s);
      UpperCharSpace(s[0]);
      assert IsSpace(u[0]) == IsSpace(s[0]);
      if IsSpace(s[0]) {
        assert u[1..] == ToUpper(s[1..]);
        StripStartUpper(s[1..]);
      }
    }
  }

  /** Upper-casing a prefix is taking the prefix of the upper-cased text. */
  lemma ToUpperPrefix(s: string, n: nat)
    requires n <= |s|
    ensures ToUpper(s[..n]) == ToUpper(s)[..n]
  {
  }

  /** Upper-casing ASCII letters commutes with removing trailing whitespace. */
  lemma {:induction false} StripEndUpper(s: string)
    ensures StripEnd(ToUpper(s)) == ToUpper(StripEnd(s))
    decreases |s|
  {
    if s != [] {
      var n := |s| - 1;
      UpperCharSpace(s[n]);
      if IsSpace(s[n]) {
        ToUpperPrefix(s, n);
        StripEndUpper(s[..n]);
      }
    }
  }

  /** Upper-casing does not change what `strip()` removes. */
  lemma StripUpper(s: string)
    ensures Strip(ToUpper(s)) == ToUpper(Strip(s))
  {
    StripStartUpper(s);
    StripEndUpper(StripStart(s));
  }

  /** Python's `sub in s`: `sub` occurs at some position of `s`. */
  predicate Contains(s: string, sub: string) {
    exists i :: 0 <= i <= |s| && sub <= s[i..]
  }

  /** An occurrence at a known position. */
  lemma ContainsAt(s: string, sub: string, i: nat)
    requires i <= |s| && sub <= s[i..]
    ensures Contains(s, sub)
  {
  }

  /** `sub` cannot occur in `s` when one of its characters does not. */
  lemma NotContainsMissingChar(s: string, sub: string, c: char)
    requires c in sub && c !in s
    ensures !Contains(s, sub)
  {
  }

  /** Python's `a < b` on strings: lexicographic by code point. */
  predicate LexLess(a: string, b: string)
    decreases |a|
  {
    if a == [] then b != []
    else b != [] && (a[0] < b[0] || (a[0] == b[0] && LexLess(a[1..], b[1..])))
  }

  lemma {:induction false} LexLessTransitive(a: string, b: string, c: string)
    requires LexLess(a, b) && LexLess(b, c)
    ensures LexLess(a, c)
    decreases |a|
  {
    if a != [] && a[0] == b[0] && b[0] == c[0] {
      LexLessTransitive(a[1..], b[1..], c[1..]);
    }
  }

  lemma {:induction false} LexLessTotal(a: string, b: string)
    requires a != b
    ensures LexLess(a, b) || LexLess(b, a)
    decreases |a|
  {
    if a != [] && b != [] && a[0] == b[0] {
      assert a == [a[0]] + a[1..] && b == [b[0]] + b[1..];
      LexLessTotal(a[1..], b[1..]);
    }
  }
}
