/** Character-level helpers: Python's whitespace stripping, the decimal-comma
    replacement and decimal digit strings. */
module Text {

  /** The characters for which Python's `str.isspace` holds, i.e. those that
      `str.strip()` removes. */
  predicate IsSpace(c: char) {
    var n := c as int;
    (9 <= n <= 13) || (0x1C <= n <= 0x20) || n == 0x85 || n == 0xA0 || n == 0x1680 ||
    (0x2000 <= n <= 0x200A) || n == 0x2028 || n == 0x2029 || n == 0x202F ||
    n == 0x205F || n == 0x3000
  }

  predicate AllSpace(s: string) {
    forall i :: 0 <= i < |s| ==> IsSpace(s[i])
  }

  /** The number of whitespace characters at the start of `s`. */
  function LeadingSpaces(s: string): (k: nat)
    ensures k <= |s| && forall i :: 0 <= i < k ==> IsSpace(s[i])
    ensures k < |s| ==> !IsSpace(s[k])
  {
    if s == [] || !IsSpace(s[0]) then 0
    else 1 + LeadingSpaces(s[1..])
  }

  /** The number of whitespace characters at the end of `s`. */
  function TrailingSpaces(s: string): (k: nat)
    ensures k <= |s| && forall i :: |s| - k <= i < |s| ==> IsSpace(s[i])
    ensures k < |s| ==> !IsSpace(s[|s| - 1 - k])
  {
    if s == [] || !IsSpace(s[|s| - 1]) then 0
    else 1 + TrailingSpaces(s[..|s| - 1])
  }

  /** Python's `s.strip()`: the infix of `s` left after removing whitespace at both ends. */
  function Strip(s: string): (r: string)
    ensures exists i, j :: 0 <= i <= j <= |s| && r == s[i..j] && AllSpace(s[..i]) && AllSpace(s[j..])
    ensures r == [] || (!IsSpace(r[0]) && !IsSpace(r[|r| - 1]))
  {
    var i := LeadingSpaces(s);
    var t := s[i..];
    var j := i + (|t| - TrailingSpaces(t));
    assert t[|t| - TrailingSpaces(t)..] == s[j..];
    s[i..j]
  }

  lemma {:induction false} LeadingSpacesPrefix(pre: string, rest: string)
    requires AllSpace(pre)
    ensures LeadingSpaces(pre + rest) == |pre| + LeadingSpaces(rest)
  {
    if pre != [] {
      assert (pre + rest)[1..] == pre[1..] + rest;
      LeadingSpacesPrefix(pre[1..], rest);
    } else {
      assert pre + rest == rest;
    }
  }

  lemma {:induction false} TrailingSpacesSuffix(rest: string, post: string)
    requires AllSpace(post)
    ensures TrailingSpaces(rest + post) == |post| + TrailingSpaces(rest)
  {
    if post != [] {
      assert (rest + post)[..|rest + post| - 1] == rest + post[..|post| - 1];
      TrailingSpacesSuffix(rest, post[..|post| - 1]);
    } else {
      assert rest + post == rest;
    }
  }

  /** Stripping text that has whitespace only around a core whose ends are not whitespace
      yields that core. */
  lemma StripPadded(pre: string, core: string, post: string)
    requires AllSpace(pre) && AllSpace(post)
    requires core != [] && !IsSpace(core[0]) && !IsSpace(core[|core| - 1])
    ensures Strip(pre + core + post) == core
  {
    var s := pre + core + post;
    assert s == pre + (core + post);
    LeadingSpacesPrefix(pre, core + post);
    var t := s[|pre|..];
    assert t == core + post;
    TrailingSpacesSuffix(core, post);
    assert s[|pre|..|pre| + |core|] == core;
  }

  /** Python's `s.replace(",", ".")`: every comma becomes a period, nothing else changes. */
  function ReplaceComma(s: string): (r: string)
    ensures |r| == |s|
    ensures forall i :: 0 <= i < |s| ==> r[i] == (if s[i] == ',' then '.' else s[i])
  {
    if s == [] then []
    else [if s[0] == ',' then '.' else s[0]] + ReplaceComma(s[1..])
  }

  predicate IsDigit(c: char) {
    '0' <= c <= '9'
  }

  predicate AllDigits(s: string) {
    forall i :: 0 <= i < |s| ==> IsDigit(s[i])
  }

  function DigitValue(c: char): (v: nat)
    requires IsDigit(c)
    ensures v < 10
  {
    c as int - '0' as int
  }

  function DigitChar(v: nat): (c: char)
    requires v < 10
    ensures IsDigit(c) && DigitValue(c) == v
  {
    ('0' as int + v) as char
  }

  /** The number a string of decimal digits denotes, most significant digit first. */
  function DigitsValue(s: string): nat
    requires AllDigits(s)
  {
    if s == [] then 0 else 10 * DigitsValue(s[..|s| - 1]) + DigitValue(s[|s| - 1])
  }

  function Pow10(k: nat): (p: nat)
    ensures p >= 1
  {
    if k == 0 then 1 else 10 * Pow10(k - 1)
  }

  /** `m` written with exactly `k` digits, padded with leading zeros. */
  function PadDigits(m: nat, k: nat): (r: string)
    requires m < Pow10(k)
    ensures |r| == k && AllDigits(r) && DigitsValue(r) == m
  {
    if k == 0 then []
    else
      var p := PadDigits(m / 10, k - 1);
      var r := p + [DigitChar(m % 10)];
      assert r[..|r| - 1] == p;
      r
  }

  /** Padding the value of a digit string to its own length gives the string back. */
  lemma {:induction false} PadDigitsValue(s: string)
    requires AllDigits(s)
    ensures DigitsValue(s) < Pow10(|s|) && PadDigits(DigitsValue(s), |s|) == s
  {
    DigitsValueBound(s);
    if s != [] {
      var p := s[..|s| - 1];
      PadDigitsValue(p);
      var v := DigitsValue(s);
      assert v / 10 == DigitsValue(p) && v % 10 == DigitValue(s[|s| - 1]);
      assert DigitChar(DigitValue(s[|s| - 1])) == s[|s| - 1];
      assert s == p + [s[|s| - 1]];
    }
  }

  /** A string of decimal digits denotes a number below 10 to the power of its length. */
  lemma {:induction false} DigitsValueBound(s: string)
    requires AllDigits(s)
    ensures DigitsValue(s) < Pow10(|s|)
  {
    if s != [] {
      DigitsValueBound(s[..|s| - 1]);
    }
  }
}
