/** Python's `float(text)` on plain decimal notation, and a fixed-point formatter
    that serves as its inverse. */
module Decimal {
  import opened Basics
  import opened Text

  /** Position of the first `c` in `s`, or `|s|` when there is none. */
  function IndexOf(s: string, c: char): (k: nat)
    ensures k <= |s| && c !in s[..k]
    ensures k < |s| ==> s[k] == c
  {
    if s == [] then 0
    else if s[0] == c then 0
    else
      var k := 1 + IndexOf(s[1..], c);
      assert s[..k] == [s[0]] + s[1..][..k - 1];
      k
  }

  lemma {:induction false} IndexOfJoin(a: string, c: char, b: string)
    requires c !in a
    ensures IndexOf(a + [c] + b, c) == |a|
  {
    if a != [] {
      assert (a + [c] + b)[1..] == a[1..] + [c] + b;
      IndexOfJoin(a[1..], c, b);
    }
  }

  /** Digits with at most one decimal point and at least one digit:
      `"10.5"`, `"10."`, `".5"` and `"10"` are numbers; `"."`, `""` and `"1.2.3"` are not. */
  function ParseUnsigned(s: string): (r: Option<real>)
    ensures r.Some? ==> r.value >= 0.0
  {
    var k := IndexOf(s, '.');
    var whole := s[..k];
    var frac := if k < |s| then s[k + 1..] else [];
    if AllDigits(whole) && AllDigits(frac) && |whole| + |frac| >= 1 then Some(PointValue(whole, frac))
    else None
  }

  /** The value of the digits `whole` and `frac` written either side of a decimal point. */
  function PointValue(whole: string, frac: string): (v: real)
    requires AllDigits(whole) && AllDigits(frac)
    ensures v >= 0.0
  {
    DigitsValue(whole) as real + DigitsValue(frac) as real / Pow10(|frac|) as real
  }

  /** Python's `float(text)` for text that is already stripped: an optional sign
      followed by an unsigned decimal. */
  function ParseFloat(s: string): (r: Option<real>)
    ensures r.Some? ==> s != [] && (s[0] != '-' ==> r.value >= 0.0)
  {
    if |s| > 0 && (s[0] == '+' || s[0] == '-') then
      match ParseUnsigned(s[1..])
      case None => None
      case Some(v) => Some(if s[0] == '-' then -v else v)
    else
      ParseUnsigned(s)
  }

  /** What unsigned decimal text accepted by the parser looks like: digits and
      periods only, at most one period, at least one digit. */
  lemma UnsignedSyntax(s: string)
    requires ParseUnsigned(s).Some?
    ensures forall i :: 0 <= i < |s| ==> IsDigit(s[i]) || s[i] == '.'
    ensures forall i, j :: 0 <= i < j < |s| && s[i] == '.' ==> s[j] != '.'
    ensures exists i :: 0 <= i < |s| && IsDigit(s[i])
  {
    var k := IndexOf(s, '.');
    var whole := s[..k];
    var frac := if k < |s| then s[k + 1..] else [];
    assert forall i :: 0 <= i < |s| && i != k ==> s[i] == if i < k then whole[i] else frac[i - k - 1];
    if |whole| > 0 {
      assert IsDigit(s[0]);
    } else {
      assert IsDigit(s[k + 1]);
    }
  }

  /** Text accepted as a number holds nothing but an optional leading sign, digits
      and at most one period. In particular a decimal comma is rejected, and so is
      a number with period thousands separators such as `1.234.56`. */
  lemma FloatSyntax(s: string)
    requires ParseFloat(s).Some?
    ensures ',' !in s
    ensures forall i :: 0 <= i < |s| ==> IsDigit(s[i]) || s[i] == '.' || (i == 0 && (s[i] == '+' || s[i] == '-'))
    ensures forall i, j :: 0 <= i < j < |s| && s[i] == '.' ==> s[j] != '.'
  {
    if s[0] == '+' || s[0] == '-' {
      UnsignedSyntax(s[1..]);
      assert forall i :: 1 <= i < |s| ==> s[i] == s[1..][i - 1];
    } else {
      UnsignedSyntax(s);
    }
  }

  /** The decimal digits of `n`, without leading zeros. */
  function NatToDigits(n: nat): (r: string)
    ensures r != [] && AllDigits(r) && DigitsValue(r) == n
    ensures n > 0 ==> r[0] != '0'
  {
    if n < 10 then [DigitChar(n)]
    else
      var p := NatToDigits(n / 10);
      var r := p + [DigitChar(n % 10)];
      assert r[..|r| - 1] == p;
      r
  }

  /** The fixed-point text of `n / 10^k` with `k` fractional digits after `sep`
      (no separator when `k == 0`): `ShowFixed(105, 1, ',') == "10,5"`. */
  function ShowFixed(n: nat, k: nat, sep: char): (r: string)
    ensures r != [] && IsDigit(r[0]) && IsDigit(r[|r| - 1])
  {
    var p := Pow10(k);
    DivModSplit(n, p);
    var whole := NatToDigits(n / p);
    if k == 0 then whole
    else
      var frac := PadDigits(n % p, k);
      var r := whole + [sep] + frac;
      assert r[0] == whole[0] && r[|r| - 1] == frac[k - 1];
      r
  }

  lemma ReplaceCommaDigits(w: string)
    requires AllDigits(w)
    ensures ReplaceComma(w) == w
  {
    assert forall i :: 0 <= i < |w| ==> ReplaceComma(w)[i] == w[i];
  }

  lemma ReplaceCommaPoint(w: string, sep: char, f: string)
    requires AllDigits(w) && AllDigits(f) && (sep == ',' || sep == '.')
    ensures ReplaceComma(w + [sep] + f) == w + ['.'] + f
  {
    var s := w + [sep] + f;
    assert forall i :: 0 <= i < |s| ==> ReplaceComma(s)[i] == (w + ['.'] + f)[i];
  }

  /** Replacing commas turns fixed-point text with a decimal comma (or a period)
      into the same text with a period. */
  lemma ReplaceCommaShowFixed(n: nat, k: nat, sep: char)
    requires sep == ',' || sep == '.'
    ensures ReplaceComma(ShowFixed(n, k, sep)) == ShowFixed(n, k, '.')
  {
    var p := Pow10(k);
    DivModSplit(n, p);
    var whole := NatToDigits(n / p);
    if k == 0 {
      ReplaceCommaDigits(whole);
    } else {
      ReplaceCommaPoint(whole, sep, PadDigits(n % p, k));
    }
  }

  lemma DivModSplit(n: nat, p: nat)
    requires p >= 1
    ensures n / p >= 0 && n == (n / p) * p + n % p && n % p < p
  {
  }

  /** Euclidean division splits `n / p` into a whole part and a remainder fraction. */
  lemma RealDivModSplit(n: nat, p: nat)
    requires p >= 1
    ensures (n / p) as real + (n % p) as real / p as real == n as real / p as real
  {
    var q, m := n / p, n % p;
    DivModSplit(n, p);
    assert (q * p) as real == q as real * p as real;
    assert (q as real * p as real + m as real) / p as real == q as real + m as real / p as real;
  }

  lemma PointValueOfDigits(q: nat, m: nat, k: nat)
    requires m < Pow10(k)
    ensures PointValue(NatToDigits(q), PadDigits(m, k)) == q as real + m as real / Pow10(k) as real
  {
  }

  /** The whole and fractional digits of `n / 10^k` denote exactly that number. */
  lemma FixedPointValue(n: nat, k: nat, p: nat)
    requires p == Pow10(k)
    ensures n / p >= 0 && n % p < p
    ensures PointValue(NatToDigits(n / p), PadDigits(n % p, k)) == n as real / p as real
  {
    DivModSplit(n, p);
    PointValueOfDigits(n / p, n % p, k);
    RealDivModSplit(n, p);
  }

  lemma ParseUnsignedWhole(whole: string)
    requires whole != [] && AllDigits(whole)
    ensures ParseUnsigned(whole) == Some(PointValue(whole, []))
  {
    assert '.' !in whole;
    assert whole[..|whole|] == whole;
  }

  lemma ParseUnsignedPoint(whole: string, frac: string)
    requires whole != [] && AllDigits(whole) && AllDigits(frac)
    ensures ParseUnsigned(whole + "." + frac) == Some(PointValue(whole, frac))
  {
    var s := whole + "." + frac;
    assert '.' !in whole;
    IndexOfJoin(whole, '.', frac);
    assert s[..|whole|] == whole && s[|whole| + 1..] == frac;
  }

  lemma ShowFixedParts(n: nat, k: nat)
    requires k > 0
    ensures n / Pow10(k) >= 0 && n % Pow10(k) < Pow10(k)
    ensures ShowFixed(n, k, '.') == NatToDigits(n / Pow10(k)) + "." + PadDigits(n % Pow10(k), k)
  {
    DivModSplit(n, Pow10(k));
  }

  /** `float` reads back exactly the value the fixed-point text denotes. */
  lemma ParseShowFixed(n: nat, k: nat)
    ensures ParseFloat(ShowFixed(n, k, '.')) == Some(n as real / Pow10(k) as real)
  {
    var p := Pow10(k);
    DivModSplit(n, p);
    var whole := NatToDigits(n / p);
    if k == 0 {
      assert ShowFixed(n, k, '.') == whole;
      ParseUnsignedWhole(whole);
    } else {
      ShowFixedParts(n, k);
      ParseUnsignedPoint(whole, PadDigits(n % p, k));
      FixedPointValue(n, k, p);
    }
  }

  /** A leading minus sign negates the value of unsigned text. */
  lemma ParseNegated(s: string, v: real)
    requires s != [] && s[0] != '+' && s[0] != '-' && ParseFloat(s) == Some(v)
    ensures ParseFloat("-" + s) == Some(-v)
  {
    var t := "-" + s;
    assert t[0] == '-' && t[1..] == s;
    assert ParseUnsigned(s) == Some(v);
  }
}
