/**
 * The two numeric conversions the extractor applies to the text it matched:
 * `int()` on a run of ASCII digits, and `float()` on a run of digits and dots.
 * The loss is kept as an exact decimal rather than a binary float, and `float()`
 * is modelled as accepting or rejecting the token together with the exact value
 * the accepted token denotes.
 */
module Numbers {
  import opened Wrappers
  import opened Chars

  function Pow10(n: nat): (p: nat)
    ensures p >= 1
  {
    if n == 0 then 1 else 10 * Pow10(n - 1)
  }

  function DigitValue(c: char): (d: nat)
    requires IsDigit(c)
    ensures d < 10
  {
    c as int - '0' as int
  }

  function DigitChar(d: nat): (c: char)
    requires d < 10
    ensures IsDigit(c) && DigitValue(c) == d
  {
    ('0' as int + d) as char
  }

  /** The value `int()` gives a run of decimal digits; leading zeros are allowed. */
  function DigitsValue(s: string): (n: nat)
    requires AllIn(s, Digit)
    ensures n < Pow10(|s|)
    decreases |s|
  {
    if s == [] then 0 else DigitsValue(s[..|s| - 1]) * 10 + DigitValue(s[|s| - 1])
  }

  /** Reading digits written after other digits shifts the earlier ones left. */
  lemma {:induction false} DigitsValueConcat(a: string, b: string)
    requires AllIn(a, Digit) && AllIn(b, Digit)
    ensures AllIn(a + b, Digit)
    ensures DigitsValue(a + b) == DigitsValue(a) * Pow10(|b|) + DigitsValue(b)
    decreases |b|
  {
    if b != [] {
      var b' := b[..|b| - 1];
      assert (a + b)[..|a + b| - 1] == a + b';
      DigitsValueConcat(a, b');
      var x, p := DigitsValue(a), Pow10(|b'|);
      assert Pow10(|b|) == 10 * p;
      MulShift(x, p);
    } else {
      assert a + b == a;
    }
  }

  lemma MulShift(x: nat, p: nat)
    ensures x * p * 10 == x * (10 * p)
  {
  }

  /** The decimal numeral of `n`, left-padded with zeros to at least `width` digits. */
  function Numeral(n: nat, width: nat): (s: string)
    ensures AllIn(s, Digit) && |s| >= width && DigitsValue(s) == n
    decreases n + width
  {
    if n == 0 && width == 0 then ""
    else
      var s := Numeral(n / 10, if width == 0 then 0 else width - 1) + [DigitChar(n % 10)];
      assert s[..|s| - 1] == Numeral(n / 10, if width == 0 then 0 else width - 1);
      s
  }

  /** An exact decimal number: `mantissa` divided by ten to the power `scale`. */
  datatype Decimal = Decimal(mantissa: nat, scale: nat)

  /** The number a decimal denotes. */
  function Value(d: Decimal): real {
    d.mantissa as real / Pow10(d.scale) as real
  }

  /**
   * The digits-and-dots tokens that `float()` accepts: at least one digit and at
   * most one dot ("2.3456", "7", "1." and ".5" are accepted; ".", "" and "1.2.3" are not).
   */
  ghost predicate IsFloatToken(t: string) {
    && (exists i :: 0 <= i < |t| && IsDigit(t[i]))
    && (forall i, j :: 0 <= i < j < |t| && t[i] == '.' ==> t[j] != '.')
  }

  /** The position of the first dot in `t` at or after `from`. */
  function FirstDot(t: string, from: nat): (r: Option<nat>)
    requires from <= |t|
    ensures r.Some? ==> from <= r.value < |t| && t[r.value] == '.'
    ensures r.Some? ==> forall i :: from <= i < r.value ==> t[i] != '.'
    ensures r.None? ==> forall i :: from <= i < |t| ==> t[i] != '.'
    decreases |t| - from
  {
    if from == |t| then None
    else if t[from] == '.' then Some(from)
    else FirstDot(t, from + 1)
  }

  /**
   * `float()` applied to a token of digits and dots: None where it raises
   * ValueError, otherwise the exact decimal the token denotes, whose mantissa
   * is the token's digits read as one number and whose scale is the number of
   * digits after the dot.
   */
  function ParseDecimal(t: string): (r: Option<Decimal>)
    requires AllIn(t, DigitOrDot)
    ensures r.Some? <==> IsFloatToken(t)
  {
    match FirstDot(t, 0)
    case None =>
      if |t| == 0 then None
      else
        assert IsDigit(t[0]);
        Some(Decimal(DigitsValue(t), 0))
    case Some(k) =>
      var ip, fp := t[..k], t[k + 1..];
      assert AllIn(ip, Digit);
      match FirstDot(fp, 0)
      case Some(j) =>
        assert t[k] == '.' && t[k + 1 + j] == '.';
        None
      case None =>
        if |ip| + |fp| == 0 then None
        else
          assert |ip| > 0 ==> IsDigit(t[0]);
          assert |fp| > 0 ==> IsDigit(t[k + 1]);
          assert forall i :: 0 <= i < |t| && t[i] == '.' ==> i == k;
          DigitsValueConcat(ip, fp);
          Some(Decimal(DigitsValue(ip + fp), |fp|))
  }

  lemma RealFraction(a: real, b: real, p: real)
    requires p > 0.0
    ensures (a * p + b) / p == a + b / p
  {
    assert (a * p + b) / p * p == a * p + b;
    assert (a + b / p) * p == a * p + b;
  }

  lemma RealOfProduct(x: nat, y: nat)
    ensures (x * y) as real == x as real * y as real
  {
  }

  /** Shifting a whole part left by `k` digits and adding `k` fraction digits. */
  lemma ScaledValue(x: nat, y: nat, k: nat)
    ensures Value(Decimal(x * Pow10(k) + y, k)) == x as real + y as real / Pow10(k) as real
  {
    var q := Pow10(k);
    RealOfProduct(x, q);
    assert (x * q + y) as real == x as real * q as real + y as real;
    RealFraction(x as real, y as real, q as real);
  }

  /** The value of a decimal whose digits are an integer part followed by a fraction part. */
  lemma SplitValue(ip: string, fp: string)
    requires AllIn(ip, Digit) && AllIn(fp, Digit)
    ensures AllIn(ip + fp, Digit)
    ensures Value(Decimal(DigitsValue(ip + fp), |fp|))
         == DigitsValue(ip) as real + DigitsValue(fp) as real / Pow10(|fp|) as real
  {
    DigitsValueConcat(ip, fp);
    ScaledValue(DigitsValue(ip), DigitsValue(fp), |fp|);
  }

  /**
   * A token with one dot denotes its integer part plus its fraction digits
   * divided by ten to the power of their count; either part may be empty but
   * not both.
   */
  lemma ParseDecimalFraction(ip: string, fp: string)
    requires AllIn(ip, Digit) && AllIn(fp, Digit) && |ip| + |fp| > 0
    ensures AllIn(ip + "." + fp, DigitOrDot) && AllIn(ip + fp, Digit)
    ensures ParseDecimal(ip + "." + fp) == Some(Decimal(DigitsValue(ip + fp), |fp|))
    ensures Value(Decimal(DigitsValue(ip + fp), |fp|))
         == DigitsValue(ip) as real + DigitsValue(fp) as real / Pow10(|fp|) as real
  {
    var t := ip + "." + fp;
    assert t[|ip|] == '.';
    assert t[..|ip|] == ip;
    assert t[|ip| + 1..] == fp;
    SplitValue(ip, fp);
  }

  /** The canonical token of a decimal: its mantissa with `scale` digits after a dot. */
  function FormatDecimal(d: Decimal): (t: string)
    ensures AllIn(t, DigitOrDot)
  {
    var ds := Numeral(d.mantissa, d.scale + 1);
    if d.scale == 0 then ds else ds[..|ds| - d.scale] + "." + ds[|ds| - d.scale..]
  }

  /** `float()` gives back exactly the decimal a canonical token was made from. */
  lemma FormatDecimalRoundTrip(d: Decimal)
    ensures ParseDecimal(FormatDecimal(d)) == Some(d)
  {
    var ds := Numeral(d.mantissa, d.scale + 1);
    if d.scale == 0 {
      assert ParseDecimal(ds) == Some(Decimal(DigitsValue(ds), 0));
    } else {
      var ip, fp := ds[..|ds| - d.scale], ds[|ds| - d.scale..];
      assert ip + fp == ds;
      ParseDecimalFraction(ip, fp);
    }
  }
}
