/** Finite decimal numbers and the canonical text the fingerprint gives them. */
module Decimals {

  /** (-1)^neg * coeff * 10^exp. */
  datatype Dec = Dec(neg: bool, coeff: nat, exp: int)

  function Pow10(n: nat): (r: nat)
    ensures r > 0
  {
    if n == 0 then 1 else 10 * Pow10(n - 1)
  }

  function Signed(d: Dec): int {
    if d.neg then 0 - d.coeff else d.coeff
  }

  function Min(a: int, b: int): int {
    if a <= b then a else b
  }

  /** Equality of the numbers denoted, at a common scale. */
  predicate SameNumber(a: Dec, b: Dec) {
    Signed(a) * Pow10(a.exp - Min(a.exp, b.exp)) == Signed(b) * Pow10(b.exp - Min(a.exp, b.exp))
  }

  // ---------------------------------------------------------------- powers of ten

  lemma {:induction false} Pow10Sum(a: nat, b: nat)
    ensures Pow10(a + b) == Pow10(a) * Pow10(b)
  {
    if a > 0 {
      Pow10Sum(a - 1, b);
      Assoc(10, Pow10(a - 1), Pow10(b));
    }
  }

  lemma Assoc(x: int, y: int, z: int)
    ensures x * (y * z) == (x * y) * z
  {
  }

  lemma Cancel(x: int, y: int, k: int)
    requires k > 0 && x * k == y * k
    ensures x == y
  {
  }

  /** c * 10^n is a multiple of ten when n > 0. */
  lemma TensDivide(c: nat, n: nat)
    requires n > 0
    ensures (c * Pow10(n)) % 10 == 0
  {
    assert c * (10 * Pow10(n - 1)) == 10 * (c * Pow10(n - 1));
  }

  // ---------------------------------------------------------------- normal forms

  /** Drops trailing zeros of the coefficient. */
  function Strip(d: Dec): Dec
    requires d.coeff > 0
    decreases d.coeff
  {
    if d.coeff % 10 == 0 then Strip(Dec(d.neg, d.coeff / 10, d.exp + 1)) else d
  }

  /** The one representation of a number without trailing zeros; zero has no sign. */
  function Normal(d: Dec): Dec {
    if d.coeff == 0 then Dec(false, 0, 0) else Strip(d)
  }

  predicate IsNormal(d: Dec) {
    d == Dec(false, 0, 0) || d.coeff % 10 != 0
  }

  lemma {:induction false} StripKeeps(d: Dec)
    requires d.coeff > 0
    ensures var s := Strip(d);
            && s.neg == d.neg && s.coeff > 0 && s.coeff % 10 != 0 && s.exp >= d.exp
            && d.coeff == s.coeff * Pow10(s.exp - d.exp)
    decreases d.coeff
  {
    if d.coeff % 10 == 0 {
      var next := Dec(d.neg, d.coeff / 10, d.exp + 1);
      StripKeeps(next);
      var s := Strip(d);
      assert Pow10(s.exp - d.exp) == 10 * Pow10(s.exp - next.exp);
      Assoc(s.coeff, 10, Pow10(s.exp - next.exp));
      Assoc(10, s.coeff, Pow10(s.exp - next.exp));
    }
  }

  lemma Descale(c: int, d: int, m: nat, n: nat)
    requires m <= n && c * Pow10(m) == d * Pow10(n)
    ensures c == d * Pow10(n - m)
  {
    Pow10Sum(n - m, m);
    Assoc(d, Pow10(n - m), Pow10(m));
    Cancel(c, d * Pow10(n - m), Pow10(m));
  }

  lemma NotLess(c: nat, d: nat, m: nat, n: nat)
    requires c % 10 != 0 && c * Pow10(m) == d * Pow10(n)
    ensures n <= m
  {
    if m < n {
      Descale(c, d, m, n);
      TensDivide(d, n - m);
    }
  }

  /** Coefficients without trailing zeros fix the exponent. */
  lemma NoTrailingZeros(c: nat, d: nat, m: nat, n: nat)
    requires c % 10 != 0 && d % 10 != 0 && c * Pow10(m) == d * Pow10(n)
    ensures m == n && c == d
  {
    NotLess(c, d, m, n);
    NotLess(d, c, n, m);
    Cancel(c, d, Pow10(m));
  }

  // ---------------------------------------------------------------- equal numbers have equal normal forms

  /** The number as an integer count of 10^scale. */
  function Scaled(d: Dec, scale: int): int
    requires scale <= d.exp
  {
    Signed(d) * Pow10(d.exp - scale)
  }

  lemma Rescale(d: Dec, scale: int, lower: int)
    requires lower <= scale <= d.exp
    ensures Scaled(d, lower) == Scaled(d, scale) * Pow10(scale - lower)
  {
    Pow10Sum(d.exp - scale, scale - lower);
    Assoc(Signed(d), Pow10(d.exp - scale), Pow10(scale - lower));
  }

  lemma SameAtAnyScale(a: Dec, b: Dec, scale: int)
    requires scale <= a.exp && scale <= b.exp
    ensures SameNumber(a, b) <==> Scaled(a, scale) == Scaled(b, scale)
  {
    var common := Min(a.exp, b.exp);
    Rescale(a, common, scale);
    Rescale(b, common, scale);
    if Scaled(a, scale) == Scaled(b, scale) {
      Cancel(Scaled(a, common), Scaled(b, common), Pow10(common - scale));
    }
  }

  lemma StripKeepsScaled(d: Dec, scale: int)
    requires d.coeff > 0 && scale <= d.exp
    ensures Strip(d).exp >= d.exp && Scaled(Strip(d), scale) == Scaled(d, scale)
  {
    StripKeeps(d);
    StripAtOwnScale(d);
    Rescale(Strip(d), d.exp, scale);
  }

  lemma StripAtOwnScale(d: Dec)
    requires d.coeff > 0
    ensures Strip(d).exp >= d.exp && Scaled(Strip(d), d.exp) == Signed(d)
  {
    StripKeeps(d);
    NonzeroScaled(Strip(d), d.exp);
  }

  lemma NonzeroScaled(d: Dec, scale: int)
    requires scale <= d.exp
    ensures d.coeff == 0 ==> Scaled(d, scale) == 0
    ensures d.coeff > 0 ==> (if d.neg then Scaled(d, scale) < 0 else Scaled(d, scale) > 0)
    ensures Scaled(d, scale) == if d.neg then 0 - d.coeff * Pow10(d.exp - scale) else d.coeff * Pow10(d.exp - scale)
  {
  }

  lemma StrippedUnique(a: Dec, b: Dec, scale: int)
    requires a.coeff % 10 != 0 && b.coeff % 10 != 0 && scale <= a.exp && scale <= b.exp
    requires Scaled(a, scale) == Scaled(b, scale)
    ensures a == b
  {
    NonzeroScaled(a, scale);
    NonzeroScaled(b, scale);
    NoTrailingZeros(a.coeff, b.coeff, a.exp - scale, b.exp - scale);
  }

  /** Two decimals denote the same number exactly when they have the same normal form. */
  lemma NormalDecides(a: Dec, b: Dec)
    ensures Normal(a) == Normal(b) <==> SameNumber(a, b)
  {
    var scale := Min(a.exp, b.exp);
    SameAtAnyScale(a, b, scale);
    NonzeroScaled(a, scale);
    NonzeroScaled(b, scale);
    if a.coeff > 0 { StripKeeps(a); StripKeepsScaled(a, scale); }
    if b.coeff > 0 { StripKeeps(b); StripKeepsScaled(b, scale); }
    if a.coeff > 0 && b.coeff > 0 && Scaled(a, scale) == Scaled(b, scale) {
      StrippedUnique(Strip(a), Strip(b), scale);
    }
  }

  // ---------------------------------------------------------------- text of a number

  function DigitChar(n: nat): char
    requires n < 10
  {
    ('0' as int + n) as char
  }

  predicate IsDigit(c: char) {
    '0' <= c <= '9'
  }

  function Digits(m: nat): (r: string)
    ensures r != "" && forall i | 0 <= i < |r| :: IsDigit(r[i])
  {
    if m < 10 then [DigitChar(m)] else Digits(m / 10) + [DigitChar(m % 10)]
  }

  function ZerosBefore(text: string, width: nat): (r: string)
    ensures |r| >= width && |r| >= |text|
    ensures (forall i | 0 <= i < |text| :: IsDigit(text[i])) ==> forall i | 0 <= i < |r| :: IsDigit(r[i])
    decreases width - |text|
  {
    if |text| < width then ZerosBefore("0" + text, width) else text
  }

  /** Sign, integer part and `places` decimals of `m` units in the last place. */
  function Positional(neg: bool, m: nat, places: nat): string {
    var digits := ZerosBefore(Digits(m), places + 1);
    var point := |digits| - places;
    (if neg then "-" else "") + if places == 0 then digits else digits[..point] + "." + digits[point..]
  }

  function Max(a: int, b: int): int {
    if a >= b then a else b
  }

  /** The number in units of its last decimal place. */
  function Units(d: Dec): nat {
    d.coeff * Pow10(Max(d.exp, 0))
  }

  function Places(d: Dec): nat {
    Max(0 - d.exp, 0)
  }

  /** The text of a normal form. */
  function Show(d: Dec): string {
    Positional(d.neg, Units(d), Places(d))
  }

  /** The number a string of digits denotes. */
  function ValueOf(text: string): int {
    if text == "" then 0 else 10 * ValueOf(text[..|text| - 1]) + (text[|text| - 1] as int - '0' as int)
  }

  lemma {:induction false} DigitsDenote(m: nat)
    ensures ValueOf(Digits(m)) == m
  {
    if m < 10 {
      assert Digits(m)[..0] == "";
    } else {
      DigitsDenote(m / 10);
      assert Digits(m)[..|Digits(m)| - 1] == Digits(m / 10);
    }
  }

  lemma {:induction false} LeadingZero(text: string)
    ensures ValueOf("0" + text) == ValueOf(text)
  {
    if text == "" {
      assert ("0" + text)[..0] == "";
    } else {
      LeadingZero(text[..|text| - 1]);
      assert ("0" + text)[..|text|] == "0" + text[..|text| - 1];
    }
  }

  lemma {:induction false} ZerosDenoteNothing(text: string, width: nat)
    ensures ValueOf(ZerosBefore(text, width)) == ValueOf(text)
    decreases width - |text|
  {
    if |text| < width {
      LeadingZero(text);
      ZerosDenoteNothing("0" + text, width);
    }
  }

  function Padded(m: nat, places: nat): (r: string)
    ensures |r| > places && forall i | 0 <= i < |r| :: IsDigit(r[i])
  {
    ZerosBefore(Digits(m), places + 1)
  }

  function Pointed(digits: string, places: nat): string
    requires places < |digits|
  {
    if places == 0 then digits else digits[..|digits| - places] + "." + digits[|digits| - places..]
  }

  lemma PositionalIsPointed(neg: bool, m: nat, places: nat)
    ensures Positional(neg, m, places) == (if neg then "-" else "") + Pointed(Padded(m, places), places)
  {
  }

  lemma PointPlace(digits: string, places: nat)
    requires places < |digits| && forall i | 0 <= i < |digits| :: IsDigit(digits[i])
    ensures var t := Pointed(digits, places);
            && |t| == |digits| + (if places == 0 then 0 else 1)
            && IsDigit(t[0])
            && forall i | 0 <= i < |t| :: t[i] == '.' <==> places > 0 && i == |t| - places - 1
  {
  }

  /** The text shows where the point is, and the digits around it. */
  lemma PointedInjective(a: string, p: nat, b: string, q: nat)
    requires p < |a| && q < |b| && Pointed(a, p) == Pointed(b, q)
    requires forall i | 0 <= i < |a| :: IsDigit(a[i])
    requires forall i | 0 <= i < |b| :: IsDigit(b[i])
    ensures p == q && a == b
  {
    PointPlace(a, p);
    PointPlace(b, q);
    var t := Pointed(a, p);
    if p > 0 { assert t[|t| - p - 1] == '.'; }
    if q > 0 { assert t[|t| - q - 1] == '.'; }
    assert p == q;
    if p > 0 {
      var n := |a| - p;
      assert t[..n] == a[..n] && t[n + 1..] == a[n..];
      assert t[..n] == b[..n] && t[n + 1..] == b[n..];
      assert a == a[..n] + a[n..] && b == b[..n] + b[n..];
    }
  }

  /** Positional text can be read back: sign, units and decimal places are all determined by it. */
  lemma PositionalInjective(s: bool, m: nat, p: nat, t: bool, n: nat, q: nat)
    requires Positional(s, m, p) == Positional(t, n, q)
    ensures s == t && m == n && p == q
  {
    var a, b := Pointed(Padded(m, p), p), Pointed(Padded(n, q), q);
    PositionalIsPointed(s, m, p);
    PositionalIsPointed(t, n, q);
    PointPlace(Padded(m, p), p);
    PointPlace(Padded(n, q), q);
    SignShows(s, a, t, b);
    PointedInjective(Padded(m, p), p, Padded(n, q), q);
    ZerosDenoteNothing(Digits(m), p + 1);
    ZerosDenoteNothing(Digits(n), q + 1);
    DigitsDenote(m);
    DigitsDenote(n);
  }

  lemma SignShows(s: bool, a: string, t: bool, b: string)
    requires a != "" && b != "" && IsDigit(a[0]) && IsDigit(b[0])
    requires (if s then "-" else "") + a == (if t then "-" else "") + b
    ensures s == t && a == b
  {
    var x, y := (if s then "-" else "") + a, (if t then "-" else "") + b;
    assert x[0] == if s then '-' else a[0];
    assert y[0] == if t then '-' else b[0];
    assert a == if s then x[1..] else x;
    assert b == if t then y[1..] else y;
  }

  lemma PositiveProduct(c: nat, n: nat)
    ensures c > 0 ==> c * Pow10(n) > 0
  {
  }

  /** A normal form is determined by its sign, its units and its decimal places. */
  lemma UnitsDecide(a: Dec, b: Dec)
    requires IsNormal(a) && IsNormal(b) && a.neg == b.neg && Units(a) == Units(b) && Places(a) == Places(b)
    ensures a == b
  {
    var m, n := Max(a.exp, 0), Max(b.exp, 0);
    PositiveProduct(a.coeff, m);
    PositiveProduct(b.coeff, n);
    if a.coeff % 10 != 0 && b.coeff % 10 != 0 {
      NoTrailingZeros(a.coeff, b.coeff, m, n);
    }
  }

  lemma ShowParts(a: Dec, b: Dec)
    requires Show(a) == Show(b)
    ensures a.neg == b.neg && Units(a) == Units(b) && Places(a) == Places(b)
  {
    PositionalInjective(a.neg, Units(a), Places(a), b.neg, Units(b), Places(b));
  }

  // ---------------------------------------------------------------- the canonical text

  /** The number equals its integral part. */
  predicate IsInteger(d: Dec) {
    d.exp >= 0 || d.coeff % Pow10(0 - d.exp) == 0
  }

  function Quotient(c: nat, unit: nat): (q: nat)
    requires unit > 0
    ensures q * unit <= c < q * unit + unit
  {
    c / unit
  }

  function Magnitude(d: Dec): nat {
    if d.exp >= 0 then Units(d) else Quotient(d.coeff, Pow10(0 - d.exp))
  }

  /** Division by `unit`, rounded half to even. */
  function HalfEven(c: nat, unit: nat): (r: nat)
    requires unit > 0
    ensures Quotient(c, unit) <= r <= Quotient(c, unit) + 1
  {
    var q := Quotient(c, unit);
    var rest := c - q * unit;
    if 2 * rest > unit || (2 * rest == unit && q % 2 == 1) then q + 1 else q
  }

  /** Rounding to `prec` significant digits. */
  function Round(d: Dec, prec: nat): Dec {
    var n := |Digits(d.coeff)|;
    if n <= prec then d else Dec(d.neg, HalfEven(d.coeff, Pow10(n - prec)), d.exp + n - prec)
  }

  /** Rounding in the default decimal context, which keeps 28 significant digits. */
  function Round28(d: Dec): Dec {
    Round(d, 28)
  }

  /** Integers are written out in full; other numbers are rounded, stripped of zeros and written positionally. */
  function Canonical(d: Dec): string {
    if IsInteger(d) then Positional(d.neg && Magnitude(d) != 0, Magnitude(d), 0) else Show(Normal(Round28(d)))
  }

  function Rounded(d: Dec): Dec {
    if IsInteger(d) then d else Round28(d)
  }

  lemma NormalIsNormal(d: Dec)
    ensures IsNormal(Normal(d))
  {
    if d.coeff > 0 { StripKeeps(d); }
  }

  /** An integer's normal form has no decimal places, and its units are the magnitude. */
  lemma IntegerNormal(d: Dec)
    requires IsInteger(d)
    ensures var n := Normal(d);
            n.exp >= 0 && n.coeff * Pow10(n.exp) == Magnitude(d) && n.neg == (d.neg && Magnitude(d) != 0)
  {
    if d.coeff > 0 {
      StripKeeps(d);
      var s := Strip(d);
      if d.exp >= 0 {
        Pow10Sum(s.exp - d.exp, d.exp);
        Assoc(s.coeff, Pow10(s.exp - d.exp), Pow10(d.exp));
        PositiveProduct(d.coeff, d.exp);
      } else {
        FractionalIntegerNormal(d, s);
      }
    }
  }

  lemma FractionalIntegerNormal(d: Dec, s: Dec)
    requires d.coeff > 0 && d.exp < 0 && d.coeff % Pow10(0 - d.exp) == 0
    requires s.coeff % 10 != 0 && s.exp >= d.exp && d.coeff == s.coeff * Pow10(s.exp - d.exp)
    ensures s.exp >= 0 && s.coeff * Pow10(s.exp) == Magnitude(d) > 0
  {
    var v := Magnitude(d);
    assert d.coeff == v * Pow10(0 - d.exp);
    assert v > 0;
    NotLess(s.coeff, v, s.exp - d.exp, 0 - d.exp);
    Pow10Sum(s.exp, 0 - d.exp);
    Assoc(s.coeff, Pow10(s.exp), Pow10(0 - d.exp));
    Cancel(s.coeff * Pow10(s.exp), v, Pow10(0 - d.exp));
  }

  /** Both branches write out the normal form of the rounded number. */
  lemma CanonicalShowsNormal(d: Dec)
    ensures Canonical(d) == Show(Normal(Rounded(d)))
  {
    if IsInteger(d) { IntegerNormal(d); }
  }

  /** Two literals get the same text exactly when their rounded numbers are equal. */
  lemma SameTextSameNumber(a: Dec, b: Dec)
    ensures Canonical(a) == Canonical(b) <==> SameNumber(Rounded(a), Rounded(b))
  {
    CanonicalShowsNormal(a);
    CanonicalShowsNormal(b);
    NormalDecides(Rounded(a), Rounded(b));
    NormalIsNormal(Rounded(a));
    NormalIsNormal(Rounded(b));
    if Canonical(a) == Canonical(b) {
      ShowParts(Normal(Rounded(a)), Normal(Rounded(b)));
      UnitsDecide(Normal(Rounded(a)), Normal(Rounded(b)));
    }
  }

  // ---------------------------------------------------------------- when rounding loses nothing

  lemma {:induction false} DigitsBound(c: nat)
    ensures c < Pow10(|Digits(c)|) && (c > 0 ==> Pow10(|Digits(c)| - 1) <= c)
  {
    if c >= 10 { DigitsBound(c / 10); }
  }

  lemma {:induction false} Pow10Grows(a: nat, b: nat)
    requires a <= b
    ensures Pow10(a) <= Pow10(b)
  {
    if a < b { Pow10Grows(a, b - 1); }
  }

  lemma Times(a: nat, b: nat, k: nat)
    ensures a <= b ==> a * k <= b * k
  {
  }

  lemma {:induction false} LessTimes(a: nat, b: nat, k: nat)
    requires k > 0
    ensures a < b <==> a * k < b * k
  {
    var d := b - a;
    assert b * k - a * k == d * k;
    assert d > 0 ==> d * k > 0;
    assert d <= 0 ==> d * k <= 0;
  }

  lemma {:induction false} OneMoreTimes(a: nat, k: nat)
    ensures (a + 1) * k == a * k + k
  {
  }

  /** A quotient is exact only for the multiple itself. */
  lemma {:induction false} QuotientOfMultiple(k: nat, unit: nat)
    requires unit > 0
    ensures Quotient(k * unit, unit) == k
  {
    var q := Quotient(k * unit, unit);
    OneMoreTimes(q, unit);
    LessTimes(k, q + 1, unit);
    LessTimes(k, q, unit);
  }

  lemma RoundedExactly(c: nat, unit: nat)
    requires unit > 0
    ensures HalfEven(c, unit) * unit == c <==> Quotient(c, unit) * unit == c
  {
  }

  lemma MultipleDrops(s: nat, t: nat, p: nat)
    requires p <= t
    ensures Quotient(s * Pow10(t), Pow10(p)) * Pow10(p) == s * Pow10(t)
  {
    Pow10Sum(t - p, p);
    Assoc(s, Pow10(t - p), Pow10(p));
    QuotientOfMultiple(s * Pow10(t - p), Pow10(p));
  }

  lemma QuotientFits(q: nat, p: nat, prec: nat)
    requires q * Pow10(p) < Pow10(prec + p)
    ensures q < Pow10(prec)
  {
    Pow10Sum(prec, p);
    Times(Pow10(prec), q, Pow10(p));
  }

  lemma SignificantPart(s: nat, t: nat, q: nat, p: nat)
    requires s % 10 != 0 && s * Pow10(t) == q * Pow10(p)
    ensures s <= q
  {
    NotLess(s, q, t, p);
    Descale(q, s, p, t);
    Times(1, Pow10(t - p), s);
  }

  /** Dropping `p` of the digits of `c` is exact when the significant part fits in the others. */
  lemma DropIsExact(c: nat, s: nat, t: nat, p: nat, prec: nat)
    requires c > 0 && s % 10 != 0 && c == s * Pow10(t) && |Digits(c)| == prec + p && p > 0
    ensures Quotient(c, Pow10(p)) * Pow10(p) == c <==> s < Pow10(prec)
  {
    var q := Quotient(c, Pow10(p));
    if q * Pow10(p) == c {
      DigitsBound(c);
      QuotientFits(q, p, prec);
      SignificantPart(s, t, q, p);
    }
    if s < Pow10(prec) {
      FittingDropsZeros(c, s, t, p, prec);
      MultipleDrops(s, t, p);
    }
  }

  lemma FittingDropsZeros(c: nat, s: nat, t: nat, p: nat, prec: nat)
    requires c > 0 && c == s * Pow10(t) && |Digits(c)| == prec + p && p > 0 && s < Pow10(prec)
    ensures p <= t
  {
    if t < p {
      DigitsBound(c);
      TooSmall(s, t, p - 1, prec);
    }
  }

  lemma TooSmall(s: nat, t: nat, p: nat, prec: nat)
    requires t <= p && s < Pow10(prec)
    ensures s * Pow10(t) < Pow10(prec + p)
  {
    Pow10Sum(prec, p);
    Pow10Grows(t, p);
    Times(Pow10(t), Pow10(p), s);
    Times(s + 1, Pow10(prec), Pow10(p));
  }

  /** At most `prec` significant digits. */
  predicate Fits(d: Dec, prec: nat) {
    Normal(d).coeff < Pow10(prec)
  }

  lemma RoundingScaled(d: Dec, p: nat, c: nat)
    ensures SameNumber(Dec(d.neg, c, d.exp + p), d) <==> c * Pow10(p) == d.coeff
  {
    var r := Dec(d.neg, c, d.exp + p);
    SameAtAnyScale(r, d, d.exp);
    NonzeroScaled(r, d.exp);
    NonzeroScaled(d, d.exp);
  }

  /** Rounding keeps the number exactly when it has no more significant digits than are kept. */
  lemma RoundingKeepsExactly(d: Dec, prec: nat)
    ensures SameNumber(Round(d, prec), d) <==> Fits(d, prec)
  {
    var n := |Digits(d.coeff)|;
    if n <= prec {
      FewDigitsFit(d, prec);
    } else if d.coeff > 0 {
      var s, unit := Strip(d), Pow10(n - prec);
      StripKeeps(d);
      RoundingScaled(d, n - prec, HalfEven(d.coeff, unit));
      RoundedExactly(d.coeff, unit);
      DropIsExact(d.coeff, s.coeff, s.exp - d.exp, n - prec, prec);
    } else {
      ZeroRounds(d, prec);
    }
  }

  lemma ZeroRounds(d: Dec, prec: nat)
    requires d.coeff == 0 && |Digits(d.coeff)| > prec
    ensures SameNumber(Round(d, prec), d) && Fits(d, prec)
  {
  }

  lemma FewDigitsFit(d: Dec, prec: nat)
    requires |Digits(d.coeff)| <= prec
    ensures Fits(d, prec)
  {
    DigitsBound(d.coeff);
    Pow10Grows(|Digits(d.coeff)|, prec);
    if d.coeff > 0 { StripIsSmaller(d); }
  }

  lemma StripIsSmaller(d: Dec)
    requires d.coeff > 0
    ensures Strip(d).coeff <= d.coeff
  {
    StripKeeps(d);
    Times(1, Pow10(Strip(d).exp - d.exp), Strip(d).coeff);
  }

  /** Integers of any size and other numbers of up to 28 significant digits. */
  predicate Representable(d: Dec) {
    IsInteger(d) || Fits(d, 28)
  }

  /** On those the text decides equality of numbers. */
  lemma TextDecidesNumber(a: Dec, b: Dec)
    requires Representable(a) && Representable(b)
    ensures Canonical(a) == Canonical(b) <==> SameNumber(a, b)
  {
    SameTextSameNumber(a, b);
    RoundedNormal(a);
    RoundedNormal(b);
    NormalDecides(a, b);
    NormalDecides(Rounded(a), Rounded(b));
  }

  lemma RoundedNormal(d: Dec)
    ensures Representable(d) <==> Normal(Rounded(d)) == Normal(d)
  {
    if !IsInteger(d) {
      RoundingKeepsExactly(d, 28);
      NormalDecides(Round28(d), d);
    }
  }

  /**
   * Elsewhere it does not: a literal that is not representable always shares its text with another number, its
   * rounding.
   */
  lemma TextCollidesElsewhere(d: Dec)
    requires !Representable(d)
    ensures Canonical(d) == Canonical(Round28(d)) && !SameNumber(d, Round28(d))
  {
    RoundedNormal(d);
    NormalDecides(d, Round28(d));
    RoundFits(d, 28);
    RoundedNormal(Round28(d));
    CanonicalShowsNormal(d);
    CanonicalShowsNormal(Round28(d));
  }

  lemma RoundFits(d: Dec, prec: nat)
    requires prec > 0
    ensures Fits(Round(d, prec), prec)
  {
    var n, r := |Digits(d.coeff)|, Round(d, prec);
    if n <= prec {
      FewDigitsFit(d, prec);
    } else {
      RoundedCoefficient(d.coeff, n - prec, prec);
      if r.coeff > 0 {
        StripIsSmaller(r);
        if r.coeff == Pow10(prec) { PowerStrips(r, prec); }
      }
    }
  }

  /** A carry to the next power of ten leaves a single significant digit. */
  lemma PowerStrips(r: Dec, prec: nat)
    requires prec > 0 && r.coeff == Pow10(prec)
    ensures Strip(r).coeff < r.coeff
  {
    var next := Dec(r.neg, r.coeff / 10, r.exp + 1);
    TensDivide(1, prec);
    StripIsSmaller(next);
  }

  lemma RoundedCoefficient(c: nat, p: nat, prec: nat)
    requires |Digits(c)| == prec + p
    ensures HalfEven(c, Pow10(p)) <= Pow10(prec)
  {
    DigitsBound(c);
    Pow10Sum(prec, p);
    var q := Quotient(c, Pow10(p));
    Times(Pow10(prec), q, Pow10(p));
  }

  /** One and one unit in the last of `p` places needs p + 1 significant digits. */
  lemma LongFraction(p: nat, prec: nat)
    requires 0 < prec <= p
    ensures var d := Dec(false, Pow10(p) + 1, 0 - p); !IsInteger(d) && !Fits(d, prec)
  {
    EndsInOne(p);
    Pow10Grows(1, p);
    Pow10Grows(prec, p);
    Remainder(Pow10(p));
    assert Normal(Dec(false, Pow10(p) + 1, 0 - p)).coeff == Pow10(p) + 1;
  }

  lemma EndsInOne(p: nat)
    requires p > 0
    ensures (Pow10(p) + 1) % 10 == 1
  {
  }

  lemma Remainder(unit: nat)
    requires unit > 1
    ensures (unit + 1) % unit == 1
  {
  }

  /** Such as 1.0000000000000000000000000001, and the same with more zeros: each has the text of its rounding. */
  lemma LongFractionCollides(p: nat)
    requires p >= 28
    ensures var d := Dec(false, Pow10(p) + 1, 0 - p);
            Canonical(d) == Canonical(Round28(d)) && !SameNumber(d, Round28(d))
  {
    LongFraction(p, 28);
    TextCollidesElsewhere(Dec(false, Pow10(p) + 1, 0 - p));
  }

  // ---------------------------------------------------------------- rounding is to the nearest

  /** `r` units come closest to `c`, and of two that come equally close it is the even one. */
  predicate Nearest(c: nat, unit: nat, r: nat) {
    && 2 * (r * unit - c) <= unit && 2 * (c - r * unit) <= unit
    && (2 * (r * unit - c) == unit || 2 * (c - r * unit) == unit ==> r % 2 == 0)
  }

  lemma {:induction false} HalfEvenIsNearest(c: nat, unit: nat)
    requires unit > 0
    ensures Nearest(c, unit, HalfEven(c, unit))
  {
    var q := Quotient(c, unit);
    assert (q + 1) * unit == q * unit + unit;
  }

  /** A number that is no integer and has more than 28 digits is rounded to the nearest with the first 28 of them. */
  lemma {:induction false} RoundedIsNearest(d: Dec)
    ensures IsInteger(d) || |Digits(d.coeff)| <= 28 ==> Rounded(d) == d
    ensures !IsInteger(d) && |Digits(d.coeff)| > 28 ==>
              var cut := |Digits(d.coeff)| - 28;
              && Rounded(d).neg == d.neg && Rounded(d).exp == d.exp + cut
              && Nearest(d.coeff, Pow10(cut), Rounded(d).coeff)
  {
    if |Digits(d.coeff)| > 28 { HalfEvenIsNearest(d.coeff, Pow10(|Digits(d.coeff)| - 28)); }
  }

  // ---------------------------------------------------------------- the text can be read

  /** Where the decimal point is; at the end if there is none. */
  function PointAt(text: string): (p: nat)
    ensures p <= |text| && (forall i | 0 <= i < p :: text[i] != '.') && (p < |text| ==> text[p] == '.')
  {
    if text == "" || text[0] == '.' then 0 else 1 + PointAt(text[1..])
  }

  /** The number that unsigned text denotes. */
  function ReadDigits(text: string): (int, nat) {
    var p := PointAt(text);
    if p == |text| then (ValueOf(text), 0) else (ValueOf(text[..p] + text[p + 1..]), |text| - p - 1)
  }

  lemma {:induction false} PointedReads(digits: string, places: nat)
    requires places < |digits| && forall i | 0 <= i < |digits| :: IsDigit(digits[i])
    ensures ReadDigits(Pointed(digits, places)) == (ValueOf(digits), places)
  {
    PointPlace(digits, places);
    var t := Pointed(digits, places);
    if places > 0 {
      var n := |digits| - places;
      assert t[|t| - places - 1] == '.' && n == |t| - places - 1;
      assert PointAt(t) == n;
      assert t[..n] == digits[..n] && t[n + 1..] == digits[n..];
      assert digits[..n] + digits[n..] == digits;
    } else {
      assert PointAt(t) == |t|;
    }
  }

  predicate Minus(text: string) {
    text != "" && text[0] == '-'
  }

  /** Reading canonical text: a sign, digits, and a point somewhere among them. */
  function ReadText(text: string): (bool, int, nat) {
    var (units, places) := ReadDigits(if Minus(text) then text[1..] else text);
    (Minus(text), units, places)
  }

  lemma {:induction false} SignReads(neg: bool, text: string)
    requires text != "" && IsDigit(text[0])
    ensures var signed := (if neg then "-" else "") + text;
            Minus(signed) == neg && text == if neg then signed[1..] else signed
  {
    var signed := (if neg then "-" else "") + text;
    assert signed[0] == if neg then '-' else text[0];
  }

  lemma {:induction false} PaddedDenotes(m: nat, places: nat)
    ensures ValueOf(Padded(m, places)) == m
  {
    ZerosDenoteNothing(Digits(m), places + 1);
    DigitsDenote(m);
  }

  lemma {:induction false} PositionalReads(neg: bool, m: nat, places: nat)
    ensures ReadText(Positional(neg, m, places)) == (neg, m, places)
  {
    var digits := Padded(m, places);
    PositionalIsPointed(neg, m, places);
    PointPlace(digits, places);
    SignReads(neg, Pointed(digits, places));
    PointedReads(digits, places);
    PaddedDenotes(m, places);
  }

  /** Round trip: what the canonical text denotes is the rounded number. */
  lemma {:induction false} CanonicalReads(d: Dec)
    ensures var (neg, units, places) := ReadText(Canonical(d));
            units >= 0 && SameNumber(Dec(neg, units, 0 - places), Rounded(d))
  {
    var n := Normal(Rounded(d));
    CanonicalShowsNormal(d);
    PositionalReads(n.neg, Units(n), Places(n));
    ShownIsNumber(n);
    NormalIsNormal(Rounded(d));
    NormalDecides(n, Rounded(d));
    NormalTwice(Rounded(d));
    NormalDecides(Dec(n.neg, Units(n), 0 - Places(n)), n);
    NormalDecides(Dec(n.neg, Units(n), 0 - Places(n)), Rounded(d));
  }

  lemma {:induction false} NormalTwice(d: Dec)
    ensures Normal(Normal(d)) == Normal(d)
  {
    NormalIsNormal(d);
  }

  /** Units and places are the number itself. */
  lemma {:induction false} ShownIsNumber(n: Dec)
    ensures SameNumber(Dec(n.neg, Units(n), 0 - Places(n)), n)
  {
    if n.exp >= 0 {
      assert Units(n) == n.coeff * Pow10(n.exp) && Places(n) == 0;
      NonzeroScaled(n, 0);
      assert Pow10(0) == 1;
    } else {
      assert Pow10(0) == 1 && Units(n) == n.coeff && Places(n) == 0 - n.exp;
    }
  }
}
