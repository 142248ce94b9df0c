/**
 * Binary64 rounding of any positive ratio, as products and quotients of floats need it: how far it moves a number, and
 * when it carries one above an integer.
 */
module FloatRatio {
  import opened Binary64

  datatype Ratio = Ratio(num: nat, den: nat)

  /** For numbers of 2^53 and more: the exponent j for which f / t / 2^j has 53 binary digits. */
  function UnitFrom(f: nat, t: nat, j: nat): nat
    requires 0 < t
    decreases f - TWO_53 * t * Pow2(j)
  {
    if f < TWO_53 * t * Pow2(j) then j
    else
      assert TWO_53 * t * Pow2(j + 1) == TWO_53 * t * Pow2(j) + TWO_53 * t * Pow2(j);
      assert TWO_53 * t * Pow2(j) > 0;
      UnitFrom(f, t, j + 1)
  }

  /** The binary64 number nearest to f / t. */
  function Rounded(f: nat, t: nat): (r: Ratio)
    requires 0 < f && 0 < t
    ensures r.num > 0 && r.den > 0
  {
    RoundedDigits(f, t);
    if f < TWO_53 * t then
      var p := Pow2(ScaleFrom(f, t, 0));
      Ratio(Nearest(f * p, t), p)
    else
      var u := Pow2(UnitFrom(f, t, 0));
      Ratio(Nearest(f, t * u) * u, 1)
  }

  /** float(d) */
  function Float(d: nat): (x: nat)
    ensures d > 0 ==> x > 0
  {
    if d < TWO_53 then d else Rounded(d, 1).num
  }

  /** num / den lies within k parts in 2^53 of a / b. */
  predicate Within(k: nat, num: nat, den: nat, a: nat, b: nat) {
    -(k * (a * den)) <= TWO_53 * (num * b - a * den) <= k * (a * den)
  }

  lemma {:induction false} ScaleFrom0Shape(f: nat, t: nat, s: nat)
    requires 0 < f && 0 < t
    ensures var e := ScaleFrom(f, t, s);
            && e >= s && f * Pow2(e) >= TWO_52 * t && (e > s ==> f * Pow2(e) < TWO_53 * t)
    decreases TWO_52 * t - f * Pow2(s)
  {
    if f * Pow2(s) < TWO_52 * t {
      assert f * Pow2(s + 1) == f * Pow2(s) + f * Pow2(s);
      assert f * Pow2(s) > 0;
      ScaleFrom0Shape(f, t, s + 1);
    }
  }

  lemma {:induction false} UnitFromShape(f: nat, t: nat, j: nat)
    requires 0 < t
    ensures var e := UnitFrom(f, t, j);
            && e >= j && f < TWO_53 * t * Pow2(e) && (e > j ==> f >= TWO_52 * t * Pow2(e))
    decreases f - TWO_53 * t * Pow2(j)
  {
    if f >= TWO_53 * t * Pow2(j) {
      assert TWO_53 * t * Pow2(j + 1) == TWO_53 * t * Pow2(j) + TWO_53 * t * Pow2(j);
      assert TWO_52 * t * Pow2(j + 1) == TWO_53 * t * Pow2(j);
      assert TWO_53 * t * Pow2(j) > 0;
      UnitFromShape(f, t, j + 1);
    }
  }

  /** The rounded number has a significand of 53 digits. */
  lemma RoundedDigits(f: nat, t: nat)
    requires 0 < f && 0 < t
    ensures f < TWO_53 * t ==>
              var p := Pow2(ScaleFrom(f, t, 0));
              TWO_52 * t <= f * p < TWO_53 * t && TWO_52 <= Nearest(f * p, t) <= TWO_53
    ensures f >= TWO_53 * t ==>
              var u := Pow2(UnitFrom(f, t, 0));
              TWO_52 * (t * u) <= f < TWO_53 * (t * u) && TWO_52 <= Nearest(f, t * u) <= TWO_53
  {
    if f < TWO_53 * t {
      var p := Pow2(ScaleFrom(f, t, 0));
      ScaleFrom0Shape(f, t, 0);
      NearestWithin(f * p, t, TWO_52, TWO_53);
    } else {
      var u := Pow2(UnitFrom(f, t, 0));
      UnitFromShape(f, t, 0);
      assert t * u > 0;
      NearestWithin(f, t * u, TWO_52, TWO_53);
    }
  }

  lemma RoundedWithin(f: nat, t: nat)
    requires 0 < f && 0 < t
    ensures var r := Rounded(f, t); r.num > 0 && r.den > 0 && Within(1, r.num, r.den, f, t)
  {
    RoundedDigits(f, t);
    if f < TWO_53 * t {
      NearestBounds(f * Pow2(ScaleFrom(f, t, 0)), t);
    } else {
      var u := Pow2(UnitFrom(f, t, 0));
      NearestBounds(f, t * u);
      UnitProduct(Nearest(f, t * u), u, t);
    }
  }

  lemma UnitProduct(n: nat, u: nat, t: nat)
    ensures n * u * t == n * (t * u) && (n > 0 && u > 0 ==> n * u > 0)
  {
  }

  /** Rounding errors add up: the rounded c / e-fold of a number within k parts lies within k + 2. */
  lemma WithinCompose(k: nat, p: nat, q: nat, a: nat, b: nat, c: nat, e: nat, num: nat, den: nat)
    requires k <= 8 && q > 0 && Within(k, p, q, a, b) && Within(1, num, den, p * c, q * e)
    ensures Within(k + 2, num, den, a * c, b * e)
  {
    var x, y := num * (q * e) - (p * c) * den, p * b - a * q;
    var z := num * (b * e) - (a * c) * den;
    ErrorSum(p, q, a, b, c, e, num, den);
    assert q * z == b * x + (c * den) * y;
    AtMostTwice(k, p * b, a * q);
    ErrorBound(k, q, a, b, c, den, p, x, y, z);
    ErrorBound(k, q, a, b, c, den, p, -x, -y, -z);
  }

  lemma ErrorSum(p: int, q: int, a: int, b: int, c: int, e: int, num: int, den: int)
    ensures q * (num * (b * e) - (a * c) * den)
         == b * (num * (q * e) - (p * c) * den) + (c * den) * (p * b - a * q)
  {
  }

  lemma AtMostTwice(k: nat, x: nat, y: nat)
    requires k <= 8 && TWO_53 * (x - y) <= k * y
    ensures x <= 2 * y
  {
  }

  lemma ErrorBound(k: nat, q: nat, a: nat, b: nat, c: nat, den: nat, p: nat, x: int, y: int, z: int)
    requires q > 0 && q * z == b * x + (c * den) * y && p * b <= 2 * (a * q)
    requires TWO_53 * x <= p * c * den && TWO_53 * y <= k * (a * q)
    ensures TWO_53 * z <= (k + 2) * (a * c * den)
  {
    var bound := (k + 2) * (a * c * den);
    calc {
      q * (TWO_53 * z);
      TWO_53 * (q * z);
      b * (TWO_53 * x) + (c * den) * (TWO_53 * y);
    }
    TimesLess(b, TWO_53 * x, p * c * den);
    TimesLess(c * den, TWO_53 * y, k * (a * q));
    TimesLess(c * den, p * b, 2 * (a * q));
    assert b * (p * c * den) == (c * den) * (p * b);
    assert (c * den) * (2 * (a * q)) + (c * den) * (k * (a * q)) == q * bound;
    Cancel(q, TWO_53 * z, bound);
  }

  lemma TimesLess(c: nat, x: int, y: int)
    requires x <= y
    ensures c * x <= c * y
  {
  }

  lemma Cancel(q: nat, x: int, y: int)
    requires q > 0 && q * x <= q * y
    ensures x <= y
  {
    TimesMore(q, y, x);
  }

  lemma TimesMore(q: nat, x: int, y: int)
    ensures x < y ==> q * x + q <= q * y
  {
    if x < y {
      TimesLess(q, x + 1, y);
      assert q * (x + 1) == q * x + q;
    }
  }

  // ---------------------------------------------------------------- when a rounded number exceeds an integer

  /** How many numbers of the format there are from k on to the next integer, for k below 2^52. */
  function PerUnit(k: nat): nat
    requires 0 < k
  {
    Pow2(ScaleFrom(k, 1, 0))
  }

  lemma {:induction false} ScaleLeast(f: nat, t: nat, s: nat, e: nat)
    requires 0 < f && 0 < t && s <= e && f * Pow2(e) >= TWO_52 * t
    ensures ScaleFrom(f, t, s) <= e
    decreases e - s
  {
    if f * Pow2(s) < TWO_52 * t {
      ScaleLeast(f, t, s + 1, e);
    }
  }

  /** 53 binary digits single out the scale. */
  lemma ScaleIs(f: nat, t: nat, e: nat)
    requires 0 < f && 0 < t && TWO_52 * t <= f * Pow2(e) < TWO_53 * t
    ensures ScaleFrom(f, t, 0) == e
  {
    var s := ScaleFrom(f, t, 0);
    ScaleFrom0Shape(f, t, 0);
    ScaleLeast(f, t, 0, e);
    assert f * (2 * Pow2(s)) == 2 * (f * Pow2(s));
    if s < e {
      Pow2Grows(s + 1, e);
      TimesLess(f, 2 * Pow2(s), Pow2(e));
    }
  }

  lemma PerUnitShape(k: nat)
    requires 0 < k < TWO_52
    ensures TWO_52 <= k * PerUnit(k) < TWO_53 && PerUnit(k) % 2 == 0
  {
    ScalePositive(k);
    Pow2Even(ScaleFrom(k, 1, 0));
    ScaleFrom0Shape(k, 1, 0);
  }

  lemma ScalePositive(k: nat)
    requires 0 < k < TWO_52
    ensures ScaleFrom(k, 1, 0) > 0
  {
    ScaleFrom0Shape(k, 1, 0);
    assert Pow2(0) == 1;
  }

  lemma Pow2Even(n: nat)
    requires n > 0
    ensures Pow2(n) % 2 == 0
  {
  }

  /** Rounding to an integer passes an even one when the number passes the middle to the next. */
  lemma NearestAbove(a: nat, b: nat, c: nat)
    requires b > 0 && c % 2 == 0
    ensures Nearest(a, b) > c <==> 2 * (a - c * b) > b
  {
    var q, r := a / b, a % b;
    assert a == q * b + r;
    Multiples(q, c, b);
  }

  lemma Multiples(q: int, c: int, b: int)
    requires b > 0
    ensures q > c ==> q * b >= c * b + b
    ensures q < c ==> q * b + b <= c * b
  {
    TimesMore(b, c, q);
    TimesMore(b, q, c);
    assert b * c == c * b && b * q == q * b;
  }

  /** r lies above k exactly when f / t does by more than half of the d-th part of a unit, and then by a whole one. */
  predicate Passes(r: Ratio, f: nat, t: nat, k: nat, d: nat) {
    && (r.num > k * r.den <==> 2 * (f - k * t) * d > t)
    && (r.num > k * r.den ==> (r.num - k * r.den) * d >= r.den)
  }

  lemma BigAbove(f: nat, t: nat, k: nat, d: nat)
    requires 0 < t && 0 < d && k < TWO_52 && f >= TWO_53 * t
    ensures Passes(Rounded(f, t), f, t, k, d)
  {
    RoundedDigits(f, t);
    var u := Pow2(UnitFrom(f, t, 0));
    TimesLess(Nearest(f, t * u), 1, u);
    FarAbove(Nearest(f, t * u) * u, f, t, k, d);
  }

  lemma FarAbove(n: nat, f: nat, t: nat, k: nat, d: nat)
    requires 0 < t && 0 < d && k < TWO_52 <= n && f >= TWO_53 * t
    ensures Passes(Ratio(n, 1), f, t, k, d)
  {
    TimesLess(t, k + 1, TWO_53);
    assert t * (k + 1) == k * t + t;
    TimesLess(f - k * t, 1, d);
    TimesLess(n - k, 1, d);
    assert 2 * (f - k * t) * d == 2 * ((f - k * t) * d);
  }

  lemma SmallBelow(f: nat, t: nat, k: nat, d: nat)
    requires 0 < f && 0 < t && f < k * t && f < TWO_53 * t
    ensures Passes(Rounded(f, t), f, t, k, d)
  {
    var p := Pow2(ScaleFrom(f, t, 0));
    TimesLess(p, f, k * t);
    assert (k * p) * t == p * (k * t);
    NearestWithin(f * p, t, 0, k * p);
    TimesLess(d, 2 * (f - k * t), 0);
  }

  /** A number at or above k has at most as many digits behind the point as k. */
  lemma FromAbove(f: nat, t: nat, k: nat)
    requires 0 < f && 0 < t && 0 < k < TWO_52 && k * t <= f < TWO_53 * t
    ensures Passes(Rounded(f, t), f, t, k, PerUnit(k))
  {
    var s, e := ScaleFrom(f, t, 0), ScaleFrom(k, 1, 0);
    var p, d := Pow2(s), Pow2(e);
    PerUnitShape(k);
    RoundedDigits(f, t);
    TimesLess(d, k * t, f);
    TimesLess(t, TWO_52, k * d);
    ScaleLeast(f, t, 0, e);
    if s == e {
      SameDigit(f, t, k, d);
    } else {
      Pow2Grows(s + 1, e);
      CoarserDigit(f, t, k, p, d, Nearest(f * p, t));
    }
  }

  lemma SameDigit(f: nat, t: nat, k: nat, d: nat)
    requires 0 < t && d % 2 == 0 && d > 0
    ensures Passes(Ratio(Nearest(f * d, t), d), f, t, k, d)
  {
    var m := Nearest(f * d, t);
    EvenProduct(k, d);
    NearestAbove(f * d, t, k * d);
    Distribute(f, k, t, d);
    if m > k * d {
      TimesLess(d, 1, m - k * d);
    }
  }

  lemma EvenProduct(k: nat, d: nat)
    requires d % 2 == 0
    ensures (k * d) % 2 == 0
  {
    assert k * d == 2 * (k * (d / 2));
  }

  lemma Distribute(f: int, k: int, t: int, d: int)
    ensures 2 * (f * d - (k * d) * t) == 2 * (f - k * t) * d
  {
    assert (f - k * t) * d == f * d - k * t * d;
    assert (k * d) * t == k * t * d;
  }

  lemma CoarserDigit(f: nat, t: nat, k: nat, p: nat, d: nat, m: nat)
    requires 0 < t && 0 < p && 2 * p <= d && k * d < TWO_53 && TWO_52 * t <= f * p && TWO_52 <= m
    ensures Passes(Ratio(m, p), f, t, k, d)
  {
    TimesLess(k, 2 * p, d);
    TimesLess(t, k * p + 1, TWO_52);
    assert (f - k * t) * p >= t by {
      assert (f - k * t) * p == f * p - t * (k * p);
    }
    assert f - k * t > 0;
    TimesLess(f - k * t, p, d);
    TimesLess(d, 1, m - k * p);
  }

  /** Rounding carries a number above k exactly when it is more than half a digit above it; then a whole digit. */
  lemma RoundsAbove(f: nat, t: nat, k: nat)
    requires 0 < f && 0 < t && 0 < k < TWO_52
    ensures Passes(Rounded(f, t), f, t, k, PerUnit(k))
  {
    if f >= TWO_53 * t {
      BigAbove(f, t, k, PerUnit(k));
    } else if f < k * t {
      SmallBelow(f, t, k, PerUnit(k));
    } else {
      FromAbove(f, t, k);
    }
  }

  // ---------------------------------------------------------------- ratios up to one

  lemma {:induction false} ScaleFromLater(f: nat, t: nat, s: nat, e: nat)
    requires 0 < f && 0 < t && s <= e && (s < e ==> f * Pow2(e - 1) < TWO_52 * t)
    ensures ScaleFrom(f, t, s) == ScaleFrom(f, t, e)
    decreases e - s
  {
    if s < e {
      Pow2Grows(s, e - 1);
      TimesLess(f, Pow2(s), Pow2(e - 1));
      ScaleFromLater(f, t, s + 1, e);
    }
  }

  /** A ratio of counts is rounded as the percentage rounds it. */
  lemma RoundedIsQuotient(f: nat, t: nat)
    requires 0 < f <= t
    ensures Rounded(f, t) == Ratio(Quotient(f, t), Pow2(Scale(f, t)))
  {
    Pow2At52();
    assert Pow2(51) * 2 == TWO_52;
    TimesLess(Pow2(51), f, t);
    assert f * Pow2(51) == Pow2(51) * f;
    ScaleFromLater(f, t, 0, 52);
  }
}
