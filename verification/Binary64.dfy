/**
 * The IEEE 754 binary64 arithmetic behind int((failures / total) * 100), in integers: a 53-bit significand and rounding
 * to nearest, ties to even.
 */
module Binary64 {

  const TWO_52 := 0x10_0000_0000_0000
  const TWO_53 := 0x20_0000_0000_0000
  const TWO_59 := 0x800_0000_0000_0000

  /** Up to this many samples the two roundings cannot carry a ratio across a whole percentage. */
  const MAX_TOTAL := 0x2000_0000_0000

  function Pow2(n: nat): (p: nat)
    ensures p >= 1
  {
    if n == 0 then 1 else 2 * Pow2(n - 1)
  }

  /** The integer nearest to a / b, the even one of two. */
  function Nearest(a: nat, b: nat): nat
    requires b > 0
  {
    var q, r := a / b, a % b;
    if 2 * r > b || (2 * r == b && q % 2 == 1) then q + 1 else q
  }

  /** The exponent s for which f / t * 2^s has 53 binary digits. */
  function ScaleFrom(f: nat, t: nat, s: nat): nat
    requires 0 < f && 0 < t
    decreases TWO_52 * t - f * Pow2(s)
  {
    if f * Pow2(s) >= TWO_52 * t then s
    else
      assert f * Pow2(s + 1) == f * Pow2(s) + f * Pow2(s);
      assert f * Pow2(s) > 0;
      ScaleFrom(f, t, s + 1)
  }

  function Scale(f: nat, t: nat): nat
    requires 0 < f <= t
  {
    ScaleFrom(f, t, 52)
  }

  /** The significand of the rounded quotient f / t; the quotient is this divided by 2^Scale. */
  function Quotient(f: nat, t: nat): nat
    requires 0 < f <= t
  {
    Nearest(f * Pow2(Scale(f, t)), t)
  }

  /** n to 53 digits: its last 6 or 7 binary digits are rounded away. */
  function RoundOff(n: nat): nat {
    var unit := if n < TWO_59 then 64 else 128;
    Nearest(n, unit) * unit
  }

  /** The rounded product of 100 and the number m / 2^s, times 2^s. */
  function Hundredfold(m: nat): nat {
    RoundOff(100 * m)
  }

  function Whole(a: nat, b: nat): nat
    requires b > 0
  {
    a / b
  }

  /** int((f / t) * 100) as binary64 computes it. */
  function FloatPercent(f: nat, t: nat): nat
    requires f <= t && t > 0
  {
    if f == 0 then 0 else Whole(Hundredfold(Quotient(f, t)), Pow2(Scale(f, t)))
  }

  // ---------------------------------------------------------------- rounding errors

  lemma NearestBounds(a: nat, b: nat)
    requires b > 0
    ensures var n := Nearest(a, b); 2 * a - b <= 2 * (n * b) <= 2 * a + b
  {
    var q, r := a / b, a % b;
    assert a == q * b + r;
    assert (q + 1) * b == q * b + b;
  }

  lemma HundredfoldBounds(m: nat)
    ensures 100 * m - 64 <= Hundredfold(m) <= 100 * m + 64
  {
    NearestBounds(100 * m, 64);
    NearestBounds(100 * m, 128);
  }

  lemma {:induction false} ScaleFromShape(f: nat, t: nat, s: nat)
    requires 0 < f <= t
    ensures ScaleFrom(f, t, s) >= s
    decreases TWO_52 * t - f * Pow2(s)
  {
    if f * Pow2(s) < TWO_52 * t {
      assert f * Pow2(s + 1) == f * Pow2(s) + f * Pow2(s);
      assert f * Pow2(s) > 0;
      ScaleFromShape(f, t, s + 1);
    }
  }

  lemma {:induction false} Pow2Grows(m: nat, n: nat)
    requires m <= n
    ensures Pow2(m) <= Pow2(n)
    decreases n
  {
    if m < n {
      Pow2Grows(m, n - 1);
    }
  }

  lemma Pow2At52()
    ensures Pow2(52) == TWO_52 && Pow2(53) == TWO_53 && Pow2(54) == 2 * TWO_53
  {
    assert Pow2(8) == 256;
    assert Pow2(16) == 0x1_0000 by { assert Pow2(12) == 0x1000; }
    assert Pow2(24) == 0x100_0000 by { assert Pow2(20) == 0x10_0000; }
    assert Pow2(32) == 0x1_0000_0000 by { assert Pow2(28) == 0x1000_0000; }
    assert Pow2(40) == 0x100_0000_0000 by { assert Pow2(36) == 0x10_0000_0000; }
    assert Pow2(48) == 0x1_0000_0000_0000 by { assert Pow2(44) == 0x1000_0000_0000; }
    assert Pow2(52) == TWO_52 by { assert Pow2(50) == 0x4_0000_0000_0000; }
  }

  lemma Pow2At47()
    ensures Pow2(39) == 0x80_0000_0000 && Pow2(47) == 0x8000_0000_0000
  {
    assert Pow2(8) == 256;
    assert Pow2(16) == 0x1_0000 by { assert Pow2(12) == 0x1000; }
    assert Pow2(24) == 0x100_0000 by { assert Pow2(20) == 0x10_0000; }
    assert Pow2(32) == 0x1_0000_0000 by { assert Pow2(28) == 0x1000_0000; }
    assert Pow2(39) == 0x80_0000_0000 by { assert Pow2(36) == 0x10_0000_0000; }
    assert Pow2(47) == 0x8000_0000_0000 by { assert Pow2(43) == 0x800_0000_0000; }
  }

  // ---------------------------------------------------------------- away from equality

  lemma WholeAtLeast(a: nat, b: nat, k: nat)
    requires b > 0
    ensures Whole(a, b) >= k <==> a >= k * b
  {
    var q := a / b;
    assert a == q * b + a % b;
    if q >= k {
      assert q * b >= k * b;
    } else {
      assert (q + 1) * b <= k * b;
    }
  }

  lemma Products(f: int, t: int, k: int, p: int)
    ensures (100 * f - k * t) * p == 100 * (f * p) - (k * p) * t
  {
    assert (100 * f - k * t) * p == (100 * f) * p - (k * t) * p;
    assert (k * t) * p == (k * p) * t;
  }

  lemma Grows(x: int, y: int, c: nat)
    requires x >= y
    ensures x * c >= y * c
  {
    assert (x - y) * c >= 0;
  }

  lemma Spread(m: int, t: int, d: int)
    ensures (100 * m + d) * t == 100 * (m * t) + d * t
  {
  }

  /** m is within half of f p / t, h within 64 of 100 m: where 100 f and k t differ, h and k p differ the same way. */
  lemma Above(f: nat, t: nat, k: nat, p: nat, m: nat, h: nat)
    requires 0 < t <= MAX_TOTAL && p >= TWO_52 && 100 * f > k * t
    requires 2 * (m * t) >= 2 * (f * p) - t && h >= 100 * m - 64
    ensures h >= k * p
  {
    var x, fp, mt := k * p, f * p, m * t;
    Products(f, t, k, p);
    Grows(100 * f - k * t, 1, p);
    Grows(h, 100 * m - 64, t);
    Spread(m, t, -64);
    var ht, xt := h * t, x * t;
    assert 2 * ht >= 2 * xt + 2 * p - 228 * t;
    if h < x {
      Grows(x, h, t);
    }
  }

  lemma Below(f: nat, t: nat, k: nat, p: nat, m: nat, h: nat)
    requires 0 < t <= MAX_TOTAL && p >= TWO_52 && 100 * f < k * t
    requires 2 * (m * t) <= 2 * (f * p) + t && h <= 100 * m + 64
    ensures h < k * p
  {
    var x, fp, mt := k * p, f * p, m * t;
    Products(f, t, k, p);
    Grows(-1, 100 * f - k * t, p);
    Grows(100 * m + 64, h, t);
    Spread(m, t, 64);
    var ht, xt := h * t, x * t;
    assert 2 * ht <= 2 * xt - 2 * p + 228 * t;
    if h >= x {
      Grows(h, x, t);
    }
  }

  lemma AwayFromEquality(f: nat, t: nat, k: nat)
    requires f <= t && 0 < t <= MAX_TOTAL && 100 * f != k * t
    ensures FloatPercent(f, t) >= k <==> 100 * f > k * t
  {
    if f == 0 {
      assert k * t > 0;
      assert k > 0;
    } else {
      var s := Scale(f, t);
      var p, m := Pow2(s), Quotient(f, t);
      var h := Hundredfold(m);
      ScaleFromShape(f, t, 52);
      Pow2Grows(52, s);
      Pow2At52();
      NearestBounds(f * p, t);
      HundredfoldBounds(m);
      WholeAtLeast(h, p, k);
      if 100 * f > k * t {
        Above(f, t, k, p, m, h);
      } else {
        Below(f, t, k, p, m, h);
      }
    }
  }

  // ---------------------------------------------------------------- at equality

  lemma Scaled(x: int, y: int, c: nat)
    requires c > 0
    ensures x > y <==> x * c > y * c
  {
    if x > y {
      Grows(x, y + 1, c);
    } else {
      Grows(y, x, c);
    }
  }

  lemma Digits(q: nat, x: nat, q': nat, x': nat, n: nat)
    requires q * n + x == q' * n + x' && x < n && x' < n
    ensures q == q' && x == x'
  {
    if q < q' {
      Grows(q', q + 1, n);
    }
    if q' < q {
      Grows(q, q' + 1, n);
    }
  }

  lemma Expand(q: int, b: int, r: int, d: int)
    ensures (q * b + r) * d == q * (b * d) + r * d
  {
    assert (q * b) * d == q * (b * d);
  }

  /** Doubling a remainder and comparing it with the divisor survives scaling. */
  lemma HalfScaled(r: nat, b: nat, d: nat)
    requires d > 0
    ensures 2 * r > b <==> 2 * (r * d) > b * d
    ensures 2 * r < b <==> 2 * (r * d) < b * d
  {
    Scaled(2 * r, b, d);
    Scaled(b, 2 * r, d);
    assert (2 * r) * d == 2 * (r * d);
  }

  /** Equal ratios are rounded alike. */
  lemma NearestOfRatio(a: nat, b: nat, c: nat, d: nat)
    requires b > 0 && d > 0 && a * d == c * b
    ensures Nearest(a, b) == Nearest(c, d)
  {
    var q, r := a / b, a % b;
    var q', r' := c / d, c % d;
    SameDigits(a, b, q, r, c, d, q', r');
    HalfScaled(r, b, d);
    HalfScaled(r', d, b);
  }

  lemma SameDigits(a: nat, b: nat, q: nat, r: nat, c: nat, d: nat, q': nat, r': nat)
    requires a * d == c * b && a == q * b + r && c == q' * d + r' && r < b && r' < d
    ensures q == q' && r * d == r' * b && b * d == d * b
  {
    Expand(q, b, r, d);
    Expand(q', d, r', b);
    Scaled(b, r, d);
    Scaled(d, r', b);
    Digits(q, r * d, q', r' * b, b * d);
  }

  lemma SameSide(f: nat, t: nat, k: nat, p: nat)
    requires t > 0 && 100 * f == k * t
    ensures (f * p) * 100 == (k * p) * t
    ensures f * p >= TWO_52 * t <==> k * p >= TWO_52 * 100
  {
    Products(f, t, k, p);
    var x, y := f * p, k * p;
    Scaled(TWO_52 * 100, y, t);
    assert (TWO_52 * 100) * t == 100 * (TWO_52 * t);
  }

  lemma {:induction false} ScaleOfRatio(f: nat, t: nat, k: nat, s: nat)
    requires 0 < f <= t && 0 < k <= 100 && 100 * f == k * t
    ensures ScaleFrom(f, t, s) == ScaleFrom(k, 100, s)
    decreases TWO_52 * t - f * Pow2(s)
  {
    var p := Pow2(s);
    SameSide(f, t, k, p);
    if f * p < TWO_52 * t {
      assert f * Pow2(s + 1) == f * p + f * p;
      assert f * p > 0;
      ScaleOfRatio(f, t, k, s + 1);
    }
  }

  /** Where the percentage is exactly k, the code computes what it computes for k of 100. */
  lemma AtEquality(f: nat, t: nat, k: nat)
    requires 0 < f <= t && 0 < k <= 100 && 100 * f == k * t
    ensures FloatPercent(f, t) == FloatPercent(k, 100)
  {
    ScaleOfRatio(f, t, k, 52);
    var p := Pow2(Scale(k, 100));
    SameSide(f, t, k, p);
    NearestOfRatio(f * p, t, k * p, 100);
  }

  lemma ScaleOfPercent(k: nat)
    requires 25 <= k < 100
    ensures Pow2(Scale(k, 100)) == if k >= 50 then TWO_53 else 2 * TWO_53
  {
    Pow2At52();
    assert ScaleFrom(k, 100, 52) == ScaleFrom(k, 100, 53);
    if k < 50 {
      assert ScaleFrom(k, 100, 53) == ScaleFrom(k, 100, 54);
    }
  }

  lemma NearestShift(c: nat, a: nat)
    requires c % 2 == 0
    ensures Nearest(c * 100 + a, 100) == c + Nearest(a, 100)
  {
    assert (c * 100 + a) / 100 == c + a / 100 && (c * 100 + a) % 100 == a % 100;
  }

  lemma RoundedBy64(w: nat, d: int)
    requires w % 2 == 0 && -50 <= d <= 50 && w * 64 + d >= 0
    ensures Nearest(w * 64 + d, 64) >= w <==> d >= -32
  {
    if d < 0 {
      assert w * 64 + d == (w - 1) * 64 + (64 + d);
    }
  }

  lemma RoundedBy128(w: nat, d: int)
    requires -50 <= d <= 50 && w * 128 + d >= 0
    ensures Nearest(w * 128 + d, 128) >= w
  {
    if d < 0 {
      assert w * 128 + d == (w - 1) * 128 + (128 + d);
    }
  }

  /** How far the hundredfold of a / 100, rounded, lies from a. */
  function Drift(a: nat): (d: int)
    ensures -50 <= d <= 50
  {
    NearestBounds(a, 100);
    100 * Nearest(a, 100) - a
  }

  /** The rounded product falls short where the quotient was rounded down by more than half a digit of the product. */
  lemma HundredfoldOf(n: nat, c: nat, a: nat, w: nat)
    requires n == c * 100 + a && c % 2 == 0 && n == 128 * w
    ensures Hundredfold(Nearest(n, 100)) >= n <==> n + Drift(a) >= TWO_59 || Drift(a) >= -32
  {
    NearestShift(c, a);
    assert 100 * Nearest(n, 100) == n + Drift(a);
    RoundOffBack(n, w, Drift(a));
  }

  lemma RoundOffBack(n: nat, w: nat, d: int)
    requires n == 128 * w && -50 <= d <= 50 && n + d >= 0
    ensures RoundOff(n + d) >= n <==> n + d >= TWO_59 || d >= -32
  {
    if n + d >= TWO_59 {
      RoundedBy128(w, d);
      assert n + d == w * 128 + d;
    } else {
      RoundedBy64(2 * w, d);
      assert n + d == (2 * w) * 64 + d;
    }
  }

  /** Below 64 per cent the product loses 6 digits, and at 57 and 58 the quotient's rounding reaches the seventh. */
  lemma DriftBelow64(k: nat)
    requires 50 <= k < 64
    ensures Drift(k * 192) < -32 <==> k == 57 || k == 58
  {
    var q := if k == 50 then 96 else if k <= 62 then 2 * k - 5 else 2 * k - 6;
    assert (k * 192) / 100 == q;
  }

  lemma UpperThreshold(k: nat)
    requires 50 <= k <= 95
    ensures Hundredfold(Nearest(k * TWO_53, 100)) >= k * TWO_53 <==> k != 57 && k != 58
  {
    var c := k * 90071992547408;
    assert c == 2 * (k * 45035996273704);
    HundredfoldOf(k * TWO_53, c, k * 192, k * 0x4000_0000_0000);
    if k < 64 {
      DriftBelow64(k);
    }
  }

  lemma LowerThreshold(k: nat)
    requires 30 <= k < 50
    ensures Hundredfold(Nearest(k * (2 * TWO_53), 100)) >= k * (2 * TWO_53)
  {
    var c := k * 180143985094818;
    assert c == 2 * (k * 90071992547409);
    HundredfoldOf(k * (2 * TWO_53), c, k * 184, k * 0x8000_0000_0000);
    assert Drift(30 * 184) == -20 && Drift(31 * 184) == -4;
  }

  /** Of the thresholds a breaker can have, the code misses exactly 57 and 58 per cent. */
  lemma AtThreshold(k: nat)
    requires 30 <= k <= 95
    ensures FloatPercent(k, 100) >= k <==> k != 57 && k != 58
  {
    var p := Pow2(Scale(k, 100));
    ScaleOfPercent(k);
    WholeAtLeast(Hundredfold(Quotient(k, 100)), p, k);
    if k >= 50 {
      UpperThreshold(k);
    } else {
      LowerThreshold(k);
    }
  }

  /** The code's test against a threshold: exact, except that at equality it misses 57 and 58 per cent. */
  lemma PercentAtLeast(f: nat, t: nat, k: nat)
    requires f <= t && 0 < t <= MAX_TOTAL && 30 <= k <= 95
    ensures FloatPercent(f, t) >= k <==> 100 * f > k * t || (100 * f == k * t && k != 57 && k != 58)
  {
    if 100 * f == k * t {
      assert k * t > 0;
      AtEquality(f, t, k);
      AtThreshold(k);
    } else {
      AwayFromEquality(f, t, k);
    }
  }

  /** 57 failures of 100 count as 56 per cent. */
  lemma FiftySeven()
    ensures FloatPercent(57, 100) == 56
  {
    AtThreshold(57);
    AwayFromEquality(57, 100, 56);
  }

  /** Both roundings keep 53 binary digits. */
  lemma DigitsKept(f: nat, t: nat)
    requires 0 < f <= t
    ensures TWO_52 <= Quotient(f, t) <= TWO_53
    ensures var n := 100 * Quotient(f, t);
            if n < TWO_59 then TWO_52 * 64 <= n < TWO_53 * 64 else TWO_52 * 128 <= n < TWO_53 * 128
  {
    var p := Pow2(Scale(f, t));
    Pow2At52();
    Grows(t, f, TWO_52);
    assert f * Pow2(52) <= TWO_53 * t;
    ScaleFits(f, t, 52);
    NearestWithin(f * p, t, TWO_52, TWO_53);
  }

  lemma {:induction false} ScaleFits(f: nat, t: nat, s: nat)
    requires 0 < f <= t && f * Pow2(s) <= TWO_53 * t
    ensures TWO_52 * t <= f * Pow2(ScaleFrom(f, t, s)) <= TWO_53 * t
    decreases TWO_52 * t - f * Pow2(s)
  {
    if f * Pow2(s) < TWO_52 * t {
      assert f * Pow2(s + 1) == f * Pow2(s) + f * Pow2(s);
      assert f * Pow2(s) > 0;
      ScaleFits(f, t, s + 1);
    }
  }

  lemma NearestWithin(a: nat, b: nat, low: nat, high: nat)
    requires b > 0 && low * b <= a <= high * b
    ensures low <= Nearest(a, b) <= high
  {
    WholeAtLeast(a, b, low);
    var q, r := a / b, a % b;
    assert a == q * b + r;
    if q >= high {
      Grows(q, high, b);
      if q > high {
        Grows(q, high + 1, b);
      }
    }
  }
}
