/**
 * Sizing a Jump Host's slots from the average backup duration (app/tasks/backups.py). Durations are reals; the average
 * is stored in thousandths of a second, and the slot count is computed from it in floats.
 */
module WindowSizing {
  import opened Wrappers
  import opened FloatRatio
  import Binary64

  datatype Settings = Settings(
    enabled: bool, window: nat, minSamples: nat, minSlots: nat, alphaPercent: nat, timeLimit: nat)
  {
    predicate Valid() {
      && 300 <= window <= 86400 && 1 <= minSamples && 1 <= minSlots <= 16 && 1 <= alphaPercent <= 100
      && 180 <= timeLimit
    }
  }

  function Max(a: int, b: int): int { if a >= b then a else b }
  function Min(a: int, b: int): int { if a <= b then a else b }

  function CeilDiv(a: nat, b: nat): nat
    requires b > 0
  {
    (a + b - 1) / b
  }

  // ---------------------------------------------------------------- the number of slots

  /** What Redis and the batch say about one Jump Host; the average is in thousandths, None when nothing is stored. */
  datatype Inputs = Inputs(hasBatch: bool, devices: int, average: Option<int>, samples: int)

  /** The slots that get through the devices within the window, n thousandths of a second each. */
  function Needed(devices: nat, n: nat, window: nat): nat
    requires window > 0
  {
    CeilDiv(devices * n, 1000 * window)
  }

  /** The float quotient of the total time and the window. */
  function Quotient(devices: nat, n: nat, window: nat): Ratio
    requires devices > 0 && n > 0 && window > 0
  {
    var average := Rounded(n, 1000);
    var work := Rounded(Float(devices) * average.num, average.den);
    Rounded(work.num, work.den * window)
  }

  /** int(math.ceil((float(device_count) * avg_seconds) / float(window))) */
  function CodeNeeded(devices: nat, n: nat, window: nat): nat
    requires devices > 0 && n > 0 && window > 0
  {
    var q := Quotient(devices, n, window);
    CeilDiv(q.num, q.den)
  }

  /** The current count reduced to what is needed, but not below the lower bound. */
  function Reduced(s: Settings, current: int, needed: int): int {
    Max(Max(1, Min(current, s.minSlots)), Min(current, Max(1, Min(16, needed))))
  }

  function WindowSlots(s: Settings, currentSlots: int, inp: Inputs): int
    requires s.Valid()
  {
    var current := Max(1, Min(16, currentSlots));
    if !s.enabled || !inp.hasBatch || current <= 1 || inp.devices <= 0 then current
    else
      var average := if inp.average.Some? then inp.average.value else 0;
      if average <= 0 || inp.samples < s.minSamples then current
      else Reduced(s, current, CodeNeeded(inp.devices, average, s.window))
  }

  /** k slots suffice: k windows of time cover the devices' total time. */
  predicate Covers(k: int, devices: nat, n: nat, window: nat) {
    k * (1000 * window) >= devices * n
  }

  lemma CeilIs(a: nat, b: nat, c: nat)
    requires b > 0 && c > 0 && (c - 1) * b < a <= c * b
    ensures CeilDiv(a, b) == c
  {
    var q, r := (a + b - 1) / b, (a + b - 1) % b;
    assert a + b - 1 == q * b + r;
    assert (c - 1) * b == c * b - b;
    Multiples(q, c, b);
  }

  lemma CeilAtLeast(a: nat, b: nat, c: nat)
    requires b > 0 && a > c * b
    ensures CeilDiv(a, b) > c
  {
    var q, r := (a + b - 1) / b, (a + b - 1) % b;
    assert a + b - 1 == q * b + r;
    Multiples(q, c, b);
  }

  lemma CeilLeast(a: nat, b: nat, k: int)
    requires b > 0
    ensures k >= CeilDiv(a, b) <==> k * b >= a
  {
    var q, r := (a + b - 1) / b, (a + b - 1) % b;
    assert a + b - 1 == q * b + r;
    Multiples(q, k, b);
  }

  /** The exact need is the least count whose windows cover the devices' total time. */
  lemma CeilCovers(devices: nat, n: nat, window: nat, k: int)
    requires window > 0
    ensures k >= Needed(devices, n, window) <==> Covers(k, devices, n, window)
  {
    CeilLeast(devices * n, 1000 * window, k);
  }

  // ---------------------------------------------------------------- the need in floats

  /** Three roundings keep the quotient within five parts in 2^53. */
  lemma QuotientWithin(devices: nat, n: nat, window: nat)
    requires devices > 0 && n > 0 && window > 0
    ensures var q := Quotient(devices, n, window); Within(5, q.num, q.den, Float(devices) * n, 1000 * window)
  {
    var d := Float(devices);
    var average := Rounded(n, 1000);
    var work := Rounded(d * average.num, average.den);
    var q := Rounded(work.num, work.den * window);
    RoundedWithin(n, 1000);
    RoundedWithin(d * average.num, average.den);
    RoundedWithin(work.num, work.den * window);
    TimesWithin(average.num, average.den, n, 1000, d, work.num, work.den);
    DividedWithin(work.num, work.den, d * n, 1000, window, q.num, q.den);
  }

  lemma TimesWithin(p: nat, q: nat, a: nat, b: nat, d: nat, num: nat, den: nat)
    requires q > 0 && Within(1, p, q, a, b) && Within(1, num, den, d * p, q)
    ensures Within(3, num, den, d * a, b)
  {
    assert p * d == d * p && a * d == d * a && q * 1 == q && b * 1 == b;
    WithinCompose(1, p, q, a, b, d, 1, num, den);
  }

  lemma DividedWithin(p: nat, q: nat, a: nat, b: nat, w: nat, num: nat, den: nat)
    requires q > 0 && Within(3, p, q, a, b) && Within(1, num, den, p, q * w)
    ensures Within(5, num, den, a, b * w)
  {
    assert p * 1 == p && a * 1 == a;
    WithinCompose(3, p, q, a, b, 1, w, num, den);
  }

  /** A ratio that close to a / b, for a of less than 2^53 fifths, differs from it by less than 1 / b. */
  lemma WithinUnit(num: nat, den: nat, a: nat, b: nat)
    requires den > 0 && Within(5, num, den, a, b) && 5 * a < Binary64.TWO_53
    ensures -(den as int) < num * b - a * den < den
  {
    var z := num * b - a * den;
    assert 5 * (a * den) == (5 * a) * den;
    TimesMore(den, 5 * a, Binary64.TWO_53);
    assert (5 * a) * den < Binary64.TWO_53 * den;
  }

  lemma CeilNear(num: nat, den: nat, a: nat, b: nat)
    requires den > 0 && b > 0 && num > 0 && a > 0 && -(den as int) < num * b - a * den < den
    ensures a % b != 0 ==> CeilDiv(num, den) == CeilDiv(a, b)
    ensures a % b == 0 ==> CeilDiv(num, den) == CeilDiv(a, b) + (if num > CeilDiv(a, b) * den then 1 else 0)
  {
    var k, r := a / b, a % b;
    assert a == k * b + r;
    assert a * den == (k * den) * b + r * den;
    Multiples(num, k * den, b);
    if r == 0 {
      assert k > 0;
      CeilIs(a, b, k);
      NearWhole(num, den, k, b);
    } else {
      assert (k + 1) * b == k * b + b;
      CeilIs(a, b, k + 1);
      NearPart(num, den, k, b, r);
    }
  }

  lemma NearWhole(num: nat, den: nat, k: nat, b: nat)
    requires den > 0 && b > 0 && k > 0 && -(den as int) < num * b - (k * den) * b < den
    ensures CeilDiv(num, den) == k + (if num > k * den then 1 else 0)
  {
    var z := num - k * den;
    assert z * b == num * b - (k * den) * b;
    Smaller(z, b, den);
    assert (k - 1) * den == k * den - den && (k + 1) * den == k * den + den;
    CeilIs(num, den, if num > k * den then k + 1 else k);
  }

  lemma Smaller(z: int, b: nat, den: nat)
    requires b > 0 && -(den as int) < z * b < den
    ensures -(den as int) < z < den
  {
    if z >= 0 {
      TimesLess(z, 1, b);
    } else {
      TimesLess(-z, 1, b);
      assert (-z) * b == -(z * b);
    }
  }

  lemma NearPart(num: nat, den: nat, k: nat, b: nat, r: nat)
    requires den > 0 && 0 < r < b && -(den as int) < num * b - ((k * den) * b + r * den) < den
    ensures CeilDiv(num, den) == k + 1
  {
    TimesLess(den, 1, r);
    TimesLess(den, r, b - 1);
    assert den * (b - 1) == den * b - den && den * r == r * den;
    assert (num - k * den) * b == num * b - (k * den) * b;
    assert (k + 1) * den == k * den + den;
    PositiveFactor(num - k * den, b);
    assert (den - (num - k * den)) * b == den * b - (num - k * den) * b;
    PositiveFactor(den - (num - k * den), b);
    CeilIs(num, den, k + 1);
  }

  lemma PositiveFactor(x: int, b: nat)
    requires x * b > 0
    ensures x > 0
  {
    if x <= 0 {
      TimesLess(b, x, 0);
    }
  }

  /** Beyond sixteen windows of work the need is at least sixteen, in floats too. */
  lemma FarBeyond(num: nat, den: nat, a: nat, b: nat)
    requires den > 0 && b > 0 && Within(5, num, den, a, b) && a > 16 * b
    ensures CeilDiv(num, den) >= 16
  {
    assert 5 * (a * den) <= Binary64.TWO_53 * (a * den) / 100;
    assert 100 * (num * b) >= 99 * (a * den);
    TimesLess(den, 16 * b, a);
    assert den * (16 * b) == (16 * den) * b && den * a == a * den;
    assert (num - 15 * den) * b == num * b - (15 * den) * b;
    assert den * b > 0;
    PositiveFactor(num - 15 * den, b);
    CeilAtLeast(num, den, 15);
  }

  /**
   * The total time is a whole number of windows, and the average was rounded up by more than half a digit of that time
   * divided by the devices.
   */
  predicate OneMore(devices: nat, n: nat, window: nat)
    requires n > 0 && window > 0
  {
    var average, time := Rounded(n, 1000), devices * n / (1000 * window) * window;
    && devices * n % (1000 * window) == 0 && time > 0
    && 2 * (devices * (1000 * average.num - n * average.den)) * PerUnit(time) > 1000 * average.den
  }

  /** A quotient of a whole number of windows exceeds that number exactly when the total time exceeds them. */
  lemma QuotientKeeps(f: nat, t: nat, k: nat, window: nat)
    requires 0 < f && 0 < t && 0 < k && 0 < window && 0 < k * window < Binary64.TWO_52
    ensures var work := Rounded(f, t);
            var q := Rounded(work.num, work.den * window);
            q.num > k * q.den <==> 2 * (f - (k * window) * t) * PerUnit(k * window) > t
  {
    var work := Rounded(f, t);
    TimesLess(k, 1, window);
    RoundsAbove(f, t, k * window);
    RoundsAbove(work.num, work.den * window, k);
    PerUnitShape(k);
    PerUnitShape(k * window);
    FinerDigits(k, window, PerUnit(k), PerUnit(k * window));
    KeepsDigit(work.num, work.den, k, window, PerUnit(k), PerUnit(k * window));
  }

  lemma FinerDigits(k: nat, window: nat, p: nat, p': nat)
    requires k > 0 && Binary64.TWO_52 <= k * p && (k * window) * p' < Binary64.TWO_53
    ensures window * p' < 2 * p
  {
    assert k * (window * p') == (k * window) * p' && k * (2 * p) == 2 * (k * p);
    if 2 * p <= window * p' {
      TimesLess(k, 2 * p, window * p');
    }
  }

  lemma KeepsDigit(num: nat, den: nat, k: nat, window: nat, p: nat, p': nat)
    requires window > 0 && den > 0 && window * p' < 2 * p
    requires num > (k * window) * den ==> (num - (k * window) * den) * p' >= den
    ensures 2 * (num - k * (den * window)) * p > den * window <==> num > (k * window) * den
  {
    assert k * (den * window) == (k * window) * den;
    if num > (k * window) * den {
      DigitPasses(num - (k * window) * den, den, window, p, p');
    } else {
      NoDigitPasses(num - (k * window) * den, den, window, p);
    }
  }

  lemma DigitPasses(x: nat, den: nat, window: nat, p: nat, p': nat)
    requires x > 0 && window * p' < 2 * p && x * p' >= den
    ensures 2 * x * p > den * window
  {
    TimesLess(window, den, x * p');
    TimesMore(x, window * p', 2 * p);
    assert window * (x * p') == x * (window * p');
    assert x * (2 * p) == 2 * x * p;
    assert window * den == den * window;
  }

  lemma NoDigitPasses(x: int, den: nat, window: nat, p: nat)
    requires x <= 0 && den > 0 && window > 0
    ensures 2 * x * p <= den * window
  {
    TimesLess(p, 2 * x, 0);
    assert p * (2 * x) == 2 * x * p;
  }

  /** With a whole number k of windows, the float quotient exceeds k exactly when the average was rounded up enough. */
  lemma WholeQuotient(devices: nat, n: nat, window: nat, k: nat)
    requires 0 < devices < Binary64.TWO_53 && 0 < n && 0 < window && 0 < k && 0 < k * window < Binary64.TWO_52
    requires devices * n == k * (1000 * window)
    ensures var q := Quotient(devices, n, window); q.num > k * q.den <==> OneMore(devices, n, window)
  {
    var average := Rounded(n, 1000);
    QuotientKeeps(devices * average.num, average.den, k, window);
    OneMoreAt(devices, n, window, k);
  }

  lemma OneMoreAt(devices: nat, n: nat, window: nat, k: nat)
    requires 0 < n && 0 < window && 0 < k * window && devices * n == k * (1000 * window)
    ensures var average := Rounded(n, 1000);
            OneMore(devices, n, window)
            <==> 2 * (devices * average.num - (k * window) * average.den) * PerUnit(k * window) > average.den
  {
    var average := Rounded(n, 1000);
    WholeParts(devices * n, k, 1000 * window);
    ExcessOf(devices, n, k * window, average.num, average.den, PerUnit(k * window));
  }

  lemma WholeParts(a: nat, k: nat, b: nat)
    requires b > 0 && a == k * b
    ensures a / b == k && a % b == 0
  {
    var q, r := a / b, a % b;
    assert a == q * b + r;
    Multiples(q, k, b);
  }

  lemma ExcessOf(devices: nat, n: nat, time: nat, num: nat, den: nat, p: nat)
    requires devices * n == 1000 * time
    ensures 2 * (devices * num - time * den) * p > den
       <==> 2 * (devices * (1000 * num - n * den)) * p > 1000 * den
  {
    assert devices * (1000 * num - n * den) == 1000 * (devices * num) - (devices * n) * den;
    assert (1000 * time) * den == 1000 * (time * den);
    assert 2 * (1000 * (devices * num - time * den)) * p == 1000 * (2 * (devices * num - time * den) * p);
  }

  /**
   * The code asks for the least count that covers the batch, or for one more, and for that exactly on `OneMore`; where
   * both exceed sixteen the cap hides the difference.
   */
  lemma CodeNeededExactly(devices: nat, n: nat, window: nat)
    requires devices > 0 && n > 0 && 0 < window <= 86400
    ensures devices * n <= 16 * (1000 * window) ==>
              CodeNeeded(devices, n, window)
              == Needed(devices, n, window) + (if OneMore(devices, n, window) then 1 else 0)
    ensures devices * n > 16 * (1000 * window) ==>
              CodeNeeded(devices, n, window) >= 16 && Needed(devices, n, window) >= 16
  {
    TimesLess(devices, 1, n);
    if devices * n <= 16 * (1000 * window) {
      SmallBatch(devices, n, window, 1000 * window);
    } else {
      var q := Quotient(devices, n, window);
      QuotientWithin(devices, n, window);
      CeilAtLeast(devices * n, 1000 * window, 15);
      LargeBatch(devices, n, 1000 * window);
      FarBeyond(q.num, q.den, Float(devices) * n, 1000 * window);
    }
  }

  lemma SmallBatch(devices: nat, n: nat, window: nat, b: nat)
    requires devices > 0 && n > 0 && 0 < window <= 86400 && b == 1000 * window
    requires devices <= devices * n <= 16 * b
    ensures CodeNeeded(devices, n, window) == CeilDiv(devices * n, b) + (if OneMore(devices, n, window) then 1 else 0)
  {
    var q := Quotient(devices, n, window);
    QuotientWithin(devices, n, window);
    WholeOrNot(devices, n, window, b);
    CeilOrOneMore(q.num, q.den, devices * n, b, OneMore(devices, n, window));
  }

  lemma WholeOrNot(devices: nat, n: nat, window: nat, b: nat)
    requires devices > 0 && n > 0 && 0 < window <= 86400 && b == 1000 * window
    requires devices <= devices * n <= 16 * b
    ensures var q := Quotient(devices, n, window);
            if devices * n % b == 0 then OneMore(devices, n, window) <==> q.num > CeilDiv(devices * n, b) * q.den
            else !OneMore(devices, n, window)
  {
    if devices * n % b == 0 {
      WholeBatch(devices, n, window, devices * n / b);
    }
  }

  lemma CeilOrOneMore(num: nat, den: nat, a: nat, b: nat, more: bool)
    requires den > 0 && num > 0 && a > 0 && 0 < b <= 86400000 && a <= 16 * b && Within(5, num, den, a, b)
    requires if a % b == 0 then more <==> num > CeilDiv(a, b) * den else !more
    ensures CeilDiv(num, den) == CeilDiv(a, b) + (if more then 1 else 0)
  {
    WithinUnit(num, den, a, b);
    CeilNear(num, den, a, b);
  }

  lemma WholeBatch(devices: nat, n: nat, window: nat, k: nat)
    requires 0 < devices < Binary64.TWO_53 && n > 0 && 0 < window <= 86400
    requires devices * n == k * (1000 * window) && 0 < devices * n <= 16 * (1000 * window)
    ensures CeilDiv(devices * n, 1000 * window) == k
    ensures var q := Quotient(devices, n, window); q.num > k * q.den <==> OneMore(devices, n, window)
  {
    CeilWhole(devices * n, 1000 * window, k);
    TimesLess(k, 1, window);
    TimesLess(window, k, 16);
    assert window * k == k * window;
    WholeQuotient(devices, n, window, k);
  }

  lemma CeilWhole(a: nat, b: nat, k: nat)
    requires a > 0 && b > 0 && a == k * b && a <= 16 * b
    ensures 0 < k <= 16 && CeilDiv(a, b) == k
  {
    Multiples(k, 16, b);
    assert (k - 1) * b == k * b - b;
    CeilIs(a, b, k);
  }

  lemma LargeBatch(devices: nat, n: nat, b: nat)
    requires n > 0 && devices * n > 16 * b && b <= 86400000
    ensures Float(devices) * n > 16 * b
  {
    if devices >= Binary64.TWO_53 {
      RoundedDigits(devices, 1);
      LargeFloat(devices);
      TimesLess(Float(devices), 1, n);
    }
  }

  lemma LargeFloat(devices: nat)
    requires devices >= Binary64.TWO_53
    ensures Float(devices) >= Binary64.TWO_52
  {
    RoundedDigits(devices, 1);
    var u := Binary64.Pow2(UnitFrom(devices, 1, 0));
    TimesLess(Binary64.Nearest(devices, 1 * u), 1, u);
  }

  lemma FortyThreePointTwo()
    ensures Rounded(43200, 1000) == Ratio(0x15_9999_9999_999A, 0x8000_0000_0000)
  {
    Binary64.Pow2At47();
    ScaleIs(43200, 1000, 47);
  }

  lemma NineWindows()
    ensures PerUnit(9 * 1800) == 0x80_0000_0000
  {
    Binary64.Pow2At47();
    ScaleIs(16200, 1, 39);
  }

  /** 375 devices of 43.2 seconds fill nine windows of half an hour, and the code asks for ten slots. */
  lemma OneSlotTooMany()
    ensures Needed(375, 43200, 1800) == 9 && CodeNeeded(375, 43200, 1800) == 10
  {
    FortyThreePointTwo();
    NineWindows();
    OneMoreAt(375, 43200, 1800, 9);
    CodeNeededExactly(375, 43200, 1800);
  }

  lemma ReducedBounds(s: Settings, current: int, needed: int)
    requires s.Valid() && 1 <= current <= 16
    ensures var r := Reduced(s, current, needed);
            && Min(current, s.minSlots) <= r <= current
            && (r != current ==> r >= needed && needed < 16)
            && (Min(current, s.minSlots) < r < current ==> r == needed)
  {
  }

  /**
   * The result lies between the lower bound and the current count; below the current count it covers the batch, and
   * strictly between the two bounds it is the least count that does, or one more exactly on `OneMore`.
   */
  lemma WindowSlotsFit(s: Settings, currentSlots: int, inp: Inputs)
    requires s.Valid()
    ensures var current := Max(1, Min(16, currentSlots));
            var r := WindowSlots(s, currentSlots, inp);
            && Min(current, s.minSlots) <= r <= current
            && (r != current ==>
                  && inp.devices > 0 && inp.average.Some? && inp.average.value > 0
                  && Covers(r, inp.devices, inp.average.value, s.window))
            && (Min(current, s.minSlots) < r < current ==>
                  && !Covers(r - 2, inp.devices, inp.average.value, s.window)
                  && (Covers(r - 1, inp.devices, inp.average.value, s.window)
                      <==> OneMore(inp.devices, inp.average.value, s.window)))
  {
    var current := Max(1, Min(16, currentSlots));
    var r := WindowSlots(s, currentSlots, inp);
    if r != current {
      var n := inp.average.value;
      ReducedBounds(s, current, CodeNeeded(inp.devices, n, s.window));
      CodeNeededExactly(inp.devices, n, s.window);
      CeilCovers(inp.devices, n, s.window, r);
      CeilCovers(inp.devices, n, s.window, r - 1);
      CeilCovers(inp.devices, n, s.window, r - 2);
    }
  }

  // ---------------------------------------------------------------- the average

  /** round(x, 3): the nearest thousandth, ties to the even one. */
  function Thousandths(x: real): int {
    var n := (x * 1000.0).Floor;
    var rest := x * 1000.0 - n as real;
    if rest < 0.5 || (rest == 0.5 && n % 2 == 0) then n else n + 1
  }

  function Round3(x: real): real {
    Thousandths(x) as real / 1000.0
  }

  lemma RoundMonotone(x: real, y: real)
    requires x <= y
    ensures Round3(x) <= Round3(y)
  {
    var n, m := (x * 1000.0).Floor, (y * 1000.0).Floor;
    assert x * 1000.0 <= y * 1000.0;
    assert n <= m;
    assert Thousandths(x) <= Thousandths(y);
  }

  lemma ThousandthsOf(y: real, k: int)
    requires y == k as real / 1000.0
    ensures Thousandths(y) == k
  {
    assert y * 1000.0 == k as real;
  }

  lemma RoundTwice(x: real)
    ensures Round3(Round3(x)) == Round3(x)
  {
    ThousandthsOf(Round3(x), Thousandths(x));
  }

  function Blend(x: real, y: real, a: real): real {
    x * (1.0 - a) + y * a
  }

  function Mix(s: Settings, previous: real, duration: real): real {
    Blend(previous, duration, s.alphaPercent as real / 100.0)
  }

  /** min(duration, time limit) */
  function Capped(s: Settings, duration: real): real {
    if duration <= s.timeLimit as real then duration else s.timeLimit as real
  }

  /** The stored average after a successful backup of the given duration. */
  function Averaged(s: Settings, previous: Option<real>, duration: real): Option<real> {
    if duration <= 0.0 then previous
    else
      var d := Capped(s, duration);
      Some(Round3(if previous.None? || previous.value <= 0.0 then d else Mix(s, previous.value, d)))
  }

  /** What the slot count reads of a stored average. */
  function Stored(average: Option<real>): Option<int> {
    if average.None? then None else Some(Thousandths(average.value))
  }

  class JumpHostDurations {
    const settings: Settings
    var average: Option<real>
    var samples: nat

    constructor (settings: Settings)
      ensures this.settings == settings && average == None && samples == 0
    {
      this.settings := settings;
      average, samples := None, 0;
    }

    method Record(success: bool, duration: real)
      requires settings.Valid()
      modifies this
      ensures average
           == if settings.enabled && success then Averaged(settings, old(average), duration) else old(average)
      ensures samples == old(samples) + (if settings.enabled && success && duration > 0.0 then 1 else 0)
    {
      if !success || !settings.enabled || duration <= 0.0 {
        return;
      }
      var d := Capped(settings, duration);
      var next := d;
      if average.Some? && average.value > 0.0 {
        next := Mix(settings, average.value, d);
      }
      average := Some(Round3(next));
      samples := samples + 1;
    }
  }

  function AverageOf(s: Settings, durations: seq<real>): Option<real> {
    if durations == [] then None
    else Averaged(s, AverageOf(s, durations[..|durations| - 1]), durations[|durations| - 1])
  }

  /** Every sample, capped at the time limit, lies between the bounds; non-positive durations are no samples. */
  predicate AllWithin(s: Settings, durations: seq<real>, lo: real, hi: real) {
    forall i | 0 <= i < |durations| :: durations[i] <= 0.0 || lo <= Capped(s, durations[i]) <= hi
  }

  predicate HasSample(durations: seq<real>) {
    exists i | 0 <= i < |durations| :: durations[i] > 0.0
  }

  lemma Scaled(x: real, a: real)
    requires 0.0 <= x && 0.0 <= a
    ensures 0.0 <= x * a
  {
  }

  lemma BlendAbove(lo: real, x: real, y: real, a: real)
    requires lo <= x && lo <= y && 0.0 <= a <= 1.0
    ensures lo <= Blend(x, y, a)
  {
    Scaled(x - lo, 1.0 - a);
    Scaled(y - lo, a);
    assert (x - lo) * (1.0 - a) == x * (1.0 - a) - lo * (1.0 - a);
    assert (y - lo) * a == y * a - lo * a;
    assert lo * (1.0 - a) == lo - lo * a;
  }

  lemma BlendBelow(hi: real, x: real, y: real, a: real)
    requires x <= hi && y <= hi && 0.0 <= a <= 1.0
    ensures Blend(x, y, a) <= hi
  {
    Scaled(hi - x, 1.0 - a);
    Scaled(hi - y, a);
    assert (hi - x) * (1.0 - a) == hi * (1.0 - a) - x * (1.0 - a);
    assert (hi - y) * a == hi * a - y * a;
    assert hi * (1.0 - a) == hi - hi * a;
  }

  lemma MixWithin(s: Settings, previous: real, duration: real, lo: real, hi: real)
    requires s.Valid() && lo <= previous <= hi && lo <= duration <= hi
    ensures lo <= Mix(s, previous, duration) <= hi
  {
    var a := s.alphaPercent as real / 100.0;
    BlendAbove(lo, previous, duration, a);
    BlendBelow(hi, previous, duration, a);
  }

  lemma RoundAbove(x: real, lo: real)
    requires lo <= x || Round3(lo) <= x
    ensures Round3(lo) <= Round3(x)
  {
    RoundTwice(lo);
    if lo <= x {
      RoundMonotone(lo, x);
    } else {
      RoundMonotone(Round3(lo), x);
    }
  }

  lemma RoundBelow(x: real, hi: real)
    requires x <= hi || x <= Round3(hi)
    ensures Round3(x) <= Round3(hi)
  {
    RoundTwice(hi);
    if x <= hi {
      RoundMonotone(x, hi);
    } else {
      RoundMonotone(x, Round3(hi));
    }
  }

  lemma RoundWithin(x: real, lo: real, hi: real)
    requires (lo <= x || Round3(lo) <= x) && (x <= hi || x <= Round3(hi))
    ensures Round3(lo) <= Round3(x) <= Round3(hi)
  {
    RoundAbove(x, lo);
    RoundBelow(x, hi);
  }

  lemma AveragedWithin(s: Settings, previous: Option<real>, d: real, lo: real, hi: real)
    requires s.Valid() && 0.0 < lo <= Capped(s, d) <= hi
    requires previous.Some? ==> Round3(lo) <= previous.value <= Round3(hi)
    ensures Averaged(s, previous, d).Some? && Round3(lo) <= Averaged(s, previous, d).value <= Round3(hi)
  {
    var c := Capped(s, d);
    if previous.None? || previous.value <= 0.0 {
      RoundWithin(c, lo, hi);
    } else {
      var l := if lo <= Round3(lo) then lo else Round3(lo);
      var h := if hi >= Round3(hi) then hi else Round3(hi);
      MixWithin(s, previous.value, c, l, h);
      RoundWithin(Mix(s, previous.value, c), lo, hi);
    }
  }

  /** The stored average never leaves the rounded bounds of the capped samples it was built from. */
  lemma {:induction false} AverageWithinRounded(s: Settings, durations: seq<real>, lo: real, hi: real)
    requires s.Valid() && 0.0 < lo <= hi && AllWithin(s, durations, lo, hi)
    ensures var average := AverageOf(s, durations);
            && (average.Some? ==> Round3(lo) <= average.value <= Round3(hi))
            && (average.Some? <==> HasSample(durations))
    decreases |durations|
  {
    if durations != [] {
      var front, d := durations[..|durations| - 1], durations[|durations| - 1];
      AverageWithinRounded(s, front, lo, hi);
      SampleNext(durations);
      if d > 0.0 {
        AveragedWithin(s, AverageOf(s, front), d, lo, hi);
      }
    }
  }

  lemma SampleNext(durations: seq<real>)
    requires durations != []
    ensures var k := |durations| - 1; HasSample(durations) <==> HasSample(durations[..k]) || durations[k] > 0.0
  {
    var k := |durations| - 1;
    if HasSample(durations[..k]) {
      var i :| 0 <= i < k && durations[..k][i] > 0.0;
      assert durations[i] > 0.0;
    }
    if HasSample(durations) && durations[k] <= 0.0 {
      var i :| 0 <= i < |durations| && durations[i] > 0.0;
      assert durations[..k][i] > 0.0;
    }
  }

  /** Every average built from capped samples between the bounds lies between the bounds. */
  ghost predicate BoundsKept(s: Settings, lo: real, hi: real) {
    forall durations: seq<real> | HasSample(durations) && AllWithin(s, durations, lo, hi) ::
      AverageOf(s, durations).Some? && lo <= AverageOf(s, durations).value <= hi
  }

  /** Stored rounded, the average stays within the bounds exactly when rounding moves neither bound outwards. */
  lemma BoundsKeptExactly(s: Settings, lo: real, hi: real)
    requires s.Valid() && 0.0 < lo <= hi && lo <= s.timeLimit as real
    ensures BoundsKept(s, lo, hi) <==> lo <= Round3(lo) && Round3(Capped(s, hi)) <= hi
  {
    var top := Capped(s, hi);
    if BoundsKept(s, lo, hi) {
      OneSample(s, lo);
      OneSample(s, top);
      assert HasSample([lo]) && HasSample([top]) by { assert [lo][0] > 0.0 && [top][0] > 0.0; }
      assert AllWithin(s, [lo], lo, hi) && AllWithin(s, [top], lo, hi);
    }
    if lo <= Round3(lo) && Round3(top) <= hi {
      forall durations: seq<real> | HasSample(durations) && AllWithin(s, durations, lo, hi)
        ensures AverageOf(s, durations).Some? && lo <= AverageOf(s, durations).value <= hi
      {
        AverageWithinRounded(s, durations, lo, top);
      }
    }
  }

  lemma OneSample(s: Settings, d: real)
    requires 0.0 < d <= s.timeLimit as real
    ensures AverageOf(s, [d]) == Some(Round3(d))
  {
    assert AverageOf(s, []) == None;
    assert [d][..0] == [];
  }

  /** One backup of 1.0004 seconds is already remembered as 1 second. */
  lemma RoundingLeavesBounds(s: Settings)
    requires s.Valid()
    ensures AverageOf(s, [1.0004]) == Some(1.0) && !BoundsKept(s, 1.0004, 1.0004)
  {
    OneSample(s, 1.0004);
    assert (1.0004 * 1000.0).Floor == 1000;
    assert Round3(1.0004) == 1.0;
    assert AllWithin(s, [1.0004], 1.0004, 1.0004);
    assert HasSample([1.0004]) by { assert [1.0004][0] > 0.0; }
  }

  /** The slot count reads the very average that was stored. */
  lemma {:induction false} StoredExactly(s: Settings, durations: seq<real>)
    ensures var average := AverageOf(s, durations);
            average.Some? ==> average.value == Stored(average).value as real / 1000.0
    decreases |durations|
  {
    if durations != [] {
      var k := |durations| - 1;
      StoredExactly(s, durations[..k]);
      RoundedIsStored(s, AverageOf(s, durations[..k]), durations[k]);
    }
  }

  lemma RoundedIsStored(s: Settings, previous: Option<real>, d: real)
    requires previous.Some? ==> previous.value == Thousandths(previous.value) as real / 1000.0
    ensures var next := Averaged(s, previous, d);
            next.Some? ==> next.value == Thousandths(next.value) as real / 1000.0
  {
    if d > 0.0 {
      var c := Capped(s, d);
      var x := if previous.None? || previous.value <= 0.0 then c else Mix(s, previous.value, c);
      ThousandthsOf(Round3(x), Thousandths(x));
    }
  }

  /** One backup of 43.2 seconds stores the average for which the code asks for one slot too many. */
  lemma FortyThreeIsStored(s: Settings)
    requires s.Valid()
    ensures Stored(AverageOf(s, [43.2])) == Some(43200)
  {
    OneSample(s, 43.2);
    ThousandthsOf(43.2, 43200);
    ThousandthsOf(Round3(43.2), 43200);
  }

  /** An average moves towards the new sample by the configured share of their distance. */
  lemma MixMoves(s: Settings, previous: real, duration: real)
    ensures 100.0 * (Mix(s, previous, duration) - previous) == s.alphaPercent as real * (duration - previous)
  {
    var a := s.alphaPercent as real / 100.0;
    assert Mix(s, previous, duration) - previous == a * (duration - previous);
    assert 100.0 * (a * (duration - previous)) == (100.0 * a) * (duration - previous);
  }

  /** So the next stored average is the old one and that share, rounded; the first is the sample itself. */
  lemma AverageMoves(s: Settings, previous: real, duration: real)
    requires s.Valid() && 0.0 < duration <= s.timeLimit as real
    ensures previous > 0.0 ==>
              Averaged(s, Some(previous), duration)
              == Some(Round3(previous + s.alphaPercent as real * (duration - previous) / 100.0))
    ensures Averaged(s, None, duration) == Some(Round3(duration))
  {
    MixMoves(s, previous, duration);
  }

  /** The stored data allow a reduction. */
  predicate MayReduce(s: Settings, currentSlots: int, inp: Inputs) {
    && s.enabled && inp.hasBatch && currentSlots > 1 && inp.devices > 0
    && inp.average.Some? && inp.average.value > 0 && inp.samples >= s.minSamples
  }

  /**
   * Without enough data the count stays. With it, no count between the bounds that covers the batch is smaller than
   * the result, but for the one that the rounded quotient misses.
   */
  lemma WindowSlotsLeast(s: Settings, currentSlots: int, inp: Inputs)
    requires s.Valid()
    ensures var current := Max(1, Min(16, currentSlots));
            var r := WindowSlots(s, currentSlots, inp);
            && (!MayReduce(s, currentSlots, inp) ==> r == current)
            && (MayReduce(s, currentSlots, inp) ==>
                  forall k: nat | Min(current, s.minSlots) <= k < r ::
                    || !Covers(k, inp.devices, inp.average.value, s.window)
                    || (OneMore(inp.devices, inp.average.value, s.window)
                        && k == Needed(inp.devices, inp.average.value, s.window)))
  {
    if MayReduce(s, currentSlots, inp) {
      var current := Max(1, Min(16, currentSlots));
      var r, n := WindowSlots(s, currentSlots, inp), inp.average.value;
      CodeNeededExactly(inp.devices, n, s.window);
      forall k: nat | Min(current, s.minSlots) <= k < r
        ensures !Covers(k, inp.devices, n, s.window)
                || (OneMore(inp.devices, n, s.window) && k == Needed(inp.devices, n, s.window))
      {
        CeilCovers(inp.devices, n, s.window, k);
        ReducedLeast(s, current, CodeNeeded(inp.devices, n, s.window), k);
      }
    }
  }

  lemma ReducedLeast(s: Settings, current: int, needed: int, k: int)
    requires s.Valid() && 1 <= current <= 16 && Min(current, s.minSlots) <= k < Reduced(s, current, needed)
    ensures k < needed && k < 16
  {
  }
}
