/**
 * Math helpers of the geoprofiler: degree/metre conversions, the
 * transcendental functions the engine calls, and the reductions
 * (minimum, maximum, sum) that the engine applies to lists of numbers.
 *
 * Coordinates and scores are exact reals. The transcendental functions
 * (the haversine distance, cos, exp, pow, sqrt) are not computed here:
 * they arrive as the fields of an `Analytic` value, and `Lawful` states
 * the only facts about them that the model relies on.
 */
module GeoMath {

  /** Metres in one degree of latitude (and of longitude at the equator). */
  const METRES_PER_DEGREE: real := 111320.0

  /** The numeric library the engine calls: the haversine great-circle
      distance in km between (lat1, lng1) and (lat2, lng2) in degrees, the
      cosine of an angle given in degrees (Math.cos of its radians), exp,
      pow and sqrt. */
  datatype Analytic = Analytic(
    haversineKm: (real, real, real, real) -> real,
    cosDeg: real -> real,
    exp: real -> real,
    pow: (real, real) -> real,
    sqrt: real -> real)

  /** The facts about the numeric library that the model uses. */
  ghost predicate Lawful(t: Analytic)
  {
    && (forall lat1, lng1, lat2, lng2 :: t.haversineKm(lat1, lng1, lat2, lng2) >= 0.0)
    && (forall lat, lng :: t.haversineKm(lat, lng, lat, lng) == 0.0)
    && (forall deg :: -90.0 < deg < 90.0 ==> t.cosDeg(deg) > 0.0)
    && (forall x :: t.exp(x) > 0.0)
    && t.exp(0.0) == 1.0
    && (forall x, y :: x < y ==> t.exp(x) < t.exp(y))
    && (forall x, y :: x > 0.0 ==> t.pow(x, y) > 0.0)
    && t.sqrt(0.0) == 0.0
    && t.sqrt(1.0) == 1.0
    && (forall x, y :: 0.0 <= x < y ==> t.sqrt(x) < t.sqrt(y))
  }

  /** exp never decreases. */
  lemma ExpMonotone(t: Analytic, x: real, y: real)
    requires Lawful(t)
    requires x <= y
    ensures t.exp(x) <= t.exp(y)
  {
    if x < y {
      assert t.exp(x) < t.exp(y);
    }
  }

  /** exp of a non-positive argument lies in (0, 1]. */
  lemma ExpOfNonPositive(t: Analytic, x: real)
    requires Lawful(t)
    requires x <= 0.0
    ensures 0.0 < t.exp(x) <= 1.0
  {
    ExpMonotone(t, x, 0.0);
  }

  /** sqrt of a non-negative number is non-negative, and zero only at
      zero. */
  lemma SqrtSign(t: Analytic, x: real)
    requires Lawful(t)
    requires x >= 0.0
    ensures t.sqrt(x) >= 0.0
    ensures t.sqrt(x) == 0.0 <==> x == 0.0
  {
    if x > 0.0 {
      assert t.sqrt(0.0) < t.sqrt(x);
    }
  }

  /** sqrt of a number above 1 is above 1. */
  lemma SqrtAboveOne(t: Analytic, x: real)
    requires Lawful(t)
    requires x > 1.0
    ensures t.sqrt(x) > 1.0
  {
    assert t.sqrt(1.0) < t.sqrt(x);
  }

  /** metersToDegLat: a distance in metres as degrees of latitude. */
  function MetersToDegLat(m: real): (d: real)
    ensures m > 0.0 ==> d > 0.0
    ensures m == 0.0 ==> d == 0.0
  {
    m / METRES_PER_DEGREE
  }

  /** metersToDegLng: a distance in metres as degrees of longitude at the
      given latitude; the latitude must lie strictly between the poles. */
  function MetersToDegLng(t: Analytic, m: real, lat: real): (d: real)
    requires Lawful(t)
    requires -90.0 < lat < 90.0
    ensures m > 0.0 ==> d > 0.0
    ensures m == 0.0 ==> d == 0.0
  {
    var c := METRES_PER_DEGREE * t.cosDeg(lat);
    m / c
  }

  /** A longer distance in metres is never fewer degrees of longitude. */
  lemma MetersToDegLngMonotone(t: Analytic, m1: real, m2: real, lat: real)
    requires Lawful(t)
    requires -90.0 < lat < 90.0
    requires m1 <= m2
    ensures MetersToDegLng(t, m1, lat) <= MetersToDegLng(t, m2, lat)
  {
    var c := METRES_PER_DEGREE * t.cosDeg(lat);
    assert m2 / c - m1 / c == (m2 - m1) / c;
  }

  /** The product of two reals, with the sign facts the model needs.
      Squares and other products go through this function so that the
      solver reasons about them by these facts. */
  function Mul(a: real, b: real): (r: real)
    ensures a > 0.0 && b > 0.0 ==> r > 0.0
    ensures a >= 0.0 && b >= 0.0 ==> r >= 0.0
    ensures a == 0.0 || b == 0.0 ==> r == 0.0
    ensures a >= 0.0 && b >= 0.0 && r == 0.0 ==> a == 0.0 || b == 0.0
  {
    if a > 0.0 && b > 0.0 then
      PositiveProduct(a, b);
      a * b
    else
      a * b
  }

  lemma PositiveProduct(a: real, b: real)
    requires a > 0.0 && b > 0.0
    ensures a * b > 0.0
  {
  }

  /** A product of non-negative factors grows with each factor. */
  lemma MulMonotone(a1: real, b1: real, a2: real, b2: real)
    requires 0.0 <= a1 <= a2 && 0.0 <= b1 <= b2
    ensures Mul(a1, b1) <= Mul(a2, b2)
  {
    RealProductMonotone(a1, b1, a2, b2);
  }

  lemma RealProductMonotone(a1: real, b1: real, a2: real, b2: real)
    requires 0.0 <= a1 <= a2 && 0.0 <= b1 <= b2
    ensures a1 * b1 <= a2 * b2
  {
    assert a1 * b1 <= a2 * b1;
    assert a2 * b1 <= a2 * b2;
  }

  /** Scaling by a non-negative factor keeps order; by a positive one,
      strict order. */
  lemma ScaleMonotone(x: real, y: real, d: real)
    requires x <= y && d >= 0.0
    ensures x * d <= y * d
  {
  }

  lemma ScaleStrict(x: real, y: real, d: real)
    requires x < y && d > 0.0
    ensures x * d < y * d
  {
  }

  /** The same for natural numbers. */
  lemma NatScale(a: nat, b: nat, c: nat)
    requires a <= b
    ensures a * c <= b * c
  {
    assert b * c == a * c + (b - a) * c;
  }

  /** Math.max of two numbers. */
  function Max(a: real, b: real): (r: real)
    ensures r >= a && r >= b
    ensures r == a || r == b
  {
    if a < b then b else a
  }

  /** Math.ceil: the least integer not below x. */
  function Ceil(x: real): (r: int)
    ensures x <= r as real < x + 1.0
  {
    -((-x).Floor)
  }

  /** Math.min over a non-empty list, scanning left to right and keeping the
      earlier value on ties. */
  function MinOf(xs: seq<real>): (r: real)
    requires |xs| > 0
    ensures r in xs
    ensures forall i :: 0 <= i < |xs| ==> r <= xs[i]
  {
    if |xs| == 1 then xs[0]
    else
      var m := MinOf(xs[..|xs| - 1]);
      if xs[|xs| - 1] < m then xs[|xs| - 1] else m
  }

  /** Math.max over a non-empty list, scanning left to right. */
  function MaxOf(xs: seq<real>): (r: real)
    requires |xs| > 0
    ensures r in xs
    ensures forall i :: 0 <= i < |xs| ==> xs[i] <= r
  {
    if |xs| == 1 then xs[0]
    else
      var m := MaxOf(xs[..|xs| - 1]);
      if xs[|xs| - 1] > m then xs[|xs| - 1] else m
  }

  /** The left-to-right sum of a list, as an accumulating loop or a
      `reduce` computes it. */
  function Sum(xs: seq<real>): (r: real)
    ensures (forall i :: 0 <= i < |xs| ==> xs[i] >= 0.0) ==> r >= 0.0
  {
    if |xs| == 0 then 0.0 else Sum(xs[..|xs| - 1]) + xs[|xs| - 1]
  }

  /** Extending a prefix by one element adds that element to the sum. */
  lemma SumStep(xs: seq<real>, j: nat)
    requires j < |xs|
    ensures Sum(xs[..j + 1]) == Sum(xs[..j]) + xs[j]
  {
    assert xs[..j + 1][..j] == xs[..j];
  }

  /** Summing a concatenation sums the parts. */
  lemma {:induction false} SumAppend(xs: seq<real>, ys: seq<real>)
    ensures Sum(xs + ys) == Sum(xs) + Sum(ys)
    decreases |ys|
  {
    if |ys| == 0 {
      assert xs + ys == xs;
    } else {
      var init := ys[..|ys| - 1];
      assert (xs + ys)[..|xs + ys| - 1] == xs + init;
      SumAppend(xs, init);
    }
  }

  /** A sum of non-negative numbers is non-negative, and it is positive
      when every number is positive and there is at least one. */
  lemma {:induction false} SumSign(xs: seq<real>)
    requires forall i :: 0 <= i < |xs| ==> xs[i] >= 0.0
    ensures Sum(xs) >= 0.0
    ensures (|xs| > 0 && forall i :: 0 <= i < |xs| ==> xs[i] > 0.0) ==> Sum(xs) > 0.0
    decreases |xs|
  {
    if |xs| > 0 {
      SumSign(xs[..|xs| - 1]);
    }
  }

  /** A sum of non-negative numbers is zero exactly when every number is. */
  lemma {:induction false} SumZeroIff(xs: seq<real>)
    requires forall i :: 0 <= i < |xs| ==> xs[i] >= 0.0
    ensures Sum(xs) == 0.0 <==> forall i :: 0 <= i < |xs| ==> xs[i] == 0.0
    decreases |xs|
  {
    if |xs| > 0 {
      var init := xs[..|xs| - 1];
      SumZeroIff(init);
      SumSign(init);
    }
  }

  /** Summing term by term smaller numbers gives a smaller sum, strictly
      smaller when one term is strictly smaller. */
  lemma {:induction false} SumLe(xs: seq<real>, ys: seq<real>)
    requires |xs| == |ys|
    requires forall i :: 0 <= i < |xs| ==> xs[i] <= ys[i]
    ensures Sum(xs) <= Sum(ys)
    ensures (exists i :: 0 <= i < |xs| && xs[i] < ys[i]) ==> Sum(xs) < Sum(ys)
    decreases |xs|
  {
    if |xs| > 0 {
      var n := |xs| - 1;
      SumLe(xs[..n], ys[..n]);
      if exists i :: 0 <= i < |xs| && xs[i] < ys[i] {
        var i :| 0 <= i < |xs| && xs[i] < ys[i];
        if i < n {
          assert xs[..n][i] < ys[..n][i];
        }
      }
    }
  }

  /** The sum of n numbers lies between n times their minimum and n times
      their maximum. */
  lemma {:induction false} SumBetween(xs: seq<real>, lo: real, hi: real)
    requires forall i :: 0 <= i < |xs| ==> lo <= xs[i] <= hi
    ensures Mul(|xs| as real, lo) <= Sum(xs) <= Mul(|xs| as real, hi)
    decreases |xs|
  {
    if |xs| > 0 {
      var n := |xs| - 1;
      SumBetween(xs[..n], lo, hi);
      BoundsStep(n as real, |xs| as real, Sum(xs[..n]), xs[n], lo, hi);
    }
  }

  /** Adding one more element within [lo, hi] to a sum of n such elements. */
  lemma BoundsStep(n: real, m: real, s: real, x: real, lo: real, hi: real)
    requires m == n + 1.0
    requires Mul(n, lo) <= s <= Mul(n, hi) && lo <= x <= hi
    ensures Mul(m, lo) <= s + x <= Mul(m, hi)
  {
    assert m * lo == n * lo + lo;
    assert m * hi == n * hi + hi;
  }

  /** The arithmetic mean of a non-empty list lies within any bounds of
      its elements, in particular between its minimum and its maximum. */
  lemma MeanBetween(xs: seq<real>, lo: real, hi: real)
    requires |xs| > 0
    requires forall i :: 0 <= i < |xs| ==> lo <= xs[i] <= hi
    ensures lo <= Sum(xs) / |xs| as real <= hi
  {
    var s, n := Sum(xs), |xs| as real;
    assert Mul(n, lo) <= s <= Mul(n, hi) by { SumBetween(xs, lo, hi); }
    assert lo <= s / n <= hi by { DivideBounds(s, n, lo, hi); }
  }

  lemma DivideBounds(s: real, n: real, lo: real, hi: real)
    requires n > 0.0
    requires Mul(n, lo) <= s <= Mul(n, hi)
    ensures lo <= s / n <= hi
  {
    assert s / n - lo == (s - n * lo) / n;
    assert hi - s / n == (n * hi - s) / n;
  }

  /** Doubling every element doubles the minimum and the maximum. */
  lemma {:induction false} ExtremaDouble(xs: seq<real>, ys: seq<real>)
    requires |xs| > 0 && |ys| == |xs|
    requires forall i :: 0 <= i < |xs| ==> ys[i] == 2.0 * xs[i]
    ensures MinOf(ys) == 2.0 * MinOf(xs)
    ensures MaxOf(ys) == 2.0 * MaxOf(xs)
    decreases |xs|
  {
    if |xs| > 1 {
      var n := |xs| - 1;
      ExtremaDouble(xs[..n], ys[..n]);
    }
  }
}
