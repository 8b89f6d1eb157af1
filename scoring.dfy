/**
 * What the four scoring algorithms of app.js (runRossmo, runKDE,
 * runMeanCenter, runJourney) compute: the raw score of a cell as a
 * function of the cell's position and the points (`RawScore`), the grid
 * holding those scores (`Scored`), and lemmas about what the scores mean.
 * The loops that compute them in place are in module Algorithms.
 */
module Scoring {
  import opened GeoMath
  import opened Grid
  import opened Normalizer

  /** The algorithm the user picked, with its parameters. */
  datatype Model =
    | Rossmo(bufferKm: real, decay: real, bufferDecay: real)
    | Kde(sigmaKm: real)
    | MeanCenter(scale: real)
    | Journey(rate: real)

  /** Parameters under which an algorithm is defined on exact reals: a
      positive buffer for Rossmo and a positive bandwidth for KDE (the
      runner's floors guarantee both). */
  predicate ValidParams(m: Model)
  {
    match m
    case Rossmo(b, _, _) => b > 0.0
    case Kde(sigma) => sigma > 0.0
    case _ => true
  }

  /** The mean centre also needs at least one point. */
  predicate Defined(m: Model, pts: seq<Point>)
  {
    ValidParams(m) && (m.MeanCenter? ==> |pts| > 0)
  }

  /** The algorithms whose raw score is a sum of one term per point. */
  predicate Additive(m: Model)
  {
    m.Rossmo? || m.Kde?
  }

  /** Great-circle distance in km from a cell position to a point. */
  function Dist(t: Analytic, lat: real, lng: real, p: Point): (r: real)
    requires Lawful(t)
    ensures r >= 0.0
  {
    t.haversineKm(lat, lng, p.lat, p.lng)
  }

  /** The square of a distance: zero exactly when the distance is, and
      growing with it. */
  function Sq(d: real): (r: real)
    requires d >= 0.0
    ensures r >= 0.0
    ensures r == 0.0 <==> d == 0.0
  {
    Mul(d, d)
  }

  lemma SqMonotone(d1: real, d2: real)
    requires 0.0 <= d1 <= d2
    ensures Sq(d1) <= Sq(d2)
  {
    MulMonotone(d1, d1, d2, d2);
  }

  /** The denominator 2 sigma^2 of the Gaussian kernel. */
  function TwoSigmaSquared(sigma: real): (r: real)
    requires sigma > 0.0
    ensures r > 0.0
  {
    Mul(2.0 * sigma, sigma)
  }

  /** Dividing minus a non-negative number by a positive one gives a
      non-positive number, zero only for zero. */
  lemma NegatedQuotient(a: real, s: real)
    requires a >= 0.0 && s > 0.0
    ensures (-a) / s <= 0.0
    ensures a == 0.0 ==> (-a) / s == 0.0
  {
    QuotientNonNegative(a, s);
    assert (-a) / s == -(a / s);
  }

  // ---------------------------------------------------------------- Rossmo

  /** One point's contribution in the Rossmo formula: inside the buffer B
      only the buffer term B^g / (d + B)^g, outside it also the
      distance-decay term d^-f. Every contribution is positive. */
  function RossmoTerm(t: Analytic, d: real, b: real, f: real, g: real): (r: real)
    requires Lawful(t)
    requires d >= 0.0 && b > 0.0
    ensures r > 0.0
  {
    var term2 := t.pow(b, g) / t.pow(d + b, g);
    PositiveQuotient(t.pow(b, g), t.pow(d + b, g));
    if d <= b then term2 else t.pow(d, -f) + term2
  }

  lemma PositiveQuotient(x: real, y: real)
    requires x > 0.0 && y > 0.0
    ensures x / y > 0.0
  {
  }

  // -------------------------------------------------------------- Gaussian

  /** The Gaussian kernel exp(-d^2 / twoSigma2), where twoSigma2 is
      2 sigma^2 for the bandwidth sigma, as KDE and the mean-centre model
      evaluate it: in (0, 1], and 1 at distance 0. */
  function Kernel(t: Analytic, d: real, twoSigma2: real): (r: real)
    requires Lawful(t)
    requires d >= 0.0 && twoSigma2 > 0.0
    ensures 0.0 < r <= 1.0
    ensures d == 0.0 ==> r == 1.0
  {
    NegatedQuotient(Sq(d), twoSigma2);
    ExpOfNonPositive(t, -Sq(d) / twoSigma2);
    t.exp(-Sq(d) / twoSigma2)
  }

  /** The kernel never increases with distance. */
  lemma KernelDecreasing(t: Analytic, d1: real, d2: real, twoSigma2: real)
    requires Lawful(t)
    requires twoSigma2 > 0.0
    requires 0.0 <= d1 <= d2
    ensures Kernel(t, d2, twoSigma2) <= Kernel(t, d1, twoSigma2)
  {
    SqMonotone(d1, d2);
    QuotientOrder(-Sq(d2), -Sq(d1), twoSigma2);
    ExpMonotone(t, -Sq(d2) / twoSigma2, -Sq(d1) / twoSigma2);
  }

  /** The kernel strictly falls as the distance grows. */
  lemma KernelStrictlyDecreasing(t: Analytic, d1: real, d2: real, twoSigma2: real)
    requires Lawful(t)
    requires twoSigma2 > 0.0
    requires 0.0 <= d1 < d2
    ensures Kernel(t, d2, twoSigma2) < Kernel(t, d1, twoSigma2)
  {
    SqStrict(d1, d2);
    QuotientOrder(-Sq(d1), -Sq(d2), twoSigma2);
    assert -Sq(d2) / twoSigma2 < -Sq(d1) / twoSigma2;
  }

  lemma SqStrict(d1: real, d2: real)
    requires 0.0 <= d1 < d2
    ensures Sq(d1) < Sq(d2)
  {
    PositiveProduct(d2 - d1, d2 + d1);
    assert d2 * d2 - d1 * d1 == (d2 - d1) * (d2 + d1);
  }

  // ------------------------------------------------------------ Per point

  /** The term one point contributes to a cell under an additive model. */
  function Term(t: Analytic, m: Model, lat: real, lng: real, p: Point): (r: real)
    requires Lawful(t)
    requires Additive(m) && ValidParams(m)
    ensures r > 0.0
  {
    match m
    case Rossmo(b, f, g) => RossmoTerm(t, Dist(t, lat, lng, p), b, f, g)
    case Kde(sigma) => Kernel(t, Dist(t, lat, lng, p), TwoSigmaSquared(sigma))
  }

  function Terms(t: Analytic, m: Model, lat: real, lng: real, pts: seq<Point>): (r: seq<real>)
    requires Lawful(t)
    requires Additive(m) && ValidParams(m)
    ensures |r| == |pts|
    ensures forall k :: 0 <= k < |pts| ==> r[k] == Term(t, m, lat, lng, pts[k])
  {
    seq(|pts|, k requires 0 <= k < |pts| => Term(t, m, lat, lng, pts[k]))
  }

  /** The distances from a cell position to every point. */
  function Distances(t: Analytic, lat: real, lng: real, pts: seq<Point>): (r: seq<real>)
    requires Lawful(t)
    ensures |r| == |pts|
    ensures forall k :: 0 <= k < |pts| ==> r[k] == Dist(t, lat, lng, pts[k]) && r[k] >= 0.0
  {
    seq(|pts|, k requires 0 <= k < |pts| => Dist(t, lat, lng, pts[k]))
  }

  // ------------------------------------------------------------ MeanCenter

  /** The mean centre of the points: the arithmetic mean of their
      latitudes and of their longitudes. It lies inside their bounding
      box. */
  function Centre(pts: seq<Point>): (r: Point)
    requires |pts| > 0
    ensures Contains(BoundsFromPoints(pts), r.lat, r.lng)
  {
    var b := BoundsFromPoints(pts);
    MeanBetween(Lats(pts), b.minLat, b.maxLat);
    MeanBetween(Lngs(pts), b.minLng, b.maxLng);
    Point(Sum(Lats(pts)) / |pts| as real, Sum(Lngs(pts)) / |pts| as real)
  }

  /** The distance of every point from the mean centre. */
  function CentreDistances(t: Analytic, pts: seq<Point>): (r: seq<real>)
    requires Lawful(t)
    requires |pts| > 0
    ensures |r| == |pts|
    ensures forall k :: 0 <= k < |pts| ==> r[k] >= 0.0
  {
    var m := Centre(pts);
    seq(|pts|, k requires 0 <= k < |pts| => Dist(t, m.lat, m.lng, pts[k]))
  }

  /** The squares of a list of distances. */
  function Squares(ds: seq<real>): (r: seq<real>)
    requires forall k :: 0 <= k < |ds| ==> ds[k] >= 0.0
    ensures |r| == |ds|
    ensures forall k :: 0 <= k < |ds| ==> r[k] == Sq(ds[k])
  {
    seq(|ds|, k requires 0 <= k < |ds| => Sq(ds[k]))
  }

  /** The root-mean-square distance of the points from their mean centre. */
  function Rms(t: Analytic, pts: seq<Point>): (r: real)
    requires Lawful(t)
    requires |pts| > 0
    ensures r >= 0.0
  {
    var sq := Squares(CentreDistances(t, pts));
    SumSign(sq);
    QuotientNonNegative(Sum(sq), |pts| as real);
    SqrtSign(t, Sum(sq) / |pts| as real);
    t.sqrt(Sum(sq) / |pts| as real)
  }

  /** The bandwidth of the mean-centre model: the RMS distance, or 0.5 km
      when that is zero, times max(0.1, scale). */
  function Spread(t: Analytic, pts: seq<Point>, scale: real): (r: real)
    requires Lawful(t)
    requires |pts| > 0
    ensures r > 0.0
  {
    var rms := Rms(t, pts);
    var sigma := if rms == 0.0 then 0.5 else rms;
    Mul(sigma, Max(0.1, scale))
  }

  // --------------------------------------------------------------- Journey

  /** The journey-to-crime score exp(-λ · total distance), λ being the
      decay rate set on the form. */
  function JourneyValue(t: Analytic, rate: real, sumD: real): (r: real)
    requires Lawful(t)
    ensures r > 0.0
    ensures sumD == 0.0 ==> r == 1.0
  {
    t.exp(-(rate * sumD))
  }

  // -------------------------------------------------------------- Surfaces

  /** The raw (not yet normalized) score an algorithm writes into the
      cell at (lat, lng). */
  function RawScore(t: Analytic, m: Model, pts: seq<Point>, lat: real, lng: real): (r: real)
    requires Lawful(t)
    requires Defined(m, pts)
    ensures r >= 0.0
    ensures !Additive(m) ==> r > 0.0
    ensures m.MeanCenter? ==> r <= 1.0
  {
    match m
    case Rossmo(_, _, _) => SumSign(Terms(t, m, lat, lng, pts)); Sum(Terms(t, m, lat, lng, pts))
    case Kde(_) => SumSign(Terms(t, m, lat, lng, pts)); Sum(Terms(t, m, lat, lng, pts))
    case MeanCenter(scale) =>
      var ctr := Centre(pts);
      Kernel(t, Dist(t, lat, lng, ctr), TwoSigmaSquared(Spread(t, pts, scale)))
    case Journey(rate) => JourneyValue(t, rate, Sum(Distances(t, lat, lng, pts)))
  }

  /** The grid after the scoring loop and before normalization: every
      cell keeps its position and holds its raw score. */
  function Scored(t: Analytic, m: Model, pts: seq<Point>, cells: seq<Cell>): (r: seq<Cell>)
    requires Lawful(t)
    requires Defined(m, pts)
    ensures |r| == |cells|
    ensures forall i :: 0 <= i < |cells| ==> r[i].lat == cells[i].lat && r[i].lng == cells[i].lng
  {
    seq(|cells|, i requires 0 <= i < |cells| =>
      cells[i].(value := RawScore(t, m, pts, cells[i].lat, cells[i].lng)))
  }

  lemma ScoredAt(t: Analytic, m: Model, pts: seq<Point>, cells: seq<Cell>, i: nat)
    requires Lawful(t)
    requires Defined(m, pts)
    requires i < |cells|
    ensures Scored(t, m, pts, cells)[i] == cells[i].(value := RawScore(t, m, pts, cells[i].lat, cells[i].lng))
  {
  }

  /** A grid whose every cell holds its raw score, positions kept, is the
      scored grid. */
  lemma ScoredFrom(t: Analytic, m: Model, pts: seq<Point>, cells: seq<Cell>, out: seq<Cell>)
    requires Lawful(t)
    requires Defined(m, pts)
    requires |out| == |cells|
    requires forall k :: 0 <= k < |cells| ==> out[k] == cells[k].(value := RawScore(t, m, pts, cells[k].lat, cells[k].lng))
    ensures out == Scored(t, m, pts, cells)
  {
  }

  // -------------------------------------------------------------- Lemmas

  /** The terms of two point lists side by side are the terms of their
      concatenation. */
  lemma TermsAppend(t: Analytic, m: Model, lat: real, lng: real, p1: seq<Point>, p2: seq<Point>)
    requires Lawful(t)
    requires Additive(m) && ValidParams(m)
    ensures Terms(t, m, lat, lng, p1 + p2) == Terms(t, m, lat, lng, p1) + Terms(t, m, lat, lng, p2)
  {
    var all, r1, r2 := Terms(t, m, lat, lng, p1 + p2), Terms(t, m, lat, lng, p1), Terms(t, m, lat, lng, p2);
    forall k | 0 <= k < |all|
      ensures all[k] == (r1 + r2)[k]
    {
      if k < |p1| {
        assert (p1 + p2)[k] == p1[k];
      } else {
        assert (p1 + p2)[k] == p2[k - |p1|];
      }
    }
  }

  /** Rossmo and KDE scores are additive over the points: the score of two
      point sets together is the sum of their scores. */
  lemma AdditiveSplit(t: Analytic, m: Model, p1: seq<Point>, p2: seq<Point>, lat: real, lng: real)
    requires Lawful(t)
    requires Additive(m) && ValidParams(m)
    ensures RawScore(t, m, p1 + p2, lat, lng) == RawScore(t, m, p1, lat, lng) + RawScore(t, m, p2, lat, lng)
  {
    TermsAppend(t, m, lat, lng, p1, p2);
    SumAppend(Terms(t, m, lat, lng, p1), Terms(t, m, lat, lng, p2));
  }

  /** Listing every point twice doubles a Rossmo or KDE score. */
  lemma DuplicatedPointsDoubleScore(t: Analytic, m: Model, pts: seq<Point>, lat: real, lng: real)
    requires Lawful(t)
    requires Additive(m) && ValidParams(m)
    ensures RawScore(t, m, pts + pts, lat, lng) == 2.0 * RawScore(t, m, pts, lat, lng)
  {
    AdditiveSplit(t, m, pts, pts, lat, lng);
  }

  /** ... and leaves the normalized Rossmo or KDE surface unchanged. */
  lemma DuplicatedPointsSameSurface(t: Analytic, m: Model, pts: seq<Point>, cells: seq<Cell>)
    requires Lawful(t)
    requires Additive(m) && ValidParams(m)
    ensures Normalized(Scored(t, m, pts + pts, cells)) == Normalized(Scored(t, m, pts, cells))
  {
    var once, twice := Scored(t, m, pts, cells), Scored(t, m, pts + pts, cells);
    forall i | 0 <= i < |cells|
      ensures twice[i] == once[i].(value := 2.0 * once[i].value)
    {
      ScoredAt(t, m, pts, cells, i);
      ScoredAt(t, m, pts + pts, cells, i);
      DuplicatedPointsDoubleScore(t, m, pts, cells[i].lat, cells[i].lng);
    }
    NormalizedDoubleInvariant(once, twice);
  }

  /** With at least one point, a Rossmo or KDE score is positive; with no
      points it is zero. */
  lemma AdditiveScoreSign(t: Analytic, m: Model, pts: seq<Point>, lat: real, lng: real)
    requires Lawful(t)
    requires Additive(m) && ValidParams(m)
    ensures |pts| > 0 <==> RawScore(t, m, pts, lat, lng) > 0.0
    ensures |pts| == 0 ==> RawScore(t, m, pts, lat, lng) == 0.0
  {
    SumSign(Terms(t, m, lat, lng, pts));
  }

  /** Each KDE kernel lies in (0, 1], so a KDE score lies in (0, n] for n
      points. */
  lemma KdeBounded(t: Analytic, sigma: real, pts: seq<Point>, lat: real, lng: real)
    requires Lawful(t)
    requires sigma > 0.0 && |pts| > 0
    ensures 0.0 < RawScore(t, Kde(sigma), pts, lat, lng) <= |pts| as real
  {
    var ts := Terms(t, Kde(sigma), lat, lng, pts);
    SumBetween(ts, 0.0, 1.0);
    SumSign(ts);
  }

  /** With a single point, the KDE surface peaks at that point with score 1. */
  lemma KdeSinglePointPeak(t: Analytic, sigma: real, p: Point, lat: real, lng: real)
    requires Lawful(t)
    requires sigma > 0.0
    ensures RawScore(t, Kde(sigma), [p], p.lat, p.lng) == 1.0
    ensures RawScore(t, Kde(sigma), [p], lat, lng) <= RawScore(t, Kde(sigma), [p], p.lat, p.lng)
  {
    var here, there := Terms(t, Kde(sigma), p.lat, p.lng, [p]), Terms(t, Kde(sigma), lat, lng, [p]);
    assert here[..0] == [] && there[..0] == [];
    assert Sum(here) == here[0];
    assert Sum(there) == there[0];
  }

  /** A cell at least as far as another from every point has no higher
      density, and a strictly lower one when it is strictly farther from
      some point: the density peaks where the points are. */
  lemma KdeDominance(t: Analytic, sigma: real, pts: seq<Point>, lat1: real, lng1: real, lat2: real, lng2: real)
    requires Lawful(t)
    requires sigma > 0.0
    requires forall k :: 0 <= k < |pts| ==> Dist(t, lat1, lng1, pts[k]) <= Dist(t, lat2, lng2, pts[k])
    ensures RawScore(t, Kde(sigma), pts, lat2, lng2) <= RawScore(t, Kde(sigma), pts, lat1, lng1)
    ensures (exists k :: 0 <= k < |pts| && Dist(t, lat1, lng1, pts[k]) < Dist(t, lat2, lng2, pts[k]))
      ==> RawScore(t, Kde(sigma), pts, lat2, lng2) < RawScore(t, Kde(sigma), pts, lat1, lng1)
  {
    var s := TwoSigmaSquared(sigma);
    var near, far := Terms(t, Kde(sigma), lat1, lng1, pts), Terms(t, Kde(sigma), lat2, lng2, pts);
    forall k | 0 <= k < |pts|
      ensures far[k] <= near[k]
    {
      KernelDecreasing(t, Dist(t, lat1, lng1, pts[k]), Dist(t, lat2, lng2, pts[k]), s);
    }
    if exists k :: 0 <= k < |pts| && Dist(t, lat1, lng1, pts[k]) < Dist(t, lat2, lng2, pts[k]) {
      var k :| 0 <= k < |pts| && Dist(t, lat1, lng1, pts[k]) < Dist(t, lat2, lng2, pts[k]);
      KernelStrictlyDecreasing(t, Dist(t, lat1, lng1, pts[k]), Dist(t, lat2, lng2, pts[k]), s);
      assert far[k] < near[k];
    }
    SumLe(far, near);
  }

  /** The mean centre of a single point is that point. */
  lemma CentreOfSinglePoint(p: Point)
    ensures Centre([p]) == p
  {
    assert Lats([p])[..0] == [] && Lngs([p])[..0] == [];
    assert Sum(Lats([p])) == p.lat;
    assert Sum(Lngs([p])) == p.lng;
  }

  /** The RMS distance is zero exactly when every point lies at the mean
      centre (distance 0 from it). */
  lemma RmsZeroIff(t: Analytic, pts: seq<Point>)
    requires Lawful(t)
    requires |pts| > 0
    ensures Rms(t, pts) == 0.0 <==> forall k :: 0 <= k < |pts| ==> CentreDistances(t, pts)[k] == 0.0
  {
    var ds := CentreDistances(t, pts);
    var sq := Squares(ds);
    var x := Sum(sq) / |pts| as real;
    assert Rms(t, pts) == t.sqrt(x);
    SumSign(sq);
    assert t.sqrt(x) == 0.0 <==> Sum(sq) == 0.0 by {
      QuotientNonNegative(Sum(sq), |pts| as real);
      SqrtSign(t, x);
      QuotientZero(Sum(sq), |pts| as real);
    }
    assert Sum(sq) == 0.0 <==> forall k :: 0 <= k < |sq| ==> sq[k] == 0.0 by {
      SumZeroIff(sq);
    }
    SquaresZeroIff(ds);
  }

  lemma QuotientZero(a: real, n: real)
    requires n > 0.0
    ensures a / n == 0.0 <==> a == 0.0
  {
    assert (a / n) * n == a;
  }

  /** A list of squared distances is all zero exactly when the distances
      are. */
  lemma SquaresZeroIff(ds: seq<real>)
    requires forall k :: 0 <= k < |ds| ==> ds[k] >= 0.0
    ensures (forall k :: 0 <= k < |ds| ==> Squares(ds)[k] == 0.0) <==> (forall k :: 0 <= k < |ds| ==> ds[k] == 0.0)
  {
    var sq := Squares(ds);
    if forall k :: 0 <= k < |ds| ==> sq[k] == 0.0 {
      forall k | 0 <= k < |ds|
        ensures ds[k] == 0.0
      {
        assert Sq(ds[k]) == 0.0;
      }
    }
  }

  /** The mean-centre bandwidth falls back to 0.5 km exactly when the RMS
      distance is zero; a single point always takes the fallback. */
  lemma SpreadFallback(t: Analytic, pts: seq<Point>, scale: real)
    requires Lawful(t)
    requires |pts| > 0
    ensures Spread(t, pts, scale) == Mul(if Rms(t, pts) == 0.0 then 0.5 else Rms(t, pts), Max(0.1, scale))
    ensures |pts| == 1 ==> Spread(t, pts, scale) == Mul(0.5, Max(0.1, scale))
  {
    if |pts| == 1 {
      var p := pts[0];
      assert pts == [p];
      CentreOfSinglePoint(p);
      RmsZeroIff(t, pts);
    }
  }

  /** The mean-centre score lies in (0, 1] and is exactly 1 at the mean
      centre: the surface peaks there. */
  lemma MeanCenterPeak(t: Analytic, scale: real, pts: seq<Point>, lat: real, lng: real)
    requires Lawful(t)
    requires |pts| > 0
    ensures 0.0 < RawScore(t, MeanCenter(scale), pts, lat, lng) <= 1.0
    ensures RawScore(t, MeanCenter(scale), pts, Centre(pts).lat, Centre(pts).lng) == 1.0
  {
  }

  /** The mean-centre score never increases with the distance from the
      mean centre. */
  lemma MeanCenterDecreasing(t: Analytic, scale: real, pts: seq<Point>, lat1: real, lng1: real, lat2: real, lng2: real)
    requires Lawful(t)
    requires |pts| > 0
    requires Dist(t, lat1, lng1, Centre(pts)) <= Dist(t, lat2, lng2, Centre(pts))
    ensures RawScore(t, MeanCenter(scale), pts, lat2, lng2) <= RawScore(t, MeanCenter(scale), pts, lat1, lng1)
  {
    var c := Centre(pts);
    KernelDecreasing(t, Dist(t, lat1, lng1, c), Dist(t, lat2, lng2, c), TwoSigmaSquared(Spread(t, pts, scale)));
  }

  /** A cell strictly farther from the mean centre scores strictly less:
      the surface is a single peak with no plateau. */
  lemma MeanCenterStrictlyDecreasing(t: Analytic, scale: real, pts: seq<Point>, lat1: real, lng1: real, lat2: real, lng2: real)
    requires Lawful(t)
    requires |pts| > 0
    requires Dist(t, lat1, lng1, Centre(pts)) < Dist(t, lat2, lng2, Centre(pts))
    ensures RawScore(t, MeanCenter(scale), pts, lat2, lng2) < RawScore(t, MeanCenter(scale), pts, lat1, lng1)
  {
    var c := Centre(pts);
    KernelStrictlyDecreasing(t, Dist(t, lat1, lng1, c), Dist(t, lat2, lng2, c), TwoSigmaSquared(Spread(t, pts, scale)));
  }

  /** On a grid where one cell is strictly nearer the mean centre than
      every other cell, that cell is the only one whose normalized score
      reaches 1: it is 1 whenever the grid has another cell, and every
      other cell stays below 1. */
  lemma MeanCenterUniquePeak(t: Analytic, scale: real, pts: seq<Point>, cells: seq<Cell>, k: nat)
    requires Lawful(t)
    requires |pts| > 0
    requires k < |cells|
    requires forall j :: 0 <= j < |cells| && j != k ==>
      Dist(t, cells[k].lat, cells[k].lng, Centre(pts))
        < Dist(t, cells[j].lat, cells[j].lng, Centre(pts))
    ensures |cells| > 1 ==> Normalized(Scored(t, MeanCenter(scale), pts, cells))[k].value == 1.0
    ensures forall j :: 0 <= j < |cells| && j != k ==> Normalized(Scored(t, MeanCenter(scale), pts, cells))[j].value < 1.0
  {
    var m := MeanCenter(scale);
    var raw := Scored(t, m, pts, cells);
    forall j | 0 <= j < |cells| && j != k
      ensures raw[j].value < raw[k].value
    {
      MeanCenterStrictlyDecreasing(t, scale, pts, cells[k].lat, cells[k].lng, cells[j].lat, cells[j].lng);
      ScoredAt(t, m, pts, cells, j);
      ScoredAt(t, m, pts, cells, k);
    }
    NormalizedUniqueMax(raw, k);
  }

  /** For a non-negative decay rate and total distance, the journey score
      lies in (0, 1], and it is 1 at total distance 0. */
  lemma JourneyInUnitRange(t: Analytic, rate: real, sumD: real)
    requires Lawful(t)
    requires rate >= 0.0 && sumD >= 0.0
    ensures 0.0 < JourneyValue(t, rate, sumD) <= 1.0
    ensures sumD == 0.0 ==> JourneyValue(t, rate, sumD) == 1.0
  {
    ScaleMonotone(0.0, rate, sumD);
    ExpOfNonPositive(t, -(rate * sumD));
  }

  /** A larger decay rate never raises the journey score. */
  lemma JourneyMonotoneInLambda(t: Analytic, rate1: real, rate2: real, sumD: real)
    requires Lawful(t)
    requires rate1 <= rate2 && sumD >= 0.0
    ensures JourneyValue(t, rate2, sumD) <= JourneyValue(t, rate1, sumD)
  {
    assert -(rate2 * sumD) <= -(rate1 * sumD) by {
      ScaleMonotone(rate1, rate2, sumD);
    }
    ExpMonotone(t, -(rate2 * sumD), -(rate1 * sumD));
  }

  /** A larger total distance never raises the journey score. */
  lemma JourneyMonotoneInDistance(t: Analytic, rate: real, sum1: real, sum2: real)
    requires Lawful(t)
    requires rate >= 0.0 && sum1 <= sum2
    ensures JourneyValue(t, rate, sum2) <= JourneyValue(t, rate, sum1)
  {
    assert -(rate * sum2) <= -(rate * sum1) by {
      ScaleMonotone(sum1, sum2, rate);
    }
    ExpMonotone(t, -(rate * sum2), -(rate * sum1));
  }

  /** The journey score of a cell lies in (0, 1] and drops as its total
      distance to the points grows. */
  lemma JourneyScoreRange(t: Analytic, rate: real, pts: seq<Point>, lat: real, lng: real)
    requires Lawful(t)
    requires rate >= 0.0
    ensures 0.0 < RawScore(t, Journey(rate), pts, lat, lng) <= 1.0
  {
    SumSign(Distances(t, lat, lng, pts));
    JourneyInUnitRange(t, rate, Sum(Distances(t, lat, lng, pts)));
  }
}
