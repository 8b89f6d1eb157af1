/**
 * The four scoring algorithms of app.js as the loops they are. Each
 * runner writes a raw score into every cell's value, in place, and then
 * normalizes the grid; each is proved to leave exactly
 * `Normalized(Scored(...))` of the grid it was given.
 */
module Algorithms {
  import opened GeoMath
  import opened Grid
  import opened Normalizer
  import opened Scoring

  // ---------------------------------------------------------------- Rossmo

  /** The inner loop of runRossmo: the Rossmo score of one cell. */
  method RossmoCell(t: Analytic, lat: real, lng: real, pts: seq<Point>, b: real, f: real, g: real)
    returns (s: real)
    requires Lawful(t)
    requires b > 0.0
    ensures s == RawScore(t, Rossmo(b, f, g), pts, lat, lng)
  {
    ghost var terms := Terms(t, Rossmo(b, f, g), lat, lng, pts);
    s := 0.0;
    var j := 0;
    while j < |pts|
      invariant 0 <= j <= |pts|
      invariant s == Sum(terms[..j])
    {
      var p := pts[j];
      var d := Dist(t, lat, lng, p);
      var term := RossmoTerm(t, d, b, f, g);
      assert term == terms[j];
      SumStep(terms, j);
      s := s + term;
      j := j + 1;
    }
    assert terms[..j] == terms;
  }

  /** The outer loop of runRossmo: every cell gets its Rossmo score. */
  method ScoreRossmo(t: Analytic, grid: array<Cell>, pts: seq<Point>, b: real, f: real, g: real)
    requires Lawful(t)
    requires b > 0.0
    modifies grid
    ensures grid[..] == Scored(t, Rossmo(b, f, g), pts, old(grid[..]))
  {
    ghost var cells := grid[..];
    var i := 0;
    while i < grid.Length
      invariant 0 <= i <= grid.Length
      invariant forall k :: 0 <= k < grid.Length ==>
        grid[k] == if k < i then cells[k].(value := RawScore(t, Rossmo(b, f, g), pts, cells[k].lat, cells[k].lng)) else cells[k]
    {
      var cell := grid[i];
      var s := RossmoCell(t, cell.lat, cell.lng, pts, b, f, g);
      grid[i] := cell.(value := s);
      i := i + 1;
    }
    ScoredFrom(t, Rossmo(b, f, g), pts, cells, grid[..]);
  }

  /** runRossmo: score every cell, then normalize. */
  method RunRossmo(t: Analytic, grid: array<Cell>, pts: seq<Point>, b: real, f: real, g: real)
    requires Lawful(t)
    requires b > 0.0
    modifies grid
    ensures grid[..] == Normalized(Scored(t, Rossmo(b, f, g), pts, old(grid[..])))
  {
    ScoreRossmo(t, grid, pts, b, f, g);
    Normalize(grid);
  }

  // ------------------------------------------------------------------- KDE

  /** The inner loop of runKDE: the kernel density at one cell, with the
      kernel's denominator 2 sigma^2 computed once by the caller. */
  method KdeCell(t: Analytic, lat: real, lng: real, pts: seq<Point>, sigma: real, twoSigma2: real)
    returns (dens: real)
    requires Lawful(t)
    requires sigma > 0.0 && twoSigma2 == TwoSigmaSquared(sigma)
    ensures dens == RawScore(t, Kde(sigma), pts, lat, lng)
  {
    ghost var terms := Terms(t, Kde(sigma), lat, lng, pts);
    dens := 0.0;
    var j := 0;
    while j < |pts|
      invariant 0 <= j <= |pts|
      invariant dens == Sum(terms[..j])
    {
      var p := pts[j];
      var d := Dist(t, lat, lng, p);
      var k := Kernel(t, d, twoSigma2);
      assert k == terms[j];
      SumStep(terms, j);
      dens := dens + k;
      j := j + 1;
    }
    assert terms[..j] == terms;
  }

  /** The outer loop of runKDE: every cell gets its kernel density. */
  method ScoreKde(t: Analytic, grid: array<Cell>, pts: seq<Point>, sigma: real)
    requires Lawful(t)
    requires sigma > 0.0
    modifies grid
    ensures grid[..] == Scored(t, Kde(sigma), pts, old(grid[..]))
  {
    ghost var cells := grid[..];
    var twoSigma2 := TwoSigmaSquared(sigma);
    var i := 0;
    while i < grid.Length
      invariant 0 <= i <= grid.Length
      invariant forall k :: 0 <= k < grid.Length ==>
        grid[k] == if k < i then cells[k].(value := RawScore(t, Kde(sigma), pts, cells[k].lat, cells[k].lng)) else cells[k]
    {
      var cell := grid[i];
      var dens := KdeCell(t, cell.lat, cell.lng, pts, sigma, twoSigma2);
      grid[i] := cell.(value := dens);
      i := i + 1;
    }
    ScoredFrom(t, Kde(sigma), pts, cells, grid[..]);
  }

  /** runKDE: score every cell, then normalize. */
  method RunKde(t: Analytic, grid: array<Cell>, pts: seq<Point>, sigma: real)
    requires Lawful(t)
    requires sigma > 0.0
    modifies grid
    ensures grid[..] == Normalized(Scored(t, Kde(sigma), pts, old(grid[..])))
  {
    ScoreKde(t, grid, pts, sigma);
    Normalize(grid);
  }

  // ----------------------------------------------------------- Mean centre

  /** The mean-centre score of a cell, from its distance to the centre and
      the kernel denominator computed once for the grid. */
  lemma MeanCenterScore(t: Analytic, scale: real, pts: seq<Point>, lat: real, lng: real, d: real, twoSigma2: real)
    requires Lawful(t)
    requires |pts| > 0
    requires d == Dist(t, lat, lng, Centre(pts))
    requires twoSigma2 == TwoSigmaSquared(Spread(t, pts, scale))
    ensures RawScore(t, MeanCenter(scale), pts, lat, lng) == Kernel(t, d, twoSigma2)
  {
  }

  /** The cell loop of runMeanCenter: the mean centre and the bandwidth
      are computed once, then every cell gets the kernel of its distance
      from the centre. */
  method ScoreMeanCenter(t: Analytic, grid: array<Cell>, pts: seq<Point>, scale: real)
    requires Lawful(t)
    requires |pts| > 0
    modifies grid
    ensures grid[..] == Scored(t, MeanCenter(scale), pts, old(grid[..]))
  {
    ghost var cells := grid[..];
    var mean := Centre(pts);
    var sigma := Spread(t, pts, scale);
    var twoSigma2 := TwoSigmaSquared(sigma);
    var i := 0;
    while i < grid.Length
      invariant 0 <= i <= grid.Length
      invariant forall k :: 0 <= k < grid.Length ==>
        grid[k] == if k < i then cells[k].(value := RawScore(t, MeanCenter(scale), pts, cells[k].lat, cells[k].lng)) else cells[k]
    {
      var cell := grid[i];
      var d := Dist(t, cell.lat, cell.lng, mean);
      MeanCenterScore(t, scale, pts, cell.lat, cell.lng, d, twoSigma2);
      grid[i] := cell.(value := Kernel(t, d, twoSigma2));
      i := i + 1;
    }
    ScoredFrom(t, MeanCenter(scale), pts, cells, grid[..]);
  }

  /** runMeanCenter: score every cell, then normalize. */
  method RunMeanCenter(t: Analytic, grid: array<Cell>, pts: seq<Point>, scale: real)
    requires Lawful(t)
    requires |pts| > 0
    modifies grid
    ensures grid[..] == Normalized(Scored(t, MeanCenter(scale), pts, old(grid[..])))
  {
    ScoreMeanCenter(t, grid, pts, scale);
    Normalize(grid);
  }

  // --------------------------------------------------------------- Journey

  /** The inner loop of runJourney: the total distance from one cell to
      all points. */
  method TotalDistance(t: Analytic, lat: real, lng: real, pts: seq<Point>) returns (sumD: real)
    requires Lawful(t)
    ensures sumD == Sum(Distances(t, lat, lng, pts))
  {
    ghost var ds := Distances(t, lat, lng, pts);
    sumD := 0.0;
    var j := 0;
    while j < |pts|
      invariant 0 <= j <= |pts|
      invariant sumD == Sum(ds[..j])
    {
      var p := pts[j];
      SumStep(ds, j);
      sumD := sumD + Dist(t, lat, lng, p);
      j := j + 1;
    }
    assert ds[..j] == ds;
  }

  /** The journey score of a cell, from its total distance to the points. */
  lemma JourneyScore(t: Analytic, rate: real, pts: seq<Point>, lat: real, lng: real, sumD: real)
    requires Lawful(t)
    requires sumD == Sum(Distances(t, lat, lng, pts))
    ensures RawScore(t, Journey(rate), pts, lat, lng) == JourneyValue(t, rate, sumD)
  {
  }

  /** The outer loop of runJourney: every cell gets exp(-rate * its
      total distance). */
  method ScoreJourney(t: Analytic, grid: array<Cell>, pts: seq<Point>, rate: real)
    requires Lawful(t)
    modifies grid
    ensures grid[..] == Scored(t, Journey(rate), pts, old(grid[..]))
  {
    ghost var cells := grid[..];
    var i := 0;
    while i < grid.Length
      invariant 0 <= i <= grid.Length
      invariant forall k :: 0 <= k < grid.Length ==>
        grid[k] == if k < i then cells[k].(value := RawScore(t, Journey(rate), pts, cells[k].lat, cells[k].lng)) else cells[k]
    {
      var cell := grid[i];
      var sumD := TotalDistance(t, cell.lat, cell.lng, pts);
      JourneyScore(t, rate, pts, cell.lat, cell.lng, sumD);
      grid[i] := cell.(value := JourneyValue(t, rate, sumD));
      i := i + 1;
    }
    ScoredFrom(t, Journey(rate), pts, cells, grid[..]);
  }

  /** runJourney: score every cell, then normalize. */
  method RunJourney(t: Analytic, grid: array<Cell>, pts: seq<Point>, rate: real)
    requires Lawful(t)
    modifies grid
    ensures grid[..] == Normalized(Scored(t, Journey(rate), pts, old(grid[..])))
  {
    ScoreJourney(t, grid, pts, rate);
    Normalize(grid);
  }
}
