# Criminal geoprofiler — the geoprofiling engine

This project models the engine of a browser geoprofiler (`app.js`). The user places the
points where linked crimes happened and picks a scoring algorithm. The engine then
builds a square-ish lattice of cells around the points and scores every cell for how
likely the offender's anchor point lies there. It then normalizes the scores to [0, 1]
for a heat map.

The model covers:

- **the geometry** (`geomath.dfy`, `grid.dfy`):
  - metre/degree conversion;
  - the bounding box of the points and its padding;
  - the lattice of cells that `generateGrid` pushes, row by row (latitude-major), with
    value 0;
- **normalization** (`normalizer.dfy`): `normalizeValues` as an in-place two-pass
  method over an `array<Cell>`, specified by the function `Normalized`;
- **the scores** (`scoring.dfy`), as functions of the points and a cell:
  - Rossmo's formula with its buffer zone;
  - a Gaussian kernel density;
  - a Gaussian around the mean centre whose bandwidth is the RMS distance;
  - the journey-to-crime decay exp(-λ·Σd);
- **the four runners** (`algorithms.dfy`): the nested loops of `runRossmo`, `runKDE`,
  `runMeanCenter` and `runJourney`, each a method that writes the raw score into every
  cell of the array and then normalizes it;
- **the runner** (`analysis.dfy`): the part of `runAnalysis` that computes:
  - the empty-points guard;
  - the step (`max(50, value || 300)`);
  - padding by six steps;
  - one coarsening by `ceil(sqrt(cells / 12000))` when the grid has more than 12000 cells;
  - the algorithm switch with the floors and defaults of each parameter.

Numbers are exact reals. The transcendental functions the engine calls (the haversine
distance, `Math.cos`, `Math.exp`, `Math.pow`, `Math.sqrt`) are not computed. They are
the fields of a value of type `GeoMath.Analytic`, and the predicate `GeoMath.Lawful`
lists the only facts about them that the proofs use:

- the distance is non-negative and zero from a point to itself;
- cos is positive strictly between the poles;
- exp is positive, strictly increasing and 1 at 0;
- a positive base gives a positive power;
- sqrt is strictly increasing on non-negative numbers, with sqrt 0 = 0 and sqrt 1 = 1.

## Model

| member | source | states |
|---|---|---|
| GeoMath.MetersToDegLat | app.js:118 | metres become degrees of latitude at 111320 m per degree; positive for a positive distance, zero for zero |
| GeoMath.MetersToDegLng | app.js:119 | metres become degrees of longitude at the given latitude, which lies strictly between the poles; positive for a positive distance, zero for zero |
| GeoMath.MetersToDegLngMonotone | app.js:119 | a longer distance is never fewer degrees of longitude |
| GeoMath.Max | app.js:201 | Math.max of two numbers is at least both and is one of them |
| GeoMath.Ceil | app.js:208 | Math.ceil returns the least integer not below its argument |
| GeoMath.MinOf | app.js:122 | Math.min over a list is an element of the list and is below every element |
| GeoMath.MaxOf | app.js:122 | Math.max over a list is an element of the list and is above every element |
| GeoMath.Sum | app.js:150-155 | the left-to-right accumulation (`s +=`, `dens +=`, `sumD +=`, `reduce`) of non-negative terms is non-negative |
| GeoMath.SumAppend | app.js:151-155 | the accumulated sum of a concatenation is the sum of the parts' sums |
| GeoMath.SumSign | app.js:163-167 | a sum of non-negative terms is non-negative, and positive when every term is positive and there is one |
| GeoMath.SumLe | app.js:163-168 | summing term by term smaller numbers gives a smaller sum, strictly smaller when one term is strictly smaller |
| GeoMath.SumZeroIff | app.js:176 | a sum of non-negative terms is zero exactly when every term is zero |
| GeoMath.MeanBetween | app.js:173-174 | the mean of a non-empty list lies between any lower and upper bound of its elements |
| GeoMath.ExtremaDouble | app.js:142 | doubling every value doubles the minimum and the maximum |
| Grid.CenterLat | app.js:125 | the centre latitude is equidistant from the south and north edges and, for a box that is not inverted, lies between them |
| Grid.Lats | app.js:121 | the latitudes of the points, in order |
| Grid.Lngs | app.js:121 | the longitudes of the points, in order |
| Grid.BoundsFromPoints | app.js:120-123 | every point lies in the box, and each of its four edges is attained by some point |
| Grid.CenterOfPointsOffPole | app.js:125 | when no point is at a pole, the box's centre latitude is strictly between the poles, so points off the poles always meet RunAnalysis's requirement |
| Grid.PadBounds | app.js:124-128 | each side moves out by the padding in degrees of latitude (or of longitude at the centre latitude), symmetrically; the centre latitude is unchanged |
| Grid.PadBoundsGrows | app.js:124-128 | a padding of 0 gives the same box; a positive padding strictly enlarges every side; the padded box contains everything the box contained |
| Grid.Steps | app.js:133-134 | the number of iterations of a `for (x = lo; x <= hi; x += d)` loop is zero exactly when lo > hi |
| Grid.StepsSpec | app.js:133-134 | row (column) i exists exactly when min + i·step does not pass max, so the count is what the `<=` loop performs |
| Grid.StepsMonotone | app.js:133-134 | a larger step never gives more rows or columns |
| Grid.GridRow | app.js:134-136 | the inner loop pushes exactly the cells of one row of the lattice, west to east |
| Grid.GenerateGrid | app.js:129-139 | the grid is the lattice of the box at this step; it has rows × columns cells, each inside the box with value 0 |
| Grid.LatticeCell | app.js:135 | the cell pushed at outer iteration i and inner iteration j has value 0 and lies north and east of the box's south-west corner |
| Grid.LatticeRow | app.js:134-136 | the cells of one latitude row: as many as the inner loop runs, all at that row's latitude with value 0 |
| Grid.LatticeRows | app.js:133-137 | the rows pushed one after another hold rows × columns cells |
| Grid.Lattice | app.js:129-139 | the cells generateGrid pushes for a box and a step; there are GridSize of them |
| Grid.GridSize | app.js:129-139 | the number of cells is zero exactly when the box is inverted on either axis |
| Grid.LatticeRowsAt | app.js:133-137 | cell (i, j) sits at index i·columns + j of the pushed list |
| Grid.LatticeRowsCells | app.js:133-137 | every pushed cell is the cell (i, j) of some row i and column j |
| Grid.CellInBox | app.js:133-135 | every lattice cell lies inside the box |
| Grid.LatticeShape | app.js:129-139 | the lattice has GridSize cells, all inside the box with value 0 |
| Grid.LatticeOrder | app.js:133-135 | latitude-major order: index i·columns + j holds (minLat + i·dLat, minLng + j·dLng, 0) |
| Grid.LatticeEmpty | app.js:133-134 | a box with min above max on either axis gives an empty grid |
| Grid.GridSizeMonotone | app.js:129-139 | a larger step never gives more cells |
| Normalizer.Values | app.js:142 | the values of the cells, in order |
| Normalizer.Span | app.js:143 | `max - min \|\| 1` is never zero, and positive when min ≤ max |
| Normalizer.Normalized | app.js:140-145 | normalization keeps the length and every cell's position |
| Normalizer.Rescaled | app.js:144 | rescaling keeps the length and every cell's position |
| Normalizer.Normalize | app.js:140-145 | the in-place normalization leaves the array equal to Normalized of its old contents |
| Normalizer.Rescale | app.js:144 | the second pass leaves the array equal to Rescaled of its old contents |
| Normalizer.Extrema | app.js:141-142 | the first pass finds the minimum and the maximum of the values of a non-empty grid |
| Normalizer.ScanStep | app.js:142 | one step of the scan updates the running minimum and maximum exactly when the new value is below or above them |
| Normalizer.NormalizedAt | app.js:143-144 | unfolding of Normalized at one cell: its new value is (value − min) / span; a proof helper for the properties below |
| Normalizer.NormalizedInUnitRange | app.js:140-145 | every normalized value lies in [0, 1] |
| Normalizer.NormalizedEnds | app.js:143-144 | the minimum maps to 0, and the maximum maps to 1 when it exceeds the minimum |
| Normalizer.NormalizedAttainsEnds | app.js:140-145 | some cell of a non-empty grid gets 0, and some cell gets 1 when the values are not all equal |
| Normalizer.NormalizedFlat | app.js:143 | all values become 0 exactly when all values were equal |
| Normalizer.NormalizedKeepsOrder | app.js:144 | normalization preserves the order of any two values in both directions |
| Normalizer.NormalizedUniqueMax | app.js:140-145 | a cell whose raw value is strictly above every other's is the only one that normalizes to 1: it reaches 1 when there is another cell, and every other cell stays below 1 |
| Normalizer.NormalizedDoubleInvariant | app.js:140-145 | doubling every value does not change the normalized grid |
| Normalizer.ValuesWithin | app.js:142 | every value lies between the minimum and the maximum |
| Scoring.Dist | app.js:112-117 | the haversine distance from a cell to a point is non-negative |
| Scoring.Sq | app.js:166 | d·d of a distance is non-negative and zero only for distance zero |
| Scoring.SqMonotone | app.js:166 | a longer distance never has a smaller square |
| Scoring.TwoSigmaSquared | app.js:161 | 2·σ·σ is positive for a positive bandwidth |
| Scoring.RossmoTerm | app.js:152-154 | one point's Rossmo contribution (the buffer-zone term inside B, plus d^−f outside) is positive |
| Scoring.Kernel | app.js:165-166 | exp(−d²/2σ²) lies in (0, 1] and is 1 at distance zero |
| Scoring.KernelDecreasing | app.js:166 | the kernel never grows with distance |
| Scoring.KernelStrictlyDecreasing | app.js:166 | the kernel strictly falls as the distance grows |
| Scoring.Term | app.js:152-154 | the per-point contribution of an additive model (Rossmo or KDE) is positive |
| Scoring.Terms | app.js:151-155 | the contributions of the points, one per point and in order |
| Scoring.Distances | app.js:188 | the distances from a cell to the points, one per point, each non-negative |
| Scoring.Centre | app.js:173-174 | the mean centre lies in the bounding box of the points |
| Scoring.CentreDistances | app.js:175 | the distances of the points from the mean centre, one per point, each non-negative |
| Scoring.Squares | app.js:176 | the squares of the distances, one per distance |
| Scoring.Rms | app.js:176 | the root-mean-square distance from the centre is non-negative |
| Scoring.Spread | app.js:176-177 | the mean-centre bandwidth is positive |
| Scoring.JourneyValue | app.js:189 | exp(−λ·Σd) is positive, and 1 when the total distance is 0 |
| Scoring.RawScore | app.js:150-189 | the raw score a runner writes into a cell is non-negative; the mean-centre and journey scores are positive, and the mean-centre score is at most 1 |
| Scoring.Scored | app.js:149-157 | the scoring loop keeps the length and every cell's position |
| Scoring.ScoredAt | app.js:156 | unfolding of Scored at one cell: cell i holds the raw score of its own position; a proof helper |
| Scoring.ScoredFrom | app.js:149-157 | unfolding of Scored read backwards: any grid whose every cell holds the raw score of its position is the scored grid; closes the loop proofs |
| Scoring.TermsAppend | app.js:151-155 | the contributions of two lists of points, concatenated, are the contributions of their concatenation |
| Scoring.AdditiveSplit | app.js:149-156 | the Rossmo and KDE scores are sums over the points: the score for two lists together is the sum of their scores |
| Scoring.DuplicatedPointsDoubleScore | app.js:149-156 | listing every point twice doubles the Rossmo and KDE raw scores |
| Scoring.DuplicatedPointsSameSurface | app.js:148-171 | listing every point twice leaves the normalized Rossmo and KDE surfaces unchanged |
| Scoring.AdditiveScoreSign | app.js:149-156 | the Rossmo and KDE scores are positive exactly when there is a point, and 0 with no points |
| Scoring.KdeBounded | app.js:163-168 | the kernel density lies in (0, n] for n points |
| Scoring.KdeSinglePointPeak | app.js:163-168 | with one point, the density is 1 at the point and no higher anywhere |
| Scoring.KdeDominance | app.js:163-168 | for any number of points, a cell at least as far as another from every point has no higher density, and a strictly lower one when it is strictly farther from some point |
| Scoring.CentreOfSinglePoint | app.js:173-174 | the mean centre of one point is that point |
| Scoring.RmsZeroIff | app.js:176 | the RMS distance is zero exactly when every point sits on the centre |
| Scoring.SquaresZeroIff | app.js:176 | all squares are zero exactly when all distances are zero |
| Scoring.SpreadFallback | app.js:176-177 | unfolding of Spread: the bandwidth is (RMS, or 0.5 km when the RMS is 0) × max(0.1, scale); with it, for one point the fallback 0.5 × max(0.1, scale) is always taken |
| Scoring.MeanCenterPeak | app.js:179-182 | the mean-centre score lies in (0, 1] and is 1 at the centre |
| Scoring.MeanCenterDecreasing | app.js:179-182 | a cell farther from the centre never scores higher |
| Scoring.MeanCenterStrictlyDecreasing | app.js:179-182 | a cell strictly farther from the mean centre scores strictly less, so the surface is a single peak with no plateau |
| Scoring.MeanCenterUniquePeak | app.js:172-183 | after normalization, a cell strictly nearer the mean centre than every other cell is the only one that scores 1 (when the grid has another cell); all others lie below 1 |
| Scoring.JourneyInUnitRange | app.js:189 | exp(−λ·Σd) lies in (0, 1] for λ ≥ 0 and is 1 at total distance 0 |
| Scoring.JourneyMonotoneInLambda | app.js:189 | a larger λ never raises the journey score |
| Scoring.JourneyMonotoneInDistance | app.js:189 | a larger total distance never raises the journey score |
| Scoring.JourneyScoreRange | app.js:185-190 | every raw journey score lies in (0, 1] |
| Algorithms.RossmoCell | app.js:150-155 | the inner loop returns the Rossmo score of the cell: the sum of the points' terms |
| Algorithms.ScoreRossmo | app.js:149-157 | the cell loop leaves every cell at its position, holding its Rossmo score |
| Algorithms.RunRossmo | app.js:148-159 | runRossmo leaves the normalized Rossmo surface of the grid it was given |
| Algorithms.KdeCell | app.js:163-167 | the inner loop returns the kernel density at the cell |
| Algorithms.ScoreKde | app.js:161-169 | the cell loop, with 2σ² computed once, leaves every cell holding its density |
| Algorithms.RunKde | app.js:160-171 | runKDE leaves the normalized density surface of the grid it was given |
| Algorithms.MeanCenterScore | app.js:180-181 | unfolding of RawScore for the mean centre, with the centre and 2σ² computed once outside the loop; a proof helper for ScoreMeanCenter |
| Algorithms.ScoreMeanCenter | app.js:173-182 | computing the centre and bandwidth once and then looping over the cells leaves every cell holding its mean-centre score |
| Algorithms.RunMeanCenter | app.js:172-184 | runMeanCenter leaves the normalized mean-centre surface of the grid it was given |
| Algorithms.TotalDistance | app.js:187-188 | the inner loop returns the total distance from the cell to the points |
| Algorithms.JourneyScore | app.js:189 | unfolding of RawScore for the journey model in terms of the loop's total distance; a proof helper for ScoreJourney |
| Algorithms.ScoreJourney | app.js:186-190 | the cell loop leaves every cell holding its journey score |
| Algorithms.RunJourney | app.js:185-192 | runJourney leaves the normalized journey surface of the grid it was given |
| Analysis.OrDefault | app.js:201 | `x \|\| d` gives d for NaN and 0, and x otherwise |
| Analysis.Floored | app.js:213-216 | `max(floor, x \|\| d)` is at least the floor, equals the floor or the defaulted value, and is the defaulted value when that is above the floor |
| Analysis.StepFrom | app.js:201 | the grid step is at least 50 m |
| Analysis.StepChoice | app.js:201 | a step of at least 50 is kept, a smaller non-zero step becomes 50, and NaN or 0 becomes 300 |
| Analysis.ChosenModel | app.js:212-217 | there is no algorithm exactly when the selector holds none of the four cases; otherwise its parameters are valid (B > 0, σ > 0), and a journey run's decay rate λ is at least 0.05 |
| Analysis.ParameterFloors | app.js:213-216 | B ≥ 0.05, f ≥ 0.5, g ≥ 0.5, σ ≥ 0.05, scale ≥ 0.1, λ ≥ 0.05, and the defaults 1.0, 1.2, 1.8, 1.2, 1.0, 0.7 for NaN or 0 |
| Analysis.Surface | app.js:212-217 | the switch keeps the grid's length and every cell's position |
| Analysis.CoarseningFactor | app.js:207-208 | ceil(sqrt(cells / 12000)) is at least 2 when there are more than 12000 cells |
| Analysis.FinalStep | app.js:204-209 | the step the final grid is built with is positive |
| Analysis.StepForCount | app.js:204-209 | for a first grid of at most 12000 cells the step is kept; for more it is at least doubled |
| Analysis.CoarseningStep | app.js:204-209 | a grid of at most 12000 cells keeps its step; a larger one is rebuilt at least twice as coarse |
| Analysis.CoarseningShrinks | app.js:204-209 | the rebuilt grid never has more cells than the first |
| Analysis.PaddedBox | app.js:200-202 | for points whose box is not centred on a pole (a point itself may be on one), the padded box contains every point and its centre latitude stays strictly between the poles |
| Analysis.PolePointAccepted | app.js:83 | a point on the north pole with one off it gives a box centred at 66.85°, so such runs are inside the model |
| Analysis.BuildGrid | app.js:204-209 | the grid is generated once, and once more at step × factor only when it exceeds 12000 cells; the result is the lattice at the final step |
| Analysis.RunSelected | app.js:212-217 | the switch leaves the normalized surface of the chosen algorithm with its floored parameters, or the grid unchanged for an unlisted value |
| Analysis.ScoreGrid | app.js:211-217 | scoring a grid returns the surface of the chosen algorithm |
| Analysis.SurfaceInBox | app.js:202-217 | every cell of the final surface lies in the padded box with a value in [0, 1] |
| Analysis.RunAnalysis | app.js:197-217 | with no points nothing is computed; otherwise (for a box not centred on a pole) the result is the padded box, the final step and the chosen algorithm's surface over the lattice at that step |

## Left out

- The user interface is not modelled: the Leaflet map, markers, the heat layer, `fitBounds`, the KPI text, the built-in dataset and presets, the coordinate field, and `clearOverlay`. These are I/O and have no bearing on the scores.
- The timing with `performance.now()` is not modelled, because it is a clock.
- The transcendental functions are parameters constrained by `GeoMath.Lawful`, not computed. Their values, and the Earth radius 6371 km inside the haversine formula (app.js:110-117), are not part of this model.
- Scoring.Dist: the haversine formula calls `Math.asin` without clamping its argument to [0, 1]. A rounding error above 1 would give NaN; with exact reals this cannot happen, so the model does not show it.
- IEEE-754 floating point is not modelled: rounding, overflow to Infinity, underflow of `exp` to 0, and NaN in arithmetic. In particular, `lat += dLat` in the grid loops accumulates rounding error, while the model uses the exact lattice `min + i·step`.
- Analysis.OrDefault: a form field that is not a number is `None`. Parsing the text of the field is not modelled.
- Analysis.RunAnalysis requires, when there are points, that the centre latitude of their box lies strictly between the poles. Points may sit on a pole, as the coordinate field admits latitude ±90 (app.js:83); only a box centred exactly on a pole is excluded, because there `metersToDegLng` divides by cos 90°, which is 0 in exact reals.
- Grid.BoundsFromPoints requires at least one point. The source calls it after the empty-points guard of runAnalysis (app.js:197-200), and in loadPoints (app.js:269) on the built-in datasets of app.js:244-262, which are never empty; on an empty list Math.min and Math.max would give ±Infinity.
- Analysis.ChosenModel: the selector value is one of four algorithms or `Unlisted`; for `Unlisted` the switch runs no case, and the model leaves the grid unscored, as the source does.
- Algorithms.RunRossmo requires B > 0, which the runner guarantees through its floor of 0.05. With B = 0, a cell lying on a point takes the `d <= B_km` branch and computes 0^g / 0^g, which is NaN. With B < 0, that branch is never taken, so a cell lying on a point evaluates d^−f at d = 0, and the second term raises the negative base B (and d + B, which may be negative or 0) to the power g.
- Scoring.DuplicatedPointsDoubleScore covers listing every point exactly twice, not duplicating an arbitrary subset.
- Scoring.Kernel: the square d·d and the product 2·σ·σ go through `GeoMath.Mul`. The journey exponent `-lambda * sumD` is written `-(rate * sumD)`, which is the same real number; the model calls λ `rate`.
- Algorithms.RossmoCell, Algorithms.KdeCell and Algorithms.TotalDistance are separate methods for the inner loops the source writes inline.
- Analysis.CoarseningShrinks shows that coarsening never adds cells, not that the final grid holds at most 12000 cells. Because of the `<=` loop bounds and the rounding of the factor, the source does not guarantee that either.
- Analysis.RunAnalysis states its result field by field (box, step, cells). The heat layer built from the cells afterwards is not modelled.
