/**
 * The runner (app.js, runAnalysis): from the placed points and the form
 * values it chooses the grid step, pads the points' box, builds the grid,
 * coarsens it once when it has too many cells, and runs the selected
 * algorithm on it.
 */
module Analysis {
  import opened GeoMath
  import opened Grid
  import opened Normalizer
  import opened Scoring
  import opened Algorithms

  /** A form field read with `Number(...)` or unary `+`: `None` stands for
      NaN, the value of text that is not a number. */
  datatype Option<T> = None | Some(value: T)

  /** The entries of the algorithm selector; `Unlisted` is any other value,
      which the runner's switch does not handle. */
  datatype Algorithm = RossmoAlg | KdeAlg | MeanCenterAlg | JourneyAlg | Unlisted

  /** The form values the runner reads. */
  datatype Form = Form(
    gridStep: Option<real>,
    algorithm: Algorithm,
    rossmoB: Option<real>,
    rossmoF: Option<real>,
    rossmoG: Option<real>,
    kdeSigma: Option<real>,
    mcScale: Option<real>,
    journeyLambda: Option<real>)

  /** What the runner leaves behind: nothing when there are no points,
      otherwise the padded box, the step the grid was built with and the
      scored cells. */
  datatype Outcome = NoPoints | Heat(bounds: Bounds, step: real, cells: seq<Cell>)

  const MIN_STEP_M: real := 50.0
  const DEFAULT_STEP_M: real := 300.0
  const PAD_STEPS: real := 6.0
  const MAX_CELLS: nat := 12000

  /** `x || d` on a number read from the form: NaN and 0 are falsy and give
      the default. */
  function OrDefault(v: Option<real>, d: real): (r: real)
    ensures v.None? ==> r == d
    ensures v.Some? && v.value == 0.0 ==> r == d
    ensures v.Some? && v.value != 0.0 ==> r == v.value
  {
    match v
    case None => d
    case Some(x) => if x == 0.0 then d else x
  }

  /** `Math.max(floor, x || d)`: a form value with its default and floor. */
  function Floored(floor: real, v: Option<real>, d: real): (r: real)
    ensures r >= floor
    ensures r == floor || r == OrDefault(v, d)
    ensures OrDefault(v, d) >= floor ==> r == OrDefault(v, d)
  {
    Max(floor, OrDefault(v, d))
  }

  /** The grid step in metres: at least 50, 300 when the field is empty,
      zero or not a number. */
  function StepFrom(form: Form): (r: real)
    ensures r >= MIN_STEP_M
  {
    Floored(MIN_STEP_M, form.gridStep, DEFAULT_STEP_M)
  }

  /** The algorithm and its parameters as the runner's switch passes them;
      `None` when the selector holds a value the switch does not list. */
  function ChosenModel(form: Form): (r: Option<Model>)
    ensures r.None? <==> form.algorithm == Unlisted
    ensures r.Some? ==> ValidParams(r.value)
    ensures r.Some? && r.value.Journey? ==> r.value.rate >= 0.05
  {
    match form.algorithm
    case RossmoAlg =>
      Some(Rossmo(Floored(0.05, form.rossmoB, 1.0), Floored(0.5, form.rossmoF, 1.2), Floored(0.5, form.rossmoG, 1.8)))
    case KdeAlg => Some(Kde(Floored(0.05, form.kdeSigma, 1.2)))
    case MeanCenterAlg => Some(MeanCenter(Floored(0.1, form.mcScale, 1.0)))
    case JourneyAlg => Some(Journey(Floored(0.05, form.journeyLambda, 0.7)))
    case Unlisted => None
  }

  /** The grid after the switch: scored and normalized by the chosen
      algorithm, or left as generated when no case matches. */
  function Surface(t: Analytic, m: Option<Model>, pts: seq<Point>, cells: seq<Cell>): (r: seq<Cell>)
    requires Lawful(t)
    requires |pts| > 0
    requires m.Some? ==> ValidParams(m.value)
    ensures |r| == |cells|
    ensures forall k :: 0 <= k < |cells| ==> r[k].lat == cells[k].lat && r[k].lng == cells[k].lng
  {
    match m
    case None => cells
    case Some(model) => Normalized(Scored(t, model, pts, cells))
  }

  /** `Math.ceil(Math.sqrt(n / MAX_CELLS))`: the factor the step is
      multiplied by when a grid of n cells is too large. It is at least 2. */
  function CoarseningFactor(t: Analytic, n: nat): (r: int)
    requires Lawful(t)
    requires n > MAX_CELLS
    ensures r >= 2
  {
    SqrtAboveOne(t, n as real / MAX_CELLS as real);
    Ceil(t.sqrt(n as real / MAX_CELLS as real))
  }

  /** The step the final grid is built with: the chosen step, or that step
      times the coarsening factor when the first grid has too many cells. */
  function FinalStep(t: Analytic, b: Bounds, stepM: real): (r: real)
    requires Lawful(t)
    requires -90.0 < CenterLat(b) < 90.0
    requires stepM > 0.0
    ensures r > 0.0
  {
    StepForCount(t, GridSize(t, b, stepM), stepM)
  }

  /** The final step for a first grid of n cells. */
  function StepForCount(t: Analytic, n: nat, stepM: real): (r: real)
    requires Lawful(t)
    requires stepM > 0.0
    ensures n <= MAX_CELLS ==> r == stepM
    ensures n > MAX_CELLS ==> r >= 2.0 * stepM
  {
    if n > MAX_CELLS then
      var c := CoarseningFactor(t, n);
      ScaleUp(stepM, c);
      stepM * c as real
    else stepM
  }

  /** The box the grid covers: the points' box padded by six steps on
      every side. It contains every point. Only the centre of the points'
      box must be off the poles, where the degrees of longitude are
      measured; a point may sit on a pole. */
  function PaddedBox(t: Analytic, pts: seq<Point>, form: Form): (r: Bounds)
    requires Lawful(t)
    requires |pts| > 0
    requires -90.0 < CenterLat(BoundsFromPoints(pts)) < 90.0
    ensures -90.0 < CenterLat(r) < 90.0
    ensures forall k :: 0 <= k < |pts| ==> Contains(r, pts[k].lat, pts[k].lng)
  {
    var base := BoundsFromPoints(pts);
    PadBoundsGrows(t, base, StepFrom(form) * PAD_STEPS);
    PadBounds(t, base, StepFrom(form) * PAD_STEPS)
  }

  /** runAnalysis, from the guard on the number of points to the end of
      the switch that runs the selected algorithm: nothing happens without
      points; otherwise the grid covers the padded box at the final step
      and holds the selected algorithm's normalized scores. */
  method RunAnalysis(t: Analytic, pts: seq<Point>, form: Form) returns (out: Outcome)
    requires Lawful(t)
    requires |pts| > 0 ==> -90.0 < CenterLat(BoundsFromPoints(pts)) < 90.0
    ensures out.NoPoints? <==> |pts| == 0
    ensures out.Heat? ==> out.bounds == PaddedBox(t, pts, form)
    ensures out.Heat? ==> out.step == FinalStep(t, out.bounds, StepFrom(form))
    ensures out.Heat? ==> out.cells == Surface(t, ChosenModel(form), pts, Lattice(t, out.bounds, out.step))
  {
    if |pts| < 1 {
      return NoPoints;
    }
    var bounds := PaddedBox(t, pts, form);
    var grid, used := BuildGrid(t, bounds, StepFrom(form));
    var cells := ScoreGrid(t, grid, pts, form);
    out := Heat(bounds, used, cells);
  }

  /** A point exactly on the north pole is accepted alongside one off it:
      the box of (90, 11) and (43.7, 11.2) is centred at 66.85 degrees. */
  lemma PolePointAccepted()
    ensures CenterLat(BoundsFromPoints([Point(90.0, 11.0), Point(43.7, 11.2)])) == 66.85
  {
    var pts := [Point(90.0, 11.0), Point(43.7, 11.2)];
    assert Lats(pts) == [90.0, 43.7];
  }

  /** The grid as an array, run through the runner's switch. */
  method ScoreGrid(t: Analytic, grid: seq<Cell>, pts: seq<Point>, form: Form) returns (cells: seq<Cell>)
    requires Lawful(t)
    requires |pts| > 0
    ensures cells == Surface(t, ChosenModel(form), pts, grid)
  {
    var a := new Cell[|grid|](k requires 0 <= k < |grid| => grid[k]);
    assert a[..] == grid;
    RunSelected(t, a, pts, form);
    cells := a[..];
  }

  /** The grid of runAnalysis: generated at the chosen step and, when it
      has more than MAX_CELLS cells, generated once more at the coarser
      step. */
  method BuildGrid(t: Analytic, b: Bounds, stepM: real) returns (grid: seq<Cell>, used: real)
    requires Lawful(t)
    requires -90.0 < CenterLat(b) < 90.0
    requires stepM > 0.0
    ensures used == FinalStep(t, b, stepM)
    ensures grid == Lattice(t, b, used)
  {
    grid := GenerateGrid(t, b, stepM);
    used := stepM;
    assert FinalStep(t, b, stepM) == StepForCount(t, |grid|, stepM);
    if |grid| > MAX_CELLS {
      used := stepM * CoarseningFactor(t, |grid|) as real;
      grid := GenerateGrid(t, b, used);
    }
  }

  /** The runner's switch: the selected algorithm, with its parameters
      read from the form, runs on the grid in place. */
  method RunSelected(t: Analytic, grid: array<Cell>, pts: seq<Point>, form: Form)
    requires Lawful(t)
    requires |pts| > 0
    modifies grid
    ensures grid[..] == Surface(t, ChosenModel(form), pts, old(grid[..]))
  {
    match form.algorithm
    case RossmoAlg =>
      RunRossmo(t, grid, pts, Floored(0.05, form.rossmoB, 1.0), Floored(0.5, form.rossmoF, 1.2), Floored(0.5, form.rossmoG, 1.8));
    case KdeAlg =>
      RunKde(t, grid, pts, Floored(0.05, form.kdeSigma, 1.2));
    case MeanCenterAlg =>
      RunMeanCenter(t, grid, pts, Floored(0.1, form.mcScale, 1.0));
    case JourneyAlg =>
      RunJourney(t, grid, pts, Floored(0.05, form.journeyLambda, 0.7));
    case Unlisted =>
  }

  // -------------------------------------------------------------- Lemmas

  /** The grid step: the form's value when it is a number of at least 50
      metres, 50 when it is a smaller non-zero number, and 300 otherwise. */
  lemma StepChoice(form: Form)
    ensures form.gridStep.Some? && form.gridStep.value >= MIN_STEP_M ==> StepFrom(form) == form.gridStep.value
    ensures form.gridStep.Some? && form.gridStep.value != 0.0 && form.gridStep.value < MIN_STEP_M ==>
      StepFrom(form) == MIN_STEP_M
    ensures form.gridStep.None? || form.gridStep.value == 0.0 ==> StepFrom(form) == DEFAULT_STEP_M
  {
  }

  /** The final step against the chosen one: the same step when the first
      grid has at most MAX_CELLS cells, at least twice it otherwise. */
  lemma CoarseningStep(t: Analytic, b: Bounds, stepM: real)
    requires Lawful(t)
    requires -90.0 < CenterLat(b) < 90.0
    requires stepM > 0.0
    ensures GridSize(t, b, stepM) <= MAX_CELLS ==> FinalStep(t, b, stepM) == stepM
    ensures GridSize(t, b, stepM) > MAX_CELLS ==> FinalStep(t, b, stepM) >= 2.0 * stepM
  {
    var n := GridSize(t, b, stepM);
    assert FinalStep(t, b, stepM) == StepForCount(t, n, stepM);
  }

  /** The grid built at the final step has no more cells than the first
      grid. */
  lemma CoarseningShrinks(t: Analytic, b: Bounds, stepM: real)
    requires Lawful(t)
    requires -90.0 < CenterLat(b) < 90.0
    requires stepM > 0.0
    ensures GridSize(t, b, FinalStep(t, b, stepM)) <= GridSize(t, b, stepM)
  {
    CoarseningStep(t, b, stepM);
    GridSizeMonotone(t, b, stepM, FinalStep(t, b, stepM));
  }

  lemma ScaleUp(x: real, c: int)
    requires x > 0.0 && c >= 2
    ensures x * c as real >= 2.0 * x
  {
    assert x * c as real - 2.0 * x == x * (c as real - 2.0);
  }

  /** Every cell of the scored grid lies in the box, with a value in
      [0, 1]. */
  lemma SurfaceInBox(t: Analytic, m: Option<Model>, pts: seq<Point>, b: Bounds, s: real)
    requires Lawful(t)
    requires |pts| > 0
    requires m.Some? ==> ValidParams(m.value)
    requires -90.0 < CenterLat(b) < 90.0
    requires s > 0.0
    ensures var r := Surface(t, m, pts, Lattice(t, b, s));
      forall k :: 0 <= k < |r| ==> Contains(b, r[k].lat, r[k].lng) && 0.0 <= r[k].value <= 1.0
  {
    var lattice := Lattice(t, b, s);
    LatticeShape(t, b, s);
    var r := Surface(t, m, pts, lattice);
    forall k | 0 <= k < |r|
      ensures Contains(b, r[k].lat, r[k].lng) && 0.0 <= r[k].value <= 1.0
    {
      assert Contains(b, lattice[k].lat, lattice[k].lng);
      if m.Some? {
        NormalizedInUnitRange(Scored(t, m.value, pts, lattice), k);
      }
    }
  }

  /** A form number that `||` replaces by its default: NaN or zero. */
  predicate Unset(v: Option<real>)
  {
    v.None? || v.value == 0.0
  }

  /** The floors of the algorithm parameters: whatever the form holds, the
      runner passes B of at least 0.05 km, exponents f and g of at least
      0.5, sigma of at least 0.05 km, a scale of at least 0.1 and a decay
      rate λ of at least 0.05, and the defaults 1.0, 1.2, 1.8, 1.2, 1.0 and 0.7
      for fields that are empty, zero or not a number. */
  lemma ParameterFloors(form: Form)
    ensures var m := ChosenModel(form);
      match m
      case Some(Rossmo(b, f, g)) =>
        b >= 0.05 && f >= 0.5 && g >= 0.5 &&
        (Unset(form.rossmoB) ==> b == 1.0) && (Unset(form.rossmoF) ==> f == 1.2) && (Unset(form.rossmoG) ==> g == 1.8)
      case Some(Kde(sigma)) => sigma >= 0.05 && (Unset(form.kdeSigma) ==> sigma == 1.2)
      case Some(MeanCenter(scale)) => scale >= 0.1 && (Unset(form.mcScale) ==> scale == 1.0)
      case Some(Journey(rate)) => rate >= 0.05 && (Unset(form.journeyLambda) ==> rate == 0.7)
      case None => form.algorithm == Unlisted
  {
  }
}
