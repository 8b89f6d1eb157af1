/**
 * The grid builder: the bounding box of the incident points, its padding,
 * and the lattice of candidate cells laid over it (app.js, boundsFromPoints,
 * padBounds and generateGrid).
 */
module Grid {
  import opened GeoMath

  /** An incident location, in degrees. */
  datatype Point = Point(lat: real, lng: real)

  /** A latitude/longitude box, in degrees. */
  datatype Bounds = Bounds(minLat: real, maxLat: real, minLng: real, maxLng: real)

  /** A candidate location and its score. */
  datatype Cell = Cell(lat: real, lng: real, value: real)

  function Lats(pts: seq<Point>): (r: seq<real>)
    ensures |r| == |pts| && forall i :: 0 <= i < |pts| ==> r[i] == pts[i].lat
  {
    seq(|pts|, i requires 0 <= i < |pts| => pts[i].lat)
  }

  function Lngs(pts: seq<Point>): (r: seq<real>)
    ensures |r| == |pts| && forall i :: 0 <= i < |pts| ==> r[i] == pts[i].lng
  {
    seq(|pts|, i requires 0 <= i < |pts| => pts[i].lng)
  }

  predicate Contains(b: Bounds, lat: real, lng: real)
  {
    b.minLat <= lat <= b.maxLat && b.minLng <= lng <= b.maxLng
  }

  /** The latitude midway between the box's south and north edges, where
      padBounds and generateGrid measure degrees of longitude. */
  function CenterLat(b: Bounds): (r: real)
    ensures r - b.minLat == b.maxLat - r
    ensures b.minLat <= b.maxLat ==> b.minLat <= r <= b.maxLat
  {
    (b.minLat + b.maxLat) / 2.0
  }

  /** boundsFromPoints: the smallest box holding every point. Each side is
      the coordinate of some point. */
  function BoundsFromPoints(pts: seq<Point>): (b: Bounds)
    requires |pts| > 0
    ensures forall k :: 0 <= k < |pts| ==> Contains(b, pts[k].lat, pts[k].lng)
    ensures exists k :: 0 <= k < |pts| && pts[k].lat == b.minLat
    ensures exists k :: 0 <= k < |pts| && pts[k].lat == b.maxLat
    ensures exists k :: 0 <= k < |pts| && pts[k].lng == b.minLng
    ensures exists k :: 0 <= k < |pts| && pts[k].lng == b.maxLng
  {
    var lats, lngs := Lats(pts), Lngs(pts);
    Bounds(MinOf(lats), MaxOf(lats), MinOf(lngs), MaxOf(lngs))
  }

  /** When every point lies strictly between the poles, so does the centre
      latitude of their box. */
  lemma CenterOfPointsOffPole(pts: seq<Point>)
    requires |pts| > 0
    requires forall k :: 0 <= k < |pts| ==> -90.0 < pts[k].lat < 90.0
    ensures -90.0 < CenterLat(BoundsFromPoints(pts)) < 90.0
  {
    var b := BoundsFromPoints(pts);
    var lo :| 0 <= lo < |pts| && pts[lo].lat == b.minLat;
    var hi :| 0 <= hi < |pts| && pts[hi].lat == b.maxLat;
  }

  /** padBounds: widens the box by padM metres on every side, converting
      metres to degrees of longitude at the box's centre latitude. */
  function PadBounds(t: Analytic, b: Bounds, padM: real): (r: Bounds)
    requires Lawful(t)
    requires -90.0 < CenterLat(b) < 90.0
    ensures b.minLat - r.minLat == r.maxLat - b.maxLat == MetersToDegLat(padM)
    ensures b.minLng - r.minLng == r.maxLng - b.maxLng == MetersToDegLng(t, padM, CenterLat(b))
    ensures CenterLat(r) == CenterLat(b)
  {
    var centerLat := CenterLat(b);
    var dLat, dLng := MetersToDegLat(padM), MetersToDegLng(t, padM, centerLat);
    Bounds(b.minLat - dLat, b.maxLat + dLat, b.minLng - dLng, b.maxLng + dLng)
  }

  /** Padding by zero metres leaves the box as it is; padding by a positive
      distance pushes every side strictly outward. */
  lemma PadBoundsGrows(t: Analytic, b: Bounds, padM: real)
    requires Lawful(t)
    requires -90.0 < CenterLat(b) < 90.0
    requires padM >= 0.0
    ensures padM == 0.0 ==> PadBounds(t, b, padM) == b
    ensures padM > 0.0 ==> var r := PadBounds(t, b, padM);
      r.minLat < b.minLat && b.maxLat < r.maxLat && r.minLng < b.minLng && b.maxLng < r.maxLng
    ensures forall lat, lng :: Contains(b, lat, lng) ==> Contains(PadBounds(t, b, padM), lat, lng)
  {
    var r := PadBounds(t, b, padM);
    if padM == 0.0 {
      assert r.minLat == b.minLat && r.maxLat == b.maxLat;
      assert r.minLng == b.minLng && r.maxLng == b.maxLng;
    }
  }

  /** The number of values `lo, lo + d, lo + 2d, ...` that are at most hi:
      how often the loop `for (x = lo; x <= hi; x += d)` runs. */
  function Steps(lo: real, hi: real, d: real): (r: nat)
    requires d > 0.0
    ensures r == 0 <==> lo > hi
  {
    if lo > hi then 0
    else
      assert (hi - lo) / d >= 0.0 by { QuotientNonNegative(hi - lo, d); }
      ((hi - lo) / d).Floor + 1
  }

  lemma QuotientNonNegative(a: real, d: real)
    requires a >= 0.0 && d > 0.0
    ensures a / d >= 0.0
  {
  }

  /** The i-th value of the loop is still within range exactly when i is
      below the step count. */
  lemma StepsSpec(lo: real, hi: real, d: real, i: nat)
    requires d > 0.0
    ensures i < Steps(lo, hi, d) <==> lo + i as real * d <= hi
  {
    var n := i as real;
    if lo > hi {
      ScaleMonotone(0.0, n, d);
    } else if i < Steps(lo, hi, d) {
      WithinRange(lo, hi, d, n);
    } else {
      BeyondRange(lo, hi, d, n);
    }
  }

  lemma WithinRange(lo: real, hi: real, d: real, n: real)
    requires d > 0.0 && n <= (hi - lo) / d
    ensures lo + n * d <= hi
  {
    var x := (hi - lo) / d;
    assert x * d == hi - lo;
    ScaleMonotone(n, x, d);
  }

  lemma BeyondRange(lo: real, hi: real, d: real, n: real)
    requires d > 0.0 && n > (hi - lo) / d
    ensures lo + n * d > hi
  {
    var x := (hi - lo) / d;
    assert x * d == hi - lo;
    ScaleStrict(x, n, d);
  }

  /** One more step of the loop reaches the next stop. */
  lemma NextStop(lo: real, d: real, i: nat)
    ensures (lo + i as real * d) + d == lo + (i + 1) as real * d
  {
  }

  /** A coarser step never gives more loop iterations. */
  lemma StepsMonotone(lo: real, hi: real, d1: real, d2: real)
    requires 0.0 < d1 <= d2
    ensures Steps(lo, hi, d2) <= Steps(lo, hi, d1)
  {
    if lo <= hi {
      assert (hi - lo) / d2 <= (hi - lo) / d1 by {
        var x1, x2 := (hi - lo) / d1, (hi - lo) / d2;
        assert x1 * d1 == hi - lo && x2 * d2 == hi - lo;
        assert x2 * d1 <= x2 * d2 by { ScaleMonotone(d1, d2, x2); QuotientNonNegative(hi - lo, d2); }
        if x1 < x2 {
          ScaleStrict(x1, x2, d1);
        }
      }
    }
  }

  /** The cell emitted by the i-th outer and j-th inner loop iteration. */
  function LatticeCell(b: Bounds, dLat: real, dLng: real, i: nat, j: nat): (c: Cell)
    ensures c.value == 0.0
    ensures dLat >= 0.0 ==> b.minLat <= c.lat
    ensures dLng >= 0.0 ==> b.minLng <= c.lng
  {
    assert dLat >= 0.0 ==> i as real * dLat >= 0.0 by {
      if dLat >= 0.0 { ScaleMonotone(0.0, i as real, dLat); }
    }
    assert dLng >= 0.0 ==> j as real * dLng >= 0.0 by {
      if dLng >= 0.0 { ScaleMonotone(0.0, j as real, dLng); }
    }
    Cell(b.minLat + i as real * dLat, b.minLng + j as real * dLng, 0.0)
  }

  /** The cells of the i-th latitude row. */
  function LatticeRow(b: Bounds, dLat: real, dLng: real, i: nat, cols: nat): (r: seq<Cell>)
    ensures |r| == cols
    ensures forall j :: 0 <= j < cols ==> r[j].lat == b.minLat + i as real * dLat && r[j].value == 0.0
  {
    seq(cols, j requires 0 <= j < cols => LatticeCell(b, dLat, dLng, i, j))
  }

  /** The first `rows` latitude rows, latitude outer and longitude inner. */
  function LatticeRows(b: Bounds, dLat: real, dLng: real, rows: nat, cols: nat): (r: seq<Cell>)
    ensures |r| == rows * cols
  {
    if rows == 0 then []
    else
      assert (rows - 1) * cols + cols == rows * cols;
      LatticeRows(b, dLat, dLng, rows - 1, cols) + LatticeRow(b, dLat, dLng, rows - 1, cols)
  }

  function LngStep(t: Analytic, b: Bounds, stepM: real): real
    requires Lawful(t)
    requires -90.0 < CenterLat(b) < 90.0
  {
    MetersToDegLng(t, stepM, CenterLat(b))
  }

  function Rows(b: Bounds, stepM: real): nat
    requires stepM > 0.0
  {
    Steps(b.minLat, b.maxLat, MetersToDegLat(stepM))
  }

  function Cols(t: Analytic, b: Bounds, stepM: real): nat
    requires Lawful(t)
    requires -90.0 < CenterLat(b) < 90.0
    requires stepM > 0.0
  {
    Steps(b.minLng, b.maxLng, LngStep(t, b, stepM))
  }

  /** The cells generateGrid emits for a box and a step in metres. */
  function Lattice(t: Analytic, b: Bounds, stepM: real): (r: seq<Cell>)
    requires Lawful(t)
    requires -90.0 < CenterLat(b) < 90.0
    requires stepM > 0.0
    ensures |r| == GridSize(t, b, stepM)
  {
    LatticeRows(b, MetersToDegLat(stepM), LngStep(t, b, stepM), Rows(b, stepM), Cols(t, b, stepM))
  }

  /** The number of cells generateGrid emits: rows times columns. It is
      zero exactly when the box is inverted on either axis. */
  function GridSize(t: Analytic, b: Bounds, stepM: real): (n: nat)
    requires Lawful(t)
    requires -90.0 < CenterLat(b) < 90.0
    requires stepM > 0.0
    ensures n == 0 <==> b.minLat > b.maxLat || b.minLng > b.maxLng
  {
    Rows(b, stepM) * Cols(t, b, stepM)
  }

  /** generateGrid: walks latitude from minLat upward by the step in
      degrees of latitude and, for each latitude, longitude from minLng
      upward by the step in degrees of longitude at the box's centre
      latitude, emitting a zero-valued cell at every stop within the box. */
  method GenerateGrid(t: Analytic, b: Bounds, stepM: real) returns (grid: seq<Cell>)
    requires Lawful(t)
    requires -90.0 < CenterLat(b) < 90.0
    requires stepM > 0.0
    ensures grid == Lattice(t, b, stepM)
    ensures |grid| == GridSize(t, b, stepM)
    ensures forall k :: 0 <= k < |grid| ==> Contains(b, grid[k].lat, grid[k].lng) && grid[k].value == 0.0
  {
    var centerLat := CenterLat(b);
    var dLat, dLng := MetersToDegLat(stepM), MetersToDegLng(t, stepM, centerLat);
    ghost var rows, cols := Rows(b, stepM), Cols(t, b, stepM);
    grid := [];
    var lat := b.minLat;
    ghost var i: nat := 0;
    while lat <= b.maxLat
      invariant lat == b.minLat + i as real * dLat
      invariant i <= rows
      invariant grid == LatticeRows(b, dLat, dLng, i, cols)
      decreases rows - i
    {
      StepsSpec(b.minLat, b.maxLat, dLat, i);
      var row := GridRow(b, dLat, dLng, lat, i);
      grid := grid + row;
      NextStop(b.minLat, dLat, i);
      lat := lat + dLat;
      i := i + 1;
    }
    StepsSpec(b.minLat, b.maxLat, dLat, i);
    LatticeShape(t, b, stepM);
  }

  /** The inner loop of generateGrid: the cells of one latitude row, from
      minLng eastward while the longitude stays within the box. */
  method GridRow(b: Bounds, dLat: real, dLng: real, lat: real, ghost i: nat) returns (row: seq<Cell>)
    requires dLng > 0.0
    requires lat == b.minLat + i as real * dLat
    ensures row == LatticeRow(b, dLat, dLng, i, Steps(b.minLng, b.maxLng, dLng))
  {
    ghost var cols := Steps(b.minLng, b.maxLng, dLng);
    row := [];
    var lng := b.minLng;
    ghost var j: nat := 0;
    while lng <= b.maxLng
      invariant lng == b.minLng + j as real * dLng
      invariant j <= cols
      invariant row == LatticeRow(b, dLat, dLng, i, cols)[..j]
      decreases cols - j
    {
      StepsSpec(b.minLng, b.maxLng, dLng, j);
      assert LatticeRow(b, dLat, dLng, i, cols)[j] == Cell(lat, lng, 0.0);
      assert LatticeRow(b, dLat, dLng, i, cols)[..j + 1]
        == LatticeRow(b, dLat, dLng, i, cols)[..j] + [Cell(lat, lng, 0.0)];
      row := row + [Cell(lat, lng, 0.0)];
      NextStop(b.minLng, dLng, j);
      lng := lng + dLng;
      j := j + 1;
    }
    StepsSpec(b.minLng, b.maxLng, dLng, j);
    assert LatticeRow(b, dLat, dLng, i, cols)[..j] == LatticeRow(b, dLat, dLng, i, cols);
  }

  /** Cell i * cols + j of the lattice is the one of latitude row i and
      longitude column j: latitude-major, longitude-minor order. */
  lemma {:induction false} LatticeRowsAt(b: Bounds, dLat: real, dLng: real, rows: nat, cols: nat, i: nat, j: nat)
    requires i < rows && j < cols
    ensures i * cols + j < |LatticeRows(b, dLat, dLng, rows, cols)|
    ensures LatticeRows(b, dLat, dLng, rows, cols)[i * cols + j] == LatticeCell(b, dLat, dLng, i, j)
  {
    assert i * cols + j < (i + 1) * cols <= rows * cols by { RowIndexBound(i, j, rows, cols); }
    if i < rows - 1 {
      assert (i + 1) * cols <= (rows - 1) * cols by { RowIndexBound(i, j, rows - 1, cols); }
      LatticeRowsAt(b, dLat, dLng, rows - 1, cols, i, j);
    } else {
      assert i * cols == (rows - 1) * cols;
    }
  }

  lemma RowIndexBound(i: nat, j: nat, rows: nat, cols: nat)
    requires i < rows && j < cols
    ensures i * cols + j < (i + 1) * cols <= rows * cols
  {
    assert (i + 1) * cols == i * cols + cols;
    NatScale(i + 1, rows, cols);
  }

  /** Every cell of the first `rows` rows has a row index below `rows` and
      a column index below `cols`, and value 0. */
  lemma {:induction false} LatticeRowsCells(b: Bounds, dLat: real, dLng: real, rows: nat, cols: nat, k: nat)
    requires k < |LatticeRows(b, dLat, dLng, rows, cols)|
    ensures exists i: nat, j: nat :: i < rows && j < cols && LatticeRows(b, dLat, dLng, rows, cols)[k] == LatticeCell(b, dLat, dLng, i, j)
  {
    var prefix := LatticeRows(b, dLat, dLng, rows - 1, cols);
    if k < |prefix| {
      LatticeRowsCells(b, dLat, dLng, rows - 1, cols, k);
    } else {
      var j := k - |prefix|;
      assert LatticeRows(b, dLat, dLng, rows, cols)[k] == LatticeCell(b, dLat, dLng, rows - 1, j);
    }
  }

  /** The lattice of a box and a step has Rows times Cols cells, every one
      inside the box with value 0, in latitude-major order. */
  lemma LatticeShape(t: Analytic, b: Bounds, stepM: real)
    requires Lawful(t)
    requires -90.0 < CenterLat(b) < 90.0
    requires stepM > 0.0
    ensures |Lattice(t, b, stepM)| == GridSize(t, b, stepM)
    ensures forall k :: 0 <= k < |Lattice(t, b, stepM)| ==>
      Contains(b, Lattice(t, b, stepM)[k].lat, Lattice(t, b, stepM)[k].lng) && Lattice(t, b, stepM)[k].value == 0.0
  {
    var dLat, dLng := MetersToDegLat(stepM), LngStep(t, b, stepM);
    var rows, cols := Rows(b, stepM), Cols(t, b, stepM);
    var g := Lattice(t, b, stepM);
    forall k | 0 <= k < |g|
      ensures Contains(b, g[k].lat, g[k].lng) && g[k].value == 0.0
    {
      LatticeRowsCells(b, dLat, dLng, rows, cols, k);
      var i: nat, j: nat :| i < rows && j < cols && g[k] == LatticeCell(b, dLat, dLng, i, j);
      CellInBox(b, dLat, dLng, i, j);
    }
  }

  lemma CellInBox(b: Bounds, dLat: real, dLng: real, i: nat, j: nat)
    requires dLat > 0.0 && dLng > 0.0
    requires i < Steps(b.minLat, b.maxLat, dLat) && j < Steps(b.minLng, b.maxLng, dLng)
    ensures Contains(b, LatticeCell(b, dLat, dLng, i, j).lat, LatticeCell(b, dLat, dLng, i, j).lng)
  {
    StepsSpec(b.minLat, b.maxLat, dLat, i);
    StepsSpec(b.minLng, b.maxLng, dLng, j);
    assert i as real * dLat >= 0.0 by { ScaleMonotone(0.0, i as real, dLat); }
    assert j as real * dLng >= 0.0 by { ScaleMonotone(0.0, j as real, dLng); }
  }

  /** Cells come out latitude-major: the cell at index i * Cols + j has the
      i-th latitude and the j-th longitude. */
  lemma LatticeOrder(t: Analytic, b: Bounds, stepM: real, i: nat, j: nat)
    requires Lawful(t)
    requires -90.0 < CenterLat(b) < 90.0
    requires stepM > 0.0
    requires i < Rows(b, stepM) && j < Cols(t, b, stepM)
    ensures i * Cols(t, b, stepM) + j < |Lattice(t, b, stepM)|
    ensures Lattice(t, b, stepM)[i * Cols(t, b, stepM) + j]
      == Cell(b.minLat + i as real * MetersToDegLat(stepM), b.minLng + j as real * LngStep(t, b, stepM), 0.0)
  {
    LatticeRowsAt(b, MetersToDegLat(stepM), LngStep(t, b, stepM), Rows(b, stepM), Cols(t, b, stepM), i, j);
  }

  /** A box that is empty along either axis yields no cells. */
  lemma LatticeEmpty(t: Analytic, b: Bounds, stepM: real)
    requires Lawful(t)
    requires -90.0 < CenterLat(b) < 90.0
    requires stepM > 0.0
    requires b.minLat > b.maxLat || b.minLng > b.maxLng
    ensures Lattice(t, b, stepM) == []
  {
    LatticeShape(t, b, stepM);
  }

  /** A coarser step never yields more cells over the same box. */
  lemma GridSizeMonotone(t: Analytic, b: Bounds, step1: real, step2: real)
    requires Lawful(t)
    requires -90.0 < CenterLat(b) < 90.0
    requires 0.0 < step1 <= step2
    ensures GridSize(t, b, step2) <= GridSize(t, b, step1)
  {
    StepsMonotone(b.minLat, b.maxLat, MetersToDegLat(step1), MetersToDegLat(step2));
    MetersToDegLngMonotone(t, step1, step2, CenterLat(b));
    StepsMonotone(b.minLng, b.maxLng, LngStep(t, b, step1), LngStep(t, b, step2));
    NatScale(Rows(b, step2), Rows(b, step1), Cols(t, b, step2));
    NatScale(Cols(t, b, step2), Cols(t, b, step1), Rows(b, step1));
  }
}
