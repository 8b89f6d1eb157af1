/**
 * The normalizer (app.js, normalizeValues): rescales the raw cell scores
 * in place so that they span [0, 1].
 */
module Normalizer {
  import opened GeoMath
  import opened Grid

  function Values(cells: seq<Cell>): (vs: seq<real>)
    ensures |vs| == |cells| && forall i :: 0 <= i < |cells| ==> vs[i] == cells[i].value
  {
    seq(|cells|, i requires 0 <= i < |cells| => cells[i].value)
  }

  /** `max - min || 1`: the divisor, replaced by 1 when every value is
      the same. It is never zero, and positive when lo <= hi. */
  function Span(lo: real, hi: real): (r: real)
    ensures r != 0.0
    ensures lo <= hi ==> r > 0.0
  {
    if hi - lo == 0.0 then 1.0 else hi - lo
  }

  /** The cells after normalizeValues: each value becomes
      (value - min) / span; positions are kept. */
  function Normalized(cells: seq<Cell>): (r: seq<Cell>)
    ensures |r| == |cells|
    ensures forall i :: 0 <= i < |cells| ==> r[i].lat == cells[i].lat && r[i].lng == cells[i].lng
  {
    if |cells| == 0 then []
    else
      var vs := Values(cells);
      Rescaled(cells, MinOf(vs), Span(MinOf(vs), MaxOf(vs)))
  }

  /** Every value v replaced by (v - lo) / span, positions kept. */
  function Rescaled(cells: seq<Cell>, lo: real, span: real): (r: seq<Cell>)
    requires span != 0.0
    ensures |r| == |cells|
    ensures forall i :: 0 <= i < |cells| ==> r[i].lat == cells[i].lat && r[i].lng == cells[i].lng
  {
    seq(|cells|, i requires 0 <= i < |cells| => cells[i].(value := (cells[i].value - lo) / span))
  }

  /** normalizeValues: one scan for the minimum and maximum value, then a
      second pass that rewrites every cell's value in place. */
  method Normalize(grid: array<Cell>)
    modifies grid
    ensures grid[..] == Normalized(old(grid[..]))
  {
    var min, max := Extrema(grid);
    var span := Span(min, max);
    Rescale(grid, min, span);
  }

  /** The second pass of normalizeValues: every value v becomes
      (v - lo) / span, in place. */
  method Rescale(grid: array<Cell>, lo: real, span: real)
    requires span != 0.0
    modifies grid
    ensures grid[..] == Rescaled(old(grid[..]), lo, span)
  {
    ghost var cells := grid[..];
    ghost var target := Rescaled(cells, lo, span);
    var i := 0;
    while i < grid.Length
      invariant 0 <= i <= grid.Length
      invariant forall k :: 0 <= k < i ==> grid[k] == target[k]
      invariant forall k :: i <= k < grid.Length ==> grid[k] == cells[k]
    {
      grid[i] := grid[i].(value := (grid[i].value - lo) / span);
      i := i + 1;
    }
    assert grid[..] == target;
  }

  /** The first pass of normalizeValues: the smallest and the largest
      value of a non-empty grid. */
  method Extrema(grid: array<Cell>) returns (min: real, max: real)
    ensures grid.Length > 0 ==> min == MinOf(Values(grid[..])) && max == MaxOf(Values(grid[..]))
  {
    // Before the first cell, min and max stand for +Infinity and -Infinity:
    // the first cell always replaces both.
    min, max := 0.0, 0.0;
    var i := 0;
    while i < grid.Length
      invariant 0 <= i <= grid.Length
      invariant i > 0 ==> min == MinOf(Values(grid[..i])) && max == MaxOf(Values(grid[..i]))
    {
      var v := grid[i].value;
      ScanStep(grid[..], i);
      if i == 0 || v < min {
        min := v;
      }
      if i == 0 || v > max {
        max := v;
      }
      i := i + 1;
    }
    assert grid.Length > 0 ==> grid[..grid.Length] == grid[..];
  }

  /** One step of the scan: the extrema of a longer prefix. */
  lemma ScanStep(cells: seq<Cell>, i: nat)
    requires i < |cells|
    ensures var v, vs := cells[i].value, Values(cells[..i + 1]);
      && MinOf(vs) == (if i == 0 || v < MinOf(Values(cells[..i])) then v else MinOf(Values(cells[..i])))
      && MaxOf(vs) == (if i == 0 || v > MaxOf(Values(cells[..i])) then v else MaxOf(Values(cells[..i])))
  {
    assert Values(cells[..i + 1])[..i] == Values(cells[..i]);
  }

  lemma NormalizedAt(cells: seq<Cell>, k: nat, lo: real, hi: real)
    requires k < |cells|
    requires lo == MinOf(Values(cells)) && hi == MaxOf(Values(cells))
    ensures Normalized(cells)[k] == cells[k].(value := (cells[k].value - lo) / Span(lo, hi))
  {
  }

  lemma UnitQuotient(a: real, s: real)
    requires 0.0 <= a <= s && s > 0.0
    ensures 0.0 <= a / s <= 1.0
  {
    QuotientOrder(0.0, a, s);
    QuotientOrder(a, s, s);
    assert s / s == 1.0;
  }

  lemma QuotientOrder(a: real, b: real, s: real)
    requires s > 0.0
    ensures a <= b <==> a / s <= b / s
  {
    assert b / s - a / s == (b - a) / s;
  }

  /** Every normalized value lies in [0, 1]. */
  lemma NormalizedInUnitRange(cells: seq<Cell>, i: nat)
    requires i < |cells|
    ensures 0.0 <= Normalized(cells)[i].value <= 1.0
  {
    var vs := Values(cells);
    var lo, hi := MinOf(vs), MaxOf(vs);
    var v := cells[i].value;
    assert lo <= v <= hi;
    if hi - lo == 0.0 {
      assert v - lo == 0.0;
    } else {
      UnitQuotient(v - lo, hi - lo);
    }
  }

  /** A cell that held the minimum ends at 0; when the values are not all
      equal, a cell that held the maximum ends at 1. */
  lemma NormalizedEnds(cells: seq<Cell>, i: nat)
    requires i < |cells|
    ensures cells[i].value == MinOf(Values(cells)) ==> Normalized(cells)[i].value == 0.0
    ensures MaxOf(Values(cells)) > MinOf(Values(cells)) && cells[i].value == MaxOf(Values(cells))
      ==> Normalized(cells)[i].value == 1.0
  {
    var vs := Values(cells);
    var lo, hi := MinOf(vs), MaxOf(vs);
    NormalizedAt(cells, i, lo, hi);
    RescaleEnds(cells[i].value, lo, hi);
  }

  lemma RescaleEnds(v: real, lo: real, hi: real)
    ensures v == lo ==> (v - lo) / Span(lo, hi) == 0.0
    ensures hi > lo && v == hi ==> (v - lo) / Span(lo, hi) == 1.0
  {
    if hi > lo && v == hi {
      assert (hi - lo) / (hi - lo) == 1.0;
    }
  }

  /** Some cell ends at 0 and, unless every value was the same, some cell
      ends at 1. */
  lemma NormalizedAttainsEnds(cells: seq<Cell>)
    requires |cells| > 0
    ensures exists i :: 0 <= i < |cells| && Normalized(cells)[i].value == 0.0
    ensures MaxOf(Values(cells)) > MinOf(Values(cells)) ==>
      exists j :: 0 <= j < |cells| && Normalized(cells)[j].value == 1.0
  {
    var vs := Values(cells);
    var i :| 0 <= i < |vs| && vs[i] == MinOf(vs);
    NormalizedEnds(cells, i);
    var j :| 0 <= j < |vs| && vs[j] == MaxOf(vs);
    NormalizedEnds(cells, j);
  }

  /** Every value ends at 0 exactly when every raw value was the same. */
  lemma NormalizedFlat(cells: seq<Cell>)
    requires |cells| > 0
    ensures (forall i :: 0 <= i < |cells| ==> Normalized(cells)[i].value == 0.0)
      <==> MaxOf(Values(cells)) == MinOf(Values(cells))
  {
    var vs := Values(cells);
    if MaxOf(vs) > MinOf(vs) {
      var j :| 0 <= j < |vs| && vs[j] == MaxOf(vs);
      NormalizedEnds(cells, j);
    }
  }

  /** Normalizing keeps the order of any two cells' values. */
  lemma NormalizedKeepsOrder(cells: seq<Cell>, i: nat, j: nat)
    requires i < |cells| && j < |cells|
    ensures cells[i].value <= cells[j].value <==> Normalized(cells)[i].value <= Normalized(cells)[j].value
  {
    var vs := Values(cells);
    var lo, hi := MinOf(vs), MaxOf(vs);
    QuotientOrder(cells[i].value - lo, cells[j].value - lo, Span(lo, hi));
  }

  /** A cell whose raw value is strictly above every other cell's is the
      only one that normalizes to 1: it reaches 1 whenever there is another
      cell, and every other cell stays below 1. */
  lemma NormalizedUniqueMax(cells: seq<Cell>, k: nat)
    requires k < |cells|
    requires forall j :: 0 <= j < |cells| && j != k ==> cells[j].value < cells[k].value
    ensures |cells| > 1 ==> Normalized(cells)[k].value == 1.0
    ensures forall j :: 0 <= j < |cells| && j != k ==> Normalized(cells)[j].value < 1.0
  {
    NormalizedInUnitRange(cells, k);
    forall j | 0 <= j < |cells| && j != k
      ensures Normalized(cells)[j].value < 1.0
    {
      NormalizedKeepsOrder(cells, k, j);
    }
    if |cells| > 1 {
      var vs := Values(cells);
      var top :| 0 <= top < |vs| && vs[top] == MaxOf(vs);
      assert top == k;
      var other := if k == 0 then 1 else 0;
      assert MinOf(vs) <= vs[other] < vs[k];
      NormalizedEnds(cells, k);
    }
  }

  /** Doubling every raw value does not change the normalized surface. */
  lemma NormalizedDoubleInvariant(cells: seq<Cell>, doubled: seq<Cell>)
    requires |doubled| == |cells|
    requires forall i :: 0 <= i < |cells| ==> doubled[i] == cells[i].(value := 2.0 * cells[i].value)
    ensures Normalized(doubled) == Normalized(cells)
  {
    if |cells| > 0 {
      var xs, ys := Values(cells), Values(doubled);
      assert forall i :: 0 <= i < |xs| ==> ys[i] == 2.0 * xs[i];
      ExtremaDouble(xs, ys);
      var lo, hi := MinOf(xs), MaxOf(xs);
      ValuesWithin(cells);
      RescaledDouble(cells, doubled, lo, hi, MinOf(ys), MaxOf(ys));
      NormalizedUnfold(cells);
      NormalizedUnfold(doubled);
    }
  }

  /** A non-empty surface is rescaled by its own minimum and span. */
  lemma NormalizedUnfold(cells: seq<Cell>)
    requires |cells| > 0
    ensures Normalized(cells) == Rescaled(cells, MinOf(Values(cells)), Span(MinOf(Values(cells)), MaxOf(Values(cells))))
  {
  }

  /** Every value lies between the minimum and the maximum. */
  lemma ValuesWithin(cells: seq<Cell>)
    requires |cells| > 0
    ensures forall i :: 0 <= i < |cells| ==> MinOf(Values(cells)) <= cells[i].value <= MaxOf(Values(cells))
  {
    var xs := Values(cells);
    forall i | 0 <= i < |cells|
      ensures MinOf(xs) <= cells[i].value <= MaxOf(xs)
    {
      assert xs[i] == cells[i].value;
    }
  }

  /** Rescaling doubled values by doubled bounds gives the same cells. */
  lemma RescaledDouble(cells: seq<Cell>, doubled: seq<Cell>, lo: real, hi: real, lo2: real, hi2: real)
    requires |doubled| == |cells|
    requires forall i :: 0 <= i < |cells| ==> doubled[i] == cells[i].(value := 2.0 * cells[i].value)
    requires forall i :: 0 <= i < |cells| ==> lo <= cells[i].value <= hi
    requires lo2 == 2.0 * lo && hi2 == 2.0 * hi
    ensures Rescaled(doubled, lo2, Span(lo2, hi2)) == Rescaled(cells, lo, Span(lo, hi))
  {
    var r1, r2 := Rescaled(cells, lo, Span(lo, hi)), Rescaled(doubled, lo2, Span(lo2, hi2));
    forall i | 0 <= i < |cells|
      ensures r2[i] == r1[i]
    {
      RescaleFormulaDouble(cells[i].value, doubled[i].value, lo, hi, lo2, hi2);
    }
  }

  /** The per-cell formula is unchanged when value, minimum and maximum are
      all doubled. */
  lemma RescaleFormulaDouble(v: real, w: real, lo: real, hi: real, lo2: real, hi2: real)
    requires lo <= v <= hi
    requires w == 2.0 * v && lo2 == 2.0 * lo && hi2 == 2.0 * hi
    ensures (w - lo2) / Span(lo2, hi2) == (v - lo) / Span(lo, hi)
  {
    if hi - lo != 0.0 {
      var a, s := v - lo, hi - lo;
      assert (2.0 * a) / (2.0 * s) == a / s;
    }
  }
}
