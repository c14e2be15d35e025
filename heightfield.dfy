/** The height grid and the two in-place relaxation passes run over it
    (erosion and smoothing), stated as pure functions on snapshots.

    A grid is indexed `g[x][y]`, `x` being the first array index. A pass visits
    the interior cells in row-major order (x outer, y inner) and rewrites each
    one from the grid AS IT STANDS at that moment, so a cell sees the new values
    of the cells visited before it. `RowPrefix` and `RowsPrefix` are the states
    the nested loops go through; `Pass` is the state after both loops. */
module Heightfield {

  type Grid = seq<seq<real>>

  /** `g` is an `n` by `n` grid. */
  predicate IsSquare(g: Grid, n: int) {
    |g| == n && forall i :: 0 <= i < n ==> |g[i]| == n
  }

  /** Cell (i, j) is visited by a pass over an `n` by `n` grid. */
  predicate Interior(n: int, i: int, j: int) {
    1 <= i < n - 1 && 1 <= j < n - 1
  }

  /** Every cell of `g` lies in [lo, hi]. */
  predicate Within(g: Grid, lo: real, hi: real) {
    forall i, j :: 0 <= i < |g| && 0 <= j < |g[i]| ==> lo <= g[i][j] <= hi
  }

  /** Mathf.Clamp01. */
  function Clamp01(v: real): (r: real)
    ensures 0.0 <= r <= 1.0
    ensures 0.0 <= v <= 1.0 ==> r == v
    ensures v < 0.0 ==> r == 0.0
    ensures v > 1.0 ==> r == 1.0
  {
    if v < 0.0 then 0.0 else if v > 1.0 then 1.0 else v
  }

  /** Mathf.Lerp, whose interpolation parameter is clamped to [0, 1]. */
  function Lerp(a: real, b: real, t: real): real {
    a + (b - a) * Clamp01(t)
  }

  function Min(a: real, b: real): real { if a <= b then a else b }
  function Max(a: real, b: real): real { if a <= b then b else a }

  /** The 4-neighbour mean, summed in the order the passes use. */
  function Average(xPrev: real, xNext: real, yPrev: real, yNext: real): real {
    (xPrev + xNext + yPrev + yNext) / 4.0
  }

  /** The rule a pass applies to one cell. */
  datatype Filter = Erosion(strength: real) | Smoothing

  /** The new height of a cell whose current height is `h`, given its four
      neighbours as they stand when the cell is visited. Erosion moves the
      height `strength` of the way to the neighbour mean and clamps it to the
      unit range; smoothing moves it half way and does not clamp. */
  function Step(f: Filter, h: real, xPrev: real, xNext: real, yPrev: real, yNext: real): (r: real)
    ensures f.Erosion? ==> 0.0 <= r <= 1.0
    ensures f.Smoothing? ==>
      Min(h, Average(xPrev, xNext, yPrev, yNext)) <= r <= Max(h, Average(xPrev, xNext, yPrev, yNext))
  {
    var average := Average(xPrev, xNext, yPrev, yNext);
    match f
    case Erosion(strength) => Clamp01(h + (average - h) * strength)
    case Smoothing => Lerp(h, average, 0.5)
  }

  /** `g` with cell (i, j) replaced by `v`. */
  function Set(g: Grid, i: int, j: int, v: real): (r: Grid)
    requires 0 <= i < |g| && 0 <= j < |g[i]|
    ensures |r| == |g| && forall k :: 0 <= k < |g| ==> |r[k]| == |g[k]|
    ensures r[i][j] == v
    ensures forall k, l :: 0 <= k < |g| && 0 <= l < |g[k]| && (k != i || l != j) ==> r[k][l] == g[k][l]
  {
    g[i := g[i][j := v]]
  }

  /** Cell (x, y) rewritten by `f` from the grid `g` as it stands. */
  function CellUpdate(f: Filter, g: Grid, x: int, y: int): real
    requires IsSquare(g, |g|) && Interior(|g|, x, y)
  {
    Step(f, g[x][y], g[x - 1][y], g[x + 1][y], g[x][y - 1], g[x][y + 1])
  }

  /** The grid once the inner loop of row `x` has visited cells
      (x, 1) .. (x, y - 1); only those cells differ from `g`
      (`RowPrefixFrame`). */
  function RowPrefix(g: Grid, f: Filter, x: int, y: int): (r: Grid)
    requires IsSquare(g, |g|) && 1 <= x < |g| - 1 && 1 <= y <= |g| - 1
    ensures IsSquare(r, |g|)
    decreases y
  {
    if y == 1 then g
    else
      var p := RowPrefix(g, f, x, y - 1);
      Set(p, x, y - 1, CellUpdate(f, p, x, y - 1))
  }

  /** The grid once the outer loop has finished rows 1 .. x - 1; only the
      interior cells of those rows differ from `g` (`RowsPrefixFrame`). */
  function RowsPrefix(g: Grid, f: Filter, x: int): (r: Grid)
    requires IsSquare(g, |g|) && 1 <= x && (x <= |g| - 1 || x == 1)
    ensures IsSquare(r, |g|)
    decreases x
  {
    if x == 1 then g
    else RowPrefix(RowsPrefix(g, f, x - 1), f, x - 1, |g| - 1)
  }

  /** The inner loop of row x touches only cells (x, 1) .. (x, y - 1). */
  lemma {:induction false} RowPrefixFrame(g: Grid, f: Filter, x: int, y: int, i: int, j: int)
    requires IsSquare(g, |g|) && 1 <= x < |g| - 1 && 1 <= y <= |g| - 1
    requires 0 <= i < |g| && 0 <= j < |g| && !(i == x && 1 <= j < y)
    ensures RowPrefix(g, f, x, y)[i][j] == g[i][j]
    decreases y
  {
    if y > 1 {
      RowPrefixFrame(g, f, x, y - 1, i, j);
    }
  }

  /** The outer loop up to row x touches only the interior of rows 1 .. x - 1. */
  lemma {:induction false} RowsPrefixFrame(g: Grid, f: Filter, x: int, i: int, j: int)
    requires IsSquare(g, |g|) && 1 <= x && (x <= |g| - 1 || x == 1)
    requires 0 <= i < |g| && 0 <= j < |g| && !(1 <= i < x && 1 <= j < |g| - 1)
    ensures RowsPrefix(g, f, x)[i][j] == g[i][j]
    decreases x
  {
    if x > 1 {
      RowsPrefixFrame(g, f, x - 1, i, j);
      RowPrefixFrame(RowsPrefix(g, f, x - 1), f, x - 1, |g| - 1, i, j);
    }
  }

  lemma {:induction false} RowsPrefixKeepsBorder(g: Grid, f: Filter, x: int)
    requires IsSquare(g, |g|) && 1 <= x && (x <= |g| - 1 || x == 1)
    requires x == 1 || x == |g| - 1
    ensures forall i, j :: 0 <= i < |g| && 0 <= j < |g| && !Interior(|g|, i, j) ==> RowsPrefix(g, f, x)[i][j] == g[i][j]
  {
    forall i, j | 0 <= i < |g| && 0 <= j < |g| && !Interior(|g|, i, j)
      ensures RowsPrefix(g, f, x)[i][j] == g[i][j]
    {
      RowsPrefixFrame(g, f, x, i, j);
    }
  }

  /** The outer loop's step: finishing row x is one run of the inner loop. */
  lemma {:induction false} RowsPrefixNext(g: Grid, f: Filter, x: int)
    requires IsSquare(g, |g|) && 1 <= x < |g| - 1
    ensures RowsPrefix(g, f, x + 1) == RowPrefix(RowsPrefix(g, f, x), f, x, |g| - 1)
  {
  }

  /** One complete pass of `f`. A grid smaller than 3 by 3 has no interior
      and is returned as it is; the border of any grid is never rewritten. */
  function Pass(g: Grid, f: Filter): (r: Grid)
    requires IsSquare(g, |g|)
    ensures IsSquare(r, |g|)
    ensures forall i, j :: 0 <= i < |g| && 0 <= j < |g| && !Interior(|g|, i, j) ==> r[i][j] == g[i][j]
    ensures |g| < 3 ==> r == g
  {
    var last := if |g| < 2 then 1 else |g| - 1;
    RowsPrefixKeepsBorder(g, f, last);
    RowsPrefix(g, f, last)
  }

  /** `k` passes of `f` in a row; the border still holds the values of `g`. */
  function Repeat(g: Grid, f: Filter, k: nat): (r: Grid)
    requires IsSquare(g, |g|)
    ensures IsSquare(r, |g|)
    ensures forall i, j :: 0 <= i < |g| && 0 <= j < |g| && !Interior(|g|, i, j) ==> r[i][j] == g[i][j]
    decreases k
  {
    if k == 0 then g else Pass(Repeat(g, f, k - 1), f)
  }

  // ---------------------------------------------------------------------
  // Once the sweep has written a cell, no later step of the pass touches it.

  lemma {:induction false} RowPrefixSettled(g: Grid, f: Filter, x: int, y: int, j: int)
    requires IsSquare(g, |g|) && 1 <= x < |g| - 1 && 1 <= y <= |g| - 1
    requires 1 <= j < y
    ensures RowPrefix(g, f, x, y)[x][j] == RowPrefix(g, f, x, j + 1)[x][j]
    decreases y
  {
    if y > j + 1 {
      RowPrefixSettled(g, f, x, y - 1, j);
    }
  }

  lemma {:induction false} RowsPrefixSettled(g: Grid, f: Filter, x: int, i: int, j: int)
    requires IsSquare(g, |g|) && 1 <= x <= |g| - 1
    requires 1 <= i < x && 1 <= j < |g| - 1
    ensures RowsPrefix(g, f, x)[i][j] == RowsPrefix(g, f, i + 1)[i][j]
    decreases x
  {
    if x > i + 1 {
      RowsPrefixSettled(g, f, x - 1, i, j);
      var a := RowsPrefix(g, f, x - 1);
      assert RowsPrefix(g, f, x) == RowPrefix(a, f, x - 1, |g| - 1);
      RowPrefixFrame(a, f, x - 1, |g| - 1, i, j);
    }
  }

  /** A pass over a grid with at least two rows is the outer loop run to
      its last row. */
  lemma {:induction false} PassAt(g: Grid, f: Filter, i: int, j: int)
    requires IsSquare(g, |g|) && |g| >= 2 && 0 <= i < |g| && 0 <= j < |g|
    ensures Pass(g, f)[i][j] == RowsPrefix(g, f, |g| - 1)[i][j]
  {
  }

  /** The outer loop's step from row x to row x + 1 is row x's inner loop. */
  lemma {:induction false} NextRowAt(g: Grid, f: Filter, x: int, i: int, j: int)
    requires IsSquare(g, |g|) && 1 <= x < |g| - 1 && 0 <= i < |g| && 0 <= j < |g|
    ensures RowsPrefix(g, f, x + 1)[i][j] == RowPrefix(RowsPrefix(g, f, x), f, x, |g| - 1)[i][j]
  {
  }

  /** After a pass, the interior of row x holds what row x's inner loop left. */
  lemma {:induction false} PassRowValue(g: Grid, f: Filter, x: int, j: int)
    requires IsSquare(g, |g|) && Interior(|g|, x, j)
    ensures Pass(g, f)[x][j] == RowPrefix(RowsPrefix(g, f, x), f, x, |g| - 1)[x][j]
  {
    PassAt(g, f, x, j);
    RowsPrefixSettled(g, f, |g| - 1, x, j);
    NextRowAt(g, f, x, x, j);
  }

  /** The inner loop's step at cell (x, y) writes `CellUpdate` there. */
  lemma {:induction false} RowPrefixStepAt(g: Grid, f: Filter, x: int, y: int)
    requires IsSquare(g, |g|) && Interior(|g|, x, y)
    ensures RowPrefix(g, f, x, y + 1)[x][y] == CellUpdate(f, RowPrefix(g, f, x, y), x, y)
  {
  }

  /** Once the inner loop is past cell (x, y - 1), that cell keeps its value
      to the end of the row. */
  lemma {:induction false} RowPreviousSettled(g: Grid, f: Filter, x: int, y: int)
    requires IsSquare(g, |g|) && Interior(|g|, x, y) && y >= 2
    ensures RowPrefix(g, f, x, |g| - 1)[x][y - 1] == RowPrefix(g, f, x, y)[x][y - 1]
  {
    RowPrefixSettled(g, f, x, |g| - 1, y - 1);
  }

  /** The final value of interior cell (x, y) is the one written when the
      inner loop of row x reached it. */
  lemma {:induction false} PassCellIsVisit(g: Grid, f: Filter, x: int, y: int)
    requires IsSquare(g, |g|) && Interior(|g|, x, y)
    ensures Pass(g, f)[x][y] == CellUpdate(f, RowPrefix(RowsPrefix(g, f, x), f, x, y), x, y)
  {
    var a := RowsPrefix(g, f, x);
    PassRowValue(g, f, x, y);
    RowPrefixSettled(a, f, x, |g| - 1, y);
    RowPrefixStepAt(a, f, x, y);
  }

  /** Row x - 1 of the grid the inner loop of row x works on is final. */
  lemma {:induction false} PreviousRowFinal(g: Grid, f: Filter, x: int, y: int)
    requires IsSquare(g, |g|) && Interior(|g|, x, y)
    ensures RowPrefix(RowsPrefix(g, f, x), f, x, y)[x - 1][y] == Pass(g, f)[x - 1][y]
  {
    PassAt(g, f, x - 1, y);
    RowPrefixFrame(RowsPrefix(g, f, x), f, x, y, x - 1, y);
    if x - 1 >= 1 {
      RowsPrefixSettled(g, f, |g| - 1, x - 1, y);
    } else {
      RowsPrefixFrame(g, f, x, x - 1, y);
    }
  }

  /** Cell (x, y - 1) of the grid the inner loop works on is final. */
  lemma {:induction false} PreviousCellFinal(g: Grid, f: Filter, x: int, y: int)
    requires IsSquare(g, |g|) && Interior(|g|, x, y)
    ensures RowPrefix(RowsPrefix(g, f, x), f, x, y)[x][y - 1] == Pass(g, f)[x][y - 1]
  {
    if y >= 2 {
      PassRowValue(g, f, x, y - 1);
      RowPreviousSettled(RowsPrefix(g, f, x), f, x, y);
    } else {
      PassAt(g, f, x, 0);
      RowPrefixFrame(RowsPrefix(g, f, x), f, x, y, x, 0);
      RowsPrefixFrame(g, f, x, x, 0);
    }
  }

  /** The in-place read order of a pass: interior cell (x, y) is rewritten
      from its own previous value, the NEW values of (x - 1, y) and (x, y - 1),
      and the PREVIOUS values of (x + 1, y) and (x, y + 1). */
  lemma {:induction false} PassReadsInPlace(g: Grid, f: Filter, x: int, y: int)
    requires IsSquare(g, |g|) && Interior(|g|, x, y)
    ensures var r := Pass(g, f);
      r[x][y] == Step(f, g[x][y], r[x - 1][y], g[x + 1][y], r[x][y - 1], g[x][y + 1])
  {
    PassCellIsVisit(g, f, x, y);
    PreviousRowFinal(g, f, x, y);
    PreviousCellFinal(g, f, x, y);
    var a := RowsPrefix(g, f, x);
    RowPrefixFrame(a, f, x, y, x, y);
    RowPrefixFrame(a, f, x, y, x + 1, y);
    RowPrefixFrame(a, f, x, y, x, y + 1);
    RowsPrefixFrame(g, f, x, x, y);
    RowsPrefixFrame(g, f, x, x + 1, y);
    RowsPrefixFrame(g, f, x, x, y + 1);
  }

  /** After an erosion pass every interior cell lies in [0, 1]. */
  lemma {:induction false} ErosionPassInUnitRange(g: Grid, strength: real)
    requires IsSquare(g, |g|)
    ensures forall i, j :: Interior(|g|, i, j) ==> 0.0 <= Pass(g, Erosion(strength))[i][j] <= 1.0
  {
    forall i, j | Interior(|g|, i, j)
      ensures 0.0 <= Pass(g, Erosion(strength))[i][j] <= 1.0
    {
      PassReadsInPlace(g, Erosion(strength), i, j);
    }
  }

  // ---------------------------------------------------------------------
  // Smoothing writes convex combinations of heights already in the grid.

  lemma {:induction false} RowPrefixSmoothingWithin(g: Grid, x: int, y: int, lo: real, hi: real)
    requires IsSquare(g, |g|) && 1 <= x < |g| - 1 && 1 <= y <= |g| - 1
    requires Within(g, lo, hi)
    ensures Within(RowPrefix(g, Smoothing, x, y), lo, hi)
    decreases y
  {
    if y > 1 {
      RowPrefixSmoothingWithin(g, x, y - 1, lo, hi);
    }
  }

  lemma {:induction false} RowsPrefixSmoothingWithin(g: Grid, x: int, lo: real, hi: real)
    requires IsSquare(g, |g|) && 1 <= x && (x <= |g| - 1 || x == 1)
    requires Within(g, lo, hi)
    ensures Within(RowsPrefix(g, Smoothing, x), lo, hi)
    decreases x
  {
    if x > 1 {
      RowsPrefixSmoothingWithin(g, x - 1, lo, hi);
      RowPrefixSmoothingWithin(RowsPrefix(g, Smoothing, x - 1), x - 1, |g| - 1, lo, hi);
    }
  }

  /** If every cell lies in [lo, hi] before a smoothing pass, every cell lies
      in [lo, hi] after it. */
  lemma {:induction false} SmoothingPassWithin(g: Grid, lo: real, hi: real)
    requires IsSquare(g, |g|) && Within(g, lo, hi)
    ensures Within(Pass(g, Smoothing), lo, hi)
  {
    RowsPrefixSmoothingWithin(g, if |g| < 2 then 1 else |g| - 1, lo, hi);
  }

  lemma {:induction false} SmoothingRepeatWithin(g: Grid, k: nat, lo: real, hi: real)
    requires IsSquare(g, |g|) && Within(g, lo, hi)
    ensures Within(Repeat(g, Smoothing, k), lo, hi)
    decreases k
  {
    if k > 0 {
      SmoothingRepeatWithin(g, k - 1, lo, hi);
      SmoothingPassWithin(Repeat(g, Smoothing, k - 1), lo, hi);
    }
  }

  /** After at least one erosion pass every interior cell lies in [0, 1],
      while the border keeps its original values (the latter is `Repeat`'s
      own contract). */
  lemma {:induction false} ErosionRepeatInUnitRange(g: Grid, strength: real, k: nat)
    requires IsSquare(g, |g|) && k >= 1
    ensures forall i, j :: Interior(|g|, i, j) ==> 0.0 <= Repeat(g, Erosion(strength), k)[i][j] <= 1.0
  {
    ErosionPassInUnitRange(Repeat(g, Erosion(strength), k - 1), strength);
  }

  /** Any number of passes over a grid with no interior leaves it unchanged. */
  lemma {:induction false} RepeatDegenerate(g: Grid, f: Filter, k: nat)
    requires IsSquare(g, |g|) && |g| < 3
    ensures Repeat(g, f, k) == g
    decreases k
  {
    if k > 0 {
      RepeatDegenerate(g, f, k - 1);
    }
  }
}
