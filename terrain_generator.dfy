/** The terrain generator: fills a square height array with fractal noise,
    then erodes and smooths it in place. The terrain object's height array
    is modelled as the `array2<real>` handed from pass to pass (reading the
    heights and writing them back returns the same array). */
module TerrainGenerator {
  import opened Heightfield
  import opened FractalNoise

  /** The generator's public settings. */
  datatype Settings = Settings(
    width: int,
    noise: NoiseParams,
    erosionIterations: int,
    erosionStrength: real)

  /** The values the generator ships with. */
  const DefaultSettings := Settings(256, NoiseParams(20.0, 4, 0.5, 2.0), 5, 0.1)

  /** The smoothing pass is always run this many times. */
  const SmoothIterations: nat := 5

  /** The heightmap resolution chosen for a terrain `width` cells wide: one
      sample more than cells, so neighbouring tiles share their edge. */
  function Resolution(s: Settings): int {
    s.width + 1
  }

  /** The contents of a height array, indexed [x][y]. */
  ghost function Snapshot(h: array2<real>): (g: Grid)
    reads h
    ensures |g| == h.Length0
    ensures forall i :: 0 <= i < h.Length0 ==> |g[i]| == h.Length1
    ensures forall i, j :: 0 <= i < h.Length0 && 0 <= j < h.Length1 ==> g[i][j] == h[i, j]
  {
    seq(h.Length0, i requires 0 <= i < h.Length0 reads h =>
      seq(h.Length1, j requires 0 <= j < h.Length1 reads h => h[i, j]))
  }

  /** A height array that agrees with `g` cell by cell has `g` as its snapshot. */
  lemma {:induction false} SnapshotIs(h: array2<real>, g: Grid)
    requires h.Length0 == h.Length1 && IsSquare(g, h.Length0)
    requires forall i, j :: 0 <= i < h.Length0 && 0 <= j < h.Length1 ==> h[i, j] == g[i][j]
    ensures Snapshot(h) == g
  {
    assert forall i :: 0 <= i < h.Length0 ==> Snapshot(h)[i] == g[i];
  }

  /** The grid of fractal heights the generator starts from. */
  ghost function NoiseGrid(noise: Noise, s: Settings, offset: Vec2, resolution: nat): (g: Grid)
    ensures IsSquare(g, resolution)
  {
    seq(resolution, x requires 0 <= x < resolution =>
      seq(resolution, y => FractalHeight(noise, s.noise, offset, resolution, x, y)))
  }

  /** The octave loop for one cell: amplitude and frequency start at 1 and
      are multiplied by persistence and lacunarity after every octave. */
  method SampleHeight(noise: Noise, p: NoiseParams, offset: Vec2, resolution: int, x: int, y: int)
    returns (noiseHeight: real)
    requires resolution > 0
    ensures noiseHeight == FractalHeight(noise, p, offset, resolution, x, y)
  {
    var amplitude := 1.0;
    var frequency := 1.0;
    noiseHeight := 0.0;
    var i := 0;
    while i < p.octaves
      invariant 0 <= i && (i <= p.octaves || i == 0)
      invariant amplitude == Pow(p.persistence, i) && frequency == Pow(p.lacunarity, i)
      invariant noiseHeight == OctaveSum(noise, p, offset, resolution, x, y, i)
    {
      var xCoord := Coord(x, resolution, p.scale, frequency, offset.x);
      var yCoord := Coord(y, resolution, p.scale, frequency, offset.y);
      var perlinValue := PerlinNoise(noise, xCoord, yCoord);
      noiseHeight := noiseHeight + perlinValue * amplitude;
      amplitude := amplitude * p.persistence;
      frequency := frequency * p.lacunarity;
      i := i + 1;
    }
  }

  /** A fresh `resolution` by `resolution` array whose every cell holds its
      fractal height, all cells sampled with the same offset. */
  method GenerateHeights(noise: Noise, s: Settings, offset: Vec2, resolution: nat)
    returns (heights: array2<real>)
    ensures fresh(heights)
    ensures heights.Length0 == resolution && heights.Length1 == resolution
    ensures Snapshot(heights) == NoiseGrid(noise, s, offset, resolution)
  {
    heights := new real[resolution, resolution];
    var x := 0;
    while x < resolution
      invariant 0 <= x <= resolution
      invariant forall i, j :: 0 <= i < x && 0 <= j < resolution ==>
        heights[i, j] == FractalHeight(noise, s.noise, offset, resolution, i, j)
    {
      var y := 0;
      while y < resolution
        invariant 0 <= y <= resolution
        invariant forall i, j :: 0 <= i < x && 0 <= j < resolution ==>
          heights[i, j] == FractalHeight(noise, s.noise, offset, resolution, i, j)
        invariant forall j :: 0 <= j < y ==>
          heights[x, j] == FractalHeight(noise, s.noise, offset, resolution, x, j)
      {
        var noiseHeight := SampleHeight(noise, s.noise, offset, resolution, x, y);
        heights[x, y] := noiseHeight;
        y := y + 1;
      }
      x := x + 1;
    }
    SnapshotIs(heights, NoiseGrid(noise, s, offset, resolution));
  }

  /** The array holds grid `g` cell for cell. */
  ghost predicate Holds(h: array2<real>, g: Grid)
    reads h
  {
    h.Length0 == h.Length1 && IsSquare(g, h.Length0) &&
    forall i, j :: 0 <= i < h.Length0 && 0 <= j < h.Length1 ==> h[i, j] == g[i][j]
  }

  /** Rewrites one interior cell from its four neighbours as they stand. */
  method UpdateCell(heights: array2<real>, f: Filter, x: int, y: int, ghost g: Grid)
    requires Holds(heights, g) && Interior(heights.Length0, x, y)
    modifies heights
    ensures Holds(heights, Set(g, x, y, CellUpdate(f, g, x, y)))
  {
    heights[x, y] := Step(f, heights[x, y], heights[x - 1, y], heights[x + 1, y], heights[x, y - 1], heights[x, y + 1]);
  }

  /** Row `x` of one sweep: cells 1 .. n-2 in order, each rewritten from
      the array as it stands, so the left neighbour is already new. */
  method SweepRow(heights: array2<real>, f: Filter, x: int, ghost g: Grid)
    requires IsSquare(g, |g|) && 1 <= x < |g| - 1
    requires Holds(heights, RowsPrefix(g, f, x))
    modifies heights
    ensures Holds(heights, RowsPrefix(g, f, x + 1))
  {
    ghost var rowStart := RowsPrefix(g, f, x);
    var resolution := heights.Length0;
    var y := 1;
    while y < resolution - 1
      invariant 1 <= y <= resolution - 1
      invariant Holds(heights, RowPrefix(rowStart, f, x, y))
    {
      UpdateCell(heights, f, x, y, RowPrefix(rowStart, f, x, y));
      y := y + 1;
    }
    RowsPrefixNext(g, f, x);
  }

  /** The outer loop of one sweep: rows 1 .. n-2 in order. */
  method SweepRows(heights: array2<real>, f: Filter, ghost g: Grid)
    requires Holds(heights, g)
    modifies heights
    ensures Holds(heights, Pass(g, f))
  {
    var resolution := heights.Length0;
    var x := 1;
    while x < resolution - 1
      invariant 1 <= x && (x <= resolution - 1 || x == 1)
      invariant Holds(heights, RowsPrefix(g, f, x))
    {
      SweepRow(heights, f, x, g);
      x := x + 1;
    }
  }

  /** One in-place sweep of `f` over the interior. */
  method Sweep(heights: array2<real>, f: Filter)
    requires heights.Length0 == heights.Length1
    modifies heights
    ensures Snapshot(heights) == Pass(old(Snapshot(heights)), f)
  {
    ghost var g := Snapshot(heights);
    SweepRows(heights, f, g);
    SnapshotIs(heights, Pass(g, f));
  }

  /** One erosion pass: every interior cell moves `strength` of the way to
      its neighbour mean and is clamped to [0, 1]. */
  method Erode(heights: array2<real>, strength: real)
    requires heights.Length0 == heights.Length1
    modifies heights
    ensures Snapshot(heights) == Pass(old(Snapshot(heights)), Erosion(strength))
    ensures forall i, j :: Interior(heights.Length0, i, j) ==> 0.0 <= heights[i, j] <= 1.0
  {
    Sweep(heights, Erosion(strength));
    ErosionPassInUnitRange(old(Snapshot(heights)), strength);
  }

  /** One smoothing pass: every interior cell moves half way to its
      neighbour mean. */
  method Smooth(heights: array2<real>)
    requires heights.Length0 == heights.Length1
    modifies heights
    ensures Snapshot(heights) == Pass(old(Snapshot(heights)), Smoothing)
  {
    Sweep(heights, Smoothing);
  }

  function Iterations(n: int): nat {
    if n > 0 then n else 0
  }

  /** `iterations` erosion passes (none when `iterations` is not positive). */
  method ErodeTerrain(heights: array2<real>, iterations: int, strength: real)
    requires heights.Length0 == heights.Length1
    modifies heights
    ensures Snapshot(heights) == Repeat(old(Snapshot(heights)), Erosion(strength), Iterations(iterations))
  {
    ghost var g := Snapshot(heights);
    var i := 0;
    while i < iterations
      invariant 0 <= i && (i <= iterations || i == 0)
      invariant Snapshot(heights) == Repeat(g, Erosion(strength), i)
    {
      Erode(heights, strength);
      i := i + 1;
    }
  }

  /** Five smoothing passes. */
  method SmoothTerrain(heights: array2<real>)
    requires heights.Length0 == heights.Length1
    modifies heights
    ensures Snapshot(heights) == Repeat(old(Snapshot(heights)), Smoothing, SmoothIterations)
  {
    ghost var g := Snapshot(heights);
    var smoothIterations := 5;
    var i := 0;
    while i < smoothIterations
      invariant 0 <= i <= smoothIterations
      invariant Snapshot(heights) == Repeat(g, Smoothing, i)
    {
      Smooth(heights);
      i := i + 1;
    }
  }

  /** The whole post-processing applied to a generated grid. Neither erosion
      nor smoothing rewrites the border, so the border of the finished
      terrain is the raw fractal noise. */
  ghost function PostProcess(g: Grid, s: Settings): (r: Grid)
    requires IsSquare(g, |g|)
    ensures IsSquare(r, |g|)
    ensures forall i, j :: 0 <= i < |g| && 0 <= j < |g| && !Interior(|g|, i, j) ==> r[i][j] == g[i][j]
  {
    Repeat(Repeat(g, Erosion(s.erosionStrength), Iterations(s.erosionIterations)), Smoothing, SmoothIterations)
  }

  /** Generates the terrain's height array: `width + 1` samples a side,
      fractal heights, then erosion, then smoothing. */
  method GenerateTerrain(noise: Noise, s: Settings, offset: Vec2) returns (heights: array2<real>)
    requires Resolution(s) >= 0
    ensures fresh(heights)
    ensures heights.Length0 == Resolution(s) && heights.Length1 == Resolution(s)
    ensures Snapshot(heights) == PostProcess(NoiseGrid(noise, s, offset, Resolution(s)), s)
  {
    var resolution := s.width + 1;
    heights := GenerateHeights(noise, s, offset, resolution);
    ErodeTerrain(heights, s.erosionIterations, s.erosionStrength);
    SmoothTerrain(heights);
  }

  // ---------------------------------------------------------------------
  // Properties of the post-processing.

  /** A grid with no interior comes out of post-processing unchanged. */
  lemma {:induction false} PostProcessDegenerate(g: Grid, s: Settings)
    requires IsSquare(g, |g|) && |g| < 3
    ensures PostProcess(g, s) == g
  {
    var e := Repeat(g, Erosion(s.erosionStrength), Iterations(s.erosionIterations));
    RepeatDegenerate(g, Erosion(s.erosionStrength), Iterations(s.erosionIterations));
    RepeatDegenerate(e, Smoothing, SmoothIterations);
  }

  /** If the raw heights lie in [0, 1], so does the finished terrain: erosion
      clamps the interior to [0, 1] and keeps the border, and smoothing never
      leaves the range the grid already occupies. */
  lemma {:induction false} PostProcessInUnitRange(g: Grid, s: Settings)
    requires IsSquare(g, |g|) && Within(g, 0.0, 1.0)
    ensures Within(PostProcess(g, s), 0.0, 1.0)
  {
    var k := Iterations(s.erosionIterations);
    var e := Repeat(g, Erosion(s.erosionStrength), k);
    if k >= 1 {
      ErosionRepeatInUnitRange(g, s.erosionStrength, k);
      assert forall i, j :: 0 <= i < |e| && 0 <= j < |e[i]| ==> 0.0 <= e[i][j] <= 1.0 by {
        forall i, j | 0 <= i < |e| && 0 <= j < |e[i]|
          ensures 0.0 <= e[i][j] <= 1.0
        {
          if !Interior(|g|, i, j) {
            assert e[i][j] == g[i][j];
          }
        }
      }
    }
    SmoothingRepeatWithin(e, SmoothIterations, 0.0, 1.0);
  }
}
