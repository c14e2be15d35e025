/** The fractal (multi-octave) noise sum that seeds the height grid. The
    noise function itself (Mathf.PerlinNoise in Unity) is a parameter. */
module FractalNoise {
  import opened Arithmetic

  /** A 2-D noise sampler. */
  type Noise = (real, real) -> real

  /** The sampler's value at (u, v); Mathf.PerlinNoise(u, v) in the generator. */
  function PerlinNoise(noise: Noise, u: real, v: real): real {
    noise(u, v)
  }

  datatype Vec2 = Vec2(x: real, y: real)

  /** The generator's noise settings. */
  datatype NoiseParams = NoiseParams(scale: real, octaves: int, persistence: real, lacunarity: real)

  /** `b` multiplied into 1.0 `i` times, in the order the octave loop does it. */
  function Pow(b: real, i: nat): real {
    if i == 0 then 1.0 else Pow(b, i - 1) * b
  }

  /** The octave loop runs `octaves` times; a non-positive count runs it never. */
  function OctaveCount(p: NoiseParams): nat {
    if p.octaves > 0 then p.octaves else 0
  }

  /** One noise coordinate: cell index `c` as a fraction of the grid,
      scaled by `scale * frequency`, shifted by `offset`. */
  function Coord(c: int, resolution: int, scale: real, frequency: real, offset: real): real
    requires resolution > 0
  {
    c as real / resolution as real * scale * frequency + offset
  }

  /** The noise sample of octave i at cell (x, y), at frequency `lacunarity^i`. */
  function Sample(noise: Noise, p: NoiseParams, offset: Vec2, resolution: int, x: int, y: int, i: nat): real
    requires resolution > 0
  {
    var frequency := Pow(p.lacunarity, i);
    PerlinNoise(noise, Coord(x, resolution, p.scale, frequency, offset.x), Coord(y, resolution, p.scale, frequency, offset.y))
  }

  /** Octave i's contribution to cell (x, y): its sample weighted by the
      amplitude `persistence^i`. */
  function OctaveTerm(noise: Noise, p: NoiseParams, offset: Vec2, resolution: int, x: int, y: int, i: nat): real
    requires resolution > 0
  {
    Sample(noise, p, offset, resolution, x, y, i) * Pow(p.persistence, i)
  }

  /** The sum of the first `count` octave terms. */
  function OctaveSum(noise: Noise, p: NoiseParams, offset: Vec2, resolution: int, x: int, y: int, count: nat): real
    requires resolution > 0
    decreases count
  {
    if count == 0 then 0.0
    else OctaveSum(noise, p, offset, resolution, x, y, count - 1) + OctaveTerm(noise, p, offset, resolution, x, y, count - 1)
  }

  /** The height of cell (x, y) before erosion: all octaves summed, with no
      normalisation. */
  function FractalHeight(noise: Noise, p: NoiseParams, offset: Vec2, resolution: int, x: int, y: int): (h: real)
    requires resolution > 0
    ensures p.octaves <= 0 ==> h == 0.0
  {
    OctaveSum(noise, p, offset, resolution, x, y, OctaveCount(p))
  }

  /** 1 + r + ... + r^(n-1). */
  function GeometricSum(r: real, n: nat): real {
    if n == 0 then 0.0 else GeometricSum(r, n - 1) + Pow(r, n - 1)
  }

  /** A value in [0, 1] weighted by a non-negative amplitude lies between 0
      and the amplitude. */
  lemma WeightedSampleBounds(v: real, amplitude: real)
    requires 0.0 <= v <= 1.0 && amplitude >= 0.0
    ensures 0.0 <= v * amplitude <= amplitude
  {
    RealScaleLe(0.0, v, amplitude);
    RealScaleLe(v, 1.0, amplitude);
  }

  lemma {:induction false} PowNonNegative(b: real, i: nat)
    requires b >= 0.0
    ensures Pow(b, i) >= 0.0
  {
    if i > 0 {
      PowNonNegative(b, i - 1);
      assert Pow(b, i) == Pow(b, i - 1) * b;
    }
  }

  /** The closed form of the amplitude total. */
  lemma {:induction false} GeometricSumClosedForm(r: real, n: nat)
    ensures (1.0 - r) * GeometricSum(r, n) == 1.0 - Pow(r, n)
  {
    if n > 0 {
      GeometricSumClosedForm(r, n - 1);
      var sum, q := GeometricSum(r, n - 1), Pow(r, n - 1);
      assert GeometricSum(r, n) == sum + q && Pow(r, n) == q * r;
      calc {
        (1.0 - r) * (sum + q);
        (1.0 - r) * sum + (1.0 - r) * q;
        1.0 - q + q - r * q;
        1.0 - q * r;
      }
    }
  }

  /** With a sampler whose values lie in [0, 1] and a non-negative
      persistence, a sum of `count` octaves lies between 0 and the total
      amplitude 1 + persistence + ... + persistence^(count-1). */
  lemma {:induction false} OctaveSumBounds(noise: Noise, p: NoiseParams, offset: Vec2, resolution: int, x: int, y: int, count: nat)
    requires resolution > 0
    requires forall a: real, b: real :: 0.0 <= noise(a, b) <= 1.0
    requires p.persistence >= 0.0
    ensures 0.0 <= OctaveSum(noise, p, offset, resolution, x, y, count) <= GeometricSum(p.persistence, count)
    decreases count
  {
    if count > 0 {
      var i := count - 1;
      OctaveSumBounds(noise, p, offset, resolution, x, y, i);
      var amplitude := Pow(p.persistence, i);
      PowNonNegative(p.persistence, i);
      var v := Sample(noise, p, offset, resolution, x, y, i);
      WeightedSampleBounds(v, amplitude);
      assert OctaveTerm(noise, p, offset, resolution, x, y, i) == v * amplitude;
      assert GeometricSum(p.persistence, count) == GeometricSum(p.persistence, i) + amplitude;
    }
  }

  /** With a persistence in [0, 1), every height lies in [0, 1 / (1 - persistence)]:
      the sum stays finite however many octaves are used. */
  lemma FractalHeightBounded(noise: Noise, p: NoiseParams, offset: Vec2, resolution: int, x: int, y: int)
    requires resolution > 0
    requires forall a: real, b: real :: 0.0 <= noise(a, b) <= 1.0
    requires 0.0 <= p.persistence < 1.0
    ensures 0.0 <= FractalHeight(noise, p, offset, resolution, x, y)
    ensures (1.0 - p.persistence) * FractalHeight(noise, p, offset, resolution, x, y) <= 1.0
  {
    var n, r := OctaveCount(p), p.persistence;
    var h := FractalHeight(noise, p, offset, resolution, x, y);
    var total := GeometricSum(r, n);
    OctaveSumBounds(noise, p, offset, resolution, x, y, n);
    assert 0.0 <= h <= total;
    GeometricSumClosedForm(r, n);
    PowNonNegative(r, n);
    assert (1.0 - r) * total <= 1.0;
    RealScaleLe(h, total, 1.0 - r);
    assert h * (1.0 - r) == (1.0 - r) * h && total * (1.0 - r) == (1.0 - r) * total;
  }

  /** The sum is not normalised: with the generator's default settings
      (4 octaves, persistence 0.5) and a sampler that returns 1 everywhere,
      a height reaches 1.875, outside the unit range that erosion clamps to. */
  lemma DefaultSumExceedsOne(offset: Vec2, resolution: int, x: int, y: int)
    requires resolution > 0
    ensures FractalHeight((a: real, b: real) => 1.0, NoiseParams(20.0, 4, 0.5, 2.0), offset, resolution, x, y) == 1.875
  {
    var noise: Noise := (a: real, b: real) => 1.0;
    var p := NoiseParams(20.0, 4, 0.5, 2.0);
    assert Pow(0.5, 1) == 0.5 && Pow(0.5, 2) == 0.25 && Pow(0.5, 3) == 0.125;
    assert OctaveSum(noise, p, offset, resolution, x, y, 1) == 1.0;
    assert OctaveSum(noise, p, offset, resolution, x, y, 2) == 1.5;
    assert OctaveSum(noise, p, offset, resolution, x, y, 3) == 1.75;
    assert OctaveSum(noise, p, offset, resolution, x, y, 4) == 1.875;
  }
}
