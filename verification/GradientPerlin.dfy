/** Per-sample "gradient Perlin" evaluation (Assets/GradientPerlin.cs).

    A grid point is mapped to noise space, the noise is clamped to [0, 1], the
    local steepness of the noise field is estimated by finite differences, and
    the sample is pulled toward 0 by a power-law response to that steepness.
    The foreign routines (noise, square root, power) come in as `Primitives`.
 */
module GradientPerlin {
  import opened Mathf

  /** The noise-space coordinate of grid coordinate `g` for a layer with the
      given seed offset and frequency `scale`, at grid `resolution`. */
  function NoiseCoord(g: real, seed: real, resolution: real, scale: real): (r: real)
    requires resolution != 0.0
    ensures g == 0.0 ==> r == seed
    ensures scale == 0.0 ==> r == seed
    ensures g == resolution ==> r == seed + scale
  {
    g / resolution * scale + seed
  }

  /** The clamped base noise at grid point (x, y). */
  function GetPerlin(m: Primitives, x: real, y: real, seedX: real, seedY: real,
                     resolution: real, scale: real): (r: real)
    requires resolution != 0.0
    ensures 0.0 <= r <= 1.0
  {
    var xCoord := NoiseCoord(x, seedX, resolution, scale);
    var zCoord := NoiseCoord(y, seedY, resolution, scale);
    Clamp01(m.perlinNoise(xCoord, zCoord))
  }

  /** The length of the gradient vector (gx, gy), through the foreign square root. */
  function Magnitude(m: Primitives, gx: real, gy: real): (r: real)
    requires m.Valid()
    ensures r >= 0.0
    ensures gx == 0.0 && gy == 0.0 ==> r == 0.0
  {
    m.sqrt(gx * gx + gy * gy)
  }

  /** Forward-difference steepness: the noise is sampled one
      `derivationDistance` further along each axis and compared with the
      base value the caller already computed. */
  function GetSteepness(m: Primitives, basePerlinValue: real, x: real, y: real,
                        seedX: real, seedY: real, resolution: real, scale: real,
                        derivationDistance: real): (r: real)
    requires m.Valid()
    requires resolution != 0.0
    requires derivationDistance != 0.0
    ensures r >= 0.0
    ensures GetPerlin(m, x + derivationDistance, y, seedX, seedY, resolution, scale) == basePerlinValue
         && GetPerlin(m, x, y + derivationDistance, seedX, seedY, resolution, scale) == basePerlinValue
         ==> r == 0.0
  {
    var perlinDX := GetPerlin(m, x + derivationDistance, y, seedX, seedY, resolution, scale);
    var perlinDY := GetPerlin(m, x, y + derivationDistance, seedX, seedY, resolution, scale);
    var gradientX := (perlinDX - basePerlinValue) / derivationDistance;
    var gradientY := (perlinDY - basePerlinValue) / derivationDistance;
    Magnitude(m, gradientX, gradientY)
  }

  /** Central-difference steepness: the noise is sampled one
      `derivationDistance` to either side along each axis. */
  function GetSteepnessCentralDifference(m: Primitives, x: real, y: real,
                                         seedX: real, seedY: real, resolution: real,
                                         scale: real, derivationDistance: real): (r: real)
    requires m.Valid()
    requires resolution != 0.0
    requires derivationDistance != 0.0
    ensures r >= 0.0
    ensures GetPerlin(m, x - derivationDistance, y, seedX, seedY, resolution, scale)
              == GetPerlin(m, x + derivationDistance, y, seedX, seedY, resolution, scale)
         && GetPerlin(m, x, y - derivationDistance, seedX, seedY, resolution, scale)
              == GetPerlin(m, x, y + derivationDistance, seedX, seedY, resolution, scale)
         ==> r == 0.0
  {
    var perlinLeft := GetPerlin(m, x - derivationDistance, y, seedX, seedY, resolution, scale);
    var perlinRight := GetPerlin(m, x + derivationDistance, y, seedX, seedY, resolution, scale);
    var perlinDown := GetPerlin(m, x, y - derivationDistance, seedX, seedY, resolution, scale);
    var perlinUp := GetPerlin(m, x, y + derivationDistance, seedX, seedY, resolution, scale);
    var gradientX := (perlinRight - perlinLeft) / (2.0 * derivationDistance);
    var gradientY := (perlinUp - perlinDown) / (2.0 * derivationDistance);
    Magnitude(m, gradientX, gradientY)
  }

  /** The power-law response to a steepness value: with a positive exponent,
      a flat sample or a zero multiplier gives no response at all. */
  function Response(m: Primitives, steepness: real, steepnessMultiplier: real,
                    steepnessExponent: real): (r: real)
    ensures (m.Valid() && steepnessExponent > 0.0
             && (steepness == 0.0 || steepnessMultiplier == 0.0)) ==> r == 0.0
  {
    m.pow(steepness * steepnessMultiplier, steepnessExponent)
  }

  /** The response the gradient-Perlin sample at (x, y) is flattened by: the
      power-law response to the forward-difference steepness there. With a
      positive exponent it vanishes for a zero multiplier, and where the
      noise does not change along either axis. */
  function SampleResponse(m: Primitives, x: real, y: real, seedX: real, seedY: real,
                          resolution: real, scale: real, derivationDistance: real,
                          steepnessMultiplier: real, steepnessExponent: real): (r: real)
    requires m.Valid()
    requires resolution != 0.0
    requires derivationDistance != 0.0
    ensures steepnessExponent > 0.0 && steepnessMultiplier == 0.0 ==> r == 0.0
    ensures steepnessExponent > 0.0
            && GetPerlin(m, x + derivationDistance, y, seedX, seedY, resolution, scale)
               == GetPerlin(m, x, y, seedX, seedY, resolution, scale)
            && GetPerlin(m, x, y + derivationDistance, seedX, seedY, resolution, scale)
               == GetPerlin(m, x, y, seedX, seedY, resolution, scale)
            ==> r == 0.0
  {
    var perlin := GetPerlin(m, x, y, seedX, seedY, resolution, scale);
    var steepness := GetSteepness(m, perlin, x, y, seedX, seedY, resolution, scale, derivationDistance);
    Response(m, steepness, steepnessMultiplier, steepnessExponent)
  }

  /** The base noise at (x, y), flattened toward 0 in proportion to the
      response to its forward-difference steepness. */
  function GetGradientPerlin(m: Primitives, x: real, y: real, seedX: real, seedY: real,
                             resolution: real, scale: real, derivationDistance: real,
                             steepnessMultiplier: real, steepnessExponent: real): (r: real)
    requires m.Valid()
    requires resolution != 0.0
    requires derivationDistance != 0.0
    ensures 0.0 <= r <= GetPerlin(m, x, y, seedX, seedY, resolution, scale) <= 1.0
    ensures SampleResponse(m, x, y, seedX, seedY, resolution, scale, derivationDistance,
                           steepnessMultiplier, steepnessExponent) <= 0.0
            ==> r == GetPerlin(m, x, y, seedX, seedY, resolution, scale)
    ensures SampleResponse(m, x, y, seedX, seedY, resolution, scale, derivationDistance,
                           steepnessMultiplier, steepnessExponent) >= 1.0
            ==> r == 0.0
  {
    Lerp(GetPerlin(m, x, y, seedX, seedY, resolution, scale), 0.0,
         SampleResponse(m, x, y, seedX, seedY, resolution, scale, derivationDistance,
                        steepnessMultiplier, steepnessExponent))
  }

  /** Moving the sample point by (dx, dy) grid cells is the same as moving
      the layer's seed by the corresponding noise-space distance: the sample
      position enters the noise only through `x / resolution * scale + seedX`
      and `y / resolution * scale + seedY`. */
  lemma GetPerlinShift(m: Primitives, x: real, y: real, dx: real, dy: real,
                       seedX: real, seedY: real, resolution: real, scale: real)
    requires resolution != 0.0
    ensures GetPerlin(m, x + dx, y + dy, seedX, seedY, resolution, scale)
         == GetPerlin(m, x, y, seedX + dx / resolution * scale,
                      seedY + dy / resolution * scale, resolution, scale)
  {
    NoiseCoordShift(x, dx, seedX, resolution, scale);
    NoiseCoordShift(y, dy, seedY, resolution, scale);
  }

  lemma NoiseCoordShift(g: real, d: real, seed: real, resolution: real, scale: real)
    requires resolution != 0.0
    ensures NoiseCoord(g + d, seed, resolution, scale)
         == NoiseCoord(g, seed + d / resolution * scale, resolution, scale)
  {
  }

  /** When the noise already lies in [0, 1] at the sample's noise-space
      coordinate, the clamp leaves it unchanged. */
  lemma GetPerlinUnclamped(m: Primitives, x: real, y: real, seedX: real, seedY: real,
                           resolution: real, scale: real)
    requires resolution != 0.0
    requires 0.0 <= m.perlinNoise(x / resolution * scale + seedX, y / resolution * scale + seedY) <= 1.0
    ensures GetPerlin(m, x, y, seedX, seedY, resolution, scale)
         == m.perlinNoise(x / resolution * scale + seedX, y / resolution * scale + seedY)
  {
    assert NoiseCoord(x, seedX, resolution, scale) == x / resolution * scale + seedX;
    assert NoiseCoord(y, seedY, resolution, scale) == y / resolution * scale + seedY;
  }

  /** With a zero steepness multiplier and a positive exponent the response is
      0, so the sample is the clamped base noise, unflattened. */
  lemma ZeroMultiplierKeepsPerlin(m: Primitives, x: real, y: real, seedX: real, seedY: real,
                                  resolution: real, scale: real, derivationDistance: real,
                                  steepnessExponent: real)
    requires m.Valid()
    requires resolution != 0.0
    requires derivationDistance != 0.0
    requires steepnessExponent > 0.0
    ensures GetGradientPerlin(m, x, y, seedX, seedY, resolution, scale, derivationDistance,
                              0.0, steepnessExponent)
         == GetPerlin(m, x, y, seedX, seedY, resolution, scale)
  {
  }

  /** Flattening is monotone in the response: of two parameter choices for the
      same sample, the one with the larger response gives the lower height. */
  lemma FlatteningMonotone(m: Primitives, x: real, y: real, seedX: real, seedY: real,
                           resolution: real, scale: real, derivationDistance: real,
                           multiplier1: real, exponent1: real,
                           multiplier2: real, exponent2: real)
    requires m.Valid()
    requires resolution != 0.0
    requires derivationDistance != 0.0
    requires SampleResponse(m, x, y, seedX, seedY, resolution, scale, derivationDistance,
                            multiplier1, exponent1)
          <= SampleResponse(m, x, y, seedX, seedY, resolution, scale, derivationDistance,
                            multiplier2, exponent2)
    ensures GetGradientPerlin(m, x, y, seedX, seedY, resolution, scale, derivationDistance,
                              multiplier2, exponent2)
         <= GetGradientPerlin(m, x, y, seedX, seedY, resolution, scale, derivationDistance,
                              multiplier1, exponent1)
  {
    var perlin := GetPerlin(m, x, y, seedX, seedY, resolution, scale);
    LerpTowardZeroAntitone(perlin,
      SampleResponse(m, x, y, seedX, seedY, resolution, scale, derivationDistance, multiplier1, exponent1),
      SampleResponse(m, x, y, seedX, seedY, resolution, scale, derivationDistance, multiplier2, exponent2));
  }

  /** A noise field that is constant everywhere has zero steepness under both
      estimators, and (for a positive exponent) its gradient-Perlin sample is
      the clamped constant, whatever the multiplier. */
  lemma ConstantNoiseIsNotFlattened(m: Primitives, c: real, x: real, y: real,
                                    seedX: real, seedY: real, resolution: real, scale: real,
                                    derivationDistance: real,
                                    steepnessMultiplier: real, steepnessExponent: real)
    requires m.Valid()
    requires forall u: real, v: real :: m.perlinNoise(u, v) == c
    requires resolution != 0.0
    requires derivationDistance != 0.0
    requires steepnessExponent > 0.0
    ensures GetSteepness(m, GetPerlin(m, x, y, seedX, seedY, resolution, scale),
                         x, y, seedX, seedY, resolution, scale, derivationDistance) == 0.0
    ensures GetSteepnessCentralDifference(m, x, y, seedX, seedY, resolution, scale,
                                          derivationDistance) == 0.0
    ensures GetGradientPerlin(m, x, y, seedX, seedY, resolution, scale, derivationDistance,
                              steepnessMultiplier, steepnessExponent) == Clamp01(c)
  {
  }
}
