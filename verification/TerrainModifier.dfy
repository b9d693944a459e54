/** Layer averaging, height-map construction and min-max normalisation
    (Assets/TerrainModifier.cs).

    A height map (`float[,]` in the source) is a `Grid` whose cell `[x, y]`
    is `cells[x][y]`, `x` ranging over the width (the array's dimension 0)
    and `y` over the height (dimension 1).
 */
module TerrainModifier {
  import opened Mathf
  import opened GradientPerlin

  /** One noise layer: a seed offset in noise space and a frequency scale. */
  datatype NoiseSettings = NoiseSettings(seedX: real, seedY: real, scale: real)

  /** The generator's configuration: its noise layers, the steepness response
      parameters and the resolution of the terrain's height map. */
  datatype Modifier = Modifier(
    noiseSettings: seq<NoiseSettings>,
    steepnessMultiplier: real,
    steepnessExponent: real,
    heightmapResolution: int)
  {
    /** What averaging needs: at least one layer to divide by, and a
        resolution to divide grid coordinates by. */
    predicate CanAverage() {
      |noiseSettings| > 0 && heightmapResolution != 0
    }
  }

  /** The gradient-Perlin sample of one layer at (x, y); the derivation
      distance is fixed at one grid cell. */
  function GetPerlinValue(tm: Modifier, m: Primitives, x: real, y: real,
                          layer: NoiseSettings): (r: real)
    requires m.Valid()
    requires tm.heightmapResolution != 0
    ensures 0.0 <= r <= 1.0
  {
    GetGradientPerlin(m, x, y, layer.seedX, layer.seedY, tm.heightmapResolution as real,
                      layer.scale, 1.0, tm.steepnessMultiplier, tm.steepnessExponent)
  }

  /** The layers' samples at (x, y), in list order; each lies in [0, 1]. */
  function LayerValues(tm: Modifier, m: Primitives, x: real, y: real): (vs: seq<real>)
    requires m.Valid()
    requires tm.heightmapResolution != 0
    ensures forall i :: 0 <= i < |vs| ==> 0.0 <= vs[i] <= 1.0
  {
    seq(|tm.noiseSettings|, i requires 0 <= i < |tm.noiseSettings| =>
      GetPerlinValue(tm, m, x, y, tm.noiseSettings[i]))
  }

  /** The sum of `vs`, accumulated from the front as the source's `foreach`
      does: each value is added to the total of the values before it. */
  function Sum(vs: seq<real>): (r: real)
    ensures |vs| == 1 ==> r == vs[0]
    decreases |vs|
  {
    if |vs| == 0 then 0.0 else Sum(vs[..|vs| - 1]) + vs[|vs| - 1]
  }

  /** The accumulation order does not matter: splitting off the first value
      instead of the last gives the same total. */
  lemma {:induction false} SumFront(vs: seq<real>)
    requires |vs| > 0
    ensures Sum(vs) == vs[0] + Sum(vs[1..])
    decreases |vs|
  {
    if |vs| == 1 {
      assert vs[1..] == [];
    } else {
      var init := vs[..|vs| - 1];
      SumFront(init);
      assert init[1..] == vs[1..][..|vs[1..]| - 1];
    }
  }

  /** The arithmetic mean of the configured layers' samples at (x, y). */
  function GetHeightAverage(tm: Modifier, m: Primitives, x: real, y: real): (r: real)
    requires m.Valid()
    requires tm.CanAverage()
    ensures 0.0 <= r <= 1.0
  {
    var values := LayerValues(tm, m, x, y);
    var sumHeight := Sum(values);
    var count := |tm.noiseSettings| as real;
    MeanBetween(values, 0.0, 1.0);
    sumHeight / count
  }

  /** Common bounds on the values bound their sum, scaled by their number. */
  lemma {:induction false} SumBetween(vs: seq<real>, lo: real, hi: real)
    requires forall i :: 0 <= i < |vs| ==> lo <= vs[i] <= hi
    ensures |vs| as real * lo <= Sum(vs) <= |vs| as real * hi
    decreases |vs|
  {
    if |vs| > 0 {
      var init := vs[..|vs| - 1];
      SumBetween(init, lo, hi);
      BoundsStep(|init| as real, lo, hi, Sum(init), vs[|vs| - 1], Sum(vs));
    }
  }

  /** Adding one more value between `lo` and `hi` to a sum of `n` such values. */
  lemma BoundsStep(n: real, lo: real, hi: real, s: real, v: real, t: real)
    requires n * lo <= s <= n * hi
    requires lo <= v <= hi
    requires t == s + v
    ensures (n + 1.0) * lo <= t <= (n + 1.0) * hi
  {
  }

  /** The average lies between any common bounds of the layers' samples. */
  lemma HeightAverageBetween(tm: Modifier, m: Primitives, x: real, y: real, lo: real, hi: real)
    requires m.Valid()
    requires tm.CanAverage()
    requires forall i :: 0 <= i < |tm.noiseSettings| ==>
               lo <= GetPerlinValue(tm, m, x, y, tm.noiseSettings[i]) <= hi
    ensures lo <= GetHeightAverage(tm, m, x, y) <= hi
  {
    var values := LayerValues(tm, m, x, y);
    forall i | 0 <= i < |values|
      ensures lo <= values[i] <= hi
    {
    }
    MeanBetween(values, lo, hi);
  }

  /** The mean of a non-empty sequence lies between any common bounds of its values. */
  lemma MeanBetween(vs: seq<real>, lo: real, hi: real)
    requires |vs| > 0
    requires forall i :: 0 <= i < |vs| ==> lo <= vs[i] <= hi
    ensures lo <= Sum(vs) / (|vs| as real) <= hi
  {
    SumBetween(vs, lo, hi);
    ScaledBoundsDivide(Sum(vs), |vs| as real, lo, hi);
  }

  lemma ScaledBoundsDivide(s: real, n: real, lo: real, hi: real)
    requires n > 0.0
    requires n * lo <= s <= n * hi
    ensures lo <= s / n <= hi
  {
  }

  /** When every layer yields the same sample `c`, so does their average. */
  lemma HeightAverageOfAgreeingLayers(tm: Modifier, m: Primitives, x: real, y: real, c: real)
    requires m.Valid()
    requires tm.CanAverage()
    requires forall i :: 0 <= i < |tm.noiseSettings| ==>
               GetPerlinValue(tm, m, x, y, tm.noiseSettings[i]) == c
    ensures GetHeightAverage(tm, m, x, y) == c
  {
    HeightAverageBetween(tm, m, x, y, c, c);
  }

  /** A single layer with a zero steepness multiplier and a positive
      exponent: the average is that layer's clamped base noise. */
  lemma SingleUnflattenedLayer(tm: Modifier, m: Primitives, x: real, y: real)
    requires m.Valid()
    requires tm.CanAverage()
    requires |tm.noiseSettings| == 1
    requires tm.steepnessMultiplier == 0.0
    requires tm.steepnessExponent > 0.0
    ensures var layer := tm.noiseSettings[0];
            GetHeightAverage(tm, m, x, y)
            == GetPerlin(m, x, y, layer.seedX, layer.seedY, tm.heightmapResolution as real, layer.scale)
  {
    var layer := tm.noiseSettings[0];
    ZeroMultiplierKeepsPerlin(m, x, y, layer.seedX, layer.seedY, tm.heightmapResolution as real,
                              layer.scale, 1.0, tm.steepnessExponent);
    HeightAverageOfAgreeingLayers(tm, m, x, y, GetPerlinValue(tm, m, x, y, layer));
  }

  /** A dense `width` x `height` array of heights. */
  datatype Grid = Grid(width: nat, height: nat, cells: seq<seq<real>>)
  {
    predicate Valid() {
      |cells| == width && forall x :: 0 <= x < width ==> |cells[x]| == height
    }

    predicate InBounds(x: int, y: int) {
      0 <= x < width && 0 <= y < height
    }

    predicate IsEmpty() {
      width == 0 || height == 0
    }

    function At(x: int, y: int): real
      requires Valid()
      requires InBounds(x, y)
    {
      cells[x][y]
    }

    /** The array after `heightMap[x, y] = v`. */
    function Set(x: int, y: int, v: real): (g: Grid)
      requires Valid()
      requires InBounds(x, y)
      ensures g.Valid()
      ensures g.width == width && g.height == height
      ensures g.At(x, y) == v
      ensures forall i, j :: InBounds(i, j) && (i != x || j != y) ==> g.At(i, j) == At(i, j)
    {
      Grid(width, height, cells[x := cells[x][y := v]])
    }
  }

  /** A freshly allocated array, `new float[width, height]`: every cell 0. */
  function NewGrid(width: nat, height: nat): (g: Grid)
    ensures g.Valid()
    ensures g.width == width && g.height == height
    ensures forall x, y :: g.InBounds(x, y) ==> g.At(x, y) == 0.0
  {
    Grid(width, height, seq(width, _ => seq(height, _ => 0.0)))
  }

  /** Whether cell (i, j) comes before cell (x, y) in a sweep that runs over
      rows `y` in the outer loop and columns `x` in the inner loop. */
  predicate Before(i: int, j: int, x: int, y: int) {
    j < y || (j == y && i < x)
  }

  /** Builds the `width` x `height` height map whose cell [x, y] is the layer
      average at (x, y). */
  method GenerateHeightMap(tm: Modifier, m: Primitives, width: nat, height: nat)
    returns (heights: Grid)
    requires m.Valid()
    requires tm.CanAverage()
    ensures heights.Valid()
    ensures heights.width == width && heights.height == height
    ensures forall x, y :: heights.InBounds(x, y) ==>
              heights.At(x, y) == GetHeightAverage(tm, m, x as real, y as real)
    ensures forall x, y :: heights.InBounds(x, y) ==> 0.0 <= heights.At(x, y) <= 1.0
  {
    heights := NewGrid(width, height);
    var y := 0;
    while y < height
      invariant 0 <= y <= height
      invariant heights.Valid()
      invariant heights.width == width && heights.height == height
      invariant forall i, j :: heights.InBounds(i, j) && j < y ==>
                  heights.At(i, j) == GetHeightAverage(tm, m, i as real, j as real)
    {
      var x := 0;
      while x < width
        invariant 0 <= x <= width
        invariant heights.Valid()
        invariant heights.width == width && heights.height == height
        invariant forall i, j :: heights.InBounds(i, j) && Before(i, j, x, y) ==>
                    heights.At(i, j) == GetHeightAverage(tm, m, i as real, j as real)
      {
        heights := heights.Set(x, y, GetHeightAverage(tm, m, x as real, y as real));
        x := x + 1;
      }
      y := y + 1;
    }
  }

  /** A float extended with the two infinities the min/max scan starts from. */
  datatype Extended = NegInf | Fin(value: real) | PosInf

  /** The order of the extended line: -infinity below every finite value,
      +infinity above every finite value. */
  predicate LessEq(a: Extended, b: Extended) {
    match (a, b)
    case (NegInf, _) => true
    case (_, PosInf) => true
    case (Fin(u), Fin(w)) => u <= w
    case _ => false
  }

  /** `v >= e` for a finite `v`: the comparison `height >= max` of the scan. */
  predicate AtLeast(v: real, e: Extended)
    ensures AtLeast(v, e) <==> LessEq(e, Fin(v))
  {
    match e
    case NegInf => true
    case Fin(w) => v >= w
    case PosInf => false
  }

  /** `v < e` for a finite `v`: the comparison `height < min` of the scan,
      which holds exactly when `v >= e` fails. */
  predicate Below(v: real, e: Extended)
    ensures Below(v, e) <==> !AtLeast(v, e)
    ensures Below(v, e) <==> !LessEq(e, Fin(v))
  {
    match e
    case NegInf => false
    case Fin(w) => v < w
    case PosInf => true
  }

  /** The first pass of normalisation: the smallest and the largest cell,
      starting from +infinity and -infinity, which an empty array keeps. */
  method FindMinMax(heightMap: Grid) returns (min: Extended, max: Extended)
    requires heightMap.Valid()
    ensures heightMap.IsEmpty() <==> min == PosInf
    ensures heightMap.IsEmpty() <==> max == NegInf
    ensures !heightMap.IsEmpty() ==> min.Fin? && max.Fin?
    ensures forall x, y :: heightMap.InBounds(x, y) ==>
              min.Fin? && max.Fin? && min.value <= heightMap.At(x, y) <= max.value
    ensures min.Fin? ==> exists x, y :: heightMap.InBounds(x, y) && heightMap.At(x, y) == min.value
    ensures max.Fin? ==> exists x, y :: heightMap.InBounds(x, y) && heightMap.At(x, y) == max.value
  {
    min := PosInf;
    max := NegInf;
    var y := 0;
    while y < heightMap.height
      invariant 0 <= y <= heightMap.height
      invariant min.Fin? <==> (y > 0 && heightMap.width > 0)
      invariant max.Fin? <==> min.Fin?
      invariant !min.Fin? ==> min == PosInf && max == NegInf
      invariant forall i, j :: heightMap.InBounds(i, j) && j < y ==>
                  min.Fin? && max.Fin? && min.value <= heightMap.At(i, j) <= max.value
      invariant min.Fin? ==> exists i, j :: heightMap.InBounds(i, j) && j < y
                                           && heightMap.At(i, j) == min.value
      invariant max.Fin? ==> exists i, j :: heightMap.InBounds(i, j) && j < y
                                           && heightMap.At(i, j) == max.value
    {
      var x := 0;
      while x < heightMap.width
        invariant 0 <= x <= heightMap.width
        invariant min.Fin? <==> (y > 0 && heightMap.width > 0) || x > 0
        invariant max.Fin? <==> min.Fin?
        invariant !min.Fin? ==> min == PosInf && max == NegInf
        invariant forall i, j :: heightMap.InBounds(i, j) && Before(i, j, x, y) ==>
                    min.Fin? && max.Fin? && min.value <= heightMap.At(i, j) <= max.value
        invariant min.Fin? ==> exists i, j :: heightMap.InBounds(i, j) && Before(i, j, x, y)
                                             && heightMap.At(i, j) == min.value
        invariant max.Fin? ==> exists i, j :: heightMap.InBounds(i, j) && Before(i, j, x, y)
                                             && heightMap.At(i, j) == max.value
      {
        var height := heightMap.At(x, y);
        if AtLeast(height, max) {
          max := Fin(height);
        }
        if Below(height, min) {
          min := Fin(height);
        }
        x := x + 1;
      }
      y := y + 1;
    }
  }

  /** Maps `input` from the range [oldLow, oldHigh] onto [newLow, newHigh]. */
  function Remap(input: real, oldLow: real, oldHigh: real, newLow: real, newHigh: real): (r: real)
    ensures newLow <= newHigh ==> newLow <= r <= newHigh
    ensures input == oldLow ==> r == newLow
    ensures oldLow != oldHigh && input == oldHigh ==> r == newHigh
    ensures oldLow == oldHigh ==> r == newLow
  {
    var t := InverseLerp(oldLow, oldHigh, input);
    Lerp(newLow, newHigh, t)
  }

  /** Remapping onto [newLow, newHigh] with newLow <= newHigh preserves the
      order of values in an increasing source range. */
  lemma RemapMonotone(u: real, v: real, oldLow: real, oldHigh: real, newLow: real, newHigh: real)
    requires oldLow <= oldHigh
    requires newLow <= newHigh
    requires u <= v
    ensures Remap(u, oldLow, oldHigh, newLow, newHigh) <= Remap(v, oldLow, oldHigh, newLow, newHigh)
  {
    if oldLow < oldHigh {
      InverseLerpMonotone(oldLow, oldHigh, u, v);
      LerpMonotone(newLow, newHigh, InverseLerp(oldLow, oldHigh, u), InverseLerp(oldLow, oldHigh, v));
    }
  }

  /** Onto the unit range, distinct values of a non-degenerate source range
      stay distinct and keep their strict order. */
  lemma RemapStrict(u: real, v: real, oldLow: real, oldHigh: real)
    requires oldLow < oldHigh
    requires oldLow <= u < v <= oldHigh
    ensures Remap(u, oldLow, oldHigh, 0.0, 1.0) < Remap(v, oldLow, oldHigh, 0.0, 1.0)
  {
    InverseLerpStrict(oldLow, oldHigh, u, v);
  }

  /** Onto the unit range, remapping is just `InverseLerp`. */
  lemma RemapUnitIsInverseLerp(v: real, oldLow: real, oldHigh: real)
    ensures Remap(v, oldLow, oldHigh, 0.0, 1.0) == InverseLerp(oldLow, oldHigh, v)
  {
  }

  /** Round trip: remapping a value of [oldLow, oldHigh] onto [newLow, newHigh]
      and back again gives the value back. */
  lemma RemapRoundTrip(v: real, oldLow: real, oldHigh: real, newLow: real, newHigh: real)
    requires oldLow < oldHigh
    requires newLow < newHigh
    requires oldLow <= v <= oldHigh
    ensures Remap(Remap(v, oldLow, oldHigh, newLow, newHigh), newLow, newHigh, oldLow, oldHigh) == v
  {
    var t := InverseLerp(oldLow, oldHigh, v);
    InverseLerpLerp(newLow, newHigh, t);
    LerpInverseLerp(oldLow, oldHigh, v);
  }

  /** Remapping [0, 1] onto itself changes no value of [0, 1]. */
  lemma RemapUnitIdentity(v: real)
    requires 0.0 <= v <= 1.0
    ensures Remap(v, 0.0, 1.0, 0.0, 1.0) == v
  {
  }

  /** Every cell of `g` is at least as large as cell (x, y). */
  ghost predicate IsMinCell(g: Grid, x: int, y: int)
    requires g.Valid()
  {
    g.InBounds(x, y) && forall i, j :: g.InBounds(i, j) ==> g.At(x, y) <= g.At(i, j)
  }

  /** No cell of `g` is larger than cell (x, y). */
  ghost predicate IsMaxCell(g: Grid, x: int, y: int)
    requires g.Valid()
  {
    g.InBounds(x, y) && forall i, j :: g.InBounds(i, j) ==> g.At(i, j) <= g.At(x, y)
  }

  /** All cells of `g` hold the same height. */
  ghost predicate IsFlat(g: Grid)
    requires g.Valid()
  {
    forall x1, y1, x2, y2 :: g.InBounds(x1, y1) && g.InBounds(x2, y2) ==> g.At(x1, y1) == g.At(x2, y2)
  }

  /** Every cell of `r` is its counterpart in `g` remapped from [lo, hi]
      onto [0, 1]. */
  ghost predicate RemappedFrom(r: Grid, g: Grid, lo: real, hi: real)
    requires r.Valid() && g.Valid()
    requires r.width == g.width && r.height == g.height
  {
    forall x, y :: g.InBounds(x, y) ==> r.At(x, y) == Remap(g.At(x, y), lo, hi, 0.0, 1.0)
  }

  /** `lo` and `hi` are the smallest and the largest cell of `g`. */
  ghost predicate Extremes(g: Grid, lo: real, hi: real)
    requires g.Valid()
  {
    && (forall x, y :: g.InBounds(x, y) ==> lo <= g.At(x, y) <= hi)
    && (exists x, y :: g.InBounds(x, y) && g.At(x, y) == lo)
    && (exists x, y :: g.InBounds(x, y) && g.At(x, y) == hi)
  }

  /** The second pass of normalisation: every cell remapped from [min, max]
      onto [0, 1], in the same row-by-row sweep as the first pass. */
  method RemapPass(heightMap: Grid, min: Extended, max: Extended) returns (r: Grid)
    requires heightMap.Valid()
    requires !heightMap.IsEmpty() ==> min.Fin? && max.Fin?
    ensures r.Valid()
    ensures r.width == heightMap.width && r.height == heightMap.height
    ensures !heightMap.IsEmpty() ==> RemappedFrom(r, heightMap, min.value, max.value)
  {
    r := heightMap;
    var y := 0;
    while y < heightMap.height
      invariant 0 <= y <= heightMap.height
      invariant r.Valid()
      invariant r.width == heightMap.width && r.height == heightMap.height
      invariant forall i, j :: heightMap.InBounds(i, j) && j < y ==>
                  r.At(i, j) == Remap(heightMap.At(i, j), min.value, max.value, 0.0, 1.0)
      invariant forall i, j :: heightMap.InBounds(i, j) && j >= y ==> r.At(i, j) == heightMap.At(i, j)
    {
      var x := 0;
      while x < heightMap.width
        invariant 0 <= x <= heightMap.width
        invariant r.Valid()
        invariant r.width == heightMap.width && r.height == heightMap.height
        invariant forall i, j :: heightMap.InBounds(i, j) && Before(i, j, x, y) ==>
                    r.At(i, j) == Remap(heightMap.At(i, j), min.value, max.value, 0.0, 1.0)
        invariant forall i, j :: heightMap.InBounds(i, j) && !Before(i, j, x, y) ==>
                    r.At(i, j) == heightMap.At(i, j)
      {
        var height := r.At(x, y);
        r := r.Set(x, y, Remap(height, min.value, max.value, 0.0, 1.0));
        x := x + 1;
      }
      y := y + 1;
    }
  }

  /** Min-max normalisation: a first pass finds the extreme heights, a second
      pass remaps every cell from [min, max] onto [0, 1]. The array keeps its
      dimensions; the result is returned instead of overwriting the input. */
  method NormalizeHeightMap(heightMap: Grid) returns (r: Grid)
    requires heightMap.Valid()
    ensures r.Valid()
    ensures r.width == heightMap.width && r.height == heightMap.height
    ensures forall x, y :: r.InBounds(x, y) ==> 0.0 <= r.At(x, y) <= 1.0
    ensures forall x1, y1, x2, y2 ::
              heightMap.InBounds(x1, y1) && heightMap.InBounds(x2, y2)
              && heightMap.At(x1, y1) <= heightMap.At(x2, y2)
              ==> r.At(x1, y1) <= r.At(x2, y2)
    ensures !IsFlat(heightMap) ==>
              forall x1, y1, x2, y2 ::
                heightMap.InBounds(x1, y1) && heightMap.InBounds(x2, y2)
                && heightMap.At(x1, y1) < heightMap.At(x2, y2)
                ==> r.At(x1, y1) < r.At(x2, y2)
    ensures forall x, y :: IsMinCell(heightMap, x, y) ==> r.At(x, y) == 0.0
    ensures !IsFlat(heightMap) ==> forall x, y :: IsMaxCell(heightMap, x, y) ==> r.At(x, y) == 1.0
    ensures IsFlat(heightMap) ==> forall x, y :: r.InBounds(x, y) ==> r.At(x, y) == 0.0
    ensures !IsFlat(heightMap) ==> Extremes(r, 0.0, 1.0)
    ensures Extremes(heightMap, 0.0, 1.0) ==> r == heightMap
    ensures !heightMap.IsEmpty() ==>
              exists lo, hi :: Extremes(heightMap, lo, hi) && RemappedFrom(r, heightMap, lo, hi)
  {
    var min, max := FindMinMax(heightMap);
    r := RemapPass(heightMap, min, max);
    if !heightMap.IsEmpty() {
      var lo, hi := min.value, max.value;
      assert Extremes(heightMap, lo, hi);
      NormalizedInUnit(heightMap, r, lo, hi);
      NormalizedMonotone(heightMap, r, lo, hi);
      NormalizedStrict(heightMap, r, lo, hi);
      NormalizedMinToZero(heightMap, r, lo, hi);
      NormalizedMaxToOne(heightMap, r, lo, hi);
      NormalizedFlatToZero(heightMap, r, lo, hi);
      NormalizedExtremesAreUnit(heightMap, r, lo, hi);
      if Extremes(heightMap, 0.0, 1.0) {
        ExtremesUnique(heightMap, lo, hi, 0.0, 1.0);
        NormalizedUnitUnchanged(heightMap, r);
      }
    }
  }

  /** Remapping onto [0, 1] leaves every cell in [0, 1]. */
  lemma NormalizedInUnit(g: Grid, r: Grid, lo: real, hi: real)
    requires g.Valid() && r.Valid()
    requires r.width == g.width && r.height == g.height
    requires RemappedFrom(r, g, lo, hi)
    ensures forall x, y :: r.InBounds(x, y) ==> 0.0 <= r.At(x, y) <= 1.0
  {
  }

  /** Remapping from the grid's own extremes keeps the order of any two cells. */
  lemma NormalizedMonotone(g: Grid, r: Grid, lo: real, hi: real)
    requires g.Valid() && r.Valid()
    requires r.width == g.width && r.height == g.height
    requires Extremes(g, lo, hi)
    requires RemappedFrom(r, g, lo, hi)
    ensures forall x1, y1, x2, y2 ::
              g.InBounds(x1, y1) && g.InBounds(x2, y2) && g.At(x1, y1) <= g.At(x2, y2)
              ==> r.At(x1, y1) <= r.At(x2, y2)
  {
    var x, y :| g.InBounds(x, y) && g.At(x, y) == lo;
    forall x1, y1, x2, y2 | g.InBounds(x1, y1) && g.InBounds(x2, y2) && g.At(x1, y1) <= g.At(x2, y2)
      ensures r.At(x1, y1) <= r.At(x2, y2)
    {
      RemapMonotone(g.At(x1, y1), g.At(x2, y2), lo, hi, 0.0, 1.0);
    }
  }

  /** On a grid that is not flat, remapping keeps strict order too, so it
      neither merges nor swaps cells of different heights. */
  lemma NormalizedStrict(g: Grid, r: Grid, lo: real, hi: real)
    requires g.Valid() && r.Valid()
    requires r.width == g.width && r.height == g.height
    requires Extremes(g, lo, hi)
    requires RemappedFrom(r, g, lo, hi)
    ensures !IsFlat(g) ==>
              forall x1, y1, x2, y2 ::
                g.InBounds(x1, y1) && g.InBounds(x2, y2) && g.At(x1, y1) < g.At(x2, y2)
                ==> r.At(x1, y1) < r.At(x2, y2)
  {
    if !IsFlat(g) {
      forall x1, y1, x2, y2 | g.InBounds(x1, y1) && g.InBounds(x2, y2) && g.At(x1, y1) < g.At(x2, y2)
        ensures r.At(x1, y1) < r.At(x2, y2)
      {
        RemapStrict(g.At(x1, y1), g.At(x2, y2), lo, hi);
      }
    }
  }

  /** The lowest cells are sent to 0. */
  lemma NormalizedMinToZero(g: Grid, r: Grid, lo: real, hi: real)
    requires g.Valid() && r.Valid()
    requires r.width == g.width && r.height == g.height
    requires Extremes(g, lo, hi)
    requires RemappedFrom(r, g, lo, hi)
    ensures forall x, y :: IsMinCell(g, x, y) ==> r.At(x, y) == 0.0
  {
  }

  /** Unless the grid is flat, the highest cells are sent to 1. */
  lemma NormalizedMaxToOne(g: Grid, r: Grid, lo: real, hi: real)
    requires g.Valid() && r.Valid()
    requires r.width == g.width && r.height == g.height
    requires Extremes(g, lo, hi)
    requires RemappedFrom(r, g, lo, hi)
    ensures !IsFlat(g) ==> forall x, y :: IsMaxCell(g, x, y) ==> r.At(x, y) == 1.0
  {
  }

  /** A flat grid is sent entirely to 0, not to a division by zero. */
  lemma NormalizedFlatToZero(g: Grid, r: Grid, lo: real, hi: real)
    requires g.Valid() && r.Valid()
    requires r.width == g.width && r.height == g.height
    requires Extremes(g, lo, hi)
    requires RemappedFrom(r, g, lo, hi)
    ensures IsFlat(g) ==> forall x, y :: r.InBounds(x, y) ==> r.At(x, y) == 0.0
  {
  }

  /** Unless the grid is flat, the normalised grid has extremes exactly 0 and 1. */
  lemma NormalizedExtremesAreUnit(g: Grid, r: Grid, lo: real, hi: real)
    requires g.Valid() && r.Valid()
    requires r.width == g.width && r.height == g.height
    requires Extremes(g, lo, hi)
    requires RemappedFrom(r, g, lo, hi)
    ensures !IsFlat(g) ==> Extremes(r, 0.0, 1.0)
  {
  }

  /** A grid whose heights lie in [0, 1], remapped from [0, 1], is left as
      it is: so normalising twice gives the same grid as normalising once. */
  lemma NormalizedUnitUnchanged(g: Grid, r: Grid)
    requires g.Valid() && r.Valid()
    requires r.width == g.width && r.height == g.height
    requires forall x, y :: g.InBounds(x, y) ==> 0.0 <= g.At(x, y) <= 1.0
    requires RemappedFrom(r, g, 0.0, 1.0)
    ensures r == g
  {
    forall x, y | g.InBounds(x, y)
      ensures r.At(x, y) == g.At(x, y)
    {
      RemapUnitIdentity(g.At(x, y));
    }
    GridExtensional(r, g);
  }

  /** Two grids of the same dimensions that agree on every cell are equal. */
  lemma GridExtensional(a: Grid, b: Grid)
    requires a.Valid() && b.Valid()
    requires a.width == b.width && a.height == b.height
    requires forall x, y :: a.InBounds(x, y) ==> a.At(x, y) == b.At(x, y)
    ensures a == b
  {
    forall x | 0 <= x < a.width
      ensures a.cells[x] == b.cells[x]
    {
      forall y | 0 <= y < a.height
        ensures a.cells[x][y] == b.cells[x][y]
      {
        assert a.InBounds(x, y);
      }
    }
  }

  /** The extremes of a grid are determined by it. */
  lemma ExtremesUnique(g: Grid, lo1: real, hi1: real, lo2: real, hi2: real)
    requires g.Valid()
    requires Extremes(g, lo1, hi1)
    requires Extremes(g, lo2, hi2)
    ensures lo1 == lo2 && hi1 == hi2
  {
  }

  /** A grid is flat exactly when its smallest and largest cells agree. */
  lemma FlatIffExtremesMeet(g: Grid, lo: real, hi: real)
    requires g.Valid()
    requires Extremes(g, lo, hi)
    ensures IsFlat(g) <==> lo == hi
  {
  }
}
