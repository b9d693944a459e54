# GradientPerlin height-field kernel in Dafny

This project models the sequential height-field kernel of the GradientPerlin
Unity project and proves properties of it.

The kernel builds a terrain height map from one or more Perlin-noise layers.
Each sample is "gradient Perlin": the clamped base noise, flattened toward 0
by a power-law response to the local steepness of the noise. Steepness is
estimated by finite differences. A cell of the height map is the arithmetic
mean of the layers' samples. The map can then be min-max normalised onto
[0, 1] in two passes over the array: one pass finds the extremes, the other
remaps every cell with `InverseLerp` followed by `Lerp`.

The model has three modules:

- `Mathf`:
  - `Clamp01`, `Lerp` and `InverseLerp` with Unity's documented semantics over `real`.
  - `Primitives`, a bundle of the foreign routines `Mathf.PerlinNoise`, `Mathf.Sqrt` and `Mathf.Pow`. They are uninterpreted total functions.
  - `Primitives.Valid`, which states the only facts the model relies on:
    - a square root of a non-negative number is non-negative;
    - `Sqrt(0) == 0`;
    - `Pow(0, e) == 0` for `e > 0`.
- `GradientPerlin`: models `Assets/GradientPerlin.cs`, the per-sample evaluation.
- `TerrainModifier`: models `Assets/TerrainModifier.cs`:
  - layer averaging;
  - height-map generation;
  - normalisation, including its local `Remap`.

Modelling choices:

- C# `float` is modelled as `real`.
- A `float[,]` is modelled as a `Grid` whose cell `[x, y]` is `cells[x][y]`. Its `width` is the array's dimension 0 and its `height` is dimension 1.
- Loops sweep rows `y` in the outer loop and columns `x` in the inner loop, as the source does.
- The running minimum and maximum start at +infinity and -infinity in the source. They are modelled by `Extended`, so the first cell and the empty array behave as written.
- The foreign routines arrive as a `Primitives` parameter.
- The terrain's height-map resolution is a field of `Modifier`.

The derivative samples in `GetSteepness` and `GetSteepnessCentralDifference` go through `GetPerlin`. So they are clamped to [0, 1] before differencing, exactly as at `Assets/GradientPerlin.cs:26-27` and `45-48`. The source's own comment at `Assets/GradientPerlin.cs:68-69` notes that this clamping loses edge values outside [0, 1].

## Model

| member | source | states |
|---|---|---|
| `Mathf.Clamp01` | Assets/GradientPerlin.cs:70 | The result lies in [0, 1]. It equals the input inside [0, 1], and is 0 below and 1 above. |
| `Mathf.Lerp` | Assets/GradientPerlin.cs:16 | The result lies between the two end points, whichever is larger. A parameter `<= 0` gives the start and a parameter `>= 1` gives the end, because the parameter is clamped. |
| `Mathf.InverseLerp` | Assets/TerrainModifier.cs:73 | The result lies in [0, 1]. A degenerate segment gives 0 rather than a division by zero. The start maps to 0 and the end to 1. |
| `Mathf.Clamp01Monotone` | Assets/GradientPerlin.cs:70 | Clamping never reverses the order of two values. |
| `Mathf.LerpTowardZeroAntitone` | Assets/GradientPerlin.cs:16 | When interpolating from `p >= 0` toward 0, a larger parameter never gives a larger result, and every result stays in [0, p]. |
| `Mathf.LerpMonotone` | Assets/TerrainModifier.cs:74 | On an increasing segment, interpolation is monotone in its parameter. |
| `Mathf.InverseLerpMonotone` | Assets/TerrainModifier.cs:73 | On an increasing segment, the recovered parameter is monotone in the probed value. |
| `Mathf.InverseLerpStrict` | Assets/TerrainModifier.cs:73 | On an increasing segment, two distinct values inside it keep their strict order. |
| `Mathf.LerpInverseLerp` | Assets/TerrainModifier.cs:73-74 | Round trip: interpolating at the parameter that `InverseLerp` finds gives back any value on the segment. |
| `Mathf.InverseLerpLerp` | Assets/TerrainModifier.cs:73-74 | Round trip: on a non-degenerate segment, `InverseLerp` recovers the clamped parameter `Lerp` used. |
| `GradientPerlin.NoiseCoord` | Assets/GradientPerlin.cs:65-66 | The grid origin and a zero frequency both land on the layer's seed. One full resolution step along an axis moves the noise coordinate by exactly `scale`. |
| `GradientPerlin.NoiseCoordShift` | Assets/GradientPerlin.cs:65-66 | Moving a grid coordinate by `d` moves its noise coordinate as moving the seed by `d / resolution * scale` does. |
| `GradientPerlin.GetPerlin` | Assets/GradientPerlin.cs:63-71 | The base sample always lies in [0, 1]. |
| `GradientPerlin.GetPerlinShift` | Assets/GradientPerlin.cs:65-66 | Moving the sample point by (dx, dy) grid cells equals moving the seeds by `dx / resolution * scale` and `dy / resolution * scale`. So noise is read at `x / resolution * scale + seedX`, `y / resolution * scale + seedY`. |
| `GradientPerlin.GetPerlinUnclamped` | Assets/GradientPerlin.cs:65-70 | When the noise at `(x / resolution * scale + seedX, y / resolution * scale + seedY)` is already in [0, 1], the sample is exactly that noise value. |
| `GradientPerlin.Magnitude` | Assets/GradientPerlin.cs:34 | The length of a gradient vector is non-negative, and it is 0 for the zero vector. |
| `GradientPerlin.GetSteepness` | Assets/GradientPerlin.cs:23-37 | Forward-difference steepness is non-negative. It is exactly 0 when both offset samples equal the base value. |
| `GradientPerlin.GetSteepnessCentralDifference` | Assets/GradientPerlin.cs:42-60 | Central-difference steepness is non-negative. It is exactly 0 when left equals right and down equals up. |
| `GradientPerlin.Response` | Assets/GradientPerlin.cs:14 | With a positive exponent, a zero steepness or a zero multiplier gives response 0, so the sample is not flattened. |
| `GradientPerlin.SampleResponse` | Assets/GradientPerlin.cs:9-14 | With a positive exponent, the response the sample is flattened by is 0 for a zero multiplier. It is also 0 where both forward samples equal the base sample. |
| `GradientPerlin.GetGradientPerlin` | Assets/GradientPerlin.cs:7-19 | The flattened sample lies between 0 and the base sample, which lies in [0, 1]. It equals the base sample when the response is `<= 0`, and is 0 when the response is `>= 1`. |
| `GradientPerlin.ZeroMultiplierKeepsPerlin` | Assets/GradientPerlin.cs:14-16 | With multiplier 0 and a positive exponent, the sample is the unflattened base sample. |
| `GradientPerlin.FlatteningMonotone` | Assets/GradientPerlin.cs:14-16 | Of two parameter choices for the same point, the one with the larger response never gives the higher sample. |
| `GradientPerlin.ConstantNoiseIsNotFlattened` | Assets/GradientPerlin.cs:7-60 | For noise that is constant everywhere: both steepness estimates are 0, and with a positive exponent the sample is the clamped constant, whatever the multiplier. |
| `TerrainModifier.GetPerlinValue` | Assets/TerrainModifier.cs:112-115 | One layer's sample lies in [0, 1]. It uses derivation distance 1 and the terrain's height-map resolution. |
| `TerrainModifier.LayerValues` | Assets/TerrainModifier.cs:103-105 | Every per-layer sample the loop adds lies in [0, 1]. |
| `TerrainModifier.Sum` | Assets/TerrainModifier.cs:101-106 | A single layer's total is that layer's sample. |
| `TerrainModifier.SumFront` | Assets/TerrainModifier.cs:101-106 | Splitting off the first value gives the same total as the loop's accumulation from the back: the total is the first value plus the total of the rest. |
| `TerrainModifier.SumBetween` | Assets/TerrainModifier.cs:101-106 | When every value lies between `lo` and `hi`, the accumulated sum lies between `n * lo` and `n * hi`. |
| `TerrainModifier.MeanBetween` | Assets/TerrainModifier.cs:108 | Dividing the sum by the non-zero count gives a mean between any common bounds of the values. |
| `TerrainModifier.GetHeightAverage` | Assets/TerrainModifier.cs:99-109 | The average of a non-empty layer list lies in [0, 1]. |
| `TerrainModifier.HeightAverageBetween` | Assets/TerrainModifier.cs:101-108 | The average lies between any common bounds of the per-layer samples. |
| `TerrainModifier.HeightAverageOfAgreeingLayers` | Assets/TerrainModifier.cs:99-109 | When every layer yields the same sample, the average is that sample. |
| `TerrainModifier.SingleUnflattenedLayer` | Assets/TerrainModifier.cs:99-115 | With one layer, multiplier 0 and a positive exponent, the height is that layer's clamped base noise. |
| `TerrainModifier.NewGrid` | Assets/TerrainModifier.cs:31 | A fresh `width` x `height` array holds 0 in every cell. |
| `TerrainModifier.GenerateHeightMap` | Assets/TerrainModifier.cs:29-42 | The result is `width` x `height`. Every cell `[x, y]` equals the layer average at `(x, y)` and lies in [0, 1]. |
| `TerrainModifier.FindMinMax` | Assets/TerrainModifier.cs:47-59 | An empty array keeps +infinity and -infinity. Otherwise both extremes are finite, bound every cell, and are each attained by some cell. |
| `TerrainModifier.AtLeast` | Assets/TerrainModifier.cs:56 | The scan's test `height >= max` against a running maximum that may still be -infinity agrees with the order of the extended line. |
| `TerrainModifier.Below` | Assets/TerrainModifier.cs:57 | The scan's test `height < min` against a running minimum that may still be +infinity holds exactly when `height >= min` fails, in the order of the extended line. |
| `TerrainModifier.Remap` | Assets/TerrainModifier.cs:71-75 | The result lies in the new range. The old low maps to the new low. On a non-degenerate old range, the old high maps to the new high. A degenerate old range maps everything to the new low. |
| `TerrainModifier.RemapMonotone` | Assets/TerrainModifier.cs:71-75 | Remapping between increasing ranges preserves order. |
| `TerrainModifier.RemapStrict` | Assets/TerrainModifier.cs:71-75 | Onto [0, 1] from a non-degenerate range, distinct values inside it keep their strict order. |
| `TerrainModifier.RemapUnitIsInverseLerp` | Assets/TerrainModifier.cs:71-75 | Onto [0, 1], remapping is `InverseLerp` alone. |
| `TerrainModifier.RemapRoundTrip` | Assets/TerrainModifier.cs:71-75 | Remapping a value of the old range onto the new range and back gives the value. |
| `TerrainModifier.RemapUnitIdentity` | Assets/TerrainModifier.cs:71-75 | Remapping [0, 1] onto itself changes no value in [0, 1]. |
| `TerrainModifier.RemapPass` | Assets/TerrainModifier.cs:62-69 | The second pass keeps the dimensions. Every cell becomes its old value remapped from [min, max] onto [0, 1]. |
| `TerrainModifier.NormalizeHeightMap` | Assets/TerrainModifier.cs:45-76 | Normalisation keeps the dimensions. On a non-empty map, every cell becomes its old value remapped linearly from the map's own [min, max] onto [0, 1]. Every cell lies in [0, 1]. It preserves order, and also strict order unless the map is flat. The lowest cells become 0. The highest cells become 1 unless the map is flat. A flat map becomes all 0. A non-flat result spans exactly [0, 1], and a map already spanning [0, 1] is unchanged, so normalising is idempotent. |
| `TerrainModifier.NormalizedInUnit` | Assets/TerrainModifier.cs:62-75 | Remapping onto [0, 1] leaves every cell in [0, 1]. |
| `TerrainModifier.NormalizedMonotone` | Assets/TerrainModifier.cs:71-75 | Remapping from the map's own extremes keeps the order of any two cells. |
| `TerrainModifier.NormalizedStrict` | Assets/TerrainModifier.cs:71-75 | On a map that is not flat, cells of different heights keep their strict order. |
| `TerrainModifier.NormalizedMinToZero` | Assets/TerrainModifier.cs:67-75 | Cells holding the old minimum become 0. |
| `TerrainModifier.NormalizedMaxToOne` | Assets/TerrainModifier.cs:67-75 | On a map that is not flat, cells holding the old maximum become 1. |
| `TerrainModifier.NormalizedFlatToZero` | Assets/TerrainModifier.cs:73-74 | On a flat map, every cell becomes 0 and none is a division by zero. |
| `TerrainModifier.NormalizedExtremesAreUnit` | Assets/TerrainModifier.cs:47-75 | On a map that is not flat, the normalised map's smallest and largest cells are exactly 0 and 1. |
| `TerrainModifier.NormalizedUnitUnchanged` | Assets/TerrainModifier.cs:62-75 | A map whose cells lie in [0, 1], remapped from [0, 1], comes back unchanged. |
| `TerrainModifier.FlatIffExtremesMeet` | Assets/TerrainModifier.cs:47-59 | A map is flat exactly when its minimum and maximum agree. |
| `TerrainModifier.ExtremesUnique` | Assets/TerrainModifier.cs:47-59 | A map's smallest and largest cell values are determined by the map. |

## Left out

- `Start` (Assets/TerrainModifier.cs:17-26) is not modelled. It is engine I/O: it reads the terrain data, calls `SetHeights` and builds a texture. `GenerateHeightMap` takes the dimensions as parameters, and `NormalizeHeightMap` is modelled on its own. The `normalize` switch is therefore not modelled.
- `HeightMapToTexture` (Assets/TerrainModifier.cs:78-96) is not modelled. It is texture allocation and pixel writes, which is rendering only.
- The implementations of `Mathf.PerlinNoise`, `Mathf.Sqrt` and `Mathf.Pow` are not modelled. They are foreign library code. Only the facts in `Primitives.Valid` are assumed of them.
- Floating-point rounding, NaN and infinity propagation are not modelled. Arithmetic is exact over `real`.
- `GetPerlin`: its requires excludes `resolution == 0`. In the source, a float division by zero there yields infinity or NaN, which has no `real` counterpart.
- `GetSteepness`: its requires excludes `derivationDistance == 0`, for the same reason. So do `GetSteepnessCentralDifference` and `GetGradientPerlin`.
- `GetHeightAverage`: its requires excludes an empty layer list. There the source computes `0 / 0`, which is NaN in floating point.
- `GenerateHeightMap`: its dimensions are `nat`. A negative dimension makes the source's array allocation throw.
- `Magnitude`: it relies on `Sqrt(0) == 0`, which `Primitives.Valid` adds to non-negativity of the square root. Without it, a zero gradient could not be shown to give zero steepness.
- `NormalizeHeightMap` returns the normalised grid instead of overwriting its argument. The source mutates the array in place, and the two passes read the array exactly as the source's loops do.
- `[BurstCompile]` and any parallel execution are not modelled. They do not change the sequential result.
- The commented-out call to `GetSteepnessCentralDifference` (Assets/GradientPerlin.cs:12) is not modelled. That function is modelled on its own.
- The default argument values of `GetGradientPerlin` (0.001, 2, 2) and the field defaults of `TerrainModifier` are not modelled. The model takes every parameter explicitly. The field defaults are multiplier 10, exponent 2 and `normalize` false.
- FlatteningMonotone: it is stated in terms of the response, not the multiplier or the exponent, because `Mathf.Pow` is uninterpreted. With the real power function, a larger exponent gives a smaller response only when `steepness * multiplier < 1`, and that is not proved here.
