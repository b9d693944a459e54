/** The part of Unity's `Mathf` that the height-field kernel relies on.

    `Clamp01`, `Lerp` and `InverseLerp` are given their documented semantics
    over `real`. `Mathf.PerlinNoise`, `Mathf.Sqrt` and `Mathf.Pow` are foreign
    code: they are bundled in `Primitives` as uninterpreted total functions,
    and `Primitives.Valid` states the only facts the kernel's properties need.
 */
module Mathf {

  /** Clamps `v` to the unit interval [0, 1]. */
  function Clamp01(v: real): (r: real)
    ensures 0.0 <= r <= 1.0
    ensures 0.0 <= v <= 1.0 ==> r == v
    ensures v <= 0.0 ==> r == 0.0
    ensures v >= 1.0 ==> r == 1.0
  {
    if v < 0.0 then 0.0 else if v > 1.0 then 1.0 else v
  }

  /** Linear interpolation from `a` to `b`; the parameter `t` is clamped to
      [0, 1], so the result never leaves the segment between `a` and `b`. */
  function Lerp(a: real, b: real, t: real): (r: real)
    ensures a <= b ==> a <= r <= b
    ensures b <= a ==> b <= r <= a
    ensures t <= 0.0 ==> r == a
    ensures t >= 1.0 ==> r == b
  {
    var c := Clamp01(t);
    var r := a + (b - a) * c;
    SegmentPoint(a, b, c, r);
    r
  }

  /** The parameter at which `v` lies on the segment from `a` to `b`, clamped
      to [0, 1]; a degenerate segment (`a == b`) yields 0 instead of a
      division by zero. */
  function InverseLerp(a: real, b: real, v: real): (r: real)
    ensures 0.0 <= r <= 1.0
    ensures a == b ==> r == 0.0
    ensures a != b && v == a ==> r == 0.0
    ensures a != b && v == b ==> r == 1.0
  {
    if a != b then
      DivSelf(b - a);
      Clamp01((v - a) / (b - a))
    else
      0.0
  }

  /** `Clamp01` never reverses the order of two values. */
  lemma Clamp01Monotone(u: real, v: real)
    requires u <= v
    ensures Clamp01(u) <= Clamp01(v)
  {
  }

  /** Interpolating from `p >= 0` toward 0 with a larger parameter never gives
      a larger result: flattening toward 0 is monotone in the response. */
  lemma LerpTowardZeroAntitone(p: real, t1: real, t2: real)
    requires p >= 0.0
    requires t1 <= t2
    ensures 0.0 <= Lerp(p, 0.0, t2) <= Lerp(p, 0.0, t1) <= p
  {
    SegmentMonotone(p, 0.0, Clamp01(t1), Clamp01(t2), Lerp(p, 0.0, t1), Lerp(p, 0.0, t2));
  }

  /** `Lerp` is monotone in its parameter when `a <= b`. */
  lemma LerpMonotone(a: real, b: real, t1: real, t2: real)
    requires a <= b
    requires t1 <= t2
    ensures Lerp(a, b, t1) <= Lerp(a, b, t2)
  {
    SegmentMonotone(a, b, Clamp01(t1), Clamp01(t2), Lerp(a, b, t1), Lerp(a, b, t2));
  }

  /** On a segment with `a < b`, `InverseLerp` is monotone in the probed value. */
  lemma InverseLerpMonotone(a: real, b: real, u: real, v: real)
    requires a < b
    requires u <= v
    ensures InverseLerp(a, b, u) <= InverseLerp(a, b, v)
  {
    Clamp01Monotone((u - a) / (b - a), (v - a) / (b - a));
  }

  /** On a segment with `a < b`, two distinct values inside the segment keep
      their strict order under `InverseLerp`. */
  lemma InverseLerpStrict(a: real, b: real, u: real, v: real)
    requires a < b
    requires a <= u < v <= b
    ensures InverseLerp(a, b, u) < InverseLerp(a, b, v)
  {
    DivStrict(u - a, v - a, b - a);
  }

  /** Round trip: on a non-degenerate segment, interpolating at the parameter
      `InverseLerp` finds gives back any value lying on the segment. */
  lemma LerpInverseLerp(a: real, b: real, v: real)
    requires a != b
    requires (a <= v <= b) || (b <= v <= a)
    ensures Lerp(a, b, InverseLerp(a, b, v)) == v
  {
    var q := (v - a) / (b - a);
    if a < b {
      DivUnit(v - a, b - a);
    } else {
      DivUnit(a - v, a - b);
    }
  }

  /** Round trip: on a non-degenerate segment, `InverseLerp` recovers the
      clamped parameter that `Lerp` interpolated at. */
  lemma InverseLerpLerp(a: real, b: real, t: real)
    requires a != b
    ensures InverseLerp(a, b, Lerp(a, b, t)) == Clamp01(t)
  {
    var c := Clamp01(t);
    var v := a + (b - a) * c;
    DivCancel(b - a, c);
  }

  // Small facts of real arithmetic, kept apart so that each proof obligation
  // holds only one non-linear step.

  /** Points further along a segment lie further toward its end `b`. */
  lemma SegmentMonotone(a: real, b: real, c1: real, c2: real, r1: real, r2: real)
    requires c1 <= c2
    requires r1 == a + (b - a) * c1
    requires r2 == a + (b - a) * c2
    ensures a <= b ==> r1 <= r2
    ensures b <= a ==> r2 <= r1
  {
  }

  lemma DivSelf(d: real)
    requires d != 0.0
    ensures d / d == 1.0
  {
  }

  lemma DivCancel(d: real, c: real)
    requires d != 0.0
    ensures (d * c) / d == c
  {
  }

  lemma DivStrict(x: real, y: real, d: real)
    requires d > 0.0
    requires x < y
    ensures x / d < y / d
  {
  }

  lemma DivUnit(x: real, d: real)
    requires d > 0.0
    requires 0.0 <= x <= d
    ensures 0.0 <= x / d <= 1.0
  {
  }

  /** The point `r` at parameter `c` in [0, 1] lies on the segment from `a`
      to `b`, and the two end parameters give the two end points. */
  lemma SegmentPoint(a: real, b: real, c: real, r: real)
    requires 0.0 <= c <= 1.0
    requires r == a + (b - a) * c
    ensures a <= b ==> a <= r <= b
    ensures b <= a ==> b <= r <= a
    ensures c == 0.0 ==> r == a
    ensures c == 1.0 ==> r == b
  {
    SegmentMonotone(a, b, 0.0, c, a + (b - a) * 0.0, r);
  }

  /** The foreign numeric routines the kernel calls: `Mathf.PerlinNoise`,
      `Mathf.Sqrt` and `Mathf.Pow`. Their implementations are not modelled. */
  datatype Primitives = Primitives(
    perlinNoise: (real, real) -> real,
    sqrt: real -> real,
    pow: (real, real) -> real)
  {
    /** The facts about the foreign routines that the model depends on:
        a square root is non-negative and vanishes at 0, and 0 raised to a
        positive power is 0. Nothing is assumed about the noise. */
    ghost predicate Valid() {
      && (forall v: real :: v >= 0.0 ==> sqrt(v) >= 0.0)
      && sqrt(0.0) == 0.0
      && (forall e: real :: e > 0.0 ==> pow(0.0, e) == 0.0)
    }
  }
}
