/**
 * The arithmetic helpers of the hatch-target code: the angle difference
 * used to match a box to an expected orientation, the two pinhole range
 * estimates and their mean, and the key by which boxes are ranked.
 */
module TargetMath {
  import opened Geometry

  /** Pinhole calibration: focal length (pixels) times real target width. */
  const FOCAL_W: real := 393.903
  const REAL_W: real := 3.313
  /** Pinhole calibration: focal length (pixels) times real target height. */
  const FOCAL_H: real := 370.815
  const REAL_H: real := 5.825

  /** The point of the frame the targets are expected near. */
  const CENTER: Point := Point(208.0, 120.0)

  function Abs(x: real): real { if x < 0.0 then -x else x }

  /** `diff`: how far apart two angles are once both signs are dropped. */
  function Diff(a: real, b: real): (r: real)
    ensures r >= 0.0
    ensures r == 0.0 <==> a == b || a == -b
  {
    Abs(Abs(a) - Abs(b))
  }

  lemma DiffSymmetric(a: real, b: real)
    ensures Diff(a, b) == Diff(b, a)
  {}

  lemma DiffIgnoresSign(a: real, b: real)
    ensures Diff(-a, b) == Diff(a, b) == Diff(a, -b)
  {}

  /** The left target's expected angle and its mirror image match exactly. */
  lemma DiffMirrorAngle()
    ensures Diff(-75.5, 75.5) == 0.0
  {}

  /** `distanceW`: the range at which a target of the real width would
      appear `width` pixels wide. */
  function DistanceW(width: real): (d: real)
    requires width > 0.0
    ensures d > 0.0
    ensures d * width == FOCAL_W * REAL_W
  {
    (FOCAL_W * REAL_W) / width
  }

  /** `distanceH`: the same pinhole estimate from the apparent height. */
  function DistanceH(height: real): (d: real)
    requires height > 0.0
    ensures d > 0.0
    ensures d * height == FOCAL_H * REAL_H
  {
    (FOCAL_H * REAL_H) / height
  }

  /** `distance`: the mean of the two pinhole estimates; it lies between them. */
  function Distance(width: real, height: real): (d: real)
    requires width > 0.0 && height > 0.0
    ensures d > 0.0
    ensures DistanceW(width) <= DistanceH(height) ==> DistanceW(width) <= d <= DistanceH(height)
    ensures DistanceH(height) <= DistanceW(width) ==> DistanceH(height) <= d <= DistanceW(width)
  {
    (DistanceW(width) + DistanceH(height)) / 2.0
  }

  /** A wider box is nearer: the width estimate falls strictly as the width grows. */
  lemma DistanceWDecreasing(w1: real, w2: real)
    requires 0.0 < w1 < w2
    ensures DistanceW(w2) < DistanceW(w1)
  {
    var d1, d2 := DistanceW(w1), DistanceW(w2);
    assert d1 * w1 == d2 * w2;
    if d1 <= d2 {
      assert d1 * w1 <= d2 * w1;
      assert d2 * w1 < d2 * w2;
    }
  }

  /** A taller box is nearer: the height estimate falls strictly as the height grows. */
  lemma DistanceHDecreasing(h1: real, h2: real)
    requires 0.0 < h1 < h2
    ensures DistanceH(h2) < DistanceH(h1)
  {
    var d1, d2 := DistanceH(h1), DistanceH(h2);
    assert d1 * h1 == d2 * h2;
    if d1 <= d2 {
      assert d1 * h1 <= d2 * h1;
      assert d2 * h1 < d2 * h2;
    }
  }

  /** The width estimate is exactly inverted by the width a target at range d shows. */
  lemma DistanceWInverse(d: real)
    requires d > 0.0
    ensures FOCAL_W * REAL_W / d > 0.0
    ensures DistanceW(FOCAL_W * REAL_W / d) == d
  {
    var w := FOCAL_W * REAL_W / d;
    assert w * d == FOCAL_W * REAL_W;
    var e := DistanceW(w);
    assert e * w == w * d;
  }

  /** The height estimate is exactly inverted by the height a target at range d shows. */
  lemma DistanceHInverse(d: real)
    requires d > 0.0
    ensures FOCAL_H * REAL_H / d > 0.0
    ensures DistanceH(FOCAL_H * REAL_H / d) == d
  {
    var h := FOCAL_H * REAL_H / d;
    assert h * d == FOCAL_H * REAL_H;
    var e := DistanceH(h);
    assert e * h == h * d;
  }

  /** A box of the size a target at range d shows is estimated at range d. */
  lemma DistanceRoundTrip(d: real)
    requires d > 0.0
    ensures FOCAL_W * REAL_W / d > 0.0 && FOCAL_H * REAL_H / d > 0.0
    ensures Distance(FOCAL_W * REAL_W / d, FOCAL_H * REAL_H / d) == d
  {
    DistanceWInverse(d);
    DistanceHInverse(d);
  }

  /** A box no smaller in either side, and larger in one, is estimated strictly nearer. */
  lemma DistanceDecreasing(w1: real, h1: real, w2: real, h2: real)
    requires 0.0 < w1 <= w2 && 0.0 < h1 <= h2
    requires w1 < w2 || h1 < h2
    ensures Distance(w2, h2) < Distance(w1, h1)
  {
    if w1 < w2 { DistanceWDecreasing(w1, w2); }
    if h1 < h2 { DistanceHDecreasing(h1, h2); }
  }

  /** `distanceToCenter` without the square root: the squared distance from
      `p` to the reference point. The square root is strictly increasing on
      non-negative reals, so this key ranks points in the same order. */
  /** A square is never negative. */
  lemma SquareNonNegative(d: real)
    ensures d * d >= 0.0
  {
    if d < 0.0 {
      assert d * d == (-d) * (-d);
    }
  }

  function DistanceToCenter(p: Point): (r: real)
    ensures r >= 0.0
  {
    SquareNonNegative(p.x - CENTER.x);
    SquareNonNegative(p.y - CENTER.y);
    (p.x - CENTER.x) * (p.x - CENTER.x) + (p.y - CENTER.y) * (p.y - CENTER.y)
  }
}
