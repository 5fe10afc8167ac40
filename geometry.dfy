/** The parts of nalgebra (and of `std::f32::consts`) that the simulation
    relies on. Points, vectors, `wrap`, `clamp`, `min`, `max` and the
    `as usize` cast are written out; square root and the trigonometric
    functions are foreign and arrive as the fields of a `Geometry` value. */
module Geometry {
  import opened Random

  /** Decimal approximations of the `std::f32::consts` values used. */
  const PI: real := 3.14159265358979
  const FRAC_PI_2: real := PI / 2.0
  const FRAC_PI_4: real := PI / 4.0

  /** `na::Point2<f32>` and `na::Vector2<f32>` alike. */
  datatype Point = Point(x: real, y: real)

  function Add(p: Point, v: Point): Point
  {
    Point(p.x + v.x, p.y + v.y)
  }

  function Sub(p: Point, q: Point): Point
  {
    Point(p.x - q.x, p.y - q.y)
  }

  /** Both coordinates in the closed unit interval. */
  predicate InUnitSquare(p: Point)
  {
    0.0 <= p.x <= 1.0 && 0.0 <= p.y <= 1.0
  }

  /** The foreign numeric primitives. */
  datatype Geometry = Geometry(
    sqrt: real -> real,
    atan2: (real, real) -> real,
    sin: real -> real,
    cos: real -> real)

  /** What the model assumes of the foreign primitives: a square root is never negative. */
  ghost predicate Lawful(g: Geometry)
  {
    forall x :: 0.0 <= g.sqrt(x)
  }

  /** `v.norm()`: the Euclidean length of `v`. */
  function Norm(g: Geometry, v: Point): real
  {
    g.sqrt(v.x * v.x + v.y * v.y)
  }

  /** `na::distance(p, q)`. */
  function Distance(g: Geometry, p: Point, q: Point): real
  {
    Norm(g, Sub(q, p))
  }

  /** `Rotation2::rotation_between(&Vector2::y(), &v).angle()`: the signed angle
      from the y axis to `v`, atan2 of their cross and dot products. */
  function AngleFromY(g: Geometry, v: Point): real
  {
    g.atan2(-v.x, v.y)
  }

  /** `Rotation2::new(angle) * v`. */
  function Rotate(g: Geometry, angle: real, v: Point): Point
  {
    Point(g.cos(angle) * v.x - g.sin(angle) * v.y, g.sin(angle) * v.x + g.cos(angle) * v.y)
  }

  function Min(a: real, b: real): real
  {
    if a <= b then a else b
  }

  function Max(a: real, b: real): real
  {
    if a >= b then a else b
  }

  function Abs(a: real): real
  {
    if a < 0.0 then -a else a
  }

  /** `f32::clamp(self, lo, hi)`. */
  function Clamp(x: real, lo: real, hi: real): (r: real)
    requires lo <= hi
    ensures lo <= r <= hi
    ensures lo <= x <= hi ==> r == x
    ensures x < lo ==> r == lo
    ensures hi < x ==> r == hi
  {
    if x < lo then lo else if x > hi then hi else x
  }

  /** The smallest integer not below `x`. */
  function Ceil(x: real): (k: int)
    ensures x <= k as real < x + 1.0
  {
    -((-x).Floor)
  }

  /** `x as usize` for a float: truncation, saturating at zero. */
  function ToUsize(x: real): (n: nat)
    ensures 0.0 <= x ==> n as real <= x < n as real + 1.0
    ensures x < 1.0 ==> n == 0
  {
    if x < 0.0 then 0 else x.Floor
  }

  /** Scaling `x <= k < x + 1` by the width of a range `a / w`. */
  lemma ScaleBetween(k: real, a: real, w: real)
    requires 0.0 < w && a / w <= k < a / w + 1.0
    ensures a <= k * w < a + w
  {
    var x := a / w;
    assert x * w == a;
    var d := k - x;
    assert 0.0 <= d < 1.0;
    assert d * w < 1.0 * w;
    assert k * w == a + d * w;
  }

  /** `na::wrap(val, min, max)`: adds or subtracts the width `max - min` until
      the value lies in the range; written here in closed form. */
  function Wrap(val: real, min: real, max: real): (r: real)
    requires min < max
    ensures min <= r <= max
    ensures min <= val <= max ==> r == val
  {
    var width := max - min;
    if val < min then
      var k := Ceil((min - val) / width);
      ScaleBetween(k as real, min - val, width);
      val + k as real * width
    else if val > max then
      var k := Ceil((val - max) / width);
      ScaleBetween(k as real, val - max, width);
      val - k as real * width
    else
      val
  }

  /** `rng.gen::<na::Point2<f32>>()`: x is drawn first, then y, each in [0, 1). */
  function RandomPoint(rng: Rng): (r: (Point, Rng))
    ensures InUnitSquare(r.0) && r.0.x < 1.0 && r.0.y < 1.0
    ensures r.1 == Rng(rng.stream, rng.next + 2)
  {
    var x := Gen(rng);
    var y := Gen(x.1);
    (Point(x.0, y.0), y.1)
  }

  /** `rng.gen::<na::Rotation2<f32>>()`: an angle drawn uniformly from [0, 2π). */
  function RandomRotation(rng: Rng): (r: (real, Rng))
    ensures 0.0 <= r.0 < 2.0 * PI
    ensures r.1 == Rng(rng.stream, rng.next + 1)
  {
    var u := Gen(rng);
    (2.0 * PI * u.0, u.1)
  }
}
