/** The 2D `Point` value type (`paul_lopez::cad::Point`, and the identical
    `Point` of the dynamic-allocation exercise): coordinates, constructors,
    conversions, operators and distances.

    `Point` is `Copy`: a setter or `*=` on a `Point` variable replaces its value,
    so each is modelled as a function returning the updated point. */
module Points {
  import opened Numeric

  /** The range of `i32`, for `From<i32>` and `PartialEq<i32>`. */
  predicate IsI32(v: int) {
    -0x8000_0000 <= v < 0x8000_0000
  }

  datatype Point = Point(x: real, y: real) {

    /** `Point::default()`: the origin. */
    static function Default(): (r: Point)
      ensures r.x == 0.0 && r.y == 0.0
    {
      Point(0.0, 0.0)
    }

    /** `Point::from_single_value(v)` and `From<f64>`: both coordinates `v`. */
    static function FromScalar(v: real): (r: Point)
      ensures r.x == v && r.y == v
    {
      Point(v, v)
    }

    /** `From<(f64, f64)>`. */
    static function FromPair(t: (real, real)): (r: Point)
      ensures r.x == t.0 && r.y == t.1
    {
      Point(t.0, t.1)
    }

    /** `From<i32>`: the integer converted to `f64` (exact for every `i32`). */
    static function FromI32(v: int): (r: Point)
      requires IsI32(v)
      ensures r == FromScalar(v as real)
    {
      var f := v as real;
      Point(f, f)
    }

    /** `set_x`: replaces the x coordinate and keeps y. */
    function SetX(newX: real): (r: Point)
      ensures r.x == newX && r.y == y
    {
      this.(x := newX)
    }

    /** `set_y`: replaces the y coordinate and keeps x. */
    function SetY(newY: real): (r: Point)
      ensures r.y == newY && r.x == x
    {
      this.(y := newY)
    }

    /** The radicand of `distance`: `dx*dx + dy*dy`. */
    function SquaredDistance(other: Point): (r: real)
      ensures r >= 0.0
    {
      var dx := x - other.x;
      var dy := y - other.y;
      dx * dx + dy * dy
    }

    /** `distance`: `sqrt(dx*dx + dy*dy)`. */
    ghost function Distance(other: Point): (r: real)
      ensures r >= 0.0
    {
      Sqrt(SquaredDistance(other))
    }

    /** `distance_to_origin`: `sqrt(x*x + y*y)`, computed without `distance`. */
    ghost function DistanceToOrigin(): (r: real)
      ensures r >= 0.0
      ensures r != 0.0 ==> r * r == x * x + y * y
      ensures x == 0.0 && y == 0.0 ==> r == 0.0
    {
      SqrtZero();
      Sqrt(x * x + y * y)
    }

    /** `magnitude`: delegates to `distance_to_origin`. */
    ghost function Magnitude(): (r: real)
      ensures r == DistanceToOrigin()
    {
      DistanceToOrigin()
    }

    /** `translate(dx, dy)`: a new point moved by the offset. */
    function Translate(dx: real, dy: real): (r: Point)
      ensures r == Add(Point(dx, dy))
    {
      Point(x + dx, y + dy)
    }

    /** Unary `-`. */
    function Neg(): (r: Point)
      ensures r.x == -x && r.y == -y
    {
      Point(-x, -y)
    }

    /** `point * factor`. */
    function Mul(factor: real): (r: Point)
      ensures r.x == x * factor && r.y == y * factor
    {
      Point(x * factor, y * factor)
    }

    /** `point + other`. */
    function Add(other: Point): (r: Point)
      ensures r.x == x + other.x && r.y == y + other.y
    {
      Point(x + other.x, y + other.y)
    }

    /** `point *= factor`: the variable afterwards holds `point * factor`. */
    function MulAssign(factor: real): (r: Point)
      ensures r == Mul(factor)
    {
      var scaledX := x * factor;
      var scaledY := y * factor;
      Point(scaledX, scaledY)
    }

    /** `PartialEq<f64>`: `point == v` iff both coordinates equal `v`. */
    predicate EqualsScalar(v: real)
      ensures EqualsScalar(v) <==> this == FromScalar(v)
    {
      x == v && y == v
    }

    /** `PartialEq<i32>`: compares against the integer converted to `f64`. */
    predicate EqualsI32(v: int)
      requires IsI32(v)
      ensures EqualsI32(v) <==> this == FromI32(v)
    {
      var f := v as real;
      x == f && y == f
    }
  }

  /** `f64 * Point`: defined as `point * self`, so it scales from the left too. */
  function ScalarMul(factor: real, p: Point): (r: Point)
    ensures r.x == factor * p.x && r.y == factor * p.y
  {
    p.Mul(factor)
  }

  /** `PartialEq<Point> for f64`: `v == point` defers to `point == v`. */
  predicate ScalarEquals(v: real, p: Point)
    ensures ScalarEquals(v, p) <==> p == Point.FromScalar(v)
  {
    p.EqualsScalar(v)
  }

  /** `PartialEq<Point> for i32`: `v == point` defers to `point == v`. */
  predicate I32Equals(v: int, p: Point)
    requires IsI32(v)
    ensures I32Equals(v, p) <==> p == Point.FromI32(v)
  {
    p.EqualsI32(v)
  }

  /** `From<f64>` and `PartialEq<f64>` agree: a converted scalar equals it. */
  lemma FromScalarEqualsScalar(v: real)
    ensures Point.FromScalar(v).EqualsScalar(v)
    ensures ScalarEquals(v, Point.FromScalar(v))
  {
  }

  /** Negation is an involution and cancels addition. */
  lemma NegInvolutive(p: Point)
    ensures p.Neg().Neg() == p
    ensures p.Add(p.Neg()) == Point.Default()
  {
  }

  /** Addition is commutative and associative, with the origin as identity. */
  lemma AddLaws(p: Point, q: Point, s: Point)
    ensures p.Add(q) == q.Add(p)
    ensures p.Add(q).Add(s) == p.Add(q.Add(s))
    ensures p.Add(Point.Default()) == p
  {
  }

  /** `p * k == k * p`, and after `p *= k` the point equals `k * p`. */
  lemma MulBothOrders(p: Point, k: real)
    ensures p.Mul(k) == ScalarMul(k, p)
    ensures p.MulAssign(k) == ScalarMul(k, p)
  {
  }

  /** Scaling distributes over addition and composes multiplicatively. */
  lemma MulLaws(p: Point, q: Point, k: real, m: real)
    ensures p.Add(q).Mul(k) == p.Mul(k).Add(q.Mul(k))
    ensures p.Mul(k).Mul(m) == p.Mul(k * m)
    ensures p.Mul(1.0) == p
    ensures p.Mul(-1.0) == p.Neg()
  {
  }

  /** Translating twice is translating by the summed offsets. */
  lemma TranslateComposes(p: Point, dx1: real, dy1: real, dx2: real, dy2: real)
    ensures p.Translate(dx1, dy1).Translate(dx2, dy2) == p.Translate(dx1 + dx2, dy1 + dy2)
  {
  }

  /** `distance` is symmetric and zero from a point to itself. */
  lemma DistanceSymmetric(p: Point, q: Point)
    ensures p.Distance(q) == q.Distance(p)
    ensures p.Distance(p) == 0.0
  {
    assert (p.x - q.x) * (p.x - q.x) == (q.x - p.x) * (q.x - p.x);
    assert (p.y - q.y) * (p.y - q.y) == (q.y - p.y) * (q.y - p.y);
    assert (p.x - p.x) * (p.x - p.x) + (p.y - p.y) * (p.y - p.y) == 0.0;
    SqrtZero();
  }

  /** `distance_to_origin` and `magnitude` both equal the distance to `Point::default()`. */
  lemma DistanceToOriginIsDistance(p: Point)
    ensures p.DistanceToOrigin() == p.Distance(Point.Default())
    ensures p.Magnitude() == p.Distance(Point.Default())
  {
    assert (p.x - 0.0) * (p.x - 0.0) == p.x * p.x;
    assert (p.y - 0.0) * (p.y - 0.0) == p.y * p.y;
  }

  /** Moving both points by the same offset keeps their distance. */
  lemma DistanceTranslationInvariant(p: Point, q: Point, dx: real, dy: real)
    ensures p.Translate(dx, dy).Distance(q.Translate(dx, dy)) == p.Distance(q)
  {
    var a, b := p.Translate(dx, dy), q.Translate(dx, dy);
    assert a.x - b.x == p.x - q.x && a.y - b.y == p.y - q.y;
    assert (a.x - b.x) * (a.x - b.x) + (a.y - b.y) * (a.y - b.y)
        == (p.x - q.x) * (p.x - q.x) + (p.y - q.y) * (p.y - q.y);
    assert a.SquaredDistance(b) == p.SquaredDistance(q);
  }

  /** Distances along one axis are the absolute coordinate difference,
      e.g. from (0, 0) to (4, 0) is 4. */
  lemma DistanceAlongAxis(p: Point, q: Point)
    ensures p.y == q.y ==> p.Distance(q) == Abs(p.x - q.x)
    ensures p.x == q.x ==> p.Distance(q) == Abs(p.y - q.y)
  {
    if p.y == q.y {
      var d := Abs(p.x - q.x);
      assert d * d == (p.x - q.x) * (p.x - q.x) by {
        if p.x - q.x < 0.0 { assert d == -(p.x - q.x); }
      }
      assert p.SquaredDistance(q) == d * d;
      SqrtUnique(p.SquaredDistance(q), d);
    }
    if p.x == q.x {
      var d := Abs(p.y - q.y);
      assert d * d == (p.y - q.y) * (p.y - q.y) by {
        if p.y - q.y < 0.0 { assert d == -(p.y - q.y); }
      }
      assert p.SquaredDistance(q) == d * d;
      SqrtUnique(p.SquaredDistance(q), d);
    }
  }

  /** The 3-4-5 triangle the tests pin down: (0,0) to (3,4) is exactly 5. */
  lemma DistanceThreeFourFive()
    ensures Point(0.0, 0.0).Distance(Point(3.0, 4.0)) == 5.0
    ensures Point(3.0, 4.0).DistanceToOrigin() == 5.0
  {
    SqrtUnique(25.0, 5.0);
  }

  /** `create_heap_point(x, y)`: the boxed point holds exactly `(x, y)`. */
  function CreateHeapPoint(x: real, y: real): (r: Point)
    ensures r.x == x && r.y == y
  {
    Point(x, y)
  }

  /** `create_point_array(n)`: `n` points on the parabola `y = x*x`, the
      i-th at `x = i`. */
  function CreatePointArray(size: nat): (r: seq<Point>)
    ensures |r| == size
    ensures forall i :: 0 <= i < size ==> r[i].x == i as real && r[i].y == r[i].x * r[i].x
  {
    seq(size, i => Point(i as real, (i * i) as real))
  }

  /** `create_boxed_point_array(n)`: `n` points on the ray `3x = 2y`, the
      i-th at `x = 2i`. */
  function CreateBoxedPointArray(size: nat): (r: seq<Point>)
    ensures |r| == size
    ensures forall i :: 0 <= i < size ==> r[i].x == (2 * i) as real && 3.0 * r[i].x == 2.0 * r[i].y
  {
    seq(size, i => Point((i * 2) as real, (i * 3) as real))
  }
}
