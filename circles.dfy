/** The `Circle` value type (`paul_lopez::cad::Circle`, and the `Circle` of
    the dynamic-allocation exercise with its builders and the pairwise
    intersection scan).

    `Circle` is `Copy`: `set_center`/`set_radius` on a variable replace its
    value, so they are modelled as functions returning the updated circle. */
module Circles {
  import opened Numeric
  import opened Points
  import opened Lines

  datatype Circle = Circle(center: Point, radius: real) {

    /** `unit_circle()`: radius 1 at the origin. */
    static function UnitCircle(): (r: Circle)
      ensures r.center == Point.Default() && r.radius == 1.0
    {
      Circle(Point.Default(), 1.0)
    }

    /** `Circle::default()`: the unit circle. */
    static function Default(): (r: Circle)
      ensures r == UnitCircle()
    {
      Circle(Point(0.0, 0.0), 1.0)
    }

    /** `at_origin(r)`: radius `r` at the origin. */
    static function AtOrigin(radius: real): (r: Circle)
      ensures r.center == Point.Default() && r.radius == radius
    {
      Circle(Point.Default(), radius)
    }

    /** `from_center_value(v, r)`: centered at `(v, v)` via `From<f64>`. */
    static function FromCenterValue(centerValue: real, radius: real): (r: Circle)
      ensures r.center.EqualsScalar(centerValue) && r.radius == radius
    {
      Circle(Point.FromScalar(centerValue), radius)
    }

    /** `set_center`: replaces the center and keeps the radius. */
    function SetCenter(p: Point): (r: Circle)
      ensures r.center == p && r.radius == radius
    {
      this.(center := p)
    }

    /** `set_radius`: replaces the radius and keeps the center. */
    function SetRadius(newRadius: real): (r: Circle)
      ensures r.radius == newRadius && r.center == center
    {
      this.(radius := newRadius)
    }

    /** `diameter`: twice the radius. */
    function Diameter(): (r: real)
      ensures r == radius + radius
    {
      2.0 * radius
    }

    /** `contains_point`: the distance from the center is at most the
        radius (the boundary counts as inside). */
    ghost predicate ContainsPoint(p: Point)
      ensures ContainsPoint(p) ==> radius >= 0.0
    {
      center.Distance(p) <= radius
    }

    /** `point_on_boundary`: the distance from the center is within `1e-10`
        of the radius. */
    ghost predicate PointOnBoundary(p: Point)
      ensures PointOnBoundary(p) <==> radius - Tolerance < center.Distance(p) < radius + Tolerance
      ensures PointOnBoundary(p) ==> radius > -Tolerance
    {
      Abs(center.Distance(p) - radius) < Tolerance
    }

    /** `translate(dx, dy)` of the namespaced copy: only the center moves. */
    function Translate(dx: real, dy: real): (r: Circle)
      ensures r.center == center.Translate(dx, dy) && r.radius == radius
      ensures r == TranslateBy(Point(dx, dy))
    {
      Circle(center.Translate(dx, dy), radius)
    }

    /** `translate(offset)` of the dynamic-allocation copy: the center moves
        by `center + offset`, the radius stays. */
    function TranslateBy(offset: Point): (r: Circle)
      ensures r.center == center.Add(offset) && r.radius == radius
    {
      Circle(center.Add(offset), radius)
    }

    /** `scale(f)`: the center stays and the radius, hence the diameter, is
        multiplied by `f`. */
    function Scale(factor: real): (r: Circle)
      ensures r.center == center && r.radius == radius * factor
      ensures r.Diameter() == Diameter() * factor
    {
      Circle(center, radius * factor)
    }

    /** `bounding_box`: the square `center ± radius`, as wide and as tall as
        the diameter and centered on the circle. */
    function BoundingBox(): (r: (Point, Point))
      ensures r.1.x - r.0.x == Diameter() && r.1.y - r.0.y == Diameter()
      ensures Line(r.0, r.1).Midpoint() == center
    {
      (Point(center.x - radius, center.y - radius), Point(center.x + radius, center.y + radius))
    }

    /** `intersects`: the center distance lies between the difference and
        the sum of the radii, both ends included. */
    ghost predicate Intersects(other: Circle)
      ensures Intersects(other) ==> radius + other.radius >= 0.0
      ensures Intersects(other) <==>
        var d := center.Distance(other.center);
        radius - other.radius <= d && other.radius - radius <= d && d <= radius + other.radius
    {
      var d := center.Distance(other.center);
      d >= Abs(radius - other.radius) && d <= radius + other.radius
    }
  }

  /** `intersects` does not depend on the order of the two circles. */
  lemma IntersectsSymmetric(a: Circle, b: Circle)
    ensures a.Intersects(b) <==> b.Intersects(a)
  {
    DistanceSymmetric(a.center, b.center);
    AbsNeg(a.radius - b.radius);
    assert -(a.radius - b.radius) == b.radius - a.radius;
  }

  /** A circle intersects itself exactly when its radius is non-negative;
      two concentric circles of different radii never intersect. */
  lemma IntersectsConcentric(a: Circle, radius: real)
    ensures a.Intersects(a) <==> a.radius >= 0.0
    ensures a.radius != radius ==> !a.Intersects(a.SetRadius(radius))
  {
    DistanceSymmetric(a.center, a.center);
  }

  /** Translating a circle and a point together keeps containment and the
      boundary test; translating two circles together keeps `intersects`. */
  lemma TranslationInvariant(c: Circle, other: Circle, p: Point, dx: real, dy: real)
    ensures c.Translate(dx, dy).ContainsPoint(p.Translate(dx, dy)) <==> c.ContainsPoint(p)
    ensures c.Translate(dx, dy).PointOnBoundary(p.Translate(dx, dy)) <==> c.PointOnBoundary(p)
    ensures c.Translate(dx, dy).Intersects(other.Translate(dx, dy)) <==> c.Intersects(other)
  {
    DistanceTranslationInvariant(c.center, p, dx, dy);
    DistanceTranslationInvariant(c.center, other.center, dx, dy);
  }

  /** A circle contains its center exactly when its radius is non-negative,
      and a point at distance exactly `radius` is both inside and on the
      boundary. */
  lemma ContainsCenterAndRim(c: Circle, p: Point)
    ensures c.ContainsPoint(c.center) <==> c.radius >= 0.0
    ensures c.center.Distance(p) == c.radius ==> c.ContainsPoint(p) && c.PointOnBoundary(p)
  {
    DistanceSymmetric(c.center, c.center);
  }

  /** The pinned examples: radius 5 at the origin contains (3,4) and (5,0)
      but not (6,0); the circle of radius 3 at the origin meets the one of
      radius 2 at (4,0) and misses the one of radius 1 at (10,0). */
  lemma CircleExamples()
    ensures Circle(Point(0.0, 0.0), 5.0).ContainsPoint(Point(3.0, 4.0))
    ensures Circle(Point(0.0, 0.0), 5.0).ContainsPoint(Point(5.0, 0.0))
    ensures !Circle(Point(0.0, 0.0), 5.0).ContainsPoint(Point(6.0, 0.0))
    ensures Circle(Point(0.0, 0.0), 3.0).Intersects(Circle(Point(4.0, 0.0), 2.0))
    ensures !Circle(Point(0.0, 0.0), 3.0).Intersects(Circle(Point(10.0, 0.0), 1.0))
  {
    DistanceThreeFourFive();
    var o := Point(0.0, 0.0);
    DistanceAlongAxis(o, Point(5.0, 0.0));
    DistanceAlongAxis(o, Point(6.0, 0.0));
    DistanceAlongAxis(o, Point(4.0, 0.0));
    DistanceAlongAxis(o, Point(10.0, 0.0));
  }

  /** `create_heap_circle(c, r)`: the boxed circle of center `c`, radius `r`. */
  function CreateHeapCircle(center: Point, radius: real): (r: Circle)
    ensures r.center == center && r.radius == radius
  {
    Circle(center, radius)
  }

  /** `create_circle_array(n)`: `n` circles along the diagonal, the i-th
      centered at `(i, i)` with radius `i + 1`. */
  function CreateCircleArray(size: nat): (r: seq<Circle>)
    ensures |r| == size
    ensures forall i :: 0 <= i < size ==>
      r[i].center.EqualsScalar(i as real) && r[i].radius == r[i].center.x + 1.0
  {
    seq(size, i => Circle(Point(i as real, i as real), (i + 1) as real))
  }

  /** `create_boxed_circle_array(n)`: `n` circles, the i-th centered at
      `(2i, 3i)` with radius `(i + 1) / 2`. */
  function CreateBoxedCircleArray(size: nat): (r: seq<Circle>)
    ensures |r| == size
    ensures forall i :: 0 <= i < size ==>
      r[i].center == Point((2 * i) as real, (3 * i) as real) && r[i].radius == (i + 1) as real / 2.0
  {
    seq(size, i => Circle(Point((i * 2) as real, (i * 3) as real), (i + 1) as real * 0.5))
  }

  /** `create_concentric_circles(c, count, step)`: `count` circles centered
      at `c`, the k-th (from 0) of radius `(k + 1) * step`. */
  function CreateConcentricCircles(center: Point, count: nat, step: real): (r: seq<Circle>)
    ensures |r| == count
    ensures forall k :: 0 <= k < count ==> r[k].center == center && r[k].radius == (k + 1) as real * step
  {
    seq(count, k => Circle(center, (k + 1) as real * step))
  }

  /** With a non-zero step no two concentric rings intersect, and with a
      positive step the radii strictly increase. */
  lemma ConcentricRingsDisjoint(center: Point, count: nat, step: real, i: nat, j: nat)
    requires step != 0.0 && i < j < count
    ensures !CreateConcentricCircles(center, count, step)[i].Intersects(CreateConcentricCircles(center, count, step)[j])
    ensures step > 0.0 ==> CreateConcentricCircles(center, count, step)[i].radius < CreateConcentricCircles(center, count, step)[j].radius
  {
    var cs := CreateConcentricCircles(center, count, step);
    assert cs[j].radius - cs[i].radius == (j - i) as real * step;
    IntersectsConcentric(cs[i], cs[j].radius);
    assert cs[j] == cs[i].SetRadius(cs[j].radius);
  }

  /** The point a fraction `t` of the way from `a` to `b`. */
  function Lerp(a: Point, b: Point, t: real): (r: Point)
    ensures t == 0.0 ==> r == a
    ensures t == 1.0 ==> r == b
    ensures t == 0.5 ==> r == Line(a, b).Midpoint()
  {
    Point(a.x + t * (b.x - a.x), a.y + t * (b.y - a.y))
  }

  /** `create_circles_along_line(start, end, count, radius)`: no circle for
      count 0, one at `start` for count 1, otherwise `count` circles of the
      given radius evenly spaced from `start` to `end`. */
  function CreateCirclesAlongLine(start: Point, end: Point, count: nat, radius: real): (r: seq<Circle>)
    ensures |r| == count
    ensures forall i :: 0 <= i < count ==> r[i].radius == radius
    ensures count >= 1 ==> r[0].center == start
    ensures count >= 2 ==> r[count - 1].center == end
    ensures count >= 2 ==> forall i :: 0 <= i < count ==>
      r[i].center == Lerp(start, end, i as real / (count - 1) as real)
  {
    if count == 0 then []
    else if count == 1 then [Circle(start, radius)]
    else seq(count, i => Circle(Lerp(start, end, i as real / (count - 1) as real), radius))
  }

  /** With an odd count of at least three, the middle circle sits at the
      midpoint of the segment (the test's five circles from (0,0) to (4,0)
      put the third at (2,0)). */
  lemma CirclesAlongLineMiddle(start: Point, end: Point, half: nat, radius: real)
    requires half >= 1
    ensures CreateCirclesAlongLine(start, end, 2 * half + 1, radius)[half].center == Line(start, end).Midpoint()
  {
    var count := 2 * half + 1;
    var cs := CreateCirclesAlongLine(start, end, count, radius);
    var t := half as real / (count - 1) as real;
    assert t == 0.5 by {
      assert (count - 1) as real == 2.0 * half as real;
    }
    assert cs[half].center == Lerp(start, end, t);
  }

  /** `create_circles_along_line` spaces its centers evenly: each step is
      the same fraction of `end - start`. */
  lemma CirclesAlongLineEvenSpacing(start: Point, end: Point, count: nat, radius: real, i: nat)
    requires count >= 2 && i + 1 < count
    ensures CreateCirclesAlongLine(start, end, count, radius)[i + 1].center
         == CreateCirclesAlongLine(start, end, count, radius)[i].center.Add(end.Add(start.Neg()).Mul(1.0 / (count - 1) as real))
  {
    var n := (count - 1) as real;
    var ti, tj := i as real / n, (i + 1) as real / n;
    assert tj == ti + 1.0 / n;
    LerpStep(start.x, end.x, ti, 1.0 / n);
    LerpStep(start.y, end.y, ti, 1.0 / n);
  }

  /** One coordinate of `Lerp`: advancing `t` by `s` adds `s` times the
      span. */
  lemma LerpStep(a: real, b: real, t: real, s: real)
    ensures a + (t + s) * (b - a) == (a + t * (b - a)) + (b - a) * s
  {
  }

  // ---------------------------------------------------------------------
  // `analyze_circle_intersections`

  /** The pairs `(i, k)` with `j <= k < |cs|` whose circles intersect, in
      increasing `k`. */
  ghost function RowPairs(cs: seq<Circle>, i: nat, j: nat): seq<(nat, nat)>
    requires i < |cs|
    decreases |cs| - j
  {
    if j >= |cs| then []
    else (if cs[i].Intersects(cs[j]) then [(i, j)] else []) + RowPairs(cs, i, j + 1)
  }

  /** The intersecting pairs `(i, j)` with `from <= i < j < |cs|`, row by
      row. */
  ghost function PairsFrom(cs: seq<Circle>, from: nat): seq<(nat, nat)>
    decreases |cs| - from
  {
    if from >= |cs| then [] else RowPairs(cs, from, from + 1) + PairsFrom(cs, from + 1)
  }

  /** All intersecting pairs of a slice, in the order the scan finds them. */
  ghost function IntersectionPairs(cs: seq<Circle>): seq<(nat, nat)> {
    PairsFrom(cs, 0)
  }

  /** Strict lexicographic order on index pairs. */
  predicate PairLess(a: (nat, nat), b: (nat, nat)) {
    a.0 < b.0 || (a.0 == b.0 && a.1 < b.1)
  }

  /** A sequence of index pairs in strictly increasing lexicographic order
      (hence without duplicates). */
  predicate StrictlySorted(ps: seq<(nat, nat)>) {
    forall k :: 0 <= k < |ps| - 1 ==> PairLess(ps[k], ps[k + 1])
  }

  lemma {:induction false} RowPairsSpec(cs: seq<Circle>, i: nat, j: nat)
    requires i < |cs|
    ensures forall p :: p in RowPairs(cs, i, j) <==>
      p.0 == i && j <= p.1 < |cs| && cs[i].Intersects(cs[p.1])
    ensures StrictlySorted(RowPairs(cs, i, j))
    ensures forall k :: 0 <= k < |RowPairs(cs, i, j)| ==> RowPairs(cs, i, j)[k].1 >= j
    decreases |cs| - j
  {
    if j < |cs| {
      RowPairsSpec(cs, i, j + 1);
    }
  }

  lemma {:induction false} PairsFromSpec(cs: seq<Circle>, from: nat)
    ensures forall p :: p in PairsFrom(cs, from) <==>
      from <= p.0 < p.1 < |cs| && cs[p.0].Intersects(cs[p.1])
    ensures StrictlySorted(PairsFrom(cs, from))
    ensures forall k :: 0 <= k < |PairsFrom(cs, from)| ==> PairsFrom(cs, from)[k].0 >= from
    decreases |cs| - from
  {
    if from < |cs| {
      RowPairsSpec(cs, from, from + 1);
      PairsFromSpec(cs, from + 1);
      var row, rest := RowPairs(cs, from, from + 1), PairsFrom(cs, from + 1);
      assert PairsFrom(cs, from) == row + rest;
      forall k | 0 <= k < |row + rest| - 1
        ensures PairLess((row + rest)[k], (row + rest)[k + 1])
      {
        if k + 1 < |row| {
          assert (row + rest)[k] == row[k] && (row + rest)[k + 1] == row[k + 1];
        } else if k + 1 == |row| {
          assert row[k] in row;
          assert (row + rest)[k + 1] == rest[0];
        } else {
          assert (row + rest)[k] == rest[k - |row|];
          assert (row + rest)[k + 1] == rest[k + 1 - |row|];
        }
      }
    }
  }

  /** `analyze_circle_intersections` lists exactly the pairs `i < j` whose
      circles intersect, in strictly increasing lexicographic order. */
  lemma IntersectionPairsSpec(cs: seq<Circle>)
    ensures forall p :: p in IntersectionPairs(cs) <==>
      p.0 < p.1 < |cs| && cs[p.0].Intersects(cs[p.1])
    ensures StrictlySorted(IntersectionPairs(cs))
  {
    PairsFromSpec(cs, 0);
  }

  /** `analyze_circle_intersections`: the nested `i < j` scan pushing each
      intersecting pair. Ghost because `intersects` needs the real
      square root. */
  ghost method AnalyzeCircleIntersections(circles: seq<Circle>) returns (intersections: seq<(nat, nat)>)
    ensures intersections == IntersectionPairs(circles)
  {
    intersections := [];
    var i := 0;
    while i < |circles|
      invariant 0 <= i <= |circles|
      invariant intersections + PairsFrom(circles, i) == IntersectionPairs(circles)
    {
      var rest := PairsFrom(circles, i + 1);
      assert PairsFrom(circles, i) == RowPairs(circles, i, i + 1) + rest;
      assert intersections + (RowPairs(circles, i, i + 1) + rest)
          == intersections + RowPairs(circles, i, i + 1) + rest;
      var j := i + 1;
      while j < |circles|
        invariant i + 1 <= j <= |circles|
        invariant intersections + RowPairs(circles, i, j) + rest == IntersectionPairs(circles)
      {
        var c1, c2 := circles[i], circles[j];
        var hit := if c1.Intersects(c2) then [(i, j)] else [];
        assert RowPairs(circles, i, j) == hit + RowPairs(circles, i, j + 1);
        assert intersections + (hit + RowPairs(circles, i, j + 1))
            == (intersections + hit) + RowPairs(circles, i, j + 1);
        if c1.Intersects(c2) {
          intersections := intersections + [(i, j)];
        }
        j := j + 1;
      }
      assert RowPairs(circles, i, j) == [];
      assert intersections + [] == intersections;
      i := i + 1;
    }
  }
}
