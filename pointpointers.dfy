/** The boxed-point helpers of the heap-allocation exercise: the centroid of
    a slice of points, the generated pointer array, and the in-place scaling
    pass over it. A `Box<Point>` is modelled by the `Point` it owns. */
module PointPointers {
  import opened Points

  /** `points.iter().map(|p| p.x()).sum()`, summed left to right. */
  function SumX(ps: seq<Point>): (r: real)
    ensures |ps| == 1 ==> r == ps[0].x
  {
    if |ps| == 0 then 0.0 else SumX(ps[..|ps| - 1]) + ps[|ps| - 1].x
  }

  /** `points.iter().map(|p| p.y()).sum()`, summed left to right. */
  function SumY(ps: seq<Point>): (r: real)
    ensures |ps| == 1 ==> r == ps[0].y
  {
    if |ps| == 0 then 0.0 else SumY(ps[..|ps| - 1]) + ps[|ps| - 1].y
  }

  /** `calculate_centroid`: the origin for no points, otherwise the point
      whose coordinates times the count are the coordinate sums. */
  function CalculateCentroid(points: seq<Point>): (r: Point)
    ensures |points| == 0 ==> r == Point.Default()
    ensures |points| > 0 ==> r.x * |points| as real == SumX(points) && r.y * |points| as real == SumY(points)
  {
    if |points| == 0 then Point.Default()
    else
      var count := |points| as real;
      Point(SumX(points) / count, SumY(points) / count)
  }

  /** The coordinate sums of `n` copies of one point are `n` times its
      coordinates. */
  lemma {:induction false} SumsOfCopies(ps: seq<Point>, p: Point)
    requires forall k :: 0 <= k < |ps| ==> ps[k] == p
    ensures SumX(ps) == |ps| as real * p.x && SumY(ps) == |ps| as real * p.y
  {
    if |ps| > 0 {
      SumsOfCopies(ps[..|ps| - 1], p);
    }
  }

  /** The centroid of copies of one point is that point. */
  lemma CentroidOfCopies(ps: seq<Point>, p: Point)
    requires |ps| > 0 && forall k :: 0 <= k < |ps| ==> ps[k] == p
    ensures CalculateCentroid(ps) == p
  {
    SumsOfCopies(ps, p);
    var n := |ps| as real;
    assert (n * p.x) / n == p.x && (n * p.y) / n == p.y;
  }

  /** The pinned example: (0,0), (2,0), (1,2) have centroid (1, 2/3). */
  lemma CentroidExample()
    ensures CalculateCentroid([Point(0.0, 0.0), Point(2.0, 0.0), Point(1.0, 2.0)]) == Point(1.0, 2.0 / 3.0)
  {
    var p1 := [Point(0.0, 0.0)];
    var p2 := p1 + [Point(2.0, 0.0)];
    var ps := p2 + [Point(1.0, 2.0)];
    assert p1[..0] == [] && p2[..1] == p1 && ps[..2] == p2;
    assert SumX(p1) == 0.0 && SumY(p1) == 0.0;
    assert SumX(p2) == 2.0 && SumY(p2) == 0.0;
    assert SumX(ps) == 3.0 && SumY(ps) == 2.0;
    assert ps == [Point(0.0, 0.0), Point(2.0, 0.0), Point(1.0, 2.0)];
  }

  /** `create_point_pointer_array(n)`: `n` points on the line `y = x + 5`,
      the i-th at `x = 10 i`. */
  function CreatePointPointerArray(size: nat): (r: seq<Point>)
    ensures |r| == size
    ensures forall i :: 0 <= i < size ==> r[i].x == i as real * 10.0 && r[i].y == r[i].x + 5.0
  {
    seq(size, i => Point(i as real * 10.0, (i as real * 10.0) + 5.0))
  }

  /** What `process_point_array` leaves behind: point `i` scaled by `i + 1`. */
  function ScaledByPosition(ps: seq<Point>): (r: seq<Point>)
    ensures |r| == |ps|
  {
    seq(|ps|, i requires 0 <= i < |ps| => ps[i].Mul((i + 1) as real))
  }

  /** The inverse pass: point `i` divided by `i + 1`. */
  function UnscaledByPosition(ps: seq<Point>): (r: seq<Point>)
    ensures |r| == |ps|
  {
    seq(|ps|, i requires 0 <= i < |ps| => ps[i].Mul(1.0 / (i + 1) as real))
  }

  /** Scaling by position loses nothing: dividing each point by its
      multiplier again restores the input. */
  lemma ScaledByPositionInvertible(ps: seq<Point>)
    ensures UnscaledByPosition(ScaledByPosition(ps)) == ps
  {
    var back := UnscaledByPosition(ScaledByPosition(ps));
    forall i | 0 <= i < |ps|
      ensures back[i] == ps[i]
    {
      var m := (i + 1) as real;
      assert back[i] == ps[i].Mul(m).Mul(1.0 / m);
      MulLaws(ps[i], ps[i], m, 1.0 / m);
      assert m * (1.0 / m) == 1.0;
    }
  }

  /** `process_point_array`: overwrites each point, in index order, with
      itself scaled by its position plus one; the length is unchanged. */
  method ProcessPointArray(points: array<Point>)
    modifies points
    ensures points[..] == ScaledByPosition(old(points[..]))
  {
    for i := 0 to points.Length
      invariant forall k :: 0 <= k < i ==> points[k] == old(points[k]).Mul((k + 1) as real)
      invariant forall k :: i <= k < points.Length ==> points[k] == old(points[k])
    {
      var multiplier := (i + 1) as real;
      points[i] := Point(points[i].x * multiplier, points[i].y * multiplier);
    }
  }

  /** The pinned example: (1,1), (2,2), (3,3) become (1,1), (4,4), (9,9). */
  lemma ProcessPointArrayExample()
    ensures ScaledByPosition([Point(1.0, 1.0), Point(2.0, 2.0), Point(3.0, 3.0)])
         == [Point(1.0, 1.0), Point(4.0, 4.0), Point(9.0, 9.0)]
  {
  }
}
