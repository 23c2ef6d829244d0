/** The bounds-forgiving `Array` of points (`paul_lopez::containers::Array`
    and the identical `Array` of the copy-semantics exercise).

    The array owns a growable buffer of points that its methods edit in
    place. Out-of-range writes through `set_element` are ignored, while
    out-of-range reads and `[]` writes fall back to slot 0, which panics on
    an empty array: those accessors require a non-empty buffer. */
module Containers {
  import opened Numeric
  import opened Wrappers
  import opened Points
  import opened Lines
  import opened PointPointers

  /** `containers::DEFAULT_CAPACITY`, the size of `Array::new()`. */
  const DefaultCapacity: nat := 10

  /** `n` default points, as `vec![Point::default(); n]` builds them. */
  function Defaults(n: nat): (r: seq<Point>)
    ensures |r| == n && forall i :: 0 <= i < n ==> r[i] == Point.Default()
  {
    seq(n, _ => Point.Default())
  }

  /** `Vec::resize(n, Point::default())`: truncated to `n`, or padded with
      default points up to `n`. */
  function Resized(s: seq<Point>, n: nat): (r: seq<Point>)
    ensures |r| == n
    ensures forall i :: 0 <= i < n && i < |s| ==> r[i] == s[i]
    ensures forall i :: |s| <= i < n ==> r[i] == Point.Default()
  {
    if n <= |s| then s[..n] else s + Defaults(n - |s|)
  }

  /** Resizing to the current size changes nothing, and shrinking after a
      resize is the same as resizing straight to the smaller size. */
  lemma ResizedLaws(s: seq<Point>, m: nat, n: nat)
    ensures Resized(s, |s|) == s
    ensures n <= m ==> Resized(Resized(s, m), n) == Resized(s, n)
  {
    assert s[..|s|] == s;
  }

  class Array {
    /** The owned `Vec<Point>`. */
    var data: seq<Point>

    /** `Array::new()` / `Default`: `DEFAULT_CAPACITY` default points. */
    constructor New()
      ensures data == Defaults(DefaultCapacity)
    {
      data := Defaults(DefaultCapacity);
    }

    /** `with_size(n)`: `n` default points. */
    constructor WithSize(size: nat)
      ensures data == Defaults(size)
    {
      data := Defaults(size);
    }

    /** `from_vec` / `From<Vec<Point>>`: takes the vector over as is. */
    constructor FromVec(points: seq<Point>)
      ensures data == points
    {
      data := points;
    }

    /** `size`. */
    function Size(): (r: nat)
      reads this
      ensures r == |data|
    {
      |data|
    }

    /** `is_empty`. */
    predicate IsEmpty()
      reads this
      ensures IsEmpty() <==> Size() == 0
    {
      data == []
    }

    /** `From<Array> for Vec<Point>`: hands the buffer back. */
    function ToVec(): (r: seq<Point>)
      reads this
      ensures |r| == Size() && forall i :: 0 <= i < |r| ==> r[i] == data[i]
    {
      data
    }

    /** `get_element(i)` and `arr[i]` reads: slot `i` when in range,
        otherwise slot 0. */
    function GetElement(index: nat): (r: Point)
      reads this
      requires |data| > 0
      ensures r in data
      ensures index < |data| ==> r == data[index]
      ensures index >= |data| ==> r == data[0]
    {
      if index < |data| then data[index] else data[0]
    }

    /** `set_element(i, p)`: writes slot `i` when in range and otherwise
        does nothing. */
    method SetElement(index: nat, point: Point)
      modifies this
      ensures index < |old(data)| ==> data == old(data)[index := point]
      ensures index >= |old(data)| ==> data == old(data)
    {
      if index < |data| {
        data := data[index := point];
      }
    }

    /** `arr[i] = p` and `*arr.get_element_mut(i) = p`: writes slot `i` when
        in range and otherwise slot 0; either way a later read of index `i`
        returns `p`. */
    method IndexMut(index: nat, point: Point)
      requires |data| > 0
      modifies this
      ensures index < |old(data)| ==> data == old(data)[index := point]
      ensures index >= |old(data)| ==> data == old(data)[0 := point]
      ensures |data| > 0 && GetElement(index) == point
    {
      if index < |data| {
        data := data[index := point];
      } else {
        data := data[0 := point];
      }
    }

    /** `push`: appends one point. */
    method Push(point: Point)
      modifies this
      ensures data == old(data) + [point]
    {
      data := data + [point];
    }

    /** `pop`: `None` on an empty array, otherwise removes and returns the
        last point. */
    method Pop() returns (r: Option<Point>)
      modifies this
      ensures old(data) == [] ==> r == None && data == []
      ensures old(data) != [] ==> r == Some(old(data)[|old(data)| - 1]) && data == old(data)[..|old(data)| - 1]
      ensures r.Some? ==> old(data) == data + [r.value]
    {
      if data == [] {
        r := None;
      } else {
        r := Some(data[|data| - 1]);
        data := data[..|data| - 1];
      }
    }

    /** `resize(n)`: exactly `n` points, the surviving prefix kept and any
        new slots default. */
    method Resize(newSize: nat)
      modifies this
      ensures data == Resized(old(data), newSize)
    {
      data := Resized(data, newSize);
    }

    /** `clear`: no points left. */
    method Clear()
      modifies this
      ensures data == [] && IsEmpty()
    {
      data := [];
    }

    /** `PartialEq`: equal sizes and equal points slot by slot. */
    predicate Equals(other: Array)
      reads this, other
      ensures Equals(other) <==> |data| == |other.data| && forall i :: 0 <= i < |data| ==> data[i] == other.data[i]
    {
      data == other.data
    }

    /** The derived `Clone`: a new array holding the same points. */
    method Clone() returns (c: Array)
      ensures fresh(c) && c.data == data
    {
      c := new Array.FromVec(data);
    }

    /** `for_each_mut(f)`: visits the slots in index order and replaces each
        point by `f(i, point)`; the closure is taken to be a pure function of
        the index and the point. */
    method ForEachMut(f: (nat, Point) -> Point)
      modifies this
      ensures |data| == |old(data)|
      ensures forall i :: 0 <= i < |data| ==> data[i] == f(i, old(data)[i])
    {
      var i := 0;
      while i < |data|
        invariant 0 <= i <= |data| == |old(data)|
        invariant forall k :: 0 <= k < i ==> data[k] == f(k, old(data)[k])
        invariant forall k :: i <= k < |data| ==> data[k] == old(data)[k]
      {
        data := data[i := f(i, data[i])];
        i := i + 1;
      }
    }

    /** `total_path_distance`: the length of the polyline through the
        points in order. */
    ghost function TotalPathDistance(): (r: real)
      reads this
      ensures r == PathLength(data)
    {
      PathLength(data)
    }

    /** `farthest_from_origin`. */
    ghost function FarthestFromOrigin(): (r: Option<(nat, Point)>)
      reads this
      ensures r == Farthest(data)
    {
      Farthest(data)
    }

    /** `centroid`. */
    function Centroid(): (r: Point)
      reads this
      ensures r == CentroidOf(data)
    {
      CentroidOf(data)
    }
  }

  /** `Vec → Array → Vec` is the identity. */
  method VecRoundTrip(points: seq<Point>) returns (back: seq<Point>)
    ensures back == points
  {
    var a := new Array.FromVec(points);
    back := a.ToVec();
  }

  /** A clone compares equal to its original and is independent of it: a
      write to the original afterwards leaves the clone as it was. */
  method CloneIsIndependent(a: Array, index: nat, point: Point) returns (copy: Array)
    requires |a.data| > 0
    modifies a
    ensures fresh(copy)
    ensures copy.data == old(a.data)
    ensures |a.data| > 0 && a.GetElement(index) == point
  {
    copy := a.Clone();
    assert copy.Equals(a);
    a.IndexMut(index, point);
  }

  /** The other direction: a write to the clone leaves the original as it
      was. */
  method CloneWriteLeavesOriginal(a: Array, index: nat, point: Point) returns (copy: Array)
    requires |a.data| > 0
    ensures fresh(copy)
    ensures a.data == old(a.data)
    ensures |copy.data| > 0 && copy.GetElement(index) == point
  {
    copy := a.Clone();
    copy.IndexMut(index, point);
  }

  // ---------------------------------------------------------------------
  // The aggregates over the buffer

  /** `windows(2).map(distance).sum()`, or 0 for fewer than two points:
      the polyline length, summed left to right. */
  ghost function PathLength(ps: seq<Point>): (r: real)
    ensures r >= 0.0
    ensures |ps| < 2 ==> r == 0.0
    decreases |ps|
  {
    if |ps| < 2 then 0.0
    else PathLength(ps[..|ps| - 1]) + ps[|ps| - 2].Distance(ps[|ps| - 1])
  }

  /** Concatenating two polylines adds the joining segment. */
  lemma {:induction false} PathLengthConcat(a: seq<Point>, b: seq<Point>)
    requires |a| > 0 && |b| > 0
    ensures PathLength(a + b) == PathLength(a) + a[|a| - 1].Distance(b[0]) + PathLength(b)
    decreases |b|
  {
    if |b| == 1 {
      assert (a + b)[..|a + b| - 1] == a;
    } else {
      var b' := b[..|b| - 1];
      assert (a + b)[..|a + b| - 1] == a + b';
      PathLengthConcat(a, b');
      assert b'[0] == b[0];
    }
  }

  /** The points in reverse order. */
  function Reverse(ps: seq<Point>): (r: seq<Point>)
    ensures |r| == |ps| && forall i :: 0 <= i < |ps| ==> r[i] == ps[|ps| - 1 - i]
  {
    if |ps| == 0 then [] else [ps[|ps| - 1]] + Reverse(ps[..|ps| - 1])
  }

  /** Walking the points backwards covers the same distance. */
  lemma {:induction false} PathLengthReverse(ps: seq<Point>)
    ensures PathLength(Reverse(ps)) == PathLength(ps)
    decreases |ps|
  {
    if |ps| >= 2 {
      var init := ps[..|ps| - 1];
      PathLengthReverse(init);
      assert Reverse(ps) == [ps[|ps| - 1]] + Reverse(init);
      PathLengthConcat([ps[|ps| - 1]], Reverse(init));
      DistanceSymmetric(ps[|ps| - 1], ps[|ps| - 2]);
    }
  }

  /** The summed lengths of a list of segments, left to right. */
  ghost function SumOfLengths(ls: seq<Line>): (r: real)
    ensures r >= 0.0
  {
    if |ls| == 0 then 0.0 else SumOfLengths(ls[..|ls| - 1]) + ls[|ls| - 1].Length()
  }

  /** The path length is the total length of the segments that
      `create_lines_from_points` builds from the same points. */
  lemma {:induction false} PathLengthIsSumOfSegments(ps: seq<Point>)
    ensures PathLength(ps) == SumOfLengths(CreateLinesFromPoints(ps))
    decreases |ps|
  {
    if |ps| >= 2 {
      var init := ps[..|ps| - 1];
      var ls := CreateLinesFromPoints(ps);
      PathLengthIsSumOfSegments(init);
      if |init| >= 2 {
        assert ls[..|ls| - 1] == CreateLinesFromPoints(init);
      }
    }
  }

  /** The index of the last point with the greatest distance from the
      origin, as `max_by` picks it (a later point wins a tie). */
  ghost function FarthestIndex(ps: seq<Point>): (r: nat)
    requires |ps| > 0
    ensures r < |ps|
    ensures forall k :: 0 <= k < |ps| ==> ps[k].DistanceToOrigin() <= ps[r].DistanceToOrigin()
    ensures forall k :: r < k < |ps| ==> ps[k].DistanceToOrigin() < ps[r].DistanceToOrigin()
    decreases |ps|
  {
    if |ps| == 1 then 0
    else
      var i := FarthestIndex(ps[..|ps| - 1]);
      assert forall k :: 0 <= k < |ps| - 1 ==> ps[..|ps| - 1][k] == ps[k];
      if ps[|ps| - 1].DistanceToOrigin() >= ps[i].DistanceToOrigin() then |ps| - 1 else i
  }

  /** `farthest_from_origin`: `None` for no points, otherwise the farthest
      point with its index. */
  ghost function Farthest(ps: seq<Point>): (r: Option<(nat, Point)>)
    ensures r.None? <==> |ps| == 0
    ensures r.Some? ==> r.value.0 < |ps| && r.value.1 == ps[r.value.0]
    ensures r.Some? ==> forall k :: 0 <= k < |ps| ==> ps[k].DistanceToOrigin() <= r.value.1.DistanceToOrigin()
  {
    if |ps| == 0 then None else var i := FarthestIndex(ps); Some((i, ps[i]))
  }

  /** `fold(Point::new(0, 0), |acc, p| acc + p)`. */
  function SumPoints(ps: seq<Point>): (r: Point)
    ensures |ps| == 1 ==> r == ps[0]
  {
    if |ps| == 0 then Point(0.0, 0.0) else SumPoints(ps[..|ps| - 1]).Add(ps[|ps| - 1])
  }

  /** The point fold and the two coordinate sums agree. */
  lemma {:induction false} SumPointsIsCoordinateSums(ps: seq<Point>)
    ensures SumPoints(ps) == Point(SumX(ps), SumY(ps))
    decreases |ps|
  {
    if |ps| > 0 {
      SumPointsIsCoordinateSums(ps[..|ps| - 1]);
    }
  }

  /** `centroid`: the origin for no points, otherwise the sum scaled by
      `1 / n`, i.e. the point that `n` times over is the sum. */
  function CentroidOf(ps: seq<Point>): (r: Point)
    ensures |ps| == 0 ==> r == Point.Default()
    ensures |ps| > 0 ==> r.Mul(|ps| as real) == SumPoints(ps)
  {
    if |ps| == 0 then Point.Default()
    else
      var n := |ps| as real;
      var c := SumPoints(ps).Mul(1.0 / n);
      MulLaws(SumPoints(ps), SumPoints(ps), 1.0 / n, n);
      assert (1.0 / n) * n == 1.0;
      c
  }

  /** The two centroid helpers agree: `sum * (1/n)` of the containers copy
      equals `(Σx / n, Σy / n)` of `calculate_centroid`. */
  lemma CentroidsAgree(ps: seq<Point>)
    ensures CentroidOf(ps) == CalculateCentroid(ps)
  {
    if |ps| > 0 {
      SumPointsIsCoordinateSums(ps);
      var n := |ps| as real;
      assert SumX(ps) * (1.0 / n) == SumX(ps) / n;
      assert SumY(ps) * (1.0 / n) == SumY(ps) / n;
    }
  }

  /** The pinned example: (0,0), (3,4), (6,8) have path length 10. */
  lemma PathLengthExample()
    ensures PathLength([Point(0.0, 0.0), Point(3.0, 4.0), Point(6.0, 8.0)]) == 10.0
  {
    var a, b, c := Point(0.0, 0.0), Point(3.0, 4.0), Point(6.0, 8.0);
    var ps := [a, b, c];
    assert ps[..2] == [a, b] && [a, b][..1] == [a];
    DistanceThreeFourFive();
    assert b.SquaredDistance(c) == 25.0;
    SqrtUnique(25.0, 5.0);
    assert PathLength([a, b]) == 5.0;
  }

  /** Of (0,0), (3,4), (6,8) the last point is the farthest. */
  lemma FarthestExample()
    ensures Farthest([Point(0.0, 0.0), Point(3.0, 4.0), Point(6.0, 8.0)]) == Some((2, Point(6.0, 8.0)))
  {
    var a, b, c := Point(0.0, 0.0), Point(3.0, 4.0), Point(6.0, 8.0);
    var ps := [a, b, c];
    DistanceThreeFourFive();
    assert c.x * c.x + c.y * c.y == 100.0;
    SqrtUnique(100.0, 10.0);
    assert b.DistanceToOrigin() < c.DistanceToOrigin();
    var i := FarthestIndex(ps);
    assert i == 2;
  }

  /** (0,0), (3,4), (6,8) have centroid (3,4). */
  lemma CentroidExample()
    ensures CentroidOf([Point(0.0, 0.0), Point(3.0, 4.0), Point(6.0, 8.0)]) == Point(3.0, 4.0)
  {
    var ps := [Point(0.0, 0.0), Point(3.0, 4.0), Point(6.0, 8.0)];
    assert SumPoints(ps) == Point(9.0, 12.0) by {
      var p1 := [Point(0.0, 0.0)];
      var p2 := p1 + [Point(3.0, 4.0)];
      assert p2[..1] == p1 && ps[..2] == p2;
      assert SumPoints(p2) == Point(3.0, 4.0);
    }
    var r := CentroidOf(ps);
    assert r.Mul(3.0) == Point(9.0, 12.0);
  }
}
