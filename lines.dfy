/** The `Line` segment value type (`paul_lopez::cad::Line`, and the `Line` of
    the dynamic-allocation exercise with its list builders).

    `Line` is `Copy`: `set_start`/`set_end` on a variable replace its value,
    so they are modelled as functions returning the updated segment. */
module Lines {
  import opened Numeric
  import opened Wrappers
  import opened Points

  datatype Line = Line(start: Point, end: Point) {

    /** `Line::default()`: both ends at the origin. */
    static function Default(): (r: Line)
      ensures r.start == Point.Default() && r.end == Point.Default()
      ensures r.Length() == 0.0
    {
      DistanceSymmetric(Point.Default(), Point.Default());
      Line(Point.Default(), Point.Default())
    }

    /** `from_values(a, b)`: from `(a, a)` to `(b, b)` via `From<f64>`. */
    static function FromValues(startValue: real, endValue: real): (r: Line)
      ensures r.start.EqualsScalar(startValue) && r.end.EqualsScalar(endValue)
    {
      Line(Point.FromScalar(startValue), Point.FromScalar(endValue))
    }

    /** `horizontal(l)`: from the origin to `(l, 0)`. */
    static function Horizontal(length: real): (r: Line)
      ensures r.start == Point.Default() && r.end == Point(length, 0.0)
    {
      Line(Point(0.0, 0.0), Point(length, 0.0))
    }

    /** `vertical(l)`: from the origin to `(0, l)`. */
    static function Vertical(length: real): (r: Line)
      ensures r.start == Point.Default() && r.end == Point(0.0, length)
    {
      Line(Point(0.0, 0.0), Point(0.0, length))
    }

    /** `set_start`: replaces the start and keeps the end. */
    function SetStart(p: Point): (r: Line)
      ensures r.start == p && r.end == end
    {
      this.(start := p)
    }

    /** `set_end`: replaces the end and keeps the start. */
    function SetEnd(p: Point): (r: Line)
      ensures r.end == p && r.start == start
    {
      this.(end := p)
    }

    /** `length`: the distance between the two ends. */
    ghost function Length(): (r: real)
      ensures r >= 0.0
      ensures r == 0.0 || r * r == start.SquaredDistance(end)
    {
      start.Distance(end)
    }

    /** `midpoint`: `(start + end) * 0.5`, the point halfway along the
        segment: equally far from both ends, at a quarter of the squared
        length from each. */
    function Midpoint(): (r: Point)
      ensures start.SquaredDistance(r) == r.SquaredDistance(end)
      ensures 4.0 * start.SquaredDistance(r) == start.SquaredDistance(end)
    {
      var m := start.Add(end).Mul(0.5);
      assert m.x - start.x == 0.5 * (end.x - start.x) && end.x - m.x == 0.5 * (end.x - start.x);
      assert m.y - start.y == 0.5 * (end.y - start.y) && end.y - m.y == 0.5 * (end.y - start.y);
      m
    }

    /** `is_horizontal`: `|Δy| < f64::EPSILON`. */
    predicate IsHorizontal()
      ensures IsHorizontal() <==> -F64Epsilon < end.y - start.y < F64Epsilon
    {
      Abs(start.y - end.y) < F64Epsilon
    }

    /** `is_vertical`: `|Δx| < f64::EPSILON`. */
    predicate IsVertical()
      ensures IsVertical() <==> -F64Epsilon < end.x - start.x < F64Epsilon
    {
      Abs(start.x - end.x) < F64Epsilon
    }

    /** `slope`: `None` exactly for a vertical segment, otherwise rise over
        run. */
    function Slope(): (r: Option<real>)
      ensures r.None? <==> IsVertical()
      ensures r.Some? ==> r.value * (end.x - start.x) == end.y - start.y
    {
      var dx := end.x - start.x;
      var dy := end.y - start.y;
      AbsNeg(start.x - end.x);
      if Abs(dx) < F64Epsilon then None else Some(dy / dx)
    }

    /** `contains_point`: the two distances to the ends add up to the length,
        within the `1e-10` tolerance. */
    ghost predicate ContainsPoint(p: Point)
      ensures ContainsPoint(p) <==>
        Length() - Tolerance < start.Distance(p) + end.Distance(p) < Length() + Tolerance
    {
      Abs(start.Distance(p) + end.Distance(p) - Length()) < Tolerance
    }

    /** `translate(dx, dy)`: both ends moved by the same offset; length,
        slope and orientation are kept. */
    function Translate(dx: real, dy: real): (r: Line)
      ensures r.start == start.Translate(dx, dy) && r.end == end.Translate(dx, dy)
      ensures r.Length() == Length()
      ensures r.Slope() == Slope()
      ensures r.IsHorizontal() == IsHorizontal() && r.IsVertical() == IsVertical()
    {
      var moved := Line(start.Translate(dx, dy), end.Translate(dx, dy));
      DistanceTranslationInvariant(start, end, dx, dy);
      assert moved.end.x - moved.start.x == end.x - start.x;
      assert moved.end.y - moved.start.y == end.y - start.y;
      moved
    }
  }

  /** `create_heap_line(s, e)`: the boxed segment from `s` to `e`. */
  function CreateHeapLine(start: Point, end: Point): (r: Line)
    ensures r.start == start && r.end == end
  {
    Line(start, end)
  }

  /** `create_line_array(n)`: `n` vertical segments, the i-th rising from
      `(i, 0)` with length `i + 1`. */
  function CreateLineArray(size: nat): (r: seq<Line>)
    ensures |r| == size
    ensures forall i :: 0 <= i < size ==>
      r[i].start == Point(i as real, 0.0) && r[i].end == Point(i as real, (i + 1) as real) && r[i].IsVertical()
  {
    seq(size, i => Line(Point(i as real, 0.0), Point(i as real, (i + 1) as real)))
  }

  /** `create_boxed_line_array(n)`: `n` horizontal segments, the i-th running
      from `(0, i)` with length `i + 1`. */
  function CreateBoxedLineArray(size: nat): (r: seq<Line>)
    ensures |r| == size
    ensures forall i :: 0 <= i < size ==>
      r[i].start == Point(0.0, i as real) && r[i].end == Point((i + 1) as real, i as real) && r[i].IsHorizontal()
  {
    seq(size, i => Line(Point(0.0, i as real), Point((i + 1) as real, i as real)))
  }

  /** `create_lines_from_points(ps)`: the polyline through `ps`, one segment
      per consecutive pair; no segments for fewer than two points. */
  function CreateLinesFromPoints(points: seq<Point>): (r: seq<Line>)
    ensures |points| < 2 ==> r == []
    ensures |points| >= 2 ==> |r| == |points| - 1
    ensures forall k :: 0 <= k < |r| ==> r[k].start == points[k] && r[k].end == points[k + 1]
  {
    if |points| < 2 then [] else seq(|points| - 1, k requires 0 <= k < |points| - 1 => Line(points[k], points[k + 1]))
  }

  /** The polyline is connected: each segment starts where the previous one
      ends. */
  lemma PolylineConnected(points: seq<Point>, k: nat)
    requires k + 1 < |CreateLinesFromPoints(points)|
    ensures CreateLinesFromPoints(points)[k].end == CreateLinesFromPoints(points)[k + 1].start
  {
  }

  /** The axis factories: a horizontal segment is horizontal with slope 0
      unless it is degenerate, a vertical one is vertical with no slope, and
      each is as long as the absolute value of its argument. */
  lemma AxisFactories(l: real)
    ensures Line.Horizontal(l).IsHorizontal()
    ensures Line.Horizontal(l).IsVertical() <==> Abs(l) < F64Epsilon
    ensures Abs(l) >= F64Epsilon ==> Line.Horizontal(l).Slope() == Some(0.0)
    ensures Line.Vertical(l).IsVertical() && Line.Vertical(l).Slope() == None
    ensures Line.Vertical(l).IsHorizontal() <==> Abs(l) < F64Epsilon
    ensures Line.Horizontal(l).Length() == Abs(l) && Line.Vertical(l).Length() == Abs(l)
  {
    DistanceAlongAxis(Point(0.0, 0.0), Point(l, 0.0));
    DistanceAlongAxis(Point(0.0, 0.0), Point(0.0, l));
  }

  /** Reversing a segment keeps its length, midpoint and orientation. */
  lemma ReverseSymmetric(l: Line)
    ensures Line(l.end, l.start).Length() == l.Length()
    ensures Line(l.end, l.start).Midpoint() == l.Midpoint()
    ensures Line(l.end, l.start).IsVertical() == l.IsVertical()
    ensures Line(l.end, l.start).Slope() == l.Slope()
  {
    DistanceSymmetric(l.start, l.end);
    AbsNeg(l.start.x - l.end.x);
    AbsNeg(l.start.y - l.end.y);
    var r := Line(l.end, l.start);
    if r.Slope().Some? {
      var dx := l.end.x - l.start.x;
      assert dx != 0.0;
      assert (l.start.y - l.end.y) / (l.start.x - l.end.x) == (l.end.y - l.start.y) / dx;
    }
  }

  /** A segment contains both of its ends. */
  lemma ContainsEndpoints(l: Line)
    ensures l.ContainsPoint(l.start)
    ensures l.ContainsPoint(l.end)
  {
    DistanceSymmetric(l.start, l.end);
    DistanceSymmetric(l.end, l.start);
    assert l.start.Distance(l.start) == 0.0 && l.end.Distance(l.end) == 0.0;
  }

  /** A segment contains its midpoint: each half is half the length. */
  lemma ContainsMidpoint(l: Line)
    ensures l.ContainsPoint(l.Midpoint())
  {
    var m := l.Midpoint();
    var s := l.start.SquaredDistance(l.end);
    assert l.start.SquaredDistance(m) == 0.5 * 0.5 * s;
    assert l.end.SquaredDistance(m) == m.SquaredDistance(l.end) by {
      assert (l.end.x - m.x) * (l.end.x - m.x) == (m.x - l.end.x) * (m.x - l.end.x);
      assert (l.end.y - m.y) * (l.end.y - m.y) == (m.y - l.end.y) * (m.y - l.end.y);
    }
    SqrtScale(s, 0.5);
    assert l.start.Distance(m) == 0.5 * l.Length();
    assert l.end.Distance(m) == 0.5 * l.Length();
  }

  /** Translating a segment translates its midpoint. */
  lemma MidpointTranslates(l: Line, dx: real, dy: real)
    ensures l.Translate(dx, dy).Midpoint() == l.Midpoint().Translate(dx, dy)
  {
  }

  /** The pinned examples: (0,0)–(3,4) has length 5, (0,0)–(4,6) has
      midpoint (2,3), and (0,0)–(4,0) contains (2,0), (0,0) and (4,0) but
      not (2,1). */
  lemma LineExamples()
    ensures Line(Point(0.0, 0.0), Point(3.0, 4.0)).Length() == 5.0
    ensures Line(Point(0.0, 0.0), Point(4.0, 6.0)).Midpoint() == Point(2.0, 3.0)
    ensures Line(Point(0.0, 0.0), Point(4.0, 0.0)).ContainsPoint(Point(2.0, 0.0))
    ensures Line(Point(0.0, 0.0), Point(4.0, 0.0)).ContainsPoint(Point(0.0, 0.0))
    ensures Line(Point(0.0, 0.0), Point(4.0, 0.0)).ContainsPoint(Point(4.0, 0.0))
    ensures !Line(Point(0.0, 0.0), Point(4.0, 0.0)).ContainsPoint(Point(2.0, 1.0))
  {
    DistanceThreeFourFive();
    var l := Line(Point(0.0, 0.0), Point(4.0, 0.0));
    ContainsEndpoints(l);
    DistanceAlongAxis(l.start, l.end);
    DistanceAlongAxis(l.start, Point(2.0, 0.0));
    DistanceAlongAxis(l.end, Point(2.0, 0.0));
    var off := Point(2.0, 1.0);
    DistanceSymmetric(l.start, off);
    assert l.start.SquaredDistance(off) == 5.0 && l.end.SquaredDistance(off) == 5.0;
    var d := Sqrt(5.0);
    if d != 0.0 {
      assert d * d == 5.0;
      assert d > 2.0 + Tolerance by {
        if d <= 2.0 + Tolerance {
          if d < 2.0 + Tolerance {
            SquareStrictlyIncreasing(d, 2.0 + Tolerance);
          }
        }
      }
    }
  }
}
