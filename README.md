# Verified model of the geometry, container and C-exercise core

This project models, in Dafny, the logic of a Rust learning repository.
The repository works through C/C++ textbook exercises in Rust. The model
covers four parts:

- **Geometry values.** `Point`, `Line` and `Circle` of the `paul_lopez::cad`
  namespace, together with the near-identical copies of the
  dynamic-allocation exercise. This includes their operators, factories and
  predicates, the list builders (`create_*_array`,
  `create_lines_from_points`, `create_circles_along_line`, …) and the
  pairwise circle-intersection scan.
- **The point `Array`.** This is a bounds-forgiving growable buffer.
  Out-of-range `set_element` calls are ignored. Out-of-range reads and
  `[]` writes fall back to slot 0. The namespaced copy adds three
  aggregates: path length, farthest point and centroid.
- **`Shape`.** It has an identifier handed out by a process-wide counter,
  and a visibility flag.
- **The small C-style exercises.** These are:
  - the `strlen` clone and its bounded line reader;
  - the recursive `u64` factorial;
  - the `max2!`/`max3!` macros;
  - the three `swap` functions;
  - `Article::new` truncation;
  - the word/line/character counter with its classifier step.

## How the model is set up

- **Numbers.**
  - `f64` is modelled as `real`.
  - `sqrt` is a ghost function `Numeric.Sqrt`. It returns the non-negative
    root when one exists. Because of this, every distance-based member
    (`distance`, `length`, `contains_point`, `intersects`,
    `total_path_distance`, …) is ghost.
  - Integers are unbounded. The `u64` overflow of the factorial is written
    out explicitly.
- **Value types.**
  - `Point`, `Line` and `Circle` are `Copy` values in the program. They
    are Dafny datatypes.
  - Their `&mut self` setters and `*=` become functions that return the
    updated value.
- **Objects updated in place.**
  - The point `Array` is a class that owns a `seq<Point>`.
  - `Shape` is a class.
  - The `NEXT_ID` static is an explicit `IdAllocator` object that
    `Shape.New` updates.
  - The `&mut i32` arguments of `swap` are `Cell` objects.
- **Loops.** Loops that update variables are methods with loop
  invariants, each proved against a specification function:
  - `ProcessPointArray`, `ForEachMut`, `AnalyzeCircleIntersections`;
  - the `strlen` loop and the line reader;
  - the counting loop.
- **Inputs.** Standard input is modelled as a parameter: the byte sequence
  the program would read. End of the sequence is end of file, and a read
  error ends reading the same way.

## Model

| member | source | states |
|---|---|---|
| Numeric.Abs | Level4/Sect2.6/Exercise1/src/paul_lopez/cad/line.rs:82-84 | `f64::abs`: non-negative and equal to `x` or `-x` |
| Numeric.Sqrt | Level4/Sect2.6/Exercise1/src/paul_lopez/cad/point.rs:54-58 | `sqrt` is non-negative, and when it is non-zero it squares back to its argument |
| Numeric.SqrtScale | Level4/Sect2.6/Exercise1/src/paul_lopez/cad/line.rs:64-66 | scaling a radicand by `k²` scales its root by `k`, which is how the midpoint lies at half the length |
| Points.Point.Default | Level4/Sect2.6/Exercise1/src/paul_lopez/cad/point.rs:24-26 | `Point::default()` is the origin |
| Points.Point.FromScalar | Level4/Sect2.6/Exercise1/src/paul_lopez/cad/point.rs:29-31 | `from_single_value(v)` and `From<f64>` give `(v, v)` |
| Points.Point.FromPair | Level4/Sect2.6/Exercise1/src/paul_lopez/cad/point.rs:154-156 | `From<(f64, f64)>` keeps both components in order |
| Points.Point.FromI32 | Level4/Sect2.5/Exercise1/src/point.rs:143-146 | `From<i32>` is `From<f64>` of the converted integer |
| Points.Point.SetX | Level4/Sect2.6/Exercise1/src/paul_lopez/cad/point.rs:44-46 | `set_x` changes x and keeps y |
| Points.Point.SetY | Level4/Sect2.6/Exercise1/src/paul_lopez/cad/point.rs:49-51 | `set_y` changes y and keeps x |
| Points.Point.Distance | Level4/Sect2.6/Exercise1/src/paul_lopez/cad/point.rs:54-58 | `distance` is non-negative |
| Points.Point.DistanceToOrigin | Level4/Sect2.6/Exercise1/src/paul_lopez/cad/point.rs:61-63 | `distance_to_origin` is non-negative, squares back to `x² + y²` when non-zero, and is 0 at the origin |
| Points.Point.Magnitude | Level4/Sect2.6/Exercise1/src/paul_lopez/cad/point.rs:66-68 | `magnitude` delegates to `distance_to_origin` |
| Points.Point.Translate | Level4/Sect2.6/Exercise1/src/paul_lopez/cad/point.rs:71-73 | `translate(dx, dy)` is adding the offset point `(dx, dy)` |
| Points.Point.Neg | Level4/Sect2.6/Exercise1/src/paul_lopez/cad/point.rs:106-108 | unary `-` negates both coordinates |
| Points.Point.Mul | Level4/Sect2.6/Exercise1/src/paul_lopez/cad/point.rs:115-117 | `p * k` scales both coordinates |
| Points.Point.Add | Level4/Sect2.6/Exercise1/src/paul_lopez/cad/point.rs:124-126 | `p + q` adds componentwise |
| Points.Point.MulAssign | Level4/Sect2.6/Exercise1/src/paul_lopez/cad/point.rs:131-134 | after `p *= k` the point equals the old `p * k` |
| Points.Point.EqualsScalar | Level4/Sect2.6/Exercise1/src/paul_lopez/cad/point.rs:161-163 | `p == v` holds iff `p` is `From<f64>` of `v`, i.e. both coordinates equal `v` |
| Points.Point.EqualsI32 | Level4/Sect2.5/Exercise1/src/point.rs:163-166 | `p == i` holds iff `p` is `From<i32>` of `i` |
| Points.ScalarMul | Level4/Sect2.6/Exercise1/src/paul_lopez/cad/point.rs:141-143 | `k * p` scales both coordinates, as `p * k` does |
| Points.ScalarEquals | Level4/Sect2.5/Exercise1/src/point.rs:157-159 | `v == p` holds iff `p == v` holds |
| Points.I32Equals | Level4/Sect2.5/Exercise1/src/point.rs:170-172 | `i == p` holds iff `p == i` holds |
| Points.FromScalarEqualsScalar | Level4/Sect2.6/Exercise1/src/paul_lopez/cad/point.rs:219-225 | a point converted from `v` compares equal to `v` in both operand orders |
| Points.NegInvolutive | Level4/Sect2.6/Exercise1/src/paul_lopez/cad/point.rs:204-215 | `-(-p) == p`, and `p + (-p)` is the origin |
| Points.AddLaws | Level4/Sect2.6/Exercise1/src/paul_lopez/cad/point.rs:121-127 | `+` is commutative and associative, with the origin as identity |
| Points.MulBothOrders | Level4/Sect2.6/Exercise1/src/paul_lopez/cad/point.rs:130-144 | `p * k`, `k * p` and the result of `p *= k` coincide |
| Points.MulLaws | Level4/Sect2.6/Exercise1/src/paul_lopez/cad/point.rs:112-127 | scaling distributes over `+`, composes multiplicatively, and `* -1` is negation |
| Points.TranslateComposes | Level4/Sect2.6/Exercise1/src/paul_lopez/cad/point.rs:71-73 | two translations are one translation by the summed offsets |
| Points.DistanceSymmetric | Level4/Sect2.6/Exercise1/src/paul_lopez/cad/point.rs:54-58 | `distance` is symmetric and zero from a point to itself |
| Points.DistanceToOriginIsDistance | Level4/Sect2.6/Exercise1/src/paul_lopez/cad/point.rs:61-68 | `distance_to_origin` and `magnitude` equal the distance to `Point::default()` |
| Points.DistanceTranslationInvariant | Level4/Sect2.6/Exercise1/src/paul_lopez/cad/point.rs:71-73 | translating both points by one offset keeps their distance |
| Points.DistanceAlongAxis | Level4/Sect2.6/Exercise1/src/paul_lopez/cad/point.rs:54-58 | along one axis the distance is the absolute coordinate difference |
| Points.DistanceThreeFourFive | Level4/Sect2.6/Exercise1/src/paul_lopez/cad/point.rs:182-189 | `(0,0)` to `(3,4)` is 5, and `(3,4)` is 5 from the origin |
| Points.CreateHeapPoint | Level4/Sect2.5/Exercise1/src/point.rs:178-180 | the boxed point holds exactly `(x, y)` |
| Points.CreatePointArray | Level4/Sect2.5/Exercise1/src/point.rs:183-187 | `n` points, point `i` is `(i, i²)` |
| Points.CreateBoxedPointArray | Level4/Sect2.5/Exercise1/src/point.rs:190-194 | `n` points, point `i` is `(2i, 3i)` |
| Lines.Line.Default | Level4/Sect2.6/Exercise1/src/paul_lopez/cad/line.rs:24-26 | both ends at the origin, so the length is 0 |
| Lines.Line.FromValues | Level4/Sect2.5/Exercise1/src/line.rs:27-29 | `from_values(a, b)` runs from `(a, a)` to `(b, b)` |
| Lines.Line.Horizontal | Level4/Sect2.6/Exercise1/src/paul_lopez/cad/line.rs:29-31 | `horizontal(l)` runs from the origin to `(l, 0)` |
| Lines.Line.Vertical | Level4/Sect2.6/Exercise1/src/paul_lopez/cad/line.rs:34-36 | `vertical(l)` runs from the origin to `(0, l)` |
| Lines.Line.SetStart | Level4/Sect2.6/Exercise1/src/paul_lopez/cad/line.rs:49-51 | `set_start` replaces only the start |
| Lines.Line.SetEnd | Level4/Sect2.6/Exercise1/src/paul_lopez/cad/line.rs:54-56 | `set_end` replaces only the end |
| Lines.Line.Length | Level4/Sect2.6/Exercise1/src/paul_lopez/cad/line.rs:59-61 | `length` is non-negative, and when it is non-zero it squares to the squared end-to-end distance |
| Lines.Line.Midpoint | Level4/Sect2.6/Exercise1/src/paul_lopez/cad/line.rs:64-66 | `(start + end) * 0.5` is equally far from both ends, a quarter of the squared length from each |
| Lines.Line.Slope | Level4/Sect2.6/Exercise1/src/paul_lopez/cad/line.rs:70-79 | `None` exactly when `is_vertical`; otherwise the value times Δx is Δy |
| Lines.Line.IsHorizontal | Level4/Sect2.6/Exercise1/src/paul_lopez/cad/line.rs:82-84 | horizontal iff `Δy` lies strictly between `-f64::EPSILON` and `f64::EPSILON` |
| Lines.Line.IsVertical | Level4/Sect2.6/Exercise1/src/paul_lopez/cad/line.rs:87-89 | vertical iff `Δx` lies strictly between `-f64::EPSILON` and `f64::EPSILON` |
| Lines.Line.ContainsPoint | Level4/Sect2.6/Exercise1/src/paul_lopez/cad/line.rs:99-107 | a point is on the segment iff its distances to the two ends add up to the length within `1e-10` either way |
| Lines.Line.Translate | Level4/Sect2.6/Exercise1/src/paul_lopez/cad/line.rs:110-115 | both ends move by the offset; length, slope and orientation are kept |
| Lines.CreateHeapLine | Level4/Sect2.5/Exercise1/src/line.rs:138-140 | the boxed line holds exactly the given ends |
| Lines.CreateLineArray | Level4/Sect2.5/Exercise1/src/line.rs:143-151 | `n` vertical lines, line `i` exactly from `(i, 0)` to `(i, i + 1)` |
| Lines.CreateBoxedLineArray | Level4/Sect2.5/Exercise1/src/line.rs:154-162 | `n` horizontal lines, line `i` exactly from `(0, i)` to `(i + 1, i)` |
| Lines.CreateLinesFromPoints | Level4/Sect2.5/Exercise1/src/line.rs:165-173 | empty for fewer than two points, otherwise one line fewer than there are points, line `k` from `ps[k]` to `ps[k+1]` |
| Lines.PolylineConnected | Level4/Sect2.5/Exercise1/src/line.rs:280-298 | each built line starts where the previous one ends |
| Lines.AxisFactories | Level4/Sect2.6/Exercise1/src/paul_lopez/cad/line.rs:162-172 | horizontal lines are horizontal with slope `Some(0)` unless degenerate; vertical ones are vertical with no slope; both are `abs(l)` long |
| Lines.ReverseSymmetric | Level4/Sect2.6/Exercise1/src/paul_lopez/cad/line.rs:59-89 | swapping the ends keeps length, midpoint, orientation and slope |
| Lines.ContainsEndpoints | Level4/Sect2.6/Exercise1/src/paul_lopez/cad/line.rs:99-107 | `contains_point` holds at both ends |
| Lines.ContainsMidpoint | Level4/Sect2.5/Exercise1/src/line.rs:81-88 | `contains_point` holds at the midpoint |
| Lines.MidpointTranslates | Level4/Sect2.6/Exercise1/src/paul_lopez/cad/line.rs:199-205 | the midpoint of a translated line is the translated midpoint |
| Lines.LineExamples | Level4/Sect2.6/Exercise1/src/paul_lopez/cad/line.rs:156-196 | length 5 for `(0,0)-(3,4)`, midpoint `(2,3)` for `(0,0)-(4,6)`, and `(0,0)-(4,0)` contains `(2,0)` but not `(2,1)` |
| Circles.Circle.UnitCircle | Level4/Sect2.6/Exercise1/src/paul_lopez/cad/circle.rs:25-27 | radius 1 at the origin |
| Circles.Circle.Default | Level4/Sect2.6/Exercise1/src/paul_lopez/cad/circle.rs:122-124 | `Circle::default()` is the unit circle |
| Circles.Circle.AtOrigin | Level4/Sect2.6/Exercise1/src/paul_lopez/cad/circle.rs:30-32 | radius `r` at the origin |
| Circles.Circle.FromCenterValue | Level4/Sect2.5/Exercise1/src/circle.rs:27-29 | centred at `(v, v)` with the given radius |
| Circles.Circle.SetCenter | Level4/Sect2.6/Exercise1/src/paul_lopez/cad/circle.rs:45-47 | `set_center` changes only the center |
| Circles.Circle.SetRadius | Level4/Sect2.6/Exercise1/src/paul_lopez/cad/circle.rs:50-52 | `set_radius` changes only the radius |
| Circles.Circle.Diameter | Level4/Sect2.6/Exercise1/src/paul_lopez/cad/circle.rs:55-57 | the diameter is twice the radius |
| Circles.Circle.Translate | Level4/Sect2.6/Exercise1/src/paul_lopez/cad/circle.rs:89-91 | only the center moves, by `(dx, dy)` |
| Circles.Circle.TranslateBy | Level4/Sect2.5/Exercise1/src/circle.rs:90-92 | only the center moves, by `center + offset` |
| Circles.Circle.Scale | Level4/Sect2.6/Exercise1/src/paul_lopez/cad/circle.rs:94-96 | the center is kept, and radius and diameter are multiplied by the factor |
| Circles.Circle.BoundingBox | Level4/Sect2.6/Exercise1/src/paul_lopez/cad/circle.rs:99-109 | a square as wide and tall as the diameter, centred on the center |
| Circles.Circle.ContainsPoint | Level4/Sect2.6/Exercise1/src/paul_lopez/cad/circle.rs:70-72 | inside iff the center distance is at most the radius, boundary included; no point is inside a circle of negative radius |
| Circles.Circle.PointOnBoundary | Level4/Sect2.6/Exercise1/src/paul_lopez/cad/circle.rs:74-78 | on the boundary iff the center distance lies within `1e-10` of the radius either way |
| Circles.Circle.Intersects | Level4/Sect2.6/Exercise1/src/paul_lopez/cad/circle.rs:112-118 | the center distance lies between the absolute radius difference and the radius sum, both ends included; intersecting circles have a non-negative radius sum |
| Circles.IntersectsSymmetric | Level4/Sect2.6/Exercise1/src/paul_lopez/cad/circle.rs:112-118 | `a.intersects(b)` iff `b.intersects(a)` |
| Circles.IntersectsConcentric | Level4/Sect2.6/Exercise1/src/paul_lopez/cad/circle.rs:112-118 | a circle meets itself iff its radius is non-negative; concentric circles of different radii never meet |
| Circles.TranslationInvariant | Level4/Sect2.6/Exercise1/src/paul_lopez/cad/circle.rs:70-91 | moving circle and point (or both circles) together keeps `contains_point`, `point_on_boundary` and `intersects` |
| Circles.ContainsCenterAndRim | Level4/Sect2.6/Exercise1/src/paul_lopez/cad/circle.rs:70-78 | the center is inside iff the radius is non-negative; a point at exactly the radius is inside and on the boundary |
| Circles.CircleExamples | Level4/Sect2.6/Exercise1/src/paul_lopez/cad/circle.rs:156-207 | radius 5 contains `(3,4)` and `(5,0)` but not `(6,0)`; radius 3 meets radius 2 at `(4,0)`, not radius 1 at `(10,0)` |
| Circles.CreateHeapCircle | Level4/Sect2.5/Exercise1/src/circle.rs:163-165 | the boxed circle holds the given center and radius |
| Circles.CreateCircleArray | Level4/Sect2.5/Exercise1/src/circle.rs:168-176 | `n` circles, circle `i` centred at `(i, i)` with radius `i + 1` |
| Circles.CreateBoxedCircleArray | Level4/Sect2.5/Exercise1/src/circle.rs:179-187 | `n` circles, circle `i` centred at `(2i, 3i)` with radius `(i + 1) / 2` |
| Circles.CreateConcentricCircles | Level4/Sect2.5/Exercise1/src/circle.rs:190-194 | `count` circles on one center, circle `k` with radius `(k + 1) * step` |
| Circles.ConcentricRingsDisjoint | Level4/Sect2.5/Exercise1/src/circle.rs:190-194 | with a non-zero step no two rings intersect, and with a positive step the radii increase |
| Circles.Lerp | Level4/Sect2.5/Exercise1/src/circle.rs:207-209 | the interpolation is `start` at 0, `end` at 1 and the midpoint at 0.5 |
| Circles.CreateCirclesAlongLine | Level4/Sect2.5/Exercise1/src/circle.rs:197-214 | no circle for count 0, one at `start` for 1; otherwise `count` circles from `start` to `end` at `t = i / (count - 1)`, all of the given radius |
| Circles.CirclesAlongLineMiddle | Level4/Sect2.5/Exercise1/src/circle.rs:368-385 | with an odd count the middle circle sits at the segment's midpoint |
| Circles.CirclesAlongLineEvenSpacing | Level4/Sect2.5/Exercise1/src/circle.rs:197-214 | consecutive centers differ by the same step `(end - start) / (count - 1)` |
| Circles.RowPairsSpec | Level4/Sect2.5/Exercise1/src/circle.rs:279-291 | one inner-loop row holds exactly the intersecting `(i, k)` with `k >= j`, in increasing order |
| Circles.PairsFromSpec | Level4/Sect2.5/Exercise1/src/circle.rs:278-292 | the rows from `from` on hold exactly the intersecting pairs `from <= i < j`, strictly sorted |
| Circles.IntersectionPairsSpec | Level4/Sect2.5/Exercise1/src/circle.rs:275-295 | the scan's result holds exactly the pairs `i < j` whose circles intersect, in strict lexicographic order, with no duplicates |
| Circles.AnalyzeCircleIntersections | Level4/Sect2.5/Exercise1/src/circle.rs:275-295 | the nested loop pushes exactly `IntersectionPairs(circles)`, in that order |
| PointPointers.SumX | Level4/Sect2.5/Exercise2/src/main.rs:279 | the `map` of `x` then `sum`: the left-to-right sum of the x coordinates, the lone x for one point |
| PointPointers.SumY | Level4/Sect2.5/Exercise2/src/main.rs:280 | the `map` of `y` then `sum`: the left-to-right sum of the y coordinates, the lone y for one point |
| PointPointers.CalculateCentroid | Level4/Sect2.5/Exercise2/src/main.rs:274-284 | the origin for no points; otherwise coordinates that times the count are the coordinate sums |
| PointPointers.SumsOfCopies | Level4/Sect2.5/Exercise2/src/main.rs:279-283 | the sums over `n` copies of a point are `n` times its coordinates |
| PointPointers.CentroidOfCopies | Level4/Sect2.5/Exercise2/src/main.rs:274-284 | the centroid of copies of one point is that point |
| PointPointers.CentroidExample | Level4/Sect2.5/Exercise2/src/main.rs:374-384 | `(0,0), (2,0), (1,2)` have centroid `(1, 2/3)` |
| PointPointers.CreatePointPointerArray | Level4/Sect2.5/Exercise2/src/main.rs:287-291 | `n` points, point `i` at `x = 10i` on the line `y = x + 5` |
| PointPointers.ScaledByPositionInvertible | Level4/Sect2.5/Exercise2/src/main.rs:294-300 | dividing each point by `i + 1` undoes the processing, so it loses nothing |
| PointPointers.ProcessPointArray | Level4/Sect2.5/Exercise2/src/main.rs:294-300 | in place, each point `i` becomes itself times `i + 1`; the length is unchanged |
| PointPointers.ProcessPointArrayExample | Level4/Sect2.5/Exercise2/src/main.rs:396-409 | `(1,1), (2,2), (3,3)` become `(1,1), (4,4), (9,9)` |
| Containers.Defaults | Level4/Sect2.6/Exercise1/src/paul_lopez/containers/array.rs:29-34 | `n` points, all `Point::default()` |
| Containers.Resized | Level4/Sect2.5/Exercise3/src/array.rs:266-268 | exactly `n` points, the surviving prefix kept and new slots default |
| Containers.ResizedLaws | Level4/Sect2.5/Exercise3/src/array.rs:487-504 | `resize(size())` is a no-op, and shrinking after a resize is one resize |
| Containers.Array.New | Level4/Sect2.6/Exercise1/src/paul_lopez/containers/array.rs:24-26 | `new()` holds `DEFAULT_CAPACITY` (10) default points |
| Containers.Array.WithSize | Level4/Sect2.5/Exercise3/src/array.rs:59-64 | `with_size(n)` holds `n` default points |
| Containers.Array.FromVec | Level4/Sect2.5/Exercise3/src/array.rs:67-69 | `from_vec` takes the vector over unchanged |
| Containers.Array.Size | Level4/Sect2.5/Exercise3/src/array.rs:74-76 | the number of points held |
| Containers.Array.IsEmpty | Level4/Sect2.5/Exercise3/src/array.rs:250-252 | true iff the size is 0 |
| Containers.Array.ToVec | Level4/Sect2.5/Exercise3/src/array.rs:314-316 | `From<Array> for Vec` hands back the same points |
| Containers.Array.GetElement | Level4/Sect2.5/Exercise3/src/array.rs:105-111 | slot `i` when in range, otherwise slot 0; requires a non-empty array |
| Containers.Array.SetElement | Level4/Sect2.5/Exercise3/src/array.rs:88-93 | an in-range index writes that slot only; an out-of-range one changes nothing |
| Containers.Array.IndexMut | Level4/Sect2.5/Exercise3/src/array.rs:180-186 | writes slot `i`, or slot 0 when out of range; a later read of `i` returns the written point |
| Containers.Array.Push | Level4/Sect2.5/Exercise3/src/array.rs:276-278 | appends the point, keeping the prefix |
| Containers.Array.Pop | Level4/Sect2.5/Exercise3/src/array.rs:281-283 | `None` when empty; otherwise the last point, removed |
| Containers.Array.Resize | Level4/Sect2.5/Exercise3/src/array.rs:266-268 | the buffer becomes `Resized(old, n)` |
| Containers.Array.Clear | Level4/Sect2.5/Exercise3/src/array.rs:271-273 | no points left, and `is_empty` holds |
| Containers.Array.Equals | Level4/Sect2.5/Exercise3/src/array.rs:298-300 | equal iff the sizes match and the points match slot by slot |
| Containers.Array.Clone | Level4/Sect2.5/Exercise3/src/array.rs:35 | a new array with the same points |
| Containers.Array.ForEachMut | Level4/Sect2.6/Exercise1/src/paul_lopez/containers/array.rs:110-117 | each slot `i` becomes `f(i, old point)`, and the length is kept |
| Containers.Array.TotalPathDistance | Level4/Sect2.6/Exercise1/src/paul_lopez/containers/array.rs:120-128 | the polyline length of the buffer |
| Containers.Array.FarthestFromOrigin | Level4/Sect2.6/Exercise1/src/paul_lopez/containers/array.rs:131-140 | `Farthest` of the buffer |
| Containers.Array.Centroid | Level4/Sect2.6/Exercise1/src/paul_lopez/containers/array.rs:143-152 | `CentroidOf` of the buffer |
| Containers.VecRoundTrip | Level4/Sect2.6/Exercise1/src/paul_lopez/containers/array.rs:400-413 | `Vec → Array → Vec` is the identity |
| Containers.CloneIsIndependent | Level4/Sect2.5/Exercise3/src/array.rs:393-409 | a clone keeps the original's points after the original is written to |
| Containers.CloneWriteLeavesOriginal | Level4/Sect2.5/Exercise3/src/array.rs:393-409 | the original keeps its points after the clone is written to |
| Containers.PathLength | Level4/Sect2.6/Exercise1/src/paul_lopez/containers/array.rs:120-128 | non-negative, and 0 for fewer than two points |
| Containers.PathLengthConcat | Level4/Sect2.6/Exercise1/src/paul_lopez/containers/array.rs:120-128 | joining two polylines adds the joining segment |
| Containers.Reverse | Level4/Sect2.6/Exercise1/src/paul_lopez/containers/array.rs:120-128 | the points in reverse order |
| Containers.PathLengthReverse | Level4/Sect2.6/Exercise1/src/paul_lopez/containers/array.rs:120-128 | walking the points backwards covers the same distance |
| Containers.SumOfLengths | Level4/Sect2.6/Exercise1/src/paul_lopez/containers/array.rs:120-128 | the reference left-to-right sum of segment lengths (non-negative) against which `PathLengthIsSumOfSegments` checks the path length |
| Containers.PathLengthIsSumOfSegments | Level4/Sect2.6/Exercise1/src/paul_lopez/containers/array.rs:120-128 | the path length is the total length of the `create_lines_from_points` segments |
| Containers.FarthestIndex | Level4/Sect2.6/Exercise1/src/paul_lopez/containers/array.rs:131-140 | an index whose origin distance is at least every other's, and strictly greater than every later one (a later point wins a tie) |
| Containers.Farthest | Level4/Sect2.6/Exercise1/src/paul_lopez/containers/array.rs:131-140 | `None` iff empty; otherwise a valid index with its point, at maximal origin distance |
| Containers.SumPoints | Level4/Sect2.6/Exercise1/src/paul_lopez/containers/array.rs:148-149 | the `fold` from the origin with `+`, the lone point for one point; it equals the coordinate sums by `SumPointsIsCoordinateSums` |
| Containers.SumPointsIsCoordinateSums | Level4/Sect2.6/Exercise1/src/paul_lopez/containers/array.rs:143-152 | the point fold equals the pair of coordinate sums |
| Containers.CentroidOf | Level4/Sect2.6/Exercise1/src/paul_lopez/containers/array.rs:143-152 | the origin for no points; otherwise the point that `n` times over is the sum |
| Containers.CentroidsAgree | Level4/Sect2.5/Exercise2/src/main.rs:274-284 | the containers centroid `sum * (1/n)` equals `calculate_centroid`'s `(Σx/n, Σy/n)` |
| Containers.PathLengthExample | Level4/Sect2.6/Exercise1/src/paul_lopez/containers/array.rs:295-313 | `(0,0), (3,4), (6,8)` have path length 10 |
| Containers.FarthestExample | Level4/Sect2.6/Exercise1/src/paul_lopez/containers/array.rs:295-313 | of `(0,0), (3,4), (6,8)` the farthest is index 2 |
| Containers.CentroidExample | Level4/Sect2.6/Exercise1/src/paul_lopez/containers/array.rs:295-313 | `(0,0), (3,4), (6,8)` have centroid `(3,4)` |
| Shapes.IdAllocator.New | Level4/Sect2.6/Exercise1/src/paul_lopez/cad/shape.rs:19 | the counter starts at 1 |
| Shapes.IdAllocator.NextAvailableId | Level4/Sect2.6/Exercise1/src/paul_lopez/cad/shape.rs:111-113 | reports the counter |
| Shapes.IdAllocator.Reset | Level4/Sect2.6/Exercise1/src/paul_lopez/cad/shape.rs:116-118 | the counter is back at 1 |
| Shapes.Shape.New | Level4/Sect2.6/Exercise1/src/paul_lopez/cad/shape.rs:23-35 | the new shape has the name, the old counter as its id, and is visible; the counter moves up by one |
| Shapes.Shape.Default | Level4/Sect2.6/Exercise1/src/paul_lopez/cad/shape.rs:92-96 | "Default Shape", visible, and one id consumed |
| Shapes.Shape.SetName | Level4/Sect2.6/Exercise1/src/paul_lopez/cad/shape.rs:48-50 | only the name changes |
| Shapes.Shape.SetVisible | Level4/Sect2.6/Exercise1/src/paul_lopez/cad/shape.rs:63-65 | visibility becomes `v`; name and id are kept |
| Shapes.Shape.Show | Level4/Sect2.6/Exercise1/src/paul_lopez/cad/shape.rs:68-70 | visible afterwards; name and id are kept |
| Shapes.Shape.Hide | Level4/Sect2.6/Exercise1/src/paul_lopez/cad/shape.rs:73-75 | hidden afterwards; name and id are kept |
| Shapes.Shape.CopyWithName | Level4/Sect2.6/Exercise1/src/paul_lopez/cad/shape.rs:84-89 | a new shape with the new name and the original's id and visibility |
| Shapes.Shape.Clone | Level4/Sect2.6/Exercise1/src/paul_lopez/cad/shape.rs:11 | the derived `Clone` copies every field |
| Shapes.CreationSequence | Level4/Sect2.6/Exercise1/src/paul_lopez/cad/shape.rs:126-136 | after a reset, two creations get ids 1 and 2, and the counter stands at 3 |
| Shapes.VisibilityAndCopy | Level4/Sect2.6/Exercise1/src/paul_lopez/cad/shape.rs:139-173 | hide/show/set_visible set the flag in turn; a renamed copy keeps id and visibility |
| Strlen.LengthIter | Level2/Sect1.7/Exercise2/src/main.rs:33-37 | the count of bytes before the first zero byte, or the whole length when there is none |
| Strlen.Length | Level2/Sect1.7/Exercise2/src/main.rs:18-30 | the loop returns the C string length, and it equals `length_iter` |
| Strlen.LineRead | Level2/Sect1.7/Exercise2/src/main.rs:55-72 | the bytes kept: a newline-free prefix of the input, at most `MAXLINE` long, ending at the limit, the end of input or a newline |
| Strlen.ReadLine | Level2/Sect1.7/Exercise2/src/main.rs:46-78 | the buffer of `MAXLINE + 1` bytes holds `LineRead(input)` and then a zero byte; the reported length is at most the count read |
| Strlen.LengthExamples | Level2/Sect1.7/Exercise2/src/main.rs:102-108 | `"Hello\0"` has length 5, `"Test\0"` 4, `"\0"` 0 |
| Factorial.Fact | Level1/Sect1.5/Exercise2/src/main.rs:10-18 | the factorial is at least 1, and at least `n` for `n >= 1` |
| Factorial.FactorialU64 | Level1/Sect1.5/Exercise2/src/main.rs:10-18 | the `u64` computation, when it does not overflow, stays below 2^64 |
| Factorial.WithStepsAgrees | Level1/Sect1.5/Exercise2/src/main.rs:21-41 | `factorial_with_steps` returns what `factorial` returns, at any depth |
| Factorial.FactMonotone | Level1/Sect1.5/Exercise2/src/main.rs:10-18 | `m <= n` implies `m! <= n!` |
| Factorial.FactTwentyBounds | Level1/Sect1.5/Exercise2/src/main.rs:58-60 | 20! is below 2^64 and 21! is not |
| Factorial.FactorialU64Exact | Level1/Sect1.5/Exercise2/src/main.rs:58-60 | the `u64` factorial is exact for `n <= 20` and overflows for every `n > 20` |
| Factorial.FactorialExamples | Level1/Sect1.5/Exercise2/src/main.rs:98-100 | the printed table: 0! = 1! = 1, 5! = 120, 6! = 720, 10! = 3628800 |
| Macros.Max2 | Level2/Sect1.6/Exercise2/src/defs.rs:24-32 | at least both arguments and equal to one of them; the second on a tie |
| Macros.Max3 | Level2/Sect1.6/Exercise2/src/defs.rs:37-41 | at least all three arguments and equal to one of them |
| Macros.MaxOrderIndependent | Level2/Sect1.6/Exercise2/src/defs.rs:37-41 | the result does not depend on argument order or nesting |
| Macros.Max3Least | Level2/Sect1.6/Exercise2/src/defs.rs:37-41 | any bound on the three arguments bounds `max3!` |
| Macros.MacroExamples | Level2/Sect1.6/Exercise2/src/main.rs:62-70 | the printed examples: `MAX2(5,3) = 5`, `MAX3(-1,-2,-3) = -1`, `MAX3(5,5,5) = 5`, … |
| Swap.Swap | Level2/Sect1.7/Exercise1/src/main.rs:14-18 | the two values are exchanged |
| Swap.SwapRustWay | Level2/Sect1.7/Exercise1/src/main.rs:21-23 | the two values are exchanged |
| Swap.SwapTuple | Level2/Sect1.7/Exercise1/src/main.rs:26-28 | the two values are exchanged |
| Swap.SwapSequence | Level2/Sect1.7/Exercise1/src/main.rs:73-87 | three swaps of `123, 456` leave them exchanged; the middle swap undoes the first |
| Bytes.Ascii | Level2/Sect1.7/Exercise2/src/main.rs:102-108 | a byte-string literal keeps the length and the code of each character below 256 |
| Bytes.AsciiConcat | Level2/Sect1.7/Exercise2/src/main.rs:102-108 | the bytes of a concatenation are the concatenated bytes |
| Articles.NewArticle | Level2/Sect1.8/Exercise1/src/main.rs:30-42 | number and quantity are kept; the description is a prefix of the input, the whole input up to 20 bytes and exactly 20 bytes beyond |
| Articles.TruncationIdempotent | Level2/Sect1.8/Exercise1/src/main.rs:30-42 | a stored description fits in 20 bytes, and rebuilding from it changes nothing |
| Articles.TruncationKeepsPrefixOnly | Level2/Sect1.8/Exercise1/src/main.rs:30-42 | two long descriptions with the same first 20 bytes give the same article |
| Articles.ArticleExamples | Level2/Sect1.8/Exercise1/src/main.rs:112-116 | "Screwdriver Set" is kept; the long description becomes "This is a very long " |
| WordCount.Lines | Level1/Sect1.4/Exercise3/src/main.rs:69-72 | at least one line for a non-empty text, none for the empty text |
| WordCount.NewlinesBounded | Level1/Sect1.4/Exercise3/src/main.rs:27-67 | there are no more newlines or words than bytes |
| WordCount.ClassifyChar | Level1/Sect1.4/Exercise3/src/main.rs:119-160 | afterwards `in_word` holds iff the character is not a separator; the count goes up by one exactly when a non-separator opens a word |
| WordCount.ClassifierCountsWords | Level1/Sect1.4/Exercise3/src/main.rs:119-160 | folding the classifier over a text gives its word count, and `in_word` says whether the text ends inside a word |
| WordCount.CountText | Level1/Sect1.4/Exercise3/src/main.rs:27-72 | characters = bytes read, words = maximal separator-free runs, lines = newlines raised to 1 for a non-empty text without one |
| WordCount.CountExamples | Level1/Sect1.4/Exercise3/src/main.rs:27-72 | "a b\n" has 2 words and 1 line; "ab" has 1 word and 1 line; the empty text has neither |

## Left out

- **Console I/O.** This covers every `main` body, `Display`/`Debug`
  formatting, `description`, the `to_string_*` helpers, the
  `demonstrate_*`/`compare_*` printers, and the `print*` functions of the
  article exercise. None of it computes anything the model would state.
- **Trigonometry.** `Point::rotate`, `Line::angle`, `Line::parallel_line`,
  `Circle::area`, `Circle::circumference` and `Circle::point_at_angle` are
  left out: π and the trigonometric functions have no exact counterpart
  over the reals used here.
- **Floating point.** `f64` rounding, NaN and infinities are not modelled;
  arithmetic is exact over the reals. `f64::EPSILON` is the exact 2^-52,
  and the `1e-10` tolerance is exact.
  - Numeric.Sqrt: the contract does not state that every non-negative
    real has a root, because that fact is not provable over Dafny's reals.
    So `Sqrt(s)` is pinned only where a root is exhibited (`SqrtUnique`,
    e.g. for perfect squares); elsewhere it is only known to be
    non-negative and, when non-zero, to square back to `s`.
- **`Copy` setters.** `Point`, `Line` and `Circle` setters and `*=` return
  the updated value rather than mutating a variable. The program treats
  these types as `Copy` values, so nothing is shared that could observe
  the difference.
- **Integer widths.** The builders' `usize` arithmetic (`i * 2`, `i * 3`,
  `i + 1`, casts to `f64`) is exact and unbounded. Overflow of these is
  left out because it only happens for sizes no vector could hold.
  - Points.CreatePointArray: `i * i` is computed in `usize` and overflows
    from `i = 2^32` on a 64-bit target (`i = 2^16` on a 32-bit one),
    sizes a vector can hold. A checked build panics there and an unchecked
    build wraps, so at `i = 2^32` the y coordinate becomes 0.0. The model
    promises `y = i²` for every `i`, so it matches the program only for
    sizes up to 2^32 (2^16 on 32-bit).
- **The two `Array` copies.** They are modelled by one class over the
  geometry `Point`. The `Point` behind the copy-semantics exercise's
  `Array` is not part of this model; its array uses only `Point::default()`
  and equality, which the model's `Point` provides.
- **Iterator pass-throughs.** `iter`, `iter_mut`, `as_slice`,
  `as_mut_slice` and `for_each` are left out: they only expose the buffer
  that `ToVec` returns.
  - Containers.Array.ForEachMut: the closure is a pure function of the
    index and the point, so state a closure captures is not modelled.
- **Ghost members.** Containers.Array.TotalPathDistance,
  Containers.Array.FarthestFromOrigin and
  Circles.AnalyzeCircleIntersections are ghost, because they rest on the
  ghost square root. The intersection scan is a verified ghost method
  rather than executable code.
- **Centroid rounding.** Containers.CentroidOf: the containers copy scales
  by `1 / n` and `calculate_centroid` divides by `n`. The two can round
  differently in `f64` but are equal over the reals
  (Containers.CentroidsAgree).
- **Shape ids.** Shapes.Shape.New requires the counter to be below
  `u32::MAX`. Incrementing `NEXT_ID` past `u32::MAX` panics in a checked
  build and wraps in an unchecked one; that case is excluded rather than
  modelled. The `unsafe` static's lack of synchronisation is not modelled.
- **Word-count counters.**
  - WordCount.CountText and WordCount.ClassifyChar: `char_count`,
    `word_count` and `line_count` are `i32` in the program, so
    `char_count += 1` overflows once the input exceeds `i32::MAX`
    (2^31 − 1) bytes. A checked build panics there and an unchecked build
    wraps. The model's counters are unbounded, and the exact counts it
    promises hold for the program only on inputs shorter than 2^31 bytes.
- **Factorial argument.** Factorial.FactorialU64: the `u32` argument is
  taken as given. `None` stands for the overflow, which a checked build
  reports as a panic and an unchecked build wraps.
- **UTF-8 validity.** Articles.NewArticle requires byte 20 to start a
  character when the description is longer, because `String::truncate`
  panics otherwise. Validity of the rest of the UTF-8 text is not
  modelled.
- **Read errors.** Strlen.ReadLine and WordCount.CountText treat a read
  error as end of input, as both loops do by breaking out. The error
  message on standard error is not modelled.
