/** The geometry of ethos_4d: distances in the four-dimensional manifold, the length of a world-line (spacetime.py) and
the geodesic reports (metrics.py).

Numbers are reals. The square root and the rounding of Python's `round` are parameters. */
module WorldLines {
  import opened Common
  import opened Reals

  datatype Coordinate = Coordinate(
    x: real, y: real, z: real, t: real, taskId: string, state: string, nodeType: string, caption: string)

  // `nearest` rounds to an integer; round(v, 4) is nearest(10000 v) / 10000.
  datatype Env = Env(root: real -> real, nearest: real -> int)

  predicate RootOf(r: real, v: real) {
    r >= 0.0 && Square(r) == v
  }

  ghost predicate Sound(env: Env) {
    && (forall v: real {:trigger RootOf(env.root(v), v)} :: v >= 0.0 ==> RootOf(env.root(v), v))
    && (forall v: real :: NearestTo(env.nearest(v), v))
    && (forall u: real, v: real :: u <= v ==> env.nearest(u) <= env.nearest(v))
  }

  // ----- Vectors -----

  type Vector = seq<real>

  function Step(p: Coordinate, q: Coordinate): Vector {
    [p.x - q.x, p.y - q.y, p.z - q.z, p.t - q.t]
  }

  function Squares(a: Vector): (v: Vector)
    ensures |v| == |a|
    ensures forall i :: 0 <= i < |a| ==> v[i] == Square(a[i])
  {
    seq(|a|, i requires 0 <= i < |a| => Square(a[i]))
  }

  function Products(a: Vector, b: Vector): (v: Vector)
    requires |a| == |b|
    ensures |v| == |a|
  {
    seq(|a|, i requires 0 <= i < |a| => a[i] * b[i])
  }

  // a + c b
  function Moved(a: Vector, c: real, b: Vector): (v: Vector)
    requires |a| == |b|
    ensures |v| == |a|
  {
    seq(|a|, i requires 0 <= i < |a| => a[i] + c * b[i])
  }

  function Norm(a: Vector): real {
    Sum(Squares(a))
  }

  function Dot(a: Vector, b: Vector): real
    requires |a| == |b|
  {
    Sum(Products(a, b))
  }

  // distance_to
  function Distance(env: Env, p: Coordinate, q: Coordinate): real {
    env.root(Norm(Step(p, q)))
  }

  lemma NormIsSumOfFour(p: Coordinate, q: Coordinate)
    ensures Norm(Step(p, q)) == Square(p.x - q.x) + Square(p.y - q.y) + Square(p.z - q.z) + Square(p.t - q.t)
  {
    var v := Squares(Step(p, q));
    assert v == [v[0], v[1], v[2], v[3]];
    SumOfFour(v[0], v[1], v[2], v[3]);
  }

  lemma SumOfFour(a: real, b: real, c: real, d: real)
    ensures Sum([a, b, c, d]) == a + b + c + d
  {
    assert [a, b, c, d][..3] == [a, b, c] && [a, b, c][..2] == [a, b] && [a, b][..1] == [a] && [a][..0] == [];
    assert Sum([a]) == a;
    assert Sum([a, b]) == a + b;
  }

  lemma SquareOfMoved(u: real, c: real, w: real)
    ensures Square(u + c * w) == Square(u) + (2.0 * c) * (u * w) + (c * c) * Square(w)
  {
    assert (2.0 * c) * (u * w) == 2.0 * (u * (c * w));
    assert (c * c) * Square(w) == (c * w) * (c * w);
  }

  // |a + c b|^2 == |a|^2 + 2c (a . b) + c^2 |b|^2
  lemma {:induction false} NormOfMoved(
    a: Vector, c: real, b: Vector, c1: real, c2: real, moved: real, na: real, dot: real, nb: real)
    requires |a| == |b| && c1 == 2.0 * c && c2 == c * c
    requires moved == Norm(Moved(a, c, b)) && na == Norm(a) && dot == Dot(a, b) && nb == Norm(b)
    ensures moved == na + c1 * dot + c2 * nb
  {
    var w, s, q, r := Squares(Moved(a, c, b)), Squares(a), Products(a, b), Squares(b);
    forall i | 0 <= i < |a| ensures Combined(w, s, c1, q, c2, r, i) {
      MovedAt(a, c, b, c1, c2, i);
    }
    SumOfCombination(w, s, c1, q, c2, r, moved, na, dot, nb);
  }

  lemma MovedAt(a: Vector, c: real, b: Vector, c1: real, c2: real, i: nat)
    requires |a| == |b| && i < |a| && c1 == 2.0 * c && c2 == c * c
    ensures Combined(Squares(Moved(a, c, b)), Squares(a), c1, Products(a, b), c2, Squares(b), i)
  {
    SquareOfMoved(a[i], c, b[i]);
  }

  lemma NormSign(a: Vector)
    ensures Norm(a) >= 0.0
    ensures Norm(a) == 0.0 <==> forall i :: 0 <= i < |a| ==> a[i] == 0.0
  {
    var v := Squares(a);
    assert forall i :: 0 <= i < |a| ==> v[i] == Square(a[i]);
    SumOfNonNegative(v);
  }

  lemma DotOfZero(a: Vector, b: Vector)
    requires |a| == |b| && Norm(b) == 0.0
    ensures Dot(a, b) == 0.0
  {
    NormSign(b);
    var v := Products(a, b);
    forall i | 0 <= i < |a| ensures v[i] == 0.0 {
      TimesZero(a[i]);
    }
    SumOfNonNegative(v);
  }

  // From 0 <= |a - (ra / rb) b|^2 to a . b <= ra rb.
  lemma BoundFromGap(ra: real, rb: real, A: real, B: real, dot: real, c: real, c1: real, c2: real, gap: real)
    requires RootOf(ra, A) && RootOf(rb, B) && rb > 0.0
    requires c * rb == -ra && c1 == 2.0 * c && c2 == c * c
    requires gap == A + c1 * dot + c2 * B && gap >= 0.0
    ensures dot <= ra * rb || ra == 0.0
  {
    GapTimesRoot(ra, rb, A, B, c, c2);
    assert c1 * dot == 2.0 * (c * dot);
    if ra > 0.0 {
      ScaleOrder(0.0, A + c * dot, rb);
      CancelFactor(ra, rb, A, dot, c);
    }
  }

  lemma GapTimesRoot(ra: real, rb: real, A: real, B: real, c: real, c2: real)
    requires RootOf(ra, A) && RootOf(rb, B) && c * rb == -ra && c2 == c * c
    ensures c2 * B == A
  {
    assert (c * rb) * (c * rb) == (c * c) * (rb * rb);
  }

  lemma CancelFactor(ra: real, rb: real, A: real, dot: real, c: real)
    requires ra > 0.0 && RootOf(ra, A) && c * rb == -ra && 0.0 <= (A + c * dot) * rb
    ensures dot <= ra * rb
  {
    assert (A + c * dot) * rb == A * rb + (c * rb) * dot;
    assert A * rb == ra * (ra * rb);
    assert (c * rb) * dot == -(ra * dot);
    ScaleOrder(dot, ra * rb, ra);
  }

  lemma ScaleOrder(u: real, v: real, k: real)
    requires k > 0.0
    ensures u <= v <==> u * k <= v * k
  {
    if u > v { ProductIsPositive(u - v, k, u * k - v * k); }
    if v > u { ProductIsPositive(v - u, k, v * k - u * k); }
  }

  lemma CauchySchwarz(a: Vector, b: Vector, ra: real, rb: real)
    requires |a| == |b| && RootOf(ra, Norm(a)) && RootOf(rb, Norm(b))
    ensures Dot(a, b) <= ra * rb
  {
    if rb == 0.0 {
      DotOfZero(a, b);
      TimesZero(ra);
    } else if ra == 0.0 {
      DotCommutes(a, b);
      DotOfZero(b, a);
      TimesZero(rb);
    } else {
      var c := -ra / rb;
      QuotientTimes(-ra, rb);
      BoundFromNorm(a, b, ra, rb, c, 2.0 * c, c * c);
    }
  }

  lemma BoundFromNorm(a: Vector, b: Vector, ra: real, rb: real, c: real, c1: real, c2: real)
    requires |a| == |b| && RootOf(ra, Norm(a)) && RootOf(rb, Norm(b)) && rb > 0.0 && ra > 0.0
    requires c * rb == -ra && c1 == 2.0 * c && c2 == c * c
    ensures Dot(a, b) <= ra * rb
  {
    var moved, na, nb, dot := Norm(Moved(a, c, b)), Norm(a), Norm(b), Dot(a, b);
    NormOfMoved(a, c, b, c1, c2, moved, na, dot, nb);
    NormSign(Moved(a, c, b));
    BoundFromGap(ra, rb, na, nb, dot, c, c1, c2, moved);
  }

  lemma DotCommutes(a: Vector, b: Vector)
    requires |a| == |b|
    ensures Dot(a, b) == Dot(b, a)
  {
    assert Products(a, b) == Products(b, a);
  }

  lemma SquaresOrder(u: real, v: real)
    requires v >= 0.0 && Square(u) <= Square(v)
    ensures u <= v
  {
    if u > v { ProductIsPositive(u - v, u + v, Square(u) - Square(v)); }
  }

  lemma RootsAdd(ra: real, rb: real, rc: real, A: real, B: real, C: real, d: real)
    requires RootOf(ra, A) && RootOf(rb, B) && RootOf(rc, C)
    requires C == A + 2.0 * d + 1.0 * B && d <= ra * rb
    ensures rc <= ra + rb
  {
    SquareOfMoved(ra, 1.0, rb);
    SquaresOrder(rc, ra + rb);
  }

  lemma TriangleInequality(env: Env, p: Coordinate, q: Coordinate, r: Coordinate)
    requires Sound(env)
    ensures Distance(env, p, r) <= Distance(env, p, q) + Distance(env, q, r)
  {
    var a, b, c := Step(p, q), Step(q, r), Step(p, r);
    assert c == Moved(a, 1.0, b);
    NormOfMoved(a, 1.0, b, 2.0, 1.0, Norm(c), Norm(a), Dot(a, b), Norm(b));
    DistanceIsRoot(env, p, q, Norm(a));
    DistanceIsRoot(env, q, r, Norm(b));
    DistanceIsRoot(env, p, r, Norm(c));
    CauchySchwarz(a, b, Distance(env, p, q), Distance(env, q, r));
    RootsAdd(Distance(env, p, q), Distance(env, q, r), Distance(env, p, r), Norm(a), Norm(b), Norm(c), Dot(a, b));
  }

  lemma DistanceIsRoot(env: Env, p: Coordinate, q: Coordinate, norm: real)
    requires Sound(env) && norm == Norm(Step(p, q))
    ensures RootOf(Distance(env, p, q), norm)
  {
    NormSign(Step(p, q));
    assert RootOf(env.root(norm), norm);
  }

  predicate SamePlace(p: Coordinate, q: Coordinate) {
    p.x == q.x && p.y == q.y && p.z == q.z && p.t == q.t
  }

  // A distance is symmetric, never negative, and zero only between equal places.
  lemma DistanceSeparates(env: Env, p: Coordinate, q: Coordinate)
    requires Sound(env)
    ensures Distance(env, p, q) >= 0.0
    ensures Distance(env, p, q) == 0.0 <==> SamePlace(p, q)
    ensures Distance(env, p, q) == Distance(env, q, p)
  {
    DistanceIsRoot(env, p, q, Norm(Step(p, q)));
    NormSeparates(p, q, Norm(Step(p, q)));
    NormOfReverse(p, q);
  }

  lemma NormSeparates(p: Coordinate, q: Coordinate, norm: real)
    requires norm == Norm(Step(p, q))
    ensures norm == 0.0 <==> SamePlace(p, q)
  {
    var a := Step(p, q);
    NormSign(a);
    assert a[0] == p.x - q.x && a[1] == p.y - q.y && a[2] == p.z - q.z && a[3] == p.t - q.t;
  }

  lemma SquareOfReverse(u: real, v: real)
    ensures Square(u - v) == Square(v - u)
  {
  }

  lemma NormOfReverse(p: Coordinate, q: Coordinate)
    ensures Norm(Step(p, q)) == Norm(Step(q, p))
  {
    SquareOfReverse(p.x, q.x);
    SquareOfReverse(p.y, q.y);
    SquareOfReverse(p.z, q.z);
    SquareOfReverse(p.t, q.t);
    assert Squares(Step(p, q)) == Squares(Step(q, p));
  }

  // ----- Lengths of paths, for any metric -----

  type Metric = (Coordinate, Coordinate) -> real

  ghost predicate Triangular(d: Metric) {
    && (forall p: Coordinate, q: Coordinate :: d(p, q) >= 0.0)
    && (forall p: Coordinate :: d(p, p) == 0.0)
    && (forall p: Coordinate, q: Coordinate, r: Coordinate :: d(p, r) <= d(p, q) + d(q, r))
  }

  // distance_to, as a metric
  function Between(env: Env): Metric {
    (p, q) => Distance(env, p, q)
  }

  lemma BetweenIsTriangular(env: Env)
    requires Sound(env)
    ensures Triangular(Between(env))
  {
    forall p: Coordinate, q: Coordinate
      ensures Between(env)(p, q) >= 0.0 && Between(env)(p, p) == 0.0
    {
      DistanceSeparates(env, p, q);
      DistanceSeparates(env, p, p);
    }
    forall p: Coordinate, q: Coordinate, r: Coordinate
      ensures Between(env)(p, r) <= Between(env)(p, q) + Between(env)(q, r)
    {
      TriangleInequality(env, p, q, r);
    }
  }

  type Path = seq<Coordinate>

  // arc_length
  function ArcLength(d: Metric, path: Path): real {
    if |path| < 2 then 0.0
    else ArcLength(d, path[..|path| - 1]) + d(path[|path| - 2], path[|path| - 1])
  }

  // A path that passes through a point is as long as its two halves.
  lemma {:induction false} ArcSplits(d: Metric, path: Path, k: nat)
    requires k < |path|
    ensures ArcLength(d, path) == ArcLength(d, path[..k + 1]) + ArcLength(d, path[k..])
    decreases |path|
  {
    var n := |path|;
    if k == n - 1 {
      assert path[..n] == path;
    } else {
      var front := path[..n - 1];
      ArcSplits(d, front, k);
      assert front[..k + 1] == path[..k + 1];
      assert path[k..][..n - k - 1] == front[k..];
      assert path[k..][n - k - 2] == path[n - 2] && path[k..][n - k - 1] == path[n - 1];
    }
  }

  lemma {:induction false} ArcIsAtLeastChord(d: Metric, path: Path)
    requires Triangular(d) && path != []
    ensures ArcLength(d, path) >= d(path[0], path[|path| - 1])
  {
    var n := |path|;
    if n == 1 {
    } else {
      ArcIsAtLeastChord(d, path[..n - 1]);
    }
  }

  // Between any two of its points too, a world-line is no shorter than the straight line.
  lemma {:induction false} PartsAreAtLeastChords(d: Metric, path: Path, i: nat, j: nat)
    requires Triangular(d) && i <= j < |path|
    ensures ArcLength(d, path) >= ArcLength(d, path[i..j + 1]) >= d(path[i], path[j])
  {
    var upTo := path[..j + 1];
    ArcSplits(d, path, j);
    ArcSplits(d, upTo, i);
    assert upTo[i..] == path[i..j + 1];
    ArcIsNonNegative(d, path[j..]);
    ArcIsNonNegative(d, upTo[..i + 1]);
    ArcIsAtLeastChord(d, path[i..j + 1]);
  }

  lemma {:induction false} ArcIsNonNegative(d: Metric, path: Path)
    requires Triangular(d)
    ensures ArcLength(d, path) >= 0.0
  {
    if |path| >= 2 {
      ArcIsNonNegative(d, path[..|path| - 1]);
    }
  }

  // `kept` lists increasing positions of a path.
  predicate Increasing(kept: seq<nat>, length: nat) {
    && (forall i :: 0 <= i < |kept| ==> kept[i] < length)
    && (forall i, j :: 0 <= i < j < |kept| ==> kept[i] < kept[j])
  }

  function Select(path: Path, kept: seq<nat>): (selected: Path)
    requires Increasing(kept, |path|)
    ensures |selected| == |kept|
    ensures forall i :: 0 <= i < |kept| ==> selected[i] == path[kept[i]]
  {
    seq(|kept|, i requires 0 <= i < |kept| => path[kept[i]])
  }

  lemma {:induction false} ArcToLastSelected(d: Metric, path: Path, kept: seq<nat>)
    requires Triangular(d) && kept != [] && Increasing(kept, |path|)
    ensures ArcLength(d, Select(path, kept)) <= ArcLength(d, path[..kept[|kept| - 1] + 1])
    decreases |kept|
  {
    var n := |kept|;
    var selected, upTo := Select(path, kept), path[..kept[n - 1] + 1];
    if n == 1 {
      ArcIsNonNegative(d, upTo);
    } else {
      var before := kept[..n - 1];
      assert before[n - 2] == kept[n - 2] < kept[n - 1];
      ArcToLastSelected(d, path, before);
      assert selected[..n - 1] == Select(path, before);
      ArcSplits(d, upTo, kept[n - 2]);
      assert upTo[..kept[n - 2] + 1] == path[..kept[n - 2] + 1];
      ArcIsAtLeastChord(d, upTo[kept[n - 2]..]);
    }
  }

  // Leaving out points never makes a world-line longer; put the other way, inserting points never shortens it.
  lemma SelectionIsNoLonger(d: Metric, path: Path, kept: seq<nat>)
    requires Triangular(d) && Increasing(kept, |path|)
    ensures ArcLength(d, Select(path, kept)) <= ArcLength(d, path)
  {
    if kept == [] {
      ArcIsNonNegative(d, path);
    } else {
      var last := kept[|kept| - 1];
      ArcToLastSelected(d, path, kept);
      ArcSplits(d, path, last);
      ArcIsNonNegative(d, path[last..]);
    }
  }

  // Every position but k.
  function Around(k: nat, length: nat): (kept: seq<nat>)
    ensures |kept| == length
    ensures forall i :: 0 <= i < length ==> kept[i] == if i < k then i else i + 1
  {
    seq(length, i requires 0 <= i < length => if i < k then i else i + 1)
  }

  lemma InsertedSelects(path: Path, k: nat, p: Coordinate, longer: Path)
    requires k <= |path| && longer == path[..k] + [p] + path[k..]
    ensures Increasing(Around(k, |path|), |longer|) && Select(longer, Around(k, |path|)) == path
  {
    assert forall i :: 0 <= i < k ==> longer[i] == path[i];
    assert forall i :: k <= i < |path| ==> longer[i + 1] == path[i];
  }

  lemma {:induction false} InsertionNeverShortens(d: Metric, path: Path, k: nat, p: Coordinate)
    requires Triangular(d) && k <= |path|
    ensures ArcLength(d, path[..k] + [p] + path[k..]) >= ArcLength(d, path)
  {
    var longer := path[..k] + [p] + path[k..];
    InsertedSelects(path, k, p, longer);
    SelectionIsNoLonger(d, longer, Around(k, |path|));
  }

  // ----- World-lines -----

  class WorldLine {
    const taskId: string
    var coordinates: Path

    constructor (taskId: string)
      ensures this.taskId == taskId && coordinates == []
    {
      this.taskId, coordinates := taskId, [];
    }

    // The new point adds exactly its distance from the last one.
    method AddPoint(ghost env: Env, point: Coordinate)
      modifies this
      ensures coordinates == old(coordinates) + [point]
      ensures ArcLength(Between(env), coordinates) == old(ArcLength(Between(env), coordinates)) +
              if old(coordinates) == [] then 0.0 else Distance(env, old(coordinates)[|old(coordinates)| - 1], point)
    {
      assert (coordinates + [point])[..|coordinates|] == coordinates;
      coordinates := coordinates + [point];
    }
  }

  // ----- Geodesic reports -----

  datatype Ratio = Finite(value: real) | Infinite

  datatype Verdict = NearGeodesic | ModerateDeviation | HighDeviation

  datatype GeodesicReport = GeodesicReport(
    taskId: string, geodesicLength: real, actualLength: real, deviationRatio: Ratio, verdict: Verdict)

  type Trajectory = (string, Path)

  // round(v, 4)
  function Rounded(env: Env, v: real): real {
    env.nearest(v * 10000.0) as real / 10000.0
  }

  // Four decimals, at most half a unit of the last one away.
  lemma RoundedIsNear(env: Env, v: real) returns (n: int)
    requires forall r: real :: NearestTo(env.nearest(r), r)
    ensures -0.00005 <= Rounded(env, v) - v <= 0.00005
    ensures n as real == Rounded(env, v) * 10000.0
  {
    n := env.nearest(v * 10000.0);
    assert NearestTo(n, v * 10000.0);
  }

  // The lines that have a report, in order.
  function Moving(lines: seq<Trajectory>): seq<Trajectory> {
    if lines == [] then []
    else Moving(lines[..|lines| - 1]) + if |lines[|lines| - 1].1| >= 2 then [lines[|lines| - 1]] else []
  }

  const TOO_SHORT := (line: Trajectory) => |line.1| < 2

  // The lines that have a report are those of two points and more, in order.
  lemma {:induction false} MovingAreSifted(lines: seq<Trajectory>)
    ensures Sifted(lines, TOO_SHORT, Moving(lines))
  {
    if lines == [] {
      NothingSifted(TOO_SHORT);
    } else {
      var front, line := lines[..|lines| - 1], lines[|lines| - 1];
      MovingAreSifted(front);
      assert lines == front + [line];
      SiftOne(front, lines, TOO_SHORT, Moving(front), Moving(lines), line);
    }
  }

  function Chord(env: Env, path: Path): real
    requires path != []
  {
    Distance(env, path[0], path[|path| - 1])
  }

  // What a report says about a line, without the quotient.
  ghost predicate Describes(env: Env, report: GeodesicReport, line: Trajectory) {
    && |line.1| >= 2
    && report.taskId == line.0
    && Judged(env, report, Chord(env, line.1), ArcLength(Between(env), line.1))
    && (report.deviationRatio.Infinite? <==> SamePlace(line.1[0], line.1[|line.1| - 1]))
  }

  ghost predicate Judged(env: Env, report: GeodesicReport, geo: real, arc: real) {
    && report.geodesicLength == Rounded(env, geo) && report.actualLength == Rounded(env, arc)
    && report.geodesicLength <= report.actualLength
    && (report.deviationRatio.Infinite? <==> geo == 0.0)
    && (geo != 0.0 ==>
          && report.deviationRatio.value >= 1.0
          && report.deviationRatio.value == Rounded(env, Quotient(arc, geo)))
    && (report.verdict == NearGeodesic <==> geo > 0.0 && arc <= 1.05 * geo)
    && (report.verdict == ModerateDeviation <==> geo > 0.0 && 1.05 * geo < arc <= 2.0 * geo)
  }

  function Quotient(arc: real, geo: real): real
    requires geo != 0.0
  {
    arc / geo
  }

  lemma QuotientBound(arc: real, geo: real, bound: real)
    requires geo > 0.0
    ensures Quotient(arc, geo) <= bound <==> arc <= bound * geo
    ensures bound <= Quotient(arc, geo) <==> bound * geo <= arc
  {
    QuotientTimes(arc, geo);
    ScaleOrder(Quotient(arc, geo), bound, geo);
    ScaleOrder(bound, Quotient(arc, geo), geo);
  }

  lemma RoundingKeepsOne(env: Env, v: real)
    requires Sound(env) && v >= 1.0
    ensures Rounded(env, v) >= 1.0
  {
    var n := env.nearest(v * 10000.0);
    assert NearestTo(n, v * 10000.0);
    assert n as real >= 9999.5;
    assert n >= 10000;
  }

  lemma RoundingIsMonotone(env: Env, u: real, v: real)
    requires Sound(env) && u <= v
    ensures Rounded(env, u) <= Rounded(env, v)
  {
    assert env.nearest(u * 10000.0) <= env.nearest(v * 10000.0);
  }

  // One report for each line of at least two points, in order; the ratio is never below one.
  method GeodesicReports(env: Env, worldLines: seq<Trajectory>) returns (reports: seq<GeodesicReport>)
    requires Sound(env)
    ensures |reports| == |Moving(worldLines)|
    ensures forall i :: 0 <= i < |reports| ==> Describes(env, reports[i], Moving(worldLines)[i])
  {
    reports := [];
    for k := 0 to |worldLines|
      invariant |reports| == |Moving(worldLines[..k])|
      invariant forall i :: 0 <= i < |reports| ==> Describes(env, reports[i], Moving(worldLines[..k])[i])
    {
      assert worldLines[..k + 1][..k] == worldLines[..k];
      var line := worldLines[k];
      if |line.1| < 2 {
        continue;
      }
      var report := Report(env, line);
      reports := reports + [report];
    }
    assert worldLines[..|worldLines|] == worldLines;
  }

  method Report(env: Env, line: Trajectory) returns (report: GeodesicReport)
    requires Sound(env) && |line.1| >= 2
    ensures Describes(env, report, line)
  {
    var start, end := line.1[0], line.1[|line.1| - 1];
    var geo := Distance(env, start, end);
    var arc := ArcLength(Between(env), line.1);
    DistanceSeparates(env, start, end);
    BetweenIsTriangular(env);
    ArcIsAtLeastChord(Between(env), line.1);
    report := Judge(env, line.0, geo, arc);
  }

  method Judge(env: Env, taskId: string, geo: real, arc: real) returns (report: GeodesicReport)
    requires Sound(env) && 0.0 <= geo <= arc
    ensures report.taskId == taskId && Judged(env, report, geo, arc)
  {
    RoundingIsMonotone(env, geo, arc);
    var ratio, verdict := Infinite, HighDeviation;
    if geo > 0.0 {
      var deviation := Quotient(arc, geo);
      QuotientBound(arc, geo, 1.0);
      QuotientBound(arc, geo, 1.05);
      QuotientBound(arc, geo, 2.0);
      RoundingKeepsOne(env, deviation);
      ratio := Finite(Rounded(env, deviation));
      if deviation <= 1.05 {
        verdict := NearGeodesic;
      } else if deviation <= 2.0 {
        verdict := ModerateDeviation;
      }
    }
    report := GeodesicReport(taskId, Rounded(env, geo), Rounded(env, arc), ratio, verdict);
  }

  // A line that returns to where it started is judged to deviate as much as possible, even if it never moved.
  lemma ReturningIsHighDeviation(env: Env, report: GeodesicReport, line: Trajectory)
    requires Sound(env) && Describes(env, report, line)
    ensures SamePlace(line.1[0], line.1[|line.1| - 1]) ==> report.verdict == HighDeviation
    ensures report.verdict == HighDeviation ==>
              SamePlace(line.1[0], line.1[|line.1| - 1]) || ArcLength(Between(env), line.1) > 2.0 * Chord(env, line.1)
  {
    DistanceSeparates(env, line.1[0], line.1[|line.1| - 1]);
  }
}
