/** The least-squares fit and the scoring of veriflow/formula_forge.py, over real numbers.

A row is what `float(row[...])` makes of its two fields, `None` where that raises. `shown` stands for the number that
the six decimals of the expression text read back as. */
module FormulaForge {
  import opened Common
  import opened Reals

  datatype Row = Row(feature: Option<real>, target: Option<real>)
  datatype Point = Point(x: real, y: real)

  const TOLERANCE := 0.000000001

  // ----- Sums -----

  function Ones(n: nat): (v: seq<real>)
    ensures |v| == n
    ensures forall i :: 0 <= i < n ==> v[i] == 1.0
  {
    seq(n, i => 1.0)
  }

  function Xs(ps: seq<Point>): (v: seq<real>)
    ensures |v| == |ps|
    ensures forall i :: 0 <= i < |ps| ==> v[i] == ps[i].x
  {
    seq(|ps|, i requires 0 <= i < |ps| => ps[i].x)
  }

  function Ys(ps: seq<Point>): (v: seq<real>)
    ensures |v| == |ps|
    ensures forall i :: 0 <= i < |ps| ==> v[i] == ps[i].y
  {
    seq(|ps|, i requires 0 <= i < |ps| => ps[i].y)
  }

  function XXs(ps: seq<Point>): (v: seq<real>)
    ensures |v| == |ps|
    ensures forall i :: 0 <= i < |ps| ==> v[i] == ps[i].x * ps[i].x
  {
    seq(|ps|, i requires 0 <= i < |ps| => ps[i].x * ps[i].x)
  }

  function XYs(ps: seq<Point>): (v: seq<real>)
    ensures |v| == |ps|
  {
    seq(|ps|, i requires 0 <= i < |ps| => ps[i].x * ps[i].y)
  }

  lemma {:induction false} SumOfOnes(n: nat)
    ensures Sum(Ones(n)) == n as real
  {
    if n > 0 {
      assert Ones(n)[..n - 1] == Ones(n - 1);
      SumOfOnes(n - 1);
    }
  }

  // ----- Residuals -----

  function Residual(p: Point, a: real, b: real): real {
    p.y - (a * p.x + b)
  }

  // The squared residuals of the line y = a x + b.
  function SquaredResiduals(ps: seq<Point>, a: real, b: real): (v: seq<real>)
    ensures |v| == |ps|
    ensures forall i :: 0 <= i < |ps| ==> v[i] == Square(Residual(ps[i], a, b))
  {
    seq(|ps|, i requires 0 <= i < |ps| => Square(Residual(ps[i], a, b)))
  }

  function SquaredError(ps: seq<Point>, a: real, b: real): real {
    Sum(SquaredResiduals(ps, a, b))
  }

  predicate OnLine(p: Point, a: real, b: real) {
    p.y == a * p.x + b
  }

  lemma OnLineIffNoError(ps: seq<Point>, a: real, b: real)
    ensures SquaredError(ps, a, b) >= 0.0
    ensures SquaredError(ps, a, b) == 0.0 <==> forall i :: 0 <= i < |ps| ==> OnLine(ps[i], a, b)
  {
    var v := SquaredResiduals(ps, a, b);
    assert forall i :: 0 <= i < |v| ==> v[i] == Square(Residual(ps[i], a, b));
    SumOfNonNegative(v);
  }

  // ----- The denominator -----

  function Count(ps: seq<Point>): real {
    |ps| as real
  }

  // n * sum_xx - sum_x ** 2
  function Determinant(n: real, sx: real, sxx: real): real {
    n * sxx - sx * sx
  }

  function Denominator(ps: seq<Point>): real {
    Determinant(Count(ps), Sum(Xs(ps)), Sum(XXs(ps)))
  }

  // The squared distances of the x values from one value.
  function Spreads(ps: seq<Point>, x: real): (v: seq<real>)
    ensures |v| == |ps|
    ensures forall i :: 0 <= i < |ps| ==> v[i] == Square(ps[i].x - x)
  {
    seq(|ps|, i requires 0 <= i < |ps| => Square(ps[i].x - x))
  }

  predicate SpreadsCombine(ps: seq<Point>, x: real, c: real, d: real) {
    forall i :: 0 <= i < |ps| ==> Combined(Spreads(ps, x), XXs(ps), c, Xs(ps), d, Ones(|ps|), i)
  }

  lemma SpreadExpands(ps: seq<Point>, x: real, c: real, d: real)
    requires c == -2.0 * x && d == x * x
    ensures SpreadsCombine(ps, x, c, d)
  {
    forall i | 0 <= i < |ps| ensures Combined(Spreads(ps, x), XXs(ps), c, Xs(ps), d, Ones(|ps|), i) {
      SpreadAt(ps, x, c, d, i);
    }
  }

  lemma SpreadAt(ps: seq<Point>, x: real, c: real, d: real, i: nat)
    requires i < |ps| && c == -2.0 * x && d == x * x
    ensures Combined(Spreads(ps, x), XXs(ps), c, Xs(ps), d, Ones(|ps|), i)
  {
    DifferenceSquared(ps[i].x, x);
  }

  lemma DifferenceSquared(z: real, x: real)
    ensures Square(z - x) == z * z + (-2.0 * x) * z + (x * x) * 1.0
  {
  }

  lemma DeterminantOf(ps: seq<Point>, n: real, s: real, q: real)
    requires n == Count(ps) && s == Sum(Xs(ps)) && q == Sum(XXs(ps))
    ensures Denominator(ps) == Determinant(n, s, q)
  {
  }

  // Whatever value the spread is taken around, the denominator is n times the spread less the square of the gap.
  lemma {:induction false} DenominatorShifts(
    ps: seq<Point>, z: real, c: real, d: real, n: real, s: real, q: real, spread: real, gap: real)
    requires n == Count(ps) && s == Sum(Xs(ps)) && q == Sum(XXs(ps)) && spread == Sum(Spreads(ps, z))
    requires c == -2.0 * z && d == z * z && gap == s - z * n
    ensures Denominator(ps) == n * spread - Square(gap)
  {
    SumOfOnes(|ps|);
    SpreadExpands(ps, z, c, d);
    SpreadInSums(ps, z, c, d, n, s, q, spread);
    ShiftIdentity(n, s, q, z, c, d, spread, gap);
    DeterminantOf(ps, n, s, q);
  }

  lemma SpreadInSums(ps: seq<Point>, z: real, c: real, d: real, n: real, s: real, q: real, spread: real)
    requires n == Sum(Ones(|ps|)) && s == Sum(Xs(ps)) && q == Sum(XXs(ps)) && spread == Sum(Spreads(ps, z))
    requires SpreadsCombine(ps, z, c, d)
    ensures spread == q + c * s + d * n
  {
    SumOfCombination(Spreads(ps, z), XXs(ps), c, Xs(ps), d, Ones(|ps|), spread, q, s, n);
  }

  lemma ShiftIdentity(n: real, s: real, q: real, z: real, c: real, d: real, spread: real, gap: real)
    requires c == -2.0 * z && d == z * z && spread == q + c * s + d * n && gap == s - z * n
    ensures Determinant(n, s, q) == n * spread - Square(gap)
  {
    assert n * spread == n * q + n * (c * s) + n * (d * n);
    assert Square(gap) == s * s - 2.0 * (s * (z * n)) + (z * n) * (z * n);
  }

  predicate AllXEqual(ps: seq<Point>) {
    forall i, j :: 0 <= i < j < |ps| ==> ps[i].x == ps[j].x
  }

  lemma NoSpreadIffAllAt(ps: seq<Point>, x: real)
    ensures Sum(Spreads(ps, x)) >= 0.0
    ensures Sum(Spreads(ps, x)) == 0.0 <==> forall i :: 0 <= i < |ps| ==> ps[i].x == x
  {
    var v := Spreads(ps, x);
    assert forall i :: 0 <= i < |v| ==> v[i] == Square(ps[i].x - x);
    SumOfNonNegative(v);
  }

  // The denominator is never negative, and vanishes exactly when every x is the same.
  lemma DenominatorVanishesIff(ps: seq<Point>)
    ensures Denominator(ps) >= 0.0
    ensures Denominator(ps) == 0.0 <==> AllXEqual(ps)
  {
    if ps != [] {
      AroundMean(ps, Count(ps), Sum(Xs(ps)), Sum(Xs(ps)) / Count(ps));
      if AllXEqual(ps) { AroundFirst(ps, ps[0].x, Count(ps), Sum(Xs(ps))); }
    }
  }

  // Around the mean there is no gap.
  lemma AroundMean(ps: seq<Point>, n: real, s: real, m: real)
    requires ps != [] && n == Count(ps) && s == Sum(Xs(ps)) && m == s / n
    ensures Denominator(ps) >= 0.0
    ensures Denominator(ps) == 0.0 ==> AllXEqual(ps)
  {
    var spread := Sum(Spreads(ps, m));
    QuotientTimes(s, n);
    DenominatorShifts(ps, m, -2.0 * m, m * m, n, s, Sum(XXs(ps)), spread, 0.0);
    NoSpreadIffAllAt(ps, m);
    FactorSign(n, spread, n * spread);
  }

  // Around the only value there is no spread.
  lemma AroundFirst(ps: seq<Point>, z: real, n: real, s: real)
    requires ps != [] && AllXEqual(ps) && z == ps[0].x && n == Count(ps) && s == Sum(Xs(ps))
    ensures Denominator(ps) <= 0.0
  {
    NoSpreadIffAllAt(ps, z);
    DenominatorShifts(ps, z, -2.0 * z, z * z, n, s, Sum(XXs(ps)), 0.0, s - z * n);
    TimesZero(n);
  }

  // ----- The fitted line -----

  // What slope = (n * sum_xy - sum_x * sum_y) / denominator and intercept = (sum_y - slope * sum_x) / n say, without
  // the divisions.
  predicate SlopeFits(n: real, sx: real, sy: real, sxx: real, sxy: real, a: real) {
    a * Determinant(n, sx, sxx) == n * sxy - sx * sy
  }

  predicate InterceptFits(n: real, sx: real, sy: real, a: real, b: real) {
    b * n == sy - a * sx
  }

  predicate IsFit(ps: seq<Point>, a: real, b: real) {
    && SlopeFits(Count(ps), Sum(Xs(ps)), Sum(Ys(ps)), Sum(XXs(ps)), Sum(XYs(ps)), a)
    && InterceptFits(Count(ps), Sum(Xs(ps)), Sum(Ys(ps)), a, b)
  }

  // The residuals of a line, plain and weighted by x.
  function Residuals(ps: seq<Point>, a: real, b: real): (v: seq<real>)
    ensures |v| == |ps|
    ensures forall i :: 0 <= i < |ps| ==> v[i] == Residual(ps[i], a, b)
  {
    seq(|ps|, i requires 0 <= i < |ps| => Residual(ps[i], a, b))
  }

  function WeightedResiduals(ps: seq<Point>, a: real, b: real): (v: seq<real>)
    ensures |v| == |ps|
  {
    seq(|ps|, i requires 0 <= i < |ps| => Residual(ps[i], a, b) * ps[i].x)
  }

  lemma ResidualsExpand(
    ps: seq<Point>, a: real, b: real, c: real, d: real, r: real, sy: real, sx: real, n: real)
    requires c == -a && d == -b
    requires r == Sum(Residuals(ps, a, b)) && sy == Sum(Ys(ps)) && sx == Sum(Xs(ps)) && n == Sum(Ones(|ps|))
    ensures r == sy + c * sx + d * n
  {
    forall i | 0 <= i < |ps| ensures Combined(Residuals(ps, a, b), Ys(ps), c, Xs(ps), d, Ones(|ps|), i) {
      ResidualAt(ps, a, b, c, d, i);
    }
    SumOfCombination(Residuals(ps, a, b), Ys(ps), c, Xs(ps), d, Ones(|ps|), r, sy, sx, n);
  }

  lemma {:induction false} WeightedResidualsExpand(
    ps: seq<Point>, a: real, b: real, c: real, d: real, w: real, sxy: real, sxx: real, sx: real)
    requires c == -a && d == -b
    requires w == Sum(WeightedResiduals(ps, a, b)) && sxy == Sum(XYs(ps)) && sxx == Sum(XXs(ps)) && sx == Sum(Xs(ps))
    ensures w == sxy + c * sxx + d * sx
  {
    forall i | 0 <= i < |ps| ensures Combined(WeightedResiduals(ps, a, b), XYs(ps), c, XXs(ps), d, Xs(ps), i) {
      WeightedResidualAt(ps, a, b, c, d, i);
    }
    SumOfCombination(WeightedResiduals(ps, a, b), XYs(ps), c, XXs(ps), d, Xs(ps), w, sxy, sxx, sx);
  }

  lemma ResidualAt(ps: seq<Point>, a: real, b: real, c: real, d: real, i: nat)
    requires i < |ps| && c == -a && d == -b
    ensures Combined(Residuals(ps, a, b), Ys(ps), c, Xs(ps), d, Ones(|ps|), i)
  {
    ResidualExpands(ps[i], a, b);
  }

  lemma WeightedResidualAt(ps: seq<Point>, a: real, b: real, c: real, d: real, i: nat)
    requires i < |ps| && c == -a && d == -b
    ensures Combined(WeightedResiduals(ps, a, b), XYs(ps), c, XXs(ps), d, Xs(ps), i)
  {
    ResidualExpands(ps[i], a, b);
  }

  lemma ResidualExpands(p: Point, a: real, b: real)
    ensures Residual(p, a, b) == p.y + (-a) * p.x + (-b) * 1.0
    ensures Residual(p, a, b) * p.x == p.x * p.y + (-a) * (p.x * p.x) + (-b) * p.x
  {
  }

  // The fitted line solves the normal equations: its residuals sum to zero, and so do they weighted by x.
  lemma NormalEquations(ps: seq<Point>, a: real, b: real)
    requires ps != [] && IsFit(ps, a, b)
    ensures Sum(Residuals(ps, a, b)) == 0.0
    ensures Sum(WeightedResiduals(ps, a, b)) == 0.0
  {
    SumOfOnes(|ps|);
    InterceptBalances(ps, a, b, Count(ps), Sum(Xs(ps)), Sum(Ys(ps)));
    SlopeBalances(ps, a, b, Count(ps), Sum(Xs(ps)), Sum(Ys(ps)), Sum(XXs(ps)), Sum(XYs(ps)));
  }

  lemma InterceptBalances(ps: seq<Point>, a: real, b: real, n: real, sx: real, sy: real)
    requires n == Sum(Ones(|ps|)) && sx == Sum(Xs(ps)) && sy == Sum(Ys(ps)) && InterceptFits(n, sx, sy, a, b)
    ensures Sum(Residuals(ps, a, b)) == 0.0
  {
    var r, a', b' := Sum(Residuals(ps, a, b)), -a, -b;
    ResidualsExpand(ps, a, b, a', b', r, sy, sx, n);
    SolveFirst(n, sx, sy, a, b, a', b', r);
  }

  lemma SolveFirst(n: real, sx: real, sy: real, a: real, b: real, a': real, b': real, r: real)
    requires InterceptFits(n, sx, sy, a, b)
    requires a' == -a && b' == -b && r == sy + a' * sx + b' * n
    ensures r == 0.0
  {
  }

  lemma SlopeBalances(
    ps: seq<Point>, a: real, b: real, n: real, sx: real, sy: real, sxx: real, sxy: real)
    requires n != 0.0 && sx == Sum(Xs(ps)) && sxx == Sum(XXs(ps)) && sxy == Sum(XYs(ps))
    requires SlopeFits(n, sx, sy, sxx, sxy, a) && InterceptFits(n, sx, sy, a, b)
    ensures Sum(WeightedResiduals(ps, a, b)) == 0.0
  {
    var w, a', b' := Sum(WeightedResiduals(ps, a, b)), -a, -b;
    WeightedResidualsExpand(ps, a, b, a', b', w, sxy, sxx, sx);
    SolveWeighted(n, sx, sy, sxx, sxy, a, b, a', b', w);
  }

  lemma SolveWeighted(
    n: real, sx: real, sy: real, sxx: real, sxy: real, a: real, b: real, a': real, b': real, w: real)
    requires n != 0.0 && SlopeFits(n, sx, sy, sxx, sxy, a) && InterceptFits(n, sx, sy, a, b)
    requires a' == -a && b' == -b && w == sxy + a' * sxx + b' * sx
    ensures w == 0.0
  {
    SolveSecond(n, sx, sy, sxx, sxy, a, b);
  }

  lemma SolveSecond(n: real, sx: real, sy: real, sxx: real, sxy: real, a: real, b: real)
    requires n != 0.0
    requires a * (n * sxx - sx * sx) == n * sxy - sx * sy && b * n == sy - a * sx
    ensures sxy - a * sxx - b * sx == 0.0
  {
    assert (b * n) * sx == sy * sx - a * sx * sx;
    assert a * (n * sxx) - a * sx * sx == n * sxy - sx * sy;
    assert n * (a * sxx + b * sx) == a * (n * sxx) + (b * n) * sx;
    CancelFactor(n, a * sxx + b * sx, sxy);
  }

  lemma CancelFactor(n: real, p: real, q: real)
    requires n != 0.0 && n * p == n * q
    ensures p == q
  {
    assert n * (p - q) == 0.0;
  }

  // The squared vertical gaps at the given x values between two lines whose slopes and intercepts differ by `da`
  // and `db`.
  function Gap(p: Point, da: real, db: real): real {
    Square(da * p.x + db)
  }

  function Gaps(ps: seq<Point>, da: real, db: real): (v: seq<real>)
    ensures |v| == |ps|
    ensures forall i :: 0 <= i < |ps| ==> v[i] == Gap(ps[i], da, db)
  {
    seq(|ps|, i requires 0 <= i < |ps| => Gap(ps[i], da, db))
  }

  // Moving a line whose residual sums vanish adds the gaps to its squared error.
  lemma ErrorOfMovedLine(ps: seq<Point>, a: real, b: real, a': real, b': real, da: real, db: real)
    requires a' == a + da && b' == b + db
    requires Sum(Residuals(ps, a, b)) == 0.0 && Sum(WeightedResiduals(ps, a, b)) == 0.0
    ensures SquaredError(ps, a', b') == SquaredError(ps, a, b) + Sum(Gaps(ps, da, db))
  {
    var moved, both := SquaredResiduals(ps, a', b'), ErrorsAndGaps(ps, a, b, da, db);
    var c, d, w, r := -2.0 * da, -2.0 * db, WeightedResiduals(ps, a, b), Residuals(ps, a, b);
    SumOfErrorsAndGaps(ps, a, b, da, db);
    forall i | 0 <= i < |ps| ensures Combined(moved, both, c, w, d, r, i) {
      MovedAt(ps, a, b, a', b', da, db, c, d, i);
    }
    var sm, sb, sw, sr := Sum(moved), Sum(both), Sum(w), Sum(r);
    SumOfCombination(moved, both, c, w, d, r, sm, sb, sw, sr);
    ZeroTerms(sm, sb, c, sw, d, sr);
  }

  lemma ZeroTerms(t: real, s: real, c: real, p: real, d: real, q: real)
    requires t == s + c * p + d * q && p == 0.0 && q == 0.0
    ensures t == s
  {
  }

  function ErrorsAndGaps(ps: seq<Point>, a: real, b: real, da: real, db: real): (v: seq<real>)
    ensures |v| == |ps|
    ensures forall i :: 0 <= i < |ps| ==> v[i] == SquaredResiduals(ps, a, b)[i] + Gaps(ps, da, db)[i]
  {
    seq(|ps|, i requires 0 <= i < |ps| => SquaredResiduals(ps, a, b)[i] + Gaps(ps, da, db)[i])
  }

  lemma SumOfErrorsAndGaps(ps: seq<Point>, a: real, b: real, da: real, db: real)
    ensures Sum(ErrorsAndGaps(ps, a, b, da, db)) == SquaredError(ps, a, b) + Sum(Gaps(ps, da, db))
  {
    SumOfPlus(ErrorsAndGaps(ps, a, b, da, db), SquaredResiduals(ps, a, b), Gaps(ps, da, db));
  }

  lemma {:induction false} SumOfPlus(w: seq<real>, u: seq<real>, v: seq<real>)
    requires |w| == |u| == |v|
    requires forall i :: 0 <= i < |w| ==> w[i] == u[i] + v[i]
    ensures Sum(w) == Sum(u) + Sum(v)
  {
    if w != [] {
      SumOfPlus(w[..|w| - 1], u[..|w| - 1], v[..|w| - 1]);
    }
  }

  lemma MovedAt(
    ps: seq<Point>, a: real, b: real, a': real, b': real, da: real, db: real, c: real, d: real, i: nat)
    requires i < |ps| && a' == a + da && b' == b + db && c == -2.0 * da && d == -2.0 * db
    ensures Combined(SquaredResiduals(ps, a', b'), ErrorsAndGaps(ps, a, b, da, db),
                     c, WeightedResiduals(ps, a, b), d, Residuals(ps, a, b), i)
  {
    MovedResidual(ps[i], a, b, da, db);
  }

  lemma MovedResidual(p: Point, a: real, b: real, da: real, db: real)
    ensures
      var r := Residual(p, a, b);
      Square(Residual(p, a + da, b + db))
      == Square(r) + Square(da * p.x + db) + (-2.0 * da) * (r * p.x) + (-2.0 * db) * r
  {
    var r, u := Residual(p, a, b), da * p.x + db;
    assert Residual(p, a + da, b + db) == r - u;
    DifferenceSquared(r, u);
    assert r * u == da * (r * p.x) + db * r;
  }

  // Two lines without a gap are the same line, unless all x values are the same.
  lemma NoGapMeansSameLine(ps: seq<Point>, da: real, db: real)
    ensures Sum(Gaps(ps, da, db)) >= 0.0
    ensures Denominator(ps) != 0.0 && Sum(Gaps(ps, da, db)) == 0.0 ==> da == 0.0 && db == 0.0
  {
    SumOfNonNegative(Gaps(ps, da, db));
    DenominatorVanishesIff(ps);
    if Denominator(ps) != 0.0 && Sum(Gaps(ps, da, db)) == 0.0 {
      var i, j :| 0 <= i < j < |ps| && ps[i].x != ps[j].x;
      assert Gaps(ps, da, db)[i] == 0.0 && Gaps(ps, da, db)[j] == 0.0;
      TwoZeros(da, db, ps[i], ps[j]);
    }
  }

  lemma TwoZeros(da: real, db: real, p: Point, q: Point)
    requires p.x != q.x && Gap(p, da, db) == 0.0 && Gap(q, da, db) == 0.0
    ensures da == 0.0 && db == 0.0
  {
    assert (p.x - q.x) * da == (p.x - q.x) * 0.0;
    CancelFactor(p.x - q.x, da, 0.0);
  }

  // No line has a smaller squared error than the fitted one, and only the fitted one has as small an error.
  lemma {:induction false} FitIsLeastSquares(ps: seq<Point>, a0: real, b0: real, a: real, b: real)
    requires ps != [] && Denominator(ps) != 0.0 && IsFit(ps, a0, b0)
    ensures SquaredError(ps, a0, b0) <= SquaredError(ps, a, b)
    ensures SquaredError(ps, a0, b0) == SquaredError(ps, a, b) <==> a == a0 && b == b0
  {
    NormalEquations(ps, a0, b0);
    ErrorOfMovedLine(ps, a0, b0, a, b, a - a0, b - b0);
    NoGapMeansSameLine(ps, a - a0, b - b0);
  }

  // Data that lies on a line gives back that line.
  lemma {:induction false} ExactLineIsRecovered(ps: seq<Point>, a0: real, b0: real, a: real, b: real)
    requires ps != [] && Denominator(ps) != 0.0 && IsFit(ps, a0, b0)
    requires forall i :: 0 <= i < |ps| ==> OnLine(ps[i], a, b)
    ensures a0 == a && b0 == b
  {
    OnLineIffNoError(ps, a, b);
    OnLineIffNoError(ps, a0, b0);
    FitIsLeastSquares(ps, a0, b0, a, b);
  }

  // ----- Scoring -----

  datatype Pair = Pair(prediction: real, truth: real)

  datatype Score = Score(score: real, fit: real, coverage: real, stability: real)

  predicate Exact(p: Pair) {
    p.prediction == p.truth
  }

  function Abs(r: real): (a: real)
    ensures a >= 0.0
    ensures a == 0.0 <==> r == 0.0
  {
    if r < 0.0 then -r else r
  }

  function Errors(pairs: seq<Pair>): (v: seq<real>)
    ensures |v| == |pairs|
    ensures forall i :: 0 <= i < |v| ==> v[i] == Abs(pairs[i].prediction - pairs[i].truth)
  {
    seq(|pairs|, i requires 0 <= i < |pairs| => Abs(pairs[i].prediction - pairs[i].truth))
  }

  function Predictions(pairs: seq<Pair>): (v: seq<real>)
    ensures |v| == |pairs|
  {
    seq(|pairs|, i requires 0 <= i < |pairs| => pairs[i].prediction)
  }

  function Truths(pairs: seq<Pair>): (v: seq<real>)
    ensures |v| == |pairs|
  {
    seq(|pairs|, i requires 0 <= i < |pairs| => pairs[i].truth)
  }

  function Largest(v: seq<real>): real
    requires v != []
  {
    if |v| == 1 then v[0] else Max(Largest(v[..|v| - 1]), v[|v| - 1])
  }

  function Smallest(v: seq<real>): real
    requires v != []
  {
    if |v| == 1 then v[0] else Min(Smallest(v[..|v| - 1]), v[|v| - 1])
  }

  function Mean(v: seq<real>): real
    requires v != []
  {
    Sum(v) / |v| as real
  }

  // The sample standard deviation; `root` stands for math.sqrt.
  function Deviation(v: seq<real>, root: real -> real): real {
    if |v| < 2 then 0.0
    else root(Sum(seq(|v|, i requires 0 <= i < |v| => Square(v[i] - Mean(v)))) / (|v| - 1) as real)
  }

  // 1 - mae / span, floored at 0.
  function FitOf(total: real, count: real, span: real): (fit: real)
    requires total >= 0.0 && count > 0.0 && span > 0.0
    ensures 0.0 <= fit <= 1.0
    ensures fit == 1.0 <==> total == 0.0
  {
    QuotientSign(total, count);
    QuotientSign(total / count, span);
    Max(0.0, 1.0 - total / count / span)
  }

  function CoverageOf(count: real, rows: real): (coverage: real)
    requires 0.0 <= count <= rows && rows > 0.0
    ensures 0.0 <= coverage <= 1.0
    ensures coverage == 1.0 <==> count == rows
  {
    QuotientSign(count, rows);
    QuotientAtMostOne(count, rows);
    count / rows
  }

  // One minus the relative deviation, kept between 0 and 1.
  function StabilityOf(deviation: real, mean: real): (stability: real)
    ensures 0.0 <= stability
  {
    Max(0.0, 1.0 - Min(1.0, deviation / Max(1.0, Abs(mean))))
  }

  function Span(truths: seq<real>): (span: real)
    requires truths != []
    ensures span >= 1.0
  {
    Max(Largest(truths) - Smallest(truths), 1.0)
  }

  predicate AllExact(pairs: seq<Pair>) {
    forall i :: 0 <= i < |pairs| ==> Exact(pairs[i])
  }

  lemma NoErrorIffExact(pairs: seq<Pair>)
    ensures Sum(Errors(pairs)) >= 0.0
    ensures Sum(Errors(pairs)) == 0.0 <==> AllExact(pairs)
  {
    SumOfNonNegative(Errors(pairs));
    assert forall i :: 0 <= i < |pairs| ==> (Errors(pairs)[i] == 0.0 <==> Exact(pairs[i]));
  }

  // What score_expression makes of the rows that gave a finite prediction and a truth, out of `rows` in all.
  function ScoreOf(pairs: seq<Pair>, rows: nat, root: real -> real): Score
    requires |pairs| <= rows
  {
    if pairs == [] then Score(0.0, 0.0, 0.0, 0.0)
    else
      NoErrorIffExact(pairs);
      var fit := FitOf(Sum(Errors(pairs)), |pairs| as real, Span(Truths(pairs)));
      var coverage := CoverageOf(|pairs| as real, rows as real);
      var predicted := Predictions(pairs);
      Score(0.7 * fit + 0.3 * coverage, fit, coverage, StabilityOf(Deviation(predicted, root), Mean(predicted)))
  }

  // The four figures lie between 0 and 1.  The fit is 1 exactly when every prediction is its truth, and the score
  // is 1 exactly when besides every row counts.
  lemma ScoreIsBounded(pairs: seq<Pair>, rows: nat, root: real -> real)
    requires pairs != [] && |pairs| <= rows && forall v: real :: v >= 0.0 ==> root(v) >= 0.0
    ensures
      var s := ScoreOf(pairs, rows, root);
      && 0.0 <= s.fit <= 1.0 && 0.0 <= s.coverage <= 1.0 && 0.0 <= s.stability <= 1.0 && 0.0 <= s.score <= 1.0
      && (s.fit == 1.0 <==> AllExact(pairs))
      && (s.score == 1.0 <==> |pairs| == rows && AllExact(pairs))
  {
    NoErrorIffExact(pairs);
    DeviationIsNonNegative(Predictions(pairs), root);
    QuotientSign(Deviation(Predictions(pairs), root), Max(1.0, Abs(Mean(Predictions(pairs)))));
  }

  // The distance between the largest and the smallest, but at least 1.
  ghost predicate IsSpan(truths: seq<real>, span: real) {
    && span >= 1.0
    && (forall i, j :: 0 <= i < |truths| && 0 <= j < |truths| ==> truths[i] - truths[j] <= span)
    && (span == 1.0 || exists i, j :: 0 <= i < |truths| && 0 <= j < |truths| && truths[i] - truths[j] == span)
  }

  lemma {:induction false} LargestIs(v: seq<real>) returns (i: nat)
    requires v != []
    ensures i < |v| && v[i] == Largest(v) && forall j :: 0 <= j < |v| ==> v[j] <= Largest(v)
  {
    i := |v| - 1;
    if |v| > 1 {
      var front := v[..|v| - 1];
      var k := LargestIs(front);
      assert forall j :: 0 <= j < |front| ==> front[j] == v[j];
      if v[i] <= Largest(front) { i := k; }
    }
  }

  lemma {:induction false} SmallestIs(v: seq<real>) returns (i: nat)
    requires v != []
    ensures i < |v| && v[i] == Smallest(v) && forall j :: 0 <= j < |v| ==> Smallest(v) <= v[j]
  {
    i := |v| - 1;
    if |v| > 1 {
      var front := v[..|v| - 1];
      var k := SmallestIs(front);
      assert forall j :: 0 <= j < |front| ==> front[j] == v[j];
      if Smallest(front) <= v[i] { i := k; }
    }
  }

  lemma SpanIs(truths: seq<real>)
    requires truths != []
    ensures IsSpan(truths, Span(truths))
  {
    var i := LargestIs(truths);
    var j := SmallestIs(truths);
  }

  // 1 less the ratio of `part` to `whole`, not below 0: without the division.
  predicate IsRest(rest: real, part: real, whole: real) {
    if part < whole then (1.0 - rest) * whole == part else rest == 0.0
  }

  lemma RestOfRatio(part: real, whole: real, ratio: real, rest: real)
    requires part >= 0.0 && whole > 0.0 && ratio == part / whole && rest == Max(0.0, 1.0 - ratio)
    ensures IsRest(rest, part, whole)
  {
    QuotientTimes(part, whole);
    RatioOrder(part, whole, ratio);
  }

  lemma RatioOrder(part: real, whole: real, ratio: real)
    requires whole > 0.0 && ratio * whole == part
    ensures part < whole <==> ratio < 1.0
  {
    var gap := 1.0 - ratio;
    assert gap * whole == whole - part;
    if gap > 0.0 { ProductIsPositive(gap, whole, gap * whole); }
    if gap < 0.0 { ProductIsPositive(-gap, whole, -gap * whole); }
  }

  // The figures in terms of the mean error, the span of the truths, the share of rows, and the deviation of the
  // predictions relative to their mean or to 1.
  lemma ScoreIs(pairs: seq<Pair>, rows: nat, root: real -> real, meanError: real, mean: real)
    requires pairs != [] && |pairs| <= rows && forall v: real :: v >= 0.0 ==> root(v) >= 0.0
    requires IsMean(Sum(Errors(pairs)), |pairs| as real, meanError) && IsMean(Sum(Predictions(pairs)), |pairs| as real, mean)
    ensures
      var s := ScoreOf(pairs, rows, root);
      && IsSpan(Truths(pairs), Span(Truths(pairs)))
      && IsRest(s.fit, meanError, Span(Truths(pairs)))
      && IsMean(|pairs| as real, rows as real, s.coverage)
      && s.score == 0.7 * s.fit + 0.3 * s.coverage
      && IsRest(s.stability, Deviation(Predictions(pairs), root), Max(1.0, Abs(mean)))
  {
    NoErrorIffExact(pairs);
    DeviationIsNonNegative(Predictions(pairs), root);
    SpanIs(Truths(pairs));
    FitIs(Sum(Errors(pairs)), |pairs| as real, Span(Truths(pairs)), meanError);
    CoverageIs(|pairs| as real, rows as real);
    MeanIs(Predictions(pairs), mean);
    StabilityIs(Deviation(Predictions(pairs), root), mean);
  }

  // `mean` is the share of `total` for each of `count`: without the division.
  predicate IsMean(total: real, count: real, mean: real) {
    mean * count == total
  }

  lemma MeanIs(v: seq<real>, mean: real)
    requires v != [] && IsMean(Sum(v), |v| as real, mean)
    ensures Mean(v) == mean
  {
    ExactQuotient(Sum(v), |v| as real, mean);
  }

  lemma CoverageIs(count: real, rows: real)
    requires 0.0 <= count <= rows && rows > 0.0
    ensures IsMean(count, rows, CoverageOf(count, rows))
  {
    QuotientTimes(count, rows);
  }

  lemma ExactQuotient(p: real, q: real, r: real)
    requires q > 0.0 && r * q == p
    ensures p / q == r
  {
  }

  lemma FitIs(total: real, count: real, span: real, meanError: real)
    requires total >= 0.0 && count > 0.0 && span > 0.0 && IsMean(total, count, meanError)
    ensures IsRest(FitOf(total, count, span), meanError, span)
  {
    ExactQuotient(total, count, meanError);
    QuotientSign(total, count);
    RestOfRatio(meanError, span, meanError / span, FitOf(total, count, span));
  }

  lemma StabilityIs(deviation: real, mean: real)
    requires deviation >= 0.0
    ensures IsRest(StabilityOf(deviation, mean), deviation, Max(1.0, Abs(mean)))
  {
    var whole := Max(1.0, Abs(mean));
    var ratio := deviation / whole;
    assert StabilityOf(deviation, mean) == Max(0.0, 1.0 - ratio);
    RestOfRatio(deviation, whole, ratio, StabilityOf(deviation, mean));
  }

  // The deviation is the root of the sample variance: the squared distances from the mean, shared among one less.
  lemma DeviationIs(v: seq<real>, root: real -> real, mean: real, variance: real)
    requires v != [] && IsMean(Sum(v), |v| as real, mean)
    requires variance * (|v| as real - 1.0) == SpreadAround(v, mean)
    ensures Deviation(v, root) == if |v| == 1 then 0.0 else root(variance)
  {
    MeanIs(v, mean);
    if |v| > 1 {
      SquaresAround(v, mean);
      ExactQuotient(SpreadAround(v, mean), |v| as real - 1.0, variance);
    }
  }

  function SpreadAround(v: seq<real>, mean: real): real {
    if v == [] then 0.0
    else SpreadAround(v[..|v| - 1], mean) + (v[|v| - 1] - mean) * (v[|v| - 1] - mean)
  }

  lemma {:induction false} SquaresAround(v: seq<real>, mean: real)
    ensures Sum(seq(|v|, i requires 0 <= i < |v| => Square(v[i] - mean))) == SpreadAround(v, mean)
  {
    var squares := seq(|v|, i requires 0 <= i < |v| => Square(v[i] - mean));
    if v != [] {
      var front := v[..|v| - 1];
      SquaresAround(front, mean);
      assert squares[..|v| - 1] == seq(|front|, i requires 0 <= i < |front| => Square(front[i] - mean));
    }
  }

  lemma DeviationIsNonNegative(v: seq<real>, root: real -> real)
    requires forall r: real :: r >= 0.0 ==> root(r) >= 0.0
    ensures Deviation(v, root) >= 0.0
  {
    if |v| >= 2 {
      var squares := seq(|v|, i requires 0 <= i < |v| => Square(v[i] - Mean(v)));
      SumOfNonNegative(squares);
      QuotientSign(Sum(squares), (|v| - 1) as real);
    }
  }

  // ----- The methods -----

  function ValidPairs(rows: seq<Option<Pair>>): (pairs: seq<Pair>)
    ensures |pairs| <= |rows|
  {
    if rows == [] then []
    else ValidPairs(rows[..|rows| - 1]) + if rows[|rows| - 1].Some? then [rows[|rows| - 1].value] else []
  }

  lemma {:induction false} NoPairsIff(rows: seq<Option<Pair>>)
    ensures ValidPairs(rows) == [] <==> forall i :: 0 <= i < |rows| ==> rows[i].None?
  {
    if rows != [] {
      var n := |rows| - 1;
      var front := rows[..n];
      NoPairsIff(front);
      assert forall i :: 0 <= i < n ==> front[i] == rows[i];
      assert ValidPairs(rows) == [] <==> ValidPairs(front) == [] && rows[n].None?;
    }
  }

  lemma ErrorsOfMore(pairs: seq<Pair>, p: Pair)
    ensures Sum(Errors(pairs + [p])) == Sum(Errors(pairs)) + Abs(p.prediction - p.truth)
  {
    assert Errors(pairs + [p])[..|pairs|] == Errors(pairs);
  }

  // Lines 178-193. A row is None where evaluation raises or does not give a finite number.
  method Accumulate(rows: seq<Option<Pair>>) returns (totalError: real, pairs: seq<Pair>)
    ensures pairs == ValidPairs(rows) && totalError == Sum(Errors(pairs))
  {
    totalError, pairs := 0.0, [];
    for i := 0 to |rows|
      invariant pairs == ValidPairs(rows[..i]) && totalError == Sum(Errors(pairs))
    {
      assert rows[..i + 1][..i] == rows[..i];
      if rows[i].Some? {
        var p := rows[i].value;
        ErrorsOfMore(pairs, p);
        totalError := totalError + Abs(p.prediction - p.truth);
        pairs := pairs + [p];
      }
    }
    assert rows[..|rows|] == rows;
  }

  method ScoreExpression(rows: seq<Option<Pair>>, root: real -> real) returns (score: Score)
    ensures score == ScoreOf(ValidPairs(rows), |rows|, root)
    ensures (forall i :: 0 <= i < |rows| ==> rows[i].None?) ==> score == Score(0.0, 0.0, 0.0, 0.0)
  {
    NoPairsIff(rows);
    var totalError, pairs := Accumulate(rows);
    if pairs == [] {
      return Score(0.0, 0.0, 0.0, 0.0);
    }
    NoErrorIffExact(pairs);
    var fit := FitOf(totalError, |pairs| as real, Span(Truths(pairs)));
    var coverage := CoverageOf(|pairs| as real, |rows| as real);
    var predicted := Predictions(pairs);
    var stability := StabilityOf(Deviation(predicted, root), Mean(predicted));
    score := Score(0.7 * fit + 0.3 * coverage, fit, coverage, stability);
  }

  function Points(rows: seq<Row>): (points: seq<Point>)
    ensures |points| <= |rows|
  {
    if rows == [] then []
    else
      var row := rows[|rows| - 1];
      Points(rows[..|rows| - 1]) +
      if row.feature.Some? && row.target.Some? then [Point(row.feature.value, row.target.value)] else []
  }

  // What the fitted line predicts for each row.
  function LinePrediction(row: Row, a: real, b: real): Option<Pair> {
    if row.feature.Some? && row.target.Some? then Some(PairAt(Point(row.feature.value, row.target.value), a, b)) else None
  }

  function PairAt(p: Point, a: real, b: real): Pair {
    Pair(a * p.x + b, p.y)
  }

  function LinePredictions(rows: seq<Row>, a: real, b: real): (v: seq<Option<Pair>>)
    ensures |v| == |rows|
  {
    seq(|rows|, i requires 0 <= i < |rows| => LinePrediction(rows[i], a, b))
  }

  // A row with both fields is predicted by the line, and its truth is its target; no other row counts.
  lemma LinePredictionsAre(rows: seq<Row>, a: real, b: real, i: nat)
    requires i < |rows|
    ensures
      var row, guess := rows[i], LinePredictions(rows, a, b)[i];
      && (guess.Some? <==> row.feature.Some? && row.target.Some?)
      && (guess.Some? ==>
            guess.value.prediction == a * row.feature.value + b && guess.value.truth == row.target.value)
  {
  }

  datatype Fit =
    | TooFewPoints
    | Degenerate(coverage: real)
    | Line(slope: real, intercept: real, shownSlope: real, shownIntercept: real, score: Score)

  method SingleFeatureLinearFit(rows: seq<Row>, root: real -> real, shown: real -> real) returns (fit: Fit)
    ensures fit.TooFewPoints? <==> |Points(rows)| < 2
    ensures fit.Degenerate? <==> |Points(rows)| >= 2 && Denominator(Points(rows)) < TOLERANCE
    ensures fit.Degenerate? ==> fit.coverage == |Points(rows)| as real / |rows| as real
    ensures fit.Line? ==>
              && IsFit(Points(rows), fit.slope, fit.intercept)
              && (forall a, b :: SquaredError(Points(rows), fit.slope, fit.intercept) <= SquaredError(Points(rows), a, b))
              && fit.shownSlope == shown(fit.slope) && fit.shownIntercept == shown(fit.intercept)
              && fit.score == ScoreOf(ValidPairs(LinePredictions(rows, fit.shownSlope, fit.shownIntercept)), |rows|, root)
    ensures forall a, b :: |Points(rows)| >= 2 && AllOnLine(Points(rows), a, b) ==>
              (fit.Line? && fit.slope == a && fit.intercept == b <==> Denominator(Points(rows)) >= TOLERANCE)
  {
    var points: seq<Point> := [];
    for i := 0 to |rows|
      invariant points == Points(rows[..i]) && |points| <= i
    {
      assert rows[..i + 1][..i] == rows[..i];
      if rows[i].feature.Some? && rows[i].target.Some? {
        points := points + [Point(rows[i].feature.value, rows[i].target.value)];
      }
    }
    assert rows[..|rows|] == rows;
    if |points| < 2 {
      return TooFewPoints;
    }
    var n, sumX, sumY, sumXX, sumXY := Count(points), Sum(Xs(points)), Sum(Ys(points)), Sum(XXs(points)), Sum(XYs(points));
    var denominator := Determinant(n, sumX, sumXX);
    DenominatorVanishesIff(points);
    if Abs(denominator) < TOLERANCE {
      return Degenerate(n / |rows| as real);
    }
    var slope, intercept := FittedLine(n, sumX, sumY, sumXX, sumXY, denominator);
    forall a, b ensures SquaredError(points, slope, intercept) <= SquaredError(points, a, b) {
      FitIsLeastSquares(points, slope, intercept, a, b);
    }
    forall a, b | AllOnLine(points, a, b) ensures slope == a && intercept == b {
      ExactLineIsRecovered(points, slope, intercept, a, b);
    }
    var score := ScoreExpression(LinePredictions(rows, shown(slope), shown(intercept)), root);
    fit := Line(slope, intercept, shown(slope), shown(intercept), score);
  }

  // Lines 223-224.
  method FittedLine(n: real, sumX: real, sumY: real, sumXX: real, sumXY: real, denominator: real)
    returns (slope: real, intercept: real)
    requires n != 0.0 && denominator != 0.0 && denominator == Determinant(n, sumX, sumXX)
    ensures SlopeFits(n, sumX, sumY, sumXX, sumXY, slope) && InterceptFits(n, sumX, sumY, slope, intercept)
  {
    slope := (n * sumXY - sumX * sumY) / denominator;
    intercept := (sumY - slope * sumX) / n;
    QuotientTimes(n * sumXY - sumX * sumY, denominator);
    QuotientTimes(sumY - slope * sumX, n);
  }

  predicate AllOnLine(ps: seq<Point>, a: real, b: real) {
    forall i :: 0 <= i < |ps| ==> OnLine(ps[i], a, b)
  }

  lemma {:induction false} LinePairsExact(rows: seq<Row>, a: real, b: real)
    ensures |ValidPairs(LinePredictions(rows, a, b))| == |Points(rows)|
    ensures AllExact(ValidPairs(LinePredictions(rows, a, b))) <==> AllOnLine(Points(rows), a, b)
  {
    if rows != [] {
      var n := |rows| - 1;
      var pairs, points := ValidPairs(LinePredictions(rows[..n], a, b)), Points(rows[..n]);
      assert LinePredictions(rows, a, b)[..n] == LinePredictions(rows[..n], a, b);
      LinePairsExact(rows[..n], a, b);
      if LinePrediction(rows[n], a, b).Some? {
        var pair, point := LinePrediction(rows[n], a, b).value, Point(rows[n].feature.value, rows[n].target.value);
        assert Exact(pair) <==> OnLine(point, a, b);
        AllExactOfMore(pairs, pair);
        AllOnLineOfMore(points, point, a, b);
      } else {
        assert pairs + [] == pairs && points + [] == points;
      }
    }
  }

  lemma AllExactOfMore(pairs: seq<Pair>, p: Pair)
    ensures AllExact(pairs + [p]) <==> AllExact(pairs) && Exact(p)
  {
    assert forall i :: 0 <= i < |pairs| ==> (pairs + [p])[i] == pairs[i];
    assert (pairs + [p])[|pairs|] == p;
  }

  lemma AllOnLineOfMore(ps: seq<Point>, p: Point, a: real, b: real)
    ensures AllOnLine(ps + [p], a, b) <==> AllOnLine(ps, a, b) && OnLine(p, a, b)
  {
    assert forall i :: 0 <= i < |ps| ==> (ps + [p])[i] == ps[i];
    assert (ps + [p])[|ps|] == p;
  }

  predicate FitsPerfectly(rows: seq<Row>, a: real, b: real, root: real -> real) {
    ScoreOf(ValidPairs(LinePredictions(rows, a, b)), |rows|, root).fit == 1.0
  }

  // The score of a line is a perfect fit exactly when the line misses no point.
  lemma {:induction false} LineFitsIffExact(rows: seq<Row>, a: real, b: real, root: real -> real)
    requires Points(rows) != [] && forall v: real :: v >= 0.0 ==> root(v) >= 0.0
    ensures FitsPerfectly(rows, a, b, root) <==> SquaredError(Points(rows), a, b) == 0.0
  {
    LinePairsExact(rows, a, b);
    OnLineIffNoError(Points(rows), a, b);
    ScoreIsBounded(ValidPairs(LinePredictions(rows, a, b)), |rows|, root);
  }

  // Two points with different x values lie on one line only.
  lemma OneLineThroughTwo(p: Point, q: Point, a: real, b: real, a': real, b': real)
    requires p.x != q.x && OnLine(p, a, b) && OnLine(q, a, b) && OnLine(p, a', b') && OnLine(q, a', b')
    ensures a' == a && b' == b
  {
    SameSlope(p.x, q.x, a, b, a', b');
  }

  lemma SameSlope(x: real, z: real, a: real, b: real, a': real, b': real)
    requires x != z && a * x + b == a' * x + b' && a * z + b == a' * z + b'
    ensures a' == a && b' == b
  {
    assert (a - a') * (x - z) == 0.0;
  }

  lemma OneLineHolds(ps: seq<Point>, a: real, b: real, a': real, b': real)
    requires !AllXEqual(ps) && AllOnLine(ps, a, b)
    ensures AllOnLine(ps, a', b') <==> a' == a && b' == b
  {
    var i, j :| 0 <= i < j < |ps| && ps[i].x != ps[j].x;
    if AllOnLine(ps, a', b') {
      assert OnLine(ps[i], a', b') && OnLine(ps[j], a', b');
      OneLineThroughTwo(ps[i], ps[j], a, b, a', b');
    }
  }

  // On data that lies on a line and has two x values, a line scores a perfect fit only if it is that line. The line
  // that is scored is the one six decimals show, so a perfect fit means that they show the slope and intercept exactly.
  lemma {:induction false} LinearDataFitsIffShownExactly(rows: seq<Row>, a: real, b: real, a': real, b': real, root: real -> real)
    requires !AllXEqual(Points(rows)) && AllOnLine(Points(rows), a, b)
    requires forall v: real :: v >= 0.0 ==> root(v) >= 0.0
    ensures FitsPerfectly(rows, a', b', root) <==> a' == a && b' == b
  {
    LinePairsExact(rows, a', b');
    ScoreIsBounded(ValidPairs(LinePredictions(rows, a', b')), |rows|, root);
    OneLineHolds(Points(rows), a, b, a', b');
  }

  // Points with different x values can lie under the tolerance: then a line through them is not found.
  lemma ToleranceHidesLine() returns (ps: seq<Point>)
    ensures |ps| == 2 && AllOnLine(ps, 1.0, 0.0) && !AllXEqual(ps)
    ensures 0.0 < Denominator(ps) < TOLERANCE
  {
    ps := [Point(0.0, 0.0), Point(0.00001, 0.00001)];
    assert ps[0].x != ps[1].x;
    SumOfTwo(Xs(ps), 0.0, 0.00001);
    SumOfTwo(XXs(ps), 0.0, 0.0000000001);
    DeterminantOf(ps, 2.0, 0.00001, 0.0000000001);
  }

  lemma SumOfTwo(v: seq<real>, a: real, b: real)
    requires v == [a, b]
    ensures Sum(v) == a + b
  {
    assert v[..1] == [a] && [a][..0] == [];
    assert Sum([a]) == a;
  }
}
