/** Pearson correlation over aligned trailing windows, and the guard on open positions. */
module Correlation {
  import opened Common
  import opened Numbers
  import opened Sums

  const CORRELATION_LOOKBACK_DAYS := 20
  const MAX_POSITION_CORRELATION := 0.7

  /** The quotient covariance / sqrt(varianceA * varianceB), kept as its parts: comparing it needs no square root. */
  datatype Coefficient = Coefficient(covariance: real, varianceA: real, varianceB: real)

  const ZERO := Coefficient(0.0, 1.0, 1.0)

  function Dot(x: seq<real>, y: seq<real>): real
    requires |x| == |y|
  {
    if x == [] then 0.0 else Dot(Front(x), Front(y)) + Times(Last(x), Last(y))
  }

  function Deviations(x: seq<real>): (d: seq<real>)
    requires x != []
    ensures |d| == |x| && forall i :: 0 <= i < |x| ==> d[i] == x[i] - Mean(x)
  {
    seq(|x|, i requires 0 <= i < |x| => x[i] - Mean(x))
  }

  function Least(a: nat, b: nat): nat {
    if a < b then a else b
  }

  /** How many trailing returns are compared. */
  function Window(a: seq<real>, b: seq<real>): (n: nat)
    ensures n <= |a| && n <= |b|
  {
    Least(Least(|a|, |b|), CORRELATION_LOOKBACK_DAYS)
  }

  function Trailing(x: seq<real>, n: nat): (t: seq<real>)
    requires n <= |x|
    ensures |t| == n
  {
    x[|x| - n..]
  }

  /** Too short or flat series have correlation zero. */
  function Pearson(a: seq<real>, b: seq<real>): Coefficient {
    var n := Window(a, b);
    if n < 2 then ZERO
    else
      var da, db := Deviations(Trailing(a, n)), Deviations(Trailing(b, n));
      if Dot(da, da) == 0.0 || Dot(db, db) == 0.0 then ZERO
      else Coefficient(Dot(da, db), Dot(da, da), Dot(db, db))
  }

  /** r is the number the coefficient stands for: same sign as the covariance, and the right square. */
  predicate Denotes(c: Coefficient, r: real) {
    (c.covariance >= 0.0 <==> r >= 0.0) && r * r * (c.varianceA * c.varianceB) == c.covariance * c.covariance
  }

  /** Larger in magnitude than a threshold, decided without a square root. */
  predicate Exceeds(c: Coefficient, threshold: real) {
    threshold < 0.0 || c.covariance * c.covariance > threshold * threshold * (c.varianceA * c.varianceB)
  }

  // ---- Cauchy-Schwarz ----

  lemma TimesAdds(t: real, p: real, q: real)
    ensures Times(t, p + q) == Times(t, p) + Times(t, q)
  {
  }

  lemma SquareSign(a: real)
    ensures Times(a, a) >= 0.0
    ensures a != 0.0 ==> Times(a, a) > 0.0
  {
    assert Times(a, a) == Times(-a, -a);
    hide Times;
    if a > 0.0 {
      TimesPositive(a, a);
    } else if a < 0.0 {
      TimesPositive(-a, -a);
    } else {
      TimesZero(a);
    }
  }

  lemma TimesPositive(x: real, y: real)
    requires x > 0.0 && y > 0.0
    ensures Times(x, y) > 0.0
  {
  }

  lemma {:induction false} DotSymmetric(x: seq<real>, y: seq<real>)
    requires |x| == |y|
    ensures Dot(x, y) == Dot(y, x)
  {
    if x != [] {
      DotSymmetric(Front(x), Front(y));
      TimesCommutes(Last(x), Last(y));
    }
  }

  /** The residual of x after removing t times y. */
  function Residual(x: seq<real>, y: seq<real>, t: real): (z: seq<real>)
    requires |x| == |y|
    ensures |z| == |x|
  {
    seq(|x|, i requires 0 <= i < |x| => x[i] - Times(t, y[i]))
  }

  lemma ResidualTerm(a: real, b: real, t: real)
    ensures Times(a - Times(t, b), a - Times(t, b)) ==
            Times(a, a) - 2.0 * Times(t, Times(a, b)) + Times(Times(t, t), Times(b, b))
  {
    var u := Times(t, b);
    assert Times(a - u, a - u) == Times(a, a) - 2.0 * Times(a, u) + Times(u, u);
    assert Times(a, u) == Times(t, Times(a, b)) by {
      TimesSwaps(a, t, b);
    }
    assert Times(u, u) == Times(Times(t, t), Times(b, b)) by {
      hide Times;
      TimesAssociates(t, b, u);
      TimesSwaps(b, t, b);
      TimesAssociates(t, t, Times(b, b));
    }
  }

  lemma ResidualFront(x: seq<real>, y: seq<real>, t: real)
    requires |x| == |y| && x != []
    ensures Front(Residual(x, y, t)) == Residual(Front(x), Front(y), t)
    ensures Last(Residual(x, y, t)) == Last(x) - Times(t, Last(y))
  {
    hide Times;
    var l, r := Front(Residual(x, y, t)), Residual(Front(x), Front(y), t);
    forall i | 0 <= i < |l|
      ensures l[i] == r[i]
    {
      assert Front(x)[i] == x[i] && Front(y)[i] == y[i];
    }
  }

  lemma {:induction false} ResidualSquare(x: seq<real>, y: seq<real>, t: real)
    requires |x| == |y|
    ensures Dot(Residual(x, y, t), Residual(x, y, t)) ==
            Dot(x, x) - 2.0 * Times(t, Dot(x, y)) + Times(Times(t, t), Dot(y, y))
  {
    if x == [] {
      TimesZero(t);
      TimesZero(Times(t, t));
    } else {
      hide Times;
      var a, b, tt := Last(x), Last(y), Times(t, t);
      ResidualSquare(Front(x), Front(y), t);
      ResidualFront(x, y, t);
      ResidualTerm(a, b, t);
      TimesAdds(t, Dot(Front(x), Front(y)), Times(a, b));
      TimesAdds(tt, Dot(Front(y), Front(y)), Times(b, b));
    }
  }

  lemma {:induction false} DotSelfNonNegative(x: seq<real>)
    ensures Dot(x, x) >= 0.0
  {
    hide Times;
    if x != [] {
      DotSelfNonNegative(Front(x));
      SquareSign(Last(x));
    }
  }

  lemma {:induction false} DotOfZero(x: seq<real>, y: seq<real>)
    requires |x| == |y| && Dot(y, y) == 0.0
    ensures Dot(x, y) == 0.0
  {
    hide Times;
    if x != [] {
      DotSelfNonNegative(Front(y));
      SquareSign(Last(y));
      TimesZero(Last(x));
      DotOfZero(Front(x), Front(y));
    }
  }

  /** With t = s / b, the least residual a - 2ts + ttb is a - ss / b. */
  lemma LeastResidual(a: real, s: real, b: real)
    requires b > 0.0 && a - 2.0 * Times(s / b, s) + Times(Times(s / b, s / b), b) >= 0.0
    ensures s * s <= a * b
  {
    var t := s / b;
    DivideTimes(s, b);
    assert Times(t, b) == s;
    TimesAssociates(t, t, b);
    assert a >= Times(t, s);
    ScaleOrder(Times(t, s), a, b);
    assert Times(t, s) * b == s * s by {
      TimesAssociates(t, s, b);
      TimesSwaps(t, s, b);
    }
  }

  lemma {:induction false} CauchySchwarz(x: seq<real>, y: seq<real>)
    requires |x| == |y|
    ensures Dot(x, y) * Dot(x, y) <= Dot(x, x) * Dot(y, y)
  {
    DotSelfNonNegative(y);
    if Dot(y, y) == 0.0 {
      DotOfZero(x, y);
    } else {
      var t := Dot(x, y) / Dot(y, y);
      ResidualSquare(x, y, t);
      DotSelfNonNegative(Residual(x, y, t));
      LeastResidual(Dot(x, x), Dot(x, y), Dot(y, y));
    }
  }

  // ---- The coefficient ----

  lemma ProductPositive(x: real, y: real)
    requires x > 0.0 && y > 0.0
    ensures x * y > 0.0
  {
  }

  lemma PearsonParts(a: seq<real>, b: seq<real>)
    ensures var c := Pearson(a, b);
            c.varianceA > 0.0 && c.varianceB > 0.0 && c.covariance * c.covariance <= c.varianceA * c.varianceB
  {
    var n := Window(a, b);
    if n >= 2 {
      var da, db := Deviations(Trailing(a, n)), Deviations(Trailing(b, n));
      DotSelfNonNegative(da);
      DotSelfNonNegative(db);
      CauchySchwarz(da, db);
    }
  }

  lemma SquareOrder(x: real, y: real)
    requires y >= 0.0
    ensures x * x <= y * y <==> Abs(x) <= y
  {
    AbsSquare(x);
    NonNegativeSquares(Abs(x), y);
  }

  lemma AbsSquare(x: real)
    ensures x * x == Abs(x) * Abs(x) && Abs(x) >= 0.0
  {
  }

  lemma StrictSquares(u: real, y: real)
    requires 0.0 <= y < u
    ensures y * y < u * u
  {
    assert u * u - y * y == (u - y) * (u + y);
    ProductPositive(u - y, u + y);
  }

  lemma NonNegativeSquares(u: real, y: real)
    requires u >= 0.0 && y >= 0.0
    ensures u * u <= y * y <==> u <= y
  {
    if u <= y {
      ProductOrder(u, u, y, y);
    } else {
      StrictSquares(u, y);
    }
  }

  lemma ProductOrder(a: real, b: real, c: real, d: real)
    requires 0.0 <= a <= c && 0.0 <= b <= d
    ensures a * b <= c * d
  {
    assert a * b <= c * b;
    assert c * b <= c * d;
  }

  /** The correlation lies in [-1, 1], and comparing squares decides the guard's comparison. */
  lemma {:induction false} PearsonInRange(a: seq<real>, b: seq<real>, r: real, threshold: real)
    requires Denotes(Pearson(a, b), r)
    ensures -1.0 <= r <= 1.0
    ensures Exceeds(Pearson(a, b), threshold) <==> Abs(r) > threshold
  {
    hide Pearson, Abs;
    var c := Pearson(a, b);
    PearsonParts(a, b);
    var v := c.varianceA * c.varianceB;
    ProductPositive(c.varianceA, c.varianceB);
    ScaleOrder(r * r, 1.0, v);
    SquareOrder(r, 1.0);
    AbsIs(r);
    if threshold >= 0.0 {
      ScaleOrder(r * r, threshold * threshold, v);
      SquareOrder(r, threshold);
    }
  }

  lemma AbsIs(r: real)
    ensures Abs(r) >= 0.0 && (Abs(r) <= 1.0 <==> -1.0 <= r <= 1.0)
  {
  }

  lemma PearsonSwapped(a: seq<real>, b: seq<real>)
    ensures Pearson(b, a) == Coefficient(Pearson(a, b).covariance, Pearson(a, b).varianceB, Pearson(a, b).varianceA)
  {
    hide Dot;
    var n := Window(a, b);
    if n >= 2 {
      DotSymmetric(Deviations(Trailing(a, n)), Deviations(Trailing(b, n)));
    }
  }

  lemma SwapFactors(k: real, x: real, y: real)
    ensures k * (x * y) == k * (y * x)
  {
  }

  /** Swapping the series swaps the variances and keeps the covariance, so the same number is denoted. */
  lemma {:induction false} PearsonSymmetric(a: seq<real>, b: seq<real>, r: real, threshold: real)
    ensures Denotes(Pearson(a, b), r) <==> Denotes(Pearson(b, a), r)
    ensures Exceeds(Pearson(a, b), threshold) <==> Exceeds(Pearson(b, a), threshold)
  {
    hide Pearson;
    PearsonSwapped(a, b);
    var c := Pearson(a, b);
    SwapFactors(r * r, c.varianceA, c.varianceB);
    SwapFactors(threshold * threshold, c.varianceA, c.varianceB);
  }

  /** A series correlates fully with itself, unless its window is too short or flat. */
  lemma {:induction false} SelfCorrelation(a: seq<real>)
    ensures var c := Pearson(a, a); c == ZERO || Denotes(c, 1.0)
    ensures var c := Pearson(a, a); c != ZERO ==> Exceeds(c, MAX_POSITION_CORRELATION)
  {
    var c := Pearson(a, a);
    if c != ZERO {
      PearsonParts(a, a);
      var v := c.varianceA;
      assert c == Coefficient(v, v, v);
      ProductPositive(v, v);
      assert 0.49 * (v * v) < v * v;
    }
  }

  // ---- The coefficient in terms of the series themselves ----

  /** The series is constant. */
  predicate Flat(x: seq<real>) {
    forall i :: 0 <= i < |x| ==> x[i] == x[0]
  }

  function Shifted(x: seq<real>, m: real): (z: seq<real>)
    ensures |z| == |x| && forall i :: 0 <= i < |x| ==> z[i] == x[i] - m
  {
    seq(|x|, i requires 0 <= i < |x| => x[i] - m)
  }

  lemma ShiftedFront(x: seq<real>, m: real)
    requires x != []
    ensures Front(Shifted(x, m)) == Shifted(Front(x), m) && Last(Shifted(x, m)) == Last(x) - m
  {
  }

  lemma ShiftedTerm(a: real, b: real, m: real, k: real)
    ensures Times(a - m, b - k) == Times(a, b) - Times(k, a) - Times(m, b) + Times(m, k)
  {
  }

  lemma {:induction false} ShiftedDot(x: seq<real>, y: seq<real>, m: real, k: real)
    requires |x| == |y|
    ensures Dot(Shifted(x, m), Shifted(y, k)) ==
            Dot(x, y) - Times(k, Sum(x)) - Times(m, Sum(y)) + Times(|x| as real, Times(m, k))
  {
    hide Times;
    if x == [] {
      TimesZero(k);
      TimesZero(m);
      TimesCommutes(0.0, Times(m, k));
      TimesZero(Times(m, k));
    } else {
      var a, b, mk := Last(x), Last(y), Times(m, k);
      ShiftedDot(Front(x), Front(y), m, k);
      ShiftedFront(x, m);
      ShiftedFront(y, k);
      ShiftedTerm(a, b, m, k);
      TimesAdds(k, Sum(Front(x)), a);
      TimesAdds(m, Sum(Front(y)), b);
      TimesCommutes(|x| as real, mk);
      TimesCommutes(|x| as real - 1.0, mk);
      TimesAdds(mk, |x| as real - 1.0, 1.0);
      TimesOne(mk);
    }
  }

  /** Centring both series takes the product of their sums off n times the dot product. */
  lemma {:induction false} CentredDot(x: seq<real>, y: seq<real>)
    requires |x| == |y| && x != []
    ensures var n := |x| as real;
            Times(n, Dot(Deviations(x), Deviations(y))) == Times(n, Dot(x, y)) - Times(Sum(x), Sum(y))
  {
    var n, m, k := |x| as real, Mean(x), Mean(y);
    assert Deviations(x) == Shifted(x, m) && Deviations(y) == Shifted(y, k);
    ShiftedDot(x, y, m, k);
    assert Times(n, m) == Sum(x) && Times(n, k) == Sum(y) by {
      DivideTimes(Sum(x), n);
      DivideTimes(Sum(y), n);
    }
    CentredTerms(n, Dot(x, y), m, k, Sum(x), Sum(y));
  }

  lemma CentredTerms(n: real, d: real, m: real, k: real, s: real, t: real)
    requires Times(n, m) == s && Times(n, k) == t
    ensures Times(n, d - Times(k, s) - Times(m, t) + Times(n, Times(m, k))) == Times(n, d) - Times(s, t)
  {
    hide Times;
    TimesAdds(n, d - Times(k, s) - Times(m, t), Times(n, Times(m, k)));
    TimesTakes(n, d - Times(k, s), Times(m, t));
    TimesTakes(n, d, Times(k, s));
    TimesAssociates(n, k, s);
    TimesAssociates(n, m, t);
    TimesCommutes(t, s);
    assert Times(n, Times(m, k)) == Times(s, k) by {
      TimesAssociates(n, m, k);
    }
    TimesSwaps(n, s, k);
  }

  lemma TimesTakes(t: real, p: real, q: real)
    ensures Times(t, p - q) == Times(t, p) - Times(t, q)
  {
  }

  lemma {:induction false} SumOfConstant(x: seq<real>, c: real)
    requires forall i :: 0 <= i < |x| ==> x[i] == c
    ensures Sum(x) == Times(|x| as real, c)
  {
    if x != [] {
      SumOfConstant(Front(x), c);
    }
  }

  lemma {:induction false} DotSelfOfZeros(x: seq<real>)
    ensures Dot(x, x) == 0.0 <==> forall i :: 0 <= i < |x| ==> x[i] == 0.0
  {
    hide Times;
    if x != [] {
      DotSelfOfZeros(Front(x));
      DotSelfNonNegative(Front(x));
      SquareSign(Last(x));
      TimesZero(Last(x));
      assert forall i :: 0 <= i < |x| - 1 ==> Front(x)[i] == x[i];
    }
  }

  /** The deviations vanish exactly for a constant series. */
  lemma FlatHasNoVariance(x: seq<real>)
    requires x != []
    ensures Flat(x) <==> Dot(Deviations(x), Deviations(x)) == 0.0
  {
    var d := Deviations(x);
    DotSelfOfZeros(d);
    if Flat(x) {
      SumOfConstant(x, x[0]);
      MeanOfConstant(x, x[0]);
    } else {
      var i :| 0 <= i < |x| && x[i] != x[0];
      assert d[i] == x[i] - Mean(x) && d[0] == x[0] - Mean(x);
    }
  }

  lemma MeanOfConstant(x: seq<real>, c: real)
    requires x != [] && Sum(x) == Times(|x| as real, c)
    ensures Mean(x) == c
  {
    DivideTimes(Sum(x), |x| as real);
    CancelFactor(Mean(x), c, |x| as real);
  }

  lemma {:induction false} DotIsSum(x: seq<real>, y: seq<real>)
    requires |x| == |y|
    ensures Dot(x, y) == Sum(seq(|x|, i requires 0 <= i < |x| => Times(x[i], y[i])))
  {
    hide Times;
    if x != [] {
      DotIsSum(Front(x), Front(y));
      var products, n := seq(|x|, i requires 0 <= i < |x| => Times(x[i], y[i])), |x| - 1;
      assert |Front(x)| == n;
      assert Front(products) == seq(n, i requires 0 <= i < n => Times(Front(x)[i], Front(y)[i]));
    }
  }

  /** The coefficient by the series' sums: n times its parts are n times the dot products less the products of the sums;
      fewer than two returns, or a constant series, have correlation zero. */
  lemma {:induction false} PearsonFormula(a: seq<real>, b: seq<real>)
    requires |a| == |b| <= 20
    ensures var c, n := Pearson(a, b), |a| as real;
            if |a| < 2 || Flat(a) || Flat(b) then c == ZERO
            else
              && Times(n, c.covariance) == Times(n, Dot(a, b)) - Times(Sum(a), Sum(b))
              && Times(n, c.varianceA) == Times(n, Dot(a, a)) - Times(Sum(a), Sum(a))
              && Times(n, c.varianceB) == Times(n, Dot(b, b)) - Times(Sum(b), Sum(b))
  {
    if |a| >= 2 {
      assert Trailing(a, |a|) == a && Trailing(b, |b|) == b;
      FlatHasNoVariance(a);
      FlatHasNoVariance(b);
      CentredDot(a, b);
      CentredDot(a, a);
      CentredDot(b, b);
      hide Dot, Times, Flat, Deviations;
    }
  }

  /** Only the latest 20 returns count, and of a longer series only the latest as many as the other one has. */
  lemma {:induction false} OlderReturnsIgnored(x: seq<real>, a: seq<real>, y: seq<real>, b: seq<real>)
    requires |a| == |b| && (|a| == 20 || (|a| < 20 && (x == [] || y == [])))
    ensures Pearson(x + a, y + b) == Pearson(a, b)
  {
    var n := |a|;
    assert Window(x + a, y + b) == Window(a, b) == n;
    assert Trailing(x + a, n) == a == Trailing(a, n) && Trailing(y + b, n) == b == Trailing(b, n);
  }

  // ---- The guard ----

  datatype GuardResult = NoPositions | ShortHistory | Breached(index: nat) | AllWithin(count: nat)

  predicate GuardPassed(g: GuardResult) {
    !g.Breached?
  }

  /** Returns at the first breach. */
  method CheckCorrelationGuard(proposed: seq<real>, positions: seq<seq<real>>, threshold: real) returns (g: GuardResult)
    ensures g == Guard(proposed, positions, threshold)
  {
    if positions == [] {
      return NoPositions;
    }
    if |proposed| < 2 {
      return ShortHistory;
    }
    for i := 0 to |positions|
      invariant forall k :: 0 <= k < i ==> !Exceeds(Pearson(proposed, positions[k]), threshold)
      invariant FirstBreach(proposed, positions, threshold) == FirstBreach(proposed, positions[i..], threshold) + i
    {
      var corr := Pearson(proposed, positions[i]);
      assert positions[i..][0] == positions[i] && positions[i..][1..] == positions[i + 1..];
      if Exceeds(corr, threshold) {
        return Breached(i);
      }
    }
    g := AllWithin(|positions|);
  }

  /** The index of the first position beyond the threshold, or the number of positions. */
  function FirstBreach(proposed: seq<real>, positions: seq<seq<real>>, threshold: real): (n: nat)
    ensures n <= |positions|
  {
    if positions == [] then 0
    else if Exceeds(Pearson(proposed, positions[0]), threshold) then 0
    else FirstBreach(proposed, positions[1..], threshold) + 1
  }

  function Guard(proposed: seq<real>, positions: seq<seq<real>>, threshold: real): GuardResult {
    if positions == [] then NoPositions
    else if |proposed| < 2 then ShortHistory
    else
      var n := FirstBreach(proposed, positions, threshold);
      if n < |positions| then Breached(n) else AllWithin(n)
  }

  lemma {:induction false} FirstBreachIsFirst(proposed: seq<real>, positions: seq<seq<real>>, threshold: real)
    ensures var n := FirstBreach(proposed, positions, threshold);
            && (forall k :: 0 <= k < n ==> !Exceeds(Pearson(proposed, positions[k]), threshold))
            && (n < |positions| ==> Exceeds(Pearson(proposed, positions[n]), threshold))
  {
    hide Pearson, Exceeds;
    if positions != [] && !Exceeds(Pearson(proposed, positions[0]), threshold) {
      FirstBreachIsFirst(proposed, positions[1..], threshold);
      var n := FirstBreach(proposed, positions[1..], threshold);
      forall k | 0 <= k < n + 1
        ensures !Exceeds(Pearson(proposed, positions[k]), threshold)
      {
        assert k > 0 ==> positions[k] == positions[1..][k - 1];
      }
    }
  }

  /** The guard passes exactly when the proposed history is too short or every open position is within the threshold;
      otherwise it names the first one beyond. */
  lemma {:induction false} GuardExact(proposed: seq<real>, positions: seq<seq<real>>, threshold: real)
    ensures var g := Guard(proposed, positions, threshold);
            && (GuardPassed(g) <==>
                  |proposed| < 2 ||
                  forall k :: 0 <= k < |positions| ==> !Exceeds(Pearson(proposed, positions[k]), threshold))
            && (g.Breached? ==>
                  && g.index < |positions| && Exceeds(Pearson(proposed, positions[g.index]), threshold)
                  && forall k :: 0 <= k < g.index ==> !Exceeds(Pearson(proposed, positions[k]), threshold))
  {
    hide Pearson, Exceeds;
    FirstBreachIsFirst(proposed, positions, threshold);
  }

  /** An open position with the proposed symbol's own returns, not flat, always fails the guard. */
  lemma {:induction false} GuardRejectsTwin(proposed: seq<real>, positions: seq<seq<real>>, k: nat)
    requires k < |positions| && positions[k] == proposed && |proposed| >= 2 && Pearson(proposed, proposed) != ZERO
    ensures !GuardPassed(Guard(proposed, positions, MAX_POSITION_CORRELATION))
  {
    hide Pearson;
    SelfCorrelation(proposed);
    GuardExact(proposed, positions, MAX_POSITION_CORRELATION);
  }
}
