/** Ordinary least squares of `y` on `x` by the closed-form solution of the
    normal equations, as `single_regression` computes it. */
module Regression {
  import opened Libm

  /** `sum(s)` */
  function Sum(s: seq<real>): real {
    if |s| == 0 then 0.0 else s[0] + Sum(s[1..])
  }

  /** Python's `sum` adds from the left; over exact reals that is the same sum. */
  lemma {:induction false} SumFromLeft(s: seq<real>)
    requires |s| > 0
    ensures Sum(s) == Sum(s[..|s| - 1]) + s[|s| - 1]
  {
    if |s| > 1 {
      var front := s[..|s| - 1];
      SumFromLeft(s[1..]);
      assert s[1..][..|s| - 2] == front[1..];
    }
  }

  /** `sum(x * y for x, y in zip(x, y))` */
  function SumProducts(x: seq<real>, y: seq<real>): real
    requires |x| == |y|
  {
    if |x| == 0 then 0.0 else x[0] * y[0] + SumProducts(x[1..], y[1..])
  }

  /** The generator of line 47 is also summed from the left. */
  lemma {:induction false} SumProductsFromLeft(x: seq<real>, y: seq<real>)
    requires |x| == |y| && |x| > 0
    ensures SumProducts(x, y) == SumProducts(x[..|x| - 1], y[..|y| - 1]) + x[|x| - 1] * y[|y| - 1]
  {
    if |x| > 1 {
      SumProductsFromLeft(x[1..], y[1..]);
      assert x[1..][..|x| - 2] == x[..|x| - 1][1..];
      assert y[1..][..|y| - 2] == y[..|y| - 1][1..];
    }
  }

  /** `sum(x ** 2 for x in x)` */
  function SumSquares(x: seq<real>): real {
    if |x| == 0 then 0.0 else x[0] * x[0] + SumSquares(x[1..])
  }

  /** A sum of squares is never negative, and, since `x ** 2` is `x * x`, it is
      the sum of the products of x with itself. */
  lemma {:induction false} SumSquaresFacts(x: seq<real>)
    ensures SumSquares(x) >= 0.0
    ensures SumSquares(x) == SumProducts(x, x)
  {
    if |x| > 0 {
      SumSquaresFacts(x[1..]);
      SquareNonNegative(x[0]);
    }
  }

  lemma SquareNonNegative(u: real)
    ensures u * u >= 0.0
  {
    if u != 0.0 {
      SquarePositive(u);
    }
  }

  predicate AllEqual(x: seq<real>) {
    forall i, j :: 0 <= i < |x| && 0 <= j < |x| ==> x[i] == x[j]
  }

  /** The divisor shared by both quotients: n * sum(x^2) - sum(x)^2. */
  function Denominator(x: seq<real>): real {
    Determinant(|x| as real, Sum(x), SumSquares(x))
  }

  /** The determinant n sxx - sx^2 of the normal equations on the sums. */
  function Determinant(n: real, sx: real, sxx: real): real {
    n * sxx - sx * sx
  }

  /** The two normal equations of least squares: the residuals y - (a x + b)
      sum to zero, and so do the residuals weighted by x. */
  ghost predicate NormalEquations(x: seq<real>, y: seq<real>, a: real, b: real)
    requires |x| == |y|
  {
    SolvesSums(|x| as real, Sum(x), Sum(y), SumProducts(x, y), SumSquares(x), a, b)
  }

  /** The normal equations on the four sums of n points. */
  ghost predicate SolvesSums(n: real, sx: real, sy: real, sxy: real, sxx: real, a: real, b: real) {
    n * b + a * sx == sy && b * sx + a * sxx == sxy
  }

  /** `single_regression(x, y)`: the slope and intercept solving the normal equations.
      Python divides by zero when all x are equal (including fewer than two points). */
  function SingleRegression(x: seq<real>, y: seq<real>): (fit: (real, real))
    requires |x| == |y| && !AllEqual(x)
    ensures NormalEquations(x, y, fit.0, fit.1)
  {
    DenominatorNonZero(x);
    ClosedForm(|x| as real, Sum(x), Sum(y), SumProducts(x, y), SumSquares(x))
  }

  /** Lines 49-50 on the four sums: both quotients share the divisor n sxx - sx^2. */
  function ClosedForm(n: real, sx: real, sy: real, sxy: real, sxx: real): (fit: (real, real))
    requires Determinant(n, sx, sxx) != 0.0
    ensures SolvesSums(n, sx, sy, sxy, sxx, fit.0, fit.1)
  {
    var d := n * sxx - sx * sx;
    var slope := (n * sxy - sx * sy) / d;
    var intercept := (sxx * sy - sxy * sx) / d;
    QuotientTimes(slope, n * sxy - sx * sy, d);
    QuotientTimes(intercept, sxx * sy - sxy * sx, d);
    SolvesNormalEquations(n, sx, sy, sxy, sxx, d, slope, intercept);
    (slope, intercept)
  }

  lemma QuotientTimes(q: real, u: real, d: real)
    requires d != 0.0 && q == u / d
    ensures q * d == u
  {
  }

  /** The closed form satisfies both normal equations whenever the divisor is non-zero. */
  lemma SolvesNormalEquations(n: real, sx: real, sy: real, sxy: real, sxx: real, d: real, a: real, b: real)
    requires d == n * sxx - sx * sx && d != 0.0
    requires a * d == n * sxy - sx * sy
    requires b * d == sxx * sy - sxy * sx
    ensures SolvesSums(n, sx, sy, sxy, sxx, a, b)
  {
    assert (n * b + a * sx) * d == sy * d by {
      assert (n * b + a * sx) * d == n * (b * d) + sx * (a * d);
    }
    assert (b * sx + a * sxx) * d == sxy * d by {
      assert (b * sx + a * sxx) * d == sx * (b * d) + sxx * (a * d);
    }
    CancelNonZero(n * b + a * sx, sy, d);
    CancelNonZero(b * sx + a * sxx, sxy, d);
  }

  lemma CancelNonZero(u: real, v: real, d: real)
    requires d != 0.0 && u * d == v * d
    ensures u == v
  {
    assert (u - v) * d == 0.0;
  }

  function Square(u: real): real {
    u * u
  }

  /** sum over r in xs of (r - a)^2 */
  function Deviations(a: real, xs: seq<real>): real {
    if |xs| == 0 then 0.0 else Square(xs[0] - a) + Deviations(a, xs[1..])
  }

  lemma {:induction false} DeviationsExpand(a: real, xs: seq<real>)
    ensures Deviations(a, xs) == SumSquares(xs) - 2.0 * a * Sum(xs) + |xs| as real * a * a
  {
    if |xs| > 0 {
      DeviationsExpand(a, xs[1..]);
      ExpandStep(a, xs);
    }
  }

  lemma {:induction false} ExpandStep(a: real, xs: seq<real>)
    requires |xs| > 0
    requires Deviations(a, xs[1..]) == SumSquares(xs[1..]) - 2.0 * a * Sum(xs[1..]) + |xs[1..]| as real * a * a
    ensures Deviations(a, xs) == SumSquares(xs) - 2.0 * a * Sum(xs) + |xs| as real * a * a
  {
    assert Deviations(a, xs) == Square(xs[0] - a) + Deviations(a, xs[1..]);
    assert SumSquares(xs) == xs[0] * xs[0] + SumSquares(xs[1..]);
    assert Sum(xs) == xs[0] + Sum(xs[1..]);
    assert |xs| as real == |xs[1..]| as real + 1.0;
  }

  lemma {:induction false} DeviationsSign(a: real, xs: seq<real>)
    ensures Deviations(a, xs) >= 0.0
    ensures (forall i :: 0 <= i < |xs| ==> xs[i] == a) ==> Deviations(a, xs) == 0.0
    ensures (exists i :: 0 <= i < |xs| && xs[i] != a) ==> Deviations(a, xs) > 0.0
  {
    if |xs| > 0 {
      var rest := xs[1..];
      DeviationsSign(a, rest);
      SquareSign(xs[0] - a);
      if exists i :: 0 <= i < |xs| && xs[i] != a {
        var i :| 0 <= i < |xs| && xs[i] != a;
        if i > 0 {
          assert rest[i - 1] != a;
        }
      }
      if forall i :: 0 <= i < |xs| ==> xs[i] == a {
        assert forall i :: 0 <= i < |rest| ==> rest[i] == xs[i + 1];
      }
    }
  }

  lemma SquareSign(u: real)
    ensures Square(u) >= 0.0
    ensures u != 0.0 ==> Square(u) > 0.0
  {
    if u != 0.0 {
      calc {
        Square(u);
        u * u;
      > { SquarePositive(u); }
        0.0;
      }
    }
  }

  /** Adding a point a in front of xs raises the divisor by the squared distances of a to xs. */
  lemma {:induction false} DenominatorCons(x: seq<real>)
    requires |x| > 0
    ensures Denominator(x) == Denominator(x[1..]) + Deviations(x[0], x[1..])
  {
    var a, xs := x[0], x[1..];
    DeviationsExpand(a, xs);
    assert SumSquares(x) == a * a + SumSquares(xs);
    assert Sum(x) == a + Sum(xs);
    assert |x| as real == |xs| as real + 1.0;
  }

  /** The divisor is never negative, and it is zero exactly when all x are equal:
      two distinct x values are what both divisions of `single_regression` need. */
  lemma {:induction false} DenominatorSign(x: seq<real>)
    ensures Denominator(x) >= 0.0
    ensures AllEqual(x) ==> Denominator(x) == 0.0
    ensures !AllEqual(x) ==> Denominator(x) > 0.0
  {
    if |x| > 0 {
      var a, xs := x[0], x[1..];
      DenominatorCons(x);
      DenominatorSign(xs);
      DeviationsSign(a, xs);
      if AllEqual(x) {
        assert AllEqual(xs) by {
          forall i, j | 0 <= i < |xs| && 0 <= j < |xs| ensures xs[i] == xs[j] {
            assert xs[i] == x[i + 1] && xs[j] == x[j + 1];
          }
        }
        forall i | 0 <= i < |xs| ensures xs[i] == a {
          assert xs[i] == x[i + 1];
        }
      } else if AllEqual(xs) {
        var i, j :| 0 <= i < |x| && 0 <= j < |x| && x[i] != x[j];
        if i == 0 {
          assert xs[j - 1] != a;
        } else if j == 0 {
          assert xs[i - 1] != a;
        } else {
          assert xs[i - 1] != xs[j - 1];
        }
      }
    }
  }

  lemma {:induction false} DenominatorNonZero(x: seq<real>)
    requires !AllEqual(x)
    ensures Denominator(x) != 0.0
  {
    DenominatorSign(x);
  }

  /** Every y[i] equals a x[i] + b, stated element by element from the front. */
  predicate OnLine(x: seq<real>, y: seq<real>, a: real, b: real)
    requires |x| == |y|
  {
    |x| == 0 || (y[0] == a * x[0] + b && OnLine(x[1..], y[1..], a, b))
  }

  lemma {:induction false} PointwiseOnLine(x: seq<real>, y: seq<real>, a: real, b: real)
    requires |x| == |y|
    requires forall i :: 0 <= i < |x| ==> y[i] == a * x[i] + b
    ensures OnLine(x, y, a, b)
  {
    if |x| > 0 {
      var xs, ys := x[1..], y[1..];
      forall i | 0 <= i < |xs| ensures ys[i] == a * xs[i] + b {
        assert xs[i] == x[i + 1] && ys[i] == y[i + 1];
      }
      PointwiseOnLine(xs, ys, a, b);
    }
  }

  lemma {:induction false} SumOfLine(x: seq<real>, y: seq<real>, a: real, b: real)
    requires |x| == |y| && OnLine(x, y, a, b)
    ensures Sum(y) == a * Sum(x) + |x| as real * b
  {
    if |x| > 0 {
      SumOfLine(x[1..], y[1..], a, b);
      LineStep(x, y, a, b);
    }
  }

  lemma {:induction false} LineStep(x: seq<real>, y: seq<real>, a: real, b: real)
    requires |x| == |y| && |x| > 0 && y[0] == a * x[0] + b
    requires Sum(y[1..]) == a * Sum(x[1..]) + |x[1..]| as real * b
    ensures Sum(y) == a * Sum(x) + |x| as real * b
  {
    assert Sum(y) == y[0] + Sum(y[1..]);
    assert Sum(x) == x[0] + Sum(x[1..]);
    assert |x| as real == |x[1..]| as real + 1.0;
  }

  lemma {:induction false} SumProductsOfLine(x: seq<real>, y: seq<real>, a: real, b: real)
    requires |x| == |y| && OnLine(x, y, a, b)
    ensures SumProducts(x, y) == a * SumSquares(x) + b * Sum(x)
  {
    if |x| > 0 {
      SumProductsOfLine(x[1..], y[1..], a, b);
      ProductLineStep(x, y, a, b);
    }
  }

  lemma {:induction false} ProductLineStep(x: seq<real>, y: seq<real>, a: real, b: real)
    requires |x| == |y| && |x| > 0 && y[0] == a * x[0] + b
    requires SumProducts(x[1..], y[1..]) == a * SumSquares(x[1..]) + b * Sum(x[1..])
    ensures SumProducts(x, y) == a * SumSquares(x) + b * Sum(x)
  {
    SumsCons(x, y);
    MultiplyLine(x[0], y[0], SumProducts(x[1..], y[1..]), SumSquares(x[1..]), Sum(x[1..]),
                 SumProducts(x, y), SumSquares(x), Sum(x), a, b);
  }

  lemma SumsCons(x: seq<real>, y: seq<real>)
    requires |x| == |y| && |x| > 0
    ensures SumProducts(x, y) == x[0] * y[0] + SumProducts(x[1..], y[1..])
    ensures SumSquares(x) == x[0] * x[0] + SumSquares(x[1..])
    ensures Sum(x) == x[0] + Sum(x[1..])
  {
  }

  /** One point's share: x0 y0 = a x0^2 + b x0 when y0 = a x0 + b, added to the
      sums over the remaining points. */
  lemma MultiplyLine(x0: real, y0: real, sp: real, sq: real, sx: real, sp': real, sq': real, sx': real,
                     a: real, b: real)
    requires y0 == a * x0 + b && sp == a * sq + b * sx
    requires sp' == x0 * y0 + sp && sq' == x0 * x0 + sq && sx' == x0 + sx
    ensures sp' == a * sq' + b * sx'
  {
    assert x0 * y0 == a * (x0 * x0) + b * x0;
  }

  /** On exact linear data y = a x + b with not all x equal, `single_regression`
      recovers a and b exactly. */
  lemma {:induction false} SingleRegressionExact(x: seq<real>, y: seq<real>, a: real, b: real)
    requires |x| == |y| && !AllEqual(x)
    requires forall i :: 0 <= i < |x| ==> y[i] == a * x[i] + b
    ensures SingleRegression(x, y) == (a, b)
  {
    PointwiseOnLine(x, y, a, b);
    RegressionOnLine(x, y, a, b);
  }

  lemma {:induction false} RegressionOnLine(x: seq<real>, y: seq<real>, a: real, b: real)
    requires |x| == |y| && !AllEqual(x) && OnLine(x, y, a, b)
    ensures SingleRegression(x, y) == (a, b)
  {
    SumOfLine(x, y, a, b);
    SumProductsOfLine(x, y, a, b);
    NormalEquationsUnique(x, y, SingleRegression(x, y).0, SingleRegression(x, y).1, a, b);
  }

  /** When not all x are equal the normal equations have exactly one solution. */
  lemma {:induction false} NormalEquationsUnique(x: seq<real>, y: seq<real>, a1: real, b1: real, a2: real, b2: real)
    requires |x| == |y| && !AllEqual(x)
    requires NormalEquations(x, y, a1, b1) && NormalEquations(x, y, a2, b2)
    ensures a1 == a2 && b1 == b2
  {
    DenominatorNonZero(x);
    UniqueSolution(|x| as real, Sum(x), SumSquares(x), Sum(y), SumProducts(x, y), a1, b1, a2, b2);
  }

  lemma UniqueSolution(n: real, s: real, q: real, sy: real, sxy: real, a1: real, b1: real, a2: real, b2: real)
    requires Determinant(n, s, q) != 0.0
    requires SolvesSums(n, s, sy, sxy, q, a1, b1) && SolvesSums(n, s, sy, sxy, q, a2, b2)
    ensures a1 == a2 && b1 == b2
  {
    var da, db, d := a1 - a2, b1 - b2, n * q - s * s;
    assert n * db + da * s == 0.0;
    assert db * s + da * q == 0.0;
    assert db * d == q * (n * db + da * s) - s * (db * s + da * q);
    assert da * d == n * (db * s + da * q) - s * (n * db + da * s);
    ZeroProduct(db, d);
    ZeroProduct(da, d);
  }
}
