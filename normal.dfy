/** Density, survival function and their partial derivatives (with respect to
    the location `mu` and the scale `sigma`) of the normal distribution, each a
    straight-line expression in one `exp` (or `erfc`) term. A scale of zero
    makes Python divide by zero, so every primitive requires `sigma != 0`. */
module Normal {
  import opened Libm

  /** The standardised distance t = (x - mu) / (sqrt(2) sigma) that every term starts from. */
  function Standardized(lib: MathLib, x: real, mu: real, sigma: real): real
    requires lib.Valid() && sigma != 0.0
  {
    (x - mu) / (lib.sqrt(2.0) * sigma)
  }

  /** exp(-t^2), the factor every density term shares (Python's `-t**2` is -(t**2)). */
  function Kernel(lib: MathLib, t: real): (k: real)
    requires lib.Valid()
    ensures k > 0.0
  {
    lib.exp(-(t * t))
  }

  /** The density at `x` of the normal distribution with location `mu` and scale `sigma`. */
  function NormalPdf(lib: MathLib, x: real, mu: real, sigma: real): (p: real)
    requires lib.Valid() && sigma != 0.0
    ensures p != 0.0
    ensures sigma > 0.0 ==> p > 0.0
  {
    var t := Standardized(lib, x, mu, sigma);
    Kernel(lib, t) / (lib.sqrt(2.0 * Pi) * sigma)
  }

  /** d pdf / d mu, which is (x - mu) pdf / sigma^2. */
  function NormalPdfGradMu(lib: MathLib, x: real, mu: real, sigma: real): (g: real)
    requires lib.Valid() && sigma != 0.0
    ensures g == (x - mu) * NormalPdf(lib, x, mu, sigma) / (sigma * sigma)
  {
    var t := Standardized(lib, x, mu, sigma);
    var e, s := Kernel(lib, t), lib.sqrt(2.0 * Pi);
    PdfGradMuForm(x, mu, e, s, sigma);
    ((x - mu) * e) / (s * (sigma * sigma * sigma))
  }

  /** d pdf / d sigma, which is pdf ((x - mu)^2 - sigma^2) / sigma^3. For a positive
      scale it is positive exactly when `x` lies more than one `sigma` away from `mu`,
      and zero exactly at one `sigma`. */
  function NormalPdfGradSigma(lib: MathLib, x: real, mu: real, sigma: real): (g: real)
    requires lib.Valid() && sigma != 0.0
    ensures g == NormalPdf(lib, x, mu, sigma) * ((x - mu) * (x - mu) - sigma * sigma) / (sigma * sigma * sigma)
    ensures sigma > 0.0 ==> (g > 0.0 <==> (x - mu) * (x - mu) > sigma * sigma)
    ensures sigma > 0.0 ==> (g == 0.0 <==> (x - mu) * (x - mu) == sigma * sigma)
  {
    var pdf := NormalPdf(lib, x, mu, sigma);
    var d2 := (x - mu) * (x - mu);
    var c := sigma * sigma * sigma;
    var g := d2 * pdf / c - pdf / sigma;
    CommonDenominator(x, mu, pdf, sigma);
    SignOfGradSigma(x, mu, pdf, sigma);
    g
  }

  /** The upper-tail probability P(X > x); it lies strictly between 0 and 1. */
  function NormalSf(lib: MathLib, x: real, mu: real, sigma: real): (p: real)
    requires lib.Valid() && sigma != 0.0
    ensures 0.0 < p < 1.0
  {
    var t := Standardized(lib, x, mu, sigma);
    lib.erfc(t) / 2.0
  }

  /** d sf / d mu: shifting the location right raises the upper tail at the rate of the density. */
  function NormalSfGradMu(lib: MathLib, x: real, mu: real, sigma: real): (g: real)
    requires lib.Valid() && sigma != 0.0
    ensures g == NormalPdf(lib, x, mu, sigma)
  {
    var t := Standardized(lib, x, mu, sigma);
    Kernel(lib, t) / (lib.sqrt(2.0 * Pi) * sigma)
  }

  /** d sf / d sigma as the source writes it: exp(-t^2) sqrt(2) (x - mu) / (sqrt(pi) sigma^2).
      It is twice the derivative. */
  function NormalSfGradSigmaAsWritten(lib: MathLib, x: real, mu: real, sigma: real): (g: real)
    requires lib.Valid() && sigma != 0.0
    ensures g == 2.0 * NormalSfGradSigma(lib, x, mu, sigma)
  {
    var t := Standardized(lib, x, mu, sigma);
    var e, r2, rpi := Kernel(lib, t), lib.sqrt(2.0), lib.sqrt(Pi);
    SqrtTwoPi(lib);
    assert r2 * r2 == 2.0 && r2 > 0.0 && rpi > 0.0;
    var q := sigma * sigma;
    SquarePositive(sigma);
    assert e * r2 * (x - mu) / (rpi * q) == 2.0 * (e * (x - mu) / (r2 * rpi * q)) by {
      ScaleFraction(e * (x - mu), r2, rpi * q);
      assert r2 * (rpi * q) == r2 * rpi * q;
    }
    e * r2 * (x - mu) / (rpi * q)
  }

  /** d sf / d sigma, corrected: exp(-t^2) (x - mu) / (sqrt(2 pi) sigma^2).
      The survival function depends on `mu` and `sigma` only through (x - mu) / sigma,
      so by the chain rule its sigma-derivative is (x - mu) / sigma times its mu-derivative. */
  function NormalSfGradSigma(lib: MathLib, x: real, mu: real, sigma: real): (g: real)
    requires lib.Valid() && sigma != 0.0
    ensures g == (x - mu) / sigma * NormalSfGradMu(lib, x, mu, sigma)
  {
    var t := Standardized(lib, x, mu, sigma);
    var e, s := Kernel(lib, t), lib.sqrt(2.0 * Pi);
    ScaleQuotient(x, mu, sigma, e, s);
    e * (x - mu) / (s * (sigma * sigma))
  }

  /** The source's d sf / d sigma breaks the chain rule: at x = 1, mu = 0, sigma = 1
      it is twice (x - mu) / sigma times d sf / d mu, not equal to it. */
  lemma SfGradSigmaAsWrittenBreaksChainRule(lib: MathLib)
    requires lib.Valid()
    ensures NormalSfGradSigmaAsWritten(lib, 1.0, 0.0, 1.0)
            == 2.0 * ((1.0 - 0.0) / 1.0 * NormalSfGradMu(lib, 1.0, 0.0, 1.0))
    ensures NormalSfGradSigmaAsWritten(lib, 1.0, 0.0, 1.0)
            != (1.0 - 0.0) / 1.0 * NormalSfGradMu(lib, 1.0, 0.0, 1.0)
  {
    var g := NormalSfGradMu(lib, 1.0, 0.0, 1.0);
    assert g > 0.0;
  }

  // Small facts about real division used above. Their parameters are the
  // atoms of the formulas (`x`, `mu`, `sigma`, the exp and sqrt values), so
  // each call matches the caller's terms exactly.

  lemma PdfGradMuForm(x: real, mu: real, e: real, s: real, sigma: real)
    requires s > 0.0 && sigma != 0.0
    ensures (x - mu) * e / (s * (sigma * sigma * sigma)) == (x - mu) * (e / (s * sigma)) / (sigma * sigma)
  {
    var d := x - mu;
    DivideTwice(d * e, s * sigma, sigma * sigma);
    assert (s * sigma) * (sigma * sigma) == s * (sigma * sigma * sigma);
  }

  lemma CommonDenominator(x: real, mu: real, p: real, sigma: real)
    requires sigma != 0.0
    ensures (x - mu) * (x - mu) * p / (sigma * sigma * sigma) - p / sigma
            == p * ((x - mu) * (x - mu) - sigma * sigma) / (sigma * sigma * sigma)
  {
    var d2 := (x - mu) * (x - mu);
    var c := sigma * sigma * sigma;
    SquarePositive(sigma);
    CancelFactor(p, sigma, sigma * sigma);
    assert sigma * (sigma * sigma) == c;
    assert p * (d2 - sigma * sigma) == d2 * p - p * (sigma * sigma);
    SubtractFractions(d2 * p, p * (sigma * sigma), c);
  }

  lemma SignOfGradSigma(x: real, mu: real, p: real, sigma: real)
    requires sigma != 0.0
    ensures p > 0.0 && sigma > 0.0 ==>
      (p * ((x - mu) * (x - mu) - sigma * sigma) / (sigma * sigma * sigma) > 0.0 <==> (x - mu) * (x - mu) > sigma * sigma)
    ensures p > 0.0 && sigma > 0.0 ==>
      (p * ((x - mu) * (x - mu) - sigma * sigma) / (sigma * sigma * sigma) == 0.0 <==> (x - mu) * (x - mu) == sigma * sigma)
  {
    if sigma > 0.0 {
      assert sigma * sigma * sigma > 0.0;
    }
    SignOfProductQuotient(p, (x - mu) * (x - mu) - sigma * sigma, sigma * sigma * sigma);
  }

  lemma ScaleQuotient(x: real, mu: real, sigma: real, e: real, s: real)
    requires sigma != 0.0 && s > 0.0
    ensures (x - mu) / sigma * (e / (s * sigma)) == e * (x - mu) / (s * (sigma * sigma))
  {
    MultiplyFractions(x - mu, sigma, e, s * sigma);
    assert sigma * (s * sigma) == s * (sigma * sigma);
  }

  lemma MultiplyFractions(a: real, b: real, c: real, d: real)
    requires b != 0.0 && d != 0.0
    ensures a / b * (c / d) == (a * c) / (b * d)
  {
  }

  lemma DivideTwice(a: real, b: real, c: real)
    requires b != 0.0 && c != 0.0
    ensures (a / b) / c == a / (b * c)
    ensures a / b / c == a / c / b
  {
  }

  lemma ScaleFraction(a: real, r: real, b: real)
    requires r * r == 2.0 && r > 0.0 && b != 0.0
    ensures a * r / b == 2.0 * (a / (r * b))
  {
    assert 2.0 * (a / (r * b)) == (r * r) * a / (r * b);
  }

  lemma CancelFactor(a: real, b: real, k: real)
    requires b != 0.0 && k != 0.0
    ensures a / b == (a * k) / (b * k)
  {
  }

  lemma SubtractFractions(a: real, b: real, c: real)
    requires c != 0.0
    ensures a / c - b / c == (a - b) / c
  {
  }

  lemma SignOfProductQuotient(p: real, q: real, c: real)
    requires c != 0.0
    ensures p > 0.0 && c > 0.0 ==> (p * q / c > 0.0 <==> q > 0.0)
    ensures p > 0.0 && c > 0.0 ==> (p * q / c == 0.0 <==> q == 0.0)
  {
    if p > 0.0 && c > 0.0 {
      if q > 0.0 {
        assert p * q > 0.0;
      } else if q < 0.0 {
        assert p * q < 0.0;
      }
    }
  }
}
