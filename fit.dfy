/** `fit`: the censored normal regression of log solve time on rating. An
    ordinary-least-squares start on the uncensored points, then 100 epochs of
    per-sample AdaGrad ascent on the censored log-likelihood, with the slope kept
    negative and the scale kept positive by clamps. */
module Fit {
  import opened Libm
  import opened Normal
  import opened Regression

  const Epochs: nat := 100
  const LrSlope: real := 0.01
  const LrIntercept: real := 1.0
  const LrSigma: real := 0.3
  /** `10 ** -10`: the initial AdaGrad accumulators and the smallest scale. */
  const Eps: real := 0.0000000001
  /** `-1e-6`: the largest slope the clamp lets through. */
  const MaxSlope: real := -0.000001

  /** The log-likelihood gradient of one sample with respect to `mu` and `sigma`. */
  datatype Gradient = Gradient(mu: real, sigma: real)

  /** Python's `min(a, b)`: `b` only when it is strictly smaller. */
  function PyMin(a: real, b: real): (m: real)
    ensures m <= a && m <= b && (m == a || m == b)
  {
    if b < a then b else a
  }

  /** Python's `max(a, b)`: `b` only when it is strictly larger. */
  function PyMax(a: real, b: real): (m: real)
    ensures m >= a && m >= b && (m == a || m == b)
  {
    if b > a then b else a
  }

  /** The source's `0 if g == 0 else g / den`: a zero numerator gives a zero
      gradient whatever the denominator; otherwise it is the plain quotient. */
  function GuardedRatio(g: real, den: real): (r: real)
    requires g != 0.0 ==> den != 0.0
    ensures g == 0.0 ==> r == 0.0
    ensures den != 0.0 ==> r == g / den
  {
    if g == 0.0 then 0.0 else g / den
  }

  /** Lines 82-87: a censored sample contributes log sf, whose derivatives are the
      ratios to sf. The mu-derivative is positive (the upper tail grows as the
      location moves right). The sigma-derivative uses `normal_sf_grad_sigma` as the
      source writes it, so it is twice (x - mu) / sigma times the mu-derivative. */
  function CensoredGradient(lib: MathLib, x: real, mu: real, sigma: real): (g: Gradient)
    requires lib.Valid() && sigma > 0.0
    ensures g.mu == NormalPdf(lib, x, mu, sigma) / NormalSf(lib, x, mu, sigma)
    ensures g.mu > 0.0 && g.sigma == 2.0 * ((x - mu) / sigma * g.mu)
  {
    LogSfGradients(lib, x, mu, sigma);
    Gradient(GuardedRatio(NormalSfGradMu(lib, x, mu, sigma), NormalSf(lib, x, mu, sigma)),
             GuardedRatio(NormalSfGradSigmaAsWritten(lib, x, mu, sigma), NormalSf(lib, x, mu, sigma)))
  }

  /** The derivatives of log sf are the derivatives of sf divided by sf. The
      mu-derivative is positive; the corrected sigma-derivative is (x - mu) / sigma
      times it, and the source's sigma-derivative is twice that. */
  lemma LogSfGradients(lib: MathLib, x: real, mu: real, sigma: real)
    requires lib.Valid() && sigma > 0.0
    ensures var gMu := GuardedRatio(NormalSfGradMu(lib, x, mu, sigma), NormalSf(lib, x, mu, sigma));
      && gMu == NormalPdf(lib, x, mu, sigma) / NormalSf(lib, x, mu, sigma)
      && gMu > 0.0
      && GuardedRatio(NormalSfGradSigma(lib, x, mu, sigma), NormalSf(lib, x, mu, sigma)) == (x - mu) / sigma * gMu
      && GuardedRatio(NormalSfGradSigmaAsWritten(lib, x, mu, sigma), NormalSf(lib, x, mu, sigma))
         == 2.0 * ((x - mu) / sigma * gMu)
  {
    var sf, gm, gs := NormalSf(lib, x, mu, sigma), NormalSfGradMu(lib, x, mu, sigma), NormalSfGradSigma(lib, x, mu, sigma);
    var gw := NormalSfGradSigmaAsWritten(lib, x, mu, sigma);
    PositiveRatio(gm, sf);
    ScaledRatio(gs, gm, sf, (x - mu) / sigma);
    ScaledRatio(gw, gs, sf, 2.0);
  }

  lemma PositiveRatio(g: real, p: real)
    requires g > 0.0 && p > 0.0
    ensures g / p > 0.0
  {
  }

  lemma ScaledRatio(gs: real, gm: real, p: real, k: real)
    requires p > 0.0 && gs == k * gm
    ensures gs / p == k * (gm / p)
  {
  }

  /** Lines 89-94: an uncensored sample contributes log pdf, whose derivatives are
      (x - mu) / sigma^2 and ((x - mu)^2 - sigma^2) / sigma^3 (stated multiplied out). */
  function UncensoredGradient(lib: MathLib, x: real, mu: real, sigma: real): (g: Gradient)
    requires lib.Valid() && sigma > 0.0
    ensures g.mu * (sigma * sigma) == x - mu
    ensures g.sigma * (sigma * sigma * sigma) == (x - mu) * (x - mu) - sigma * sigma
  {
    LogPdfGradMu(lib, x, mu, sigma);
    LogPdfGradSigma(lib, x, mu, sigma);
    Gradient(GuardedRatio(NormalPdfGradMu(lib, x, mu, sigma), NormalPdf(lib, x, mu, sigma)),
             GuardedRatio(NormalPdfGradSigma(lib, x, mu, sigma), NormalPdf(lib, x, mu, sigma)))
  }

  /** The mu-derivative of log pdf, (d pdf / d mu) / pdf, times sigma^2 is x - mu. */
  lemma LogPdfGradMu(lib: MathLib, x: real, mu: real, sigma: real)
    requires lib.Valid() && sigma > 0.0
    ensures GuardedRatio(NormalPdfGradMu(lib, x, mu, sigma), NormalPdf(lib, x, mu, sigma)) * (sigma * sigma) == x - mu
  {
    var pdf, gm := NormalPdf(lib, x, mu, sigma), NormalPdfGradMu(lib, x, mu, sigma);
    PositivePowers(sigma);
    assert GuardedRatio(gm, pdf) == gm / pdf;
    CancelRatio(gm, x - mu, pdf, sigma * sigma);
  }

  /** The sigma-derivative of log pdf, (d pdf / d sigma) / pdf, times sigma^3 is (x - mu)^2 - sigma^2. */
  lemma LogPdfGradSigma(lib: MathLib, x: real, mu: real, sigma: real)
    requires lib.Valid() && sigma > 0.0
    ensures GuardedRatio(NormalPdfGradSigma(lib, x, mu, sigma), NormalPdf(lib, x, mu, sigma)) * (sigma * sigma * sigma)
            == (x - mu) * (x - mu) - sigma * sigma
  {
    var pdf, gs := NormalPdf(lib, x, mu, sigma), NormalPdfGradSigma(lib, x, mu, sigma);
    PositivePowers(sigma);
    assert GuardedRatio(gs, pdf) == gs / pdf;
    CancelRatioLeft(gs, (x - mu) * (x - mu) - sigma * sigma, pdf, sigma * sigma * sigma);
  }

  lemma PositivePowers(s: real)
    requires s > 0.0
    ensures s * s != 0.0 && s * s * s != 0.0
  {
    assert s * s > 0.0;
  }

  /** g = u p / c, so g / p times c is u. */
  lemma CancelRatio(g: real, u: real, p: real, c: real)
    requires c != 0.0 && p != 0.0 && g == u * p / c
    ensures g / p * c == u
  {
    assert g * c == u * p;
    assert g / p * c * p == u * p;
  }

  /** g = p u / c, so g / p times c is u. */
  lemma CancelRatioLeft(g: real, u: real, p: real, c: real)
    requires c != 0.0 && p != 0.0 && g == p * u / c
    ensures g / p * c == u
  {
    CancelRatio(g, u, p, c);
  }

  // One sample's update (lines 77-105).

  /** The six numbers the loop of lines 73-105 carries from sample to sample. */
  datatype FitState = FitState(
    slope: real, intercept: real, sigma: real,
    rSlope: real, rIntercept: real, rSigma: real)

  /** What a step needs: a positive scale (every primitive divides by it) and
      positive accumulators (`r ** -0.5` is then defined). */
  predicate Ready(st: FitState) {
    st.sigma > 0.0 && st.rSlope >= Eps && st.rIntercept >= Eps && st.rSigma >= Eps
  }

  /** The bounds the clamps of lines 104-105 establish. */
  predicate Clamped(st: FitState) {
    st.slope <= MaxSlope && st.sigma >= Eps
  }

  /** The gradients the three parameters of one step follow. */
  datatype StepGradient = StepGradient(slope: real, intercept: real, sigma: real)

  /** Line 80: the predicted log time `mu` of a sample at the current fit. */
  function Mean(st: FitState, rating: real): real {
    st.slope * rating + st.intercept
  }

  /** Lines 80-96: the gradient of the sample's log-likelihood at the current fit,
      with g_slope = grad * rating and g_intercept = grad. A censored sample always
      pulls the intercept up; an uncensored one pulls mu towards its log time. */
  function SampleGradient(lib: MathLib, st: FitState, rating: real, logTime: real, censored: bool): (g: StepGradient)
    requires lib.Valid() && st.sigma > 0.0
    ensures g.slope == g.intercept * rating
    ensures censored ==> LogSfSlopes(g.intercept, g.sigma, logTime - Mean(st, rating), st.sigma)
    ensures !censored ==> LogPdfSlopes(g.intercept, g.sigma, logTime - Mean(st, rating), st.sigma)
  {
    if censored then
      CensoredSlopes(lib, logTime, Mean(st, rating), st.sigma);
      ByParameter(CensoredGradient(lib, logTime, Mean(st, rating), st.sigma), rating)
    else
      UncensoredSlopes(lib, logTime, Mean(st, rating), st.sigma);
      ByParameter(UncensoredGradient(lib, logTime, Mean(st, rating), st.sigma), rating)
  }

  /** The censored gradients at distance d = x - mu: a positive mu-gradient and a
      sigma-gradient twice d / sigma times it (the source's d sf / d sigma). */
  ghost predicate LogSfSlopes(gMu: real, gSigma: real, d: real, sigma: real)
    requires sigma != 0.0
  {
    gMu > 0.0 && gSigma == 2.0 * (d / sigma * gMu)
  }

  /** The uncensored gradients at distance d = x - mu, multiplied out:
      gMu = d / sigma^2 and gSigma = (d^2 - sigma^2) / sigma^3. */
  ghost predicate LogPdfSlopes(gMu: real, gSigma: real, d: real, sigma: real) {
    gMu * (sigma * sigma) == d && gSigma * (sigma * sigma * sigma) == d * d - sigma * sigma
  }

  lemma CensoredSlopes(lib: MathLib, x: real, mu: real, sigma: real)
    requires lib.Valid() && sigma > 0.0
    ensures LogSfSlopes(CensoredGradient(lib, x, mu, sigma).mu, CensoredGradient(lib, x, mu, sigma).sigma, x - mu, sigma)
  {
  }

  lemma UncensoredSlopes(lib: MathLib, x: real, mu: real, sigma: real)
    requires lib.Valid() && sigma > 0.0
    ensures LogPdfSlopes(UncensoredGradient(lib, x, mu, sigma).mu, UncensoredGradient(lib, x, mu, sigma).sigma, x - mu, sigma)
  {
  }

  /** Lines 95-96: mu = slope * rating + intercept, so the chain rule gives the slope
      `grad * rating` and the intercept `grad`. */
  function ByParameter(g: Gradient, rating: real): StepGradient {
    StepGradient(g.mu * rating, g.mu, g.sigma)
  }

  /** One AdaGrad coordinate update, lines 97-102: the accumulator grows by the
      squared gradient, then the parameter moves by `g * lr * acc ** -0.5`. The
      move has the sign of the gradient and is shorter than the learning rate. */
  function AdaGrad(lib: MathLib, p: real, r: real, g: real, lr: real): (u: (real, real))
    requires lib.Valid() && r > 0.0 && lr > 0.0
    ensures u.1 == r + g * g && u.1 >= r
    ensures u.0 == p <==> g == 0.0
    ensures u.0 > p <==> g > 0.0
    ensures p - lr < u.0 < p + lr
  {
    MoveWithinRate(lib, g, r + g * g, lr);
    (p + Move(lib, g, r + g * g, lr), r + g * g)
  }

  /** Lines 100-102's move `g * lr * acc ** -0.5`. */
  function Move(lib: MathLib, g: real, acc: real, lr: real): real
    requires lib.Valid() && acc > 0.0
  {
    ScaledMove(g, InvSqrt(lib, acc), lr)
  }

  /** The move `lr * (g * s)` for a gradient `g`, rate `lr` and scale `s`. */
  function ScaledMove(g: real, s: real, lr: real): real {
    lr * (g * s)
  }

  /** The move has the sign of `g` and is shorter than `lr` when `acc` exceeds `g^2`. */
  lemma MoveWithinRate(lib: MathLib, g: real, acc: real, lr: real)
    requires lib.Valid() && acc > g * g && lr > 0.0
    ensures g == 0.0 <==> Move(lib, g, acc, lr) == 0.0
    ensures g > 0.0 <==> Move(lib, g, acc, lr) > 0.0
    ensures -lr < Move(lib, g, acc, lr) < lr
  {
    StepWithinRate(g, InvSqrt(lib, acc), acc, lr);
  }

  /** The same for any positive `s` with s^2 acc = 1. */
  lemma StepWithinRate(g: real, s: real, acc: real, lr: real)
    requires IsInvSqrt(s, acc) && acc > g * g && lr > 0.0
    ensures g == 0.0 <==> ScaledMove(g, s, lr) == 0.0
    ensures g > 0.0 <==> ScaledMove(g, s, lr) > 0.0
    ensures -lr < ScaledMove(g, s, lr) < lr
  {
    ScaledBelowOne(g, s, acc);
    MoveBelowRate(lr, g, s);
    MoveAboveMinusRate(lr, g, s);
    if g > 0.0 { assert g * s > 0.0; } else if g < 0.0 { assert g * s < 0.0; }
  }

  lemma MoveBelowRate(lr: real, g: real, s: real)
    requires lr > 0.0 && g * s < 1.0
    ensures ScaledMove(g, s, lr) < lr
  {
    assert lr * (1.0 - g * s) > 0.0;
  }

  lemma MoveAboveMinusRate(lr: real, g: real, s: real)
    requires lr > 0.0 && -1.0 < g * s
    ensures -lr < ScaledMove(g, s, lr)
  {
    assert lr * (1.0 + g * s) > 0.0;
  }

  /** |g| acc ** -0.5 < 1 when acc exceeds g^2. */
  lemma ScaledBelowOne(g: real, p: real, r: real)
    requires p > 0.0 && p * p * r == 1.0 && r > g * g
    ensures -1.0 < g * p < 1.0
  {
    var pp := p * p;
    assert pp > 0.0;
    assert (g * p) * (g * p) == (g * g) * pp;
    assert (g * g) * pp < r * pp;
    assert g * p >= 1.0 ==> (g * p) * (g * p) >= g * p;
    assert g * p <= -1.0 ==> (g * p) * (g * p) >= -(g * p);
  }

  /** Lines 97-105, the update once the sample's three gradients are known:
      three AdaGrad updates, then slope = min(-1e-6, slope) and sigma = max(eps, sigma). */
  function Update(lib: MathLib, st: FitState, gSlope: real, gIntercept: real, gSigma: real): (next: FitState)
    requires lib.Valid() && Ready(st)
    ensures Ready(next) && Clamped(next)
    ensures next.rSlope >= st.rSlope && next.rIntercept >= st.rIntercept && next.rSigma >= st.rSigma
  {
    var s := AdaGrad(lib, st.slope, st.rSlope, gSlope, LrSlope);
    var i := AdaGrad(lib, st.intercept, st.rIntercept, gIntercept, LrIntercept);
    var v := AdaGrad(lib, st.sigma, st.rSigma, gSigma, LrSigma);
    FitState(PyMin(MaxSlope, s.0), i.0, PyMax(Eps, v.0), s.1, i.1, v.1)
  }

  /** Each accumulator grows by exactly its squared gradient (lines 97-99). */
  lemma AccumulatorsGrowBySquares(lib: MathLib, st: FitState, gSlope: real, gIntercept: real, gSigma: real)
    requires lib.Valid() && Ready(st)
    ensures var next := Update(lib, st, gSlope, gIntercept, gSigma);
      && next.rSlope == st.rSlope + gSlope * gSlope
      && next.rIntercept == st.rIntercept + gIntercept * gIntercept
      && next.rSigma == st.rSigma + gSigma * gSigma
  {
  }

  /** A zero gradient leaves its parameter where the clamps already hold it. */
  lemma ZeroGradientKeepsParameters(lib: MathLib, st: FitState, gSlope: real, gIntercept: real, gSigma: real)
    requires lib.Valid() && Ready(st) && Clamped(st)
    ensures var next := Update(lib, st, gSlope, gIntercept, gSigma);
      && (gSlope == 0.0 ==> next.slope == st.slope)
      && (gIntercept == 0.0 ==> next.intercept == st.intercept)
      && (gSigma == 0.0 ==> next.sigma == st.sigma)
  {
  }

  /** Ascent: the intercept moves the way its gradient points, by less than its
      learning rate. From a clamped state the slope and sigma moves are shorter than
      their rates too, and a clamp can only shorten a move. From the unclamped
      least-squares start the slope clamp can lengthen or reverse a move: a slope
      above -1e-6 is pulled down to -1e-6 even when its gradient is positive. */
  lemma UpdateFollowsGradient(lib: MathLib, st: FitState, gSlope: real, gIntercept: real, gSigma: real)
    requires lib.Valid() && Ready(st)
    ensures var next := Update(lib, st, gSlope, gIntercept, gSigma);
      && (next.intercept > st.intercept <==> gIntercept > 0.0)
      && (next.intercept < st.intercept <==> gIntercept < 0.0)
      && st.intercept - LrIntercept < next.intercept < st.intercept + LrIntercept
      && (Clamped(st) && gSlope < 0.0 ==> next.slope < st.slope)
      && (gSlope > 0.0 ==> next.slope > st.slope || next.slope == MaxSlope)
      && (gSigma > 0.0 ==> next.sigma > st.sigma)
      && (Clamped(st) && gSigma < 0.0 ==> next.sigma <= st.sigma)
      && (Clamped(st) ==> st.slope - LrSlope < next.slope < st.slope + LrSlope)
      && (Clamped(st) ==> st.sigma - LrSigma < next.sigma < st.sigma + LrSigma)
  {
  }

  /** Lines 77-105: one sample, visited at the current fit. */
  function Step(lib: MathLib, st: FitState, rating: real, logTime: real, censored: bool): (next: FitState)
    requires lib.Valid() && Ready(st)
    ensures Ready(next) && Clamped(next)
    ensures next.rSlope >= st.rSlope && next.rIntercept >= st.rIntercept && next.rSigma >= st.rSigma
  {
    var g := SampleGradient(lib, st, rating, logTime, censored);
    Update(lib, st, g.slope, g.intercept, g.sigma)
  }

  /** A sample whose log-likelihood is flat in mu leaves slope and intercept unchanged. */
  lemma FlatSampleKeepsLine(lib: MathLib, st: FitState, rating: real, logTime: real, censored: bool)
    requires lib.Valid() && Ready(st) && Clamped(st)
    requires SampleGradient(lib, st, rating, logTime, censored).intercept == 0.0
    ensures Step(lib, st, rating, logTime, censored).slope == st.slope
    ensures Step(lib, st, rating, logTime, censored).intercept == st.intercept
  {
    var g := SampleGradient(lib, st, rating, logTime, censored);
    ZeroGradientKeepsParameters(lib, st, g.slope, g.intercept, g.sigma);
  }

  // Epochs (lines 73-76).

  /** Every entry of `order` is a valid sample index. */
  predicate IndicesIn(order: seq<int>, n: int) {
    forall k :: 0 <= k < |order| ==> 0 <= order[k] < n
  }

  /** Lines 76-105: the samples of one epoch, visited in the order `order`. */
  function Epoch(lib: MathLib, st: FitState, ratings: seq<real>, times: seq<real>, censoreds: seq<bool>,
                 order: seq<int>): (end: FitState)
    requires lib.Valid() && Ready(st)
    requires |times| == |ratings| && |censoreds| == |ratings| && IndicesIn(order, |ratings|)
    ensures Ready(end)
    ensures |order| > 0 ==> Clamped(end)
    ensures end.rSlope >= st.rSlope && end.rIntercept >= st.rIntercept && end.rSigma >= st.rSigma
    decreases |order|
  {
    if |order| == 0 then st
    else
      var last := order[|order| - 1];
      var before := Epoch(lib, st, ratings, times, censoreds, order[..|order| - 1]);
      Step(lib, before, ratings[last], lib.log(times[last]), censoreds[last])
  }

  /** Lines 73-105: the epochs in turn, epoch `e` visiting `shuffles[e]`. */
  function Run(lib: MathLib, st: FitState, ratings: seq<real>, times: seq<real>, censoreds: seq<bool>,
               shuffles: seq<seq<int>>): (end: FitState)
    requires lib.Valid() && Ready(st)
    requires |times| == |ratings| && |censoreds| == |ratings|
    requires forall e :: 0 <= e < |shuffles| ==> IndicesIn(shuffles[e], |ratings|)
    ensures Ready(end)
    ensures |shuffles| > 0 && |shuffles[|shuffles| - 1]| > 0 ==> Clamped(end)
    ensures end.rSlope >= st.rSlope && end.rIntercept >= st.rIntercept && end.rSigma >= st.rSigma
    decreases |shuffles|
  {
    if |shuffles| == 0 then st
    else
      var before := Run(lib, st, ratings, times, censoreds, shuffles[..|shuffles| - 1]);
      Epoch(lib, before, ratings, times, censoreds, shuffles[|shuffles| - 1])
  }

  /** `list(range(n))`. */
  function Range(n: nat): (r: seq<int>)
    ensures |r| == n && forall i :: 0 <= i < n ==> r[i] == i
  {
    seq(n, i => i)
  }

  /** What `rng.shuffle(list(range(n)))` produces: a rearrangement of 0..n-1. */
  predicate IsPermutation(order: seq<int>, n: nat) {
    multiset(order) == multiset(Range(n))
  }

  lemma {:induction false} RangeCounts(n: nat)
    ensures forall k :: multiset(Range(n))[k] == if 0 <= k < n then 1 else 0
  {
    if n > 0 {
      RangeCounts(n - 1);
      assert Range(n) == Range(n - 1) + [n - 1];
    }
  }

  /** A permutation of range(n) visits every index 0..n-1 exactly once and nothing else. */
  lemma PermutationVisitsEachOnce(order: seq<int>, n: nat)
    requires IsPermutation(order, n)
    ensures |order| == n && IndicesIn(order, n)
    ensures forall k :: 0 <= k < n ==> multiset(order)[k] == 1
  {
    RangeCounts(n);
    assert |order| == |multiset(order)| == |multiset(Range(n))| == n;
    forall k | 0 <= k < |order| ensures 0 <= order[k] < n {
      assert order[k] in multiset(order);
    }
  }

  // The uncensored start (lines 57-67).

  /** The number of entries of `flags` equal to `v`. */
  function Count(flags: seq<bool>, v: bool): (c: nat)
    ensures c <= |flags|
  {
    if |flags| == 0 then 0
    else Count(flags[..|flags| - 1], v) + if flags[|flags| - 1] == v then 1 else 0
  }

  /** Every flag is either true or false. */
  lemma {:induction false} CountsPartition(flags: seq<bool>)
    ensures Count(flags, true) + Count(flags, false) == |flags|
  {
    if |flags| > 0 {
      CountsPartition(flags[..|flags| - 1]);
    }
  }

  /** The positions of the uncensored samples, in the order lines 58-59 meet them. */
  function UncensoredIndices(censoreds: seq<bool>): (idx: seq<int>)
    ensures IndicesIn(idx, |censoreds|)
    ensures forall k :: 0 <= k < |idx| ==> !censoreds[idx[k]]
  {
    if |censoreds| == 0 then []
    else
      var before := UncensoredIndices(censoreds[..|censoreds| - 1]);
      if censoreds[|censoreds| - 1] then before else before + [|censoreds| - 1]
  }

  /** The uncensored positions are listed in increasing order, every uncensored
      position is listed, and there are as many as there are `False` flags. */
  lemma {:induction false} UncensoredIndicesExact(censoreds: seq<bool>)
    ensures var idx := UncensoredIndices(censoreds);
      && (forall j, k :: 0 <= j < k < |idx| ==> idx[j] < idx[k])
      && (forall i :: 0 <= i < |censoreds| && !censoreds[i] ==> i in idx)
      && |idx| == Count(censoreds, false)
  {
    if |censoreds| > 0 {
      var n := |censoreds|;
      var front := censoreds[..n - 1];
      UncensoredIndicesExact(front);
      forall i | 0 <= i < n - 1 && !censoreds[i] ensures i in UncensoredIndices(front) {
        assert front[i] == censoreds[i];
      }
    }
  }

  /** `s` read at the positions `idx`. */
  function Select<T>(s: seq<T>, idx: seq<int>): (r: seq<T>)
    requires IndicesIn(idx, |s|)
    ensures |r| == |idx| && forall k :: 0 <= k < |idx| ==> r[k] == s[idx[k]]
  {
    seq(|idx|, k requires 0 <= k < |idx| => s[idx[k]])
  }

  /** `math.log` of every time. */
  function Logs(lib: MathLib, times: seq<real>): (r: seq<real>)
    ensures |r| == |times| && forall i :: 0 <= i < |times| ==> r[i] == lib.log(times[i])
  {
    seq(|times|, i requires 0 <= i < |times| => lib.log(times[i]))
  }

  /** Lines 57-61: the ratings and log times of the uncensored samples, in input order. */
  method PartitionUncensored(lib: MathLib, ratings: seq<real>, times: seq<real>, censoreds: seq<bool>)
    returns (xs: seq<real>, ys: seq<real>)
    requires |times| == |ratings| && |censoreds| == |ratings|
    ensures xs == Select(ratings, UncensoredIndices(censoreds))
    ensures ys == Select(Logs(lib, times), UncensoredIndices(censoreds))
  {
    xs, ys := [], [];
    var i := 0;
    while i < |ratings|
      invariant 0 <= i <= |ratings|
      invariant xs == Select(ratings, UncensoredIndices(censoreds[..i]))
      invariant ys == Select(Logs(lib, times), UncensoredIndices(censoreds[..i]))
    {
      assert censoreds[..i + 1][..i] == censoreds[..i];
      if !censoreds[i] {
        xs := xs + [ratings[i]];
        ys := ys + [lib.log(times[i])];
      }
      i := i + 1;
    }
    assert censoreds[..i] == censoreds;
  }

  /** The uncensored prediction errors `rating * slope + intercept - logtime` (line 66). */
  function Residuals(x: seq<real>, y: seq<real>, a: real, b: real): (e: seq<real>)
    requires |x| == |y|
    ensures |e| == |x| && forall i :: 0 <= i < |x| ==> e[i] == x[i] * a + b - y[i]
  {
    seq(|x|, i requires 0 <= i < |x| => x[i] * a + b - y[i])
  }

  /** Lines 64-66. */
  method PredictErrors(x: seq<real>, y: seq<real>, slope: real, intercept: real) returns (errors: seq<real>)
    requires |x| == |y|
    ensures errors == Residuals(x, y, slope, intercept)
  {
    errors := [];
    var i := 0;
    while i < |x|
      invariant 0 <= i <= |x|
      invariant errors == Residuals(x[..i], y[..i], slope, intercept)
    {
      ghost var grown := Residuals(x[..i], y[..i], slope, intercept) + [x[i] * slope + intercept - y[i]];
      forall j | 0 <= j <= i ensures grown[j] == x[..i + 1][j] * slope + intercept - y[..i + 1][j] {
        if j < i {
          assert x[..i + 1][j] == x[..i][j] && y[..i + 1][j] == y[..i][j];
        }
      }
      assert Residuals(x[..i + 1], y[..i + 1], slope, intercept) == grown;
      errors := errors + [x[i] * slope + intercept - y[i]];
      i := i + 1;
    }
    assert x[..i] == x && y[..i] == y;
  }

  /** The prediction errors sum to a Sum(x) + n b - Sum(y). */
  lemma {:induction false} SumOfResiduals(x: seq<real>, y: seq<real>, a: real, b: real)
    requires |x| == |y|
    ensures Sum(Residuals(x, y, a, b)) == a * Sum(x) + |x| as real * b - Sum(y)
  {
    if |x| > 0 {
      SumOfResiduals(x[1..], y[1..], a, b);
      ResidualsTail(x, y, a, b);
      var e := Residuals(x, y, a, b);
      assert Sum(e) == e[0] + Sum(e[1..]);
      ResidualStep(x[0], y[0], Sum(x[1..]), Sum(y[1..]), Sum(e[1..]), a, b, (|x| - 1) as real);
    }
  }

  lemma ResidualsTail(x: seq<real>, y: seq<real>, a: real, b: real)
    requires |x| == |y| && |x| > 0
    ensures Residuals(x, y, a, b)[1..] == Residuals(x[1..], y[1..], a, b)
  {
    var e, r := Residuals(x, y, a, b), Residuals(x[1..], y[1..], a, b);
    forall j | 0 <= j < |x| - 1 ensures e[1..][j] == r[j] {
      assert x[1..][j] == x[j + 1] && y[1..][j] == y[j + 1];
      assert e[1..][j] == e[j + 1];
    }
    assert |e[1..]| == |r|;
  }

  lemma ResidualStep(x0: real, y0: real, sx: real, sy: real, se: real, a: real, b: real, m: real)
    requires se == a * sx + m * b - sy
    ensures (x0 * a + b - y0) + se == a * (x0 + sx) + (m + 1.0) * b - (y0 + sy)
  {
  }

  /** At the least-squares fit the errors of the uncensored points sum to zero,
      so the start sigma is their spread about a centred line. */
  lemma ResidualsOfRegressionSumToZero(x: seq<real>, y: seq<real>)
    requires |x| == |y| && !AllEqual(x)
    ensures Sum(Residuals(x, y, SingleRegression(x, y).0, SingleRegression(x, y).1)) == 0.0
  {
    var fit := SingleRegression(x, y);
    ResidualsBalance(x, y, fit.0, fit.1);
  }

  lemma ResidualsBalance(x: seq<real>, y: seq<real>, a: real, b: real)
    requires |x| == |y| && |x| as real * b + a * Sum(x) == Sum(y)
    ensures Sum(Residuals(x, y, a, b)) == 0.0
  {
    SumOfResiduals(x, y, a, b);
  }

  // The whole of `fit` (lines 54-106).

  /** Where `fit` raises instead of returning. */
  datatype FitError =
    | DegenerateRatings  // line 49: ZeroDivisionError, all uncensored ratings equal (or fewer than two)
    | ZeroSpread         // line 10 or 28 at the first sample: ZeroDivisionError, sigma == 0

  datatype FitResult = Fitted(slope: real, intercept: real) | Failed(error: FitError)

  lemma TwoDistinct(x: seq<real>)
    requires !AllEqual(x)
    ensures |x| >= 2
  {
    var i, j :| 0 <= i < |x| && 0 <= j < |x| && x[i] != x[j];
    assert i != j;
  }

  /** The inputs `fit` indexes together, with `rng.shuffle` supplied as the
      permutation each of the 100 epochs visits. */
  ghost predicate FitInputs(ratings: seq<real>, times: seq<real>, censoreds: seq<bool>, shuffles: seq<seq<int>>) {
    && |times| == |ratings| && |censoreds| == |ratings|
    && |shuffles| == Epochs
    && forall e :: 0 <= e < |shuffles| ==> IsPermutation(shuffles[e], |ratings|)
  }

  lemma ShufflesAreIndices(shuffles: seq<seq<int>>, n: nat)
    requires forall e :: 0 <= e < |shuffles| ==> IsPermutation(shuffles[e], n)
    ensures forall e :: 0 <= e < |shuffles| ==> |shuffles[e]| == n && IndicesIn(shuffles[e], n)
  {
    forall e | 0 <= e < |shuffles| ensures |shuffles[e]| == n && IndicesIn(shuffles[e], n) {
      PermutationVisitsEachOnce(shuffles[e], n);
    }
  }

  /** What `fit(ratings, times, censoreds, rng)` returns: least squares on the
      uncensored points, the spread of their errors as the start sigma, then the
      100 epochs of ascent. It fails exactly when the uncensored ratings are all
      equal or the start errors have no spread; whenever it returns, the slope is
      at most -1e-6. */
  function FitSpec(lib: MathLib, ratings: seq<real>, times: seq<real>, censoreds: seq<bool>,
                   shuffles: seq<seq<int>>): (r: FitResult)
    requires lib.Valid() && FitInputs(ratings, times, censoreds, shuffles)
    ensures r == Failed(DegenerateRatings) <==> AllEqual(Select(ratings, UncensoredIndices(censoreds)))
    ensures r == Failed(ZeroSpread) <==>
      var xs, ys := Select(ratings, UncensoredIndices(censoreds)), Select(Logs(lib, times), UncensoredIndices(censoreds));
      && !AllEqual(xs)
      && lib.stdev(Residuals(xs, ys, SingleRegression(xs, ys).0, SingleRegression(xs, ys).1)) == 0.0
    ensures r.Fitted? ==> r.slope <= MaxSlope
  {
    var idx := UncensoredIndices(censoreds);
    var xs, ys := Select(ratings, idx), Select(Logs(lib, times), idx);
    if AllEqual(xs) then Failed(DegenerateRatings)
    else
      var fit := SingleRegression(xs, ys);
      TwoDistinct(xs);
      var sigma := lib.stdev(Residuals(xs, ys, fit.0, fit.1));
      if sigma == 0.0 then Failed(ZeroSpread)
      else
        ShufflesAreIndices(shuffles, |ratings|);
        var end := Run(lib, FitState(fit.0, fit.1, sigma, Eps, Eps, Eps), ratings, times, censoreds, shuffles);
        Fitted(end.slope, end.intercept)
  }

  /** Lines 97-105 on the six loop variables, once the sample's gradients are known. */
  method ApplyGradient(lib: MathLib, slope0: real, intercept0: real, sigma0: real,
                       rSlope0: real, rIntercept0: real, rSigma0: real,
                       gSlope: real, gIntercept: real, gSigma: real)
    returns (slope: real, intercept: real, sigma: real, rSlope: real, rIntercept: real, rSigma: real)
    requires lib.Valid() && Ready(FitState(slope0, intercept0, sigma0, rSlope0, rIntercept0, rSigma0))
    ensures FitState(slope, intercept, sigma, rSlope, rIntercept, rSigma)
            == Update(lib, FitState(slope0, intercept0, sigma0, rSlope0, rIntercept0, rSigma0), gSlope, gIntercept, gSigma)
  {
    slope, intercept, sigma := slope0, intercept0, sigma0;
    rSlope, rIntercept, rSigma := rSlope0 + gSlope * gSlope, rIntercept0 + gIntercept * gIntercept, rSigma0 + gSigma * gSigma;
    slope := slope + gSlope * LrSlope * InvSqrt(lib, rSlope);
    intercept := intercept + gIntercept * LrIntercept * InvSqrt(lib, rIntercept);
    sigma := sigma + gSigma * LrSigma * InvSqrt(lib, rSigma);
    slope := PyMin(MaxSlope, slope);
    sigma := PyMax(Eps, sigma);
  }

  lemma EpochExtends(lib: MathLib, st: FitState, ratings: seq<real>, times: seq<real>, censoreds: seq<bool>,
                     orders: seq<int>, k: nat)
    requires lib.Valid() && Ready(st)
    requires |times| == |ratings| && |censoreds| == |ratings| && IndicesIn(orders, |ratings|) && k < |orders|
    ensures var before, o := Epoch(lib, st, ratings, times, censoreds, orders[..k]), orders[k];
      var g := SampleGradient(lib, before, ratings[o], lib.log(times[o]), censoreds[o]);
      Epoch(lib, st, ratings, times, censoreds, orders[..k + 1])
        == Update(lib, before, g.slope, g.intercept, g.sigma)
  {
    assert orders[..k + 1][..k] == orders[..k];
  }

  /** Lines 76-105: one epoch over the six loop variables. */
  method VisitAll(lib: MathLib, st0: FitState, ratings: seq<real>, times: seq<real>, censoreds: seq<bool>,
                  orders: seq<int>) returns (end: FitState)
    requires lib.Valid() && Ready(st0)
    requires |times| == |ratings| && |censoreds| == |ratings| && IndicesIn(orders, |ratings|)
    ensures end == Epoch(lib, st0, ratings, times, censoreds, orders)
  {
    var slope, intercept, sigma := st0.slope, st0.intercept, st0.sigma;
    var rSlope, rIntercept, rSigma := st0.rSlope, st0.rIntercept, st0.rSigma;
    var k := 0;
    while k < |orders|
      invariant 0 <= k <= |orders|
      invariant FitState(slope, intercept, sigma, rSlope, rIntercept, rSigma)
                == Epoch(lib, st0, ratings, times, censoreds, orders[..k])
    {
      var before := FitState(slope, intercept, sigma, rSlope, rIntercept, rSigma);
      var order := orders[k];
      var rating, logTime, censored := ratings[order], lib.log(times[order]), censoreds[order];
      var g := SampleGradient(lib, before, rating, logTime, censored);
      slope, intercept, sigma, rSlope, rIntercept, rSigma :=
        ApplyGradient(lib, slope, intercept, sigma, rSlope, rIntercept, rSigma, g.slope, g.intercept, g.sigma);
      EpochExtends(lib, st0, ratings, times, censoreds, orders, k);
      k := k + 1;
    }
    assert orders[..k] == orders;
    end := FitState(slope, intercept, sigma, rSlope, rIntercept, rSigma);
  }

  lemma RunExtends(lib: MathLib, st: FitState, ratings: seq<real>, times: seq<real>, censoreds: seq<bool>,
                   shuffles: seq<seq<int>>, e: nat)
    requires lib.Valid() && Ready(st)
    requires |times| == |ratings| && |censoreds| == |ratings| && e < |shuffles|
    requires forall k :: 0 <= k < |shuffles| ==> IndicesIn(shuffles[k], |ratings|)
    ensures Run(lib, st, ratings, times, censoreds, shuffles[..e + 1])
            == Epoch(lib, Run(lib, st, ratings, times, censoreds, shuffles[..e]), ratings, times, censoreds, shuffles[e])
  {
    assert shuffles[..e + 1][..e] == shuffles[..e];
  }

  /** Lines 73-105: the 100 epochs, each over a fresh shuffle. */
  method Refine(lib: MathLib, st0: FitState, ratings: seq<real>, times: seq<real>, censoreds: seq<bool>,
                shuffles: seq<seq<int>>) returns (end: FitState)
    requires lib.Valid() && Ready(st0)
    requires |times| == |ratings| && |censoreds| == |ratings|
    requires forall e :: 0 <= e < |shuffles| ==> IndicesIn(shuffles[e], |ratings|)
    ensures end == Run(lib, st0, ratings, times, censoreds, shuffles)
  {
    end := st0;
    var e := 0;
    while e < |shuffles|
      invariant 0 <= e <= |shuffles|
      invariant end == Run(lib, st0, ratings, times, censoreds, shuffles[..e])
    {
      RunExtends(lib, st0, ratings, times, censoreds, shuffles, e);
      end := VisitAll(lib, end, ratings, times, censoreds, shuffles[e]);
      e := e + 1;
    }
    assert shuffles[..e] == shuffles;
  }

  /** Lines 54-106. */
  method Fit(lib: MathLib, ratings: seq<real>, times: seq<real>, censoreds: seq<bool>,
             shuffles: seq<seq<int>>) returns (r: FitResult)
    requires lib.Valid() && FitInputs(ratings, times, censoreds, shuffles)
    ensures r == FitSpec(lib, ratings, times, censoreds, shuffles)
  {
    var xs, ys := PartitionUncensored(lib, ratings, times, censoreds);
    if AllEqual(xs) {
      return Failed(DegenerateRatings);
    }
    var fit := SingleRegression(xs, ys);
    var errors := PredictErrors(xs, ys, fit.0, fit.1);
    TwoDistinct(xs);
    var sigma := lib.stdev(errors);
    if sigma == 0.0 {
      return Failed(ZeroSpread);
    }
    ShufflesAreIndices(shuffles, |ratings|);
    var end := Refine(lib, FitState(fit.0, fit.1, sigma, Eps, Eps, Eps), ratings, times, censoreds, shuffles);
    r := Fitted(end.slope, end.intercept);
  }
}
