/** The parts of `generate.py` that are not random data generation: turning a
    fitted line into a difficulty, and censoring solve times at a threshold. */
module Generate {
  import opened Libm
  import opened Fit

  /** `expected_solve_time`: one hour, in seconds. */
  const ExpectedSolveTime: real := 3600.0

  /** Lines 6-9: the rating at which the predicted log solve time is log(3600).
      Python divides by the slope, so a zero slope is excluded. */
  function EstimateDifficulty(lib: MathLib, slope: real, intercept: real): (r: real)
    requires slope != 0.0
    ensures r * slope + intercept == lib.log(ExpectedSolveTime)
  {
    var d := (lib.log(ExpectedSolveTime) - intercept) / slope;
    assert d * slope == lib.log(ExpectedSolveTime) - intercept;
    d
  }

  /** No other rating has that predicted log solve time. */
  lemma DifficultyUnique(lib: MathLib, slope: real, intercept: real, r: real)
    requires slope != 0.0 && r * slope + intercept == lib.log(ExpectedSolveTime)
    ensures r == EstimateDifficulty(lib, slope, intercept)
  {
    var d := EstimateDifficulty(lib, slope, intercept);
    assert (r - d) * slope == 0.0;
    ZeroProduct(r - d, slope);
  }

  /** A slope that `fit` returns is clamped to at most -1e-6 (`FitSpec` ensures so),
      so the difficulty of a fitted line is always defined (lines 28-29). */
  lemma DifficultyDefined(lib: MathLib, r: FitResult)
    requires r.Fitted? && r.slope <= MaxSlope
    ensures DifficultyDefinedFor(lib, r)
  {
  }

  /** A fitted line with a non-zero slope whose difficulty solves the equation of line 9. */
  ghost predicate DifficultyDefinedFor(lib: MathLib, r: FitResult) {
    && r.Fitted? && r.slope != 0.0
    && EstimateDifficulty(lib, r.slope, r.intercept) * r.slope + r.intercept == lib.log(ExpectedSolveTime)
  }

  /** Lines 28-29: whenever `fit` returns a line, its difficulty is defined and
      solves the equation of `estimate_difficulty`. */
  lemma FittedLineHasDifficulty(lib: MathLib, ratings: seq<real>, times: seq<real>, censoreds: seq<bool>,
                                shuffles: seq<seq<int>>)
    requires lib.Valid() && FitInputs(ratings, times, censoreds, shuffles)
    ensures FitSpec(lib, ratings, times, censoreds, shuffles).Fitted? ==>
      DifficultyDefinedFor(lib, FitSpec(lib, ratings, times, censoreds, shuffles))
  {
    var r := FitSpec(lib, ratings, times, censoreds, shuffles);
    if r.Fitted? {
      DifficultyDefined(lib, r);
    }
  }

  /** Line 26: every time cut off at the threshold, `min(time, threshold)`. */
  function CensorTimes(times: seq<real>, threshold: real): (c: seq<real>)
    ensures |c| == |times|
    ensures forall i :: 0 <= i < |times| ==> c[i] <= threshold && c[i] <= times[i]
    ensures forall i :: 0 <= i < |times| ==> c[i] == times[i] || c[i] == threshold
  {
    seq(|times|, i requires 0 <= i < |times| => PyMin(times[i], threshold))
  }

  /** Line 27: which samples did not finish before the threshold. */
  function CensorFlags(times: seq<real>, threshold: real): (f: seq<bool>)
    ensures |f| == |times|
  {
    seq(|times|, i requires 0 <= i < |times| => times[i] >= threshold)
  }

  /** A sample is censored exactly when its time reaches the threshold; a censored
      sample then records the threshold, an uncensored one its own time. */
  lemma CensoringConsistent(times: seq<real>, threshold: real)
    ensures var c, f := CensorTimes(times, threshold), CensorFlags(times, threshold);
      forall i :: 0 <= i < |times| ==>
        && (f[i] <==> times[i] >= threshold)
        && (f[i] ==> c[i] == threshold)
        && (!f[i] ==> c[i] == times[i] && c[i] < threshold)
  {
  }

  /** With positive times and a positive threshold every censored time is positive,
      as the `math.log` calls inside `fit` need. */
  lemma CensoredTimesPositive(times: seq<real>, threshold: real)
    requires threshold > 0.0 && forall i :: 0 <= i < |times| ==> times[i] > 0.0
    ensures forall i :: 0 <= i < |CensorTimes(times, threshold)| ==> CensorTimes(times, threshold)[i] > 0.0
  {
  }

  /** Line 28: the censored data and the ratings are aligned as `fit` expects. */
  lemma CensoredInputsAligned(ratings: seq<real>, times: seq<real>, threshold: real, shuffles: seq<seq<int>>)
    requires |times| == |ratings| && |shuffles| == Epochs
    requires forall e :: 0 <= e < |shuffles| ==> IsPermutation(shuffles[e], |ratings|)
    ensures FitInputs(ratings, CensorTimes(times, threshold), CensorFlags(times, threshold), shuffles)
  {
  }

  /** Line 25: `range(600, 7201, 600)`, every ten minutes up to two hours. */
  function Thresholds(): (t: seq<real>)
    ensures |t| == 12 && t[0] == 600.0 && t[11] == 7200.0
    ensures forall i, j :: 0 <= i < j < |t| ==> t[i] < t[j]
  {
    seq(12, i requires 0 <= i < 12 => 600.0 * (i + 1) as real)
  }

  /** `sum(censoreds)` in the report of line 29: the samples that `fit` leaves out
      of its least-squares start are exactly the censored ones. */
  function CensoredCount(flags: seq<bool>): (c: nat)
    ensures c + |UncensoredIndices(flags)| == |flags|
  {
    CountsPartition(flags);
    UncensoredIndicesExact(flags);
    Count(flags, true)
  }

  /** Raising the threshold never censors more samples (line 25 loops upward). */
  lemma {:induction false} CensoredCountFalls(times: seq<real>, low: real, high: real)
    requires low <= high
    ensures CensoredCount(CensorFlags(times, high)) <= CensoredCount(CensorFlags(times, low))
  {
    if |times| > 0 {
      var n := |times|;
      var front := times[..n - 1];
      CensoredCountFalls(front, low, high);
      assert CensorFlags(times, high)[..n - 1] == CensorFlags(front, high);
      assert CensorFlags(times, low)[..n - 1] == CensorFlags(front, low);
    }
  }
}
