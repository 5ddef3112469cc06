/** The parts of Python's `math` and `statistics` modules that the regression
    uses. Their implementations are not visible, so they are carried as
    function values in a `MathLib` record, and `Valid()` states the only facts
    about them that the proofs rely on. Every fact is true of the real-valued
    functions they approximate. */
module Libm {

  /** `math.pi`, the double closest to pi. */
  const Pi: real := 3.141592653589793

  datatype MathLib = MathLib(
    exp: real -> real,         // math.exp
    erfc: real -> real,        // math.erfc
    log: real -> real,         // math.log
    sqrt: real -> real,        // math.sqrt
    stdev: seq<real> -> real)  // statistics.stdev
  {
    ghost predicate Valid() {
      && (forall x :: exp(x) > 0.0)
      && (forall x :: 0.0 < erfc(x) < 2.0)
      && (forall x :: x > 0.0 ==> sqrt(x) > 0.0 && sqrt(x) * sqrt(x) == x)
      && (forall s :: |s| >= 2 ==> stdev(s) >= 0.0)
    }
  }

  /** `p` is the positive inverse square root of `r`. */
  ghost predicate IsInvSqrt(p: real, r: real) {
    p > 0.0 && p * p * r == 1.0
  }

  /** `r ** -0.5`; Python raises for `0.0 ** -0.5`, hence the precondition. */
  function InvSqrt(lib: MathLib, r: real): (p: real)
    requires lib.Valid() && r > 0.0
    ensures p > 0.0 && p * p * r == 1.0
    ensures IsInvSqrt(p, r)
  {
    var s := lib.sqrt(r);
    assert s * s == r;
    1.0 / s
  }

  /** sqrt(2 pi) is sqrt(2) times sqrt(pi): both sides are positive square roots of 2 pi. */
  lemma SqrtTwoPi(lib: MathLib)
    requires lib.Valid()
    ensures lib.sqrt(2.0 * Pi) == lib.sqrt(2.0) * lib.sqrt(Pi)
  {
    var a, b, c := lib.sqrt(2.0 * Pi), lib.sqrt(2.0), lib.sqrt(Pi);
    assert a > 0.0 && a * a == 2.0 * Pi;
    assert b > 0.0 && b * b == 2.0;
    assert c > 0.0 && c * c == Pi;
    assert (b * c) * (b * c) == (b * b) * (c * c);
    SquareRootUnique(a, b * c);
  }

  lemma SquareRootUnique(a: real, b: real)
    requires a > 0.0 && b > 0.0 && a * a == b * b
    ensures a == b
  {
    assert (a - b) * (a + b) == a * a - b * b;
  }

  // Two facts about real products that several modules use.

  lemma SquarePositive(x: real)
    requires x != 0.0
    ensures x * x > 0.0
  {
  }

  lemma ZeroProduct(u: real, d: real)
    requires d != 0.0 && u * d == 0.0
    ensures u == 0.0
  {
    assert u == (u * d) / d;
  }
}
