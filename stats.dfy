/**
 * The sample statistics the covariance calculator relies on: sums, means and
 * the unbiased sample covariance (denominator n - 1) of two aligned series.
 */
module Stats {

  function Sum(xs: seq<real>): real
  {
    if xs == [] then 0.0 else xs[0] + Sum(xs[1..])
  }

  function Mean(xs: seq<real>): real
    requires |xs| > 0
  {
    Sum(xs) / |xs| as real
  }

  /** Sum of x[k] * y[k]. */
  function SumOfProducts(xs: seq<real>, ys: seq<real>): real
    requires |xs| == |ys|
  {
    if xs == [] then 0.0 else xs[0] * ys[0] + SumOfProducts(xs[1..], ys[1..])
  }

  /** Sum of (x[k] - a) * (y[k] - b). */
  function CrossDeviation(xs: seq<real>, ys: seq<real>, a: real, b: real): real
    requires |xs| == |ys|
  {
    if xs == [] then 0.0 else (xs[0] - a) * (ys[0] - b) + CrossDeviation(xs[1..], ys[1..], a, b)
  }

  /** Unbiased sample covariance: deviations from the means, divided by n - 1. */
  function SampleCov(xs: seq<real>, ys: seq<real>): real
    requires |xs| == |ys| >= 2
  {
    CrossDeviation(xs, ys, Mean(xs), Mean(ys)) / (|xs| - 1) as real
  }

  lemma {:induction false} CrossDeviationSymmetric(xs: seq<real>, ys: seq<real>, a: real, b: real)
    requires |xs| == |ys|
    ensures CrossDeviation(xs, ys, a, b) == CrossDeviation(ys, xs, b, a)
  {
    if xs != [] {
      CrossDeviationSymmetric(xs[1..], ys[1..], a, b);
    }
  }

  /** The covariance of two series does not depend on their order. */
  lemma SampleCovSymmetric(xs: seq<real>, ys: seq<real>)
    requires |xs| == |ys| >= 2
    ensures SampleCov(xs, ys) == SampleCov(ys, xs)
  {
    CrossDeviationSymmetric(xs, ys, Mean(xs), Mean(ys));
  }

  lemma {:induction false} SquaredDeviationNonnegative(xs: seq<real>, a: real)
    ensures CrossDeviation(xs, xs, a, a) >= 0.0
  {
    if xs != [] {
      SquaredDeviationNonnegative(xs[1..], a);
      assert (xs[0] - a) * (xs[0] - a) >= 0.0;
    }
  }

  /** A sample variance is never negative. */
  lemma SampleVarianceNonnegative(xs: seq<real>)
    requires |xs| >= 2
    ensures SampleCov(xs, xs) >= 0.0
  {
    SquaredDeviationNonnegative(xs, Mean(xs));
  }

  /** sp - b*sx - a*sy + n*a*b: the cross deviation about (a, b) of two
      series of length n, written with their sums. */
  function Expanded(sp: real, sx: real, sy: real, n: real, a: real, b: real): real
  {
    sp - b * sx - a * sy + n * a * b
  }

  lemma ExpandedStep(x0: real, y0: real, a: real, b: real, sp: real, sx: real, sy: real, n: real, cd: real)
    requires cd == Expanded(sp, sx, sy, n, a, b)
    ensures (x0 - a) * (y0 - b) + cd == Expanded(x0 * y0 + sp, x0 + sx, y0 + sy, n + 1.0, a, b)
  {
    assert (x0 - a) * (y0 - b) == x0 * y0 - b * x0 - a * y0 + a * b;
    assert b * (x0 + sx) == b * x0 + b * sx;
    assert a * (y0 + sy) == a * y0 + a * sy;
    assert (n + 1.0) * a * b == n * a * b + a * b;
  }

  lemma {:induction false} CrossDeviationExpanded(xs: seq<real>, ys: seq<real>, a: real, b: real)
    requires |xs| == |ys|
    ensures CrossDeviation(xs, ys, a, b) == Expanded(SumOfProducts(xs, ys), Sum(xs), Sum(ys), |xs| as real, a, b)
  {
    if xs != [] {
      var xt, yt := xs[1..], ys[1..];
      CrossDeviationExpanded(xt, yt, a, b);
      ExpandedStep(xs[0], ys[0], a, b, SumOfProducts(xt, yt), Sum(xt), Sum(yt), |xt| as real,
                   CrossDeviation(xt, yt, a, b));
      assert SumOfProducts(xs, ys) == xs[0] * ys[0] + SumOfProducts(xt, yt);
      assert Sum(xs) == xs[0] + Sum(xt);
      assert Sum(ys) == ys[0] + Sum(yt);
      assert |xs| as real == |xt| as real + 1.0;
    }
  }

  /** The algebra behind the shortcut formula, on plain numbers: with the
      means a = sx / n and b = sy / n, the expanded cross deviation `cd`
      divided by n - 1 is the shortcut value. */
  lemma ShortcutAlgebra(sp: real, sx: real, sy: real, n: real, a: real, b: real, cd: real)
    requires n > 1.0 && a == sx / n && b == sy / n
    requires cd == Expanded(sp, sx, sy, n, a, b)
    ensures cd / (n - 1.0) == ShortcutCov(sp, sx, sy, n)
  {
    assert n * a == sx && n * b == sy;
    var nab := n * a * b;
    assert b * sx == nab by { assert b * sx == b * (n * a); }
    assert a * sy == nab by { assert a * sy == a * (n * b); }
    assert sx * sy / n == nab by { assert sx * sy == (n * a) * (n * b); }
    assert cd == sp - sx * sy / n;
  }

  /** The textbook shortcut formula for the sample covariance, from the sum
      of products `sp`, the two sums `sx`, `sy` and the length `n`. */
  function ShortcutCov(sp: real, sx: real, sy: real, n: real): real
    requires n > 1.0
  {
    (sp - sx * sy / n) / (n - 1.0)
  }

  /** The definition by deviations from the means agrees with the shortcut
      formula (sum of x*y - (sum of x)(sum of y) / n) / (n - 1). */
  lemma SampleCovShortcut(xs: seq<real>, ys: seq<real>)
    requires |xs| == |ys| >= 2
    ensures SampleCov(xs, ys) == ShortcutCov(SumOfProducts(xs, ys), Sum(xs), Sum(ys), |xs| as real)
  {
    CrossDeviationExpanded(xs, ys, Mean(xs), Mean(ys));
    ShortcutAlgebra(SumOfProducts(xs, ys), Sum(xs), Sum(ys), |xs| as real, Mean(xs), Mean(ys),
                    CrossDeviation(xs, ys, Mean(xs), Mean(ys)));
  }
}
