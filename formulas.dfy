/** What each statistic denotes for the points it has been fed: the
    accumulating ones are the folds of Reductions, the derived ones combine
    them with double arithmetic exactly as their GetResult methods do. */
module Formulas {
  import opened Doubles
  import opened Reductions
  import opened Registration

  function AverageOf(ps: seq<real>): Value
  {
    Div(Finite(SumOf(ps)), Finite(|ps| as real))
  }

  function UncorrectedVarianceOf(ps: seq<real>): Value
  {
    var mean := AverageOf(ps);
    Sub(Div(Finite(SumOfSquaresOf(ps)), Finite(|ps| as real)), Mul(mean, mean))
  }

  function UnbiasedVarianceOf(ps: seq<real>): Value
  {
    var count := Finite(|ps| as real);
    Div(Mul(UncorrectedVarianceOf(ps), count), Sub(count, Finite(1.0)))
  }

  /** The result of the statistic t over the points ps. */
  function StatOf(t: Tag, ps: seq<real>): Value
  {
    match t
    case CountTag => Finite(|ps| as real)
    case SumTag => Finite(SumOf(ps))
    case SumOfSquaresTag => Finite(SumOfSquaresOf(ps))
    case MinTag => MinOf(ps)
    case MinimumTag => MinOf(ps)
    case MaxTag => MaxOf(ps)
    case MaximumTag => MaxOf(ps)
    case AverageTag => AverageOf(ps)
    case UncorrectedVarianceTag => UncorrectedVarianceOf(ps)
    case UnbiasedVarianceTag => UnbiasedVarianceOf(ps)
  }

  /** An empty population gives a NaN mean and NaN variances (0/0), never an
      error; a single point gives a NaN sample variance (0 * 1 / 0). */
  lemma BoundaryResults(ps: seq<real>)
    ensures |ps| == 0 ==> AverageOf(ps) == NaN && UncorrectedVarianceOf(ps) == NaN
    ensures |ps| == 0 ==> UnbiasedVarianceOf(ps) == NaN
    ensures |ps| == 1 ==> UnbiasedVarianceOf(ps) == NaN
  {
    if |ps| == 1 {
      var x := ps[0];
      assert ps == [] + [x];
      AppendOne([], x);
    }
  }

  /** The sum of squared deviations from any x, expanded. */
  lemma {:induction false} DeviationsNonNegative(ps: seq<real>, x: real)
    ensures SumOfSquaresOf(ps) - 2.0 * x * SumOf(ps) + |ps| as real * x * x >= 0.0
  {
    if ps != [] {
      var n := |ps|;
      var ps', p := ps[..n - 1], ps[n - 1];
      DeviationsNonNegative(ps', x);
      assert SumOf(ps) == SumOf(ps') + p;
      assert SumOfSquaresOf(ps) == SumOfSquaresOf(ps') + p * p;
      var k := (n - 1) as real;
      assert n as real * x * x == k * x * x + x * x;
      assert 2.0 * x * SumOf(ps) == 2.0 * x * SumOf(ps') + 2.0 * x * p;
      assert p * p - 2.0 * x * p + x * x == (p - x) * (p - x) >= 0.0;
    }
  }

  /** n * (sum of squares) >= (sum)^2, the inequality behind a non-negative variance. */
  lemma {:induction false} SpreadNonNegative(ps: seq<real>)
    ensures |ps| as real * SumOfSquaresOf(ps) - SumOf(ps) * SumOf(ps) >= 0.0
  {
    if ps != [] {
      var n := |ps|;
      var ps', x := ps[..n - 1], ps[n - 1];
      SpreadNonNegative(ps');
      DeviationsNonNegative(ps', x);
      var k, q, s := (n - 1) as real, SumOfSquaresOf(ps'), SumOf(ps');
      assert SumOf(ps) == s + x && SumOfSquaresOf(ps) == q + x * x;
      calc {
        n as real * (q + x * x) - (s + x) * (s + x);
        (k * q - s * s) + (q - 2.0 * x * s + k * x * x);
      }
    }
  }

  /** Over a non-empty population the population variance is finite and never
      negative; over two or more points so is the sample variance. */
  lemma VarianceNonNegative(ps: seq<real>)
    requires ps != []
    ensures UncorrectedVarianceOf(ps).Finite? && UncorrectedVarianceOf(ps).v >= 0.0
    ensures |ps| >= 2 ==> UnbiasedVarianceOf(ps).Finite? && UnbiasedVarianceOf(ps).v >= 0.0
  {
    var n, s, q := |ps| as real, SumOf(ps), SumOfSquaresOf(ps);
    SpreadNonNegative(ps);
    var mean := s / n;
    assert AverageOf(ps) == Finite(mean);
    var v := q / n - mean * mean;
    assert UncorrectedVarianceOf(ps) == Finite(v);
    assert v * (n * n) == n * q - s * s by {
      assert (q / n) * n == q && mean * n == s;
      calc {
        v * (n * n);
        ((q / n) * n) * n - (mean * n) * (mean * n);
      }
    }
    assert v >= 0.0 by {
      assert n * q - s * s >= 0.0 && n * n > 0.0;
    }
    if |ps| >= 2 {
      assert UnbiasedVarianceOf(ps) == Finite(v * n / (n - 1.0));
      assert v * n >= 0.0;
    }
  }

  /** Every statistic is independent of the order in which the points arrive. */
  lemma StatPermutation(t: Tag, a: seq<real>, b: seq<real>)
    requires multiset(a) == multiset(b)
    ensures StatOf(t, a) == StatOf(t, b)
  {
    assert |a| == |multiset(a)| == |multiset(b)| == |b|;
    SumOverPermutation(Identity, a, b);
    SumOverPermutation(Square, a, b);
    MinOfPermutation(a, b);
    MaxOfPermutation(a, b);
  }

  /** The data set a, b, c, d, e fed point by point. */
  lemma FeedFive(a: real, b: real, c: real, d: real, e: real)
    ensures SumOf([a, b, c, d, e]) == a + b + c + d + e
    ensures SumOfSquaresOf([a, b, c, d, e]) == a * a + b * b + c * c + d * d + e * e
    ensures MinOf([a, b, c, d, e]) == MinOf([a, b, c, d] + [e])
    ensures MaxOf([a, b, c, d, e]) == MaxOf([a, b, c, d] + [e])
  {
    AppendOne([], a);
    assert [] + [a] == [a];
    AppendOne([a], b);
    assert [a] + [b] == [a, b];
    AppendOne([a, b], c);
    assert [a, b] + [c] == [a, b, c];
    AppendOne([a, b, c], d);
    assert [a, b, c] + [d] == [a, b, c, d];
    AppendOne([a, b, c, d], e);
    assert [a, b, c, d] + [e] == [a, b, c, d, e];
  }

  /** Min and Max of a data set fed point by point. */
  lemma ExtremesOfFive(a: real, b: real, c: real, d: real, e: real)
    ensures MinOf([a, b, c, d, e]) == Finite(Lesser(a, Lesser(b, Lesser(c, Lesser(d, e)))))
    ensures MaxOf([a, b, c, d, e]) == Finite(Greater(a, Greater(b, Greater(c, Greater(d, e)))))
  {
    var ps := [a, b, c, d, e];
    MinOfIsLeast(ps);
    MaxOfIsGreatest(ps);
    assert a in ps && b in ps && c in ps && d in ps && e in ps;
    var lo, hi := MinOf(ps).v, MaxOf(ps).v;
    assert lo == a || lo == b || lo == c || lo == d || lo == e;
    assert hi == a || hi == b || hi == c || hi == d || hi == e;
  }

  function Lesser(x: real, y: real): real { if x <= y then x else y }

  function Greater(x: real, y: real): real { if x >= y then x else y }

  /** The expected values of the repository's tests for the data set
      {0, 2, -9, 99, -3}. */
  lemma FirstDataSet()
    ensures var ps := [0.0, 2.0, -9.0, 99.0, -3.0];
      && StatOf(MinTag, ps) == Finite(-9.0) && StatOf(MaxTag, ps) == Finite(99.0)
      && StatOf(CountTag, ps) == Finite(5.0) && StatOf(SumTag, ps) == Finite(89.0)
      && StatOf(AverageTag, ps) == Finite(17.8) && StatOf(SumOfSquaresTag, ps) == Finite(9895.0)
      && StatOf(UncorrectedVarianceTag, ps) == Finite(1662.16)
      && StatOf(UnbiasedVarianceTag, ps) == Finite(2077.7)
  {
    FeedFive(0.0, 2.0, -9.0, 99.0, -3.0);
    ExtremesOfFive(0.0, 2.0, -9.0, 99.0, -3.0);
  }

  /** The expected values for the data set {2, 0, -5, 7, -3}. */
  lemma SecondDataSet()
    ensures var ps := [2.0, 0.0, -5.0, 7.0, -3.0];
      && StatOf(MinTag, ps) == Finite(-5.0) && StatOf(MaxTag, ps) == Finite(7.0)
      && StatOf(CountTag, ps) == Finite(5.0) && StatOf(SumTag, ps) == Finite(1.0)
      && StatOf(AverageTag, ps) == Finite(0.2) && StatOf(SumOfSquaresTag, ps) == Finite(87.0)
      && StatOf(UncorrectedVarianceTag, ps) == Finite(17.36)
      && StatOf(UnbiasedVarianceTag, ps) == Finite(21.7)
  {
    FeedFive(2.0, 0.0, -5.0, 7.0, -3.0);
    ExtremesOfFive(2.0, 0.0, -5.0, 7.0, -3.0);
  }
}
