/** Left folds over the sample points seen so far. Each one is the value an
    accumulating statistic holds after the points were fed to it in order, so
    appending one point unfolds exactly one update step. */
module Reductions {
  import opened Doubles

  function Identity(x: real): real { x }

  function Square(x: real): real { x * x }

  /** The sum of f over the points, folded from the left. */
  function SumOver(f: real -> real, ps: seq<real>): real
  {
    if ps == [] then 0.0 else SumOver(f, ps[..|ps| - 1]) + f(ps[|ps| - 1])
  }

  /** What the Sum accumulator holds after the points. */
  function SumOf(ps: seq<real>): real
  {
    SumOver(Identity, ps)
  }

  /** What the SumOfSquares accumulator holds after the points. */
  function SumOfSquaresOf(ps: seq<real>): real
  {
    SumOver(Square, ps)
  }

  /** What the Min accumulator holds: seeded with +Infinity, replaced by every
      point that compares below it. */
  function MinOf(ps: seq<real>): Value
  {
    if ps == [] then PosInf
    else
      var m := MinOf(ps[..|ps| - 1]);
      if Less(Finite(ps[|ps| - 1]), m) then Finite(ps[|ps| - 1]) else m
  }

  /** What the Max accumulator holds: seeded with -Infinity, replaced by every
      point that compares above it. */
  function MaxOf(ps: seq<real>): Value
  {
    if ps == [] then NegInf
    else
      var m := MaxOf(ps[..|ps| - 1]);
      if Less(m, Finite(ps[|ps| - 1])) then Finite(ps[|ps| - 1]) else m
  }

  /** Feeding one more point is one update step of every fold. */
  lemma AppendOne(ps: seq<real>, x: real)
    ensures SumOf(ps + [x]) == SumOf(ps) + x
    ensures SumOfSquaresOf(ps + [x]) == SumOfSquaresOf(ps) + x * x
    ensures MinOf(ps + [x]) == if Less(Finite(x), MinOf(ps)) then Finite(x) else MinOf(ps)
    ensures MaxOf(ps + [x]) == if Less(MaxOf(ps), Finite(x)) then Finite(x) else MaxOf(ps)
  {
    assert (ps + [x])[..|ps|] == ps;
  }

  lemma {:induction false} SumOverAppend(f: real -> real, a: seq<real>, b: seq<real>)
    ensures SumOver(f, a + b) == SumOver(f, a) + SumOver(f, b)
    decreases |b|
  {
    if b != [] {
      var b' := b[..|b| - 1];
      assert (a + b)[..|a + b| - 1] == a + b';
      SumOverAppend(f, a, b');
    } else {
      assert a + b == a;
    }
  }

  lemma CancelOne(a: seq<real>, x: real, l: seq<real>, r: seq<real>)
    requires multiset(a + [x]) == multiset(l + [x] + r)
    ensures multiset(a) == multiset(l + r)
  {
    calc {
      multiset(a);
      multiset(a + [x]) - multiset{x};
      multiset(l + [x] + r) - multiset{x};
      multiset(l + r);
    }
  }

  lemma SumOverRemove(f: real -> real, l: seq<real>, x: real, r: seq<real>)
    ensures SumOver(f, l + [x] + r) == SumOver(f, l + r) + f(x)
  {
    SumOverAppend(f, l + [x], r);
    SumOverAppend(f, l, r);
    assert (l + [x])[..|l + [x]| - 1] == l;
  }

  /** A sum over the points does not depend on the order they were fed in. */
  lemma {:induction false} SumOverPermutation(f: real -> real, a: seq<real>, b: seq<real>)
    requires multiset(a) == multiset(b)
    ensures SumOver(f, a) == SumOver(f, b)
    decreases |a|
  {
    if a == [] {
      assert |multiset(b)| == 0;
    } else {
      var a', x := a[..|a| - 1], a[|a| - 1];
      assert a == a' + [x];
      assert x in multiset(b);
      var j :| 0 <= j < |b| && b[j] == x;
      var l, r := b[..j], b[j + 1..];
      assert b == l + [x] + r;
      CancelOne(a', x, l, r);
      SumOverPermutation(f, a', l + r);
      SumOverRemove(f, l, x, r);
    }
  }

  /** Every point is in the sample, so the Min accumulator ends at the least one. */
  lemma {:induction false} MinOfIsLeast(ps: seq<real>)
    ensures ps == [] <==> MinOf(ps) == PosInf
    ensures ps != [] ==> MinOf(ps).Finite? && MinOf(ps).v in ps
    ensures ps != [] ==> forall p :: p in ps ==> MinOf(ps).v <= p
  {
    if ps != [] {
      var ps' := ps[..|ps| - 1];
      assert ps == ps' + [ps[|ps| - 1]];
      MinOfIsLeast(ps');
    }
  }

  /** Every point is in the sample, so the Max accumulator ends at the greatest one. */
  lemma {:induction false} MaxOfIsGreatest(ps: seq<real>)
    ensures ps == [] <==> MaxOf(ps) == NegInf
    ensures ps != [] ==> MaxOf(ps).Finite? && MaxOf(ps).v in ps
    ensures ps != [] ==> forall p :: p in ps ==> p <= MaxOf(ps).v
  {
    if ps != [] {
      var ps' := ps[..|ps| - 1];
      assert ps == ps' + [ps[|ps| - 1]];
      MaxOfIsGreatest(ps');
    }
  }

  /** Min depends only on which points were fed, not on their order. */
  lemma MinOfPermutation(a: seq<real>, b: seq<real>)
    requires multiset(a) == multiset(b)
    ensures MinOf(a) == MinOf(b)
  {
    MinOfIsLeast(a);
    MinOfIsLeast(b);
    if a != [] {
      assert MinOf(a).v in multiset(b) && MinOf(b).v in multiset(a);
      assert MinOf(a).v in b && MinOf(b).v in a;
      assert MinOf(a).v == MinOf(b).v;
    } else {
      assert |multiset(b)| == 0;
    }
  }

  /** Max depends only on which points were fed, not on their order. */
  lemma MaxOfPermutation(a: seq<real>, b: seq<real>)
    requires multiset(a) == multiset(b)
    ensures MaxOf(a) == MaxOf(b)
  {
    MaxOfIsGreatest(a);
    MaxOfIsGreatest(b);
    if a != [] {
      assert MaxOf(a).v in multiset(b) && MaxOf(b).v in multiset(a);
      assert MaxOf(a).v in b && MaxOf(b).v in a;
      assert MaxOf(a).v == MaxOf(b).v;
    } else {
      assert |multiset(b)| == 0;
    }
  }

  /** A sum of squares is never negative. */
  lemma {:induction false} SumOfSquaresNonNegative(ps: seq<real>)
    ensures SumOfSquaresOf(ps) >= 0.0
  {
    if ps != [] {
      SumOfSquaresNonNegative(ps[..|ps| - 1]);
    }
  }

  /** One step of SumAboveMin and SumBelowMax: a bound that holds for k points and for
      the next point holds for k + 1 points. */
  lemma ScaledBoundStep(lo: real, lo': real, s: real, x: real, k: real)
    requires k >= 0.0 && lo <= lo' && lo <= x && lo' * k <= s
    ensures lo * (k + 1.0) <= s + x
  {
    assert (lo' - lo) * k >= 0.0;
  }

  /** The sum is at least |ps| times the least point. */
  lemma {:induction false} SumAboveMin(ps: seq<real>)
    requires ps != []
    ensures MinOf(ps).Finite? && MinOf(ps).v * |ps| as real <= SumOf(ps)
  {
    var n := |ps|;
    var ps', x := ps[..n - 1], ps[n - 1];
    assert SumOf(ps) == SumOf(ps') + x;
    if ps' == [] {
      assert MinOf(ps') == PosInf;
    } else {
      SumAboveMin(ps');
      ScaledBoundStep(MinOf(ps).v, MinOf(ps').v, SumOf(ps'), x, (n - 1) as real);
    }
  }

  /** The sum is at most |ps| times the greatest point. */
  lemma {:induction false} SumBelowMax(ps: seq<real>)
    requires ps != []
    ensures MaxOf(ps).Finite? && SumOf(ps) <= MaxOf(ps).v * |ps| as real
  {
    var n := |ps|;
    var ps', x := ps[..n - 1], ps[n - 1];
    assert SumOf(ps) == SumOf(ps') + x;
    if ps' == [] {
      assert MaxOf(ps') == NegInf;
    } else {
      SumBelowMax(ps');
      ScaledBoundStep(-MaxOf(ps).v, -MaxOf(ps').v, -SumOf(ps'), -x, (n - 1) as real);
    }
  }
}
