/** Linear interpolation through two points, over exact reals. */
module MathPlus {
  import opened Wrappers

  datatype Error = DivideByZero

  /** The ordinate at x of the straight line through (x1, y1) and (x2, y2);
      two points with the same abscissa define no such line. */
  function Interpolate(x1: real, y1: real, x2: real, y2: real, x: real): (r: Result<real, Error>)
    ensures r.Failure? <==> x1 == x2
    ensures r.Failure? ==> r.error == DivideByZero
  {
    if x1 == x2 then Failure(DivideByZero)
    else Success(y1 + (y2 - y1) * (x - x1) / (x2 - x1))
  }

  /** The line passes through both points it was given. */
  lemma InterpolateEndpoints(x1: real, y1: real, x2: real, y2: real)
    requires x1 != x2
    ensures Interpolate(x1, y1, x2, y2, x1) == Success(y1)
    ensures Interpolate(x1, y1, x2, y2, x2) == Success(y2)
  {
    assert (y2 - y1) * (x2 - x1) / (x2 - x1) == y2 - y1;
  }

  /** For every x, inside the interval or outside it, the result is the one
      ordinate that makes (x, r) collinear with the two points. */
  lemma InterpolateCollinear(x1: real, y1: real, x2: real, y2: real, x: real, y: real)
    requires x1 != x2
    ensures Interpolate(x1, y1, x2, y2, x) == Success(y)
        <==> (y - y1) * (x2 - x1) == (y2 - y1) * (x - x1)
  {
    var d, k := x2 - x1, (y2 - y1) * (x - x1);
    assert Interpolate(x1, y1, x2, y2, x) == Success(y1 + k / d);
    assert (k / d) * d == k;
    if (y - y1) * d == k {
      assert y - y1 == k / d;
    }
  }

  /** Swapping the two points describes the same line. */
  lemma InterpolateSymmetric(x1: real, y1: real, x2: real, y2: real, x: real)
    ensures Interpolate(x1, y1, x2, y2, x) == Interpolate(x2, y2, x1, y1, x)
  {
    if x1 != x2 {
      var r := Interpolate(x1, y1, x2, y2, x).value;
      InterpolateCollinear(x1, y1, x2, y2, x, r);
      InterpolateCollinear(x2, y2, x1, y1, x, r);
      assert (r - y2) * (x1 - x2) == (y1 - y2) * (x - x2) by {
        assert (r - y1) * (x2 - x1) == (y2 - y1) * (x - x1);
      }
    }
  }
}
