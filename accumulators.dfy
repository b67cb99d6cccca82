/** The accumulating aggregate functions. Each one owns a single result field
    that its Aggregate method updates in place; the ghost field `points` records
    the sample points fed to the instance since it was created, and Valid()
    ties the result to the fold of those points. */
module Accumulators {
  import opened Doubles
  import opened Reductions

  class Count {
    var result: nat
    ghost var points: seq<real>

    ghost predicate Valid()
      reads this
    {
      result == |points|
    }

    constructor ()
      ensures Valid() && points == [] && result == 0
    {
      result, points := 0, [];
    }

    method Aggregate(samplePoint: real)
      requires Valid()
      modifies this
      ensures Valid() && points == old(points) + [samplePoint]
      ensures result == old(result) + 1
    {
      result, points := result + 1, points + [samplePoint];
    }

    function GetResult(): (r: Value)
      requires Valid()
      reads this
      ensures r == Finite(|points| as real)
    {
      Finite(result as real)
    }
  }

  class Sum {
    var result: real
    ghost var points: seq<real>

    ghost predicate Valid()
      reads this
    {
      result == SumOf(points)
    }

    constructor ()
      ensures Valid() && points == [] && result == 0.0
    {
      result, points := 0.0, [];
    }

    method Aggregate(samplePoint: real)
      requires Valid()
      modifies this
      ensures Valid() && points == old(points) + [samplePoint]
      ensures result == old(result) + samplePoint
    {
      AppendOne(points, samplePoint);
      result, points := result + samplePoint, points + [samplePoint];
    }

    function GetResult(): (r: Value)
      requires Valid()
      reads this
      ensures r == Finite(SumOf(points))
    {
      Finite(result)
    }
  }

  class SumOfSquares {
    var result: real
    ghost var points: seq<real>

    ghost predicate Valid()
      reads this
    {
      result == SumOfSquaresOf(points)
    }

    constructor ()
      ensures Valid() && points == [] && result == 0.0
    {
      result, points := 0.0, [];
    }

    method Aggregate(samplePoint: real)
      requires Valid()
      modifies this
      ensures Valid() && points == old(points) + [samplePoint]
      ensures result == old(result) + samplePoint * samplePoint >= old(result)
    {
      AppendOne(points, samplePoint);
      result, points := result + samplePoint * samplePoint, points + [samplePoint];
    }

    function GetResult(): (r: Value)
      requires Valid()
      reads this
      ensures r == Finite(SumOfSquaresOf(points))
    {
      Finite(result)
    }
  }

  class Min {
    var result: Value
    ghost var points: seq<real>

    ghost predicate Valid()
      reads this
    {
      result == MinOf(points)
    }

    constructor ()
      ensures Valid() && points == [] && result == PosInf
    {
      result, points := PosInf, [];
    }

    method Aggregate(samplePoint: real)
      requires Valid()
      modifies this
      ensures Valid() && points == old(points) + [samplePoint]
      ensures result == if Less(Finite(samplePoint), old(result)) then Finite(samplePoint) else old(result)
      ensures !Less(old(result), result)
    {
      AppendOne(points, samplePoint);
      if Less(Finite(samplePoint), result) {
        result := Finite(samplePoint);
      }
      points := points + [samplePoint];
    }

    function GetResult(): (r: Value)
      requires Valid()
      reads this
      ensures r == MinOf(points)
    {
      result
    }
  }

  class Max {
    var result: Value
    ghost var points: seq<real>

    ghost predicate Valid()
      reads this
    {
      result == MaxOf(points)
    }

    constructor ()
      ensures Valid() && points == [] && result == NegInf
    {
      result, points := NegInf, [];
    }

    method Aggregate(samplePoint: real)
      requires Valid()
      modifies this
      ensures Valid() && points == old(points) + [samplePoint]
      ensures result == if Less(old(result), Finite(samplePoint)) then Finite(samplePoint) else old(result)
      ensures !Less(result, old(result))
    {
      AppendOne(points, samplePoint);
      if Less(result, Finite(samplePoint)) {
        result := Finite(samplePoint);
      }
      points := points + [samplePoint];
    }

    function GetResult(): (r: Value)
      requires Valid()
      reads this
      ensures r == MaxOf(points)
    {
      result
    }
  }

  /** The minimum written on the SimpleAggregateFunction base: the same seed
      and update as Min, but a distinct identity. */
  class Minimum {
    var result: Value
    ghost var points: seq<real>

    ghost predicate Valid()
      reads this
    {
      result == MinOf(points)
    }

    constructor ()
      ensures Valid() && points == [] && result == PosInf
    {
      result, points := PosInf, [];
    }

    method Aggregate(samplePoint: real)
      requires Valid()
      modifies this
      ensures Valid() && points == old(points) + [samplePoint]
      ensures result == if Less(Finite(samplePoint), old(result)) then Finite(samplePoint) else old(result)
      ensures !Less(old(result), result)
    {
      AppendOne(points, samplePoint);
      if Less(Finite(samplePoint), result) {
        result := Finite(samplePoint);
      }
      points := points + [samplePoint];
    }

    function GetResult(): (r: Value)
      requires Valid()
      reads this
      ensures r == MinOf(points)
    {
      result
    }
  }

  /** The maximum written on the SimpleAggregateFunction base: the same seed
      and update as Max, but a distinct identity. */
  class Maximum {
    var result: Value
    ghost var points: seq<real>

    ghost predicate Valid()
      reads this
    {
      result == MaxOf(points)
    }

    constructor ()
      ensures Valid() && points == [] && result == NegInf
    {
      result, points := NegInf, [];
    }

    method Aggregate(samplePoint: real)
      requires Valid()
      modifies this
      ensures Valid() && points == old(points) + [samplePoint]
      ensures result == if Less(old(result), Finite(samplePoint)) then Finite(samplePoint) else old(result)
      ensures !Less(result, old(result))
    {
      AppendOne(points, samplePoint);
      if Less(result, Finite(samplePoint)) {
        result := Finite(samplePoint);
      }
      points := points + [samplePoint];
    }

    function GetResult(): (r: Value)
      requires Valid()
      reads this
      ensures r == MaxOf(points)
    {
      result
    }
  }
}
