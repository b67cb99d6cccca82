/** Moving averages over a stream of data points, over exact reals. A fixed
    window keeps a constant number of points and a running value; a flexible
    window keeps every point until its size is set lower. The dimensional
    variants add a step between points on the abscissa, e.g. a time step. */
module MovingAverages {
  import opened Wrappers
  import opened Doubles
  import opened Reductions
  import Formulas

  datatype Error = ArgumentOutOfRange

  /** Math.Round on a quotient: the nearest integer, ties to the even one. */
  function RoundHalfEven(q: real): (n: int)
    ensures q - 0.5 <= n as real <= q + 0.5
    ensures (n as real - q == 0.5 || q - n as real == 0.5) ==> n % 2 == 0
  {
    var f := q.Floor;
    var frac := q - f as real;
    if frac < 0.5 then f
    else if frac > 0.5 then f + 1
    else if f % 2 == 0 then f
    else f + 1
  }

  /** The smallest integer that is not below q (Math.Ceiling). */
  function Ceiling(q: real): (n: int)
    ensures q <= n as real < q + 1.0
  {
    -((-q).Floor)
  }

  /** The number of points spanning intendedSize when consecutive points are
      stepSize apart, or an error when either is not positive. */
  function GetSizeDiscrete(intendedSize: real, stepSize: real): (r: Result<int, Error>)
    ensures r.Failure? <==> intendedSize <= 0.0 || stepSize <= 0.0
    ensures r.Failure? ==> r.error == ArgumentOutOfRange
    ensures r.Success? ==> r.value >= 1
  {
    if intendedSize <= 0.0 || stepSize <= 0.0 then Failure(ArgumentOutOfRange)
    else
      var size := RoundHalfEven(intendedSize / stepSize);
      Success(if size < 1 then 1 else size)
  }

  /** The size is the whole number of steps nearest to intendedSize; a span
      shorter than half a step still gets one point. */
  lemma SizeDiscreteNearest(intendedSize: real, stepSize: real)
    requires intendedSize > 0.0 && stepSize > 0.0
    ensures var n := GetSizeDiscrete(intendedSize, stepSize).value as real;
      intendedSize >= 0.5 * stepSize ==>
        intendedSize - 0.5 * stepSize <= n * stepSize <= intendedSize + 0.5 * stepSize
    ensures intendedSize < 0.5 * stepSize ==> GetSizeDiscrete(intendedSize, stepSize).value == 1
  {
    var q := intendedSize / stepSize;
    Quotient(intendedSize, stepSize);
    var k := RoundHalfEven(q);
    var n := GetSizeDiscrete(intendedSize, stepSize).value as real;
    assert n == if k < 1 then 1.0 else k as real;
    if intendedSize >= 0.5 * stepSize {
      assert q >= 0.5;
      assert k < 1 ==> k == 0 && q == 0.5 && n == 1.0;
      assert -0.5 <= n - q <= 0.5;
      ScaledNear(intendedSize, stepSize, n, 0.5);
    } else {
      assert q < 0.5;
      assert k < 1;
    }
  }

  /** A quotient of positives, scaled back, and compared with a half. */
  lemma Quotient(a: real, s: real)
    requires a > 0.0 && s > 0.0
    ensures (a / s) * s == a
    ensures a >= 0.5 * s <==> a / s >= 0.5
  {
    var q := a / s;
    assert q * s == a;
    assert (q - 0.5) * s == a - 0.5 * s;
    if q >= 0.5 {
      assert (q - 0.5) * s >= 0.0;
    } else {
      assert (0.5 - q) * s > 0.0;
    }
  }

  /** How far the average of a window of n consecutive points lags behind
      its newest point, in points. */
  function GetDelay(sizeDiscrete: int): (r: real)
    ensures 2.0 * r == (sizeDiscrete - 1) as real
  {
    0.5 * (sizeDiscrete - 1) as real
  }

  /** The offsets 0, 1, ..., n - 1 of the points of a window of n points. */
  function Offsets(n: nat): seq<real>
  {
    seq(n, i => i as real)
  }

  /** The delay of a window is the mean offset of its points from the oldest
      one: the point of the signal that the average stands for. */
  lemma {:induction false} DelayIsMeanOffset(n: nat)
    ensures SumOf(Offsets(n)) == n as real * GetDelay(n)
  {
    if n > 0 {
      assert Offsets(n)[..n - 1] == Offsets(n - 1);
      DelayIsMeanOffset(n - 1);
    }
  }

  /** What a fixed window of n points holds after the points fed: it starts
      as n zeros, and every point pushes out the oldest one. */
  function Window(n: nat, fed: seq<real>): (w: seq<real>)
    ensures |w| == n
  {
    (seq(n, _ => 0.0) + fed)[|fed|..]
  }

  /** Feeding one point drops the oldest point of the window and appends the new one. */
  lemma WindowShift(n: nat, fed: seq<real>, x: real)
    requires n >= 1
    ensures Window(n, fed + [x]) == Window(n, fed)[1..] + [x]
  {
    var z := seq(n, _ => 0.0);
    assert z + (fed + [x]) == (z + fed) + [x];
  }

  /** Once n points have been fed, the window holds exactly the last n of them;
      before that it holds leading zeros and then every point fed. */
  lemma WindowContents(n: nat, fed: seq<real>)
    ensures |fed| >= n ==> Window(n, fed) == fed[|fed| - n..]
    ensures |fed| < n ==> Window(n, fed) == seq(n - |fed|, _ => 0.0) + fed
  {
  }

  /** The sum over a window with its oldest point dropped and a new one added. */
  lemma {:induction false} SumShift(b: seq<real>, x: real)
    requires b != []
    ensures SumOf(b[1..] + [x]) == SumOf(b) - b[0] + x
  {
    SumOverAppend(Identity, [b[0]], b[1..]);
    assert [b[0]] + b[1..] == b;
    assert SumOf([b[0]]) == b[0] by {
      assert [b[0]][..0] == [];
    }
    AppendOne(b[1..], x);
  }

  /** A moving average over a constant number of points, kept up to date with
      one subtraction and one addition per point. */
  class MovingAverageFixed {
    const sizeDiscrete: int
    const delayDiscrete: real
    const weight: real
    var buffer: seq<real>
    var value: real
    /** Every point fed since construction, oldest first. */
    ghost var fed: seq<real>

    ghost predicate Valid()
      reads this
    {
      && sizeDiscrete >= 1
      && delayDiscrete == GetDelay(sizeDiscrete)
      && weight == 1.0 / sizeDiscrete as real
      && buffer == Window(sizeDiscrete, fed)
      && value == SumOf(buffer) / sizeDiscrete as real
    }

    constructor (size: int)
      requires size >= 1
      ensures Valid() && sizeDiscrete == size && fed == []
      ensures buffer == seq(size, _ => 0.0) && value == 0.0
    {
      sizeDiscrete := size;
      delayDiscrete := GetDelay(size);
      weight := 1.0 / size as real;
      value := 0.0;
      buffer := seq(size, _ => 0.0);
      fed := [];
      new;
      ZerosSum(size);
      assert seq(size, _ => 0.0) + [] == seq(size, _ => 0.0);
    }

    /** A window of size points, all zero, or an error when size is below one. */
    static method Create(size: int) returns (r: Result<MovingAverageFixed, Error>)
      ensures r.Failure? <==> size < 1
      ensures r.Failure? ==> r.error == ArgumentOutOfRange
      ensures r.Success? ==> fresh(r.value) && r.value.Valid() && r.value.sizeDiscrete == size
      ensures r.Success? ==> r.value.fed == [] && r.value.Value() == 0.0
    {
      if size < 1 {
        return Failure(ArgumentOutOfRange);
      }
      var m := new MovingAverageFixed(size);
      return Success(m);
    }

    /** Dequeues the oldest point, enqueues the new one and corrects the
        running value by the difference of the two. */
    method AddDatum(newDatum: real)
      requires Valid()
      modifies this
      ensures Valid() && fed == old(fed) + [newDatum]
      ensures buffer == old(buffer)[1..] + [newDatum]
      ensures value == old(value) + (newDatum - old(buffer)[0]) * weight
    {
      var oldest := buffer[0];
      value := value + (newDatum - oldest) * weight;
      buffer := buffer[1..] + [newDatum];
      fed := fed + [newDatum];
      WindowShift(sizeDiscrete, old(fed), newDatum);
      SumShift(old(buffer), newDatum);
      RunningMean(old(SumOf(buffer)), oldest, newDatum, sizeDiscrete as real);
    }

    /** The mean of the last sizeDiscrete points fed, with zeros standing in
        for the points not yet fed. */
    function Value(): (v: real)
      requires Valid()
      reads this
      ensures v * sizeDiscrete as real == SumOf(Window(sizeDiscrete, fed))
      ensures |fed| >= sizeDiscrete ==> v * sizeDiscrete as real == SumOf(fed[|fed| - sizeDiscrete..])
    {
      WindowContents(sizeDiscrete, fed);
      value
    }
  }

  lemma {:induction false} ZerosSum(n: nat)
    ensures SumOf(seq(n, _ => 0.0)) == 0.0
  {
    if n > 0 {
      assert seq(n, _ => 0.0)[..n - 1] == seq(n - 1, _ => 0.0);
      ZerosSum(n - 1);
    }
  }

  lemma RunningMean(s: real, oldest: real, x: real, n: real)
    requires n > 0.0
    ensures s / n + (x - oldest) * (1.0 / n) == (s - oldest + x) / n
  {
  }

  /** A fixed window whose points are step apart on the abscissa. */
  class MovingAverageFixedDimensional {
    const average: MovingAverageFixed
    const xUnits: string
    const step: real
    const size: real
    const delay: real

    ghost predicate Valid()
      reads this, average
    {
      && average.Valid()
      && size == average.sizeDiscrete as real * step
      && delay == average.delayDiscrete * step
    }

    constructor (xUnits: string, average: MovingAverageFixed, stepSize: real)
      requires average.Valid()
      ensures this.average == average && this.xUnits == xUnits && step == stepSize
      ensures Valid()
    {
      this.average := average;
      this.xUnits := xUnits;
      step := stepSize;
      size := average.sizeDiscrete as real * stepSize;
      delay := average.delayDiscrete * stepSize;
    }

    /** The window whose span is the positive multiple of stepSize nearest to
        intendedSize, or an error when either is not positive. */
    static method Create(xUnits: string, intendedSize: real, stepSize: real)
      returns (r: Result<MovingAverageFixedDimensional, Error>)
      ensures r.Failure? <==> intendedSize <= 0.0 || stepSize <= 0.0
      ensures r.Failure? ==> r.error == ArgumentOutOfRange
      ensures r.Success? ==> fresh(r.value) && fresh(r.value.average) && r.value.Valid()
      ensures r.Success? ==> r.value.xUnits == xUnits && r.value.step == stepSize
      ensures r.Success? ==> r.value.average.fed == [] && r.value.size >= stepSize
      ensures r.Success? && intendedSize >= 0.5 * stepSize ==>
        intendedSize - 0.5 * stepSize <= r.value.size <= intendedSize + 0.5 * stepSize
      ensures r.Success? && intendedSize < 0.5 * stepSize ==> r.value.size == stepSize
      ensures r.Success? ==> 2.0 * r.value.delay == r.value.size - stepSize
    {
      var sizeDiscrete := GetSizeDiscrete(intendedSize, stepSize);
      if sizeDiscrete.Failure? {
        return Failure(sizeDiscrete.error);
      }
      SizeDiscreteNearest(intendedSize, stepSize);
      var fixed := MovingAverageFixed.Create(sizeDiscrete.value);
      var d := new MovingAverageFixedDimensional(xUnits, fixed.value, stepSize);
      assert d.size >= stepSize by {
        assert (sizeDiscrete.value - 1) as real * stepSize >= 0.0;
      }
      return Success(d);
    }
  }

  /** Ceiling(value / step) steps cover value, and one step fewer does not. */
  lemma CeilingScaled(value: real, step: real)
    requires step > 0.0
    ensures value <= Ceiling(value / step) as real * step < value + step
  {
    var c := Ceiling(value / step) as real;
    ScaledAbove(value, step, c);
  }

  /** A multiple c of step with value / step <= c < value / step + 1 lies in
      the step that ends at or after value. */
  lemma ScaledAbove(value: real, step: real, c: real)
    requires step > 0.0 && 0.0 <= c - value / step < 1.0
    ensures value <= c * step < value + step
  {
    var q := value / step;
    var d := c - q;
    assert q * step == value;
    assert c * step == value + d * step;
    assert d * step >= 0.0;
    assert (1.0 - d) * step > 0.0;
  }

  /** A multiple c of step that is within h steps of value / step is within
      h * step of value. */
  lemma ScaledNear(value: real, step: real, c: real, h: real)
    requires step > 0.0 && -h <= c - value / step <= h
    ensures value - h * step <= c * step <= value + h * step
  {
    var q := value / step;
    var d := c - q;
    assert q * step == value;
    assert c * step == value + d * step;
    assert (h + d) * step >= 0.0;
    assert (h - d) * step >= 0.0;
  }

  /** A moving average over every point fed since the window was last trimmed. */
  class MovingAverageFlexible {
    var buffer: seq<real>

    constructor ()
      ensures buffer == []
    {
      buffer := [];
    }

    /** An empty window with room reserved for capacity points; a negative
        capacity is refused by the queue. */
    static method WithCapacity(capacity: int) returns (r: Result<MovingAverageFlexible, Error>)
      ensures r.Failure? <==> capacity < 0
      ensures r.Failure? ==> r.error == ArgumentOutOfRange
      ensures r.Success? ==> fresh(r.value) && r.value.buffer == []
    {
      if capacity < 0 {
        return Failure(ArgumentOutOfRange);
      }
      var m := new MovingAverageFlexible();
      return Success(m);
    }

    /** Enqueues the point behind all the others. */
    method AddDatum(newDatum: real)
      modifies this
      ensures buffer == old(buffer) + [newDatum]
    {
      buffer := buffer + [newDatum];
    }

    /** The mean of the points held, or NaN when there are none. */
    function Value(): (v: Value)
      reads this
      ensures buffer == [] <==> v == NaN
      ensures buffer != [] ==> v.Finite? && v.v * |buffer| as real == SumOf(buffer)
    {
      if SizeDiscrete() > 0 then Finite(SumOf(buffer) / |buffer| as real)
      else NaN
    }

    function SizeDiscrete(): (n: int)
      reads this
      ensures n >= 0 && n == |buffer|
    {
      |buffer|
    }

    /** Trims the window to at most sizeDiscrete points by dequeuing the
        oldest ones; a larger size leaves the window as it is, and a
        negative one is refused. */
    method SetSizeDiscrete(sizeDiscrete: int) returns (o: Outcome<Error>)
      modifies this
      ensures o.Fail? <==> sizeDiscrete < 0
      ensures o.Fail? ==> o.error == ArgumentOutOfRange && buffer == old(buffer)
      ensures o.Pass? ==> buffer == old(buffer)[|old(buffer)| - Trimmed(|old(buffer)|, sizeDiscrete)..]
    {
      if sizeDiscrete < 0 {
        return Fail(ArgumentOutOfRange);
      }
      var i := |buffer| - sizeDiscrete;
      while i > 0
        invariant |buffer| <= |old(buffer)|
        invariant buffer == old(buffer)[|old(buffer)| - |buffer|..]
        invariant i == |buffer| - sizeDiscrete
        invariant i >= 0 || buffer == old(buffer)
        decreases i
      {
        buffer := buffer[1..];
        i := i - 1;
      }
      return Pass;
    }

    /** Removes every point. */
    method Clear()
      modifies this
      ensures buffer == []
    {
      buffer := [];
    }

    /** The offset of the average relative to the newest point, in points. */
    function DelayDiscrete(): (d: real)
      reads this
      ensures d * 2.0 == |buffer| as real - 1.0
    {
      GetDelay(SizeDiscrete())
    }
  }

  /** How many points a window of count points keeps when its size is set to
      sizeDiscrete: the window can shrink but never grow. */
  function Trimmed(count: nat, sizeDiscrete: nat): (n: nat)
    ensures n <= count && n <= sizeDiscrete
    ensures n == count || n == sizeDiscrete
  {
    if count <= sizeDiscrete then count else sizeDiscrete
  }

  /** The mean of the flexible window is the Average statistic of its points. */
  lemma FlexibleValueIsAverage(m: MovingAverageFlexible)
    ensures m.Value() == Formulas.AverageOf(m.buffer)
  {
  }

  /** The mean of a non-empty flexible window lies between its least and its
      greatest point. */
  lemma FlexibleValueBetweenExtremes(m: MovingAverageFlexible)
    requires m.buffer != []
    ensures MinOf(m.buffer).Finite? && MaxOf(m.buffer).Finite?
    ensures MinOf(m.buffer).v <= m.Value().v <= MaxOf(m.buffer).v
  {
    SumAboveMin(m.buffer);
    SumBelowMax(m.buffer);
    MeanBetween(MinOf(m.buffer).v, MaxOf(m.buffer).v, SumOf(m.buffer), |m.buffer| as real);
  }

  lemma MeanBetween(lo: real, hi: real, s: real, n: real)
    requires n > 0.0 && lo * n <= s <= hi * n
    ensures lo <= s / n <= hi
  {
    var mean := s / n;
    assert mean * n == s;
    assert (mean - lo) * n >= 0.0;
    assert (hi - mean) * n >= 0.0;
  }

  /** A flexible window whose points are step apart on the abscissa. */
  class MovingAverageFlexibleDimensional {
    const average: MovingAverageFlexible
    const xUnits: string
    const step: real

    constructor (xUnits: string, stepSize: real)
      ensures this.xUnits == xUnits && step == stepSize
      ensures fresh(average) && average.buffer == []
    {
      this.xUnits := xUnits;
      step := stepSize;
      average := new MovingAverageFlexible();
    }

    /** An empty window with room reserved for about capacity units of the
        abscissa, or an error when capacity or stepSize is not positive. */
    static method WithCapacity(xUnits: string, capacity: real, stepSize: real)
      returns (r: Result<MovingAverageFlexibleDimensional, Error>)
      ensures r.Failure? <==> capacity <= 0.0 || stepSize <= 0.0
      ensures r.Failure? ==> r.error == ArgumentOutOfRange
      ensures r.Success? ==> fresh(r.value) && fresh(r.value.average)
      ensures r.Success? ==> r.value.xUnits == xUnits && r.value.step == stepSize
      ensures r.Success? ==> r.value.average.buffer == []
    {
      var sizeDiscrete := GetSizeDiscrete(capacity, stepSize);
      if sizeDiscrete.Failure? {
        return Failure(sizeDiscrete.error);
      }
      var d := new MovingAverageFlexibleDimensional(xUnits, stepSize);
      return Success(d);
    }

    /** The span of the points held, in units of the abscissa. */
    function Size(): (s: real)
      reads this, average
      ensures step != 0.0 ==> s / step == |average.buffer| as real
    {
      average.SizeDiscrete() as real * step
    }

    /** The offset of the average relative to the newest point, in units of
        the abscissa. */
    function Delay(): (d: real)
      reads this, average
      ensures 2.0 * d == Size() - step
    {
      average.DelayDiscrete() * step
    }

    /** The Size setter as written: it converts the current Size rather than
        the value assigned, so the window keeps every point it had. */
    method SetSizeAsWritten(value: real) returns (o: Outcome<Error>)
      requires step != 0.0
      modifies average
      ensures o == Pass && average.buffer == old(average.buffer)
    {
      o := average.SetSizeDiscrete(Ceiling(Size() / step));
    }

    /** The Size setter as intended: the window is trimmed to the whole number
        of steps that covers value, and a negative result is refused. */
    method SetSize(value: real) returns (o: Outcome<Error>)
      requires step != 0.0
      modifies average
      ensures o.Fail? <==> Ceiling(value / step) < 0
      ensures o.Fail? ==> average.buffer == old(average.buffer)
      ensures o.Pass? ==> |average.buffer| == Trimmed(|old(average.buffer)|, Ceiling(value / step))
      ensures o.Pass? ==> average.buffer == old(average.buffer)[|old(average.buffer)| - |average.buffer|..]
      ensures o.Pass? && step > 0.0 && value <= |old(average.buffer)| as real * step ==>
        value <= Size() < value + step
    {
      o := average.SetSizeDiscrete(Ceiling(value / step));
      if o.Pass? && step > 0.0 && value <= |old(average.buffer)| as real * step {
        CeilingScaled(value, step);
        var c := Ceiling(value / step);
        assert |average.buffer| <= c;
        assert value <= |average.buffer| as real * step by {
          if |average.buffer| < c {
            assert |average.buffer| == |old(average.buffer)|;
          }
        }
        assert |average.buffer| as real * step <= c as real * step;
      }
    }
  }

  /** Setting the Size of a window of three points one unit apart to 1.0 as
      written keeps all three points; as intended it keeps only the newest. */
  method SizeSetterDiscrepancy() returns (asWritten: seq<real>, intended: seq<real>)
    ensures asWritten == [1.0, 2.0, 3.0]
    ensures intended == [3.0]
  {
    var a := new MovingAverageFlexibleDimensional("s", 1.0);
    a.average.AddDatum(1.0);
    a.average.AddDatum(2.0);
    a.average.AddDatum(3.0);
    var _ := a.SetSizeAsWritten(1.0);
    asWritten := a.average.buffer;
    var b := new MovingAverageFlexibleDimensional("s", 1.0);
    b.average.AddDatum(1.0);
    b.average.AddDatum(2.0);
    b.average.AddDatum(3.0);
    var _ := b.SetSize(1.0);
    intended := b.average.buffer;
  }
}
