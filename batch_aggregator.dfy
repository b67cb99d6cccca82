/** The single-pass aggregation registry and the derived (complex) aggregate
    functions, which register their dependencies into it and read their
    results from it. */
module Statistics {
  import opened Wrappers
  import opened Doubles
  import opened Reductions
  import opened Registration
  import opened Formulas
  import opened Accumulators

  /** The KeyNotFoundException of a lookup by type. */
  datatype Error = KeyNotFound(tag: Tag)

  /** One registered aggregate function: the instance, tagged by its type. */
  datatype AggregateFunction =
    | CountFn(count: Count)
    | SumFn(sum: Sum)
    | SumOfSquaresFn(sumOfSquares: SumOfSquares)
    | MinFn(min: Min)
    | MaxFn(max: Max)
    | MinimumFn(minimum: Minimum)
    | MaximumFn(maximum: Maximum)
    | AverageFn(average: Average)
    | UncorrectedVarianceFn(uncorrectedVariance: UncorrectedVariance)
    | UnbiasedVarianceFn(unbiasedVariance: UnbiasedVariance)
  {
    function Identity(): Tag
    {
      match this
      case CountFn(_) => CountTag
      case SumFn(_) => SumTag
      case SumOfSquaresFn(_) => SumOfSquaresTag
      case MinFn(_) => MinTag
      case MaxFn(_) => MaxTag
      case MinimumFn(_) => MinimumTag
      case MaximumFn(_) => MaximumTag
      case AverageFn(_) => AverageTag
      case UncorrectedVarianceFn(_) => UncorrectedVarianceTag
      case UnbiasedVarianceFn(_) => UnbiasedVarianceTag
    }

    function Instance(): object
    {
      match this
      case CountFn(c) => c
      case SumFn(s) => s
      case SumOfSquaresFn(s) => s
      case MinFn(m) => m
      case MaxFn(m) => m
      case MinimumFn(m) => m
      case MaximumFn(m) => m
      case AverageFn(a) => a
      case UncorrectedVarianceFn(u) => u
      case UnbiasedVarianceFn(u) => u
    }

    /** The type determines the variant. */
    lemma IdentityDetermines()
      ensures Identity() == CountTag <==> CountFn?
      ensures Identity() == SumTag <==> SumFn?
      ensures Identity() == SumOfSquaresTag <==> SumOfSquaresFn?
      ensures Identity() == MinTag <==> MinFn?
      ensures Identity() == MaxTag <==> MaxFn?
      ensures Identity() == MinimumTag <==> MinimumFn?
      ensures Identity() == MaximumTag <==> MaximumFn?
      ensures Identity() == AverageTag <==> AverageFn?
      ensures Identity() == UncorrectedVarianceTag <==> UncorrectedVarianceFn?
      ensures Identity() == UnbiasedVarianceTag <==> UnbiasedVarianceFn?
    {
    }

    /** An accumulating instance's own invariant; derived ones have none. */
    ghost predicate Valid()
      reads Instance()
    {
      match this
      case CountFn(c) => c.Valid()
      case SumFn(s) => s.Valid()
      case SumOfSquaresFn(s) => s.Valid()
      case MinFn(m) => m.Valid()
      case MaxFn(m) => m.Valid()
      case MinimumFn(m) => m.Valid()
      case MaximumFn(m) => m.Valid()
      case _ => true
    }

    /** The points an accumulating instance has been fed; derived ones see none. */
    ghost function Points(): seq<real>
      reads Instance()
    {
      match this
      case CountFn(c) => c.points
      case SumFn(s) => s.points
      case SumOfSquaresFn(s) => s.points
      case MinFn(m) => m.points
      case MaxFn(m) => m.points
      case MinimumFn(m) => m.points
      case MaximumFn(m) => m.points
      case _ => []
    }
  }

  /** The type of each entry, in list order. */
  function Identities(fs: seq<AggregateFunction>): seq<Tag>
  {
    seq(|fs|, i requires 0 <= i < |fs| => fs[i].Identity())
  }

  /** The instance's own invariant holds and, for an accumulator, it has
      folded exactly `points`. */
  ghost predicate Fed(f: AggregateFunction, points: seq<real>)
    reads f.Instance()
  {
    f.Valid() && (IsSimple(f.Identity()) ==> f.Points() == points)
  }

  /** No instance is registered under two entries. */
  ghost predicate Distinct(fs: seq<AggregateFunction>)
  {
    forall i, j :: 0 <= i < j < |fs| ==> fs[i].Instance() != fs[j].Instance()
  }

  /** Average: the quotient of the registered Sum and Count, looked up by type
      in the parent on every read. */
  class Average {
    constructor ()
    {
    }

    /** Registers Sum, then Count. */
    static method AddDependenciesTo(parent: BatchAggregator)
      requires parent.Valid()
      modifies parent
      decreases Rank(AverageTag), 0
      ensures parent.Valid() && parent.AppendedOnly() && fresh(parent.Repr - old(parent.Repr))
      ensures parent.Tags() == AddAllTags(old(parent.Tags()), Dependencies(AverageTag), Rank(AverageTag))
    {
      var sum, count := AddTwo(parent, SumTag, CountTag);
      AverageRegisters(old(parent.Tags()));
    }

    /** Sum over Count, each looked up in the parent; a missing one is a KeyNotFound. */
    function GetResult(parent: BatchAggregator): (r: Result<Value, Error>)
      requires parent.Valid()
      reads parent, parent.Repr
      decreases Rank(AverageTag), 0
      ensures parent.Registered(SumTag) && parent.Registered(CountTag) ==>
        r == Success(Div(parent.GetResult(SumTag).value, parent.GetResult(CountTag).value))
      ensures !parent.Registered(SumTag) ==> r == Failure(KeyNotFound(SumTag))
      ensures parent.Registered(SumTag) && !parent.Registered(CountTag) ==> r == Failure(KeyNotFound(CountTag))
    {
      var sum := parent.GetResult(SumTag);
      var count := parent.GetResult(CountTag);
      if sum.Failure? then Failure(sum.error)
      else if count.Failure? then Failure(count.error)
      else Success(Div(sum.value, count.value))
    }
  }

  /** Population variance: sum of squares over count minus the squared mean,
      read through the instances its dependencies were registered as. */
  class UncorrectedVariance {
    const sumOfSquares: SumOfSquares
    const count: Count
    const average: Average

    constructor (sumOfSquares: SumOfSquares, count: Count, average: Average)
      ensures this.sumOfSquares == sumOfSquares && this.count == count && this.average == average
    {
      this.sumOfSquares, this.count, this.average := sumOfSquares, count, average;
    }

    /** Registers SumOfSquares, Count and Average in that order and hands
        back the instances the parent returned, to be kept as handles. */
    static method SetDependencies(parent: BatchAggregator)
      returns (sumOfSquares: SumOfSquares, count: Count, average: Average)
      requires parent.Valid()
      modifies parent
      decreases Rank(UncorrectedVarianceTag), 0
      ensures parent.Valid() && parent.AppendedOnly() && fresh(parent.Repr - old(parent.Repr))
      ensures parent.Tags() ==
        AddAllTags(old(parent.Tags()), Dependencies(UncorrectedVarianceTag), Rank(UncorrectedVarianceTag))
      ensures SumOfSquaresFn(sumOfSquares) in parent.functions
      ensures CountFn(count) in parent.functions
      ensures AverageFn(average) in parent.functions
    {
      var f, g := AddTwo(parent, SumOfSquaresTag, CountTag);
      ghost var fs1, s1 := parent.functions, parent.since;
      var h := parent.Add(AverageTag);
      PrefixMember(fs1, parent.functions, parent.functions, f);
      PrefixMember(fs1, parent.functions, parent.functions, g);
      AppendedTrans(old(parent.since), s1, parent.since, |parent.history|);
      f.IdentityDetermines();
      g.IdentityDetermines();
      h.IdentityDetermines();
      sumOfSquares, count, average := f.sumOfSquares, g.count, h.average;
      UncorrectedVarianceRegisters(old(parent.Tags()));
    }

    /** SumOfSquares / Count - mean * mean, through the kept handles. */
    function GetResult(parent: BatchAggregator): (r: Result<Value, Error>)
      requires parent.Valid() && UncorrectedVarianceFn(this) in parent.functions
      reads parent, parent.Repr
      decreases Rank(UncorrectedVarianceTag), 0
      ensures r.Success?
    {
      parent.Member(UncorrectedVarianceFn(this));
      parent.Member(SumOfSquaresFn(sumOfSquares));
      parent.Member(CountFn(count));
      parent.Member(AverageFn(average));
      var mean := average.GetResult(parent).value;
      Success(Sub(Div(sumOfSquares.GetResult(), count.GetResult()), Mul(mean, mean)))
    }
  }

  /** Sample variance: the population variance times n / (n - 1) (Bessel's
      correction), read through handles. */
  class UnbiasedVariance {
    const uncorrectedVariance: UncorrectedVariance
    const count: Count

    constructor (uncorrectedVariance: UncorrectedVariance, count: Count)
      ensures this.uncorrectedVariance == uncorrectedVariance && this.count == count
    {
      this.uncorrectedVariance, this.count := uncorrectedVariance, count;
    }

    /** Registers UncorrectedVariance, then Count, handing back both instances. */
    static method SetDependencies(parent: BatchAggregator)
      returns (uncorrectedVariance: UncorrectedVariance, count: Count)
      requires parent.Valid()
      modifies parent
      decreases Rank(UnbiasedVarianceTag), 0
      ensures parent.Valid() && parent.AppendedOnly() && fresh(parent.Repr - old(parent.Repr))
      ensures parent.Tags() ==
        AddAllTags(old(parent.Tags()), Dependencies(UnbiasedVarianceTag), Rank(UnbiasedVarianceTag))
      ensures UncorrectedVarianceFn(uncorrectedVariance) in parent.functions
      ensures CountFn(count) in parent.functions
    {
      var f, g := AddTwo(parent, UncorrectedVarianceTag, CountTag);
      f.IdentityDetermines();
      g.IdentityDetermines();
      uncorrectedVariance, count := f.uncorrectedVariance, g.count;
      UnbiasedVarianceRegisters(old(parent.Tags()));
    }

    /** variance * n / (n - 1), through the kept handles. */
    function GetResult(parent: BatchAggregator): (r: Result<Value, Error>)
      requires parent.Valid() && UnbiasedVarianceFn(this) in parent.functions
      reads parent, parent.Repr
      decreases Rank(UnbiasedVarianceTag), 0
      ensures r.Success?
    {
      parent.Member(UnbiasedVarianceFn(this));
      parent.Member(UncorrectedVarianceFn(uncorrectedVariance));
      parent.Member(CountFn(count));
      var n := count.GetResult();
      var variance := uncorrectedVariance.GetResult(parent).value;
      Success(Div(Mul(variance, n), Sub(n, Finite(1.0))))
    }
  }

  /** Two calls of Add, in order: the dependencies a derived function
      registers, returned as the entries the parent listed. */
  method AddTwo(parent: BatchAggregator, a: Tag, b: Tag) returns (f: AggregateFunction, g: AggregateFunction)
    requires parent.Valid()
    modifies parent
    decreases if Rank(a) < Rank(b) then Rank(b) else Rank(a), 4
    ensures parent.Valid() && parent.AppendedOnly() && fresh(parent.Repr - old(parent.Repr))
    ensures parent.Tags() == AddTags(AddTags(old(parent.Tags()), a), b)
    ensures f in parent.functions && f.Identity() == a
    ensures g in parent.functions && g.Identity() == b
  {
    f := parent.Add(a);
    ghost var fs1, s1 := parent.functions, parent.since;
    assert fresh(parent.Repr - old(parent.Repr));
    g := parent.Add(b);
    assert fresh(parent.Repr - old(parent.Repr));
    AppendedTrans(old(parent.since), s1, parent.since, |parent.history|);
    PrefixMember(fs1, parent.functions, parent.functions, f);
  }

  /** Entries appended in two steps, each registered after h points, were
      appended in one. */
  lemma AppendedTrans(a: seq<nat>, b: seq<nat>, c: seq<nat>, h: nat)
    requires a <= b && (forall i :: |a| <= i < |b| ==> b[i] == h)
    requires b <= c && (forall i :: |b| <= i < |c| ==> c[i] == h)
    ensures a <= c && forall i :: |a| <= i < |c| ==> c[i] == h
  {
  }

  /** A prefix keeps its elements. */
  lemma PrefixMember(a: seq<AggregateFunction>, b: seq<AggregateFunction>, c: seq<AggregateFunction>,
                     x: AggregateFunction)
    requires a <= b && b <= c && x in a
    ensures a <= c && x in c
  {
  }

  /** Calculates several aggregate functions in one pass over the sample. */
  class BatchAggregator {
    var functions: seq<AggregateFunction>
    /** Every point passed to Aggregate so far. */
    ghost var history: seq<real>
    /** since[i]: how many points had been aggregated when functions[i] was added. */
    ghost var since: seq<nat>
    ghost var Repr: set<object>

    function Tags(): seq<Tag>
      reads this
    {
      Identities(functions)
    }

    predicate Registered(t: Tag)
      reads this
    {
      t in Tags()
    }

    /** `GetFunction<T>`: the first registered function of type t, if any. */
    function GetFunction(t: Tag): (r: Option<AggregateFunction>)
      reads this
      ensures r.None? <==> !Registered(t)
      ensures r.Some? ==> r.value in functions && r.value.Identity() == t
    {
      var i := IndexOf(Tags(), t);
      if i < 0 then None else Some(functions[i])
    }

    /** `IsAlreadyAdded<T>`. */
    predicate IsAlreadyAdded(t: Tag)
      reads this
      ensures IsAlreadyAdded(t) <==> Registered(t)
    {
      GetFunction(t).Some?
    }

    /** How many points had been aggregated when t was registered. */
    ghost function SinceOf(t: Tag): (s: nat)
      requires Valid() && Registered(t)
      reads this, Repr
      ensures s <= |history|
    {
      var i := IndexOf(Tags(), t);
      assert Holds(functions[i], since[i]);
      since[i]
    }

    /** A derived function's handles are instances registered here. */
    ghost predicate Linked(f: AggregateFunction)
      reads this
    {
      match f
      case UncorrectedVarianceFn(u) =>
        && SumOfSquaresFn(u.sumOfSquares) in functions
        && CountFn(u.count) in functions
        && AverageFn(u.average) in functions
      case UnbiasedVarianceFn(u) =>
        && UncorrectedVarianceFn(u.uncorrectedVariance) in functions
        && CountFn(u.count) in functions
      case _ => true
    }

    /** What an entry added after `s` points must satisfy: an accumulator
        has folded exactly the points aggregated since, a derived function
        holds registered instances. */
    ghost predicate Holds(f: AggregateFunction, s: nat)
      reads this, f.Instance()
    {
      s <= |history| && Fed(f, history[s..]) && Linked(f)
    }

    ghost predicate Valid()
      reads this, Repr
    {
      && this !in Repr
      && |since| == |functions|
      && NoDuplicates(Tags())
      && DependenciesFirst(Tags())
      && Distinct(functions)
      && (forall i {:trigger functions[i].Instance()} :: 0 <= i < |functions| ==>
            functions[i].Instance() in Repr)
      && (forall i {:trigger Holds(functions[i], since[i])} :: 0 <= i < |functions| ==>
            Holds(functions[i], since[i]))
    }

    /** What Add may do: append entries, registered after every point
        aggregated so far, and nothing else. */
    twostate predicate AppendedOnly()
      reads this
    {
      && old(functions) <= functions && history == old(history) && old(since) <= since
      && (forall i :: |old(since)| <= i < |since| ==> since[i] == |history|)
    }

    constructor ()
      ensures Valid() && functions == [] && since == [] && history == [] && fresh(Repr)
    {
      functions, history, since, Repr := [], [], [], {};
    }

    /** What the invariant says about one listed entry. */
    lemma Member(f: AggregateFunction)
      requires Valid() && f in functions
      ensures f.Instance() in Repr && f.Valid() && Linked(f)
      ensures GetFunction(f.Identity()) == Some(f)
      ensures forall d :: d in Dependencies(f.Identity()) ==> Registered(d)
    {
      var i :| 0 <= i < |functions| && functions[i] == f;
      assert Holds(functions[i], since[i]);
      assert Tags()[i] == f.Identity();
      AddedBefore(Tags(), f.Identity());
    }

    /** What the invariant says about the entry registered under t. */
    lemma Entry(t: Tag)
      requires Valid() && Registered(t)
      ensures GetFunction(t).value.Instance() in Repr
      ensures Fed(GetFunction(t).value, history[SinceOf(t)..]) && Linked(GetFunction(t).value)
      ensures forall d :: d in Dependencies(t) ==> Registered(d)
    {
      var i := IndexOf(Tags(), t);
      assert Holds(functions[i], since[i]);
      AddedBefore(Tags(), t);
    }

    /** `Add<T>`: returns the registered instance of type t, creating it
        (after registering its dependencies) when there is none. */
    method Add(t: Tag) returns (f: AggregateFunction)
      requires Valid()
      modifies this
      decreases Rank(t), 3
      ensures Valid() && AppendedOnly() && fresh(Repr - old(Repr))
      ensures Tags() == AddTags(old(Tags()), t)
      ensures GetFunction(t) == Some(f) && f.Identity() == t && f in functions
      ensures old(Registered(t)) ==> f == old(GetFunction(t)).value && functions == old(functions)
    {
      if IsAlreadyAdded(t) {
        return GetFunction(t).value;
      }
      f := Create(t);
      ghost var created := Repr;
      ghost var before := Tags();
      Append(f);
      assert Tags() == before + [t];
      assert Repr - old(Repr) <= (created - old(Repr)) + {f.Instance()};
    }

    /** `new T()` and `AddDependenciesTo(this)`: the new instance, not yet
        listed, with its dependencies registered. */
    method Create(t: Tag) returns (f: AggregateFunction)
      requires Valid() && !Registered(t)
      modifies this
      decreases Rank(t), 2
      ensures Valid() && AppendedOnly() && fresh(Repr - old(Repr))
      ensures Tags() == AddAllTags(old(Tags()), Dependencies(t), Rank(t))
      ensures f.Identity() == t && !Registered(t) && f.Instance() !in Repr && fresh(f.Instance())
      ensures forall d :: d in Dependencies(t) ==> Registered(d)
      ensures f.Valid() && (IsSimple(t) ==> f.Points() == []) && Linked(f)
    {
      if IsSimple(t) {
        f := NewAccumulator(t);
      } else {
        f := CreateDerived(t);
      }
    }

    /** `new T()` for an accumulating function: it has folded nothing yet. */
    static method NewAccumulator(t: Tag) returns (f: AggregateFunction)
      requires IsSimple(t)
      ensures f.Identity() == t && fresh(f.Instance()) && f.Valid() && f.Points() == []
    {
      match t {
        case CountTag => var c := new Count(); f := CountFn(c);
        case SumTag => var s := new Sum(); f := SumFn(s);
        case SumOfSquaresTag => var s := new SumOfSquares(); f := SumOfSquaresFn(s);
        case MinTag => var m := new Min(); f := MinFn(m);
        case MaxTag => var m := new Max(); f := MaxFn(m);
        case MinimumTag => var m := new Minimum(); f := MinimumFn(m);
        case MaximumTag => var m := new Maximum(); f := MaximumFn(m);
      }
    }

    /** A derived function is allocated once its dependencies are registered,
        so that it can keep their instances. */
    method CreateDerived(t: Tag) returns (f: AggregateFunction)
      requires Valid() && !Registered(t) && !IsSimple(t)
      modifies this
      decreases Rank(t), 1
      ensures Valid() && AppendedOnly() && fresh(Repr - old(Repr))
      ensures Tags() == AddAllTags(old(Tags()), Dependencies(t), Rank(t))
      ensures f.Identity() == t && !Registered(t) && f.Instance() !in Repr && fresh(f.Instance())
      ensures forall d :: d in Dependencies(t) ==> Registered(d)
      ensures f.Valid() && Linked(f)
    {
      match t {
        case AverageTag =>
          Average.AddDependenciesTo(this);
          var a := new Average();
          f := AverageFn(a);
        case UncorrectedVarianceTag =>
          var sumOfSquares, count, average := UncorrectedVariance.SetDependencies(this);
          var u := new UncorrectedVariance(sumOfSquares, count, average);
          f := UncorrectedVarianceFn(u);
        case UnbiasedVarianceTag =>
          var uncorrectedVariance, count := UnbiasedVariance.SetDependencies(this);
          var u := new UnbiasedVariance(uncorrectedVariance, count);
          f := UnbiasedVarianceFn(u);
      }
      AddAllTagsOnlyLower(old(Tags()), Dependencies(t), Rank(t), t);
      AddAllTagsExtends(old(Tags()), Dependencies(t), Rank(t));
    }

    /** `Functions.Add(afunc)`: appends an instance whose dependencies are
        registered already. */
    method Append(f: AggregateFunction)
      requires Valid() && !Registered(f.Identity()) && f.Instance() !in Repr
      requires f.Valid() && (IsSimple(f.Identity()) ==> f.Points() == [])
      requires forall d :: d in Dependencies(f.Identity()) ==> Registered(d)
      requires Linked(f)
      modifies this
      ensures Valid()
      ensures functions == old(functions) + [f] && since == old(since) + [|history|]
      ensures history == old(history) && Repr == old(Repr) + {f.Instance()}
    {
      ghost var before := Tags();
      functions, since, Repr := functions + [f], since + [|history|], Repr + {f.Instance()};
      assert Tags() == before + [f.Identity()];
      forall i | 0 <= i < |functions| ensures Holds(functions[i], since[i]) {
        if i < |old(functions)| {
          assert old(Holds(functions[i], since[i]));
        }
      }
      assert NoDuplicates(Tags()) by {
        assert forall i :: 0 <= i < |before| ==> Tags()[i] == before[i];
      }
      assert DependenciesFirst(Tags()) by {
        forall i, d | 0 <= i < |Tags()| && d in Dependencies(Tags()[i]) ensures d in Tags()[..i] {
          if i < |before| {
            assert Tags()[..i] == before[..i];
          } else {
            assert Tags()[..i] == before;
          }
        }
      }
    }

    /** `Aggregate`: passes the point to every registered function in list
        order; derived functions ignore it. */
    method Aggregate(samplePoint: real)
      requires Valid()
      modifies this, Repr
      ensures Valid()
      ensures functions == old(functions) && since == old(since) && Repr == old(Repr)
      ensures history == old(history) + [samplePoint]
      ensures forall i :: 0 <= i < |functions| && IsSimple(functions[i].Identity()) ==>
        functions[i].Points() == old(functions[i].Points()) + [samplePoint]
      ensures forall i :: 0 <= i < |functions| && !IsSimple(functions[i].Identity()) ==>
        unchanged(functions[i].Instance())
    {
      forall j | 0 <= j < |functions| ensures functions[j].Valid() {
        assert Holds(functions[j], since[j]);
      }
      FeedAll(functions, samplePoint);
      history := history + [samplePoint];
      HoldFed(samplePoint);
    }

    /** Every entry that held before a point was aggregated holds after it,
        once every accumulator has folded that point too. */
    twostate lemma HoldFed(samplePoint: real)
      requires old(Valid()) && functions == old(functions) && since == old(since) && Repr == old(Repr)
      requires history == old(history) + [samplePoint]
      requires forall j :: 0 <= j < |functions| ==> functions[j].Valid()
      requires forall j :: 0 <= j < |functions| && IsSimple(functions[j].Identity()) ==>
        functions[j].Points() == old(functions[j].Points()) + [samplePoint]
      ensures Valid()
    {
      forall j | 0 <= j < |functions| ensures Holds(functions[j], since[j]) {
        assert old(Holds(functions[j], since[j]));
        var k := since[j];
        if IsSimple(functions[j].Identity()) {
          assert history[k..] == old(history)[k..] + [samplePoint];
        }
      }
    }

    /** The loop of `Aggregate`: feeds every listed instance, in order. */
    static method FeedAll(fs: seq<AggregateFunction>, samplePoint: real)
      requires Distinct(fs) && forall j :: 0 <= j < |fs| ==> fs[j].Valid()
      modifies set j | 0 <= j < |fs| :: fs[j].Instance()
      ensures forall j :: 0 <= j < |fs| ==> fs[j].Valid()
      ensures forall j :: 0 <= j < |fs| && IsSimple(fs[j].Identity()) ==>
        fs[j].Points() == old(fs[j].Points()) + [samplePoint]
      ensures forall j :: 0 <= j < |fs| && !IsSimple(fs[j].Identity()) ==>
        unchanged(fs[j].Instance())
    {
      var i := 0;
      while i < |fs|
        invariant 0 <= i <= |fs|
        invariant forall j :: 0 <= j < |fs| ==> fs[j].Valid()
        invariant forall j :: 0 <= j < i && IsSimple(fs[j].Identity()) ==>
          fs[j].Points() == old(fs[j].Points()) + [samplePoint]
        invariant forall j :: 0 <= j < |fs| && (i <= j || !IsSimple(fs[j].Identity())) ==>
          unchanged(fs[j].Instance())
      {
        label Before:
        Feed(fs[i], samplePoint);
        assert forall j :: 0 <= j < |fs| && j != i ==> unchanged@Before(fs[j].Instance());
        i := i + 1;
      }
    }

    /** One function's `Aggregate`: an accumulating function folds the point
        into its result; a derived function's Aggregate is empty. */
    static method Feed(f: AggregateFunction, samplePoint: real)
      requires f.Valid()
      modifies f.Instance()
      ensures f.Valid()
      ensures IsSimple(f.Identity()) ==> f.Points() == old(f.Points()) + [samplePoint]
      ensures !IsSimple(f.Identity()) ==> unchanged(f.Instance())
    {
      match f
      case CountFn(c) => c.Aggregate(samplePoint);
      case SumFn(s) => s.Aggregate(samplePoint);
      case SumOfSquaresFn(s) => s.Aggregate(samplePoint);
      case MinFn(m) => m.Aggregate(samplePoint);
      case MaxFn(m) => m.Aggregate(samplePoint);
      case MinimumFn(m) => m.Aggregate(samplePoint);
      case MaximumFn(m) => m.Aggregate(samplePoint);
      case _ =>
    }

    /** `GetResult<T>`: the result of the registered function of type t, or
        KeyNotFound. An accumulating function's result ignores the parent. */
    function GetResult(t: Tag): (r: Result<Value, Error>)
      requires Valid()
      reads this, Repr
      decreases Rank(t), 1
      ensures r.Failure? <==> !Registered(t)
      ensures r.Failure? ==> r.error == KeyNotFound(t)
      ensures Registered(t) && IsSimple(t) ==> r == Success(StatOf(t, history[SinceOf(t)..]))
    {
      match GetFunction(t)
      case None => Failure(KeyNotFound(t))
      case Some(f) =>
        Entry(t);
        match f
        case CountFn(c) => Success(c.GetResult())
        case SumFn(s) => Success(s.GetResult())
        case SumOfSquaresFn(s) => Success(s.GetResult())
        case MinFn(m) => Success(m.GetResult())
        case MaxFn(m) => Success(m.GetResult())
        case MinimumFn(m) => Success(m.GetResult())
        case MaximumFn(m) => Success(m.GetResult())
        case AverageFn(a) => a.GetResult(this)
        case UncorrectedVarianceFn(u) => u.GetResult(this)
        case UnbiasedVarianceFn(u) => u.GetResult(this)
    }

    /** Every entry registered after the same k points. */
    ghost predicate RegisteredTogether(k: nat)
      reads this
    {
      forall i :: 0 <= i < |since| ==> since[i] == k
    }

    /** Every accumulator whose result t reads was registered after the same
        k points; t itself and other entries may have been added at any time. */
    ghost predicate SourcesSince(t: Tag, k: nat)
      requires Valid()
      reads this, Repr
    {
      forall d :: d in Sources(t) ==> Registered(d) && SinceOf(d) == k
    }

    /** Entries all registered together read from common sources. */
    lemma TogetherSources(t: Tag, k: nat)
      requires Valid() && Registered(t) && RegisteredTogether(k)
      ensures SourcesSince(t, k)
    {
      Entry(t);
      if t == UnbiasedVarianceTag {
        Entry(UncorrectedVarianceTag);
      }
      if t == UncorrectedVarianceTag || t == UnbiasedVarianceTag {
        Entry(AverageTag);
      }
    }

    /** Each result, derived ones included, is the statistic of the points
        aggregated since the accumulators it reads were registered. */
    lemma SinglePass(t: Tag, k: nat)
      requires Valid() && Registered(t) && SourcesSince(t, k)
      ensures k <= |history| && GetResult(t) == Success(StatOf(t, history[k..]))
    {
      Entry(t);
      match t
      case AverageTag => AverageTogether(k);
      case UncorrectedVarianceTag => UncorrectedVarianceTogether(k);
      case UnbiasedVarianceTag => UnbiasedVarianceTogether(k);
      case _ => assert t in Sources(t);
    }

    lemma AverageTogether(k: nat)
      requires Valid() && Registered(AverageTag) && SourcesSince(AverageTag, k)
      ensures k <= |history| && GetResult(AverageTag) == Success(AverageOf(history[k..]))
    {
      var f := GetFunction(AverageTag).value;
      Entry(AverageTag);
      f.IdentityDetermines();
      assert SumTag in Sources(AverageTag) && CountTag in Sources(AverageTag);
      assert GetResult(AverageTag) == f.average.GetResult(this);
    }

    lemma UncorrectedVarianceTogether(k: nat)
      requires Valid() && Registered(UncorrectedVarianceTag) && SourcesSince(UncorrectedVarianceTag, k)
      ensures k <= |history|
      ensures GetResult(UncorrectedVarianceTag) == Success(UncorrectedVarianceOf(history[k..]))
    {
      UncorrectedVarianceByType();
      assert SumOfSquaresTag in Sources(UncorrectedVarianceTag);
      assert forall d :: d in Sources(AverageTag) ==> d in Sources(UncorrectedVarianceTag);
      AverageTogether(k);
    }

    /** The variance, read through its handles, is the one computed from the
        results the registry holds for SumOfSquares, Count and Average. */
    lemma UncorrectedVarianceByType()
      requires Valid() && Registered(UncorrectedVarianceTag)
      ensures Registered(SumOfSquaresTag) && Registered(CountTag) && Registered(AverageTag)
      ensures var mean := GetResult(AverageTag).value;
        GetResult(UncorrectedVarianceTag) ==
          Success(Sub(Div(GetResult(SumOfSquaresTag).value, GetResult(CountTag).value), Mul(mean, mean)))
    {
      var f := GetFunction(UncorrectedVarianceTag).value;
      Entry(UncorrectedVarianceTag);
      f.IdentityDetermines();
      var u := f.uncorrectedVariance;
      assert GetResult(UncorrectedVarianceTag) == u.GetResult(this);
      Member(f);
      Handle(SumOfSquaresFn(u.sumOfSquares));
      Handle(CountFn(u.count));
      Handle(AverageFn(u.average));
    }

    lemma UnbiasedVarianceTogether(k: nat)
      requires Valid() && Registered(UnbiasedVarianceTag) && SourcesSince(UnbiasedVarianceTag, k)
      ensures k <= |history|
      ensures GetResult(UnbiasedVarianceTag) == Success(UnbiasedVarianceOf(history[k..]))
    {
      UnbiasedVarianceByType();
      assert CountTag in Sources(UnbiasedVarianceTag);
      assert Sources(UncorrectedVarianceTag) == Sources(UnbiasedVarianceTag);
      UncorrectedVarianceTogether(k);
    }

    /** The sample variance, read through its handles, is the one computed
        from the results the registry holds for UncorrectedVariance and Count. */
    lemma UnbiasedVarianceByType()
      requires Valid() && Registered(UnbiasedVarianceTag)
      ensures Registered(UncorrectedVarianceTag) && Registered(CountTag)
      ensures var n := GetResult(CountTag).value;
        GetResult(UnbiasedVarianceTag) ==
          Success(Div(Mul(GetResult(UncorrectedVarianceTag).value, n), Sub(n, Finite(1.0))))
    {
      var f := GetFunction(UnbiasedVarianceTag).value;
      Entry(UnbiasedVarianceTag);
      f.IdentityDetermines();
      var u := f.unbiasedVariance;
      assert GetResult(UnbiasedVarianceTag) == u.GetResult(this);
      Member(f);
      Handle(UncorrectedVarianceFn(u.uncorrectedVariance));
      Handle(CountFn(u.count));
    }

    /** A kept handle is the entry a lookup by its type finds, so reading the
        handle and reading the registry agree. */
    lemma Handle(f: AggregateFunction)
      requires Valid() && f in functions
      ensures GetFunction(f.Identity()) == Some(f) && f.Valid()
      ensures f.CountFn? ==> GetResult(CountTag) == Success(f.count.GetResult())
      ensures f.SumFn? ==> GetResult(SumTag) == Success(f.sum.GetResult())
      ensures f.SumOfSquaresFn? ==> GetResult(SumOfSquaresTag) == Success(f.sumOfSquares.GetResult())
      ensures f.MinFn? ==> GetResult(MinTag) == Success(f.min.GetResult())
      ensures f.MaxFn? ==> GetResult(MaxTag) == Success(f.max.GetResult())
      ensures f.MinimumFn? ==> GetResult(MinimumTag) == Success(f.minimum.GetResult())
      ensures f.MaximumFn? ==> GetResult(MaximumTag) == Success(f.maximum.GetResult())
      ensures f.AverageFn? ==> GetResult(AverageTag) == f.average.GetResult(this)
      ensures f.UncorrectedVarianceFn? ==>
        (f == UncorrectedVarianceFn(f.uncorrectedVariance) &&
         GetResult(UncorrectedVarianceTag) == f.uncorrectedVariance.GetResult(this))
      ensures f.UnbiasedVarianceFn? ==>
        GetResult(UnbiasedVarianceTag) == f.unbiasedVariance.GetResult(this)
    {
      Member(f);
      f.IdentityDetermines();
    }
  }
}
