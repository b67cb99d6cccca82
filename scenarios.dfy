/** The repository's two statistics tests, replayed on the model: the data
    set {0, 2, -9, 99, -3} is aggregated after every function was registered,
    and the results are read from the registry by type. */
module Scenarios {
  import opened Wrappers
  import opened Doubles
  import opened Registration
  import opened Formulas
  import opened Reductions
  import opened Statistics

  /** The `foreach (var point in data) stats.Aggregate(point)` loop. */
  method AggregateAll(stats: BatchAggregator, data: seq<real>)
    requires stats.Valid()
    modifies stats, stats.Repr
    ensures stats.Valid()
    ensures stats.functions == old(stats.functions) && stats.since == old(stats.since)
    ensures stats.Repr == old(stats.Repr) && stats.history == old(stats.history) + data
    ensures forall t :: stats.Registered(t) ==> stats.SinceOf(t) == old(stats.SinceOf(t))
  {
    for i := 0 to |data|
      invariant stats.Valid() && stats.Repr == old(stats.Repr)
      invariant stats.functions == old(stats.functions) && stats.since == old(stats.since)
      invariant stats.history == old(stats.history) + data[..i]
    {
      stats.Aggregate(data[i]);
      assert data[..i + 1] == data[..i] + [data[i]];
    }
    assert data[..|data|] == data;
  }

  /** Adding Min, Max and Average to an empty registry lists Sum and Count,
      registered by Average, just before Average. */
  lemma MinMaxAverageOrder()
    ensures AddTags(AddTags(AddTags([], MinTag), MaxTag), AverageTag)
      == [MinTag, MaxTag, SumTag, CountTag, AverageTag]
  {
    var tags := AddTags(AddTags([], MinTag), MaxTag);
    assert tags == [MinTag, MaxTag];
    AverageRegisters(tags);
    assert AddTags(tags, SumTag) == [MinTag, MaxTag, SumTag];
  }

  /** The registry's results after the data set {0, 2, -9, 99, -3} was
      aggregated into functions all registered before the first point. */
  lemma FirstDataSetResults(stats: BatchAggregator)
    requires stats.Valid() && stats.RegisteredTogether(0)
    requires stats.history == [0.0, 2.0, -9.0, 99.0, -3.0]
    ensures stats.Registered(MinTag) ==> stats.GetResult(MinTag) == Success(Finite(-9.0))
    ensures stats.Registered(MaxTag) ==> stats.GetResult(MaxTag) == Success(Finite(99.0))
    ensures stats.Registered(CountTag) ==> stats.GetResult(CountTag) == Success(Finite(5.0))
    ensures stats.Registered(SumTag) ==> stats.GetResult(SumTag) == Success(Finite(89.0))
    ensures stats.Registered(SumOfSquaresTag) ==> stats.GetResult(SumOfSquaresTag) == Success(Finite(9895.0))
    ensures stats.Registered(AverageTag) ==> stats.GetResult(AverageTag) == Success(Finite(17.8))
    ensures stats.Registered(UncorrectedVarianceTag) ==>
      stats.GetResult(UncorrectedVarianceTag) == Success(Finite(1662.16))
    ensures stats.Registered(UnbiasedVarianceTag) ==>
      stats.GetResult(UnbiasedVarianceTag) == Success(Finite(2077.7))
  {
    FirstDataSet();
    assert stats.history[0..] == stats.history;
    forall t | stats.Registered(t) ensures stats.GetResult(t) == Success(StatOf(t, stats.history)) {
      stats.TogetherSources(t, 0);
      stats.SinglePass(t, 0);
    }
  }

  /** `stats.Add<T>()` before any point was aggregated. */
  method AddBeforeData(stats: BatchAggregator, t: Tag)
    requires stats.Valid() && stats.history == [] && stats.RegisteredTogether(0)
    modifies stats
    ensures stats.Valid() && stats.history == [] && stats.RegisteredTogether(0)
    ensures fresh(stats.Repr - old(stats.Repr)) && stats.Tags() == AddTags(old(stats.Tags()), t)
  {
    var _ := stats.Add(t);
  }

  /** The registration half of BatchAggregatorTest: Min, Max, Average. */
  method AddMinMaxAverage() returns (stats: BatchAggregator)
    ensures fresh(stats) && fresh(stats.Repr) && stats.Valid()
    ensures stats.history == [] && stats.RegisteredTogether(0)
    ensures stats.Tags() == [MinTag, MaxTag, SumTag, CountTag, AverageTag]
  {
    stats := new BatchAggregator();
    AddBeforeData(stats, MinTag);
    assert fresh(stats.Repr);
    AddBeforeData(stats, MaxTag);
    assert fresh(stats.Repr);
    AddBeforeData(stats, AverageTag);
    MinMaxAverageOrder();
  }

  /** BatchAggregatorTest.AllFunctions: only Min, Max and Average are added,
      yet Count and Sum, registered by Average, can be looked up too. */
  method BatchAggregatorTest() returns (min: Result<Value, Error>, max: Result<Value, Error>,
                                       average: Result<Value, Error>, count: Result<Value, Error>,
                                       sum: Result<Value, Error>)
    ensures min == Success(Finite(-9.0)) && max == Success(Finite(99.0))
    ensures average == Success(Finite(17.8))
    ensures count == Success(Finite(5.0)) && sum == Success(Finite(89.0))
  {
    var stats := AddMinMaxAverage();
    AggregateAll(stats, [0.0, 2.0, -9.0, 99.0, -3.0]);
    min, max, average := stats.GetResult(MinTag), stats.GetResult(MaxTag), stats.GetResult(AverageTag);
    count, sum := stats.GetResult(CountTag), stats.GetResult(SumTag);
    FirstDataSetResults(stats);
  }

  /** Adding the eight functions in the order of StatisticsTest lists each
      dependency before its dependent, and every function once. */
  lemma AllFunctionsOrder()
    ensures
      var tags := AddTags(AddTags(AddTags(AddTags([], MinTag), MaxTag), AverageTag), CountTag);
      AddTags(AddTags(AddTags(AddTags(tags, SumTag), SumOfSquaresTag), UncorrectedVarianceTag), UnbiasedVarianceTag)
      == [MinTag, MaxTag, SumTag, CountTag, AverageTag, SumOfSquaresTag, UncorrectedVarianceTag, UnbiasedVarianceTag]
  {
    MinMaxAverageOrder();
    var tags := [MinTag, MaxTag, SumTag, CountTag, AverageTag];
    assert AddTags(tags, CountTag) == tags && AddTags(tags, SumTag) == tags;
    var tags' := AddTags(tags, SumOfSquaresTag);
    assert tags' == tags + [SumOfSquaresTag];
    UncorrectedVarianceRegisters(tags');
    assert AddTags(tags', CountTag) == tags' && AddTags(tags', AverageTag) == tags';
    var tags'' := AddTags(tags', UncorrectedVarianceTag);
    assert tags'' == tags' + [UncorrectedVarianceTag];
    UnbiasedVarianceRegisters(tags'');
    assert AddTags(tags'', UncorrectedVarianceTag) == tags'' && AddTags(tags'', CountTag) == tags'';
  }

  /** The registration half of StatisticsTest: all eight functions, in the
      test's order. */
  method AddAllFunctions() returns (stats: BatchAggregator)
    ensures fresh(stats) && fresh(stats.Repr) && stats.Valid()
    ensures stats.history == [] && stats.RegisteredTogether(0)
    ensures stats.Tags() == [MinTag, MaxTag, SumTag, CountTag, AverageTag, SumOfSquaresTag,
                             UncorrectedVarianceTag, UnbiasedVarianceTag]
  {
    stats := new BatchAggregator();
    AddBeforeData(stats, MinTag);
    assert fresh(stats.Repr);
    AddBeforeData(stats, MaxTag);
    assert fresh(stats.Repr);
    AddBeforeData(stats, AverageTag);
    assert fresh(stats.Repr);
    AddBeforeData(stats, CountTag);
    assert fresh(stats.Repr);
    AddBeforeData(stats, SumTag);
    assert fresh(stats.Repr);
    AddBeforeData(stats, SumOfSquaresTag);
    assert fresh(stats.Repr);
    AddBeforeData(stats, UncorrectedVarianceTag);
    assert fresh(stats.Repr);
    AddBeforeData(stats, UnbiasedVarianceTag);
    AllFunctionsOrder();
  }

  /** StatisticsTest.AllFunctions: every statistic of {0, 2, -9, 99, -3}. */
  method StatisticsTest() returns (results: seq<Result<Value, Error>>)
    ensures results == [Success(Finite(-9.0)), Success(Finite(99.0)), Success(Finite(5.0)),
                        Success(Finite(17.8)), Success(Finite(89.0)), Success(Finite(9895.0)),
                        Success(Finite(1662.16)), Success(Finite(2077.7))]
  {
    var stats := AddAllFunctions();
    AggregateAll(stats, [0.0, 2.0, -9.0, 99.0, -3.0]);
    results := [stats.GetResult(MinTag), stats.GetResult(MaxTag), stats.GetResult(CountTag),
                stats.GetResult(AverageTag), stats.GetResult(SumTag), stats.GetResult(SumOfSquaresTag),
                stats.GetResult(UncorrectedVarianceTag), stats.GetResult(UnbiasedVarianceTag)];
    FirstDataSetResults(stats);
  }

  /** Adding UncorrectedVariance to a registry holding only Min lists its
      dependencies, and Average's, before it. */
  lemma MinVarianceOrder()
    ensures AddTags([MinTag], UncorrectedVarianceTag)
      == [MinTag, SumOfSquaresTag, CountTag, SumTag, AverageTag, UncorrectedVarianceTag]
  {
    var tags := [MinTag, SumOfSquaresTag, CountTag];
    assert AddTags(AddTags([MinTag], SumOfSquaresTag), CountTag) == tags;
    AverageRegisters(tags);
    assert AddTags(tags, SumTag) == tags + [SumTag];
    UncorrectedVarianceRegisters([MinTag]);
  }

  /** Min added first, then the points -20 and 500 aggregated. */
  method MinAfterTwoPoints() returns (stats: BatchAggregator)
    ensures fresh(stats) && fresh(stats.Repr) && stats.Valid()
    ensures stats.history == [-20.0, 500.0]
    ensures stats.Tags() == [MinTag] && stats.since == [0]
  {
    stats := new BatchAggregator();
    AddBeforeData(stats, MinTag);
    assert stats.Tags() == [MinTag] && |stats.since| == 1;
    AggregateAll(stats, [-20.0, 500.0]);
  }

  /** Then UncorrectedVariance: the accumulators the variance reads are all
      registered after two points. */
  method MinThenVariance() returns (stats: BatchAggregator)
    ensures fresh(stats) && fresh(stats.Repr) && stats.Valid()
    ensures stats.history == [-20.0, 500.0]
    ensures stats.Registered(MinTag) && stats.SinceOf(MinTag) == 0
    ensures stats.Registered(UncorrectedVarianceTag) && stats.SourcesSince(UncorrectedVarianceTag, 2)
  {
    stats := MinAfterTwoPoints();
    var _ := stats.Add(UncorrectedVarianceTag);
    MinVarianceOrder();
    assert |stats.since| == 6 && stats.since[0] == 0;
    assert stats.since == [0, 2, 2, 2, 2, 2];
    VarianceSources(stats);
  }

  /** The registration stamps of MinThenVariance: Min after no point, the
      variance and everything it reads after two. */
  lemma VarianceSources(stats: BatchAggregator)
    requires stats.Valid()
    requires stats.Tags() == [MinTag, SumOfSquaresTag, CountTag, SumTag, AverageTag, UncorrectedVarianceTag]
    requires stats.since == [0, 2, 2, 2, 2, 2]
    ensures stats.Registered(MinTag) && stats.SinceOf(MinTag) == 0
    ensures stats.Registered(UncorrectedVarianceTag) && stats.SourcesSince(UncorrectedVarianceTag, 2)
  {
    forall d | d in Sources(UncorrectedVarianceTag)
      ensures stats.Registered(d) && stats.SinceOf(d) == 2
    {
      assert IndexOf(stats.Tags(), d) != 0;
    }
    assert IndexOf(stats.Tags(), MinTag) == 0;
  }

  /** Min over the points of LateVariance. */
  lemma MinOfSeven()
    ensures MinOf([-20.0, 500.0, 0.0, 2.0, -9.0, 99.0, -3.0]) == Finite(-20.0)
  {
    var all := [-20.0, 500.0, 0.0, 2.0, -9.0, 99.0, -3.0];
    MinOfIsLeast(all);
    assert -20.0 in all;
  }

  /** Registration is not retroactive: UncorrectedVariance, added after the
      points -20 and 500, reads only the data set aggregated after it, while
      Min, added first, has seen every point. */
  method LateVariance() returns (min: Result<Value, Error>, variance: Result<Value, Error>)
    ensures min == Success(Finite(-20.0))
    ensures variance == Success(Finite(1662.16))
  {
    var stats := MinThenVariance();
    var data := [0.0, 2.0, -9.0, 99.0, -3.0];
    AggregateAll(stats, data);
    assert stats.history[2..] == data;
    assert stats.history[0..] == [-20.0, 500.0, 0.0, 2.0, -9.0, 99.0, -3.0];
    stats.SinglePass(UncorrectedVarianceTag, 2);
    FirstDataSet();
    MinOfSeven();
    variance := stats.GetResult(UncorrectedVarianceTag);
    min := stats.GetResult(MinTag);
  }
}
