# JP.Maths statistics and moving averages, modelled in Dafny

This project models three parts of the JP.Maths C# library.

- **The single-pass statistics registry.** A `BatchAggregator` holds a list of aggregate functions.
  - `Add<T>` registers a function of type `T`, together with the functions it depends on.
  - `Aggregate` feeds one sample point to every registered function, in list order.
  - `GetResult<T>` looks a function up by type and reads its result.
  - The accumulating functions (Count, Sum, SumOfSquares, Min, Max, Minimum, Maximum) each fold the points into one result field.
  - The derived functions (Average, UncorrectedVariance, UnbiasedVariance) register their dependencies and combine those dependencies' results.
- **Moving averages.** A fixed window of `n` points keeps a running mean. A flexible window keeps every point until its size is set lower. The dimensional variants of both add a step between points on the abscissa.
- **`MathPlus.Interpolate`.** Linear interpolation through two points.

The modules follow the program's structure.

- `Wrappers`: `Option`, `Result` and `Outcome`. A thrown exception becomes a `Failure` or `Fail` value.
- `Doubles`: finite values are exact reals. The special values `PosInf`, `NegInf` and `NaN` are kept because the Min and Max seeds are infinities and the derived statistics divide by a count that can be zero. `Less`, `Sub`, `Mul` and `Div` follow IEEE-754 on those values.
- `Reductions`: the left folds `SumOf`, `SumOfSquaresOf`, `MinOf` and `MaxOf`. Each is what an accumulator holds after a sequence of points.
- `Registration`: one `Tag` per concrete function type. `AddTags` is the list of types the registry holds after an `Add`.
- `Formulas`: `StatOf(t, ps)`, the value of statistic `t` over points `ps`.
- `Accumulators`: the seven accumulating classes. Each has a mutable `result`, a ghost record of the points fed, and the invariant `result == fold(points)`.
- `Statistics`: the `BatchAggregator` class, the derived classes, and `AggregateFunction`, one registered instance tagged by its type.
- `Scenarios`: the repository's two statistics tests, replayed on the model.
- `MovingAverages` and `MathPlus`.

Three invariants of `BatchAggregator.Valid()` carry the registry's guarantees.

- No type is listed twice.
- Every dependency is listed before its dependent.
- An accumulator added after `k` points has folded exactly the points aggregated since then.

From these, `GetResult` of an accumulator is the statistic of the points aggregated since it was registered. `SinglePass` extends this to the derived functions when the accumulators a function reads were all registered after the same number of points.

`Add` returns the entry it registered or found. The repository's own code disagrees about this: `BatchAggregator.Add<T>` returns nothing, while the variance classes and the statistics test use the returned instance. The model returns the instance and keeps the lookup by type as well, so one model serves both.

## Model

| member | source | states |
|---|---|---|
| Registration.Dependencies | JP.Maths/Statistics/AggregateFunctions/Average.cs:5-9 | a type has dependencies exactly when it is derived, and each dependency has a strictly lower rank, which bounds the recursion of Add |
| Registration.Sources | JP.Maths/Statistics/AggregateFunctions/UncorrectedVariance.cs:16-20 | the accumulators a type's result is computed from: itself for an accumulator, Sum and Count for Average, SumOfSquares, Count and Sum for the variances |
| Registration.SourcesOfDependencies | JP.Maths/Statistics/AggregateFunctions/Average.cs:11-16 | a derived type reads the accumulators its dependencies read, and each of its accumulators is a dependency or read through a derived dependency |
| Registration.IndexOf | JP.Maths/Statistics/BatchAggregator.cs:39-43 | `List.Find(a => a is T)`: -1 exactly when the type is absent; otherwise the index of its first occurrence |
| Registration.IndexOfPrefix | JP.Maths/Statistics/BatchAggregator.cs:19 | appending entries never moves the first occurrence of a type already listed |
| Registration.AddTagsExtends | JP.Maths/Statistics/BatchAggregator.cs:11-20 | Add only appends: the old list is a prefix of the new one, the type is present afterwards, and so are its dependencies |
| Registration.AddAllTagsExtends | JP.Maths/Statistics/AggregateFunctions/Average.cs:5-9 | registering a dependency list keeps the old list as a prefix and registers every dependency |
| Registration.AddTagsIdempotent | JP.Maths/Statistics/BatchAggregator.cs:14-15 | adding a type already present changes nothing, so adding twice equals adding once |
| Registration.AddSimpleAppendsOne | JP.Maths/Statistics/AggregateFunctions/Bases/SimpleAggregateFunction.cs:5-6 | adding an absent accumulating type grows the list by exactly that one type |
| Registration.AddTagsNoDuplicates | JP.Maths/Statistics/BatchAggregator.cs:14-19 | Add never lists a type twice |
| Registration.AddAllTagsNoDuplicates | JP.Maths/Statistics/BatchAggregator.cs:14-19 | registering a dependency list never lists a type twice |
| Registration.AddAllTagsOnlyLower | JP.Maths/Statistics/BatchAggregator.cs:17-18 | registering the dependencies never registers the function being added, so it is appended once, after them |
| Registration.AddTagsOnlyLower | JP.Maths/Statistics/BatchAggregator.cs:17-18 | adding a lower-ranked type never adds a higher-ranked one |
| Registration.AddTagsDependenciesFirst | JP.Maths/Statistics/BatchAggregator.cs:17-19 | Add keeps every dependency at a lower index than its dependent |
| Registration.AddAllTagsDependenciesFirst | JP.Maths/Statistics/BatchAggregator.cs:17-19 | registering a dependency list keeps dependencies first |
| Registration.AddedBefore | JP.Maths/Statistics/BatchAggregator.cs:17-19 | in a dependencies-first list, a listed type's dependencies are listed too |
| Registration.AverageRegisters | JP.Maths/Statistics/AggregateFunctions/Average.cs:7-8 | Average adds Sum, then Count |
| Registration.UncorrectedVarianceRegisters | JP.Maths/Statistics/AggregateFunctions/UncorrectedVariance.cs:11-13 | UncorrectedVariance adds SumOfSquares, then Count, then Average |
| Registration.UnbiasedVarianceRegisters | JP.Maths/Statistics/AggregateFunctions/UnbiasedVariance.cs:10-11 | UnbiasedVariance adds UncorrectedVariance, then Count |
| Reductions.AppendOne | JP.Maths/Statistics/AggregateFunctions/Sum.cs:7 | feeding one more point is one update step of each fold: +x, +x*x, and replacement when x compares below (Min) or above (Max) |
| Reductions.SumOverAppend | JP.Maths/Statistics/AggregateFunctions/Sum.cs:7 | the sum over a concatenation is the sum of the sums |
| Reductions.SumOverPermutation | JP.Maths/Statistics/BatchAggregator.cs:22-26 | a sum over the points does not depend on their order |
| Reductions.MinOfIsLeast | JP.Maths/Statistics/AggregateFunctions/Min.cs:5-11 | Min is +Infinity exactly on no points; otherwise it is one of the points and no point is below it |
| Reductions.MaxOfIsGreatest | JP.Maths/Statistics/AggregateFunctions/Max.cs:5-11 | Max is -Infinity exactly on no points; otherwise it is one of the points and no point is above it |
| Reductions.MinOfPermutation | JP.Maths/Statistics/AggregateFunctions/Min.cs:7-11 | Min does not depend on the order of the points |
| Reductions.MaxOfPermutation | JP.Maths/Statistics/AggregateFunctions/Max.cs:7-11 | Max does not depend on the order of the points |
| Reductions.SumOfSquaresNonNegative | JP.Maths/Statistics/AggregateFunctions/SumOfSquares.cs:7 | a sum of squares is never negative |
| Reductions.SumAboveMin | JP.Maths/Statistics/AggregateFunctions/Min.cs:7-11 | the sum of n points is at least n times the least one |
| Reductions.SumBelowMax | JP.Maths/Statistics/AggregateFunctions/Max.cs:7-11 | the sum of n points is at most n times the greatest one |
| Formulas.BoundaryResults | JP.Maths/Statistics/AggregateFunctions/Average.cs:11-16 | no points give a NaN mean and NaN variances; one point gives a NaN sample variance. None of these is an error |
| Formulas.VarianceNonNegative | JP.Maths/Statistics/AggregateFunctions/UncorrectedVariance.cs:16-20 | over one or more points the population variance is finite and non-negative; over two or more, so is the sample variance |
| Formulas.DeviationsNonNegative | JP.Maths/Statistics/AggregateFunctions/UncorrectedVariance.cs:16-20 | the expanded sum of squared deviations from any x is non-negative |
| Formulas.SpreadNonNegative | JP.Maths/Statistics/AggregateFunctions/UncorrectedVariance.cs:16-20 | n times the sum of squares is at least the squared sum |
| Formulas.StatPermutation | JP.Maths/Statistics/BatchAggregator.cs:22-26 | every statistic is independent of the order in which the points arrive |
| Formulas.ExtremesOfFive | JP.Maths/Statistics/AggregateFunctions/Min.cs:7-11 | Min and Max of five points fed in order are their least and greatest |
| Formulas.FirstDataSet | JP.Maths.Test/Statistics/StatisticsTest.cs:27-34 | for {0, 2, -9, 99, -3}: Min -9, Max 99, Count 5, Sum 89, Average 17.8, SumOfSquares 9895, variances 1662.16 and 2077.7 |
| Formulas.SecondDataSet | JP.Maths/Statistics/AggregateFunctions/UnbiasedVariance.cs:14-18 | the formulas applied to {2, 0, -5, 7, -3}, with expected values worked out by hand (no repository test uses this data set): Min -5, Max 7, Count 5, Sum 1, Average 0.2, SumOfSquares 87, variances 17.36 and 21.7 |
| Accumulators.Count.constructor | JP.Maths/Statistics/AggregateFunctions/Count.cs:5 | a new Count holds 0 and has seen no points |
| Accumulators.Count.Aggregate | JP.Maths/Statistics/AggregateFunctions/Count.cs:7 | adds exactly 1 whatever the point, and keeps result == number of points fed |
| Accumulators.Count.GetResult | JP.Maths/Statistics/AggregateFunctions/Count.cs:9 | the number of points fed, with no side effect |
| Accumulators.Sum.constructor | JP.Maths/Statistics/AggregateFunctions/Sum.cs:5 | a new Sum holds 0 |
| Accumulators.Sum.Aggregate | JP.Maths/Statistics/AggregateFunctions/Sum.cs:7 | adds exactly the point, and keeps result == sum of the points fed |
| Accumulators.Sum.GetResult | JP.Maths/Statistics/AggregateFunctions/Sum.cs:9 | the sum of the points fed |
| Accumulators.SumOfSquares.constructor | JP.Maths/Statistics/AggregateFunctions/SumOfSquares.cs:5 | a new SumOfSquares holds 0 |
| Accumulators.SumOfSquares.Aggregate | JP.Maths/Statistics/AggregateFunctions/SumOfSquares.cs:7 | adds the point's square, so the result never decreases; it keeps result == sum of squares of the points fed |
| Accumulators.SumOfSquares.GetResult | JP.Maths/Statistics/AggregateFunctions/SumOfSquares.cs:9 | the sum of squares of the points fed |
| Accumulators.Min.constructor | JP.Maths/Statistics/AggregateFunctions/Min.cs:5 | a new Min holds +Infinity |
| Accumulators.Min.Aggregate | JP.Maths/Statistics/AggregateFunctions/Min.cs:7-11 | replaces the result only when the point compares below it, so the result never increases; it keeps result == MinOf(points fed) |
| Accumulators.Min.GetResult | JP.Maths/Statistics/AggregateFunctions/Min.cs:13 | the fold MinOf of the points fed |
| Accumulators.Max.constructor | JP.Maths/Statistics/AggregateFunctions/Max.cs:5 | a new Max holds -Infinity |
| Accumulators.Max.Aggregate | JP.Maths/Statistics/AggregateFunctions/Max.cs:7-11 | replaces the result only when the point compares above it, so the result never decreases; it keeps result == MaxOf(points fed) |
| Accumulators.Max.GetResult | JP.Maths/Statistics/AggregateFunctions/Max.cs:13 | the fold MaxOf of the points fed |
| Accumulators.Minimum.constructor | JP.Maths/Statistics/AggregateFunctions/Minimum.cs:5 | a new Minimum holds +Infinity |
| Accumulators.Minimum.Aggregate | JP.Maths/Statistics/AggregateFunctions/Minimum.cs:7-11 | as Min.Aggregate: never increases, and keeps result == MinOf(points fed) |
| Accumulators.Minimum.GetResult | JP.Maths/Statistics/AggregateFunctions/Minimum.cs:13 | the fold MinOf of the points fed |
| Accumulators.Maximum.constructor | JP.Maths/Statistics/AggregateFunctions/Maximum.cs:5 | a new Maximum holds -Infinity |
| Accumulators.Maximum.Aggregate | JP.Maths/Statistics/AggregateFunctions/Maximum.cs:7-11 | as Max.Aggregate: never decreases, and keeps result == MaxOf(points fed) |
| Accumulators.Maximum.GetResult | JP.Maths/Statistics/AggregateFunctions/Maximum.cs:13 | the fold MaxOf of the points fed |
| Statistics.AggregateFunction.IdentityDetermines | JP.Maths/Statistics/BatchAggregator.cs:42 | the type test `a is T` picks exactly one variant, in both directions |
| Statistics.Average.AddDependenciesTo | JP.Maths/Statistics/AggregateFunctions/Average.cs:5-9 | registers Sum, then Count (each only if absent), only appending to the registry and keeping its invariant |
| Statistics.Average.GetResult | JP.Maths/Statistics/AggregateFunctions/Average.cs:11-16 | Sum's result over Count's result, both looked up by type; a missing Sum or Count is KeyNotFound for that type |
| Statistics.UncorrectedVariance.constructor | JP.Maths/Statistics/AggregateFunctions/UncorrectedVariance.cs:5-7 | keeps the three handles it is given |
| Statistics.UncorrectedVariance.SetDependencies | JP.Maths/Statistics/AggregateFunctions/UncorrectedVariance.cs:9-14 | registers SumOfSquares, Count, Average in order and returns the very instances listed in the registry, so a Count shared with other functions is counted once |
| Statistics.UncorrectedVariance.GetResult | JP.Maths/Statistics/AggregateFunctions/UncorrectedVariance.cs:16-20 | always succeeds; its value is stated by `Statistics.BatchAggregator.UncorrectedVarianceTogether` |
| Statistics.UnbiasedVariance.constructor | JP.Maths/Statistics/AggregateFunctions/UnbiasedVariance.cs:5-6 | keeps the two handles it is given |
| Statistics.UnbiasedVariance.SetDependencies | JP.Maths/Statistics/AggregateFunctions/UnbiasedVariance.cs:8-12 | registers UncorrectedVariance, then Count, and returns the instances listed in the registry |
| Statistics.UnbiasedVariance.GetResult | JP.Maths/Statistics/AggregateFunctions/UnbiasedVariance.cs:14-18 | always succeeds; its value is stated by `Statistics.BatchAggregator.UnbiasedVarianceTogether` |
| Statistics.AddTwo | JP.Maths/Statistics/AggregateFunctions/UnbiasedVariance.cs:10-11 | two Adds in a row register both types in order and return the listed entries |
| Statistics.BatchAggregator.constructor | JP.Maths/Statistics/BatchAggregator.cs:9 | an empty registry that has seen no points |
| Statistics.BatchAggregator.GetFunction | JP.Maths/Statistics/BatchAggregator.cs:39-43 | None exactly when no function of the type was added; otherwise a listed entry of that type |
| Statistics.BatchAggregator.IsAlreadyAdded | JP.Maths/Statistics/BatchAggregator.cs:45-49 | true exactly when a function of the type is registered |
| Statistics.BatchAggregator.Add | JP.Maths/Statistics/BatchAggregator.cs:11-20 | the type list becomes AddTags(old, t); entries are only appended, after all points so far; if t was present, the list is unchanged and the existing entry is returned; the invariant is kept |
| Statistics.BatchAggregator.Create | JP.Maths/Statistics/BatchAggregator.cs:17-18 | `new T()` plus `AddDependenciesTo(this)`: a fresh instance of type t with nothing folded, its dependencies registered and t itself not yet listed |
| Statistics.BatchAggregator.NewAccumulator | JP.Maths/Statistics/BatchAggregator.cs:17 | a fresh accumulator of the type, with nothing folded |
| Statistics.BatchAggregator.CreateDerived | JP.Maths/Statistics/AggregateFunctions/Bases/ComplexAggregateFunction.cs:5 | a derived function registers exactly its own dependency list, and its handles are listed entries |
| Statistics.BatchAggregator.Append | JP.Maths/Statistics/BatchAggregator.cs:19 | `Functions.Add(afunc)` appends exactly one entry, stamped with the number of points so far, and keeps the invariant |
| Statistics.BatchAggregator.Aggregate | JP.Maths/Statistics/BatchAggregator.cs:22-26 | the list is unchanged; every accumulator has folded the point once; every derived function is untouched; the invariant is kept |
| Statistics.BatchAggregator.HoldFed | JP.Maths/Statistics/BatchAggregator.cs:24-25 | once every accumulator has folded the new point, each still equals the fold of the points since it was registered |
| Statistics.BatchAggregator.FeedAll | JP.Maths/Statistics/BatchAggregator.cs:24-25 | the loop feeds each listed instance exactly once, in order, and leaves derived instances unchanged |
| Statistics.BatchAggregator.Feed | JP.Maths/Statistics/AggregateFunctions/Bases/ComplexAggregateFunction.cs:7-8 | an accumulator folds the point; a derived function's Aggregate changes nothing |
| Statistics.BatchAggregator.GetResult | JP.Maths/Statistics/BatchAggregator.cs:28-36 | KeyNotFound exactly when the type was not added; for an accumulator, the statistic of the points aggregated since it was registered (registration is not retroactive) |
| Statistics.BatchAggregator.SinceOf | JP.Maths/Statistics/BatchAggregator.cs:19 | the number of points aggregated before a type was registered is at most the number aggregated so far |
| Statistics.BatchAggregator.Member | JP.Maths/Statistics/BatchAggregator.cs:42 | a listed entry is the one a lookup by its type finds, and its dependencies are registered |
| Statistics.BatchAggregator.Entry | JP.Maths/Statistics/BatchAggregator.cs:31-35 | the entry found by type has folded exactly the points since its registration, and its dependencies are registered |
| Statistics.BatchAggregator.Handle | JP.Maths/Statistics/AggregateFunctions/UncorrectedVariance.cs:9-14 | a kept handle is the entry registered for its type and satisfies its invariant; reading it gives the same result as looking its type up in the registry, for every one of the ten types |
| Statistics.BatchAggregator.TogetherSources | JP.Maths/Statistics/BatchAggregator.cs:11-19 | when every function was registered after the same k points, so were the accumulators any one of them reads |
| Statistics.BatchAggregator.SinglePass | JP.Maths/Statistics/BatchAggregator.cs:5-6 | when the accumulators a function reads were all registered after the same k points, its GetResult, derived ones included, is the statistic of the points aggregated since |
| Statistics.BatchAggregator.AverageTogether | JP.Maths/Statistics/AggregateFunctions/Average.cs:11-16 | the Average read from the registry is the mean of the points aggregated since Sum and Count were registered, when both were registered after the same k points |
| Statistics.BatchAggregator.UncorrectedVarianceTogether | JP.Maths/Statistics/AggregateFunctions/UncorrectedVariance.cs:16-20 | the UncorrectedVariance read from the registry is sum of squares / n - mean^2 of the points aggregated since the accumulators it reads were registered, when they share one stamp |
| Statistics.BatchAggregator.UncorrectedVarianceByType | JP.Maths/Statistics/AggregateFunctions/UncorrectedVariance.cs:16-20 | the registered variance, read through its handles, is SumOfSquares / Count - Average^2 of the results the registry holds for those three types |
| Statistics.BatchAggregator.UnbiasedVarianceByType | JP.Maths/Statistics/AggregateFunctions/UnbiasedVariance.cs:14-18 | the registered sample variance, read through its handles, is UncorrectedVariance * Count / (Count - 1) of the results the registry holds |
| Statistics.BatchAggregator.UnbiasedVarianceTogether | JP.Maths/Statistics/AggregateFunctions/UnbiasedVariance.cs:14-18 | the UnbiasedVariance read from the registry is the population variance times n / (n - 1) of those points |
| Scenarios.AggregateAll | JP.Maths.Test/Statistics/BatchAggregatorTest.cs:19-20 | feeding a data set point by point appends it to the points seen and leaves the list unchanged |
| Scenarios.MinMaxAverageOrder | JP.Maths.Test/Statistics/BatchAggregatorTest.cs:15-17 | adding Min, Max, Average lists Min, Max, Sum, Count, Average |
| Scenarios.FirstDataSetResults | JP.Maths.Test/Statistics/StatisticsTest.cs:27-34 | after {0, 2, -9, 99, -3}, every registered type's GetResult is the value the tests expect |
| Scenarios.AddBeforeData | JP.Maths.Test/Statistics/StatisticsTest.cs:14-21 | an Add before any point keeps every function registered together |
| Scenarios.AddMinMaxAverage | JP.Maths.Test/Statistics/BatchAggregatorTest.cs:14-17 | the registry of that test holds Min, Max, Sum, Count, Average |
| Scenarios.BatchAggregatorTest | JP.Maths.Test/Statistics/BatchAggregatorTest.cs:10-28 | Min -9, Max 99, Average 17.8, and Count 5 and Sum 89 found by lookup though never added directly |
| Scenarios.AllFunctionsOrder | JP.Maths.Test/Statistics/StatisticsTest.cs:14-21 | the eight Adds of that test list each type once, dependencies first |
| Scenarios.AddAllFunctions | JP.Maths.Test/Statistics/StatisticsTest.cs:13-21 | the registry of that test holds the eight types in that order |
| Scenarios.StatisticsTest | JP.Maths.Test/Statistics/StatisticsTest.cs:9-35 | the eight results the test expects |
| Scenarios.MinVarianceOrder | JP.Maths/Statistics/BatchAggregator.cs:11-19 | adding UncorrectedVariance after Min lists Min, SumOfSquares, Count, Sum, Average, UncorrectedVariance |
| Scenarios.MinAfterTwoPoints | JP.Maths/Statistics/BatchAggregator.cs:22-26 | Min registered before any point, then -20 and 500 aggregated: the registry lists Min alone, stamped 0, and has seen exactly those two points |
| Scenarios.MinThenVariance | JP.Maths/Statistics/BatchAggregator.cs:11-19 | UncorrectedVariance added after two points is registered, with every accumulator it reads, after those two points, while Min keeps its stamp 0 |
| Scenarios.VarianceSources | JP.Maths/Statistics/BatchAggregator.cs:17-19 | the registration stamps of that registry: Min after no point, the variance and what it reads after two |
| Scenarios.MinOfSeven | JP.Maths/Statistics/AggregateFunctions/Min.cs:7-11 | the least of the seven points of that scenario is -20 |
| Scenarios.LateVariance | JP.Maths/Statistics/BatchAggregator.cs:22-26 | registration is not retroactive: Min, added first, has seen all seven points, while the variance added after two reads only the five points aggregated after it |
| MovingAverages.RoundHalfEven | MovingAverages.cs:45 | Math.Round: within a half of the quotient, and even on a tie |
| MovingAverages.Ceiling | MovingAverages.cs:242 | Math.Ceiling: the least integer not below the quotient |
| MovingAverages.GetSizeDiscrete | MovingAverages.cs:40-48 | ArgumentOutOfRange exactly when intendedSize or stepSize is not positive; otherwise at least 1 |
| MovingAverages.SizeDiscreteNearest | MovingAverages.cs:113-117 | the size is the number of steps whose span is within half a step of intendedSize; a span below half a step gets one point |
| MovingAverages.GetDelay | MovingAverages.cs:50-51 | the delay of a window of n points is (n - 1) / 2 |
| MovingAverages.DelayIsMeanOffset | MovingAverages.cs:50-51 | the delay (n - 1) / 2 is the mean offset of the n points of a window from its oldest point |
| MovingAverages.Window | MovingAverages.cs:56-58 | a fixed window always holds exactly n points |
| MovingAverages.WindowShift | MovingAverages.cs:85-86 | feeding a point dequeues the oldest and enqueues the new one |
| MovingAverages.WindowContents | MovingAverages.cs:56-58 | after n or more points the window holds the last n; before that, leading zeros and every point fed |
| MovingAverages.SumShift | MovingAverages.cs:85 | the window sum changes by the new point minus the dequeued one |
| MovingAverages.MovingAverageFixed.constructor | MovingAverages.cs:64-76 | size zeros, value 0, delay (size - 1) / 2, weight 1 / size |
| MovingAverages.MovingAverageFixed.Create | MovingAverages.cs:64-67 | ArgumentOutOfRange exactly when size < 1; otherwise a valid window of size zeros whose value is 0 |
| MovingAverages.MovingAverageFixed.AddDatum | MovingAverages.cs:81-88 | the value moves by (new - dequeued) * weight, the buffer shifts by one, and value == mean of the window is kept |
| MovingAverages.MovingAverageFixed.Value | MovingAverages.cs:101-105 | the mean of the window; once size points were fed, the mean of the last size points |
| MovingAverages.ZerosSum | MovingAverages.cs:75 | a buffer of zeros sums to 0 |
| MovingAverages.RunningMean | MovingAverages.cs:85 | the incremental update equals the mean of the shifted window |
| MovingAverages.MovingAverageFixedDimensional.constructor | MovingAverages.cs:119-122 | Size is SizeDiscrete * step and Delay is DelayDiscrete * step |
| MovingAverages.MovingAverageFixedDimensional.Create | MovingAverages.cs:116-123 | ArgumentOutOfRange exactly when either argument is not positive; otherwise Size is a positive multiple of step nearest intendedSize, and 2 * Delay == Size - step |
| MovingAverages.CeilingScaled | MovingAverages.cs:242 | Ceiling(value / step) steps cover value, and one fewer does not |
| MovingAverages.ScaledAbove | MovingAverages.cs:242 | a multiple of step within one step above value / step lies in [value, value + step) |
| MovingAverages.ScaledNear | MovingAverages.cs:45 | a multiple of step within h steps of value / step lies within h * step of value |
| MovingAverages.Quotient | MovingAverages.cs:45-46 | a quotient of positives scales back, and is at least a half exactly when the span is at least half a step |
| MovingAverages.MovingAverageFlexible.constructor | MovingAverages.cs:146-149 | an empty window |
| MovingAverages.MovingAverageFlexible.WithCapacity | MovingAverages.cs:153-156 | ArgumentOutOfRange exactly when capacity is negative, as the queue refuses it; otherwise an empty window |
| MovingAverages.MovingAverageFlexible.AddDatum | MovingAverages.cs:163-164 | appends the point at the back and changes nothing else |
| MovingAverages.MovingAverageFlexible.Value | MovingAverages.cs:168-174 | NaN exactly when the window is empty; otherwise the mean of the points held |
| MovingAverages.MovingAverageFlexible.SizeDiscrete | MovingAverages.cs:180 | the number of points held |
| MovingAverages.MovingAverageFlexible.SetSizeDiscrete | MovingAverages.cs:181-188 | ArgumentOutOfRange exactly when negative, leaving the window; otherwise dequeues max(0, count - size) oldest points, never growing the window |
| MovingAverages.MovingAverageFlexible.Clear | MovingAverages.cs:193-194 | empties the window |
| MovingAverages.MovingAverageFlexible.DelayDiscrete | MovingAverages.cs:198-199 | twice the delay is the number of points minus one |
| MovingAverages.Trimmed | MovingAverages.cs:186-187 | the count kept is min(count, size): never more than either |
| MovingAverages.FlexibleValueIsAverage | MovingAverages.cs:171 | the window's value is the Average statistic of its points |
| MovingAverages.FlexibleValueBetweenExtremes | MovingAverages.cs:168-174 | the mean of a non-empty window lies between its least and greatest point |
| MovingAverages.MeanBetween | MovingAverages.cs:171 | a sum between n * lo and n * hi gives a mean between lo and hi |
| MovingAverages.MovingAverageFlexibleDimensional.constructor | MovingAverages.cs:209-214 | an empty window with the units and step given |
| MovingAverages.MovingAverageFlexibleDimensional.WithCapacity | MovingAverages.cs:219-224 | ArgumentOutOfRange exactly when capacity or stepSize is not positive; otherwise an empty window with the units and step given |
| MovingAverages.MovingAverageFlexibleDimensional.Size | MovingAverages.cs:239-241 | Size / Step is the number of points held |
| MovingAverages.MovingAverageFlexibleDimensional.Delay | MovingAverages.cs:234-235 | twice the Delay is Size minus one step |
| MovingAverages.MovingAverageFlexibleDimensional.SetSizeAsWritten | MovingAverages.cs:242 | as written, the setter succeeds and leaves the window exactly as it was, whatever value is assigned |
| MovingAverages.MovingAverageFlexibleDimensional.SetSize | MovingAverages.cs:242 | as intended: fails exactly when Ceiling(value / step) < 0; otherwise keeps the newest min(count, Ceiling(value / step)) points, and when the window was at least value long, value <= Size < value + step |
| MovingAverages.SizeSetterDiscrepancy | MovingAverages.cs:242 | for three points one unit apart and Size = 1.0, as written keeps [1, 2, 3] and as intended keeps [3] |
| MathPlus.Interpolate | JP.Maths/MathPlus.cs:9-13 | DivideByZero exactly when x1 == x2; otherwise a value |
| MathPlus.InterpolateEndpoints | JP.Maths/MathPlus.cs:12 | the line passes through (x1, y1) and (x2, y2) |
| MathPlus.InterpolateCollinear | JP.Maths/MathPlus.cs:8-12 | for every x, inside the interval or not, the result is exactly the y that makes (x, y) collinear with the two points |
| MathPlus.InterpolateSymmetric | JP.Maths/MathPlus.cs:12 | swapping the two points gives the same result |

## Left out

- Floating point: values are exact reals. IEEE rounding, the drift of the fixed window's running value and signed zeros are not modelled. Infinities and NaN are modelled only where the statistics produce them: the Min/Max seeds, and division by a zero count.
- Sample points are finite reals. A NaN or infinite point fed to the registry or a moving average is not modelled.
- The `lock(Locker)` blocks in the moving averages are concurrency plumbing. The model is single-threaded.
- Solve.cs, Money.cs and the benchmark project are not part of this model.
- The interfaces IAggregateFunction, IBatchAggregator, IMovingAverage and IMovingAverageDimensional are not modelled as types. Their members are modelled on each class.
- Statistics.BatchAggregator.Add: returns the registered or existing entry, where BatchAggregator.cs:11 returns void. The variance classes and StatisticsTest.cs use the returned instance, so the model provides both that and the lookup by type.
- Statistics.UncorrectedVariance.GetResult: UncorrectedVariance.cs:18 reads `Average.GetResult()` without a parent, which the Average class does not offer. The model passes the registry that owns the function. Its own ensures states only success; the value is proved in Statistics.BatchAggregator.UncorrectedVarianceTogether.
- Statistics.UnbiasedVariance.GetResult: its own ensures states only success; the value is proved in Statistics.BatchAggregator.UnbiasedVarianceTogether.
- Statistics.BatchAggregator.CreateDerived: a derived function is allocated after its dependencies are registered, so that it can keep their instances as handles. In the source `new T()` comes first. No result depends on this order.
- Count, Sum, SumOfSquares, Min and Max implement IAggregateFunction directly, without `AddDependenciesTo` or `GetResult(parent)`. The model gives them the behaviour of SimpleAggregateFunction, which is what those members would have to do.
- Statistics.BatchAggregator.SinglePass: a derived result is stated when the accumulators it reads were registered after the same number of points, as in the tests and in Scenarios.LateVariance. A derived function whose accumulators were registered at different times reads folds of different suffixes; for that case only the accumulators' own results are stated.
- Scenarios: the tests read results through the returned instances. The model reads them from the registry by type, and Statistics.BatchAggregator.Handle shows the two agree.
- MovingAverages.GetSizeDiscrete: the `(int)` cast of a quotient beyond the 32-bit range is not modelled. The model's integers are unbounded.
- MovingAverages.MovingAverageFlexible.WithCapacity: the capacity is only a storage hint, so it is checked but not stored.
- The XUnits strings are stored and never interpreted.
- The dimensional classes derive from the plain windows in the source. Here they hold a plain window as the field `average`.
- MovingAverages.MovingAverageFlexibleDimensional.SetSizeAsWritten / SetSize: both require step != 0. A zero step is accepted by the constructor at MovingAverages.cs:209-214, but then `Size / Step` is 0 / 0, and the int conversion of NaN is unspecified in C#.
- MathPlus.Interpolate: NaN and infinite arguments are not modelled. Over reals, x1 == x2 is the only failure.

## Findings

| source | as written | input that shows it | evidently intended | confidence | as-written member | corrected member |
|---|---|---|---|---|---|---|
| MovingAverages.cs:242 | the Size setter computes `Ceiling(Size / Step)` from the current size, so it ignores the value assigned and never trims the window | a flexible dimensional window with step 1.0 holding 1.0, 2.0, 3.0, then `Size = 1.0`: all three points stay | `Ceiling(value / Step)`, which keeps only the newest point | not executed | MovingAverages.MovingAverageFlexibleDimensional.SetSizeAsWritten (exhibited by MovingAverages.SizeSetterDiscrepancy) | MovingAverages.MovingAverageFlexibleDimensional.SetSize |
