/** The identities of the aggregate functions and what registering one does to
    the list of identities a BatchAggregator holds. The C# code tells the
    functions apart by their runtime type (`a is T`); here each concrete type
    is one tag, so Min and Minimum (and Max and Maximum) are distinct. */
module Registration {

  datatype Tag =
    | CountTag | SumTag | SumOfSquaresTag | MinTag | MaxTag | MinimumTag | MaximumTag
    | AverageTag | UncorrectedVarianceTag | UnbiasedVarianceTag

  /** The accumulating functions: they fold every sample point into their own
      state and register no dependencies. */
  predicate IsSimple(t: Tag)
  {
    !(t.AverageTag? || t.UncorrectedVarianceTag? || t.UnbiasedVarianceTag?)
  }

  /** The identities a function registers, in the order its dependency
      registration adds them. */
  function Dependencies(t: Tag): (ds: seq<Tag>)
    ensures IsSimple(t) <==> ds == []
    ensures forall d :: d in ds ==> Rank(d) < Rank(t)
  {
    match t
    case AverageTag => [SumTag, CountTag]
    case UncorrectedVarianceTag => [SumOfSquaresTag, CountTag, AverageTag]
    case UnbiasedVarianceTag => [UncorrectedVarianceTag, CountTag]
    case _ => []
  }

  /** The accumulating types whose results t is computed from, directly or
      through other derived types. */
  function Sources(t: Tag): (ss: seq<Tag>)
    ensures forall s :: s in ss ==> IsSimple(s)
    ensures IsSimple(t) ==> ss == [t]
  {
    match t
    case AverageTag => [SumTag, CountTag]
    case UncorrectedVarianceTag => [SumOfSquaresTag, CountTag, SumTag]
    case UnbiasedVarianceTag => [SumOfSquaresTag, CountTag, SumTag]
    case _ => [t]
  }

  /** The sources of a derived type are its accumulating dependencies and the
      sources of its derived ones. */
  lemma SourcesOfDependencies(t: Tag)
    ensures forall d, s :: d in Dependencies(t) && s in Sources(d) ==> s in Sources(t)
    ensures forall s :: s in Sources(t) && !IsSimple(t) ==>
      s in Dependencies(t) || exists d :: d in Dependencies(t) && !IsSimple(d) && s in Sources(d)
  {
    if t == UncorrectedVarianceTag {
      assert SumTag in Sources(AverageTag);
    } else if t == UnbiasedVarianceTag {
      assert SumOfSquaresTag in Sources(UncorrectedVarianceTag);
    }
  }

  /** A rank that every dependency lowers; it bounds the recursion of Add. */
  function Rank(t: Tag): nat
  {
    match t
    case AverageTag => 1
    case UncorrectedVarianceTag => 2
    case UnbiasedVarianceTag => 3
    case _ => 0
  }

  predicate NoDuplicates(tags: seq<Tag>)
  {
    forall i, j :: 0 <= i < j < |tags| ==> tags[i] != tags[j]
  }

  /** Every registered identity's dependencies sit at lower indices: the list is
      closed under dependencies and topologically ordered. */
  predicate DependenciesFirst(tags: seq<Tag>)
  {
    forall i, d :: 0 <= i < |tags| && d in Dependencies(tags[i]) ==> d in tags[..i]
  }

  /** The identity list after registering t: unchanged when t is present;
      otherwise its dependencies are registered first, then t is appended. */
  function AddTags(tags: seq<Tag>, t: Tag): seq<Tag>
    decreases Rank(t), 1
  {
    if t in tags then tags else AddAllTags(tags, Dependencies(t), Rank(t)) + [t]
  }

  /** Registers each of ds in turn. */
  function AddAllTags(tags: seq<Tag>, ds: seq<Tag>, bound: nat): seq<Tag>
    requires forall d :: d in ds ==> Rank(d) < bound
    decreases bound, 0, |ds|
  {
    if ds == [] then tags else AddAllTags(AddTags(tags, ds[0]), ds[1..], bound)
  }

  /** The index of the first occurrence of t, as `List.Find(a => a is T)`
      finds the first registered function of type T. */
  function IndexOf(tags: seq<Tag>, t: Tag): (r: int)
    ensures -1 <= r < |tags|
    ensures r == -1 <==> t !in tags
    ensures r >= 0 ==> tags[r] == t && t !in tags[..r]
  {
    if tags == [] then -1
    else if tags[0] == t then 0
    else
      var k := IndexOf(tags[1..], t);
      assert tags == [tags[0]] + tags[1..];
      if k == -1 then -1
      else
        assert tags[..k + 1] == [tags[0]] + tags[1..][..k];
        k + 1
  }

  /** Appending never moves the first occurrence of a registered identity. */
  lemma IndexOfPrefix(a: seq<Tag>, b: seq<Tag>, t: Tag)
    requires a <= b && t in a
    ensures IndexOf(b, t) == IndexOf(a, t)
  {
    var i := IndexOf(a, t);
    assert b[i] == t;
  }

  /** Registering a two-element dependency list, one identity at a time. */
  lemma AddAllTagsPair(tags: seq<Tag>, a: Tag, b: Tag, bound: nat)
    requires Rank(a) < bound && Rank(b) < bound
    ensures AddAllTags(tags, [a, b], bound) == AddTags(AddTags(tags, a), b)
  {
    assert [a, b][1..] == [b];
    assert [b][1..] == [];
    assert AddAllTags(AddTags(tags, a), [b], bound) == AddAllTags(AddTags(AddTags(tags, a), b), [], bound);
  }

  /** Registering a three-element dependency list, one identity at a time. */
  lemma AddAllTagsTriple(tags: seq<Tag>, a: Tag, b: Tag, c: Tag, bound: nat)
    requires Rank(a) < bound && Rank(b) < bound && Rank(c) < bound
    ensures AddAllTags(tags, [a, b, c], bound) == AddTags(AddTags(AddTags(tags, a), b), c)
  {
    assert [a, b, c][1..] == [b, c];
    AddAllTagsPair(AddTags(tags, a), b, c, bound);
  }

  /** Registration only appends: the old list is a prefix of the new one, and
      the registered identity is present afterwards. */
  lemma {:induction false} AddTagsExtends(tags: seq<Tag>, t: Tag)
    ensures tags <= AddTags(tags, t)
    ensures t in AddTags(tags, t)
    ensures DependenciesFirst(tags) ==> forall d :: d in Dependencies(t) ==> d in AddTags(tags, t)
    decreases Rank(t), 1
  {
    if t !in tags {
      AddAllTagsExtends(tags, Dependencies(t), Rank(t));
    } else if DependenciesFirst(tags) {
      AddedBefore(tags, t);
    }
  }

  lemma {:induction false} AddAllTagsExtends(tags: seq<Tag>, ds: seq<Tag>, bound: nat)
    requires forall d :: d in ds ==> Rank(d) < bound
    ensures tags <= AddAllTags(tags, ds, bound)
    ensures forall d :: d in ds ==> d in AddAllTags(tags, ds, bound)
    decreases bound, 0, |ds|
  {
    if ds != [] {
      var mid := AddTags(tags, ds[0]);
      AddTagsExtends(tags, ds[0]);
      AddAllTagsExtends(mid, ds[1..], bound);
      forall d | d in ds ensures d in AddAllTags(tags, ds, bound) {
        if d != ds[0] {
          assert d in ds[1..];
        } else {
          PrefixKeeps(mid, AddAllTags(mid, ds[1..], bound), d);
        }
      }
    }
  }

  lemma PrefixKeeps(a: seq<Tag>, b: seq<Tag>, t: Tag)
    requires a <= b && t in a
    ensures t in b
  {
    var i :| 0 <= i < |a| && a[i] == t;
    assert b[i] == t;
  }

  /** In a list that keeps dependencies first, a registered identity's
      dependencies are registered too. */
  lemma AddedBefore(tags: seq<Tag>, t: Tag)
    requires DependenciesFirst(tags) && t in tags
    ensures forall d :: d in Dependencies(t) ==> d in tags
  {
    var i :| 0 <= i < |tags| && tags[i] == t;
    forall d | d in Dependencies(t) ensures d in tags {
      PrefixKeeps(tags[..i], tags, d);
    }
  }

  /** Registering an identity that is present leaves the list unchanged,
      so registering twice is the same as registering once. */
  lemma AddTagsIdempotent(tags: seq<Tag>, t: Tag)
    ensures AddTags(AddTags(tags, t), t) == AddTags(tags, t)
  {
    AddTagsExtends(tags, t);
  }

  /** A simple function registers nothing else: the list grows by exactly t. */
  lemma AddSimpleAppendsOne(tags: seq<Tag>, t: Tag)
    requires IsSimple(t) && t !in tags
    ensures AddTags(tags, t) == tags + [t]
  {
  }

  /** Registration never creates a second instance of an identity. */
  lemma {:induction false} AddTagsNoDuplicates(tags: seq<Tag>, t: Tag)
    requires NoDuplicates(tags)
    ensures NoDuplicates(AddTags(tags, t))
    decreases Rank(t), 1
  {
    if t !in tags {
      var mid := AddAllTags(tags, Dependencies(t), Rank(t));
      AddAllTagsNoDuplicates(tags, Dependencies(t), Rank(t));
      assert t !in mid by {
        AddAllTagsOnlyLower(tags, Dependencies(t), Rank(t), t);
      }
    }
  }

  lemma {:induction false} AddAllTagsNoDuplicates(tags: seq<Tag>, ds: seq<Tag>, bound: nat)
    requires forall d :: d in ds ==> Rank(d) < bound
    requires NoDuplicates(tags)
    ensures NoDuplicates(AddAllTags(tags, ds, bound))
    decreases bound, 0, |ds|
  {
    if ds != [] {
      AddTagsNoDuplicates(tags, ds[0]);
      AddAllTagsNoDuplicates(AddTags(tags, ds[0]), ds[1..], bound);
    }
  }

  /** Registering identities of rank below `bound` adds only identities of rank
      below `bound`: in particular it never adds the function being registered. */
  lemma {:induction false} AddAllTagsOnlyLower(tags: seq<Tag>, ds: seq<Tag>, bound: nat, t: Tag)
    requires forall d :: d in ds ==> Rank(d) < bound
    requires Rank(t) >= bound && t !in tags
    ensures t !in AddAllTags(tags, ds, bound)
    decreases bound, 0, |ds|
  {
    if ds != [] {
      AddTagsOnlyLower(tags, ds[0], t);
      AddAllTagsOnlyLower(AddTags(tags, ds[0]), ds[1..], bound, t);
    }
  }

  lemma {:induction false} AddTagsOnlyLower(tags: seq<Tag>, d: Tag, t: Tag)
    requires Rank(t) > Rank(d) && t !in tags
    ensures t !in AddTags(tags, d)
    decreases Rank(d), 1
  {
    if d !in tags {
      AddAllTagsOnlyLower(tags, Dependencies(d), Rank(d), t);
    }
  }

  /** Registration keeps every dependency before its dependent. */
  lemma {:induction false} AddTagsDependenciesFirst(tags: seq<Tag>, t: Tag)
    requires DependenciesFirst(tags)
    ensures DependenciesFirst(AddTags(tags, t))
    decreases Rank(t), 1
  {
    if t !in tags {
      var mid := AddAllTags(tags, Dependencies(t), Rank(t));
      AddAllTagsDependenciesFirst(tags, Dependencies(t), Rank(t));
      AddAllTagsExtends(tags, Dependencies(t), Rank(t));
      var r := mid + [t];
      forall i, d | 0 <= i < |r| && d in Dependencies(r[i]) ensures d in r[..i] {
        if i < |mid| {
          assert r[..i] == mid[..i];
        } else {
          assert r[..i] == mid;
        }
      }
    }
  }

  lemma {:induction false} AddAllTagsDependenciesFirst(tags: seq<Tag>, ds: seq<Tag>, bound: nat)
    requires forall d :: d in ds ==> Rank(d) < bound
    requires DependenciesFirst(tags)
    ensures DependenciesFirst(AddAllTags(tags, ds, bound))
    decreases bound, 0, |ds|
  {
    if ds != [] {
      AddTagsDependenciesFirst(tags, ds[0]);
      AddAllTagsDependenciesFirst(AddTags(tags, ds[0]), ds[1..], bound);
    }
  }

  /** Average registers Sum, then Count. */
  lemma AverageRegisters(tags: seq<Tag>)
    ensures AddAllTags(tags, Dependencies(AverageTag), Rank(AverageTag)) == AddTags(AddTags(tags, SumTag), CountTag)
  {
    AddAllTagsPair(tags, SumTag, CountTag, Rank(AverageTag));
  }

  /** UncorrectedVariance registers SumOfSquares, Count, then Average. */
  lemma UncorrectedVarianceRegisters(tags: seq<Tag>)
    ensures AddAllTags(tags, Dependencies(UncorrectedVarianceTag), Rank(UncorrectedVarianceTag))
      == AddTags(AddTags(AddTags(tags, SumOfSquaresTag), CountTag), AverageTag)
  {
    AddAllTagsTriple(tags, SumOfSquaresTag, CountTag, AverageTag, Rank(UncorrectedVarianceTag));
  }

  /** UnbiasedVariance registers UncorrectedVariance, then Count. */
  lemma UnbiasedVarianceRegisters(tags: seq<Tag>)
    ensures AddAllTags(tags, Dependencies(UnbiasedVarianceTag), Rank(UnbiasedVarianceTag))
      == AddTags(AddTags(tags, UncorrectedVarianceTag), CountTag)
  {
    AddAllTagsPair(tags, UncorrectedVarianceTag, CountTag, Rank(UnbiasedVarianceTag));
  }
}
