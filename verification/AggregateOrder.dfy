/**
 When the order of the records does not matter for an aggregation: for `min` and `max` this takes more than merging
 does, because Python holds different values equal.
 */
module AggregateOrder {
  import opened Json
  import opened Options
  import opened Sequences
  import opened Sorting
  import opened Records
  import opened Predicates
  import opened Aggregation
  import opened Grouping
  import opened ShardMerge
  import opened MergeExactly

  // ---------- the better of two values, either way round ----------

  predicate Commutes(x: Json, y: Json, wantMax: bool) {
    Better(x, y, wantMax) == Better(y, x, wantMax)
  }

  predicate CommutesOver(values: seq<Json>, wantMax: bool) {
    forall x <- values, y <- values :: Commutes(x, y, wantMax)
  }

  /** Two values commute exactly when they do not tie, or are the same value. */
  lemma CommutesExactly(x: Json, y: Json, wantMax: bool)
    ensures Commutes(x, y, wantMax) <==> (PyCompare(x, y) == Some(0) ==> x == y)
  {
    ComparisonFitsEquality(x, y);
  }

  predicate OrderFree(values: seq<Json>, wantMax: bool) {
    AssociatesOver(values, wantMax) && CommutesOver(values, wantMax)
  }

  /** The results of `min` or `max` over lists of given values. */
  predicate Result(e: Option<Json>, all: seq<Json>) {
    e.Some? ==> e.value == Null || e.value in all
  }

  lemma ExtremeIsResult(values: seq<Json>, all: seq<Json>, wantMax: bool)
    requires Over(values, all)
    ensures Result(ExtremeOf(values, wantMax), all)
  {
    if values != [] { ExtremeIsOver(values, all, wantMax); }
  }

  /** A value may change its place among combined results. */
  lemma CombineExchanges(e: Option<Json>, x: Json, f: Option<Json>, all: seq<Json>, operation: Operation)
    requires IsExtreme(operation) && OrderFree(all, operation.Max?) && Null !in all
    requires Result(e, all) && x in all && Result(f, all)
    ensures CombineResults(operation, e, CombineResults(operation, Some(x), f))
         == CombineResults(operation, Some(x), CombineResults(operation, e, f))
  {
    if e.Some? && f.Some? && e.value != Null {
      var wantMax := operation.Max?;
      assert Commutes(e.value, x, wantMax);
      if f.value != Null {
        assert Associates(e.value, x, f.value, wantMax) && Associates(x, e.value, f.value, wantMax);
        BetterIsNotNull(e.value, f.value, wantMax, all);
        BetterIsNotNull(x, f.value, wantMax, all);
      }
    }
  }

  lemma BetterIsNotNull(x: Json, y: Json, wantMax: bool, all: seq<Json>)
    requires Null !in all && x in all && y in all
    ensures Better(x, y, wantMax).Some? ==> Better(x, y, wantMax).value != Null
  {
  }

  lemma OneValueExtreme(x: Json, wantMax: bool)
    ensures ExtremeOf([x], wantMax) == Some(x)
  {
    assert [x][1..] == [];
  }

  /** The extreme of a list from which one value is taken out and put first. */
  lemma ExtremeAround(a: seq<Json>, x: Json, b: seq<Json>, all: seq<Json>, operation: Operation)
    requires IsExtreme(operation) && OrderFree(all, operation.Max?) && Null !in all
    requires Over(a, all) && x in all && Over(b, all)
    ensures ExtremeOf(a + [x] + b, operation.Max?)
         == CombineResults(operation, Some(x), ExtremeOf(a + b, operation.Max?))
  {
    var wantMax := operation.Max?;
    assert a + [x] + b == a + ([x] + b);
    ExtremeOfConcat([x], b, all, operation);
    ExtremeOfConcat(a, [x] + b, all, operation);
    ExtremeOfConcat(a, b, all, operation);
    OneValueExtreme(x, wantMax);
    ExtremeIsResult(a, all, wantMax);
    ExtremeIsResult(b, all, wantMax);
    CombineExchanges(ExtremeOf(a, wantMax), x, ExtremeOf(b, wantMax), all, operation);
  }

  lemma {:induction false} ExtremePermutes(a: seq<Json>, b: seq<Json>, all: seq<Json>, operation: Operation)
    requires IsExtreme(operation) && OrderFree(all, operation.Max?) && Null !in all
    requires Over(a, all) && multiset(a) == multiset(b)
    ensures ExtremeOf(a, operation.Max?) == ExtremeOf(b, operation.Max?)
  {
    if a == [] {
      assert |multiset(b)| == |b|;
    } else {
      var i := FirstElsewhere(a, b);
      SameMembers(a, b);
      assert a == [] + [a[0]] + a[1..] && [] + a[1..] == a[1..];
      assert forall v <- b[..i] + b[i + 1..] :: v in b;
      ExtremePermutes(a[1..], b[..i] + b[i + 1..], all, operation);
      ExtremeAround([], a[0], a[1..], all, operation);
      ExtremeAround(b[..i], b[i], b[i + 1..], all, operation);
    }
  }

  lemma SameMembers<T>(a: seq<T>, b: seq<T>)
    requires multiset(a) == multiset(b)
    ensures forall x :: x in a <==> x in b
  {
    assert forall x :: x in a <==> x in multiset(a);
    assert forall x :: x in b <==> x in multiset(b);
  }

  /** Lists of the given values have the extreme of their permutations. */
  ghost predicate PermutesOver(all: seq<Json>, wantMax: bool) {
    forall a, b :: Over(a, all) && multiset(a) == multiset(b) ==> ExtremeOf(a, wantMax) == ExtremeOf(b, wantMax)
  }

  lemma TwoValues(x: Json, y: Json, wantMax: bool)
    ensures ExtremeOf([x, y], wantMax) == Better(x, y, wantMax)
  {
    assert [x, y][1..] == [y];
    ExtremeOfOneMore(x, y, wantMax);
  }

  lemma PairCommutes(x: Json, y: Json, wantMax: bool)
    requires ExtremeOf([x, y], wantMax) == ExtremeOf([y, x], wantMax)
    ensures Commutes(x, y, wantMax)
  {
    TwoValues(x, y, wantMax);
    TwoValues(y, x, wantMax);
  }

  lemma ThreeValues(x: Json, y: Json, z: Json, wantMax: bool)
    ensures
      var xy := Better(x, y, wantMax);
      ExtremeOf([x, y, z], wantMax) == if xy.Some? then Better(xy.value, z, wantMax) else None
  {
    assert [x, y, z][1..] == [y, z] && [y, z][1..] == [z];
    var xy := Better(x, y, wantMax);
    if xy.Some? { ExtremeOfOneMore(xy.value, z, wantMax); }
  }

  lemma TripleAssociates(x: Json, y: Json, z: Json, wantMax: bool)
    requires ExtremeOf([x, y, z], wantMax) == ExtremeOf([y, z, x], wantMax)
    requires Commutes(x, y, wantMax) && Commutes(x, z, wantMax)
    ensures Associates(x, y, z, wantMax)
  {
    ThreeValues(x, y, z, wantMax);
    ThreeValues(y, z, x, wantMax);
  }

  lemma Turned<T>(x: T, y: T, z: T)
    ensures multiset([x, y, z]) == multiset([y, z, x])
  {
    assert [x, y, z] == [x] + [y, z] && [y, z, x] == [y, z] + [x];
  }

  lemma PairPermutes(x: Json, y: Json, all: seq<Json>, wantMax: bool)
    requires PermutesOver(all, wantMax) && x in all && y in all
    ensures Commutes(x, y, wantMax)
  {
    assert Over([x, y], all) && multiset([x, y]) == multiset([y, x]);
    PairCommutes(x, y, wantMax);
  }

  lemma TriplePermutes(x: Json, y: Json, z: Json, all: seq<Json>, wantMax: bool)
    requires PermutesOver(all, wantMax) && x in all && y in all && z in all
    ensures Associates(x, y, z, wantMax)
  {
    Turned(x, y, z);
    assert Over([x, y, z], all);
    assert ExtremeOf([x, y, z], wantMax) == ExtremeOf([y, z, x], wantMax);
    PairPermutes(x, y, all, wantMax);
    PairPermutes(x, z, all, wantMax);
    TripleAssociates(x, y, z, wantMax);
  }

  /**
   The order of given values never matters exactly when keeping the better one is associative and commutative on them.
   */
  lemma ExtremesPermuteExactly(all: seq<Json>, operation: Operation)
    requires IsExtreme(operation) && Null !in all
    ensures PermutesOver(all, operation.Max?) <==> OrderFree(all, operation.Max?)
  {
    var wantMax := operation.Max?;
    if OrderFree(all, wantMax) {
      forall a, b | Over(a, all) && multiset(a) == multiset(b)
        ensures ExtremeOf(a, wantMax) == ExtremeOf(b, wantMax)
      {
        ExtremePermutes(a, b, all, operation);
      }
    }
    if PermutesOver(all, wantMax) {
      forall x, y | x in all && y in all
        ensures Commutes(x, y, wantMax)
      {
        PairPermutes(x, y, all, wantMax);
      }
      forall x, y, z | x in all && y in all && z in all
        ensures Associates(x, y, z, wantMax)
      {
        TriplePermutes(x, y, z, all, wantMax);
      }
    }
  }

  // ---------- one aggregation ----------

  lemma ValuesAround(a: seq<Record>, r: Record, b: seq<Record>, field: string)
    ensures Values(a + [r] + b, field) == Values(a, field) + Values([r], field) + Values(b, field)
  {
    ValuesConcat(a, [r], field);
    ValuesConcat(a + [r], b, field);
  }

  lemma {:induction false} ValuesPermute(a: seq<Record>, b: seq<Record>, field: string)
    requires multiset(a) == multiset(b)
    ensures multiset(Values(a, field)) == multiset(Values(b, field))
  {
    if a == [] {
      assert |multiset(b)| == |b|;
    } else {
      var i := FirstElsewhere(a, b);
      assert a == [] + [a[0]] + a[1..];
      ValuesPermute(a[1..], b[..i] + b[i + 1..], field);
      ValuesAround([], a[0], a[1..], field);
      ValuesAround(b[..i], b[i], b[i + 1..], field);
      ValuesConcat(b[..i], b[i + 1..], field);
    }
  }

  lemma {:induction false} SumPermutes(a: seq<Json>, b: seq<Json>)
    requires multiset(a) == multiset(b)
    ensures SumOf(a) == SumOf(b)
  {
    if a == [] {
      assert |multiset(b)| == |b|;
    } else {
      var i := FirstElsewhere(a, b);
      assert a == [a[0]] + a[1..];
      SumPermutes(a[1..], b[..i] + b[i + 1..]);
      SumConcat(b[..i] + [b[i]], b[i + 1..]);
      SumConcat(b[..i], [b[i]]);
      SumConcat(b[..i], b[i + 1..]);
      SumConcat([a[0]], a[1..]);
    }
  }

  /** What an aggregation needs so that the order of the records does not matter. */
  predicate OrderFreeFor(records: seq<Record>, operation: Operation) {
    IsExtreme(operation) ==> OrderFree(Values(records, operation.field), operation.Max?)
  }

  lemma AggregatePermutes(a: seq<Record>, b: seq<Record>, operation: Operation)
    requires multiset(a) == multiset(b) && OrderFreeFor(a, operation)
    ensures AggregateValues(a, operation) == AggregateValues(b, operation)
  {
    assert |a| == |multiset(a)| == |multiset(b)| == |b|;
    if !operation.CountRows? {
      var x, y := Values(a, operation.field), Values(b, operation.field);
      ValuesPermute(a, b, operation.field);
      SameMembers(x, y);
      assert |x| == |multiset(x)| == |multiset(y)| == |y|;
      match operation
      case Count(_) =>
      case CountDistinct(_) => assert Texts(x) == Texts(y);
      case Sum(_) => SumPermutes(x, y);
      case Min(_) => PermutedExtreme(a, b, operation);
      case Max(_) => PermutedExtreme(a, b, operation);
    }
  }

  lemma PermutedExtreme(a: seq<Record>, b: seq<Record>, operation: Operation)
    requires IsExtreme(operation) && OrderFreeFor(a, operation)
    requires multiset(Values(a, operation.field)) == multiset(Values(b, operation.field))
    ensures AggregateValues(a, operation) == AggregateValues(b, operation)
  {
    var x, y := Values(a, operation.field), Values(b, operation.field);
    ValueMembers(a, operation.field, Null);
    ExtremePermutes(x, y, x, operation);
  }

  // ---------- all rows ----------

  predicate OrderFreeOver(records: seq<Record>, groupBy: seq<string>, aggregations: seq<RecordAggregation>) {
    forall r <- records, g <- aggregations ::
      OrderFreeFor(GroupOf(records, groupBy, KeyOf(r, groupBy)), g.operation)
  }

  lemma GroupAround(a: seq<Record>, r: Record, b: seq<Record>, groupBy: seq<string>, key: GroupKey)
    ensures GroupOf(a + [r] + b, groupBy, key)
         == GroupOf(a, groupBy, key) + GroupOf([r], groupBy, key) + GroupOf(b, groupBy, key)
  {
    GroupConcat(a, [r], groupBy, key);
    GroupConcat(a + [r], b, groupBy, key);
  }

  lemma {:induction false} GroupPermutes(a: seq<Record>, b: seq<Record>, groupBy: seq<string>, key: GroupKey)
    requires multiset(a) == multiset(b)
    ensures multiset(GroupOf(a, groupBy, key)) == multiset(GroupOf(b, groupBy, key))
  {
    if a == [] {
      assert |multiset(b)| == |b|;
    } else {
      var i := FirstElsewhere(a, b);
      assert a == [] + [a[0]] + a[1..];
      GroupPermutes(a[1..], b[..i] + b[i + 1..], groupBy, key);
      GroupAround([], a[0], a[1..], groupBy, key);
      GroupAround(b[..i], b[i], b[i + 1..], groupBy, key);
      GroupConcat(b[..i], b[i + 1..], groupBy, key);
    }
  }

  lemma GroupKeysPermute(a: seq<Record>, b: seq<Record>, groupBy: seq<string>)
    requires multiset(a) == multiset(b)
    ensures GroupKeys(a, groupBy) == GroupKeys(b, groupBy)
  {
    var x, y := KeysInOrder(a, groupBy), KeysInOrder(b, groupBy);
    assert |a| == |multiset(a)| == |multiset(b)| == |b|;
    forall k
      ensures k in x <==> k in y
    {
      GroupPermutes(a, b, groupBy, k);
      GroupNonEmpty(a, groupBy, k);
      GroupNonEmpty(b, groupBy, k);
      assert |GroupOf(a, groupBy, k)| == |multiset(GroupOf(a, groupBy, k))|;
      assert |GroupOf(b, groupBy, k)| == |multiset(GroupOf(b, groupBy, k))|;
    }
    KeysDistinct(a, groupBy);
    KeysDistinct(b, groupBy);
    SameElementsSameMultiset(x, y);
    KeyOrderTotal();
    SortOfPermutation(x, y, KeyOrder());
  }

  lemma {:induction false} OutputsPermute(a: seq<Record>, b: seq<Record>, aggregations: seq<RecordAggregation>)
    requires multiset(a) == multiset(b) && forall g <- aggregations :: OrderFreeFor(a, g.operation)
    ensures OutputFields(a, aggregations) == OutputFields(b, aggregations)
  {
    if aggregations != [] {
      AggregatePermutes(a, b, aggregations[0].operation);
      OutputsPermute(a, b, aggregations[1..]);
    }
  }

  lemma FirstFieldsPermute(a: seq<Record>, b: seq<Record>, groupBy: seq<string>, key: GroupKey)
    requires SameKey(a, groupBy, key) && SameKey(b, groupBy, key)
    ensures GroupFields(a[0], groupBy) == GroupFields(b[0], groupBy)
  {
    assert a[0] in a && b[0] in b;
    SameKeySameGroupFields(a[0], b[0], groupBy);
  }

  lemma GroupIsOrderFree(records: seq<Record>, groupBy: seq<string>, aggregations: seq<RecordAggregation>,
                         key: GroupKey)
    requires OrderFreeOver(records, groupBy, aggregations)
    ensures forall g <- aggregations :: OrderFreeFor(GroupOf(records, groupBy, key), g.operation)
  {
    var group := GroupOf(records, groupBy, key);
    GroupMembers(records, groupBy, key);
    if group != [] { assert group[0] in group && KeyOf(group[0], groupBy) == key; }
  }

  /** Each group has the same outputs in both lists. */
  ghost predicate GroupsAlike(a: seq<Record>, b: seq<Record>, groupBy: seq<string>,
                              aggregations: seq<RecordAggregation>)
  {
    forall key ::
      OutputFields(GroupOf(a, groupBy, key), aggregations) == OutputFields(GroupOf(b, groupBy, key), aggregations)
  }

  lemma OrderFreeAlike(a: seq<Record>, b: seq<Record>, groupBy: seq<string>, aggregations: seq<RecordAggregation>)
    requires multiset(a) == multiset(b) && OrderFreeOver(a, groupBy, aggregations)
    ensures GroupsAlike(a, b, groupBy, aggregations)
  {
    forall key
      ensures OutputFields(GroupOf(a, groupBy, key), aggregations)
           == OutputFields(GroupOf(b, groupBy, key), aggregations)
    {
      GroupPermutes(a, b, groupBy, key);
      GroupIsOrderFree(a, groupBy, aggregations, key);
      OutputsPermute(GroupOf(a, groupBy, key), GroupOf(b, groupBy, key), aggregations);
    }
  }

  /** The group of a key has the same row in both lists. */
  lemma RowPermutes(a: seq<Record>, b: seq<Record>, groupBy: seq<string>, aggregations: seq<RecordAggregation>,
                    key: GroupKey)
    requires multiset(a) == multiset(b) && GroupsAlike(a, b, groupBy, aggregations)
    ensures RowOf(GroupOf(a, groupBy, key), groupBy, aggregations)
         == RowOf(GroupOf(b, groupBy, key), groupBy, aggregations)
  {
    var x, y := GroupOf(a, groupBy, key), GroupOf(b, groupBy, key);
    GroupPermutes(a, b, groupBy, key);
    GroupMembers(a, groupBy, key);
    GroupMembers(b, groupBy, key);
    assert |x| == |multiset(x)| == |multiset(y)| == |y|;
    if x != [] { FirstFieldsPermute(x, y, groupBy, key); }
  }

  lemma {:induction false} RowsPermute(a: seq<Record>, b: seq<Record>, keys: seq<GroupKey>, groupBy: seq<string>,
                                       aggregations: seq<RecordAggregation>)
    requires multiset(a) == multiset(b) && GroupsAlike(a, b, groupBy, aggregations)
    ensures RowsFor(a, keys, groupBy, aggregations) == RowsFor(b, keys, groupBy, aggregations)
  {
    if keys != [] {
      RowPermutes(a, b, groupBy, aggregations, keys[0]);
      RowsPermute(a, b, keys[1..], groupBy, aggregations);
    }
  }

  lemma AlikeGroupsAggregate(a: seq<Record>, b: seq<Record>, groupBy: seq<string>,
                             aggregations: seq<RecordAggregation>)
    requires multiset(a) == multiset(b) && GroupsAlike(a, b, groupBy, aggregations)
    ensures AggregateRecords(a, aggregations, groupBy) == AggregateRecords(b, aggregations, groupBy)
  {
    GroupKeysPermute(a, b, groupBy);
    RowsPermute(a, b, GroupKeys(a, groupBy), groupBy, aggregations);
  }

  /** The same records in another order have the same rows, where each aggregation is free of order on each group. */
  lemma AggregationIgnoresOrder(a: seq<Record>, b: seq<Record>, groupBy: seq<string>,
                                aggregations: seq<RecordAggregation>)
    requires multiset(a) == multiset(b) && OrderFreeOver(a, groupBy, aggregations)
    ensures AggregateRecords(a, aggregations, groupBy) == AggregateRecords(b, aggregations, groupBy)
  {
    OrderFreeAlike(a, b, groupBy, aggregations);
    AlikeGroupsAggregate(a, b, groupBy, aggregations);
  }

  // ---------- exactly when the order of the records does not matter ----------

  /** Every two orders of records from the list have the same rows. */
  ghost predicate OrderNeverMatters(records: seq<Record>, groupBy: seq<string>, aggregations: seq<RecordAggregation>) {
    forall a, b :: (forall r <- a :: r in records) && multiset(a) == multiset(b) ==>
      AggregateRecords(a, aggregations, groupBy) == AggregateRecords(b, aggregations, groupBy)
  }

  /** Records with one key have the same outputs in both orders. */
  lemma SameRowSameOutputs(a: seq<Record>, b: seq<Record>, groupBy: seq<string>, aggregations: seq<RecordAggregation>,
                           key: GroupKey)
    requires ValidRequest(aggregations, groupBy) && SameKey(a, groupBy, key) && SameKey(b, groupBy, key)
    requires AggregateRecords(a, aggregations, groupBy) == AggregateRecords(b, aggregations, groupBy)
    ensures OutputFields(a, aggregations) == OutputFields(b, aggregations)
  {
    SameKeyRows(a, groupBy, aggregations, key);
    SameKeyRows(b, groupBy, aggregations, key);
    if RowOf(a, groupBy, aggregations).Some? {
      var x := RowIsFieldsAndOutputs(a, groupBy, aggregations);
      var y := RowIsFieldsAndOutputs(b, groupBy, aggregations);
      SameSuffix(GroupFields(a[0], groupBy), x, GroupFields(b[0], groupBy), y);
    }
  }

  // ---------- for every list of aggregations ----------

  /** Swapping the last two of records from the list changes no output and no failure. */
  ghost predicate SwapsAlike(group: seq<Record>, aggregations: seq<RecordAggregation>) {
    forall a, s, t :: (forall r <- a :: r in group) && s in group && t in group ==>
      OutputFields(a + [s, t], aggregations) == OutputFields(a + [t, s], aggregations)
  }

  /** What a record more makes of a result follows from the result, in whatever order it was found. */
  lemma OneMoreResult(a: seq<Record>, b: seq<Record>, r: Record, operation: Operation)
    requires multiset(a) == multiset(b) && AggregateValues(a, operation) == AggregateValues(b, operation)
    ensures AggregateValues(a + [r], operation) == AggregateValues(b + [r], operation)
    ensures AggregateValues(a, operation).None? ==> AggregateValues(a + [r], operation).None?
  {
    if Mergeable(operation) {
      OneMoreSplits(a, r, operation);
      OneMoreSplits(b, r, operation);
    } else {
      AggregatePermutes(a + [r], b + [r], operation);
    }
  }

  lemma {:induction false} OneMoreOutputs(a: seq<Record>, b: seq<Record>, r: Record,
                                          aggregations: seq<RecordAggregation>)
    requires multiset(a) == multiset(b)
    requires forall g <- aggregations :: AggregateValues(a, g.operation) == AggregateValues(b, g.operation)
    ensures OutputFields(a + [r], aggregations) == OutputFields(b + [r], aggregations)
  {
    if aggregations != [] {
      assert aggregations[0] in aggregations;
      OneMoreResult(a, b, r, aggregations[0].operation);
      OneMoreOutputs(a, b, r, aggregations[1..]);
    }
  }

  /** Equal outputs stay equal when a record is added. */
  lemma SameOutputsGrow(a: seq<Record>, b: seq<Record>, r: Record, aggregations: seq<RecordAggregation>)
    requires OutputsDiffer(aggregations) && multiset(a) == multiset(b)
    requires OutputFields(a, aggregations) == OutputFields(b, aggregations)
    ensures OutputFields(a + [r], aggregations) == OutputFields(b + [r], aggregations)
  {
    if OutputFields(a, aggregations).Some? {
      OutputsHeld(a, aggregations);
      OutputsHeld(b, aggregations);
      OneMoreOutputs(a, b, r, aggregations);
    } else {
      FailureStays(a, r, aggregations);
      FailureStays(b, r, aggregations);
    }
  }

  lemma FailureStays(a: seq<Record>, r: Record, aggregations: seq<RecordAggregation>)
    requires OutputFields(a, aggregations).None?
    ensures OutputFields(a + [r], aggregations).None?
  {
    OutputsExist(a, aggregations);
    OutputsExist(a + [r], aggregations);
    var g :| g in aggregations && AggregateValues(a, g.operation).None?;
    OneMoreResult(a, a, r, g.operation);
  }

  /** Equal outputs stay equal when the same records are added. */
  lemma {:induction false} SameOutputsExtend(a: seq<Record>, b: seq<Record>, rest: seq<Record>,
                                             aggregations: seq<RecordAggregation>)
    requires OutputsDiffer(aggregations) && multiset(a) == multiset(b)
    requires OutputFields(a, aggregations) == OutputFields(b, aggregations)
    ensures OutputFields(a + rest, aggregations) == OutputFields(b + rest, aggregations)
  {
    if rest == [] {
      assert a + rest == a && b + rest == b;
    } else {
      var n := |rest| - 1;
      assert a + rest == (a + rest[..n]) + [rest[n]] && b + rest == (b + rest[..n]) + [rest[n]];
      SameOutputsExtend(a, b, rest[..n], aggregations);
      SameOutputsGrow(a + rest[..n], b + rest[..n], rest[n], aggregations);
    }
  }

  lemma Rearranged<T>(p: seq<T>, t: T, u: T, rest: seq<T>)
    ensures p + [t] + ([u] + rest) == (p + [t, u]) + rest
    ensures (p + [u, t]) + rest == (p + [u]) + [t] + rest
    ensures (p + [u]) + rest + [t] == p + ([u] + rest) + [t]
    ensures multiset(p + [t, u]) == multiset(p + [u, t])
  {
    assert multiset([t, u]) == multiset([u, t]);
  }

  lemma TakenOut<T>(p: seq<T>, t: T, q: seq<T>, rest: seq<T>)
    requires multiset(p + [t] + q) == multiset(rest + [t])
    ensures multiset(p + q) == multiset(rest)
  {
    assert multiset(p + [t] + q) == multiset(p + q) + multiset{t};
    assert multiset(p + q) == multiset(rest + [t]) - multiset{t};
    assert multiset(rest) == multiset(rest + [t]) - multiset{t};
  }

  /** A record may go to the end. */
  lemma {:induction false} MoveToEnd(group: seq<Record>, p: seq<Record>, t: Record, q: seq<Record>,
                                     aggregations: seq<RecordAggregation>)
    requires OutputsDiffer(aggregations) && SwapsAlike(group, aggregations)
    requires t in group && forall r <- p + q :: r in group
    ensures OutputFields(p + [t] + q, aggregations) == OutputFields(p + q + [t], aggregations)
    decreases q
  {
    if q == [] {
      assert p + [t] + q == p + q + [t];
    } else {
      var u, rest := q[0], q[1..];
      assert q == [u] + rest && u in p + q && (forall r <- p :: r in p + q);
      assert forall r <- (p + [u]) + rest :: r in p + q;
      Rearranged(p, t, u, rest);
      SameOutputsExtend(p + [t, u], p + [u, t], rest, aggregations);
      MoveToEnd(group, p + [u], t, rest, aggregations);
    }
  }

  lemma {:induction false} SwapsPermute(group: seq<Record>, a: seq<Record>, b: seq<Record>,
                                        aggregations: seq<RecordAggregation>)
    requires OutputsDiffer(aggregations) && SwapsAlike(group, aggregations)
    requires multiset(a) == multiset(b) && forall r <- a :: r in group
    ensures OutputFields(a, aggregations) == OutputFields(b, aggregations)
    decreases |b|
  {
    SameMembers(a, b);
    if b == [] {
      assert |multiset(a)| == |a|;
    } else {
      var n := |b| - 1;
      var t, rest := b[n], b[..n];
      assert b == rest + [t] && t in a;
      var i :| 0 <= i < |a| && a[i] == t;
      var p, q := a[..i], a[i + 1..];
      assert a == p + [t] + q && forall r <- p + q :: r in a;
      MoveToEnd(group, p, t, q, aggregations);
      TakenOut(p, t, q, rest);
      SwapsPermute(group, p + q, rest, aggregations);
      SameOutputsGrow(p + q, rest, t, aggregations);
    }
  }

  lemma SteadySwaps(group: seq<Record>, groupBy: seq<string>, aggregations: seq<RecordAggregation>, key: GroupKey)
    requires ValidRequest(aggregations, groupBy) && SameKey(group, groupBy, key)
    requires OrderNeverMatters(group, groupBy, aggregations)
    ensures SwapsAlike(group, aggregations)
  {
    forall a, s, t | (forall r <- a :: r in group) && s in group && t in group
      ensures OutputFields(a + [s, t], aggregations) == OutputFields(a + [t, s], aggregations)
    {
      Rearranged(a, s, t, []);
      SameRowSameOutputs(a + [s, t], a + [t, s], groupBy, aggregations, key);
    }
  }

  lemma SwappingGroupsAlike(records: seq<Record>, a: seq<Record>, b: seq<Record>, groupBy: seq<string>,
                            aggregations: seq<RecordAggregation>)
    requires OutputsDiffer(aggregations) && multiset(a) == multiset(b) && forall r <- a :: r in records
    requires forall r <- records :: SwapsAlike(GroupOf(records, groupBy, KeyOf(r, groupBy)), aggregations)
    ensures GroupsAlike(a, b, groupBy, aggregations)
  {
    forall key
      ensures OutputFields(GroupOf(a, groupBy, key), aggregations)
           == OutputFields(GroupOf(b, groupBy, key), aggregations)
    {
      var x, y := GroupOf(a, groupBy, key), GroupOf(b, groupBy, key);
      GroupPermutes(a, b, groupBy, key);
      if x == [] {
        assert |multiset(x)| == |multiset(y)| == |y|;
      } else {
        GroupMembers(a, groupBy, key);
        assert x[0] in x;
        GroupOfPart(records, a, groupBy, key);
        SwapsPermute(GroupOf(records, groupBy, key), x, y, aggregations);
      }
    }
  }

  /**
   For every list of aggregations: the order of records never matters exactly when swapping the last two of one group
   changes no output and no failure.
   */
  lemma SwapsDecideOrder(records: seq<Record>, groupBy: seq<string>, aggregations: seq<RecordAggregation>)
    requires ValidRequest(aggregations, groupBy)
    ensures OrderNeverMatters(records, groupBy, aggregations)
       <==> forall r <- records :: SwapsAlike(GroupOf(records, groupBy, KeyOf(r, groupBy)), aggregations)
  {
    if forall r <- records :: SwapsAlike(GroupOf(records, groupBy, KeyOf(r, groupBy)), aggregations) {
      forall a, b | (forall r <- a :: r in records) && multiset(a) == multiset(b)
        ensures AggregateRecords(a, aggregations, groupBy) == AggregateRecords(b, aggregations, groupBy)
      {
        SwappingGroupsAlike(records, a, b, groupBy, aggregations);
        AlikeGroupsAggregate(a, b, groupBy, aggregations);
      }
    }
    if OrderNeverMatters(records, groupBy, aggregations) {
      forall r | r in records
        ensures SwapsAlike(GroupOf(records, groupBy, KeyOf(r, groupBy)), aggregations)
      {
        var key := KeyOf(r, groupBy);
        GroupHas(records, groupBy, r);
        GroupMembers(records, groupBy, key);
        SteadySwaps(GroupOf(records, groupBy, key), groupBy, aggregations, key);
      }
    }
  }

  // ---------- where one aggregation at most can fail ----------

  /** Records with one key give `g` the same result in both orders, where the other aggregations cannot fail. */
  lemma SameRowSameResult(group: seq<Record>, a: seq<Record>, b: seq<Record>, groupBy: seq<string>,
                          aggregations: seq<RecordAggregation>, g: RecordAggregation, key: GroupKey)
    requires ValidRequest(aggregations, groupBy) && g in aggregations
    requires SameKey(a, groupBy, key) && SameKey(b, groupBy, key)
    requires forall r <- a + b :: r in group
    requires AggregateRecords(a, aggregations, groupBy) == AggregateRecords(b, aggregations, groupBy)
    requires forall h <- aggregations | h != g :: CannotFail(group, h.operation)
    ensures AggregateValues(a, g.operation) == AggregateValues(b, g.operation)
  {
    SameKeyRows(a, groupBy, aggregations, key);
    SameKeyRows(b, groupBy, aggregations, key);
    OutputsExist(a, aggregations);
    OutputsExist(b, aggregations);
    assert (forall r <- a :: r in a + b) && (forall r <- b :: r in a + b);
    forall h | h in aggregations && h != g
      ensures AggregateValues(a, h.operation).Some? && AggregateValues(b, h.operation).Some?
    {
      CannotFailSucceeds(group, a, h.operation);
      CannotFailSucceeds(group, b, h.operation);
    }
    if RowOf(a, groupBy, aggregations).Some? {
      RowHoldsOutputs(a, groupBy, aggregations);
      RowHoldsOutputs(b, groupBy, aggregations);
    }
  }

  /** All hypotheses about one group whose order never matters. */
  ghost predicate SteadyGroup(group: seq<Record>, groupBy: seq<string>, aggregations: seq<RecordAggregation>,
                              g: RecordAggregation, key: GroupKey)
  {
    && ValidRequest(aggregations, groupBy) && g in aggregations && SameKey(group, groupBy, key)
    && OrderNeverMatters(group, groupBy, aggregations)
    && forall h <- aggregations | h != g :: CannotFail(group, h.operation)
  }

  lemma SteadyResult(group: seq<Record>, a: seq<Record>, b: seq<Record>, groupBy: seq<string>,
                     aggregations: seq<RecordAggregation>, g: RecordAggregation, key: GroupKey)
    requires SteadyGroup(group, groupBy, aggregations, g, key)
    requires a != [] && multiset(a) == multiset(b) && forall r <- a :: r in group
    ensures AggregateValues(a, g.operation) == AggregateValues(b, g.operation)
  {
    SameMembers(a, b);
    assert a[0] in a && |b| == |multiset(b)| == |multiset(a)| == |a|;
    SameRowSameResult(group, a, b, groupBy, aggregations, g, key);
  }

  lemma SteadyCommutes(group: seq<Record>, groupBy: seq<string>, aggregations: seq<RecordAggregation>,
                       g: RecordAggregation, key: GroupKey, x: Json, y: Json)
    requires SteadyGroup(group, groupBy, aggregations, g, key) && IsExtreme(g.operation)
    requires x in Values(group, g.operation.field) && y in Values(group, g.operation.field)
    ensures Commutes(x, y, g.operation.Max?)
  {
    var f := g.operation.field;
    var r := RecordWithValue(group, f, x);
    var s := RecordWithValue(group, f, y);
    assert multiset([r, s]) == multiset([s, r]);
    SteadyResult(group, [r, s], [s, r], groupBy, aggregations, g, key);
    TwoRecordValues(r, s, f, x, y);
    TwoRecordValues(s, r, f, y, x);
    PairCommutes(x, y, g.operation.Max?);
  }

  lemma ThreeRecordValues(r: Record, s: Record, t: Record, field: string, x: Json, y: Json, z: Json)
    requires FieldValue(r, field) == Found(x) && FieldValue(s, field) == Found(y) && FieldValue(t, field) == Found(z)
    requires !x.Null? && !y.Null? && !z.Null?
    ensures Values([r, s, t], field) == [x, y, z]
  {
    assert [r, s, t] == [r] + [s, t] && [x, y, z] == [x] + [y, z];
    OneRecordValue(r, field, x);
    TwoRecordValues(s, t, field, y, z);
    ValuesConcat([r], [s, t], field);
  }

  lemma SteadyTurn(group: seq<Record>, groupBy: seq<string>, aggregations: seq<RecordAggregation>,
                   g: RecordAggregation, key: GroupKey, r: Record, s: Record, t: Record)
    requires SteadyGroup(group, groupBy, aggregations, g, key) && r in group && s in group && t in group
    ensures AggregateValues([r, s, t], g.operation) == AggregateValues([s, t, r], g.operation)
  {
    Turned(r, s, t);
    SteadyResult(group, [r, s, t], [s, t, r], groupBy, aggregations, g, key);
  }

  lemma SteadyAssociates(group: seq<Record>, groupBy: seq<string>, aggregations: seq<RecordAggregation>,
                         g: RecordAggregation, key: GroupKey, x: Json, y: Json, z: Json)
    requires SteadyGroup(group, groupBy, aggregations, g, key) && IsExtreme(g.operation)
    requires var values := Values(group, g.operation.field); x in values && y in values && z in values
    ensures Associates(x, y, z, g.operation.Max?)
  {
    var f := g.operation.field;
    var r := RecordWithValue(group, f, x);
    var s := RecordWithValue(group, f, y);
    var t := RecordWithValue(group, f, z);
    SteadyTurn(group, groupBy, aggregations, g, key, r, s, t);
    ThreeRecordValues(r, s, t, f, x, y, z);
    ThreeRecordValues(s, t, r, f, y, z, x);
    SteadyCommutes(group, groupBy, aggregations, g, key, x, y);
    SteadyCommutes(group, groupBy, aggregations, g, key, x, z);
    TripleAssociates(x, y, z, g.operation.Max?);
  }

  lemma SteadyIsOrderFree(group: seq<Record>, groupBy: seq<string>, aggregations: seq<RecordAggregation>,
                          g: RecordAggregation, key: GroupKey)
    requires SteadyGroup(group, groupBy, aggregations, g, key)
    ensures OrderFreeFor(group, g.operation)
  {
    if IsExtreme(g.operation) {
      var values := Values(group, g.operation.field);
      forall x, y | x in values && y in values
        ensures Commutes(x, y, g.operation.Max?)
      {
        SteadyCommutes(group, groupBy, aggregations, g, key, x, y);
      }
      forall x, y, z | x in values && y in values && z in values
        ensures Associates(x, y, z, g.operation.Max?)
      {
        SteadyAssociates(group, groupBy, aggregations, g, key, x, y, z);
      }
    }
  }

  lemma OrderFreePart(records: seq<Record>, part: seq<Record>, groupBy: seq<string>,
                      aggregations: seq<RecordAggregation>)
    requires OrderFreeOver(records, groupBy, aggregations) && forall r <- part :: r in records
    ensures OrderFreeOver(part, groupBy, aggregations)
  {
    forall r, g | r in part && g in aggregations
      ensures OrderFreeFor(GroupOf(part, groupBy, KeyOf(r, groupBy)), g.operation)
    {
      if IsExtreme(g.operation) {
        var key := KeyOf(r, groupBy);
        GroupOfPart(records, part, groupBy, key);
        ValuesOfPart(GroupOf(records, groupBy, key), GroupOf(part, groupBy, key), g.operation.field);
        assert OrderFreeFor(GroupOf(records, groupBy, key), g.operation);
      }
    }
  }

  lemma OrderFreeNeverMatters(records: seq<Record>, groupBy: seq<string>, aggregations: seq<RecordAggregation>)
    requires OrderFreeOver(records, groupBy, aggregations)
    ensures OrderNeverMatters(records, groupBy, aggregations)
  {
    forall a, b | (forall r <- a :: r in records) && multiset(a) == multiset(b)
      ensures AggregateRecords(a, aggregations, groupBy) == AggregateRecords(b, aggregations, groupBy)
    {
      OrderFreePart(records, a, groupBy, aggregations);
      AggregationIgnoresOrder(a, b, groupBy, aggregations);
    }
  }

  /**
   The order of records never matters exactly when each aggregation is free of order on each group, for a single
   aggregation, and for several that cannot fail.
   */
  lemma OrderNeverMattersExactly(records: seq<Record>, groupBy: seq<string>, aggregations: seq<RecordAggregation>)
    requires ValidRequest(aggregations, groupBy)
    requires forall g <- aggregations :: OnlyFails(records, groupBy, aggregations, g)
    ensures OrderNeverMatters(records, groupBy, aggregations) <==> OrderFreeOver(records, groupBy, aggregations)
  {
    if OrderFreeOver(records, groupBy, aggregations) { OrderFreeNeverMatters(records, groupBy, aggregations); }
    if OrderNeverMatters(records, groupBy, aggregations) {
      forall r, g | r in records && g in aggregations
        ensures OrderFreeFor(GroupOf(records, groupBy, KeyOf(r, groupBy)), g.operation)
      {
        var key := KeyOf(r, groupBy);
        GroupHas(records, groupBy, r);
        GroupMembers(records, groupBy, key);
        assert OnlyFails(records, groupBy, aggregations, g);
        SteadyIsOrderFree(GroupOf(records, groupBy, key), groupBy, aggregations, g, key);
      }
    }
  }

  /** For one aggregation nothing else is asked. */
  lemma OneAggregationOrderExactly(records: seq<Record>, groupBy: seq<string>, g: RecordAggregation)
    requires ValidRequest([g], groupBy)
    ensures OrderNeverMatters(records, groupBy, [g]) <==> OrderFreeOver(records, groupBy, [g])
  {
    OrderNeverMattersExactly(records, groupBy, [g]);
  }

  /** What is free of order also merges, in every order of the records. */
  lemma OrderFreeSplits(a: seq<Record>, b: seq<Record>, groupBy: seq<string>, aggregations: seq<RecordAggregation>)
    requires multiset(a) == multiset(b) && OrderFreeOver(a, groupBy, aggregations)
    requires forall g <- aggregations :: Mergeable(g.operation)
    ensures SplitsOver(b, groupBy, aggregations)
  {
    SameMembers(a, b);
    forall r | r in a
      ensures MergesAll(GroupOf(a, groupBy, KeyOf(r, groupBy)), aggregations)
    {
    }
    SplitsOverPart(a, b, groupBy, aggregations);
  }

  /** `min` of `1` and `true`, which Python holds equal, is the one that comes first. */
  lemma OrderMattersForEqualValues()
    ensures
      var f := "v";
      var a, b: Record := map[f := Num(1)], map[f := Bool(true)];
      AggregateValues([a, b], Min(f)) == Some(Num(1)) && AggregateValues([b, a], Min(f)) == Some(Bool(true))
  {
    var f := "v";
    var a, b: Record := map[f := Num(1)], map[f := Bool(true)];
    assert [a, b] == [a] + [b] && [b, a] == [b] + [a];
    ValuesConcat([a], [b], f);
    ValuesConcat([b], [a], f);
    OneRecordValue(a, f, Num(1));
    OneRecordValue(b, f, Bool(true));
    TwoValues(Num(1), Bool(true), false);
    TwoValues(Bool(true), Num(1), false);
  }
}
