/**
 Exactly when the rows of any two shards can be merged by group key.
 */
module MergeExactly {
  import opened Json
  import opened Options
  import opened Records
  import opened Aggregation
  import opened Grouping
  import opened ShardMerge

  // ---------- the rows of one group ----------

  lemma MergeOneRow(x: Record, y: Record, groupBy: seq<string>, aggregations: seq<RecordAggregation>, key: GroupKey)
    requires RowKey(x, groupBy) == key && RowKey(y, groupBy) == key
    ensures var row := CombineRows(Some(x), Some(y), aggregations);
            MergeRows([x], [y], groupBy, aggregations) == if row.Some? then Some([row.value]) else None
  {
    assert [x][1..] == [] && [y][1..] == [] && [key][1..] == [] && [key][..0] == [];
    assert RowKeys([x][1..], groupBy) == [] && RowKeys([y][1..], groupBy) == [];
    assert RowKeys([x], groupBy) == [key] && RowKeys([y], groupBy) == [key];
    SortOneKey(key);
    assert UnionKeys([key], [key]) == [key];
    assert MergeKeys([x], [y], [key][1..], groupBy, aggregations) == Some([]);
    var row := CombineRows(Some(x), Some(y), aggregations);
    assert row.Some? ==> [row.value] + [] == [row.value];
  }

  lemma {:induction false} OutputsExist(group: seq<Record>, aggregations: seq<RecordAggregation>)
    ensures OutputFields(group, aggregations).Some?
       <==> forall g <- aggregations :: AggregateValues(group, g.operation).Some?
  {
    if aggregations != [] {
      OutputsExist(group, aggregations[1..]);
      assert aggregations == [aggregations[0]] + aggregations[1..];
    }
  }

  /** Both rows hold every output. */
  predicate HoldBoth(x: Record, y: Record, aggregations: seq<RecordAggregation>) {
    forall h <- aggregations :: h.output in x && h.output in y
  }

  lemma {:induction false} CombinedKeys(x: Record, y: Record, aggregations: seq<RecordAggregation>)
    requires CombineOutputs(x, y, aggregations).Some?
    ensures CombineOutputs(x, y, aggregations).value.Keys == set h | h in aggregations :: h.output
  {
    if aggregations != [] {
      CombinedKeys(x, y, aggregations[1..]);
      assert forall h :: h in aggregations <==> h == aggregations[0] || h in aggregations[1..];
    }
  }

  lemma {:induction false} CombinedExist(x: Record, y: Record, aggregations: seq<RecordAggregation>)
    requires HoldBoth(x, y, aggregations)
    ensures CombineOutputs(x, y, aggregations).Some?
       <==> forall h <- aggregations :: CombineValues(h.operation, x[h.output], y[h.output]).Some?
  {
    if aggregations != [] {
      assert forall h :: h in aggregations <==> h == aggregations[0] || h in aggregations[1..];
      CombinedExist(x, y, aggregations[1..]);
    }
  }

  lemma {:induction false} CombinedValue(x: Record, y: Record, aggregations: seq<RecordAggregation>, i: nat)
    requires OutputsDiffer(aggregations) && HoldBoth(x, y, aggregations)
    requires CombineOutputs(x, y, aggregations).Some? && i < |aggregations|
    ensures
      var g, outputs := aggregations[i], CombineOutputs(x, y, aggregations).value;
      g.output in outputs && CombineValues(g.operation, x[g.output], y[g.output]) == Some(outputs[g.output])
  {
    var rest := aggregations[1..];
    assert forall h <- rest :: h in aggregations;
    CombinedKeys(x, y, rest);
    if i > 0 {
      assert rest[i - 1] == aggregations[i] && aggregations[0].output != aggregations[i].output;
      CombinedValue(x, y, rest, i - 1);
    }
  }

  /** Where two shards of one group merge, so do their rows. */
  lemma MergedGroupRow(a: seq<Record>, b: seq<Record>, groupBy: seq<string>, aggregations: seq<RecordAggregation>,
                       key: GroupKey)
    requires ValidRequest(aggregations, groupBy) && ShardsMerge(a, b, groupBy, aggregations)
    requires SameKey(a, groupBy, key) && SameKey(b, groupBy, key)
    requires RowOf(a, groupBy, aggregations).Some? && RowOf(b, groupBy, aggregations).Some?
    ensures CombineRows(RowOf(a, groupBy, aggregations), RowOf(b, groupBy, aggregations), aggregations)
         == RowOf(a + b, groupBy, aggregations)
  {
    SameKeyRows(a, groupBy, aggregations, key);
    SameKeyRows(b, groupBy, aggregations, key);
    SameKeyRows(a + b, groupBy, aggregations, key);
    RowCarriesKey(a, groupBy, aggregations, key);
    RowCarriesKey(b, groupBy, aggregations, key);
    MergeOneRow(RowOf(a, groupBy, aggregations).value, RowOf(b, groupBy, aggregations).value, groupBy, aggregations,
                key);
  }

  /** The rows of two shards of one group cannot be merged if there is none for one of them. */
  lemma MergedGroupFails(a: seq<Record>, b: seq<Record>, groupBy: seq<string>, aggregations: seq<RecordAggregation>,
                         key: GroupKey)
    requires ShardsMerge(a, b, groupBy, aggregations)
    requires SameKey(a, groupBy, key) && SameKey(b, groupBy, key)
    requires RowOf(a, groupBy, aggregations).None? || RowOf(b, groupBy, aggregations).None?
    ensures RowOf(a + b, groupBy, aggregations).None?
  {
    SameKeyRows(a, groupBy, aggregations, key);
    SameKeyRows(b, groupBy, aggregations, key);
    SameKeyRows(a + b, groupBy, aggregations, key);
  }

  /** Where two shards of one group merge, the outputs of the whole are combined from theirs. */
  lemma MergedPartsSplit(a: seq<Record>, b: seq<Record>, groupBy: seq<string>, aggregations: seq<RecordAggregation>,
                         key: GroupKey)
    requires ValidRequest(aggregations, groupBy) && ShardsMerge(a, b, groupBy, aggregations)
    requires SameKey(a, groupBy, key) && SameKey(b, groupBy, key)
    ensures PartsSplit(a, b, aggregations)
  {
    if RowOf(a, groupBy, aggregations).Some? && RowOf(b, groupBy, aggregations).Some? {
      MergedGroupRow(a, b, groupBy, aggregations, key);
      RowsCombineOutputs(a, b, groupBy, aggregations);
      if RowOf(a + b, groupBy, aggregations).Some? { MergedOutputs(a, b, groupBy, aggregations); }
    } else {
      MergedGroupFails(a, b, groupBy, aggregations, key);
    }
  }

  lemma MergedOutputs(a: seq<Record>, b: seq<Record>, groupBy: seq<string>, aggregations: seq<RecordAggregation>)
    requires ValidRequest(aggregations, groupBy)
    requires RowOf(a, groupBy, aggregations).Some? && RowOf(b, groupBy, aggregations).Some?
    requires RowOf(a + b, groupBy, aggregations).Some?
    requires CombineRows(RowOf(a, groupBy, aggregations), RowOf(b, groupBy, aggregations), aggregations)
          == RowOf(a + b, groupBy, aggregations)
    ensures CombineOutputs(RowOf(a, groupBy, aggregations).value, RowOf(b, groupBy, aggregations).value, aggregations)
         == OutputFields(a + b, aggregations)
  {
    var x, y := RowOf(a, groupBy, aggregations).value, RowOf(b, groupBy, aggregations).value;
    var whole := RowIsFieldsAndOutputs(a + b, groupBy, aggregations);
    CombinedKeys(x, y, aggregations);
    SameSuffix(x, CombineOutputs(x, y, aggregations).value,
               if a + b == [] then map[] else GroupFields((a + b)[0], groupBy), whole);
  }

  lemma SameSuffix(x: Record, part: Record, y: Record, whole: Record)
    requires part.Keys == whole.Keys && x + part == y + whole
    ensures part == whole
  {
    forall f | f in part
      ensures part[f] == whole[f]
    {
      assert (x + part)[f] == (y + whole)[f];
    }
  }

  /** The operation succeeds on both parts and on the whole, and splits. */
  predicate SafelySplits(a: seq<Record>, b: seq<Record>, operation: Operation) {
    && AggregateValues(a, operation).Some? && AggregateValues(b, operation).Some?
    && AggregateValues(a + b, operation).Some? && RecordsSplit(a, b, operation)
  }

  /** Where the outputs of two parts combine and no aggregation but `g` can fail, the values of `g` combine. */
  lemma PartsSplitOne(a: seq<Record>, b: seq<Record>, aggregations: seq<RecordAggregation>, g: RecordAggregation)
    requires OutputsDiffer(aggregations) && PartsSplit(a, b, aggregations) && g in aggregations
    requires forall h <- aggregations | h != g :: SafelySplits(a, b, h.operation)
    ensures RecordsSplit(a, b, g.operation)
  {
    OutputsExist(a, aggregations);
    OutputsExist(b, aggregations);
    OutputsExist(a + b, aggregations);
    var x, y := OutputFields(a, aggregations), OutputFields(b, aggregations);
    if x.Some? && y.Some? {
      OutputsHeld(a, aggregations);
      OutputsHeld(b, aggregations);
      CombinedExist(x.value, y.value, aggregations);
      if OutputFields(a + b, aggregations).Some? {
        OutputsHeld(a + b, aggregations);
        var i :| 0 <= i < |aggregations| && aggregations[i] == g;
        CombinedValue(x.value, y.value, aggregations, i);
      }
    }
  }

  lemma {:induction false} GroupHas(records: seq<Record>, groupBy: seq<string>, r: Record)
    requires r in records
    ensures r in GroupOf(records, groupBy, KeyOf(r, groupBy))
  {
    var n := |records| - 1;
    assert records == records[..n] + [records[n]];
    if r != records[n] { GroupHas(records[..n], groupBy, r); }
  }

  lemma GroupOfPart(records: seq<Record>, part: seq<Record>, groupBy: seq<string>, key: GroupKey)
    requires forall r <- part :: r in records
    ensures forall r <- GroupOf(part, groupBy, key) :: r in GroupOf(records, groupBy, key)
  {
    GroupMembers(part, groupBy, key);
    forall s | s in GroupOf(part, groupBy, key)
      ensures s in GroupOf(records, groupBy, key)
    {
      GroupHas(records, groupBy, s);
    }
  }

  lemma SplitsOverPart(records: seq<Record>, part: seq<Record>, groupBy: seq<string>,
                       aggregations: seq<RecordAggregation>)
    requires SplitsOver(records, groupBy, aggregations) && forall r <- part :: r in records
    ensures SplitsOver(part, groupBy, aggregations)
  {
    forall r, g | r in part && g in aggregations
      ensures MergesFor(GroupOf(part, groupBy, KeyOf(r, groupBy)), g.operation)
    {
      var key := KeyOf(r, groupBy);
      GroupOfPart(records, part, groupBy, key);
      MergesForPart(GroupOf(records, groupBy, key), GroupOf(part, groupBy, key), g.operation);
    }
  }

  /** Every two shards of the records can be merged. */
  ghost predicate MergeEverywhere(records: seq<Record>, groupBy: seq<string>, aggregations: seq<RecordAggregation>) {
    forall a, b :: (forall r <- a + b :: r in records) ==> ShardsMerge(a, b, groupBy, aggregations)
  }

  // ---------- for every list of aggregations ----------

  /** The outputs of two lists of the records are always combined from theirs. */
  ghost predicate PartsAlwaysSplit(group: seq<Record>, aggregations: seq<RecordAggregation>) {
    forall a, b :: a != [] && b != [] && (forall r <- a + b :: r in group) ==> PartsSplit(a, b, aggregations)
  }

  /** Combining outputs that lists of the records have may start at either end, failures included. */
  predicate OutcomesAssociate(a: seq<Record>, b: seq<Record>, t: Record, aggregations: seq<RecordAggregation>) {
    var x, y, z := OutputFields(a, aggregations), OutputFields(b, aggregations), OutputFields([t], aggregations);
    CombineParts(CombineParts(x, y, aggregations), z, aggregations)
    == CombineParts(x, CombineParts(y, z, aggregations), aggregations)
  }

  ghost predicate OutcomesAssociateOver(group: seq<Record>, aggregations: seq<RecordAggregation>) {
    forall a, b, t :: a != [] && b != [] && (forall r <- a + b :: r in group) && t in group ==>
      OutcomesAssociate(a, b, t, aggregations)
  }

  lemma OneMorePartSplits(a: seq<Record>, t: Record, aggregations: seq<RecordAggregation>)
    requires OutputsDiffer(aggregations) && forall g <- aggregations :: Mergeable(g.operation)
    ensures PartsSplit(a, [t], aggregations)
  {
    forall g | g in aggregations
      ensures RecordsSplit(a, [t], g.operation)
    {
      OneMoreSplits(a, t, g.operation);
    }
    AllSplitParts(a, [t], aggregations);
  }

  lemma NoPartSplits(a: seq<Record>, aggregations: seq<RecordAggregation>)
    requires OutputsDiffer(aggregations) && forall g <- aggregations :: Mergeable(g.operation)
    ensures PartsSplit([], a, aggregations) && PartsSplit(a, [], aggregations)
  {
    forall g | g in aggregations
      ensures RecordsSplit([], a, g.operation) && RecordsSplit(a, [], g.operation)
    {
      NoRecordsSplit(a, g.operation);
    }
    AllSplitParts([], a, aggregations);
    AllSplitParts(a, [], aggregations);
  }

  lemma {:induction false} AssociatingPartsSplit(group: seq<Record>, a: seq<Record>, b: seq<Record>,
                                                 aggregations: seq<RecordAggregation>)
    requires OutputsDiffer(aggregations) && forall g <- aggregations :: Mergeable(g.operation)
    requires OutcomesAssociateOver(group, aggregations) && a != [] && forall r <- a + b :: r in group
    ensures PartsSplit(a, b, aggregations)
    decreases b
  {
    if b == [] {
      NoPartSplits(a, aggregations);
    } else {
      var n := |b| - 1;
      var c, t := b[..n], b[n];
      assert b == c + [t] && a + b == (a + c) + [t] && t in a + b;
      assert forall r <- a + c :: r in a + b;
      OneMorePartSplits(a + c, t, aggregations);
      OneMorePartSplits(c, t, aggregations);
      AssociatingPartsSplit(group, a, c, aggregations);
      if c == [] {
        assert b == [t];
        OneMorePartSplits(a, t, aggregations);
      } else {
        assert OutcomesAssociate(a, c, t, aggregations);
      }
    }
  }

  lemma SplitOutcomesAssociate(group: seq<Record>, a: seq<Record>, b: seq<Record>, t: Record,
                               aggregations: seq<RecordAggregation>)
    requires OutputsDiffer(aggregations) && forall g <- aggregations :: Mergeable(g.operation)
    requires PartsAlwaysSplit(group, aggregations) && a != [] && b != [] && t in group
    requires forall r <- a + b :: r in group
    ensures OutcomesAssociate(a, b, t, aggregations)
  {
    assert forall r <- a + (b + [t]) :: r in a + b || r == t;
    assert PartsSplit(a, b, aggregations) && PartsSplit(a, b + [t], aggregations);
    OneMorePartSplits(a + b, t, aggregations);
    OneMorePartSplits(b, t, aggregations);
    assert (a + b) + [t] == a + (b + [t]);
  }

  /** Outputs split over every two lists of a group exactly when combining them is associative. */
  lemma PartsSplitExactly(group: seq<Record>, aggregations: seq<RecordAggregation>)
    requires OutputsDiffer(aggregations) && forall g <- aggregations :: Mergeable(g.operation)
    ensures PartsAlwaysSplit(group, aggregations) <==> OutcomesAssociateOver(group, aggregations)
  {
    if OutcomesAssociateOver(group, aggregations) {
      forall a, b | a != [] && b != [] && (forall r <- a + b :: r in group)
        ensures PartsSplit(a, b, aggregations)
      {
        AssociatingPartsSplit(group, a, b, aggregations);
      }
    }
    if PartsAlwaysSplit(group, aggregations) {
      forall a, b, t | a != [] && b != [] && (forall r <- a + b :: r in group) && t in group
        ensures OutcomesAssociate(a, b, t, aggregations)
      {
        SplitOutcomesAssociate(group, a, b, t, aggregations);
      }
    }
  }

  lemma MergedGroupAlwaysSplits(group: seq<Record>, groupBy: seq<string>, aggregations: seq<RecordAggregation>,
                                key: GroupKey)
    requires ValidRequest(aggregations, groupBy) && SameKey(group, groupBy, key)
    requires MergeEverywhere(group, groupBy, aggregations)
    ensures PartsAlwaysSplit(group, aggregations)
  {
    forall a, b | a != [] && b != [] && (forall r <- a + b :: r in group)
      ensures PartsSplit(a, b, aggregations)
    {
      assert (forall r <- a :: r in a + b) && (forall r <- b :: r in a + b);
      MergedPartsSplit(a, b, groupBy, aggregations, key);
    }
  }

  lemma SplitGroupsMerge(records: seq<Record>, groupBy: seq<string>, aggregations: seq<RecordAggregation>,
                         a: seq<Record>, b: seq<Record>)
    requires ValidRequest(aggregations, groupBy) && forall g <- aggregations :: Mergeable(g.operation)
    requires forall r <- records :: PartsAlwaysSplit(GroupOf(records, groupBy, KeyOf(r, groupBy)), aggregations)
    requires forall r <- a + b :: r in records
    ensures ShardsMerge(a, b, groupBy, aggregations)
  {
    forall key
      ensures PartsSplit(GroupOf(a, groupBy, key), GroupOf(b, groupBy, key), aggregations)
    {
      var ga, gb := GroupOf(a, groupBy, key), GroupOf(b, groupBy, key);
      if ga == [] {
        NoPartSplits(gb, aggregations);
      } else if gb == [] {
        NoPartSplits(ga, aggregations);
      } else {
        GroupMembers(a, groupBy, key);
        assert ga[0] in ga && ga[0] in a + b;
        GroupConcat(a, b, groupBy, key);
        GroupOfPart(records, a + b, groupBy, key);
      }
    }
    SplitShardsMerge(a, b, groupBy, aggregations);
  }

  /**
   For every list of aggregations: every two shards of some records can be merged exactly when combining the outputs
   that lists of one group have is associative, failures included.
   */
  lemma OutcomesMergeExactly(records: seq<Record>, groupBy: seq<string>, aggregations: seq<RecordAggregation>)
    requires ValidRequest(aggregations, groupBy) && forall g <- aggregations :: Mergeable(g.operation)
    ensures MergeEverywhere(records, groupBy, aggregations)
       <==> forall r <- records :: OutcomesAssociateOver(GroupOf(records, groupBy, KeyOf(r, groupBy)), aggregations)
  {
    forall r | r in records
      ensures var group := GroupOf(records, groupBy, KeyOf(r, groupBy));
              PartsAlwaysSplit(group, aggregations) <==> OutcomesAssociateOver(group, aggregations)
    {
      PartsSplitExactly(GroupOf(records, groupBy, KeyOf(r, groupBy)), aggregations);
    }
    if forall r <- records :: PartsAlwaysSplit(GroupOf(records, groupBy, KeyOf(r, groupBy)), aggregations) {
      forall a, b | forall r <- a + b :: r in records
        ensures ShardsMerge(a, b, groupBy, aggregations)
      {
        SplitGroupsMerge(records, groupBy, aggregations, a, b);
      }
    }
    if MergeEverywhere(records, groupBy, aggregations) {
      forall r | r in records
        ensures PartsAlwaysSplit(GroupOf(records, groupBy, KeyOf(r, groupBy)), aggregations)
      {
        var key := KeyOf(r, groupBy);
        GroupHas(records, groupBy, r);
        GroupMembers(records, groupBy, key);
        MergedGroupAlwaysSplits(GroupOf(records, groupBy, key), groupBy, aggregations, key);
      }
    }
  }

  // ---------- where one aggregation at most can fail ----------

  /** No aggregation but `g` fails on any records of one group. */
  predicate OnlyFails(records: seq<Record>, groupBy: seq<string>, aggregations: seq<RecordAggregation>,
                      g: RecordAggregation)
  {
    forall h <- aggregations, r <- records | h != g ::
      CannotFail(GroupOf(records, groupBy, KeyOf(r, groupBy)), h.operation)
  }

  lemma TwoShardsMerge(group: seq<Record>, groupBy: seq<string>, aggregations: seq<RecordAggregation>, r: Record,
                       s: Record, t: Record)
    requires MergeEverywhere(group, groupBy, aggregations) && r in group && s in group && t in group
    ensures ShardsMerge([r], [s, t], groupBy, aggregations)
  {
    assert forall x <- [r] + [s, t] :: x in group;
  }

  /** What cannot fail on a group succeeds and merges on its records. */
  lemma SafeOperationSplits(group: seq<Record>, a: seq<Record>, b: seq<Record>, operation: Operation)
    requires Mergeable(operation) && CannotFail(group, operation) && forall r <- a + b :: r in group
    ensures SafelySplits(a, b, operation)
  {
    assert (forall r <- a :: r in a + b) && (forall r <- b :: r in a + b);
    CannotFailSucceeds(group, a, operation);
    CannotFailSucceeds(group, b, operation);
    CannotFailSucceeds(group, a + b, operation);
    CannotFailMerges(group, operation);
    MergesForPart(group, a + b, operation);
    AggregateConcat(a, b, operation);
  }

  lemma MergedValuesAssociate(group: seq<Record>, groupBy: seq<string>, aggregations: seq<RecordAggregation>,
                              g: RecordAggregation, key: GroupKey, x: Json, y: Json, z: Json)
    requires ValidRequest(aggregations, groupBy) && g in aggregations && IsExtreme(g.operation)
    requires SameKey(group, groupBy, key) && MergeEverywhere(group, groupBy, aggregations)
    requires forall h <- aggregations :: Mergeable(h.operation)
    requires forall h <- aggregations | h != g :: CannotFail(group, h.operation)
    requires var values := Values(group, g.operation.field); x in values && y in values && z in values
    ensures Associates(x, y, z, g.operation.Max?)
  {
    var r := RecordWithValue(group, g.operation.field, x);
    var s := RecordWithValue(group, g.operation.field, y);
    var t := RecordWithValue(group, g.operation.field, z);
    TwoShardsMerge(group, groupBy, aggregations, r, s, t);
    forall h | h in aggregations && h != g
      ensures SafelySplits([r], [s, t], h.operation)
    {
      SafeOperationSplits(group, [r], [s, t], h.operation);
    }
    MergedPartsSplit([r], [s, t], groupBy, aggregations, key);
    PartsSplitOne([r], [s, t], aggregations, g);
    SplitRecordsAssociate(r, s, t, x, y, z, g.operation);
  }

  lemma MergedGroupMerges(group: seq<Record>, groupBy: seq<string>, aggregations: seq<RecordAggregation>,
                          g: RecordAggregation, key: GroupKey)
    requires ValidRequest(aggregations, groupBy) && g in aggregations && SameKey(group, groupBy, key)
    requires MergeEverywhere(group, groupBy, aggregations)
    requires forall h <- aggregations :: Mergeable(h.operation)
    requires forall h <- aggregations | h != g :: CannotFail(group, h.operation)
    ensures MergesAll(group, aggregations)
  {
    forall h | h in aggregations
      ensures MergesFor(group, h.operation)
    {
      if h != g {
        CannotFailMerges(group, h.operation);
      } else if IsExtreme(g.operation) {
        var values := Values(group, g.operation.field);
        forall x, y, z | x in values && y in values && z in values
          ensures Associates(x, y, z, g.operation.Max?)
        {
          MergedValuesAssociate(group, groupBy, aggregations, g, key, x, y, z);
        }
      }
    }
  }

  /**
   Aggregations of which one at most can fail, over every two shards of some records, can be merged exactly when each
   merges for each group.
   */
  lemma ShardsMergeExactly(records: seq<Record>, groupBy: seq<string>, aggregations: seq<RecordAggregation>,
                           g: RecordAggregation)
    requires ValidRequest(aggregations, groupBy) && forall h <- aggregations :: Mergeable(h.operation)
    requires g in aggregations && OnlyFails(records, groupBy, aggregations, g)
    ensures MergeEverywhere(records, groupBy, aggregations) <==> SplitsOver(records, groupBy, aggregations)
  {
    if SplitsOver(records, groupBy, aggregations) {
      forall a, b | forall r <- a + b :: r in records
        ensures ShardsMerge(a, b, groupBy, aggregations)
      {
        SplitsOverPart(records, a + b, groupBy, aggregations);
        AggregateOfTwoShards(a, b, groupBy, aggregations);
      }
    }
    if MergeEverywhere(records, groupBy, aggregations) {
      forall r | r in records
        ensures MergesAll(GroupOf(records, groupBy, KeyOf(r, groupBy)), aggregations)
      {
        var key := KeyOf(r, groupBy);
        GroupHas(records, groupBy, r);
        GroupMembers(records, groupBy, key);
        MergedGroupMerges(GroupOf(records, groupBy, key), groupBy, aggregations, g, key);
      }
    }
  }

  /** A single aggregation may fail as it likes. */
  lemma OneAggregationMergesExactly(records: seq<Record>, groupBy: seq<string>, g: RecordAggregation)
    requires ValidRequest([g], groupBy) && Mergeable(g.operation)
    ensures MergeEverywhere(records, groupBy, [g]) <==> SplitsOver(records, groupBy, [g])
  {
    ShardsMergeExactly(records, groupBy, [g], g);
  }

  /** Without `group_by`, records that all hold an array under `f` cannot be summed over `f`. */
  lemma ArraySumFails(records: seq<Record>, f: string, aggregations: seq<RecordAggregation>)
    requires records != [] && aggregations != [] && aggregations[0].operation == Sum(f)
    requires forall r <- records :: FieldValue(r, f).Found? && FieldValue(r, f).value.Arr?
    ensures AggregateRecords(records, aggregations, []) == None
  {
    SameKeyRows(records, [], aggregations, []);
    assert records[0] in records && Values(records, f)[0] == FieldValue(records[0], f).value;
    assert AggregateValues(records, Sum(f)) == None;
  }

  /** What fails on all records merges. */
  lemma ArraySumsMerge(records: seq<Record>, f: string, aggregations: seq<RecordAggregation>)
    requires ValidRequest(aggregations, []) && aggregations != [] && aggregations[0].operation == Sum(f)
    requires forall r <- records :: FieldValue(r, f).Found? && FieldValue(r, f).value.Arr?
    requires forall g <- aggregations :: Mergeable(g.operation)
    ensures MergeEverywhere(records, [], aggregations)
  {
    forall a, b | forall q <- a + b :: q in records
      ensures ShardsMerge(a, b, [], aggregations)
    {
      if a + b == [] {
        AggregateOfTwoShards(a, b, [], aggregations);
      } else {
        ArraySumFails(a + b, f, aggregations);
        assert (forall q <- a :: q in a + b) && (forall q <- b :: q in a + b);
        if a != [] { ArraySumFails(a, f, aggregations); } else { ArraySumFails(b, f, aggregations); }
      }
    }
  }

  lemma SplitRecordsSplit(records: seq<Record>, aggregations: seq<RecordAggregation>, g: RecordAggregation, r: Record)
    requires SplitsOver(records, [], aggregations) && g in aggregations && r in records
    ensures MergesFor(records, g.operation)
  {
    OneGroup(records);
    assert KeyOf(r, []) == [] && MergesAll(GroupOf(records, [], KeyOf(r, [])), aggregations);
  }

  /** Records of `ArraysBreakMinMerge`. */
  function ArrayRecords(): seq<Record> {
    [map["v" := Arr([Num(0)])], map["v" := Arr([Num(1), Str("x")])], map["v" := Arr([Num(1), Num(2)])]]
  }

  lemma ArrayRecordsHold()
    ensures forall r <- ArrayRecords() :: FieldValue(r, "v").Found? && FieldValue(r, "v").value.Arr?
    ensures Arr([Num(0)]) in Values(ArrayRecords(), "v") && Arr([Num(1), Str("x")]) in Values(ArrayRecords(), "v")
    ensures Arr([Num(1), Num(2)]) in Values(ArrayRecords(), "v")
  {
    ValueMembers(ArrayRecords(), "v", Arr([Num(0)]));
    ValueMembers(ArrayRecords(), "v", Arr([Num(1), Str("x")]));
    ValueMembers(ArrayRecords(), "v", Arr([Num(1), Num(2)]));
    assert ArrayRecords()[0] in ArrayRecords() && ArrayRecords()[1] in ArrayRecords();
    assert ArrayRecords()[2] in ArrayRecords();
  }

  /**
   Where two aggregations fail the condition is not needed: a sum that fails on all records hides that their minimum
   does not merge.
   */
  lemma FailingSumHidesMin()
    ensures
      var aggregations := [RecordAggregation("s", Sum("v")), RecordAggregation("m", Min("v"))];
      && ValidRequest(aggregations, [])
      && MergeEverywhere(ArrayRecords(), [], aggregations) && !SplitsOver(ArrayRecords(), [], aggregations)
  {
    var aggregations := [RecordAggregation("s", Sum("v")), RecordAggregation("m", Min("v"))];
    ArrayRecordsHold();
    ArraySumsMerge(ArrayRecords(), "v", aggregations);
    ArraysDoNotAssociate();
    if SplitsOver(ArrayRecords(), [], aggregations) {
      SplitRecordsSplit(ArrayRecords(), aggregations, aggregations[1], ArrayRecords()[0]);
    }
  }
}
