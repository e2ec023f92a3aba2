/**
 Per-shard aggregation: merging the rows of two shards by group key gives the rows of all records.
 */
module ShardMerge {
  import opened Json
  import opened JsonCanonical
  import opened Options
  import opened Sequences
  import opened Sorting
  import opened Records
  import opened Aggregation
  import opened Grouping

  // ---------- the merge ----------

  /** The group key read back from an output row. */
  function RowKey(row: Record, groupBy: seq<string>): GroupKey {
    if groupBy == [] then []
    else [Encode(if groupBy[0] in row then row[groupBy[0]] else Null)] + RowKey(row, groupBy[1..])
  }

  function RowKeys(rows: seq<Record>, groupBy: seq<string>): seq<GroupKey> {
    if rows == [] then [] else [RowKey(rows[0], groupBy)] + RowKeys(rows[1..], groupBy)
  }

  function RowWith(rows: seq<Record>, groupBy: seq<string>, key: GroupKey): Option<Record> {
    if rows == [] then None
    else if RowKey(rows[0], groupBy) == key then Some(rows[0])
    else RowWith(rows[1..], groupBy, key)
  }

  function CombineOutputs(a: Record, b: Record, aggregations: seq<RecordAggregation>): Option<Record> {
    if aggregations == [] then Some(map[])
    else
      var output := aggregations[0].output;
      if output !in a || output !in b then None
      else
        var value :- CombineValues(aggregations[0].operation, a[output], b[output]);
        var rest :- CombineOutputs(a, b, aggregations[1..]);
        Some(map[output := value] + rest)
  }

  /** The outputs of two parts combined; none where a part has none. */
  function CombineParts(x: Option<Record>, y: Option<Record>, aggregations: seq<RecordAggregation>): Option<Record> {
    var a :- x;
    var b :- y;
    CombineOutputs(a, b, aggregations)
  }

  function CombineRows(x: Option<Record>, y: Option<Record>, aggregations: seq<RecordAggregation>): Option<Record> {
    if x.None? then y
    else if y.None? then x
    else
      var outputs :- CombineOutputs(x.value, y.value, aggregations);
      Some(x.value + outputs)
  }

  function UnionKeys(a: seq<GroupKey>, b: seq<GroupKey>): seq<GroupKey> {
    if b == [] then a else AddKey(UnionKeys(a, b[..|b| - 1]), b[|b| - 1])
  }

  function MergeKeys(a: seq<Record>, b: seq<Record>, keys: seq<GroupKey>, groupBy: seq<string>,
                     aggregations: seq<RecordAggregation>): Option<seq<Record>>
  {
    if keys == [] then Some([])
    else
      var row :- CombineRows(RowWith(a, groupBy, keys[0]), RowWith(b, groupBy, keys[0]), aggregations);
      var rest :- MergeKeys(a, b, keys[1..], groupBy, aggregations);
      Some([row] + rest)
  }

  /** Rows of two shards merged by group key, in key order. */
  function MergeRows(a: seq<Record>, b: seq<Record>, groupBy: seq<string>, aggregations: seq<RecordAggregation>)
    : Option<seq<Record>>
  {
    var keys := Sort(UnionKeys(RowKeys(a, groupBy), RowKeys(b, groupBy)), KeyOrder());
    MergeKeys(a, b, keys, groupBy, aggregations)
  }

  function MergeResults(a: Option<seq<Record>>, b: Option<seq<Record>>, groupBy: seq<string>,
                        aggregations: seq<RecordAggregation>): Option<seq<Record>>
  {
    var x :- a;
    var y :- b;
    MergeRows(x, y, groupBy, aggregations)
  }

  // ---------- what the request model guarantees ----------

  predicate OutputsDiffer(aggregations: seq<RecordAggregation>) {
    forall i, j :: 0 <= i < j < |aggregations| ==> aggregations[i].output != aggregations[j].output
  }

  /** Output fields are unique and none is a group-by field. */
  predicate ValidRequest(aggregations: seq<RecordAggregation>, groupBy: seq<string>) {
    && OutputsDiffer(aggregations)
    && (forall a <- aggregations :: a.output !in groupBy)
  }

  predicate MergesAll(group: seq<Record>, aggregations: seq<RecordAggregation>) {
    forall a <- aggregations :: Mergeable(a.operation) && MergesFor(group, a.operation)
  }

  /** Every aggregation merges for the values of each group. */
  predicate SplitsOver(records: seq<Record>, groupBy: seq<string>, aggregations: seq<RecordAggregation>) {
    && (forall a <- aggregations :: Mergeable(a.operation))
    && forall r <- records :: MergesAll(GroupOf(records, groupBy, KeyOf(r, groupBy)), aggregations)
  }

  // ---------- group keys ----------

  lemma {:induction false} KeysDistinct(records: seq<Record>, groupBy: seq<string>)
    ensures NoDuplicates(KeysInOrder(records, groupBy))
  {
    if records != [] { KeysDistinct(records[..|records| - 1], groupBy); }
  }

  lemma {:induction false} UnionDistinct(a: seq<GroupKey>, b: seq<GroupKey>)
    requires NoDuplicates(a)
    ensures NoDuplicates(UnionKeys(a, b))
    ensures forall k :: k in UnionKeys(a, b) <==> k in a || k in b
  {
    if b != [] {
      UnionDistinct(a, b[..|b| - 1]);
      assert b == b[..|b| - 1] + [b[|b| - 1]];
    }
  }

  lemma GroupKeysSet(records: seq<Record>, groupBy: seq<string>)
    ensures NoDuplicates(GroupKeys(records, groupBy))
    ensures forall k :: k in GroupKeys(records, groupBy) <==>
                        GroupOf(records, groupBy, k) != [] || (groupBy == [] && records == [] && k == [])
  {
    var keys := KeysInOrder(records, groupBy);
    KeysDistinct(records, groupBy);
    SortElements(keys, KeyOrder());
    SortPermutes(keys, KeyOrder());
    forall k
      ensures k in keys <==> GroupOf(records, groupBy, k) != []
    {
      GroupNonEmpty(records, groupBy, k);
    }
    if !(groupBy == [] && records == []) {
      var s := Sort(keys, KeyOrder());
      forall x | x in s
        ensures multiset(s)[x] == 1
      {
        NoDuplicatesMultiset(keys, x);
      }
      MultisetNoDuplicates(s);
    }
  }

  /** Group keys come out strictly increasing. */
  lemma GroupKeysIncrease(records: seq<Record>, groupBy: seq<string>)
    ensures forall i, j :: 0 <= i < j < |GroupKeys(records, groupBy)| ==>
              CompareKeys(GroupKeys(records, groupBy)[i], GroupKeys(records, groupBy)[j]) < 0
  {
    var keys := GroupKeys(records, groupBy);
    KeyOrderTotal();
    SortSorts(KeysInOrder(records, groupBy), KeyOrder());
    GroupKeysSet(records, groupBy);
    forall i, j | 0 <= i < j < |keys|
      ensures CompareKeys(keys[i], keys[j]) < 0
    {
      assert KeyOrder()(keys[i], keys[j]);
      CompareKeysZero(keys[i], keys[j]);
    }
  }

  lemma ConcatFront<T>(a: seq<T>, b: seq<T>)
    requires b != []
    ensures (a + b)[..|a + b| - 1] == a + b[..|b| - 1] && (a + b)[|a + b| - 1] == b[|b| - 1]
  {
  }

  lemma {:induction false} GroupConcat(a: seq<Record>, b: seq<Record>, groupBy: seq<string>, key: GroupKey)
    ensures GroupOf(a + b, groupBy, key) == GroupOf(a, groupBy, key) + GroupOf(b, groupBy, key)
  {
    if b == [] {
      assert a + b == a;
    } else {
      ConcatFront(a, b);
      GroupConcat(a, b[..|b| - 1], groupBy, key);
    }
  }

  // ---------- rows ----------

  lemma {:induction false} SameKeySameFields(a: Record, b: Record, groupBy: seq<string>, f: string)
    requires KeyOf(a, groupBy) == KeyOf(b, groupBy) && f in groupBy
    ensures SortKey(FieldValue(a, f)) == SortKey(FieldValue(b, f))
  {
    var x, y := SortKey(FieldValue(a, groupBy[0])), SortKey(FieldValue(b, groupBy[0]));
    assert Encode(x) == KeyOf(a, groupBy)[0] == KeyOf(b, groupBy)[0] == Encode(y);
    if f == groupBy[0] {
      EncodeInjective(x, y);
    } else {
      assert KeyOf(a, groupBy[1..]) == KeyOf(a, groupBy)[1..];
      assert KeyOf(b, groupBy[1..]) == KeyOf(b, groupBy)[1..];
      SameKeySameFields(a, b, groupBy[1..], f);
    }
  }

  /** The group values stored with the first record are those of every record of the group. */
  lemma SameKeySameGroupFields(a: Record, b: Record, groupBy: seq<string>)
    requires KeyOf(a, groupBy) == KeyOf(b, groupBy)
    ensures GroupFields(a, groupBy) == GroupFields(b, groupBy)
  {
    forall f | f in groupBy
      ensures GroupFields(a, groupBy)[f] == GroupFields(b, groupBy)[f]
    {
      SameKeySameFields(a, b, groupBy, f);
    }
  }

  lemma {:induction false} GroupMembers(records: seq<Record>, groupBy: seq<string>, key: GroupKey)
    ensures forall r <- GroupOf(records, groupBy, key) :: r in records && KeyOf(r, groupBy) == key
  {
    if records != [] { GroupMembers(records[..|records| - 1], groupBy, key); }
  }

  lemma {:induction false} OutputKeys(group: seq<Record>, aggregations: seq<RecordAggregation>)
    requires OutputFields(group, aggregations).Some?
    ensures forall f <- OutputFields(group, aggregations).value :: exists a <- aggregations :: a.output == f
  {
    if aggregations != [] {
      OutputKeys(group, aggregations[1..]);
      assert aggregations[0] in aggregations;
      assert forall a <- aggregations[1..] :: a in aggregations;
    }
  }

  lemma {:induction false} OutputValue(group: seq<Record>, aggregations: seq<RecordAggregation>, i: nat)
    requires OutputFields(group, aggregations).Some? && i < |aggregations| && OutputsDiffer(aggregations)
    ensures aggregations[i].output in OutputFields(group, aggregations).value
    ensures AggregateValues(group, aggregations[i].operation)
         == Some(OutputFields(group, aggregations).value[aggregations[i].output])
  {
    var rest := aggregations[1..];
    if i == 0 {
      OutputKeys(group, rest);
    } else {
      assert rest[i - 1] == aggregations[i];
      OutputValue(group, rest, i - 1);
    }
  }

  lemma {:induction false} PlainRowKey(row: Record, record: Record, groupBy: seq<string>)
    requires forall f <- groupBy :: f in row && row[f] == SortKey(FieldValue(record, f))
    ensures RowKey(row, groupBy) == KeyOf(record, groupBy)
  {
    if groupBy != [] { PlainRowKey(row, record, groupBy[1..]); }
  }

  /** The row of a group carries the group's key. */
  lemma RowCarriesKey(group: seq<Record>, groupBy: seq<string>, aggregations: seq<RecordAggregation>, key: GroupKey)
    requires ValidRequest(aggregations, groupBy)
    requires RowOf(group, groupBy, aggregations).Some?
    requires (forall r <- group :: KeyOf(r, groupBy) == key) && (group == [] ==> groupBy == [] && key == [])
    ensures RowKey(RowOf(group, groupBy, aggregations).value, groupBy) == key
  {
    if group != [] {
      var outputs := OutputFields(group, aggregations).value;
      OutputKeys(group, aggregations);
      assert forall f <- groupBy :: f !in outputs;
      PlainRowKey(RowOf(group, groupBy, aggregations).value, group[0], groupBy);
    }
  }

  lemma GroupRowKey(records: seq<Record>, key: GroupKey, groupBy: seq<string>, aggregations: seq<RecordAggregation>)
    requires ValidRequest(aggregations, groupBy)
    requires GroupOf(records, groupBy, key) != [] || (groupBy == [] && key == [])
    requires RowOf(GroupOf(records, groupBy, key), groupBy, aggregations).Some?
    ensures RowKey(RowOf(GroupOf(records, groupBy, key), groupBy, aggregations).value, groupBy) == key
  {
    GroupMembers(records, groupBy, key);
    RowCarriesKey(GroupOf(records, groupBy, key), groupBy, aggregations, key);
  }

  lemma RowKeysFront(row: Record, rest: seq<Record>, groupBy: seq<string>)
    ensures RowKeys([row] + rest, groupBy) == [RowKey(row, groupBy)] + RowKeys(rest, groupBy)
  {
    assert ([row] + rest)[1..] == rest;
  }

  /** Every group has the rows `RowsFor` lists, in the order of the keys. */
  lemma {:induction false} RowsForKeys(records: seq<Record>, keys: seq<GroupKey>, groupBy: seq<string>,
                                       aggregations: seq<RecordAggregation>)
    requires ValidRequest(aggregations, groupBy)
    requires forall k <- keys :: GroupOf(records, groupBy, k) != [] || (groupBy == [] && k == [])
    requires RowsFor(records, keys, groupBy, aggregations).Some?
    ensures RowKeys(RowsFor(records, keys, groupBy, aggregations).value, groupBy) == keys
  {
    if keys != [] {
      assert keys[0] in keys && forall k <- keys[1..] :: k in keys;
      GroupRowKey(records, keys[0], groupBy, aggregations);
      RowsForKeys(records, keys[1..], groupBy, aggregations);
      RowKeysFront(RowOf(GroupOf(records, groupBy, keys[0]), groupBy, aggregations).value,
                   RowsFor(records, keys[1..], groupBy, aggregations).value, groupBy);
    }
  }

  lemma {:induction false} RowForKey(records: seq<Record>, keys: seq<GroupKey>, groupBy: seq<string>,
                                     aggregations: seq<RecordAggregation>, key: GroupKey)
    requires ValidRequest(aggregations, groupBy)
    requires forall k <- keys :: GroupOf(records, groupBy, k) != [] || (groupBy == [] && k == [])
    requires RowsFor(records, keys, groupBy, aggregations).Some?
    ensures RowWith(RowsFor(records, keys, groupBy, aggregations).value, groupBy, key)
         == if key in keys then RowOf(GroupOf(records, groupBy, key), groupBy, aggregations) else None
    ensures key in keys ==> RowOf(GroupOf(records, groupBy, key), groupBy, aggregations).Some?
  {
    if keys != [] {
      assert keys[0] in keys;
      GroupMembers(records, groupBy, keys[0]);
      RowCarriesKey(GroupOf(records, groupBy, keys[0]), groupBy, aggregations, keys[0]);
      RowForKey(records, keys[1..], groupBy, aggregations, key);
    }
  }

  // ---------- combining the groups of two shards ----------

  ghost predicate HoldsOutputs(row: Record, group: seq<Record>, aggregations: seq<RecordAggregation>) {
    forall a <- aggregations :: a.output in row && AggregateValues(group, a.operation) == Some(row[a.output])
  }

  /** Each aggregation of the whole is combined from those of the parts. */
  predicate AllSplit(a: seq<Record>, b: seq<Record>, aggregations: seq<RecordAggregation>) {
    forall g <- aggregations :: RecordsSplit(a, b, g.operation)
  }

  /** The outputs of the whole are combined from those of the parts, and fail when these do. */
  predicate PartsSplit(a: seq<Record>, b: seq<Record>, aggregations: seq<RecordAggregation>) {
    OutputFields(a + b, aggregations)
    == CombineParts(OutputFields(a, aggregations), OutputFields(b, aggregations), aggregations)
  }

  lemma {:induction false} CombineHeldOutputs(x: Record, y: Record, a: seq<Record>, b: seq<Record>,
                                              aggregations: seq<RecordAggregation>)
    requires AllSplit(a, b, aggregations)
    requires HoldsOutputs(x, a, aggregations) && HoldsOutputs(y, b, aggregations)
    ensures CombineOutputs(x, y, aggregations) == OutputFields(a + b, aggregations)
  {
    if aggregations != [] {
      assert aggregations[0] in aggregations;
      CombineHeldOutputs(x, y, a, b, aggregations[1..]);
    }
  }

  lemma {:induction false} FailedPartFails(a: seq<Record>, b: seq<Record>, aggregations: seq<RecordAggregation>)
    requires AllSplit(a, b, aggregations)
    requires OutputFields(a, aggregations).None? || OutputFields(b, aggregations).None?
    ensures OutputFields(a + b, aggregations).None?
  {
    assert aggregations[0] in aggregations;
    if AggregateValues(a, aggregations[0].operation).Some? && AggregateValues(b, aggregations[0].operation).Some? {
      FailedPartFails(a, b, aggregations[1..]);
    }
  }

  lemma OutputsHeld(group: seq<Record>, aggregations: seq<RecordAggregation>)
    requires OutputsDiffer(aggregations) && OutputFields(group, aggregations).Some?
    ensures HoldsOutputs(OutputFields(group, aggregations).value, group, aggregations)
  {
    forall a | a in aggregations
      ensures a.output in OutputFields(group, aggregations).value
      ensures AggregateValues(group, a.operation) == Some(OutputFields(group, aggregations).value[a.output])
    {
      var i :| 0 <= i < |aggregations| && aggregations[i] == a;
      OutputValue(group, aggregations, i);
    }
  }

  lemma RowHoldsOutputs(group: seq<Record>, groupBy: seq<string>, aggregations: seq<RecordAggregation>)
    requires ValidRequest(aggregations, groupBy) && RowOf(group, groupBy, aggregations).Some?
    ensures HoldsOutputs(RowOf(group, groupBy, aggregations).value, group, aggregations)
  {
    OutputsHeld(group, aggregations);
  }

  lemma AllSplitParts(a: seq<Record>, b: seq<Record>, aggregations: seq<RecordAggregation>)
    requires OutputsDiffer(aggregations) && AllSplit(a, b, aggregations)
    ensures PartsSplit(a, b, aggregations)
  {
    var x, y := OutputFields(a, aggregations), OutputFields(b, aggregations);
    if x.Some? && y.Some? {
      OutputsHeld(a, aggregations);
      OutputsHeld(b, aggregations);
      CombineHeldOutputs(x.value, y.value, a, b, aggregations);
    } else {
      FailedPartFails(a, b, aggregations);
    }
  }

  /** What rows combine to depends on their outputs only. */
  lemma {:induction false} SameOutputsCombine(x: Record, y: Record, u: Record, v: Record,
                                              aggregations: seq<RecordAggregation>)
    requires forall g <- aggregations :: g.output in x && g.output in u && x[g.output] == u[g.output]
    requires forall g <- aggregations :: g.output in y && g.output in v && y[g.output] == v[g.output]
    ensures CombineOutputs(x, y, aggregations) == CombineOutputs(u, v, aggregations)
  {
    if aggregations != [] {
      assert aggregations[0] in aggregations;
      SameOutputsCombine(x, y, u, v, aggregations[1..]);
    }
  }

  lemma RowsCombineOutputs(a: seq<Record>, b: seq<Record>, groupBy: seq<string>, aggregations: seq<RecordAggregation>)
    requires ValidRequest(aggregations, groupBy)
    requires RowOf(a, groupBy, aggregations).Some? && RowOf(b, groupBy, aggregations).Some?
    ensures OutputFields(a, aggregations).Some? && OutputFields(b, aggregations).Some?
    ensures CombineOutputs(RowOf(a, groupBy, aggregations).value, RowOf(b, groupBy, aggregations).value, aggregations)
         == CombineParts(OutputFields(a, aggregations), OutputFields(b, aggregations), aggregations)
  {
    var x, y := RowOf(a, groupBy, aggregations).value, RowOf(b, groupBy, aggregations).value;
    RowHoldsOutputs(a, groupBy, aggregations);
    RowHoldsOutputs(b, groupBy, aggregations);
    OutputsHeld(a, aggregations);
    OutputsHeld(b, aggregations);
    SameOutputsCombine(x, y, OutputFields(a, aggregations).value, OutputFields(b, aggregations).value, aggregations);
  }

  lemma {:induction false} OutputsCover(group: seq<Record>, aggregations: seq<RecordAggregation>)
    requires OutputFields(group, aggregations).Some?
    ensures OutputFields(group, aggregations).value.Keys == set a | a in aggregations :: a.output
  {
    if aggregations != [] {
      OutputsCover(group, aggregations[1..]);
      assert forall a :: a in aggregations <==> a == aggregations[0] || a in aggregations[1..];
    }
  }

  lemma RowIsFieldsAndOutputs(group: seq<Record>, groupBy: seq<string>, aggregations: seq<RecordAggregation>)
    returns (outputs: Record)
    requires RowOf(group, groupBy, aggregations).Some?
    ensures OutputFields(group, aggregations) == Some(outputs)
    ensures outputs.Keys == set a | a in aggregations :: a.output
    ensures RowOf(group, groupBy, aggregations).value
         == (if group == [] then map[] else GroupFields(group[0], groupBy)) + outputs
  {
    OutputsCover(group, aggregations);
    outputs := OutputFields(group, aggregations).value;
  }

  lemma Overwrite(fields: Record, part: Record, whole: Record)
    requires part.Keys == whole.Keys
    ensures fields + part + whole == fields + whole
  {
  }

  /** The row of a group spread over two shards is the merge of its two rows. */
  lemma CombineGroupRows(a: seq<Record>, b: seq<Record>, groupBy: seq<string>, aggregations: seq<RecordAggregation>)
    requires ValidRequest(aggregations, groupBy) && PartsSplit(a, b, aggregations)
    requires RowOf(a, groupBy, aggregations).Some? && RowOf(b, groupBy, aggregations).Some?
    requires a != [] || groupBy == []
    ensures CombineRows(RowOf(a, groupBy, aggregations), RowOf(b, groupBy, aggregations), aggregations)
         == RowOf(a + b, groupBy, aggregations)
  {
    RowsCombineOutputs(a, b, groupBy, aggregations);
    if OutputFields(a + b, aggregations).Some? {
      var part := RowIsFieldsAndOutputs(a, groupBy, aggregations);
      var whole := RowIsFieldsAndOutputs(a + b, groupBy, aggregations);
      GroupFieldsOfBoth(a, b, groupBy);
      Overwrite(if a == [] then map[] else GroupFields(a[0], groupBy), part, whole);
    }
  }

  lemma GroupFieldsOfBoth(a: seq<Record>, b: seq<Record>, groupBy: seq<string>)
    requires a != [] || groupBy == []
    ensures (if a + b == [] then map[] else GroupFields((a + b)[0], groupBy))
         == (if a == [] then map[] else GroupFields(a[0], groupBy))
  {
    if a != [] { assert (a + b)[0] == a[0]; }
  }

  // ---------- the merge theorem ----------

  lemma GroupMerges(records: seq<Record>, groupBy: seq<string>, aggregations: seq<RecordAggregation>, key: GroupKey)
    requires SplitsOver(records, groupBy, aggregations)
    ensures MergesAll(GroupOf(records, groupBy, key), aggregations)
  {
    GroupMembers(records, groupBy, key);
    var group := GroupOf(records, groupBy, key);
    if group != [] { assert group[0] in group && KeyOf(group[0], groupBy) == key; }
  }

  /** For every key the outputs of the whole are combined from those of the two shards. */
  ghost predicate ShardsSplit(a: seq<Record>, b: seq<Record>, groupBy: seq<string>,
                              aggregations: seq<RecordAggregation>)
  {
    forall key :: PartsSplit(GroupOf(a, groupBy, key), GroupOf(b, groupBy, key), aggregations)
  }

  lemma SplitsOverSplits(a: seq<Record>, b: seq<Record>, groupBy: seq<string>, aggregations: seq<RecordAggregation>)
    requires ValidRequest(aggregations, groupBy) && SplitsOver(a + b, groupBy, aggregations)
    ensures ShardsSplit(a, b, groupBy, aggregations)
  {
    forall key
      ensures PartsSplit(GroupOf(a, groupBy, key), GroupOf(b, groupBy, key), aggregations)
    {
      var ga, gb := GroupOf(a, groupBy, key), GroupOf(b, groupBy, key);
      GroupMerges(a + b, groupBy, aggregations, key);
      GroupConcat(a, b, groupBy, key);
      forall g | g in aggregations
        ensures RecordsSplit(ga, gb, g.operation)
      {
        AggregateConcat(ga, gb, g.operation);
      }
      AllSplitParts(ga, gb, aggregations);
    }
  }

  lemma SplitsOverRest(a: seq<Record>, b: seq<Record>, groupBy: seq<string>, aggregations: seq<RecordAggregation>)
    requires SplitsOver(a + b, groupBy, aggregations)
    ensures SplitsOver(b, groupBy, aggregations)
  {
    forall r, g | r in b && g in aggregations
      ensures MergesFor(GroupOf(b, groupBy, KeyOf(r, groupBy)), g.operation)
    {
      var key := KeyOf(r, groupBy);
      GroupMerges(a + b, groupBy, aggregations, key);
      GroupConcat(a, b, groupBy, key);
      MergesForPart(GroupOf(a + b, groupBy, key), GroupOf(b, groupBy, key), g.operation);
    }
  }

  lemma UnionKeysSort(a: seq<Record>, b: seq<Record>, groupBy: seq<string>)
    ensures Sort(UnionKeys(GroupKeys(a, groupBy), GroupKeys(b, groupBy)), KeyOrder()) == GroupKeys(a + b, groupBy)
  {
    var u, g := UnionKeys(GroupKeys(a, groupBy), GroupKeys(b, groupBy)), GroupKeys(a + b, groupBy);
    GroupKeysSet(a, groupBy);
    GroupKeysSet(b, groupBy);
    GroupKeysSet(a + b, groupBy);
    UnionDistinct(GroupKeys(a, groupBy), GroupKeys(b, groupBy));
    forall k
      ensures k in u <==> k in g
    {
      GroupConcat(a, b, groupBy, k);
      if groupBy == [] && a + b != [] { OneGroup(a + b); }
    }
    SameElementsSameMultiset(u, g);
    SortedGroupKeys(a + b, groupBy);
    KeyOrderTotal();
    SortSorts(u, KeyOrder());
    SortPermutes(u, KeyOrder());
    SortedUnique(Sort(u, KeyOrder()), g, KeyOrder());
  }

  lemma SortedGroupKeys(records: seq<Record>, groupBy: seq<string>)
    ensures Sorted(GroupKeys(records, groupBy), KeyOrder())
  {
    KeyOrderTotal();
    SortSorts(KeysInOrder(records, groupBy), KeyOrder());
  }

  /** Without `group_by` there is one group. */
  lemma {:induction false} OneGroup(records: seq<Record>)
    ensures GroupOf(records, [], []) == records
  {
    if records != [] {
      OneGroup(records[..|records| - 1]);
      assert records == records[..|records| - 1] + [records[|records| - 1]];
    }
  }

  /** Merging the shards' rows for one key gives the row of all records with that key. */
  lemma MergeOneKey(a: seq<Record>, b: seq<Record>, groupBy: seq<string>, aggregations: seq<RecordAggregation>,
                    key: GroupKey)
    requires ValidRequest(aggregations, groupBy) && ShardsSplit(a, b, groupBy, aggregations)
    requires AggregateRecords(a, aggregations, groupBy).Some? && AggregateRecords(b, aggregations, groupBy).Some?
    requires key in GroupKeys(a, groupBy) || key in GroupKeys(b, groupBy)
    ensures
      var x, y := AggregateRecords(a, aggregations, groupBy).value, AggregateRecords(b, aggregations, groupBy).value;
      CombineRows(RowWith(x, groupBy, key), RowWith(y, groupBy, key), aggregations)
      == RowOf(GroupOf(a + b, groupBy, key), groupBy, aggregations)
  {
    var ga, gb := GroupOf(a, groupBy, key), GroupOf(b, groupBy, key);
    GroupKeysSet(a, groupBy);
    GroupKeysSet(b, groupBy);
    RowForKey(a, GroupKeys(a, groupBy), groupBy, aggregations, key);
    RowForKey(b, GroupKeys(b, groupBy), groupBy, aggregations, key);
    GroupConcat(a, b, groupBy, key);
    if key !in GroupKeys(a, groupBy) {
      assert ga + gb == gb;
    } else if key !in GroupKeys(b, groupBy) {
      assert ga + gb == ga;
    } else {
      assert PartsSplit(ga, gb, aggregations);
      CombineGroupRows(ga, gb, groupBy, aggregations);
    }
  }

  lemma {:induction false} MergeAllKeys(a: seq<Record>, b: seq<Record>, keys: seq<GroupKey>, groupBy: seq<string>,
                                        aggregations: seq<RecordAggregation>)
    requires ValidRequest(aggregations, groupBy) && ShardsSplit(a, b, groupBy, aggregations)
    requires AggregateRecords(a, aggregations, groupBy).Some? && AggregateRecords(b, aggregations, groupBy).Some?
    requires forall k <- keys :: k in GroupKeys(a, groupBy) || k in GroupKeys(b, groupBy)
    ensures
      MergeKeys(AggregateRecords(a, aggregations, groupBy).value, AggregateRecords(b, aggregations, groupBy).value,
                keys, groupBy, aggregations)
      == RowsFor(a + b, keys, groupBy, aggregations)
  {
    if keys != [] {
      assert keys[0] in keys;
      MergeOneKey(a, b, groupBy, aggregations, keys[0]);
      MergeAllKeys(a, b, keys[1..], groupBy, aggregations);
    }
  }

  lemma {:induction false} RowsForFails(records: seq<Record>, keys: seq<GroupKey>, groupBy: seq<string>,
                                        aggregations: seq<RecordAggregation>)
    ensures RowsFor(records, keys, groupBy, aggregations).None?
       <==> exists k <- keys :: OutputFields(GroupOf(records, groupBy, k), aggregations).None?
  {
    if keys != [] {
      RowsForFails(records, keys[1..], groupBy, aggregations);
      assert keys[0] in keys;
      if RowsFor(records, keys[1..], groupBy, aggregations).None? {
        var k :| k in keys[1..] && OutputFields(GroupOf(records, groupBy, k), aggregations).None?;
        assert k in keys;
      }
    }
  }

  /** If a shard cannot be aggregated, neither can the whole. */
  lemma FailedShardFails(a: seq<Record>, b: seq<Record>, groupBy: seq<string>, aggregations: seq<RecordAggregation>)
    requires ShardsSplit(a, b, groupBy, aggregations)
    requires AggregateRecords(a, aggregations, groupBy).None? || AggregateRecords(b, aggregations, groupBy).None?
    ensures AggregateRecords(a + b, aggregations, groupBy).None?
  {
    RowsForFails(a, GroupKeys(a, groupBy), groupBy, aggregations);
    RowsForFails(b, GroupKeys(b, groupBy), groupBy, aggregations);
    RowsForFails(a + b, GroupKeys(a + b, groupBy), groupBy, aggregations);
    var k :|
      || (k in GroupKeys(a, groupBy) && OutputFields(GroupOf(a, groupBy, k), aggregations).None?)
      || (k in GroupKeys(b, groupBy) && OutputFields(GroupOf(b, groupBy, k), aggregations).None?);
    var ga, gb := GroupOf(a, groupBy, k), GroupOf(b, groupBy, k);
    assert PartsSplit(ga, gb, aggregations);
    GroupConcat(a, b, groupBy, k);
    UnionKeysSort(a, b, groupBy);
    GroupKeysSet(a, groupBy);
    UnionDistinct(GroupKeys(a, groupBy), GroupKeys(b, groupBy));
    SortElements(UnionKeys(GroupKeys(a, groupBy), GroupKeys(b, groupBy)), KeyOrder());
  }

  /** Merging the rows of two shards gives the rows of all their records, errors included. */
  predicate ShardsMerge(a: seq<Record>, b: seq<Record>, groupBy: seq<string>, aggregations: seq<RecordAggregation>) {
    AggregateRecords(a + b, aggregations, groupBy)
    == MergeResults(AggregateRecords(a, aggregations, groupBy), AggregateRecords(b, aggregations, groupBy),
                    groupBy, aggregations)
  }

  lemma SplitShardsMerge(a: seq<Record>, b: seq<Record>, groupBy: seq<string>,
                         aggregations: seq<RecordAggregation>)
    requires ValidRequest(aggregations, groupBy) && ShardsSplit(a, b, groupBy, aggregations)
    ensures ShardsMerge(a, b, groupBy, aggregations)
  {
    var x, y := AggregateRecords(a, aggregations, groupBy), AggregateRecords(b, aggregations, groupBy);
    if x.None? || y.None? {
      FailedShardFails(a, b, groupBy, aggregations);
    } else {
      GroupKeysSet(a, groupBy);
      GroupKeysSet(b, groupBy);
      RowsForKeys(a, GroupKeys(a, groupBy), groupBy, aggregations);
      RowsForKeys(b, GroupKeys(b, groupBy), groupBy, aggregations);
      UnionKeysSort(a, b, groupBy);
      var u := UnionKeys(GroupKeys(a, groupBy), GroupKeys(b, groupBy));
      UnionDistinct(GroupKeys(a, groupBy), GroupKeys(b, groupBy));
      SortElements(u, KeyOrder());
      MergeAllKeys(a, b, Sort(u, KeyOrder()), groupBy, aggregations);
    }
  }

  /** Aggregating two shards and merging by key is aggregating all records, errors included. */
  lemma AggregateOfTwoShards(a: seq<Record>, b: seq<Record>, groupBy: seq<string>,
                             aggregations: seq<RecordAggregation>)
    requires ValidRequest(aggregations, groupBy) && SplitsOver(a + b, groupBy, aggregations)
    ensures ShardsMerge(a, b, groupBy, aggregations)
  {
    SplitsOverSplits(a, b, groupBy, aggregations);
    SplitShardsMerge(a, b, groupBy, aggregations);
  }

  // ---------- records with one key ----------

  predicate SameKey(records: seq<Record>, groupBy: seq<string>, key: GroupKey) {
    records != [] && forall r <- records :: KeyOf(r, groupBy) == key
  }

  lemma {:induction false} SameKeyGroup(records: seq<Record>, groupBy: seq<string>, key: GroupKey)
    requires SameKey(records, groupBy, key)
    ensures KeysInOrder(records, groupBy) == [key] && GroupOf(records, groupBy, key) == records
  {
    var n := |records| - 1;
    assert records == records[..n] + [records[n]];
    if n > 0 { SameKeyGroup(records[..n], groupBy, key); }
  }

  lemma RowsForOneKey(records: seq<Record>, groupBy: seq<string>, aggregations: seq<RecordAggregation>, key: GroupKey)
    ensures
      var row := RowOf(GroupOf(records, groupBy, key), groupBy, aggregations);
      RowsFor(records, [key], groupBy, aggregations) == if row.Some? then Some([row.value]) else None
  {
    assert [key][1..] == [] && RowsFor(records, [], groupBy, aggregations) == Some([]);
    var row := RowOf(GroupOf(records, groupBy, key), groupBy, aggregations);
    assert row.Some? ==> [row.value] + [] == [row.value];
  }

  lemma SortOneKey(key: GroupKey)
    ensures Sort([key], KeyOrder()) == [key]
  {
    assert [key][1..] == [];
  }

  /** Records with one key are aggregated to one row. */
  lemma SameKeyRows(records: seq<Record>, groupBy: seq<string>, aggregations: seq<RecordAggregation>, key: GroupKey)
    requires SameKey(records, groupBy, key)
    ensures var row := RowOf(records, groupBy, aggregations);
            AggregateRecords(records, aggregations, groupBy) == if row.Some? then Some([row.value]) else None
  {
    SameKeyGroup(records, groupBy, key);
    SortOneKey(key);
    RowsForOneKey(records, groupBy, aggregations, key);
  }

  // ---------- many shards ----------

  function MergeShards(shards: seq<seq<Record>>, groupBy: seq<string>, aggregations: seq<RecordAggregation>)
    : Option<seq<Record>>
  {
    if shards == [] then AggregateRecords([], aggregations, groupBy)
    else MergeResults(AggregateRecords(shards[0], aggregations, groupBy),
                      MergeShards(shards[1..], groupBy, aggregations), groupBy, aggregations)
  }

  lemma {:induction false} AggregateOfShards(shards: seq<seq<Record>>, groupBy: seq<string>,
                                             aggregations: seq<RecordAggregation>)
    requires ValidRequest(aggregations, groupBy) && SplitsOver(Concat(shards), groupBy, aggregations)
    ensures AggregateRecords(Concat(shards), aggregations, groupBy) == MergeShards(shards, groupBy, aggregations)
  {
    if shards != [] {
      SplitsOverRest(shards[0], Concat(shards[1..]), groupBy, aggregations);
      AggregateOfShards(shards[1..], groupBy, aggregations);
      AggregateOfTwoShards(shards[0], Concat(shards[1..]), groupBy, aggregations);
    }
  }

  // ---------- group sizes ----------

  function GroupSizes(records: seq<Record>, groupBy: seq<string>, keys: seq<GroupKey>): nat {
    if keys == [] then 0 else |GroupOf(records, groupBy, keys[0])| + GroupSizes(records, groupBy, keys[1..])
  }

  lemma {:induction false} GroupSizesStep(records: seq<Record>, groupBy: seq<string>, keys: seq<GroupKey>)
    requires records != [] && NoDuplicates(keys)
    ensures GroupSizes(records, groupBy, keys)
         == GroupSizes(records[..|records| - 1], groupBy, keys)
            + (if KeyOf(records[|records| - 1], groupBy) in keys then 1 else 0)
  {
    if keys != [] {
      GroupSizesStep(records, groupBy, keys[1..]);
      assert keys == [keys[0]] + keys[1..];
    }
  }

  lemma {:induction false} GroupSizesCovered(records: seq<Record>, groupBy: seq<string>, keys: seq<GroupKey>)
    requires NoDuplicates(keys)
    requires forall r <- records :: KeyOf(r, groupBy) in keys
    ensures GroupSizes(records, groupBy, keys) == |records|
  {
    if records == [] {
      NoRecordsNoSizes(groupBy, keys);
    } else {
      GroupSizesStep(records, groupBy, keys);
      GroupSizesCovered(records[..|records| - 1], groupBy, keys);
    }
  }

  lemma {:induction false} NoRecordsNoSizes(groupBy: seq<string>, keys: seq<GroupKey>)
    ensures GroupSizes([], groupBy, keys) == 0
  {
    if keys != [] { NoRecordsNoSizes(groupBy, keys[1..]); }
  }

  lemma {:induction false} EveryRecordGrouped(records: seq<Record>, groupBy: seq<string>)
    ensures forall r <- records :: KeyOf(r, groupBy) in KeysInOrder(records, groupBy)
  {
    if records != [] {
      EveryRecordGrouped(records[..|records| - 1], groupBy);
      assert records == records[..|records| - 1] + [records[|records| - 1]];
    }
  }

  /** The groups partition the records. */
  lemma GroupSizesAddUp(records: seq<Record>, groupBy: seq<string>)
    ensures GroupSizes(records, groupBy, GroupKeys(records, groupBy)) == |records|
  {
    GroupKeysSet(records, groupBy);
    EveryRecordGrouped(records, groupBy);
    SortElements(KeysInOrder(records, groupBy), KeyOrder());
    GroupSizesCovered(records, groupBy, GroupKeys(records, groupBy));
  }
}
