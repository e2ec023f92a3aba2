/**
 `_aggregate_json_records`: grouping by canonical key text, one row per group in key order,
 and the merge of per-shard outputs.
 */
module Grouping {
  import opened Json
  import opened Options
  import opened Sorting
  import opened Records
  import opened Aggregation

  type GroupKey = seq<string>

  // ---------- key order: tuples of strings ----------

  function CompareKeys(a: GroupKey, b: GroupKey): int {
    if a == [] then (if b == [] then 0 else -1)
    else if b == [] then 1
    else
      var c := CompareStrings(a[0], b[0]);
      if c != 0 then c else CompareKeys(a[1..], b[1..])
  }

  function KeyOrder(): (GroupKey, GroupKey) -> bool {
    (a: GroupKey, b: GroupKey) => CompareKeys(a, b) <= 0
  }

  lemma {:induction false} CompareKeysZero(a: GroupKey, b: GroupKey)
    ensures CompareKeys(a, b) == 0 <==> a == b
  {
    if a != [] && b != [] {
      CompareStringsZero(a[0], b[0]);
      CompareKeysZero(a[1..], b[1..]);
      assert a == [a[0]] + a[1..] && b == [b[0]] + b[1..];
    }
  }

  lemma {:induction false} CompareKeysAntisymmetric(a: GroupKey, b: GroupKey)
    ensures CompareKeys(a, b) == -CompareKeys(b, a)
  {
    if a != [] && b != [] {
      CompareStringsAntisymmetric(a[0], b[0]);
      CompareKeysAntisymmetric(a[1..], b[1..]);
    }
  }

  lemma {:induction false} CompareKeysTransitive(a: GroupKey, b: GroupKey, c: GroupKey)
    requires CompareKeys(a, b) <= 0 && CompareKeys(b, c) <= 0
    ensures CompareKeys(a, c) <= 0
  {
    if a != [] && b != [] && c != [] {
      CompareStringsTransitive(a[0], b[0], c[0]);
      CompareStringsZero(a[0], b[0]);
      CompareStringsZero(b[0], c[0]);
      CompareStringsZero(a[0], c[0]);
      CompareStringsAntisymmetric(a[0], b[0]);
      if a[0] == b[0] == c[0] { CompareKeysTransitive(a[1..], b[1..], c[1..]); }
    }
  }

  lemma KeyOrderTotal()
    ensures TotalOrder(KeyOrder())
  {
    var le := KeyOrder();
    forall a: GroupKey, b: GroupKey
      ensures le(a, b) || le(b, a)
      ensures le(a, b) && le(b, a) ==> a == b
    {
      CompareKeysAntisymmetric(a, b);
      CompareKeysZero(a, b);
    }
    forall a: GroupKey, b: GroupKey, c: GroupKey | le(a, b) && le(b, c)
      ensures le(a, c)
    {
      CompareKeysTransitive(a, b, c);
    }
  }

  // ---------- grouping ----------

  /** The texts of the group-by values; a missing field groups with null. */
  function KeyOf(record: Record, groupBy: seq<string>): GroupKey {
    if groupBy == [] then []
    else [Encode(SortKey(FieldValue(record, groupBy[0])))] + KeyOf(record, groupBy[1..])
  }

  function GroupFields(record: Record, groupBy: seq<string>): Record {
    map f | f in groupBy :: SortKey(FieldValue(record, f))
  }

  function AddKey(keys: seq<GroupKey>, key: GroupKey): seq<GroupKey> {
    if key in keys then keys else keys + [key]
  }

  /** Keys in order of first occurrence, as the dict holds them. */
  function KeysInOrder(records: seq<Record>, groupBy: seq<string>): seq<GroupKey> {
    if records == [] then []
    else AddKey(KeysInOrder(records[..|records| - 1], groupBy), KeyOf(records[|records| - 1], groupBy))
  }

  function GroupOf(records: seq<Record>, groupBy: seq<string>, key: GroupKey): seq<Record> {
    if records == [] then []
    else
      var last := records[|records| - 1];
      GroupOf(records[..|records| - 1], groupBy, key) + (if KeyOf(last, groupBy) == key then [last] else [])
  }

  function GroupKeys(records: seq<Record>, groupBy: seq<string>): seq<GroupKey> {
    if groupBy == [] && records == [] then [[]] else Sort(KeysInOrder(records, groupBy), KeyOrder())
  }

  function OutputFields(group: seq<Record>, aggregations: seq<RecordAggregation>): Option<Record> {
    if aggregations == [] then Some(map[])
    else
      var value :- AggregateValues(group, aggregations[0].operation);
      var rest :- OutputFields(group, aggregations[1..]);
      Some(map[aggregations[0].output := value] + rest)
  }

  function RowOf(group: seq<Record>, groupBy: seq<string>, aggregations: seq<RecordAggregation>): Option<Record> {
    var outputs :- OutputFields(group, aggregations);
    Some((if group == [] then map[] else GroupFields(group[0], groupBy)) + outputs)
  }

  function RowsFor(records: seq<Record>, keys: seq<GroupKey>, groupBy: seq<string>,
                   aggregations: seq<RecordAggregation>)
    : Option<seq<Record>>
  {
    if keys == [] then Some([])
    else
      var row :- RowOf(GroupOf(records, groupBy, keys[0]), groupBy, aggregations);
      var rest :- RowsFor(records, keys[1..], groupBy, aggregations);
      Some([row] + rest)
  }

  function AggregateRecords(records: seq<Record>, aggregations: seq<RecordAggregation>, groupBy: seq<string>)
    : Option<seq<Record>>
  {
    RowsFor(records, GroupKeys(records, groupBy), groupBy, aggregations)
  }

  lemma {:induction false} GroupNonEmpty(records: seq<Record>, groupBy: seq<string>, key: GroupKey)
    ensures key in KeysInOrder(records, groupBy) <==> GroupOf(records, groupBy, key) != []
  {
    if records != [] { GroupNonEmpty(records[..|records| - 1], groupBy, key); }
  }

  /** What the `grouped` dict holds after a prefix of the records. */
  ghost predicate GroupsOf(grouped: map<GroupKey, (Record, seq<Record>)>, records: seq<Record>, groupBy: seq<string>) {
    && (forall k :: k in grouped <==> k in KeysInOrder(records, groupBy))
    && (forall k <- grouped :: grouped[k].1 == GroupOf(records, groupBy, k))
    && (forall k <- grouped :: grouped[k].1 != [] && grouped[k].0 == GroupFields(grouped[k].1[0], groupBy))
  }

  lemma GroupingUnfold(records: seq<Record>, r: Record, groupBy: seq<string>)
    ensures KeysInOrder(records + [r], groupBy) == AddKey(KeysInOrder(records, groupBy), KeyOf(r, groupBy))
    ensures forall k :: GroupOf(records + [r], groupBy, k)
                        == GroupOf(records, groupBy, k) + (if KeyOf(r, groupBy) == k then [r] else [])
  {
  }

  /** One more record goes to the group of its key, which it opens when there is none. */
  lemma GroupsAppend(grouped: map<GroupKey, (Record, seq<Record>)>, records: seq<Record>, r: Record,
                     groupBy: seq<string>)
    requires GroupsOf(grouped, records, groupBy)
    ensures
      var key := KeyOf(r, groupBy);
      var before := if key in grouped then grouped[key] else (GroupFields(r, groupBy), []);
      GroupsOf(grouped[key := (before.0, before.1 + [r])], records + [r], groupBy)
  {
    GroupingUnfold(records, r, groupBy);
    var key := KeyOf(r, groupBy);
    GroupNonEmpty(records, groupBy, key);
    var before := if key in grouped then grouped[key] else (GroupFields(r, groupBy), []);
    var after := grouped[key := (before.0, before.1 + [r])];
    assert before.1 == GroupOf(records, groupBy, key);
    assert (before.1 + [r])[0] == if before.1 == [] then r else before.1[0];
    forall k | k in after
      ensures after[k].1 == GroupOf(records + [r], groupBy, k)
      ensures after[k].1 != [] && after[k].0 == GroupFields(after[k].1[0], groupBy)
    {
      assert k != key ==> GroupOf(records, groupBy, k) + [] == GroupOf(records, groupBy, k);
    }
  }

  method CollectGroups(records: seq<Record>, groupBy: seq<string>)
    returns (grouped: map<GroupKey, (Record, seq<Record>)>, order: seq<GroupKey>)
    ensures order == KeysInOrder(records, groupBy)
    ensures GroupsOf(grouped, records, groupBy)
  {
    grouped, order := map[], [];
    for i := 0 to |records|
      invariant order == KeysInOrder(records[..i], groupBy)
      invariant GroupsOf(grouped, records[..i], groupBy)
    {
      assert records[..i + 1] == records[..i] + [records[i]];
      var key := KeyOf(records[i], groupBy);
      GroupsAppend(grouped, records[..i], records[i], groupBy);
      if key !in grouped {
        grouped := grouped[key := (GroupFields(records[i], groupBy), [])];
        order := order + [key];
      }
      grouped := grouped[key := (grouped[key].0, grouped[key].1 + [records[i]])];
    }
    assert records[..|records|] == records;
  }

  function Prepend(rows: seq<Record>, rest: Option<seq<Record>>): Option<seq<Record>> {
    if rest.Some? then Some(rows + rest.value) else None
  }

  lemma PrependNothing(rest: Option<seq<Record>>)
    ensures Prepend([], rest) == rest
  {
    assert rest.Some? ==> [] + rest.value == rest.value;
  }

  lemma PrependRow(rows: seq<Record>, row: Record, rest: Option<seq<Record>>)
    ensures Prepend(rows, Prepend([row], rest)) == Prepend(rows + [row], rest)
  {
    assert rest.Some? ==> rows + ([row] + rest.value) == (rows + [row]) + rest.value;
  }

  lemma RowsForUnfold(records: seq<Record>, keys: seq<GroupKey>, i: nat, groupBy: seq<string>,
                      aggregations: seq<RecordAggregation>)
    requires i < |keys|
    ensures RowsFor(records, keys[i..], groupBy, aggregations)
         == var row := RowOf(GroupOf(records, groupBy, keys[i]), groupBy, aggregations);
            if row.None? then None else Prepend([row.value], RowsFor(records, keys[i + 1..], groupBy, aggregations))
  {
  }

  /** The entries that the output loop reads, also for the empty group added when there is no `group_by`. */
  ghost predicate ReadyGroups(grouped: map<GroupKey, (Record, seq<Record>)>, records: seq<Record>,
                              keys: seq<GroupKey>, groupBy: seq<string>)
  {
    forall k <- keys ::
      && k in grouped
      && grouped[k].1 == GroupOf(records, groupBy, k)
      && grouped[k].0 == if grouped[k].1 == [] then map[] else GroupFields(grouped[k].1[0], groupBy)
  }

  method OutputRows(ghost records: seq<Record>, grouped: map<GroupKey, (Record, seq<Record>)>, keys: seq<GroupKey>,
                    ghost groupBy: seq<string>, aggregations: seq<RecordAggregation>)
    returns (result: Option<seq<Record>>)
    requires ReadyGroups(grouped, records, keys, groupBy)
    ensures result == RowsFor(records, keys, groupBy, aggregations)
  {
    var output: seq<Record> := [];
    assert keys[0..] == keys;
    PrependNothing(RowsFor(records, keys, groupBy, aggregations));
    for i := 0 to |keys|
      invariant RowsFor(records, keys, groupBy, aggregations)
             == Prepend(output, RowsFor(records, keys[i..], groupBy, aggregations))
    {
      RowsForUnfold(records, keys, i, groupBy, aggregations);
      assert keys[i] in keys;
      var group := grouped[keys[i]];
      var outputs := OutputFields(group.1, aggregations);
      if outputs.None? {
        return None;
      }
      PrependRow(output, group.0 + outputs.value, RowsFor(records, keys[i + 1..], groupBy, aggregations));
      output := output + [group.0 + outputs.value];
    }
    assert output + [] == output;
    result := Some(output);
  }

  method AggregateByLoop(records: seq<Record>, aggregations: seq<RecordAggregation>, groupBy: seq<string>)
    returns (result: Option<seq<Record>>)
    ensures result == AggregateRecords(records, aggregations, groupBy)
  {
    var grouped, order := CollectGroups(records, groupBy);
    if groupBy == [] && order == [] {
      if records != [] { GroupNonEmpty(records, groupBy, KeyOf(records[|records| - 1], groupBy)); }
      grouped := grouped[[] := (map[], [])];
      order := [[]];
    }
    var keys := Sort(order, KeyOrder());
    SortElements(order, KeyOrder());
    result := OutputRows(records, grouped, keys, groupBy, aggregations);
  }
}
