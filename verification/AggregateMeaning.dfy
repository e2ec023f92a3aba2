/**
 The rows of an aggregation as a caller reads them: which records a row stands for, where it stands, what it holds.
 */
module AggregateMeaning {
  import opened Json
  import opened JsonCanonical
  import opened Options
  import opened Records
  import opened Aggregation
  import opened Grouping
  import opened ShardMerge

  // ---------- the records of a row ----------

  /** The record has the group values of the row; a missing field counts as null. */
  predicate Agrees(r: Record, row: Record, groupBy: seq<string>) {
    forall f <- groupBy :: f in row &&
      (FieldValue(r, f) == Found(row[f]) || (FieldValue(r, f) == Missing && row[f] == Null))
  }

  function Members(records: seq<Record>, row: Record, groupBy: seq<string>): seq<Record> {
    if records == [] then []
    else
      var n := |records| - 1;
      Members(records[..n], row, groupBy) + if Agrees(records[n], row, groupBy) then [records[n]] else []
  }

  lemma {:induction false} KeyAgrees(r: Record, row: Record, groupBy: seq<string>)
    requires forall f <- groupBy :: f in row
    ensures KeyOf(r, groupBy) == RowKey(row, groupBy) <==> Agrees(r, row, groupBy)
  {
    if groupBy != [] {
      var f, rest := groupBy[0], groupBy[1..];
      KeyAgrees(r, row, rest);
      var x := SortKey(FieldValue(r, f));
      if Encode(x) == Encode(row[f]) { EncodeInjective(x, row[f]); }
      assert KeyOf(r, groupBy) == [Encode(x)] + KeyOf(r, rest);
      assert RowKey(row, groupBy) == [Encode(row[f])] + RowKey(row, rest);
      assert KeyOf(r, groupBy)[1..] == KeyOf(r, rest) && RowKey(row, groupBy)[1..] == RowKey(row, rest);
      assert groupBy == [f] + rest;
    }
  }

  lemma {:induction false} MembersAreGroup(records: seq<Record>, row: Record, groupBy: seq<string>, key: GroupKey)
    requires (forall f <- groupBy :: f in row) && RowKey(row, groupBy) == key
    ensures Members(records, row, groupBy) == GroupOf(records, groupBy, key)
  {
    if records != [] {
      var n := |records| - 1;
      MembersAreGroup(records[..n], row, groupBy, key);
      KeyAgrees(records[n], row, groupBy);
    }
  }

  lemma {:induction false} RowAt(records: seq<Record>, keys: seq<GroupKey>, groupBy: seq<string>,
                                 aggregations: seq<RecordAggregation>, i: nat)
    requires RowsFor(records, keys, groupBy, aggregations).Some? && i < |keys|
    ensures |RowsFor(records, keys, groupBy, aggregations).value| == |keys|
    ensures RowOf(GroupOf(records, groupBy, keys[i]), groupBy, aggregations)
         == Some(RowsFor(records, keys, groupBy, aggregations).value[i])
  {
    if i > 0 {
      RowAt(records, keys[1..], groupBy, aggregations, i - 1);
    } else if |keys| > 1 {
      RowAt(records, keys[1..], groupBy, aggregations, 0);
    } else {
      assert keys[1..] == [];
    }
  }

  // ---------- what a row holds ----------

  function Names(groupBy: seq<string>, aggregations: seq<RecordAggregation>): set<string> {
    (set f | f in groupBy) + (set g | g in aggregations :: g.output)
  }

  /** The row has exactly the group values and the outputs, and each output is computed from its records. */
  predicate Tells(row: Record, records: seq<Record>, groupBy: seq<string>, aggregations: seq<RecordAggregation>) {
    && row.Keys == Names(groupBy, aggregations)
    && forall g <- aggregations ::
         AggregateValues(Members(records, row, groupBy), g.operation) == Some(row[g.output])
  }

  lemma RowFields(group: seq<Record>, groupBy: seq<string>, aggregations: seq<RecordAggregation>)
    requires ValidRequest(aggregations, groupBy) && RowOf(group, groupBy, aggregations).Some?
    requires group != [] || groupBy == []
    ensures var row := RowOf(group, groupBy, aggregations).value;
            && row.Keys == Names(groupBy, aggregations)
            && forall f <- groupBy :: f in row
  {
    var outputs := RowIsFieldsAndOutputs(group, groupBy, aggregations);
  }

  /** The row of a group tells what the group holds. */
  lemma RowTells(records: seq<Record>, groupBy: seq<string>, aggregations: seq<RecordAggregation>, key: GroupKey)
    requires ValidRequest(aggregations, groupBy)
    requires GroupOf(records, groupBy, key) != [] || (groupBy == [] && key == [])
    requires RowOf(GroupOf(records, groupBy, key), groupBy, aggregations).Some?
    ensures var row := RowOf(GroupOf(records, groupBy, key), groupBy, aggregations).value;
            Tells(row, records, groupBy, aggregations) && RowKey(row, groupBy) == key
            && (forall f <- groupBy :: f in row)
            && Members(records, row, groupBy) == GroupOf(records, groupBy, key)
  {
    var group := GroupOf(records, groupBy, key);
    var row := RowOf(group, groupBy, aggregations).value;
    RowFields(group, groupBy, aggregations);
    GroupRowKey(records, key, groupBy, aggregations);
    MembersAreGroup(records, row, groupBy, key);
    RowHoldsOutputs(group, groupBy, aggregations);
  }

  // ---------- where it stands ----------

  /** The rows agree on the first group values and the text of the next one is less. */
  predicate StandsBefore(x: Record, y: Record, groupBy: seq<string>) {
    exists p :: 0 <= p < |groupBy| && LessAt(x, y, groupBy, p)
  }

  predicate LessAt(x: Record, y: Record, groupBy: seq<string>, p: nat)
    requires p < |groupBy|
  {
    && (forall q :: 0 <= q <= p ==> groupBy[q] in x && groupBy[q] in y)
    && (forall q :: 0 <= q < p ==> x[groupBy[q]] == y[groupBy[q]])
    && ComesBefore(Encode(x[groupBy[p]]), Encode(y[groupBy[p]]))
  }

  lemma {:induction false} LessKeyStandsBefore(x: Record, y: Record, groupBy: seq<string>)
    requires forall f <- groupBy :: f in x && f in y
    requires CompareKeys(RowKey(x, groupBy), RowKey(y, groupBy)) < 0
    ensures StandsBefore(x, y, groupBy)
  {
    var f, rest := groupBy[0], groupBy[1..];
    StringOrder(Encode(x[f]), Encode(y[f]));
    assert RowKey(x, groupBy)[1..] == RowKey(x, rest) && RowKey(y, groupBy)[1..] == RowKey(y, rest);
    if Encode(x[f]) == Encode(y[f]) {
      EncodeInjective(x[f], y[f]);
      LessKeyStandsBefore(x, y, rest);
      var p :| 0 <= p < |rest| && LessAt(x, y, rest, p);
      assert LessAt(x, y, groupBy, p + 1) by {
        assert forall q :: 0 < q <= p + 1 ==> groupBy[q] == rest[q - 1];
      }
    } else {
      assert LessAt(x, y, groupBy, 0);
    }
  }

  // ---------- all rows ----------

  /**
   The rows of an aggregation: each tells about its records, they stand in the order of the texts of their group
   values, every row but that of an ungrouped empty list has a record, and every record has a row.
   */
  lemma RowsTell(records: seq<Record>, groupBy: seq<string>, aggregations: seq<RecordAggregation>)
    requires ValidRequest(aggregations, groupBy) && AggregateRecords(records, aggregations, groupBy).Some?
    ensures
      var rows := AggregateRecords(records, aggregations, groupBy).value;
      && (forall row <- rows :: Tells(row, records, groupBy, aggregations))
      && (forall i, j :: 0 <= i < j < |rows| ==> StandsBefore(rows[i], rows[j], groupBy))
      && (forall row <- rows :: Members(records, row, groupBy) != [] || (groupBy == [] && records == []))
      && (forall r <- records :: exists row <- rows :: Agrees(r, row, groupBy))
      && (groupBy == [] ==> |rows| == 1)
  {
    var keys := GroupKeys(records, groupBy);
    var rows := AggregateRecords(records, aggregations, groupBy).value;
    GroupKeysSet(records, groupBy);
    if keys != [] { RowAt(records, keys, groupBy, aggregations, 0); }
    forall i | 0 <= i < |keys|
      ensures |rows| == |keys| && Tells(rows[i], records, groupBy, aggregations) && RowKey(rows[i], groupBy) == keys[i]
      ensures Members(records, rows[i], groupBy) == GroupOf(records, groupBy, keys[i])
      ensures forall f <- groupBy :: f in rows[i]
    {
      assert keys[i] in keys;
      RowAt(records, keys, groupBy, aggregations, i);
      RowTells(records, groupBy, aggregations, keys[i]);
    }
    RowsStandInOrder(records, groupBy, keys, rows);
    EveryRecordHasRow(records, groupBy, keys, rows);
    if groupBy == [] { OneKey(records, keys); }
  }

  lemma RowsStandInOrder(records: seq<Record>, groupBy: seq<string>, keys: seq<GroupKey>, rows: seq<Record>)
    requires keys == GroupKeys(records, groupBy) && |rows| == |keys|
    requires forall i :: 0 <= i < |rows| ==> RowKey(rows[i], groupBy) == keys[i] && forall f <- groupBy :: f in rows[i]
    ensures forall i, j :: 0 <= i < j < |rows| ==> StandsBefore(rows[i], rows[j], groupBy)
  {
    GroupKeysIncrease(records, groupBy);
    forall i, j | 0 <= i < j < |rows|
      ensures StandsBefore(rows[i], rows[j], groupBy)
    {
      LessKeyStandsBefore(rows[i], rows[j], groupBy);
    }
  }

  lemma EveryRecordHasRow(records: seq<Record>, groupBy: seq<string>, keys: seq<GroupKey>, rows: seq<Record>)
    requires keys == GroupKeys(records, groupBy) && |rows| == |keys|
    requires forall i :: 0 <= i < |rows| ==> RowKey(rows[i], groupBy) == keys[i] && forall f <- groupBy :: f in rows[i]
    ensures forall r <- records :: exists row <- rows :: Agrees(r, row, groupBy)
  {
    GroupKeysSet(records, groupBy);
    EveryRecordGrouped(records, groupBy);
    forall r | r in records
      ensures exists row <- rows :: Agrees(r, row, groupBy)
    {
      GroupNonEmpty(records, groupBy, KeyOf(r, groupBy));
      var i :| 0 <= i < |keys| && keys[i] == KeyOf(r, groupBy);
      KeyAgrees(r, rows[i], groupBy);
      assert rows[i] in rows;
    }
  }

  lemma OneKey(records: seq<Record>, keys: seq<GroupKey>)
    requires keys == GroupKeys(records, [])
    ensures |keys| == 1
  {
    if records != [] {
      assert SameKey(records, [], []);
      SameKeyGroup(records, [], []);
      SortOneKey([]);
    }
  }

  // ---------- what the operations return ----------

  predicate HasNumber(r: Record, field: string, n: int) {
    FieldValue(r, field) == Found(Num(n))
  }

  /** One record: `sum`, `min` and `max` return its value, and a present value counts one. */
  lemma OneRecord(r: Record, field: string)
    ensures AggregateValues([r], CountRows) == Some(Num(1))
    ensures Gone(FieldValue(r, field)) ==>
              && AggregateValues([r], Count(field)) == AggregateValues([r], CountDistinct(field)) == Some(Num(0))
              && AggregateValues([r], Sum(field)) == AggregateValues([r], Min(field)) == Some(Null)
              && AggregateValues([r], Max(field)) == Some(Null)
    ensures !Gone(FieldValue(r, field)) ==>
              var v := FieldValue(r, field).value;
              && AggregateValues([r], Count(field)) == AggregateValues([r], CountDistinct(field)) == Some(Num(1))
              && AggregateValues([r], Sum(field)) == (if v.Num? then Some(v) else None)
              && AggregateValues([r], Min(field)) == AggregateValues([r], Max(field)) == Some(v)
  {
    assert [r][1..] == [];
    if Gone(FieldValue(r, field)) {
      assert Values([r], field) == [];
      assert Texts([]) == {};
    } else {
      var v := FieldValue(r, field).value;
      OneRecordValue(r, field, v);
      assert [v][1..] == [] && Texts([v]) == {Encode(v)};
      if v.Num? { assert SumOf([v]) == Some(v.n); }
    }
  }

  lemma {:induction false} SumRaised(a: seq<Json>, m: int, b: seq<Json>, d: int)
    requires SumOf(a + [Num(m)] + b).Some?
    ensures SumOf(a + [Num(m + d)] + b) == Some(SumOf(a + [Num(m)] + b).value + d)
  {
    SumConcat(a + [Num(m)], b);
    SumConcat(a, [Num(m)]);
    SumConcat(a + [Num(m + d)], b);
    SumConcat(a, [Num(m + d)]);
    assert [Num(m)][1..] == [] && [Num(m + d)][1..] == [];
  }

  lemma ValuesThrough(a: seq<Record>, r: Record, b: seq<Record>, field: string, v: Json)
    requires FieldValue(r, field) == Found(v) && !v.Null?
    ensures Values(a + [r] + b, field) == Values(a, field) + [v] + Values(b, field)
  {
    ValuesConcat(a, [r], field);
    ValuesConcat(a + [r], b, field);
    OneRecordValue(r, field, v);
  }

  /** Raising the number of one record by `d` raises the sum by exactly `d`. */
  lemma RaisedSum(a: seq<Record>, r: Record, s: Record, b: seq<Record>, field: string, m: int, d: int)
    requires HasNumber(r, field, m) && HasNumber(s, field, m + d)
    requires AggregateValues(a + [r] + b, Sum(field)).Some?
    ensures AggregateValues(a + [r] + b, Sum(field)).value.Num?
    ensures AggregateValues(a + [s] + b, Sum(field))
         == Some(Num(AggregateValues(a + [r] + b, Sum(field)).value.n + d))
  {
    ValuesThrough(a, r, b, field, Num(m));
    ValuesThrough(a, s, b, field, Num(m + d));
    SumRaised(Values(a, field), m, Values(b, field), d);
  }

  lemma {:induction false} SumNeedsNumbers(values: seq<Json>)
    ensures SumOf(values).Some? <==> forall v <- values :: v.Num?
  {
    if values != [] {
      SumNeedsNumbers(values[1..]);
      assert values == [values[0]] + values[1..];
    }
  }

  /** The sum fails exactly when some present value is no number. */
  lemma SumFailsExactly(records: seq<Record>, field: string)
    ensures AggregateValues(records, Sum(field)).None?
       <==> exists r <- records :: !Gone(FieldValue(r, field)) && !FieldValue(r, field).value.Num?
  {
    var values := Values(records, field);
    SumNeedsNumbers(values);
    forall v
      ensures v in values <==> exists r <- records :: FieldValue(r, field) == Found(v) && !v.Null?
    {
      ValueMembers(records, field, v);
    }
    if r :| r in records && !Gone(FieldValue(r, field)) && !FieldValue(r, field).value.Num? {
      assert FieldValue(r, field).value in values;
    }
  }

  /** The places of the records that have the field. */
  function Having(records: seq<Record>, field: string): set<int> {
    set i | 0 <= i < |records| && !Gone(FieldValue(records[i], field))
  }

  lemma HavingOneMore(front: seq<Record>, last: Record, field: string)
    ensures |Having(front + [last], field)|
         == |Having(front, field)| + if Gone(FieldValue(last, field)) then 0 else 1
  {
    var n := |front|;
    var more: set<int> := if Gone(FieldValue(last, field)) then {} else {n};
    var all := front + [last];
    assert forall i :: 0 <= i < n ==> all[i] == front[i];
    assert all[n] == last;
    assert Having(all, field) == Having(front, field) + more;
    assert n !in Having(front, field);
  }

  /** `count` of a field is the number of records that have it. */
  lemma {:induction false} CountIsNumber(records: seq<Record>, field: string)
    ensures AggregateValues(records, Count(field)) == Some(Num(|Having(records, field)|))
  {
    if records == [] {
      assert Having(records, field) == {};
    } else {
      var n := |records| - 1;
      assert records == records[..n] + [records[n]];
      CountIsNumber(records[..n], field);
      HavingOneMore(records[..n], records[n], field);
      AggregateConcat(records[..n], [records[n]], Count(field));
      OneRecord(records[n], field);
    }
  }

  /** Over numbers, `min` returns one of them that none is below, and `max` one that none is above. */
  lemma LeastAndGreatest(records: seq<Record>, field: string)
    requires forall r <- records :: !Gone(FieldValue(r, field)) ==> FieldValue(r, field).value.Num?
    requires exists r <- records :: !Gone(FieldValue(r, field))
    ensures var least := AggregateValues(records, Min(field));
            && least.Some? && least.value.Num?
            && (exists r <- records :: HasNumber(r, field, least.value.n))
            && forall r <- records, n | HasNumber(r, field, n) :: least.value.n <= n
    ensures var greatest := AggregateValues(records, Max(field));
            && greatest.Some? && greatest.value.Num?
            && (exists r <- records :: HasNumber(r, field, greatest.value.n))
            && forall r <- records, n | HasNumber(r, field, n) :: greatest.value.n >= n
  {
    ExtremeOfNumbers(records, Min(field));
    ExtremeOfNumbers(records, Max(field));
  }

  /** The present values are the numbers of the records. */
  lemma NumbersAmong(records: seq<Record>, field: string)
    requires forall r <- records :: !Gone(FieldValue(r, field)) ==> FieldValue(r, field).value.Num?
    requires exists r <- records :: !Gone(FieldValue(r, field))
    ensures Values(records, field) != [] && AllNumbers(Values(records, field))
    ensures forall v <- Values(records, field) :: exists r <- records :: HasNumber(r, field, v.n)
    ensures forall r <- records, n | HasNumber(r, field, n) :: Num(n) in Values(records, field)
  {
    forall v
      ensures v in Values(records, field) <==> exists r <- records :: FieldValue(r, field) == Found(v) && !v.Null?
    {
      ValueMembers(records, field, v);
    }
    var r0 :| r0 in records && !Gone(FieldValue(r0, field));
    assert FieldValue(r0, field).value in Values(records, field);
  }

  lemma ExtremeOfNumbers(records: seq<Record>, operation: Operation)
    requires IsExtreme(operation)
    requires forall r <- records :: !Gone(FieldValue(r, operation.field)) ==> FieldValue(r, operation.field).value.Num?
    requires exists r <- records :: !Gone(FieldValue(r, operation.field))
    ensures var best := AggregateValues(records, operation);
            && best.Some? && best.value.Num?
            && (exists r <- records :: HasNumber(r, operation.field, best.value.n))
            && forall r <- records, n | HasNumber(r, operation.field, n) ::
                 if operation.Max? then best.value.n >= n else best.value.n <= n
  {
    NumbersAmong(records, operation.field);
    assert CannotFail(records, operation);
    CannotFailSucceeds(records, records, operation);
    ExtremeOfIsBest(records, operation);
  }

  // ---------- a raised number, as it shows in the rows ----------

  lemma {:induction false} MembersConcat(a: seq<Record>, b: seq<Record>, row: Record, groupBy: seq<string>)
    ensures Members(a + b, row, groupBy) == Members(a, row, groupBy) + Members(b, row, groupBy)
  {
    if b == [] {
      assert a + b == a;
    } else {
      ConcatFront(a, b);
      MembersConcat(a, b[..|b| - 1], row, groupBy);
    }
  }

  lemma MembersThrough(a: seq<Record>, r: Record, b: seq<Record>, row: Record, groupBy: seq<string>)
    ensures Members(a + [r] + b, row, groupBy)
         == Members(a, row, groupBy) + (if Agrees(r, row, groupBy) then [r] else []) + Members(b, row, groupBy)
  {
    MembersConcat(a + [r], b, row, groupBy);
    MembersConcat(a, [r], row, groupBy);
    assert [r][..0] == [];
  }

  lemma {:induction false} SameValuesSameMembers(records: seq<Record>, x: Record, y: Record, groupBy: seq<string>)
    requires forall f <- groupBy :: f in x && f in y && x[f] == y[f]
    ensures Members(records, x, groupBy) == Members(records, y, groupBy)
  {
    if records != [] { SameValuesSameMembers(records[..|records| - 1], x, y, groupBy); }
  }

  /**
   When the number of one record is raised by `d` and its group values stay, the sum in the row of its group is raised
   by exactly `d`.
   */
  lemma RaisedRow(a: seq<Record>, r: Record, s: Record, b: seq<Record>, groupBy: seq<string>,
                  aggregations: seq<RecordAggregation>, g: RecordAggregation, m: int, d: int, x: Record, y: Record)
    requires ValidRequest(aggregations, groupBy) && g in aggregations && g.operation.Sum?
    requires HasNumber(r, g.operation.field, m) && HasNumber(s, g.operation.field, m + d)
    requires AggregateRecords(a + [r] + b, aggregations, groupBy).Some?
    requires AggregateRecords(a + [s] + b, aggregations, groupBy).Some?
    requires x in AggregateRecords(a + [r] + b, aggregations, groupBy).value && Agrees(r, x, groupBy)
    requires y in AggregateRecords(a + [s] + b, aggregations, groupBy).value && Agrees(s, y, groupBy)
    requires forall f <- groupBy :: f in x && f in y && x[f] == y[f]
    ensures g.output in x && x[g.output].Num? && g.output in y && y[g.output] == Num(x[g.output].n + d)
  {
    RowsTell(a + [r] + b, groupBy, aggregations);
    RowsTell(a + [s] + b, groupBy, aggregations);
    MembersThrough(a, r, b, x, groupBy);
    MembersThrough(a, s, b, y, groupBy);
    SameValuesSameMembers(a, x, y, groupBy);
    SameValuesSameMembers(b, x, y, groupBy);
    RaisedSum(Members(a, x, groupBy), r, s, Members(b, x, groupBy), g.operation.field, m, d);
  }

  /** A single record makes one row, which holds its group values and its own numbers as sums. */
  lemma SingleRow(r: Record, groupBy: seq<string>, aggregations: seq<RecordAggregation>)
    requires ValidRequest(aggregations, groupBy) && AggregateRecords([r], aggregations, groupBy).Some?
    ensures
      var rows := AggregateRecords([r], aggregations, groupBy).value;
      && |rows| == 1 && Agrees(r, rows[0], groupBy) && rows[0].Keys == Names(groupBy, aggregations)
      && forall g <- aggregations, n | g.operation.Sum? && HasNumber(r, g.operation.field, n) ::
           rows[0][g.output] == Num(n)
  {
    SameKeyRows([r], groupBy, aggregations, KeyOf(r, groupBy));
    RowsTell([r], groupBy, aggregations);
    var row := AggregateRecords([r], aggregations, groupBy).value[0];
    assert r in [r] && Agrees(r, row, groupBy) && Tells(row, [r], groupBy, aggregations);
    assert [r][..0] == [] && Members([r], row, groupBy) == [r];
    forall g, n | g in aggregations && g.operation.Sum? && HasNumber(r, g.operation.field, n)
      ensures row[g.output] == Num(n)
    {
      OneRecord(r, g.operation.field);
    }
  }
}
