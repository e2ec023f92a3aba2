/**
 Field lookup and the record comparator behind `top_k_records`.
 */
module Records {
  import opened Json
  import opened JsonCanonical
  import opened Sorting

  type Record = map<string, Json>

  function Concat(shards: seq<seq<Record>>): seq<Record> {
    if shards == [] then [] else shards[0] + Concat(shards[1..])
  }

  /** A lookup result; `Missing` is the `_MISSING` sentinel. */
  datatype Lookup = Missing | Found(value: Json)

  // ---------- field paths ----------

  /** `field.split(".")`. */
  function Split(field: string): (parts: seq<string>)
    ensures parts != []
    ensures forall p <- parts :: '.' !in p
  {
    if field == [] then [[]]
    else
      var rest := Split(field[1..]);
      if field[0] == '.' then [[]] + rest
      else [[field[0]] + rest[0]] + rest[1..]
  }

  function Walk(v: Json, path: seq<string>): Lookup {
    if path == [] then Found(v)
    else if v.Obj? && path[0] in v.fields then Walk(v.fields[path[0]], path[1..])
    else Missing
  }

  /** Exact keys first, then the dotted path through nested objects. */
  function FieldValue(record: Record, field: string): Lookup {
    if field in record then Found(record[field]) else Walk(Obj(record), Split(field))
  }

  method ResolveField(record: Record, field: string) returns (result: Lookup)
    ensures result == FieldValue(record, field)
  {
    if field in record {
      return Found(record[field]);
    }
    var value := Obj(record);
    var components := Split(field);
    for i := 0 to |components|
      invariant Walk(value, components[i..]) == FieldValue(record, field)
    {
      assert components[i..][1..] == components[i + 1..];
      if !value.Obj? || components[i] !in value.fields {
        return Missing;
      }
      value := value.fields[components[i]];
    }
    return Found(value);
  }

  /** A field name without dots is its own only path component. */
  lemma {:induction false} SplitPlain(field: string)
    requires '.' !in field
    ensures Split(field) == [field]
  {
    if field != [] {
      SplitPlain(field[1..]);
      assert field == [field[0]] + field[1..];
    }
  }

  lemma FieldValuePlain(record: Record, field: string)
    requires '.' !in field
    ensures FieldValue(record, field) == if field in record then Found(record[field]) else Missing
  {
    SplitPlain(field);
  }

  function Join(parts: seq<string>): string
    requires parts != []
  {
    if |parts| == 1 then parts[0] else parts[0] + "." + Join(parts[1..])
  }

  /** The path components are what stands between the dots. */
  lemma {:induction false} SplitJoins(parts: seq<string>)
    requires parts != [] && forall p <- parts :: '.' !in p
    ensures Split(Join(parts)) == parts
  {
    if |parts| == 1 {
      SplitPlain(parts[0]);
    } else {
      assert forall p <- parts[1..] :: p in parts;
      SplitJoins(parts[1..]);
      SplitAtDot(parts[0], Join(parts[1..]));
    }
  }

  lemma {:induction false} SplitAtDot(first: string, rest: string)
    requires '.' !in first
    ensures Split(first + "." + rest) == [first] + Split(rest)
  {
    var field := first + "." + rest;
    if first == [] {
      assert field[1..] == rest;
    } else {
      assert field[1..] == first[1..] + "." + rest;
      SplitAtDot(first[1..], rest);
      assert first == [first[0]] + first[1..];
    }
  }

  /** What stands at the end of a path through nested objects, written as a value that contains it. */
  function Nested(path: seq<string>, v: Json): Json {
    if path == [] then v else Obj(map[path[0] := Nested(path[1..], v)])
  }

  /** A dotted field reads the nested value, unless the record has the whole name as a key. */
  lemma NestedField(record: Record, first: string, rest: seq<string>, v: Json)
    requires rest != [] && '.' !in first && forall p <- rest :: '.' !in p
    requires first in record && record[first] == Nested(rest, v)
    ensures var field := Join([first] + rest);
            FieldValue(record, field) == Found(if field in record then record[field] else v)
  {
    var parts := [first] + rest;
    assert parts[1..] == rest;
    SplitJoins(parts);
    WalkNested(rest, v);
  }

  lemma {:induction false} WalkNested(path: seq<string>, v: Json)
    ensures Walk(Nested(path, v), path) == Found(v)
  {
    if path != [] { WalkNested(path[1..], v); }
  }

  /** The field is missing or null. */
  predicate Gone(v: Lookup) {
    match v
    case Missing => true
    case Found(value) => value == Null
  }

  predicate SameField(x: Record, y: Record, field: string) {
    var u, v := FieldValue(x, field), FieldValue(y, field);
    (Gone(u) && Gone(v)) || u == v
  }

  // ---------- comparing values ----------

  datatype RecordSort = RecordSort(field: string, ascending: bool, nullsFirst: bool)

  function CompareInts(a: int, b: int): int {
    if a > b then 1 else if a < b then -1 else 0
  }

  function BoolRank(b: bool): int {
    if b then 1 else 0
  }

  predicate IsNull(v: Lookup) {
    v.Missing? || v.value.Null?
  }

  /** The comparison of two non-null values, before the sort direction is applied. */
  function ComparePresent(left: Json, right: Json): int {
    if left.Num? && right.Num? then CompareInts(left.n, right.n)
    else if left.Str? && right.Str? then CompareStrings(left.s, right.s)
    else if left.Bool? && right.Bool? then CompareInts(BoolRank(left.b), BoolRank(right.b))
    else CompareStrings(Encode(left), Encode(right))
  }

  function CompareValues(left: Lookup, right: Lookup, sort: RecordSort): int {
    if IsNull(left) || IsNull(right) then
      if IsNull(left) && IsNull(right) then 0
      else if IsNull(left) == sort.nullsFirst then -1
      else 1
    else
      var comparison := ComparePresent(left.value, right.value);
      if sort.ascending then comparison else -comparison
  }

  /** Missing fields and JSON nulls sort alike. */
  function SortKey(v: Lookup): Json {
    if v.Missing? then Null else v.value
  }

  /** Values of different types compare as their type ranks do. */
  lemma PresentByRank(a: Json, b: Json)
    requires !a.Null? && !b.Null?
    ensures TypeRank(a) < TypeRank(b) ==> ComparePresent(a, b) == -1 && ComparePresent(b, a) == 1
  {
    if TypeRank(a) < TypeRank(b) {
      HeadSeparatesTypes(a, b);
      CompareStringsAntisymmetric(Encode(a), Encode(b));
    }
  }

  lemma PresentAntisymmetric(a: Json, b: Json)
    ensures ComparePresent(a, b) == -ComparePresent(b, a)
  {
    CompareStringsAntisymmetric(Encode(a), Encode(b));
    if a.Str? && b.Str? { CompareStringsAntisymmetric(a.s, b.s); }
  }

  lemma PresentZero(a: Json, b: Json)
    ensures ComparePresent(a, b) == 0 <==> a == b
  {
    CompareStringsZero(Encode(a), Encode(b));
    if Encode(a) == Encode(b) { EncodeInjective(a, b); }
    if a.Str? && b.Str? { CompareStringsZero(a.s, b.s); }
  }

  lemma PresentTransitive(a: Json, b: Json, c: Json)
    requires !a.Null? && !b.Null? && !c.Null?
    requires ComparePresent(a, b) <= 0 && ComparePresent(b, c) <= 0
    ensures ComparePresent(a, c) <= 0
  {
    PresentByRank(b, a);
    PresentByRank(c, b);
    assert TypeRank(a) <= TypeRank(b) <= TypeRank(c);
    if TypeRank(a) < TypeRank(c) {
      PresentByRank(a, c);
    } else if a.Str? {
      CompareStringsTransitive(a.s, b.s, c.s);
    } else if a.Arr? || a.Obj? {
      CompareStringsTransitive(Encode(a), Encode(b), Encode(c));
    }
  }

  lemma ValuesAntisymmetric(a: Lookup, b: Lookup, sort: RecordSort)
    ensures CompareValues(a, b, sort) == -CompareValues(b, a, sort)
  {
    if !IsNull(a) && !IsNull(b) { PresentAntisymmetric(a.value, b.value); }
  }

  /** A column comparison is 0 exactly for equal keys, missing counting as null. */
  lemma ValuesZero(a: Lookup, b: Lookup, sort: RecordSort)
    ensures CompareValues(a, b, sort) == 0 <==> SortKey(a) == SortKey(b)
  {
    if !IsNull(a) && !IsNull(b) { PresentZero(a.value, b.value); }
  }

  lemma ValuesTransitive(a: Lookup, b: Lookup, c: Lookup, sort: RecordSort)
    requires CompareValues(a, b, sort) <= 0 && CompareValues(b, c, sort) <= 0
    ensures CompareValues(a, c, sort) <= 0
  {
    if !IsNull(a) && !IsNull(b) && !IsNull(c) {
      if sort.ascending {
        PresentTransitive(a.value, b.value, c.value);
      } else {
        PresentAntisymmetric(a.value, b.value);
        PresentAntisymmetric(b.value, c.value);
        PresentAntisymmetric(a.value, c.value);
        PresentTransitive(c.value, b.value, a.value);
      }
    }
  }

  /** A column only compares the normalized keys. */
  lemma ValuesByKey(a: Lookup, b: Lookup, c: Lookup, d: Lookup, sort: RecordSort)
    requires SortKey(a) == SortKey(c) && SortKey(b) == SortKey(d)
    ensures CompareValues(a, b, sort) == CompareValues(c, d, sort)
  {
  }

  // ---------- comparing records ----------

  /** The sort columns in order. */
  function CompareColumns(left: Record, right: Record, orderBy: seq<RecordSort>): int {
    if orderBy == [] then 0
    else
      var result := CompareValues(FieldValue(left, orderBy[0].field), FieldValue(right, orderBy[0].field), orderBy[0]);
      if result != 0 then result else CompareColumns(left, right, orderBy[1..])
  }

  /** The `compare` closure of `_top_k_json_records`: the columns, then the whole record's text. */
  function CompareRecords(left: Record, right: Record, orderBy: seq<RecordSort>): int {
    var result := CompareColumns(left, right, orderBy);
    if result != 0 then result else CompareStrings(Encode(Obj(left)), Encode(Obj(right)))
  }

  /** The loop of the `compare` closure, returning at the first deciding column. */
  method CompareByLoop(left: Record, right: Record, orderBy: seq<RecordSort>) returns (comparison: int)
    ensures comparison == CompareRecords(left, right, orderBy)
  {
    for i := 0 to |orderBy|
      invariant CompareColumns(left, right, orderBy) == CompareColumns(left, right, orderBy[i..])
    {
      var l := ResolveField(left, orderBy[i].field);
      var r := ResolveField(right, orderBy[i].field);
      var result := CompareValues(l, r, orderBy[i]);
      assert orderBy[i..][1..] == orderBy[i + 1..];
      if result != 0 {
        return result;
      }
    }
    comparison := CompareStrings(Encode(Obj(left)), Encode(Obj(right)));
  }

  lemma {:induction false} ColumnsAntisymmetric(a: Record, b: Record, orderBy: seq<RecordSort>)
    ensures CompareColumns(a, b, orderBy) == -CompareColumns(b, a, orderBy)
  {
    if orderBy != [] {
      ValuesAntisymmetric(FieldValue(a, orderBy[0].field), FieldValue(b, orderBy[0].field), orderBy[0]);
      ColumnsAntisymmetric(a, b, orderBy[1..]);
    }
  }

  lemma {:induction false} ColumnsTransitive(a: Record, b: Record, c: Record, orderBy: seq<RecordSort>)
    requires CompareColumns(a, b, orderBy) <= 0 && CompareColumns(b, c, orderBy) <= 0
    ensures CompareColumns(a, c, orderBy) <= 0
    ensures CompareColumns(a, c, orderBy) == 0 ==>
              CompareColumns(a, b, orderBy) == 0 && CompareColumns(b, c, orderBy) == 0
  {
    if orderBy != [] {
      var sort := orderBy[0];
      var x, y, z := FieldValue(a, sort.field), FieldValue(b, sort.field), FieldValue(c, sort.field);
      ValuesTransitive(x, y, z, sort);
      ValuesZero(x, y, sort);
      ValuesZero(y, z, sort);
      ValuesZero(x, z, sort);
      if SortKey(x) == SortKey(z) {
        ValuesByKey(x, y, z, y, sort);
        ValuesAntisymmetric(y, z, sort);
        ColumnsTransitive(a, b, c, orderBy[1..]);
      } else if SortKey(x) == SortKey(y) == SortKey(z) {
        assert false;
      }
    }
  }

  lemma CompareRecordsAntisymmetric(a: Record, b: Record, orderBy: seq<RecordSort>)
    ensures CompareRecords(a, b, orderBy) == -CompareRecords(b, a, orderBy)
  {
    ColumnsAntisymmetric(a, b, orderBy);
    CompareStringsAntisymmetric(Encode(Obj(a)), Encode(Obj(b)));
  }

  lemma CompareRecordsTransitive(a: Record, b: Record, c: Record, orderBy: seq<RecordSort>)
    requires CompareRecords(a, b, orderBy) <= 0 && CompareRecords(b, c, orderBy) <= 0
    ensures CompareRecords(a, c, orderBy) <= 0
  {
    ColumnsTransitive(a, b, c, orderBy);
    if CompareColumns(a, c, orderBy) == 0 {
      CompareStringsTransitive(Encode(Obj(a)), Encode(Obj(b)), Encode(Obj(c)));
    }
  }

  lemma {:induction false} ColumnsReflexive(a: Record, orderBy: seq<RecordSort>)
    ensures CompareColumns(a, a, orderBy) == 0
  {
    ColumnsAntisymmetric(a, a, orderBy);
  }

  /** The comparator returns 0 exactly for the same record. */
  lemma CompareRecordsZero(a: Record, b: Record, orderBy: seq<RecordSort>)
    ensures CompareRecords(a, b, orderBy) == 0 <==> a == b
  {
    ColumnsReflexive(a, orderBy);
    CompareStringsZero(Encode(Obj(a)), Encode(Obj(b)));
    if CompareRecords(a, b, orderBy) == 0 {
      EncodeInjective(Obj(a), Obj(b));
    }
  }

  /** The order that `cmp_to_key(compare)` gives `sorted`. */
  function RecordOrder(orderBy: seq<RecordSort>): (Record, Record) -> bool {
    (a: Record, b: Record) => CompareRecords(a, b, orderBy) <= 0
  }

  lemma RecordOrderTotal(orderBy: seq<RecordSort>)
    ensures TotalOrder(RecordOrder(orderBy))
  {
    var le := RecordOrder(orderBy);
    forall a: Record, b: Record
      ensures le(a, b) || le(b, a)
      ensures le(a, b) && le(b, a) ==> a == b
    {
      CompareRecordsAntisymmetric(a, b, orderBy);
      CompareRecordsZero(a, b, orderBy);
    }
    forall a: Record, b: Record, c: Record | le(a, b) && le(b, c)
      ensures le(a, c)
    {
      CompareRecordsTransitive(a, b, c, orderBy);
    }
  }
}

/** `_top_k_json_records` and its behaviour over shards. */
module TopK {
  import opened Json
  import opened Records
  import opened Sorting

  function TopKRecords(records: seq<Record>, orderBy: seq<RecordSort>, limit: nat): seq<Record> {
    Least(records, limit, RecordOrder(orderBy))
  }

  function TopKPerShard(shards: seq<seq<Record>>, orderBy: seq<RecordSort>, limit: nat): seq<seq<Record>> {
    if shards == [] then []
    else [TopKRecords(shards[0], orderBy, limit)] + TopKPerShard(shards[1..], orderBy, limit)
  }

  /** The answer depends only on which records there are, not on their order. */
  lemma TopKOfPermutation(a: seq<Record>, b: seq<Record>, orderBy: seq<RecordSort>, limit: nat)
    requires multiset(a) == multiset(b)
    ensures TopKRecords(a, orderBy, limit) == TopKRecords(b, orderBy, limit)
  {
    RecordOrderTotal(orderBy);
    SortOfPermutation(a, b, RecordOrder(orderBy));
  }

  /** Ordered output of the right size, and no omitted record comes before a kept one. */
  lemma TopKSelectsFirst(records: seq<Record>, orderBy: seq<RecordSort>, limit: nat) returns (omitted: seq<Record>)
    ensures |TopKRecords(records, orderBy, limit)| == if limit <= |records| then limit else |records|
    ensures Sorted(TopKRecords(records, orderBy, limit), RecordOrder(orderBy))
    ensures multiset(records) == multiset(TopKRecords(records, orderBy, limit)) + multiset(omitted)
    ensures forall x, y :: x in TopKRecords(records, orderBy, limit) && y in omitted ==>
              CompareRecords(x, y, orderBy) <= 0
  {
    RecordOrderTotal(orderBy);
    omitted := LeastSplits(records, limit, RecordOrder(orderBy));
    forall x, y | x in TopKRecords(records, orderBy, limit) && y in omitted
      ensures CompareRecords(x, y, orderBy) <= 0
    {
      assert RecordOrder(orderBy)(x, y);
    }
  }

  /** Top-k of the whole is top-k of the shards' own top-k results. */
  lemma {:induction false} TopKOfShards(shards: seq<seq<Record>>, orderBy: seq<RecordSort>, limit: nat)
    ensures TopKRecords(Concat(shards), orderBy, limit)
         == TopKRecords(Concat(TopKPerShard(shards, orderBy, limit)), orderBy, limit)
  {
    if shards != [] {
      var le := RecordOrder(orderBy);
      RecordOrderTotal(orderBy);
      var head, rest := shards[0], Concat(shards[1..]);
      var top := TopKRecords(head, orderBy, limit);
      var tops := Concat(TopKPerShard(shards[1..], orderBy, limit));
      TopKOfShards(shards[1..], orderBy, limit);
      LeastOfPart(head, rest, limit, le);
      TopKOfPermutation(top + rest, rest + top, orderBy, limit);
      LeastOfPart(rest, top, limit, le);
      LeastOfPart(tops, top, limit, le);
      TopKOfPermutation(tops + top, top + tops, orderBy, limit);
      assert TopKPerShard(shards, orderBy, limit)[0] == top;
      assert TopKPerShard(shards, orderBy, limit)[1..] == TopKPerShard(shards[1..], orderBy, limit);
    }
  }

  // ---------- the order as a caller reads it ----------

  predicate NotBelow(high: string, low: string) {
    !ComesBefore(high, low)
  }

  /** Numbers by size, strings by their text, `false` before `true`, values of other types by their canonical text. */
  predicate Ascends(x: Json, y: Json) {
    if x.Num? && y.Num? then x.n <= y.n
    else if x.Str? && y.Str? then NotBelow(y.s, x.s)
    else if x.Bool? && y.Bool? then x.b ==> y.b
    else NotBelow(Encode(y), Encode(x))
  }

  /** In this column `u` may stand before `v`. */
  predicate ReadsInOrder(u: Lookup, v: Lookup, sort: RecordSort) {
    if Gone(u) then Gone(v) || sort.nullsFirst
    else if Gone(v) then !sort.nullsFirst
    else if sort.ascending then Ascends(u.value, v.value)
    else Ascends(v.value, u.value)
  }

  /** Each column decides where all before it agree, and the text of the records where all columns do. */
  predicate ReadsBefore(x: Record, y: Record, orderBy: seq<RecordSort>) {
    && (forall i :: 0 <= i < |orderBy| && (forall j :: 0 <= j < i ==> SameField(x, y, orderBy[j].field)) ==>
          ReadsInOrder(FieldValue(x, orderBy[i].field), FieldValue(y, orderBy[i].field), orderBy[i]))
    && ((forall j :: 0 <= j < |orderBy| ==> SameField(x, y, orderBy[j].field)) ==>
          NotBelow(Encode(Obj(y)), Encode(Obj(x))))
  }

  lemma PresentReads(x: Json, y: Json)
    ensures ComparePresent(x, y) <= 0 <==> Ascends(x, y)
  {
    StringOrder(Encode(x), Encode(y));
    if x.Str? && y.Str? { StringOrder(x.s, y.s); }
  }

  /** The comparison of two lookups is the order that a caller reads off them. */
  lemma ValuesRead(u: Lookup, v: Lookup, sort: RecordSort)
    ensures CompareValues(u, v, sort) <= 0 <==> ReadsInOrder(u, v, sort)
  {
    if !Gone(u) && !Gone(v) {
      PresentReads(u.value, v.value);
      PresentReads(v.value, u.value);
      PresentAntisymmetric(u.value, v.value);
    }
  }

  lemma SameFieldZero(x: Record, y: Record, sort: RecordSort)
    ensures SameField(x, y, sort.field)
       <==> CompareValues(FieldValue(x, sort.field), FieldValue(y, sort.field), sort) == 0
  {
    ValuesZero(FieldValue(x, sort.field), FieldValue(y, sort.field), sort);
  }

  lemma {:induction false} ColumnsRead(x: Record, y: Record, orderBy: seq<RecordSort>, i: nat)
    requires i < |orderBy| && forall j :: 0 <= j < i ==> SameField(x, y, orderBy[j].field)
    ensures CompareColumns(x, y, orderBy) == CompareColumns(x, y, orderBy[i..])
    ensures CompareColumns(x, y, orderBy) <= 0 ==>
              ReadsInOrder(FieldValue(x, orderBy[i].field), FieldValue(y, orderBy[i].field), orderBy[i])
  {
    if i == 0 {
      assert orderBy[0..] == orderBy;
      ValuesRead(FieldValue(x, orderBy[0].field), FieldValue(y, orderBy[0].field), orderBy[0]);
    } else {
      SameFieldZero(x, y, orderBy[0]);
      forall j | 0 <= j < i - 1
        ensures SameField(x, y, orderBy[1..][j].field)
      {
        assert orderBy[1..][j] == orderBy[j + 1];
      }
      ColumnsRead(x, y, orderBy[1..], i - 1);
      assert orderBy[1..][i - 1..] == orderBy[i..];
    }
  }

  lemma {:induction false} ColumnsAgree(x: Record, y: Record, orderBy: seq<RecordSort>)
    requires forall j :: 0 <= j < |orderBy| ==> SameField(x, y, orderBy[j].field)
    ensures CompareColumns(x, y, orderBy) == 0
  {
    if orderBy != [] {
      SameFieldZero(x, y, orderBy[0]);
      forall j | 0 <= j < |orderBy| - 1
        ensures SameField(x, y, orderBy[1..][j].field)
      {
        assert orderBy[1..][j] == orderBy[j + 1];
      }
      ColumnsAgree(x, y, orderBy[1..]);
    }
  }

  lemma RecordsRead(x: Record, y: Record, orderBy: seq<RecordSort>)
    requires CompareRecords(x, y, orderBy) <= 0
    ensures ReadsBefore(x, y, orderBy)
  {
    StringOrder(Encode(Obj(x)), Encode(Obj(y)));
    forall i | 0 <= i < |orderBy| && (forall j :: 0 <= j < i ==> SameField(x, y, orderBy[j].field))
      ensures ReadsInOrder(FieldValue(x, orderBy[i].field), FieldValue(y, orderBy[i].field), orderBy[i])
    {
      ColumnsRead(x, y, orderBy, i);
    }
    if forall j :: 0 <= j < |orderBy| ==> SameField(x, y, orderBy[j].field) { ColumnsAgree(x, y, orderBy); }
  }

  /** The answer and what it leaves out hold all records; the answer reads in order, and before what is left out. */
  lemma TopKReadsInOrder(records: seq<Record>, orderBy: seq<RecordSort>, limit: nat) returns (omitted: seq<Record>)
    ensures multiset(records) == multiset(TopKRecords(records, orderBy, limit)) + multiset(omitted)
    ensures omitted == [] || |TopKRecords(records, orderBy, limit)| == limit
    ensures |TopKRecords(records, orderBy, limit)| <= limit
    ensures forall x, y :: x in TopKRecords(records, orderBy, limit) && y in omitted ==> ReadsBefore(x, y, orderBy)
    ensures var top := TopKRecords(records, orderBy, limit);
            forall i, j :: 0 <= i < j < |top| ==> ReadsBefore(top[i], top[j], orderBy)
  {
    var top := TopKRecords(records, orderBy, limit);
    omitted := TopKSelectsFirst(records, orderBy, limit);
    assert |multiset(records)| == |records| && |multiset(omitted)| == |omitted|;
    forall x, y | x in top && y in omitted
      ensures ReadsBefore(x, y, orderBy)
    {
      RecordsRead(x, y, orderBy);
    }
    forall i, j | 0 <= i < j < |top|
      ensures ReadsBefore(top[i], top[j], orderBy)
    {
      assert RecordOrder(orderBy)(top[i], top[j]);
      RecordsRead(top[i], top[j], orderBy);
    }
  }

  /** Ordered by one column of numbers, nothing kept lies beyond anything omitted. */
  lemma TopKOfNumbers(records: seq<Record>, sort: RecordSort, limit: nat) returns (omitted: seq<Record>)
    ensures multiset(records) == multiset(TopKRecords(records, [sort], limit)) + multiset(omitted)
    ensures forall x, y :: x in TopKRecords(records, [sort], limit) && y in omitted ==>
              var u, v := FieldValue(x, sort.field), FieldValue(y, sort.field);
              (u.Found? && u.value.Num? && v.Found? && v.value.Num? ==>
                 if sort.ascending then u.value.n <= v.value.n else u.value.n >= v.value.n)
    ensures forall x, y :: x in TopKRecords(records, [sort], limit) && y in omitted ==>
              var u, v := FieldValue(x, sort.field), FieldValue(y, sort.field);
              (Gone(u) && !Gone(v) ==> sort.nullsFirst) && (!Gone(u) && Gone(v) ==> !sort.nullsFirst)
  {
    omitted := TopKReadsInOrder(records, [sort], limit);
    forall x, y | x in TopKRecords(records, [sort], limit) && y in omitted
      ensures ReadsInOrder(FieldValue(x, sort.field), FieldValue(y, sort.field), sort)
    {
      assert ReadsBefore(x, y, [sort]) && [sort][0] == sort;
    }
  }
}
