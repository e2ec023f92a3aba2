/**
 `_aggregate_values`: one aggregation over a group, and how the results of two groups combine.
 `None` is the `ExecutionFailedError` for non-numeric or incomparable values.
 */
module Aggregation {
  import opened Json
  import JsonCanonical
  import opened Options
  import opened Records
  import opened Predicates

  datatype Operation = CountRows | Count(field: string) | CountDistinct(field: string)
                     | Sum(field: string) | Min(field: string) | Max(field: string)

  datatype RecordAggregation = RecordAggregation(output: string, operation: Operation)

  /** The present, non-null values of a field. */
  function Values(records: seq<Record>, field: string): seq<Json> {
    if records == [] then [] else NonNull(FieldValue(records[0], field)) + Values(records[1..], field)
  }

  function NonNull(v: Lookup): seq<Json> {
    if IsNull(v) then [] else [v.value]
  }

  function SumOf(values: seq<Json>): Option<int> {
    if values == [] then Some(0)
    else if !values[0].Num? then None
    else
      var rest :- SumOf(values[1..]);
      Some(values[0].n + rest)
  }

  /** One step of `min`/`max`: the earlier value stays unless the later one is strictly better. */
  function Better(current: Json, candidate: Json, wantMax: bool): Option<Json> {
    var c :- PyCompare(candidate, current);
    Some(if (if wantMax then c > 0 else c < 0) then candidate else current)
  }

  function Extreme(current: Json, values: seq<Json>, wantMax: bool): Option<Json>
    decreases values
  {
    if values == [] then Some(current)
    else
      var next :- Better(current, values[0], wantMax);
      Extreme(next, values[1..], wantMax)
  }

  function ExtremeOf(values: seq<Json>, wantMax: bool): Option<Json> {
    if values == [] then Some(Null) else Extreme(values[0], values[1..], wantMax)
  }

  function Texts(values: seq<Json>): set<string> {
    set v | v in values :: Encode(v)
  }

  function AggregateValues(records: seq<Record>, operation: Operation): Option<Json> {
    match operation
    case CountRows => Some(Num(|records|))
    case Count(field) => Some(Num(|Values(records, field)|))
    case CountDistinct(field) => Some(Num(|Texts(Values(records, field))|))
    case Sum(field) =>
      var values := Values(records, field);
      if values == [] then Some(Null)
      else
        var total :- SumOf(values);
        Some(Num(total))
    case Min(field) => ExtremeOf(Values(records, field), false)
    case Max(field) => ExtremeOf(Values(records, field), true)
  }

  // ---------- combining the results of two groups ----------

  predicate Mergeable(operation: Operation) {
    !operation.CountDistinct?
  }

  function AddValues(x: Json, y: Json): Option<Json> {
    if x.Num? && y.Num? then Some(Num(x.n + y.n)) else None
  }

  /** Null is the identity of `sum`, `min` and `max`. */
  function CombineValues(operation: Operation, x: Json, y: Json): Option<Json> {
    if operation.CountRows? || operation.Count? then AddValues(x, y)
    else if x.Null? then Some(y)
    else if y.Null? then Some(x)
    else if operation.Min? || operation.Max? then Better(x, y, operation.Max?)
    else AddValues(x, y)
  }

  function CombineResults(operation: Operation, x: Option<Json>, y: Option<Json>): Option<Json> {
    var a :- x;
    var b :- y;
    CombineValues(operation, a, b)
  }

  /** Keeping the better one of three values may start at either end, failures included. */
  predicate Associates(x: Json, y: Json, z: Json, wantMax: bool) {
    var xy, yz := Better(x, y, wantMax), Better(y, z, wantMax);
    (if xy.Some? then Better(xy.value, z, wantMax) else None)
    == (if yz.Some? then Better(x, yz.value, wantMax) else None)
  }

  predicate AssociatesOver(values: seq<Json>, wantMax: bool) {
    forall x <- values, y <- values, z <- values :: Associates(x, y, z, wantMax)
  }

  predicate IsExtreme(operation: Operation) {
    operation.Min? || operation.Max?
  }

  /** What `min` and `max` need to be merged; `ArraysBreakMinMerge` has values without it. */
  predicate MergesFor(records: seq<Record>, operation: Operation) {
    IsExtreme(operation) ==> AssociatesOver(Values(records, operation.field), operation.Max?)
  }

  lemma {:induction false} ValuesConcat(a: seq<Record>, b: seq<Record>, field: string)
    ensures Values(a + b, field) == Values(a, field) + Values(b, field)
  {
    if a == [] {
      assert a + b == b;
    } else {
      ValuesConcat(a[1..], b, field);
      assert (a + b)[1..] == a[1..] + b && (a + b)[0] == a[0];
      var head, rest := NonNull(FieldValue(a[0], field)), Values(a[1..], field);
      assert head + (rest + Values(b, field)) == (head + rest) + Values(b, field);
    }
  }

  lemma {:induction false} ValueMembers(records: seq<Record>, field: string, v: Json)
    ensures v in Values(records, field) <==> exists r <- records :: FieldValue(r, field) == Found(v) && !v.Null?
  {
    if records != [] {
      ValueMembers(records[1..], field, v);
      assert records == [records[0]] + records[1..];
      if r :| r in records && FieldValue(r, field) == Found(v) && !v.Null? {
        assert r == records[0] || r in records[1..];
      }
    }
  }

  lemma RecordWithValue(records: seq<Record>, field: string, v: Json) returns (r: Record)
    requires v in Values(records, field)
    ensures r in records && FieldValue(r, field) == Found(v) && !v.Null?
  {
    ValueMembers(records, field, v);
    r :| r in records && FieldValue(r, field) == Found(v) && !v.Null?;
  }

  /** The lists whose values are all in `all`. */
  predicate Over(values: seq<Json>, all: seq<Json>) {
    forall v <- values :: v in all
  }

  lemma ValuesOfPart(records: seq<Record>, part: seq<Record>, field: string)
    requires forall r <- part :: r in records
    ensures Over(Values(part, field), Values(records, field))
  {
    forall v | v in Values(part, field)
      ensures v in Values(records, field)
    {
      ValueMembers(part, field, v);
      ValueMembers(records, field, v);
    }
  }

  lemma MergesForPart(records: seq<Record>, part: seq<Record>, operation: Operation)
    requires MergesFor(records, operation) && forall r <- part :: r in records
    ensures MergesFor(part, operation)
  {
    if IsExtreme(operation) { ValuesOfPart(records, part, operation.field); }
  }

  lemma {:induction false} SumConcat(a: seq<Json>, b: seq<Json>)
    ensures SumOf(a + b) ==
            if SumOf(a).Some? && SumOf(b).Some? then Some(SumOf(a).value + SumOf(b).value) else None
  {
    if a == [] {
      assert a + b == b;
    } else {
      SumConcat(a[1..], b);
      assert (a + b)[1..] == a[1..] + b;
    }
  }

  lemma {:induction false} ExtremeConcat(current: Json, a: seq<Json>, b: seq<Json>, wantMax: bool)
    ensures Extreme(current, a + b, wantMax) ==
            var e := Extreme(current, a, wantMax);
            if e.Some? then Extreme(e.value, b, wantMax) else None
    decreases a
  {
    if a == [] {
      assert a + b == b;
    } else {
      assert (a + b)[1..] == a[1..] + b;
      var next := Better(current, a[0], wantMax);
      if next.Some? { ExtremeConcat(next.value, a[1..], b, wantMax); }
    }
  }

  lemma {:induction false} ExtremeAbsorbs(x: Json, y: Json, values: seq<Json>, all: seq<Json>, wantMax: bool)
    requires AssociatesOver(all, wantMax) && x in all && y in all && forall v <- values :: v in all
    ensures
      var xy, e := Better(x, y, wantMax), Extreme(y, values, wantMax);
      (if xy.Some? then Extreme(xy.value, values, wantMax) else None)
      == (if e.Some? then Better(x, e.value, wantMax) else None)
    decreases values
  {
    if values != [] {
      var z, rest := values[0], values[1..];
      assert Associates(x, y, z, wantMax);
      var yz := Better(y, z, wantMax);
      if yz.Some? { ExtremeAbsorbs(x, yz.value, rest, all, wantMax); }
    }
  }

  lemma {:induction false} ExtremeOccurs(current: Json, values: seq<Json>, wantMax: bool)
    ensures var e := Extreme(current, values, wantMax); e.Some? ==> e.value == current || e.value in values
    decreases values
  {
    if values != [] {
      var next := Better(current, values[0], wantMax);
      if next.Some? { ExtremeOccurs(next.value, values[1..], wantMax); }
    }
  }

  /** The extreme of two lists is that of their extremes, failures included. */
  predicate Splits(a: seq<Json>, b: seq<Json>, operation: Operation) {
    ExtremeOf(a + b, operation.Max?)
    == CombineResults(operation, ExtremeOf(a, operation.Max?), ExtremeOf(b, operation.Max?))
  }

  lemma ExtremeOfBoth(a: seq<Json>, b: seq<Json>, wantMax: bool)
    requires a != [] && b != []
    ensures
      var e := Extreme(a[0], a[1..], wantMax);
      ExtremeOf(a + b, wantMax) == if e.Some? then Extreme(e.value, [b[0]] + b[1..], wantMax) else None
  {
    assert (a + b)[1..] == a[1..] + b && b == [b[0]] + b[1..];
    ExtremeConcat(a[0], a[1..], b, wantMax);
  }

  /** Going on from `x` over a list is comparing `x` with the extreme of the list. */
  lemma ExtremeGoesOn(x: Json, b: seq<Json>, all: seq<Json>, wantMax: bool)
    requires AssociatesOver(all, wantMax) && b != [] && x in all && Over(b, all)
    ensures
      var e := ExtremeOf(b, wantMax);
      Extreme(x, [b[0]] + b[1..], wantMax) == if e.Some? then Better(x, e.value, wantMax) else None
  {
    assert ([b[0]] + b[1..])[1..] == b[1..];
    assert forall v <- b[1..] :: v in b;
    ExtremeAbsorbs(x, b[0], b[1..], all, wantMax);
  }

  lemma ExtremeIsOver(a: seq<Json>, all: seq<Json>, wantMax: bool)
    requires a != [] && Over(a, all)
    ensures var e := ExtremeOf(a, wantMax); e.Some? ==> e.value in all
  {
    assert forall v <- a[1..] :: v in a;
    ExtremeOccurs(a[0], a[1..], wantMax);
  }

  lemma ExtremeOfConcat(a: seq<Json>, b: seq<Json>, all: seq<Json>, operation: Operation)
    requires IsExtreme(operation) && AssociatesOver(all, operation.Max?) && Null !in all
    requires Over(a, all) && Over(b, all)
    ensures Splits(a, b, operation)
  {
    if a == [] {
      assert a + b == b;
    } else if b == [] {
      assert a + b == a;
    } else {
      var wantMax := operation.Max?;
      ExtremeOfBoth(a, b, wantMax);
      ExtremeIsOver(a, all, wantMax);
      ExtremeIsOver(b, all, wantMax);
      var e := ExtremeOf(a, wantMax);
      if e.Some? { ExtremeGoesOn(e.value, b, all, wantMax); }
    }
  }

  lemma ExtremeOfOneMore(current: Json, v: Json, wantMax: bool)
    ensures Extreme(current, [v], wantMax) == Better(current, v, wantMax)
  {
    assert [v][1..] == [];
  }

  lemma SplitsMeansAssociates(x: Json, y: Json, z: Json, operation: Operation)
    requires IsExtreme(operation) && Splits([x], [y, z], operation) && !x.Null? && !y.Null? && !z.Null?
    ensures Associates(x, y, z, operation.Max?)
  {
    assert [x] + [y, z] == [x, y, z];
    var wantMax := operation.Max?;
    var xy := Better(x, y, wantMax);
    assert [x, y, z][1..] == [y, z] && [y, z][1..] == [z] && [x][1..] == [];
    ExtremeOfOneMore(y, z, wantMax);
    if xy.Some? { ExtremeOfOneMore(xy.value, z, wantMax); }
    assert ExtremeOf([x, y, z], wantMax) == if xy.Some? then Better(xy.value, z, wantMax) else None;
  }

  /** `min` and `max` split over every two lists of given values exactly when they associate on those values. */
  lemma ExtremesSplitExactly(all: seq<Json>, operation: Operation)
    requires IsExtreme(operation) && Null !in all
    ensures (forall a, b :: Over(a, all) && Over(b, all) ==> Splits(a, b, operation))
       <==> AssociatesOver(all, operation.Max?)
  {
    if AssociatesOver(all, operation.Max?) {
      forall a, b | Over(a, all) && Over(b, all)
        ensures Splits(a, b, operation)
      {
        ExtremeOfConcat(a, b, all, operation);
      }
    }
    if forall a, b :: Over(a, all) && Over(b, all) ==> Splits(a, b, operation) {
      forall x, y, z | x in all && y in all && z in all
        ensures Associates(x, y, z, operation.Max?)
      {
        assert Over([x], all) && Over([y, z], all);
        SplitsMeansAssociates(x, y, z, operation);
      }
    }
  }

  // ---------- values that associate ----------

  /** Without arrays "keep the better one" is associative, also where values do not compare. */
  lemma FlatAssociates(x: Json, y: Json, z: Json, wantMax: bool)
    requires !x.Arr? && !y.Arr? && !z.Arr?
    ensures Associates(x, y, z, wantMax)
  {
    if x.Str? && y.Str? && z.Str? { ComparableAssociates(x, y, z, wantMax); }
  }

  /** `m` is no worse than `v`. */
  predicate NoWorse(m: Json, v: Json, wantMax: bool) {
    if wantMax then AtMost(v, m) else AtMost(m, v)
  }

  lemma NoWorseTransitive(x: Json, y: Json, z: Json, wantMax: bool)
    requires NoWorse(x, y, wantMax) && NoWorse(y, z, wantMax)
    ensures NoWorse(x, z, wantMax)
  {
    if wantMax { AtMostTransitive(z, y, x); } else { AtMostTransitive(x, y, z); }
  }

  lemma BetterKeeps(current: Json, candidate: Json, wantMax: bool)
    requires PyCompare(current, candidate).Some?
    ensures Better(current, candidate, wantMax)
         == Some(if NoWorse(current, candidate, wantMax) then current else candidate)
    ensures NoWorse(current, candidate, wantMax) || NoWorse(candidate, current, wantMax)
  {
    ComparisonFitsEquality(current, candidate);
  }

  /** So it is on values that all compare with each other, arrays included. */
  lemma ComparableAssociates(x: Json, y: Json, z: Json, wantMax: bool)
    requires PyCompare(x, y).Some? && PyCompare(y, z).Some? && PyCompare(x, z).Some?
    ensures Associates(x, y, z, wantMax)
  {
    BetterKeeps(x, y, wantMax);
    BetterKeeps(y, z, wantMax);
    BetterKeeps(x, z, wantMax);
    if NoWorse(x, y, wantMax) {
      if NoWorse(y, z, wantMax) { NoWorseTransitive(x, y, z, wantMax); }
    } else if !NoWorse(y, z, wantMax) && NoWorse(x, z, wantMax) {
      NoWorseTransitive(x, z, y, wantMax);
    }
  }

  lemma SumResultConcat(a: seq<Record>, b: seq<Record>, operation: Operation)
    requires operation.Sum?
    ensures AggregateValues(a + b, operation)
         == CombineResults(operation, AggregateValues(a, operation), AggregateValues(b, operation))
  {
    var x, y := Values(a, operation.field), Values(b, operation.field);
    ValuesConcat(a, b, operation.field);
    SumConcat(x, y);
    if x == [] {
      assert x + y == y;
    } else if y == [] {
      assert x + y == x;
    } else {
      assert x + y != [];
    }
  }

  lemma ExtremeResultConcat(a: seq<Record>, b: seq<Record>, operation: Operation)
    requires IsExtreme(operation) && MergesFor(a + b, operation)
    ensures AggregateValues(a + b, operation)
         == CombineResults(operation, AggregateValues(a, operation), AggregateValues(b, operation))
  {
    var x, y := Values(a, operation.field), Values(b, operation.field);
    ValuesConcat(a, b, operation.field);
    ValueMembers(a + b, operation.field, Null);
    ExtremeOfConcat(x, y, x + y, operation);
  }

  /** Aggregating the whole is combining the aggregates of the parts, errors included. */
  lemma AggregateConcat(a: seq<Record>, b: seq<Record>, operation: Operation)
    requires Mergeable(operation) && MergesFor(a + b, operation)
    ensures AggregateValues(a + b, operation)
         == CombineResults(operation, AggregateValues(a, operation), AggregateValues(b, operation))
  {
    match operation
    case CountRows =>
    case Count(field) =>
      ValuesConcat(a, b, field);
    case Sum(_) =>
      SumResultConcat(a, b, operation);
    case Min(field) =>
      ExtremeResultConcat(a, b, operation);
    case Max(field) =>
      ExtremeResultConcat(a, b, operation);
  }

  predicate RecordsSplit(a: seq<Record>, b: seq<Record>, operation: Operation) {
    AggregateValues(a + b, operation)
    == CombineResults(operation, AggregateValues(a, operation), AggregateValues(b, operation))
  }

  lemma ExtremeOfLonger(values: seq<Json>, v: Json, operation: Operation)
    requires IsExtreme(operation) && Null !in values && values != [] && !v.Null?
    ensures ExtremeOf(values + [v], operation.Max?)
         == CombineResults(operation, ExtremeOf(values, operation.Max?), Some(v))
  {
    var wantMax := operation.Max?;
    assert (values + [v])[0] == values[0] && (values + [v])[1..] == values[1..] + [v];
    ExtremeConcat(values[0], values[1..], [v], wantMax);
    ExtremeOccurs(values[0], values[1..], wantMax);
    var e := Extreme(values[0], values[1..], wantMax);
    if e.Some? {
      ExtremeOfOneMore(e.value, v, wantMax);
      assert e.value in values;
    }
  }

  /** One more record at the end is always combined with what was found before. */
  lemma OneMoreSplits(a: seq<Record>, r: Record, operation: Operation)
    requires Mergeable(operation)
    ensures RecordsSplit(a, [r], operation)
  {
    if !IsExtreme(operation) {
      AggregateConcat(a, [r], operation);
    } else {
      var f := operation.field;
      var x := Values(a, f);
      ValuesConcat(a, [r], f);
      ValueMembers(a, f, Null);
      assert [r][1..] == [] && Values([r], f) == NonNull(FieldValue(r, f)) + [];
      if IsNull(FieldValue(r, f)) {
        assert Values([r], f) == [] && x + [] == x;
      } else {
        var v := FieldValue(r, f).value;
        assert Values([r], f) == [v] && [v][1..] == [];
        if x == [] { assert x + [v] == [v]; } else { ExtremeOfLonger(x, v, operation); }
      }
    }
  }

  /** No records combine with any. */
  lemma NoRecordsSplit(a: seq<Record>, operation: Operation)
    requires Mergeable(operation)
    ensures RecordsSplit([], a, operation) && RecordsSplit(a, [], operation)
  {
    assert [] + a == a && a + [] == a;
    if operation.Sum? { SumResultConcat([], a, operation); }
  }

  lemma OneRecordValue(r: Record, field: string, v: Json)
    requires FieldValue(r, field) == Found(v) && !v.Null?
    ensures Values([r], field) == [v]
  {
    assert [r][1..] == [] && [v] + [] == [v];
  }

  lemma TwoRecordValues(r: Record, s: Record, field: string, x: Json, y: Json)
    requires FieldValue(r, field) == Found(x) && FieldValue(s, field) == Found(y) && !x.Null? && !y.Null?
    ensures Values([r, s], field) == [x, y]
  {
    assert [r, s] == [r] + [s] && [x, y] == [x] + [y];
    OneRecordValue(r, field, x);
    OneRecordValue(s, field, y);
    ValuesConcat([r], [s], field);
  }

  lemma SplitRecordsAssociate(r: Record, s: Record, t: Record, x: Json, y: Json, z: Json, operation: Operation)
    requires IsExtreme(operation) && RecordsSplit([r], [s, t], operation) && !x.Null? && !y.Null? && !z.Null?
    requires FieldValue(r, operation.field) == Found(x) && FieldValue(s, operation.field) == Found(y)
    requires FieldValue(t, operation.field) == Found(z)
    ensures Associates(x, y, z, operation.Max?)
  {
    var f := operation.field;
    OneRecordValue(r, f, x);
    TwoRecordValues(s, t, f, y, z);
    ValuesConcat([r], [s, t], f);
    SplitsMeansAssociates(x, y, z, operation);
  }

  ghost predicate SplitEverywhere(records: seq<Record>, operation: Operation) {
    forall a, b :: (forall r <- a + b :: r in records) ==> RecordsSplit(a, b, operation)
  }

  lemma SplitValuesAssociate(records: seq<Record>, operation: Operation, x: Json, y: Json, z: Json)
    requires IsExtreme(operation) && SplitEverywhere(records, operation)
    requires var values := Values(records, operation.field); x in values && y in values && z in values
    ensures Associates(x, y, z, operation.Max?)
  {
    var r := RecordWithValue(records, operation.field, x);
    var s := RecordWithValue(records, operation.field, y);
    var t := RecordWithValue(records, operation.field, z);
    assert RecordsSplit([r], [s, t], operation);
    SplitRecordsAssociate(r, s, t, x, y, z, operation);
  }

  /**
   On records: the whole can be aggregated from every two parts exactly when the operation merges for their values.
   */
  lemma AggregatesSplitExactly(records: seq<Record>, operation: Operation)
    requires Mergeable(operation)
    ensures SplitEverywhere(records, operation) <==> MergesFor(records, operation)
  {
    if MergesFor(records, operation) {
      forall a, b | forall r <- a + b :: r in records
        ensures RecordsSplit(a, b, operation)
      {
        MergesForPart(records, a + b, operation);
        AggregateConcat(a, b, operation);
      }
    }
    if IsExtreme(operation) && SplitEverywhere(records, operation) {
      var values := Values(records, operation.field);
      forall x, y, z | x in values && y in values && z in values
        ensures Associates(x, y, z, operation.Max?)
      {
        SplitValuesAssociate(records, operation, x, y, z);
      }
    }
  }

  /** Values without arrays merge, and so do values that all compare with each other. */
  lemma OrdinaryValuesMerge(records: seq<Record>, operation: Operation)
    requires IsExtreme(operation)
    requires var values := Values(records, operation.field);
             || (forall v <- values :: !v.Arr?)
             || (forall v <- values, w <- values :: PyCompare(v, w).Some?)
    ensures MergesFor(records, operation)
  {
    var values := Values(records, operation.field);
    forall x, y, z | x in values && y in values && z in values
      ensures Associates(x, y, z, operation.Max?)
    {
      if !x.Arr? && !y.Arr? && !z.Arr? {
        FlatAssociates(x, y, z, operation.Max?);
      } else {
        ComparableAssociates(x, y, z, operation.Max?);
      }
    }
  }

  /** The last two arrays do not compare, but the first one is less than both. */
  lemma ArraysDoNotAssociate()
    ensures
      var x, y, z := Arr([Num(0)]), Arr([Num(1), Str("x")]), Arr([Num(1), Num(2)]);
      && Better(x, y, false) == Some(x) && Better(x, z, false) == Some(x) && Better(y, z, false) == None
      && !Associates(x, y, z, false)
  {
    var x, y, z := Arr([Num(0)]), Arr([Num(1), Str("x")]), Arr([Num(1), Num(2)]);
    assert PyCompare(y, x) == PyCompareItems(y.items, x.items) == Some(1);
    assert PyCompare(z, x) == PyCompareItems(z.items, x.items) == Some(1);
    assert z.items[1..] == [Num(2)] && y.items[1..] == [Str("x")];
    assert PyCompare(z, y) == PyCompareItems(z.items, y.items) == PyCompareItems(z.items[1..], y.items[1..]) == None;
  }

  /** With arrays the whole can have a minimum while one of its parts fails. */
  lemma ArraysBreakMinMerge()
    ensures
      var f := "v";
      var a := [map[f := Arr([Num(0)])]];
      var b := [map[f := Arr([Num(1), Str("x")])], map[f := Arr([Num(1), Num(2)])]];
      && AggregateValues(a + b, Min(f)) == Some(Arr([Num(0)]))
      && AggregateValues(b, Min(f)) == None
  {
    var f := "v";
    var x, y, z := Arr([Num(0)]), Arr([Num(1), Str("x")]), Arr([Num(1), Num(2)]);
    var a: seq<Record> := [map[f := x]];
    var b: seq<Record> := [map[f := y], map[f := z]];
    ArraysDoNotAssociate();
    assert Values(b[1..], f) == [z];
    assert Values(b, f) == [y, z];
    assert Values(a, f) == [x];
    ValuesConcat(a, b, f);
    assert Values(a + b, f) == [x, y, z];
    assert [x, y, z][1..] == [y, z] && [y, z][1..] == [z];
    assert Extreme(x, [z], false) == Some(x);
  }

  // ---------- operations that cannot fail ----------

  /** The operation succeeds on every list of the records. */
  ghost predicate NeverFails(records: seq<Record>, operation: Operation) {
    forall a :: (forall r <- a :: r in records) ==> AggregateValues(a, operation).Some?
  }

  predicate AllNumbers(values: seq<Json>) {
    forall v <- values :: v.Num?
  }

  predicate AllCompare(values: seq<Json>) {
    forall x <- values, y <- values :: PyCompare(x, y).Some?
  }

  /** Sums need numbers, `min` and `max` values that compare; the other operations need nothing. */
  predicate CannotFail(records: seq<Record>, operation: Operation) {
    && (operation.Sum? ==> AllNumbers(Values(records, operation.field)))
    && (IsExtreme(operation) ==> AllCompare(Values(records, operation.field)))
  }

  lemma {:induction false} NumbersAdd(values: seq<Json>)
    requires AllNumbers(values)
    ensures SumOf(values).Some?
  {
    if values != [] { NumbersAdd(values[1..]); }
  }

  lemma {:induction false} ComparableExtreme(current: Json, values: seq<Json>, all: seq<Json>, wantMax: bool)
    requires AllCompare(all) && current in all && Over(values, all)
    ensures Extreme(current, values, wantMax).Some?
    decreases values
  {
    if values != [] {
      var next := Better(current, values[0], wantMax).value;
      ComparableExtreme(next, values[1..], all, wantMax);
    }
  }

  lemma CannotFailSucceeds(records: seq<Record>, part: seq<Record>, operation: Operation)
    requires CannotFail(records, operation) && forall r <- part :: r in records
    ensures AggregateValues(part, operation).Some?
  {
    if operation.Sum? || IsExtreme(operation) {
      var values := Values(part, operation.field);
      ValuesOfPart(records, part, operation.field);
      if operation.Sum? {
        NumbersAdd(values);
      } else if values != [] {
        ComparableExtreme(values[0], values[1..], Values(records, operation.field), operation.Max?);
      }
    }
  }

  lemma CannotFailMerges(records: seq<Record>, operation: Operation)
    requires CannotFail(records, operation)
    ensures MergesFor(records, operation)
  {
    if IsExtreme(operation) {
      var values := Values(records, operation.field);
      forall x, y, z | x in values && y in values && z in values
        ensures Associates(x, y, z, operation.Max?)
      {
        ComparableAssociates(x, y, z, operation.Max?);
      }
    }
  }

  lemma NeverFailingAdds(records: seq<Record>, operation: Operation, v: Json)
    requires operation.Sum? && NeverFails(records, operation) && v in Values(records, operation.field)
    ensures v.Num?
  {
    var r := RecordWithValue(records, operation.field, v);
    assert forall q <- [r] :: q in records;
    OneRecordValue(r, operation.field, v);
    assert AggregateValues([r], operation).Some?;
  }

  lemma NeverFailingCompares(records: seq<Record>, operation: Operation, x: Json, y: Json)
    requires IsExtreme(operation) && NeverFails(records, operation)
    requires x in Values(records, operation.field) && y in Values(records, operation.field)
    ensures PyCompare(x, y).Some?
  {
    var r := RecordWithValue(records, operation.field, x);
    var s := RecordWithValue(records, operation.field, y);
    assert forall q <- [r, s] :: q in records;
    TwoRecordValues(r, s, operation.field, x, y);
    assert [x, y][1..] == [y];
    assert AggregateValues([r, s], operation) == ExtremeOf([x, y], operation.Max?);
    ExtremeOfOneMore(x, y, operation.Max?);
    ComparisonFitsEquality(y, x);
  }

  /** An operation succeeds on every list of the records exactly when it finds numbers, or values that all compare. */
  lemma NeverFailsExactly(records: seq<Record>, operation: Operation)
    ensures NeverFails(records, operation) <==> CannotFail(records, operation)
  {
    if CannotFail(records, operation) {
      forall a | forall r <- a :: r in records
        ensures AggregateValues(a, operation).Some?
      {
        CannotFailSucceeds(records, a, operation);
      }
    }
    if NeverFails(records, operation) {
      if operation.Sum? {
        forall v | v in Values(records, operation.field)
          ensures v.Num?
        {
          NeverFailingAdds(records, operation, v);
        }
      }
      if IsExtreme(operation) {
        var values := Values(records, operation.field);
        forall x, y | x in values && y in values
          ensures PyCompare(x, y).Some?
        {
          NeverFailingCompares(records, operation, x, y);
        }
      }
    }
  }

  // ---------- what one aggregation returns ----------

  lemma NoWorseThanSelf(v: Json, wantMax: bool)
    requires PyCompare(v, v).Some?
    ensures NoWorse(v, v, wantMax)
  {
    PyEqualReflexive(v);
    ComparisonFitsEquality(v, v);
  }

  /** A value that compares with any other compares with itself. */
  lemma {:induction false} ComparesWithSelf(a: Json, b: Json)
    requires PyCompare(a, b).Some?
    ensures PyCompare(a, a).Some? && PyCompare(b, b).Some?
  {
    if a.Arr? {
      ItemsCompareWithSelf(a.items);
      ItemsCompareWithSelf(b.items);
    }
  }

  lemma {:induction false} ItemsCompareWithSelf(xs: seq<Json>)
    ensures PyCompareItems(xs, xs).Some?
  {
    if xs != [] {
      PyEqualReflexive(xs[0]);
      ItemsCompareWithSelf(xs[1..]);
    }
  }

  lemma BetterIsBest(current: Json, candidate: Json, wantMax: bool)
    requires Better(current, candidate, wantMax).Some?
    ensures
      var best := Better(current, candidate, wantMax).value;
      NoWorse(best, current, wantMax) && NoWorse(best, candidate, wantMax)
  {
    ComparesWithSelf(candidate, current);
    NoWorseThanSelf(current, wantMax);
    NoWorseThanSelf(candidate, wantMax);
    ComparisonFitsEquality(candidate, current);
  }

  lemma {:induction false} ExtremeIsBest(current: Json, values: seq<Json>, wantMax: bool)
    requires NoWorse(current, current, wantMax) && Extreme(current, values, wantMax).Some?
    ensures
      var m := Extreme(current, values, wantMax).value;
      && (m == current || m in values)
      && NoWorse(m, current, wantMax) && forall v <- values :: NoWorse(m, v, wantMax)
    decreases values
  {
    if values != [] {
      var next := Better(current, values[0], wantMax).value;
      BetterIsBest(current, values[0], wantMax);
      ComparesWithSelf(values[0], current);
      NoWorseThanSelf(next, wantMax);
      ExtremeIsBest(next, values[1..], wantMax);
      var m := Extreme(current, values, wantMax).value;
      NoWorseTransitive(m, next, current, wantMax);
      NoWorseTransitive(m, next, values[0], wantMax);
      assert values == [values[0]] + values[1..];
    }
  }

  /** `min` and `max` return a value that occurs and that no present value beats; nothing present gives null. */
  lemma ExtremeOfIsBest(records: seq<Record>, operation: Operation)
    requires IsExtreme(operation) && AggregateValues(records, operation).Some?
    ensures
      var values, m := Values(records, operation.field), AggregateValues(records, operation).value;
      && (values == [] <==> m == Null)
      && (|values| > 1 ==> m in values && forall v <- values :: NoWorse(m, v, operation.Max?))
      && (|values| == 1 ==> m == values[0])
  {
    var values := Values(records, operation.field);
    ValueMembers(records, operation.field, Null);
    if |values| > 0 { ExtremeOccurs(values[0], values[1..], operation.Max?); }
    if |values| > 1 {
      assert Better(values[0], values[1], operation.Max?).Some?;
      ComparesWithSelf(values[1], values[0]);
      NoWorseThanSelf(values[0], operation.Max?);
      ExtremeIsBest(values[0], values[1..], operation.Max?);
      assert values == [values[0]] + values[1..];
    }
  }

  /** The extreme is the first of the values that are as good, and everything before it is worse. */
  lemma {:induction false} ExtremeAt(current: Json, values: seq<Json>, wantMax: bool) returns (k: nat)
    requires NoWorse(current, current, wantMax) && Extreme(current, values, wantMax).Some?
    ensures
      var all, m := [current] + values, Extreme(current, values, wantMax).value;
      k < |all| && all[k] == m && forall i :: 0 <= i < k ==> !NoWorse(all[i], m, wantMax)
    decreases values
  {
    k := 0;
    if values != [] {
      var candidate, rest := values[0], values[1..];
      var next, m := Better(current, candidate, wantMax).value, Extreme(current, values, wantMax).value;
      ComparisonFitsEquality(candidate, current);
      BetterKeeps(current, candidate, wantMax);
      ComparesWithSelf(candidate, current);
      NoWorseThanSelf(next, wantMax);
      var j := ExtremeAt(next, rest, wantMax);
      ExtremeIsBest(next, rest, wantMax);
      k := if next == current && j == 0 then 0 else j + 1;
      forall i | 0 <= i < k
        ensures !NoWorse(([current] + values)[i], m, wantMax)
      {
        if i >= 2 {
          assert ([current] + values)[i] == ([next] + rest)[i - 1];
        } else if NoWorse(current, candidate, wantMax) {
          assert ([next] + rest)[0] == current;
          if NoWorse(candidate, m, wantMax) { NoWorseTransitive(current, candidate, m, wantMax); }
        } else {
          assert j > 0 ==> ([next] + rest)[0] == candidate;
          if NoWorse(current, m, wantMax) { NoWorseTransitive(current, m, candidate, wantMax); }
        }
      }
    }
  }

  /** Of present values that are equal to the minimum or the maximum, the answer is the one that comes first. */
  lemma ExtremeIsFirst(records: seq<Record>, operation: Operation)
    requires IsExtreme(operation) && AggregateValues(records, operation).Some?
    requires Values(records, operation.field) != []
    ensures
      var values, m := Values(records, operation.field), AggregateValues(records, operation).value;
      exists k :: 0 <= k < |values| && values[k] == m && forall i :: 0 <= i < k ==> !PyEqual(values[i], m)
  {
    var values, m := Values(records, operation.field), AggregateValues(records, operation).value;
    if |values| == 1 {
      assert values[0] == m;
    } else {
      assert Better(values[0], values[1], operation.Max?).Some?;
      ComparesWithSelf(values[1], values[0]);
      NoWorseThanSelf(values[0], operation.Max?);
      assert values == [values[0]] + values[1..];
      ExtremeOfIsBest(records, operation);
      var k := ExtremeAt(values[0], values[1..], operation.Max?);
      forall i | 0 <= i < k
        ensures !PyEqual(values[i], m)
      {
        if PyEqual(values[i], m) { EqualIsNoWorse(values[i], m, operation.Max?); }
      }
    }
  }

  lemma EqualIsNoWorse(x: Json, m: Json, wantMax: bool)
    requires PyEqual(x, m) && NoWorse(m, x, wantMax)
    ensures NoWorse(x, m, wantMax)
  {
    ComparisonFitsEquality(x, m);
  }

  function Distinct(values: seq<Json>): set<Json> {
    if values == [] then {} else {values[0]} + Distinct(values[1..])
  }

  lemma {:induction false} DistinctMembers(values: seq<Json>, v: Json)
    ensures v in Distinct(values) <==> v in values
  {
    if values != [] { DistinctMembers(values[1..], v); }
  }

  lemma OneMoreElement<T>(s: set<T>, x: T)
    ensures |s + {x}| == |s| + if x in s then 0 else 1
  {
    if x in s { assert s + {x} == s; }
  }

  /** `count_distinct` counts values, since different values have different texts. */
  lemma {:induction false} CountDistinctCountsValues(values: seq<Json>)
    ensures |Texts(values)| == |Distinct(values)|
  {
    if values != [] {
      CountDistinctCountsValues(values[1..]);
      TextsUnfold(values);
      NewTextIsNewValue(values[0], values[1..]);
      OneMoreElement(Texts(values[1..]), Encode(values[0]));
      OneMoreElement(Distinct(values[1..]), values[0]);
      assert Distinct(values) == Distinct(values[1..]) + {values[0]};
    }
  }

  lemma TextsUnfold(values: seq<Json>)
    requires values != []
    ensures Texts(values) == Texts(values[1..]) + {Encode(values[0])}
  {
  }

  lemma NewTextIsNewValue(v: Json, values: seq<Json>)
    ensures Encode(v) in Texts(values) <==> v in Distinct(values)
  {
    DistinctMembers(values, v);
    if Encode(v) in Texts(values) {
      var w :| w in values && Encode(w) == Encode(v);
      JsonCanonical.EncodeInjective(w, v);
    }
  }
}
