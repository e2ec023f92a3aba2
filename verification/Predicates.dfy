/**
 Python's `==`, `<` and `in` on JSON values, and the record filter built on them.
 */
module Predicates {
  import opened Json
  import opened Options
  import opened Records

  predicate IsNumber(v: Json) {
    v.Num? || v.Bool?
  }

  /** `bool` is a subclass of `int`. */
  function NumberOf(v: Json): int
    requires IsNumber(v)
  {
    if v.Num? then v.n else BoolRank(v.b)
  }

  predicate PyEqual(a: Json, b: Json)
    decreases a, 1
  {
    if IsNumber(a) && IsNumber(b) then NumberOf(a) == NumberOf(b)
    else if a.Arr? && b.Arr? then PyEqualItems(a.items, b.items)
    else if a.Obj? && b.Obj? then
      && a.fields.Keys == b.fields.Keys
      && forall k | k in a.fields :: PyEqual(a.fields[k], b.fields[k])
    else a == b
  }

  predicate PyEqualItems(xs: seq<Json>, ys: seq<Json>)
    decreases xs, 0
  {
    if xs == [] || ys == [] then xs == ys
    else PyEqual(xs[0], ys[0]) && PyEqualItems(xs[1..], ys[1..])
  }

  /** Sign of the comparison that `<`, `<=`, `>`, `>=` use; `None` when they raise `TypeError`. */
  function PyCompare(a: Json, b: Json): Option<int>
    decreases a, 1
  {
    if IsNumber(a) && IsNumber(b) then Some(CompareInts(NumberOf(a), NumberOf(b)))
    else if a.Str? && b.Str? then Some(CompareStrings(a.s, b.s))
    else if a.Arr? && b.Arr? then PyCompareItems(a.items, b.items)
    else None
  }

  function PyCompareItems(xs: seq<Json>, ys: seq<Json>): Option<int>
    decreases xs, 0
  {
    if xs == [] || ys == [] then Some(CompareInts(|xs|, |ys|))
    else if PyEqual(xs[0], ys[0]) then PyCompareItems(xs[1..], ys[1..])
    else PyCompare(xs[0], ys[0])
  }

  predicate Substring(part: string, whole: string) {
    exists i :: 0 <= i <= |whole| && part <= whole[i..]
  }

  /** `needle in haystack`; a `TypeError` counts as not contained. */
  predicate PyContains(haystack: Json, needle: Json) {
    match haystack
    case Str(s) => needle.Str? && Substring(needle.s, s)
    case Arr(items) => exists i :: 0 <= i < |items| && PyEqual(needle, items[i])
    case Obj(fields) => needle.Str? && needle.s in fields
    case _ => false
  }

  datatype Operator = Eq | Ne | Lt | Lte | Gt | Gte | Contains | NotContains | In | NotIn | IsNullOp | NotNullOp

  /** The request model only accepts a list value with `in` and `not_in`. */
  datatype RecordPredicate = RecordPredicate(field: string, operator: Operator, value: Json)

  predicate ValidPredicate(p: RecordPredicate) {
    p.operator.In? || p.operator.NotIn? ==> p.value.Arr?
  }

  predicate LookupMatches(actual: Lookup, operator: Operator, expected: Json)
    requires operator.In? || operator.NotIn? ==> expected.Arr?
  {
    if operator.IsNullOp? then IsNull(actual)
    else if operator.NotNullOp? then !IsNull(actual)
    else if actual.Missing? then false
    else
      var v := actual.value;
      match operator
      case Eq => PyEqual(v, expected)
      case Ne => !PyEqual(v, expected)
      case In => PyContains(expected, v)
      case NotIn => !PyContains(expected, v)
      case Contains => PyContains(v, expected)
      case NotContains => !PyContains(v, expected)
      case Lt => var c := PyCompare(v, expected); c.Some? && c.value < 0
      case Lte => var c := PyCompare(v, expected); c.Some? && c.value <= 0
      case Gt => var c := PyCompare(v, expected); c.Some? && c.value > 0
      case Gte => var c := PyCompare(v, expected); c.Some? && c.value >= 0
  }

  predicate MatchesPredicate(record: Record, p: RecordPredicate)
    requires ValidPredicate(p)
  {
    LookupMatches(FieldValue(record, p.field), p.operator, p.value)
  }

  predicate Keeps(record: Record, predicates: seq<RecordPredicate>, matchAll: bool)
    requires forall p <- predicates :: ValidPredicate(p)
  {
    if matchAll then forall i :: 0 <= i < |predicates| ==> MatchesPredicate(record, predicates[i])
    else exists i :: 0 <= i < |predicates| && MatchesPredicate(record, predicates[i])
  }

  function FilterRecords(records: seq<Record>, predicates: seq<RecordPredicate>, matchAll: bool): seq<Record>
    requires forall p <- predicates :: ValidPredicate(p)
  {
    if records == [] then []
    else
      (if Keeps(records[0], predicates, matchAll) then [records[0]] else [])
      + FilterRecords(records[1..], predicates, matchAll)
  }

  // ---------- equality and comparison fit together ----------

  lemma {:induction false} PyEqualReflexive(a: Json)
    ensures PyEqual(a, a)
    decreases a, 1
  {
    if a.Arr? {
      PyEqualItemsReflexive(a.items);
    } else if a.Obj? {
      forall k | k in a.fields
        ensures PyEqual(a.fields[k], a.fields[k])
      {
        PyEqualReflexive(a.fields[k]);
      }
    }
  }

  lemma {:induction false} PyEqualItemsReflexive(xs: seq<Json>)
    ensures PyEqualItems(xs, xs)
    decreases xs, 0
  {
    if xs != [] {
      PyEqualReflexive(xs[0]);
      PyEqualItemsReflexive(xs[1..]);
    }
  }

  lemma {:induction false} PyEqualSymmetric(a: Json, b: Json)
    ensures PyEqual(a, b) == PyEqual(b, a)
    decreases a, 1
  {
    if a.Arr? && b.Arr? {
      PyEqualItemsSymmetric(a.items, b.items);
    } else if a.Obj? && b.Obj? && a.fields.Keys == b.fields.Keys {
      forall k | k in a.fields
        ensures PyEqual(a.fields[k], b.fields[k]) == PyEqual(b.fields[k], a.fields[k])
      {
        PyEqualSymmetric(a.fields[k], b.fields[k]);
      }
    }
  }

  lemma {:induction false} PyEqualItemsSymmetric(xs: seq<Json>, ys: seq<Json>)
    ensures PyEqualItems(xs, ys) == PyEqualItems(ys, xs)
    decreases xs, 0
  {
    if xs != [] && ys != [] {
      PyEqualSymmetric(xs[0], ys[0]);
      PyEqualItemsSymmetric(xs[1..], ys[1..]);
    }
  }

  function Opposite(c: Option<int>): Option<int> {
    if c.Some? then Some(-c.value) else None
  }

  /** Where two values compare, they compare as equal exactly when `==` holds, and the other way round in reverse. */
  lemma {:induction false} ComparisonFitsEquality(a: Json, b: Json)
    ensures PyCompare(a, b).Some? ==> (PyCompare(a, b).value == 0 <==> PyEqual(a, b))
    ensures PyCompare(b, a) == Opposite(PyCompare(a, b))
    decreases a, 1
  {
    if a.Str? && b.Str? {
      CompareStringsZero(a.s, b.s);
      CompareStringsAntisymmetric(a.s, b.s);
    } else if a.Arr? && b.Arr? {
      ItemsComparisonFitsEquality(a.items, b.items);
    }
  }

  lemma {:induction false} ItemsComparisonFitsEquality(xs: seq<Json>, ys: seq<Json>)
    ensures PyCompareItems(xs, ys).Some? ==> (PyCompareItems(xs, ys).value == 0 <==> PyEqualItems(xs, ys))
    ensures PyCompareItems(ys, xs) == Opposite(PyCompareItems(xs, ys))
    decreases xs, 0
  {
    if xs != [] && ys != [] {
      PyEqualSymmetric(xs[0], ys[0]);
      ComparisonFitsEquality(xs[0], ys[0]);
      ItemsComparisonFitsEquality(xs[1..], ys[1..]);
    }
  }

  lemma {:induction false} PyEqualTransitive(a: Json, b: Json, c: Json)
    requires PyEqual(a, b) && PyEqual(b, c)
    ensures PyEqual(a, c)
    decreases a, 1
  {
    if a.Arr? && b.Arr? && c.Arr? {
      PyEqualItemsTransitive(a.items, b.items, c.items);
    } else if a.Obj? && b.Obj? && c.Obj? {
      forall k | k in a.fields
        ensures PyEqual(a.fields[k], c.fields[k])
      {
        PyEqualTransitive(a.fields[k], b.fields[k], c.fields[k]);
      }
    }
  }

  lemma {:induction false} PyEqualItemsTransitive(xs: seq<Json>, ys: seq<Json>, zs: seq<Json>)
    requires PyEqualItems(xs, ys) && PyEqualItems(ys, zs)
    ensures PyEqualItems(xs, zs)
    decreases xs, 0
  {
    if xs != [] && ys != [] && zs != [] {
      PyEqualTransitive(xs[0], ys[0], zs[0]);
      PyEqualItemsTransitive(xs[1..], ys[1..], zs[1..]);
    }
  }

  lemma EqualToBoth(a: Json, b: Json, c: Json)
    requires PyEqual(a, b)
    ensures PyEqual(a, c) == PyEqual(b, c)
  {
    PyEqualSymmetric(a, b);
    if PyEqual(a, c) { PyEqualTransitive(b, a, c); }
    if PyEqual(b, c) { PyEqualTransitive(a, b, c); }
  }

  /** Equal values compare alike with every third value. */
  lemma {:induction false} EqualComparesAlike(a: Json, b: Json, c: Json)
    requires PyEqual(a, b)
    ensures PyCompare(a, c) == PyCompare(b, c)
    decreases a, 1
  {
    if a.Arr? && b.Arr? && c.Arr? { EqualItemsCompareAlike(a.items, b.items, c.items); }
  }

  lemma {:induction false} EqualItemsCompareAlike(xs: seq<Json>, ys: seq<Json>, zs: seq<Json>)
    requires PyEqualItems(xs, ys)
    ensures |xs| == |ys| && PyCompareItems(xs, zs) == PyCompareItems(ys, zs)
    decreases xs, 0
  {
    if xs != [] && ys != [] {
      EqualItemsCompareAlike(xs[1..], ys[1..], if zs == [] then [] else zs[1..]);
      if zs != [] {
        EqualToBoth(xs[0], ys[0], zs[0]);
        EqualComparesAlike(xs[0], ys[0], zs[0]);
      }
    }
  }

  predicate AtMost(a: Json, b: Json) {
    PyCompare(a, b).Some? && PyCompare(a, b).value <= 0
  }

  /** `<=` is transitive, and comparable ends follow from comparable neighbours. */
  lemma {:induction false} AtMostTransitive(a: Json, b: Json, c: Json)
    requires AtMost(a, b) && AtMost(b, c)
    ensures AtMost(a, c)
    ensures PyCompare(a, c).value == 0 ==> PyCompare(a, b).value == 0 && PyCompare(b, c).value == 0
    decreases a, 1
  {
    if a.Str? {
      CompareStringsTransitive(a.s, b.s, c.s);
      CompareStringsZero(a.s, c.s);
      CompareStringsZero(a.s, b.s);
      CompareStringsAntisymmetric(a.s, b.s);
      CompareStringsZero(b.s, c.s);
    } else if a.Arr? {
      ItemsAtMostTransitive(a.items, b.items, c.items);
    }
  }

  predicate ItemsAtMost(xs: seq<Json>, ys: seq<Json>) {
    PyCompareItems(xs, ys).Some? && PyCompareItems(xs, ys).value <= 0
  }

  lemma {:induction false} ItemsAtMostTransitive(xs: seq<Json>, ys: seq<Json>, zs: seq<Json>)
    requires ItemsAtMost(xs, ys) && ItemsAtMost(ys, zs)
    ensures ItemsAtMost(xs, zs)
    ensures PyCompareItems(xs, zs).value == 0 ==>
              PyCompareItems(xs, ys).value == 0 && PyCompareItems(ys, zs).value == 0
    decreases xs, 0
  {
    if xs != [] && ys != [] && zs != [] {
      var x, y, z := xs[0], ys[0], zs[0];
      if PyEqual(x, y) {
        EqualToBoth(x, y, z);
        EqualComparesAlike(x, y, z);
        ComparisonFitsEquality(y, z);
        if PyEqual(y, z) { ItemsAtMostTransitive(xs[1..], ys[1..], zs[1..]); }
      } else if PyEqual(y, z) {
        LaterEqual(x, y, z);
        ComparisonFitsEquality(x, y);
      } else {
        AtMostTransitive(x, y, z);
        ComparisonFitsEquality(x, y);
        ComparisonFitsEquality(x, z);
      }
    }
  }

  lemma LaterEqual(x: Json, y: Json, z: Json)
    requires PyEqual(y, z)
    ensures PyEqual(x, y) == PyEqual(x, z) && PyCompare(x, y) == PyCompare(x, z)
  {
    EqualToBoth(y, z, x);
    PyEqualSymmetric(x, y);
    PyEqualSymmetric(x, z);
    EqualComparesAlike(y, z, x);
    ComparisonFitsEquality(y, x);
    ComparisonFitsEquality(z, x);
  }

  /**
   The operators as a caller reads them: a missing field matches `is_null` only; on any other value the negated
   operators are complements, and for comparable values exactly one of `lt`, `eq`, `gt` matches.
   */
  lemma OperatorsPartition(actual: Lookup, expected: Json)
    ensures LookupMatches(actual, IsNullOp, expected) != LookupMatches(actual, NotNullOp, expected)
    ensures actual.Missing? ==>
              forall op: Operator :: (op.In? || op.NotIn? ==> expected.Arr?) ==>
                (LookupMatches(actual, op, expected) <==> op.IsNullOp?)
    ensures actual.Found? ==>
              && LookupMatches(actual, Eq, expected) != LookupMatches(actual, Ne, expected)
              && LookupMatches(actual, Contains, expected) != LookupMatches(actual, NotContains, expected)
              && (expected.Arr? ==> LookupMatches(actual, In, expected) != LookupMatches(actual, NotIn, expected))
    ensures actual.Found? && PyCompare(actual.value, expected).Some? ==>
              var lt, eq, gt := LookupMatches(actual, Lt, expected), LookupMatches(actual, Eq, expected),
                                LookupMatches(actual, Gt, expected);
              && (lt || eq || gt) && !(lt && eq) && !(lt && gt) && !(eq && gt)
              && (LookupMatches(actual, Lte, expected) <==> lt || eq)
              && (LookupMatches(actual, Gte, expected) <==> gt || eq)
  {
    if actual.Found? { ComparisonFitsEquality(actual.value, expected); }
  }

  // ---------- what the filter keeps ----------

  /** A record stays as often as it occurs when it matches, and not at all otherwise. */
  lemma {:induction false} FilterKeepsExactly(records: seq<Record>, predicates: seq<RecordPredicate>, matchAll: bool,
                                              r: Record)
    requires forall p <- predicates :: ValidPredicate(p)
    ensures multiset(FilterRecords(records, predicates, matchAll))[r]
            == if Keeps(r, predicates, matchAll) then multiset(records)[r] else 0
  {
    if records != [] {
      FilterKeepsExactly(records[1..], predicates, matchAll, r);
      assert records == [records[0]] + records[1..];
    }
  }

  /** Requiring all of two lists of predicates is filtering twice. */
  lemma {:induction false} FilterInStages(records: seq<Record>, p: seq<RecordPredicate>, q: seq<RecordPredicate>)
    requires forall x <- p :: ValidPredicate(x)
    requires forall x <- q :: ValidPredicate(x)
    requires forall x <- p + q :: ValidPredicate(x)
    ensures FilterRecords(records, p + q, true) == FilterRecords(FilterRecords(records, p, true), q, true)
  {
    if records != [] {
      FilterInStages(records[1..], p, q);
      KeepsBoth(records[0], p, q);
      var rest := FilterRecords(records[1..], p, true);
      assert ([records[0]] + rest)[1..] == rest;
      assert [] + rest == rest;
    }
  }

  lemma KeepsBoth(record: Record, p: seq<RecordPredicate>, q: seq<RecordPredicate>)
    requires forall x <- p :: ValidPredicate(x)
    requires forall x <- q :: ValidPredicate(x)
    requires forall x <- p + q :: ValidPredicate(x)
    ensures Keeps(record, p + q, true) <==> Keeps(record, p, true) && Keeps(record, q, true)
  {
    if Keeps(record, p + q, true) {
      forall i | 0 <= i < |p|
        ensures MatchesPredicate(record, p[i])
      {
        assert (p + q)[i] == p[i];
      }
      forall i | 0 <= i < |q|
        ensures MatchesPredicate(record, q[i])
      {
        assert (p + q)[|p| + i] == q[i];
      }
    }
  }

  // ---------- the filter as a caller reads it ----------

  lemma {:induction false} FilterHas(records: seq<Record>, predicates: seq<RecordPredicate>, matchAll: bool, r: Record)
    requires forall p <- predicates :: ValidPredicate(p)
    ensures r in FilterRecords(records, predicates, matchAll) <==> r in records && Keeps(r, predicates, matchAll)
  {
    if records != [] {
      FilterHas(records[1..], predicates, matchAll, r);
      assert records == [records[0]] + records[1..];
    }
  }

  /** The record stays when only this is asked of it. */
  predicate Stays(records: seq<Record>, r: Record, field: string, operator: Operator, value: Json)
    requires operator.In? || operator.NotIn? ==> value.Arr?
  {
    r in FilterRecords(records, [RecordPredicate(field, operator, value)], true)
  }

  lemma StaysWhenMatched(records: seq<Record>, r: Record, field: string, operator: Operator, value: Json)
    requires operator.In? || operator.NotIn? ==> value.Arr?
    ensures Stays(records, r, field, operator, value)
       <==> r in records && LookupMatches(FieldValue(r, field), operator, value)
  {
    var p := RecordPredicate(field, operator, value);
    FilterHas(records, [p], true, r);
    assert [p][0] == p;
  }

  /** The six comparisons at once. */
  lemma ComparisonsStay(records: seq<Record>, r: Record, field: string, v: Json, value: Json)
    requires r in records && FieldValue(r, field) == Found(v)
    ensures Stays(records, r, field, Eq, value) <==> PyEqual(v, value)
    ensures Stays(records, r, field, Ne, value) <==> !PyEqual(v, value)
    ensures
      var c := PyCompare(v, value);
      && (Stays(records, r, field, Lt, value) <==> c.Some? && c.value < 0)
      && (Stays(records, r, field, Lte, value) <==> c.Some? && c.value <= 0)
      && (Stays(records, r, field, Gt, value) <==> c.Some? && c.value > 0)
      && (Stays(records, r, field, Gte, value) <==> c.Some? && c.value >= 0)
  {
    StaysWhenMatched(records, r, field, Eq, value);
    StaysWhenMatched(records, r, field, Ne, value);
    StaysWhenMatched(records, r, field, Lt, value);
    StaysWhenMatched(records, r, field, Lte, value);
    StaysWhenMatched(records, r, field, Gt, value);
    StaysWhenMatched(records, r, field, Gte, value);
  }

  lemma ContainmentStays(records: seq<Record>, r: Record, field: string, v: Json, value: Json)
    requires r in records && FieldValue(r, field) == Found(v)
    ensures Stays(records, r, field, Contains, value) <==> PyContains(v, value)
    ensures Stays(records, r, field, NotContains, value) <==> !PyContains(v, value)
    ensures value.Arr? ==>
              && (Stays(records, r, field, In, value) <==> PyContains(value, v))
              && (Stays(records, r, field, NotIn, value) <==> !PyContains(value, v))
  {
    StaysWhenMatched(records, r, field, Contains, value);
    StaysWhenMatched(records, r, field, NotContains, value);
    if value.Arr? {
      StaysWhenMatched(records, r, field, In, value);
      StaysWhenMatched(records, r, field, NotIn, value);
    }
  }

  /** Integers compare by size; `false` and `true` count as 0 and 1. */
  lemma FilterNumbers(records: seq<Record>, r: Record, field: string, actual: Json, value: Json, m: int, n: int)
    requires r in records && FieldValue(r, field) == Found(actual)
    requires actual == Num(m) || (actual == Bool(false) && m == 0) || (actual == Bool(true) && m == 1)
    requires value == Num(n) || (value == Bool(false) && n == 0) || (value == Bool(true) && n == 1)
    ensures Stays(records, r, field, Lt, value) <==> m < n
    ensures Stays(records, r, field, Lte, value) <==> m <= n
    ensures Stays(records, r, field, Gt, value) <==> m > n
    ensures Stays(records, r, field, Gte, value) <==> m >= n
    ensures Stays(records, r, field, Eq, value) <==> m == n
    ensures Stays(records, r, field, Ne, value) <==> m != n
  {
    ComparisonsStay(records, r, field, actual, value);
  }

  /** Strings compare by code points. */
  lemma FilterStrings(records: seq<Record>, r: Record, field: string, s: string, t: string)
    requires r in records && FieldValue(r, field) == Found(Str(s))
    ensures Stays(records, r, field, Lt, Str(t)) <==> ComesBefore(s, t)
    ensures Stays(records, r, field, Lte, Str(t)) <==> ComesBefore(s, t) || s == t
    ensures Stays(records, r, field, Gt, Str(t)) <==> ComesBefore(t, s)
    ensures Stays(records, r, field, Gte, Str(t)) <==> ComesBefore(t, s) || s == t
    ensures Stays(records, r, field, Eq, Str(t)) <==> s == t
    ensures Stays(records, r, field, Ne, Str(t)) <==> s != t
    ensures Stays(records, r, field, Contains, Str(t)) <==> exists a, b :: s == a + t + b
    ensures Stays(records, r, field, NotContains, Str(t)) <==> !exists a, b :: s == a + t + b
  {
    ComparisonsStay(records, r, field, Str(s), Str(t));
    ContainmentStays(records, r, field, Str(s), Str(t));
    StringOrder(s, t);
    StringOrder(t, s);
    SubstringStands(t, s);
  }

  lemma SubstringStands(part: string, whole: string)
    ensures Substring(part, whole) <==> exists a, b :: whole == a + part + b
  {
    if Substring(part, whole) {
      var i :| 0 <= i <= |whole| && part <= whole[i..];
      assert whole == whole[..i] + part + whole[i..][|part|..];
    }
    if a, b :| whole == a + part + b {
      assert whole[|a|..] == part + b;
      assert part <= whole[|a|..];
    }
  }

  /** A value of another type than the one asked for compares neither way, and missing or null ones match no order. */
  lemma FilterIncomparable(records: seq<Record>, r: Record, field: string, actual: Json, value: Json)
    requires r in records && FieldValue(r, field) == Found(actual)
    requires actual.Null? || actual.Obj? || value.Null? || value.Obj? || (actual.Str? != value.Str?)
             || (actual.Arr? != value.Arr?)
    ensures !Stays(records, r, field, Lt, value) && !Stays(records, r, field, Lte, value)
    ensures !Stays(records, r, field, Gt, value) && !Stays(records, r, field, Gte, value)
  {
    ComparisonsStay(records, r, field, actual, value);
  }

  lemma FilterNulls(records: seq<Record>, r: Record, field: string, value: Json)
    requires r in records
    ensures Stays(records, r, field, IsNullOp, value)
       <==> FieldValue(r, field) == Missing || FieldValue(r, field) == Found(Null)
    ensures Stays(records, r, field, NotNullOp, value)
       <==> FieldValue(r, field) != Missing && FieldValue(r, field) != Found(Null)
  {
    StaysWhenMatched(records, r, field, IsNullOp, value);
    StaysWhenMatched(records, r, field, NotNullOp, value);
  }

  /** A missing field matches nothing but `is_null`. */
  lemma FilterMissing(records: seq<Record>, r: Record, field: string, operator: Operator, value: Json)
    requires r in records && FieldValue(r, field) == Missing && (operator.In? || operator.NotIn? ==> value.Arr?)
    ensures Stays(records, r, field, operator, value) <==> operator == IsNullOp
  {
    StaysWhenMatched(records, r, field, operator, value);
  }

  /** The value with numbers for booleans, at every depth. */
  function Counted(v: Json): Json
    decreases v, 1
  {
    match v
    case Bool(b) => Num(if b then 1 else 0)
    case Arr(items) => Arr(CountedItems(items))
    case Obj(fields) => Obj(map k | k in fields :: Counted(fields[k]))
    case Null => v
    case Num(_) => v
    case Str(_) => v
  }

  function CountedItems(items: seq<Json>): seq<Json>
    decreases items, 0
  {
    if items == [] then [] else [Counted(items[0])] + CountedItems(items[1..])
  }

  /** Python's equality is sameness, once booleans are read as numbers. */
  lemma {:induction false} EqualIsSame(a: Json, b: Json)
    ensures PyEqual(a, b) <==> Counted(a) == Counted(b)
    decreases a, 1
  {
    if a.Arr? && b.Arr? {
      EqualItemsAreSame(a.items, b.items);
    } else if a.Obj? && b.Obj? {
      EqualFieldsAreSame(a, b);
    }
  }

  lemma EqualFieldsAreSame(a: Json, b: Json)
    requires a.Obj? && b.Obj?
    ensures PyEqual(a, b) <==> Counted(a) == Counted(b)
    decreases a, 0
  {
    forall k | k in a.fields && k in b.fields
      ensures PyEqual(a.fields[k], b.fields[k]) <==> Counted(a.fields[k]) == Counted(b.fields[k])
    {
      EqualIsSame(a.fields[k], b.fields[k]);
    }
    var x, y := Counted(a).fields, Counted(b).fields;
    assert x.Keys == a.fields.Keys && y.Keys == b.fields.Keys;
    if PyEqual(a, b) { assert x == y; }
    if x == y {
      forall k | k in a.fields
        ensures PyEqual(a.fields[k], b.fields[k])
      {
        assert x[k] == y[k];
      }
    }
  }

  lemma {:induction false} EqualItemsAreSame(xs: seq<Json>, ys: seq<Json>)
    ensures PyEqualItems(xs, ys) <==> CountedItems(xs) == CountedItems(ys)
    decreases xs, 0
  {
    if xs != [] && ys != [] {
      EqualIsSame(xs[0], ys[0]);
      EqualItemsAreSame(xs[1..], ys[1..]);
      assert CountedItems(xs)[1..] == CountedItems(xs[1..]) && CountedItems(ys)[1..] == CountedItems(ys[1..]);
    }
  }

  /** `eq`, `in` and `contains` on values of any type go by that equality. */
  lemma FilterMembers(records: seq<Record>, r: Record, field: string, actual: Json, value: Json)
    requires r in records && FieldValue(r, field) == Found(actual)
    ensures Stays(records, r, field, Eq, value) <==> Counted(actual) == Counted(value)
    ensures Stays(records, r, field, Ne, value) <==> Counted(actual) != Counted(value)
    ensures value.Arr? ==>
              && (Stays(records, r, field, In, value) <==> exists v <- value.items :: Counted(v) == Counted(actual))
              && (Stays(records, r, field, NotIn, value) <==> !exists v <- value.items :: Counted(v) == Counted(actual))
    ensures actual.Arr? ==>
              (Stays(records, r, field, Contains, value)
               <==> exists v <- actual.items :: Counted(v) == Counted(value))
    ensures actual.Obj? ==>
              (Stays(records, r, field, Contains, value) <==> value.Str? && value.s in actual.fields)
    ensures !actual.Arr? && !actual.Obj? && !actual.Str? ==> !Stays(records, r, field, Contains, value)
    ensures Stays(records, r, field, Contains, value) != Stays(records, r, field, NotContains, value)
  {
    ComparisonsStay(records, r, field, actual, value);
    ContainmentStays(records, r, field, actual, value);
    EqualIsSame(actual, value);
    if value.Arr? { ContainedIsSame(value.items, actual); }
    if actual.Arr? { ContainedIsSame(actual.items, value); }
  }

  lemma ContainedIsSame(items: seq<Json>, needle: Json)
    ensures PyContains(Arr(items), needle) <==> exists v <- items :: Counted(v) == Counted(needle)
  {
    forall v | v in items
      ensures PyEqual(needle, v) <==> Counted(v) == Counted(needle)
    {
      EqualIsSame(needle, v);
    }
    if v :| v in items && Counted(v) == Counted(needle) {
      var i :| 0 <= i < |items| && items[i] == v;
      assert PyEqual(needle, items[i]);
    }
  }

  /** With `match` all a record stays when each predicate alone keeps it, with `match` any when one of them does. */
  lemma FilterCombines(records: seq<Record>, predicates: seq<RecordPredicate>, r: Record)
    requires r in records && forall p <- predicates :: ValidPredicate(p)
    ensures r in FilterRecords(records, predicates, true)
       <==> forall p <- predicates :: Stays(records, r, p.field, p.operator, p.value)
    ensures r in FilterRecords(records, predicates, false)
       <==> exists p <- predicates :: Stays(records, r, p.field, p.operator, p.value)
  {
    FilterHas(records, predicates, true, r);
    FilterHas(records, predicates, false, r);
    forall p | p in predicates
      ensures Stays(records, r, p.field, p.operator, p.value) <==> MatchesPredicate(r, p)
    {
      StaysWhenMatched(records, r, p.field, p.operator, p.value);
    }
    assert forall i :: 0 <= i < |predicates| ==> predicates[i] in predicates;
  }

  /** The records that stay keep their order. */
  lemma {:induction false} FilterKeepsOrder(a: seq<Record>, b: seq<Record>, predicates: seq<RecordPredicate>,
                                            matchAll: bool)
    requires forall p <- predicates :: ValidPredicate(p)
    ensures FilterRecords(a + b, predicates, matchAll)
         == FilterRecords(a, predicates, matchAll) + FilterRecords(b, predicates, matchAll)
  {
    if a == [] {
      assert a + b == b;
    } else {
      FilterKeepsOrder(a[1..], b, predicates, matchAll);
      assert (a + b)[1..] == a[1..] + b && (a + b)[0] == a[0];
      var head := if Keeps(a[0], predicates, matchAll) then [a[0]] else [];
      var x, y := FilterRecords(a[1..], predicates, matchAll), FilterRecords(b, predicates, matchAll);
      assert head + (x + y) == (head + x) + y;
    }
  }

  // ---------- arrays ----------

  /** Arrays compare at the first place where they differ, and by length when there is none. */
  lemma {:induction false} ArraysCompare(xs: seq<Json>, ys: seq<Json>, k: nat)
    requires k <= |xs| && k <= |ys|
    requires forall j :: 0 <= j < k ==> PyEqual(xs[j], ys[j])
    requires k < |xs| && k < |ys| ==> !PyEqual(xs[k], ys[k])
    ensures PyCompare(Arr(xs), Arr(ys))
         == if k < |xs| && k < |ys| then PyCompare(xs[k], ys[k])
            else Some(if |xs| < |ys| then -1 else if |xs| > |ys| then 1 else 0)
  {
    if k > 0 {
      assert PyEqual(xs[0], ys[0]);
      ArraysCompare(xs[1..], ys[1..], k - 1);
    }
  }
}
