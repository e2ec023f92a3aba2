/**
 Top-k after the `select_fields` step of a plan: what the projection can change in a ranking, and exactly when it does.
 */
module RankingPushdown {
  import opened Json
  import opened Options
  import opened Sorting
  import opened Records
  import opened TopK
  import opened Projection
  import opened StructuredPlan

  // ---------- the sort columns of a ranking ----------

  /** The record that holds just the sort columns. */
  function SortColumns(record: Record, orderBy: seq<RecordSort>): Record {
    map s | s in orderBy :: s.field := SortKey(FieldValue(record, s.field))
  }

  function AllSortColumns(records: seq<Record>, orderBy: seq<RecordSort>): seq<Record> {
    MapAll(record => SortColumns(record, orderBy), records)
  }

  lemma SortColumnsLookup(record: Record, orderBy: seq<RecordSort>, s: RecordSort)
    requires s in orderBy
    ensures FieldValue(SortColumns(record, orderBy), s.field) == Found(SortKey(FieldValue(record, s.field)))
  {
  }

  lemma SameColumn(a: Record, b: Record, all: seq<RecordSort>, s: RecordSort)
    requires s in all
    ensures CompareValues(FieldValue(SortColumns(a, all), s.field), FieldValue(SortColumns(b, all), s.field), s)
         == CompareValues(FieldValue(a, s.field), FieldValue(b, s.field), s)
  {
    var x, y := FieldValue(a, s.field), FieldValue(b, s.field);
    SortColumnsLookup(a, all, s);
    SortColumnsLookup(b, all, s);
    ValuesByKey(Found(SortKey(x)), Found(SortKey(y)), x, y, s);
  }

  lemma {:induction false} SameColumnOrder(a: Record, b: Record, all: seq<RecordSort>, orderBy: seq<RecordSort>)
    requires forall s <- orderBy :: s in all
    ensures CompareColumns(SortColumns(a, all), SortColumns(b, all), orderBy) == CompareColumns(a, b, orderBy)
  {
    if orderBy != [] {
      SameColumn(a, b, all, orderBy[0]);
      SameColumnOrder(a, b, all, orderBy[1..]);
    }
  }

  lemma {:induction false} EqualColumns(a: Record, b: Record, orderBy: seq<RecordSort>, s: RecordSort)
    requires CompareColumns(a, b, orderBy) == 0 && s in orderBy
    ensures SortKey(FieldValue(a, s.field)) == SortKey(FieldValue(b, s.field))
  {
    ValuesZero(FieldValue(a, orderBy[0].field), FieldValue(b, orderBy[0].field), orderBy[0]);
    if s != orderBy[0] { EqualColumns(a, b, orderBy[1..], s); }
  }

  /** Records in order have their sort columns in order. */
  lemma ColumnsKeepOrder(a: Record, b: Record, orderBy: seq<RecordSort>)
    requires CompareRecords(a, b, orderBy) <= 0
    ensures CompareRecords(SortColumns(a, orderBy), SortColumns(b, orderBy), orderBy) <= 0
  {
    var x, y := SortColumns(a, orderBy), SortColumns(b, orderBy);
    SameColumnOrder(a, b, orderBy, orderBy);
    if CompareColumns(a, b, orderBy) == 0 {
      assert x == y by {
        forall s | s in orderBy
          ensures SortKey(FieldValue(a, s.field)) == SortKey(FieldValue(b, s.field))
        {
          EqualColumns(a, b, orderBy, s);
        }
      }
      CompareRecordsZero(x, y, orderBy);
    }
  }

  /** The sort columns of the top-k are the top-k of the sort columns. */
  lemma TopKOfColumns(records: seq<Record>, orderBy: seq<RecordSort>, limit: nat)
    ensures AllSortColumns(TopKRecords(records, orderBy, limit), orderBy)
         == TopKRecords(AllSortColumns(records, orderBy), orderBy, limit)
  {
    var columns := (record: Record) => SortColumns(record, orderBy);
    RecordOrderTotal(orderBy);
    forall x, y | x in records && y in records && RecordOrder(orderBy)(x, y)
      ensures RecordOrder(orderBy)(columns(x), columns(y))
    {
      ColumnsKeepOrder(x, y, orderBy);
    }
    LeastOfMapped(columns, records, limit, RecordOrder(orderBy));
  }

  /** The record-ranking steps of a plan without aggregation. */
  function RankedRecords(plan: Plan, records: seq<Record>): Option<seq<Record>>
    requires plan.limit.Some?
  {
    var derived :- DeriveFields(MaybeSelect(plan, records), plan.derivations);
    Some(TopKRecords(derived, plan.orderBy, plan.limit.value))
  }

  predicate RankingPlan(plan: Plan) {
    ProjectingPlan(plan) && plan.aggregations == []
  }

  /** With and without the projection the ranking fails alike, or ranks the same sort columns. */
  predicate RanksAlike(plan: Plan, records: seq<Record>)
    requires plan.limit.Some?
  {
    var x, y := RankedRecords(plan, records), RankedRecords(WithoutSelect(plan), records);
    && x.Some? == y.Some?
    && (x.Some? ==> AllSortColumns(x.value, plan.orderBy) == AllSortColumns(y.value, plan.orderBy))
  }

  /** The fields that the derivations and the sort read are not shadowed by derived fields. */
  predicate SortsClear(plan: Plan) {
    && ReadsClear({}, plan.derivations)
    && forall s <- plan.orderBy ::
         s.field in DerivedOutputs(plan.derivations) || NotShadowed(DerivedOutputs(plan.derivations), s.field)
  }

  /** Although the projection drops columns that break ties, the ranked sort columns stay the same. */
  lemma PushdownKeepsRanking(plan: Plan, records: seq<Record>)
    requires RankingPlan(plan) && SortsClear(plan)
    ensures RanksAlike(plan, records)
  {
    var fields := set s | s in plan.orderBy :: s.field;
    forall f | f in fields
      ensures f in DerivedOutputs(plan.derivations)
           || (f in plan.selectFields && NotShadowed(DerivedOutputs(plan.derivations), f))
    {
      var s :| s in plan.orderBy && s.field == f;
    }
    AllDerivedAlike(records, plan, fields);
    var a := DeriveFields(SelectFields(records, plan.selectFields), plan.derivations);
    var b := DeriveFields(records, plan.derivations);
    if a.Some? {
      SameColumns(a.value, b.value, plan.orderBy, fields);
      TopKOfColumns(a.value, plan.orderBy, plan.limit.value);
      TopKOfColumns(b.value, plan.orderBy, plan.limit.value);
    }
  }

  lemma SameColumns(a: seq<Record>, b: seq<Record>, orderBy: seq<RecordSort>, fields: set<string>)
    requires SameLookups(a, b, fields) && forall s <- orderBy :: s.field in fields
    ensures AllSortColumns(a, orderBy) == AllSortColumns(b, orderBy)
  {
    forall i | 0 <= i < |a|
      ensures SortColumns(a[i], orderBy) == SortColumns(b[i], orderBy)
    {
      assert forall s <- orderBy :: FieldValue(a[i], s.field) == FieldValue(b[i], s.field);
    }
  }

  // ---------- a shadowed read is visible in the sort columns ----------

  lemma ShadowedSort(plan: Plan) returns (f: string)
    requires RankingPlan(plan) && !SortsClear(plan)
    ensures '.' in f && Split(f)[0] in DerivedOutputs(plan.derivations) && f in plan.selectFields
    ensures ReadsShadowed({}, plan.derivations, f) || exists s :: s in plan.orderBy && s.field == f
  {
    SelectedNotDerived(plan);
    if !ReadsClear({}, plan.derivations) {
      f := FindShadowedRead({}, plan.derivations);
      ShadowedReadIsDerivable({}, plan.derivations, f);
      assert f in RequiredFields(plan);
    } else {
      var s :| s in plan.orderBy && s.field !in DerivedOutputs(plan.derivations)
               && !NotShadowed(DerivedOutputs(plan.derivations), s.field);
      f := s.field;
      assert AggregateOutputs(plan.aggregations) == {};
    }
  }

  lemma TopOfOne(record: Record, orderBy: seq<RecordSort>, limit: nat)
    requires 1 <= limit
    ensures TopKRecords([record], orderBy, limit) == [record]
  {
    assert [record][1..] == [];
    assert Sort([record], RecordOrder(orderBy)) == [record];
    assert [record][..1] == [record];
  }

  lemma ColumnsDiffer(x: Record, y: Record, orderBy: seq<RecordSort>, s: RecordSort)
    requires s in orderBy && FieldValue(x, s.field) == Found(Num(1)) && FieldValue(y, s.field).Missing?
    ensures AllSortColumns([x], orderBy) != AllSortColumns([y], orderBy)
  {
    assert SortColumns(x, orderBy)[s.field] == Num(1) && SortColumns(y, orderBy)[s.field] == Null;
    assert AllSortColumns([x], orderBy)[0] == SortColumns(x, orderBy);
    assert AllSortColumns([y], orderBy)[0] == SortColumns(y, orderBy);
  }

  lemma ShadowedSortShows(plan: Plan, f: string)
    requires RankingPlan(plan) && '.' in f && Split(f)[0] in DerivedOutputs(plan.derivations) && f in plan.selectFields
    requires ReadsShadowed({}, plan.derivations, f) || exists s :: s in plan.orderBy && s.field == f
    ensures !RanksAlike(plan, [Witness(plan.selectFields, f)])
  {
    var w := Witness(plan.selectFields, f);
    SelectedNotDerived(plan);
    BareWitness(plan, f);
    var x := ProjectedWitness(plan, f);
    var bare := DeriveFields([w], plan.derivations);
    if bare.Some? {
      var y := bare.value[0];
      assert bare.value == [y];
      TopOfOne(x, plan.orderBy, plan.limit.value);
      TopOfOne(y, plan.orderBy, plan.limit.value);
      var s :| s in plan.orderBy && s.field == f;
      ColumnsDiffer(x, y, plan.orderBy, s);
    }
  }

  /** The ranked sort columns survive the projection for all inputs exactly when no read is shadowed. */
  lemma RankingPushdownExactly(plan: Plan)
    requires RankingPlan(plan)
    ensures (forall records :: RanksAlike(plan, records)) <==> SortsClear(plan)
  {
    if SortsClear(plan) {
      forall records
        ensures RanksAlike(plan, records)
      {
        PushdownKeepsRanking(plan, records);
      }
    } else {
      var f := ShadowedSort(plan);
      ShadowedSortShows(plan, f);
    }
  }

  // ---------- which of two tied records is ranked ----------

  predicate SortsSelected(orderBy: seq<RecordSort>, fields: seq<string>) {
    forall s <- orderBy :: s.field in fields
  }

  /** Records that tie on the sort columns come in the same order once they are projected. */
  predicate TiesKept(records: seq<Record>, fields: seq<string>, orderBy: seq<RecordSort>) {
    forall r <- records, s <- records ::
      CompareColumns(r, s, orderBy) == 0 && CompareRecords(r, s, orderBy) <= 0
      ==> CompareRecords(Project(r, fields), Project(s, fields), orderBy) <= 0
  }

  lemma {:induction false} ProjectKeepsColumns(a: Record, b: Record, fields: seq<string>, orderBy: seq<RecordSort>)
    requires SortsSelected(orderBy, fields)
    ensures CompareColumns(Project(a, fields), Project(b, fields), orderBy) == CompareColumns(a, b, orderBy)
  {
    if orderBy != [] {
      ProjectKeepsLookup(a, fields, orderBy[0].field);
      ProjectKeepsLookup(b, fields, orderBy[0].field);
      ProjectKeepsColumns(a, b, fields, orderBy[1..]);
    }
  }

  function Projector(fields: seq<string>): Record -> Record {
    record => Project(record, fields)
  }

  lemma TiesKeptIsOrder(records: seq<Record>, fields: seq<string>, orderBy: seq<RecordSort>)
    requires SortsSelected(orderBy, fields)
    ensures TiesKept(records, fields, orderBy)
       <==> KeepsOrder(Projector(fields), records, RecordOrder(orderBy))
  {
    var project, le := Projector(fields), RecordOrder(orderBy);
    forall r, s
      ensures CompareColumns(project(r), project(s), orderBy) == CompareColumns(r, s, orderBy)
    {
      ProjectKeepsColumns(r, s, fields, orderBy);
    }
    if TiesKept(records, fields, orderBy) {
      forall r, s | r in records && s in records && le(r, s)
        ensures le(project(r), project(s))
      {
        assert CompareColumns(project(r), project(s), orderBy) == CompareColumns(r, s, orderBy);
      }
    }
    if KeepsOrder(project, records, le) {
      forall r, s | r in records && s in records && CompareRecords(r, s, orderBy) <= 0
        ensures CompareRecords(Project(r, fields), Project(s, fields), orderBy) <= 0
      {
        assert le(r, s) && le(project(r), project(s));
      }
    }
  }

  /** Projecting before the ranking is projecting after it. */
  predicate SelectsAlike(records: seq<Record>, fields: seq<string>, orderBy: seq<RecordSort>, limit: nat) {
    TopKRecords(SelectFields(records, fields), orderBy, limit)
    == SelectFields(TopKRecords(records, orderBy, limit), fields)
  }

  lemma SelectsAlikeMeans(records: seq<Record>, fields: seq<string>, orderBy: seq<RecordSort>, limit: nat)
    ensures SelectsAlike(records, fields, orderBy, limit)
       <==> Least(MapAll(Projector(fields), records), limit, RecordOrder(orderBy))
            == MapAll(Projector(fields), Least(records, limit, RecordOrder(orderBy)))
  {
    assert SelectFields(records, fields) == MapAll(Projector(fields), records);
    var top := TopKRecords(records, orderBy, limit);
    assert SelectFields(top, fields) == MapAll(Projector(fields), top);
  }

  /**
   When the sort fields are selected: the top-k of the projected records are the projected top-k records, for every
   limit, exactly when tied records keep their order.
   */
  lemma TopKOfProjectionExactly(records: seq<Record>, fields: seq<string>, orderBy: seq<RecordSort>)
    requires SortsSelected(orderBy, fields)
    ensures (forall limit: nat :: SelectsAlike(records, fields, orderBy, limit)) <==> TiesKept(records, fields, orderBy)
  {
    RecordOrderTotal(orderBy);
    TiesKeptIsOrder(records, fields, orderBy);
    LeastOfMappedExactly(Projector(fields), records, RecordOrder(orderBy));
    forall limit: nat
      ensures SelectsAlike(records, fields, orderBy, limit)
         <==> Least(MapAll(Projector(fields), records), limit, RecordOrder(orderBy))
              == MapAll(Projector(fields), Least(records, limit, RecordOrder(orderBy)))
    {
      SelectsAlikeMeans(records, fields, orderBy, limit);
    }
  }

  // ---------- the same for plans with derivations ----------

  /** Neither a derivation nor a derived field hides a selected field. */
  predicate AllReadable(plan: Plan) {
    && ReadsClear({}, plan.derivations)
    && forall f <- plan.selectFields :: NotShadowed(DerivedOutputs(plan.derivations), f)
  }

  /** The fields of a ranked record: the selected and the derived ones. */
  function Visible(plan: Plan): seq<string> {
    plan.selectFields + seq(|plan.derivations|, i requires 0 <= i < |plan.derivations| => plan.derivations[i].output)
  }

  lemma VisibleFields(plan: Plan)
    ensures forall f :: f in Visible(plan) <==> f in plan.selectFields || f in DerivedOutputs(plan.derivations)
  {
    var ds := plan.derivations;
    forall f | f in DerivedOutputs(ds)
      ensures f in Visible(plan)
    {
      var i :| 0 <= i < |ds| && ds[i].output == f;
      assert Visible(plan)[|plan.selectFields| + i] == f;
    }
  }

  lemma ProjectionWithPart(record: Record, part: Record, fields: seq<string>, visible: seq<string>)
    requires forall f <- fields :: f !in part && NotShadowed(part.Keys, f)
    requires forall f :: f in visible <==> f in fields || f in part
    ensures Project(record, fields) + part == Project(record + part, visible)
  {
    forall f | f in fields
      ensures FieldValue(record + part, f) == FieldValue(record, f)
    {
      LookupInOriginal(record, part, f);
    }
    assert forall f <- part :: FieldValue(record + part, f) == Found(part[f]);
  }

  /** Deriving after the projection is projecting after the derivation. */
  lemma DerivedIsProjected(plan: Plan, record: Record)
    requires ProjectingPlan(plan) && AllReadable(plan)
    ensures
      var x, y := Derive(Project(record, plan.selectFields), plan.derivations), Derive(record, plan.derivations);
      && x.Some? == y.Some?
      && (x.Some? ==> x.value == Project(y.value, Visible(plan)))
  {
    var fields, ds := plan.selectFields, plan.derivations;
    var projected := Project(record, fields);
    var none: Record := map[];
    SelectedNotDerived(plan);
    assert none.Keys == {};
    ProjectedPart(record, fields, none, ds);
    assert projected + none == projected && record + none == record;
    DeriveIsBasePlusPart(projected, none, ds);
    DeriveIsBasePlusPart(record, none, ds);
    var part := DerivedPart(record, none, ds);
    if part.Some? {
      PartKeys(record, none, ds);
      assert part.value.Keys == DerivedOutputs(ds);
      VisibleFields(plan);
      ProjectionWithPart(record, part.value, fields, Visible(plan));
    }
  }

  lemma {:induction false} AllDerivedAreProjected(plan: Plan, records: seq<Record>)
    requires ProjectingPlan(plan) && AllReadable(plan)
    ensures
      var x := DeriveFields(SelectFields(records, plan.selectFields), plan.derivations);
      var y := DeriveFields(records, plan.derivations);
      && x.Some? == y.Some?
      && (x.Some? ==> x.value == SelectFields(y.value, Visible(plan)))
  {
    if records != [] {
      DerivedIsProjected(plan, records[0]);
      AllDerivedAreProjected(plan, records[1..]);
      assert SelectFields(records, plan.selectFields)[1..] == SelectFields(records[1..], plan.selectFields);
      var d, rest := Derive(records[0], plan.derivations), DeriveFields(records[1..], plan.derivations);
      if d.Some? && rest.Some? { SelectFirst(d.value, rest.value, Visible(plan)); }
    }
  }

  /** The ranked records of the plan are those of the plan without its projection, cut down to the visible fields. */
  predicate RanksTheSame(plan: Plan, records: seq<Record>)
    requires plan.limit.Some?
  {
    var x, y := RankedRecords(plan, records), RankedRecords(WithoutSelect(plan), records);
    && x.Some? == y.Some?
    && (x.Some? ==> x.value == SelectFields(y.value, Visible(plan)))
  }

  lemma RanksTheSameMeans(plan: Plan, records: seq<Record>, limit: nat)
    requires RankingPlan(plan) && AllReadable(plan)
    ensures
      var derived := DeriveFields(records, plan.derivations);
      RanksTheSame(plan.(limit := Some(limit)), records)
      <==> (derived.Some? ==> SelectsAlike(derived.value, Visible(plan), plan.orderBy, limit))
  {
    AllDerivedAreProjected(plan, records);
  }

  lemma SortsAreVisible(plan: Plan)
    requires RankingPlan(plan)
    ensures SortsSelected(plan.orderBy, Visible(plan))
  {
    VisibleFields(plan);
    assert AggregateOutputs(plan.aggregations) == {};
  }

  /**
   A plan ranks the same records with and without its projection, for every limit, exactly when a derivation fails or
   ties are kept.
   */
  lemma PlanRanksTheSameExactly(plan: Plan, records: seq<Record>)
    requires RankingPlan(plan) && AllReadable(plan)
    ensures
      var derived := DeriveFields(records, plan.derivations);
      (forall limit: nat :: RanksTheSame(plan.(limit := Some(limit)), records))
      <==> (derived.Some? ==> TiesKept(derived.value, Visible(plan), plan.orderBy))
  {
    var derived := DeriveFields(records, plan.derivations);
    SortsAreVisible(plan);
    if derived.Some? { TopKOfProjectionExactly(derived.value, Visible(plan), plan.orderBy); }
    forall limit: nat
      ensures RanksTheSame(plan.(limit := Some(limit)), records)
         <==> (derived.Some? ==> SelectsAlike(derived.value, Visible(plan), plan.orderBy, limit))
    {
      RanksTheSameMeans(plan, records, limit);
    }
  }

  // ---------- the witness ----------

  lemma {:induction false} CommonPrefix(prefix: string, a: string, b: string)
    ensures CompareStrings(prefix + a, prefix + b) == CompareStrings(a, b)
  {
    if prefix == [] {
      assert prefix + a == a && prefix + b == b;
    } else {
      assert (prefix + a)[1..] == prefix[1..] + a && (prefix + b)[1..] == prefix[1..] + b;
      CommonPrefix(prefix[1..], a, b);
    }
  }

  /** The text of an object starts with its least key. */
  lemma ObjectText(record: Record, k: string) returns (rest: string)
    requires IsLeastKey(k, record.Keys)
    ensures Encode(Obj(record)) == "{" + (Quote(k) + ":" + (Encode(record[k]) + rest))
  {
    LeastKeyUnique(record.Keys);
    var v, ks := Obj(record), SortedKeys(record.Keys);
    assert ks[0] == k;
    rest := EncodeMemberTail(v, ks[1..]) + "}";
  }

  const TIED_FIRST: Record := map["x" := Num(1), "b" := Num(2), "a" := Num(1)]
  const TIED_SECOND: Record := map["x" := Num(1), "b" := Num(1)]
  const SHORTENED: Record := map["x" := Num(1), "b" := Num(2)]
  const BY_X := [RecordSort("x", true, false)]

  lemma TiedColumns(a: Record, b: Record)
    requires "x" in a && "x" in b && a["x"] == b["x"]
    ensures CompareColumns(a, b, BY_X) == 0
  {
    ValuesZero(FieldValue(a, "x"), FieldValue(b, "x"), BY_X[0]);
    assert CompareColumns(a, b, BY_X[1..]) == 0;
  }

  lemma OrderedByKey(a: string, b: string)
    ensures CompareStrings("{" + (Quote("a") + ":" + a), "{" + (Quote("b") + ":" + b)) < 0
  {
    assert Quote("a") == "\"a\"" && Quote("b") == "\"b\"";
    assert "{" + ("\"a\"" + ":" + a) == "{\"" + ("a\":" + a);
    assert "{" + ("\"b\"" + ":" + b) == "{\"" + ("b\":" + b);
    CommonPrefix("{\"", "a\":" + a, "b\":" + b);
  }

  lemma LeastKeys()
    ensures IsLeastKey("a", TIED_FIRST.Keys) && IsLeastKey("b", TIED_SECOND.Keys) && IsLeastKey("b", SHORTENED.Keys)
  {
    assert TIED_FIRST.Keys == {"a", "b", "x"};
    assert TIED_SECOND.Keys == {"b", "x"} == SHORTENED.Keys;
  }

  lemma ByFirstKey()
    ensures CompareRecords(TIED_FIRST, TIED_SECOND, BY_X) < 0
  {
    TiedColumns(TIED_FIRST, TIED_SECOND);
    LeastKeys();
    var p := ObjectText(TIED_FIRST, "a");
    var q := ObjectText(TIED_SECOND, "b");
    OrderedByKey(Encode(TIED_FIRST["a"]) + p, Encode(TIED_SECOND["b"]) + q);
  }

  lemma OrderedByValue(a: string, b: string)
    ensures CompareStrings("{" + (Quote("b") + ":" + (Encode(Num(1)) + a)),
                           "{" + (Quote("b") + ":" + (Encode(Num(2)) + b))) < 0
  {
    var key := Quote("b") + ":";
    assert Encode(Num(1)) == "1" && Encode(Num(2)) == "2";
    CommonPrefix("{", key + ("1" + a), key + ("2" + b));
    CommonPrefix(key, "1" + a, "2" + b);
  }

  lemma ByFirstValue()
    ensures CompareRecords(TIED_SECOND, SHORTENED, BY_X) < 0
  {
    TiedColumns(TIED_SECOND, SHORTENED);
    LeastKeys();
    var p := ObjectText(TIED_SECOND, "b");
    var q := ObjectText(SHORTENED, "b");
    OrderedByValue(p, q);
  }

  lemma FirstOfTwo(a: Record, b: Record)
    ensures TopKRecords([a, b], BY_X, 1) == [if CompareRecords(a, b, BY_X) <= 0 then a else b]
  {
    var le := RecordOrder(BY_X);
    assert [a, b][1..] == [b] && [b][1..] == [];
    assert Sort([b], le) == [b];
    assert Sort([a, b], le) == Insert(a, [b], le);
  }

  /** A tie that the dropped field `a` decides: after the projection the other record is ranked first. */
  lemma ProjectionMovesTie()
    ensures TopKRecords([TIED_FIRST, TIED_SECOND], BY_X, 1) == [TIED_FIRST]
    ensures SelectFields([TIED_FIRST, TIED_SECOND], ["x", "b"]) == [SHORTENED, TIED_SECOND]
    ensures TopKRecords([SHORTENED, TIED_SECOND], BY_X, 1) == [TIED_SECOND]
    ensures !SelectsAlike([TIED_FIRST, TIED_SECOND], ["x", "b"], BY_X, 1)
  {
    ByFirstKey();
    ByFirstValue();
    CompareRecordsAntisymmetric(SHORTENED, TIED_SECOND, BY_X);
    FirstOfTwo(TIED_FIRST, TIED_SECOND);
    FirstOfTwo(SHORTENED, TIED_SECOND);
    assert Project(TIED_FIRST, ["x", "b"]) == SHORTENED && Project(TIED_SECOND, ["x", "b"]) == TIED_SECOND;
    assert SelectFields([TIED_FIRST], ["x", "b"]) == [SHORTENED];
    assert TIED_SECOND["b"] != SHORTENED["b"];
  }
}
