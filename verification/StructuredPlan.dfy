/**
 The structured plan of the distributed workflow: its validator, the per-worker operator chain, and
 exactly when the `select_fields` step of a valid plan leaves the later steps unaffected.
 */
module StructuredPlan {
  import opened Json
  import opened Options
  import opened Sequences
  import opened Records
  import opened Predicates
  import opened Aggregation
  import opened Grouping
  import opened ShardMerge
  import opened Projection

  datatype Plan = Plan(
    predicates: seq<RecordPredicate>,
    matchAll: bool,
    selectFields: seq<string>,
    aggregations: seq<RecordAggregation>,
    groupBy: seq<string>,
    derivations: seq<RecordDerivation>,
    orderBy: seq<RecordSort>,
    limit: Option<nat>)

  // ---------- validate_projection ----------

  function Elements<T>(s: seq<T>): set<T> {
    set x | x in s
  }

  function AggregatedFields(aggregations: seq<RecordAggregation>): set<string> {
    set a | a in aggregations && !a.operation.CountRows? :: a.operation.field
  }

  function DerivedOutputs(derivations: seq<RecordDerivation>): set<string> {
    set d | d in derivations :: d.output
  }

  function DerivationInputs(derivations: seq<RecordDerivation>): set<string> {
    (set d | d in derivations :: d.left) + (set d | d in derivations :: d.right)
  }

  function RequiredFields(plan: Plan): set<string> {
    Elements(plan.groupBy) + AggregatedFields(plan.aggregations) + DerivationInputs(plan.derivations)
  }

  function AggregateOutputs(aggregations: seq<RecordAggregation>): set<string> {
    set a | a in aggregations :: a.output
  }

  predicate ValidateProjection(plan: Plan) {
    && NoDuplicates(plan.selectFields)
    && NoDuplicates(plan.groupBy)
    && Elements(plan.selectFields) * DerivedOutputs(plan.derivations) == {}
    && (plan.selectFields != [] ==> RequiredFields(plan) <= Elements(plan.selectFields))
    && (forall s <- plan.orderBy ::
          s.field in Elements(plan.selectFields) + DerivedOutputs(plan.derivations)
                     + AggregateOutputs(plan.aggregations))
    && (plan.orderBy != [] <==> plan.limit.Some?)
    && (plan.aggregations != [] || plan.orderBy != [])
    && (plan.limit.Some? ==> 1 <= plan.limit.value <= 1000)
  }

  /** Every field that a later step reads from the records is selected. */
  ghost predicate RetainsReads(plan: Plan) {
    && (forall f <- plan.groupBy :: f in plan.selectFields)
    && (forall a <- plan.aggregations :: a.operation.CountRows? || a.operation.field in plan.selectFields)
    && (forall d <- plan.derivations :: d.left in plan.selectFields && d.right in plan.selectFields)
  }

  ghost predicate Sortable(plan: Plan, f: string) {
    || f in plan.selectFields
    || (exists d :: d in plan.derivations && d.output == f)
    || (exists a :: a in plan.aggregations && a.output == f)
  }

  lemma RetainsExactly(plan: Plan)
    ensures RequiredFields(plan) <= Elements(plan.selectFields) <==> RetainsReads(plan)
  {
    if RequiredFields(plan) <= Elements(plan.selectFields) {
      forall a | a in plan.aggregations && !a.operation.CountRows?
        ensures a.operation.field in plan.selectFields
      {
        assert a.operation.field in AggregatedFields(plan.aggregations);
        assert a.operation.field in RequiredFields(plan);
      }
      forall d | d in plan.derivations
        ensures d.left in plan.selectFields && d.right in plan.selectFields
      {
        assert d.left in DerivationInputs(plan.derivations) && d.right in DerivationInputs(plan.derivations);
        assert d.left in RequiredFields(plan) && d.right in RequiredFields(plan);
      }
      forall f | f in plan.groupBy
        ensures f in plan.selectFields
      {
        assert f in RequiredFields(plan);
      }
    }
  }

  lemma DisjointExactly(plan: Plan)
    ensures Elements(plan.selectFields) * DerivedOutputs(plan.derivations) == {}
            <==> forall d <- plan.derivations :: d.output !in plan.selectFields
  {
    if Elements(plan.selectFields) * DerivedOutputs(plan.derivations) == {} {
      forall d | d in plan.derivations
        ensures d.output !in plan.selectFields
      {
        assert d.output in DerivedOutputs(plan.derivations);
        assert d.output !in Elements(plan.selectFields) * DerivedOutputs(plan.derivations);
      }
    }
  }

  /**
   A plan is accepted exactly when no field is selected or grouped by twice, no derived field is selected, a
   selection retains all that is read after it, records are sorted by fields that exist by then, and it asks either
   for aggregations alone or for an ordering with a limit of 1 to 1000.
   */
  lemma AcceptedExactly(plan: Plan)
    ensures ValidateProjection(plan) <==>
            (&& (forall i, j :: 0 <= i < j < |plan.selectFields| ==> plan.selectFields[i] != plan.selectFields[j])
             && (forall i, j :: 0 <= i < j < |plan.groupBy| ==> plan.groupBy[i] != plan.groupBy[j])
             && (forall d <- plan.derivations :: d.output !in plan.selectFields)
             && (plan.selectFields == [] || RetainsReads(plan))
             && (forall s <- plan.orderBy :: Sortable(plan, s.field))
             && match plan.limit
                case None => plan.orderBy == [] && plan.aggregations != []
                case Some(n) => plan.orderBy != [] && 1 <= n <= 1000)
  {
    RetainsExactly(plan);
    DisjointExactly(plan);
    forall s | s in plan.orderBy
      ensures Sortable(plan, s.field) <==>
              s.field in Elements(plan.selectFields) + DerivedOutputs(plan.derivations)
                         + AggregateOutputs(plan.aggregations)
    {
    }
  }

  // ---------- aggregation reads records only through field lookups ----------

  ghost predicate SameLookups(a: seq<Record>, b: seq<Record>, fields: set<string>) {
    && |a| == |b|
    && forall i, f :: 0 <= i < |a| && f in fields ==> FieldValue(a[i], f) == FieldValue(b[i], f)
  }

  lemma {:induction false} SameValues(a: seq<Record>, b: seq<Record>, f: string)
    requires SameLookups(a, b, {f})
    ensures Values(a, f) == Values(b, f)
  {
    if a != [] {
      assert f in {f};
      SameValues(a[1..], b[1..], f);
    }
  }

  lemma {:induction false} SameKeys(a: Record, b: Record, groupBy: seq<string>)
    requires forall f <- groupBy :: FieldValue(a, f) == FieldValue(b, f)
    ensures KeyOf(a, groupBy) == KeyOf(b, groupBy)
  {
    if groupBy != [] { SameKeys(a, b, groupBy[1..]); }
  }

  lemma {:induction false} SameKeysInOrder(a: seq<Record>, b: seq<Record>, groupBy: seq<string>)
    requires SameLookups(a, b, Elements(groupBy))
    ensures KeysInOrder(a, groupBy) == KeysInOrder(b, groupBy)
  {
    if a != [] {
      var n := |a| - 1;
      SameKeysInOrder(a[..n], b[..n], groupBy);
      assert forall f <- groupBy :: f in Elements(groupBy);
      SameKeys(a[n], b[n], groupBy);
    }
  }

  lemma SameLookupsConcat(a: seq<Record>, b: seq<Record>, c: seq<Record>, d: seq<Record>, fields: set<string>)
    requires SameLookups(a, b, fields) && SameLookups(c, d, fields)
    ensures SameLookups(a + c, b + d, fields)
  {
  }

  lemma {:induction false} SameGroups(a: seq<Record>, b: seq<Record>, fields: set<string>, groupBy: seq<string>,
                                      key: GroupKey)
    requires SameLookups(a, b, fields) && Elements(groupBy) <= fields
    ensures SameLookups(GroupOf(a, groupBy, key), GroupOf(b, groupBy, key), fields)
  {
    if a != [] {
      var n := |a| - 1;
      SameGroups(a[..n], b[..n], fields, groupBy, key);
      assert forall f <- groupBy :: f in Elements(groupBy);
      SameKeys(a[n], b[n], groupBy);
      var mine := KeyOf(a[n], groupBy) == key;
      SameLookupsConcat(GroupOf(a[..n], groupBy, key), GroupOf(b[..n], groupBy, key),
                        if mine then [a[n]] else [], if mine then [b[n]] else [], fields);
    }
  }

  lemma {:induction false} SameOutputs(a: seq<Record>, b: seq<Record>, aggregations: seq<RecordAggregation>)
    requires SameLookups(a, b, AggregatedFields(aggregations))
    ensures OutputFields(a, aggregations) == OutputFields(b, aggregations)
  {
    if aggregations != [] {
      var first, rest := aggregations[0], aggregations[1..];
      assert first in aggregations;
      if !first.operation.CountRows? {
        assert first.operation.field in AggregatedFields(aggregations);
        SameValues(a, b, first.operation.field);
      }
      assert AggregatedFields(rest) <= AggregatedFields(aggregations);
      SameOutputs(a, b, rest);
    }
  }

  lemma SameRow(a: seq<Record>, b: seq<Record>, groupBy: seq<string>, aggregations: seq<RecordAggregation>)
    requires SameLookups(a, b, Elements(groupBy) + AggregatedFields(aggregations))
    ensures RowOf(a, groupBy, aggregations) == RowOf(b, groupBy, aggregations)
  {
    SameOutputs(a, b, aggregations);
    if a != [] {
      assert forall f <- groupBy :: f in Elements(groupBy);
      assert GroupFields(a[0], groupBy) == GroupFields(b[0], groupBy);
    }
  }

  lemma {:induction false} SameRowsFor(a: seq<Record>, b: seq<Record>, keys: seq<GroupKey>, groupBy: seq<string>,
                                       aggregations: seq<RecordAggregation>)
    requires SameLookups(a, b, Elements(groupBy) + AggregatedFields(aggregations))
    ensures RowsFor(a, keys, groupBy, aggregations) == RowsFor(b, keys, groupBy, aggregations)
  {
    if keys != [] {
      SameGroups(a, b, Elements(groupBy) + AggregatedFields(aggregations), groupBy, keys[0]);
      SameRow(GroupOf(a, groupBy, keys[0]), GroupOf(b, groupBy, keys[0]), groupBy, aggregations);
      SameRowsFor(a, b, keys[1..], groupBy, aggregations);
    }
  }

  lemma AggregateByLookups(a: seq<Record>, b: seq<Record>, groupBy: seq<string>, aggregations: seq<RecordAggregation>)
    requires SameLookups(a, b, Elements(groupBy) + AggregatedFields(aggregations))
    ensures AggregateRecords(a, aggregations, groupBy) == AggregateRecords(b, aggregations, groupBy)
  {
    SameKeysInOrder(a, b, groupBy);
    SameRowsFor(a, b, GroupKeys(a, groupBy), groupBy, aggregations);
  }

  // ---------- derivation with and without the projection ----------

  /** The fields a derivation adds on top of `base + derived`. */
  function DerivedPart(base: Record, derived: Record, derivations: seq<RecordDerivation>): Option<Record>
    decreases derivations
  {
    if derivations == [] then Some(derived)
    else
      var value :- DerivedValue(base + derived, derivations[0]);
      DerivedPart(base, derived[derivations[0].output := value], derivations[1..])
  }

  lemma {:induction false} DeriveIsBasePlusPart(base: Record, derived: Record, derivations: seq<RecordDerivation>)
    ensures Derive(base + derived, derivations)
         == var part := DerivedPart(base, derived, derivations);
            if part.Some? then Some(base + part.value) else None
    decreases derivations
  {
    if derivations != [] {
      var value := DerivedValue(base + derived, derivations[0]);
      if value.Some? {
        var o := derivations[0].output;
        assert (base + derived)[o := value.value] == base + derived[o := value.value];
        DeriveIsBasePlusPart(base, derived[o := value.value], derivations[1..]);
      }
    }
  }

  lemma {:induction false} PartKeys(base: Record, derived: Record, derivations: seq<RecordDerivation>)
    requires DerivedPart(base, derived, derivations).Some?
    ensures DerivedPart(base, derived, derivations).value.Keys == derived.Keys + DerivedOutputs(derivations)
    decreases derivations
  {
    if derivations != [] {
      var value := DerivedValue(base + derived, derivations[0]);
      PartKeys(base, derived[derivations[0].output := value.value], derivations[1..]);
      assert forall d :: d in derivations <==> d == derivations[0] || d in derivations[1..];
    }
  }

  /** No derivation reads a dotted field whose first component an earlier derivation has overwritten. */
  predicate ReadsClear(overwritten: set<string>, derivations: seq<RecordDerivation>)
    decreases derivations
  {
    derivations == [] ||
    (&& NotShadowed(overwritten, derivations[0].left)
     && NotShadowed(overwritten, derivations[0].right)
     && ReadsClear(overwritten + {derivations[0].output}, derivations[1..]))
  }

  /** The condition on a plan: no field read after the projection is shadowed by a derived field. */
  predicate NoShadowedRead(plan: Plan) {
    && ReadsClear({}, plan.derivations)
    && forall f <- Elements(plan.groupBy) + AggregatedFields(plan.aggregations) ::
         NotShadowed(DerivedOutputs(plan.derivations), f)
  }

  lemma {:induction false} ProjectedPart(record: Record, fields: seq<string>, derived: Record,
                                         derivations: seq<RecordDerivation>)
    requires ReadsClear(derived.Keys, derivations)
    requires DerivationInputs(derivations) <= Elements(fields)
    requires forall f <- fields :: f !in derived && f !in DerivedOutputs(derivations)
    ensures DerivedPart(Project(record, fields), derived, derivations) == DerivedPart(record, derived, derivations)
    decreases derivations
  {
    if derivations != [] {
      var d, rest := derivations[0], derivations[1..];
      assert d in derivations;
      InputsOfRest(derivations);
      assert d.left in Elements(fields) && d.right in Elements(fields);
      LookupWithDerived(record, fields, derived, d.left);
      LookupWithDerived(record, fields, derived, d.right);
      var value := DerivedValue(record + derived, d);
      if value.Some? {
        var more := derived[d.output := value.value];
        assert more.Keys == derived.Keys + {d.output};
        ProjectedPart(record, fields, more, rest);
      }
    }
  }

  lemma InputsOfRest(derivations: seq<RecordDerivation>)
    requires derivations != []
    ensures DerivationInputs(derivations[1..]) <= DerivationInputs(derivations)
    ensures DerivedOutputs(derivations) == {derivations[0].output} + DerivedOutputs(derivations[1..])
  {
    assert forall d :: d in derivations <==> d == derivations[0] || d in derivations[1..];
  }

  // ---------- the steps after the projection ----------

  function MaybeSelect(plan: Plan, records: seq<Record>): seq<Record> {
    if plan.selectFields == [] then records else SelectFields(records, plan.selectFields)
  }

  /** `select_fields`, `derive_fields` and `aggregate_records` on the records that passed the filter. */
  function AggregatedRows(plan: Plan, records: seq<Record>): Option<seq<Record>> {
    var derived :- DeriveFields(MaybeSelect(plan, records), plan.derivations);
    AggregateRecords(derived, plan.aggregations, plan.groupBy)
  }

  function WithoutSelect(plan: Plan): Plan {
    plan.(selectFields := [])
  }

  predicate ProjectingPlan(plan: Plan) {
    ValidateProjection(plan) && plan.selectFields != []
  }

  lemma SelectedNotDerived(plan: Plan)
    requires ProjectingPlan(plan)
    ensures forall f <- plan.selectFields :: f !in DerivedOutputs(plan.derivations)
    ensures forall f <- RequiredFields(plan) :: f in plan.selectFields
    ensures DerivationInputs(plan.derivations) <= Elements(plan.selectFields)
  {
    forall f | f in plan.selectFields
      ensures f !in DerivedOutputs(plan.derivations)
    {
      assert f in Elements(plan.selectFields);
      assert f !in Elements(plan.selectFields) * DerivedOutputs(plan.derivations);
    }
  }

  /** One record: the derivation fails alike, and selected fields and derived fields read alike. */
  lemma DerivedAlike(record: Record, plan: Plan)
    requires ProjectingPlan(plan) && ReadsClear({}, plan.derivations)
    ensures
      var x, y := Derive(Project(record, plan.selectFields), plan.derivations), Derive(record, plan.derivations);
      && x.Some? == y.Some?
      && (x.Some? ==>
            && (forall f <- plan.selectFields | NotShadowed(DerivedOutputs(plan.derivations), f) ::
                  FieldValue(x.value, f) == FieldValue(y.value, f))
            && (forall f <- DerivedOutputs(plan.derivations) :: FieldValue(x.value, f) == FieldValue(y.value, f)))
  {
    var fields, ds := plan.selectFields, plan.derivations;
    var projected := Project(record, fields);
    SelectedNotDerived(plan);
    var none: Record := map[];
    assert none.Keys == {};
    ProjectedPart(record, fields, none, ds);
    assert projected + none == projected && record + none == record;
    DeriveIsBasePlusPart(projected, none, ds);
    DeriveIsBasePlusPart(record, none, ds);
    var part := DerivedPart(record, none, ds);
    if part.Some? {
      PartKeys(record, none, ds);
      assert part.value.Keys == DerivedOutputs(ds);
      forall f | f in fields && NotShadowed(DerivedOutputs(ds), f)
        ensures FieldValue(projected + part.value, f) == FieldValue(record + part.value, f)
      {
        LookupWithDerived(record, fields, part.value, f);
      }
    }
  }

  lemma {:induction false} AllDerivedAlike(records: seq<Record>, plan: Plan, fields: set<string>)
    requires ProjectingPlan(plan) && ReadsClear({}, plan.derivations)
    requires forall f <- fields ::
      f in DerivedOutputs(plan.derivations)
      || (f in plan.selectFields && NotShadowed(DerivedOutputs(plan.derivations), f))
    ensures
      var x := DeriveFields(SelectFields(records, plan.selectFields), plan.derivations);
      var y := DeriveFields(records, plan.derivations);
      && x.Some? == y.Some?
      && (x.Some? ==> SameLookups(x.value, y.value, fields))
  {
    if records != [] {
      DerivedAlike(records[0], plan);
      AllDerivedAlike(records[1..], plan, fields);
      assert SelectFields(records, plan.selectFields)[1..] == SelectFields(records[1..], plan.selectFields);
    }
  }

  /** If no read is shadowed, the projection does not change the aggregated rows, errors included. */
  lemma PushdownKeepsRows(plan: Plan, records: seq<Record>)
    requires ProjectingPlan(plan) && NoShadowedRead(plan)
    ensures AggregatedRows(plan, records) == AggregatedRows(WithoutSelect(plan), records)
  {
    var fields := Elements(plan.groupBy) + AggregatedFields(plan.aggregations);
    SelectedNotDerived(plan);
    assert fields <= RequiredFields(plan);
    AllDerivedAlike(records, plan, fields);
    var x := DeriveFields(SelectFields(records, plan.selectFields), plan.derivations);
    var y := DeriveFields(records, plan.derivations);
    if x.Some? { AggregateByLookups(x.value, y.value, plan.groupBy, plan.aggregations); }
  }

  // ---------- a shadowed read is always visible ----------

  /** A value that has 1 at the end of the path. */
  function Nest(path: seq<string>): Json {
    if path == [] then Num(1) else Obj(map[path[0] := Nest(path[1..])])
  }

  lemma {:induction false} WalkNest(path: seq<string>)
    ensures Walk(Nest(path), path) == Found(Num(1))
  {
    if path != [] { WalkNest(path[1..]); }
  }

  lemma {:induction false} SplitDotted(f: string)
    requires '.' in f
    ensures |Split(f)| >= 2
  {
    if f[0] != '.' {
      assert f == [f[0]] + f[1..];
      SplitDotted(f[1..]);
    }
  }

  /** A record in which every selected field is 1, with `f` reachable only through its path. */
  function Witness(fields: seq<string>, f: string): Record {
    var path := Split(f);
    (map g | g in fields && g != f :: Num(1)) + map[path[0] := Nest(path[1..])]
  }

  lemma WitnessReads(fields: seq<string>, f: string, g: string)
    requires '.' in f && Split(f)[0] !in fields
    requires g in fields
    ensures FieldValue(Witness(fields, f), g) == Found(Num(1))
  {
    var w, path := Witness(fields, f), Split(f);
    assert path[0] in path;
    if g == f {
      assert f != path[0];
      WalkNest(path[1..]);
    }
  }

  /** Once the first component is derived, the path is gone. */
  lemma WitnessLosesPath(fields: seq<string>, f: string, derived: Record)
    requires '.' in f && Split(f)[0] !in fields
    requires f in fields && f !in derived
    requires Split(f)[0] in derived && derived[Split(f)[0]].Num?
    ensures FieldValue(Witness(fields, f) + derived, f) == Missing
  {
    SplitDotted(f);
    var path := Split(f);
    assert path[0] in path;
    assert f != path[0];
    assert f !in Witness(fields, f);
    var v := Obj(Witness(fields, f) + derived);
    assert Walk(v, path) == Walk(v.fields[path[0]], path[1..]);
  }

  /** Some derivation reads `f` after an earlier one has overwritten its first component. */
  predicate ReadsShadowed(overwritten: set<string>, derivations: seq<RecordDerivation>, f: string)
    decreases derivations
  {
    derivations != [] &&
    (|| ((f == derivations[0].left || f == derivations[0].right) && !NotShadowed(overwritten, f))
     || ReadsShadowed(overwritten + {derivations[0].output}, derivations[1..], f))
  }

  lemma {:induction false} FindShadowedRead(overwritten: set<string>, derivations: seq<RecordDerivation>)
    returns (f: string)
    requires !ReadsClear(overwritten, derivations)
    ensures ReadsShadowed(overwritten, derivations, f)
    decreases derivations
  {
    if !NotShadowed(overwritten, derivations[0].left) {
      f := derivations[0].left;
    } else if !NotShadowed(overwritten, derivations[0].right) {
      f := derivations[0].right;
    } else {
      f := FindShadowedRead(overwritten + {derivations[0].output}, derivations[1..]);
    }
  }

  lemma {:induction false} ShadowedReadIsDerivable(overwritten: set<string>, derivations: seq<RecordDerivation>,
                                                   f: string)
    requires ReadsShadowed(overwritten, derivations, f)
    ensures '.' in f && Split(f)[0] in overwritten + DerivedOutputs(derivations)
    ensures f in DerivationInputs(derivations)
    decreases derivations
  {
    assert derivations[0] in derivations;
    InputsOfRest(derivations);
    if !((f == derivations[0].left || f == derivations[0].right) && !NotShadowed(overwritten, f)) {
      ShadowedReadIsDerivable(overwritten + {derivations[0].output}, derivations[1..], f);
    }
  }

  lemma {:induction false} ShadowedReadFails(fields: seq<string>, f: string, derived: Record,
                                             derivations: seq<RecordDerivation>)
    requires ReadsShadowed(derived.Keys, derivations, f)
    requires f in fields && Split(f)[0] !in fields
    requires forall g <- derived :: derived[g].Num? && g !in fields
    requires forall d <- derivations :: d.output !in fields
    ensures DerivedPart(Witness(fields, f), derived, derivations).None?
    decreases derivations
  {
    var d := derivations[0];
    assert d in derivations;
    if (f == d.left || f == d.right) && !NotShadowed(derived.Keys, f) {
      WitnessLosesPath(fields, f, derived);
    } else {
      var value := DerivedValue(Witness(fields, f) + derived, d);
      if value.Some? {
        var more := derived[d.output := value.value];
        assert more.Keys == derived.Keys + {d.output};
        ShadowedReadFails(fields, f, more, derivations[1..]);
      }
    }
  }

  /** After the projection every selected field is its own key, so the derivations succeed. */
  lemma {:induction false} ProjectedWitnessDerives(base: Record, fields: seq<string>, derived: Record,
                                                   derivations: seq<RecordDerivation>)
    requires forall g <- fields :: g in base && base[g] == Num(1)
    requires DerivationInputs(derivations) <= Elements(fields)
    requires forall g <- derived :: derived[g].Num? && g !in fields
    requires forall d <- derivations :: d.output !in fields
    ensures DerivedPart(base, derived, derivations).Some?
    ensures var part := DerivedPart(base, derived, derivations).value;
            (forall g <- part :: part[g].Num? && g !in fields)
    decreases derivations
  {
    if derivations != [] {
      var d := derivations[0];
      assert d in derivations;
      InputsOfRest(derivations);
      assert d.left in DerivationInputs(derivations) && d.right in DerivationInputs(derivations);
      assert FieldValue(base + derived, d.left) == Found(Num(1));
      assert FieldValue(base + derived, d.right) == Found(Num(1));
      var value := DerivedValue(base + derived, d).value;
      ProjectedWitnessDerives(base, fields, derived[d.output := value], derivations[1..]);
    }
  }

  lemma OneRecordDerived(record: Record, derivations: seq<RecordDerivation>)
    ensures DeriveFields([record], derivations)
         == var d := Derive(record, derivations); if d.Some? then Some([d.value]) else None
  {
    assert [record][1..] == [];
    var d := Derive(record, derivations);
    assert d.Some? ==> [d.value] + [] == [d.value];
  }

  lemma OneValue(record: Record, f: string)
    ensures Values([record], f) == NonNull(FieldValue(record, f))
  {
    assert [record][1..] == [];
    assert NonNull(FieldValue(record, f)) + [] == NonNull(FieldValue(record, f));
  }

  lemma OneNumberAggregates(record: Record, operation: Operation)
    requires !operation.CountRows? ==> FieldValue(record, operation.field) == Found(Num(1))
    ensures AggregateValues([record], operation) == Some(Num(1))
  {
    if !operation.CountRows? {
      OneValue(record, operation.field);
      assert [Num(1)][1..] == [];
      if operation.CountDistinct? { assert Texts([Num(1)]) == {Encode(Num(1))}; }
    }
  }

  lemma NoValueAggregates(record: Record, operation: Operation)
    requires !operation.CountRows? && FieldValue(record, operation.field).Missing?
    ensures AggregateValues([record], operation) != Some(Num(1))
  {
    OneValue(record, operation.field);
    if operation.CountDistinct? { assert Texts([]) == {}; }
  }

  lemma {:induction false} OneNumberOutputs(record: Record, aggregations: seq<RecordAggregation>)
    requires forall f <- AggregatedFields(aggregations) :: FieldValue(record, f) == Found(Num(1))
    ensures OutputFields([record], aggregations).Some?
  {
    if aggregations != [] {
      var a := aggregations[0];
      assert a in aggregations;
      assert !a.operation.CountRows? ==> a.operation.field in AggregatedFields(aggregations);
      OneNumberAggregates(record, a.operation);
      assert AggregatedFields(aggregations[1..]) <= AggregatedFields(aggregations);
      OneNumberOutputs(record, aggregations[1..]);
    }
  }

  /** With the projection the witness is aggregated from its 1s. */
  lemma ProjectedWitness(plan: Plan, f: string) returns (record: Record)
    requires ProjectingPlan(plan)
    requires '.' in f && Split(f)[0] !in plan.selectFields
    ensures DeriveFields(SelectFields([Witness(plan.selectFields, f)], plan.selectFields), plan.derivations)
         == Some([record])
    ensures forall g <- plan.selectFields :: FieldValue(record, g) == Found(Num(1))
  {
    var fields, w := plan.selectFields, Witness(plan.selectFields, f);
    var base := Project(w, fields);
    forall g | g in fields
      ensures g in base && base[g] == Num(1)
    {
      WitnessReads(fields, f, g);
    }
    SelectedNotDerived(plan);
    DerivationsAvoid(plan);
    var none: Record := map[];
    ProjectedWitnessDerives(base, fields, none, plan.derivations);
    DeriveIsBasePlusPart(base, none, plan.derivations);
    assert base + none == base;
    record := base + DerivedPart(base, none, plan.derivations).value;
    assert SelectFields([w], fields) == [base];
    OneRecordDerived(base, plan.derivations);
  }

  lemma DerivationsAvoid(plan: Plan)
    requires ProjectingPlan(plan)
    ensures forall d <- plan.derivations :: d.output !in plan.selectFields
  {
    SelectedNotDerived(plan);
    assert forall d <- plan.derivations :: d.output in DerivedOutputs(plan.derivations);
  }

  lemma {:induction false} PartIsNumeric(base: Record, derived: Record, derivations: seq<RecordDerivation>)
    requires DerivedPart(base, derived, derivations).Some?
    requires forall g <- derived :: derived[g].Num?
    ensures var part := DerivedPart(base, derived, derivations).value; forall g <- part :: part[g].Num?
    decreases derivations
  {
    if derivations != [] {
      var value := DerivedValue(base + derived, derivations[0]);
      PartIsNumeric(base, derived[derivations[0].output := value.value], derivations[1..]);
    }
  }

  /** Without the projection either the derivation fails or the field is lost. */
  lemma BareWitness(plan: Plan, f: string)
    requires ProjectingPlan(plan) && f in plan.selectFields
    requires '.' in f && Split(f)[0] in DerivedOutputs(plan.derivations)
    ensures var d := DeriveFields([Witness(plan.selectFields, f)], plan.derivations);
            d.Some? ==> |d.value| == 1 && FieldValue(d.value[0], f).Missing?
    ensures ReadsShadowed({}, plan.derivations, f) ==>
              DeriveFields([Witness(plan.selectFields, f)], plan.derivations).None?
  {
    var fields, w, ds := plan.selectFields, Witness(plan.selectFields, f), plan.derivations;
    SelectedNotDerived(plan);
    DerivationsAvoid(plan);
    var none: Record := map[];
    DeriveIsBasePlusPart(w, none, ds);
    assert w + none == w && none.Keys == {};
    OneRecordDerived(w, ds);
    if ReadsShadowed({}, ds, f) { ShadowedReadFails(fields, f, none, ds); }
    var part := DerivedPart(w, none, ds);
    if part.Some? {
      PartKeys(w, none, ds);
      PartIsNumeric(w, none, ds);
      WitnessLosesPath(fields, f, part.value);
    }
  }

  /** Two one-record inputs that disagree on a read field give different rows. */
  lemma RowsTellFieldsApart(x: Record, y: Record, f: string, groupBy: seq<string>, aggregations: seq<RecordAggregation>)
    requires ValidRequest(aggregations, groupBy)
    requires f in Elements(groupBy) + AggregatedFields(aggregations)
    requires FieldValue(x, f) == Found(Num(1)) && FieldValue(y, f).Missing?
    requires OutputFields([x], aggregations).Some?
    ensures RowOf([x], groupBy, aggregations) != RowOf([y], groupBy, aggregations)
  {
    if RowOf([y], groupBy, aggregations).Some? {
      var p, q := OutputFields([x], aggregations).value, OutputFields([y], aggregations).value;
      if f in groupBy {
        OutputKeys([x], aggregations);
        OutputKeys([y], aggregations);
        assert f !in p && f !in q;
        assert (GroupFields(x, groupBy) + p)[f] == Num(1);
        assert (GroupFields(y, groupBy) + q)[f] == Null;
      } else {
        var a :| a in aggregations && !a.operation.CountRows? && a.operation.field == f;
        var i :| 0 <= i < |aggregations| && aggregations[i] == a;
        OutputValue([x], aggregations, i);
        OutputValue([y], aggregations, i);
        OneNumberAggregates(x, a.operation);
        NoValueAggregates(y, a.operation);
        assert (GroupFields(x, groupBy) + p)[a.output] == Num(1);
        assert (GroupFields(y, groupBy) + q)[a.output] == q[a.output];
      }
    }
  }

  lemma ShadowedField(plan: Plan) returns (f: string)
    requires ProjectingPlan(plan) && !NoShadowedRead(plan)
    ensures '.' in f && Split(f)[0] in DerivedOutputs(plan.derivations) && f in plan.selectFields
    ensures ReadsShadowed({}, plan.derivations, f) || f in Elements(plan.groupBy) + AggregatedFields(plan.aggregations)
  {
    SelectedNotDerived(plan);
    if !ReadsClear({}, plan.derivations) {
      f := FindShadowedRead({}, plan.derivations);
      ShadowedReadIsDerivable({}, plan.derivations, f);
      assert f in RequiredFields(plan);
    } else {
      f :| f in Elements(plan.groupBy) + AggregatedFields(plan.aggregations)
           && !NotShadowed(DerivedOutputs(plan.derivations), f);
      assert f in RequiredFields(plan);
    }
  }

  lemma ShadowedReadShows(plan: Plan, f: string)
    requires ProjectingPlan(plan) && ValidRequest(plan.aggregations, plan.groupBy)
    requires '.' in f && Split(f)[0] in DerivedOutputs(plan.derivations) && f in plan.selectFields
    requires ReadsShadowed({}, plan.derivations, f) || f in Elements(plan.groupBy) + AggregatedFields(plan.aggregations)
    ensures AggregatedRows(plan, [Witness(plan.selectFields, f)])
         != AggregatedRows(WithoutSelect(plan), [Witness(plan.selectFields, f)])
  {
    var w := Witness(plan.selectFields, f);
    SelectedNotDerived(plan);
    BareWitness(plan, f);
    var x := ProjectedWitness(plan, f);
    assert AggregatedFields(plan.aggregations) <= RequiredFields(plan);
    OneNumberOutputs(x, plan.aggregations);
    SameKeyRows([x], plan.groupBy, plan.aggregations, KeyOf(x, plan.groupBy));
    var bare := DeriveFields([w], plan.derivations);
    if bare.Some? {
      var y := bare.value[0];
      assert bare.value == [y];
      SameKeyRows([y], plan.groupBy, plan.aggregations, KeyOf(y, plan.groupBy));
      RowsTellFieldsApart(x, y, f, plan.groupBy, plan.aggregations);
    }
  }

  /**
   The projection of a valid plan is invisible in the aggregated rows of all inputs exactly when no read is shadowed.
   */
  lemma PushdownExactly(plan: Plan)
    requires ProjectingPlan(plan) && ValidRequest(plan.aggregations, plan.groupBy)
    ensures (forall records :: AggregatedRows(plan, records) == AggregatedRows(WithoutSelect(plan), records))
       <==> NoShadowedRead(plan)
  {
    if NoShadowedRead(plan) {
      forall records
        ensures AggregatedRows(plan, records) == AggregatedRows(WithoutSelect(plan), records)
      {
        PushdownKeepsRows(plan, records);
      }
    } else {
      var f := ShadowedField(plan);
      ShadowedReadShows(plan, f);
    }
  }
}
