/**
 `select_fields` and `derive_fields`, and what survives when a projection is inserted before
 derivation, filtering, aggregation or top-k.
 */
module Projection {
  import opened Json
  import opened Options
  import opened Records
  import opened Predicates

  // ---------- select_fields ----------

  function Project(record: Record, fields: seq<string>): Record {
    map f | f in fields && FieldValue(record, f).Found? :: FieldValue(record, f).value
  }

  function SelectFields(records: seq<Record>, fields: seq<string>): (selected: seq<Record>)
    ensures |selected| == |records|
  {
    seq(|records|, i requires 0 <= i < |records| => Project(records[i], fields))
  }

  method SelectByLoop(records: seq<Record>, fields: seq<string>) returns (selected: seq<Record>)
    ensures selected == SelectFields(records, fields)
  {
    selected := [];
    for i := 0 to |records|
      invariant |selected| == i
      invariant forall j :: 0 <= j < i ==> selected[j] == Project(records[j], fields)
    {
      var projected: Record := map[];
      for j := 0 to |fields|
        invariant projected == Project(records[i], fields[..j])
      {
        assert fields[..j + 1] == fields[..j] + [fields[j]];
        var value := ResolveField(records[i], fields[j]);
        if value.Found? {
          projected := projected[fields[j] := value.value];
        }
      }
      assert fields[..|fields|] == fields;
      selected := selected + [projected];
    }
  }

  // ---------- derive_fields ----------

  datatype Arithmetic = Add | Subtract | Multiply

  datatype RecordDerivation = RecordDerivation(output: string, operation: Arithmetic, left: string, right: string)

  function Apply(operation: Arithmetic, x: int, y: int): int {
    match operation
    case Add => x + y
    case Subtract => x - y
    case Multiply => x * y
  }

  /** The value of one derivation; `None` when an input is missing or not a number (booleans are not). */
  function DerivedValue(record: Record, d: RecordDerivation): Option<Json> {
    var left, right := FieldValue(record, d.left), FieldValue(record, d.right);
    if left.Missing? || right.Missing? || !left.value.Num? || !right.value.Num? then None
    else Some(Num(Apply(d.operation, left.value.n, right.value.n)))
  }

  /** Later derivations see the fields of earlier ones. */
  function Derive(record: Record, derivations: seq<RecordDerivation>): Option<Record>
    decreases derivations
  {
    if derivations == [] then Some(record)
    else
      var value :- DerivedValue(record, derivations[0]);
      Derive(record[derivations[0].output := value], derivations[1..])
  }

  function DeriveFields(records: seq<Record>, derivations: seq<RecordDerivation>): Option<seq<Record>> {
    if records == [] then Some([])
    else
      var derived :- Derive(records[0], derivations);
      var rest :- DeriveFields(records[1..], derivations);
      Some([derived] + rest)
  }

  method DeriveOneByLoop(record: Record, derivations: seq<RecordDerivation>) returns (result: Option<Record>)
    ensures result == Derive(record, derivations)
  {
    var derived := record;
    for i := 0 to |derivations|
      invariant Derive(record, derivations) == Derive(derived, derivations[i..])
    {
      assert derivations[i..][1..] == derivations[i + 1..];
      var d := derivations[i];
      var left := ResolveField(derived, d.left);
      var right := ResolveField(derived, d.right);
      if left.Missing? || right.Missing? || !left.value.Num? || !right.value.Num? {
        return None;
      }
      derived := derived[d.output := Num(Apply(d.operation, left.value.n, right.value.n))];
    }
    result := Some(derived);
  }

  lemma DeriveFieldsUnfold(records: seq<Record>, i: nat, derivations: seq<RecordDerivation>)
    requires i < |records|
    ensures DeriveFields(records[i..], derivations)
         == var derived, rest := Derive(records[i], derivations), DeriveFields(records[i + 1..], derivations);
            if derived.None? || rest.None? then None else Some([derived.value] + rest.value)
  {
  }

  method DeriveByLoop(records: seq<Record>, derivations: seq<RecordDerivation>) returns (result: Option<seq<Record>>)
    ensures result == DeriveFields(records, derivations)
  {
    var output: seq<Record> := [];
    ghost var all := DeriveFields(records, derivations);
    assert records[0..] == records && (all.Some? ==> [] + all.value == all.value);
    for i := 0 to |records|
      invariant DeriveFields(records[i..], derivations).None? ==> DeriveFields(records, derivations).None?
      invariant DeriveFields(records[i..], derivations).Some? ==>
        DeriveFields(records, derivations) == Some(output + DeriveFields(records[i..], derivations).value)
    {
      DeriveFieldsUnfold(records, i, derivations);
      var derived := DeriveOneByLoop(records[i], derivations);
      if derived.None? {
        return None;
      }
      ghost var rest := DeriveFields(records[i + 1..], derivations);
      assert rest.Some? ==> output + ([derived.value] + rest.value) == (output + [derived.value]) + rest.value;
      output := output + [derived.value];
    }
    assert output + [] == output;
    result := Some(output);
  }

  // ---------- lookups after a projection ----------

  /** A selected field reads the same in the projected record. */
  lemma ProjectKeepsLookup(record: Record, fields: seq<string>, f: string)
    requires f in fields
    ensures FieldValue(Project(record, fields), f) == FieldValue(record, f)
  {
    LookupWithDerived(record, fields, map[], f);
    assert record + map[] == record;
    assert Project(record, fields) + map[] == Project(record, fields);
  }

  /** No derived field is the first component of the field. */
  predicate NotShadowed(outputs: set<string>, f: string) {
    '.' in f ==> Split(f)[0] !in outputs
  }

  lemma LookupInOriginal(record: Record, derived: Record, f: string)
    requires f !in derived && NotShadowed(derived.Keys, f)
    ensures FieldValue(record + derived, f) == FieldValue(record, f)
  {
    if '.' !in f {
      FieldValuePlain(record + derived, f);
      FieldValuePlain(record, f);
    }
  }

  lemma LookupInProjected(record: Record, fields: seq<string>, derived: Record, f: string)
    requires f in fields && f !in derived && NotShadowed(derived.Keys, f)
    ensures FieldValue(Project(record, fields) + derived, f) == FieldValue(record, f)
  {
    var projected := Project(record, fields);
    if f !in projected {
      if '.' !in f {
        FieldValuePlain(projected + derived, f);
      } else {
        var path := Split(f);
        assert '.' !in path[0];
        FieldValuePlain(record, path[0]);
      }
    }
  }

  /** Derived fields on top of a record or of its projection do not change the lookup of a selected field. */
  lemma LookupWithDerived(record: Record, fields: seq<string>, derived: Record, f: string)
    requires f in fields && f !in derived && NotShadowed(derived.Keys, f)
    ensures FieldValue(Project(record, fields) + derived, f) == FieldValue(record + derived, f)
  {
    LookupInOriginal(record, derived, f);
    LookupInProjected(record, fields, derived, f);
  }

  // ---------- filtering ----------

  lemma ProjectKeepsPredicates(record: Record, fields: seq<string>, predicates: seq<RecordPredicate>, matchAll: bool)
    requires forall p <- predicates :: ValidPredicate(p) && p.field in fields
    ensures Keeps(Project(record, fields), predicates, matchAll) == Keeps(record, predicates, matchAll)
  {
    forall i | 0 <= i < |predicates|
      ensures MatchesPredicate(Project(record, fields), predicates[i]) == MatchesPredicate(record, predicates[i])
    {
      ProjectKeepsLookup(record, fields, predicates[i].field);
    }
  }

  lemma SelectFirst(record: Record, rest: seq<Record>, fields: seq<string>)
    ensures SelectFields([record] + rest, fields) == [Project(record, fields)] + SelectFields(rest, fields)
  {
  }

  /** Filtering before or after the projection gives the same records when the predicate fields are selected. */
  lemma {:induction false} FilterCommutesWithSelect(records: seq<Record>, fields: seq<string>,
                                                    predicates: seq<RecordPredicate>, matchAll: bool)
    requires forall p <- predicates :: ValidPredicate(p) && p.field in fields
    ensures FilterRecords(SelectFields(records, fields), predicates, matchAll)
         == SelectFields(FilterRecords(records, predicates, matchAll), fields)
  {
    if records != [] {
      ProjectKeepsPredicates(records[0], fields, predicates, matchAll);
      FilterCommutesWithSelect(records[1..], fields, predicates, matchAll);
      SelectFirst(records[0], records[1..], fields);
      SelectFirst(records[0], FilterRecords(records[1..], predicates, matchAll), fields);
      assert records == [records[0]] + records[1..];
    }
  }

  // ---------- derived values ----------

  /**
   Both operands resolve to numbers in `before`, and `after` differs from it in the output alone, which holds the
   sum, the difference or the product of the two.
   */
  ghost predicate DerivesOne(before: Record, d: RecordDerivation, after: Record) {
    var left, right := FieldValue(before, d.left), FieldValue(before, d.right);
    && left.Found? && left.value.Num? && right.Found? && right.value.Num?
    && after.Keys == before.Keys + {d.output}
    && (forall f <- before :: f != d.output ==> after[f] == before[f])
    && (d.operation.Add? ==> after[d.output] == Num(left.value.n + right.value.n))
    && (d.operation.Subtract? ==> after[d.output] == Num(left.value.n - right.value.n))
    && (d.operation.Multiply? ==> after[d.output] == Num(left.value.n * right.value.n))
  }

  /** The stages of a record between the derivations: each derivation reads what those before it left. */
  ghost predicate DerivesInTurn(derivations: seq<RecordDerivation>, stages: seq<Record>) {
    && |stages| == |derivations| + 1
    && forall i :: 0 <= i < |derivations| ==> DerivesOne(stages[i], derivations[i], stages[i + 1])
  }

  ghost predicate Derives(record: Record, derivations: seq<RecordDerivation>, derived: Record) {
    exists stages ::
      && DerivesInTurn(derivations, stages)
      && stages[0] == record && stages[|derivations|] == derived
  }

  lemma OneDerivation(record: Record, d: RecordDerivation, after: Record)
    ensures DerivesOne(record, d, after) <==>
            DerivedValue(record, d).Some? && after == record[d.output := DerivedValue(record, d).value]
  {
  }

  lemma {:induction false} DerivationStages(record: Record, derivations: seq<RecordDerivation>)
    requires Derive(record, derivations).Some?
    ensures Derives(record, derivations, Derive(record, derivations).value)
    decreases derivations
  {
    if derivations == [] {
      assert DerivesInTurn(derivations, [record]);
    } else {
      var d := derivations[0];
      var after := record[d.output := DerivedValue(record, d).value];
      OneDerivation(record, d, after);
      DerivationStages(after, derivations[1..]);
      var rest :| DerivesInTurn(derivations[1..], rest) && rest[0] == after
                  && rest[|derivations| - 1] == Derive(record, derivations).value;
      assert DerivesInTurn(derivations, [record] + rest);
    }
  }

  lemma {:induction false} StagesDerive(derivations: seq<RecordDerivation>, stages: seq<Record>)
    requires DerivesInTurn(derivations, stages)
    ensures Derive(stages[0], derivations) == Some(stages[|derivations|])
  {
    if derivations != [] {
      OneDerivation(stages[0], derivations[0], stages[1]);
      StagesDerive(derivations[1..], stages[1..]);
    }
  }

  lemma DerivesIs(record: Record, derivations: seq<RecordDerivation>, derived: Record)
    ensures Derives(record, derivations, derived) <==> Derive(record, derivations) == Some(derived)
  {
    if Derives(record, derivations, derived) {
      var stages :| DerivesInTurn(derivations, stages) && stages[0] == record && stages[|derivations|] == derived;
      StagesDerive(derivations, stages);
    }
    if Derive(record, derivations) == Some(derived) { DerivationStages(record, derivations); }
  }

  lemma {:induction false} DerivesEach(records: seq<Record>, derivations: seq<RecordDerivation>,
                                       derived: seq<Record>)
    requires |derived| == |records|
    ensures DeriveFields(records, derivations) == Some(derived) <==>
            forall i :: 0 <= i < |records| ==> Derive(records[i], derivations) == Some(derived[i])
  {
    if records != [] {
      DerivesEach(records[1..], derivations, derived[1..]);
      assert derived == [derived[0]] + derived[1..];
      assert forall i :: 0 < i < |records| ==> records[1..][i - 1] == records[i] && derived[1..][i - 1] == derived[i];
    }
  }

  lemma {:induction false} DeriveFieldsSize(records: seq<Record>, derivations: seq<RecordDerivation>)
    ensures DeriveFields(records, derivations).Some? ==> |DeriveFields(records, derivations).value| == |records|
  {
    if records != [] { DeriveFieldsSize(records[1..], derivations); }
  }

  /**
   The step succeeds with exactly these records: each is its own record taken through the derivations one after the
   other. When an operand is missing or not a number in a single record, there are none and the step fails.
   */
  lemma DerivesExactly(records: seq<Record>, derivations: seq<RecordDerivation>, derived: seq<Record>)
    ensures DeriveFields(records, derivations) == Some(derived) <==>
            (&& |derived| == |records|
             && forall i :: 0 <= i < |records| ==> Derives(records[i], derivations, derived[i]))
  {
    DeriveFieldsSize(records, derivations);
    if |derived| == |records| {
      DerivesEach(records, derivations, derived);
      forall i | 0 <= i < |records|
        ensures Derives(records[i], derivations, derived[i]) <==> Derive(records[i], derivations) == Some(derived[i])
      {
        DerivesIs(records[i], derivations, derived[i]);
      }
    }
  }

  /** Deriving `sum = a + b` and then `back = sum - b` returns the value of `a` and leaves the record's own fields. */
  lemma SubtractUndoesAdd(record: Record, a: string, b: string, sum: string, back: string)
    requires a in record && b in record && record[a].Num? && record[b].Num?
    requires sum !in record && back !in record && sum != back
    ensures
      var derived := Derive(record, [RecordDerivation(sum, Add, a, b), RecordDerivation(back, Subtract, sum, b)]);
      && derived.Some? && sum in derived.value && derived.value[sum] == Num(record[a].n + record[b].n)
      && back in derived.value && derived.value[back] == record[a]
      && forall f <- record :: f in derived.value && derived.value[f] == record[f]
  {
    var first, second := RecordDerivation(sum, Add, a, b), RecordDerivation(back, Subtract, sum, b);
    assert [first, second][1..] == [second] && [second][1..] == [];
    assert FieldValue(record, a) == Found(record[a]) && FieldValue(record, b) == Found(record[b]);
    var next := record[sum := Num(record[a].n + record[b].n)];
    assert FieldValue(next, sum) == Found(next[sum]) && FieldValue(next, b) == Found(record[b]);
    assert Derive(record, [first, second]) == Derive(next, [second]);
    var last := next[back := record[a]];
    assert DerivedValue(next, second) == Some(record[a]);
    assert Derive(next, [second]) == Derive(last, []) == Some(last);
  }
}
