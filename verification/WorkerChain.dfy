/**
 The operator chain that one Worker runs for a structured plan, over the payloads the operators store.
 */
module WorkerChain {
  import opened Json
  import opened Options
  import opened Sequences
  import opened Records
  import opened Predicates
  import opened Aggregation
  import opened Grouping
  import opened ShardMerge
  import opened TopK
  import opened Projection
  import opened StructuredPlan
  import opened RankingPushdown

  // ---------- stored payloads ----------

  function Objects(records: seq<Record>): seq<Json> {
    seq(|records|, i requires 0 <= i < |records| => Obj(records[i]))
  }

  function RecordSet(operator: string, records: seq<Record>): Json {
    Obj(map["schema_version" := Str("generic-record-set-v1"), "operator" := Str(operator),
            "records" := Arr(Objects(records))])
  }

  function Strings(texts: seq<string>): seq<Json> {
    seq(|texts|, i requires 0 <= i < |texts| => Str(texts[i]))
  }

  function OperationName(operation: Operation): string {
    match operation
    case CountRows => "count"
    case Count(_) => "count"
    case CountDistinct(_) => "count_distinct"
    case Sum(_) => "sum"
    case Min(_) => "min"
    case Max(_) => "max"
  }

  function AggregationObject(a: RecordAggregation): Json {
    Obj(map["output_field" := Str(a.output), "operation" := Str(OperationName(a.operation)),
            "field" := if a.operation.CountRows? then Null else Str(a.operation.field)])
  }

  /** `aggregate_records` stores its rows under `groups`. */
  function GroupSet(plan: Plan, rows: seq<Record>): Record {
    map["schema_version" := Str("generic-record-aggregation-v1"), "operator" := Str("aggregate_records"),
        "group_by" := Arr(Strings(plan.groupBy)),
        "aggregations" := Arr(seq(|plan.aggregations|, i requires 0 <= i < |plan.aggregations| =>
                                  AggregationObject(plan.aggregations[i]))),
        "groups" := Arr(Objects(rows))]
  }

  function RecordsIn(items: seq<Json>): Option<seq<Record>> {
    if items == [] then Some([])
    else if !items[0].Obj? then None
    else
      var rest :- RecordsIn(items[1..]);
      Some([items[0].fields] + rest)
  }

  /** A `records` envelope, a single object, or an array. */
  function LoadPayload(payload: Json): Option<seq<Record>> {
    var inner :=
      if !payload.Obj? then payload
      else if "records" in payload.fields then payload.fields["records"]
      else Arr([payload]);
    if inner.Arr? then RecordsIn(inner.items) else None
  }

  function LoadRecords(payloads: seq<Json>): Option<seq<Record>> {
    if payloads == [] then Some([])
    else
      var first :- LoadPayload(payloads[0]);
      var rest :- LoadRecords(payloads[1..]);
      Some(first + rest)
  }

  lemma {:induction false} ObjectsReload(records: seq<Record>)
    ensures RecordsIn(Objects(records)) == Some(records)
  {
    if records != [] {
      ObjectsReload(records[1..]);
      assert Objects(records)[1..] == Objects(records[1..]);
      assert records == [records[0]] + records[1..];
    }
  }

  lemma LoadOne(payload: Json)
    ensures LoadRecords([payload]) == LoadPayload(payload)
  {
    assert [payload][1..] == [];
    var first := LoadPayload(payload);
    assert first.Some? ==> first.value + [] == first.value;
  }

  /** A stored record set reads back as the records that were stored. */
  lemma RecordSetReloads(operator: string, records: seq<Record>)
    ensures LoadRecords([RecordSet(operator, records)]) == Some(records)
  {
    LoadOne(RecordSet(operator, records));
    ObjectsReload(records);
  }

  /** A stored aggregation reads back as one record, the envelope itself. */
  lemma GroupSetReloads(plan: Plan, rows: seq<Record>)
    ensures LoadRecords([Obj(GroupSet(plan, rows))]) == Some([GroupSet(plan, rows)])
  {
    var envelope := GroupSet(plan, rows);
    LoadOne(Obj(envelope));
    assert "records" !in envelope;
    ObjectsReload([envelope]);
    assert Objects([envelope]) == [Obj(envelope)];
  }

  // ---------- the chain of one worker ----------

  /** `current` inputs and the payloads stored so far. */
  datatype ChainState = ChainState(current: seq<Json>, chain: seq<Json>)

  predicate ValidPredicates(plan: Plan) {
    forall p <- plan.predicates :: ValidPredicate(p)
  }

  function Stored(state: ChainState, payload: Json): ChainState {
    ChainState([payload], state.chain + [payload])
  }

  // ---------- what the request models accept ----------

  predicate InputsAccepted(inputs: seq<Json>) {
    1 <= |inputs| <= 128
  }

  function OutputList(derivations: seq<RecordDerivation>): seq<string> {
    seq(|derivations|, i requires 0 <= i < |derivations| => derivations[i].output)
  }

  predicate DerivationsAccepted(plan: Plan) {
    |plan.derivations| <= 32 && NoDuplicates(OutputList(plan.derivations))
  }

  predicate AggregationsAccepted(plan: Plan) {
    |plan.aggregations| <= 32 && |plan.groupBy| <= 16 && ValidRequest(plan.aggregations, plan.groupBy)
  }

  /** The limits of the requests that the validator of the plan does not check. */
  predicate PlanAccepted(plan: Plan) {
    && |plan.predicates| <= 32 && |plan.selectFields| <= 64 && |plan.orderBy| <= 16
    && DerivationsAccepted(plan)
    && (plan.aggregations != [] ==> AggregationsAccepted(plan))
  }

  // ---------- the steps ----------

  function FilterStep(plan: Plan, state: ChainState): Option<ChainState>
    requires ValidPredicates(plan)
  {
    if plan.predicates == [] then Some(state)
    else if !InputsAccepted(state.current) || |plan.predicates| > 32 then None
    else
      var records :- LoadRecords(state.current);
      Some(Stored(state, RecordSet("filter_records", FilterRecords(records, plan.predicates, plan.matchAll))))
  }

  function SelectStep(plan: Plan, state: ChainState): Option<ChainState> {
    if plan.selectFields == [] then Some(state)
    else if !InputsAccepted(state.current) || |plan.selectFields| > 64 then None
    else
      var records :- LoadRecords(state.current);
      Some(Stored(state, RecordSet("select_fields", SelectFields(records, plan.selectFields))))
  }

  function DeriveStep(plan: Plan, state: ChainState): Option<ChainState> {
    if plan.derivations == [] then Some(state)
    else if !InputsAccepted(state.current) || !DerivationsAccepted(plan) then None
    else
      var records :- LoadRecords(state.current);
      var derived :- DeriveFields(records, plan.derivations);
      Some(Stored(state, RecordSet("derive_fields", derived)))
  }

  function AggregateStep(plan: Plan, state: ChainState): Option<ChainState> {
    if plan.aggregations == [] then Some(state)
    else if !InputsAccepted(state.current) || !AggregationsAccepted(plan) then None
    else
      var records :- LoadRecords(state.current);
      var rows :- AggregateRecords(records, plan.aggregations, plan.groupBy);
      Some(Stored(state, Obj(GroupSet(plan, rows))))
  }

  function TopKStep(plan: Plan, state: ChainState): Option<ChainState>
    requires plan.orderBy != [] ==> plan.limit.Some?
  {
    if plan.orderBy == [] then Some(state)
    else if !InputsAccepted(state.current) || |plan.orderBy| > 16 then None
    else
      var records :- LoadRecords(state.current);
      Some(Stored(state, RecordSet("top_k_records", TopKRecords(records, plan.orderBy, plan.limit.value))))
  }

  /** The steps that leave records: filter, select, derive. */
  function RecordSteps(plan: Plan, inputs: seq<Json>): Option<ChainState>
    requires ValidPredicates(plan)
  {
    var filtered :- FilterStep(plan, ChainState(inputs, []));
    var selected :- SelectStep(plan, filtered);
    DeriveStep(plan, selected)
  }

  function Chain(plan: Plan, inputs: seq<Json>): Option<seq<Json>>
    requires ValidPredicates(plan) && (plan.orderBy != [] ==> plan.limit.Some?)
  {
    var derived :- RecordSteps(plan, inputs);
    var aggregated :- AggregateStep(plan, derived);
    var ranked :- TopKStep(plan, aggregated);
    Some(ranked.chain)
  }

  method ProcessRecords(plan: Plan, inputs: seq<Json>) returns (result: Option<ChainState>)
    requires ValidPredicates(plan)
    ensures result == RecordSteps(plan, inputs)
  {
    var current, chain: seq<Json> := inputs, [];
    if plan.predicates != [] {
      if !InputsAccepted(current) || |plan.predicates| > 32 { return None; }
      var records := LoadRecords(current);
      if records.None? { return None; }
      var payload := RecordSet("filter_records", FilterRecords(records.value, plan.predicates, plan.matchAll));
      chain := chain + [payload];
      current := [payload];
    }
    assert FilterStep(plan, ChainState(inputs, [])) == Some(ChainState(current, chain));
    ghost var state := ChainState(current, chain);
    if plan.selectFields != [] {
      if !InputsAccepted(current) || |plan.selectFields| > 64 { return None; }
      var records := LoadRecords(current);
      if records.None? { return None; }
      var selected := SelectByLoop(records.value, plan.selectFields);
      chain := chain + [RecordSet("select_fields", selected)];
      current := [RecordSet("select_fields", selected)];
    }
    assert SelectStep(plan, state) == Some(ChainState(current, chain));
    state := ChainState(current, chain);
    if plan.derivations != [] {
      if !InputsAccepted(current) || !DerivationsAccepted(plan) { return None; }
      var records := LoadRecords(current);
      if records.None? { return None; }
      var derived := DeriveByLoop(records.value, plan.derivations);
      if derived.None? { return None; }
      chain := chain + [RecordSet("derive_fields", derived.value)];
      current := [RecordSet("derive_fields", derived.value)];
    }
    result := Some(ChainState(current, chain));
  }

  /** The inner `process` of `execute_structured_reference`: `current` is reassigned, `chain` appended to. */
  method ProcessShard(plan: Plan, inputs: seq<Json>) returns (result: Option<seq<Json>>)
    requires ValidPredicates(plan) && ValidateProjection(plan)
    ensures result == Chain(plan, inputs)
  {
    var prepared := ProcessRecords(plan, inputs);
    if prepared.None? { return None; }
    var current, chain := prepared.value.current, prepared.value.chain;
    ghost var state := prepared.value;
    if plan.aggregations != [] {
      if !InputsAccepted(current) || !AggregationsAccepted(plan) { return None; }
      var records := LoadRecords(current);
      if records.None? { return None; }
      var rows := AggregateByLoop(records.value, plan.aggregations, plan.groupBy);
      if rows.None? { return None; }
      chain := chain + [Obj(GroupSet(plan, rows.value))];
      current := [Obj(GroupSet(plan, rows.value))];
    }
    assert AggregateStep(plan, state) == Some(ChainState(current, chain));
    state := ChainState(current, chain);
    if plan.orderBy != [] {
      if !InputsAccepted(current) || |plan.orderBy| > 16 { return None; }
      var records := LoadRecords(current);
      if records.None? { return None; }
      chain := chain + [RecordSet("top_k_records", TopKRecords(records.value, plan.orderBy, plan.limit.value))];
    }
    result := Some(chain);
  }

  // ---------- what the chain computes ----------

  function Kept(plan: Plan, records: seq<Record>): seq<Record>
    requires ValidPredicates(plan)
  {
    if plan.predicates == [] then records else FilterRecords(records, plan.predicates, plan.matchAll)
  }

  lemma NoDerivations(records: seq<Record>)
    ensures DeriveFields(records, []) == Some(records)
  {
    if records != [] {
      NoDerivations(records[1..]);
      assert records == [records[0]] + records[1..];
    }
  }

  /** The records that reach aggregation or ranking. */
  function Prepared(plan: Plan, records: seq<Record>): Option<seq<Record>>
    requires ValidPredicates(plan)
  {
    DeriveFields(MaybeSelect(plan, Kept(plan, records)), plan.derivations)
  }

  /** The requests of the chain are accepted. */
  predicate Accepted(plan: Plan, inputs: seq<Json>) {
    PlanAccepted(plan) && InputsAccepted(inputs)
  }

  /** The state hands on the records as inputs that the next request accepts. */
  predicate HandsOn(state: ChainState, records: seq<Record>) {
    InputsAccepted(state.current) && LoadRecords(state.current) == Some(records)
  }

  lemma FilterHandsOn(plan: Plan, state: ChainState, records: seq<Record>)
    requires ValidPredicates(plan) && |plan.predicates| <= 32 && HandsOn(state, records)
    ensures FilterStep(plan, state).Some? && HandsOn(FilterStep(plan, state).value, Kept(plan, records))
  {
    RecordSetReloads("filter_records", Kept(plan, records));
  }

  lemma SelectHandsOn(plan: Plan, state: ChainState, records: seq<Record>)
    requires |plan.selectFields| <= 64 && HandsOn(state, records)
    ensures SelectStep(plan, state).Some? && HandsOn(SelectStep(plan, state).value, MaybeSelect(plan, records))
  {
    RecordSetReloads("select_fields", MaybeSelect(plan, records));
  }

  lemma DeriveHandsOn(plan: Plan, state: ChainState, records: seq<Record>)
    requires DerivationsAccepted(plan) && HandsOn(state, records)
    ensures
      var next, derived := DeriveStep(plan, state), DeriveFields(records, plan.derivations);
      && next.Some? == derived.Some?
      && (next.Some? ==> HandsOn(next.value, derived.value))
  {
    NoDerivations(records);
    var derived := DeriveFields(records, plan.derivations);
    if derived.Some? { RecordSetReloads("derive_fields", derived.value); }
  }

  /** Up to the derivation, the chain hands on the filtered, projected and derived records. */
  lemma ChainPrefix(plan: Plan, inputs: seq<Json>, records: seq<Record>)
    requires ValidPredicates(plan) && Accepted(plan, inputs) && LoadRecords(inputs) == Some(records)
    ensures
      var steps, prepared := RecordSteps(plan, inputs), Prepared(plan, records);
      && steps.Some? == prepared.Some?
      && (steps.Some? ==> HandsOn(steps.value, prepared.value))
  {
    var start := ChainState(inputs, []);
    FilterHandsOn(plan, start, records);
    var filtered := FilterStep(plan, start).value;
    SelectHandsOn(plan, filtered, Kept(plan, records));
    DeriveHandsOn(plan, SelectStep(plan, filtered).value, MaybeSelect(plan, Kept(plan, records)));
  }

  lemma RefusedPrefix(plan: Plan, inputs: seq<Json>)
    requires ValidPredicates(plan) && RecordSteps(plan, inputs).Some?
    ensures |plan.predicates| <= 32 && |plan.selectFields| <= 64
    ensures DerivationsAccepted(plan)
    ensures RecordSteps(plan, inputs).value.current == inputs || InputsAccepted(inputs)
  {
    if plan.derivations == [] { assert OutputList(plan.derivations) == []; }
  }

  /** A request that is refused ends the chain. */
  lemma RefusedChainFails(plan: Plan, inputs: seq<Json>)
    requires ValidPredicates(plan) && ValidateProjection(plan) && !Accepted(plan, inputs)
    ensures Chain(plan, inputs).None?
  {
    if RecordSteps(plan, inputs).Some? { RefusedPrefix(plan, inputs); }
  }

  /** A ranking plan stores the ranked records; it fails when a request is refused or a derivation fails. */
  lemma ChainRanks(plan: Plan, inputs: seq<Json>, records: seq<Record>)
    requires ValidPredicates(plan) && ValidateProjection(plan) && plan.aggregations == []
    requires LoadRecords(inputs) == Some(records)
    ensures
      var chain, ranked := Chain(plan, inputs), RankedRecords(plan, Kept(plan, records));
      && (chain.Some? <==> Accepted(plan, inputs) && ranked.Some?)
      && (chain.Some? ==> chain.value != [] && LoadPayload(chain.value[|chain.value| - 1]) == ranked)
  {
    if Accepted(plan, inputs) {
      ChainPrefix(plan, inputs, records);
      var ranked := RankedRecords(plan, Kept(plan, records));
      if ranked.Some? {
        RecordSetReloads("top_k_records", ranked.value);
        LoadOne(RecordSet("top_k_records", ranked.value));
      }
    } else {
      RefusedChainFails(plan, inputs);
    }
  }

  /** An aggregating plan without ordering stores the aggregated rows. */
  lemma ChainAggregates(plan: Plan, inputs: seq<Json>, records: seq<Record>)
    requires ValidPredicates(plan) && ValidateProjection(plan) && plan.orderBy == []
    requires LoadRecords(inputs) == Some(records)
    ensures
      var chain, rows := Chain(plan, inputs), AggregatedRows(plan, Kept(plan, records));
      && (chain.Some? <==> Accepted(plan, inputs) && rows.Some?)
      && (chain.Some? ==> chain.value != [] && chain.value[|chain.value| - 1] == Obj(GroupSet(plan, rows.value)))
  {
    if Accepted(plan, inputs) {
      ChainPrefix(plan, inputs, records);
    } else {
      RefusedChainFails(plan, inputs);
    }
  }

  /**
   Ordering after an aggregation ranks the single stored envelope: the rows keep their group order, none is dropped.
   */
  lemma OrderingIgnoresGroups(plan: Plan, inputs: seq<Json>, records: seq<Record>)
    requires ValidPredicates(plan) && ValidateProjection(plan) && plan.orderBy != [] && plan.aggregations != []
    requires LoadRecords(inputs) == Some(records)
    ensures
      var chain, rows := Chain(plan, inputs), AggregatedRows(plan, Kept(plan, records));
      && (chain.Some? <==> Accepted(plan, inputs) && rows.Some?)
      && (chain.Some? ==>
            && chain.value != []
            && LoadPayload(chain.value[|chain.value| - 1]) == Some([GroupSet(plan, rows.value)]))
  {
    if !Accepted(plan, inputs) {
      RefusedChainFails(plan, inputs);
    } else {
      ChainPrefix(plan, inputs, records);
      var rows := AggregatedRows(plan, Kept(plan, records));
      if rows.Some? {
        var envelope := GroupSet(plan, rows.value);
        GroupSetReloads(plan, rows.value);
        TopOfOne(envelope, plan.orderBy, plan.limit.value);
        RecordSetReloads("top_k_records", [envelope]);
        LoadOne(RecordSet("top_k_records", [envelope]));
      }
    }
  }

  // ---------- all that the chain stores ----------

  /** The operators that have work in the plan, in the order in which they run. */
  ghost function OperatorsOf(plan: Plan): seq<string> {
    (if plan.predicates != [] then ["filter_records"] else [])
    + (if plan.selectFields != [] then ["select_fields"] else [])
    + (if plan.derivations != [] then ["derive_fields"] else [])
    + (if plan.aggregations != [] then ["aggregate_records"] else [])
    + (if plan.orderBy != [] then ["top_k_records"] else [])
  }

  /** The payload names its operator and holds its rows under `groups` after an aggregation, else under `records`. */
  ghost predicate StoredBy(payload: Json, operator: string) {
    && payload.Obj? && "operator" in payload.fields && "schema_version" in payload.fields
    && payload.fields["operator"] == Str(operator)
    && (if operator == "aggregate_records" then
          payload.fields["schema_version"] == Str("generic-record-aggregation-v1") && "groups" in payload.fields
        else
          payload.fields["schema_version"] == Str("generic-record-set-v1") && "records" in payload.fields)
  }

  ghost predicate StoredInOrder(payloads: seq<Json>, operators: seq<string>) {
    |payloads| == |operators| && forall i :: 0 <= i < |payloads| ==> StoredBy(payloads[i], operators[i])
  }

  /** The step stores nothing without work and otherwise one payload, which its operator names. */
  ghost predicate StoresOne(before: ChainState, after: ChainState, works: bool, operator: string) {
    if works then
      && |after.chain| == |before.chain| + 1 && after.chain[..|before.chain|] == before.chain
      && StoredBy(after.chain[|before.chain|], operator)
    else after.chain == before.chain
  }

  lemma StepsStoreOne(plan: Plan, state: ChainState)
    requires ValidPredicates(plan) && ValidateProjection(plan)
    ensures FilterStep(plan, state).Some? ==>
              StoresOne(state, FilterStep(plan, state).value, plan.predicates != [], "filter_records")
    ensures SelectStep(plan, state).Some? ==>
              StoresOne(state, SelectStep(plan, state).value, plan.selectFields != [], "select_fields")
    ensures DeriveStep(plan, state).Some? ==>
              StoresOne(state, DeriveStep(plan, state).value, plan.derivations != [], "derive_fields")
    ensures AggregateStep(plan, state).Some? ==>
              StoresOne(state, AggregateStep(plan, state).value, plan.aggregations != [], "aggregate_records")
    ensures TopKStep(plan, state).Some? ==>
              StoresOne(state, TopKStep(plan, state).value, plan.orderBy != [], "top_k_records")
  {
  }

  lemma StoresNext(before: ChainState, after: ChainState, works: bool, operator: string, operators: seq<string>)
    requires StoredInOrder(before.chain, operators) && StoresOne(before, after, works, operator)
    ensures StoredInOrder(after.chain, operators + if works then [operator] else [])
  {
    var named := operators + if works then [operator] else [];
    forall i | 0 <= i < |after.chain|
      ensures StoredBy(after.chain[i], named[i])
    {
      assert i < |before.chain| ==> after.chain[i] == before.chain[i];
    }
  }

  /** A chain that succeeds stores one payload for each operator with work, in their order. */
  lemma ChainStoresEach(plan: Plan, inputs: seq<Json>)
    requires ValidPredicates(plan) && ValidateProjection(plan) && Chain(plan, inputs).Some?
    ensures StoredInOrder(Chain(plan, inputs).value, OperatorsOf(plan))
  {
    var start := ChainState(inputs, []);
    var filtered := FilterStep(plan, start).value;
    var selected := SelectStep(plan, filtered).value;
    var derived := DeriveStep(plan, selected).value;
    var aggregated := AggregateStep(plan, derived).value;
    StepsStoreOne(plan, start);
    StepsStoreOne(plan, filtered);
    StepsStoreOne(plan, selected);
    StepsStoreOne(plan, derived);
    StepsStoreOne(plan, aggregated);
    StoresInTurn(plan, start, filtered, selected, derived, aggregated, TopKStep(plan, aggregated).value);
  }

  lemma StoresInTurn(plan: Plan, start: ChainState, filtered: ChainState, selected: ChainState, derived: ChainState,
                     aggregated: ChainState, ranked: ChainState)
    requires start.chain == []
    requires StoresOne(start, filtered, plan.predicates != [], "filter_records")
    requires StoresOne(filtered, selected, plan.selectFields != [], "select_fields")
    requires StoresOne(selected, derived, plan.derivations != [], "derive_fields")
    requires StoresOne(derived, aggregated, plan.aggregations != [], "aggregate_records")
    requires StoresOne(aggregated, ranked, plan.orderBy != [], "top_k_records")
    ensures StoredInOrder(ranked.chain, OperatorsOf(plan))
  {
    var names := if plan.predicates != [] then ["filter_records"] else [];
    StoresNext(start, filtered, plan.predicates != [], "filter_records", []);
    assert [] + names == names;
    StoresNext(filtered, selected, plan.selectFields != [], "select_fields", names);
    names := names + if plan.selectFields != [] then ["select_fields"] else [];
    StoresNext(selected, derived, plan.derivations != [], "derive_fields", names);
    names := names + if plan.derivations != [] then ["derive_fields"] else [];
    StoresNext(derived, aggregated, plan.aggregations != [], "aggregate_records", names);
    names := names + if plan.aggregations != [] then ["aggregate_records"] else [];
    StoresNext(aggregated, ranked, plan.orderBy != [], "top_k_records", names);
  }

  /** The limits and uniqueness rules of the requests that the plan makes. */
  ghost predicate WithinLimits(plan: Plan, inputs: seq<Json>) {
    && 1 <= |inputs| <= 128
    && |plan.predicates| <= 32 && |plan.selectFields| <= 64 && |plan.derivations| <= 32 && |plan.orderBy| <= 16
    && (forall i, j :: 0 <= i < j < |plan.derivations| ==> plan.derivations[i].output != plan.derivations[j].output)
    && (plan.aggregations != [] ==>
          && |plan.aggregations| <= 32 && |plan.groupBy| <= 16
          && (forall i, j :: 0 <= i < j < |plan.aggregations| ==>
                plan.aggregations[i].output != plan.aggregations[j].output)
          && (forall a <- plan.aggregations :: a.output !in plan.groupBy))
  }

  lemma LimitsAreAccepted(plan: Plan, inputs: seq<Json>)
    ensures Accepted(plan, inputs) <==> WithinLimits(plan, inputs)
  {
    var outputs := OutputList(plan.derivations);
    assert forall i :: 0 <= i < |outputs| ==> outputs[i] == plan.derivations[i].output;
  }

  /**
   On inputs that hold records, the chain succeeds exactly within the limits of its requests and when every
   derivation and aggregation finds the values it needs.
   */
  lemma ChainSucceedsExactly(plan: Plan, inputs: seq<Json>, records: seq<Record>)
    requires ValidPredicates(plan) && ValidateProjection(plan) && LoadRecords(inputs) == Some(records)
    ensures
      var derived := DeriveFields(MaybeSelect(plan, Kept(plan, records)), plan.derivations);
      Chain(plan, inputs).Some? <==>
        (&& WithinLimits(plan, inputs) && derived.Some?
         && (plan.aggregations == [] || AggregateRecords(derived.value, plan.aggregations, plan.groupBy).Some?))
  {
    LimitsAreAccepted(plan, inputs);
    if plan.aggregations == [] {
      ChainRanks(plan, inputs, records);
    } else if plan.orderBy == [] {
      ChainAggregates(plan, inputs, records);
    } else {
      OrderingIgnoresGroups(plan, inputs, records);
    }
  }

  /** A payload that is no object or array, or that lists something else than objects, fails the chain. */
  lemma UnreadableFails(plan: Plan, inputs: seq<Json>)
    requires ValidPredicates(plan) && ValidateProjection(plan) && LoadRecords(inputs).None?
    ensures Chain(plan, inputs).None?
  {
  }

  /** The records of a payload. */
  ghost predicate Holds(payload: Json, records: seq<Record>) {
    match payload
    case Obj(fields) =>
      if "records" in fields then fields["records"] == Arr(Objects(records)) else records == [fields]
    case Arr(items) => items == Objects(records)
    case _ => false
  }

  lemma {:induction false} ObjectsOnly(items: seq<Json>, records: seq<Record>)
    ensures RecordsIn(items) == Some(records) <==> items == Objects(records)
  {
    ObjectsReload(records);
    if items != [] && RecordsIn(items).Some? {
      var read := RecordsIn(items).value;
      ObjectsOnly(items[1..], read[1..]);
      assert items == [items[0]] + items[1..] && Objects(read) == [Obj(read[0])] + Objects(read[1..]);
    }
  }

  /** A payload reads as exactly the records it holds: those of its envelope, of its list, or itself. */
  lemma PayloadHolds(payload: Json, records: seq<Record>)
    ensures LoadPayload(payload) == Some(records) <==> Holds(payload, records)
  {
    match payload
    case Obj(fields) =>
      if "records" in fields {
        if fields["records"].Arr? { ObjectsOnly(fields["records"].items, records); }
      } else {
        assert [payload][1..] == [] && [payload][0] == Obj(fields);
        assert RecordsIn([payload]) == Some([fields] + []) && [fields] + [] == [fields];
      }
    case Arr(items) => ObjectsOnly(items, records);
    case _ =>
  }

  // ---------- reading an aggregation envelope ----------

  /** The aggregation that an operation name and a field, null when there is none, ask for. */
  function OperationOf(name: string, field: Json): Option<Operation> {
    match field
    case Null => if name == "count" then Some(CountRows) else None
    case Str(f) =>
      if name == "count" then Some(Count(f))
      else if name == "count_distinct" then Some(CountDistinct(f))
      else if name == "sum" then Some(Sum(f))
      else if name == "min" then Some(Min(f))
      else if name == "max" then Some(Max(f))
      else None
    case _ => None
  }

  function AggregationOf(v: Json): Option<RecordAggregation> {
    if v.Obj? && v.fields.Keys == {"output_field", "operation", "field"}
       && v.fields["output_field"].Str? && v.fields["operation"].Str?
    then
      var operation :- OperationOf(v.fields["operation"].s, v.fields["field"]);
      Some(RecordAggregation(v.fields["output_field"].s, operation))
    else None
  }

  /** The envelope of an aggregation tells what was asked for and holds the rows that were computed. */
  lemma EnvelopeTells(plan: Plan, rows: seq<Record>)
    ensures
      var envelope := GroupSet(plan, rows);
      && envelope.Keys == {"schema_version", "operator", "group_by", "aggregations", "groups"}
      && LoadPayload(envelope["groups"]) == Some(rows)
      && envelope["group_by"].Arr? && |envelope["group_by"].items| == |plan.groupBy|
      && (forall i :: 0 <= i < |plan.groupBy| ==> envelope["group_by"].items[i] == Str(plan.groupBy[i]))
      && envelope["aggregations"].Arr? && |envelope["aggregations"].items| == |plan.aggregations|
      && (forall i :: 0 <= i < |plan.aggregations| ==>
            AggregationOf(envelope["aggregations"].items[i]) == Some(plan.aggregations[i]))
  {
    ObjectsReload(rows);
    forall i | 0 <= i < |plan.aggregations|
      ensures AggregationOf(AggregationObject(plan.aggregations[i])) == Some(plan.aggregations[i])
    {
      AggregationReloads(plan.aggregations[i]);
    }
  }

  lemma AggregationReloads(a: RecordAggregation)
    ensures AggregationOf(AggregationObject(a)) == Some(a)
  {
    assert AggregationObject(a).fields.Keys == {"output_field", "operation", "field"};
  }
}
