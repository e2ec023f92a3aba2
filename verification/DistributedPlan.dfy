/**
 The distributed run of a structured plan: the shards of each Worker go through its chain, and the last artifact of
 each chain goes to the final stage.
 */
module DistributedPlan {
  import opened Json
  import opened Options
  import opened Sequences
  import opened Records
  import opened Predicates
  import opened Aggregation
  import opened Grouping
  import opened ShardMerge
  import opened AggregateOrder
  import opened TopK
  import opened Projection
  import opened StructuredPlan
  import opened RankingPushdown
  import opened WorkerChain

  // ---------- the shards of each Worker ----------

  const SHARD_WORKERS: seq<string> := ["a4", "a5", "a28"]

  /** The shards given to one Worker, in order. */
  function ShardsOf(shards: seq<Json>, workers: seq<string>, worker: string): seq<Json>
    requires |shards| == |workers|
  {
    if shards == [] then []
    else
      var n := |shards| - 1;
      ShardsOf(shards[..n], workers[..n], worker) + (if workers[n] == worker then [shards[n]] else [])
  }

  /** One Worker for each shard, and only Workers that take shards. */
  predicate Assignable(shards: seq<Json>, workers: seq<string>) {
    |shards| == |workers| && forall w <- workers :: w in SHARD_WORKERS
  }

  /** `zip(strict=True)` and the `by_worker` lookup fail on a length mismatch or an unknown Worker. */
  method AssignShards(shards: seq<Json>, workers: seq<string>) returns (result: Option<map<string, seq<Json>>>)
    ensures result.Some? <==> Assignable(shards, workers)
    ensures result.Some? ==> forall w <- SHARD_WORKERS ::
              w in result.value && result.value[w] == ShardsOf(shards, workers, w)
  {
    if |shards| != |workers| {
      return None;
    }
    var byWorker: map<string, seq<Json>> := map w | w in SHARD_WORKERS :: [];
    for i := 0 to |shards|
      invariant byWorker.Keys == Elements(SHARD_WORKERS)
      invariant forall w <- workers[..i] :: w in SHARD_WORKERS
      invariant forall w <- byWorker :: byWorker[w] == ShardsOf(shards[..i], workers[..i], w)
    {
      assert shards[..i + 1][..i] == shards[..i] && workers[..i + 1][..i] == workers[..i];
      if workers[i] !in byWorker {
        assert workers[i] in workers;
        return None;
      }
      byWorker := byWorker[workers[i] := byWorker[workers[i]] + [shards[i]]];
    }
    assert shards[..|shards|] == shards && workers[..|shards|] == workers;
    result := Some(byWorker);
  }

  /** The places of a Worker's shards, in increasing order and none left out. */
  ghost predicate PlacesOf(places: seq<nat>, workers: seq<string>, worker: string) {
    && (forall k :: 0 <= k < |places| ==> places[k] < |workers| && workers[places[k]] == worker)
    && (forall k, l :: 0 <= k < l < |places| ==> places[k] < places[l])
    && (forall i :: 0 <= i < |workers| && workers[i] == worker ==> i in places)
  }

  /** A Worker gets exactly the shards that name it, in the order in which they are given. */
  lemma {:induction false} ShardsKeepOrder(shards: seq<Json>, workers: seq<string>, worker: string)
    returns (places: seq<nat>)
    requires |shards| == |workers|
    ensures PlacesOf(places, workers, worker) && |places| == |ShardsOf(shards, workers, worker)|
    ensures forall k :: 0 <= k < |places| ==> ShardsOf(shards, workers, worker)[k] == shards[places[k]]
  {
    places := [];
    if shards != [] {
      var n := |shards| - 1;
      places := ShardsKeepOrder(shards[..n], workers[..n], worker);
      assert forall i :: 0 <= i < n ==> workers[..n][i] == workers[i];
      if workers[n] == worker {
        OneMorePlace(places, workers, worker);
        places := places + [n];
      }
    }
  }

  lemma OneMorePlace(places: seq<nat>, workers: seq<string>, worker: string)
    requires workers != [] && workers[|workers| - 1] == worker
    requires PlacesOf(places, workers[..|workers| - 1], worker)
    ensures PlacesOf(places + [|workers| - 1], workers, worker)
  {
    var n := |workers| - 1;
    forall i | 0 <= i < |workers| && workers[i] == worker
      ensures i in places + [n]
    {
      assert i < n ==> workers[..n][i] == worker;
      assert (places + [n])[|places|] == n;
    }
  }

  // ---------- the inputs of the final stage ----------

  /** The payload that ends the chain; reading it from an empty chain would be an error. */
  function LastOf(plan: Plan, inputs: seq<Json>): Option<Json>
    requires ValidPredicates(plan) && ValidateProjection(plan)
  {
    var chain :- Chain(plan, inputs);
    if chain == [] then None else Some(chain[|chain| - 1])
  }

  /** How the chains of the named Workers end. */
  function Lasts(plan: Plan, shards: seq<Json>, workers: seq<string>, names: seq<string>): (lasts: seq<Option<Json>>)
    requires ValidPredicates(plan) && ValidateProjection(plan) && |shards| == |workers|
    ensures |lasts| == |names|
  {
    seq(|names|, i requires 0 <= i < |names| => LastOf(plan, ShardsOf(shards, workers, names[i])))
  }

  function FinalInputs(plan: Plan, shards: seq<Json>, workers: seq<string>): Option<seq<Json>>
    requires ValidPredicates(plan) && ValidateProjection(plan)
  {
    if !Assignable(shards, workers) then None else Collect(Lasts(plan, shards, workers, SHARD_WORKERS))
  }

  /** The last payload that the chain of one Worker stores for its shards. */
  ghost predicate EndsWith(plan: Plan, shards: seq<Json>, payload: Json)
    requires ValidPredicates(plan) && ValidateProjection(plan)
  {
    Chain(plan, shards).Some? && Chain(plan, shards).value != []
    && payload == Chain(plan, shards).value[|Chain(plan, shards).value| - 1]
  }

  lemma LastIs(plan: Plan, shards: seq<Json>, payload: Json)
    requires ValidPredicates(plan) && ValidateProjection(plan)
    ensures LastOf(plan, shards) == Some(payload) <==> EndsWith(plan, shards, payload)
  {
  }

  lemma CollectThree(a: Option<Json>, b: Option<Json>, c: Option<Json>, values: seq<Json>)
    ensures Collect([a, b, c]) == Some(values) <==>
            |values| == 3 && a == Some(values[0]) && b == Some(values[1]) && c == Some(values[2])
  {
    CollectAll([a, b, c]);
    assert [a, b, c][0] == a && [a, b, c][1] == b && [a, b, c][2] == c;
    if |values| == 3 && a == Some(values[0]) && b == Some(values[1]) && c == Some(values[2]) {
      assert Collect([a, b, c]).value == values;
    }
  }

  lemma FinalStage(plan: Plan, shards: seq<Json>, workers: seq<string>)
    requires ValidPredicates(plan) && ValidateProjection(plan)
    requires |shards| == |workers|
    ensures FinalInputs(plan, shards, workers)
         == if forall w <- workers :: w == "a4" || w == "a5" || w == "a28" then
              Collect([LastOf(plan, ShardsOf(shards, workers, "a4")), LastOf(plan, ShardsOf(shards, workers, "a5")),
                       LastOf(plan, ShardsOf(shards, workers, "a28"))])
            else None
  {
    assert forall w :: w in SHARD_WORKERS <==> w == "a4" || w == "a5" || w == "a28";
    assert Lasts(plan, shards, workers, SHARD_WORKERS)
        == [LastOf(plan, ShardsOf(shards, workers, "a4")), LastOf(plan, ShardsOf(shards, workers, "a5")),
            LastOf(plan, ShardsOf(shards, workers, "a28"))];
  }

  /**
   The final stage starts exactly when each shard is given to one of the three Workers and all three chains end with a
   payload; it gets those payloads in the order of the Workers.
   */
  lemma FinalInputsAre(plan: Plan, shards: seq<Json>, workers: seq<string>, payloads: seq<Json>)
    requires ValidPredicates(plan) && ValidateProjection(plan)
    ensures FinalInputs(plan, shards, workers) == Some(payloads) <==>
            (&& |workers| == |shards| && (forall w <- workers :: w == "a4" || w == "a5" || w == "a28")
             && |payloads| == 3
             && EndsWith(plan, ShardsOf(shards, workers, "a4"), payloads[0])
             && EndsWith(plan, ShardsOf(shards, workers, "a5"), payloads[1])
             && EndsWith(plan, ShardsOf(shards, workers, "a28"), payloads[2]))
  {
    if |workers| != |shards| { return; }
    var a4, a5 := ShardsOf(shards, workers, "a4"), ShardsOf(shards, workers, "a5");
    var a28 := ShardsOf(shards, workers, "a28");
    FinalStage(plan, shards, workers);
    CollectThree(LastOf(plan, a4), LastOf(plan, a5), LastOf(plan, a28), payloads);
    if |payloads| == 3 {
      LastIs(plan, a4, payloads[0]);
      LastIs(plan, a5, payloads[1]);
      LastIs(plan, a28, payloads[2]);
    }
  }

  /** The `distributed_compute` branch of `execute_structured_reference`, one chain after the other. */
  method DistributedCompute(plan: Plan, shards: seq<Json>, workers: seq<string>) returns (result: Option<seq<Json>>)
    requires ValidPredicates(plan) && ValidateProjection(plan)
    ensures result == FinalInputs(plan, shards, workers)
  {
    var byWorker := AssignShards(shards, workers);
    if byWorker.None? { return None; }
    result := ProcessAll(plan, shards, workers, SHARD_WORKERS, byWorker.value);
  }

  /** The chains of the named Workers; one that fails makes the whole fail. */
  method ProcessAll(plan: Plan, ghost shards: seq<Json>, ghost workers: seq<string>, names: seq<string>,
                    byWorker: map<string, seq<Json>>) returns (result: Option<seq<Json>>)
    requires ValidPredicates(plan) && ValidateProjection(plan) && |shards| == |workers|
    requires forall w <- names :: w in byWorker && byWorker[w] == ShardsOf(shards, workers, w)
    ensures result == Collect(Lasts(plan, shards, workers, names))
  {
    var payloads: seq<Json> := [];
    ghost var lasts := Lasts(plan, shards, workers, names);
    for i := 0 to |names|
      invariant Collect(lasts[..i]) == Some(payloads)
    {
      var last := ProcessLast(plan, byWorker[names[i]]);
      assert lasts[i] == last;
      CollectStep(lasts, i);
      if last.None? {
        return None;
      }
      payloads := payloads + [last.value];
    }
    assert lasts[..|names|] == lasts;
    result := Some(payloads);
  }

  method ProcessLast(plan: Plan, inputs: seq<Json>) returns (result: Option<Json>)
    requires ValidPredicates(plan) && ValidateProjection(plan)
    ensures result == LastOf(plan, inputs)
  {
    var chain := ProcessShard(plan, inputs);
    if chain.None? || chain.value == [] { return None; }
    result := Some(chain.value[|chain.value| - 1]);
  }

  // ---------- the records of each Worker ----------

  lemma {:induction false} LoadConcat(a: seq<Json>, b: seq<Json>)
    ensures
      var x, y := LoadRecords(a), LoadRecords(b);
      LoadRecords(a + b) == if x.Some? && y.Some? then Some(x.value + y.value) else None
  {
    if a == [] {
      var y := LoadRecords(b);
      assert a + b == b && (y.Some? ==> [] + y.value == y.value);
    } else {
      assert (a + b)[1..] == a[1..] + b;
      LoadConcat(a[1..], b);
      var d, x, y := LoadPayload(a[0]), LoadRecords(a[1..]), LoadRecords(b);
      assert d.Some? && x.Some? && y.Some? ==> d.value + (x.value + y.value) == (d.value + x.value) + y.value;
    }
  }

  /** The records in the shards of one Worker. */
  function PartOf(shards: seq<Json>, workers: seq<string>, worker: string): seq<Record>
    requires |shards| == |workers|
  {
    var records := LoadRecords(ShardsOf(shards, workers, worker));
    if records.Some? then records.value else []
  }

  function PartsOf(shards: seq<Json>, workers: seq<string>, names: seq<string>): (parts: seq<seq<Record>>)
    requires |shards| == |workers|
    ensures |parts| == |names|
  {
    seq(|names|, i requires 0 <= i < |names| => PartOf(shards, workers, names[i]))
  }

  lemma {:induction false} PartLoads(shards: seq<Json>, workers: seq<string>, worker: string)
    requires |shards| == |workers| && LoadRecords(shards).Some?
    ensures LoadRecords(ShardsOf(shards, workers, worker)) == Some(PartOf(shards, workers, worker))
  {
    if shards != [] {
      var n := |shards| - 1;
      assert shards == shards[..n] + [shards[n]];
      LoadConcat(shards[..n], [shards[n]]);
      PartLoads(shards[..n], workers[..n], worker);
      LoadConcat(ShardsOf(shards[..n], workers[..n], worker), [shards[n]]);
      assert ShardsOf(shards[..n], workers[..n], worker) + [] == ShardsOf(shards[..n], workers[..n], worker);
    }
  }

  /** The last shard adds its records to the part of its Worker. */
  lemma PartStep(shards: seq<Json>, workers: seq<string>, worker: string)
    requires |shards| == |workers| && shards != [] && LoadRecords(shards).Some?
    ensures
      var n := |shards| - 1;
      && LoadRecords(shards[..n]).Some? && LoadPayload(shards[n]).Some?
      && PartOf(shards, workers, worker)
         == PartOf(shards[..n], workers[..n], worker)
            + if workers[n] == worker then LoadPayload(shards[n]).value else []
  {
    var n := |shards| - 1;
    assert shards == shards[..n] + [shards[n]];
    LoadConcat(shards[..n], [shards[n]]);
    LoadOne(shards[n]);
    PartLoads(shards[..n], workers[..n], worker);
    LoadConcat(ShardsOf(shards[..n], workers[..n], worker), [shards[n]]);
    var before := ShardsOf(shards[..n], workers[..n], worker);
    assert before + [] == before;
  }

  lemma {:induction false} ConcatExtended(parts: seq<seq<Record>>, i: nat, more: seq<Record>)
    requires i < |parts|
    ensures multiset(Concat(parts[i := parts[i] + more])) == multiset(Concat(parts)) + multiset(more)
  {
    var extended := parts[i := parts[i] + more];
    if i == 0 {
      assert extended[1..] == parts[1..];
    } else {
      assert extended[1..] == parts[1..][i - 1 := parts[1..][i - 1] + more];
      ConcatExtended(parts[1..], i - 1, more);
    }
  }

  lemma {:induction false} EmptyParts(names: seq<string>)
    ensures Concat(PartsOf([], [], names)) == []
  {
    if names != [] {
      EmptyParts(names[1..]);
      assert PartsOf([], [], names)[1..] == PartsOf([], [], names[1..]);
    }
  }

  /** The parts of all Workers hold the records of all shards. */
  lemma {:induction false} PartsHoldAll(shards: seq<Json>, workers: seq<string>, names: seq<string>)
    requires |shards| == |workers| && NoDuplicates(names) && (forall w <- workers :: w in names)
    requires LoadRecords(shards).Some?
    ensures multiset(Concat(PartsOf(shards, workers, names))) == multiset(LoadRecords(shards).value)
  {
    if shards == [] {
      EmptyParts(names);
    } else {
      var n := |shards| - 1;
      assert shards == shards[..n] + [shards[n]] && workers[n] in workers;
      LoadConcat(shards[..n], [shards[n]]);
      LoadOne(shards[n]);
      PartsHoldAll(shards[..n], workers[..n], names);
      var i :| 0 <= i < |names| && names[i] == workers[n];
      var before, more := PartsOf(shards[..n], workers[..n], names), LoadPayload(shards[n]).value;
      PartsStep(shards, workers, names, i);
      ConcatExtended(before, i, more);
    }
  }

  lemma PartsStep(shards: seq<Json>, workers: seq<string>, names: seq<string>, i: nat)
    requires |shards| == |workers| && shards != [] && LoadRecords(shards).Some?
    requires NoDuplicates(names) && i < |names| && names[i] == workers[|shards| - 1]
    requires LoadPayload(shards[|shards| - 1]).Some?
    ensures
      var n := |shards| - 1;
      var before := PartsOf(shards[..n], workers[..n], names);
      PartsOf(shards, workers, names) == before[i := before[i] + LoadPayload(shards[n]).value]
  {
    var n := |shards| - 1;
    var before := PartsOf(shards[..n], workers[..n], names);
    forall j | 0 <= j < |names|
      ensures PartsOf(shards, workers, names)[j] == before[i := before[i] + LoadPayload(shards[n]).value][j]
    {
      PartStep(shards, workers, names[j]);
      if j != i { assert names[j] != names[i]; }
    }
  }

  // ---------- preparing records shard by shard ----------

  lemma {:induction false} DeriveConcat(a: seq<Record>, b: seq<Record>, derivations: seq<RecordDerivation>)
    ensures
      var x, y := DeriveFields(a, derivations), DeriveFields(b, derivations);
      DeriveFields(a + b, derivations) == if x.Some? && y.Some? then Some(x.value + y.value) else None
  {
    if a == [] {
      assert a + b == b;
      var y := DeriveFields(b, derivations);
      assert y.Some? ==> [] + y.value == y.value;
    } else {
      assert (a + b)[1..] == a[1..] + b;
      DeriveConcat(a[1..], b, derivations);
      var d, x, y := Derive(a[0], derivations), DeriveFields(a[1..], derivations), DeriveFields(b, derivations);
      assert d.Some? && x.Some? && y.Some? ==> [d.value] + (x.value + y.value) == ([d.value] + x.value) + y.value;
    }
  }

  lemma KeptConcat(plan: Plan, a: seq<Record>, b: seq<Record>)
    requires ValidPredicates(plan)
    ensures Kept(plan, a + b) == Kept(plan, a) + Kept(plan, b)
  {
    if plan.predicates != [] { FilterKeepsOrder(a, b, plan.predicates, plan.matchAll); }
  }

  lemma SelectConcat(plan: Plan, a: seq<Record>, b: seq<Record>)
    ensures MaybeSelect(plan, a + b) == MaybeSelect(plan, a) + MaybeSelect(plan, b)
  {
    assert SelectFields(a + b, plan.selectFields)
        == SelectFields(a, plan.selectFields) + SelectFields(b, plan.selectFields);
  }

  lemma PreparedConcat(plan: Plan, a: seq<Record>, b: seq<Record>)
    requires ValidPredicates(plan)
    ensures
      var x, y := Prepared(plan, a), Prepared(plan, b);
      Prepared(plan, a + b) == if x.Some? && y.Some? then Some(x.value + y.value) else None
  {
    KeptConcat(plan, a, b);
    SelectConcat(plan, Kept(plan, a), Kept(plan, b));
    DeriveConcat(MaybeSelect(plan, Kept(plan, a)), MaybeSelect(plan, Kept(plan, b)), plan.derivations);
  }

  lemma PreparedAround(plan: Plan, a: seq<Record>, r: Record, b: seq<Record>)
    requires ValidPredicates(plan)
    ensures
      var x, y := Prepared(plan, [r]), Prepared(plan, a + b);
      var all := Prepared(plan, a + [r] + b);
      && (all.Some? <==> x.Some? && y.Some?)
      && (all.Some? ==> multiset(all.value) == multiset(x.value) + multiset(y.value))
  {
    PreparedConcat(plan, a, [r]);
    PreparedConcat(plan, a + [r], b);
    PreparedConcat(plan, a, b);
  }

  /** The same records in another order are prepared to the same records in another order. */
  lemma {:induction false} PreparedPermutes(plan: Plan, a: seq<Record>, b: seq<Record>)
    requires ValidPredicates(plan) && multiset(a) == multiset(b)
    ensures
      var x, y := Prepared(plan, a), Prepared(plan, b);
      && x.Some? == y.Some?
      && (x.Some? ==> multiset(x.value) == multiset(y.value))
  {
    if a == [] {
      assert |multiset(b)| == |b|;
    } else {
      var i := FirstElsewhere(a, b);
      assert a == [] + [a[0]] + a[1..] && [] + a[1..] == a[1..];
      PreparedPermutes(plan, a[1..], b[..i] + b[i + 1..]);
      PreparedAround(plan, [], a[0], a[1..]);
      PreparedAround(plan, b[..i], b[i], b[i + 1..]);
    }
  }

  function PreparedParts(plan: Plan, parts: seq<seq<Record>>): (prepared: seq<Option<seq<Record>>>)
    requires ValidPredicates(plan)
    ensures |prepared| == |parts|
  {
    seq(|parts|, i requires 0 <= i < |parts| => Prepared(plan, parts[i]))
  }

  function PreparedShards(plan: Plan, parts: seq<seq<Record>>): Option<seq<seq<Record>>>
    requires ValidPredicates(plan)
  {
    Collect(PreparedParts(plan, parts))
  }

  lemma {:induction false} PreparedOfShards(plan: Plan, parts: seq<seq<Record>>)
    requires ValidPredicates(plan)
    ensures
      var prepared := PreparedShards(plan, parts);
      Prepared(plan, Concat(parts)) == if prepared.Some? then Some(Concat(prepared.value)) else None
  {
    if parts == [] {
      NoDerivations([]);
    } else {
      CollectFront(PreparedParts(plan, parts));
      assert PreparedParts(plan, parts)[1..] == PreparedParts(plan, parts[1..]);
      PreparedOfShards(plan, parts[1..]);
      PreparedConcat(plan, parts[0], Concat(parts[1..]));
    }
  }

  /** The requests of the chains are accepted: each of the Workers has between 1 and 128 shards. */
  predicate AcceptedFor(plan: Plan, shards: seq<Json>, workers: seq<string>, names: seq<string>)
    requires |shards| == |workers|
  {
    forall i :: 0 <= i < |names| ==> Accepted(plan, ShardsOf(shards, workers, names[i]))
  }

  predicate AllAccepted(plan: Plan, shards: seq<Json>, workers: seq<string>)
    requires |shards| == |workers|
  {
    AcceptedFor(plan, shards, workers, SHARD_WORKERS)
  }

  // ---------- ranking plans ----------

  /** Ranking the ranked parts gives the ranking of all records. */
  lemma RankingOfParts(plan: Plan, parts: seq<seq<Record>>)
    requires ValidPredicates(plan) && plan.limit.Some?
    ensures
      var whole, prepared := RankedRecords(plan, Kept(plan, Concat(parts))), PreparedShards(plan, parts);
      && whole.Some? == prepared.Some?
      && (whole.Some? ==>
            whole.value == TopKRecords(Concat(TopKPerShard(prepared.value, plan.orderBy, plan.limit.value)),
                                       plan.orderBy, plan.limit.value))
  {
    PreparedOfShards(plan, parts);
    var prepared := PreparedShards(plan, parts);
    if prepared.Some? { TopKOfShards(prepared.value, plan.orderBy, plan.limit.value); }
  }

  /** The ranking does not depend on the order of the records. */
  lemma RankingPermutes(plan: Plan, a: seq<Record>, b: seq<Record>)
    requires ValidPredicates(plan) && plan.limit.Some? && multiset(a) == multiset(b)
    ensures RankedRecords(plan, Kept(plan, a)) == RankedRecords(plan, Kept(plan, b))
  {
    PreparedPermutes(plan, a, b);
    var x, y := Prepared(plan, a), Prepared(plan, b);
    if x.Some? { TopKOfPermutation(x.value, y.value, plan.orderBy, plan.limit.value); }
  }

  lemma {:induction false} RankedPayloadsLoad(payloads: seq<Json>, prepared: seq<seq<Record>>, orderBy: seq<RecordSort>,
                                              limit: nat)
    requires |payloads| == |prepared|
    requires forall i :: 0 <= i < |payloads| ==>
      LoadPayload(payloads[i]) == Some(TopKRecords(prepared[i], orderBy, limit))
    ensures LoadRecords(payloads) == Some(Concat(TopKPerShard(prepared, orderBy, limit)))
  {
    if payloads != [] {
      RankedPayloadsLoad(payloads[1..], prepared[1..], orderBy, limit);
      var tops := TopKPerShard(prepared, orderBy, limit);
      assert tops[0] == TopKRecords(prepared[0], orderBy, limit);
      assert tops[1..] == TopKPerShard(prepared[1..], orderBy, limit);
    }
  }

  /** A stored ranking for each prepared part. */
  predicate RanksPart(last: Option<Json>, prepared: Option<seq<Record>>, accepted: bool, orderBy: seq<RecordSort>,
                      limit: nat)
  {
    && (last.Some? <==> accepted && prepared.Some?)
    && (last.Some? ==> LoadPayload(last.value) == Some(TopKRecords(prepared.value, orderBy, limit)))
  }

  lemma RankedCollect(lasts: seq<Option<Json>>, prepared: seq<Option<seq<Record>>>, accepted: seq<bool>,
                      orderBy: seq<RecordSort>, limit: nat)
    requires |lasts| == |prepared| == |accepted|
    requires forall i :: 0 <= i < |lasts| ==> RanksPart(lasts[i], prepared[i], accepted[i], orderBy, limit)
    ensures Collect(lasts).Some? <==>
              (forall i :: 0 <= i < |accepted| ==> accepted[i]) && Collect(prepared).Some?
    ensures Collect(lasts).Some? ==>
              LoadRecords(Collect(lasts).value) == Some(Concat(TopKPerShard(Collect(prepared).value, orderBy, limit)))
  {
    CollectAll(lasts);
    CollectAll(prepared);
    if Collect(lasts).Some? {
      var payloads, parts := Collect(lasts).value, Collect(prepared).value;
      forall i | 0 <= i < |payloads|
        ensures LoadPayload(payloads[i]) == Some(TopKRecords(parts[i], orderBy, limit))
      {
        assert lasts[i] == Some(payloads[i]) && prepared[i] == Some(parts[i]);
        assert RanksPart(lasts[i], prepared[i], accepted[i], orderBy, limit);
      }
      RankedPayloadsLoad(payloads, parts, orderBy, limit);
    } else {
      var i :| 0 <= i < |lasts| && lasts[i].None?;
      assert RanksPart(lasts[i], prepared[i], accepted[i], orderBy, limit);
    }
  }

  function AcceptedList(plan: Plan, shards: seq<Json>, workers: seq<string>, names: seq<string>): (list: seq<bool>)
    requires |shards| == |workers|
    ensures |list| == |names|
  {
    seq(|names|, i requires 0 <= i < |names| => Accepted(plan, ShardsOf(shards, workers, names[i])))
  }

  /** What the chain of one Worker hands to the final stage of a ranking plan. */
  lemma RankedLast(plan: Plan, shards: seq<Json>, workers: seq<string>, worker: string)
    requires ValidPredicates(plan) && ValidateProjection(plan) && plan.aggregations == []
    requires |shards| == |workers| && LoadRecords(shards).Some?
    ensures
      var inputs := ShardsOf(shards, workers, worker);
      RanksPart(LastOf(plan, inputs), Prepared(plan, PartOf(shards, workers, worker)), Accepted(plan, inputs),
                plan.orderBy, plan.limit.value)
  {
    PartLoads(shards, workers, worker);
    ChainRanks(plan, ShardsOf(shards, workers, worker), PartOf(shards, workers, worker));
  }

  lemma RankedFinals(plan: Plan, shards: seq<Json>, workers: seq<string>, names: seq<string>)
    requires ValidPredicates(plan) && ValidateProjection(plan) && plan.aggregations == []
    requires |shards| == |workers| && LoadRecords(shards).Some?
    ensures
      var finals := Collect(Lasts(plan, shards, workers, names));
      var prepared := PreparedShards(plan, PartsOf(shards, workers, names));
      && (finals.Some? <==> AcceptedFor(plan, shards, workers, names) && prepared.Some?)
      && (finals.Some? ==>
            LoadRecords(finals.value)
            == Some(Concat(TopKPerShard(prepared.value, plan.orderBy, plan.limit.value))))
  {
    var lasts, accepted := Lasts(plan, shards, workers, names), AcceptedList(plan, shards, workers, names);
    var prepared := PreparedParts(plan, PartsOf(shards, workers, names));
    forall i | 0 <= i < |lasts|
      ensures RanksPart(lasts[i], prepared[i], accepted[i], plan.orderBy, plan.limit.value)
    {
      RankedLast(plan, shards, workers, names[i]);
    }
    RankedCollect(lasts, prepared, accepted, plan.orderBy, plan.limit.value);
    assert forall i :: 0 <= i < |names| ==> accepted[i] == Accepted(plan, ShardsOf(shards, workers, names[i]));
  }

  lemma WorkersDiffer()
    ensures NoDuplicates(SHARD_WORKERS)
  {
    assert SHARD_WORKERS[0] != SHARD_WORKERS[1] && SHARD_WORKERS[0][1] != SHARD_WORKERS[2][1];
    assert |SHARD_WORKERS[1]| != |SHARD_WORKERS[2]|;
  }

  /**
   A ranking plan over shards on several Workers: the final stage is reached when every request is accepted and no
   derivation fails, and the top-k of what it is given is the top-k of all records.
   */
  lemma DistributedRanking(plan: Plan, shards: seq<Json>, workers: seq<string>, records: seq<Record>)
    requires ValidPredicates(plan) && ValidateProjection(plan) && plan.aggregations == []
    requires Assignable(shards, workers) && LoadRecords(shards) == Some(records)
    ensures
      var finals, whole := FinalInputs(plan, shards, workers), RankedRecords(plan, Kept(plan, records));
      && (finals.Some? <==> AllAccepted(plan, shards, workers) && whole.Some?)
      && (finals.Some? ==>
            && LoadRecords(finals.value).Some?
            && TopKRecords(LoadRecords(finals.value).value, plan.orderBy, plan.limit.value) == whole.value)
  {
    var parts := PartsOf(shards, workers, SHARD_WORKERS);
    WorkersDiffer();
    PartsHoldAll(shards, workers, SHARD_WORKERS);
    RankingPermutes(plan, Concat(parts), records);
    RankingOfParts(plan, parts);
    RankedFinals(plan, shards, workers, SHARD_WORKERS);
  }

  // ---------- aggregating plans ----------

  /** The rows under `groups` of a stored aggregation. */
  function StoredRows(payload: Json): Option<seq<Record>> {
    if payload.Obj? && "groups" in payload.fields && payload.fields["groups"].Arr? then
      RecordsIn(payload.fields["groups"].items)
    else None
  }

  lemma StoredRowsReload(plan: Plan, rows: seq<Record>)
    ensures StoredRows(Obj(GroupSet(plan, rows))) == Some(rows)
  {
    ObjectsReload(rows);
  }

  /** The stored aggregations merged by group key. */
  function MergeStored(payloads: seq<Json>, groupBy: seq<string>, aggregations: seq<RecordAggregation>)
    : Option<seq<Record>>
  {
    if payloads == [] then AggregateRecords([], aggregations, groupBy)
    else
      var rows :- StoredRows(payloads[0]);
      var rest :- MergeStored(payloads[1..], groupBy, aggregations);
      MergeRows(rows, rest, groupBy, aggregations)
  }

  /** A stored aggregation for each prepared part. */
  predicate StoresRows(plan: Plan, last: Option<Json>, prepared: Option<seq<Record>>, accepted: bool) {
    var rows := if prepared.None? then None else AggregateRecords(prepared.value, plan.aggregations, plan.groupBy);
    && (last.Some? <==> accepted && rows.Some?)
    && (last.Some? ==> last.value == Obj(GroupSet(plan, rows.value)))
  }

  lemma {:induction false} MergeStoredIsMerge(plan: Plan, payloads: seq<Json>, prepared: seq<seq<Record>>)
    requires |payloads| == |prepared|
    requires forall i :: 0 <= i < |payloads| ==> StoresRows(plan, Some(payloads[i]), Some(prepared[i]), true)
    ensures MergeStored(payloads, plan.groupBy, plan.aggregations)
         == MergeShards(prepared, plan.groupBy, plan.aggregations)
  {
    if payloads != [] {
      assert StoresRows(plan, Some(payloads[0]), Some(prepared[0]), true);
      MergeStoredIsMerge(plan, payloads[1..], prepared[1..]);
      StoredRowsReload(plan, AggregateRecords(prepared[0], plan.aggregations, plan.groupBy).value);
    }
  }

  lemma {:induction false} FailedPartFailsMerge(plan: Plan, prepared: seq<seq<Record>>, i: nat)
    requires i < |prepared| && AggregateRecords(prepared[i], plan.aggregations, plan.groupBy).None?
    ensures MergeShards(prepared, plan.groupBy, plan.aggregations).None?
  {
    if i > 0 { FailedPartFailsMerge(plan, prepared[1..], i - 1); }
  }

  /** When all requests are accepted, the stored aggregations merge to what the prepared parts merge to. */
  lemma StoredCollect(plan: Plan, lasts: seq<Option<Json>>, prepared: seq<Option<seq<Record>>>)
    requires |lasts| == |prepared|
    requires forall i :: 0 <= i < |lasts| ==> StoresRows(plan, lasts[i], prepared[i], true)
    ensures
      var finals, parts := Collect(lasts), Collect(prepared);
      (if finals.Some? then MergeStored(finals.value, plan.groupBy, plan.aggregations) else None)
      == if parts.Some? then MergeShards(parts.value, plan.groupBy, plan.aggregations) else None
  {
    CollectAll(lasts);
    CollectAll(prepared);
    if Collect(lasts).Some? {
      forall i | 0 <= i < |lasts|
        ensures StoresRows(plan, Some(Collect(lasts).value[i]), prepared[i], true) && prepared[i].Some?
      {
        assert StoresRows(plan, lasts[i], prepared[i], true);
      }
      MergeStoredIsMerge(plan, Collect(lasts).value, Collect(prepared).value);
    } else if Collect(prepared).Some? {
      var i :| 0 <= i < |lasts| && lasts[i].None?;
      assert StoresRows(plan, lasts[i], prepared[i], true);
      FailedPartFailsMerge(plan, Collect(prepared).value, i);
    }
  }

  lemma AggregatedArePrepared(plan: Plan, records: seq<Record>)
    requires ValidPredicates(plan)
    ensures
      var prepared := Prepared(plan, records);
      AggregatedRows(plan, Kept(plan, records)) ==
      if prepared.None? then None else AggregateRecords(prepared.value, plan.aggregations, plan.groupBy)
  {
  }

  lemma AggregatedChain(plan: Plan, inputs: seq<Json>, records: seq<Record>)
    requires ValidPredicates(plan) && ValidateProjection(plan) && plan.orderBy == []
    requires LoadRecords(inputs) == Some(records)
    ensures StoresRows(plan, LastOf(plan, inputs), Prepared(plan, records), Accepted(plan, inputs))
  {
    AggregatedArePrepared(plan, records);
    ChainAggregates(plan, inputs, records);
  }

  /** What the chain of one Worker hands to the final stage of an aggregating plan. */
  lemma AggregatedLast(plan: Plan, shards: seq<Json>, workers: seq<string>, worker: string)
    requires ValidPredicates(plan) && ValidateProjection(plan) && plan.orderBy == []
    requires |shards| == |workers| && LoadRecords(shards).Some?
    ensures
      var inputs := ShardsOf(shards, workers, worker);
      StoresRows(plan, LastOf(plan, inputs), Prepared(plan, PartOf(shards, workers, worker)), Accepted(plan, inputs))
  {
    PartLoads(shards, workers, worker);
    AggregatedChain(plan, ShardsOf(shards, workers, worker), PartOf(shards, workers, worker));
  }

  lemma AggregatedFinals(plan: Plan, shards: seq<Json>, workers: seq<string>, names: seq<string>)
    requires ValidPredicates(plan) && ValidateProjection(plan) && plan.orderBy == []
    requires |shards| == |workers| && LoadRecords(shards).Some? && AcceptedFor(plan, shards, workers, names)
    ensures
      var finals := Collect(Lasts(plan, shards, workers, names));
      var parts := PreparedShards(plan, PartsOf(shards, workers, names));
      (if finals.Some? then MergeStored(finals.value, plan.groupBy, plan.aggregations) else None)
      == if parts.Some? then MergeShards(parts.value, plan.groupBy, plan.aggregations) else None
  {
    var lasts, prepared := Lasts(plan, shards, workers, names), PreparedParts(plan, PartsOf(shards, workers, names));
    forall i | 0 <= i < |lasts|
      ensures StoresRows(plan, lasts[i], prepared[i], true)
    {
      assert Accepted(plan, ShardsOf(shards, workers, names[i]));
      AggregatedLast(plan, shards, workers, names[i]);
    }
    StoredCollect(plan, lasts, prepared);
  }

  /**
   An aggregating plan over shards on several Workers: merging what the final stage is given is the aggregation of all
   records, taken Worker by Worker, and when nothing arrives there that aggregation fails too.
   */
  lemma DistributedAggregation(plan: Plan, shards: seq<Json>, workers: seq<string>, records: seq<Record>)
    requires ValidPredicates(plan) && ValidateProjection(plan) && plan.orderBy == []
    requires Assignable(shards, workers) && AllAccepted(plan, shards, workers) && LoadRecords(shards) == Some(records)
    requires var prepared := Prepared(plan, Concat(PartsOf(shards, workers, SHARD_WORKERS)));
             prepared.Some? ==> SplitsOver(prepared.value, plan.groupBy, plan.aggregations)
    ensures
      var all := Concat(PartsOf(shards, workers, SHARD_WORKERS));
      var finals, whole := FinalInputs(plan, shards, workers), AggregatedRows(plan, Kept(plan, all));
      && multiset(all) == multiset(records)
      && whole == if finals.Some? then MergeStored(finals.value, plan.groupBy, plan.aggregations) else None
  {
    var parts := PartsOf(shards, workers, SHARD_WORKERS);
    WorkersDiffer();
    PartsHoldAll(shards, workers, SHARD_WORKERS);
    PreparedOfShards(plan, parts);
    AggregatedFinals(plan, shards, workers, SHARD_WORKERS);
    FirstIsAccepted(plan, shards, workers);
    var prepared := PreparedShards(plan, parts);
    if prepared.Some? { AggregateOfShards(prepared.value, plan.groupBy, plan.aggregations); }
  }

  lemma AggregationPermutes(plan: Plan, a: seq<Record>, b: seq<Record>)
    requires ValidPredicates(plan) && multiset(a) == multiset(b)
    requires Prepared(plan, a).Some? ==> OrderFreeOver(Prepared(plan, a).value, plan.groupBy, plan.aggregations)
    ensures AggregatedRows(plan, Kept(plan, a)) == AggregatedRows(plan, Kept(plan, b))
  {
    PreparedPermutes(plan, a, b);
    var x, y := Prepared(plan, a), Prepared(plan, b);
    if x.Some? { AggregationIgnoresOrder(x.value, y.value, plan.groupBy, plan.aggregations); }
  }

  /**
   Where no aggregation depends on the order of the records of a group, merging what the final stage is given is the
   aggregation of all records in their own order, however they were assigned to Workers.
   */
  lemma DistributedAggregationInOrder(plan: Plan, shards: seq<Json>, workers: seq<string>, records: seq<Record>)
    requires ValidPredicates(plan) && ValidateProjection(plan) && plan.orderBy == []
    requires Assignable(shards, workers) && AllAccepted(plan, shards, workers) && LoadRecords(shards) == Some(records)
    requires forall g <- plan.aggregations :: Mergeable(g.operation)
    requires Prepared(plan, records).Some? ==>
               OrderFreeOver(Prepared(plan, records).value, plan.groupBy, plan.aggregations)
    ensures
      var finals := FinalInputs(plan, shards, workers);
      AggregatedRows(plan, Kept(plan, records))
      == if finals.Some? then MergeStored(finals.value, plan.groupBy, plan.aggregations) else None
  {
    var all := Concat(PartsOf(shards, workers, SHARD_WORKERS));
    WorkersDiffer();
    PartsHoldAll(shards, workers, SHARD_WORKERS);
    PreparedPermutes(plan, records, all);
    if Prepared(plan, records).Some? {
      OrderFreeSplits(Prepared(plan, records).value, Prepared(plan, all).value, plan.groupBy, plan.aggregations);
    }
    AggregationPermutes(plan, records, all);
    DistributedAggregation(plan, shards, workers, records);
  }

  lemma FirstIsAccepted(plan: Plan, shards: seq<Json>, workers: seq<string>)
    requires |shards| == |workers| && AllAccepted(plan, shards, workers)
    ensures PlanAccepted(plan)
  {
    assert Accepted(plan, ShardsOf(shards, workers, SHARD_WORKERS[0]));
  }
}
