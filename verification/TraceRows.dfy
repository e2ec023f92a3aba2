/**
 The transfer and execution rows that are rebuilt from an event list.
 `None` stands for the exception of a lookup that finds nothing: the KeyError, or for an executor ExecutorNotFoundError.
 */
module TraceRows {
  import opened Options
  import opened Protocol
  import Json

  type SiteId = string

  datatype Registry = Registry(workerSites: map<WorkerId, SiteId>, executorSites: map<string, SiteId>)

  datatype TransferRow = TransferRow(
    id: string, artifact: ArtifactId, source: SiteId, target: SiteId, bytes: nat,
    startedAt: Option<nat>, finishedAt: Option<nat>, dependsOn: seq<string>,
    producer: Option<ActionId>, consumer: Option<ActionId>)

  datatype ExecutionRow = ExecutionRow(
    action: ActionId, executor: string, worker: WorkerId, site: SiteId, inputBytes: nat, outputBytes: nat,
    startedAt: Option<nat>, finishedAt: Option<nat>, dependsOn: seq<string>,
    inputs: seq<ArtifactId>, outputs: seq<ArtifactId>)

  /** One input of one action. */
  datatype Demand = Demand(action: ActionId, artifact: ArtifactId)

  function Last(events: seq<Event>): Event
    requires events != []
  {
    events[|events| - 1]
  }

  function Front(events: seq<Event>): seq<Event>
    requires events != []
  {
    events[..|events| - 1]
  }

  function Get(sizes: map<ArtifactId, nat>, x: ArtifactId): nat {
    if x in sizes then sizes[x] else 0
  }

  /** Who announced each artifact last. */
  function Producers(events: seq<Event>): map<ArtifactId, ActionId> {
    if events == [] then map[]
    else
      var e, producers := Last(events), Producers(Front(events));
      if e.Created? then producers[e.artifact := e.action] else producers
  }

  // ---------- transfer rows ----------

  /** A start and an end belong together when they agree on these. */
  datatype Wire = Wire(action: ActionId, artifact: ArtifactId, source: WorkerId, target: WorkerId)

  predicate IsTransfer(e: Event) {
    e.TransferStarted? || e.TransferEnded?
  }

  function WireOf(e: Event): Wire
    requires IsTransfer(e)
  {
    Wire(e.action, e.artifact, e.source, e.target)
  }

  /** The starts on a wire that no end has used, oldest first. */
  function Pending(events: seq<Event>, wire: Wire): seq<nat> {
    if events == [] then []
    else
      var e, pending := Last(events), Pending(Front(events), wire);
      if !IsTransfer(e) || WireOf(e) != wire then pending
      else if e.TransferStarted? then pending + [e.at]
      else if pending != [] then pending[1..]
      else []
  }

  function Head(pending: seq<nat>): Option<nat> {
    if pending == [] then None else Some(pending[0])
  }

  predicate Delivers(e: Event) {
    e.TransferEnded? && e.success && e.bytes > 0
  }

  predicate Sited(e: Event, registry: Registry)
    requires e.TransferEnded?
  {
    e.source in registry.workerSites && e.target in registry.workerSites
  }

  function TransferRowFor(e: Event, n: nat, started: Option<nat>, registry: Registry,
                          producers: map<ArtifactId, ActionId>): TransferRow
    requires e.TransferEnded? && Sited(e, registry)
  {
    var producer := if e.artifact in producers then Some(producers[e.artifact]) else None;
    TransferRow(e.action + ":transfer-" + Json.Decimal(n), e.artifact,
                registry.workerSites[e.source], registry.workerSites[e.target], e.bytes,
                started, Some(e.at), if producer.Some? then [producer.value] else [], producer, Some(e.action))
  }

  /** One row for each successful end that moved bytes. */
  function TransferRows(events: seq<Event>, registry: Registry, producers: map<ArtifactId, ActionId>):
    Option<seq<TransferRow>>
  {
    if events == [] then Some([])
    else
      var e := Last(events);
      var rows :- TransferRows(Front(events), registry, producers);
      if !Delivers(e) then Some(rows)
      else if !Sited(e, registry) then None
      else
        var started := Head(Pending(Front(events), WireOf(e)));
        Some(rows + [TransferRowFor(e, |rows| + 1, started, registry, producers)])
  }

  method CollectProducers(events: seq<Event>) returns (producers: map<ArtifactId, ActionId>)
    ensures producers == Producers(events)
  {
    producers := map[];
    for i := 0 to |events|
      invariant producers == Producers(events[..i])
    {
      assert events[..i + 1][..i] == events[..i];
      if events[i].Created? { producers := producers[events[i].artifact := events[i].action]; }
    }
    assert events[..|events|] == events;
  }

  lemma {:induction false} NoRowsLater(events: seq<Event>, i: nat, registry: Registry,
                                       producers: map<ArtifactId, ActionId>)
    requires i <= |events| && TransferRows(events[..i], registry, producers).None?
    ensures TransferRows(events, registry, producers).None?
    decreases |events| - i
  {
    if i == |events| {
      assert events[..i] == events;
    } else {
      assert events[..i + 1][..i] == events[..i];
      NoRowsLater(events, i + 1, registry, producers);
    }
  }

  /** The table of pending starts, read like a dictionary with an empty default. */
  function Waiting(pending: map<Wire, seq<nat>>, wire: Wire): seq<nat> {
    if wire in pending then pending[wire] else []
  }

  method BuildTransferRows(events: seq<Event>, registry: Registry) returns (result: Option<seq<TransferRow>>)
    ensures result == TransferRows(events, registry, Producers(events))
  {
    var producers := CollectProducers(events);
    var pending: map<Wire, seq<nat>> := map[];
    var rows := [];
    for i := 0 to |events|
      invariant forall wire :: Waiting(pending, wire) == Pending(events[..i], wire)
      invariant TransferRows(events[..i], registry, producers) == Some(rows)
    {
      var e := events[i];
      assert Last(events[..i + 1]) == e && Front(events[..i + 1]) == events[..i];
      if !IsTransfer(e) { continue; }
      var wire := WireOf(e);
      var starts := Waiting(pending, wire);
      if e.TransferStarted? {
        pending := pending[wire := starts + [e.at]];
        continue;
      }
      var started := Head(starts);
      if starts != [] { pending := pending[wire := starts[1..]]; }
      if !e.success || e.bytes <= 0 { continue; }
      if !Sited(e, registry) {
        NoRowsLater(events, i + 1, registry, producers);
        return None;
      }
      rows := rows + [TransferRowFor(e, |rows| + 1, started, registry, producers)];
    }
    assert events[..|events|] == events;
    result := Some(rows);
  }

  // ---------- execution rows ----------

  function Requests(events: seq<Event>): map<ActionId, seq<ArtifactId>> {
    if events == [] then map[]
    else
      var e, requests := Last(events), Requests(Front(events));
      if e.Requested? then requests[e.action := e.inputs] else requests
  }

  function Starts(events: seq<Event>): map<ActionId, nat> {
    if events == [] then map[]
    else
      var e, starts := Last(events), Starts(Front(events));
      if e.ExecutionStarted? then starts[e.action := e.at] else starts
  }

  function Sizes(events: seq<Event>, initial: map<ArtifactId, nat>): map<ArtifactId, nat> {
    if events == [] then initial
    else
      var e, sizes := Last(events), Sizes(Front(events), initial);
      if e.Created? then sizes[e.artifact := e.size] else sizes
  }

  /** The transfer that served each input; the last one when there are several. */
  function TransferFor(transfers: seq<TransferRow>): map<Demand, TransferRow> {
    if transfers == [] then map[]
    else
      var t, served := transfers[|transfers| - 1], TransferFor(transfers[..|transfers| - 1]);
      if t.consumer.Some? then served[Demand(t.consumer.value, t.artifact) := t] else served
  }

  function Dependency(demand: Demand, served: map<Demand, TransferRow>, producers: map<ArtifactId, ActionId>):
    Option<string>
  {
    if demand in served && served[demand].id != "" then Some(served[demand].id)
    else if demand.artifact in producers then Some(producers[demand.artifact])
    else None
  }

  /** Each dependency once, in the order of the inputs. */
  function Dependencies(a: ActionId, inputs: seq<ArtifactId>, served: map<Demand, TransferRow>,
                        producers: map<ArtifactId, ActionId>): seq<string>
  {
    if inputs == [] then []
    else
      var n := |inputs| - 1;
      var before := Dependencies(a, inputs[..n], served, producers);
      var d := Dependency(Demand(a, inputs[n]), served, producers);
      if d.Some? && d.value !in before then before + [d.value] else before
  }

  predicate EndsWith(s: string, suffix: string) {
    |suffix| <= |s| && s[|s| - |suffix|..] == suffix
  }

  /** Sampling runs under a name that is not in the registry, on the site of its Worker. */
  function SiteOf(executor: string, worker: WorkerId, registry: Registry): Option<SiteId> {
    if EndsWith(executor, ":sample_frames") then
      if worker in registry.workerSites then Some(registry.workerSites[worker]) else None
    else if executor in registry.executorSites then Some(registry.executorSites[executor])
    else None
  }

  function TotalBytes(sizes: map<ArtifactId, nat>, ids: seq<ArtifactId>): nat {
    if ids == [] then 0 else Get(sizes, ids[0]) + TotalBytes(sizes, ids[1..])
  }

  /** Everything that is collected before the rows are built. */
  datatype Tables = Tables(
    sizes: map<ArtifactId, nat>, requests: map<ActionId, seq<ArtifactId>>, starts: map<ActionId, nat>,
    producers: map<ArtifactId, ActionId>, served: map<Demand, TransferRow>)

  function TablesOf(events: seq<Event>, initialSizes: map<ArtifactId, nat>, transfers: seq<TransferRow>): Tables {
    Tables(Sizes(events, initialSizes), Requests(events), Starts(events), Producers(events), TransferFor(transfers))
  }

  function ExecutionRowFor(e: Event, tables: Tables, registry: Registry): Option<ExecutionRow>
    requires e.ExecutionEnded?
  {
    if e.action !in tables.requests || e.action !in tables.starts then None
    else
      var site :- SiteOf(e.executor, e.worker, registry);
      var inputs := tables.requests[e.action];
      Some(ExecutionRow(
             e.action, e.executor, e.worker, site,
             TotalBytes(tables.sizes, inputs), TotalBytes(tables.sizes, e.outputs),
             Some(tables.starts[e.action]), Some(e.at),
             Dependencies(e.action, inputs, tables.served, tables.producers), inputs, e.outputs))
  }

  /** One row for each successful execution. */
  function ExecutionRows(events: seq<Event>, tables: Tables, registry: Registry): Option<seq<ExecutionRow>> {
    if events == [] then Some([])
    else
      var e := Last(events);
      var rows :- ExecutionRows(Front(events), tables, registry);
      if !e.ExecutionEnded? || !e.success then Some(rows)
      else
        var row :- ExecutionRowFor(e, tables, registry);
        Some(rows + [row])
  }

  method CollectTables(events: seq<Event>, initialSizes: map<ArtifactId, nat>, transfers: seq<TransferRow>)
    returns (tables: Tables)
    ensures tables == TablesOf(events, initialSizes, transfers)
  {
    var sizes, requests, starts, producers := initialSizes, map[], map[], map[];
    for i := 0 to |events|
      invariant sizes == Sizes(events[..i], initialSizes)
      invariant requests == Requests(events[..i]) && starts == Starts(events[..i])
      invariant producers == Producers(events[..i])
    {
      var e := events[i];
      assert Last(events[..i + 1]) == e && Front(events[..i + 1]) == events[..i];
      if e.Created? {
        sizes := sizes[e.artifact := e.size];
        producers := producers[e.artifact := e.action];
      }
      if e.Requested? { requests := requests[e.action := e.inputs]; }
      if e.ExecutionStarted? { starts := starts[e.action := e.at]; }
    }
    assert events[..|events|] == events;
    var served := CollectServed(transfers);
    tables := Tables(sizes, requests, starts, producers, served);
  }

  method CollectServed(transfers: seq<TransferRow>) returns (served: map<Demand, TransferRow>)
    ensures served == TransferFor(transfers)
  {
    served := map[];
    for i := 0 to |transfers|
      invariant served == TransferFor(transfers[..i])
    {
      var t := transfers[i];
      assert transfers[..i + 1][..i] == transfers[..i];
      if t.consumer.Some? { served := served[Demand(t.consumer.value, t.artifact) := t]; }
    }
    assert transfers[..|transfers|] == transfers;
  }

  method CollectDependencies(a: ActionId, inputs: seq<ArtifactId>, served: map<Demand, TransferRow>,
                             producers: map<ArtifactId, ActionId>) returns (dependencies: seq<string>)
    ensures dependencies == Dependencies(a, inputs, served, producers)
  {
    dependencies := [];
    for i := 0 to |inputs|
      invariant dependencies == Dependencies(a, inputs[..i], served, producers)
    {
      assert inputs[..i + 1][..i] == inputs[..i];
      var d := Dependency(Demand(a, inputs[i]), served, producers);
      if d.Some? && d.value !in dependencies { dependencies := dependencies + [d.value]; }
    }
    assert inputs[..|inputs|] == inputs;
  }

  lemma {:induction false} NoExecutionsLater(events: seq<Event>, i: nat, tables: Tables, registry: Registry)
    requires i <= |events| && ExecutionRows(events[..i], tables, registry).None?
    ensures ExecutionRows(events, tables, registry).None?
    decreases |events| - i
  {
    if i == |events| {
      assert events[..i] == events;
    } else {
      assert events[..i + 1][..i] == events[..i];
      NoExecutionsLater(events, i + 1, tables, registry);
    }
  }

  method BuildExecutionRows(events: seq<Event>, registry: Registry, initialSizes: map<ArtifactId, nat>,
                            transfers: seq<TransferRow>) returns (result: Option<seq<ExecutionRow>>)
    ensures result == ExecutionRows(events, TablesOf(events, initialSizes, transfers), registry)
  {
    var tables := CollectTables(events, initialSizes, transfers);
    var rows := [];
    for i := 0 to |events|
      invariant ExecutionRows(events[..i], tables, registry) == Some(rows)
    {
      var e := events[i];
      assert Last(events[..i + 1]) == e && Front(events[..i + 1]) == events[..i];
      if !e.ExecutionEnded? || !e.success { continue; }
      var site := SiteOf(e.executor, e.worker, registry);
      if e.action !in tables.requests || e.action !in tables.starts || site.None? {
        NoExecutionsLater(events, i + 1, tables, registry);
        return None;
      }
      var inputs := tables.requests[e.action];
      var dependencies := CollectDependencies(e.action, inputs, tables.served, tables.producers);
      rows := rows + [ExecutionRow(
                        e.action, e.executor, e.worker, site.value,
                        TotalBytes(tables.sizes, inputs), TotalBytes(tables.sizes, e.outputs),
                        Some(tables.starts[e.action]), Some(e.at), dependencies, inputs, e.outputs)];
    }
    assert events[..|events|] == events;
    result := Some(rows);
  }

  // ---------- what the rows say about the events ----------

  function WireStarts(events: seq<Event>, wire: Wire): seq<nat> {
    if events == [] then []
    else
      var e, starts := Last(events), WireStarts(Front(events), wire);
      if e.TransferStarted? && WireOf(e) == wire then starts + [e.at] else starts
  }

  function WireEnds(events: seq<Event>, wire: Wire): nat {
    if events == [] then 0
    else
      var e := Last(events);
      WireEnds(Front(events), wire) + if e.TransferEnded? && WireOf(e) == wire then 1 else 0
  }

  /** No end comes before its start. */
  ghost predicate EndsFollowStarts(events: seq<Event>, wire: Wire) {
    forall i :: 0 <= i <= |events| ==> WireEnds(events[..i], wire) <= |WireStarts(events[..i], wire)|
  }

  /** The n-th end on a wire is matched with the n-th start on it. */
  lemma {:induction false} MatchedInOrder(events: seq<Event>, wire: Wire)
    requires EndsFollowStarts(events, wire)
    ensures WireEnds(events, wire) <= |WireStarts(events, wire)|
    ensures Pending(events, wire) == WireStarts(events, wire)[WireEnds(events, wire)..]
  {
    assert events[..|events|] == events;
    if events != [] {
      var front := Front(events);
      forall i | 0 <= i <= |front|
        ensures WireEnds(front[..i], wire) <= |WireStarts(front[..i], wire)|
      {
        assert front[..i] == events[..i];
      }
      MatchedInOrder(front, wire);
    }
  }
}
