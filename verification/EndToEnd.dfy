/**
 From the protocol to the lineage check: when the trace of a finished run, failures included, is marked complete.
 */
module EndToEnd {
  import opened Options
  import opened Protocol
  import opened ProtocolInvariant
  import opened FaultFree
  import opened Recording
  import opened TraceRows
  import opened TraceFacts
  import opened Lineage

  function SiteAt(registry: Registry, w: WorkerId): SiteId {
    if w in registry.workerSites then registry.workerSites[w] else ""
  }

  // ---------- the rows of a run ----------

  /** A transfer row that tells the truth about the run. */
  ghost predicate RowTrue(s: State, registry: Registry, row: TransferRow, initial: set<ArtifactId>) {
    && row.consumer.Some? && Needs(s, row.consumer.value, row.artifact)
    && row.artifact in s.origins && row.artifact in s.sizes && s.sizes[row.artifact] > 0
    && row.id != ""
    && row.source == SiteAt(registry, s.origins[row.artifact])
    && row.target == SiteAt(registry, s.tasks[row.consumer.value].worker)
    && (if row.artifact in initial then row.dependsOn == []
        else row.producer.Some? && Makes(s, row.producer.value, row.artifact) && Done(s, row.producer.value)
             && row.dependsOn == [row.producer.value])
  }

  /** The Worker that received the transfer. */
  function Receiver(s: State, row: TransferRow): WorkerId
    requires row.consumer.Some? && row.consumer.value in s.tasks
  {
    s.tasks[row.consumer.value].worker
  }

  ghost predicate TransfersTrue(s: State, registry: Registry, initial: set<ArtifactId>, transfers: seq<TransferRow>) {
    forall p :: 0 <= p < |transfers| ==> RowTrue(s, registry, transfers[p], initial)
  }

  /** No artifact reaches a Worker twice. */
  ghost predicate OnceEach(s: State, transfers: seq<TransferRow>) {
    forall p, q :: 0 <= p < q < |transfers| ==>
      transfers[p].consumer.Some? && transfers[q].consumer.Some?
      && transfers[p].consumer.value in s.tasks && transfers[q].consumer.value in s.tasks
      && (transfers[p].artifact != transfers[q].artifact || Receiver(s, transfers[p]) != Receiver(s, transfers[q]))
  }

  ghost predicate InputsKnown(s: State) {
    forall a, x :: Needs(s, a, x) ==> x in s.origins
  }

  /** Every artifact is there from the start or has one maker, on whose Worker it originates. */
  ghost predicate MakersKnown(s: State, initial: set<ArtifactId>, producers: map<ArtifactId, ActionId>) {
    && (forall a, x :: Makes(s, a, x) ==>
          && Done(s, a) && x in s.origins && s.origins[x] == s.tasks[a].worker && x !in initial
          && x in producers && producers[x] == a)
    && (forall x <- s.origins :: x in initial || exists a :: Makes(s, a, x))
    && (forall x <- producers :: Makes(s, producers[x], x))
  }

  ghost predicate ExecutionsTrue(s: State, registry: Registry, tables: Tables, executions: seq<ExecutionRow>) {
    && (forall p :: 0 <= p < |executions| ==> Shows(executions[p], s, tables, registry))
    && (forall a <- s.tasks | Done(s, a) :: HasRow(executions, a))
  }

  /** What the rows of a finished run look like. */
  ghost predicate Rebuilt(s: State, registry: Registry, initial: set<ArtifactId>, tables: Tables,
                          transfers: seq<TransferRow>, executions: seq<ExecutionRow>)
  {
    && tables.served == TransferFor(transfers)
    && TransfersTrue(s, registry, initial, transfers) && OnceEach(s, transfers)
    && InputsKnown(s) && MakersKnown(s, initial, tables.producers)
    && ExecutionsTrue(s, registry, tables, executions)
  }

  lemma MakersAreKnown(s: State, initial: set<ArtifactId>)
    requires Complete(s, initial)
    ensures MakersKnown(s, initial, Producers(s.events))
  {
    forall a, x | Makes(s, a, x)
      ensures Done(s, a) && x in s.origins && s.origins[x] == s.tasks[a].worker && x !in initial
      ensures x in Producers(s.events) && Producers(s.events)[x] == a
    {
      assert TaskOutputs(s, a, initial);
      MakerIsDone(s, initial, a, x);
      MakerIsProducer(s, initial, a, x);
    }
    forall x | x in Producers(s.events)
      ensures Makes(s, Producers(s.events)[x], x)
    {
      ProducerMakes(s, initial, x);
    }
  }

  lemma TracedRowTrue(s: State, registry: Registry, initial: set<ArtifactId>, row: TransferRow, i: nat)
    requires Complete(s, initial) && ClientsSited(s, registry) && MakersKnown(s, initial, Producers(s.events))
    requires i < |s.events| && Delivers(s.events[i]) && Tells(row, s.events[i], registry, Producers(s.events))
    ensures RowTrue(s, registry, row, initial) && Receiver(s, row) == s.events[i].target
  {
    DeliveryFacts(s, initial, i);
  }

  lemma TransfersAreTrue(s: State, registry: Registry, initial: set<ArtifactId>, transfers: seq<TransferRow>,
                         index: seq<nat>)
    requires Complete(s, initial) && ClientsSited(s, registry) && MakersKnown(s, initial, Producers(s.events))
    requires Traced(transfers, index, s.events, registry, Producers(s.events))
    ensures TransfersTrue(s, registry, initial, transfers) && OnceEach(s, transfers)
  {
    forall p | 0 <= p < |transfers|
      ensures RowTrue(s, registry, transfers[p], initial) && Receiver(s, transfers[p]) == s.events[index[p]].target
    {
      TracedRowTrue(s, registry, initial, transfers[p], index[p]);
    }
    forall p, q | 0 <= p < q < |transfers|
      ensures transfers[p].artifact != transfers[q].artifact || Receiver(s, transfers[p]) != Receiver(s, transfers[q])
    {
      if transfers[p].artifact == transfers[q].artifact && Receiver(s, transfers[p]) == Receiver(s, transfers[q]) {
        OneDelivery(s, initial, index[p], index[q]);
      }
    }
  }

  lemma NeedsAreKnown(s: State)
    requires Inv(s)
    ensures InputsKnown(s)
  {
    forall a, x | Needs(s, a, x)
      ensures x in s.origins
    {
      var k :| 0 <= k < |s.tasks[a].inputs| && InputIds(s, s.tasks[a].inputs)[k] == x;
      assert RefOk(s, s.refs[s.tasks[a].inputs[k]]);
    }
  }

  /** The input comes from another site. */
  ghost predicate Crosses(s: State, registry: Registry, a: ActionId, x: ArtifactId) {
    && Needs(s, a, x) && x in s.origins
    && SiteAt(registry, s.tasks[a].worker) != SiteAt(registry, s.origins[x])
  }

  /** A transfer was made for this input of this action. */
  ghost predicate HasTransfer(transfers: seq<TransferRow>, a: ActionId, x: ArtifactId) {
    exists p :: 0 <= p < |transfers| && transfers[p].consumer == Some(a) && transfers[p].artifact == x
  }

  /** Every transfer was made for an action that did not fail, and each input of such an action that crosses has one. */
  ghost predicate RowsAccount(s: State, registry: Registry, transfers: seq<TransferRow>) {
    && (forall p :: 0 <= p < |transfers| ==>
          transfers[p].consumer.Some? && Done(s, transfers[p].consumer.value))
    && (forall a, x :: Done(s, a) && Crosses(s, registry, a, x) ==> HasTransfer(transfers, a, x))
  }

  /** The trace records a transfer of bytes for this input of this action. */
  ghost predicate WasDelivered(events: seq<Event>, a: ActionId, x: ArtifactId) {
    exists i :: 0 <= i < |events| && Delivers(events[i]) && events[i].action == a && events[i].artifact == x
  }

  /** The same said of the events: bytes reached only actions that did not fail, and all their crossing inputs. */
  ghost predicate EventsAccount(s: State, registry: Registry) {
    && (forall i :: 0 <= i < |s.events| && Delivers(s.events[i]) ==> Done(s, s.events[i].action))
    && (forall a, x :: Done(s, a) && Crosses(s, registry, a, x) ==> WasDelivered(s.events, a, x))
  }

  lemma TransfersAreDeliveries(transfers: seq<TransferRow>, index: seq<nat>, events: seq<Event>, registry: Registry,
                               producers: map<ArtifactId, ActionId>, a: ActionId, x: ArtifactId)
    requires Traced(transfers, index, events, registry, producers)
    ensures HasTransfer(transfers, a, x) <==> WasDelivered(events, a, x)
  {
    if HasTransfer(transfers, a, x) {
      var p :| 0 <= p < |transfers| && transfers[p].consumer == Some(a) && transfers[p].artifact == x;
      assert Delivers(events[index[p]]) && Tells(transfers[p], events[index[p]], registry, producers);
    }
    if WasDelivered(events, a, x) {
      var i :| 0 <= i < |events| && Delivers(events[i]) && events[i].action == a && events[i].artifact == x;
      var p :| 0 <= p < |index| && index[p] == i;
      assert Tells(transfers[p], events[i], registry, producers);
    }
  }

  lemma ConsumersAreDone(s: State, transfers: seq<TransferRow>, index: seq<nat>, registry: Registry,
                         producers: map<ArtifactId, ActionId>)
    requires Traced(transfers, index, s.events, registry, producers)
    ensures (forall p :: 0 <= p < |transfers| ==>
               transfers[p].consumer.Some? && Done(s, transfers[p].consumer.value))
       <==> (forall i :: 0 <= i < |s.events| && Delivers(s.events[i]) ==> Done(s, s.events[i].action))
  {
    if forall p :: 0 <= p < |transfers| ==> transfers[p].consumer.Some? && Done(s, transfers[p].consumer.value) {
      forall i | 0 <= i < |s.events| && Delivers(s.events[i])
        ensures Done(s, s.events[i].action)
      {
        var p :| 0 <= p < |index| && index[p] == i;
        assert Tells(transfers[p], s.events[i], registry, producers);
      }
    }
    if forall i :: 0 <= i < |s.events| && Delivers(s.events[i]) ==> Done(s, s.events[i].action) {
      forall p | 0 <= p < |transfers|
        ensures transfers[p].consumer.Some? && Done(s, transfers[p].consumer.value)
      {
        assert Tells(transfers[p], s.events[index[p]], registry, producers);
      }
    }
  }

  lemma AccountsAgree(s: State, registry: Registry, transfers: seq<TransferRow>, index: seq<nat>)
    requires Traced(transfers, index, s.events, registry, Producers(s.events))
    ensures RowsAccount(s, registry, transfers) <==> EventsAccount(s, registry)
  {
    ConsumersAreDone(s, transfers, index, registry, Producers(s.events));
    forall a, x
      ensures HasTransfer(transfers, a, x) <==> WasDelivered(s.events, a, x)
    {
      TransfersAreDeliveries(transfers, index, s.events, registry, Producers(s.events), a, x);
    }
  }

  /**
   The transfer rows are built.  The execution rows are built exactly when every action that did not fail ran under an
   executor that has a site, and then the rows are those of the run.
   */
  lemma RowsRebuildRun(s: State, registry: Registry, initial: set<ArtifactId>, initialSizes: map<ArtifactId, nat>)
    returns (transfers: seq<TransferRow>)
    requires Complete(s, initial) && ClientsSited(s, registry) && ExecutorsAgree(s, registry)
    ensures TransferRows(s.events, registry, Producers(s.events)) == Some(transfers)
    ensures RowsAccount(s, registry, transfers) <==> EventsAccount(s, registry)
    ensures
      var tables := TablesOf(s.events, initialSizes, transfers);
      var executions := ExecutionRows(s.events, tables, registry);
      && (executions.Some? <==> AllPlaced(s, registry))
      && (executions.Some? ==> Rebuilt(s, registry, initial, tables, transfers, executions.value))
  {
    var index: seq<nat>;
    transfers, index := TransfersAreBuilt(s, initial, registry);
    AccountsAgree(s, registry, transfers, index);
    var tables := TablesOf(s.events, initialSizes, transfers);
    RowsBuiltExactly(s, initial, tables, registry);
    if AllPlaced(s, registry) { RowsAreRebuilt(s, registry, initial, tables, transfers, index); }
  }

  lemma RowsAreRebuilt(s: State, registry: Registry, initial: set<ArtifactId>, tables: Tables,
                       transfers: seq<TransferRow>, index: seq<nat>)
    requires Complete(s, initial) && Fits(s, registry)
    requires Traced(transfers, index, s.events, registry, Producers(s.events))
    requires tables.requests == Requests(s.events) && tables.starts == Starts(s.events)
    requires tables.producers == Producers(s.events) && tables.served == TransferFor(transfers)
    ensures ExecutionRows(s.events, tables, registry).Some?
    ensures Rebuilt(s, registry, initial, tables, transfers, ExecutionRows(s.events, tables, registry).value)
  {
    NeedsAreKnown(s);
    MakersAreKnown(s, initial);
    TransfersAreTrue(s, registry, initial, transfers, index);
    ExecutionsAreTrue(s, registry, initial, tables);
  }

  lemma ExecutionsAreTrue(s: State, registry: Registry, initial: set<ArtifactId>, tables: Tables)
    requires Complete(s, initial) && Fits(s, registry)
    requires tables.requests == Requests(s.events) && tables.starts == Starts(s.events)
    ensures ExecutionRows(s.events, tables, registry).Some?
    ensures ExecutionsTrue(s, registry, tables, ExecutionRows(s.events, tables, registry).value)
  {
    CompleteEndsShow(s, initial, tables, registry);
    var executions := RowsShow(s, tables, registry);
    forall a | Done(s, a)
      ensures HasRow(executions, a)
    {
      EveryActionHasRow(s, initial, executions, a);
    }
  }

  // ---------- the view of the check ----------

  ghost predicate InitialSites(s: State, registry: Registry, initial: set<ArtifactId>, sites: map<ArtifactId, SiteId>) {
    && sites.Keys == initial
    && forall x <- sites :: x in s.origins && sites[x] == SiteAt(registry, s.origins[x])
  }

  ghost predicate IndexTrue(s: State, registry: Registry, tables: Tables, ids: seq<ActionId>,
                            byId: map<ActionId, ExecutionRow>)
  {
    && (forall a :: a in ids <==> Done(s, a))
    && (forall a :: a in byId <==> Done(s, a))
    && (forall a <- byId :: byId[a].action == a && Shows(byId[a], s, tables, registry))
  }

  ghost predicate MadeTrue(s: State, made: map<ArtifactId, ActionId>) {
    && (forall a, x :: Makes(s, a, x) ==> x in made && made[x] == a)
    && (forall x <- made :: Makes(s, made[x], x))
  }

  /** The tables of the check agree with the run. */
  ghost predicate ViewTrue(s: State, registry: Registry, tables: Tables, v: View) {
    && IndexTrue(s, registry, tables, v.ids, v.byId)
    && MadeTrue(s, v.made)
    && v.served == tables.served
  }

  lemma IndexIsTrue(s: State, registry: Registry, tables: Tables, executions: seq<ExecutionRow>)
    requires ExecutionsTrue(s, registry, tables, executions)
    ensures IndexTrue(s, registry, tables, Lineage.Ids(executions), ById(executions))
  {
    var byId := ById(executions);
    IdsAreIndexed(executions);
    forall a | a in byId
      ensures Done(s, a) && byId[a].action == a && Shows(byId[a], s, tables, registry)
    {
      var p :| 0 <= p < |executions| && executions[p] == byId[a];
    }
    forall a | Done(s, a)
      ensures a in byId
    {
      var p :| 0 <= p < |executions| && executions[p].action == a;
      assert executions[p] in executions;
    }
  }

  lemma MadeIsTrue(s: State, registry: Registry, initial: set<ArtifactId>, tables: Tables, ids: seq<ActionId>,
                   byId: map<ActionId, ExecutionRow>)
    requires IndexTrue(s, registry, tables, ids, byId) && MakersKnown(s, initial, tables.producers)
    ensures MadeTrue(s, MadeBy(ids, byId))
  {
    var made := MadeBy(ids, byId);
    MakerIsListed(ids, byId);
    forall x | x in made
      ensures Makes(s, made[x], x)
    {
      assert Shows(byId[made[x]], s, tables, registry);
    }
    forall a, x | Makes(s, a, x)
      ensures x in made && made[x] == a
    {
      assert a in ids && Shows(byId[a], s, tables, registry) && x in byId[a].outputs;
      assert Makes(s, made[x], x);
      OneMaker(s, initial, tables.producers, a, made[x], x);
    }
  }

  lemma OneMaker(s: State, initial: set<ArtifactId>, producers: map<ArtifactId, ActionId>, a: ActionId, b: ActionId,
                 x: ArtifactId)
    requires MakersKnown(s, initial, producers) && Makes(s, a, x) && Makes(s, b, x)
    ensures a == b
  {
  }

  lemma ViewIsTrue(s: State, registry: Registry, initial: set<ArtifactId>, tables: Tables,
                   transfers: seq<TransferRow>, executions: seq<ExecutionRow>, sites: map<ArtifactId, SiteId>)
    requires Rebuilt(s, registry, initial, tables, transfers, executions)
    ensures ViewTrue(s, registry, tables, ViewOf(executions, transfers, sites))
  {
    IndexIsTrue(s, registry, tables, executions);
    MadeIsTrue(s, registry, initial, tables, Lineage.Ids(executions), ById(executions));
  }

  // ---------- when the verdict is complete ----------

  /** The row that served a demand. */
  lemma ServedRow(s: State, registry: Registry, initial: set<ArtifactId>, transfers: seq<TransferRow>, a: ActionId,
                  x: ArtifactId)
    returns (p: nat)
    requires TransfersTrue(s, registry, initial, transfers) && Demand(a, x) in TransferFor(transfers)
    ensures p < |transfers| && TransferFor(transfers)[Demand(a, x)] == transfers[p]
    ensures transfers[p].consumer == Some(a) && transfers[p].artifact == x
    ensures RowTrue(s, registry, transfers[p], initial)
  {
    ServedIsListed(transfers, Demand(a, x));
    p :| 0 <= p < |transfers| && transfers[p] == TransferFor(transfers)[Demand(a, x)];
  }

  lemma RowServesDemand(s: State, registry: Registry, initial: set<ArtifactId>, transfers: seq<TransferRow>, p: nat)
    requires TransfersTrue(s, registry, initial, transfers) && OnceEach(s, transfers) && p < |transfers|
    ensures transfers[p].consumer.Some?
    ensures Demand(transfers[p].consumer.value, transfers[p].artifact) in TransferFor(transfers)
    ensures TransferFor(transfers)[Demand(transfers[p].consumer.value, transfers[p].artifact)] == transfers[p]
  {
    assert RowTrue(s, registry, transfers[p], initial);
    RowIsServed(transfers, p);
  }

  lemma CrossingIsServed(s: State, registry: Registry, initial: set<ArtifactId>, transfers: seq<TransferRow>,
                         a: ActionId, x: ArtifactId)
    requires TransfersTrue(s, registry, initial, transfers) && OnceEach(s, transfers)
    requires HasTransfer(transfers, a, x)
    ensures Demand(a, x) in TransferFor(transfers)
  {
    var p :| 0 <= p < |transfers| && transfers[p].consumer == Some(a) && transfers[p].artifact == x;
    RowServesDemand(s, registry, initial, transfers, p);
  }

  lemma ServedIsDependency(s: State, registry: Registry, tables: Tables, row: ExecutionRow, x: ArtifactId)
    requires Shows(row, s, tables, registry) && x in row.inputs
    requires Demand(row.action, x) in tables.served && tables.served[Demand(row.action, x)].id != ""
    ensures tables.served[Demand(row.action, x)].id in row.dependsOn
  {
    var id := tables.served[Demand(row.action, x)].id;
    assert Dependency(Demand(row.action, x), tables.served, tables.producers) == Some(id);
    DependencyMembers(row.action, row.inputs, tables.served, tables.producers, id);
  }

  lemma ProducerIsDependency(s: State, registry: Registry, tables: Tables, row: ExecutionRow, x: ArtifactId)
    requires Shows(row, s, tables, registry) && x in row.inputs
    requires Demand(row.action, x) !in tables.served && x in tables.producers
    ensures tables.producers[x] in row.dependsOn
  {
    assert Dependency(Demand(row.action, x), tables.served, tables.producers) == Some(tables.producers[x]);
    DependencyMembers(row.action, row.inputs, tables.served, tables.producers, tables.producers[x]);
  }

  /** Tables, rows and sites that belong to the run. */
  ghost predicate Setup(s: State, registry: Registry, initial: set<ArtifactId>, tables: Tables,
                        transfers: seq<TransferRow>, sites: map<ArtifactId, SiteId>, v: View)
  {
    && tables.served == TransferFor(transfers)
    && TransfersTrue(s, registry, initial, transfers) && OnceEach(s, transfers)
    && InputsKnown(s) && MakersKnown(s, initial, tables.producers)
    && InitialSites(s, registry, initial, sites)
    && ViewTrue(s, registry, tables, v) && v.initial == sites
  }

  lemma ServedInputIsOk(s: State, registry: Registry, initial: set<ArtifactId>, tables: Tables,
                        transfers: seq<TransferRow>, sites: map<ArtifactId, SiteId>, v: View, a: ActionId,
                        x: ArtifactId)
    requires Setup(s, registry, initial, tables, transfers, sites, v)
    requires a in v.byId && x in v.byId[a].inputs && Demand(a, x) in v.served
    ensures InputOk(v, v.byId[a], a, x)
  {
    assert Needs(s, a, x);
    var p := ServedRow(s, registry, initial, transfers, a, x);
    ServedIsDependency(s, registry, tables, v.byId[a], x);
  }

  lemma LocalInputIsOk(s: State, registry: Registry, initial: set<ArtifactId>, tables: Tables,
                       transfers: seq<TransferRow>, sites: map<ArtifactId, SiteId>, v: View, a: ActionId,
                       x: ArtifactId)
    requires Setup(s, registry, initial, tables, transfers, sites, v)
    requires a in v.byId && x in v.byId[a].inputs && Demand(a, x) !in v.served && !Crosses(s, registry, a, x)
    ensures InputOk(v, v.byId[a], a, x)
  {
    assert Needs(s, a, x);
    if x !in initial {
      var m :| Makes(s, m, x);
      ProducerIsDependency(s, registry, tables, v.byId[a], x);
    }
  }

  lemma InputIsOk(s: State, registry: Registry, initial: set<ArtifactId>, tables: Tables, transfers: seq<TransferRow>,
                  sites: map<ArtifactId, SiteId>, v: View, a: ActionId, x: ArtifactId)
    requires Setup(s, registry, initial, tables, transfers, sites, v)
    requires a in v.byId && x in v.byId[a].inputs
    requires Crosses(s, registry, a, x) ==> HasTransfer(transfers, a, x)
    ensures InputOk(v, v.byId[a], a, x)
  {
    if Crosses(s, registry, a, x) { CrossingIsServed(s, registry, initial, transfers, a, x); }
    if Demand(a, x) in v.served {
      ServedInputIsOk(s, registry, initial, tables, transfers, sites, v, a, x);
    } else {
      LocalInputIsOk(s, registry, initial, tables, transfers, sites, v, a, x);
    }
  }

  lemma TransferIsOk(s: State, registry: Registry, initial: set<ArtifactId>, tables: Tables,
                     transfers: seq<TransferRow>, sites: map<ArtifactId, SiteId>, v: View, p: nat)
    requires Setup(s, registry, initial, tables, transfers, sites, v) && p < |transfers|
    requires transfers[p].consumer.Some? && Done(s, transfers[p].consumer.value)
    ensures TransferOk(v, transfers[p])
  {
    var t := transfers[p];
    assert RowTrue(s, registry, t, initial);
    RowServesDemand(s, registry, initial, transfers, p);
    ServedIsDependency(s, registry, tables, v.byId[t.consumer.value], t.artifact);
  }

  /** A complete verdict on one input that crosses sites: it was moved for this very action. */
  lemma OkInputWasServed(s: State, registry: Registry, initial: set<ArtifactId>, tables: Tables,
                         transfers: seq<TransferRow>, sites: map<ArtifactId, SiteId>, v: View, a: ActionId,
                         x: ArtifactId)
    returns (p: nat)
    requires Setup(s, registry, initial, tables, transfers, sites, v)
    requires Crosses(s, registry, a, x) && a in v.byId && InputOk(v, v.byId[a], a, x)
    ensures p < |transfers| && transfers[p].consumer == Some(a) && transfers[p].artifact == x
    ensures RowTrue(s, registry, transfers[p], initial)
  {
    if x !in initial { var m :| Makes(s, m, x); }
    assert Demand(a, x) in v.served;
    p := ServedRow(s, registry, initial, transfers, a, x);
  }

  lemma CrossingHasRow(s: State, registry: Registry, initial: set<ArtifactId>, tables: Tables,
                       transfers: seq<TransferRow>, sites: map<ArtifactId, SiteId>, v: View, a: ActionId, x: ArtifactId)
    requires Setup(s, registry, initial, tables, transfers, sites, v) && LineageComplete(v, transfers)
    requires Done(s, a) && Crosses(s, registry, a, x)
    ensures HasTransfer(transfers, a, x)
  {
    assert ActionOk(v, a) && InputOk(v, v.byId[a], a, x);
    var p := OkInputWasServed(s, registry, initial, tables, transfers, sites, v, a, x);
  }

  lemma CompleteAccounts(s: State, registry: Registry, initial: set<ArtifactId>, tables: Tables,
                         transfers: seq<TransferRow>, sites: map<ArtifactId, SiteId>, v: View)
    requires Setup(s, registry, initial, tables, transfers, sites, v) && LineageComplete(v, transfers)
    ensures RowsAccount(s, registry, transfers)
  {
    forall p | 0 <= p < |transfers|
      ensures transfers[p].consumer.Some? && Done(s, transfers[p].consumer.value)
    {
      assert transfers[p] in transfers && TransferOk(v, transfers[p]);
    }
    forall a, x | Done(s, a) && Crosses(s, registry, a, x)
      ensures HasTransfer(transfers, a, x)
    {
      CrossingHasRow(s, registry, initial, tables, transfers, sites, v, a, x);
    }
  }

  lemma AccountedInputsAreOk(s: State, registry: Registry, initial: set<ArtifactId>, tables: Tables,
                             transfers: seq<TransferRow>, sites: map<ArtifactId, SiteId>, v: View)
    requires Setup(s, registry, initial, tables, transfers, sites, v) && RowsAccount(s, registry, transfers)
    ensures forall a <- v.ids :: ActionOk(v, a)
  {
    forall a, x | a in v.byId && x in v.byId[a].inputs
      ensures InputOk(v, v.byId[a], a, x)
    {
      InputIsOk(s, registry, initial, tables, transfers, sites, v, a, x);
    }
  }

  lemma AllTransfersAreOk(s: State, registry: Registry, initial: set<ArtifactId>, tables: Tables,
                          transfers: seq<TransferRow>, sites: map<ArtifactId, SiteId>, v: View)
    requires Setup(s, registry, initial, tables, transfers, sites, v) && RowsAccount(s, registry, transfers)
    ensures forall t <- transfers :: TransferOk(v, t)
  {
    forall t | t in transfers
      ensures TransferOk(v, t)
    {
      var p :| 0 <= p < |transfers| && transfers[p] == t;
      TransferIsOk(s, registry, initial, tables, transfers, sites, v, p);
    }
  }

  /** The lineage is complete exactly when the transfers account for the inputs of the actions that did not fail. */
  lemma LineageCompleteExactly(s: State, registry: Registry, initial: set<ArtifactId>, tables: Tables,
                               transfers: seq<TransferRow>, sites: map<ArtifactId, SiteId>, v: View)
    requires Setup(s, registry, initial, tables, transfers, sites, v)
    ensures LineageComplete(v, transfers) <==> RowsAccount(s, registry, transfers)
  {
    if LineageComplete(v, transfers) {
      CompleteAccounts(s, registry, initial, tables, transfers, sites, v);
    }
    if RowsAccount(s, registry, transfers) {
      AccountedInputsAreOk(s, registry, initial, tables, transfers, sites, v);
      AllTransfersAreOk(s, registry, initial, tables, transfers, sites, v);
    }
  }

  // ---------- references ----------

  lemma ExecutionReferences(s: State, registry: Registry, initial: set<ArtifactId>, tables: Tables,
                            transfers: seq<TransferRow>, executions: seq<ExecutionRow>, row: ExecutionRow, d: string)
    requires Rebuilt(s, registry, initial, tables, transfers, executions)
    requires Shows(row, s, tables, registry) && d in row.dependsOn
    ensures d in KnownSpans(executions, transfers)
  {
    DependencyMembers(row.action, row.inputs, tables.served, tables.producers, d);
    var x :| x in row.inputs && Dependency(Demand(row.action, x), tables.served, tables.producers) == Some(d);
    if Demand(row.action, x) in tables.served && tables.served[Demand(row.action, x)].id == d {
      var p := ServedRow(s, registry, initial, transfers, row.action, x);
      assert transfers[p] in transfers;
    } else {
      assert Makes(s, d, x);
      ActionIsKnown(s, registry, tables, transfers, executions, d);
    }
  }

  lemma ActionIsKnown(s: State, registry: Registry, tables: Tables, transfers: seq<TransferRow>,
                      executions: seq<ExecutionRow>, a: ActionId)
    requires ExecutionsTrue(s, registry, tables, executions) && Done(s, a)
    ensures a in KnownSpans(executions, transfers)
  {
  }

  lemma TransferReferences(s: State, registry: Registry, initial: set<ArtifactId>, tables: Tables,
                           transfers: seq<TransferRow>, executions: seq<ExecutionRow>, p: nat, d: string)
    requires TransfersTrue(s, registry, initial, transfers) && ExecutionsTrue(s, registry, tables, executions)
    requires p < |transfers| && d in transfers[p].dependsOn
    ensures d in KnownSpans(executions, transfers)
  {
  }

  lemma ReferencesAreComplete(s: State, registry: Registry, initial: set<ArtifactId>, tables: Tables,
                              transfers: seq<TransferRow>, executions: seq<ExecutionRow>)
    requires Rebuilt(s, registry, initial, tables, transfers, executions)
    ensures ReferencesComplete(executions, transfers)
  {
    forall row, d | row in executions && d in row.dependsOn
      ensures d in KnownSpans(executions, transfers)
    {
      var p :| 0 <= p < |executions| && executions[p] == row;
      ExecutionReferences(s, registry, initial, tables, transfers, executions, row, d);
    }
    forall t, d | t in transfers && d in t.dependsOn
      ensures d in KnownSpans(executions, transfers)
    {
      var p :| 0 <= p < |transfers| && transfers[p] == t;
      TransferReferences(s, registry, initial, tables, transfers, executions, p, d);
    }
  }

  lemma RebuiltVerdict(s: State, registry: Registry, initial: set<ArtifactId>, tables: Tables,
                       transfers: seq<TransferRow>, executions: seq<ExecutionRow>, sites: map<ArtifactId, SiteId>)
    requires Rebuilt(s, registry, initial, tables, transfers, executions)
    requires InitialSites(s, registry, initial, sites)
    ensures DependenciesComplete(executions, transfers, sites) <==> RowsAccount(s, registry, transfers)
  {
    ReferencesAreComplete(s, registry, initial, tables, transfers, executions);
    ViewIsTrue(s, registry, initial, tables, transfers, executions, sites);
    LineageCompleteExactly(s, registry, initial, tables, transfers, sites, ViewOf(executions, transfers, sites));
  }

  // ---------- runs without failures ----------

  /** An input that crosses sites is not empty, and no other action on the same Worker needs it. */
  ghost predicate Undivided(s: State, registry: Registry, a: ActionId, x: ArtifactId) {
    Crosses(s, registry, a, x) ==>
      && x in s.sizes && s.sizes[x] > 0
      && forall b :: Needs(s, b, x) && s.tasks[b].worker == s.tasks[a].worker ==> b == a
  }

  ghost predicate EachInputMovedOnce(s: State, registry: Registry) {
    forall a, x :: Undivided(s, registry, a, x)
  }

  lemma FineActionsAreDone(s: State, initial: set<ArtifactId>)
    requires Complete(s, initial) && Fine(s)
    ensures forall a <- s.tasks :: Done(s, a)
  {
  }

  lemma AccountedIsUndivided(s: State, registry: Registry, initial: set<ArtifactId>, a: ActionId, x: ArtifactId)
    requires Complete(s, initial) && Fine(s) && EventsAccount(s, registry)
    ensures Undivided(s, registry, a, x)
  {
    FineActionsAreDone(s, initial);
    NeedsAreKnown(s);
    if Crosses(s, registry, a, x) {
      var i :| 0 <= i < |s.events| && Delivers(s.events[i]) && s.events[i].action == a && s.events[i].artifact == x;
      DeliveryFacts(s, initial, i);
      forall b | Needs(s, b, x) && s.tasks[b].worker == s.tasks[a].worker
        ensures b == a
      {
        assert Crosses(s, registry, b, x);
        var j :| 0 <= j < |s.events| && Delivers(s.events[j]) && s.events[j].action == b && s.events[j].artifact == x;
        DeliveryFacts(s, initial, j);
        OneDelivery(s, initial, i, j);
      }
    }
  }

  lemma UndividedWasDelivered(s: State, registry: Registry, initial: set<ArtifactId>, a: ActionId, x: ArtifactId)
    requires Complete(s, initial) && Fine(s) && Undivided(s, registry, a, x) && Crosses(s, registry, a, x)
    ensures WasDelivered(s.events, a, x)
  {
    FineActionsAreDone(s, initial);
    var i := NeededWasDelivered(s, initial, a, x);
    DeliveryFacts(s, initial, i);
  }

  /** Without failures the deliveries account for the inputs exactly when each crossing input was moved once. */
  lemma AccountedExactly(s: State, registry: Registry, initial: set<ArtifactId>)
    requires Complete(s, initial) && Fine(s)
    ensures EventsAccount(s, registry) <==> EachInputMovedOnce(s, registry)
  {
    FineActionsAreDone(s, initial);
    if EventsAccount(s, registry) {
      forall a, x
        ensures Undivided(s, registry, a, x)
      {
        AccountedIsUndivided(s, registry, initial, a, x);
      }
    }
    if EachInputMovedOnce(s, registry) {
      forall i | 0 <= i < |s.events| && Delivers(s.events[i])
        ensures Done(s, s.events[i].action)
      {
        DeliveryFacts(s, initial, i);
      }
      forall a, x | Done(s, a) && Crosses(s, registry, a, x)
        ensures WasDelivered(s.events, a, x)
      {
        assert Undivided(s, registry, a, x);
        UndividedWasDelivered(s, registry, initial, a, x);
      }
    }
  }
}
