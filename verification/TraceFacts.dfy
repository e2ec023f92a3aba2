/**
 What the row builders find in the event list of a finished run, failures included.
 */
module TraceFacts {
  import opened Options
  import opened Protocol
  import opened ProtocolInvariant
  import opened ProtocolSafety
  import opened FaultFree
  import opened Recording
  import opened TraceRows

  /** Every action has failed or announced its outputs. */
  ghost predicate Complete(s: State, initial: set<ArtifactId>) {
    && Inv(s) && Reached(s) && Recorded(s, initial) && Whole(s)
    && forall a <- s.tasks :: Finished(s.tasks[a])
  }

  /** The action has not failed. */
  predicate Done(s: State, a: ActionId) {
    a in s.tasks && PhaseOf(s, a).Announced?
  }

  /** Every Worker with a client has a site. */
  ghost predicate ClientsSited(s: State, registry: Registry) {
    forall w <- s.clients :: w in registry.workerSites
  }

  /** The site under which an action's execution is reported; `None` when there is no rule for its executor. */
  function PlaceOf(s: State, registry: Registry, a: ActionId): Option<SiteId>
    requires a in s.tasks
  {
    SiteOf(s.tasks[a].executor, s.tasks[a].worker, registry)
  }

  ghost predicate AllPlaced(s: State, registry: Registry) {
    forall a <- s.tasks | Done(s, a) :: PlaceOf(s, registry, a).Some?
  }

  /** An executor that has a site has that of its Worker, as the registry enforces. */
  ghost predicate ExecutorsAgree(s: State, registry: Registry) {
    forall a <- s.tasks | Done(s, a) :: PlaceOf(s, registry, a).Some? ==>
      && s.tasks[a].worker in registry.workerSites
      && PlaceOf(s, registry, a).value == registry.workerSites[s.tasks[a].worker]
  }

  ghost predicate Fits(s: State, registry: Registry) {
    ClientsSited(s, registry) && AllPlaced(s, registry) && ExecutorsAgree(s, registry)
  }

  ghost predicate Needs(s: State, a: ActionId, x: ArtifactId) {
    ValidIndices(s, a) && x in InputIds(s, s.tasks[a].inputs)
  }

  lemma DoneIsAnnounced(s: State, initial: set<ArtifactId>, a: ActionId)
    requires Complete(s, initial) && Done(s, a)
    ensures PhaseOf(s, a).j == |s.tasks[a].outputs|
    ensures ValidIndices(s, a) && s.tasks[a].worker in s.clients
  {
    assert TaskOk(s, a) && TaskRecorded(s, a);
  }

  // ---------- producers ----------

  lemma {:induction false} ProducerWasCreated(events: seq<Event>, x: ArtifactId)
    requires x in Producers(events)
    ensures WasCreated(events, Producers(events)[x], x)
  {
    var e, front := Last(events), Front(events);
    if !e.Created? || e.artifact != x {
      ProducerWasCreated(front, x);
      var i :| 0 <= i < |front| && front[i].Created? && front[i].action == Producers(front)[x]
               && front[i].artifact == x;
      assert events[i] == front[i];
    } else {
      assert events[|events| - 1] == e;
    }
  }

  lemma {:induction false} CreatedHasProducer(events: seq<Event>, i: nat)
    requires i < |events| && events[i].Created?
    ensures events[i].artifact in Producers(events)
  {
    if i < |events| - 1 {
      assert Front(events)[i] == events[i];
      CreatedHasProducer(Front(events), i);
    }
  }

  lemma ProducerMakes(s: State, initial: set<ArtifactId>, x: ArtifactId)
    requires Complete(s, initial) && x in Producers(s.events)
    ensures Makes(s, Producers(s.events)[x], x)
  {
    ProducerWasCreated(s.events, x);
    var i :| 0 <= i < |s.events| && s.events[i].Created? && s.events[i].action == Producers(s.events)[x]
             && s.events[i].artifact == x;
    assert EventFine(s, s.events[i]);
  }

  lemma MakerIsDone(s: State, initial: set<ArtifactId>, a: ActionId, x: ArtifactId)
    requires Complete(s, initial) && Makes(s, a, x)
    ensures Done(s, a)
  {
    assert TaskOutputs(s, a, initial);
  }

  lemma MakerIsProducer(s: State, initial: set<ArtifactId>, a: ActionId, x: ArtifactId)
    requires Complete(s, initial) && Makes(s, a, x)
    ensures x in Producers(s.events) && Producers(s.events)[x] == a
  {
    MakerIsDone(s, initial, a, x);
    DoneIsAnnounced(s, initial, a);
    assert TaskRecorded(s, a);
    var k :| 0 <= k < |s.tasks[a].outputs| && s.tasks[a].outputs[k] == x;
    assert WasCreated(s.events, a, s.tasks[a].outputs[k]);
    var i :| 0 <= i < |s.events| && s.events[i].Created? && s.events[i].action == a && s.events[i].artifact == x;
    CreatedHasProducer(s.events, i);
    ProducerMakes(s, initial, x);
  }

  // ---------- deliveries ----------

  lemma {:induction false} MovedHasEvent(events: seq<Event>, key: Key) returns (i: nat)
    requires Moved(events, key) > 0
    ensures i < |events| && Delivers(events[i]) && Key(events[i].artifact, events[i].target) == key
  {
    i := |events| - 1;
    if BytesOf(events[i], key) == 0 { i := MovedHasEvent(events[..i], key); }
  }

  lemma {:induction false} MovedCountsBoth(events: seq<Event>, key: Key, i: nat, j: nat)
    requires i < j < |events|
    ensures Moved(events, key) >= BytesOf(events[i], key) + BytesOf(events[j], key)
  {
    var n := |events| - 1;
    if j < n {
      assert events[..n][i] == events[i] && events[..n][j] == events[j];
      MovedCountsBoth(events[..n], key, i, j);
    } else {
      assert events[..n][i] == events[i];
      MovedCountsOne(events[..n], key, i);
    }
  }

  lemma {:induction false} MovedCountsOne(events: seq<Event>, key: Key, i: nat)
    requires i < |events|
    ensures Moved(events, key) >= BytesOf(events[i], key)
  {
    var n := |events| - 1;
    if i < n {
      assert events[..n][i] == events[i];
      MovedCountsOne(events[..n], key, i);
    }
  }

  lemma DeliveryFacts(s: State, initial: set<ArtifactId>, i: nat)
    requires Complete(s, initial) && i < |s.events| && Delivers(s.events[i])
    ensures
      var e := s.events[i];
      && Needs(s, e.action, e.artifact) && e.target == s.tasks[e.action].worker && e.target in s.clients
      && e.artifact in s.origins && e.source == s.origins[e.artifact] && e.source in s.clients
      && e.artifact in s.sizes && e.bytes == s.sizes[e.artifact] && e.bytes > 0
  {
    assert EventFine(s, s.events[i]) && EventWhole(s, s.events[i]);
    assert TaskOk(s, s.events[i].action);
  }

  /** The bytes of an artifact reach a Worker at most once. */
  lemma OneDelivery(s: State, initial: set<ArtifactId>, i: nat, j: nat)
    requires Complete(s, initial) && i < |s.events| && j < |s.events|
    requires Delivers(s.events[i]) && Delivers(s.events[j])
    requires s.events[i].artifact == s.events[j].artifact && s.events[i].target == s.events[j].target
    ensures i == j
  {
    var key := Key(s.events[i].artifact, s.events[i].target);
    DeliveryFacts(s, initial, i);
    DeliveryFacts(s, initial, j);
    assert Moved(s.events, key) == 0 || Moved(s.events, key) == s.sizes[key.artifact];
    if i < j { MovedCountsBoth(s.events, key, i, j); }
    if j < i { MovedCountsBoth(s.events, key, j, i); }
  }

  lemma NothingArrives(s: State, initial: set<ArtifactId>)
    requires Complete(s, initial)
    ensures forall key: Key :: !InFlight(s, key)
  {
  }

  lemma NeededIsStored(s: State, a: ActionId, x: ArtifactId)
    requires Inv(s) && Done(s, a) && Needs(s, a, x)
    ensures HasCopy(s, Key(x, s.tasks[a].worker))
  {
    var t := s.tasks[a];
    assert TaskOk(s, a);
    var k :| 0 <= k < |t.inputs| && InputIds(s, t.inputs)[k] == x;
    LocalInputStored(s, a, k);
  }

  lemma LocalInputStored(s: State, a: ActionId, k: nat)
    requires ValidIndices(s, a) && InputsLocal(s, a) && k < LocalInputs(s.tasks[a]) <= |s.tasks[a].inputs|
    ensures HasCopy(s, Key(s.refs[s.tasks[a].inputs[k]].id, s.tasks[a].worker))
  {
  }

  lemma StoredWasMoved(s: State, initial: set<ArtifactId>, key: Key)
    requires Complete(s, initial) && Fine(s) && HasCopy(s, key) && key.artifact in s.origins
    requires key.worker != s.origins[key.artifact]
    ensures Moved(s.events, key) == s.sizes[key.artifact]
  {
    NothingArrives(s, initial);
    assert KeyFine(s, key);
  }

  /** Without failures, what is needed away from its origin and is not empty was delivered to that Worker. */
  lemma NeededWasDelivered(s: State, initial: set<ArtifactId>, a: ActionId, x: ArtifactId) returns (i: nat)
    requires Complete(s, initial) && Fine(s) && Done(s, a) && Needs(s, a, x)
    requires x in s.origins && x in s.sizes && s.tasks[a].worker != s.origins[x] && s.sizes[x] > 0
    ensures i < |s.events| && Delivers(s.events[i])
    ensures s.events[i].artifact == x && s.events[i].target == s.tasks[a].worker
  {
    NeededIsStored(s, a, x);
    StoredWasMoved(s, initial, Key(x, s.tasks[a].worker));
    i := MovedHasEvent(s.events, Key(x, s.tasks[a].worker));
  }

  // ---------- transfer rows ----------

  /** The row tells the story of the event. */
  ghost predicate Tells(row: TransferRow, e: Event, registry: Registry, producers: map<ArtifactId, ActionId>) {
    && e.TransferEnded? && Sited(e, registry)
    && row.artifact == e.artifact && row.bytes == e.bytes && row.consumer == Some(e.action)
    && row.source == registry.workerSites[e.source] && row.target == registry.workerSites[e.target]
    && row.producer == (if e.artifact in producers then Some(producers[e.artifact]) else None)
    && row.dependsOn == (if e.artifact in producers then [producers[e.artifact]] else [])
    && row.id != "" && row.finishedAt == Some(e.at)
  }

  /** `index` lists the events that made the rows, in order. */
  ghost predicate Traced(rows: seq<TransferRow>, index: seq<nat>, events: seq<Event>, registry: Registry,
                         producers: map<ArtifactId, ActionId>)
  {
    && |index| == |rows|
    && (forall p :: 0 <= p < |index| ==>
          index[p] < |events| && Delivers(events[index[p]]) && Tells(rows[p], events[index[p]], registry, producers))
    && (forall p, q :: 0 <= p < q < |index| ==> index[p] < index[q])
    && (forall i :: 0 <= i < |events| && Delivers(events[i]) ==> i in index)
  }

  lemma TraceOneMore(rows: seq<TransferRow>, index: seq<nat>, row: TransferRow, events: seq<Event>, registry: Registry,
                     producers: map<ArtifactId, ActionId>)
    requires events != [] && Traced(rows, index, Front(events), registry, producers)
    requires Delivers(Last(events)) && Tells(row, Last(events), registry, producers)
    ensures Traced(rows + [row], index + [|events| - 1], events, registry, producers)
  {
  }

  lemma TraceNoMore(rows: seq<TransferRow>, index: seq<nat>, events: seq<Event>, registry: Registry,
                    producers: map<ArtifactId, ActionId>)
    requires events != [] && Traced(rows, index, Front(events), registry, producers) && !Delivers(Last(events))
    ensures Traced(rows, index, events, registry, producers)
  {
  }

  lemma {:induction false} RowsAreTraced(events: seq<Event>, registry: Registry, producers: map<ArtifactId, ActionId>)
    returns (rows: seq<TransferRow>, index: seq<nat>)
    requires forall i :: 0 <= i < |events| && Delivers(events[i]) ==> Sited(events[i], registry)
    ensures TransferRows(events, registry, producers) == Some(rows)
    ensures Traced(rows, index, events, registry, producers)
  {
    if events == [] {
      rows, index := [], [];
    } else {
      var e, front := Last(events), Front(events);
      assert forall i :: 0 <= i < |front| ==> front[i] == events[i];
      rows, index := RowsAreTraced(front, registry, producers);
      if Delivers(e) {
        assert Sited(events[|events| - 1], registry);
        var row := TransferRowFor(e, |rows| + 1, Head(Pending(front, WireOf(e))), registry, producers);
        assert |row.id| > 0;
        TraceOneMore(rows, index, row, events, registry, producers);
        rows, index := rows + [row], index + [|events| - 1];
      } else {
        TraceNoMore(rows, index, events, registry, producers);
      }
    }
  }

  lemma DeliveriesAreSited(s: State, initial: set<ArtifactId>, registry: Registry)
    requires Complete(s, initial) && ClientsSited(s, registry)
    ensures forall i :: 0 <= i < |s.events| && Delivers(s.events[i]) ==> Sited(s.events[i], registry)
  {
  }

  /** When every client has a site, the transfer rows can be built. */
  lemma TransfersAreBuilt(s: State, initial: set<ArtifactId>, registry: Registry)
    returns (rows: seq<TransferRow>, index: seq<nat>)
    requires Complete(s, initial) && ClientsSited(s, registry)
    ensures TransferRows(s.events, registry, Producers(s.events)) == Some(rows)
    ensures Traced(rows, index, s.events, registry, Producers(s.events))
  {
    DeliveriesAreSited(s, initial, registry);
    rows, index := RowsAreTraced(s.events, registry, Producers(s.events));
  }

  /** Each input that was served has one row, and the table holds it. */
  lemma {:induction false} RowIsServed(rows: seq<TransferRow>, p: nat)
    requires p < |rows| && rows[p].consumer.Some?
    requires forall q :: p < q < |rows| ==> rows[q].consumer != rows[p].consumer || rows[q].artifact != rows[p].artifact
    ensures Demand(rows[p].consumer.value, rows[p].artifact) in TransferFor(rows)
    ensures TransferFor(rows)[Demand(rows[p].consumer.value, rows[p].artifact)] == rows[p]
  {
    var n := |rows| - 1;
    if p < n {
      assert rows[..n][p] == rows[p];
      forall q | p < q < n
        ensures rows[..n][q].consumer != rows[p].consumer || rows[..n][q].artifact != rows[p].artifact
      {
        assert rows[..n][q] == rows[q];
      }
      RowIsServed(rows[..n], p);
    }
  }

  // ---------- execution rows ----------

  lemma {:induction false} RequestsFound(events: seq<Event>, a: ActionId)
    ensures a in Requests(events) ==>
              exists i :: 0 <= i < |events| && events[i].Requested? && events[i].action == a
                          && events[i].inputs == Requests(events)[a]
    ensures WasRequested(events, a) ==> a in Requests(events)
  {
    if events != [] {
      var e, front := Last(events), Front(events);
      RequestsFound(front, a);
      assert forall i :: 0 <= i < |front| ==> front[i] == events[i];
      if !e.Requested? || e.action != a {
        if WasRequested(events, a) {
          var i :| 0 <= i < |events| && events[i].Requested? && events[i].action == a;
          assert front[i] == events[i];
        }
      } else {
        assert events[|events| - 1] == e;
      }
    }
  }

  lemma {:induction false} StartsFound(events: seq<Event>, a: ActionId)
    requires WasStarted(events, a)
    ensures a in Starts(events)
  {
    var e, front := Last(events), Front(events);
    if !e.ExecutionStarted? || e.action != a {
      var i :| 0 <= i < |events| && events[i].ExecutionStarted? && events[i].action == a;
      assert front[i] == events[i];
      StartsFound(front, a);
    }
  }

  predicate Completes(e: Event) {
    e.ExecutionEnded? && e.success
  }

  /** The row shows the action as it ran. */
  ghost predicate Shows(row: ExecutionRow, s: State, tables: Tables, registry: Registry) {
    && ValidIndices(s, row.action) && Done(s, row.action)
    && var t := s.tasks[row.action];
    && row.inputs == InputIds(s, t.inputs) && row.outputs == t.outputs
    && t.worker in registry.workerSites && row.site == registry.workerSites[t.worker]
    && row.dependsOn == Dependencies(row.action, row.inputs, tables.served, tables.producers)
    && row.action in tables.starts && row.startedAt == Some(tables.starts[row.action]) && row.finishedAt.Some?
  }

  lemma RequestedInputs(s: State, initial: set<ArtifactId>, a: ActionId)
    requires Complete(s, initial) && Done(s, a) && ValidIndices(s, a)
    ensures a in Requests(s.events) && Requests(s.events)[a] == InputIds(s, s.tasks[a].inputs)
    ensures a in Starts(s.events)
  {
    assert TaskRecorded(s, a);
    DoneIsAnnounced(s, initial, a);
    RequestsFound(s.events, a);
    var i :| 0 <= i < |s.events| && s.events[i].Requested? && s.events[i].action == a
             && s.events[i].inputs == Requests(s.events)[a];
    assert EventFine(s, s.events[i]);
    StartsFound(s.events, a);
  }

  lemma EndedRowShows(s: State, initial: set<ArtifactId>, e: Event, tables: Tables, registry: Registry)
    requires Complete(s, initial) && Fits(s, registry) && EventFine(s, e) && Completes(e)
    requires tables.requests == Requests(s.events) && tables.starts == Starts(s.events)
    ensures ExecutionRowFor(e, tables, registry).Some?
    ensures ExecutionRowFor(e, tables, registry).value.action == e.action
    ensures Shows(ExecutionRowFor(e, tables, registry).value, s, tables, registry)
  {
    DoneIsAnnounced(s, initial, e.action);
    RequestedInputs(s, initial, e.action);
  }

  /** Every successful end among the first `n` events has a row. */
  ghost predicate Covers(rows: seq<ExecutionRow>, events: seq<Event>, n: nat)
    requires n <= |events|
  {
    forall i :: 0 <= i < n && events[i].ExecutionEnded? && events[i].success ==> HasRow(rows, events[i].action)
  }

  ghost predicate HasRow(rows: seq<ExecutionRow>, a: ActionId) {
    exists p :: 0 <= p < |rows| && rows[p].action == a
  }

  lemma CoversOneMore(rows: seq<ExecutionRow>, row: ExecutionRow, events: seq<Event>, n: nat)
    requires n < |events| && Covers(rows, events, n) && row.action == events[n].action
    ensures Covers(rows + [row], events, n + 1)
  {
    var more := rows + [row];
    assert more[|rows|].action == row.action;
    forall i | 0 <= i < n && events[i].ExecutionEnded? && events[i].success
      ensures HasRow(more, events[i].action)
    {
      var p :| 0 <= p < |rows| && rows[p].action == events[i].action;
      assert more[p].action == events[i].action;
    }
  }

  /** The row was built from one of the first `n` events. */
  ghost predicate BuiltFrom(row: ExecutionRow, events: seq<Event>, n: nat, tables: Tables, registry: Registry)
    requires n <= |events|
  {
    exists i :: 0 <= i < n && Completes(events[i]) && ExecutionRowFor(events[i], tables, registry) == Some(row)
  }

  lemma {:induction false} RowsAreBuilt(events: seq<Event>, n: nat, tables: Tables, registry: Registry)
    returns (rows: seq<ExecutionRow>)
    requires n <= |events|
    requires forall i :: 0 <= i < n && Completes(events[i]) ==> ExecutionRowFor(events[i], tables, registry).Some?
    ensures ExecutionRows(events[..n], tables, registry) == Some(rows)
    ensures forall p :: 0 <= p < |rows| ==> BuiltFrom(rows[p], events, n, tables, registry)
    ensures Covers(rows, events, n)
  {
    if n == 0 {
      rows := [];
    } else {
      var e := events[n - 1];
      assert Last(events[..n]) == e && Front(events[..n]) == events[..n - 1];
      rows := RowsAreBuilt(events, n - 1, tables, registry);
      forall p | 0 <= p < |rows|
        ensures BuiltFrom(rows[p], events, n, tables, registry)
      {
        assert BuiltFrom(rows[p], events, n - 1, tables, registry);
      }
      if Completes(e) {
        var row := ExecutionRowFor(e, tables, registry).value;
        CoversOneMore(rows, row, events, n - 1);
        assert BuiltFrom(row, events, n, tables, registry);
        rows := rows + [row];
      }
    }
  }

  ghost predicate EndsShow(s: State, tables: Tables, registry: Registry) {
    forall i :: 0 <= i < |s.events| && Completes(s.events[i]) ==>
      && ExecutionRowFor(s.events[i], tables, registry).Some?
      && Shows(ExecutionRowFor(s.events[i], tables, registry).value, s, tables, registry)
  }

  lemma CompleteEndsShow(s: State, initial: set<ArtifactId>, tables: Tables, registry: Registry)
    requires Complete(s, initial) && Fits(s, registry)
    requires tables.requests == Requests(s.events) && tables.starts == Starts(s.events)
    ensures EndsShow(s, tables, registry)
  {
    forall i | 0 <= i < |s.events| && Completes(s.events[i])
      ensures ExecutionRowFor(s.events[i], tables, registry).Some?
      ensures Shows(ExecutionRowFor(s.events[i], tables, registry).value, s, tables, registry)
    {
      assert EventFine(s, s.events[i]);
      EndedRowShows(s, initial, s.events[i], tables, registry);
    }
  }

  lemma RowsShow(s: State, tables: Tables, registry: Registry) returns (rows: seq<ExecutionRow>)
    requires EndsShow(s, tables, registry)
    ensures ExecutionRows(s.events, tables, registry) == Some(rows)
    ensures forall p :: 0 <= p < |rows| ==> Shows(rows[p], s, tables, registry)
    ensures Covers(rows, s.events, |s.events|)
  {
    assert s.events[..|s.events|] == s.events;
    rows := RowsAreBuilt(s.events, |s.events|, tables, registry);
    forall p | 0 <= p < |rows|
      ensures Shows(rows[p], s, tables, registry)
    {
      assert BuiltFrom(rows[p], s.events, |s.events|, tables, registry);
    }
  }

  lemma EveryActionHasRow(s: State, initial: set<ArtifactId>, rows: seq<ExecutionRow>, a: ActionId)
    requires Complete(s, initial) && Done(s, a) && Covers(rows, s.events, |s.events|)
    ensures HasRow(rows, a)
  {
    assert TaskRecorded(s, a);
  }

  /** One execution without a site makes the whole building fail. */
  lemma {:induction false} OneMissingRow(events: seq<Event>, i: nat, tables: Tables, registry: Registry)
    requires i < |events| && Completes(events[i]) && ExecutionRowFor(events[i], tables, registry).None?
    ensures ExecutionRows(events, tables, registry).None?
  {
    if i < |events| - 1 {
      assert Front(events)[i] == events[i];
      OneMissingRow(Front(events), i, tables, registry);
    }
  }

  lemma EndedRowExists(s: State, initial: set<ArtifactId>, i: nat, tables: Tables, registry: Registry)
    requires Complete(s, initial) && i < |s.events| && Completes(s.events[i])
    requires tables.requests == Requests(s.events) && tables.starts == Starts(s.events)
    ensures Done(s, s.events[i].action)
    ensures ExecutionRowFor(s.events[i], tables, registry).Some? <==> PlaceOf(s, registry, s.events[i].action).Some?
  {
    assert EventFine(s, s.events[i]);
    DoneIsAnnounced(s, initial, s.events[i].action);
    RequestedInputs(s, initial, s.events[i].action);
  }

  lemma PlacedRowsAreBuilt(s: State, initial: set<ArtifactId>, tables: Tables, registry: Registry)
    requires Complete(s, initial) && AllPlaced(s, registry)
    requires tables.requests == Requests(s.events) && tables.starts == Starts(s.events)
    ensures ExecutionRows(s.events, tables, registry).Some?
  {
    forall i | 0 <= i < |s.events| && Completes(s.events[i])
      ensures ExecutionRowFor(s.events[i], tables, registry).Some?
    {
      EndedRowExists(s, initial, i, tables, registry);
    }
    assert s.events[..|s.events|] == s.events;
    var rows := RowsAreBuilt(s.events, |s.events|, tables, registry);
  }

  lemma UnplacedRowIsMissing(s: State, initial: set<ArtifactId>, tables: Tables, registry: Registry, a: ActionId)
    requires Complete(s, initial) && Done(s, a) && PlaceOf(s, registry, a).None?
    requires tables.requests == Requests(s.events) && tables.starts == Starts(s.events)
    ensures ExecutionRows(s.events, tables, registry).None?
  {
    DoneIsAnnounced(s, initial, a);
    assert TaskRecorded(s, a);
    var i :| 0 <= i < |s.events| && s.events[i].ExecutionEnded? && s.events[i].success && s.events[i].action == a;
    EndedRowExists(s, initial, i, tables, registry);
    OneMissingRow(s.events, i, tables, registry);
  }

  /** The execution rows can be built exactly when every action that did not fail ran under an executor with a site. */
  lemma RowsBuiltExactly(s: State, initial: set<ArtifactId>, tables: Tables, registry: Registry)
    requires Complete(s, initial)
    requires tables.requests == Requests(s.events) && tables.starts == Starts(s.events)
    ensures ExecutionRows(s.events, tables, registry).Some? <==> AllPlaced(s, registry)
  {
    if AllPlaced(s, registry) {
      PlacedRowsAreBuilt(s, initial, tables, registry);
    } else {
      var a :| a in s.tasks && Done(s, a) && PlaceOf(s, registry, a).None?;
      UnplacedRowIsMissing(s, initial, tables, registry, a);
    }
  }

  lemma {:induction false} DependencyMembers(a: ActionId, inputs: seq<ArtifactId>, served: map<Demand, TransferRow>,
                                             producers: map<ArtifactId, ActionId>, d: string)
    ensures d in Dependencies(a, inputs, served, producers) <==>
            exists x :: x in inputs && Dependency(Demand(a, x), served, producers) == Some(d)
  {
    if inputs != [] {
      var n := |inputs| - 1;
      DependencyMembers(a, inputs[..n], served, producers, d);
      assert inputs == inputs[..n] + [inputs[n]];
      if d in Dependencies(a, inputs[..n], served, producers) {
        var x :| x in inputs[..n] && Dependency(Demand(a, x), served, producers) == Some(d);
        assert x in inputs;
      } else if d in Dependencies(a, inputs, served, producers) {
        assert inputs[n] in inputs;
      }
    }
  }

  // ---------- byte columns ----------

  lemma {:induction false} SizeWasRecorded(events: seq<Event>, initialSizes: map<ArtifactId, nat>, x: ArtifactId)
    requires x in Sizes(events, initialSizes)
    ensures (x in initialSizes && Sizes(events, initialSizes)[x] == initialSizes[x])
            || exists i :: 0 <= i < |events| && events[i].Created? && events[i].artifact == x
                    && events[i].size == Sizes(events, initialSizes)[x]
  {
    if events != [] {
      var e, front := Last(events), Front(events);
      if e.Created? && e.artifact == x {
        assert events[|events| - 1] == e;
      } else {
        SizeWasRecorded(front, initialSizes, x);
        assert forall i :: 0 <= i < |front| ==> front[i] == events[i];
      }
    }
  }

  lemma {:induction false} CreatedHasSize(events: seq<Event>, initialSizes: map<ArtifactId, nat>, x: ArtifactId)
    ensures x in Sizes(events, initialSizes) <==> x in initialSizes || x in Producers(events)
  {
    if events != [] { CreatedHasSize(Front(events), initialSizes, x); }
  }

  /** Created events carry the sizes of `sizes`. */
  ghost predicate SizesRecorded(events: seq<Event>, sizes: map<ArtifactId, nat>) {
    forall i :: 0 <= i < |events| && events[i].Created? ==>
      events[i].artifact in sizes && events[i].size == sizes[events[i].artifact]
  }

  lemma CompleteSizesRecorded(s: State, initial: set<ArtifactId>)
    requires Complete(s, initial)
    ensures SizesRecorded(s.events, s.sizes)
  {
    forall i | 0 <= i < |s.events| && s.events[i].Created?
      ensures s.events[i].artifact in s.sizes && s.events[i].size == s.sizes[s.events[i].artifact]
    {
      assert EventFine(s, s.events[i]);
    }
  }

  lemma OriginIsRecorded(s: State, initial: set<ArtifactId>, x: ArtifactId)
    requires Complete(s, initial) && x in s.origins
    ensures x in initial || x in Producers(s.events)
  {
    if x !in initial {
      var a :| Makes(s, a, x);
      MakerIsProducer(s, initial, a, x);
    }
  }

  lemma RecordedSizeIsTrue(events: seq<Event>, initialSizes: map<ArtifactId, nat>, sizes: map<ArtifactId, nat>,
                           x: ArtifactId)
    requires SizesRecorded(events, sizes)
    requires forall y <- initialSizes :: y in sizes && initialSizes[y] == sizes[y]
    requires x in initialSizes || x in Producers(events)
    ensures x in sizes && Get(Sizes(events, initialSizes), x) == sizes[x]
  {
    CreatedHasSize(events, initialSizes, x);
    SizeWasRecorded(events, initialSizes, x);
  }

  /** The table of sizes holds the true size of every artifact. */
  lemma SizesAreTrue(s: State, initial: set<ArtifactId>, initialSizes: map<ArtifactId, nat>, x: ArtifactId)
    requires Complete(s, initial) && x in s.origins
    requires initialSizes.Keys == initial && forall y <- initialSizes :: y in s.sizes && initialSizes[y] == s.sizes[y]
    ensures Get(Sizes(s.events, initialSizes), x) == Get(s.sizes, x)
  {
    CompleteSizesRecorded(s, initial);
    OriginIsRecorded(s, initial, x);
    RecordedSizeIsTrue(s.events, initialSizes, s.sizes, x);
  }

  lemma {:induction false} TotalsAgree(a: map<ArtifactId, nat>, b: map<ArtifactId, nat>, ids: seq<ArtifactId>)
    requires forall i :: 0 <= i < |ids| ==> Get(a, ids[i]) == Get(b, ids[i])
    ensures TotalBytes(a, ids) == TotalBytes(b, ids)
  {
    if ids != [] { TotalsAgree(a, b, ids[1..]); }
  }

  lemma BytesAreTrue(s: State, initial: set<ArtifactId>, initialSizes: map<ArtifactId, nat>, ids: seq<ArtifactId>)
    requires Complete(s, initial) && forall i :: 0 <= i < |ids| ==> ids[i] in s.origins
    requires initialSizes.Keys == initial && forall y <- initialSizes :: y in s.sizes && initialSizes[y] == s.sizes[y]
    ensures TotalBytes(Sizes(s.events, initialSizes), ids) == TotalBytes(s.sizes, ids)
  {
    forall i | 0 <= i < |ids|
      ensures Get(Sizes(s.events, initialSizes), ids[i]) == Get(s.sizes, ids[i])
    {
      SizesAreTrue(s, initial, initialSizes, ids[i]);
    }
    TotalsAgree(Sizes(s.events, initialSizes), s.sizes, ids);
  }

  lemma OutputsHaveOrigins(s: State, initial: set<ArtifactId>, a: ActionId)
    requires Complete(s, initial) && a in s.tasks
    ensures forall i :: 0 <= i < |s.tasks[a].outputs| ==> s.tasks[a].outputs[i] in s.origins
  {
    assert TaskOutputs(s, a, initial);
  }

  lemma EndedRowBytes(s: State, initial: set<ArtifactId>, e: Event, tables: Tables, registry: Registry)
    requires Complete(s, initial) && EventFine(s, e) && Completes(e) && PlaceOf(s, registry, e.action).Some?
    requires tables.requests == Requests(s.events) && tables.starts == Starts(s.events)
    ensures
      var row := ExecutionRowFor(e, tables, registry);
      && row.Some? && row.value.inputBytes == TotalBytes(tables.sizes, InputsOf(s, e.action))
      && row.value.outputBytes == TotalBytes(tables.sizes, s.tasks[e.action].outputs)
  {
    DoneIsAnnounced(s, initial, e.action);
    RequestedInputs(s, initial, e.action);
  }

  lemma ActionBytesAreTrue(s: State, initial: set<ArtifactId>, initialSizes: map<ArtifactId, nat>, a: ActionId)
    requires Complete(s, initial) && a in s.tasks
    requires initialSizes.Keys == initial && forall y <- initialSizes :: y in s.sizes && initialSizes[y] == s.sizes[y]
    ensures TotalBytes(Sizes(s.events, initialSizes), InputsOf(s, a)) == TotalBytes(s.sizes, InputsOf(s, a))
    ensures TotalBytes(Sizes(s.events, initialSizes), s.tasks[a].outputs) == TotalBytes(s.sizes, s.tasks[a].outputs)
  {
    InputsHaveOrigins(s, a);
    OutputsHaveOrigins(s, initial, a);
    BytesAreTrue(s, initial, initialSizes, InputsOf(s, a));
    BytesAreTrue(s, initial, initialSizes, s.tasks[a].outputs);
  }

  /** The byte columns of an execution row add up the true sizes of what the action took and made. */
  lemma RowBytesAreTrue(s: State, initial: set<ArtifactId>, initialSizes: map<ArtifactId, nat>,
                        transfers: seq<TransferRow>, registry: Registry, e: Event)
    requires Complete(s, initial) && EventFine(s, e) && Completes(e) && PlaceOf(s, registry, e.action).Some?
    requires initialSizes.Keys == initial && forall y <- initialSizes :: y in s.sizes && initialSizes[y] == s.sizes[y]
    ensures
      var row := ExecutionRowFor(e, TablesOf(s.events, initialSizes, transfers), registry);
      && row.Some? && row.value.inputBytes == TotalBytes(s.sizes, InputsOf(s, e.action))
      && row.value.outputBytes == TotalBytes(s.sizes, s.tasks[e.action].outputs)
  {
    EndedRowBytes(s, initial, e, TablesOf(s.events, initialSizes, transfers), registry);
    ActionBytesAreTrue(s, initial, initialSizes, e.action);
  }

  function InputsOf(s: State, a: ActionId): seq<ArtifactId> {
    if a in s.tasks && InRange(s.tasks[a].inputs, s.refs) then InputIds(s, s.tasks[a].inputs) else []
  }

  lemma InputsHaveOrigins(s: State, a: ActionId)
    requires RefsOk(s)
    ensures forall i :: 0 <= i < |InputsOf(s, a)| ==> InputsOf(s, a)[i] in s.origins
  {
    forall i | 0 <= i < |InputsOf(s, a)|
      ensures InputsOf(s, a)[i] in s.origins
    {
      assert RefOk(s, s.refs[s.tasks[a].inputs[i]]);
    }
  }
}
