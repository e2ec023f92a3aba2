/**
 The whole way: run the protocol, rebuild the rows from its events, judge them.
 */
module Verdict {
  import opened Options
  import opened Protocol
  import opened ProtocolSafety
  import opened ProtocolShape
  import opened ProtocolProgress
  import opened FaultFree
  import opened Recording
  import opened TraceRows
  import opened TraceTimes
  import opened TraceFacts
  import opened Lineage
  import opened EndToEnd

  /** The evidence for an event list; `None` when a row cannot be built. */
  function EvidenceFor(events: seq<Event>, registry: Registry, initialSizes: map<ArtifactId, nat>,
                       sites: map<ArtifactId, SiteId>): Option<Evidence>
  {
    var transfers :- TransferRows(events, registry, Producers(events));
    var executions :- ExecutionRows(events, TablesOf(events, initialSizes, transfers), registry);
    var complete := DependenciesComplete(executions, transfers, sites);
    var spans := executions != [] || transfers != [];
    Some(Evidence(complete, spans && TimestampsComplete(executions, transfers), spans && complete))
  }

  method JudgeEvents(events: seq<Event>, registry: Registry, initialSizes: map<ArtifactId, nat>,
                     sites: map<ArtifactId, SiteId>) returns (evidence: Option<Evidence>)
    ensures evidence == EvidenceFor(events, registry, initialSizes, sites)
  {
    var transfers := BuildTransferRows(events, registry);
    if transfers.None? { return None; }
    var executions := BuildExecutionRows(events, registry, initialSizes, transfers.value);
    if executions.None? { return None; }
    var judged := RealizedTrace(executions.value, transfers.value, sites);
    evidence := Some(judged);
  }

  // ---------- origins never change ----------

  ghost predicate KeepsOrigins(s: State, t: State) {
    forall x <- s.origins :: x in t.origins && t.origins[x] == s.origins[x]
  }

  lemma {:induction false} RunKeepsOrigins(s: State, steps: seq<Step>)
    requires Runs(s, steps)
    ensures KeepsOrigins(s, Run(s, steps)) && Run(s, steps).clients == s.clients
    decreases steps
  {
    if steps != [] {
      StepShape(s, steps[0]);
      RunKeepsOrigins(Apply(s, steps[0]), steps[1..]);
    }
  }

  // ---------- the verdict on a run ----------

  /** The sites that the initial artifacts start on. */
  function StartSites(s: State, registry: Registry): map<ArtifactId, SiteId> {
    map x | x in s.origins :: SiteAt(registry, s.origins[x])
  }

  /** A run from Workers that all have clients, failures included, at the end of which every action is finished. */
  ghost predicate EndedRun(s: State, steps: seq<Step>) {
    Initial(s) && Reached(s) && Runs(s, steps) && AllFinished(Run(s, steps))
  }

  ghost predicate FinishedRun(s: State, steps: seq<Step>, registry: Registry) {
    EndedRun(s, steps) && ClientsSited(s, registry) && ExecutorsAgree(Run(s, steps), registry)
  }

  /** Rows of a timed event list have both times. */
  lemma RowsHaveTimes(s: State, registry: Registry, initial: set<ArtifactId>, tables: Tables,
                      transfers: seq<TransferRow>, executions: seq<ExecutionRow>)
    requires Timed(s) && Rebuilt(s, registry, initial, tables, transfers, executions)
    requires TransferRows(s.events, registry, Producers(s.events)) == Some(transfers)
    ensures TimestampsComplete(executions, transfers)
  {
    RowsAreTimed(s.events, registry, Producers(s.events));
    forall row | row in executions
      ensures row.startedAt.Some? && row.finishedAt.Some?
    {
      var p :| 0 <= p < |executions| && executions[p] == row;
      assert Shows(executions[p], s, tables, registry);
    }
  }

  ghost predicate BytesMoved(events: seq<Event>) {
    exists i :: 0 <= i < |events| && Delivers(events[i])
  }

  lemma {:induction false} RowsMeanBytes(events: seq<Event>, registry: Registry, producers: map<ArtifactId, ActionId>)
    requires TransferRows(events, registry, producers).Some?
    ensures TransferRows(events, registry, producers).value != [] <==> BytesMoved(events)
  {
    if events != [] {
      var front := Front(events);
      RowsMeanBytes(front, registry, producers);
      assert forall i :: 0 <= i < |front| ==> front[i] == events[i];
      if Delivers(Last(events)) { assert Delivers(events[|events| - 1]); }
    }
  }

  /** Something to report: an action that did not fail, or bytes that were moved. */
  ghost predicate HasSpans(s: State) {
    (exists a :: Done(s, a)) || BytesMoved(s.events)
  }

  lemma SpansMeanRows(s: State, registry: Registry, initial: set<ArtifactId>, tables: Tables,
                      transfers: seq<TransferRow>, executions: seq<ExecutionRow>)
    requires Rebuilt(s, registry, initial, tables, transfers, executions)
    requires TransferRows(s.events, registry, Producers(s.events)) == Some(transfers)
    ensures executions != [] || transfers != [] <==> HasSpans(s)
  {
    RowsMeanBytes(s.events, registry, Producers(s.events));
    if executions != [] { assert Shows(executions[0], s, tables, registry) && Done(s, executions[0].action); }
    if a :| Done(s, a) { assert HasRow(executions, a); }
  }

  /** The verdict on the events of a finished run. */
  lemma FinishedVerdict(s: State, registry: Registry, initial: set<ArtifactId>, initialSizes: map<ArtifactId, nat>,
                        sites: map<ArtifactId, SiteId>)
    requires Complete(s, initial) && Timed(s) && InitialSites(s, registry, initial, sites)
    requires ClientsSited(s, registry) && ExecutorsAgree(s, registry)
    ensures
      var accounts, spans := EventsAccount(s, registry), HasSpans(s);
      EvidenceFor(s.events, registry, initialSizes, sites) ==
      if AllPlaced(s, registry) then Some(Evidence(accounts, spans, spans && accounts)) else None
  {
    var transfers := RowsRebuildRun(s, registry, initial, initialSizes);
    var tables := TablesOf(s.events, initialSizes, transfers);
    if AllPlaced(s, registry) {
      var executions := ExecutionRows(s.events, tables, registry).value;
      RebuiltVerdict(s, registry, initial, tables, transfers, executions, sites);
      RowsHaveTimes(s, registry, initial, tables, transfers, executions);
      SpansMeanRows(s, registry, initial, tables, transfers, executions);
    }
  }

  lemma RunIsComplete(s: State, steps: seq<Step>)
    requires EndedRun(s, steps)
    ensures Complete(Run(s, steps), s.origins.Keys) && Timed(Run(s, steps))
    ensures KeepsOrigins(s, Run(s, steps)) && Run(s, steps).clients == s.clients
  {
    InitialInv(s);
    RunKeepsInv(s, steps);
    RunRecorded(s, steps, s.origins.Keys);
    RunWhole(s, steps);
    RunTimed(s, steps);
    RunKeepsOrigins(s, steps);
  }

  /**
   In every interleaving, failed pulls and executions included, building the evidence of the finished run raises
   exactly when some action that did not fail ran under an executor without a site.  Otherwise the trace is marked
   complete exactly when bytes were recorded only for actions that did not fail and for each input that such an action
   takes from another site.  Its times are complete unless there is nothing to report.
   */
  lemma TraceVerdict(s: State, steps: seq<Step>, registry: Registry, initialSizes: map<ArtifactId, nat>)
    requires FinishedRun(s, steps, registry)
    ensures
      var t := Run(s, steps);
      var accounts, spans := EventsAccount(t, registry), HasSpans(t);
      EvidenceFor(t.events, registry, initialSizes, StartSites(s, registry)) ==
      if AllPlaced(t, registry) then Some(Evidence(accounts, spans, spans && accounts)) else None
  {
    RunIsComplete(s, steps);
    FinishedVerdict(Run(s, steps), registry, s.origins.Keys, initialSizes, StartSites(s, registry));
  }

  lemma CompleteEvidence(s: State, registry: Registry, initial: set<ArtifactId>, initialSizes: map<ArtifactId, nat>,
                         sites: map<ArtifactId, SiteId>)
    requires Complete(s, initial) && ClientsSited(s, registry)
    ensures EvidenceFor(s.events, registry, initialSizes, sites).Some? <==> AllPlaced(s, registry)
  {
    var transfers, index := TransfersAreBuilt(s, initial, registry);
    RowsBuiltExactly(s, initial, TablesOf(s.events, initialSizes, transfers), registry);
  }

  /** Whatever sites the executors have: there is evidence exactly when each action that did not fail has one. */
  lemma EvidenceExistsExactly(s: State, steps: seq<Step>, registry: Registry, initialSizes: map<ArtifactId, nat>,
                              sites: map<ArtifactId, SiteId>)
    requires EndedRun(s, steps) && ClientsSited(s, registry)
    ensures EvidenceFor(Run(s, steps).events, registry, initialSizes, sites).Some?
       <==> AllPlaced(Run(s, steps), registry)
  {
    RunIsComplete(s, steps);
    CompleteEvidence(Run(s, steps), registry, s.origins.Keys, initialSizes, sites);
  }

  /** An action that failed after bytes had been moved for it leaves a trace that is never marked complete. */
  lemma FailedReceiverIsPartial(s: State, steps: seq<Step>, registry: Registry, initialSizes: map<ArtifactId, nat>,
                                i: nat)
    requires FinishedRun(s, steps, registry) && AllPlaced(Run(s, steps), registry)
    requires i < |Run(s, steps).events| && Delivers(Run(s, steps).events[i])
    requires !Done(Run(s, steps), Run(s, steps).events[i].action)
    ensures EvidenceFor(Run(s, steps).events, registry, initialSizes, StartSites(s, registry))
            == Some(Evidence(false, true, false))
  {
    TraceVerdict(s, steps, registry, initialSizes);
  }

  // ---------- runs without failures ----------

  lemma FaultFreeRunIsFine(s: State, steps: seq<Step>)
    requires Fresh(s) && EndedRun(s, steps) && BenignRun(s, steps)
    ensures Fine(Run(s, steps))
  {
    InitialInv(s);
    FreshFine(s);
    RunFine(s, steps);
  }

  lemma FineSpans(s: State, initial: set<ArtifactId>)
    requires Complete(s, initial) && Fine(s)
    ensures HasSpans(s) <==> s.tasks != map[]
  {
    FineActionsAreDone(s, initial);
    if a :| a in s.tasks { assert Done(s, a); }
    if BytesMoved(s.events) {
      var i :| 0 <= i < |s.events| && Delivers(s.events[i]);
      assert EventFine(s, s.events[i]);
    }
  }

  /**
   Without failures the trace is marked complete exactly when each input that crosses sites is not empty and is needed
   by one action only on its Worker.
   */
  lemma FaultFreeVerdict(s: State, steps: seq<Step>, registry: Registry, initialSizes: map<ArtifactId, nat>)
    requires Fresh(s) && FinishedRun(s, steps, registry) && BenignRun(s, steps)
    ensures
      var t := Run(s, steps);
      var once, acted := EachInputMovedOnce(t, registry), t.tasks != map[];
      EvidenceFor(t.events, registry, initialSizes, StartSites(s, registry)) ==
      if AllPlaced(t, registry) then Some(Evidence(once, acted, acted && once)) else None
  {
    RunIsComplete(s, steps);
    FaultFreeRunIsFine(s, steps);
    TraceVerdict(s, steps, registry, initialSizes);
    AccountedExactly(Run(s, steps), registry, s.origins.Keys);
    FineSpans(Run(s, steps), s.origins.Keys);
  }

  /** No artifact is empty, and none is needed by two actions on one Worker away from its origin. */
  ghost predicate Unshared(s: State) {
    && (forall x <- s.sizes :: s.sizes[x] > 0)
    && (forall a, b, x :: Needs(s, a, x) && Needs(s, b, x) && x in s.origins
                          && s.tasks[a].worker == s.tasks[b].worker && s.tasks[a].worker != s.origins[x]
                          ==> a == b)
  }

  lemma UnsharedTraceIsComplete(s: State, steps: seq<Step>, registry: Registry, initialSizes: map<ArtifactId, nat>)
    requires Fresh(s) && FinishedRun(s, steps, registry) && BenignRun(s, steps)
    requires AllPlaced(Run(s, steps), registry) && Unshared(Run(s, steps)) && Run(s, steps).tasks != map[]
    ensures EvidenceFor(Run(s, steps).events, registry, initialSizes, StartSites(s, registry))
            == Some(Evidence(true, true, true))
  {
    var t := Run(s, steps);
    FaultFreeRunIsFine(s, steps);
    forall a, x
      ensures Undivided(t, registry, a, x)
    {
    }
    FaultFreeVerdict(s, steps, registry, initialSizes);
  }
}
