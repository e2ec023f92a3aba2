/**
 What the execution rows say about the run: which event each row tells, when it started, when it finished, and that
 nothing is announced before it finished.
 */
module ExecutionTimes {
  import opened Options
  import opened Protocol
  import opened ProtocolInvariant
  import ProtocolSteps
  import opened ProtocolSafety
  import opened ProtocolShape
  import opened Recording
  import opened TraceRows
  import opened TraceTimes
  import opened TraceFacts
  import opened ProvenanceOrder
  import opened Verdict

  // ---------- the order of the events of one action ----------

  /** A successful end follows its start, and is the only one of its action. */
  ghost predicate EndFits(s: State, i: nat)
    requires i < |s.events|
  {
    var e, starts := s.events[i], Starts(s.events);
    Completes(e) ==>
      && e.action in starts && starts[e.action] < i
      && forall j :: 0 <= j < |s.events| && Completes(s.events[j]) && s.events[j].action == e.action ==> j == i
  }

  ghost predicate EndedBefore(events: seq<Event>, a: ActionId, i: nat) {
    exists j :: 0 <= j < i && j < |events| && Completes(events[j]) && events[j].action == a
  }

  ghost predicate EndsFit(s: State) {
    && (forall i :: 0 <= i < |s.events| ==> EndFits(s, i))
    && (forall i :: 0 <= i < |s.events| && s.events[i].Created? ==> EndedBefore(s.events, s.events[i].action, i))
  }

  /** A recorded event is the step's own report. */
  lemma NewEnd(s: State, step: Step, s': State, j: nat)
    requires Shape(s, step, s') && |s.events| <= j < |s'.events|
    ensures j == |s.events| && Reported(s, step) == [s'.events[j]]
    ensures Completes(s'.events[j]) ==> step.RecordExecution? && s'.events[j].action == step.a
    ensures s'.events[j].Created? ==> step.RecordCreated? && s'.events[j].action == step.a
  {
    ReportedByActor(s, step);
    assert s'.events[j] == Reported(s, step)[j - |s.events|];
  }

  /** No further end is recorded for an action that has one. */
  lemma StaysOnly(s: State, step: Step, s': State, initial: set<ArtifactId>, i: nat, j: nat)
    requires Recorded(s, initial) && Shape(s, step, s') && i < |s.events| && Completes(s.events[i])
    requires |s.events| <= j < |s'.events| && Completes(s'.events[j])
    ensures s'.events[j].action != s.events[i].action
  {
    NewEnd(s, step, s', j);
    assert EventFine(s, s.events[i]);
  }

  lemma StartKept(s: State, step: Step, s': State, e: Event)
    requires EventsFine(s) && Shape(s, step, s') && EventFine(s, e) && Completes(e) && e.action in Starts(s.events)
    ensures e.action in Starts(s'.events) && Starts(s'.events)[e.action] == Starts(s.events)[e.action]
  {
    StartsAfter(s, step, s');
  }

  lemma OldEndFits(s: State, step: Step, s': State, initial: set<ArtifactId>, i: nat)
    requires Recorded(s, initial) && EndsFit(s) && Shape(s, step, s') && i < |s.events|
    ensures EndFits(s', i)
  {
    StaysEnded(s.events, s'.events, i);
    assert EndFits(s, i) && EventFine(s, s.events[i]);
    if Completes(s.events[i]) {
      StartKept(s, step, s', s.events[i]);
      forall j | 0 <= j < |s'.events| && Completes(s'.events[j]) && s'.events[j].action == s.events[i].action
        ensures j == i
      {
        if j < |s.events| { StaysEnded(s.events, s'.events, j); } else { StaysOnly(s, step, s', initial, i, j); }
      }
    }
  }

  lemma NewEndFits(s: State, step: Step, s': State, initial: set<ArtifactId>)
    requires StartsFit(s) && Recorded(s, initial) && Shape(s, step, s') && step.RecordExecution?
    requires |s'.events| == |s.events| + 1 && Completes(s'.events[|s.events|])
    requires s'.events[|s.events|].action == step.a
    ensures EndFits(s', |s.events|)
  {
    var a := step.a;
    StartsAfter(s, step, s');
    assert TaskRecorded(s, a);
    StartsFound(s.events, a);
    NoEndYet(s, s', initial, a);
  }

  lemma NoEndYet(s: State, s': State, initial: set<ArtifactId>, a: ActionId)
    requires Recorded(s, initial) && a in s.tasks && PhaseOf(s, a).Ending? && s.events <= s'.events
    ensures forall j :: 0 <= j < |s.events| && Completes(s'.events[j]) ==> s'.events[j].action != a
  {
    forall j | 0 <= j < |s.events| && Completes(s'.events[j])
      ensures s'.events[j].action != a
    {
      assert s'.events[j] == s.events[j] && EventFine(s, s.events[j]);
    }
  }

  lemma StepEndsFit(s: State, step: Step, s': State, initial: set<ArtifactId>)
    requires StartsFit(s) && Recorded(s, initial) && EndsFit(s) && Shape(s, step, s')
    ensures EndsFit(s')
  {
    forall i | 0 <= i < |s'.events|
      ensures EndFits(s', i)
      ensures s'.events[i].Created? ==> EndedBefore(s'.events, s'.events[i].action, i)
    {
      if i < |s.events| {
        OldEndFits(s, step, s', initial, i);
        StaysEnded(s.events, s'.events, i);
      } else {
        NewEnd(s, step, s', i);
        if Completes(s'.events[i]) { NewEndFits(s, step, s', initial); }
        if s'.events[i].Created? { CreatedAfterEnd(s, s', step.a); }
      }
    }
  }

  lemma StaysEnded(events: seq<Event>, more: seq<Event>, i: nat)
    requires events <= more && i < |events|
    ensures more[i] == events[i]
    ensures forall a :: EndedBefore(events, a, i) ==> EndedBefore(more, a, i)
  {
    assert forall j :: 0 <= j < |events| ==> more[j] == events[j];
  }

  lemma CreatedAfterEnd(s: State, s': State, a: ActionId)
    requires a in s.tasks && TaskRecorded(s, a) && PhaseOf(s, a).Announced? && s.events <= s'.events
    ensures EndedBefore(s'.events, a, |s.events|)
  {
    var j :| 0 <= j < |s.events| && s.events[j].ExecutionEnded? && s.events[j].success && s.events[j].action == a;
    assert s'.events[j] == s.events[j];
  }

  lemma {:induction false} RunEndsFit(s: State, steps: seq<Step>, initial: set<ArtifactId>)
    requires Inv(s) && Ordered(s) && Recorded(s, initial) && EndsFit(s) && Runs(s, steps)
    ensures EndsFit(Run(s, steps))
    decreases steps
  {
    if steps != [] {
      var next := Apply(s, steps[0]);
      StepShape(s, steps[0]);
      ProtocolSteps.StepKeepsInv(s, steps[0]);
      StepRecorded(s, steps[0], next, initial);
      StepOrdered(s, steps[0], next, initial);
      StepEndsFit(s, steps[0], next, initial);
      RunEndsFit(next, steps[1..], initial);
    }
  }

  // ---------- the rows of an event list ----------

  /** The row is built from the event and the tables. */
  ghost predicate TellsEnd(row: ExecutionRow, e: Event, tables: Tables, registry: Registry) {
    && Completes(e) && e.action in tables.starts && e.action in tables.requests
    && row.action == e.action && row.executor == e.executor && row.worker == e.worker && row.outputs == e.outputs
    && row.inputs == tables.requests[e.action] && Some(row.site) == SiteOf(e.executor, e.worker, registry)
    && row.startedAt == Some(tables.starts[e.action]) && row.finishedAt == Some(e.at)
  }

  /** `index` lists the successful ends, in order, and each has its row. */
  ghost predicate EndsTraced(rows: seq<ExecutionRow>, index: seq<nat>, events: seq<Event>, tables: Tables,
                             registry: Registry)
  {
    && |index| == |rows|
    && (forall p :: 0 <= p < |index| ==> index[p] < |events| && TellsEnd(rows[p], events[index[p]], tables, registry))
    && (forall p, q :: 0 <= p < q < |index| ==> index[p] < index[q])
    && (forall i :: 0 <= i < |events| && Completes(events[i]) ==> i in index)
  }

  /** One row for each successful end, in the order of the ends. */
  lemma {:induction false} ExecutionsAreTraced(events: seq<Event>, tables: Tables, registry: Registry)
    returns (index: seq<nat>)
    requires ExecutionRows(events, tables, registry).Some?
    ensures EndsTraced(ExecutionRows(events, tables, registry).value, index, events, tables, registry)
  {
    if events == [] {
      index := [];
    } else {
      var front, n := Front(events), |events| - 1;
      index := ExecutionsAreTraced(front, tables, registry);
      assert forall i :: 0 <= i < n ==> front[i] == events[i];
      if Completes(events[n]) { index := index + [n]; }
    }
  }

  lemma {:induction false} StartIsEvent(events: seq<Event>, a: ActionId)
    requires Numbered(events) && a in Starts(events)
    ensures Starts(events)[a] < |events|
    ensures var e := events[Starts(events)[a]]; e.ExecutionStarted? && e.action == a
  {
    var e, front := Last(events), Front(events);
    assert events[|events| - 1].at == |events| - 1;
    if !e.ExecutionStarted? || e.action != a {
      assert forall i :: 0 <= i < |front| ==> front[i] == events[i];
      StartIsEvent(front, a);
    }
  }

  // ---------- the rows of a run ----------

  /** The row tells of one execution from its start to its end. */
  ghost predicate TellsExecution(row: ExecutionRow, s: State, i: nat) {
    && i < |s.events| && row.finishedAt == Some(i)
    && s.events[i] == ExecutionEnded(row.action, row.executor, row.worker, row.outputs, true, i)
    && row.startedAt.Some? && row.startedAt.value < i
    && s.events[row.startedAt.value] == ExecutionStarted(row.action, row.worker, row.startedAt.value)
    && forall c :: 0 <= c < |s.events| && s.events[c].Created? && s.events[c].action == row.action ==> i < c
  }

  lemma RowTellsExecution(s: State, initial: set<ArtifactId>, tables: Tables, registry: Registry, row: ExecutionRow,
                          i: nat)
    requires Recorded(s, initial) && Numbered(s.events) && EndsFit(s) && i < |s.events|
    requires TellsEnd(row, s.events[i], tables, registry) && tables.starts == Starts(s.events)
    ensures TellsExecution(row, s, i)
  {
    var e := s.events[i];
    StartIsEvent(s.events, e.action);
    assert EndFits(s, i) && EventFine(s, e) && EventFine(s, s.events[Starts(s.events)[e.action]]);
    assert s.events[Starts(s.events)[e.action]].at == Starts(s.events)[e.action];
    forall c | 0 <= c < |s.events| && s.events[c].Created? && s.events[c].action == row.action
      ensures i < c
    {
      assert EndedBefore(s.events, s.events[c].action, c);
    }
  }

  ghost predicate RowsTell(rows: seq<ExecutionRow>, index: seq<nat>, s: State) {
    && |index| == |rows| && (forall p :: 0 <= p < |rows| ==> TellsExecution(rows[p], s, index[p]))
    && (forall p, q :: 0 <= p < q < |rows| ==> index[p] < index[q])
    && (forall i :: 0 <= i < |s.events| && Completes(s.events[i]) ==> i in index)
  }

  lemma RowsDiffer(s: State, rows: seq<ExecutionRow>, index: seq<nat>, p: nat, q: nat)
    requires EndsFit(s) && RowsTell(rows, index, s) && p < q < |rows|
    ensures rows[p].action != rows[q].action
  {
    assert TellsExecution(rows[p], s, index[p]) && TellsExecution(rows[q], s, index[q]);
    assert EndFits(s, index[p]);
  }

  lemma RowIsDone(s: State, initial: set<ArtifactId>, rows: seq<ExecutionRow>, index: seq<nat>, p: nat)
    requires Recorded(s, initial) && RowsTell(rows, index, s) && p < |rows|
    ensures Done(s, rows[p].action)
  {
    assert TellsExecution(rows[p], s, index[p]) && EventFine(s, s.events[index[p]]);
  }

  lemma DoneHasRow(s: State, initial: set<ArtifactId>, rows: seq<ExecutionRow>, index: seq<nat>, a: ActionId)
    requires Recorded(s, initial) && RowsTell(rows, index, s) && Done(s, a)
    ensures HasRow(rows, a)
  {
    assert TaskRecorded(s, a);
    var i :| 0 <= i < |s.events| && s.events[i].ExecutionEnded? && s.events[i].success && s.events[i].action == a;
    var p :| 0 <= p < |index| && index[p] == i;
    assert TellsExecution(rows[p], s, index[p]) && rows[p].action == a;
  }

  lemma TracedRowsTell(s: State, initial: set<ArtifactId>, tables: Tables, registry: Registry,
                       rows: seq<ExecutionRow>, index: seq<nat>)
    requires Recorded(s, initial) && Numbered(s.events) && EndsFit(s) && tables.starts == Starts(s.events)
    requires EndsTraced(rows, index, s.events, tables, registry)
    ensures RowsTell(rows, index, s)
  {
    forall p | 0 <= p < |rows|
      ensures TellsExecution(rows[p], s, index[p])
    {
      RowTellsExecution(s, initial, tables, registry, rows[p], index[p]);
    }
  }

  lemma RunIsOrdered(s: State, steps: seq<Step>)
    requires EndedRun(s, steps)
    ensures var t := Run(s, steps);
            Complete(t, s.origins.Keys) && Timed(t) && EndsFit(t)
  {
    RunIsComplete(s, steps);
    InitialInv(s);
    InitialOrdered(s);
    RunEndsFit(s, steps, s.origins.Keys);
  }

  /**
   In every finished run, failures included, the execution rows are in order the successful ends: each row tells of the
   execution that ended there, from its recorded start to its recorded end, and all outputs are announced after it.
   Each action that did not fail has exactly one.
   */
  lemma ExecutionRowsTell(s: State, steps: seq<Step>, registry: Registry, initialSizes: map<ArtifactId, nat>,
                          transfers: seq<TransferRow>, rows: seq<ExecutionRow>)
    returns (index: seq<nat>)
    requires EndedRun(s, steps)
    requires
      var events := Run(s, steps).events;
      ExecutionRows(events, TablesOf(events, initialSizes, transfers), registry) == Some(rows)
    ensures RowsTell(rows, index, Run(s, steps))
    ensures forall p, q :: 0 <= p < q < |rows| ==> rows[p].action != rows[q].action
    ensures forall a :: Done(Run(s, steps), a) <==> HasRow(rows, a)
  {
    var t := Run(s, steps);
    RunIsOrdered(s, steps);
    index := ExecutionsAreTraced(t.events, TablesOf(t.events, initialSizes, transfers), registry);
    TracedRowsTell(t, s.origins.Keys, TablesOf(t.events, initialSizes, transfers), registry, rows, index);
    forall p, q | 0 <= p < q < |rows|
      ensures rows[p].action != rows[q].action
    {
      RowsDiffer(t, rows, index, p, q);
    }
    forall a
      ensures Done(t, a) <==> HasRow(rows, a)
    {
      if Done(t, a) { DoneHasRow(t, s.origins.Keys, rows, index, a); }
      if HasRow(rows, a) {
        var p :| 0 <= p < |rows| && rows[p].action == a;
        RowIsDone(t, s.origins.Keys, rows, index, p);
      }
    }
  }
}
