/**
 The dependencies of a rebuilt trace lead strictly back in time, in every run, failures included.
 */
module ProvenanceOrder {
  import opened Options
  import Json
  import opened Protocol
  import opened ProtocolInvariant
  import ProtocolSteps
  import opened ProtocolSafety
  import opened ProtocolShape
  import opened Recording
  import opened TraceRows
  import opened TraceTimes
  import opened TraceFacts
  import opened Lineage
  import opened EndToEnd
  import opened Verdict

  // ---------- the order of starts ----------

  /** The phases after the start of the execution was recorded. */
  predicate Called(p: Phase) {
    p.Running? || p.Ending? || p.Failing? || p.Announced? || p.Failed?
  }

  ghost predicate StartsFit(s: State) {
    forall a <- Starts(s.events) :: a in s.tasks && Called(PhaseOf(s, a)) && Starts(s.events)[a] < |s.events|
  }

  ghost predicate MakersStarted(s: State) {
    forall m, x :: Makes(s, m, x) ==> m in Starts(s.events)
  }

  /** A transfer starts after the execution that made its artifact and before that of its consumer. */
  ghost predicate TransferFits(s: State, i: nat)
    requires i < |s.events|
  {
    var e, starts := s.events[i], Starts(s.events);
    e.TransferStarted? ==>
      && e.artifact in s.origins
      && (e.action in starts ==> i < starts[e.action])
      && forall m :: Makes(s, m, e.artifact) ==> m in starts && starts[m] < i
  }

  /** An execution starts after those that made its inputs. */
  ghost predicate NeedsFit(s: State, a: ActionId) {
    var starts := Starts(s.events);
    a in starts ==> forall m, x :: Needs(s, a, x) && Makes(s, m, x) ==> m in starts && starts[m] < starts[a]
  }

  ghost predicate Ordered(s: State) {
    && StartsFit(s) && MakersStarted(s)
    && (forall i :: 0 <= i < |s.events| ==> TransferFits(s, i))
    && (forall a :: NeedsFit(s, a))
  }

  // ---------- every step keeps it ----------

  lemma StartsAfter(s: State, step: Step, s': State)
    requires Shape(s, step, s')
    ensures Starts(s'.events)
         == if step.StartExecution? then Starts(s.events)[step.a := |s.events|] else Starts(s.events)
  {
    ReportedByActor(s, step);
    if Reported(s, step) == [] {
      assert s'.events == s.events;
    } else {
      assert Front(s'.events) == s.events && Last(s'.events) == Reported(s, step)[0];
    }
  }

  lemma CalledStays(step: Step, p: Phase, q: Phase)
    requires Acts(step) && Advances(step, p, q)
    ensures Called(p) ==> Called(q)
    ensures step.StartExecution? ==> Called(q)
    ensures step.StartExecution? || step.RecordStart? ==> !Called(p) && !Produced(p)
  {
  }

  lemma StartsStayFit(s: State, step: Step, s': State)
    requires StartsFit(s) && Shape(s, step, s')
    ensures StartsFit(s')
  {
    StartsAfter(s, step, s');
    if Acts(step) { CalledStays(step, PhaseOf(s, step.a), PhaseOf(s', step.a)); }
  }

  /** Whose execution starts now has made nothing yet. */
  lemma StarterMakesNothing(s: State, a: ActionId, s': State, initial: set<ArtifactId>, x: ArtifactId)
    requires Shape(s, StartExecution(a), s') && OutputsFine(s, initial)
    ensures !Makes(s, a, x)
  {
    assert TaskOutputs(s, a, initial);
  }

  lemma MakersStayStarted(s: State, step: Step, s': State, initial: set<ArtifactId>)
    requires MakersStarted(s) && Shape(s, step, s') && Recorded(s, initial)
    ensures MakersStarted(s')
  {
    StartsAfter(s, step, s');
    forall m, x | Makes(s', m, x)
      ensures m in Starts(s'.events)
    {
      MakesAfter(s, step, s', initial, m, x);
      if step.Execute? && m == step.a {
        assert TaskRecorded(s, m);
        StartsFound(s.events, m);
      }
    }
  }

  /** What made an artifact of earlier times is the same as before, and so is its start. */
  lemma EarlierMaker(s: State, step: Step, s': State, initial: set<ArtifactId>, m: ActionId, x: ArtifactId)
    requires Ordered(s) && Shape(s, step, s') && Recorded(s, initial) && x in s.origins && Makes(s', m, x)
    ensures Makes(s, m, x) && m in Starts(s.events) && m in Starts(s'.events)
    ensures Starts(s'.events)[m] == Starts(s.events)[m] < |s.events|
  {
    StartsAfter(s, step, s');
    MakesAfter(s, step, s', initial, m, x);
    if step.StartExecution? { StarterMakesNothing(s, step.a, s', initial, x); }
  }

  lemma OldTransferFits(s: State, step: Step, s': State, initial: set<ArtifactId>, i: nat)
    requires Ordered(s) && Shape(s, step, s') && Recorded(s, initial) && i < |s.events|
    ensures TransferFits(s', i)
  {
    StartsAfter(s, step, s');
    var e := s.events[i];
    assert s'.events[i] == e && TransferFits(s, i);
    if e.TransferStarted? {
      forall m | Makes(s', m, e.artifact)
        ensures m in Starts(s'.events) && Starts(s'.events)[m] < i
      {
        EarlierMaker(s, step, s', initial, m, e.artifact);
      }
    }
  }

  lemma PulledHasOrigin(s: State, a: ActionId)
    requires Inv(s) && ValidIndices(s, a) && PhaseOf(s, a).Announcing?
    ensures CurrentKey(s, a).artifact in s.origins
  {
    assert RefOk(s, s.refs[CurrentRef(s, a)]);
  }

  lemma NewTransferFits(s: State, a: ActionId, s': State, initial: set<ArtifactId>, x: ArtifactId)
    requires Ordered(s) && Shape(s, RecordStart(a), s') && Recorded(s, initial)
    requires s'.events[|s.events|].TransferStarted? && s'.events[|s.events|].action == a
    requires s'.events[|s.events|].artifact == x && x in s.origins
    ensures TransferFits(s', |s.events|)
  {
    StartsAfter(s, RecordStart(a), s');
    CalledStays(RecordStart(a), PhaseOf(s, a), PhaseOf(s', a));
    assert a !in Starts(s.events);
    forall m | Makes(s', m, x)
      ensures m in Starts(s'.events) && Starts(s'.events)[m] < |s.events|
    {
      EarlierMaker(s, RecordStart(a), s', initial, m, x);
    }
  }

  /** The event that a step records last. */
  lemma NewestFits(s: State, step: Step, s': State, initial: set<ArtifactId>)
    requires Inv(s) && Ordered(s) && Shape(s, step, s') && Recorded(s, initial) && Reported(s, step) != []
    ensures |s'.events| == |s.events| + 1 && TransferFits(s', |s.events|)
  {
    ReportedByActor(s, step);
    assert s'.events[|s.events|] == Reported(s, step)[0];
    if step.RecordStart? {
      PulledHasOrigin(s, step.a);
      NewTransferFits(s, step.a, s', initial, CurrentKey(s, step.a).artifact);
    }
  }

  lemma AllTransfersFit(s: State, s': State, reported: seq<Event>)
    requires s'.events == s.events + reported && |reported| <= 1
    requires forall i :: 0 <= i < |s.events| ==> TransferFits(s', i)
    requires reported != [] ==> TransferFits(s', |s.events|)
    ensures forall i :: 0 <= i < |s'.events| ==> TransferFits(s', i)
  {
  }

  lemma TransfersStayFit(s: State, step: Step, s': State, initial: set<ArtifactId>)
    requires Inv(s) && Ordered(s) && Shape(s, step, s') && Recorded(s, initial)
    ensures forall i :: 0 <= i < |s'.events| ==> TransferFits(s', i)
  {
    var reported := Reported(s, step);
    ReportedByActor(s, step);
    if reported != [] { NewestFits(s, step, s', initial); }
    forall i | 0 <= i < |s.events|
      ensures TransferFits(s', i)
    {
      OldTransferFits(s, step, s', initial, i);
    }
    AllTransfersFit(s, s', reported);
  }

  lemma NeedsKept(s: State, step: Step, s': State, a: ActionId, x: ArtifactId)
    requires Inv(s) && Shape(s, step, s') && Needs(s', a, x) && a in s.tasks
    ensures Needs(s, a, x) && x in s.origins
  {
    InvIsValid(s);
    StepSettles(s, step, s');
    assert InputIds(s', s'.tasks[a].inputs) == InputIds(s, s.tasks[a].inputs);
    NeedsAreKnown(s);
  }

  lemma NeedsStayFit(s: State, step: Step, s': State, initial: set<ArtifactId>, a: ActionId)
    requires Inv(s) && Ordered(s) && Shape(s, step, s') && Recorded(s, initial)
    ensures NeedsFit(s', a)
  {
    StartsAfter(s, step, s');
    if a in Starts(s'.events) {
      assert a in s.tasks;
      forall m, x | Needs(s', a, x) && Makes(s', m, x)
        ensures m in Starts(s'.events) && Starts(s'.events)[m] < Starts(s'.events)[a]
      {
        NeedsKept(s, step, s', a, x);
        EarlierMaker(s, step, s', initial, m, x);
        assert NeedsFit(s, a);
      }
    }
  }

  lemma StepOrdered(s: State, step: Step, s': State, initial: set<ArtifactId>)
    requires Inv(s) && Ordered(s) && Shape(s, step, s') && Recorded(s, initial)
    ensures Ordered(s')
  {
    StartsStayFit(s, step, s');
    MakersStayStarted(s, step, s', initial);
    TransfersStayFit(s, step, s', initial);
    forall a
      ensures NeedsFit(s', a)
    {
      NeedsStayFit(s, step, s', initial, a);
    }
  }

  lemma {:induction false} RunOrdered(s: State, steps: seq<Step>, initial: set<ArtifactId>)
    requires Inv(s) && Ordered(s) && Recorded(s, initial) && Runs(s, steps)
    ensures Ordered(Run(s, steps))
    decreases steps
  {
    if steps != [] {
      var next := Apply(s, steps[0]);
      StepShape(s, steps[0]);
      ProtocolSteps.StepKeepsInv(s, steps[0]);
      StepRecorded(s, steps[0], next, initial);
      StepOrdered(s, steps[0], next, initial);
      RunOrdered(next, steps[1..], initial);
    }
  }

  // ---------- when the rows start ----------

  /** What is pending on a wire are the starts recorded for it. */
  lemma {:induction false} PendingAreStarts(events: seq<Event>, wire: Wire)
    requires Numbered(events)
    ensures forall at <- Pending(events, wire) ::
              at < |events| && events[at].TransferStarted? && WireOf(events[at]) == wire
  {
    if events != [] {
      var front := Front(events);
      assert forall i :: 0 <= i < |front| ==> front[i] == events[i];
      PendingAreStarts(front, wire);
      assert events[|events| - 1].at == |events| - 1;
    }
  }

  /** The row starts where a transfer of its artifact to its consumer was recorded. */
  ghost predicate StartsAt(row: TransferRow, events: seq<Event>) {
    && row.startedAt.Some? && row.startedAt.value < |events|
    && var e := events[row.startedAt.value];
    e.TransferStarted? && row.consumer == Some(e.action) && row.artifact == e.artifact
  }

  lemma {:induction false} RowsStart(events: seq<Event>, registry: Registry, producers: map<ArtifactId, ActionId>)
    requires EndsMatched(events) && Numbered(events) && TransferRows(events, registry, producers).Some?
    ensures forall row <- TransferRows(events, registry, producers).value :: StartsAt(row, events)
  {
    if events != [] {
      var e, front := Last(events), Front(events);
      assert forall i :: 0 <= i < |front| ==> front[i] == events[i];
      FrontMatched(events);
      RowsStart(front, registry, producers);
      if Delivers(e) {
        assert events[..|events| - 1] == front && Pending(front, WireOf(e)) != [];
        PendingAreStarts(front, WireOf(e));
        assert Pending(front, WireOf(e))[0] in Pending(front, WireOf(e));
      }
    }
  }

  lemma FrontMatched(events: seq<Event>)
    requires events != [] && EndsMatched(events) && Numbered(events)
    ensures EndsMatched(Front(events)) && Numbered(Front(events))
  {
    assert forall i :: 0 <= i <= |Front(events)| ==> Front(events)[..i] == events[..i];
  }

  // ---------- dependencies start earlier ----------

  /** Rows of a run in which starts are ordered. */
  ghost predicate RowsOrdered(s: State, registry: Registry, initial: set<ArtifactId>, tables: Tables,
                              transfers: seq<TransferRow>, executions: seq<ExecutionRow>)
  {
    && Ordered(s) && Rebuilt(s, registry, initial, tables, transfers, executions)
    && tables.starts == Starts(s.events) && forall t <- transfers :: StartsAt(t, s.events)
  }

  /** A maker whose execution has started before has a row that says so. */
  lemma MakerBegins(s: State, registry: Registry, initial: set<ArtifactId>, tables: Tables,
                    transfers: seq<TransferRow>, executions: seq<ExecutionRow>, m: ActionId)
    requires RowsOrdered(s, registry, initial, tables, transfers, executions)
    requires Done(s, m) && m in tables.starts
    ensures Begins(executions, transfers, m, tables.starts[m])
  {
    assert HasRow(executions, m);
    var p :| 0 <= p < |executions| && executions[p].action == m;
    assert Shows(executions[p], s, tables, registry) && executions[p] in executions;
  }

  lemma ServedGoesBack(s: State, registry: Registry, initial: set<ArtifactId>, tables: Tables,
                       transfers: seq<TransferRow>, executions: seq<ExecutionRow>, a: ActionId, x: ArtifactId)
    returns (at: nat)
    requires RowsOrdered(s, registry, initial, tables, transfers, executions)
    requires a in tables.starts && Demand(a, x) in tables.served
    ensures Begins(executions, transfers, tables.served[Demand(a, x)].id, at) && at < tables.starts[a]
  {
    var p := ServedRow(s, registry, initial, transfers, a, x);
    assert transfers[p] in transfers;
    at := transfers[p].startedAt.value;
    assert TransferFits(s, at);
  }

  lemma ExecutionGoesBack(s: State, registry: Registry, initial: set<ArtifactId>, tables: Tables,
                          transfers: seq<TransferRow>, executions: seq<ExecutionRow>, row: ExecutionRow, d: string)
    returns (at: nat)
    requires RowsOrdered(s, registry, initial, tables, transfers, executions)
    requires row in executions && d in row.dependsOn
    ensures Begins(executions, transfers, d, at) && row.startedAt.Some? && at < row.startedAt.value
  {
    var a := row.action;
    assert Shows(row, s, tables, registry);
    DependencyMembers(a, row.inputs, tables.served, tables.producers, d);
    var x :| x in row.inputs && Dependency(Demand(a, x), tables.served, tables.producers) == Some(d);
    if Demand(a, x) in tables.served && tables.served[Demand(a, x)].id == d {
      at := ServedGoesBack(s, registry, initial, tables, transfers, executions, a, x);
    } else {
      assert Makes(s, d, x) && Needs(s, a, x) && NeedsFit(s, a);
      at := tables.starts[d];
      MakerBegins(s, registry, initial, tables, transfers, executions, d);
    }
  }

  lemma TransferGoesBack(s: State, registry: Registry, initial: set<ArtifactId>, tables: Tables,
                         transfers: seq<TransferRow>, executions: seq<ExecutionRow>, t: TransferRow, d: string)
    returns (at: nat)
    requires RowsOrdered(s, registry, initial, tables, transfers, executions)
    requires t in transfers && d in t.dependsOn
    ensures Begins(executions, transfers, d, at) && t.startedAt.Some? && at < t.startedAt.value
  {
    assert RowTrue(s, registry, t, initial) && StartsAt(t, s.events);
    assert TransferFits(s, t.startedAt.value) && Makes(s, d, t.artifact);
    at := Starts(s.events)[d];
    MakerBegins(s, registry, initial, tables, transfers, executions, d);
  }

  // ---------- ids ----------

  lemma DigitRunSuffix(x: string, u: string, y: string, w: string)
    requires x + u == y + w && (forall c <- u :: Json.IsDigit(c)) && (forall c <- w :: Json.IsDigit(c))
    requires x != [] && y != [] && !Json.IsDigit(x[|x| - 1]) && !Json.IsDigit(y[|y| - 1])
    ensures u == w
  {
    assert forall k :: 0 <= k < |u| ==> u[k] in u;
    assert forall k :: 0 <= k < |w| ==> w[k] in w;
    assert (x + u)[|y| - 1] == y[|y| - 1] && (y + w)[|x| - 1] == x[|x| - 1];
    assert |x| == |y|;
    assert u == (x + u)[|x|..] && w == (y + w)[|y|..];
  }

  function TransferId(a: ActionId, n: nat): string {
    a + ":transfer-" + Json.Decimal(n)
  }

  lemma IdsDiffer(a: ActionId, m: nat, b: ActionId, n: nat)
    requires m != n
    ensures TransferId(a, m) != TransferId(b, n)
  {
    if TransferId(a, m) == TransferId(b, n) {
      DigitRunSuffix(a + ":transfer-", Json.Decimal(m), b + ":transfer-", Json.Decimal(n));
      Json.DecimalValue(m);
      Json.DecimalValue(n);
    }
  }

  ghost predicate NumberedRows(rows: seq<TransferRow>) {
    forall p :: 0 <= p < |rows| ==> rows[p].consumer.Some? && rows[p].id == TransferId(rows[p].consumer.value, p + 1)
  }

  lemma {:induction false} RowsAreNumbered(events: seq<Event>, registry: Registry,
                                           producers: map<ArtifactId, ActionId>)
    requires TransferRows(events, registry, producers).Some?
    ensures NumberedRows(TransferRows(events, registry, producers).value)
  {
    if events != [] { RowsAreNumbered(Front(events), registry, producers); }
  }

  /** No action is named like a transfer. */
  ghost predicate NamesApart(executions: seq<ExecutionRow>, transfers: seq<TransferRow>) {
    forall row <- executions, t <- transfers :: row.action != t.id
  }

  // ---------- following dependencies ----------

  ghost predicate DistinctSpans(s: State, registry: Registry, initial: set<ArtifactId>, tables: Tables,
                                transfers: seq<TransferRow>, executions: seq<ExecutionRow>)
  {
    && RowsOrdered(s, registry, initial, tables, transfers, executions)
    && NumberedRows(transfers) && NamesApart(executions, transfers)
  }

  lemma OneTransfer(transfers: seq<TransferRow>, t: TransferRow, u: TransferRow)
    requires NumberedRows(transfers) && t in transfers && u in transfers && t.id == u.id
    ensures t == u
  {
    var p :| 0 <= p < |transfers| && transfers[p] == t;
    var q :| 0 <= q < |transfers| && transfers[q] == u;
    if p != q { IdsDiffer(t.consumer.value, p + 1, u.consumer.value, q + 1); }
  }

  /** The start of a span follows from its id. */
  lemma OneStart(s: State, registry: Registry, initial: set<ArtifactId>, tables: Tables, transfers: seq<TransferRow>,
                 executions: seq<ExecutionRow>, id: string, at: nat, also: nat)
    requires DistinctSpans(s, registry, initial, tables, transfers, executions)
    requires Begins(executions, transfers, id, at) && Begins(executions, transfers, id, also)
    ensures at == also
  {
    forall row | row in executions && row.action == id
      ensures row.startedAt == Some(tables.starts[id])
    {
      assert Shows(row, s, tables, registry);
    }
    forall t, u | t in transfers && u in transfers && t.id == id && u.id == id
      ensures t == u
    {
      OneTransfer(transfers, t, u);
    }
  }

  /** A dependency that a span lists starts before the span. */
  lemma ListedGoesBack(s: State, registry: Registry, initial: set<ArtifactId>, tables: Tables,
                       transfers: seq<TransferRow>, executions: seq<ExecutionRow>, id: string, at: nat, d: string)
    returns (before: nat)
    requires DistinctSpans(s, registry, initial, tables, transfers, executions)
    requires Begins(executions, transfers, id, at) && Lineage.Lists(executions, transfers, id, d)
    ensures Begins(executions, transfers, d, before) && before < at
  {
    if row :| row in executions && row.action == id && d in row.dependsOn {
      before := ExecutionGoesBack(s, registry, initial, tables, transfers, executions, row, d);
      OneStart(s, registry, initial, tables, transfers, executions, id, at, row.startedAt.value);
    } else {
      var t :| t in transfers && t.id == id && d in t.dependsOn;
      before := TransferGoesBack(s, registry, initial, tables, transfers, executions, t, d);
      OneStart(s, registry, initial, tables, transfers, executions, id, at, t.startedAt.value);
    }
  }

  lemma RunGoesBack(s: State, registry: Registry, initial: set<ArtifactId>, tables: Tables,
                    transfers: seq<TransferRow>, executions: seq<ExecutionRow>)
    requires DistinctSpans(s, registry, initial, tables, transfers, executions)
    ensures StartsOrdered(executions, transfers)
  {
    forall id, at, d | Begins(executions, transfers, id, at) && Lineage.Lists(executions, transfers, id, d)
      ensures BeginsBefore(executions, transfers, d, at)
    {
      var before := ListedGoesBack(s, registry, initial, tables, transfers, executions, id, at, d);
    }
    forall id, at, also | Begins(executions, transfers, id, at) && Begins(executions, transfers, id, also)
      ensures at == also
    {
      OneStart(s, registry, initial, tables, transfers, executions, id, at, also);
    }
  }

  // ---------- the trace of a run ----------

  lemma InitialOrdered(s: State)
    requires Initial(s)
    ensures Ordered(s)
  {
  }

  lemma RunRowsOrdered(s: State, steps: seq<Step>, registry: Registry, initialSizes: map<ArtifactId, nat>)
    returns (transfers: seq<TransferRow>)
    requires FinishedRun(s, steps, registry) && AllPlaced(Run(s, steps), registry)
    ensures var t := Run(s, steps);
            var tables := TablesOf(t.events, initialSizes, transfers);
            && TransferRows(t.events, registry, Producers(t.events)) == Some(transfers)
            && ExecutionRows(t.events, tables, registry).Some?
            && RowsOrdered(t, registry, s.origins.Keys, tables, transfers,
                           ExecutionRows(t.events, tables, registry).value)
            && NumberedRows(transfers)
  {
    var t := Run(s, steps);
    RunIsComplete(s, steps);
    InitialInv(s);
    InitialOrdered(s);
    RunOrdered(s, steps, s.origins.Keys);
    transfers := RowsRebuildRun(t, registry, s.origins.Keys, initialSizes);
    RowsStart(t.events, registry, Producers(t.events));
    RowsAreNumbered(t.events, registry, Producers(t.events));
  }

  /**
   The dependencies in the trace of a finished run have no cycle, whatever failed: following them from a span, over
   executions and transfers, meets only spans, and none twice.
   */
  lemma ProvenanceIsAcyclic(s: State, steps: seq<Step>, registry: Registry, initialSizes: map<ArtifactId, nat>,
                            transfers: seq<TransferRow>, executions: seq<ExecutionRow>, path: seq<string>, i: nat,
                            j: nat)
    requires FinishedRun(s, steps, registry)
    requires
      var events := Run(s, steps).events;
      && TransferRows(events, registry, Producers(events)) == Some(transfers)
      && ExecutionRows(events, TablesOf(events, initialSizes, transfers), registry) == Some(executions)
    requires NamesApart(executions, transfers)
    requires i < j < |path| && IsSpan(executions, transfers, path[0]) && Follows(executions, transfers, path)
    ensures IsSpan(executions, transfers, path[j]) && path[i] != path[j]
  {
    var t := Run(s, steps);
    RunIsComplete(s, steps);
    RowsBuiltExactly(t, s.origins.Keys, TablesOf(t.events, initialSizes, transfers), registry);
    var rows := RunRowsOrdered(s, steps, registry, initialSizes);
    var tables := TablesOf(t.events, initialSizes, transfers);
    RunGoesBack(t, registry, s.origins.Keys, tables, transfers, executions);
    RowsHaveTimes(t, registry, s.origins.Keys, tables, transfers, executions);
    var at := SpanBegins(executions, transfers, path[0]);
    PathIsSimple(executions, transfers, path, at, i, j);
  }
}
