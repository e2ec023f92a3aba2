/**
 What the event list says about the actions, in every run: each event matches its action, each action has the events of
 the phases it has passed, and successful transfers come from the origin, whole or empty.  Runs without failures record
 whole transfers only.
 */
module Recording {
  import opened Protocol
  import opened ProtocolInvariant
  import opened ProtocolSteps
  import opened ProtocolSafety
  import opened ProtocolShape
  import opened FaultFree

  // ---------- each event matches its action ----------

  ghost predicate EventFine(s: State, e: Event) {
    && e.action in s.tasks
    && InRange(s.tasks[e.action].inputs, s.refs)
    && var t := s.tasks[e.action];
    match e
    case Requested(_, inputs, _) => inputs == InputIds(s, t.inputs)
    case TransferStarted(_, _, _, _, _) => true
    case TransferEnded(_, x, _, target, _, _, _) => x in InputIds(s, t.inputs) && target == t.worker
    case ExecutionStarted(_, worker, _) => worker == t.worker
    case ExecutionEnded(_, executor, worker, outputs, success, _) =>
      && executor == t.executor && worker == t.worker
      && (if success then t.phase.Announced? && outputs == t.outputs else t.phase.Failed? && outputs == [])
    case Created(_, x, size, _) =>
      t.phase.Announced? && x in t.outputs && x in s.sizes && size == s.sizes[x]
  }

  ghost predicate EventsFine(s: State) {
    forall i :: 0 <= i < |s.events| ==> EventFine(s, s.events[i])
  }

  // ---------- each action has its events ----------

  ghost predicate WasRequested(events: seq<Event>, a: ActionId) {
    exists i :: 0 <= i < |events| && events[i].Requested? && events[i].action == a
  }

  ghost predicate WasStarted(events: seq<Event>, a: ActionId) {
    exists i :: 0 <= i < |events| && events[i].ExecutionStarted? && events[i].action == a
  }

  ghost predicate WasEnded(events: seq<Event>, a: ActionId) {
    exists i :: 0 <= i < |events| && events[i].ExecutionEnded? && events[i].success && events[i].action == a
  }

  ghost predicate WasCreated(events: seq<Event>, a: ActionId, x: ArtifactId) {
    exists i :: 0 <= i < |events| && events[i].Created? && events[i].action == a && events[i].artifact == x
  }

  ghost predicate TaskRecorded(s: State, a: ActionId)
    requires a in s.tasks
  {
    var t := s.tasks[a];
    && WasRequested(s.events, a)
    && (t.phase.Running? || t.phase.Ending? || t.phase.Announced? ==> WasStarted(s.events, a))
    && (t.phase.Announced? ==>
          && WasEnded(s.events, a) && t.phase.j <= |t.outputs|
          && forall i :: 0 <= i < t.phase.j ==> WasCreated(s.events, a, t.outputs[i]))
  }

  // ---------- outputs ----------

  predicate Produced(p: Phase) {
    p.Ending? || p.Announced?
  }

  ghost predicate TaskOutputs(s: State, a: ActionId, initial: set<ArtifactId>)
    requires a in s.tasks
  {
    var t := s.tasks[a];
    && (!Produced(t.phase) ==> t.outputs == [])
    && forall x <- t.outputs :: x in s.origins && s.origins[x] == t.worker && x in s.sizes && x !in initial
  }

  ghost predicate Makes(s: State, a: ActionId, x: ArtifactId) {
    a in s.tasks && x in s.tasks[a].outputs
  }

  ghost predicate OutputsFine(s: State, initial: set<ArtifactId>) {
    && (forall a <- s.tasks :: TaskOutputs(s, a, initial))
    && (forall a, b, x :: Makes(s, a, x) && Makes(s, b, x) ==> a == b)
    && (forall x <- s.origins :: x in initial || exists a :: Makes(s, a, x))
    && (forall x <- initial :: x in s.origins)
  }

  ghost predicate Recorded(s: State, initial: set<ArtifactId>) {
    && EventsFine(s)
    && (forall a <- s.tasks :: TaskRecorded(s, a))
    && OutputsFine(s, initial)
  }

  // ---------- events stay fine ----------

  /** Tasks keep what they were asked for; announced outputs and failures stay. */
  ghost predicate Settled(s: State, s': State) {
    && Lasts(s, s')
    && (forall a <- s.tasks ::
          && a in s'.tasks
          && s'.tasks[a].inputs == s.tasks[a].inputs && s'.tasks[a].worker == s.tasks[a].worker
          && s'.tasks[a].executor == s.tasks[a].executor
          && (s.tasks[a].phase.Announced? ==> s'.tasks[a].phase.Announced? && s'.tasks[a].outputs == s.tasks[a].outputs)
          && (s.tasks[a].phase.Failed? ==> s'.tasks[a].phase.Failed?))
  }

  /** Announced and failed are for good; outputs come with the execution. */
  lemma AdvanceFacts(step: Step, p: Phase, q: Phase)
    requires Acts(step) && Advances(step, p, q)
    ensures !p.Failed? && (p.Announced? ==> q.Announced?)
    ensures Produced(q) <==> Produced(p) || step.Execute?
    ensures step.Execute? ==> !Produced(p)
  {
  }

  lemma StepSettles(s: State, step: Step, s': State)
    requires Lasts(s, s') && TasksAfter(s, step, s')
    ensures Settled(s, s')
  {
    if Acts(step) { AdvanceFacts(step, PhaseOf(s, step.a), PhaseOf(s', step.a)); }
  }

  lemma EventFrame(s: State, s': State, e: Event)
    requires EventFine(s, e) && Settled(s, s')
    ensures EventFine(s', e)
  {
    assert InputIds(s', s'.tasks[e.action].inputs) == InputIds(s, s.tasks[e.action].inputs);
  }

  lemma TransferReportFine(s: State, step: Step, s': State)
    requires Shape(s, step, s') && (step.RecordEnd? || step.RecordAbort?)
    ensures forall e <- Reported(s, step) :: EventFine(s', e)
  {
    var t := s.tasks[step.a];
    assert InputIds(s', t.inputs)[t.phase.i] == CurrentKey(s, step.a).artifact;
  }

  lemma CallReportFine(s: State, step: Step, s': State, initial: set<ArtifactId>)
    requires Shape(s, step, s') && IsCall(step) && TaskOutputs(s, step.a, initial)
    ensures forall e <- Reported(s, step) :: EventFine(s', e)
  {
  }

  /** The recorded event matches the action that records it. */
  lemma ReportFine(s: State, step: Step, s': State, initial: set<ArtifactId>)
    requires Shape(s, step, s') && OutputsFine(s, initial)
    ensures forall e <- Reported(s, step) :: EventFine(s', e)
  {
    if step.Submit? {
      assert InputIds(s', step.inputs) == InputIds(s, step.inputs);
    } else if step.RecordEnd? || step.RecordAbort? {
      TransferReportFine(s, step, s');
    } else if Acts(step) && IsCall(step) {
      CallReportFine(s, step, s', initial);
    }
  }

  lemma EventsStayFine(s: State, step: Step, s': State, initial: set<ArtifactId>)
    requires Shape(s, step, s') && Recorded(s, initial)
    ensures EventsFine(s')
  {
    StepSettles(s, step, s');
    ReportFine(s, step, s', initial);
    forall i | 0 <= i < |s'.events|
      ensures EventFine(s', s'.events[i])
    {
      if i < |s.events| {
        EventFrame(s, s', s.events[i]);
      } else {
        assert s'.events[i] in Reported(s, step);
      }
    }
  }

  // ---------- actions keep their events ----------

  lemma RecordsKept(s: State, s': State, a: ActionId)
    requires s.events <= s'.events
    ensures WasRequested(s.events, a) ==> WasRequested(s'.events, a)
    ensures WasStarted(s.events, a) ==> WasStarted(s'.events, a)
    ensures WasEnded(s.events, a) ==> WasEnded(s'.events, a)
    ensures forall x :: WasCreated(s.events, a, x) ==> WasCreated(s'.events, a, x)
  {
    assert forall i :: 0 <= i < |s.events| ==> s'.events[i] == s.events[i];
  }

  /** The action of the step has the events of its new phase. */
  lemma ActorRecorded(s: State, step: Step, s': State)
    requires Shape(s, step, s') && Acts(step) && TaskRecorded(s, step.a)
    ensures TaskRecorded(s', step.a)
  {
    RecordsKept(s, s', step.a);
    if step.RecordCreated? {
      OneMoreCreated(s, step.a, s');
    } else if step.StartExecution? || step.RecordExecution? {
      assert s'.events[|s.events|] == Reported(s, step)[0];
    } else {
      assert !PhaseOf(s', step.a).Announced?;
    }
  }

  lemma OneMoreCreated(s: State, a: ActionId, s': State)
    requires Shape(s, RecordCreated(a), s') && TaskRecorded(s, a)
    ensures TaskRecorded(s', a)
  {
    assert s'.events[|s.events|] == Reported(s, RecordCreated(a))[0];
    AnnouncedTask(s, s', a, PhaseOf(s, a).j);
  }

  lemma AnnouncedTask(s: State, s': State, a: ActionId, j: nat)
    requires a in s.tasks && a in s'.tasks && TaskRecorded(s, a) && s.events < s'.events
    requires PhaseOf(s, a) == Announced(j) && s'.tasks[a] == s.tasks[a].(phase := Announced(j + 1))
    requires j < |s.tasks[a].outputs|
    requires s'.events[|s.events|].Created? && s'.events[|s.events|].action == a
    requires s'.events[|s.events|].artifact == s.tasks[a].outputs[j]
    ensures TaskRecorded(s', a)
  {
    RecordsKept(s, s', a);
  }

  lemma SubmittedRecorded(s: State, step: Step, s': State)
    requires Shape(s, step, s') && step.Submit?
    ensures step.a in s'.tasks && TaskRecorded(s', step.a)
  {
    assert s'.events[|s.events|] == Reported(s, step)[0];
  }

  lemma OtherRecorded(s: State, step: Step, s': State, a: ActionId)
    requires s.events <= s'.events && TasksAfter(s, step, s') && a in s'.tasks
    requires step.Submit? || Acts(step) ==> a != step.a
    requires a in s.tasks ==> TaskRecorded(s, a)
    ensures TaskRecorded(s', a)
  {
    RecordsKept(s, s', a);
  }

  lemma TasksStayRecorded(s: State, step: Step, s': State, initial: set<ArtifactId>)
    requires Shape(s, step, s') && Recorded(s, initial)
    ensures forall a <- s'.tasks :: TaskRecorded(s', a)
  {
    forall a | a in s'.tasks
      ensures TaskRecorded(s', a)
    {
      if Acts(step) && a == step.a {
        ActorRecorded(s, step, s');
      } else if step.Submit? && a == step.a {
        SubmittedRecorded(s, step, s');
      } else {
        OtherRecorded(s, step, s', a);
      }
    }
  }

  // ---------- outputs stay fine ----------

  lemma MakesAfter(s: State, step: Step, s': State, initial: set<ArtifactId>, a: ActionId, x: ArtifactId)
    requires TasksAfter(s, step, s') && OutputsFine(s, initial)
    ensures Makes(s', a, x) <==>
            if step.Execute? && a == step.a then x in Ids(step.outputs) else Makes(s, a, x)
    ensures step.Execute? ==> !Makes(s, step.a, x)
    ensures Makes(s, a, x) ==> x in s.origins && Makes(s', a, x)
  {
    if step.Execute? {
      assert TaskOutputs(s, step.a, initial);
      AdvanceFacts(step, PhaseOf(s, step.a), PhaseOf(s', step.a));
    }
    if a in s.tasks { assert TaskOutputs(s, a, initial); }
  }

  lemma TaskOutputsAfter(s: State, step: Step, s': State, initial: set<ArtifactId>, a: ActionId)
    requires Lasts(s, s') && TasksAfter(s, step, s') && ArtifactsAfter(s, step, s')
    requires OutputsFine(s, initial) && a in s'.tasks
    ensures TaskOutputs(s', a, initial)
  {
    if a in s.tasks { assert TaskOutputs(s, a, initial); }
    if Acts(step) && a == step.a { AdvanceFacts(step, PhaseOf(s, a), PhaseOf(s', a)); }
  }

  lemma OutputsStayFine(s: State, step: Step, s': State, initial: set<ArtifactId>)
    requires Shape(s, step, s') && OutputsFine(s, initial)
    ensures OutputsFine(s', initial)
  {
    forall a | a in s'.tasks
      ensures TaskOutputs(s', a, initial)
    {
      TaskOutputsAfter(s, step, s', initial, a);
    }
    forall a, b, x | Makes(s', a, x) && Makes(s', b, x)
      ensures a == b
    {
      MakesAfter(s, step, s', initial, a, x);
      MakesAfter(s, step, s', initial, b, x);
    }
    forall x | x in s'.origins
      ensures x in initial || exists a :: Makes(s', a, x)
    {
      if x in s.origins && x !in initial {
        var a :| Makes(s, a, x);
        MakesAfter(s, step, s', initial, a, x);
      } else if x !in s.origins {
        MakesAfter(s, step, s', initial, step.a, x);
      }
    }
  }

  // ---------- every step, every run ----------

  lemma StepRecorded(s: State, step: Step, s': State, initial: set<ArtifactId>)
    requires Shape(s, step, s') && Recorded(s, initial)
    ensures Recorded(s', initial)
  {
    EventsStayFine(s, step, s', initial);
    TasksStayRecorded(s, step, s', initial);
    OutputsStayFine(s, step, s', initial);
  }

  lemma {:induction false} RunRecorded(s: State, steps: seq<Step>, initial: set<ArtifactId>)
    requires Recorded(s, initial) && Runs(s, steps)
    ensures Recorded(Run(s, steps), initial)
    decreases steps
  {
    if steps != [] {
      StepShape(s, steps[0]);
      StepRecorded(s, steps[0], Apply(s, steps[0]), initial);
      RunRecorded(Apply(s, steps[0]), steps[1..], initial);
    }
  }

  // ---------- transfers that succeed ----------

  /** Artifacts originate on Workers that have a client, as do all actions that have not failed. */
  ghost predicate Reached(s: State) {
    && (forall x <- s.origins :: s.origins[x] in s.clients)
    && (forall a <- s.tasks :: s.tasks[a].phase.Failed? || s.tasks[a].worker in s.clients)
  }

  /** A successful transfer comes from the origin, with the whole artifact or with nothing. */
  ghost predicate EventWhole(s: State, e: Event) {
    e.TransferEnded? && e.success ==>
      && e.artifact in s.origins && e.source == s.origins[e.artifact]
      && e.artifact in s.sizes && (e.bytes == 0 || e.bytes == s.sizes[e.artifact])
      && e.source in s.clients && e.target in s.clients
  }

  ghost predicate Whole(s: State) {
    forall i :: 0 <= i < |s.events| ==> EventWhole(s, s.events[i])
  }

  lemma StepReaches(s: State, step: Step, s': State)
    requires Reached(s) && Shape(s, step, s')
    ensures Reached(s')
  {
    if Acts(step) { AdvanceFacts(step, PhaseOf(s, step.a), PhaseOf(s', step.a)); }
  }

  lemma EndEventWhole(s: State, a: ActionId, s': State)
    requires Inv(s) && Reached(s) && Enabled(s, RecordEnd(a)) && Lasts(s, s')
    ensures forall e <- Reported(s, RecordEnd(a)) :: EventWhole(s', e)
  {
    assert TaskOk(s, a) && RefOk(s, s.refs[CurrentRef(s, a)]);
  }

  lemma StepWhole(s: State, step: Step, s': State)
    requires Inv(s) && Reached(s) && Whole(s) && Shape(s, step, s')
    ensures Whole(s')
  {
    if step.RecordEnd? { EndEventWhole(s, step.a, s'); }
    forall i | 0 <= i < |s'.events|
      ensures EventWhole(s', s'.events[i])
    {
      if i < |s.events| {
        assert EventWhole(s, s.events[i]);
      } else {
        assert s'.events[i] in Reported(s, step);
      }
    }
  }

  /** In every run, failures included, successful transfers are whole or empty and come from the origin. */
  lemma {:induction false} RunWhole(s: State, steps: seq<Step>)
    requires Inv(s) && Reached(s) && Whole(s) && Runs(s, steps)
    ensures Reached(Run(s, steps)) && Whole(Run(s, steps))
    decreases steps
  {
    if steps != [] {
      StepKeepsInv(s, steps[0]);
      StepShape(s, steps[0]);
      StepReaches(s, steps[0], Apply(s, steps[0]));
      StepWhole(s, steps[0], Apply(s, steps[0]));
      RunWhole(Apply(s, steps[0]), steps[1..]);
    }
  }

  // ---------- runs without failures ----------

  /** Transfers end whole and come from the origin; executions succeed. */
  ghost predicate EventClean(s: State, e: Event) {
    && (e.TransferEnded? ==>
          && e.success && e.artifact in s.origins && e.source == s.origins[e.artifact]
          && e.artifact in s.sizes && e.bytes == s.sizes[e.artifact])
    && (e.ExecutionEnded? ==> e.success)
  }

  ghost predicate Clean(s: State) {
    forall i :: 0 <= i < |s.events| ==> EventClean(s, s.events[i])
  }

  /** The end of a transfer names the origin as source and the whole size. */
  lemma EndEventClean(s: State, a: ActionId, s': State)
    requires Inv(s) && Fine(s) && Enabled(s, RecordEnd(a)) && Lasts(s, s')
    ensures forall e <- Reported(s, RecordEnd(a)) :: EventClean(s', e)
  {
    assert TaskOk(s, a) && TaskFine(s, a) && RefOk(s, s.refs[CurrentRef(s, a)]);
  }

  lemma StepClean(s: State, step: Step, s': State)
    requires Inv(s) && Fine(s) && Clean(s) && Shape(s, step, s')
    ensures Clean(s')
  {
    NoFailureStep(s, step);
    if step.RecordEnd? { EndEventClean(s, step.a, s'); }
    forall i | 0 <= i < |s'.events|
      ensures EventClean(s', s'.events[i])
    {
      if i < |s.events| {
        assert EventClean(s, s.events[i]);
      } else {
        assert s'.events[i] in Reported(s, step);
      }
    }
  }

  lemma {:induction false} RunClean(s: State, steps: seq<Step>)
    requires Inv(s) && Fine(s) && Clean(s) && Runs(s, steps) && BenignRun(s, steps)
    ensures Clean(Run(s, steps))
    decreases steps
  {
    if steps != [] {
      StepKeepsInv(s, steps[0]);
      StepFine(s, steps[0]);
      StepShape(s, steps[0]);
      StepClean(s, steps[0], Apply(s, steps[0]));
      RunClean(Apply(s, steps[0]), steps[1..]);
    }
  }

  /** All that later proofs need about a run without failures. */
  lemma FreshRun(s: State, steps: seq<Step>)
    requires Fresh(s) && Runs(s, steps) && BenignRun(s, steps)
    ensures Inv(Run(s, steps)) && Fine(Run(s, steps))
    ensures Recorded(Run(s, steps), s.origins.Keys) && Clean(Run(s, steps))
  {
    InitialInv(s);
    FreshFine(s);
    RunKeepsInv(s, steps);
    RunFine(s, steps);
    RunRecorded(s, steps, s.origins.Keys);
    RunClean(s, steps);
  }
}
