/**
 What each step does to the actions and the events, whatever it does to locks, stores and locations.
 */
module ProtocolShape {
  import opened Protocol
  import opened ProtocolSafety

  /** The step belongs to an action that was submitted before. */
  predicate Acts(step: Step) {
    !step.Submit? && !step.CopyRef? && !step.MergeRef?
  }

  predicate IsPull(step: Step) {
    step.FindFile? || step.WriteFile? || step.CheckSize? || step.PullFails? || step.ListLocation?
  }

  predicate IsLock(step: Step) {
    step.CheckLocal? || step.Acquire? || step.RecordStart? || step.RecordEnd? || step.RecordAbort?
  }

  /** The steps around the Worker call. */
  predicate IsCall(step: Step) {
    Acts(step) && !IsPull(step) && !IsLock(step)
  }

  /** Where the step takes the action. */
  predicate Advances(step: Step, p: Phase, q: Phase)
    requires Acts(step)
  {
    match step
    case CheckLocal(_) => p.Localize? && (q == Localize(p.i + 1) || q == Waiting(p.i))
    case Acquire(_) => p.Waiting? && (q == Localize(p.i + 1) || q.Failed? || (q.Announcing? && q.i == p.i))
    case RecordStart(_) => p.Announcing? && q == Pulling(p.i, p.source)
    case FindFile(_) =>
      p.Pulling? && (q == Fetching(p.i, p.source) || q == Returned(p.i, p.source, 0) || q == Aborting(p.i, p.source))
    case WriteFile(_, written) => p.Fetching? && q == Verifying(p.i, p.source, written)
    case CheckSize(_) => p.Verifying? && (q == Returned(p.i, p.source, p.written) || q == Aborting(p.i, p.source))
    case PullFails(_) =>
      (p.Pulling? || p.Fetching? || p.Verifying? || p.Returned?) && q == Aborting(p.i, p.source)
    case ListLocation(_) => p.Returned? && (q == Finishing(p.i, p.source, p.bytes) || q == Aborting(p.i, p.source))
    case RecordEnd(_) => p.Finishing? && q == Localize(p.i + 1)
    case RecordAbort(_) => p.Aborting? && q.Failed?
    case StartExecution(_) => p.Localize? && q.Running?
    case Execute(_, _) => p.Running? && q.Ending?
    case ExecutionFails(_, _) => p.Running? && q.Failing?
    case RecordExecution(_) => p.Ending? && q == Announced(0)
    case RecordFailure(_) => p.Failing? && q.Failed?
    case RecordCreated(_) => p.Announced? && q == Announced(p.j + 1)
  }

  /** What the step records. */
  function Reported(s: State, step: Step): seq<Event>
    requires Enabled(s, step)
  {
    if step.Submit? then [Requested(step.a, InputIds(s, step.inputs), |s.events|)]
    else if !Acts(step) then []
    else
      var t, p, n := s.tasks[step.a], PhaseOf(s, step.a), |s.events|;
      if step.RecordStart? then [TransferStarted(step.a, CurrentKey(s, step.a).artifact, p.source, t.worker, n)]
      else if step.RecordEnd? then
        [TransferEnded(step.a, CurrentKey(s, step.a).artifact, p.source, t.worker, p.bytes, true, n)]
      else if step.RecordAbort? then
        [TransferEnded(step.a, CurrentKey(s, step.a).artifact, p.source, t.worker, 0, false, n)]
      else if step.StartExecution? then [ExecutionStarted(step.a, t.worker, n)]
      else if step.RecordExecution? then [ExecutionEnded(step.a, t.executor, t.worker, t.outputs, true, n)]
      else if step.RecordFailure? then [ExecutionEnded(step.a, t.executor, t.worker, [], false, n)]
      else if step.RecordCreated? then
        var x := t.outputs[p.j];
        [Created(step.a, x, if x in s.sizes then s.sizes[x] else 0, n)]
      else []
  }

  /** Refs keep their ids; artifacts keep their sizes and origins. */
  ghost predicate Lasts(s: State, s': State) {
    && s'.clients == s.clients
    && |s.refs| <= |s'.refs| && (forall i :: 0 <= i < |s.refs| ==> s'.refs[i].id == s.refs[i].id)
    && (forall x <- s.sizes :: x in s'.sizes && s'.sizes[x] == s.sizes[x])
    && (forall x <- s.origins :: x in s'.origins && s'.origins[x] == s.origins[x])
  }

  /** The actions after the step. */
  ghost predicate TasksAfter(s: State, step: Step, s': State) {
    if step.Submit? then
      && step.a !in s.tasks && InRange(step.inputs, s.refs)
      && s'.tasks == s.tasks[step.a := Task(step.inputs, step.worker, step.executor, [],
                                            if step.worker in s.clients then Localize(0) else Failed)]
    else if !Acts(step) then s'.tasks == s.tasks
    else
      && step.a in s.tasks && step.a in s'.tasks && s'.tasks == s.tasks[step.a := s'.tasks[step.a]]
      && Advances(step, PhaseOf(s, step.a), PhaseOf(s', step.a))
      && var t := s.tasks[step.a];
         s'.tasks[step.a] == t.(phase := PhaseOf(s', step.a),
                                outputs := if step.Execute? then Ids(step.outputs) else t.outputs)
  }

  /** The artifacts after the step: only an execution makes new ones, all of them on its Worker. */
  ghost predicate ArtifactsAfter(s: State, step: Step, s': State) {
    if step.Execute? then
      && step.a in s.tasks
      && (forall x :: x in s'.origins <==> x in s.origins || x in Ids(step.outputs))
      && (forall x <- Ids(step.outputs) ::
            x !in s.origins && x in s'.origins && s'.origins[x] == s.tasks[step.a].worker && x in s'.sizes)
    else s'.sizes == s.sizes && s'.origins == s.origins
  }

  ghost predicate Shape(s: State, step: Step, s': State) {
    && Enabled(s, step) && s'.events == s.events + Reported(s, step)
    && Lasts(s, s') && TasksAfter(s, step, s') && ArtifactsAfter(s, step, s')
  }

  // ---------- every step has this shape ----------

  lemma PlannerShape(s: State, step: Step)
    requires Enabled(s, step) && !Acts(step)
    ensures Shape(s, step, Apply(s, step))
  {
    if !step.Submit? { assert s.events + [] == s.events; }
  }

  lemma EnterTasks(s: State, a: ActionId, s': State)
    requires ValidIndices(s, a) && PhaseOf(s, a).Waiting? && s' == EnterLocked(s, a)
    ensures a in s'.tasks && s'.tasks == s.tasks[a := s.tasks[a].(phase := PhaseOf(s', a))]
    ensures Advances(Acquire(a), PhaseOf(s, a), PhaseOf(s', a))
  {
  }

  lemma EnterShape(s: State, a: ActionId, s': State)
    requires ValidIndices(s, a) && PhaseOf(s, a).Waiting? && s' == EnterLocked(s, a)
    ensures s'.events == s.events && Lasts(s, s') && s'.sizes == s.sizes && s'.origins == s.origins
    ensures a in s'.tasks && s'.tasks == s.tasks[a := s.tasks[a].(phase := PhaseOf(s', a))]
    ensures Advances(Acquire(a), PhaseOf(s, a), PhaseOf(s', a))
  {
    EnterTasks(s, a, s');
    EnterGrowsLocations(s, a);
  }

  lemma ListShape(s: State, a: ActionId, s': State)
    requires ValidIndices(s, a) && PhaseOf(s, a).Returned? && s' == ListTarget(s, a)
    ensures s'.events == s.events && Lasts(s, s') && s'.sizes == s.sizes && s'.origins == s.origins
    ensures a in s'.tasks && s'.tasks == s.tasks[a := s.tasks[a].(phase := PhaseOf(s', a))]
    ensures Advances(ListLocation(a), PhaseOf(s, a), PhaseOf(s', a))
  {
    ListGrowsLocations(s, a);
  }

  lemma AcquireShape(s: State, a: ActionId)
    requires Enabled(s, Acquire(a))
    ensures Shape(s, Acquire(a), Apply(s, Acquire(a)))
  {
    EnterShape(s, a, EnterLocked(s, a));
    assert s.events + [] == s.events;
  }

  lemma ListLocationShape(s: State, a: ActionId)
    requires Enabled(s, ListLocation(a))
    ensures Shape(s, ListLocation(a), Apply(s, ListLocation(a)))
  {
    ListShape(s, a, ListTarget(s, a));
    assert s.events + [] == s.events;
  }

  lemma CheckFileShape(s: State, step: Step)
    requires Enabled(s, step) && (step.FindFile? || step.CheckSize?)
    ensures Shape(s, step, Apply(s, step))
  {
    assert s.events + [] == s.events;
  }

  lemma PullShape(s: State, step: Step)
    requires Enabled(s, step) && (step.WriteFile? || step.PullFails?)
    ensures Shape(s, step, Apply(s, step))
  {
    assert s.events + [] == s.events;
  }

  lemma CheckLocalShape(s: State, step: Step)
    requires Enabled(s, step) && step.CheckLocal?
    ensures Shape(s, step, Apply(s, step))
  {
    assert s.events + [] == s.events;
  }

  lemma RecordShape(s: State, step: Step)
    requires Enabled(s, step) && (step.RecordStart? || step.RecordEnd? || step.RecordAbort?)
    ensures Shape(s, step, Apply(s, step))
  {
  }

  lemma StoreOneLasts(s: State, worker: WorkerId, x: ArtifactId, size: nat, outputs: seq<(ArtifactId, nat)>,
                      next: State)
    requires outputs != [] && outputs[0] == (x, size) && FreshOutputs(s, outputs)
    requires next == s.(stores := s.stores[Key(x, worker) := size], sizes := s.sizes[x := size],
                        origins := s.origins[x := worker], refs := s.refs + [Ref(x, [worker])])
    ensures x !in s.origins && Lasts(s, next) && FreshOutputs(next, outputs[1..])
  {
    assert (x, size) in outputs;
    forall o | o in outputs[1..]
      ensures o.0 != x && o in outputs
    {
    }
  }

  lemma {:induction false} StoredLasts(s: State, worker: WorkerId, outputs: seq<(ArtifactId, nat)>)
    requires FreshOutputs(s, outputs)
    ensures var t := StoreOutputs(s, worker, outputs); t.tasks == s.tasks && t.events == s.events && Lasts(s, t)
    decreases outputs
  {
    if outputs != [] {
      var (x, size) := outputs[0];
      var next := s.(stores := s.stores[Key(x, worker) := size], sizes := s.sizes[x := size],
                     origins := s.origins[x := worker], refs := s.refs + [Ref(x, [worker])]);
      StoreOneLasts(s, worker, x, size, outputs, next);
      StoredLasts(next, worker, outputs[1..]);
    }
  }

  lemma {:induction false} StoredOrigins(s: State, worker: WorkerId, outputs: seq<(ArtifactId, nat)>)
    requires FreshOutputs(s, outputs)
    ensures
      var t := StoreOutputs(s, worker, outputs);
      && (forall x :: x in t.origins <==> x in s.origins || x in Ids(outputs))
      && (forall x <- Ids(outputs) :: x !in s.origins && x in t.origins && t.origins[x] == worker && x in t.sizes)
    decreases outputs
  {
    if outputs != [] {
      var (x, size) := outputs[0];
      var next := s.(stores := s.stores[Key(x, worker) := size], sizes := s.sizes[x := size],
                     origins := s.origins[x := worker], refs := s.refs + [Ref(x, [worker])]);
      StoreOneLasts(s, worker, x, size, outputs, next);
      StoredLasts(next, worker, outputs[1..]);
      StoredOrigins(next, worker, outputs[1..]);
      assert Ids(outputs) == [x] + Ids(outputs[1..]);
    }
  }

  lemma CallShape(s: State, step: Step)
    requires Enabled(s, step) && IsCall(step)
    ensures Shape(s, step, Apply(s, step))
  {
    if step.Execute? {
      StoredLasts(s, s.tasks[step.a].worker, step.outputs);
      StoredOrigins(s, s.tasks[step.a].worker, step.outputs);
    }
    assert s.events + [] == s.events;
  }

  lemma StepShape(s: State, step: Step)
    requires Enabled(s, step)
    ensures Shape(s, step, Apply(s, step))
  {
    if !Acts(step) { PlannerShape(s, step); }
    else if step.Acquire? { AcquireShape(s, step.a); }
    else if step.ListLocation? { ListLocationShape(s, step.a); }
    else if step.CheckLocal? { CheckLocalShape(s, step); }
    else if step.FindFile? || step.CheckSize? { CheckFileShape(s, step); }
    else if IsPull(step) { PullShape(s, step); }
    else if IsLock(step) { RecordShape(s, step); }
    else { CallShape(s, step); }
  }
}
