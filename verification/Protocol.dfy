/**
 The artifact-transfer protocol as a step relation.  Many actions run at once; each step is the code of
 one action between two suspension points (`await`), interleaved in any order.

 A pull is split as the target Worker performs it: look for a local file, replace the file with the bytes
 that arrived, check the size.  It can fail at any of these points and leave the store as it is then.
 */
module Protocol {
  import opened Options

  type WorkerId = string
  type ArtifactId = string
  type ActionId = string
  type RefId = nat

  /** Index of the lock table, the completed set and the stores. */
  datatype Key = Key(artifact: ArtifactId, worker: WorkerId)

  /** One mutable `ArtifactRef`; several may share an artifact id. */
  datatype Ref = Ref(id: ArtifactId, locations: seq<WorkerId>)

  /** The trace events that the row builders read. `at` is the position in the trace file. */
  datatype Event =
    | Requested(action: ActionId, inputs: seq<ArtifactId>, at: nat)
    | TransferStarted(action: ActionId, artifact: ArtifactId, source: WorkerId, target: WorkerId, at: nat)
    | TransferEnded(action: ActionId, artifact: ArtifactId, source: WorkerId, target: WorkerId,
                    bytes: nat, success: bool, at: nat)
    | ExecutionStarted(action: ActionId, worker: WorkerId, at: nat)
    | ExecutionEnded(action: ActionId, executor: string, worker: WorkerId, outputs: seq<ArtifactId>,
                     success: bool, at: nat)
    | Created(action: ActionId, artifact: ArtifactId, size: nat, at: nat)

  /** Where an action is: which input it is localizing and how far that has come. */
  datatype Phase =
    | Localize(i: nat)                                    // about to check input i, or to start executing
    | Waiting(i: nat)                                     // waiting for the lock
    | Announcing(i: nat, source: WorkerId)                // lock held, recording the transfer start
    | Pulling(i: nat, source: WorkerId)                   // target about to look for a local file
    | Fetching(i: nat, source: WorkerId)                  // no local file, streaming
    | Verifying(i: nat, source: WorkerId, written: nat)   // file replaced, size not yet checked
    | Returned(i: nat, source: WorkerId, bytes: nat)      // pull succeeded, location not yet listed
    | Finishing(i: nat, source: WorkerId, bytes: nat)     // location listed, recording the transfer end
    | Aborting(i: nat, source: WorkerId)                  // recording the failed transfer
    | Running
    | Ending
    | Failing                                             // recording the failed execution
    | Announced(j: nat)                                   // recording the created outputs; done at the last
    | Failed

  datatype Task = Task(inputs: seq<RefId>, worker: WorkerId, executor: string, outputs: seq<ArtifactId>, phase: Phase)

  datatype State = State(
    clients: set<WorkerId>,
    refs: seq<Ref>,
    stores: map<Key, nat>,
    locks: map<Key, Option<ActionId>>,
    completed: set<Key>,
    tasks: map<ActionId, Task>,
    events: seq<Event>,
    sizes: map<ArtifactId, nat>,
    origins: map<ArtifactId, WorkerId>)

  datatype Step =
    | Submit(a: ActionId, inputs: seq<RefId>, worker: WorkerId, executor: string)
    | CheckLocal(a: ActionId)
    | Acquire(a: ActionId)
    | RecordStart(a: ActionId)
    | FindFile(a: ActionId)
    | WriteFile(a: ActionId, written: nat)
    | CheckSize(a: ActionId)
    | PullFails(a: ActionId)
    | ListLocation(a: ActionId)
    | RecordEnd(a: ActionId)
    | RecordAbort(a: ActionId)
    | StartExecution(a: ActionId)
    | Execute(a: ActionId, outputs: seq<(ArtifactId, nat)>)
    | ExecutionFails(a: ActionId, outputs: seq<(ArtifactId, nat)>)
    | RecordExecution(a: ActionId)
    | RecordFailure(a: ActionId)
    | RecordCreated(a: ActionId)
    | CopyRef(r: RefId)
    | MergeRef(r: RefId, other: RefId)

  // ---------- reading the state ----------

  function PhaseOf(s: State, a: ActionId): Phase
    requires a in s.tasks
  {
    s.tasks[a].phase
  }

  predicate InTransfer(p: Phase) {
    p.Waiting? || Holding(p)
  }

  /** The phases in which the action holds the lock of its current input. */
  predicate Holding(p: Phase) {
    Pulls(p) || p.Finishing? || p.Aborting?
  }

  /** The phases before the new location is listed. */
  predicate Pulls(p: Phase) {
    p.Announcing? || p.Pulling? || p.Fetching? || p.Verifying? || p.Returned?
  }

  predicate InRange(inputs: seq<RefId>, refs: seq<Ref>) {
    forall j :: 0 <= j < |inputs| ==> inputs[j] < |refs|
  }

  predicate ValidIndices(s: State, a: ActionId) {
    && a in s.tasks
    && InRange(s.tasks[a].inputs, s.refs)
    && (InTransfer(s.tasks[a].phase) ==> s.tasks[a].phase.i < |s.tasks[a].inputs|)
    && (s.tasks[a].phase.Localize? ==> s.tasks[a].phase.i <= |s.tasks[a].inputs|)
  }

  /** The ref an action is currently localizing. */
  function CurrentRef(s: State, a: ActionId): RefId
    requires ValidIndices(s, a) && InTransfer(PhaseOf(s, a))
  {
    s.tasks[a].inputs[s.tasks[a].phase.i]
  }

  function CurrentKey(s: State, a: ActionId): Key
    requires ValidIndices(s, a) && InTransfer(PhaseOf(s, a))
  {
    Key(s.refs[CurrentRef(s, a)].id, s.tasks[a].worker)
  }

  predicate HasCopy(s: State, key: Key) {
    key in s.stores && key.artifact in s.sizes && s.stores[key] == s.sizes[key.artifact]
  }

  function InputIds(s: State, inputs: seq<RefId>): seq<ArtifactId>
    requires InRange(inputs, s.refs)
  {
    seq(|inputs|, i requires 0 <= i < |inputs| => s.refs[inputs[i]].id)
  }

  /** The first location that has a client. */
  function FirstReachable(locations: seq<WorkerId>, clients: set<WorkerId>): (source: Option<WorkerId>)
    ensures source.Some? ==> source.value in locations && source.value in clients
    ensures source.None? ==> forall w <- locations :: w !in clients
  {
    if locations == [] then None
    else if locations[0] in clients then Some(locations[0])
    else FirstReachable(locations[1..], clients)
  }

  // ---------- updates ----------

  function WithPhase(s: State, a: ActionId, p: Phase): State
    requires a in s.tasks
  {
    s.(tasks := s.tasks[a := s.tasks[a].(phase := p)])
  }

  function WithLocation(s: State, r: RefId, w: WorkerId): State
    requires r < |s.refs|
  {
    s.(refs := s.refs[r := s.refs[r].(locations := s.refs[r].locations + [w])])
  }

  function WithLock(s: State, key: Key, holder: Option<ActionId>): State {
    s.(locks := s.locks[key := holder])
  }

  function WithEvent(s: State, e: Event): State {
    s.(events := s.events + [e])
  }

  // ---------- steps ----------

  /** How the action goes on once the lock is acquired: finished, failed, or pulling from the first reachable source. */
  function EnterPhase(s: State, a: ActionId): Phase
    requires ValidIndices(s, a) && PhaseOf(s, a).Waiting?
  {
    var i, locations := PhaseOf(s, a).i, s.refs[CurrentRef(s, a)].locations;
    if CurrentKey(s, a) in s.completed || s.tasks[a].worker in locations then Localize(i + 1)
    else if s.tasks[a].worker !in s.clients then Failed
    else
      var source := FirstReachable(locations, s.clients);
      if source.None? then Failed else Announcing(i, source.value)
  }

  /** A completed key lists its Worker in this ref too; a listed Worker completes the key; a pull takes the lock. */
  function EnterTables(s: State, a: ActionId): State
    requires ValidIndices(s, a) && PhaseOf(s, a).Waiting?
  {
    var r, key, target := CurrentRef(s, a), CurrentKey(s, a), s.tasks[a].worker;
    if key in s.completed then
      if target in s.refs[r].locations then s else WithLocation(s, r, target)
    else if target in s.refs[r].locations then s.(completed := s.completed + {key})
    else if EnterPhase(s, a).Announcing? then WithLock(s, key, Some(a))
    else s
  }

  /** The code after the lock is acquired, up to the first suspension. */
  function EnterLocked(s: State, a: ActionId): State
    requires ValidIndices(s, a) && PhaseOf(s, a).Waiting?
  {
    WithPhase(EnterTables(s, a), a, EnterPhase(s, a))
  }

  /** The target Worker looks for the artifact in its own store. */
  function LookForFile(s: State, a: ActionId): State
    requires ValidIndices(s, a) && PhaseOf(s, a).Pulling?
  {
    var p, key := PhaseOf(s, a), CurrentKey(s, a);
    WithPhase(s, a, if key !in s.stores then Fetching(p.i, p.source)
                    else if HasCopy(s, key) then Returned(p.i, p.source, 0)
                    else Aborting(p.i, p.source))
  }

  /** A pulled file of the wrong size is deleted. */
  function CheckWritten(s: State, a: ActionId): State
    requires ValidIndices(s, a) && PhaseOf(s, a).Verifying?
  {
    var p, key := PhaseOf(s, a), CurrentKey(s, a);
    var whole := key.artifact in s.sizes && p.written == s.sizes[key.artifact];
    WithPhase(if whole then s else s.(stores := s.stores - {key}), a,
              if whole then Returned(p.i, p.source, p.written) else Aborting(p.i, p.source))
  }

  /** After the pull: an impossible byte count or a duplicate location is an error, else the target is listed. */
  function ListTarget(s: State, a: ActionId): State
    requires ValidIndices(s, a) && PhaseOf(s, a).Returned?
  {
    var p, r, key := PhaseOf(s, a), CurrentRef(s, a), CurrentKey(s, a);
    var target := s.tasks[a].worker;
    var possible :=
      && key.artifact in s.sizes && (p.bytes == 0 || p.bytes == s.sizes[key.artifact])
      && target !in s.refs[r].locations;
    WithPhase(if possible then WithLocation(s, r, target) else s, a,
              if possible then Finishing(p.i, p.source, p.bytes) else Aborting(p.i, p.source))
  }

  /** A listed target needs nothing; otherwise there is a lock to wait for, made on first use. */
  function AskLocal(s: State, a: ActionId): State
    requires ValidIndices(s, a) && PhaseOf(s, a).Localize? && PhaseOf(s, a).i < |s.tasks[a].inputs|
  {
    var t, i := s.tasks[a], PhaseOf(s, a).i;
    var ref := s.refs[t.inputs[i]];
    var key, listed := Key(ref.id, t.worker), t.worker in ref.locations;
    WithPhase(if listed || key in s.locks then s else WithLock(s, key, None), a,
              if listed then Localize(i + 1) else Waiting(i))
  }

  function Ids(outputs: seq<(ArtifactId, nat)>): (ids: seq<ArtifactId>)
    ensures |ids| == |outputs|
  {
    seq(|outputs|, i requires 0 <= i < |outputs| => outputs[i].0)
  }

  /** Outputs carry new ids, as the id factory draws them. */
  predicate FreshOutputs(s: State, outputs: seq<(ArtifactId, nat)>) {
    && (forall i, j :: 0 <= i < j < |outputs| ==> outputs[i].0 != outputs[j].0)
    && (forall o <- outputs :: o.0 !in s.sizes && o.0 !in s.origins)
    && (forall key <- s.stores :: forall o <- outputs :: key.artifact != o.0)
  }

  /** Store the outputs on the Worker and hand back refs located there. */
  function StoreOutputs(s: State, worker: WorkerId, outputs: seq<(ArtifactId, nat)>): State
    decreases outputs
  {
    if outputs == [] then s
    else
      var (x, size) := outputs[0];
      StoreOutputs(s.(stores := s.stores[Key(x, worker) := size],
                      sizes := s.sizes[x := size],
                      origins := s.origins[x := worker],
                      refs := s.refs + [Ref(x, [worker])]),
                   worker, outputs[1..])
  }

  /** The files of outputs that a failed call may leave on the Worker; no ref to them is handed back. */
  function Files(worker: WorkerId, outputs: seq<(ArtifactId, nat)>): map<Key, nat> {
    if outputs == [] then map[]
    else Files(worker, outputs[..|outputs| - 1])[Key(outputs[|outputs| - 1].0, worker) := outputs[|outputs| - 1].1]
  }

  /** The Worker resolves every input path before it runs. */
  predicate InputsPresent(s: State, a: ActionId)
    requires ValidIndices(s, a)
  {
    forall j :: 0 <= j < |s.tasks[a].inputs| ==> Key(s.refs[s.tasks[a].inputs[j]].id, s.tasks[a].worker) in s.stores
  }

  function Union(locations: seq<WorkerId>, more: seq<WorkerId>): seq<WorkerId>
    decreases more
  {
    if more == [] then locations
    else Union(if more[0] in locations then locations else locations + [more[0]], more[1..])
  }

  predicate Enabled(s: State, step: Step) {
    if step.Submit? then step.a !in s.tasks && InRange(step.inputs, s.refs)
    else if step.CopyRef? then step.r < |s.refs|
    else if step.MergeRef? then
      && step.r < |s.refs| && step.other < |s.refs| && s.refs[step.r].id == s.refs[step.other].id
      && forall b <- s.tasks | ValidIndices(s, b) && Pulls(PhaseOf(s, b)) :: CurrentRef(s, b) != step.r
    else ValidIndices(s, step.a) && EnabledIn(s, step, PhaseOf(s, step.a))
  }

  predicate EnabledIn(s: State, step: Step, p: Phase)
    requires !step.Submit? && !step.CopyRef? && !step.MergeRef?
    requires ValidIndices(s, step.a) && p == PhaseOf(s, step.a)
  {
    match step
    case CheckLocal(a) => p.Localize? && p.i < |s.tasks[a].inputs|
    case Acquire(a) => p.Waiting? && CurrentKey(s, a) in s.locks && s.locks[CurrentKey(s, a)].None?
    case RecordStart(_) => p.Announcing?
    case FindFile(_) => p.Pulling?
    case WriteFile(_, _) => p.Fetching?
    case CheckSize(_) => p.Verifying?
    case PullFails(_) => p.Pulling? || p.Fetching? || p.Verifying? || p.Returned?
    case ListLocation(_) => p.Returned?
    case RecordEnd(_) => p.Finishing?
    case RecordAbort(_) => p.Aborting?
    case StartExecution(a) => p.Localize? && p.i == |s.tasks[a].inputs|
    case Execute(a, outputs) => p.Running? && InputsPresent(s, a) && FreshOutputs(s, outputs)
    case ExecutionFails(a, outputs) => p.Running? && FreshOutputs(s, outputs)
    case RecordExecution(_) => p.Ending?
    case RecordFailure(_) => p.Failing?
    case RecordCreated(a) => p.Announced? && p.j < |s.tasks[a].outputs|
  }

  function Apply(s: State, step: Step): State
    requires Enabled(s, step)
  {
    if step.Submit? then
      var phase := if step.worker in s.clients then Localize(0) else Failed;
      WithEvent(s.(tasks := s.tasks[step.a := Task(step.inputs, step.worker, step.executor, [], phase)]),
                Requested(step.a, InputIds(s, step.inputs), |s.events|))
    else if step.CopyRef? then s.(refs := s.refs + [s.refs[step.r]])
    else if step.MergeRef? then
      var merged := Union(s.refs[step.r].locations, s.refs[step.other].locations);
      s.(refs := s.refs[step.r := s.refs[step.r].(locations := merged)])
    else ApplyIn(s, step, PhaseOf(s, step.a))
  }

  function ApplyIn(s: State, step: Step, p: Phase): State
    requires !step.Submit? && !step.CopyRef? && !step.MergeRef?
    requires ValidIndices(s, step.a) && p == PhaseOf(s, step.a) && EnabledIn(s, step, p)
  {
    var t := s.tasks[step.a];
    match step
    case CheckLocal(a) => AskLocal(s, a)
    case Acquire(a) => EnterLocked(s, a)
    case RecordStart(a) =>
      WithPhase(WithEvent(s, TransferStarted(a, CurrentKey(s, a).artifact, p.source, t.worker, |s.events|)),
                a, Pulling(p.i, p.source))
    case FindFile(a) => LookForFile(s, a)
    case WriteFile(a, written) =>
      WithPhase(s.(stores := s.stores[CurrentKey(s, a) := written]), a, Verifying(p.i, p.source, written))
    case CheckSize(a) => CheckWritten(s, a)
    case PullFails(a) => WithPhase(s, a, Aborting(p.i, p.source))
    case ListLocation(a) => ListTarget(s, a)
    case RecordEnd(a) =>
      var key := CurrentKey(s, a);
      var e := TransferEnded(a, key.artifact, p.source, t.worker, p.bytes, true, |s.events|);
      WithPhase(WithLock(WithEvent(s, e).(completed := s.completed + {key}), key, None), a, Localize(p.i + 1))
    case RecordAbort(a) =>
      var key := CurrentKey(s, a);
      var e := TransferEnded(a, key.artifact, p.source, t.worker, 0, false, |s.events|);
      WithPhase(WithLock(WithEvent(s, e), key, None), a, Failed)
    case StartExecution(a) =>
      WithPhase(WithEvent(s, ExecutionStarted(a, t.worker, |s.events|)), a, Running)
    case Execute(a, outputs) =>
      var stored := StoreOutputs(s, t.worker, outputs);
      stored.(tasks := s.tasks[a := t.(outputs := Ids(outputs), phase := Ending)])
    case ExecutionFails(a, outputs) =>
      WithPhase(s.(stores := s.stores + Files(t.worker, outputs)), a, Failing)
    case RecordExecution(a) =>
      WithPhase(WithEvent(s, ExecutionEnded(a, t.executor, t.worker, t.outputs, true, |s.events|)), a, Announced(0))
    case RecordFailure(a) =>
      WithPhase(WithEvent(s, ExecutionEnded(a, t.executor, t.worker, [], false, |s.events|)), a, Failed)
    case RecordCreated(a) =>
      var x := t.outputs[p.j];
      var size := if x in s.sizes then s.sizes[x] else 0;
      WithPhase(WithEvent(s, Created(a, x, size, |s.events|)), a, Announced(p.j + 1))
  }
}
