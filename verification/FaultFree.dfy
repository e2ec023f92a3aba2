/**
 Runs in which no pull and no execution fails: what they keep beyond the protocol invariant.
 Every artifact that a Worker stores away from its origin was delivered there exactly once, in full.
 */
module FaultFree {
  import opened Options
  import opened Protocol
  import opened ProtocolInvariant
  import opened ProtocolSteps
  import opened ProtocolSafety

  /** No failure: pulls deliver whole artifacts and actions go to Workers that have a client. */
  predicate Benign(s: State, step: Step)
    requires Enabled(s, step)
  {
    if step.PullFails? || step.ExecutionFails? then false
    else if step.Submit? then step.worker in s.clients
    else if step.WriteFile? then
      var key := CurrentKey(s, step.a);
      key.artifact in s.sizes && step.written == s.sizes[key.artifact]
    else true
  }

  ghost predicate BenignRun(s: State, steps: seq<Step>)
    requires Runs(s, steps)
    decreases steps
  {
    steps == [] || (Benign(s, steps[0]) && BenignRun(Apply(s, steps[0]), steps[1..]))
  }

  /** At the start every artifact is stored at its origin only, and origins have clients. */
  ghost predicate Fresh(s: State) {
    && Initial(s)
    && (forall key <- s.stores :: key.artifact in s.origins && key.worker == s.origins[key.artifact] && HasCopy(s, key))
    && (forall x <- s.origins :: s.origins[x] in s.clients)
    && s.sizes.Keys == s.origins.Keys
  }

  // ---------- the invariant ----------

  predicate Healthy(p: Phase) {
    !p.Failed? && !p.Aborting? && !p.Failing?
  }

  predicate Arrived(p: Phase) {
    p.Verifying? || p.Returned? || p.Finishing?
  }

  function Arriving(p: Phase): nat
    requires Arrived(p)
  {
    if p.Verifying? then p.written else p.bytes
  }

  /** The holder of the key's lock has written the file and not yet recorded the end. */
  ghost predicate InFlight(s: State, key: Key) {
    && key in s.locks && s.locks[key].Some?
    && s.locks[key].value in s.tasks
    && Arrived(PhaseOf(s, s.locks[key].value))
  }

  ghost predicate KeyFine(s: State, key: Key) {
    && (key in s.stores ==>
          && HasCopy(s, key) && key.artifact in s.origins
          && (key.worker == s.origins[key.artifact] || key in s.completed || InFlight(s, key)))
    && (key in s.completed ==>
          && key.artifact in s.origins && key.artifact in s.sizes
          && (key.worker == s.origins[key.artifact] || Moved(s.events, key) == s.sizes[key.artifact]))
  }

  ghost predicate TaskFine(s: State, a: ActionId)
    requires ValidIndices(s, a)
  {
    var p := PhaseOf(s, a);
    && Healthy(p)
    && s.tasks[a].worker in s.clients
    && (Arrived(p) ==> HasCopy(s, CurrentKey(s, a)) && Arriving(p) == s.sizes[CurrentKey(s, a).artifact])
  }

  ghost predicate TasksFine(s: State) {
    forall a <- s.tasks :: ValidIndices(s, a) && TaskFine(s, a)
  }

  ghost predicate Fine(s: State) {
    && (forall key: Key :: KeyFine(s, key))
    && TasksFine(s)
    && (forall x <- s.origins :: s.origins[x] in s.clients)
    && s.sizes.Keys == s.origins.Keys
  }

  // ---------- framing ----------

  ghost predicate SameKey(s: State, s': State, key: Key) {
    && (key in s'.stores <==> key in s.stores)
    && (key in s'.completed <==> key in s.completed)
    && Moved(s'.events, key) == Moved(s.events, key)
    && (InFlight(s, key) ==> InFlight(s', key))
  }

  lemma KeyFrame(s: State, s': State, key: Key)
    requires KeyFine(s, key) && Grows(s, s') && SameKey(s, s', key)
    ensures KeyFine(s', key)
  {
  }

  /** Only action `a` moves; a lock it holds stays held. */
  lemma FlightFrame(s: State, s': State, a: ActionId, key: Key)
    requires InFlight(s, key)
    requires key in s'.locks && s'.locks[key] == s.locks[key]
    requires forall b <- s.tasks | b != a :: b in s'.tasks && s'.tasks[b] == s.tasks[b]
    requires s.locks[key].value == a ==> a in s'.tasks && Arrived(PhaseOf(s', a))
    ensures InFlight(s', key)
  {
  }

  lemma OthersFine(s: State, s': State, a: ActionId)
    requires TasksFine(s) && Grows(s, s')
    requires forall b <- s'.tasks :: b == a || (b in s.tasks && s'.tasks[b] == s.tasks[b])
    requires a in s'.tasks ==> ValidIndices(s', a) && TaskFine(s', a)
    ensures TasksFine(s')
  {
    forall b | b in s'.tasks
      ensures ValidIndices(s', b) && TaskFine(s', b)
    {
      if b != a {
        assert TaskFine(s, b) && ValidIndices(s, b);
        if Arrived(PhaseOf(s, b)) { assert CurrentKey(s', b) == CurrentKey(s, b); }
      }
    }
  }

  /** Steps of `a` that leave stores, completed keys, locks and reported bytes as they are. */
  lemma QuietFine(s: State, s': State, a: ActionId)
    requires Fine(s) && Grows(s, s') && s'.sizes == s.sizes && s'.origins == s.origins
    requires s'.stores == s.stores && s'.completed == s.completed
    requires forall key <- s.locks :: s'.locks[key] == s.locks[key]
    requires forall key: Key :: Moved(s'.events, key) == Moved(s.events, key)
    requires forall b <- s'.tasks :: b == a || (b in s.tasks && s'.tasks[b] == s.tasks[b])
    requires s.tasks.Keys <= s'.tasks.Keys
    requires a in s.tasks && Arrived(PhaseOf(s, a)) ==> Arrived(PhaseOf(s', a))
    requires a in s'.tasks ==> ValidIndices(s', a) && TaskFine(s', a)
    ensures Fine(s')
  {
    OthersFine(s, s', a);
    forall key: Key
      ensures KeyFine(s', key)
    {
      if InFlight(s, key) { FlightFrame(s, s', a, key); }
      KeyFrame(s, s', key);
    }
  }

  // ---------- steps ----------

  lemma PlannerFine(s: State, step: Step)
    requires Inv(s) && Fine(s) && Enabled(s, step) && Benign(s, step)
    requires step.Submit? || step.CopyRef? || step.MergeRef?
    ensures Fine(Apply(s, step))
  {
    var s' := Apply(s, step);
    if step.Submit? {
      MovedAppend(s.events, s'.events[|s.events|]);
      QuietFine(s, s', step.a);
    } else {
      RefsFine(s, s');
    }
  }

  /** Only refs are added or gain locations. */
  lemma RefsFine(s: State, s': State)
    requires Fine(s) && Grows(s, s') && s' == s.(refs := s'.refs)
    ensures Fine(s')
  {
    forall b | b in s'.tasks
      ensures ValidIndices(s', b) && TaskFine(s', b)
    {
      assert ValidIndices(s, b) && TaskFine(s, b);
      if Arrived(PhaseOf(s, b)) { assert CurrentKey(s', b) == CurrentKey(s, b); }
    }
    forall key: Key
      ensures KeyFine(s', key)
    {
      assert KeyFine(s, key);
    }
  }

  lemma CheckLocalFine(s: State, a: ActionId)
    requires Inv(s) && Fine(s) && Enabled(s, CheckLocal(a))
    ensures Fine(Apply(s, CheckLocal(a)))
  {
    var s' := Apply(s, CheckLocal(a));
    CheckLocalChanges(s, a);
    assert TaskFine(s, a);
    QuietFine(s, s', a);
  }

  lemma CheckLocalChanges(s: State, a: ActionId)
    requires Enabled(s, CheckLocal(a))
    ensures
      var s' := Apply(s, CheckLocal(a));
      && s' == s.(tasks := s.tasks[a := s'.tasks[a]], locks := s'.locks)
      && s.locks.Keys <= s'.locks.Keys
      && (forall key <- s.locks :: s'.locks[key] == s.locks[key])
      && s'.tasks[a].inputs == s.tasks[a].inputs && s'.tasks[a].worker == s.tasks[a].worker
      && ValidIndices(s', a) && (PhaseOf(s', a).Waiting? || PhaseOf(s', a).Localize?)
  {
  }

  lemma RecordStartFine(s: State, a: ActionId)
    requires Inv(s) && Fine(s) && Enabled(s, RecordStart(a))
    ensures Fine(Apply(s, RecordStart(a)))
  {
    var s' := Apply(s, RecordStart(a));
    assert TaskFine(s, a) && TaskOk(s, a);
    MovedAppend(s.events, s'.events[|s.events|]);
    QuietFine(s, s', a);
  }

  lemma StartExecutionFine(s: State, a: ActionId)
    requires Inv(s) && Fine(s) && Enabled(s, StartExecution(a))
    ensures Fine(Apply(s, StartExecution(a)))
  {
    var s' := Apply(s, StartExecution(a));
    assert TaskFine(s, a) && TaskOk(s, a);
    MovedAppend(s.events, s'.events[|s.events|]);
    QuietFine(s, s', a);
  }

  lemma RecordExecutionFine(s: State, a: ActionId)
    requires Inv(s) && Fine(s) && Enabled(s, RecordExecution(a))
    ensures Fine(Apply(s, RecordExecution(a)))
  {
    var s' := Apply(s, RecordExecution(a));
    assert TaskFine(s, a) && TaskOk(s, a);
    MovedAppend(s.events, s'.events[|s.events|]);
    QuietFine(s, s', a);
  }

  lemma RecordCreatedFine(s: State, a: ActionId)
    requires Inv(s) && Fine(s) && Enabled(s, RecordCreated(a))
    ensures Fine(Apply(s, RecordCreated(a)))
  {
    var s' := Apply(s, RecordCreated(a));
    assert TaskFine(s, a) && TaskOk(s, a);
    MovedAppend(s.events, s'.events[|s.events|]);
    QuietFine(s, s', a);
  }

  /** The lock of an artifact is taken only for Workers other than its origin. */
  lemma PullerIsRemote(s: State, a: ActionId)
    requires Inv(s) && a in s.tasks && ValidIndices(s, a) && Pulls(PhaseOf(s, a))
    ensures CurrentKey(s, a).artifact in s.origins && CurrentKey(s, a).worker != s.origins[CurrentKey(s, a).artifact]
    ensures CurrentKey(s, a) !in s.completed
  {
    assert TaskOk(s, a);
    assert RefOk(s, s.refs[CurrentRef(s, a)]);
  }

  /** Without failures a pull never finds a local file: the first pull of a key is the only one. */
  lemma FindFileFine(s: State, a: ActionId)
    requires Inv(s) && Fine(s) && Enabled(s, FindFile(a))
    ensures Fine(Apply(s, FindFile(a)))
    ensures PhaseOf(Apply(s, FindFile(a)), a).Fetching?
  {
    assert TaskFine(s, a) && TaskOk(s, a);
    PullerIsRemote(s, a);
    assert KeyFine(s, CurrentKey(s, a));
    assert CurrentKey(s, a) !in s.stores;
    QuietFine(s, Apply(s, FindFile(a)), a);
  }

  lemma WriteFileFine(s: State, a: ActionId, written: nat)
    requires Inv(s) && Fine(s) && Enabled(s, WriteFile(a, written)) && Benign(s, WriteFile(a, written))
    ensures Fine(Apply(s, WriteFile(a, written)))
  {
    var s' := Apply(s, WriteFile(a, written));
    var key0 := CurrentKey(s, a);
    assert TaskFine(s, a) && TaskOk(s, a);
    PullerIsRemote(s, a);
    assert HasCopy(s', key0) && CurrentKey(s', a) == key0;
    OthersFine(s, s', a);
    forall key: Key
      ensures KeyFine(s', key)
    {
      assert KeyFine(s, key);
      if key != key0 {
        if InFlight(s, key) { FlightFrame(s, s', a, key); }
        KeyFrame(s, s', key);
      }
    }
  }

  lemma CheckSizeFine(s: State, a: ActionId)
    requires Inv(s) && Fine(s) && Enabled(s, CheckSize(a))
    ensures Fine(Apply(s, CheckSize(a)))
  {
    assert TaskFine(s, a) && TaskOk(s, a);
    QuietFine(s, Apply(s, CheckSize(a)), a);
  }

  lemma ListLocationFine(s: State, a: ActionId)
    requires Inv(s) && Fine(s) && Enabled(s, ListLocation(a))
    ensures Fine(Apply(s, ListLocation(a)))
  {
    assert TaskFine(s, a) && TaskOk(s, a);
    var s' := Apply(s, ListLocation(a));
    assert s'.tasks[a].phase.Finishing?;
    assert CurrentKey(s', a) == CurrentKey(s, a);
    QuietFine(s, s', a);
  }

  lemma RecordEndFine(s: State, a: ActionId)
    requires Inv(s) && Fine(s) && Enabled(s, RecordEnd(a))
    ensures Fine(Apply(s, RecordEnd(a)))
  {
    var s' := Apply(s, RecordEnd(a));
    var key0 := CurrentKey(s, a);
    assert TaskFine(s, a) && TaskOk(s, a);
    MovedAppend(s.events, s'.events[|s.events|]);
    OthersFine(s, s', a);
    forall key: Key
      ensures KeyFine(s', key)
    {
      assert KeyFine(s, key);
      if key == key0 {
        assert Moved(s.events, key0) == 0;
      } else {
        if InFlight(s, key) {
          assert Holds(s, s.locks[key].value, key);
          FlightFrame(s, s', a, key);
        }
        KeyFrame(s, s', key);
      }
    }
  }

  /** A listed Worker whose lock is free either is the origin or has received the artifact. */
  lemma ListedIsKnown(s: State, r: RefId, worker: WorkerId)
    requires Inv(s) && Fine(s) && r < |s.refs| && worker in s.refs[r].locations
    requires var key := Key(s.refs[r].id, worker); key in s.locks && s.locks[key].None?
    ensures var key := Key(s.refs[r].id, worker); worker == s.origins[key.artifact] || key in s.completed
  {
    var key := Key(s.refs[r].id, worker);
    assert RefOk(s, s.refs[r]);
    assert HasCopy(s, key) && KeyFine(s, key);
  }

  lemma OriginReachable(locations: seq<WorkerId>, clients: set<WorkerId>)
    requires locations != [] && locations[0] in clients
    ensures FirstReachable(locations, clients) == Some(locations[0])
  {
  }

  lemma AcquireFine(s: State, a: ActionId)
    requires Inv(s) && Fine(s) && Enabled(s, Acquire(a))
    ensures Fine(Apply(s, Acquire(a)))
  {
    var s', key0, r := Apply(s, Acquire(a)), CurrentKey(s, a), CurrentRef(s, a);
    assert TaskFine(s, a) && TaskOk(s, a) && RefOk(s, s.refs[r]);
    OriginReachable(s.refs[r].locations, s.clients);
    AcquireTaskFine(s, a);
    OthersFine(s, s', a);
    forall key: Key
      ensures KeyFine(s', key)
    {
      assert KeyFine(s, key);
      if key in s'.completed && key !in s.completed {
        ListedIsKnown(s, r, key.worker);
      } else {
        if InFlight(s, key) {
          assert Holds(s, s.locks[key].value, key);
          FlightFrame(s, s', a, key);
        }
        KeyFrame(s, s', key);
      }
    }
  }

  lemma AcquireTaskFine(s: State, a: ActionId)
    requires Inv(s) && Fine(s) && Enabled(s, Acquire(a))
    ensures
      var s' := Apply(s, Acquire(a));
      && ValidIndices(s', a) && TaskFine(s', a) && !Arrived(PhaseOf(s', a)) && Grows(s, s')
      && s' == s.(refs := s'.refs, tasks := s.tasks[a := s'.tasks[a]], completed := s'.completed, locks := s'.locks)
      && (s'.completed == s.completed || s'.completed == s.completed + {CurrentKey(s, a)})
      && (s'.completed != s.completed ==>
            s'.locks == s.locks && s.tasks[a].worker in s.refs[CurrentRef(s, a)].locations)
      && (forall key <- s.locks :: key != CurrentKey(s, a) ==> s'.locks[key] == s.locks[key])
  {
    assert TaskFine(s, a) && TaskOk(s, a) && RefOk(s, s.refs[CurrentRef(s, a)]);
    OriginReachable(s.refs[CurrentRef(s, a)].locations, s.clients);
  }

  ghost predicate TablesFine(s: State) {
    && (forall key: Key :: KeyFine(s, key))
    && (forall x <- s.origins :: s.origins[x] in s.clients)
    && s.sizes.Keys == s.origins.Keys
  }

  lemma StoreOneFine(s: State, worker: WorkerId, x: ArtifactId, size: nat, next: State)
    requires TablesFine(s) && FreshOutputs(s, [(x, size)]) && worker in s.clients
    requires next == s.(stores := s.stores[Key(x, worker) := size], sizes := s.sizes[x := size],
                        origins := s.origins[x := worker], refs := s.refs + [Ref(x, [worker])])
    ensures TablesFine(next)
  {
    assert (x, size) in [(x, size)];
    assert x !in s.origins;
    forall key: Key
      ensures KeyFine(next, key)
    {
      assert KeyFine(s, key);
    }
  }

  lemma {:induction false} StoreAllFine(s: State, worker: WorkerId, outputs: seq<(ArtifactId, nat)>)
    requires TablesFine(s) && FreshOutputs(s, outputs) && worker in s.clients
    ensures TablesFine(StoreOutputs(s, worker, outputs))
    decreases outputs
  {
    if outputs != [] {
      var (x, size) := outputs[0];
      var next := s.(stores := s.stores[Key(x, worker) := size], sizes := s.sizes[x := size],
                     origins := s.origins[x := worker], refs := s.refs + [Ref(x, [worker])]);
      assert (x, size) in outputs;
      StoreOneFine(s, worker, x, size, next);
      assert FreshOutputs(next, outputs[1..]) by {
        forall o | o in outputs[1..]
          ensures o.0 != x && o in outputs
        {
        }
      }
      StoreAllFine(next, worker, outputs[1..]);
    }
  }

  lemma StoredFine(s: State, worker: WorkerId, outputs: seq<(ArtifactId, nat)>)
    requires RefsOk(s) && Fine(s) && FreshOutputs(s, outputs) && worker in s.clients
    ensures Fine(StoreOutputs(s, worker, outputs)) && Stores(s, StoreOutputs(s, worker, outputs))
  {
    var stored := StoreOutputs(s, worker, outputs);
    StoreAll(s, worker, outputs);
    StoreAllFine(s, worker, outputs);
    forall b | b in stored.tasks
      ensures ValidIndices(stored, b) && TaskFine(stored, b)
    {
      assert ValidIndices(s, b) && TaskFine(s, b);
      if Arrived(PhaseOf(s, b)) { assert CurrentKey(stored, b) == CurrentKey(s, b); }
    }
  }

  lemma ExecuteFine(s: State, a: ActionId, outputs: seq<(ArtifactId, nat)>)
    requires Inv(s) && Fine(s) && Enabled(s, Execute(a, outputs))
    ensures Fine(Apply(s, Execute(a, outputs)))
  {
    var t := s.tasks[a];
    assert TaskFine(s, a);
    StoredFine(s, t.worker, outputs);
    var stored := StoreOutputs(s, t.worker, outputs);
    EndingFine(stored, a, t.(outputs := Ids(outputs), phase := Ending));
  }

  lemma EndingFine(s: State, a: ActionId, t: Task)
    requires Fine(s) && a in s.tasks && t == s.tasks[a].(outputs := t.outputs, phase := Ending)
    requires PhaseOf(s, a).Running?
    ensures Fine(s.(tasks := s.tasks[a := t]))
  {
    assert TaskFine(s, a);
    QuietFine(s, s.(tasks := s.tasks[a := t]), a);
  }

  // ---------- every step, every run ----------

  lemma PullFine(s: State, step: Step)
    requires Inv(s) && Fine(s) && Enabled(s, step) && Benign(s, step)
    requires step.FindFile? || step.WriteFile? || step.CheckSize? || step.ListLocation? || step.RecordEnd?
    ensures Fine(Apply(s, step))
  {
    match step
    case FindFile(a) => FindFileFine(s, a);
    case WriteFile(a, written) => WriteFileFine(s, a, written);
    case CheckSize(a) => CheckSizeFine(s, a);
    case ListLocation(a) => ListLocationFine(s, a);
    case RecordEnd(a) => RecordEndFine(s, a);
  }

  lemma LockFine(s: State, step: Step)
    requires Inv(s) && Fine(s) && Enabled(s, step) && Benign(s, step)
    requires step.CheckLocal? || step.Acquire? || step.RecordStart?
    ensures Fine(Apply(s, step))
  {
    match step
    case CheckLocal(a) => CheckLocalFine(s, a);
    case Acquire(a) => AcquireFine(s, a);
    case RecordStart(a) => RecordStartFine(s, a);
  }

  lemma ExecutionFine(s: State, step: Step)
    requires Inv(s) && Fine(s) && Enabled(s, step) && Benign(s, step)
    requires step.StartExecution? || step.Execute? || step.RecordExecution? || step.RecordCreated?
    ensures Fine(Apply(s, step))
  {
    match step
    case StartExecution(a) => StartExecutionFine(s, a);
    case Execute(a, outputs) => ExecuteFine(s, a, outputs);
    case RecordExecution(a) => RecordExecutionFine(s, a);
    case RecordCreated(a) => RecordCreatedFine(s, a);
  }

  /** A healthy action records no failure. */
  lemma NoFailureStep(s: State, step: Step)
    requires TasksFine(s) && Enabled(s, step)
    ensures !step.RecordAbort? && !step.RecordFailure?
  {
  }

  lemma StepFine(s: State, step: Step)
    requires Inv(s) && Fine(s) && Enabled(s, step) && Benign(s, step)
    ensures Fine(Apply(s, step))
  {
    NoFailureStep(s, step);
    if step.Submit? || step.CopyRef? || step.MergeRef? { PlannerFine(s, step); }
    else if step.CheckLocal? || step.Acquire? || step.RecordStart? { LockFine(s, step); }
    else if step.StartExecution? || step.Execute? || step.RecordExecution? || step.RecordCreated? {
      ExecutionFine(s, step);
    }
    else { PullFine(s, step); }
  }

  lemma FreshFine(s: State)
    requires Fresh(s)
    ensures Fine(s)
  {
  }

  lemma {:induction false} RunFine(s: State, steps: seq<Step>)
    requires Inv(s) && Fine(s) && Runs(s, steps) && BenignRun(s, steps)
    ensures Fine(Run(s, steps))
    decreases steps
  {
    if steps != [] {
      StepKeepsInv(s, steps[0]);
      StepFine(s, steps[0]);
      RunFine(Apply(s, steps[0]), steps[1..]);
    }
  }

  /**
   When nothing fails and nothing is being pulled, each artifact that a Worker other than its origin stores
   has been moved there exactly once and in full.
   */
  lemma DeliveredExactlyOnce(s: State, steps: seq<Step>, key: Key)
    requires Fresh(s) && Runs(s, steps) && BenignRun(s, steps)
    requires forall a <- Run(s, steps).tasks :: !Holding(PhaseOf(Run(s, steps), a))
    requires key in Run(s, steps).stores
    ensures
      var t := Run(s, steps);
      && key.artifact in t.origins && key.artifact in t.sizes
      && (key.worker != t.origins[key.artifact] ==> Moved(t.events, key) == t.sizes[key.artifact])
  {
    InitialInv(s);
    FreshFine(s);
    RunKeepsInv(s, steps);
    RunFine(s, steps);
    assert KeyFine(Run(s, steps), key);
  }
}
