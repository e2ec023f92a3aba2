/**
 Each step of the protocol keeps the invariant.
 */
module ProtocolSteps {
  import opened Options
  import opened Sequences
  import opened Protocol
  import opened ProtocolInvariant

  lemma MovedAppend(events: seq<Event>, e: Event)
    ensures forall key :: Moved(events + [e], key) == Moved(events, key) + BytesOf(e, key)
  {
  }

  // ---------- steps that only move the action's phase and record events ----------

  /** Only task `a` and the event list change, and no bytes are reported. */
  ghost predicate Quiet(s: State, s': State, a: ActionId) {
    && a in s.tasks && a in s'.tasks
    && s' == s.(tasks := s.tasks[a := s'.tasks[a]], events := s'.events)
    && (forall key :: Moved(s'.events, key) == Moved(s.events, key))
  }

  ghost predicate SameHold(s: State, s': State, a: ActionId)
    requires ValidIndices(s, a) && ValidIndices(s', a)
  {
    Holding(PhaseOf(s, a)) ==> Holding(PhaseOf(s', a)) && CurrentKey(s', a) == CurrentKey(s, a)
  }

  lemma QuietStep(s: State, s': State, a: ActionId)
    requires Inv(s) && Quiet(s, s', a)
    requires ValidIndices(s', a) && TaskOk(s', a) && TaskOk(s, a) && SameHold(s, s', a)
    ensures Inv(s')
  {
  }

  lemma RecordStartStep(s: State, a: ActionId)
    requires Inv(s) && Enabled(s, RecordStart(a))
    ensures Inv(Apply(s, RecordStart(a)))
  {
    var s' := Apply(s, RecordStart(a));
    MovedAppend(s.events, s'.events[|s.events|]);
    assert TaskOk(s, a);
    QuietStep(s, s', a);
  }

  lemma FindFileStep(s: State, a: ActionId)
    requires Inv(s) && Enabled(s, FindFile(a))
    ensures Inv(Apply(s, FindFile(a)))
  {
    assert TaskOk(s, a);
    QuietStep(s, Apply(s, FindFile(a)), a);
  }

  lemma PullFailsStep(s: State, a: ActionId)
    requires Inv(s) && Enabled(s, PullFails(a))
    ensures Inv(Apply(s, PullFails(a)))
  {
  }

  lemma StartExecutionStep(s: State, a: ActionId)
    requires Inv(s) && Enabled(s, StartExecution(a))
    ensures Inv(Apply(s, StartExecution(a)))
  {
    var s' := Apply(s, StartExecution(a));
    MovedAppend(s.events, s'.events[|s.events|]);
    assert TaskOk(s, a);
    QuietStep(s, s', a);
  }

  lemma RecordExecutionStep(s: State, a: ActionId)
    requires Inv(s) && Enabled(s, RecordExecution(a))
    ensures Inv(Apply(s, RecordExecution(a)))
  {
    var s' := Apply(s, RecordExecution(a));
    MovedAppend(s.events, s'.events[|s.events|]);
    assert TaskOk(s, a);
    QuietStep(s, s', a);
  }

  lemma RecordFailureStep(s: State, a: ActionId)
    requires Inv(s) && Enabled(s, RecordFailure(a))
    ensures Inv(Apply(s, RecordFailure(a)))
  {
    var s' := Apply(s, RecordFailure(a));
    MovedAppend(s.events, s'.events[|s.events|]);
    assert TaskOk(s, a);
    QuietStep(s, s', a);
  }

  lemma RecordCreatedStep(s: State, a: ActionId)
    requires Inv(s) && Enabled(s, RecordCreated(a))
    ensures Inv(Apply(s, RecordCreated(a)))
  {
    var s' := Apply(s, RecordCreated(a));
    MovedAppend(s.events, s'.events[|s.events|]);
    assert TaskOk(s, a);
    QuietStep(s, s', a);
  }

  // ---------- steps that change shared state ----------

  ghost predicate Undisturbed(s: State, s': State, b: ActionId)
    requires ValidIndices(s, b)
  {
    && (Pulls(PhaseOf(s, b)) ==> KeyUntouched(s, s', CurrentKey(s, b), CurrentRef(s, b)))
    && (Holding(PhaseOf(s, b)) && !Pulls(PhaseOf(s, b)) ==>
          && CurrentKey(s, b) in s.locks && CurrentKey(s, b) in s'.locks
          && s'.locks[CurrentKey(s, b)] == s.locks[CurrentKey(s, b)]
          && Moved(s'.events, CurrentKey(s, b)) == Moved(s.events, CurrentKey(s, b))
          && (CurrentKey(s, b).artifact in s'.origins ==> CurrentKey(s, b).artifact in s.origins))
  }

  /** Only `a` changes its task, and no lock passes to another action. */
  ghost predicate Owned(s: State, s': State, a: ActionId) {
    && a in s'.tasks
    && s'.tasks == s.tasks[a := s'.tasks[a]]
    && Grows(s, s')
    && (forall key <- s'.locks :: s'.locks[key].Some? ==>
          || (s'.locks[key].value == a && Holds(s', a, key))
          || (s'.locks[key].value != a && key in s.locks && s.locks[key] == s'.locks[key]))
  }

  /** A step of `a` that disturbs no other holder keeps the invariants about tasks and locks. */
  lemma OwnedStep(s: State, s': State, a: ActionId)
    requires Inv(s) && Owned(s, s', a) && TaskOk(s', a)
    requires forall b <- s.tasks | b != a && ValidIndices(s, b) :: Undisturbed(s, s', b)
    ensures TasksOk(s') && LocksOk(s')
  {
    forall b | b in s'.tasks
      ensures TaskOk(s', b)
    {
      if b != a {
        assert TaskOk(s, b);
        assert Undisturbed(s, s', b);
        TaskFrame(s, s', b);
      }
    }
    forall key | key in s'.locks && s'.locks[key].Some?
      ensures Holds(s', s'.locks[key].value, key)
    {
      var b := s'.locks[key].value;
      if b != a {
        assert Holds(s, b, key) && TaskOk(s', b);
        assert CurrentKey(s', b) == CurrentKey(s, b);
      }
    }
  }

  /** Unchanged refs, completed keys and events stay in order when the rest grows. */
  lemma RefsFrame(s: State, s': State)
    requires RefsOk(s) && Grows(s, s') && s'.refs == s.refs
    ensures RefsOk(s')
  {
  }

  lemma MovedFrame(s: State, s': State)
    requires MovedOk(s) && Grows(s, s') && forall key :: Moved(s'.events, key) == Moved(s.events, key)
    ensures MovedOk(s')
  {
  }

  /** Only `a` and what belongs to one key change, and that key's lock is free or held by `a`. */
  ghost predicate Touches(s: State, s': State, a: ActionId, key: Key) {
    && s'.clients == s.clients && s'.refs == s.refs && s'.sizes == s.sizes && s'.origins == s.origins
    && a in s'.tasks && s'.tasks == s.tasks[a := s'.tasks[a]]
    && s'.locks == (if key in s'.locks then s.locks[key := s'.locks[key]] else s.locks)
    && (key in s.locks ==> s.locks[key].None? || s.locks[key] == Some(a))
    && (forall k :: k != key ==> (k in s'.stores <==> k in s.stores))
    && (forall k <- s.stores :: k != key ==> s'.stores[k] == s.stores[k])
    && (forall k :: k != key ==> (k in s'.completed <==> k in s.completed))
    && (forall k :: k != key ==> Moved(s'.events, k) == Moved(s.events, k))
    && (HasCopy(s, key) ==> HasCopy(s', key))
  }

  lemma TouchOthers(s: State, s': State, a: ActionId, key: Key, b: ActionId)
    requires Inv(s) && Touches(s, s', a, key)
    requires b in s.tasks && b != a && ValidIndices(s, b)
    ensures Undisturbed(s, s', b)
  {
  }

  lemma TouchGrows(s: State, s': State, a: ActionId, key: Key)
    requires Touches(s, s', a, key)
    ensures Grows(s, s')
  {
  }

  /** A step on one key whose own action, copies and lock are in order afterwards keeps the invariant. */
  lemma TouchStep(s: State, s': State, a: ActionId, key: Key)
    requires Inv(s) && Touches(s, s', a, key) && TaskOk(s', a)
    requires Moved(s'.events, key) == 0 || (HasCopy(s', key) && Moved(s'.events, key) == s'.sizes[key.artifact])
    requires key in s'.completed ==> HasCopy(s', key)
    requires key in s'.locks && s'.locks[key].Some? ==> s'.locks[key] == Some(a) && Holds(s', a, key)
    requires a in s.tasks && ValidIndices(s, a) && Holding(PhaseOf(s, a)) ==> CurrentKey(s, a) == key
    ensures Inv(s')
  {
    TouchGrows(s, s', a, key);
    RefsFrame(s, s');
    forall k
      ensures Moved(s'.events, k) == 0 || (HasCopy(s', k) && Moved(s'.events, k) == s'.sizes[k.artifact])
    {
      assert Moved(s.events, k) == 0 || HasCopy(s, k);
    }
    forall k | k in s'.completed
      ensures HasCopy(s', k)
    {
      if k != key { assert HasCopy(s, k); }
    }
    forall b | b in s.tasks && b != a && ValidIndices(s, b)
      ensures Undisturbed(s, s', b)
    {
      TouchOthers(s, s', a, key, b);
    }
    forall k | k in s'.locks && s'.locks[k].Some? && k != key
      ensures s'.locks[k].value != a
    {
      assert Holds(s, s.locks[k].value, k);
    }
    OwnedStep(s, s', a);
  }

  lemma CheckLocalStep(s: State, a: ActionId)
    requires Inv(s) && Enabled(s, CheckLocal(a))
    ensures Inv(Apply(s, CheckLocal(a)))
  {
    var t := s.tasks[a];
    var key := Key(s.refs[t.inputs[t.phase.i]].id, t.worker);
    assert TaskOk(s, a);
    if t.worker in s.refs[t.inputs[t.phase.i]].locations {
      OneMoreLocal(s, a, key);
      LocalAlready(s, WithPhase(s, a, Localize(t.phase.i + 1)), a);
    } else if key in s.locks {
      LocalAlready(s, WithPhase(s, a, Waiting(t.phase.i)), a);
    } else {
      NewLock(s, WithPhase(WithLock(s, key, None), a, Waiting(t.phase.i)), a, key);
    }
  }

  lemma OneMoreLocal(s: State, a: ActionId, key: Key)
    requires RefsOk(s) && TaskOk(s, a) && PhaseOf(s, a).Localize? && PhaseOf(s, a).i < |s.tasks[a].inputs|
    requires var ref := s.refs[s.tasks[a].inputs[PhaseOf(s, a).i]];
             key == Key(ref.id, s.tasks[a].worker) && s.tasks[a].worker in ref.locations
    ensures TaskOk(WithPhase(s, a, Localize(PhaseOf(s, a).i + 1)), a)
  {
  }

  /** No lock is needed, or there is one to wait for. */
  lemma LocalAlready(s: State, s': State, a: ActionId)
    requires Inv(s) && a in s.tasks && PhaseOf(s, a).Localize?
    requires a in s'.tasks && s' == s.(tasks := s.tasks[a := s'.tasks[a]])
    requires TaskOk(s', a)
    ensures Inv(s')
  {
    assert TaskOk(s, a);
    QuietStep(s, s', a);
  }

  lemma NewLock(s: State, s': State, a: ActionId, key: Key)
    requires Inv(s) && a in s.tasks && PhaseOf(s, a).Localize? && key !in s.locks
    requires a in s'.tasks && s' == s.(tasks := s.tasks[a := s'.tasks[a]], locks := s.locks[key := None])
    requires TaskOk(s', a)
    ensures Inv(s')
  {
    assert TaskOk(s, a);
    assert Moved(s.events, key) == 0 || HasCopy(s, key);
    TouchStep(s, s', a, key);
  }

  lemma WriteFileStep(s: State, a: ActionId, written: nat)
    requires Inv(s) && Enabled(s, WriteFile(a, written))
    ensures Inv(Apply(s, WriteFile(a, written)))
  {
    var s' := Apply(s, WriteFile(a, written));
    var key := CurrentKey(s, a);
    assert TaskOk(s, a);
    assert Unlisted(s, key) by {
      forall i | 0 <= i < |s.refs| && s.refs[i].id == key.artifact
        ensures key.worker !in s.refs[i].locations
      {
        assert RefOk(s, s.refs[i]);
        assert !HasCopy(s, Key(s.refs[i].id, key.worker));
      }
    }
    assert !HasCopy(s, key) && Moved(s.events, key) == 0;
    OwnInputs(s, s', a, key);
    TouchStep(s, s', a, key);
  }

  /** The inputs already local stay local when one key is touched. */
  lemma OwnInputs(s: State, s': State, a: ActionId, key: Key)
    requires TaskOk(s, a) && Touches(s, s', a, key)
    requires s'.tasks[a].inputs == s.tasks[a].inputs && s'.tasks[a].worker == s.tasks[a].worker
    requires ValidIndices(s', a) && LocalInputs(s'.tasks[a]) <= LocalInputs(s.tasks[a])
    ensures InputsLocal(s', a)
  {
  }

  lemma CheckSizeStep(s: State, a: ActionId)
    requires Inv(s) && Enabled(s, CheckSize(a))
    ensures Inv(Apply(s, CheckSize(a)))
  {
    var s' := Apply(s, CheckSize(a));
    var key := CurrentKey(s, a);
    assert TaskOk(s, a);
    assert key in s.completed ==> HasCopy(s, key);
    OwnInputs(s, s', a, key);
    TouchStep(s, s', a, key);
  }

  lemma RecordAbortStep(s: State, a: ActionId)
    requires Inv(s) && Enabled(s, RecordAbort(a))
    ensures Inv(Apply(s, RecordAbort(a)))
  {
    var s' := Apply(s, RecordAbort(a));
    var key := CurrentKey(s, a);
    assert TaskOk(s, a);
    MovedAppend(s.events, s'.events[|s.events|]);
    assert key in s.completed ==> HasCopy(s, key);
    assert Moved(s.events, key) == 0 || HasCopy(s, key);
    OwnInputs(s, s', a, key);
    TouchStep(s, s', a, key);
  }

  lemma RecordEndStep(s: State, a: ActionId)
    requires Inv(s) && Enabled(s, RecordEnd(a))
    ensures Inv(Apply(s, RecordEnd(a)))
  {
    var s' := Apply(s, RecordEnd(a));
    var key := CurrentKey(s, a);
    assert TaskOk(s, a);
    MovedAppend(s.events, s'.events[|s.events|]);
    assert Touches(s, s', a, key);
    TouchGrows(s, s', a, key);
    AdvancedTask(s, s', a);
    TouchStep(s, s', a, key);
  }

  /** The action moves on to its next input when the current one is stored locally. */
  lemma AdvancedTask(s: State, s': State, a: ActionId)
    requires TaskOk(s, a) && Grows(s, s') && InTransfer(PhaseOf(s, a))
    requires HasCopy(s, CurrentKey(s, a))
    requires a in s'.tasks && s'.tasks[a] == s.tasks[a].(phase := Localize(PhaseOf(s, a).i + 1))
    ensures TaskOk(s', a)
  {
  }

  // ---------- steps that list a location ----------

  /** Listing Worker `w` of a stored copy in one ref, while the key's lock is free or held by `a`. */
  ghost predicate Lists(s: State, s': State, a: ActionId, r: RefId, w: WorkerId) {
    && a in s.tasks && a in s'.tasks && r < |s.refs|
    && s' == WithLocation(s, r, w).(tasks := s.tasks[a := s'.tasks[a]])
    && w !in s.refs[r].locations
    && HasCopy(s, Key(s.refs[r].id, w))
    && (Key(s.refs[r].id, w) in s.locks ==>
          s.locks[Key(s.refs[r].id, w)].None? || s.locks[Key(s.refs[r].id, w)] == Some(a))
  }

  lemma ListedRefs(s: State, s': State, a: ActionId, r: RefId, w: WorkerId)
    requires Inv(s) && Lists(s, s', a, r, w)
    ensures Grows(s, s') && RefsOk(s')
  {
  }

  lemma ListedOthers(s: State, s': State, a: ActionId, r: RefId, w: WorkerId, b: ActionId)
    requires Inv(s) && Lists(s, s', a, r, w)
    requires b in s.tasks && b != a && ValidIndices(s, b)
    ensures Undisturbed(s, s', b)
  {
  }

  lemma ListStep(s: State, s': State, a: ActionId, r: RefId, w: WorkerId)
    requires Inv(s) && Lists(s, s', a, r, w)
    requires TaskOk(s', a) && ValidIndices(s, a) && SameHold(s, s', a)
    ensures Inv(s')
  {
    ListedRefs(s, s', a, r, w);
    MovedFrame(s, s');
    forall b | b in s.tasks && b != a && ValidIndices(s, b)
      ensures Undisturbed(s, s', b)
    {
      ListedOthers(s, s', a, r, w, b);
    }
    forall k | k in s'.locks && s'.locks[k] == Some(a)
      ensures Holds(s', a, k)
    {
      assert Holds(s, a, k);
    }
    OwnedStep(s, s', a);
    forall k | k in s'.completed
      ensures HasCopy(s', k)
    {
      assert HasCopy(s, k);
    }
  }

  lemma FirstIsReachable(locations: seq<WorkerId>, clients: set<WorkerId>)
    requires locations != [] && locations[0] in clients
    ensures FirstReachable(locations, clients) == Some(locations[0])
  {
  }

  /** Entering with the key already completed: the location may have to be listed in this ref. */
  lemma AcquireCompletedStep(s: State, a: ActionId)
    requires Inv(s) && Enabled(s, Acquire(a)) && CurrentKey(s, a) in s.completed
    ensures Inv(Apply(s, Acquire(a)))
  {
    var s' := Apply(s, Acquire(a));
    var r, key := CurrentRef(s, a), CurrentKey(s, a);
    assert TaskOk(s, a) && HasCopy(s, key);
    if key.worker in s.refs[r].locations {
      assert s' == s.(tasks := s.tasks[a := s'.tasks[a]]);
      QuietStep(s, s', a);
    } else {
      assert Lists(s, s', a, r, key.worker);
      ListedRefs(s, s', a, r, key.worker);
      AdvancedTask(s, s', a);
      ListStep(s, s', a, r, key.worker);
    }
  }

  /** Entering with the location listed meanwhile: the key is marked completed. */
  lemma AcquireListedStep(s: State, a: ActionId)
    requires Inv(s) && Enabled(s, Acquire(a)) && CurrentKey(s, a) !in s.completed
    requires s.tasks[a].worker in s.refs[CurrentRef(s, a)].locations
    ensures Inv(Apply(s, Acquire(a)))
  {
  }

  /** Entering without a copy: the lock is taken, or there is nowhere to pull to or from. */
  lemma AcquireAbsentStep(s: State, a: ActionId)
    requires Inv(s) && Enabled(s, Acquire(a)) && CurrentKey(s, a) !in s.completed
    requires s.tasks[a].worker !in s.refs[CurrentRef(s, a)].locations
    ensures Inv(Apply(s, Acquire(a)))
  {
    var s' := Apply(s, Acquire(a));
    var r, key := CurrentRef(s, a), CurrentKey(s, a);
    assert TaskOk(s, a) && RefOk(s, s.refs[r]);
    assert Moved(s.events, key) == 0 || HasCopy(s, key);
    if s.refs[r].locations[0] in s.clients { FirstIsReachable(s.refs[r].locations, s.clients); }
    OwnInputs(s, s', a, key);
    TouchStep(s, s', a, key);
  }

  lemma AcquireStep(s: State, a: ActionId)
    requires Inv(s) && Enabled(s, Acquire(a))
    ensures Inv(Apply(s, Acquire(a)))
  {
    if CurrentKey(s, a) in s.completed { AcquireCompletedStep(s, a); }
    else if s.tasks[a].worker in s.refs[CurrentRef(s, a)].locations { AcquireListedStep(s, a); }
    else { AcquireAbsentStep(s, a); }
  }

  lemma ListLocationStep(s: State, a: ActionId)
    requires Inv(s) && Enabled(s, ListLocation(a))
    ensures Inv(Apply(s, ListLocation(a)))
  {
    var s' := Apply(s, ListLocation(a));
    var r, key := CurrentRef(s, a), CurrentKey(s, a);
    assert TaskOk(s, a);
    assert Lists(s, s', a, r, key.worker);
    ListedRefs(s, s', a, r, key.worker);
    forall j | 0 <= j < LocalInputs(s.tasks[a])
      ensures HasCopy(s', Key(s'.refs[s.tasks[a].inputs[j]].id, key.worker))
    {
      assert HasCopy(s, Key(s.refs[s.tasks[a].inputs[j]].id, key.worker));
    }
    ListStep(s, s', a, r, key.worker);
  }

  // ---------- new actions, refs and artifacts ----------

  lemma SubmitStep(s: State, a: ActionId, inputs: seq<RefId>, worker: WorkerId, executor: string)
    requires Inv(s) && Enabled(s, Submit(a, inputs, worker, executor))
    ensures Inv(Apply(s, Submit(a, inputs, worker, executor)))
  {
    var s' := Apply(s, Submit(a, inputs, worker, executor));
    MovedAppend(s.events, s'.events[|s.events|]);
    RefsFrame(s, s');
    MovedFrame(s, s');
    forall b | b in s.tasks && b != a && ValidIndices(s, b)
      ensures Undisturbed(s, s', b)
    {
      assert TaskOk(s, b);
    }
    forall k | k in s.locks && s.locks[k].Some?
      ensures s.locks[k].value != a
    {
      assert Holds(s, s.locks[k].value, k);
    }
    OwnedStep(s, s', a);
  }

  /** Every action keeps its state when only refs change. */
  lemma RefsOnlyStep(s: State, s': State)
    requires Inv(s) && s' == s.(refs := s'.refs) && Grows(s, s') && RefsOk(s')
    requires forall b <- s.tasks | ValidIndices(s, b) :: Undisturbed(s, s', b)
    ensures Inv(s')
  {
    MovedFrame(s, s');
    forall b | b in s'.tasks
      ensures TaskOk(s', b)
    {
      assert TaskOk(s, b) && Undisturbed(s, s', b);
      TaskFrame(s, s', b);
    }
    forall key | key in s'.locks && s'.locks[key].Some?
      ensures Holds(s', s'.locks[key].value, key)
    {
      var b := s.locks[key].value;
      assert Holds(s, b, key) && TaskOk(s', b);
      assert CurrentKey(s', b) == CurrentKey(s, b);
    }
    forall k | k in s'.completed
      ensures HasCopy(s', k)
    {
      assert HasCopy(s, k);
    }
  }

  lemma CopyRefStep(s: State, r: RefId)
    requires Inv(s) && Enabled(s, CopyRef(r))
    ensures Inv(Apply(s, CopyRef(r)))
  {
    var s' := Apply(s, CopyRef(r));
    forall i | 0 <= i < |s'.refs|
      ensures RefOk(s', s'.refs[i])
    {
      RefFrame(s, s', if i < |s.refs| then s.refs[i] else s.refs[r]);
    }
    forall b | b in s.tasks && ValidIndices(s, b)
      ensures Undisturbed(s, s', b)
    {
      assert TaskOk(s, b);
    }
    RefsOnlyStep(s, s');
  }

  lemma {:induction false} UnionLocations(locations: seq<WorkerId>, more: seq<WorkerId>)
    requires NoDuplicates(locations)
    ensures locations <= Union(locations, more) && NoDuplicates(Union(locations, more))
    ensures forall w :: w in Union(locations, more) <==> w in locations || w in more
    decreases more
  {
    if more != [] {
      var next := if more[0] in locations then locations else locations + [more[0]];
      UnionLocations(next, more[1..]);
      assert forall w :: w in more <==> w == more[0] || w in more[1..];
    }
  }

  lemma MergedRefs(s: State, r: RefId, other: RefId)
    requires Inv(s) && Enabled(s, MergeRef(r, other))
    ensures Grows(s, Apply(s, MergeRef(r, other))) && RefsOk(Apply(s, MergeRef(r, other)))
  {
    var s' := Apply(s, MergeRef(r, other));
    UnionLocations(s.refs[r].locations, s.refs[other].locations);
    assert RefOk(s, s.refs[r]) && RefOk(s, s.refs[other]);
    assert Grows(s, s');
    forall i | 0 <= i < |s'.refs|
      ensures RefOk(s', s'.refs[i])
    {
      if i != r { RefFrame(s, s', s.refs[i]); }
    }
  }

  lemma MergeRefStep(s: State, r: RefId, other: RefId)
    requires Inv(s) && Enabled(s, MergeRef(r, other))
    ensures Inv(Apply(s, MergeRef(r, other)))
  {
    var s' := Apply(s, MergeRef(r, other));
    MergedRefs(s, r, other);
    UnionLocations(s.refs[r].locations, s.refs[other].locations);
    forall b | b in s.tasks && ValidIndices(s, b)
      ensures Undisturbed(s, s', b)
    {
      assert TaskOk(s, b);
      if Pulls(PhaseOf(s, b)) { MergeKeepsUnlisted(s, r, other, CurrentKey(s, b)); }
    }
    RefsOnlyStep(s, s');
  }

  lemma MergeKeepsUnlisted(s: State, r: RefId, other: RefId, key: Key)
    requires RefsOk(s) && Enabled(s, MergeRef(r, other))
    ensures Unlisted(s, key) ==> Unlisted(Apply(s, MergeRef(r, other)), key)
  {
    assert RefOk(s, s.refs[r]);
    UnionLocations(s.refs[r].locations, s.refs[other].locations);
  }

  // ---------- storing outputs ----------

  /** What storing fresh outputs changes. */
  ghost predicate Stores(s: State, s': State) {
    && s'.tasks == s.tasks && s'.events == s.events && s'.locks == s.locks && s'.completed == s.completed
    && Grows(s, s')
    && (forall i :: 0 <= i < |s.refs| ==> s'.refs[i] == s.refs[i])
    && (forall i :: |s.refs| <= i < |s'.refs| ==> s'.refs[i].id !in s.sizes)
    && (forall key: Key :: key.artifact in s.sizes ==> (key in s'.stores <==> key in s.stores))
    && (forall key <- s.stores :: key.artifact in s.sizes ==> s'.stores[key] == s.stores[key])
    && (forall x :: x in s.sizes && x in s'.origins ==> x in s.origins)
  }

  lemma StoreOne(s: State, worker: WorkerId, x: ArtifactId, size: nat)
    requires RefsOk(s) && FreshOutputs(s, [(x, size)])
    ensures
      var s' := s.(stores := s.stores[Key(x, worker) := size], sizes := s.sizes[x := size],
                   origins := s.origins[x := worker], refs := s.refs + [Ref(x, [worker])]);
      Stores(s, s') && RefsOk(s')
  {
  }

  lemma {:induction false} StoreAll(s: State, worker: WorkerId, outputs: seq<(ArtifactId, nat)>)
    requires RefsOk(s) && FreshOutputs(s, outputs)
    ensures Stores(s, StoreOutputs(s, worker, outputs)) && RefsOk(StoreOutputs(s, worker, outputs))
    decreases outputs
  {
    if outputs != [] {
      var (x, size) := outputs[0];
      assert (x, size) in outputs;
      var next := s.(stores := s.stores[Key(x, worker) := size], sizes := s.sizes[x := size],
                     origins := s.origins[x := worker], refs := s.refs + [Ref(x, [worker])]);
      StoreOne(s, worker, x, size);
      assert FreshOutputs(next, outputs[1..]) by {
        forall o | o in outputs[1..]
          ensures o.0 != x && o in outputs
        {
        }
      }
      StoreAll(next, worker, outputs[1..]);
      StoresTransitive(s, next, StoreOutputs(next, worker, outputs[1..]));
    }
  }

  lemma StoresTransitive(s: State, t: State, u: State)
    requires Stores(s, t) && Stores(t, u)
    ensures Stores(s, u)
  {
  }

  lemma ExecuteStep(s: State, a: ActionId, outputs: seq<(ArtifactId, nat)>)
    requires Inv(s) && Enabled(s, Execute(a, outputs))
    ensures Inv(Apply(s, Execute(a, outputs)))
  {
    StoreAll(s, s.tasks[a].worker, outputs);
    CallStep(s, StoreOutputs(s, s.tasks[a].worker, outputs), Apply(s, Execute(a, outputs)), a);
  }

  /** What a failed call leaves behind belongs to no ref and no pull. */
  lemma ExecutionFailsStep(s: State, a: ActionId, outputs: seq<(ArtifactId, nat)>)
    requires Inv(s) && Enabled(s, ExecutionFails(a, outputs))
    ensures Inv(Apply(s, ExecutionFails(a, outputs)))
  {
    var stored := s.(stores := s.stores + Files(s.tasks[a].worker, outputs));
    FilesAreNew(s, s.tasks[a].worker, outputs);
    RefsFrame(s, stored);
    CallStep(s, stored, Apply(s, ExecutionFails(a, outputs)), a);
  }

  lemma {:induction false} FilesAreOutputs(worker: WorkerId, outputs: seq<(ArtifactId, nat)>)
    ensures forall key <- Files(worker, outputs) :: exists o <- outputs :: key.artifact == o.0
  {
    if outputs != [] {
      var n := |outputs| - 1;
      FilesAreOutputs(worker, outputs[..n]);
      assert outputs == outputs[..n] + [outputs[n]];
    }
  }

  lemma FilesAreNew(s: State, worker: WorkerId, outputs: seq<(ArtifactId, nat)>)
    requires FreshOutputs(s, outputs)
    ensures Stores(s, s.(stores := s.stores + Files(worker, outputs)))
  {
    FilesAreOutputs(worker, outputs);
    forall key | key in Files(worker, outputs)
      ensures key !in s.stores && key.artifact !in s.sizes
    {
      var o :| o in outputs && key.artifact == o.0;
    }
  }

  /** The Worker has stored something new, and the running action moves on. */
  lemma CallStep(s: State, stored: State, s': State, a: ActionId)
    requires Inv(s) && a in s.tasks && PhaseOf(s, a).Running? && Stores(s, stored) && RefsOk(stored)
    requires a in s'.tasks && s' == stored.(tasks := s.tasks[a := s'.tasks[a]])
    requires s'.tasks[a].inputs == s.tasks[a].inputs && s'.tasks[a].worker == s.tasks[a].worker
    requires s'.tasks[a].phase.Ending? || s'.tasks[a].phase.Failing?
    ensures Inv(s')
  {
    assert TaskOk(s, a);
    forall i | 0 <= i < |s'.refs|
      ensures RefOk(s', s'.refs[i])
    {
      assert RefOk(stored, stored.refs[i]);
      SameRef(stored, s', stored.refs[i]);
    }
    MovedFrame(s, s');
    forall b | b in s.tasks && b != a && ValidIndices(s, b)
      ensures Undisturbed(s, s', b)
    {
      assert TaskOk(s, b);
      if Holding(PhaseOf(s, b)) { ExecuteUndisturbed(s, s', b); }
    }
    AdvancedInputs(s, s', a);
    forall k | k in s.locks && s.locks[k].Some?
      ensures s.locks[k].value != a
    {
      assert Holds(s, s.locks[k].value, k);
    }
    OwnedStep(s, s', a);
    forall k | k in s'.completed
      ensures HasCopy(s', k)
    {
      assert HasCopy(s, k);
    }
  }

  lemma SameRef(s: State, s': State, ref: Ref)
    requires RefOk(s, ref) && s'.stores == s.stores && s'.sizes == s.sizes && s'.origins == s.origins
    ensures RefOk(s', ref)
  {
  }

  lemma ExecuteUndisturbed(s: State, s': State, b: ActionId)
    requires Inv(s) && b in s.tasks && TaskOk(s, b) && Holding(PhaseOf(s, b))
    requires Stores(s, s'.(tasks := s.tasks))
    ensures Undisturbed(s, s', b)
  {
  }

  lemma AdvancedInputs(s: State, s': State, a: ActionId)
    requires TaskOk(s, a) && Grows(s, s') && PhaseOf(s, a).Running?
    requires a in s'.tasks && s'.tasks[a].inputs == s.tasks[a].inputs && s'.tasks[a].worker == s.tasks[a].worker
    requires s'.tasks[a].phase.Ending? || s'.tasks[a].phase.Failing?
    ensures TaskOk(s', a)
  {
  }

  // ---------- every step ----------

  lemma LockedStep(s: State, step: Step)
    requires step.CheckLocal? || step.Acquire? || step.RecordStart? || step.FindFile?
    requires Inv(s) && Enabled(s, step)
    ensures Inv(Apply(s, step))
  {
    match step
    case CheckLocal(a) => CheckLocalStep(s, a);
    case Acquire(a) => AcquireStep(s, a);
    case RecordStart(a) => RecordStartStep(s, a);
    case FindFile(a) => FindFileStep(s, a);
  }

  lemma PullStep(s: State, step: Step)
    requires step.WriteFile? || step.CheckSize? || step.PullFails? || step.ListLocation?
    requires Inv(s) && Enabled(s, step)
    ensures Inv(Apply(s, step))
  {
    match step
    case WriteFile(a, written) => WriteFileStep(s, a, written);
    case CheckSize(a) => CheckSizeStep(s, a);
    case PullFails(a) => PullFailsStep(s, a);
    case ListLocation(a) => ListLocationStep(s, a);
  }

  lemma UnlockStep(s: State, step: Step)
    requires step.RecordEnd? || step.RecordAbort? || step.StartExecution? || step.Execute?
    requires Inv(s) && Enabled(s, step)
    ensures Inv(Apply(s, step))
  {
    match step
    case RecordEnd(a) => RecordEndStep(s, a);
    case RecordAbort(a) => RecordAbortStep(s, a);
    case StartExecution(a) => StartExecutionStep(s, a);
    case Execute(a, outputs) => ExecuteStep(s, a, outputs);
  }

  lemma ExecutionStep(s: State, step: Step)
    requires step.ExecutionFails? || step.RecordExecution? || step.RecordFailure? || step.RecordCreated?
    requires Inv(s) && Enabled(s, step)
    ensures Inv(Apply(s, step))
  {
    match step
    case ExecutionFails(a, outputs) => ExecutionFailsStep(s, a, outputs);
    case RecordExecution(a) => RecordExecutionStep(s, a);
    case RecordFailure(a) => RecordFailureStep(s, a);
    case RecordCreated(a) => RecordCreatedStep(s, a);
  }

  lemma PlannerStep(s: State, step: Step)
    requires step.Submit? || step.CopyRef? || step.MergeRef?
    requires Inv(s) && Enabled(s, step)
    ensures Inv(Apply(s, step))
  {
    match step
    case Submit(a, inputs, worker, executor) => SubmitStep(s, a, inputs, worker, executor);
    case CopyRef(r) => CopyRefStep(s, r);
    case MergeRef(r, other) => MergeRefStep(s, r, other);
  }

  /** No step of any action, in any state, breaks the invariant. */
  lemma StepKeepsInv(s: State, step: Step)
    requires Inv(s) && Enabled(s, step)
    ensures Inv(Apply(s, step))
  {
    if step.CheckLocal? || step.Acquire? || step.RecordStart? || step.FindFile? { LockedStep(s, step); }
    else if step.WriteFile? || step.CheckSize? || step.PullFails? || step.ListLocation? { PullStep(s, step); }
    else if step.RecordEnd? || step.RecordAbort? || step.StartExecution? || step.Execute? { UnlockStep(s, step); }
    else if step.Submit? || step.CopyRef? || step.MergeRef? { PlannerStep(s, step); }
    else { ExecutionStep(s, step); }
  }
}
