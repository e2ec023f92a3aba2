/**
 What the tables of the transfer manager and the Workers' stores are good for: no lock at the origin, no second
 transfer of what is completed, and nothing left behind by a pull that received the wrong bytes.
 */
module ProtocolTables {
  import opened Protocol
  import opened ProtocolInvariant
  import ProtocolSteps
  import opened ProtocolSafety
  import opened ProtocolShape

  // ---------- locks ----------

  /** Locks are made only for Workers that have to receive the artifact. */
  ghost predicate LocksRemote(s: State) {
    forall key <- s.locks :: key.artifact in s.origins && key.worker != s.origins[key.artifact]
  }

  lemma AskLocksRemote(s: State, a: ActionId)
    requires Inv(s) && LocksRemote(s) && Enabled(s, CheckLocal(a))
    ensures LocksRemote(AskLocal(s, a))
  {
    var t, i := s.tasks[a], PhaseOf(s, a).i;
    assert RefOk(s, s.refs[t.inputs[i]]);
    assert s.refs[t.inputs[i]].locations[0] in s.refs[t.inputs[i]].locations;
  }

  lemma HoldersLocks(s: State, step: Step)
    requires Inv(s) && Enabled(s, step) && IsLock(step) && !step.CheckLocal?
    ensures Apply(s, step).locks.Keys == s.locks.Keys
  {
    assert TaskOk(s, step.a);
  }

  lemma PullsLocks(s: State, step: Step)
    requires Enabled(s, step) && IsPull(step)
    ensures Apply(s, step).locks == s.locks
  {
  }

  lemma CallsLocks(s: State, step: Step)
    requires Enabled(s, step) && (!Acts(step) || IsCall(step))
    ensures Apply(s, step).locks == s.locks
  {
    if step.Execute? { StoreLocks(s, s.tasks[step.a].worker, step.outputs); }
  }

  lemma OtherLocks(s: State, step: Step)
    requires Inv(s) && Enabled(s, step) && !step.CheckLocal?
    ensures Apply(s, step).locks.Keys == s.locks.Keys
  {
    if IsLock(step) { HoldersLocks(s, step); }
    else if IsPull(step) { PullsLocks(s, step); }
    else { CallsLocks(s, step); }
  }

  lemma {:induction false} StoreLocks(s: State, worker: WorkerId, outputs: seq<(ArtifactId, nat)>)
    ensures StoreOutputs(s, worker, outputs).locks == s.locks
    decreases outputs
  {
    if outputs != [] {
      var (x, size) := outputs[0];
      StoreLocks(s.(stores := s.stores[Key(x, worker) := size], sizes := s.sizes[x := size],
                    origins := s.origins[x := worker], refs := s.refs + [Ref(x, [worker])]),
                 worker, outputs[1..]);
    }
  }

  /** An action on the Worker that made its input waits for no lock: there is none. */
  lemma {:induction false} RunLocksRemote(s: State, steps: seq<Step>)
    requires Inv(s) && LocksRemote(s) && Runs(s, steps)
    ensures LocksRemote(Run(s, steps))
    decreases steps
  {
    if steps != [] {
      var next := Apply(s, steps[0]);
      ProtocolSteps.StepKeepsInv(s, steps[0]);
      StepShape(s, steps[0]);
      if steps[0].CheckLocal? { AskLocksRemote(s, steps[0].a); } else { OtherLocks(s, steps[0]); }
      RunLocksRemote(next, steps[1..]);
    }
  }

  // ---------- completed keys ----------

  predicate StartsTransfer(e: Event, key: Key) {
    e.TransferStarted? && Key(e.artifact, e.target) == key
  }

  lemma StepKeepsCompleted(s: State, step: Step)
    requires Enabled(s, step)
    ensures s.completed <= Apply(s, step).completed
  {
    if step.Execute? { StoreCompleted(s, s.tasks[step.a].worker, step.outputs); }
  }

  lemma {:induction false} StoreCompleted(s: State, worker: WorkerId, outputs: seq<(ArtifactId, nat)>)
    ensures StoreOutputs(s, worker, outputs).completed == s.completed
    decreases outputs
  {
    if outputs != [] {
      var (x, size) := outputs[0];
      StoreCompleted(s.(stores := s.stores[Key(x, worker) := size], sizes := s.sizes[x := size],
                        origins := s.origins[x := worker], refs := s.refs + [Ref(x, [worker])]),
                     worker, outputs[1..]);
    }
  }

  lemma NoStartWhenCompleted(s: State, step: Step, key: Key)
    requires Inv(s) && Enabled(s, step) && key in s.completed
    ensures forall e <- Reported(s, step) :: !StartsTransfer(e, key)
  {
    if step.RecordStart? { assert TaskOk(s, step.a); }
  }

  /** Of a completed key no transfer is ever started again. */
  lemma {:induction false} CompletedIsFinal(s: State, steps: seq<Step>, key: Key)
    requires Inv(s) && Runs(s, steps) && key in s.completed
    ensures s.events <= Run(s, steps).events
    ensures forall i :: |s.events| <= i < |Run(s, steps).events| ==> !StartsTransfer(Run(s, steps).events[i], key)
    decreases steps
  {
    if steps != [] {
      var next := Apply(s, steps[0]);
      ProtocolSteps.StepKeepsInv(s, steps[0]);
      StepShape(s, steps[0]);
      StepKeepsCompleted(s, steps[0]);
      NoStartWhenCompleted(s, steps[0], key);
      CompletedIsFinal(next, steps[1..], key);
      var t := Run(next, steps[1..]);
      forall i | |s.events| <= i < |next.events|
        ensures !StartsTransfer(t.events[i], key)
      {
        assert t.events[i] == next.events[i] && next.events[i] in Reported(s, steps[0]);
      }
    }
  }

  /** The lock has let the action past an input. */
  ghost predicate Passes(s: State, step: Step) {
    && (step.Acquire? || step.RecordEnd?) && Enabled(s, step)
    && step.a in Apply(s, step).tasks && PhaseOf(Apply(s, step), step.a).Localize?
  }

  /** Once an action has got past an input under its lock, no transfer of this artifact to this Worker starts again. */
  lemma PassedIsFinal(s: State, step: Step, steps: seq<Step>)
    requires Inv(s) && Passes(s, step) && Runs(Apply(s, step), steps)
    ensures
      var next, key := Apply(s, step), CurrentKey(s, step.a);
      forall i :: |next.events| <= i < |Run(next, steps).events| ==> !StartsTransfer(Run(next, steps).events[i], key)
  {
    var next, key := Apply(s, step), CurrentKey(s, step.a);
    ProtocolSteps.StepKeepsInv(s, step);
    PassedIsCompleted(s, step);
    CompletedIsFinal(next, steps, key);
  }

  lemma PassedIsCompleted(s: State, step: Step)
    requires Passes(s, step)
    ensures CurrentKey(s, step.a) in Apply(s, step).completed
  {
  }

  // ---------- stores ----------

  /** The file is being checked by the action that pulled it. */
  ghost predicate BeingChecked(s: State, key: Key) {
    exists a :: a in s.tasks && ValidIndices(s, a) && PhaseOf(s, a).Verifying? && CurrentKey(s, a) == key
  }

  ghost predicate StoresWhole(s: State) {
    forall key <- s.stores :: HasCopy(s, key) || BeingChecked(s, key)
  }

  /** The step leaves no file behind that nobody checks: no pull is given up during the check, no execution fails. */
  predicate Tidy(s: State, step: Step)
    requires Enabled(s, step)
  {
    !step.ExecutionFails? && (step.PullFails? ==> !PhaseOf(s, step.a).Verifying?)
  }

  ghost predicate TidyRun(s: State, steps: seq<Step>)
    requires Runs(s, steps)
    decreases steps
  {
    steps == [] || (Tidy(s, steps[0]) && TidyRun(Apply(s, steps[0]), steps[1..]))
  }

  lemma OtherCheckGoesOn(s: State, step: Step, s': State, b: ActionId)
    requires Lasts(s, s') && TasksAfter(s, step, s') && Inv(s')
    requires b in s.tasks && ValidIndices(s, b) && PhaseOf(s, b).Verifying? && (Acts(step) ==> step.a != b)
    ensures BeingChecked(s', CurrentKey(s, b))
  {
    assert b in s'.tasks && s'.tasks[b] == s.tasks[b];
    assert TaskOk(s', b) && CurrentKey(s', b) == CurrentKey(s, b);
  }

  /** Whose file is being checked goes on checking, unless it is the one that acts. */
  lemma CheckGoesOn(s: State, step: Step, s': State, key: Key)
    requires Shape(s, step, s') && Inv(s') && BeingChecked(s, key)
    requires Acts(step) ==> !(step.a in s.tasks && ValidIndices(s, step.a) && PhaseOf(s, step.a).Verifying?)
    ensures BeingChecked(s', key)
  {
    var b :| b in s.tasks && ValidIndices(s, b) && PhaseOf(s, b).Verifying? && CurrentKey(s, b) == key;
    OtherCheckGoesOn(s, step, s', b);
  }

  lemma CheckTidies(s: State, a: ActionId, s': State)
    requires Inv(s) && StoresWhole(s) && Enabled(s, CheckSize(a)) && s' == CheckWritten(s, a)
    requires Shape(s, CheckSize(a), s') && Inv(s')
    ensures StoresWhole(s')
  {
    assert TaskOk(s, a);
    forall key | key in s'.stores
      ensures HasCopy(s', key) || BeingChecked(s', key)
    {
      if !HasCopy(s, key) {
        assert BeingChecked(s, key);
        var b :| b in s.tasks && ValidIndices(s, b) && PhaseOf(s, b).Verifying? && CurrentKey(s, b) == key;
        if b != a { OtherCheckGoesOn(s, CheckSize(a), s', b); }
      }
    }
  }

  lemma WriteIsChecked(s: State, a: ActionId, written: nat, s': State)
    requires Inv(s) && StoresWhole(s) && Enabled(s, WriteFile(a, written)) && s' == Apply(s, WriteFile(a, written))
    requires Shape(s, WriteFile(a, written), s') && Inv(s')
    ensures StoresWhole(s')
  {
    var key0 := CurrentKey(s, a);
    assert TaskOk(s', a) && CurrentKey(s', a) == key0;
    forall key | key in s'.stores
      ensures HasCopy(s', key) || BeingChecked(s', key)
    {
      if key != key0 && !HasCopy(s, key) { CheckGoesOn(s, WriteFile(a, written), s', key); }
    }
  }

  lemma {:induction false} StoredWhole(s: State, worker: WorkerId, outputs: seq<(ArtifactId, nat)>, key: Key)
    requires FreshOutputs(s, outputs)
    ensures var t := StoreOutputs(s, worker, outputs);
            (key in t.stores && key !in s.stores ==> HasCopy(t, key)) && (HasCopy(s, key) ==> HasCopy(t, key))
    decreases outputs
  {
    if outputs != [] {
      var (x, size) := outputs[0];
      var next := s.(stores := s.stores[Key(x, worker) := size], sizes := s.sizes[x := size],
                     origins := s.origins[x := worker], refs := s.refs + [Ref(x, [worker])]);
      StoreOneLasts(s, worker, x, size, outputs, next);
      StoredWhole(next, worker, outputs[1..], key);
    }
  }

  lemma ExecuteIsWhole(s: State, step: Step, s': State)
    requires Inv(s) && StoresWhole(s) && step.Execute? && Enabled(s, step) && s' == Apply(s, step)
    requires Shape(s, step, s') && Inv(s')
    ensures StoresWhole(s')
  {
    forall key | key in s'.stores
      ensures HasCopy(s', key) || BeingChecked(s', key)
    {
      StoredWhole(s, s.tasks[step.a].worker, step.outputs, key);
      if key in s.stores && !HasCopy(s, key) { CheckGoesOn(s, step, s', key); }
    }
  }

  lemma QuietIsWhole(s: State, step: Step, s': State)
    requires StoresWhole(s) && Shape(s, step, s') && Inv(s') && SameStores(s, s')
    requires Acts(step) ==> !(ValidIndices(s, step.a) && PhaseOf(s, step.a).Verifying?)
    ensures StoresWhole(s')
  {
    forall key | key in s'.stores
      ensures HasCopy(s', key) || BeingChecked(s', key)
    {
      if !HasCopy(s, key) { CheckGoesOn(s, step, s', key); }
    }
  }

  predicate SameStores(s: State, s': State) {
    s'.stores == s.stores && s'.sizes == s.sizes
  }

  lemma AcquireKeepsStores(s: State, a: ActionId)
    requires ValidIndices(s, a) && PhaseOf(s, a).Waiting?
    ensures SameStores(s, EnterLocked(s, a))
  {
  }

  lemma LocksKeepStores(s: State, step: Step)
    requires Enabled(s, step) && IsLock(step)
    ensures SameStores(s, Apply(s, step))
  {
    if step.Acquire? { AcquireKeepsStores(s, step.a); }
  }

  lemma PullsKeepStores(s: State, step: Step)
    requires Enabled(s, step) && IsPull(step) && !step.WriteFile? && !step.CheckSize?
    ensures SameStores(s, Apply(s, step))
  {
  }

  lemma CallsKeepStores(s: State, step: Step)
    requires Enabled(s, step) && (!Acts(step) || IsCall(step)) && !step.Execute? && !step.ExecutionFails?
    ensures SameStores(s, Apply(s, step))
  {
  }

  lemma OtherStores(s: State, step: Step)
    requires Enabled(s, step) && !step.WriteFile? && !step.CheckSize? && !step.Execute? && !step.ExecutionFails?
    ensures SameStores(s, Apply(s, step))
  {
    if IsLock(step) { LocksKeepStores(s, step); }
    else if IsPull(step) { PullsKeepStores(s, step); }
    else { CallsKeepStores(s, step); }
  }

  lemma VerifyingActs(s: State, step: Step)
    requires Enabled(s, step) && Acts(step) && PhaseOf(s, step.a).Verifying?
    ensures step.CheckSize? || step.PullFails?
  {
  }

  lemma StepStoresWhole(s: State, step: Step, s': State)
    requires Inv(s) && StoresWhole(s) && Enabled(s, step) && Tidy(s, step) && s' == Apply(s, step)
    requires Shape(s, step, s') && Inv(s')
    ensures StoresWhole(s')
  {
    if step.WriteFile? {
      WriteIsChecked(s, step.a, step.written, s');
    } else if step.CheckSize? {
      CheckTidies(s, step.a, s');
    } else if step.Execute? {
      ExecuteIsWhole(s, step, s');
    } else {
      OtherStores(s, step);
      if Acts(step) && PhaseOf(s, step.a).Verifying? { VerifyingActs(s, step); }
      QuietIsWhole(s, step, s');
    }
  }

  /**
   Whatever bytes arrive and whichever pulls fail, stores hold only whole copies and files being checked, as long as no
   pull is given up during the check and no execution fails.
   */
  lemma {:induction false} RunStoresWhole(s: State, steps: seq<Step>)
    requires Inv(s) && StoresWhole(s) && Runs(s, steps) && TidyRun(s, steps)
    ensures Inv(Run(s, steps)) && StoresWhole(Run(s, steps))
    decreases steps
  {
    if steps != [] {
      ProtocolSteps.StepKeepsInv(s, steps[0]);
      StepShape(s, steps[0]);
      StepStoresWhole(s, steps[0], Apply(s, steps[0]));
      RunStoresWhole(Apply(s, steps[0]), steps[1..]);
    }
  }

  /** So a pull that looks for a local file there never fails on one of the wrong size. */
  lemma RetryFindsNoRest(s: State, steps: seq<Step>, a: ActionId)
    requires Initial(s) && StoresWhole(s) && Runs(s, steps) && TidyRun(s, steps)
    requires Enabled(Run(s, steps), FindFile(a))
    ensures !PhaseOf(Apply(Run(s, steps), FindFile(a)), a).Aborting?
  {
    InitialInv(s);
    RunStoresWhole(s, steps);
    var t := Run(s, steps);
    if CurrentKey(t, a) in t.stores && !HasCopy(t, CurrentKey(t, a)) {
      var b :| b in t.tasks && ValidIndices(t, b) && PhaseOf(t, b).Verifying? && CurrentKey(t, b) == CurrentKey(t, a);
      HolderIsUnique(t, a, b);
    }
  }
}
