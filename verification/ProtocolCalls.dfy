/**
 The Worker call over whole runs: who is called, what a call makes, and that an action whose inputs are listed for its
 Worker gets to its call without waiting or moving anything.
 */
module ProtocolCalls {
  import opened Protocol
  import opened ProtocolInvariant
  import ProtocolSteps
  import opened ProtocolSafety
  import opened ProtocolShape

  // ---------- Workers without a client ----------

  /** Every action that has not failed has a Worker with a client. */
  ghost predicate Served(s: State) {
    && (forall a <- s.tasks :: !PhaseOf(s, a).Failed? ==> s.tasks[a].worker in s.clients)
    && (forall e <- s.events :: e.ExecutionStarted? ==> e.worker in s.clients)
  }

  lemma ServedAfter(s: State, step: Step, s': State)
    requires Served(s) && Shape(s, step, s')
    ensures Served(s')
  {
    forall a | a in s'.tasks && !PhaseOf(s', a).Failed?
      ensures s'.tasks[a].worker in s'.clients
    {
      if Acts(step) && step.a == a { StaysFailed(step, PhaseOf(s, a), PhaseOf(s', a)); }
    }
    forall e | e in s'.events && e.ExecutionStarted?
      ensures e.worker in s'.clients
    {
      assert e in s.events || e in Reported(s, step);
    }
  }

  lemma StaysFailed(step: Step, p: Phase, q: Phase)
    requires Acts(step) && Advances(step, p, q) && !q.Failed?
    ensures !p.Failed?
  {
  }

  /** No action is ever executed for a Worker without a client. */
  lemma {:induction false} OnlyClientsRun(s: State, steps: seq<Step>)
    requires Served(s) && Runs(s, steps)
    ensures Served(Run(s, steps))
    decreases steps
  {
    if steps != [] {
      StepShape(s, steps[0]);
      ServedAfter(s, steps[0], Apply(s, steps[0]));
      OnlyClientsRun(Apply(s, steps[0]), steps[1..]);
    }
  }

  // ---------- inputs that are listed already ----------

  /** Each input of the action lists its Worker. */
  ghost predicate AllListed(s: State, a: ActionId) {
    && a in s.tasks && InRange(s.tasks[a].inputs, s.refs)
    && forall j :: 0 <= j < |s.tasks[a].inputs| ==> s.tasks[a].worker in s.refs[s.tasks[a].inputs[j]].locations
  }

  /** The action is neither waiting for a lock nor pulling. */
  ghost predicate Unhindered(s: State, a: ActionId) {
    AllListed(s, a) && !InTransfer(PhaseOf(s, a))
  }

  predicate TransferOf(e: Event, a: ActionId) {
    (e.TransferStarted? || e.TransferEnded?) && e.action == a
  }

  lemma ListedStays(s: State, step: Step, s': State, a: ActionId)
    requires AllListed(s, a) && TasksAfter(s, step, s') && Enabled(s, step) && LocationsGrow(s, s')
    ensures AllListed(s', a)
  {
    forall j | 0 <= j < |s'.tasks[a].inputs|
      ensures s'.tasks[a].inputs[j] < |s'.refs|
      ensures s'.tasks[a].worker in s'.refs[s'.tasks[a].inputs[j]].locations
    {
      var r := s.tasks[a].inputs[j];
      assert s.refs[r].locations <= s'.refs[r].locations;
      var k :| 0 <= k < |s.refs[r].locations| && s.refs[r].locations[k] == s.tasks[a].worker;
      assert s'.refs[r].locations[k] == s.tasks[a].worker;
    }
  }

  lemma ListedIsPassed(s: State, a: ActionId)
    requires AllListed(s, a) && Enabled(s, CheckLocal(a))
    ensures PhaseOf(Apply(s, CheckLocal(a)), a) == Localize(PhaseOf(s, a).i + 1)
  {
  }

  lemma UnhinderedStep(s: State, step: Step, s': State, a: ActionId)
    requires Unhindered(s, a) && Enabled(s, step) && TasksAfter(s, step, s') && LocationsGrow(s, s')
    requires step == CheckLocal(a) ==> !InTransfer(PhaseOf(s', a))
    ensures Unhindered(s', a)
  {
    ListedStays(s, step, s', a);
    if Acts(step) && step.a == a { LeavesNoTransfer(step, PhaseOf(s, a), PhaseOf(s', a)); }
  }

  lemma UnhinderedReports(s: State, step: Step, s': State, a: ActionId)
    requires Unhindered(s, a) && Enabled(s, step) && TasksAfter(s, step, s')
    ensures forall e <- Reported(s, step) :: !TransferOf(e, a)
  {
    if Acts(step) && step.a == a { LeavesNoTransfer(step, PhaseOf(s, a), PhaseOf(s', a)); }
  }

  lemma LeavesNoTransfer(step: Step, p: Phase, q: Phase)
    requires Acts(step) && Advances(step, p, q) && !InTransfer(p)
    ensures InTransfer(q) ==> step.CheckLocal?
    ensures !step.RecordStart? && !step.RecordEnd? && !step.RecordAbort?
  {
  }

  /** The events from `n` on contain no transfer of the action. */
  ghost predicate NoTransferFrom(events: seq<Event>, n: nat, a: ActionId) {
    forall i :: n <= i < |events| ==> !TransferOf(events[i], a)
  }

  lemma OneStepUnhindered(s: State, step: Step, a: ActionId)
    requires Inv(s) && Unhindered(s, a) && Enabled(s, step)
    ensures Inv(Apply(s, step)) && Unhindered(Apply(s, step), a)
    ensures s.events <= Apply(s, step).events && NoTransferFrom(Apply(s, step).events, |s.events|, a)
  {
    var next := Apply(s, step);
    ProtocolSteps.StepKeepsInv(s, step);
    StepShape(s, step);
    StepGrowsLocations(s, step);
    if step == CheckLocal(a) { ListedIsPassed(s, a); }
    UnhinderedStep(s, step, next, a);
    UnhinderedReports(s, step, next, a);
    forall i | |s.events| <= i < |next.events|
      ensures !TransferOf(next.events[i], a)
    {
      assert next.events[i] in Reported(s, step);
    }
  }

  lemma NoTransferJoins(before: seq<Event>, now: seq<Event>, later: seq<Event>, a: ActionId)
    requires before <= now <= later && NoTransferFrom(now, |before|, a) && NoTransferFrom(later, |now|, a)
    ensures before <= later && NoTransferFrom(later, |before|, a)
  {
    forall i | |before| <= i < |later|
      ensures !TransferOf(later[i], a)
    {
      if i < |now| { assert later[i] == now[i]; }
    }
  }

  /**
   An action whose inputs all list its Worker waits for no lock, and no transfer is recorded for it, whatever else
   goes on.
   */
  lemma {:induction false} ListedInputsNeedNothing(s: State, steps: seq<Step>, a: ActionId)
    requires Inv(s) && Unhindered(s, a) && Runs(s, steps)
    ensures Unhindered(Run(s, steps), a)
    ensures s.events <= Run(s, steps).events && NoTransferFrom(Run(s, steps).events, |s.events|, a)
    decreases steps
  {
    if steps != [] {
      OneStepUnhindered(s, steps[0], a);
      ListedInputsNeedNothing(Apply(s, steps[0]), steps[1..], a);
      NoTransferJoins(s.events, Apply(s, steps[0]).events, Run(s, steps).events, a);
    }
  }

  // ---------- pulls that were given up ----------

  /** The action is about to record a failed transfer, or has failed. */
  predicate GivenUp(p: Phase) {
    p.Aborting? || p.Failed?
  }

  lemma GivenUpStays(step: Step, p: Phase, q: Phase)
    requires Acts(step) && GivenUp(p) && Advances(step, p, q)
    ensures step.RecordAbort? && q.Failed?
  {
  }

  lemma {:induction false} GivenUpForGood(s: State, steps: seq<Step>, a: ActionId)
    requires Runs(s, steps) && a in s.tasks && GivenUp(PhaseOf(s, a))
    ensures a in Run(s, steps).tasks && GivenUp(PhaseOf(Run(s, steps), a))
    decreases steps
  {
    if steps != [] {
      var next := Apply(s, steps[0]);
      StepShape(s, steps[0]);
      if Acts(steps[0]) && steps[0].a == a { GivenUpStays(steps[0], PhaseOf(s, a), PhaseOf(next, a)); }
      GivenUpForGood(next, steps[1..], a);
    }
  }

  /** An action that finds a file of another size in its Worker's store is never executed. */
  lemma WrongFileFails(s: State, a: ActionId, steps: seq<Step>)
    requires Enabled(s, FindFile(a)) && Runs(Apply(s, FindFile(a)), steps)
    requires CurrentKey(s, a).artifact in s.sizes && CurrentKey(s, a) in s.stores
    requires s.stores[CurrentKey(s, a)] != s.sizes[CurrentKey(s, a).artifact]
    ensures var t := Run(Apply(s, FindFile(a)), steps); a in t.tasks && GivenUp(PhaseOf(t, a))
  {
    GivenUpForGood(Apply(s, FindFile(a)), steps, a);
  }

  // ---------- what a call makes ----------

  /** The outputs are known as what the Worker made, and the refs from `first` on are theirs. */
  ghost predicate Made(s: State, worker: WorkerId, outputs: seq<(ArtifactId, nat)>, first: nat) {
    && first + |outputs| <= |s.refs|
    && forall i :: 0 <= i < |outputs| ==> MadeOne(s, worker, outputs[i].0, outputs[i].1, s.refs[first + i])
  }

  ghost predicate MadeOne(s: State, worker: WorkerId, x: ArtifactId, size: nat, ref: Ref) {
    && x in s.sizes && s.sizes[x] == size
    && x in s.origins && s.origins[x] == worker
    && ref.id == x
  }

  lemma MadeLasts(s: State, s': State, worker: WorkerId, outputs: seq<(ArtifactId, nat)>, first: nat)
    requires Made(s, worker, outputs, first) && Lasts(s, s')
    ensures Made(s', worker, outputs, first)
  {
    forall i | 0 <= i < |outputs|
      ensures MadeOne(s', worker, outputs[i].0, outputs[i].1, s'.refs[first + i])
    {
      assert MadeOne(s, worker, outputs[i].0, outputs[i].1, s.refs[first + i]);
    }
  }

  lemma {:induction false} StoredMakes(s: State, worker: WorkerId, outputs: seq<(ArtifactId, nat)>)
    requires FreshOutputs(s, outputs)
    ensures Made(StoreOutputs(s, worker, outputs), worker, outputs, |s.refs|)
    decreases outputs
  {
    if outputs != [] {
      var (x, size) := outputs[0];
      var next := s.(stores := s.stores[Key(x, worker) := size], sizes := s.sizes[x := size],
                     origins := s.origins[x := worker], refs := s.refs + [Ref(x, [worker])]);
      var t := StoreOutputs(next, worker, outputs[1..]);
      StoreOneLasts(s, worker, x, size, outputs, next);
      StoredLasts(next, worker, outputs[1..]);
      StoredMakes(next, worker, outputs[1..]);
      assert next.refs[|s.refs|] == Ref(x, [worker]);
      forall i | 0 <= i < |outputs|
        ensures MadeOne(t, worker, outputs[i].0, outputs[i].1, t.refs[|s.refs| + i])
      {
        if i > 0 {
          assert MadeOne(t, worker, outputs[1..][i - 1].0, outputs[1..][i - 1].1, t.refs[|next.refs| + (i - 1)]);
        }
      }
    }
  }

  lemma RunLasts(s: State, steps: seq<Step>)
    requires Runs(s, steps)
    ensures Lasts(s, Run(s, steps))
    decreases steps
  {
    if steps != [] {
      StepShape(s, steps[0]);
      RunLasts(Apply(s, steps[0]), steps[1..]);
    }
  }

  /** What an execution made keeps its size and its origin, and its refs are handed back in the order of the outputs. */
  lemma OutputsAreMade(s: State, a: ActionId, outputs: seq<(ArtifactId, nat)>, steps: seq<Step>)
    requires Enabled(s, Execute(a, outputs)) && Runs(Apply(s, Execute(a, outputs)), steps)
    ensures Made(Run(Apply(s, Execute(a, outputs)), steps), s.tasks[a].worker, outputs, |s.refs|)
  {
    var next := Apply(s, Execute(a, outputs));
    StoredMakes(s, s.tasks[a].worker, outputs);
    assert Made(next, s.tasks[a].worker, outputs, |s.refs|);
    RunLasts(next, steps);
    MadeLasts(next, Run(next, steps), s.tasks[a].worker, outputs, |s.refs|);
  }
}
