/**
 What making an input local leaves behind: the Worker is listed in the very ref that was asked for, in every run,
 failing pulls included.
 */
module ProtocolListing {
  import opened Sequences
  import opened Protocol
  import opened ProtocolInvariant
  import ProtocolSteps
  import opened ProtocolSafety
  import opened ProtocolShape

  /** The inputs whose ref lists the action's Worker: the local ones, and the one whose transfer is being recorded. */
  function ListedInputs(t: Task): nat {
    LocalInputs(t) + if t.phase.Finishing? then 1 else 0
  }

  ghost predicate ListsInputs(s: State, a: ActionId)
    requires ValidIndices(s, a)
  {
    var t := s.tasks[a];
    forall j :: 0 <= j < |t.inputs| && j < ListedInputs(t) ==> t.worker in s.refs[t.inputs[j]].locations
  }

  ghost predicate AllListed(s: State) {
    forall a <- s.tasks :: ValidIndices(s, a) && ListsInputs(s, a)
  }

  lemma KeepsListed(s: State, s': State, b: ActionId)
    requires ValidIndices(s, b) && ListsInputs(s, b) && LocationsGrow(s, s')
    requires ValidIndices(s', b) && s'.tasks[b].inputs == s.tasks[b].inputs
    requires s'.tasks[b].worker == s.tasks[b].worker && ListedInputs(s'.tasks[b]) <= ListedInputs(s.tasks[b])
    ensures ListsInputs(s', b)
  {
    var t := s.tasks[b];
    forall j | 0 <= j < |t.inputs| && j < ListedInputs(s'.tasks[b])
      ensures t.worker in s'.refs[t.inputs[j]].locations
    {
      assert s.refs[t.inputs[j]].locations <= s'.refs[t.inputs[j]].locations;
    }
  }

  /** The only steps after which one input more is listed. */
  lemma OneMoreListed(step: Step, t: Task, t': Task)
    requires Acts(step) && Advances(step, t.phase, t'.phase) && t'.inputs == t.inputs
    requires step.StartExecution? ==> t.phase.i == |t.inputs|
    ensures ListedInputs(t') <= ListedInputs(t)
            || ((step.CheckLocal? || step.Acquire? || step.ListLocation?) && ListedInputs(t') == ListedInputs(t) + 1)
  {
  }

  /** After `CheckLocal`, `Acquire` or `ListLocation` goes past an input, its ref lists the Worker. */
  lemma PassedIsListed(s: State, step: Step, s': State)
    requires step.CheckLocal? || step.Acquire? || step.ListLocation?
    requires Enabled(s, step) && s' == Apply(s, step)
    requires step.a in s'.tasks && ListedInputs(s'.tasks[step.a]) > ListedInputs(s.tasks[step.a])
    ensures PhaseOf(s, step.a).i < |s.tasks[step.a].inputs| && ListedInputs(s.tasks[step.a]) == PhaseOf(s, step.a).i
    ensures
      var t := s.tasks[step.a];
      var r := t.inputs[PhaseOf(s, step.a).i];
      r < |s'.refs| && t.worker in s'.refs[r].locations
  {
  }

  lemma ActorListed(s: State, step: Step, s': State)
    requires Acts(step) && Shape(s, step, s') && s' == Apply(s, step) && LocationsGrow(s, s')
    requires ValidIndices(s, step.a) && ListsInputs(s, step.a) && ValidIndices(s', step.a)
    ensures ListsInputs(s', step.a)
  {
    var a := step.a;
    OneMoreListed(step, s.tasks[a], s'.tasks[a]);
    if ListedInputs(s'.tasks[a]) <= ListedInputs(s.tasks[a]) {
      KeepsListed(s, s', a);
    } else {
      PassedIsListed(s, step, s');
      forall j | 0 <= j < |s'.tasks[a].inputs| && j < ListedInputs(s'.tasks[a])
        ensures s'.tasks[a].worker in s'.refs[s'.tasks[a].inputs[j]].locations
      {
        if j < ListedInputs(s.tasks[a]) {
          assert s.refs[s.tasks[a].inputs[j]].locations <= s'.refs[s.tasks[a].inputs[j]].locations;
        }
      }
    }
  }

  lemma AfterStep(s: State, step: Step, s': State, b: ActionId)
    requires Inv(s) && Inv(s') && AllListed(s) && Shape(s, step, s') && s' == Apply(s, step)
    requires LocationsGrow(s, s') && b in s'.tasks
    ensures ValidIndices(s', b) && ListsInputs(s', b)
  {
    assert TaskOk(s', b);
    if Acts(step) && b == step.a {
      ActorListed(s, step, s');
    } else if b in s.tasks && s'.tasks[b] == s.tasks[b] {
      KeepsListed(s, s', b);
    } else {
      assert step.Submit? && ListedInputs(s'.tasks[b]) == 0;
    }
  }

  lemma {:induction false} RunLists(s: State, steps: seq<Step>)
    requires Inv(s) && AllListed(s) && Runs(s, steps)
    ensures Inv(Run(s, steps)) && AllListed(Run(s, steps))
    decreases steps
  {
    if steps != [] {
      var next := Apply(s, steps[0]);
      ProtocolSteps.StepKeepsInv(s, steps[0]);
      StepShape(s, steps[0]);
      StepGrowsLocations(s, steps[0]);
      forall b | b in next.tasks
        ensures ValidIndices(next, b) && ListsInputs(next, b)
      {
        AfterStep(s, steps[0], next, b);
      }
      RunLists(next, steps[1..]);
    }
  }

  /** In every reachable state each input that an action has made local lists the action's Worker in its own ref. */
  lemma LocalInputsAreListed(s: State, steps: seq<Step>, a: ActionId, j: nat)
    requires Initial(s) && Runs(s, steps) && a in Run(s, steps).tasks
    requires j < LocalInputs(Run(s, steps).tasks[a])
    ensures
      var t := Run(s, steps);
      && ValidIndices(t, a) && j < |t.tasks[a].inputs|
      && t.tasks[a].worker in t.refs[t.tasks[a].inputs[j]].locations
  {
    InitialInv(s);
    RunLists(s, steps);
  }

  // ---------- nothing else is listed ----------

  ghost predicate Takes(s: State, a: ActionId, x: ArtifactId) {
    ValidIndices(s, a) && x in InputIds(s, s.tasks[a].inputs)
  }

  /** The Worker made the artifact, had it at the start, or runs an action that takes it. */
  ghost predicate Explained(start: State, s: State, x: ArtifactId, w: WorkerId) {
    || (x in s.origins && s.origins[x] == w)
    || (exists i :: 0 <= i < |start.refs| && start.refs[i].id == x && w in start.refs[i].locations)
    || (exists a :: a in s.tasks && s.tasks[a].worker == w && Takes(s, a, x))
  }

  ghost predicate AllExplained(start: State, s: State) {
    forall i, w :: 0 <= i < |s.refs| && w in s.refs[i].locations ==> Explained(start, s, s.refs[i].id, w)
  }

  lemma TakesKept(s: State, step: Step, s': State, a: ActionId, x: ArtifactId)
    requires Lasts(s, s') && TasksAfter(s, step, s') && Inv(s') && Takes(s, a, x)
    ensures a in s'.tasks && s'.tasks[a].worker == s.tasks[a].worker && Takes(s', a, x)
  {
    assert s'.tasks[a].inputs == s.tasks[a].inputs;
    assert TaskOk(s', a);
    assert InputIds(s', s'.tasks[a].inputs) == InputIds(s, s.tasks[a].inputs);
  }

  lemma StaysExplained(start: State, s: State, step: Step, s': State, x: ArtifactId, w: WorkerId)
    requires Shape(s, step, s') && Inv(s') && Explained(start, s, x, w)
    ensures Explained(start, s', x, w)
  {
    if a :| a in s.tasks && s.tasks[a].worker == w && Takes(s, a, x) { TakesKept(s, step, s', a, x); }
  }

  /** Where a location of a ref comes from: a ref of the same artifact, the acting Worker, or the making of it. */
  ghost predicate Sourced(s: State, step: Step, s': State, x: ArtifactId, w: WorkerId) {
    || (exists j :: 0 <= j < |s.refs| && s.refs[j].id == x && w in s.refs[j].locations)
    || (Acts(step) && step.a in s.tasks && s.tasks[step.a].worker == w && Takes(s, step.a, x))
    || (x in s'.origins && s'.origins[x] == w)
  }

  lemma {:induction false} StoredRefs(s: State, worker: WorkerId, outputs: seq<(ArtifactId, nat)>, i: nat)
    requires FreshOutputs(s, outputs) && i < |StoreOutputs(s, worker, outputs).refs|
    ensures var t := StoreOutputs(s, worker, outputs);
            if i < |s.refs| then t.refs[i] == s.refs[i]
            else t.refs[i].locations == [worker] && t.refs[i].id in Ids(outputs)
    decreases outputs
  {
    if outputs != [] {
      var (x, size) := outputs[0];
      var next := s.(stores := s.stores[Key(x, worker) := size], sizes := s.sizes[x := size],
                     origins := s.origins[x := worker], refs := s.refs + [Ref(x, [worker])]);
      StoreOneLasts(s, worker, x, size, outputs, next);
      StoredRefs(next, worker, outputs[1..], i);
      assert Ids(outputs) == [x] + Ids(outputs[1..]);
    }
  }

  lemma CurrentTaken(s: State, a: ActionId)
    requires ValidIndices(s, a) && InTransfer(PhaseOf(s, a))
    ensures Takes(s, a, CurrentKey(s, a).artifact)
  {
    assert InputIds(s, s.tasks[a].inputs)[PhaseOf(s, a).i] == CurrentKey(s, a).artifact;
  }

  /** Only the current ref of an action gains a location, its Worker. */
  ghost predicate GainsTarget(s: State, s': State, a: ActionId)
    requires ValidIndices(s, a) && InTransfer(PhaseOf(s, a))
  {
    s'.refs == s.refs || s'.refs == WithLocation(s, CurrentRef(s, a), s.tasks[a].worker).refs
  }

  lemma GainedSourced(s: State, step: Step, s': State, i: nat, w: WorkerId)
    requires Acts(step) && ValidIndices(s, step.a) && InTransfer(PhaseOf(s, step.a)) && GainsTarget(s, s', step.a)
    requires i < |s'.refs| && w in s'.refs[i].locations
    ensures Sourced(s, step, s', s'.refs[i].id, w)
  {
    CurrentTaken(s, step.a);
    if w !in s.refs[i].locations { assert i == CurrentRef(s, step.a) && w == s.tasks[step.a].worker; }
  }

  lemma AcquireGains(s: State, a: ActionId)
    requires Enabled(s, Acquire(a))
    ensures GainsTarget(s, EnterLocked(s, a), a)
  {
  }

  lemma ListGains(s: State, a: ActionId)
    requires Enabled(s, ListLocation(a))
    ensures GainsTarget(s, ListTarget(s, a), a)
  {
  }

  lemma MergeSourced(s: State, step: Step, s': State, i: nat, w: WorkerId)
    requires step.MergeRef? && Inv(s) && Enabled(s, step) && s' == Apply(s, step)
    requires i < |s'.refs| && w in s'.refs[i].locations
    ensures Sourced(s, step, s', s'.refs[i].id, w)
  {
    assert RefOk(s, s.refs[step.r]);
    ProtocolSteps.UnionLocations(s.refs[step.r].locations, s.refs[step.other].locations);
  }

  lemma OtherStepsKeepRefs(s: State, step: Step)
    requires Enabled(s, step) && !step.Acquire? && !step.ListLocation? && !step.MergeRef? && !step.Execute?
    requires !step.CopyRef?
    ensures Apply(s, step).refs == s.refs
  {
  }

  lemma LocationSourced(s: State, step: Step, s': State, i: nat, w: WorkerId)
    requires Inv(s) && Enabled(s, step) && s' == Apply(s, step)
    requires i < |s'.refs| && w in s'.refs[i].locations
    ensures Sourced(s, step, s', s'.refs[i].id, w)
  {
    if step.Acquire? {
      AcquireGains(s, step.a);
      GainedSourced(s, step, s', i, w);
    } else if step.ListLocation? {
      ListGains(s, step.a);
      GainedSourced(s, step, s', i, w);
    } else if step.MergeRef? {
      MergeSourced(s, step, s', i, w);
    } else if step.Execute? {
      ExecuteSourced(s, step, s', i, w);
    } else if step.CopyRef? {
      assert s'.refs[i] in s.refs;
    } else {
      OtherStepsKeepRefs(s, step);
    }
  }

  lemma ExecuteSourced(s: State, step: Step, s': State, i: nat, w: WorkerId)
    requires step.Execute? && Enabled(s, step) && s' == Apply(s, step)
    requires i < |s'.refs| && w in s'.refs[i].locations
    ensures Sourced(s, step, s', s'.refs[i].id, w)
  {
    StoredRefs(s, s.tasks[step.a].worker, step.outputs, i);
    StoredOrigins(s, s.tasks[step.a].worker, step.outputs);
  }

  lemma {:induction false} RunExplains(start: State, s: State, steps: seq<Step>)
    requires Inv(s) && AllExplained(start, s) && Runs(s, steps)
    ensures AllExplained(start, Run(s, steps))
    decreases steps
  {
    if steps != [] {
      var next := Apply(s, steps[0]);
      ProtocolSteps.StepKeepsInv(s, steps[0]);
      StepShape(s, steps[0]);
      forall i, w | 0 <= i < |next.refs| && w in next.refs[i].locations
        ensures Explained(start, next, next.refs[i].id, w)
      {
        LocationSourced(s, steps[0], next, i, w);
        SourcedIsExplained(start, s, steps[0], next, next.refs[i].id, w);
      }
      RunExplains(start, next, steps[1..]);
    }
  }

  lemma SourcedIsExplained(start: State, s: State, step: Step, s': State, x: ArtifactId, w: WorkerId)
    requires AllExplained(start, s) && Shape(s, step, s') && Inv(s') && Sourced(s, step, s', x, w)
    ensures Explained(start, s', x, w)
  {
    if j :| 0 <= j < |s.refs| && s.refs[j].id == x && w in s.refs[j].locations {
      assert Explained(start, s, x, w);
      StaysExplained(start, s, step, s', x, w);
    } else if Acts(step) && step.a in s.tasks && s.tasks[step.a].worker == w && Takes(s, step.a, x) {
      StaysExplained(start, s, step, s', x, w);
    }
  }

  /** A ref lists no Worker without a reason: it is the origin, was listed at the start, or takes the artifact. */
  lemma LocationsAreExplained(s: State, steps: seq<Step>, r: RefId, w: WorkerId)
    requires Initial(s) && Runs(s, steps) && r < |Run(s, steps).refs| && w in Run(s, steps).refs[r].locations
    ensures Explained(s, Run(s, steps), Run(s, steps).refs[r].id, w)
  {
    InitialInv(s);
    RunExplains(s, s, steps);
  }

  // ---------- the planner's refs ----------

  /** A merged ref lists what either ref listed, its own locations first; a copied one lists what the ref lists. */
  lemma PlannerLists(s: State, step: Step)
    requires Inv(s) && Enabled(s, step) && (step.MergeRef? || step.CopyRef?)
    ensures
      var refs := Apply(s, step).refs;
      && s.refs[step.r].locations <= refs[step.r].locations && refs[step.r].id == s.refs[step.r].id
      && (step.MergeRef? ==> |refs| == |s.refs|)
      && (step.MergeRef? ==> forall w ::
            (w in refs[step.r].locations <==> w in s.refs[step.r].locations || w in s.refs[step.other].locations))
      && (step.CopyRef? ==> refs == s.refs + [refs[step.r]])
      && forall i :: 0 <= i < |s.refs| && i != step.r ==> refs[i] == s.refs[i]
  {
    assert RefOk(s, s.refs[step.r]);
    if step.MergeRef? {
      ProtocolSteps.UnionLocations(s.refs[step.r].locations, s.refs[step.other].locations);
    }
  }

  // ---------- many copies of one ref ----------

  /** The artifact starts at one Worker, and all actions that take it run on another one. */
  ghost predicate OneMove(start: State, s: State, x: ArtifactId, home: WorkerId, there: WorkerId) {
    && home != there && x in s.origins && s.origins[x] == home
    && (forall i :: 0 <= i < |start.refs| && start.refs[i].id == x ==> start.refs[i].locations == [home])
    && (forall a <- s.tasks | Takes(s, a, x) :: s.tasks[a].worker == there)
  }

  /** However many copies of a ref are made local at once, each one that was lists just the origin and the target. */
  lemma CopiesAreAllListed(s: State, steps: seq<Step>, a: ActionId, j: nat, home: WorkerId)
    requires Initial(s) && Runs(s, steps) && a in Run(s, steps).tasks
    requires j < LocalInputs(Run(s, steps).tasks[a])
    requires
      var t := Run(s, steps);
      && ValidIndices(t, a) && j < |t.tasks[a].inputs|
      && OneMove(s, t, t.refs[t.tasks[a].inputs[j]].id, home, t.tasks[a].worker)
    ensures
      var t := Run(s, steps);
      t.refs[t.tasks[a].inputs[j]].locations == [home, t.tasks[a].worker]
  {
    var t := Run(s, steps);
    var r, there := t.tasks[a].inputs[j], t.tasks[a].worker;
    LocalInputsAreListed(s, steps, a, j);
    LocationsAreTrue(s, steps, r);
    forall w | w in t.refs[r].locations
      ensures w == home || w == there
    {
      LocationsAreExplained(s, steps, r, w);
    }
    TwoLocations(t.refs[r].locations, home, there);
  }

  lemma TwoLocations(locations: seq<WorkerId>, home: WorkerId, there: WorkerId)
    requires NoDuplicates(locations) && locations != [] && locations[0] == home && home != there
    requires there in locations && forall w <- locations :: w == home || w == there
    ensures locations == [home, there]
  {
    forall i | 0 < i < |locations|
      ensures locations[i] == there
    {
      assert locations[i] in locations && locations[0] != locations[i];
    }
    var last := |locations| - 1;
    assert last > 0 && locations[last] == locations[1] == there;
    assert last == 1;
  }
}
