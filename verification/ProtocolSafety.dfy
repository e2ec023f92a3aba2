/**
 Safety of the transfer protocol over whole runs, with any interleaving and any failing pulls.
 */
module ProtocolSafety {
  import opened Options
  import opened Sequences
  import opened Protocol
  import opened ProtocolInvariant
  import opened ProtocolSteps

  /** Nothing has happened; every ref lists Workers that store the artifact, the original one first. */
  ghost predicate Initial(s: State) {
    && s.tasks == map[] && s.locks == map[] && s.completed == {} && s.events == []
    && RefsOk(s)
  }

  predicate Runs(s: State, steps: seq<Step>)
    decreases steps
  {
    steps == [] || (Enabled(s, steps[0]) && Runs(Apply(s, steps[0]), steps[1..]))
  }

  function Run(s: State, steps: seq<Step>): State
    requires Runs(s, steps)
    decreases steps
  {
    if steps == [] then s else Run(Apply(s, steps[0]), steps[1..])
  }

  /** The action has failed, or has announced its outputs. */
  predicate Finished(t: Task) {
    t.phase.Failed? || (t.phase.Announced? && t.phase.j >= |t.outputs|)
  }

  lemma InitialInv(s: State)
    requires Initial(s)
    ensures Inv(s)
  {
  }

  lemma {:induction false} RunKeepsInv(s: State, steps: seq<Step>)
    requires Inv(s) && Runs(s, steps)
    ensures Inv(Run(s, steps))
    decreases steps
  {
    if steps != [] {
      StepKeepsInv(s, steps[0]);
      RunKeepsInv(Apply(s, steps[0]), steps[1..]);
    }
  }

  /** At most one pull per artifact and Worker is in flight at any time. */
  lemma OnePullInFlight(s: State, steps: seq<Step>, a: ActionId, b: ActionId)
    requires Initial(s) && Runs(s, steps)
    requires ValidIndices(Run(s, steps), a) && ValidIndices(Run(s, steps), b)
    requires Pulls(PhaseOf(Run(s, steps), a)) && Pulls(PhaseOf(Run(s, steps), b))
    requires CurrentKey(Run(s, steps), a) == CurrentKey(Run(s, steps), b)
    ensures a == b
  {
    InitialInv(s);
    RunKeepsInv(s, steps);
    HolderIsUnique(Run(s, steps), a, b);
  }

  /** Over the whole run an artifact's bytes reach a Worker not at all or exactly once. */
  lemma BytesMovedOnce(s: State, steps: seq<Step>, key: Key)
    requires Initial(s) && Runs(s, steps)
    ensures var t := Run(s, steps);
            Moved(t.events, key) == 0 ||
            (key.artifact in t.sizes && Moved(t.events, key) == t.sizes[key.artifact] && HasCopy(t, key))
  {
    InitialInv(s);
    RunKeepsInv(s, steps);
  }

  /** Every listed Worker stores a copy of the right size; locations are unique and start with the original. */
  lemma LocationsAreTrue(s: State, steps: seq<Step>, r: RefId)
    requires Initial(s) && Runs(s, steps) && r < |Run(s, steps).refs|
    ensures
      var t := Run(s, steps);
      var ref := t.refs[r];
      && ref.locations != [] && ref.id in t.origins && ref.locations[0] == t.origins[ref.id]
      && NoDuplicates(ref.locations)
      && forall w <- ref.locations :: HasCopy(t, Key(ref.id, w))
  {
    InitialInv(s);
    RunKeepsInv(s, steps);
    assert RefOk(Run(s, steps), Run(s, steps).refs[r]);
  }

  /** The source of every pull is the original Worker when that one has a client. */
  lemma PullsFromOrigin(s: State, steps: seq<Step>, a: ActionId)
    requires Initial(s) && Runs(s, steps)
    requires ValidIndices(Run(s, steps), a) && Pulls(PhaseOf(Run(s, steps), a))
    ensures
      var t := Run(s, steps);
      var x := CurrentKey(t, a).artifact;
      && x in t.origins
      && (t.origins[x] in t.clients ==> PhaseOf(t, a).source == t.origins[x])
  {
    InitialInv(s);
    RunKeepsInv(s, steps);
    var t := Run(s, steps);
    assert TaskOk(t, a) && RefOk(t, t.refs[CurrentRef(t, a)]);
  }

  /** When the Worker call starts, every input is stored there in full. */
  lemma InputsArePresent(s: State, steps: seq<Step>, a: ActionId)
    requires Initial(s) && Runs(s, steps)
    requires ValidIndices(Run(s, steps), a) && PhaseOf(Run(s, steps), a).Running?
    ensures
      var t := Run(s, steps);
      && InputsPresent(t, a)
      && forall j :: 0 <= j < |t.tasks[a].inputs| ==>
           HasCopy(t, Key(t.refs[t.tasks[a].inputs[j]].id, t.tasks[a].worker))
  {
    InitialInv(s);
    RunKeepsInv(s, steps);
    var t := Run(s, steps);
    assert TaskOk(t, a);
    forall j | 0 <= j < |t.tasks[a].inputs|
      ensures HasCopy(t, Key(t.refs[t.tasks[a].inputs[j]].id, t.tasks[a].worker))
    {
    }
  }

  /** The source of a pull is the first location with a client; there is none only when no location has one. */
  lemma {:induction false} SourceIsFirst(locations: seq<WorkerId>, clients: set<WorkerId>) returns (k: nat)
    ensures k <= |locations| && (forall j :: 0 <= j < k ==> locations[j] !in clients)
    ensures FirstReachable(locations, clients)
            == if k < |locations| && locations[k] in clients then Some(locations[k]) else None
    ensures k < |locations| ==> locations[k] in clients
  {
    k := 0;
    if locations != [] && locations[0] !in clients {
      k := SourceIsFirst(locations[1..], clients);
      k := k + 1;
      assert forall j :: 1 <= j < k ==> locations[j] == locations[1..][j - 1];
    }
  }

  // ---------- locations only grow ----------

  ghost predicate LocationsGrow(s: State, t: State) {
    && |s.refs| <= |t.refs|
    && forall i :: 0 <= i < |s.refs| ==> t.refs[i].id == s.refs[i].id && s.refs[i].locations <= t.refs[i].locations
  }

  lemma {:induction false} StoreKeepsRefs(s: State, worker: WorkerId, outputs: seq<(ArtifactId, nat)>)
    ensures s.refs <= StoreOutputs(s, worker, outputs).refs
    decreases outputs
  {
    if outputs != [] {
      var (x, size) := outputs[0];
      StoreKeepsRefs(s.(stores := s.stores[Key(x, worker) := size], sizes := s.sizes[x := size],
                        origins := s.origins[x := worker], refs := s.refs + [Ref(x, [worker])]),
                     worker, outputs[1..]);
    }
  }

  lemma PhaseStepGrowsLocations(s: State, step: Step)
    requires !step.Submit? && !step.CopyRef? && !step.MergeRef? && !step.Execute?
    requires Inv(s) && Enabled(s, step)
    ensures LocationsGrow(s, Apply(s, step))
  {
    if step.Acquire? {
      EnterGrowsLocations(s, step.a);
    } else if step.ListLocation? {
      ListGrowsLocations(s, step.a);
    } else {
      assert Apply(s, step).refs == s.refs;
    }
  }

  lemma EnterGrowsLocations(s: State, a: ActionId)
    requires ValidIndices(s, a) && PhaseOf(s, a).Waiting?
    ensures LocationsGrow(s, EnterLocked(s, a))
  {
  }

  lemma ListGrowsLocations(s: State, a: ActionId)
    requires ValidIndices(s, a) && PhaseOf(s, a).Returned?
    ensures LocationsGrow(s, ListTarget(s, a))
  {
  }

  lemma StepGrowsLocations(s: State, step: Step)
    requires Inv(s) && Enabled(s, step)
    ensures LocationsGrow(s, Apply(s, step))
  {
    if step.Execute? {
      StoreKeepsRefs(s, s.tasks[step.a].worker, step.outputs);
    } else if step.MergeRef? {
      assert RefOk(s, s.refs[step.r]);
      UnionLocations(s.refs[step.r].locations, s.refs[step.other].locations);
    } else if !step.Submit? && !step.CopyRef? {
      PhaseStepGrowsLocations(s, step);
    }
  }

  /** No ref ever loses or reorders a location. */
  lemma {:induction false} RunGrowsLocations(s: State, steps: seq<Step>)
    requires Inv(s) && Runs(s, steps)
    ensures LocationsGrow(s, Run(s, steps))
    decreases steps
  {
    if steps != [] {
      var next := Apply(s, steps[0]);
      StepGrowsLocations(s, steps[0]);
      StepKeepsInv(s, steps[0]);
      RunGrowsLocations(next, steps[1..]);
      var t := Run(next, steps[1..]);
      forall i | 0 <= i < |s.refs|
        ensures s.refs[i].locations <= t.refs[i].locations
      {
        assert s.refs[i].locations <= next.refs[i].locations <= t.refs[i].locations;
      }
    }
  }
}
