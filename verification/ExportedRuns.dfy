/**
 The workflow that is exported from a run, failures included, is a graph without cycles.
 */
module ExportedRuns {
  import opened Protocol
  import opened ProtocolInvariant
  import opened ProtocolSteps
  import opened ProtocolSafety
  import opened ProtocolShape
  import opened Recording
  import G = WorkflowGraph

  // ---------- export from events ----------

  /** What the last successful execution of each action returned. */
  function Returned(events: seq<Event>): map<ActionId, seq<ArtifactId>> {
    if events == [] then map[]
    else
      var n := |events| - 1;
      var e, returned := events[n], Returned(events[..n]);
      if e.ExecutionEnded? && e.success then returned[e.action := e.outputs] else returned
  }

  function ActionOf(e: Event, returned: map<ActionId, seq<ArtifactId>>): G.Action
    requires e.Requested?
  {
    G.Action(e.action, e.inputs, if e.action in returned then returned[e.action] else [])
  }

  /** One action for each request, in the order of the requests. */
  function Exported(events: seq<Event>, returned: map<ActionId, seq<ArtifactId>>): seq<G.Action> {
    if events == [] then []
    else
      var n := |events| - 1;
      Exported(events[..n], returned) + if events[n].Requested? then [ActionOf(events[n], returned)] else []
  }

  method ExportActions(events: seq<Event>) returns (actions: seq<G.Action>)
    ensures actions == Exported(events, Returned(events))
  {
    var returned := CollectReturned(events);
    actions := [];
    for i := 0 to |events|
      invariant actions == Exported(events[..i], returned)
    {
      assert events[..i + 1][..i] == events[..i];
      if events[i].Requested? { actions := actions + [ActionOf(events[i], returned)]; }
    }
    assert events[..|events|] == events;
  }

  method CollectReturned(events: seq<Event>) returns (returned: map<ActionId, seq<ArtifactId>>)
    ensures returned == Returned(events)
  {
    returned := map[];
    for i := 0 to |events|
      invariant returned == Returned(events[..i])
    {
      assert events[..i + 1][..i] == events[..i];
      if events[i].ExecutionEnded? && events[i].success {
        returned := returned[events[i].action := events[i].outputs];
      }
    }
    assert events[..|events|] == events;
  }

  // ---------- requests along a run ----------

  /** Requests are distinct, and what they take was there or is made by an action requested earlier. */
  ghost predicate RequestsInOrder(s: State, initial: set<ArtifactId>) {
    && (forall i, j :: 0 <= i < j < |s.events| && s.events[i].Requested? && s.events[j].Requested? ==>
          s.events[i].action != s.events[j].action)
    && (forall j :: 0 <= j < |s.events| && s.events[j].Requested? ==>
          forall x <- s.events[j].inputs :: RequestsInputOk(s, initial, j, x))
  }

  ghost predicate RequestsInputOk(s: State, initial: set<ArtifactId>, j: nat, x: ArtifactId)
    requires j <= |s.events|
  {
    x in initial || exists i :: 0 <= i < j && s.events[i].Requested? && Makes(s, s.events[i].action, x)
  }

  /** The requests so far stay in order when outputs are added. */
  lemma OrderKept(s: State, s': State, initial: set<ArtifactId>)
    requires RequestsInOrder(s, initial) && s.events <= s'.events
    requires forall i :: |s.events| <= i < |s'.events| ==> !s'.events[i].Requested?
    requires forall a, x :: Makes(s, a, x) ==> Makes(s', a, x)
    ensures RequestsInOrder(s', initial)
  {
    assert forall i :: 0 <= i < |s.events| ==> s'.events[i] == s.events[i];
    forall j, x | 0 <= j < |s'.events| && s'.events[j].Requested? && x in s'.events[j].inputs
      ensures RequestsInputOk(s', initial, j, x)
    {
      assert RequestsInputOk(s, initial, j, x);
    }
  }

  lemma InputIsMade(s: State, initial: set<ArtifactId>, inputs: seq<RefId>, x: ArtifactId)
    requires RefsOk(s) && Recorded(s, initial) && InRange(inputs, s.refs) && x in InputIds(s, inputs)
    ensures RequestsInputOk(s, initial, |s.events|, x)
  {
    var i :| 0 <= i < |inputs| && InputIds(s, inputs)[i] == x;
    assert RefOk(s, s.refs[inputs[i]]);
    if x !in initial {
      var a :| Makes(s, a, x);
      assert TaskRecorded(s, a);
    }
  }

  lemma OneMoreRequest(s: State, s': State, initial: set<ArtifactId>, e: Event)
    requires RequestsInOrder(s, initial) && s'.events == s.events + [e] && e.Requested?
    requires forall i :: 0 <= i < |s.events| ==> s.events[i].action != e.action
    requires forall x <- e.inputs :: RequestsInputOk(s, initial, |s.events|, x)
    requires forall a, x :: Makes(s, a, x) ==> Makes(s', a, x)
    ensures RequestsInOrder(s', initial)
  {
    assert forall i :: 0 <= i < |s.events| ==> s'.events[i] == s.events[i];
    forall j, x | 0 <= j < |s'.events| && s'.events[j].Requested? && x in s'.events[j].inputs
      ensures RequestsInputOk(s', initial, j, x)
    {
      assert RequestsInputOk(s, initial, j, x);
    }
  }

  lemma SubmitKeepsOrder(s: State, step: Step, s': State, initial: set<ArtifactId>)
    requires Inv(s) && Recorded(s, initial) && RequestsInOrder(s, initial) && step.Submit? && Shape(s, step, s')
    requires forall a, x :: Makes(s, a, x) ==> Makes(s', a, x)
    ensures RequestsInOrder(s', initial)
  {
    forall x | x in InputIds(s, step.inputs)
      ensures RequestsInputOk(s, initial, |s.events|, x)
    {
      InputIsMade(s, initial, step.inputs, x);
    }
    forall i | 0 <= i < |s.events|
      ensures s.events[i].action != step.a
    {
      assert EventFine(s, s.events[i]);
    }
    OneMoreRequest(s, s', initial, Reported(s, step)[0]);
  }

  lemma MakesKept(s: State, step: Step, s': State, initial: set<ArtifactId>)
    requires TasksAfter(s, step, s') && OutputsFine(s, initial)
    ensures forall a, x :: Makes(s, a, x) ==> Makes(s', a, x)
  {
    forall a, x | Makes(s, a, x)
      ensures Makes(s', a, x)
    {
      MakesAfter(s, step, s', initial, a, x);
    }
  }

  lemma NoRequestReported(s: State, step: Step)
    requires Enabled(s, step) && !step.Submit?
    ensures forall e <- Reported(s, step) :: !e.Requested?
  {
  }

  lemma StepKeepsOrder(s: State, step: Step, s': State, initial: set<ArtifactId>)
    requires Inv(s) && Recorded(s, initial) && RequestsInOrder(s, initial) && Shape(s, step, s')
    ensures RequestsInOrder(s', initial)
  {
    MakesKept(s, step, s', initial);
    if step.Submit? {
      SubmitKeepsOrder(s, step, s', initial);
    } else {
      NoRequestReported(s, step);
      forall i | |s.events| <= i < |s'.events|
        ensures !s'.events[i].Requested?
      {
        assert s'.events[i] in Reported(s, step);
      }
      OrderKept(s, s', initial);
    }
  }

  lemma {:induction false} RunKeepsOrder(s: State, steps: seq<Step>, initial: set<ArtifactId>)
    requires Inv(s) && Recorded(s, initial) && RequestsInOrder(s, initial) && Runs(s, steps)
    ensures RequestsInOrder(Run(s, steps), initial)
    decreases steps
  {
    if steps != [] {
      var s' := Apply(s, steps[0]);
      StepKeepsInv(s, steps[0]);
      StepShape(s, steps[0]);
      StepRecorded(s, steps[0], s', initial);
      StepKeepsOrder(s, steps[0], s', initial);
      RunKeepsOrder(s', steps[1..], initial);
    }
  }

  // ---------- the exported graph ----------

  /** `index` lists the requests behind the actions, in order. */
  ghost predicate From(actions: seq<G.Action>, index: seq<nat>, events: seq<Event>,
                       returned: map<ActionId, seq<ArtifactId>>)
  {
    && |index| == |actions|
    && (forall p :: 0 <= p < |index| ==>
          index[p] < |events| && events[index[p]].Requested? && actions[p] == ActionOf(events[index[p]], returned))
    && (forall p, q :: 0 <= p < q < |index| ==> index[p] < index[q])
    && (forall i :: 0 <= i < |events| && events[i].Requested? ==> i in index)
  }

  lemma FromOneMore(actions: seq<G.Action>, index: seq<nat>, events: seq<Event>,
                    returned: map<ActionId, seq<ArtifactId>>)
    requires events != [] && From(actions, index, events[..|events| - 1], returned)
    requires events[|events| - 1].Requested?
    ensures From(actions + [ActionOf(events[|events| - 1], returned)], index + [|events| - 1], events, returned)
  {
  }

  lemma FromNoMore(actions: seq<G.Action>, index: seq<nat>, events: seq<Event>,
                   returned: map<ActionId, seq<ArtifactId>>)
    requires events != [] && From(actions, index, events[..|events| - 1], returned)
    requires !events[|events| - 1].Requested?
    ensures From(actions, index, events, returned)
  {
  }

  lemma {:induction false} ExportedFrom(events: seq<Event>, returned: map<ActionId, seq<ArtifactId>>)
    returns (index: seq<nat>)
    ensures From(Exported(events, returned), index, events, returned)
  {
    if events == [] {
      index := [];
    } else {
      var n := |events| - 1;
      index := ExportedFrom(events[..n], returned);
      if events[n].Requested? {
        FromOneMore(Exported(events[..n], returned), index, events, returned);
        index := index + [n];
      } else {
        FromNoMore(Exported(events[..n], returned), index, events, returned);
        assert Exported(events, returned) == Exported(events[..n], returned);
      }
    }
  }

  lemma {:induction false} ReturnedIsOutputs(s: State, n: nat, a: ActionId)
    requires EventsFine(s) && n <= |s.events| && a in Returned(s.events[..n])
    ensures a in s.tasks && Returned(s.events[..n])[a] == s.tasks[a].outputs
  {
    var e := s.events[n - 1];
    assert s.events[..n][..n - 1] == s.events[..n - 1] && EventFine(s, e);
    if !(e.ExecutionEnded? && e.success && e.action == a) { ReturnedIsOutputs(s, n - 1, a); }
  }

  /** What an exported action returns, it makes. */
  lemma ReturnedIsMade(s: State, actions: seq<G.Action>, index: seq<nat>, p: nat, x: ArtifactId)
    requires EventsFine(s) && From(actions, index, s.events, Returned(s.events))
    requires p < |actions| && x in actions[p].outputs
    ensures Makes(s, actions[p].id, x) && actions[p].id in Returned(s.events)
    ensures actions[p].outputs == s.tasks[actions[p].id].outputs
  {
    assert s.events[..|s.events|] == s.events;
    ReturnedIsOutputs(s, |s.events|, actions[p].id);
  }

  lemma DistinctExport(s: State, initial: set<ArtifactId>, actions: seq<G.Action>, index: seq<nat>)
    requires Recorded(s, initial) && RequestsInOrder(s, initial) && From(actions, index, s.events, Returned(s.events))
    ensures G.DistinctIds(actions) && G.ProducedOnce(actions)
  {
    forall p, q | 0 <= p < q < |actions|
      ensures actions[p].id != actions[q].id
    {
      assert index[p] < index[q];
    }
    forall p, q, x | 0 <= p < q < |actions| && x in actions[p].outputs
      ensures x !in actions[q].outputs
    {
      assert index[p] < index[q];
      ReturnedIsMade(s, actions, index, p, x);
      if x in actions[q].outputs { ReturnedIsMade(s, actions, index, q, x); }
    }
  }

  lemma ProducerExportedFirst(s: State, initial: set<ArtifactId>, actions: seq<G.Action>, index: seq<nat>, q: nat,
                              x: ArtifactId)
    requires Recorded(s, initial) && RequestsInOrder(s, initial) && From(actions, index, s.events, Returned(s.events))
    requires q < |actions| && x in actions[q].inputs
    ensures G.ReturnedBy(actions, q, x)
  {
    if r :| 0 <= r < |actions| && x in actions[r].outputs {
      ReturnedIsMade(s, actions, index, r, x);
      assert TaskOutputs(s, actions[r].id, initial);
      assert RequestsInputOk(s, initial, index[q], x);
      var i :| 0 <= i < index[q] && s.events[i].Requested? && Makes(s, s.events[i].action, x);
      assert s.events[i].action == actions[r].id;
      assert index[r] == i;
      assert r <= q;
    }
  }

  lemma ExportedIsOrdered(s: State, initial: set<ArtifactId>, actions: seq<G.Action>)
    requires Recorded(s, initial) && RequestsInOrder(s, initial) && actions == Exported(s.events, Returned(s.events))
    ensures G.Ordered(actions, G.Dependencies(actions))
  {
    var index := ExportedFrom(s.events, Returned(s.events));
    DistinctExport(s, initial, actions, index);
    forall q, x | 0 <= q < |actions| && x in actions[q].inputs
      ensures G.ReturnedBy(actions, q, x)
    {
      ProducerExportedFirst(s, initial, actions, index, q, x);
    }
    G.ExportIsOrdered(actions);
  }

  /**
   Whatever the interleaving and whatever fails, the exported dependencies lead forward in the order of the requests.
   */
  lemma ExportHasNoCycle(s: State, steps: seq<Step>)
    requires Initial(s) && Runs(s, steps)
    ensures
      var events := Run(s, steps).events;
      var actions := Exported(events, Returned(events));
      G.Ordered(actions, G.Dependencies(actions))
  {
    var t, initial := Run(s, steps), s.origins.Keys;
    InitialInv(s);
    RunRecorded(s, steps, initial);
    RunKeepsOrder(s, steps, initial);
    ExportedIsOrdered(t, initial, Exported(t.events, Returned(t.events)));
  }
}
