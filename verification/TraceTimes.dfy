/**
 Every transfer that ends in the event list has started there before, in every run, failing pulls included.
 */
module TraceTimes {
  import opened Protocol
  import opened ProtocolInvariant
  import opened ProtocolSteps
  import opened ProtocolSafety
  import opened ProtocolShape
  import opened TraceRows

  /** The start of the current transfer is recorded, its end is not. */
  predicate Underway(p: Phase) {
    Holding(p) && !p.Announcing?
  }

  function CurrentWire(s: State, a: ActionId): Wire
    requires ValidIndices(s, a) && Underway(PhaseOf(s, a))
  {
    Wire(a, CurrentKey(s, a).artifact, PhaseOf(s, a).source, s.tasks[a].worker)
  }

  /** Each end finds a pending start. */
  ghost predicate EndsMatched(events: seq<Event>) {
    forall i :: 0 <= i < |events| && events[i].TransferEnded? ==> Pending(events[..i], WireOf(events[i])) != []
  }

  /** Events carry their position, so times grow along the list. */
  ghost predicate Numbered(events: seq<Event>) {
    forall i :: 0 <= i < |events| ==> events[i].at == i
  }

  ghost predicate TaskTimed(s: State, a: ActionId) {
    ValidIndices(s, a) && Underway(PhaseOf(s, a)) ==> Pending(s.events, CurrentWire(s, a)) != []
  }

  ghost predicate Timed(s: State) {
    EndsMatched(s.events) && Numbered(s.events) && forall a <- s.tasks :: TaskTimed(s, a)
  }

  lemma PendingAppend(events: seq<Event>, e: Event, wire: Wire)
    ensures Pending(events + [e], wire) ==
            if !IsTransfer(e) || WireOf(e) != wire then Pending(events, wire)
            else if e.TransferStarted? then Pending(events, wire) + [e.at]
            else if Pending(events, wire) != [] then Pending(events, wire)[1..]
            else []
  {
  }

  lemma MatchedAppend(events: seq<Event>, e: Event)
    requires EndsMatched(events) && (e.TransferEnded? ==> Pending(events, WireOf(e)) != [])
    ensures EndsMatched(events + [e])
  {
    var more := events + [e];
    forall i | 0 <= i < |more| && more[i].TransferEnded?
      ensures Pending(more[..i], WireOf(more[i])) != []
    {
      assert more[..i] == events[..i];
      if i == |events| { assert events[..i] == events; }
    }
  }

  // ---------- steps ----------

  /** An end that is recorded finds the start of its own transfer. */
  lemma ReportMatched(s: State, step: Step, s': State)
    requires Timed(s) && Shape(s, step, s')
    ensures EndsMatched(s'.events) && Numbered(s'.events)
  {
    if step.RecordEnd? || step.RecordAbort? { assert TaskTimed(s, step.a); }
    if Reported(s, step) == [] {
      assert s'.events == s.events;
    } else {
      MatchedAppend(s.events, Reported(s, step)[0]);
      assert s'.events == s.events + [Reported(s, step)[0]];
    }
  }

  ghost predicate AllValid(s: State) {
    forall a <- s.tasks :: ValidIndices(s, a)
  }

  lemma InvIsValid(s: State)
    requires Inv(s)
    ensures AllValid(s)
  {
    forall a | a in s.tasks
      ensures ValidIndices(s, a)
    {
      assert TaskOk(s, a);
    }
  }

  /** The events of other actions leave a transfer underway as it is. */
  lemma OtherTimed(s: State, events: seq<Event>, b: ActionId, reported: seq<Event>)
    requires ValidIndices(s, b) && TaskTimed(s, b) && Underway(PhaseOf(s, b))
    requires |reported| <= 1 && (forall e <- reported :: e.action != b) && events == s.events + reported
    ensures Pending(events, CurrentWire(s, b)) != []
  {
    if reported == [] {
      assert events == s.events;
    } else {
      PendingAppend(s.events, reported[0], CurrentWire(s, b));
      assert reported == [reported[0]];
    }
  }

  /** A step records at most one event, of its own action. */
  lemma ReportedByActor(s: State, step: Step)
    requires Enabled(s, step)
    ensures |Reported(s, step)| <= 1
    ensures forall e <- Reported(s, step) :: (Acts(step) || step.Submit?) && e.action == step.a
  {
  }

  lemma SameTask(s: State, step: Step, s': State, b: ActionId, reported: seq<Event>)
    requires ValidIndices(s, b) && TaskTimed(s, b) && Lasts(s, s') && s'.events == s.events + reported
    requires b in s'.tasks && s'.tasks[b] == s.tasks[b]
    requires |reported| <= 1 && forall e <- reported :: e.action != b
    ensures TaskTimed(s', b)
  {
    if ValidIndices(s', b) && Underway(PhaseOf(s, b)) {
      assert CurrentWire(s', b) == CurrentWire(s, b);
      OtherTimed(s, s'.events, b, reported);
    }
  }

  /** The action that records the start has it pending. */
  lemma StartTimed(s: State, a: ActionId, s': State)
    requires Shape(s, RecordStart(a), s') && ValidIndices(s', a)
    ensures TaskTimed(s', a)
  {
    var e := Reported(s, RecordStart(a))[0];
    assert s'.events == s.events + [e];
    PendingAppend(s.events, e, CurrentWire(s', a));
  }

  /** While the target pulls, nothing is recorded and the wire stays. */
  lemma PullTimed(s: State, step: Step, s': State)
    requires Timed(s) && Shape(s, step, s') && IsPull(step)
    ensures TaskTimed(s', step.a)
  {
    assert TaskTimed(s, step.a) && s'.events == s.events;
    if ValidIndices(s', step.a) { assert CurrentWire(s', step.a) == CurrentWire(s, step.a); }
  }

  lemma OnlyPullsAreUnderway(step: Step, p: Phase, q: Phase)
    requires Acts(step) && Advances(step, p, q) && Underway(q)
    ensures step.RecordStart? || IsPull(step)
  {
  }

  /** The action of the step. */
  lemma ActorTimed(s: State, step: Step, s': State)
    requires Timed(s) && Shape(s, step, s') && Acts(step) && ValidIndices(s', step.a)
    ensures TaskTimed(s', step.a)
  {
    if Underway(PhaseOf(s', step.a)) {
      OnlyPullsAreUnderway(step, PhaseOf(s, step.a), PhaseOf(s', step.a));
      if step.RecordStart? { StartTimed(s, step.a, s'); } else { PullTimed(s, step, s'); }
    }
  }

  lemma StepTimed(s: State, step: Step, s': State)
    requires Timed(s) && AllValid(s) && AllValid(s') && Shape(s, step, s')
    ensures Timed(s')
  {
    ReportMatched(s, step, s');
    ReportedByActor(s, step);
    forall b | b in s'.tasks
      ensures TaskTimed(s', b)
    {
      if Acts(step) && b == step.a { ActorTimed(s, step, s'); }
      else if b in s.tasks { SameTask(s, step, s', b, Reported(s, step)); }
    }
  }

  lemma {:induction false} RunTimed(s: State, steps: seq<Step>)
    requires Inv(s) && Timed(s) && Runs(s, steps)
    ensures Timed(Run(s, steps))
    decreases steps
  {
    if steps != [] {
      var next := Apply(s, steps[0]);
      StepKeepsInv(s, steps[0]);
      InvIsValid(s);
      InvIsValid(next);
      StepShape(s, steps[0]);
      StepTimed(s, steps[0], next);
      RunTimed(next, steps[1..]);
    }
  }

  /** A pending start on a wire lies before the end of the list. */
  lemma {:induction false} PendingIsPast(events: seq<Event>, wire: Wire)
    requires Numbered(events)
    ensures forall at <- Pending(events, wire) :: at < |events|
  {
    if events != [] {
      PendingIsPast(Front(events), wire);
      assert Last(events).at == |events| - 1;
    }
  }

  /** With every end matched, each row has a start time, and one before its finish. */
  lemma {:induction false} RowsAreTimed(events: seq<Event>, registry: Registry, producers: map<ArtifactId, ActionId>)
    requires EndsMatched(events) && Numbered(events) && TransferRows(events, registry, producers).Some?
    ensures forall row <- TransferRows(events, registry, producers).value ::
              row.startedAt.Some? && row.finishedAt.Some? && row.startedAt.value < row.finishedAt.value
  {
    if events != [] {
      var e, front := Last(events), Front(events);
      assert EndsMatched(front) by {
        assert forall i :: 0 <= i <= |front| ==> front[..i] == events[..i];
      }
      RowsAreTimed(front, registry, producers);
      if Delivers(e) {
        assert events[..|events| - 1] == front && Pending(front, WireOf(e)) != [];
        PendingIsPast(front, WireOf(e));
        assert Pending(front, WireOf(e))[0] in Pending(front, WireOf(e));
      }
    }
  }
}
