/**
 A pull that aborts and is tried again by another action: what the check says about the trace.
 */
module RetryExamples {
  import opened Options
  import opened Protocol
  import opened ProtocolSafety
  import opened ProtocolProgress
  import opened TraceRows
  import opened TraceFacts
  import opened Lineage
  import opened EndToEnd
  import opened Verdict
  import opened VerdictExamples

  const COPY := Key(VIDEO, THERE)

  // ---------- paths ----------

  ghost predicate Goes(s: State, step: Step, t: State) {
    Enabled(s, step) && Apply(s, step) == t
  }

  /** The run leads from one state to the other. */
  ghost predicate Leads(s: State, steps: seq<Step>, t: State) {
    Runs(s, steps) && Run(s, steps) == t
  }

  lemma LeadsInOne(s: State, x: Step, t: State)
    requires Goes(s, x, t)
    ensures Leads(s, [x], t)
  {
    assert [x] + [] == [x] && Runs(t, []);
    StepFirst(s, x, []);
  }

  lemma LeadsOn(s: State, steps: seq<Step>, t: State, rest: seq<Step>, u: State)
    requires Leads(s, steps, t) && Leads(t, rest, u)
    ensures Leads(s, steps + rest, u)
  {
    RunsOn(s, steps, rest);
  }

  lemma LeadsInTwo(s: State, x: Step, t: State, y: Step, u: State)
    requires Goes(s, x, t) && Goes(t, y, u)
    ensures Leads(s, [x, y], u)
  {
    LeadsInOne(s, x, t);
    LeadsInOne(t, y, u);
    LeadsOn(s, [x], t, [y], u);
    assert [x] + [y] == [x, y];
  }

  lemma LeadsInThree(s: State, x: Step, t: State, y: Step, u: State, z: Step, w: State)
    requires Goes(s, x, t) && Goes(t, y, u) && Goes(u, z, w)
    ensures Leads(s, [x, y, z], w)
  {
    LeadsInTwo(s, x, t, y, u);
    LeadsInOne(u, z, w);
    LeadsOn(s, [x, y], u, [z], w);
    assert [x, y] + [z] == [x, y, z];
  }

  // ---------- scenes ----------

  function Taker(phase: Phase): Task {
    Task([0], THERE, TOOL, [], phase)
  }

  /** The video, its copy on the second Worker, and actions there that take it, in the midst of a run. */
  datatype Stage = Stage(size: nat, file: bool, holder: Option<Option<ActionId>>, listed: bool, ended: bool)

  function Scene(g: Stage, tasks: map<ActionId, Task>, events: seq<Event>): State {
    var first := map[Key(VIDEO, HERE) := g.size];
    State({HERE, THERE}, [Ref(VIDEO, if g.listed then [HERE, THERE] else [HERE])],
          if g.file then first[COPY := g.size] else first,
          if g.holder.Some? then map[COPY := g.holder.value] else map[],
          if g.ended then {COPY} else {}, tasks, events, map[VIDEO := g.size], map[VIDEO := HERE])
  }

  function With(tasks: map<ActionId, Task>, a: ActionId, phase: Phase): map<ActionId, Task> {
    tasks[a := Taker(phase)]
  }

  // ---------- one step ----------

  lemma Asks(g: Stage, tasks: map<ActionId, Task>, a: ActionId, events: seq<Event>)
    requires !g.listed
    ensures Goes(Scene(g, With(tasks, a, Localize(0)), events), CheckLocal(a),
                 Scene(if g.holder.Some? then g else g.(holder := Some(None)), With(tasks, a, Waiting(0)), events))
  {
    var s := Scene(g, With(tasks, a, Localize(0)), events);
    assert Apply(s, CheckLocal(a)).tasks == With(tasks, a, Waiting(0));
  }

  lemma Enters(g: Stage, tasks: map<ActionId, Task>, a: ActionId, events: seq<Event>)
    requires !g.listed && !g.ended && g.holder == Some(None)
    ensures Goes(Scene(g, With(tasks, a, Waiting(0)), events), Acquire(a),
                 Scene(g.(holder := Some(Some(a))), With(tasks, a, Announcing(0, HERE)), events))
  {
    var s := Scene(g, With(tasks, a, Waiting(0)), events);
    assert FirstReachable([HERE], s.clients) == Some(HERE);
    assert EnterPhase(s, a) == Announcing(0, HERE);
    assert Apply(s, Acquire(a)).tasks == With(tasks, a, Announcing(0, HERE));
  }

  function StartOf(a: ActionId, events: seq<Event>): Event {
    TransferStarted(a, VIDEO, HERE, THERE, |events|)
  }

  lemma Announces(g: Stage, tasks: map<ActionId, Task>, a: ActionId, events: seq<Event>)
    ensures Goes(Scene(g, With(tasks, a, Announcing(0, HERE)), events), RecordStart(a),
                 Scene(g, With(tasks, a, Pulling(0, HERE)), events + [StartOf(a, events)]))
  {
    var s := Scene(g, With(tasks, a, Announcing(0, HERE)), events);
    assert Apply(s, RecordStart(a)).tasks == With(tasks, a, Pulling(0, HERE));
  }

  /** The Worker looks for the file, which an earlier pull may have left there. */
  lemma Looks(g: Stage, tasks: map<ActionId, Task>, a: ActionId, events: seq<Event>)
    ensures Goes(Scene(g, With(tasks, a, Pulling(0, HERE)), events), FindFile(a),
                 Scene(g, With(tasks, a, if g.file then Returned(0, HERE, 0) else Fetching(0, HERE)), events))
  {
    var s := Scene(g, With(tasks, a, Pulling(0, HERE)), events);
    var p := if g.file then Returned(0, HERE, 0) else Fetching(0, HERE);
    assert Apply(s, FindFile(a)).tasks == With(tasks, a, p);
  }

  lemma Writes(g: Stage, tasks: map<ActionId, Task>, a: ActionId, events: seq<Event>)
    ensures Goes(Scene(g, With(tasks, a, Fetching(0, HERE)), events), WriteFile(a, g.size),
                 Scene(g.(file := true), With(tasks, a, Verifying(0, HERE, g.size)), events))
  {
    var s := Scene(g, With(tasks, a, Fetching(0, HERE)), events);
    assert Apply(s, WriteFile(a, g.size)).tasks == With(tasks, a, Verifying(0, HERE, g.size));
  }

  lemma Checks(g: Stage, tasks: map<ActionId, Task>, a: ActionId, events: seq<Event>)
    ensures Goes(Scene(g, With(tasks, a, Verifying(0, HERE, g.size)), events), CheckSize(a),
                 Scene(g, With(tasks, a, Returned(0, HERE, g.size)), events))
  {
    var s := Scene(g, With(tasks, a, Verifying(0, HERE, g.size)), events);
    assert Apply(s, CheckSize(a)).tasks == With(tasks, a, Returned(0, HERE, g.size));
  }

  /** A pull may fail before it has written the file or after. */
  lemma Fails(g: Stage, tasks: map<ActionId, Task>, a: ActionId, phase: Phase, events: seq<Event>)
    requires phase == Pulling(0, HERE) || phase == Verifying(0, HERE, g.size)
    ensures Goes(Scene(g, With(tasks, a, phase), events), PullFails(a),
                 Scene(g, With(tasks, a, Aborting(0, HERE)), events))
  {
    var s := Scene(g, With(tasks, a, phase), events);
    assert Apply(s, PullFails(a)).tasks == With(tasks, a, Aborting(0, HERE));
  }

  function EndOf(a: ActionId, bytes: nat, success: bool, events: seq<Event>): Event {
    TransferEnded(a, VIDEO, HERE, THERE, bytes, success, |events|)
  }

  lemma Aborts(g: Stage, tasks: map<ActionId, Task>, a: ActionId, events: seq<Event>)
    requires g.holder == Some(Some(a))
    ensures Goes(Scene(g, With(tasks, a, Aborting(0, HERE)), events), RecordAbort(a),
                 Scene(g.(holder := Some(None)), With(tasks, a, Failed), events + [EndOf(a, 0, false, events)]))
  {
    var s := Scene(g, With(tasks, a, Aborting(0, HERE)), events);
    assert Apply(s, RecordAbort(a)).tasks == With(tasks, a, Failed);
  }

  lemma Returns(g: Stage, tasks: map<ActionId, Task>, a: ActionId, bytes: nat, events: seq<Event>)
    requires !g.listed && (bytes == 0 || bytes == g.size)
    ensures Goes(Scene(g, With(tasks, a, Returned(0, HERE, bytes)), events), ListLocation(a),
                 Scene(g.(listed := true), With(tasks, a, Finishing(0, HERE, bytes)), events))
  {
    var s := Scene(g, With(tasks, a, Returned(0, HERE, bytes)), events);
    assert [HERE] + [THERE] == [HERE, THERE] && THERE != HERE;
    assert Apply(s, ListLocation(a)).tasks == With(tasks, a, Finishing(0, HERE, bytes));
  }

  lemma Ends(g: Stage, tasks: map<ActionId, Task>, a: ActionId, bytes: nat, events: seq<Event>)
    requires g.holder == Some(Some(a)) && !g.ended
    ensures Goes(Scene(g, With(tasks, a, Finishing(0, HERE, bytes)), events), RecordEnd(a),
                 Scene(g.(holder := Some(None), ended := true), With(tasks, a, Localize(1)),
                       events + [EndOf(a, bytes, true, events)]))
  {
    var s := Scene(g, With(tasks, a, Finishing(0, HERE, bytes)), events);
    assert CurrentKey(s, a) == COPY && map[COPY := Some(a)][COPY := None] == map[COPY := None];
    assert Apply(s, RecordEnd(a)).tasks == With(tasks, a, Localize(1));
  }

  lemma Starts(g: Stage, tasks: map<ActionId, Task>, a: ActionId, events: seq<Event>)
    ensures Goes(Scene(g, With(tasks, a, Localize(1)), events), StartExecution(a),
                 Scene(g, With(tasks, a, Running), events + [ExecutionStarted(a, THERE, |events|)]))
  {
    var s := Scene(g, With(tasks, a, Localize(1)), events);
    assert Apply(s, StartExecution(a)).tasks == With(tasks, a, Running);
  }

  lemma Executes(g: Stage, tasks: map<ActionId, Task>, a: ActionId, events: seq<Event>)
    requires g.file
    ensures Goes(Scene(g, With(tasks, a, Running), events), Execute(a, []), Scene(g, With(tasks, a, Ending), events))
  {
    var s := Scene(g, With(tasks, a, Running), events);
    assert Protocol.Ids([]) == [];
    assert Apply(s, Execute(a, [])).tasks == With(tasks, a, Ending);
  }

  lemma Reports(g: Stage, tasks: map<ActionId, Task>, a: ActionId, events: seq<Event>)
    ensures Goes(Scene(g, With(tasks, a, Ending), events), RecordExecution(a),
                 Scene(g, With(tasks, a, Announced(0)),
                       events + [ExecutionEnded(a, TOOL, THERE, [], true, |events|)]))
  {
    var s := Scene(g, With(tasks, a, Ending), events);
    assert Apply(s, RecordExecution(a)).tasks == With(tasks, a, Announced(0));
  }

  // ---------- the parts of a pull ----------

  lemma Begins(g: Stage, tasks: map<ActionId, Task>, a: ActionId, events: seq<Event>)
    requires !g.listed && !g.ended && (g.holder.Some? ==> g.holder.value.None?)
    ensures Leads(Scene(g, With(tasks, a, Localize(0)), events), [CheckLocal(a), Acquire(a), RecordStart(a)],
                  Scene(g.(holder := Some(Some(a))), With(tasks, a, Pulling(0, HERE)), events + [StartOf(a, events)]))
  {
    var free, held := g.(holder := Some(None)), g.(holder := Some(Some(a)));
    Asks(g, tasks, a, events);
    Enters(free, tasks, a, events);
    Announces(held, tasks, a, events);
    LeadsInThree(Scene(g, With(tasks, a, Localize(0)), events), CheckLocal(a),
                 Scene(free, With(tasks, a, Waiting(0)), events), Acquire(a),
                 Scene(held, With(tasks, a, Announcing(0, HERE)), events), RecordStart(a),
                 Scene(held, With(tasks, a, Pulling(0, HERE)), events + [StartOf(a, events)]));
  }

  /** The pull fails after it has written the file, or before. */
  function GivingUp(a: ActionId, size: nat, left: bool): seq<Step> {
    (if left then [FindFile(a), WriteFile(a, size)] else []) + [PullFails(a), RecordAbort(a)]
  }

  lemma GivesUp(g: Stage, tasks: map<ActionId, Task>, a: ActionId, left: bool, events: seq<Event>)
    requires g.holder == Some(Some(a)) && !g.file
    ensures Leads(Scene(g, With(tasks, a, Pulling(0, HERE)), events), GivingUp(a, g.size, left),
                  Scene(g.(file := left, holder := Some(None)), With(tasks, a, Failed),
                        events + [EndOf(a, 0, false, events)]))
  {
    var s, h := Scene(g, With(tasks, a, Pulling(0, HERE)), events), g.(file := left);
    var phase := if left then Verifying(0, HERE, g.size) else Pulling(0, HERE);
    var t, u := Scene(h, With(tasks, a, phase), events), Scene(h, With(tasks, a, Aborting(0, HERE)), events);
    var w := Scene(h.(holder := Some(None)), With(tasks, a, Failed), events + [EndOf(a, 0, false, events)]);
    Fails(h, tasks, a, phase, events);
    Aborts(h, tasks, a, events);
    LeadsInTwo(t, PullFails(a), u, RecordAbort(a), w);
    if left {
      Looks(g, tasks, a, events);
      Writes(g, tasks, a, events);
      LeadsInTwo(s, FindFile(a), Scene(g, With(tasks, a, Fetching(0, HERE)), events), WriteFile(a, g.size), t);
      LeadsOn(s, [FindFile(a), WriteFile(a, g.size)], t, [PullFails(a), RecordAbort(a)], w);
    } else {
      assert GivingUp(a, g.size, left) == [PullFails(a), RecordAbort(a)] && s == t;
    }
  }

  /** The pull finds the whole file, or moves its bytes. */
  function Getting(a: ActionId, size: nat, left: bool): seq<Step> {
    if left then [FindFile(a)] else [FindFile(a), WriteFile(a, size), CheckSize(a)]
  }

  lemma Gets(g: Stage, tasks: map<ActionId, Task>, a: ActionId, events: seq<Event>)
    ensures Leads(Scene(g, With(tasks, a, Pulling(0, HERE)), events), Getting(a, g.size, g.file),
                  Scene(g.(file := true), With(tasks, a, Returned(0, HERE, if g.file then 0 else g.size)), events))
  {
    var s, h := Scene(g, With(tasks, a, Pulling(0, HERE)), events), g.(file := true);
    Looks(g, tasks, a, events);
    if g.file {
      assert g == h;
      LeadsInOne(s, FindFile(a), Scene(h, With(tasks, a, Returned(0, HERE, 0)), events));
    } else {
      Writes(g, tasks, a, events);
      Checks(h, tasks, a, events);
      LeadsInThree(s, FindFile(a), Scene(g, With(tasks, a, Fetching(0, HERE)), events), WriteFile(a, g.size),
                   Scene(h, With(tasks, a, Verifying(0, HERE, g.size)), events), CheckSize(a),
                   Scene(h, With(tasks, a, Returned(0, HERE, g.size)), events));
    }
  }

  lemma Lists(g: Stage, tasks: map<ActionId, Task>, a: ActionId, bytes: nat, events: seq<Event>)
    requires !g.listed && !g.ended && g.holder == Some(Some(a)) && (bytes == 0 || bytes == g.size)
    ensures Leads(Scene(g, With(tasks, a, Returned(0, HERE, bytes)), events), [ListLocation(a), RecordEnd(a)],
                  Scene(g.(holder := Some(None), listed := true, ended := true), With(tasks, a, Localize(1)),
                        events + [EndOf(a, bytes, true, events)]))
  {
    var h := g.(listed := true);
    Returns(g, tasks, a, bytes, events);
    Ends(h, tasks, a, bytes, events);
    LeadsInTwo(Scene(g, With(tasks, a, Returned(0, HERE, bytes)), events), ListLocation(a),
               Scene(h, With(tasks, a, Finishing(0, HERE, bytes)), events), RecordEnd(a),
               Scene(h.(holder := Some(None), ended := true), With(tasks, a, Localize(1)),
                     events + [EndOf(a, bytes, true, events)]));
  }

  function WithCall(a: ActionId, events: seq<Event>): seq<Event> {
    var started := events + [ExecutionStarted(a, THERE, |events|)];
    started + [ExecutionEnded(a, TOOL, THERE, [], true, |started|)]
  }

  lemma Calls(g: Stage, tasks: map<ActionId, Task>, a: ActionId, events: seq<Event>)
    requires g.file
    ensures Leads(Scene(g, With(tasks, a, Localize(1)), events),
                  [StartExecution(a), Execute(a, []), RecordExecution(a)],
                  Scene(g, With(tasks, a, Announced(0)), WithCall(a, events)))
  {
    var started := events + [ExecutionStarted(a, THERE, |events|)];
    Starts(g, tasks, a, events);
    Executes(g, tasks, a, started);
    Reports(g, tasks, a, started);
    LeadsInThree(Scene(g, With(tasks, a, Localize(1)), events), StartExecution(a),
                 Scene(g, With(tasks, a, Running), started), Execute(a, []),
                 Scene(g, With(tasks, a, Ending), started), RecordExecution(a),
                 Scene(g, With(tasks, a, Announced(0)), WithCall(a, events)));
  }

  // ---------- the whole run ----------

  function Asked(): seq<Event> {
    [Requested("a", [VIDEO], 0), Requested("b", [VIDEO], 1)]
  }

  function Aborted(): seq<Event> {
    var started := Asked() + [StartOf("a", Asked())];
    started + [EndOf("a", 0, false, started)]
  }

  function Retried(bytes: nat): seq<Event> {
    var started := Aborted() + [StartOf("b", Aborted())];
    started + [EndOf("b", bytes, true, started)]
  }

  function Beginning(size: nat): Stage {
    Stage(size, false, None, false, false)
  }

  /** The first action has given up. */
  function Interlude(size: nat, left: bool): State {
    Scene(Beginning(size).(file := left, holder := Some(None)), With(map["a" := Taker(Failed)], "b", Localize(0)),
          Aborted())
  }

  /** The second one has succeeded. */
  function Outcome(size: nat, bytes: nat): State {
    Scene(Stage(size, true, Some(None), true, true), With(map["a" := Taker(Failed)], "b", Announced(0)),
          WithCall("b", Retried(bytes)))
  }

  lemma BothAsked(size: nat)
    ensures Leads(Stored(size), Jobs(true),
                  Scene(Beginning(size), With(map["b" := Taker(Localize(0))], "a", Localize(0)), Asked()))
  {
    var s := Stored(size);
    var one := Apply(s, Job("a"));
    var two := Apply(one, Job("b"));
    assert InputIds(s, [0]) == [VIDEO] && InputIds(one, [0]) == [VIDEO];
    assert two.tasks == With(map["b" := Taker(Localize(0))], "a", Localize(0));
    assert two == Scene(Beginning(size), two.tasks, Asked());
    LeadsInTwo(s, Job("a"), one, Job("b"), two);
  }

  lemma SameTasks(first: Phase, second: Phase)
    ensures With(map["b" := Taker(second)], "a", first) == With(map["a" := Taker(first)], "b", second)
  {
  }

  lemma FirstAborts(size: nat, left: bool) returns (steps: seq<Step>)
    ensures Leads(Stored(size), steps, Interlude(size, left))
  {
    var g, tasks := Beginning(size), map["b" := Taker(Localize(0))];
    var held := g.(holder := Some(Some("a")));
    var started := Asked() + [StartOf("a", Asked())];
    var s := Scene(g, With(tasks, "a", Localize(0)), Asked());
    var t := Scene(held, With(tasks, "a", Pulling(0, HERE)), started);
    var u := Scene(g.(file := left, holder := Some(None)), With(tasks, "a", Failed), Aborted());
    var begin := [CheckLocal("a"), Acquire("a"), RecordStart("a")];
    BothAsked(size);
    Begins(g, tasks, "a", Asked());
    GivesUp(held, tasks, "a", left, started);
    LeadsOn(s, begin, t, GivingUp("a", size, left), u);
    LeadsOn(Stored(size), Jobs(true), s, begin + GivingUp("a", size, left), u);
    steps := Jobs(true) + (begin + GivingUp("a", size, left));
    SameTasks(Failed, Localize(0));
  }

  lemma SecondSucceeds(size: nat, left: bool) returns (steps: seq<Step>)
    ensures Leads(Interlude(size, left), steps, Outcome(size, if left then 0 else size))
  {
    var g, tasks := Beginning(size).(file := left, holder := Some(None)), map["a" := Taker(Failed)];
    var bytes := if left then 0 else size;
    var held, end := g.(holder := Some(Some("b"))), Stage(size, true, Some(None), true, true);
    var started := Aborted() + [StartOf("b", Aborted())];
    var s := Scene(g, With(tasks, "b", Localize(0)), Aborted());
    var t := Scene(held, With(tasks, "b", Pulling(0, HERE)), started);
    var u := Scene(held.(file := true), With(tasks, "b", Returned(0, HERE, bytes)), started);
    var w := Scene(end, With(tasks, "b", Localize(1)), Retried(bytes));
    var z := Scene(end, With(tasks, "b", Announced(0)), WithCall("b", Retried(bytes)));
    Begins(g, tasks, "b", Aborted());
    Gets(held, tasks, "b", started);
    Lists(held.(file := true), tasks, "b", bytes, started);
    Calls(end, tasks, "b", Retried(bytes));
    steps := [CheckLocal("b"), Acquire("b"), RecordStart("b")] + Getting("b", size, left);
    LeadsOn(s, [CheckLocal("b"), Acquire("b"), RecordStart("b")], t, Getting("b", size, left), u);
    LeadsOn(s, steps, u, [ListLocation("b"), RecordEnd("b")], w);
    steps := steps + [ListLocation("b"), RecordEnd("b")];
    LeadsOn(s, steps, w, [StartExecution("b"), Execute("b", []), RecordExecution("b")], z);
    steps := steps + [StartExecution("b"), Execute("b", []), RecordExecution("b")];
  }

  lemma RetryRun(size: nat, left: bool) returns (steps: seq<Step>)
    ensures Leads(Stored(size), steps, Outcome(size, if left then 0 else size))
  {
    var first := FirstAborts(size, left);
    var second := SecondSucceeds(size, left);
    LeadsOn(Stored(size), first, Interlude(size, left), second, Outcome(size, if left then 0 else size));
    steps := first + second;
  }

  // ---------- the verdict ----------

  /** The one event that may report bytes is the end of the second pull. */
  lemma StoryDelivers(bytes: nat)
    ensures
      var events := WithCall("b", Retried(bytes));
      && (forall i :: 0 <= i < |events| && Delivers(events[i]) ==> events[i].action == "b")
      && (WasDelivered(events, "b", VIDEO) <==> bytes > 0)
  {
    var events := WithCall("b", Retried(bytes));
    assert |events| == 8;
    assert events[5] == EndOf("b", bytes, true, Aborted() + [StartOf("b", Aborted())]);
  }

  lemma OutcomeIsPlaced(size: nat, bytes: nat)
    ensures var t := Outcome(size, bytes);
            AllFinished(t) && AllPlaced(t, SITES) && ExecutorsAgree(t, SITES) && Done(t, "b") && !Done(t, "a")
  {
    assert !EndsWith(TOOL, ":sample_frames");
  }

  lemma OutcomeAccounts(size: nat, bytes: nat)
    ensures EventsAccount(Outcome(size, bytes), SITES) <==> bytes > 0
  {
    var t := Outcome(size, bytes);
    StoryDelivers(bytes);
    assert Done(t, "b") && InputIds(t, t.tasks["b"].inputs) == [VIDEO];
    assert Crosses(t, SITES, "b", VIDEO);
  }

  /**
   The first of two actions gives up while it pulls their input; the second one pulls again and succeeds.  The trace is
   marked complete exactly when the failed pull left no file behind, unless the input is empty.
   */
  lemma RetryIsComplete(size: nat, left: bool, initialSizes: map<ArtifactId, nat>) returns (steps: seq<Step>)
    ensures FinishedRun(Stored(size), steps, SITES)
    ensures var t := Run(Stored(size), steps); t.tasks.Keys == {"a", "b"} && !Done(t, "a") && Done(t, "b")
    ensures
      var complete := !left && size > 0;
      EvidenceFor(Run(Stored(size), steps).events, SITES, initialSizes, StartSites(Stored(size), SITES))
      == Some(Evidence(complete, true, complete))
  {
    steps := RetryRun(size, left);
    StoredIsFresh(size);
    OutcomeIsPlaced(size, if left then 0 else size);
    OutcomeAccounts(size, if left then 0 else size);
    TraceVerdict(Stored(size), steps, SITES, initialSizes);
  }
}
