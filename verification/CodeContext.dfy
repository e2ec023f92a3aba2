/**
 The code-tool context and the trace hooks of its planner.  Tool calls and planner turns interleave at their
 suspension points; each step is the code between two of them.
 */
module CodeContext {
  import opened Options

  datatype Tool = SearchCode | ReadFile | EditFile | ApplyPatch | RunTargetedTest | RunFullTest | SubmitPatch

  type CallId = nat

  /** Names of artifacts, by the action number or version they carry. */
  datatype Artifact = Observation(call: CallId) | SubmittedPatch(call: CallId) | Version(version: nat)

  /** Where a call is: announced, sent to the Worker, or over. */
  datatype Stage = Announced | Sent | Answered(success: bool) | Refused | Raised

  datatype Call = Call(tool: Tool, stage: Stage, readVersion: nat)

  /** A planner turn that has been counted or has an action id. */
  datatype Active = Active(action: CallId, turn: nat)

  datatype State = State(
    counter: nat, explorations: nat, version: nat, pending: seq<Artifact>,
    calls: map<CallId, Call>, turnCount: nat, active: Option<Active>, turns: seq<seq<Artifact>>)

  datatype Step =
    | Invoke(tool: Tool)
    | Dispatch(call: CallId)
    | Answer(call: CallId, success: bool)
    | Raise(call: CallId)
    | CountTurn
    | StartTurn
    | EndTurn

  predicate Explores(tool: Tool) {
    tool.SearchCode? || tool.ReadFile?
  }

  predicate Edits(tool: Tool) {
    tool.EditFile? || tool.ApplyPatch?
  }

  function Start(): State {
    State(0, 0, 0, [], map[], 0, None, [])
  }

  predicate Enabled(s: State, step: Step) {
    match step
    case Dispatch(c) => c in s.calls && s.calls[c].stage.Announced?
    case Answer(c, _) => c in s.calls && s.calls[c].stage.Sent?
    case Raise(c) => c in s.calls && s.calls[c].stage.Sent?
    case _ => true
  }

  function WithStage(s: State, c: CallId, stage: Stage): State
    requires c in s.calls
  {
    s.(calls := s.calls[c := s.calls[c].(stage := stage)])
  }

  /** What an answered call hands to the planner. */
  function Outputs(s: State, c: CallId, success: bool): seq<Artifact>
    requires c in s.calls
  {
    [Observation(c)]
    + (if success && Edits(s.calls[c].tool) then [Version(s.version + 1)] else [])
    + (if success && s.calls[c].tool.SubmitPatch? then [SubmittedPatch(c)] else [])
  }

  function Apply(s: State, step: Step, budget: nat): State
    requires Enabled(s, step)
  {
    match step
    case Invoke(tool) =>
      s.(counter := s.counter + 1, calls := s.calls[s.counter + 1 := Call(tool, Announced, s.version)])
    case Dispatch(c) =>
      if Explores(s.calls[c].tool) then
        var counted := s.(explorations := s.explorations + 1);
        if counted.explorations > budget then WithStage(counted.(pending := s.pending + [Observation(c)]), c, Refused)
        else WithStage(counted, c, Sent)
      else WithStage(s, c, Sent)
    case Answer(c, success) =>
      var edited := success && Edits(s.calls[c].tool);
      WithStage(s.(version := if edited then s.version + 1 else s.version,
                   pending := s.pending + Outputs(s, c, success)), c, Answered(success))
    case Raise(c) => WithStage(s, c, Raised)
    case CountTurn => s.(turnCount := s.turnCount + 1)
    case StartTurn =>
      s.(counter := s.counter + 1, active := Some(Active(s.counter + 1, s.turnCount)),
         turns := s.turns + [s.pending], pending := [])
    case EndTurn => s.(active := None)
  }

  // ---------- the objects ----------

  class CodePlannerContext {
    const maxExplorationCalls: nat
    var explorationCalls: nat
    var actionCounter: nat
    var repositoryVersion: nat
    var pendingObservations: seq<Artifact>
    var calls: map<CallId, Call>

    constructor (maxExplorationCalls: nat)
      ensures this.maxExplorationCalls == maxExplorationCalls
      ensures forall s :: s == Start() ==> Shows(s)
    {
      this.maxExplorationCalls := maxExplorationCalls;
      explorationCalls, actionCounter, repositoryVersion, pendingObservations, calls := 0, 0, 0, [], map[];
    }

    ghost predicate Shows(s: State)
      reads this
    {
      && explorationCalls == s.explorations && actionCounter == s.counter && repositoryVersion == s.version
      && pendingObservations == s.pending && calls == s.calls
    }

    method NextActionId() returns (id: CallId)
      modifies this`actionCounter
      ensures actionCounter == old(actionCounter) + 1 && id == actionCounter
    {
      actionCounter := actionCounter + 1;
      id := actionCounter;
    }

    /** The number of the call and the repository version it is told to read. */
    method InvokeTool(tool: Tool, ghost s: State) returns (call: CallId, readVersion: nat)
      requires Shows(s)
      modifies this
      ensures Shows(Apply(s, Invoke(tool), maxExplorationCalls))
      ensures call == s.counter + 1 && readVersion == s.version
    {
      call := NextActionId();
      readVersion := repositoryVersion;
      calls := calls[call := Call(tool, Announced, readVersion)];
    }

    /** An exploration beyond the budget is answered here; everything else goes to the Worker. */
    method Gate(call: CallId, ghost s: State) returns (sent: bool)
      requires Shows(s) && Enabled(s, Dispatch(call))
      modifies this
      ensures var t := Apply(s, Dispatch(call), maxExplorationCalls);
              Shows(t) && sent == t.calls[call].stage.Sent?
    {
      var tool := calls[call].tool;
      if Explores(tool) {
        explorationCalls := explorationCalls + 1;
        if explorationCalls > maxExplorationCalls {
          pendingObservations := pendingObservations + [Observation(call)];
          calls := calls[call := calls[call].(stage := Refused)];
          return false;
        }
      }
      calls := calls[call := calls[call].(stage := Sent)];
      sent := true;
    }

    method TakeAnswer(call: CallId, success: bool, ghost s: State)
      requires Shows(s) && Enabled(s, Answer(call, success))
      modifies this
      ensures Shows(Apply(s, Answer(call, success), maxExplorationCalls))
    {
      var tool := calls[call].tool;
      var outputs := [Observation(call)];
      if success && Edits(tool) {
        repositoryVersion := repositoryVersion + 1;
        outputs := outputs + [Version(repositoryVersion)];
      }
      if success && tool.SubmitPatch? { outputs := outputs + [SubmittedPatch(call)]; }
      pendingObservations := pendingObservations + outputs;
      calls := calls[call := calls[call].(stage := Answered(success))];
    }

    method TakeError(call: CallId, ghost s: State)
      requires Shows(s) && Enabled(s, Raise(call))
      modifies this`calls
      ensures Shows(Apply(s, Raise(call), maxExplorationCalls))
    {
      calls := calls[call := calls[call].(stage := Raised)];
    }

    method ConsumeObservations() returns (artifacts: seq<Artifact>)
      modifies this`pendingObservations
      ensures artifacts == old(pendingObservations) && pendingObservations == []
    {
      artifacts := pendingObservations;
      pendingObservations := [];
    }
  }

  class CodePlannerTraceHooks {
    const context: CodePlannerContext
    var turnCount: nat
    var active: Option<Active>
    var turns: seq<seq<Artifact>>

    constructor (context: CodePlannerContext)
      ensures this.context == context && turnCount == 0 && active == None && turns == []
    {
      this.context, turnCount, active, turns := context, 0, None, [];
    }

    ghost predicate Shows(s: State)
      reads this, context
    {
      context.Shows(s) && turnCount == s.turnCount && active == s.active && turns == s.turns
    }

    method CountLlmStart(ghost s: State)
      requires Shows(s)
      modifies this`turnCount
      ensures Shows(Apply(s, CountTurn, context.maxExplorationCalls))
    {
      turnCount := turnCount + 1;
    }

    /** The turn takes everything that is pending as its inputs. */
    method RecordLlmStart(ghost s: State) returns (inputs: seq<Artifact>)
      requires Shows(s)
      modifies this, context
      ensures Shows(Apply(s, StartTurn, context.maxExplorationCalls)) && inputs == s.pending
    {
      var id := context.NextActionId();
      active := Some(Active(id, turnCount));
      inputs := context.ConsumeObservations();
      turns := turns + [inputs];
    }

    /** `None` when no turn is open. */
    method RecordLlmEnd(ghost s: State) returns (ended: Option<Active>)
      requires Shows(s)
      modifies this`active
      ensures Shows(Apply(s, EndTurn, context.maxExplorationCalls)) && ended == s.active
    {
      ended := active;
      if active.None? { return; }
      active := None;
    }
  }

  // ---------- runs ----------

  predicate Runs(s: State, steps: seq<Step>, budget: nat)
    decreases |steps|, 0
  {
    steps == [] ||
    (&& Runs(s, steps[..|steps| - 1], budget)
     && Enabled(Run(s, steps[..|steps| - 1], budget), steps[|steps| - 1]))
  }

  function Run(s: State, steps: seq<Step>, budget: nat): State
    requires Runs(s, steps, budget)
    decreases |steps|, 1
  {
    if steps == [] then s
    else Apply(Run(s, steps[..|steps| - 1], budget), steps[|steps| - 1], budget)
  }

  /** Everything ever handed to the planner: what turns took, then what is pending. */
  function Handed(s: State): multiset<Artifact> {
    Taken(s.turns) + multiset(s.pending)
  }

  function Taken(turns: seq<seq<Artifact>>): multiset<Artifact> {
    if turns == [] then multiset{}
    else Taken(turns[..|turns| - 1]) + multiset(turns[|turns| - 1])
  }

  // ---------- the invariant ----------

  /** The call has handed out its observation. */
  predicate Observed(call: Call) {
    call.stage.Answered? || call.stage.Refused?
  }

  /** The call has handed out a patch. */
  predicate Submitted(call: Call) {
    call.tool.SubmitPatch? && call.stage == Answered(true)
  }

  /** A call has handed out one observation when it is answered or refused, one patch when it submitted one. */
  ghost predicate CallFine(s: State, c: CallId) {
    && Handed(s)[Observation(c)] == (if c in s.calls && Observed(s.calls[c]) then 1 else 0)
    && Handed(s)[SubmittedPatch(c)] == (if c in s.calls && Submitted(s.calls[c]) then 1 else 0)
  }

  /** Each version up to the current one was handed out once. */
  ghost predicate VersionFine(s: State, v: nat) {
    Handed(s)[Version(v)] == if 1 <= v <= s.version then 1 else 0
  }

  ghost predicate Inv(s: State) {
    && (forall c <- s.calls :: 1 <= c <= s.counter)
    && (forall c: CallId :: CallFine(s, c))
    && (forall v: nat :: VersionFine(s, v))
  }

  lemma TakenAppend(turns: seq<seq<Artifact>>, turn: seq<Artifact>)
    ensures Taken(turns + [turn]) == Taken(turns) + multiset(turn)
  {
  }

  lemma PendingAppend(pending: seq<Artifact>, more: seq<Artifact>)
    ensures multiset(pending + more) == multiset(pending) + multiset(more)
  {
  }

  /** The artifacts of one answer: its observation, the next version after an edit, the patch that was submitted. */
  ghost predicate Answers(given: multiset<Artifact>, c: CallId, version: nat, edited: bool, submitted: bool) {
    && (forall d: CallId :: given[Observation(d)] == if d == c then 1 else 0)
    && (forall v: nat :: given[Version(v)] == if edited && v == version + 1 then 1 else 0)
    && (forall d: CallId :: given[SubmittedPatch(d)] == if submitted && d == c then 1 else 0)
  }

  lemma GivenKeepsInv(s: State, t: State, c: CallId, success: bool, given: multiset<Artifact>, edited: bool)
    requires Inv(s) && c in s.calls && s.calls[c].stage.Sent? && t.counter == s.counter
    requires t.calls == s.calls[c := s.calls[c].(stage := Answered(success))]
    requires t.version == if edited then s.version + 1 else s.version
    requires Handed(t) == Handed(s) + given && Answers(given, c, s.version, edited, Submitted(t.calls[c]))
    ensures Inv(t)
  {
    forall d: CallId
      ensures CallFine(t, d)
    {
      assert CallFine(s, d);
    }
    forall v: nat
      ensures VersionFine(t, v)
    {
      assert VersionFine(s, v);
    }
  }

  lemma AnswerKeepsInv(s: State, c: CallId, success: bool, budget: nat)
    requires Inv(s) && Enabled(s, Answer(c, success))
    ensures Inv(Apply(s, Answer(c, success), budget))
  {
    var t := Apply(s, Answer(c, success), budget);
    PendingAppend(s.pending, Outputs(s, c, success));
    OutputsAre(s, c, success);
    GivenKeepsInv(s, t, c, success, multiset(Outputs(s, c, success)), success && Edits(s.calls[c].tool));
  }

  lemma OutputsAre(s: State, c: CallId, success: bool)
    requires c in s.calls
    ensures Answers(multiset(Outputs(s, c, success)), c, s.version, success && Edits(s.calls[c].tool),
                    success && s.calls[c].tool.SubmitPatch?)
  {
  }

  /** Nothing is handed out, and no call becomes observed or submits a patch. */
  lemma QuietKeepsInv(s: State, t: State)
    requires Inv(s) && Handed(t) == Handed(s) && t.version == s.version
    requires forall c <- t.calls :: 1 <= c <= t.counter
    requires forall c: CallId :: (c in t.calls && Observed(t.calls[c])) <==> (c in s.calls && Observed(s.calls[c]))
    requires forall c: CallId :: (c in t.calls && Submitted(t.calls[c])) <==> (c in s.calls && Submitted(s.calls[c]))
    ensures Inv(t)
  {
    forall c: CallId
      ensures CallFine(t, c)
    {
      assert CallFine(s, c);
    }
    forall v: nat
      ensures VersionFine(t, v)
    {
      assert VersionFine(s, v);
    }
  }

  lemma RefusalKeepsInv(s: State, t: State, c: CallId)
    requires Inv(s) && c in s.calls && s.calls[c].stage.Announced? && t.counter == s.counter && t.version == s.version
    requires t.calls == s.calls[c := s.calls[c].(stage := Refused)]
    requires t.turns == s.turns && t.pending == s.pending + [Observation(c)]
    ensures Inv(t)
  {
    PendingAppend(s.pending, [Observation(c)]);
    assert Handed(t) == Handed(s) + multiset{Observation(c)};
    forall d: CallId
      ensures CallFine(t, d)
    {
      assert CallFine(s, d);
    }
    forall v: nat
      ensures VersionFine(t, v)
    {
      assert VersionFine(s, v);
    }
  }

  lemma SendKeepsInv(s: State, t: State, c: CallId)
    requires Inv(s) && c in s.calls && s.calls[c].stage.Announced?
    requires t.calls == s.calls[c := s.calls[c].(stage := Sent)] && t.counter == s.counter && t.version == s.version
    requires t.turns == s.turns && t.pending == s.pending
    ensures Inv(t)
  {
    QuietKeepsInv(s, t);
  }

  lemma DispatchKeepsInv(s: State, c: CallId, budget: nat)
    requires Inv(s) && Enabled(s, Dispatch(c))
    ensures Inv(Apply(s, Dispatch(c), budget))
  {
    var t := Apply(s, Dispatch(c), budget);
    if t.calls[c].stage.Refused? { RefusalKeepsInv(s, t, c); } else { SendKeepsInv(s, t, c); }
  }

  lemma InvokeKeepsInv(s: State, tool: Tool, budget: nat)
    requires Inv(s)
    ensures Inv(Apply(s, Invoke(tool), budget))
  {
    assert s.counter + 1 !in s.calls;
    QuietKeepsInv(s, Apply(s, Invoke(tool), budget));
  }

  lemma TurnKeepsInv(s: State, step: Step, budget: nat)
    requires Inv(s) && (step.CountTurn? || step.StartTurn? || step.EndTurn?)
    ensures Inv(Apply(s, step, budget))
  {
    var t := Apply(s, step, budget);
    if step.StartTurn? {
      TakenAppend(s.turns, s.pending);
      assert Handed(t) == Handed(s);
    }
    QuietKeepsInv(s, t);
  }

  lemma StepKeepsInv(s: State, step: Step, budget: nat)
    requires Inv(s) && Enabled(s, step)
    ensures Inv(Apply(s, step, budget))
  {
    match step
    case Invoke(tool) => InvokeKeepsInv(s, tool, budget);
    case Dispatch(c) => DispatchKeepsInv(s, c, budget);
    case Answer(c, success) => AnswerKeepsInv(s, c, success, budget);
    case Raise(c) => QuietKeepsInv(s, Apply(s, step, budget));
    case _ => TurnKeepsInv(s, step, budget);
  }

  lemma {:induction false} RunKeepsInv(steps: seq<Step>, budget: nat)
    requires Runs(Start(), steps, budget)
    ensures Inv(Run(Start(), steps, budget))
  {
    if steps == [] {
      assert Handed(Start()) == multiset{};
    } else {
      RunKeepsInv(steps[..|steps| - 1], budget);
      StepKeepsInv(Run(Start(), steps[..|steps| - 1], budget), steps[|steps| - 1], budget);
    }
  }

  // ---------- observations ----------

  /**
   In every interleaving the observation of a call that did not raise is pending or was taken by exactly one
   turn, once; a call that raised or is still out has none.
   */
  lemma ObservationsReachOneTurn(steps: seq<Step>, budget: nat, c: CallId)
    requires Runs(Start(), steps, budget) && c in Run(Start(), steps, budget).calls
    ensures
      var s := Run(Start(), steps, budget);
      var x := Observation(c);
      if Observed(s.calls[c]) then
        || (x in s.pending && forall turn <- s.turns :: x !in turn)
        || (x !in s.pending && exists k :: 0 <= k < |s.turns| && TakenOnlyBy(s.turns, k, x))
      else x !in s.pending && forall turn <- s.turns :: x !in turn
  {
    var s, x := Run(Start(), steps, budget), Observation(c);
    RunKeepsInv(steps, budget);
    assert CallFine(s, c) && Handed(s)[x] == Taken(s.turns)[x] + multiset(s.pending)[x];
    if Taken(s.turns)[x] == 0 {
      NotTaken(s.turns, x);
      assert x in multiset(s.pending) <==> x in s.pending;
    } else {
      var k := TakenOnce(s.turns, x);
      assert x !in multiset(s.pending);
    }
  }

  /** Turn `k` takes the artifact once and no other turn takes it. */
  ghost predicate TakenOnlyBy(turns: seq<seq<Artifact>>, k: nat, x: Artifact)
    requires k < |turns|
  {
    multiset(turns[k])[x] == 1 && forall j :: 0 <= j < |turns| && j != k ==> x !in turns[j]
  }

  lemma {:induction false} NotTaken(turns: seq<seq<Artifact>>, x: Artifact)
    requires Taken(turns)[x] == 0
    ensures forall turn <- turns :: x !in turn
  {
    if turns != [] {
      var n := |turns| - 1;
      NotTaken(turns[..n], x);
      assert x !in multiset(turns[n]);
      assert turns == turns[..n] + [turns[n]];
    }
  }

  lemma {:induction false} TakenOnce(turns: seq<seq<Artifact>>, x: Artifact) returns (k: nat)
    requires Taken(turns)[x] == 1
    ensures k < |turns| && TakenOnlyBy(turns, k, x)
  {
    var n := |turns| - 1;
    if multiset(turns[n])[x] == 1 {
      k := n;
      NotTaken(turns[..n], x);
      forall j | 0 <= j < |turns| && j != k
        ensures x !in turns[j]
      {
        assert turns[..n][j] in turns[..n];
      }
    } else {
      k := TakenOnce(turns[..n], x);
      assert x !in multiset(turns[n]);
      forall j | 0 <= j < |turns| && j != k
        ensures x !in turns[j]
      {
        if j < n { assert turns[..n][j] == turns[j]; }
      }
    }
  }

  // ---------- versions ----------

  function SuccessfulEdits(steps: seq<Step>, budget: nat): nat
    requires Runs(Start(), steps, budget)
  {
    if steps == [] then 0
    else
      var n := |steps| - 1;
      var s := Run(Start(), steps[..n], budget);
      SuccessfulEdits(steps[..n], budget)
      + if steps[n].Answer? && steps[n].success && Edits(s.calls[steps[n].call].tool) then 1 else 0
  }

  lemma {:induction false} VersionCounts(steps: seq<Step>, budget: nat)
    requires Runs(Start(), steps, budget)
    ensures Run(Start(), steps, budget).version == SuccessfulEdits(steps, budget)
  {
    if steps != [] { VersionCounts(steps[..|steps| - 1], budget); }
  }

  /** Versions are numbered 1, 2, ... as edits succeed, and each is handed out exactly once. */
  lemma VersionsCountEdits(steps: seq<Step>, budget: nat, v: nat)
    requires Runs(Start(), steps, budget)
    ensures
      var s := Run(Start(), steps, budget);
      && s.version == SuccessfulEdits(steps, budget)
      && Handed(s)[Version(v)] == if 1 <= v <= SuccessfulEdits(steps, budget) then 1 else 0
  {
    VersionCounts(steps, budget);
    RunKeepsInv(steps, budget);
    assert VersionFine(Run(Start(), steps, budget), v);
  }

  // ---------- the exploration budget ----------

  /** Explorations that were sent to the Worker. */
  function SentExplorations(steps: seq<Step>, budget: nat): nat
    requires Runs(Start(), steps, budget)
  {
    if steps == [] then 0
    else
      var n := |steps| - 1;
      var s := Run(Start(), steps[..n], budget);
      SentExplorations(steps[..n], budget)
      + if steps[n].Dispatch? && Explores(s.calls[steps[n].call].tool)
           && Apply(s, steps[n], budget).calls[steps[n].call].stage.Sent? then 1 else 0
  }

  /** Dispatched explorations, sent or refused. */
  function AskedExplorations(steps: seq<Step>, budget: nat): nat
    requires Runs(Start(), steps, budget)
  {
    if steps == [] then 0
    else
      var n := |steps| - 1;
      var s := Run(Start(), steps[..n], budget);
      AskedExplorations(steps[..n], budget)
      + if steps[n].Dispatch? && s.calls[steps[n].call].tool in {SearchCode, ReadFile} then 1 else 0
  }

  /** The Worker sees the first `budget` explorations that are asked for and no more. */
  lemma {:induction false} BudgetHolds(steps: seq<Step>, budget: nat)
    requires Runs(Start(), steps, budget)
    ensures Run(Start(), steps, budget).explorations == AskedExplorations(steps, budget)
    ensures SentExplorations(steps, budget)
            == if AskedExplorations(steps, budget) <= budget then AskedExplorations(steps, budget) else budget
  {
    if steps != [] { BudgetHolds(steps[..|steps| - 1], budget); }
  }

  // ---------- what the history says ----------

  /** How many action ids were drawn: one per call and one per turn. */
  function Drawn(steps: seq<Step>): nat {
    if steps == [] then 0
    else
      var n := |steps| - 1;
      Drawn(steps[..n]) + if steps[n].Invoke? || steps[n].StartTurn? then 1 else 0
  }

  /** The call was announced with this tool when its number was drawn, and told the version of that moment. */
  ghost predicate AnnouncedAt(steps: seq<Step>, budget: nat, i: nat, c: CallId, call: Call)
    requires Runs(Start(), steps, budget) && i < |steps|
  {
    RunsPrefix(steps, budget, i);
    && steps[i] == Invoke(call.tool) && c == Drawn(steps[..i]) + 1
    && call.readVersion == SuccessfulEdits(steps[..i], budget)
  }

  lemma {:induction false} RunsPrefix(steps: seq<Step>, budget: nat, i: nat)
    requires Runs(Start(), steps, budget) && i <= |steps|
    ensures Runs(Start(), steps[..i], budget)
  {
    if i == |steps| {
      assert steps[..i] == steps;
    } else {
      RunsPrefix(steps[..|steps| - 1], budget, i);
      assert steps[..|steps| - 1][..i] == steps[..i];
    }
  }

  lemma {:induction false} CounterIsDrawn(steps: seq<Step>, budget: nat)
    requires Runs(Start(), steps, budget)
    ensures Run(Start(), steps, budget).counter == Drawn(steps)
  {
    if steps != [] { CounterIsDrawn(steps[..|steps| - 1], budget); }
  }

  /** Every call is the one its number was drawn for, with the tool it was asked for and the version of that moment. */
  lemma {:induction false} CallsAreAnnounced(steps: seq<Step>, budget: nat, c: CallId) returns (i: nat)
    requires Runs(Start(), steps, budget) && c in Run(Start(), steps, budget).calls
    ensures i < |steps| && AnnouncedAt(steps, budget, i, c, Run(Start(), steps, budget).calls[c])
  {
    var n := |steps| - 1;
    var before := Run(Start(), steps[..n], budget);
    VersionCounts(steps[..n], budget);
    CounterIsDrawn(steps[..n], budget);
    if steps[n].Invoke? && c == before.counter + 1 {
      i := n;
    } else {
      i := CallsAreAnnounced(steps[..n], budget, c);
      assert steps[..n][..i] == steps[..i];
    }
  }

  /** The stage of a call tells how it was answered. */
  lemma {:induction false} AnsweredExactly(steps: seq<Step>, budget: nat, c: CallId, success: bool)
    requires Runs(Start(), steps, budget)
    ensures var s := Run(Start(), steps, budget);
            (c in s.calls && s.calls[c].stage == Answered(success)) <==> Answer(c, success) in steps
  {
    if steps != [] {
      var n := |steps| - 1;
      AnsweredExactly(steps[..n], budget, c, success);
      RunKeepsInv(steps[..n], budget);
      assert steps == steps[..n] + [steps[n]];
    }
  }

  /** The patch of a call is handed over once when it is a successful `submit_patch`, and never otherwise. */
  lemma PatchesAreSubmitted(steps: seq<Step>, budget: nat, c: CallId)
    requires Runs(Start(), steps, budget)
    ensures
      var s := Run(Start(), steps, budget);
      Handed(s)[SubmittedPatch(c)]
      == if Answer(c, true) in steps && c in s.calls && s.calls[c].tool.SubmitPatch? then 1 else 0
  {
    RunKeepsInv(steps, budget);
    AnsweredExactly(steps, budget, c, true);
    assert CallFine(Run(Start(), steps, budget), c);
  }

  function CountedTurns(steps: seq<Step>): nat {
    if steps == [] then 0
    else
      var n := |steps| - 1;
      CountedTurns(steps[..n]) + if steps[n].CountTurn? then 1 else 0
  }

  /** Step `i` opened the turn, none was opened or ended since, and the turn carries the numbers of that moment. */
  predicate OpenedAt(steps: seq<Step>, i: nat, turn: Active)
    requires i < |steps|
  {
    && steps[i].StartTurn? && turn.action == Drawn(steps[..i]) + 1 && turn.turn == CountedTurns(steps[..i])
    && forall j :: i < j < |steps| ==> !steps[j].StartTurn? && !steps[j].EndTurn?
  }

  /** An open turn is the last one started; there is none once it ended. */
  lemma {:induction false} OpenTurnIsLast(steps: seq<Step>, budget: nat)
    requires Runs(Start(), steps, budget)
    ensures
      var s := Run(Start(), steps, budget);
      && s.counter == Drawn(steps) && s.turnCount == CountedTurns(steps)
      && match s.active
         case Some(turn) => exists i :: 0 <= i < |steps| && OpenedAt(steps, i, turn)
         case None => forall i :: 0 <= i < |steps| && steps[i].StartTurn? ==>
                        exists j :: i < j < |steps| && steps[j].EndTurn?
  {
    if steps != [] {
      var n := |steps| - 1;
      var before, s := Run(Start(), steps[..n], budget), Run(Start(), steps, budget);
      OpenTurnIsLast(steps[..n], budget);
      if steps[n].StartTurn? {
        assert OpenedAt(steps, n, s.active.value);
      } else if steps[n].EndTurn? {
        assert forall i :: 0 <= i < |steps| && steps[i].StartTurn? ==> i < n && steps[n].EndTurn?;
      } else if before.active.Some? {
        var i :| 0 <= i < n && OpenedAt(steps[..n], i, before.active.value);
        assert steps[..n][..i] == steps[..i];
        assert OpenedAt(steps, i, s.active.value);
      } else {
        forall i | 0 <= i < |steps| && steps[i].StartTurn?
          ensures exists j :: i < j < |steps| && steps[j].EndTurn?
        {
          assert steps[..n][i].StartTurn?;
          var j :| i < j < n && steps[..n][j].EndTurn?;
          assert steps[j].EndTurn?;
        }
      }
    }
  }

  // ---------- the order in which artifacts are handed over ----------

  function Concatenated(turns: seq<seq<Artifact>>): seq<Artifact> {
    if turns == [] then [] else Concatenated(turns[..|turns| - 1]) + turns[|turns| - 1]
  }

  /**
   What the calls produce, in the order of their answers: an observation each, and after it the version of a
   successful edit or the patch.  An exploration beyond the budget is answered when it is dispatched.
   */
  function Produced(steps: seq<Step>, budget: nat): seq<Artifact>
    requires Runs(Start(), steps, budget)
  {
    if steps == [] then []
    else
      var n := |steps| - 1;
      var s := Run(Start(), steps[..n], budget);
      Produced(steps[..n], budget)
      + match steps[n]
        case Answer(c, true) =>
          (match s.calls[c].tool
           case EditFile => [Observation(c), Version(SuccessfulEdits(steps, budget))]
           case ApplyPatch => [Observation(c), Version(SuccessfulEdits(steps, budget))]
           case SubmitPatch => [Observation(c), SubmittedPatch(c)]
           case _ => [Observation(c)])
        case Answer(c, false) => [Observation(c)]
        case Dispatch(c) =>
          if Explores(s.calls[c].tool) && AskedExplorations(steps, budget) > budget then [Observation(c)] else []
        case _ => []
  }

  /** The turns one after the other, and then what is pending, are all that was produced, in order. */
  lemma {:induction false} TurnsTakeInOrder(steps: seq<Step>, budget: nat)
    requires Runs(Start(), steps, budget)
    ensures var s := Run(Start(), steps, budget);
            Concatenated(s.turns) + s.pending == Produced(steps, budget)
  {
    if steps != [] {
      var n := |steps| - 1;
      var before, s := Run(Start(), steps[..n], budget), Run(Start(), steps, budget);
      TurnsTakeInOrder(steps[..n], budget);
      VersionCounts(steps, budget);
      BudgetHolds(steps, budget);
      if steps[n].StartTurn? {
        assert s.turns[..|s.turns| - 1] == before.turns;
      } else {
        assert s.turns == before.turns;
      }
    }
  }
}
