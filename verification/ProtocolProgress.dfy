/**
 Progress of the transfer protocol: while an action is unfinished some action can take a step of its own that is no
 failure, and from every reachable state all submitted actions can finish.
 */
module ProtocolProgress {
  import opened Options
  import opened Protocol
  import opened ProtocolInvariant
  import opened ProtocolSteps
  import opened ProtocolSafety
  import opened ProtocolShape
  import opened FaultFree

  // ---------- the next step ----------

  /** The next step of an action that does not wait for a held lock; its pull delivers the whole artifact. */
  function OwnStep(s: State, a: ActionId): Step
    requires ValidIndices(s, a)
  {
    match PhaseOf(s, a)
    case Localize(i) => if i < |s.tasks[a].inputs| then CheckLocal(a) else StartExecution(a)
    case Waiting(_) => Acquire(a)
    case Announcing(_, _) => RecordStart(a)
    case Pulling(_, _) => FindFile(a)
    case Fetching(_, _) =>
      var x := CurrentKey(s, a).artifact;
      WriteFile(a, if x in s.sizes then s.sizes[x] else 0)
    case Verifying(_, _, _) => CheckSize(a)
    case Returned(_, _, _) => ListLocation(a)
    case Finishing(_, _, _) => RecordEnd(a)
    case Aborting(_, _) => RecordAbort(a)
    case Running => Execute(a, [])
    case Ending => RecordExecution(a)
    case Failing => RecordFailure(a)
    case Announced(_) => RecordCreated(a)
    case Failed => RecordCreated(a)
  }

  /** A step of an unfinished action that is neither a failure nor the planner's. */
  ghost predicate Progresses(s: State, step: Step) {
    && Enabled(s, step) && Acts(step) && !step.PullFails? && !step.ExecutionFails?
    && step.a in s.tasks && !Finished(s.tasks[step.a])
  }

  lemma OwnStepEnabled(s: State, a: ActionId)
    requires TaskOk(s, a) && !Finished(s.tasks[a])
    requires PhaseOf(s, a).Waiting? ==> s.locks[CurrentKey(s, a)].None?
    ensures Progresses(s, OwnStep(s, a)) && OwnStep(s, a).a == a
  {
    if PhaseOf(s, a).Running? {
      var t := s.tasks[a];
      forall j | 0 <= j < |t.inputs|
        ensures Key(s.refs[t.inputs[j]].id, t.worker) in s.stores
      {
        assert HasCopy(s, Key(s.refs[t.inputs[j]].id, t.worker));
      }
    }
  }

  /** The action that moves: the unfinished one itself, or the holder of the lock it waits for. */
  lemma Mover(s: State, a: ActionId) returns (b: ActionId)
    requires Inv(s) && a in s.tasks && !Finished(s.tasks[a])
    ensures TaskOk(s, b) && !Finished(s.tasks[b])
    ensures PhaseOf(s, b).Waiting? ==> s.locks[CurrentKey(s, b)].None?
  {
    assert TaskOk(s, a);
    b := a;
    if PhaseOf(s, a).Waiting? && s.locks[CurrentKey(s, a)].Some? {
      b := s.locks[CurrentKey(s, a)].value;
      assert Holds(s, b, CurrentKey(s, a)) && TaskOk(s, b);
    }
  }

  /** While some action is unfinished, some unfinished action has a step of its own that is no failure. */
  lemma NoDeadlock(s: State, a: ActionId) returns (step: Step)
    requires Inv(s) && a in s.tasks && !Finished(s.tasks[a])
    ensures Progresses(s, step)
  {
    var b := Mover(s, a);
    OwnStepEnabled(s, b);
    step := OwnStep(s, b);
  }

  /** In a run without failures that step also delivers whole artifacts. */
  lemma NoDeadlockWithoutFailure(s: State, a: ActionId) returns (step: Step)
    requires Inv(s) && Fine(s) && a in s.tasks && !Finished(s.tasks[a])
    ensures Progresses(s, step) && Benign(s, step)
  {
    var b := Mover(s, a);
    OwnStepEnabled(s, b);
    step := OwnStep(s, b);
    OwnStepBenign(s, b);
  }

  // ---------- how much is left to do ----------

  function Left(n: nat, i: nat): nat {
    if i < n then n - i else 0
  }

  /** What an action still does up to the end of its Worker call, whatever fails. */
  function Before(t: Task): nat {
    var n := |t.inputs|;
    match t.phase
    case Localize(i) => 9 * Left(n, i) + 3
    case Waiting(i) => 9 * Left(n, i) + 2
    case Announcing(i, _) => 9 * Left(n, i) + 1
    case Pulling(i, _) => 9 * Left(n, i)
    case Fetching(i, _) => if i < n then 9 * Left(n, i) - 1 else 0
    case Verifying(i, _, _) => if i < n then 9 * Left(n, i) - 2 else 0
    case Returned(i, _, _) => if i < n then 9 * Left(n, i) - 3 else 0
    case Finishing(i, _, _) => if i < n then 9 * Left(n, i) - 4 else 0
    case Aborting(_, _) => 1
    case Running => 2
    case Ending => 0
    case Failing => 0
    case Announced(_) => 0
    case Failed => 0
  }

  /** What it still records after the call, which may have returned any number of outputs. */
  function After(t: Task): nat {
    if t.phase.Ending? then |t.outputs| + 1
    else if t.phase.Failing? then 1
    else if t.phase.Announced? then Left(|t.outputs|, t.phase.j)
    else 0
  }

  lemma WorkShrinks(t: Task, step: Step, t': Task)
    requires Acts(step) && Advances(step, t.phase, t'.phase) && t'.inputs == t.inputs
    requires !step.Execute? ==> t'.outputs == t.outputs
    requires InTransfer(t.phase) || step.CheckLocal? ==> t.phase.i < |t.inputs|
    requires step.RecordCreated? ==> t.phase.j < |t.outputs|
    ensures Before(t') < Before(t) || (Before(t') == Before(t) && After(t') < After(t))
  {
  }

  ghost function Total(work: Task -> nat, tasks: map<ActionId, Task>): nat
    decreases |tasks|
  {
    if tasks == map[] then 0
    else
      var a :| a in tasks;
      work(tasks[a]) + Total(work, tasks - {a})
  }

  lemma {:induction false} TotalSplits(work: Task -> nat, tasks: map<ActionId, Task>, a: ActionId)
    requires a in tasks
    ensures Total(work, tasks) == work(tasks[a]) + Total(work, tasks - {a})
    decreases |tasks|
  {
    var b :| b in tasks && Total(work, tasks) == work(tasks[b]) + Total(work, tasks - {b});
    if a != b {
      TotalSplits(work, tasks - {b}, a);
      TotalSplits(work, tasks - {a}, b);
      assert tasks - {b} - {a} == tasks - {a} - {b};
    }
  }

  lemma TotalAfterChange(work: Task -> nat, tasks: map<ActionId, Task>, a: ActionId, t: Task)
    requires a in tasks
    ensures Total(work, tasks[a := t]) - work(t) == Total(work, tasks) - work(tasks[a])
  {
    TotalSplits(work, tasks, a);
    TotalSplits(work, tasks[a := t], a);
    assert tasks[a := t] - {a} == tasks - {a};
  }

  /** Less is left to do: before the ends of the calls, or as much there and less after them. */
  ghost predicate LessLeft(tasks: map<ActionId, Task>, next: map<ActionId, Task>) {
    || Total(Before, next) < Total(Before, tasks)
    || (Total(Before, next) == Total(Before, tasks) && Total(After, next) < Total(After, tasks))
  }

  /** Every step of an action leaves less to do, failures included and whatever the Worker returns. */
  lemma ActLeavesLess(s: State, step: Step, s': State)
    requires Acts(step) && Shape(s, step, s')
    ensures LessLeft(s.tasks, s'.tasks)
  {
    var a := step.a;
    WorkShrinks(s.tasks[a], step, s'.tasks[a]);
    TotalAfterChange(Before, s.tasks, a, s'.tasks[a]);
    TotalAfterChange(After, s.tasks, a, s'.tasks[a]);
  }

  // ---------- all actions can finish ----------

  ghost predicate AllFinished(s: State) {
    forall a <- s.tasks :: Finished(s.tasks[a])
  }

  /** The same actions with what they were asked for, on the same artifacts. */
  ghost predicate SameJobs(s: State, t: State) {
    && Lasts(s, t) && t.tasks.Keys == s.tasks.Keys
    && forall a <- s.tasks ::
         && t.tasks[a].inputs == s.tasks[a].inputs && t.tasks[a].worker == s.tasks[a].worker
         && t.tasks[a].executor == s.tasks[a].executor
  }

  lemma ActKeepsJobs(s: State, step: Step, s': State)
    requires Acts(step) && Shape(s, step, s')
    ensures SameJobs(s, s')
  {
  }

  lemma OwnStepBenign(s: State, b: ActionId)
    requires Inv(s) && TaskOk(s, b) && Enabled(s, OwnStep(s, b))
    ensures Benign(s, OwnStep(s, b))
  {
    if PhaseOf(s, b).Fetching? { assert RefOk(s, s.refs[CurrentRef(s, b)]); }
  }

  lemma SameJobsTransitive(s: State, t: State, u: State)
    requires SameJobs(s, t) && SameJobs(t, u)
    ensures SameJobs(s, u)
  {
  }

  /** One action of its own brings the run closer to its end. */
  ghost predicate GoesOn(s: State, step: Step, next: State) {
    && Progresses(s, step) && next == Apply(s, step) && Inv(next) && SameJobs(s, next)
    && LessLeft(s.tasks, next.tasks)
    && (Fine(s) ==> Benign(s, step) && Fine(next))
  }

  lemma OwnStepGoesOn(s: State, a: ActionId) returns (step: Step, next: State)
    requires Inv(s) && a in s.tasks && !Finished(s.tasks[a])
    ensures GoesOn(s, step, next)
  {
    var b := Mover(s, a);
    OwnStepEnabled(s, b);
    step := OwnStep(s, b);
    next := Apply(s, step);
    StepShape(s, step);
    ActLeavesLess(s, step, next);
    ActKeepsJobs(s, step, next);
    StepKeepsInv(s, step);
    if Fine(s) {
      OwnStepBenign(s, b);
      StepFine(s, step);
    }
  }

  lemma StepFirst(s: State, step: Step, rest: seq<Step>)
    requires Enabled(s, step) && Runs(Apply(s, step), rest)
    ensures Runs(s, [step] + rest) && Run(s, [step] + rest) == Run(Apply(s, step), rest)
    ensures Benign(s, step) && BenignRun(Apply(s, step), rest) ==> BenignRun(s, [step] + rest)
  {
    assert ([step] + rest)[1..] == rest;
  }

  /** From every state that the invariant admits, its actions can all finish without a failing step. */
  lemma {:induction false} CanFinish(s: State) returns (steps: seq<Step>)
    requires Inv(s)
    ensures Runs(s, steps) && AllFinished(Run(s, steps)) && SameJobs(s, Run(s, steps))
    ensures forall step <- steps :: Acts(step) && !step.PullFails? && !step.ExecutionFails?
    ensures Fine(s) ==> BenignRun(s, steps)
    decreases Total(Before, s.tasks), Total(After, s.tasks)
  {
    if AllFinished(s) {
      steps := [];
    } else {
      var a :| a in s.tasks && !Finished(s.tasks[a]);
      var step, next := OwnStepGoesOn(s, a);
      var rest := CanFinish(next);
      StepFirst(s, step, rest);
      SameJobsTransitive(s, next, Run(next, rest));
      steps := [step] + rest;
    }
  }

  /** Whatever has happened in a run, failures included, all submitted actions can still finish. */
  lemma EveryRunCanFinish(s: State, steps: seq<Step>) returns (rest: seq<Step>)
    requires Initial(s) && Runs(s, steps)
    ensures Runs(s, steps + rest) && AllFinished(Run(s, steps + rest))
    ensures SameJobs(Run(s, steps), Run(s, steps + rest))
    ensures Fresh(s) && BenignRun(s, steps) ==> BenignRun(s, steps + rest)
  {
    InitialInv(s);
    RunKeepsInv(s, steps);
    if Fresh(s) && BenignRun(s, steps) {
      FreshFine(s);
      RunFine(s, steps);
    }
    rest := CanFinish(Run(s, steps));
    RunsOn(s, steps, rest);
  }

  lemma {:induction false} RunsOn(s: State, steps: seq<Step>, rest: seq<Step>)
    requires Runs(s, steps) && Runs(Run(s, steps), rest)
    ensures Runs(s, steps + rest) && Run(s, steps + rest) == Run(Run(s, steps), rest)
    ensures BenignRun(s, steps) && BenignRun(Run(s, steps), rest) ==> BenignRun(s, steps + rest)
    decreases steps
  {
    if steps == [] {
      assert steps + rest == rest;
    } else {
      assert (steps + rest)[1..] == steps[1..] + rest;
      RunsOn(Apply(s, steps[0]), steps[1..], rest);
    }
  }

  // ---------- every fair run finishes ----------

  /** Some action can take a step, be it a failure. */
  ghost predicate CanAct(s: State) {
    exists step :: Acts(step) && Enabled(s, step)
  }

  lemma FinishedCannotAct(s: State, step: Step)
    requires AllFinished(s) && Acts(step)
    ensures !Enabled(s, step)
  {
  }

  /** No action can take a step exactly when all are finished: no run gets stuck. */
  lemma StuckMeansFinished(s: State)
    requires Inv(s)
    ensures AllFinished(s) <==> !CanAct(s)
  {
    if AllFinished(s) {
      forall step | Acts(step)
        ensures !Enabled(s, step)
      {
        FinishedCannotAct(s, step);
      }
    } else {
      var a :| a in s.tasks && !Finished(s.tasks[a]);
      var step := NoDeadlock(s, a);
      assert Acts(step) && Enabled(s, step);
    }
  }

  /** An action moves, or the planner copies or merges a ref, or nothing happens. */
  ghost predicate Moves(s: State, step: Option<Step>, next: State) {
    if step.None? then next == s
    else Enabled(s, step.value) && !step.value.Submit? && next == Apply(s, step.value)
  }

  /** An infinite run without new requests; actions may fail at any time. */
  ghost predicate InfiniteRun(states: nat -> State, steps: nat -> Option<Step>) {
    Inv(states(0)) && forall k: nat :: Moves(states(k), steps(k), states(k + 1))
  }

  predicate IsAct(step: Option<Step>) {
    step.Some? && Acts(step.value)
  }

  ghost predicate ActsLater(steps: nat -> Option<Step>, k: nat) {
    exists m: nat :: m >= k && IsAct(steps(m))
  }

  /** Not all actions are kept from moving forever. */
  ghost predicate Fair(states: nat -> State, steps: nat -> Option<Step>) {
    forall k: nat :: CanAct(states(k)) ==> ActsLater(steps, k)
  }

  lemma {:induction false} AlwaysInv(states: nat -> State, steps: nat -> Option<Step>, k: nat)
    requires InfiniteRun(states, steps)
    ensures Inv(states(k))
  {
    if k > 0 {
      AlwaysInv(states, steps, k - 1);
      assert Moves(states(k - 1), steps(k - 1), states(k - 1 + 1));
      if steps(k - 1).Some? { StepKeepsInv(states(k - 1), steps(k - 1).value); }
    }
  }

  lemma MoveLeavesLess(s: State, step: Option<Step>, next: State)
    requires Moves(s, step, next)
    ensures if IsAct(step) then LessLeft(s.tasks, next.tasks) else next.tasks == s.tasks
  {
    if step.Some? {
      StepShape(s, step.value);
      if Acts(step.value) { ActLeavesLess(s, step.value, next); }
    }
  }

  lemma LessLeftTransitive(a: map<ActionId, Task>, b: map<ActionId, Task>, c: map<ActionId, Task>)
    requires LessLeft(a, b) && LessLeft(b, c)
    ensures LessLeft(a, c)
  {
  }

  lemma {:induction false} NeverMoreLeft(states: nat -> State, steps: nat -> Option<Step>, k: nat, m: nat)
    requires InfiniteRun(states, steps) && k <= m
    ensures states(m).tasks == states(k).tasks || LessLeft(states(k).tasks, states(m).tasks)
  {
    if k < m {
      var a, b, c := states(k).tasks, states(m - 1).tasks, states(m - 1 + 1).tasks;
      NeverMoreLeft(states, steps, k, m - 1);
      MoveLeavesLess(states(m - 1), steps(m - 1), states(m - 1 + 1));
      if LessLeft(a, b) && LessLeft(b, c) { LessLeftTransitive(a, b, c); }
    }
  }

  lemma {:induction false} SomeTimeFinished(states: nat -> State, steps: nat -> Option<Step>, k: nat) returns (n: nat)
    requires InfiniteRun(states, steps) && Fair(states, steps)
    ensures AllFinished(states(n))
    decreases Total(Before, states(k).tasks), Total(After, states(k).tasks)
  {
    AlwaysInv(states, steps, k);
    StuckMeansFinished(states(k));
    if AllFinished(states(k)) {
      n := k;
    } else {
      assert ActsLater(steps, k);
      var m: nat :| m >= k && IsAct(steps(m));
      NeverMoreLeft(states, steps, k, m);
      MoveLeavesLess(states(m), steps(m), states(m + 1));
      n := SomeTimeFinished(states, steps, m + 1);
    }
  }

  lemma {:induction false} StaysFinished(states: nat -> State, steps: nat -> Option<Step>, n: nat, k: nat)
    requires InfiniteRun(states, steps) && AllFinished(states(n)) && n <= k
    ensures AllFinished(states(k))
  {
    if n < k {
      StaysFinished(states, steps, n, k - 1);
      assert Moves(states(k - 1), steps(k - 1), states(k - 1 + 1));
      if IsAct(steps(k - 1)) { FinishedCannotAct(states(k - 1), steps(k - 1).value); }
      MoveLeavesLess(states(k - 1), steps(k - 1), states(k - 1 + 1));
    }
  }

  /** In every fair run without new requests, failures included, all actions finish, and stay so. */
  lemma EveryFairRunFinishes(states: nat -> State, steps: nat -> Option<Step>) returns (n: nat)
    requires InfiniteRun(states, steps) && Fair(states, steps)
    ensures forall k: nat :: k >= n ==> AllFinished(states(k))
  {
    n := SomeTimeFinished(states, steps, 0);
    forall k: nat | k >= n
      ensures AllFinished(states(k))
    {
      StaysFinished(states, steps, n, k);
    }
  }
}
