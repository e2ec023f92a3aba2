/**
 The resumable sweep: cells that the log lists as completed are skipped, every other cell of the grid appends
 one row.  A pass may fail in any cell and may stop between any two rows.
 */
module SweepLog {
  import opened Options

  datatype Key = Key(task: string, workflow: string, world: string, repeat: nat, warmup: bool)
  datatype Row = Row(key: Key, series: string, completed: bool)

  /** What happens to the cells that are run, in order; the pass stops where the list ends. */
  datatype Outcome = Success | Failure

  // ---------- the log ----------

  /** The cells of a series that the log lists as completed. */
  function CompletedKeys(log: seq<Row>, series: string): set<Key> {
    if log == [] then {}
    else
      var row := log[|log| - 1];
      CompletedKeys(log[..|log| - 1], series) + if row.completed && row.series == series then {row.key} else {}
  }

  function CompletedRows(log: seq<Row>, series: string, key: Key): nat {
    if log == [] then 0
    else
      var row := log[|log| - 1];
      CompletedRows(log[..|log| - 1], series, key) + if row == Row(key, series, true) then 1 else 0
  }

  method ReadCompletedKeys(log: seq<Row>, series: string) returns (completed: set<Key>)
    ensures completed == CompletedKeys(log, series)
  {
    completed := {};
    for i := 0 to |log|
      invariant completed == CompletedKeys(log[..i], series)
    {
      assert log[..i + 1][..i] == log[..i];
      if !log[i].completed { continue; }
      if log[i].series != series { continue; }
      completed := completed + {log[i].key};
    }
    assert log[..|log|] == log;
  }

  lemma {:induction false} CompletedMeansRow(log: seq<Row>, series: string, key: Key)
    ensures key in CompletedKeys(log, series) <==> CompletedRows(log, series, key) > 0
  {
    if log != [] { CompletedMeansRow(log[..|log| - 1], series, key); }
  }

  /** No cell of the series is completed twice. */
  ghost predicate AtMostOnce(log: seq<Row>, series: string) {
    forall key :: CompletedRows(log, series, key) <= 1
  }

  lemma AppendRow(log: seq<Row>, row: Row, series: string)
    ensures CompletedKeys(log + [row], series) ==
            CompletedKeys(log, series) + if row.completed && row.series == series then {row.key} else {}
    ensures forall key ::
              CompletedRows(log + [row], series, key)
              == CompletedRows(log, series, key) + (if row == Row(key, series, true) then 1 else 0)
  {
  }

  // ---------- the grid ----------

  datatype Config = Config(tasks: seq<string>, worlds: seq<string>, workflows: seq<string>, repeats: nat,
                           warmupRuns: nat)

  function Repeats(repeats: nat): seq<(nat, bool)> {
    if repeats == 0 then [] else Repeats(repeats - 1) + [(repeats, false)]
  }

  /** One warm-up, then the measured repeats; any other number of warm-ups is refused. */
  function AttemptSchedule(repeats: nat, warmupRuns: nat): Option<seq<(nat, bool)>> {
    if warmupRuns != 1 then None else Some([(0, true)] + Repeats(repeats))
  }

  /** The attempts of a cell; none when the number of warm-ups is refused. */
  function Attempts(config: Config): seq<(nat, bool)> {
    var schedule := AttemptSchedule(config.repeats, config.warmupRuns);
    if schedule.Some? then schedule.value else []
  }

  /** The schedule is asked for in the loops only, so an empty grid is not refused. */
  predicate Refused(config: Config) {
    config.warmupRuns != 1 && config.tasks != [] && config.worlds != []
  }

  function WorkflowKeys(task: string, world: string, attempt: (nat, bool), workflows: seq<string>): seq<Key> {
    if workflows == [] then []
    else WorkflowKeys(task, world, attempt, workflows[..|workflows| - 1])
         + [Key(task, workflows[|workflows| - 1], world, attempt.0, attempt.1)]
  }

  function AttemptKeys(task: string, world: string, attempts: seq<(nat, bool)>, workflows: seq<string>): seq<Key> {
    if attempts == [] then []
    else AttemptKeys(task, world, attempts[..|attempts| - 1], workflows)
         + WorkflowKeys(task, world, attempts[|attempts| - 1], workflows)
  }

  function WorldKeys(task: string, worlds: seq<string>, attempts: seq<(nat, bool)>, workflows: seq<string>): seq<Key> {
    if worlds == [] then []
    else WorldKeys(task, worlds[..|worlds| - 1], attempts, workflows)
         + AttemptKeys(task, worlds[|worlds| - 1], attempts, workflows)
  }

  /** The cells in the order of the nested loops: tasks, worlds, attempts, workflows. */
  function Grid(tasks: seq<string>, worlds: seq<string>, attempts: seq<(nat, bool)>, workflows: seq<string>): seq<Key> {
    if tasks == [] then []
    else Grid(tasks[..|tasks| - 1], worlds, attempts, workflows)
         + WorldKeys(tasks[|tasks| - 1], worlds, attempts, workflows)
  }

  /** Exactly the combinations of a task, a world, an attempt and a workflow. */
  ghost predicate InGrid(key: Key, tasks: seq<string>, worlds: seq<string>, attempts: seq<(nat, bool)>,
                         workflows: seq<string>)
  {
    key.task in tasks && key.world in worlds && (key.repeat, key.warmup) in attempts && key.workflow in workflows
  }

  lemma {:induction false} WorkflowKeysAre(task: string, world: string, attempt: (nat, bool), workflows: seq<string>,
                                           key: Key)
    ensures key in WorkflowKeys(task, world, attempt, workflows) <==>
            key.task == task && key.world == world && (key.repeat, key.warmup) == attempt && key.workflow in workflows
  {
    if workflows != [] {
      var n := |workflows| - 1;
      WorkflowKeysAre(task, world, attempt, workflows[..n], key);
      assert workflows == workflows[..n] + [workflows[n]];
    }
  }

  lemma {:induction false} AttemptKeysAre(task: string, world: string, attempts: seq<(nat, bool)>,
                                          workflows: seq<string>, key: Key)
    ensures key in AttemptKeys(task, world, attempts, workflows) <==>
            key.task == task && key.world == world && (key.repeat, key.warmup) in attempts && key.workflow in workflows
  {
    if attempts != [] {
      var n := |attempts| - 1;
      AttemptKeysAre(task, world, attempts[..n], workflows, key);
      WorkflowKeysAre(task, world, attempts[n], workflows, key);
      assert attempts == attempts[..n] + [attempts[n]];
    }
  }

  lemma {:induction false} WorldKeysAre(task: string, worlds: seq<string>, attempts: seq<(nat, bool)>,
                                        workflows: seq<string>, key: Key)
    ensures key in WorldKeys(task, worlds, attempts, workflows) <==>
            key.task == task && key.world in worlds && (key.repeat, key.warmup) in attempts && key.workflow in workflows
  {
    if worlds != [] {
      var n := |worlds| - 1;
      WorldKeysAre(task, worlds[..n], attempts, workflows, key);
      AttemptKeysAre(task, worlds[n], attempts, workflows, key);
      assert worlds == worlds[..n] + [worlds[n]];
    }
  }

  lemma {:induction false} GridIs(tasks: seq<string>, worlds: seq<string>, attempts: seq<(nat, bool)>,
                                  workflows: seq<string>, key: Key)
    ensures key in Grid(tasks, worlds, attempts, workflows) <==> InGrid(key, tasks, worlds, attempts, workflows)
  {
    if tasks != [] {
      var n := |tasks| - 1;
      GridIs(tasks[..n], worlds, attempts, workflows, key);
      WorldKeysAre(tasks[n], worlds, attempts, workflows, key);
      assert tasks == tasks[..n] + [tasks[n]];
    }
  }

  /** A configuration is refused exactly when some cell asks for the schedule and there is none. */
  lemma RefusedExactly(config: Config)
    ensures Refused(config) <==>
            && AttemptSchedule(config.repeats, config.warmupRuns).None?
            && exists task, world :: task in config.tasks && world in config.worlds
  {
    if Refused(config) { assert config.tasks[0] in config.tasks && config.worlds[0] in config.worlds; }
  }

  lemma Regroup(x: seq<Key>, y: seq<Key>, z: seq<Key>)
    ensures x + (y + z) == (x + y) + z
  {
  }

  lemma FrontAndLast<T>(a: seq<T>, b: seq<T>)
    requires b != []
    ensures (a + b)[..|a + b| - 1] == a + b[..|b| - 1] && (a + b)[|a + b| - 1] == b[|b| - 1]
  {
  }

  lemma {:induction false} WorkflowKeysSplit(task: string, world: string, attempt: (nat, bool), a: seq<string>,
                                             b: seq<string>)
    ensures WorkflowKeys(task, world, attempt, a + b)
         == WorkflowKeys(task, world, attempt, a) + WorkflowKeys(task, world, attempt, b)
  {
    if b == [] {
      assert a + b == a;
    } else {
      var n := |b| - 1;
      FrontAndLast(a, b);
      WorkflowKeysSplit(task, world, attempt, a, b[..n]);
      Regroup(WorkflowKeys(task, world, attempt, a), WorkflowKeys(task, world, attempt, b[..n]),
              [Key(task, b[n], world, attempt.0, attempt.1)]);
    }
  }

  lemma {:induction false} AttemptKeysSplit(task: string, world: string, a: seq<(nat, bool)>, b: seq<(nat, bool)>,
                                            workflows: seq<string>)
    ensures AttemptKeys(task, world, a + b, workflows)
         == AttemptKeys(task, world, a, workflows) + AttemptKeys(task, world, b, workflows)
  {
    if b == [] {
      assert a + b == a;
    } else {
      var n := |b| - 1;
      FrontAndLast(a, b);
      AttemptKeysSplit(task, world, a, b[..n], workflows);
      Regroup(AttemptKeys(task, world, a, workflows), AttemptKeys(task, world, b[..n], workflows),
              WorkflowKeys(task, world, b[n], workflows));
    }
  }

  lemma {:induction false} WorldKeysSplit(task: string, a: seq<string>, b: seq<string>, attempts: seq<(nat, bool)>,
                                          workflows: seq<string>)
    ensures WorldKeys(task, a + b, attempts, workflows)
         == WorldKeys(task, a, attempts, workflows) + WorldKeys(task, b, attempts, workflows)
  {
    if b == [] {
      assert a + b == a;
    } else {
      var n := |b| - 1;
      FrontAndLast(a, b);
      WorldKeysSplit(task, a, b[..n], attempts, workflows);
      Regroup(WorldKeys(task, a, attempts, workflows), WorldKeys(task, b[..n], attempts, workflows),
              AttemptKeys(task, b[n], attempts, workflows));
    }
  }

  /** Tasks come one after the other. */
  lemma {:induction false} GridOfTasks(a: seq<string>, b: seq<string>, worlds: seq<string>,
                                       attempts: seq<(nat, bool)>, workflows: seq<string>)
    ensures Grid(a + b, worlds, attempts, workflows)
         == Grid(a, worlds, attempts, workflows) + Grid(b, worlds, attempts, workflows)
  {
    if b == [] {
      assert a + b == a;
    } else {
      var n := |b| - 1;
      FrontAndLast(a, b);
      GridOfTasks(a, b[..n], worlds, attempts, workflows);
      Regroup(Grid(a, worlds, attempts, workflows), Grid(b[..n], worlds, attempts, workflows),
              WorldKeys(b[n], worlds, attempts, workflows));
    }
  }

  /**
   For one task the worlds come one after the other, for one world the attempts, for one attempt the workflows; and
   one of each makes one cell.  Together with `GridOfTasks` this is the order of every grid.
   */
  lemma GridOrder(task: string, world: string, attempt: (nat, bool), workflow: string, worlds: (seq<string>,
                  seq<string>),
                  attempts: (seq<(nat, bool)>, seq<(nat, bool)>), workflows: (seq<string>, seq<string>))
    ensures Grid([task], worlds.0 + worlds.1, attempts.0, workflows.0)
         == Grid([task], worlds.0, attempts.0, workflows.0) + Grid([task], worlds.1, attempts.0, workflows.0)
    ensures Grid([task], [world], attempts.0 + attempts.1, workflows.0)
         == Grid([task], [world], attempts.0, workflows.0) + Grid([task], [world], attempts.1, workflows.0)
    ensures Grid([task], [world], [attempt], workflows.0 + workflows.1)
         == Grid([task], [world], [attempt], workflows.0) + Grid([task], [world], [attempt], workflows.1)
    ensures Grid([task], [world], [attempt], [workflow]) == [Key(task, workflow, world, attempt.0, attempt.1)]
  {
    OneTask(task, worlds.0 + worlds.1, attempts.0, workflows.0);
    OneTask(task, worlds.0, attempts.0, workflows.0);
    OneTask(task, worlds.1, attempts.0, workflows.0);
    WorldKeysSplit(task, worlds.0, worlds.1, attempts.0, workflows.0);
    OneWorld(task, world, attempts.0 + attempts.1, workflows.0);
    OneWorld(task, world, attempts.0, workflows.0);
    OneWorld(task, world, attempts.1, workflows.0);
    AttemptKeysSplit(task, world, attempts.0, attempts.1, workflows.0);
    OneAttempt(task, world, attempt, workflows.0 + workflows.1);
    OneAttempt(task, world, attempt, workflows.0);
    OneAttempt(task, world, attempt, workflows.1);
    WorkflowKeysSplit(task, world, attempt, workflows.0, workflows.1);
    OneAttempt(task, world, attempt, [workflow]);
    assert [workflow][..0] == [];
  }

  lemma OneTask(task: string, worlds: seq<string>, attempts: seq<(nat, bool)>, workflows: seq<string>)
    ensures Grid([task], worlds, attempts, workflows) == WorldKeys(task, worlds, attempts, workflows)
  {
    assert [task][..0] == [];
  }

  lemma OneWorld(task: string, world: string, attempts: seq<(nat, bool)>, workflows: seq<string>)
    ensures Grid([task], [world], attempts, workflows) == AttemptKeys(task, world, attempts, workflows)
  {
    OneTask(task, [world], attempts, workflows);
    assert [world][..0] == [];
  }

  lemma OneAttempt(task: string, world: string, attempt: (nat, bool), workflows: seq<string>)
    ensures Grid([task], [world], [attempt], workflows) == WorkflowKeys(task, world, attempt, workflows)
  {
    OneWorld(task, world, [attempt], workflows);
    assert [attempt][..0] == [];
  }

  // ---------- one pass ----------

  /** The pass between two cells. */
  datatype Pass = Pass(log: seq<Row>, completed: set<Key>, outcomes: seq<Outcome>, stopped: bool, written: nat)

  function Visit(p: Pass, key: Key, series: string): Pass {
    if p.stopped || key in p.completed then p
    else if p.outcomes == [] then p.(stopped := true)
    else
      var success := p.outcomes[0].Success?;
      Pass(p.log + [Row(key, series, success)], if success then p.completed + {key} else p.completed,
           p.outcomes[1..], false, p.written + 1)
  }

  function VisitAll(p: Pass, keys: seq<Key>, series: string): Pass {
    if keys == [] then p else Visit(VisitAll(p, keys[..|keys| - 1], series), keys[|keys| - 1], series)
  }

  lemma {:induction false} VisitConcat(p: Pass, a: seq<Key>, b: seq<Key>, series: string)
    ensures VisitAll(p, a + b, series) == VisitAll(VisitAll(p, a, series), b, series)
  {
    if b == [] {
      assert a + b == a;
    } else {
      var n := |b| - 1;
      assert (a + b)[..|a + b| - 1] == a + b[..n];
      VisitConcat(p, a, b[..n], series);
    }
  }

  function Begin(log: seq<Row>, series: string, outcomes: seq<Outcome>): Pass {
    Pass(log, CompletedKeys(log, series), outcomes, false, 0)
  }

  class Sweep {
    const series: string
    var log: seq<Row>
    var completed: set<Key>
    var outcomes: seq<Outcome>
    var stopped: bool
    var written: nat

    constructor (series: string, log: seq<Row>)
      ensures this.series == series && this.log == log
    {
      this.series, this.log := series, log;
      completed, outcomes, stopped, written := {}, [], false, 0;
    }

    ghost function State(): Pass
      reads this
    {
      Pass(log, completed, outcomes, stopped, written)
    }

    /** Skip a completed cell, or run it and append its row. */
    method RunCell(key: Key)
      modifies this
      ensures State() == Visit(old(State()), key, series)
    {
      if stopped || key in completed { return; }
      if outcomes == [] {
        stopped := true;
        return;
      }
      var success := outcomes[0].Success?;
      outcomes := outcomes[1..];
      log := log + [Row(key, series, success)];
      if success { completed := completed + {key}; }
      written := written + 1;
    }

    /** The loops over worlds, attempts and workflows for one task; each world asks for the schedule. */
    method RunTask(task: string, config: Config) returns (accepted: bool)
      modifies this
      ensures accepted <==> config.warmupRuns == 1 || config.worlds == []
      ensures !accepted ==> State() == old(State())
      ensures accepted ==>
        State() == VisitAll(old(State()), WorldKeys(task, config.worlds, Attempts(config), config.workflows), series)
    {
      var worlds, workflows := config.worlds, config.workflows;
      ghost var attempts := Attempts(config);
      for i := 0 to |worlds|
        invariant 0 < i ==> config.warmupRuns == 1
        invariant State() == VisitAll(old(State()), WorldKeys(task, worlds[..i], attempts, workflows), series)
      {
        assert worlds[..i + 1][..i] == worlds[..i];
        var schedule := AttemptSchedule(config.repeats, config.warmupRuns);
        if schedule.None? { return false; }
        RunWorld(task, worlds[i], schedule.value, workflows);
        VisitConcat(old(State()), WorldKeys(task, worlds[..i], attempts, workflows),
                    AttemptKeys(task, worlds[i], attempts, workflows), series);
      }
      assert worlds[..|worlds|] == worlds;
      accepted := true;
    }

    method RunWorld(task: string, world: string, attempts: seq<(nat, bool)>, workflows: seq<string>)
      modifies this
      ensures State() == VisitAll(old(State()), AttemptKeys(task, world, attempts, workflows), series)
    {
      for i := 0 to |attempts|
        invariant State() == VisitAll(old(State()), AttemptKeys(task, world, attempts[..i], workflows), series)
      {
        assert attempts[..i + 1][..i] == attempts[..i];
        RunAttempt(task, world, attempts[i], workflows);
        VisitConcat(old(State()), AttemptKeys(task, world, attempts[..i], workflows),
                    WorkflowKeys(task, world, attempts[i], workflows), series);
      }
      assert attempts[..|attempts|] == attempts;
    }

    method RunAttempt(task: string, world: string, attempt: (nat, bool), workflows: seq<string>)
      modifies this
      ensures State() == VisitAll(old(State()), WorkflowKeys(task, world, attempt, workflows), series)
    {
      for i := 0 to |workflows|
        invariant State() == VisitAll(old(State()), WorkflowKeys(task, world, attempt, workflows[..i]), series)
      {
        assert workflows[..i + 1][..i] == workflows[..i];
        var key := Key(task, workflows[i], world, attempt.0, attempt.1);
        var before := WorkflowKeys(task, world, attempt, workflows[..i]);
        assert (before + [key])[..|before|] == before;
        RunCell(key);
      }
      assert workflows[..|workflows|] == workflows;
    }

    /** A pass from the log as it is; `None` stands for the refused number of warm-ups. */
    method RunPass(config: Config, outcomes: seq<Outcome>) returns (newRows: Option<nat>)
      modifies this
      ensures newRows.None? <==> Refused(config)
      ensures newRows.None? ==> log == old(log)
      ensures newRows.Some? ==>
        && State() == PassOver(old(log), config, series, outcomes)
        && newRows.value == State().written
    {
      completed := ReadCompletedKeys(log, series);
      this.outcomes, stopped, written := outcomes, false, 0;
      ghost var begin, attempts := State(), Attempts(config);
      for i := 0 to |config.tasks|
        invariant 0 < i ==> config.warmupRuns == 1 || config.worlds == []
        invariant State() == VisitAll(begin, Grid(config.tasks[..i], config.worlds, attempts, config.workflows), series)
      {
        assert config.tasks[..i + 1][..i] == config.tasks[..i];
        var accepted := RunTask(config.tasks[i], config);
        if !accepted {
          assert i == 0;
          return None;
        }
        VisitConcat(begin, Grid(config.tasks[..i], config.worlds, attempts, config.workflows),
                    WorldKeys(config.tasks[i], config.worlds, attempts, config.workflows), series);
      }
      assert config.tasks[..|config.tasks|] == config.tasks;
      newRows := Some(written);
    }
  }

  function Cells(config: Config): seq<Key> {
    Grid(config.tasks, config.worlds, Attempts(config), config.workflows)
  }

  function PassOver(log: seq<Row>, config: Config, series: string, outcomes: seq<Outcome>): Pass {
    VisitAll(Begin(log, series, outcomes), Cells(config), series)
  }

  // ---------- over restarts ----------

  /** The cells in memory are those of the log, each completed once. */
  ghost predicate Consistent(p: Pass, series: string) {
    p.completed == CompletedKeys(p.log, series) && AtMostOnce(p.log, series)
  }

  lemma VisitConsistent(p: Pass, key: Key, series: string)
    requires Consistent(p, series)
    ensures Consistent(Visit(p, key, series), series)
  {
    CompletedMeansRow(p.log, series, key);
    if !p.stopped && key !in p.completed && p.outcomes != [] {
      AppendRow(p.log, Row(key, series, p.outcomes[0].Success?), series);
    }
  }

  lemma {:induction false} VisitAllConsistent(p: Pass, keys: seq<Key>, series: string)
    requires Consistent(p, series)
    ensures Consistent(VisitAll(p, keys, series), series)
  {
    if keys != [] {
      VisitAllConsistent(p, keys[..|keys| - 1], series);
      VisitConsistent(VisitAll(p, keys[..|keys| - 1], series), keys[|keys| - 1], series);
    }
  }

  /** One start of the sweep: its configuration, series and outcomes. */
  datatype Launch = Launch(config: Config, series: string, outcomes: seq<Outcome>)

  function LogAfter(log: seq<Row>, launch: Launch): seq<Row> {
    if Refused(launch.config) then log
    else PassOver(log, launch.config, launch.series, launch.outcomes).log
  }

  function LogAfterAll(log: seq<Row>, launches: seq<Launch>): seq<Row> {
    if launches == [] then log
    else LogAfter(LogAfterAll(log, launches[..|launches| - 1]), launches[|launches| - 1])
  }

  /** A pass of another series adds no completed row to this one. */
  lemma {:induction false} VisitOtherSeries(p: Pass, keys: seq<Key>, series: string, other: string)
    requires series != other
    ensures forall key :: CompletedRows(VisitAll(p, keys, other).log, series, key) == CompletedRows(p.log, series, key)
  {
    if keys != [] {
      var q := VisitAll(p, keys[..|keys| - 1], other);
      VisitOtherSeries(p, keys[..|keys| - 1], series, other);
      if q.outcomes != [] { AppendRow(q.log, Row(keys[|keys| - 1], other, q.outcomes[0].Success?), series); }
    }
  }

  /**
   Over any sequence of restarts with any configurations, failures and stops, the log never holds two completed
   rows for one cell of a series.
   */
  lemma {:induction false} RestartsCompleteOnce(log: seq<Row>, launches: seq<Launch>, series: string)
    requires AtMostOnce(log, series)
    ensures AtMostOnce(LogAfterAll(log, launches), series)
  {
    if launches != [] {
      var n := |launches| - 1;
      var before, launch := LogAfterAll(log, launches[..n]), launches[n];
      RestartsCompleteOnce(log, launches[..n], series);
      if !Refused(launch.config) {
        var begin := Begin(before, launch.series, launch.outcomes);
        if launch.series == series {
          VisitAllConsistent(begin, Cells(launch.config), series);
        } else {
          VisitOtherSeries(begin, Cells(launch.config), series, launch.series);
        }
      }
    }
  }

  /** Rows are only appended. */
  lemma {:induction false} VisitAppends(p: Pass, keys: seq<Key>, series: string)
    ensures p.log <= VisitAll(p, keys, series).log
    ensures |VisitAll(p, keys, series).log| - |p.log| == VisitAll(p, keys, series).written - p.written
  {
    if keys != [] { VisitAppends(p, keys[..|keys| - 1], series); }
  }

  // ---------- a pass without failures ----------

  ghost predicate Enough(p: Pass, n: nat) {
    !p.stopped && |p.outcomes| >= n && forall o <- p.outcomes :: o.Success?
  }

  lemma {:induction false} SuccessCompletes(p: Pass, keys: seq<Key>, series: string)
    requires Enough(p, |keys|)
    ensures !VisitAll(p, keys, series).stopped
    ensures |VisitAll(p, keys, series).outcomes| >= |p.outcomes| - |keys|
    ensures forall o <- VisitAll(p, keys, series).outcomes :: o.Success?
    ensures forall key :: key in VisitAll(p, keys, series).completed <==> key in p.completed || key in keys
  {
    if keys != [] {
      var n := |keys| - 1;
      SuccessCompletes(p, keys[..n], series);
      assert keys == keys[..n] + [keys[n]];
    }
  }

  /** Without failures and stops, one pass over any log completes every cell of the grid, once each. */
  lemma FaultFreePassCompletes(log: seq<Row>, config: Config, series: string, outcomes: seq<Outcome>, key: Key)
    requires config.warmupRuns == 1 && AtMostOnce(log, series)
    requires |outcomes| >= |Cells(config)| && forall o <- outcomes :: o.Success?
    ensures
      var after := PassOver(log, config, series, outcomes).log;
      var inGrid := InGrid(key, config.tasks, config.worlds, [(0, true)] + Repeats(config.repeats), config.workflows);
      && (inGrid ==> CompletedRows(after, series, key) == 1)
      && (!inGrid ==> CompletedRows(after, series, key) == CompletedRows(log, series, key))
  {
    var begin, end := Begin(log, series, outcomes), PassOver(log, config, series, outcomes);
    SuccessCompletes(begin, Cells(config), series);
    VisitAllConsistent(begin, Cells(config), series);
    GridIs(config.tasks, config.worlds, [(0, true)] + Repeats(config.repeats), config.workflows, key);
    CompletedMeansRow(end.log, series, key);
    CompletedMeansRow(log, series, key);
  }

  lemma {:induction false} RepeatsAre(repeats: nat, attempt: (nat, bool))
    ensures attempt in Repeats(repeats) <==> 1 <= attempt.0 <= repeats && !attempt.1
  {
    if repeats > 0 { RepeatsAre(repeats - 1, attempt); }
  }

  /** The attempts are one warm-up numbered 0 and the repeats 1 to n. */
  lemma ScheduleIs(repeats: nat, warmupRuns: nat, attempt: (nat, bool))
    ensures AttemptSchedule(repeats, warmupRuns).Some? <==> warmupRuns == 1
    ensures warmupRuns == 1 ==>
              (attempt in AttemptSchedule(repeats, warmupRuns).value <==>
               attempt == (0, true) || (1 <= attempt.0 <= repeats && !attempt.1))
  {
    RepeatsAre(repeats, attempt);
  }

  // ---------- a second pass does nothing ----------

  lemma {:induction false} SkipsCompleted(p: Pass, keys: seq<Key>, series: string)
    requires forall key <- keys :: key in p.completed
    ensures VisitAll(p, keys, series) == p
  {
    if keys != [] {
      var n := |keys| - 1;
      assert keys == keys[..n] + [keys[n]];
      SkipsCompleted(p, keys[..n], series);
    }
  }

  /** After a pass without failures a restart writes nothing. */
  lemma SecondPassWritesNothing(log: seq<Row>, config: Config, series: string, outcomes: seq<Outcome>,
                                more: seq<Outcome>)
    requires config.warmupRuns == 1 && AtMostOnce(log, series)
    requires |outcomes| >= |Cells(config)| && forall o <- outcomes :: o.Success?
    ensures
      var after := PassOver(log, config, series, outcomes).log;
      PassOver(after, config, series, more).log == after && PassOver(after, config, series, more).written == 0
  {
    var begin, end := Begin(log, series, outcomes), PassOver(log, config, series, outcomes);
    SuccessCompletes(begin, Cells(config), series);
    VisitAllConsistent(begin, Cells(config), series);
    SkipsCompleted(Begin(end.log, series, more), Cells(config), series);
  }
}
