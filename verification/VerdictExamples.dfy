/**
 Runs on which the verdicts occur: complete, partial for a shared or an empty input, and no evidence at all.
 */
module VerdictExamples {
  import opened Options
  import opened Protocol
  import opened ProtocolSafety
  import opened ProtocolProgress
  import opened FaultFree
  import opened TraceRows
  import opened TraceTimes
  import opened TraceFacts
  import opened Lineage
  import opened EndToEnd
  import opened Verdict

  const HERE := "worker-0"
  const THERE := "worker-1"
  const TOOL := "worker-1:filter_records"
  const VIDEO := "artifact-0"

  /** Two Workers on two sites; only the second one runs the tool. */
  const SITES := Registry(map[HERE := "site-0", THERE := "site-1"], map[TOOL := "site-1"])

  /** The same Workers, and no site for the tool. */
  const NO_RULE := Registry(SITES.workerSites, map[])

  /** One artifact, stored on the first Worker. */
  function Stored(size: nat): State {
    State({HERE, THERE}, [Ref(VIDEO, [HERE])], map[Key(VIDEO, HERE) := size], map[], {}, map[], [],
          map[VIDEO := size], map[VIDEO := HERE])
  }

  function Job(a: ActionId): Step {
    Submit(a, [0], THERE, TOOL)
  }

  /** One or two actions that take the artifact on the second Worker. */
  function Jobs(both: bool): seq<Step> {
    if both then [Job("a"), Job("b")] else [Job("a")]
  }

  lemma StoredIsFresh(size: nat)
    ensures Fresh(Stored(size))
  {
  }

  ghost predicate Takes(s: State, a: ActionId) {
    && a in s.tasks && s.tasks[a].inputs == [0] && s.tasks[a].worker == THERE && s.tasks[a].executor == TOOL
  }

  /** The actions are those of the jobs, each with the artifact as its one input. */
  ghost predicate Taken(s: State, both: bool, size: nat) {
    && s.clients == {HERE, THERE}
    && 0 < |s.refs| && s.refs[0].id == VIDEO
    && VIDEO in s.sizes && s.sizes[VIDEO] == size && VIDEO in s.origins && s.origins[VIDEO] == HERE
    && s.tasks.Keys == (if both then {"a", "b"} else {"a"})
    && forall a <- s.tasks :: Takes(s, a)
  }

  lemma JobsAreTaken(size: nat, both: bool)
    ensures Runs(Stored(size), Jobs(both)) && BenignRun(Stored(size), Jobs(both))
    ensures Taken(Run(Stored(size), Jobs(both)), both, size)
  {
    var s := Stored(size);
    var one := Apply(s, Job("a"));
    assert Enabled(s, Job("a")) && one.tasks.Keys == {"a"};
    if both {
      var two := Apply(one, Job("b"));
      assert Jobs(both)[1..] == [Job("b")] && Jobs(both)[1..][1..] == [];
      assert two.tasks.Keys == {"a", "b"};
      assert Run(one, [Job("b")]) == two;
    } else {
      assert Jobs(both)[1..] == [];
    }
  }

  lemma FinishedExample(size: nat, both: bool) returns (steps: seq<Step>)
    ensures Runs(Stored(size), steps) && BenignRun(Stored(size), steps) && AllFinished(Run(Stored(size), steps))
    ensures Taken(Run(Stored(size), steps), both, size)
    ensures Fresh(Stored(size))
    ensures FinishedRun(Stored(size), steps, SITES) && AllPlaced(Run(Stored(size), steps), SITES)
    ensures FinishedRun(Stored(size), steps, NO_RULE) && !AllPlaced(Run(Stored(size), steps), NO_RULE)
  {
    var s, jobs := Stored(size), Jobs(both);
    JobsAreTaken(size, both);
    StoredIsFresh(size);
    var rest := EveryRunCanFinish(s, jobs);
    steps := jobs + rest;
    StaysTaken(Run(s, jobs), Run(s, steps), both, size);
    FaultFreeIsDone(s, steps);
    ToolIsPlaced(Run(s, steps), both, size);
  }

  lemma FaultFreeIsDone(s: State, steps: seq<Step>)
    requires Fresh(s) && EndedRun(s, steps) && BenignRun(s, steps)
    ensures forall a <- Run(s, steps).tasks :: Done(Run(s, steps), a)
  {
    RunIsComplete(s, steps);
    FaultFreeRunIsFine(s, steps);
    FineActionsAreDone(Run(s, steps), s.origins.Keys);
  }

  lemma StaysTaken(s: State, t: State, both: bool, size: nat)
    requires Taken(s, both, size) && SameJobs(s, t)
    ensures Taken(t, both, size)
  {
  }

  lemma ToolIsPlaced(s: State, both: bool, size: nat)
    requires Taken(s, both, size) && Done(s, "a")
    ensures AllPlaced(s, SITES) && ExecutorsAgree(s, SITES)
    ensures !AllPlaced(s, NO_RULE) && ExecutorsAgree(s, NO_RULE)
  {
    assert !EndsWith(TOOL, ":sample_frames");
    assert Takes(s, "a") && PlaceOf(s, NO_RULE, "a").None?;
  }

  lemma TakerCrosses(s: State, both: bool, size: nat, a: ActionId)
    requires Taken(s, both, size) && a in s.tasks && ValidIndices(s, a)
    ensures Crosses(s, SITES, a, VIDEO)
    ensures forall x :: Needs(s, a, x) ==> x == VIDEO
  {
    assert Takes(s, a) && InputIds(s, s.tasks[a].inputs) == [VIDEO];
  }

  lemma SharedIsNotMovedOnce(s: State, size: nat)
    requires Taken(s, true, size) && forall a <- s.tasks :: ValidIndices(s, a)
    ensures !EachInputMovedOnce(s, SITES)
  {
    assert "a" in s.tasks && "b" in s.tasks;
    TakerCrosses(s, true, size, "a");
    TakerCrosses(s, true, size, "b");
    assert !Undivided(s, SITES, "a", VIDEO);
  }

  lemma SingleIsMovedOnce(s: State, size: nat)
    requires Taken(s, false, size) && forall a <- s.tasks :: ValidIndices(s, a)
    ensures EachInputMovedOnce(s, SITES) <==> size > 0
  {
    assert "a" in s.tasks;
    TakerCrosses(s, false, size, "a");
    assert Undivided(s, SITES, "a", VIDEO) <==> size > 0;
    forall a, x
      ensures size > 0 ==> Undivided(s, SITES, a, x)
    {
      if Needs(s, a, x) { assert a == "a" && x == VIDEO; }
    }
  }

  lemma FinishedIsValid(s: State, steps: seq<Step>)
    requires Fresh(s) && Runs(s, steps)
    ensures forall a <- Run(s, steps).tasks :: ValidIndices(Run(s, steps), a)
  {
    InitialInv(s);
    RunKeepsInv(s, steps);
    InvIsValid(Run(s, steps));
  }

  /** Two actions on one Worker share an input that has to be moved there: the trace is partial. */
  lemma SharedInputIsPartial(size: nat, initialSizes: map<ArtifactId, nat>) returns (steps: seq<Step>)
    ensures FinishedRun(Stored(size), steps, SITES) && Taken(Run(Stored(size), steps), true, size)
    ensures EvidenceFor(Run(Stored(size), steps).events, SITES, initialSizes, StartSites(Stored(size), SITES))
            == Some(Evidence(false, true, false))
  {
    steps := FinishedExample(size, true);
    assert "a" in Run(Stored(size), steps).tasks;
    FaultFreeVerdict(Stored(size), steps, SITES, initialSizes);
    FinishedIsValid(Stored(size), steps);
    SharedIsNotMovedOnce(Run(Stored(size), steps), size);
  }

  /** One action alone: its trace is complete exactly when its input is not empty. */
  lemma SingleInput(size: nat, initialSizes: map<ArtifactId, nat>) returns (steps: seq<Step>)
    ensures FinishedRun(Stored(size), steps, SITES) && Taken(Run(Stored(size), steps), false, size)
    ensures EvidenceFor(Run(Stored(size), steps).events, SITES, initialSizes, StartSites(Stored(size), SITES))
            == Some(Evidence(size > 0, true, size > 0))
  {
    steps := FinishedExample(size, false);
    assert "a" in Run(Stored(size), steps).tasks;
    FaultFreeVerdict(Stored(size), steps, SITES, initialSizes);
    FinishedIsValid(Stored(size), steps);
    SingleIsMovedOnce(Run(Stored(size), steps), size);
  }

  /** Without a site for the tool there is no evidence for either run. */
  lemma UnplacedToolRaises(size: nat, both: bool, initialSizes: map<ArtifactId, nat>) returns (steps: seq<Step>)
    ensures FinishedRun(Stored(size), steps, NO_RULE) && Taken(Run(Stored(size), steps), both, size)
    ensures EvidenceFor(Run(Stored(size), steps).events, NO_RULE, initialSizes, StartSites(Stored(size), NO_RULE)).None?
  {
    steps := FinishedExample(size, both);
    FaultFreeVerdict(Stored(size), steps, NO_RULE, initialSizes);
  }
}
