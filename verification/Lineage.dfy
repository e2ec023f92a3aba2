/**
 The lineage check of a realized trace, and what a complete verdict guarantees for any rows whatsoever.
 */
module Lineage {
  import opened Options
  import opened Protocol
  import opened TraceRows

  // ---------- the tables of the check ----------

  function Ids(executions: seq<ExecutionRow>): seq<ActionId> {
    if executions == [] then []
    else
      var n := |executions| - 1;
      var ids, a := Ids(executions[..n]), executions[n].action;
      if a in ids then ids else ids + [a]
  }

  /** Row of each action; the last one when there are several. */
  function ById(executions: seq<ExecutionRow>): map<ActionId, ExecutionRow> {
    if executions == [] then map[]
    else
      var n := |executions| - 1;
      ById(executions[..n])[executions[n].action := executions[n]]
  }

  function WithOutputs(made: map<ArtifactId, ActionId>, a: ActionId,
                       outputs: seq<ArtifactId>): map<ArtifactId, ActionId>
  {
    if outputs == [] then made
    else WithOutputs(made, a, outputs[..|outputs| - 1])[outputs[|outputs| - 1] := a]
  }

  /** The action that lists each artifact as an output; the last one in dictionary order. */
  function MadeBy(ids: seq<ActionId>, byId: map<ActionId, ExecutionRow>): map<ArtifactId, ActionId> {
    if ids == [] then map[]
    else
      var n := |ids| - 1;
      var made := MadeBy(ids[..n], byId);
      if ids[n] in byId then WithOutputs(made, ids[n], byId[ids[n]].outputs) else made
  }

  datatype View = View(
    ids: seq<ActionId>, byId: map<ActionId, ExecutionRow>, made: map<ArtifactId, ActionId>,
    served: map<Demand, TransferRow>, initial: map<ArtifactId, SiteId>)

  function ViewOf(executions: seq<ExecutionRow>, transfers: seq<TransferRow>, initial: map<ArtifactId, SiteId>): View {
    var ids, byId := Ids(executions), ById(executions);
    View(ids, byId, MadeBy(ids, byId), TransferFor(transfers), initial)
  }

  // ---------- the check ----------

  /** An input that was there from the start. */
  predicate InitialInputOk(v: View, row: ExecutionRow, a: ActionId, x: ArtifactId)
    requires x in v.initial
  {
    v.initial[x] != row.site ==>
      && Demand(a, x) in v.served
      && var t := v.served[Demand(a, x)];
      t.id in row.dependsOn && t.source == v.initial[x] && t.target == row.site
  }

  function SiteById(v: View, a: ActionId): Option<SiteId> {
    if a in v.byId then Some(v.byId[a].site) else None
  }

  /** An input that some action made. */
  predicate MadeInputOk(v: View, row: ExecutionRow, a: ActionId, x: ArtifactId) {
    && x in v.made
    && var producer := v.made[x];
    var producerSite := SiteById(v, producer);
    if Demand(a, x) in v.served then
      var t := v.served[Demand(a, x)];
      && t.producer == Some(producer) && t.id in row.dependsOn
      && Some(t.source) == producerSite && t.target == row.site
    else
      && producer in row.dependsOn
      && (producerSite.Some? ==> producerSite.value == row.site)
  }

  predicate InputOk(v: View, row: ExecutionRow, a: ActionId, x: ArtifactId) {
    if x in v.initial then InitialInputOk(v, row, a, x) else MadeInputOk(v, row, a, x)
  }

  predicate ActionOk(v: View, a: ActionId) {
    a in v.byId ==> forall x <- v.byId[a].inputs :: InputOk(v, v.byId[a], a, x)
  }

  predicate TransferOk(v: View, t: TransferRow) {
    && t.consumer.Some? && t.consumer.value in v.byId
    && var row := v.byId[t.consumer.value];
    && t.artifact in row.inputs && t.id in row.dependsOn
    && if t.artifact in v.initial then
         t.source == v.initial[t.artifact] && t.target == row.site
       else
         && t.producer.Some? && t.artifact in v.made && v.made[t.artifact] == t.producer.value
         && t.producer.value in t.dependsOn
  }

  predicate LineageComplete(v: View, transfers: seq<TransferRow>) {
    && (forall a <- v.ids :: ActionOk(v, a))
    && (forall t <- transfers :: TransferOk(v, t))
  }

  function KnownSpans(executions: seq<ExecutionRow>, transfers: seq<TransferRow>): set<string> {
    (set row <- executions :: row.action) + (set t <- transfers :: t.id)
  }

  predicate ReferencesComplete(executions: seq<ExecutionRow>, transfers: seq<TransferRow>) {
    var known := KnownSpans(executions, transfers);
    && (forall row <- executions :: forall d <- row.dependsOn :: d in known)
    && (forall t <- transfers :: forall d <- t.dependsOn :: d in known)
  }

  predicate DependenciesComplete(executions: seq<ExecutionRow>, transfers: seq<TransferRow>,
                                 initial: map<ArtifactId, SiteId>)
  {
    ReferencesComplete(executions, transfers) && LineageComplete(ViewOf(executions, transfers, initial), transfers)
  }

  predicate TimestampsComplete(executions: seq<ExecutionRow>, transfers: seq<TransferRow>) {
    && (forall row <- executions :: row.startedAt.Some? && row.finishedAt.Some?)
    && (forall t <- transfers :: t.startedAt.Some? && t.finishedAt.Some?)
  }

  /** The three evidence fields; true stands for "complete", false for "partial". */
  datatype Evidence = Evidence(dependencies: bool, timestamps: bool, coverage: bool)

  // ---------- the check as it runs ----------

  method IndexExecutions(executions: seq<ExecutionRow>) returns (ids: seq<ActionId>, byId: map<ActionId, ExecutionRow>)
    ensures ids == Ids(executions) && byId == ById(executions)
  {
    ids, byId := [], map[];
    for i := 0 to |executions|
      invariant ids == Ids(executions[..i]) && byId == ById(executions[..i])
    {
      assert executions[..i + 1][..i] == executions[..i];
      var row := executions[i];
      if row.action !in ids { ids := ids + [row.action]; }
      byId := byId[row.action := row];
    }
    assert executions[..|executions|] == executions;
  }

  method IndexOutputs(ids: seq<ActionId>, byId: map<ActionId, ExecutionRow>) returns (made: map<ArtifactId, ActionId>)
    requires forall a <- ids :: a in byId
    ensures made == MadeBy(ids, byId)
  {
    made := map[];
    for i := 0 to |ids|
      invariant made == MadeBy(ids[..i], byId)
    {
      assert ids[..i + 1][..i] == ids[..i];
      var outputs := byId[ids[i]].outputs;
      ghost var before := made;
      for j := 0 to |outputs|
        invariant made == WithOutputs(before, ids[i], outputs[..j])
      {
        assert outputs[..j + 1][..j] == outputs[..j];
        made := made[outputs[j] := ids[i]];
      }
      assert outputs[..|outputs|] == outputs;
    }
    assert ids[..|ids|] == ids;
  }

  lemma {:induction false} IdsAreIndexed(executions: seq<ExecutionRow>)
    ensures forall a :: a in Ids(executions) <==> a in ById(executions)
    ensures forall a <- ById(executions) :: ById(executions)[a] in executions && ById(executions)[a].action == a
    ensures forall row <- executions :: row.action in ById(executions)
  {
    if executions != [] {
      var n := |executions| - 1;
      IdsAreIndexed(executions[..n]);
      assert executions == executions[..n] + [executions[n]];
    }
  }

  method CheckInput(v: View, row: ExecutionRow, a: ActionId, x: ArtifactId) returns (ok: bool)
    ensures ok <==> InputOk(v, row, a, x)
  {
    var demand := Demand(a, x);
    if x in v.initial {
      var requiresTransfer := v.initial[x] != row.site;
      if requiresTransfer
         && (demand !in v.served
             || v.served[demand].id !in row.dependsOn
             || v.served[demand].source != v.initial[x]
             || v.served[demand].target != row.site) {
        return false;
      }
      return true;
    }
    var producer := if x in v.made then Some(v.made[x]) else None;
    var producerSite := if producer.Some? then SiteById(v, producer.value) else None;
    var requiresTransfer := producerSite.Some? && producerSite.value != row.site;
    if demand in v.served {
      var t := v.served[demand];
      if producer.None? || t.producer != producer || t.id !in row.dependsOn || Some(t.source) != producerSite
         || t.target != row.site {
        return false;
      }
    } else if producer.None? || producer.value !in row.dependsOn || requiresTransfer {
      return false;
    }
    ok := true;
  }

  method CheckTransfer(v: View, t: TransferRow) returns (ok: bool)
    ensures ok <==> TransferOk(v, t)
  {
    ok := true;
    var row := if t.consumer.Some? && t.consumer.value in v.byId then Some(v.byId[t.consumer.value]) else None;
    if row.None? || t.artifact !in row.value.inputs || t.id !in row.value.dependsOn { ok := false; }
    if t.artifact in v.initial {
      var consumerSite := if row.Some? then Some(row.value.site) else None;
      if t.source != v.initial[t.artifact] || Some(t.target) != consumerSite { ok := false; }
    } else if t.producer.None? || t.artifact !in v.made || Some(v.made[t.artifact]) != t.producer
              || t.producer.value !in t.dependsOn {
      ok := false;
    }
  }

  method CheckLineage(v: View, transfers: seq<TransferRow>) returns (complete: bool)
    requires forall a <- v.ids :: a in v.byId
    ensures complete <==> LineageComplete(v, transfers)
  {
    complete := true;
    for i := 0 to |v.ids|
      invariant complete <==> forall k :: 0 <= k < i ==> ActionOk(v, v.ids[k])
    {
      var a := v.ids[i];
      var row := v.byId[a];
      ghost var before := complete;
      for j := 0 to |row.inputs|
        invariant complete <==> before && forall k :: 0 <= k < j ==> InputOk(v, row, a, row.inputs[k])
      {
        var ok := CheckInput(v, row, a, row.inputs[j]);
        if !ok { complete := false; }
      }
      assert ActionOk(v, a) <==> forall k :: 0 <= k < |row.inputs| ==> InputOk(v, row, a, row.inputs[k]);
    }
    ghost var actionsOk := complete;
    for i := 0 to |transfers|
      invariant complete <==> actionsOk && forall k :: 0 <= k < i ==> TransferOk(v, transfers[k])
    {
      var ok := CheckTransfer(v, transfers[i]);
      if !ok { complete := false; }
    }
  }

  /** The evidence of a realized trace. */
  method RealizedTrace(executions: seq<ExecutionRow>, transfers: seq<TransferRow>, initial: map<ArtifactId, SiteId>)
    returns (evidence: Evidence)
    ensures evidence.dependencies <==> DependenciesComplete(executions, transfers, initial)
    ensures evidence.timestamps <==> (executions != [] || transfers != []) && TimestampsComplete(executions, transfers)
    ensures evidence.coverage <==>
      (executions != [] || transfers != []) && DependenciesComplete(executions, transfers, initial)
  {
    var ids, byId := IndexExecutions(executions);
    IdsAreIndexed(executions);
    var made := IndexOutputs(ids, byId);
    var served := CollectServed(transfers);
    var lineage := CheckLineage(View(ids, byId, made, served, initial), transfers);
    var dependencies := ReferencesComplete(executions, transfers) && lineage;
    var spans := executions != [] || transfers != [];
    evidence := Evidence(dependencies, spans && TimestampsComplete(executions, transfers), spans && dependencies);
  }

  // ---------- what "complete" means ----------

  /** Where an input comes from: its initial site, or the site of the action that lists it as an output. */
  ghost predicate ComesFrom(v: View, x: ArtifactId, site: SiteId) {
    if x in v.initial then v.initial[x] == site
    else x in v.made && v.made[x] in v.byId && v.byId[v.made[x]].site == site
  }

  lemma {:induction false} ServedIsListed(transfers: seq<TransferRow>, demand: Demand)
    requires demand in TransferFor(transfers)
    ensures TransferFor(transfers)[demand] in transfers
    ensures TransferFor(transfers)[demand].consumer == Some(demand.action)
    ensures TransferFor(transfers)[demand].artifact == demand.artifact
  {
    var n := |transfers| - 1;
    var t := transfers[n];
    if t.consumer != Some(demand.action) || t.artifact != demand.artifact {
      ServedIsListed(transfers[..n], demand);
    }
  }

  lemma {:induction false} OutputsMade(made: map<ArtifactId, ActionId>, a: ActionId, outputs: seq<ArtifactId>)
    ensures forall x :: x in WithOutputs(made, a, outputs) <==> x in made || x in outputs
    ensures forall x <- WithOutputs(made, a, outputs) ::
              WithOutputs(made, a, outputs)[x] == if x in outputs then a else made[x]
  {
    if outputs != [] {
      var n := |outputs| - 1;
      OutputsMade(made, a, outputs[..n]);
      assert outputs == outputs[..n] + [outputs[n]];
    }
  }

  lemma {:induction false} MakerIsListed(ids: seq<ActionId>, byId: map<ActionId, ExecutionRow>)
    ensures forall x <- MadeBy(ids, byId) ::
              MadeBy(ids, byId)[x] in ids && MadeBy(ids, byId)[x] in byId && x in byId[MadeBy(ids, byId)[x]].outputs
    ensures forall a <- ids | a in byId :: forall x <- byId[a].outputs :: x in MadeBy(ids, byId)
  {
    if ids != [] {
      var n := |ids| - 1;
      MakerIsListed(ids[..n], byId);
      assert ids == ids[..n] + [ids[n]];
      if ids[n] in byId { OutputsMade(MadeBy(ids[..n], byId), ids[n], byId[ids[n]].outputs); }
    }
  }

  /** A transfer that carries an input across sites and that its consumer depends on. */
  ghost predicate Carries(v: View, t: TransferRow, a: ActionId, x: ArtifactId, source: SiteId, target: SiteId) {
    && t.consumer == Some(a) && t.artifact == x && t.source == source && t.target == target
    && a in v.byId && t.id in v.byId[a].dependsOn
    && (x !in v.initial ==> x in v.made && t.producer == Some(v.made[x]) && v.made[x] in t.dependsOn)
  }

  /**
   In a complete trace every input has a known home, and an input whose home is another site arrives by a
   listed transfer between exactly these two sites, on which the consumer depends.
   */
  lemma InputsAreExplained(executions: seq<ExecutionRow>, transfers: seq<TransferRow>,
                           initial: map<ArtifactId, SiteId>, a: ActionId, x: ArtifactId)
    returns (home: SiteId)
    requires DependenciesComplete(executions, transfers, initial)
    requires var v := ViewOf(executions, transfers, initial); a in v.byId && x in v.byId[a].inputs
    ensures
      var v := ViewOf(executions, transfers, initial);
      && ComesFrom(v, x, home)
      && (home != v.byId[a].site ==> exists t :: t in transfers && Carries(v, t, a, x, home, v.byId[a].site))
  {
    var v := ViewOf(executions, transfers, initial);
    IdsAreIndexed(executions);
    MakerIsListed(v.ids, v.byId);
    assert ActionOk(v, a) && InputOk(v, v.byId[a], a, x);
    home := if x in v.initial then v.initial[x] else v.byId[v.made[x]].site;
    if home != v.byId[a].site {
      ServedIsListed(transfers, Demand(a, x));
      var t := v.served[Demand(a, x)];
      assert TransferOk(v, t);
      assert Carries(v, t, a, x, home, v.byId[a].site);
    }
  }

  /**
   In a complete trace every transfer serves an action that lists its artifact and depends on it.  An initial artifact
   leaves from its initial site for that of the action; any other transfer depends on the action that made the artifact.
   */
  lemma TransfersServeConsumers(executions: seq<ExecutionRow>, transfers: seq<TransferRow>,
                                initial: map<ArtifactId, SiteId>, t: TransferRow)
    requires DependenciesComplete(executions, transfers, initial) && t in transfers
    ensures exists row :: row in executions && t.consumer == Some(row.action)
                          && t.artifact in row.inputs && t.id in row.dependsOn
                          && (t.artifact in initial ==> t.source == initial[t.artifact] && t.target == row.site)
    ensures t.artifact !in initial ==>
              exists maker :: maker in executions && t.artifact in maker.outputs
                              && t.producer == Some(maker.action) && maker.action in t.dependsOn
  {
    var v := ViewOf(executions, transfers, initial);
    assert TransferOk(v, t);
    IdsAreIndexed(executions);
    MakerIsListed(v.ids, v.byId);
    assert v.byId[t.consumer.value] in executions;
    if t.artifact !in initial { assert v.byId[v.made[t.artifact]] in executions; }
  }

  ghost predicate IsSpan(executions: seq<ExecutionRow>, transfers: seq<TransferRow>, id: string) {
    (exists row :: row in executions && row.action == id) || (exists t :: t in transfers && t.id == id)
  }

  /** Some span with the first id, an execution or a transfer, depends on the second. */
  ghost predicate Lists(executions: seq<ExecutionRow>, transfers: seq<TransferRow>, id: string, d: string) {
    || (exists row :: row in executions && row.action == id && d in row.dependsOn)
    || (exists t :: t in transfers && t.id == id && d in t.dependsOn)
  }

  /** A span with this id starts at this time. */
  ghost predicate Begins(executions: seq<ExecutionRow>, transfers: seq<TransferRow>, id: string, at: nat) {
    || (exists row :: row in executions && row.action == id && row.startedAt == Some(at))
    || (exists t :: t in transfers && t.id == id && t.startedAt == Some(at))
  }

  /** Every dependency that a span lists is a span that starts before it. */
  ghost predicate GoesBack(executions: seq<ExecutionRow>, transfers: seq<TransferRow>) {
    forall id, at, d :: Begins(executions, transfers, id, at) && Lists(executions, transfers, id, d) ==>
      BeginsBefore(executions, transfers, d, at)
  }

  ghost predicate BeginsBefore(executions: seq<ExecutionRow>, transfers: seq<TransferRow>, id: string, at: nat) {
    exists before: nat :: before < at && Begins(executions, transfers, id, before)
  }

  ghost predicate BeginsOnce(executions: seq<ExecutionRow>, transfers: seq<TransferRow>) {
    forall id, at, also ::
      Begins(executions, transfers, id, at) && Begins(executions, transfers, id, also) ==> at == also
  }

  /** Ids tell when spans start, and dependencies start before what lists them. */
  ghost predicate StartsOrdered(executions: seq<ExecutionRow>, transfers: seq<TransferRow>) {
    GoesBack(executions, transfers) && BeginsOnce(executions, transfers)
  }

  /** Each span of the path lists the next one. */
  ghost predicate Follows(executions: seq<ExecutionRow>, transfers: seq<TransferRow>, path: seq<string>) {
    forall i, j :: 0 <= i < j < |path| && j == i + 1 ==> Lists(executions, transfers, path[i], path[j])
  }

  lemma {:induction false} PathGoesBack(executions: seq<ExecutionRow>, transfers: seq<TransferRow>, path: seq<string>,
                                        at: nat, i: nat, j: nat)
    returns (before: nat)
    requires GoesBack(executions, transfers) && Follows(executions, transfers, path)
    requires i <= j < |path| && Begins(executions, transfers, path[i], at)
    ensures Begins(executions, transfers, path[j], before) && if i < j then before < at else before == at
    decreases j
  {
    before := at;
    if i < j {
      var last := PathGoesBack(executions, transfers, path, at, i, j - 1);
      assert Lists(executions, transfers, path[j - 1], path[j]);
      assert BeginsBefore(executions, transfers, path[j], last);
      before :| before < last && Begins(executions, transfers, path[j], before);
    }
  }

  lemma PathIsSimple(executions: seq<ExecutionRow>, transfers: seq<TransferRow>, path: seq<string>, at: nat, i: nat,
                     j: nat)
    requires StartsOrdered(executions, transfers)
    requires Follows(executions, transfers, path) && i < j < |path| && Begins(executions, transfers, path[0], at)
    ensures path[i] != path[j] && IsSpan(executions, transfers, path[j])
  {
    var first := PathGoesBack(executions, transfers, path, at, 0, i);
    var second := PathGoesBack(executions, transfers, path, first, i, j);
  }

  /**
   Following dependencies backwards from any span of a complete trace, over executions and transfers, meets only spans.
   Where the starts are ordered it meets none twice.
   */
  lemma DependenciesAreSpans(executions: seq<ExecutionRow>, transfers: seq<TransferRow>,
                             initial: map<ArtifactId, SiteId>, path: seq<string>, i: nat, j: nat)
    requires DependenciesComplete(executions, transfers, initial)
    requires Follows(executions, transfers, path) && i <= j < |path| && IsSpan(executions, transfers, path[0])
    ensures IsSpan(executions, transfers, path[j])
    ensures TimestampsComplete(executions, transfers) && StartsOrdered(executions, transfers) && i < j ==>
              path[i] != path[j]
  {
    if j > 0 {
      assert Lists(executions, transfers, path[j - 1], path[j]);
      assert path[j] in KnownSpans(executions, transfers);
    }
    if TimestampsComplete(executions, transfers) && StartsOrdered(executions, transfers) && i < j {
      var at := SpanBegins(executions, transfers, path[0]);
      PathIsSimple(executions, transfers, path, at, i, j);
    }
  }

  lemma SpanBegins(executions: seq<ExecutionRow>, transfers: seq<TransferRow>, id: string) returns (at: nat)
    requires TimestampsComplete(executions, transfers) && IsSpan(executions, transfers, id)
    ensures Begins(executions, transfers, id, at)
  {
    if row :| row in executions && row.action == id {
      at := row.startedAt.value;
    } else {
      var t :| t in transfers && t.id == id;
      at := t.startedAt.value;
    }
  }

  /** Without that order a complete trace may go round: the check accepts an action that takes what it makes. */
  lemma CircleIsComplete()
    ensures
      var a := ExecutionRow("a", "", "", "", 0, 0, Some(0), Some(1), ["a"], ["x"], ["x"]);
      DependenciesComplete([a], [], map[]) && TimestampsComplete([a], []) && Follows([a], [], ["a", "a"])
  {
    var a := ExecutionRow("a", "", "", "", 0, 0, Some(0), Some(1), ["a"], ["x"], ["x"]);
    assert [a][..0] == [] && Ids([]) == [] && ById([]) == map[];
    assert Ids([a]) == ["a"] && ById([a]) == map["a" := a];
    assert ["a"][..0] == [] && MadeBy([], ById([a])) == map[];
    OutputsMade(map[], "a", ["x"]);
    assert MadeBy(["a"], ById([a])) == map["x" := "a"];
    assert a in [a];
  }

  // ---------- provenance chains ----------

  /** Each action of the chain takes an artifact that the one before it made. */
  ghost predicate Chain(v: View, actions: seq<ActionId>, via: seq<ArtifactId>) {
    && |via| + 1 == |actions|
    && (forall i :: 0 <= i < |actions| ==> actions[i] in v.byId)
    && forall i :: 0 <= i < |via| ==>
         && via[i] !in v.initial && via[i] in v.made && v.made[via[i]] == actions[i]
         && via[i] in v.byId[actions[i + 1]].inputs
  }

  /** A list of transfers that lead from one site to another, each starting where the one before ended. */
  ghost predicate Route(route: seq<TransferRow>, source: SiteId, target: SiteId) {
    if route == [] then source == target
    else route[0].source == source && Route(route[1..], route[0].target, target)
  }

  lemma {:induction false} RouteExtends(route: seq<TransferRow>, source: SiteId, middle: SiteId, t: TransferRow)
    requires Route(route, source, middle) && t.source == middle
    ensures Route(route + [t], source, t.target)
  {
    if route == [] {
      assert [t][1..] == [];
    } else {
      RouteExtends(route[1..], route[0].target, middle, t);
      assert (route + [t])[1..] == route[1..] + [t];
    }
  }

  /**
   Data changes site only through listed transfers: along every provenance chain of a complete trace the listed
   transfers into its actions lead from the first action's site to the last one's.
   */
  lemma {:induction false} ChainsFollowTransfers(executions: seq<ExecutionRow>, transfers: seq<TransferRow>,
                              initial: map<ArtifactId, SiteId>, actions: seq<ActionId>, via: seq<ArtifactId>)
    returns (route: seq<TransferRow>)
    requires DependenciesComplete(executions, transfers, initial)
    requires Chain(ViewOf(executions, transfers, initial), actions, via)
    ensures
      var v := ViewOf(executions, transfers, initial);
      && Route(route, v.byId[actions[0]].site, v.byId[actions[|via|]].site)
      && forall t <- route ::
           && t in transfers && t.consumer.Some? && t.consumer.value in actions && t.artifact in via
           && t.target == v.byId[t.consumer.value].site
    decreases via
  {
    var v := ViewOf(executions, transfers, initial);
    if via == [] {
      route := [];
    } else {
      var n := |via| - 1;
      route := ChainsFollowTransfers(executions, transfers, initial, actions[..n + 1], via[..n]);
      var a, x := actions[n + 1], via[n];
      var home := InputsAreExplained(executions, transfers, initial, a, x);
      if home != v.byId[a].site {
        var t :| t in transfers && Carries(v, t, a, x, home, v.byId[a].site);
        RouteExtends(route, v.byId[actions[0]].site, home, t);
        route := route + [t];
      }
    }
  }

  lemma {:induction false} RouteStays(route: seq<TransferRow>, source: SiteId, target: SiteId)
    requires Route(route, source, target)
    requires forall t <- route :: t.target == target ==> t.source == target
    ensures source == target
  {
    if route != [] { RouteStays(route[1..], route[0].target, target); }
  }

  /** When no listed transfer enters a site, whatever is made there was made from what was made there. */
  lemma ClosedSite(executions: seq<ExecutionRow>, transfers: seq<TransferRow>, initial: map<ArtifactId, SiteId>,
                   actions: seq<ActionId>, via: seq<ArtifactId>)
    requires DependenciesComplete(executions, transfers, initial)
    requires Chain(ViewOf(executions, transfers, initial), actions, via)
    requires var site := ViewOf(executions, transfers, initial).byId[actions[|via|]].site;
             forall t <- transfers :: t.target == site ==> t.source == site
    ensures
      var v := ViewOf(executions, transfers, initial);
      v.byId[actions[0]].site == v.byId[actions[|via|]].site
  {
    var v := ViewOf(executions, transfers, initial);
    var route := ChainsFollowTransfers(executions, transfers, initial, actions, via);
    RouteStays(route, v.byId[actions[0]].site, v.byId[actions[|via|]].site);
  }
}
