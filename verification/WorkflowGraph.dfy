/**
 The dependency graph exported from a run, and the memoised depth of the workflow.
 */
module WorkflowGraph {
  type ActionId = string
  type ArtifactId = string

  /** One requested action with what it was given and what its last successful execution returned. */
  datatype Action = Action(id: ActionId, inputs: seq<ArtifactId>, outputs: seq<ArtifactId>)

  datatype Edge = Edge(source: ActionId, target: ActionId)

  // ---------- export ----------

  function ProducersWith(producers: map<ArtifactId, ActionId>, a: ActionId, outputs: seq<ArtifactId>):
    map<ArtifactId, ActionId>
  {
    if outputs == [] then producers
    else ProducersWith(producers, a, outputs[..|outputs| - 1])[outputs[|outputs| - 1] := a]
  }

  /** The last requested action that returned each artifact. */
  function ProducerOf(actions: seq<Action>): map<ArtifactId, ActionId> {
    if actions == [] then map[]
    else
      var n := |actions| - 1;
      ProducersWith(ProducerOf(actions[..n]), actions[n].id, actions[n].outputs)
  }

  /** An edge for every input that another action returned. */
  function Dependencies(actions: seq<Action>): set<Edge> {
    var producer := ProducerOf(actions);
    set a, x | a in actions && x in a.inputs && x in producer && producer[x] != a.id :: Edge(producer[x], a.id)
  }

  method CollectProducers(actions: seq<Action>) returns (producers: map<ArtifactId, ActionId>)
    ensures producers == ProducerOf(actions)
  {
    producers := map[];
    for i := 0 to |actions|
      invariant producers == ProducerOf(actions[..i])
    {
      assert actions[..i + 1][..i] == actions[..i];
      var outputs := actions[i].outputs;
      ghost var before := producers;
      for j := 0 to |outputs|
        invariant producers == ProducersWith(before, actions[i].id, outputs[..j])
      {
        assert outputs[..j + 1][..j] == outputs[..j];
        producers := producers[outputs[j] := actions[i].id];
      }
      assert outputs[..|outputs|] == outputs;
    }
    assert actions[..|actions|] == actions;
  }

  lemma {:induction false} ProducersWithMembers(producers: map<ArtifactId, ActionId>, a: ActionId,
                                                outputs: seq<ArtifactId>)
    ensures forall x :: x in ProducersWith(producers, a, outputs) <==> x in producers || x in outputs
    ensures forall x <- ProducersWith(producers, a, outputs) ::
              ProducersWith(producers, a, outputs)[x] == if x in outputs then a else producers[x]
  {
    if outputs != [] {
      var n := |outputs| - 1;
      ProducersWithMembers(producers, a, outputs[..n]);
      assert outputs == outputs[..n] + [outputs[n]];
    }
  }

  /** The recorded producer is the last action that returned the artifact. */
  lemma {:induction false} ProducerIsLast(actions: seq<Action>, x: ArtifactId) returns (i: nat)
    requires x in ProducerOf(actions)
    ensures i < |actions| && x in actions[i].outputs && ProducerOf(actions)[x] == actions[i].id
    ensures forall j :: i < j < |actions| ==> x !in actions[j].outputs
  {
    var n := |actions| - 1;
    ProducersWithMembers(ProducerOf(actions[..n]), actions[n].id, actions[n].outputs);
    if x in actions[n].outputs {
      i := n;
    } else {
      i := ProducerIsLast(actions[..n], x);
    }
  }

  lemma {:induction false} ReturnedHasProducer(actions: seq<Action>, j: nat, x: ArtifactId)
    requires j < |actions| && x in actions[j].outputs
    ensures x in ProducerOf(actions)
  {
    var n := |actions| - 1;
    ProducersWithMembers(ProducerOf(actions[..n]), actions[n].id, actions[n].outputs);
    if j < n { ReturnedHasProducer(actions[..n], j, x); }
  }

  // ---------- when the graph has no cycle ----------

  ghost predicate DistinctIds(actions: seq<Action>) {
    forall i, j :: 0 <= i < j < |actions| ==> actions[i].id != actions[j].id
  }

  ghost predicate ProducedOnce(actions: seq<Action>) {
    forall i, j :: 0 <= i < j < |actions| ==> forall x <- actions[i].outputs :: x !in actions[j].outputs
  }

  /** Whoever returns an input was requested no later than the action that takes it. */
  ghost predicate ProducersFirst(actions: seq<Action>) {
    forall i, x :: 0 <= i < |actions| && x in actions[i].inputs ==> ReturnedBy(actions, i, x)
  }

  ghost predicate ReturnedBy(actions: seq<Action>, i: nat, x: ArtifactId)
    requires i < |actions|
  {
    (exists j :: 0 <= j < |actions| && x in actions[j].outputs) ==> exists j :: 0 <= j <= i && x in actions[j].outputs
  }

  /** Every edge leads forward in the order of the requests. */
  ghost predicate Ordered(actions: seq<Action>, edges: set<Edge>) {
    DistinctIds(actions) && forall e <- edges :: LeadsForward(actions, e)
  }

  ghost predicate LeadsForward(actions: seq<Action>, e: Edge) {
    exists i, j :: 0 <= i < j < |actions| && actions[i].id == e.source && actions[j].id == e.target
  }

  lemma ExportIsOrdered(actions: seq<Action>)
    requires DistinctIds(actions) && ProducedOnce(actions) && ProducersFirst(actions)
    ensures Ordered(actions, Dependencies(actions))
  {
    forall e | e in Dependencies(actions)
      ensures LeadsForward(actions, e)
    {
      var a, x :| a in actions && x in a.inputs && x in ProducerOf(actions) && ProducerOf(actions)[x] != a.id
                  && e == Edge(ProducerOf(actions)[x], a.id);
      var j :| 0 <= j < |actions| && actions[j] == a;
      var i := ProducerIsLast(actions, x);
      assert ReturnedBy(actions, j, x);
      var k :| 0 <= k <= j && x in actions[k].outputs;
      assert k == i && i != j;
    }
  }

  /** An edge is exactly an artifact that one action returned and another took. */
  lemma EdgesAreHandovers(actions: seq<Action>, i: nat, j: nat)
    requires DistinctIds(actions) && ProducedOnce(actions) && i < |actions| && j < |actions| && i != j
    ensures Edge(actions[i].id, actions[j].id) in Dependencies(actions) <==>
            exists x :: x in actions[i].outputs && x in actions[j].inputs
  {
    var e := Edge(actions[i].id, actions[j].id);
    if e in Dependencies(actions) {
      var a, x :| a in actions && x in a.inputs && x in ProducerOf(actions) && ProducerOf(actions)[x] != a.id
                  && e == Edge(ProducerOf(actions)[x], a.id);
      var k := ProducerIsLast(actions, x);
      assert k == i;
      var l :| 0 <= l < |actions| && actions[l] == a;
      assert l == j;
    }
    if x :| x in actions[i].outputs && x in actions[j].inputs {
      ReturnedHasProducer(actions, i, x);
      var k := ProducerIsLast(actions, x);
      assert k == i;
      assert actions[j] in actions;
    }
  }

  // ---------- depth ----------

  /** Where the action was requested. */
  function Rank(actions: seq<Action>, a: ActionId): (rank: nat)
    ensures actions != [] ==> rank < |actions|
  {
    if actions == [] then 0
    else if actions[|actions| - 1].id == a then |actions| - 1
    else Rank(actions[..|actions| - 1], a)
  }

  lemma {:induction false} RankIs(actions: seq<Action>, i: nat)
    requires DistinctIds(actions) && i < |actions|
    ensures Rank(actions, actions[i].id) == i
  {
    var n := |actions| - 1;
    if i < n {
      assert actions[i].id != actions[n].id;
      RankIs(actions[..n], i);
    }
  }

  lemma EdgeRaisesRank(actions: seq<Action>, edges: set<Edge>, e: Edge)
    requires Ordered(actions, edges) && e in edges
    ensures Rank(actions, e.source) < Rank(actions, e.target) < |actions|
  {
    assert LeadsForward(actions, e);
    var i, j :| 0 <= i < j < |actions| && actions[i].id == e.source && actions[j].id == e.target;
    RankIs(actions, i);
    RankIs(actions, j);
  }

  ghost predicate RanksRise(actions: seq<Action>, edges: set<Edge>) {
    forall e <- edges :: Rank(actions, e.source) < Rank(actions, e.target)
  }

  lemma OrderedRanksRise(actions: seq<Action>, edges: set<Edge>)
    requires Ordered(actions, edges)
    ensures RanksRise(actions, edges)
  {
    forall e | e in edges
      ensures Rank(actions, e.source) < Rank(actions, e.target)
    {
      EdgeRaisesRank(actions, edges, e);
    }
  }

  function Parents(edges: set<Edge>, a: ActionId): set<ActionId> {
    set e | e in edges && e.target == a :: e.source
  }

  /** Each action of a path is the source of an edge to the next. */
  ghost predicate Path(edges: set<Edge>, path: seq<ActionId>) {
    path != [] && forall i, j :: 0 <= i < j < |path| && j == i + 1 ==> Edge(path[i], path[j]) in edges
  }

  ghost predicate PathTo(edges: set<Edge>, path: seq<ActionId>, a: ActionId) {
    Path(edges, path) && path[|path| - 1] == a
  }

  /** `d` is the length of the longest path to `a`. */
  ghost predicate LongestTo(edges: set<Edge>, a: ActionId, d: nat) {
    && (exists path :: PathTo(edges, path, a) && |path| == d)
    && (forall path :: PathTo(edges, path, a) ==> |path| <= d)
  }

  lemma {:induction false} RankAlongPath(actions: seq<Action>, edges: set<Edge>, path: seq<ActionId>)
    requires RanksRise(actions, edges) && Path(edges, path)
    ensures Rank(actions, path[0]) + |path| - 1 <= Rank(actions, path[|path| - 1])
  {
    var n := |path| - 1;
    if n > 0 {
      assert Edge(path[n - 1], path[n]) in edges;
      RankAlongPath(actions, edges, path[..n]);
    }
  }

  /** No path comes back to where it started. */
  lemma NoCycle(actions: seq<Action>, edges: set<Edge>, path: seq<ActionId>)
    requires Ordered(actions, edges) && Path(edges, path) && |path| > 1
    ensures path[0] != path[|path| - 1]
    ensures Rank(actions, path[0]) < Rank(actions, path[|path| - 1])
  {
    OrderedRanksRise(actions, edges);
    RankAlongPath(actions, edges, path);
  }

  /** The depths are longest paths, and `most` is the largest of them. */
  ghost predicate Deepest(edges: set<Edge>, depths: map<ActionId, nat>, most: nat) {
    && (forall p <- depths :: LongestTo(edges, p, depths[p]) && depths[p] <= most)
    && if depths == map[] then most == 0 else exists p :: p in depths && depths[p] == most
  }

  lemma DeepestWith(edges: set<Edge>, depths: map<ActionId, nat>, most: nat, p: ActionId, d: nat)
    requires Deepest(edges, depths, most) && LongestTo(edges, p, d) && p !in depths
    ensures Deepest(edges, depths[p := d], if d > most then d else most)
  {
    var more := depths[p := d];
    assert p in more && more[p] == d;
    if d <= most && depths != map[] {
      var q :| q in depths && depths[q] == most;
      assert q in more && more[q] == most;
    }
  }

  /** One more than the deepest parent, when every parent's depth is its longest path. */
  lemma LongestFromParents(edges: set<Edge>, a: ActionId, depths: map<ActionId, nat>, most: nat)
    requires depths.Keys == Parents(edges, a) && Deepest(edges, depths, most)
    ensures LongestTo(edges, a, most + 1)
  {
    if Parents(edges, a) == {} {
      assert PathTo(edges, [a], a);
    } else {
      var p :| p in depths && depths[p] == most;
      var path :| PathTo(edges, path, p) && |path| == most;
      assert Edge(p, a) in edges;
      assert PathTo(edges, path + [a], a);
    }
    forall path | PathTo(edges, path, a)
      ensures |path| <= most + 1
    {
      var n := |path| - 1;
      if n > 0 {
        assert Edge(path[n - 1], path[n]) in edges;
        assert path[n - 1] in Parents(edges, a);
        assert PathTo(edges, path[..n], path[n - 1]);
      }
    }
  }

  /** What is remembered stays remembered. */
  ghost predicate Kept(before: map<ActionId, nat>, after: map<ActionId, nat>) {
    forall b <- before :: b in after && after[b] == before[b]
  }

  /** `longest` is a longest path among those to the first `n` actions. */
  ghost predicate DeepestSoFar(actions: seq<Action>, edges: set<Edge>, n: nat, deepest: nat, longest: seq<ActionId>) {
    && n <= |actions| && deepest <= |actions|
    && (if n == 0 then deepest == 0 else Path(edges, longest) && |longest| == deepest)
    && forall k, path :: 0 <= k < n && PathTo(edges, path, actions[k].id) ==> |path| <= deepest
  }

  lemma DeepestNext(actions: seq<Action>, edges: set<Edge>, n: nat, deepest: nat, longest: seq<ActionId>, d: nat)
    returns (next: seq<ActionId>)
    requires RanksRise(actions, edges) && n < |actions|
    requires DeepestSoFar(actions, edges, n, deepest, longest) && LongestTo(edges, actions[n].id, d)
    ensures DeepestSoFar(actions, edges, n + 1, if d > deepest then d else deepest, next)
  {
    var path :| PathTo(edges, path, actions[n].id) && |path| == d;
    RankAlongPath(actions, edges, path);
    next := if d > deepest then path else longest;
  }

  class DepthMemo {
    const actions: seq<Action>
    const edges: set<Edge>
    var memo: map<ActionId, nat>

    constructor (actions: seq<Action>, edges: set<Edge>)
      requires Ordered(actions, edges)
      ensures this.actions == actions && this.edges == edges && memo == map[] && Valid()
    {
      this.actions, this.edges, memo := actions, edges, map[];
      OrderedRanksRise(actions, edges);
    }

    /** Remembered depths are longest paths. */
    ghost predicate Valid()
      reads this
    {
      RanksRise(actions, edges) && forall a <- memo :: LongestTo(edges, a, memo[a])
    }

    /** The recursion ends because every parent was requested earlier. */
    method Depth(a: ActionId) returns (depth: nat)
      requires Valid()
      modifies this`memo
      ensures Valid() && Kept(old(memo), memo)
      ensures a in memo && memo[a] == depth && LongestTo(edges, a, depth)
      decreases Rank(actions, a), 1
    {
      if a !in memo {
        var most := DeepestParent(a);
        memo := memo[a := most + 1];
      }
      depth := memo[a];
    }

    method DeepestParent(a: ActionId) returns (most: nat)
      requires Valid()
      modifies this`memo
      ensures Valid() && Kept(old(memo), memo) && LongestTo(edges, a, most + 1)
      decreases Rank(actions, a), 0
    {
      var parents := Parents(edges, a);
      most := 0;
      ghost var seen: map<ActionId, nat> := map[];
      while parents != {}
        invariant parents <= Parents(edges, a) && Valid() && Kept(old(memo), memo)
        invariant seen.Keys == Parents(edges, a) - parents && Deepest(edges, seen, most)
        decreases |parents|
      {
        var p :| p in parents;
        assert Edge(p, a) in edges;
        var d := Depth(p);
        DeepestWith(edges, seen, most, p, d);
        seen := seen[p := d];
        if d > most { most := d; }
        parents := parents - {p};
      }
      LongestFromParents(edges, a, seen, most);
    }

    /** The depth of the workflow: the longest path to any requested action. */
    method WorkflowDepth() returns (deepest: nat)
      requires Valid()
      modifies this`memo
      ensures Valid() && deepest <= |actions|
      ensures forall path :: Path(edges, path) && RequestedIn(actions, path[|path| - 1]) ==> |path| <= deepest
      ensures if actions == [] then deepest == 0 else exists path :: Path(edges, path) && |path| == deepest
    {
      deepest := 0;
      ghost var longest: seq<ActionId> := [];
      for i := 0 to |actions|
        invariant Valid()
        invariant DeepestSoFar(actions, edges, i, deepest, longest)
      {
        var d := Depth(actions[i].id);
        longest := DeepestNext(actions, edges, i, deepest, longest, d);
        if d > deepest { deepest := d; }
      }
      forall path | Path(edges, path) && RequestedIn(actions, path[|path| - 1])
        ensures |path| <= deepest
      {
        var k :| 0 <= k < |actions| && actions[k].id == path[|path| - 1];
        assert PathTo(edges, path, actions[k].id);
      }
    }
  }

  ghost predicate RequestedIn(actions: seq<Action>, a: ActionId) {
    exists k :: 0 <= k < |actions| && actions[k].id == a
  }

  /** Every path of more than one action ends in a requested one, so the depth bounds all paths there are. */
  lemma PathsEndRequested(actions: seq<Action>, edges: set<Edge>, path: seq<ActionId>)
    requires Ordered(actions, edges) && Path(edges, path) && |path| > 1
    ensures RequestedIn(actions, path[|path| - 1])
  {
    var n := |path| - 1;
    assert Edge(path[n - 1], path[n]) in edges;
    assert LeadsForward(actions, Edge(path[n - 1], path[n]));
  }
}
