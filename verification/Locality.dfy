/**
 Choosing where to run: the replica with the cheapest input transfer, and the Worker that already holds the
 most input bytes.  Times are exact reals; `None` is an infinite time.
 */
module Locality {
  import opened Options
  import opened Sorting
  import Json

  type WorkerId = string
  type SiteId = string

  datatype Artifact = Artifact(id: string, size: nat, locations: seq<WorkerId>)
  datatype Executor = Executor(id: string, worker: WorkerId)
  datatype Link = Link(source: SiteId, target: SiteId, bandwidth: real, rtt: real, bidirectional: bool)

  type Cost = Option<real>

  // ---------- costs ----------

  function Add(a: Cost, b: Cost): Cost {
    if a.None? || b.None? then None else Some(a.value + b.value)
  }

  predicate CostLe(a: Cost, b: Cost) {
    b.None? || (a.Some? && a.value <= b.value)
  }

  function Cheaper(a: Cost, b: Cost): Cost {
    if CostLe(a, b) then a else b
  }

  /** What the provider knows: Worker sites, and links sorted by their two sites. */
  datatype Facts = Facts(sites: map<WorkerId, SiteId>, links: seq<Link>) {
    ghost predicate Valid() {
      forall link <- links :: link.bandwidth > 0.0 && link.rtt >= 0.0
    }
  }

  predicate Joins(link: Link, source: SiteId, target: SiteId) {
    || (link.source == source && link.target == target)
    || (link.bidirectional && link.source == target && link.target == source)
  }

  function FirstLink(links: seq<Link>, source: SiteId, target: SiteId): Option<Link> {
    if links == [] then None
    else if Joins(links[0], source, target) then Some(links[0])
    else FirstLink(links[1..], source, target)
  }

  function OneTransfer(facts: Facts, source: WorkerId, target: WorkerId, size: nat): (cost: Cost)
    requires facts.Valid() && source in facts.sites && target in facts.sites
    ensures cost.Some? ==> cost.value >= 0.0
    ensures source == target ==> cost == Some(0.0)
  {
    if source == target || facts.sites[source] == facts.sites[target] then Some(0.0)
    else
      var link :- LinkBetween(facts, facts.sites[source], facts.sites[target]);
      Some(link.rtt + size as real * 8.0 / (link.bandwidth * 1000.0))
  }

  function LinkBetween(facts: Facts, source: SiteId, target: SiteId): (link: Option<Link>)
    requires facts.Valid()
    ensures link.Some? ==> link.value in facts.links && Joins(link.value, source, target)
    ensures link.None? ==> forall l <- facts.links :: !Joins(l, source, target)
  {
    FirstLinkFound(facts.links, source, target);
    FirstLink(facts.links, source, target)
  }

  lemma {:induction false} FirstLinkFound(links: seq<Link>, source: SiteId, target: SiteId)
    ensures FirstLink(links, source, target).Some? ==>
              && FirstLink(links, source, target).value in links
              && Joins(FirstLink(links, source, target).value, source, target)
    ensures FirstLink(links, source, target).None? ==> forall l <- links :: !Joins(l, source, target)
  {
    if links != [] && !Joins(links[0], source, target) { FirstLinkFound(links[1..], source, target); }
  }

  lemma DivideAndMultiply(x: real, y: real)
    requires y != 0.0
    ensures x / y * y == x
  {
  }

  /**
   Between sites a transfer takes one round trip, and beyond that the link passes exactly the bits of the artifact.
   */
  lemma TransferPassesBits(facts: Facts, source: WorkerId, target: WorkerId, size: nat)
    requires facts.Valid() && source in facts.sites && target in facts.sites
    requires facts.sites[source] != facts.sites[target]
    ensures
      var cost, link := OneTransfer(facts, source, target, size),
                        LinkBetween(facts, facts.sites[source], facts.sites[target]);
      && cost.Some? == link.Some?
      && (cost.Some? ==> (cost.value - link.value.rtt) * (link.value.bandwidth * 1000.0) == size as real * 8.0)
  {
    var link := LinkBetween(facts, facts.sites[source], facts.sites[target]);
    if link.Some? { DivideAndMultiply(size as real * 8.0, link.value.bandwidth * 1000.0); }
  }

  /** The cheapest known source; infinite when none is known or reachable. */
  function CheapestSource(facts: Facts, locations: seq<WorkerId>, target: WorkerId, size: nat): (cost: Cost)
    requires facts.Valid() && target in facts.sites
    ensures cost.Some? ==> cost.value >= 0.0
  {
    if locations == [] then None
    else
      var rest := CheapestSource(facts, locations[1..], target, size);
      if locations[0] in facts.sites then Cheaper(OneTransfer(facts, locations[0], target, size), rest) else rest
  }

  /** What it costs to bring one artifact to the Worker. */
  function InputCost(facts: Facts, artifact: Artifact, target: WorkerId): (cost: Cost)
    requires facts.Valid() && target in facts.sites
    ensures cost.Some? ==> cost.value >= 0.0
  {
    if target in artifact.locations then Some(0.0)
    else CheapestSource(facts, artifact.locations, target, artifact.size)
  }

  function TotalCost(facts: Facts, artifacts: seq<Artifact>, target: WorkerId): (cost: Cost)
    requires facts.Valid() && target in facts.sites
    ensures cost.Some? ==> cost.value >= 0.0
  {
    if artifacts == [] then Some(0.0)
    else Add(TotalCost(facts, artifacts[..|artifacts| - 1], target),
             InputCost(facts, artifacts[|artifacts| - 1], target))
  }

  lemma {:induction false} InfiniteStays(facts: Facts, artifacts: seq<Artifact>, i: nat, target: WorkerId)
    requires facts.Valid() && target in facts.sites && i <= |artifacts|
    requires TotalCost(facts, artifacts[..i], target).None?
    ensures TotalCost(facts, artifacts, target).None?
    decreases |artifacts| - i
  {
    if i == |artifacts| {
      assert artifacts[..i] == artifacts;
    } else {
      assert artifacts[..i + 1][..i] == artifacts[..i];
      InfiniteStays(facts, artifacts, i + 1, target);
    }
  }

  /** The estimate as it is summed up, leaving at the first artifact without a known source. */
  method EstimateInputTransfer(facts: Facts, artifacts: seq<Artifact>, target: WorkerId) returns (cost: Cost)
    requires facts.Valid() && target in facts.sites
    ensures cost == TotalCost(facts, artifacts, target)
  {
    cost := Some(0.0);
    for i := 0 to |artifacts|
      invariant cost == TotalCost(facts, artifacts[..i], target)
    {
      assert artifacts[..i + 1][..i] == artifacts[..i];
      var artifact := artifacts[i];
      if target in artifact.locations { continue; }
      var choices := [];
      for j := 0 to |artifact.locations|
        invariant forall c <- choices :: CostLe(CheapestSource(facts, artifact.locations, target, artifact.size), c)
        invariant CheapestAmong(choices, CheapestSource(facts, artifact.locations[j..], target, artifact.size))
                  == CheapestSource(facts, artifact.locations, target, artifact.size)
        invariant choices == [] ==> CheapestSource(facts, artifact.locations[j..], target, artifact.size)
                                    == CheapestSource(facts, artifact.locations, target, artifact.size)
      {
        var source := artifact.locations[j];
        assert artifact.locations[j..][1..] == artifact.locations[j + 1..];
        if source in facts.sites {
          var one := OneTransfer(facts, source, target, artifact.size);
          CheapestAmongAppend(choices, one, CheapestSource(facts, artifact.locations[j + 1..], target, artifact.size));
          SourceIsNoCheaper(facts, artifact.locations, target, artifact.size, j);
          choices := choices + [one];
        }
      }
      if choices == [] {
        InfiniteStays(facts, artifacts, i + 1, target);
        return None;
      }
      CheapestAmongFirst(choices);
      cost := Add(cost, CheapestAmong(choices[1..], choices[0]));
    }
    assert artifacts[..|artifacts|] == artifacts;
  }

  /** The minimum of the choices and one more. */
  function CheapestAmong(choices: seq<Cost>, last: Cost): Cost {
    if choices == [] then last else Cheaper(choices[0], CheapestAmong(choices[1..], last))
  }

  lemma {:induction false} CheapestAmongAppend(choices: seq<Cost>, one: Cost, last: Cost)
    ensures CheapestAmong(choices, Cheaper(one, last)) == CheapestAmong(choices + [one], last)
  {
    if choices == [] {
      assert [one][1..] == [];
    } else {
      assert (choices + [one])[1..] == choices[1..] + [one];
      CheapestAmongAppend(choices[1..], one, last);
    }
  }

  lemma {:induction false} CheapestAmongFirst(choices: seq<Cost>)
    requires choices != []
    ensures CheapestAmong(choices, None) == CheapestAmong(choices[1..], choices[0])
  {
    CheapestAmongSwap(choices[1..], choices[0], None);
  }

  lemma {:induction false} CheapestAmongSwap(choices: seq<Cost>, first: Cost, last: Cost)
    ensures Cheaper(first, CheapestAmong(choices, last)) == CheapestAmong(choices, Cheaper(first, last))
  {
    if choices != [] { CheapestAmongSwap(choices[1..], first, last); }
  }

  lemma {:induction false} SourceIsNoCheaper(facts: Facts, locations: seq<WorkerId>, target: WorkerId, size: nat,
                                             j: nat)
    requires facts.Valid() && target in facts.sites && j < |locations| && locations[j] in facts.sites
    ensures CostLe(CheapestSource(facts, locations, target, size), OneTransfer(facts, locations[j], target, size))
  {
    if j > 0 { SourceIsNoCheaper(facts, locations[1..], target, size, j - 1); }
  }

  // ---------- what the estimate means ----------

  /** Some known source reaches the target. */
  ghost predicate Reachable(facts: Facts, artifact: Artifact, target: WorkerId)
    requires facts.Valid() && target in facts.sites
  {
    target in artifact.locations
    || exists j :: 0 <= j < |artifact.locations| && artifact.locations[j] in facts.sites
         && OneTransfer(facts, artifact.locations[j], target, artifact.size).Some?
  }

  lemma {:induction false} CheapestIsAttained(facts: Facts, locations: seq<WorkerId>, target: WorkerId, size: nat)
    requires facts.Valid() && target in facts.sites && CheapestSource(facts, locations, target, size).Some?
    ensures exists j :: 0 <= j < |locations| && locations[j] in facts.sites
              && OneTransfer(facts, locations[j], target, size) == CheapestSource(facts, locations, target, size)
  {
    var rest := CheapestSource(facts, locations[1..], target, size);
    if locations[0] in facts.sites
       && CheapestSource(facts, locations, target, size) == OneTransfer(facts, locations[0], target, size) {
    } else {
      CheapestIsAttained(facts, locations[1..], target, size);
      var j :| 0 <= j < |locations[1..]| && locations[1..][j] in facts.sites
               && OneTransfer(facts, locations[1..][j], target, size) == rest;
      assert locations[j + 1] == locations[1..][j];
    }
  }

  lemma InputCostFinite(facts: Facts, artifact: Artifact, target: WorkerId)
    requires facts.Valid() && target in facts.sites
    ensures InputCost(facts, artifact, target).Some? <==> Reachable(facts, artifact, target)
  {
    if target !in artifact.locations {
      if CheapestSource(facts, artifact.locations, target, artifact.size).Some? {
        CheapestIsAttained(facts, artifact.locations, target, artifact.size);
      }
      if j :| 0 <= j < |artifact.locations| && artifact.locations[j] in facts.sites
              && OneTransfer(facts, artifact.locations[j], target, artifact.size).Some? {
        SourceIsNoCheaper(facts, artifact.locations, target, artifact.size, j);
      }
    }
  }

  /** A replica has a finite estimate exactly when it can reach every input. */
  lemma {:induction false} TotalCostFinite(facts: Facts, artifacts: seq<Artifact>, target: WorkerId)
    requires facts.Valid() && target in facts.sites
    ensures TotalCost(facts, artifacts, target).Some? <==> forall a <- artifacts :: Reachable(facts, a, target)
  {
    if artifacts != [] {
      var n := |artifacts| - 1;
      TotalCostFinite(facts, artifacts[..n], target);
      InputCostFinite(facts, artifacts[n], target);
      assert artifacts == artifacts[..n] + [artifacts[n]];
    }
  }

  // ---------- the time an estimate adds up ----------

  /** After its round trip the link passes the bits of this many bytes in the time. */
  ghost predicate Passes(link: Link, size: nat, time: real) {
    (time - link.rtt) * (link.bandwidth * 1000.0) == size as real * 8.0
  }

  /**
   Moving the bytes takes this long: nothing inside a site, and otherwise the round trip of the first link between
   the two sites and the time that link needs for their bits.
   */
  ghost predicate Takes(facts: Facts, source: WorkerId, target: WorkerId, size: nat, time: real)
    requires source in facts.sites && target in facts.sites
  {
    if facts.sites[source] == facts.sites[target] then time == 0.0
    else
      exists k ::
        && 0 <= k < |facts.links| && IsFirstLink(facts.links, k, facts.sites[source], facts.sites[target])
        && Passes(facts.links[k], size, time)
  }

  /** The pairs of sites that the link joins: from its source to its target, and back when it is bidirectional. */
  ghost function Ways(link: Link): set<(SiteId, SiteId)> {
    {(link.source, link.target)} + if link.bidirectional then {(link.target, link.source)} else {}
  }

  /** Link `k` leads from the one site to the other and no earlier link does. */
  ghost predicate IsFirstLink(links: seq<Link>, k: nat, source: SiteId, target: SiteId)
    requires k < |links|
  {
    (source, target) in Ways(links[k]) && forall j :: 0 <= j < k ==> (source, target) !in Ways(links[j])
  }

  lemma {:induction false} FirstLinkAt(links: seq<Link>, source: SiteId, target: SiteId) returns (k: nat)
    requires FirstLink(links, source, target).Some?
    ensures k < |links| && IsFirstLink(links, k, source, target)
    ensures FirstLink(links, source, target) == Some(links[k])
  {
    if Joins(links[0], source, target) {
      k := 0;
    } else {
      var rest := FirstLinkAt(links[1..], source, target);
      k := rest + 1;
      assert forall j :: 0 < j < k ==> links[j] == links[1..][j - 1];
    }
  }

  lemma SameFactor(x: real, y: real, factor: real)
    requires factor > 0.0 && x * factor == y * factor
    ensures x == y
  {
    assert (x - y) * factor == 0.0;
  }

  lemma PassesOnce(link: Link, size: nat, time: real)
    requires link.bandwidth > 0.0
    ensures Passes(link, size, time) <==> time == link.rtt + size as real * 8.0 / (link.bandwidth * 1000.0)
  {
    var needed := size as real * 8.0 / (link.bandwidth * 1000.0);
    DivideAndMultiply(size as real * 8.0, link.bandwidth * 1000.0);
    if Passes(link, size, time) { SameFactor(time - link.rtt, needed, link.bandwidth * 1000.0); }
  }

  lemma TakesOver(facts: Facts, source: WorkerId, target: WorkerId, size: nat, time: real, k: nat)
    requires source in facts.sites && target in facts.sites && facts.sites[source] != facts.sites[target]
    requires k < |facts.links| && IsFirstLink(facts.links, k, facts.sites[source], facts.sites[target])
    ensures Takes(facts, source, target, size, time) <==> Passes(facts.links[k], size, time)
  {
    OnlyFirstLink(facts.links, k, facts.sites[source], facts.sites[target]);
  }

  lemma NoLinkTakes(facts: Facts, source: WorkerId, target: WorkerId, size: nat, time: real)
    requires source in facts.sites && target in facts.sites && facts.sites[source] != facts.sites[target]
    requires FirstLink(facts.links, facts.sites[source], facts.sites[target]).None?
    ensures !Takes(facts, source, target, size, time)
  {
    FirstLinkFound(facts.links, facts.sites[source], facts.sites[target]);
    if Takes(facts, source, target, size, time) {
      var k :| 0 <= k < |facts.links| && IsFirstLink(facts.links, k, facts.sites[source], facts.sites[target]);
      assert Joins(facts.links[k], facts.sites[source], facts.sites[target]);
    }
  }

  lemma TransferTakes(facts: Facts, source: WorkerId, target: WorkerId, size: nat, time: real)
    requires facts.Valid() && source in facts.sites && target in facts.sites
    ensures OneTransfer(facts, source, target, size) == Some(time) <==> Takes(facts, source, target, size, time)
  {
    var from, to := facts.sites[source], facts.sites[target];
    if from == to {
    } else if FirstLink(facts.links, from, to).None? {
      NoLinkTakes(facts, source, target, size, time);
    } else {
      var k := FirstLinkAt(facts.links, from, to);
      TakesOver(facts, source, target, size, time, k);
      PassesOnce(facts.links[k], size, time);
    }
  }

  lemma OnlyFirstLink(links: seq<Link>, k: nat, source: SiteId, target: SiteId)
    requires k < |links| && IsFirstLink(links, k, source, target)
    ensures forall j :: 0 <= j < |links| && IsFirstLink(links, j, source, target) ==> j == k
  {
  }

  /** The least time in which the artifact gets to the target; none at all where it already is. */
  ghost predicate LeastTime(facts: Facts, artifact: Artifact, target: WorkerId, time: real)
    requires target in facts.sites
  {
    if target in artifact.locations then time == 0.0
    else
      && (exists w :: w in artifact.locations && w in facts.sites && Takes(facts, w, target, artifact.size, time))
      && (forall w, t :: w in artifact.locations && w in facts.sites && Takes(facts, w, target, artifact.size, t) ==>
            time <= t)
  }

  lemma NoSourceIsFaster(facts: Facts, artifact: Artifact, target: WorkerId, w: WorkerId, time: real)
    requires facts.Valid() && target in facts.sites && target !in artifact.locations
    requires w in artifact.locations && w in facts.sites && Takes(facts, w, target, artifact.size, time)
    ensures InputCost(facts, artifact, target).Some? && InputCost(facts, artifact, target).value <= time
  {
    var j :| 0 <= j < |artifact.locations| && artifact.locations[j] == w;
    TransferTakes(facts, w, target, artifact.size, time);
    SourceIsNoCheaper(facts, artifact.locations, target, artifact.size, j);
  }

  lemma FastestSource(facts: Facts, artifact: Artifact, target: WorkerId) returns (w: WorkerId)
    requires facts.Valid() && target in facts.sites && target !in artifact.locations
    requires InputCost(facts, artifact, target).Some?
    ensures w in artifact.locations && w in facts.sites
    ensures Takes(facts, w, target, artifact.size, InputCost(facts, artifact, target).value)
  {
    CheapestIsAttained(facts, artifact.locations, target, artifact.size);
    var cost := InputCost(facts, artifact, target);
    var j :| 0 <= j < |artifact.locations| && artifact.locations[j] in facts.sites
             && OneTransfer(facts, artifact.locations[j], target, artifact.size) == cost;
    w := artifact.locations[j];
    TransferTakes(facts, w, target, artifact.size, cost.value);
  }

  lemma InputCostIsLeast(facts: Facts, artifact: Artifact, target: WorkerId, time: real)
    requires facts.Valid() && target in facts.sites
    ensures InputCost(facts, artifact, target) == Some(time) <==> LeastTime(facts, artifact, target, time)
  {
    if target !in artifact.locations {
      var cost := InputCost(facts, artifact, target);
      forall w, t | w in artifact.locations && w in facts.sites && Takes(facts, w, target, artifact.size, t)
        ensures cost.Some? && cost.value <= t
      {
        NoSourceIsFaster(facts, artifact, target, w, t);
      }
      if cost.Some? { var w := FastestSource(facts, artifact, target); }
    }
  }

  function Total(times: seq<real>): real {
    if times == [] then 0.0 else Total(times[..|times| - 1]) + times[|times| - 1]
  }

  ghost predicate LeastTimes(facts: Facts, artifacts: seq<Artifact>, target: WorkerId, times: seq<real>)
    requires target in facts.sites
  {
    |times| == |artifacts| && forall i :: 0 <= i < |artifacts| ==> LeastTime(facts, artifacts[i], target, times[i])
  }

  lemma {:induction false} CostsAddUp(facts: Facts, artifacts: seq<Artifact>, target: WorkerId, times: seq<real>)
    requires facts.Valid() && target in facts.sites && |times| == |artifacts|
    requires forall i :: 0 <= i < |artifacts| ==> InputCost(facts, artifacts[i], target) == Some(times[i])
    ensures TotalCost(facts, artifacts, target) == Some(Total(times))
  {
    if artifacts != [] { CostsAddUp(facts, artifacts[..|artifacts| - 1], target, times[..|times| - 1]); }
  }

  lemma EstimateIsSum(facts: Facts, artifacts: seq<Artifact>, target: WorkerId, times: seq<real>)
    requires facts.Valid() && target in facts.sites && LeastTimes(facts, artifacts, target, times)
    ensures TotalCost(facts, artifacts, target) == Some(Total(times))
  {
    forall i | 0 <= i < |artifacts|
      ensures InputCost(facts, artifacts[i], target) == Some(times[i])
    {
      InputCostIsLeast(facts, artifacts[i], target, times[i]);
    }
    CostsAddUp(facts, artifacts, target, times);
  }

  lemma {:induction false} TimesOfEstimate(facts: Facts, artifacts: seq<Artifact>, target: WorkerId)
    returns (times: seq<real>)
    requires facts.Valid() && target in facts.sites && TotalCost(facts, artifacts, target).Some?
    ensures LeastTimes(facts, artifacts, target, times)
  {
    times := [];
    if artifacts != [] {
      var n := |artifacts| - 1;
      times := TimesOfEstimate(facts, artifacts[..n], target);
      var last := InputCost(facts, artifacts[n], target).value;
      InputCostIsLeast(facts, artifacts[n], target, last);
      times := times + [last];
    }
  }

  /** A finite estimate is the sum of the least times of all the inputs. */
  lemma EstimateAddsUp(facts: Facts, artifacts: seq<Artifact>, target: WorkerId, time: real)
    requires facts.Valid() && target in facts.sites
    ensures TotalCost(facts, artifacts, target) == Some(time) <==>
            exists times :: LeastTimes(facts, artifacts, target, times) && time == Total(times)
  {
    if TotalCost(facts, artifacts, target) == Some(time) {
      var times := TimesOfEstimate(facts, artifacts, target);
      EstimateIsSum(facts, artifacts, target, times);
    }
    if times :| LeastTimes(facts, artifacts, target, times) && time == Total(times) {
      EstimateIsSum(facts, artifacts, target, times);
    }
  }

  /** The artifacts of `more` are those of `fewer`, each with at least its locations. */
  ghost predicate Spread(fewer: seq<Artifact>, more: seq<Artifact>) {
    && |fewer| == |more|
    && forall i :: 0 <= i < |fewer| ==>
         more[i].size == fewer[i].size && forall w <- fewer[i].locations :: w in more[i].locations
  }

  lemma SpreadInput(facts: Facts, fewer: Artifact, more: Artifact, target: WorkerId)
    requires facts.Valid() && target in facts.sites
    requires more.size == fewer.size && forall w <- fewer.locations :: w in more.locations
    ensures CostLe(InputCost(facts, more, target), InputCost(facts, fewer, target))
  {
    if target !in more.locations && CheapestSource(facts, fewer.locations, target, fewer.size).Some? {
      CheapestIsAttained(facts, fewer.locations, target, fewer.size);
      var j :| 0 <= j < |fewer.locations| && fewer.locations[j] in facts.sites
               && OneTransfer(facts, fewer.locations[j], target, fewer.size)
                  == CheapestSource(facts, fewer.locations, target, fewer.size);
      assert fewer.locations[j] in more.locations;
      var k :| 0 <= k < |more.locations| && more.locations[k] == fewer.locations[j];
      SourceIsNoCheaper(facts, more.locations, target, more.size, k);
    }
  }

  /** Adding locations never raises an estimate. */
  lemma {:induction false} SpreadNeverCosts(facts: Facts, fewer: seq<Artifact>, more: seq<Artifact>, target: WorkerId)
    requires facts.Valid() && target in facts.sites && Spread(fewer, more)
    ensures CostLe(TotalCost(facts, more, target), TotalCost(facts, fewer, target))
  {
    if fewer != [] {
      var n := |fewer| - 1;
      SpreadNeverCosts(facts, fewer[..n], more[..n], target);
      SpreadInput(facts, fewer[n], more[n], target);
    }
  }

  // ---------- the scheduler ----------

  datatype Ranked = Ranked(cost: Cost, executor: Executor)

  function RankLe(a: Ranked, b: Ranked): bool {
    if a.cost == b.cost then Json.CompareStrings(a.executor.id, b.executor.id) <= 0 else CostLe(a.cost, b.cost)
  }

  lemma RankOrder()
    ensures TotalPreorder(RankLe)
  {
    forall x, y
      ensures RankLe(x, y) || RankLe(y, x)
    {
      Json.CompareStringsAntisymmetric(x.executor.id, y.executor.id);
    }
    forall x, y, z | RankLe(x, y) && RankLe(y, z)
      ensures RankLe(x, z)
    {
      if x.cost == y.cost == z.cost {
        Json.CompareStringsTransitive(x.executor.id, y.executor.id, z.executor.id);
      }
    }
  }

  predicate Placed(facts: Facts, executors: seq<Executor>) {
    forall i :: 0 <= i < |executors| ==> executors[i].worker in facts.sites
  }

  function RankAll(facts: Facts, inputs: seq<Artifact>, executors: seq<Executor>): (ranked: seq<Ranked>)
    requires facts.Valid() && Placed(facts, executors)
    ensures |ranked| == |executors|
    ensures forall i :: 0 <= i < |executors| ==>
              ranked[i] == Ranked(TotalCost(facts, inputs, executors[i].worker), executors[i])
  {
    seq(|executors|, i requires 0 <= i < |executors| =>
          Ranked(TotalCost(facts, inputs, executors[i].worker), executors[i]))
  }

  /** `None` stands for NoExecutorAvailableError. */
  function Select(facts: Facts, inputs: seq<Artifact>, candidates: seq<Executor>): Option<Executor>
    requires facts.Valid() && Placed(facts, candidates)
  {
    var ranked := Sort(RankAll(facts, inputs, candidates), RankLe);
    if ranked == [] || ranked[0].cost.None? then None else Some(ranked[0].executor)
  }

  /** The chosen replica is a cheapest one, and among the cheapest the one with the smallest id. */
  ghost predicate Best(facts: Facts, inputs: seq<Artifact>, candidates: seq<Executor>, best: Executor)
    requires facts.Valid() && Placed(facts, candidates) && best.worker in facts.sites
  {
    && best in candidates && TotalCost(facts, inputs, best.worker).Some?
    && forall i :: 0 <= i < |candidates| ==>
         var e := candidates[i];
         && CostLe(TotalCost(facts, inputs, best.worker), TotalCost(facts, inputs, e.worker))
         && (TotalCost(facts, inputs, e.worker) == TotalCost(facts, inputs, best.worker) ==>
               Json.CompareStrings(best.id, e.id) <= 0)
  }

  lemma FirstRankedIsLeast(facts: Facts, inputs: seq<Artifact>, candidates: seq<Executor>)
    requires facts.Valid() && Placed(facts, candidates) && candidates != []
    ensures
      var all, ranked := RankAll(facts, inputs, candidates), Sort(RankAll(facts, inputs, candidates), RankLe);
      ranked != [] && ranked[0] in all && forall r <- all :: RankLe(ranked[0], r)
  {
    var all := RankAll(facts, inputs, candidates);
    RankOrder();
    SortPermutes(all, RankLe);
    SortSorts(all, RankLe);
    SortElements(all, RankLe);
    var ranked := Sort(all, RankLe);
    forall r | r in all
      ensures RankLe(ranked[0], r)
    {
      var k :| 0 <= k < |ranked| && ranked[k] == r;
      assert k == 0 ==> RankLe(r, r);
    }
  }

  /**
   The scheduler chooses a best replica whenever some replica reaches every input, and fails exactly when each
   replica has an input it cannot reach.
   */
  lemma SelectsBest(facts: Facts, inputs: seq<Artifact>, candidates: seq<Executor>)
    requires facts.Valid() && Placed(facts, candidates)
    ensures var chosen := Select(facts, inputs, candidates);
            chosen.Some? ==> chosen.value.worker in facts.sites && Best(facts, inputs, candidates, chosen.value)
    ensures Select(facts, inputs, candidates).None? <==>
            forall i :: 0 <= i < |candidates| ==> exists a :: a in inputs && !Reachable(facts, a, candidates[i].worker)
  {
    var all := RankAll(facts, inputs, candidates);
    forall i | 0 <= i < |candidates|
      ensures all[i].cost.None? <==> exists a :: a in inputs && !Reachable(facts, a, candidates[i].worker)
    {
      TotalCostFinite(facts, inputs, candidates[i].worker);
    }
    if candidates != [] {
      FirstRankedIsLeast(facts, inputs, candidates);
      var first := Sort(all, RankLe)[0];
      var k :| 0 <= k < |all| && all[k] == first;
      forall i | 0 <= i < |candidates|
        ensures RankLe(first, all[i])
      {
        assert all[i] in all;
      }
    }
  }

  /** The declaration order of the replicas does not matter, since their ids differ. */
  lemma SelectIgnoresOrder(facts: Facts, inputs: seq<Artifact>, candidates: seq<Executor>, permuted: seq<Executor>)
    requires facts.Valid() && Placed(facts, candidates) && Placed(facts, permuted)
    requires multiset(candidates) == multiset(permuted)
    requires forall i, j :: 0 <= i < j < |candidates| ==> candidates[i].id != candidates[j].id
    ensures Select(facts, inputs, candidates) == Select(facts, inputs, permuted)
  {
    SelectsBest(facts, inputs, candidates);
    SelectsBest(facts, inputs, permuted);
    SameElements(candidates, permuted);
    var a, b := Select(facts, inputs, candidates), Select(facts, inputs, permuted);
    if a.Some? && b.Some? {
      BestIsUnique(facts, inputs, candidates, permuted, a.value, b.value);
    }
  }

  lemma SameElements(a: seq<Executor>, b: seq<Executor>)
    requires multiset(a) == multiset(b)
    ensures forall i :: 0 <= i < |a| ==> exists j :: 0 <= j < |b| && b[j] == a[i]
    ensures forall j :: 0 <= j < |b| ==> exists i :: 0 <= i < |a| && a[i] == b[j]
  {
    forall i | 0 <= i < |a|
      ensures exists j :: 0 <= j < |b| && b[j] == a[i]
    {
      assert a[i] in multiset(b);
    }
    forall j | 0 <= j < |b|
      ensures exists i :: 0 <= i < |a| && a[i] == b[j]
    {
      assert b[j] in multiset(a);
    }
  }

  lemma BestAgainst(facts: Facts, inputs: seq<Artifact>, candidates: seq<Executor>, x: Executor, y: Executor)
    requires facts.Valid() && Placed(facts, candidates) && x.worker in facts.sites && y.worker in facts.sites
    requires Best(facts, inputs, candidates, x) && y in candidates
    ensures CostLe(TotalCost(facts, inputs, x.worker), TotalCost(facts, inputs, y.worker))
    ensures TotalCost(facts, inputs, y.worker) == TotalCost(facts, inputs, x.worker) ==>
              Json.CompareStrings(x.id, y.id) <= 0
  {
  }

  lemma BestIsUnique(facts: Facts, inputs: seq<Artifact>, candidates: seq<Executor>, permuted: seq<Executor>,
                     x: Executor, y: Executor)
    requires facts.Valid() && Placed(facts, candidates) && Placed(facts, permuted)
    requires multiset(candidates) == multiset(permuted)
    requires forall i, j :: 0 <= i < j < |candidates| ==> candidates[i].id != candidates[j].id
    requires x.worker in facts.sites && y.worker in facts.sites
    requires Best(facts, inputs, candidates, x) && Best(facts, inputs, permuted, y)
    ensures x == y
  {
    assert y in multiset(permuted) && x in multiset(candidates);
    BestAgainst(facts, inputs, candidates, x, y);
    BestAgainst(facts, inputs, permuted, y, x);
    Json.CompareStringsAntisymmetric(x.id, y.id);
    Json.CompareStringsZero(x.id, y.id);
  }

  // ---------- the order of the links ----------

  function LinkLe(a: Link, b: Link): bool {
    var c := Json.CompareStrings(a.source, b.source);
    c < 0 || (c == 0 && Json.CompareStrings(a.target, b.target) <= 0)
  }

  /** The provider keeps the links sorted by their two sites. */
  function FactsFrom(sites: map<WorkerId, SiteId>, links: seq<Link>): Facts {
    Facts(sites, Sort(links, LinkLe))
  }

  lemma LinkOrder()
    ensures TotalPreorder(LinkLe)
  {
    forall x, y
      ensures LinkLe(x, y) || LinkLe(y, x)
    {
      Json.CompareStringsAntisymmetric(x.source, y.source);
      Json.CompareStringsAntisymmetric(x.target, y.target);
    }
    forall x, y, z | LinkLe(x, y) && LinkLe(y, z)
      ensures LinkLe(x, z)
    {
      Json.CompareStringsZero(x.source, y.source);
      Json.CompareStringsZero(y.source, z.source);
      Json.CompareStringsZero(x.source, z.source);
      Json.CompareStringsTransitive(x.source, y.source, z.source);
      if x.source == y.source == z.source { Json.CompareStringsTransitive(x.target, y.target, z.target); }
      if Json.CompareStrings(x.source, z.source) == 0 { Json.CompareStringsAntisymmetric(x.source, y.source); }
    }
  }

  /** The source of the one link comes first, or it has the same source and its target does. */
  ghost predicate NoLater(a: Link, b: Link) {
    || Json.ComesBefore(a.source, b.source)
    || (a.source == b.source && (a.target == b.target || Json.ComesBefore(a.target, b.target)))
  }

  lemma LinkLeIs(a: Link, b: Link)
    requires LinkLe(a, b)
    ensures NoLater(a, b)
  {
    Json.StringOrder(a.source, b.source);
    Json.StringOrder(a.target, b.target);
  }

  /**
   Where several links join two sites, the provider uses the one whose own source comes first, and of those the one
   whose target does.
   */
  lemma LinkUsedIsSmallest(sites: map<WorkerId, SiteId>, links: seq<Link>, source: SiteId, target: SiteId, other: Link)
    requires FactsFrom(sites, links).Valid() && other in links && (source, target) in Ways(other)
    ensures
      var used := LinkBetween(FactsFrom(sites, links), source, target);
      && used.Some? && used.value in links && (source, target) in Ways(used.value) && NoLater(used.value, other)
  {
    var sorted := Sort(links, LinkLe);
    LinkOrder();
    SortElements(links, LinkLe);
    SortSorts(links, LinkLe);
    var i :| 0 <= i < |sorted| && sorted[i] == other;
    FirstLinkFound(sorted, source, target);
    var k := FirstLinkAt(sorted, source, target);
    assert k <= i && LinkLe(sorted[k], other);
    LinkLeIs(sorted[k], other);
  }

  /** With at most one link from each site to each other, the declaration order of the links does not matter. */
  lemma FactsIgnoreOrder(sites: map<WorkerId, SiteId>, links: seq<Link>, permuted: seq<Link>)
    requires multiset(links) == multiset(permuted)
    requires forall a, b :: a in links && b in links && a.source == b.source && a.target == b.target ==> a == b
    ensures FactsFrom(sites, links) == FactsFrom(sites, permuted)
  {
    LinkOrder();
    forall x, y | x in links && y in links && LinkLe(x, y) && LinkLe(y, x)
      ensures x == y
    {
      Json.CompareStringsAntisymmetric(x.source, y.source);
      Json.CompareStringsAntisymmetric(x.target, y.target);
      Json.CompareStringsZero(x.source, y.source);
      Json.CompareStringsZero(x.target, y.target);
    }
    SortOfPermutation(links, permuted, LinkLe);
  }

  // ---------- after the inputs were moved ----------

  function Localized(inputs: seq<Artifact>, w: WorkerId): seq<Artifact> {
    seq(|inputs|, i requires 0 <= i < |inputs| =>
          if w in inputs[i].locations then inputs[i] else inputs[i].(locations := inputs[i].locations + [w]))
  }

  lemma {:induction false} LocalCostsNothing(facts: Facts, inputs: seq<Artifact>, w: WorkerId)
    requires facts.Valid() && w in facts.sites && forall i :: 0 <= i < |inputs| ==> w in inputs[i].locations
    ensures TotalCost(facts, inputs, w) == Some(0.0)
  {
    if inputs != [] { LocalCostsNothing(facts, inputs[..|inputs| - 1], w); }
  }

  lemma LocalizedNeverCosts(facts: Facts, inputs: seq<Artifact>, chosen: WorkerId)
    requires facts.Valid()
    ensures forall w <- facts.sites ::
              CostLe(TotalCost(facts, Localized(inputs, chosen), w), TotalCost(facts, inputs, w))
  {
    forall w | w in facts.sites
      ensures CostLe(TotalCost(facts, Localized(inputs, chosen), w), TotalCost(facts, inputs, w))
    {
      SpreadNeverCosts(facts, inputs, Localized(inputs, chosen), w);
    }
  }

  /** A replica that costs nothing makes the choice cost nothing. */
  lemma FreeChoice(facts: Facts, inputs: seq<Artifact>, candidates: seq<Executor>, k: nat)
    requires facts.Valid() && Placed(facts, candidates) && k < |candidates|
    requires TotalCost(facts, inputs, candidates[k].worker) == Some(0.0)
    ensures var chosen := Select(facts, inputs, candidates);
            && chosen.Some? && chosen.value.worker in facts.sites
            && TotalCost(facts, inputs, chosen.value.worker) == Some(0.0)
  {
    SelectsBest(facts, inputs, candidates);
    TotalCostFinite(facts, inputs, candidates[k].worker);
  }

  /** Once the inputs are at the chosen Worker, no estimate has risen and the choice costs nothing. */
  lemma LocalizedChoiceIsFree(facts: Facts, inputs: seq<Artifact>, candidates: seq<Executor>)
    requires facts.Valid() && Placed(facts, candidates) && Select(facts, inputs, candidates).Some?
    ensures
      var moved := Localized(inputs, Select(facts, inputs, candidates).value.worker);
      var again := Select(facts, moved, candidates);
      && again.Some? && again.value.worker in facts.sites
      && TotalCost(facts, moved, again.value.worker) == Some(0.0)
      && forall w <- facts.sites :: CostLe(TotalCost(facts, moved, w), TotalCost(facts, inputs, w))
  {
    SelectsBest(facts, inputs, candidates);
    var chosen := Select(facts, inputs, candidates).value;
    var k :| 0 <= k < |candidates| && candidates[k] == chosen;
    LocalCostsNothing(facts, Localized(inputs, chosen.worker), chosen.worker);
    LocalizedNeverCosts(facts, inputs, chosen.worker);
    FreeChoice(facts, Localized(inputs, chosen.worker), candidates, k);
  }

  // ---------- the Worker for an operator ----------

  /** Input bytes that the Worker already stores. */
  function LocalBytes(inputs: seq<Artifact>, w: WorkerId): nat {
    if inputs == [] then 0
    else (if w in inputs[0].locations then inputs[0].size else 0) + LocalBytes(inputs[1..], w)
  }

  function MissingBytes(inputs: seq<Artifact>, w: WorkerId): nat {
    if inputs == [] then 0
    else (if w in inputs[0].locations then 0 else inputs[0].size) + MissingBytes(inputs[1..], w)
  }

  function AllBytes(inputs: seq<Artifact>): nat {
    if inputs == [] then 0 else inputs[0].size + AllBytes(inputs[1..])
  }

  lemma {:induction false} BytesSplit(inputs: seq<Artifact>, w: WorkerId)
    ensures LocalBytes(inputs, w) + MissingBytes(inputs, w) == AllBytes(inputs)
  {
    if inputs != [] { BytesSplit(inputs[1..], w); }
  }

  /** The first element with the largest number of local bytes. */
  function FirstMost(workers: seq<WorkerId>, inputs: seq<Artifact>): WorkerId
    requires workers != []
  {
    if |workers| == 1 then workers[0]
    else
      var best := FirstMost(workers[..|workers| - 1], inputs);
      var last := workers[|workers| - 1];
      if LocalBytes(inputs, last) > LocalBytes(inputs, best) then last else best
  }

  /** `capable` are the Workers that answered and offer the operator; `None` stands for WorkerUnavailableError. */
  function SelectMediaWorker(capable: set<WorkerId>, inputs: seq<Artifact>): Option<WorkerId> {
    if capable == {} then None
    else
      var sorted := Json.SortedKeys(capable);
      assert sorted != [] by { var w :| w in capable; assert w in sorted; }
      Some(FirstMost(sorted, inputs))
  }

  lemma {:induction false} FirstMostIs(workers: seq<WorkerId>, inputs: seq<Artifact>) returns (k: nat)
    requires workers != []
    ensures k < |workers| && FirstMost(workers, inputs) == workers[k]
    ensures forall i :: 0 <= i < |workers| ==> LocalBytes(inputs, workers[i]) <= LocalBytes(inputs, workers[k])
    ensures forall i :: 0 <= i < k ==> LocalBytes(inputs, workers[i]) < LocalBytes(inputs, workers[k])
  {
    var n := |workers| - 1;
    if n == 0 {
      k := 0;
    } else {
      k := FirstMostIs(workers[..n], inputs);
      if LocalBytes(inputs, workers[n]) > LocalBytes(inputs, workers[k]) { k := n; }
    }
  }

  /** The selected Worker needs the fewest bytes moved, and it has the smallest id among those. */
  lemma MediaWorkerMovesLeast(capable: set<WorkerId>, inputs: seq<Artifact>)
    ensures SelectMediaWorker(capable, inputs).None? <==> capable == {}
    ensures capable != {} ==>
              var chosen := SelectMediaWorker(capable, inputs).value;
              && chosen in capable
              && forall w <- capable ::
                   && MissingBytes(inputs, chosen) <= MissingBytes(inputs, w)
                   && (MissingBytes(inputs, w) == MissingBytes(inputs, chosen) ==>
                          w == chosen || Json.ComesBefore(chosen, w))
  {
    if capable != {} {
      var sorted := Json.SortedKeys(capable);
      var k := FirstMostIs(sorted, inputs);
      forall w | w in capable
        ensures MissingBytes(inputs, sorted[k]) <= MissingBytes(inputs, w)
        ensures MissingBytes(inputs, w) == MissingBytes(inputs, sorted[k]) ==>
                  w == sorted[k] || Json.ComesBefore(sorted[k], w)
      {
        assert w in sorted;
        var i :| 0 <= i < |sorted| && sorted[i] == w;
        BytesSplit(inputs, w);
        BytesSplit(inputs, sorted[k]);
        Json.StringOrder(sorted[k], w);
      }
    }
  }
}
