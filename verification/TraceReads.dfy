/**
 What the rows say for any event list, in whatever order the events came: when the evidence has all times, in which
 order a row lists its dependencies, and which site an execution is reported under.
 */
module TraceReads {
  import opened Options
  import opened Sequences
  import opened Protocol
  import opened TraceRows
  import opened TraceFacts
  import opened Verdict
  import ExecutionTimes

  // ---------- times ----------

  /** Each end that moved bytes finds the start of its own transfer. */
  ghost predicate DeliveriesMatched(events: seq<Event>) {
    forall i :: 0 <= i < |events| && Delivers(events[i]) ==> Pending(events[..i], WireOf(events[i])) != []
  }

  lemma {:induction false} StartsExactly(events: seq<Event>, registry: Registry, producers: map<ArtifactId, ActionId>)
    requires TransferRows(events, registry, producers).Some?
    ensures DeliveriesMatched(events)
       <==> forall row <- TransferRows(events, registry, producers).value :: row.startedAt.Some?
    ensures forall row <- TransferRows(events, registry, producers).value :: row.finishedAt.Some?
  {
    if events != [] {
      var front, n := Front(events), |events| - 1;
      StartsExactly(front, registry, producers);
      assert forall i :: 0 <= i < n ==> front[i] == events[i] && front[..i] == events[..i];
      assert events[..n] == front;
      if Delivers(events[n]) {
        var rows := TransferRows(events, registry, producers).value;
        assert rows[|rows| - 1] in rows;
      }
    }
  }

  lemma ExecutionsHaveTimes(events: seq<Event>, tables: Tables, registry: Registry)
    requires ExecutionRows(events, tables, registry).Some?
    ensures var rows := ExecutionRows(events, tables, registry).value;
            && (forall row <- rows :: row.startedAt.Some? && row.finishedAt.Some?)
            && (rows != [] <==> exists i :: 0 <= i < |events| && Completes(events[i]))
  {
    var rows := ExecutionRows(events, tables, registry).value;
    var index := ExecutionTimes.ExecutionsAreTraced(events, tables, registry);
    forall row | row in rows
      ensures row.startedAt.Some? && row.finishedAt.Some?
    {
      var p :| 0 <= p < |rows| && rows[p] == row;
      assert ExecutionTimes.TellsEnd(rows[p], events[index[p]], tables, registry);
    }
    if rows != [] { assert ExecutionTimes.TellsEnd(rows[0], events[index[0]], tables, registry); }
  }

  /** For any event list: the times are complete exactly when there is a row and every delivery finds its start. */
  lemma TimesCompleteExactly(events: seq<Event>, registry: Registry, initialSizes: map<ArtifactId, nat>,
                             sites: map<ArtifactId, SiteId>)
    requires EvidenceFor(events, registry, initialSizes, sites).Some?
    ensures EvidenceFor(events, registry, initialSizes, sites).value.timestamps
       <==> DeliveriesMatched(events)
            && exists i :: 0 <= i < |events| && (Delivers(events[i]) || Completes(events[i]))
  {
    var transfers := TransferRows(events, registry, Producers(events)).value;
    StartsExactly(events, registry, Producers(events));
    RowsMeanBytes(events, registry, Producers(events));
    ExecutionsHaveTimes(events, TablesOf(events, initialSizes, transfers), registry);
  }

  // ---------- dependencies ----------

  /** What each input depends on. */
  function EachDependency(a: ActionId, inputs: seq<ArtifactId>, served: map<Demand, TransferRow>,
                          producers: map<ArtifactId, ActionId>): seq<Option<string>>
  {
    seq(|inputs|, i requires 0 <= i < |inputs| => Dependency(Demand(a, inputs[i]), served, producers))
  }

  /** `index` holds the places where each of `ds` is found first, in order, and everything found is among them. */
  ghost predicate FirstFound(ds: seq<string>, index: seq<nat>, found: seq<Option<string>>) {
    && |index| == |ds| && NoDuplicates(ds)
    && (forall k :: 0 <= k < |ds| ==> index[k] < |found| && found[index[k]] == Some(ds[k]))
    && (forall k, m :: 0 <= k < m < |ds| ==> index[k] < index[m])
    && forall p :: 0 <= p < |found| && found[p].Some? ==> FoundBy(ds, index, found[p].value, p)
  }

  ghost predicate FoundBy(ds: seq<string>, index: seq<nat>, d: string, p: nat) {
    exists k :: 0 <= k < |ds| && k < |index| && ds[k] == d && index[k] <= p
  }

  lemma FoundAgain(ds: seq<string>, index: seq<nat>, found: seq<Option<string>>, d: Option<string>)
    requires FirstFound(ds, index, found) && (d.Some? ==> d.value in ds)
    ensures FirstFound(ds, index, found + [d])
  {
    if d.Some? {
      var k :| 0 <= k < |ds| && ds[k] == d.value;
      assert FoundBy(ds, index, d.value, |found|);
    }
  }

  lemma FoundByMore(ds: seq<string>, index: seq<nat>, d: string, place: nat, e: string, p: nat)
    requires FoundBy(ds, index, e, p)
    ensures FoundBy(ds + [d], index + [place], e, p)
  {
    var k :| 0 <= k < |ds| && k < |index| && ds[k] == e && index[k] <= p;
    assert (ds + [d])[k] == e && (index + [place])[k] == index[k];
  }

  lemma FoundNew(ds: seq<string>, index: seq<nat>, found: seq<Option<string>>, d: string)
    requires FirstFound(ds, index, found) && d !in ds
    ensures FirstFound(ds + [d], index + [|found|], found + [Some(d)])
  {
    var n := |found|;
    assert (ds + [d])[|ds|] == d && (index + [n])[|ds|] == n;
    assert FoundBy(ds + [d], index + [n], d, n);
    forall p | 0 <= p < |found + [Some(d)]| && (found + [Some(d)])[p].Some?
      ensures FoundBy(ds + [d], index + [n], (found + [Some(d)])[p].value, p)
    {
      if p < n { FoundByMore(ds, index, d, n, found[p].value, p); }
    }
    NoDuplicatesMore(ds, d);
  }

  lemma NoDuplicatesMore(ds: seq<string>, d: string)
    requires NoDuplicates(ds) && d !in ds
    ensures NoDuplicates(ds + [d])
  {
  }

  /** The dependencies come in the order of the inputs that have them first, each once. */
  lemma {:induction false} DependenciesInOrder(a: ActionId, inputs: seq<ArtifactId>, served: map<Demand, TransferRow>,
                                               producers: map<ArtifactId, ActionId>)
    returns (index: seq<nat>)
    ensures FirstFound(Dependencies(a, inputs, served, producers), index, EachDependency(a, inputs, served, producers))
  {
    if inputs == [] {
      index := [];
    } else {
      var n := |inputs| - 1;
      index := DependenciesInOrder(a, inputs[..n], served, producers);
      var ds := Dependencies(a, inputs[..n], served, producers);
      var found := EachDependency(a, inputs[..n], served, producers);
      var d := Dependency(Demand(a, inputs[n]), served, producers);
      assert EachDependency(a, inputs, served, producers) == found + [d];
      if d.Some? && d.value !in ds {
        FoundNew(ds, index, found, d.value);
        index := index + [n];
      } else {
        FoundAgain(ds, index, found, d);
      }
    }
  }

  // ---------- sites ----------

  /** Sampling is reported at the site of its Worker, whatever its name; any other executor at its registered site. */
  lemma SamplingHasSite(name: string, executor: string, worker: WorkerId, registry: Registry)
    requires worker in registry.workerSites
    ensures SiteOf(name + ":sample_frames", worker, registry) == Some(registry.workerSites[worker])
    ensures (|executor| < |":sample_frames"| || executor[|executor| - |":sample_frames"|..] != ":sample_frames") ==>
              SiteOf(executor, worker, registry)
              == if executor in registry.executorSites then Some(registry.executorSites[executor]) else None
  {
    var text := name + ":sample_frames";
    assert text[|text| - |":sample_frames"|..] == ":sample_frames";
  }

  // ---------- transfer rows and byte columns ----------

  /** For any event list: the transfer rows exist exactly when both Workers of every delivery have a site. */
  lemma {:induction false} TransfersBuiltExactly(events: seq<Event>, registry: Registry,
                                                 producers: map<ArtifactId, ActionId>)
    ensures TransferRows(events, registry, producers).Some?
       <==> forall e <- events | e.TransferEnded? && e.success && e.bytes > 0 ::
              e.source in registry.workerSites.Keys && e.target in registry.workerSites.Keys
  {
    if events != [] {
      TransfersBuiltExactly(Front(events), registry, producers);
      assert events == Front(events) + [Last(events)];
    }
  }

  /** The byte columns of a row add up the known sizes of its artifacts, and an unknown one counts nothing. */
  lemma {:induction false} BytesAddUp(sizes: map<ArtifactId, nat>, ids: seq<ArtifactId>, more: seq<ArtifactId>,
                                      x: ArtifactId)
    ensures TotalBytes(sizes, ids + more) == TotalBytes(sizes, ids) + TotalBytes(sizes, more)
    ensures x in sizes ==> TotalBytes(sizes, [x]) == sizes[x]
    ensures x !in sizes ==> TotalBytes(sizes, [x]) == 0
    ensures TotalBytes(sizes, []) == 0
  {
    assert [x][1..] == [];
    if ids == [] {
      assert ids + more == more;
    } else {
      BytesAddUp(sizes, ids[1..], more, x);
      assert (ids + more)[1..] == ids[1..] + more;
    }
  }
}
