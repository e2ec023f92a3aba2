/**
 The objects behind the protocol: `ArtifactRef`, the store of one Worker, and the transfer manager.
 Each method is the code between two suspension points, and its contract says which protocol step it is.
 */
module Transfer {
  import opened Options
  import opened Sequences
  import opened Protocol

  newtype byte = b: int | 0 <= b < 256

  class ArtifactRef {
    const id: ArtifactId
    const sizeBytes: nat
    var locations: seq<WorkerId>

    constructor (id: ArtifactId, sizeBytes: nat, locations: seq<WorkerId>)
      ensures this.id == id && this.sizeBytes == sizeBytes && this.locations == locations
    {
      this.id, this.sizeBytes, this.locations := id, sizeBytes, locations;
    }
  }

  // ---------- the store of one Worker ----------

  function Flatten(chunks: seq<seq<byte>>): seq<byte> {
    if chunks == [] then [] else Flatten(chunks[..|chunks| - 1]) + chunks[|chunks| - 1]
  }

  /** What arrives over the wire: the chunks, and whether the stream ended well. */
  datatype Stream = Stream(chunks: seq<seq<byte>>, broken: bool)

  class ArtifactStore {
    const worker: WorkerId
    var files: map<ArtifactId, seq<byte>>

    constructor (worker: WorkerId)
      ensures this.worker == worker && files == map[]
    {
      this.worker, files := worker, map[];
    }

    /** This store is the Worker's part of `s.stores`. */
    ghost predicate Shows(s: State)
      reads this
    {
      forall x: ArtifactId ::
        && (x in files <==> Key(x, worker) in s.stores)
        && (x in files ==> |files[x]| == s.stores[Key(x, worker)])
    }

    /** Chunks gather in a temporary file that replaces the artifact only after the last one. */
    method PutStream(id: ArtifactId, stream: Stream) returns (size: Option<nat>)
      modifies this
      ensures stream.broken ==> size == None && files == old(files)
      ensures !stream.broken ==>
        && files == old(files)[id := Flatten(stream.chunks)]
        && size == Some(|Flatten(stream.chunks)|)
    {
      var temporary: seq<byte> := [];
      var sizeBytes := 0;
      for i := 0 to |stream.chunks|
        invariant temporary == Flatten(stream.chunks[..i]) && sizeBytes == |temporary|
        invariant files == old(files)
      {
        assert stream.chunks[..i + 1][..i] == stream.chunks[..i];
        if stream.chunks[i] != [] {
          temporary := temporary + stream.chunks[i];
          sizeBytes := sizeBytes + |stream.chunks[i]|;
        }
      }
      assert stream.chunks[..|stream.chunks|] == stream.chunks;
      if stream.broken { return None; }
      files := files[id := temporary];
      size := Some(sizeBytes);
    }

    method Delete(id: ArtifactId)
      modifies this
      ensures files == old(files) - {id}
    {
      if id in files { files := files - {id}; }
    }

    /** The first segment of a pull: a local file of the right size ends it, one of another size fails it. */
    method LookForFile(artifact: ArtifactRef, ghost s: State, ghost a: ActionId) returns (found: Option<bool>)
      requires Enabled(s, FindFile(a)) && CurrentKey(s, a) == Key(artifact.id, worker)
      requires Shows(s) && artifact.id in s.sizes && s.sizes[artifact.id] == artifact.sizeBytes
      ensures Shows(Apply(s, FindFile(a)))
      ensures
        var p := PhaseOf(Apply(s, FindFile(a)), a);
        && (found == None <==> p.Aborting?)
        && (found == Some(true) <==> p.Returned? && p.bytes == 0)
        && (found == Some(false) <==> p.Fetching?)
    {
      if artifact.id in files {
        if |files[artifact.id]| != artifact.sizeBytes { return None; }
        return Some(true);
      }
      found := Some(false);
    }

    /** The second segment: the bytes that arrived replace the file; a broken stream leaves no trace. */
    method Fetch(artifact: ArtifactRef, stream: Stream, ghost s: State, ghost a: ActionId) returns (size: Option<nat>)
      requires ValidIndices(s, a) && PhaseOf(s, a).Fetching? && CurrentKey(s, a) == Key(artifact.id, worker)
      requires Shows(s)
      modifies this
      ensures size.Some? ==> Shows(Apply(s, WriteFile(a, size.value))) && artifact.id in files
      ensures size.None? ==> Shows(Apply(s, PullFails(a)))
      ensures size.Some? <==> !stream.broken
    {
      size := PutStream(artifact.id, stream);
    }

    /** The last segment: a file of the wrong size is deleted and the pull fails. */
    method CheckFetched(artifact: ArtifactRef, written: nat, ghost s: State, ghost a: ActionId)
      returns (bytes: Option<nat>)
      requires Enabled(s, CheckSize(a)) && CurrentKey(s, a) == Key(artifact.id, worker)
      requires PhaseOf(s, a).written == written
      requires Shows(s) && artifact.id in s.sizes && s.sizes[artifact.id] == artifact.sizeBytes
      modifies this
      ensures Shows(Apply(s, CheckSize(a)))
      ensures
        var p := PhaseOf(Apply(s, CheckSize(a)), a);
        && (bytes == None <==> p.Aborting?)
        && (bytes.Some? ==> p.Returned? && p.bytes == bytes.value)
    {
      if written != artifact.sizeBytes {
        Delete(artifact.id);
        return None;
      }
      bytes := Some(written);
    }
  }

  // ---------- the transfer manager ----------

  /** How the code goes on after a segment. */
  datatype Outcome = Done | Wait | Pull(source: WorkerId) | Error

  class TransferManager {
    const clients: set<WorkerId>
    var locks: map<Key, Option<ActionId>>
    var completed: set<Key>
    var trace: seq<Event>

    constructor (clients: set<WorkerId>)
      ensures this.clients == clients && locks == map[] && completed == {} && trace == []
    {
      this.clients, locks, completed, trace := clients, map[], {}, [];
    }

    /** The manager's tables and the shared refs are those of `s`. */
    ghost predicate Shows(s: State, refs: seq<ArtifactRef>)
      reads this, refs
    {
      && s.clients == clients && s.locks == locks && s.completed == completed && s.events == trace
      && |s.refs| == |refs|
      && NoDuplicates(refs)
      && forall i :: 0 <= i < |refs| ==> s.refs[i] == Ref(refs[i].id, refs[i].locations)
    }

    method LockFor(key: Key)
      modifies this`locks
      ensures locks == if key in old(locks) then old(locks) else old(locks)[key := None]
    {
      if key !in locks { locks := locks[key := None]; }
    }

    method EnsureLocal(refs: seq<ArtifactRef>, ghost s: State, a: ActionId, r: RefId, target: WorkerId)
      returns (outcome: Outcome)
      requires Shows(s, refs) && r < |refs|
      requires Enabled(s, CheckLocal(a))
      requires s.tasks[a].inputs[PhaseOf(s, a).i] == r && s.tasks[a].worker == target
      modifies this
      ensures Shows(Apply(s, CheckLocal(a)), refs)
      ensures outcome == if PhaseOf(Apply(s, CheckLocal(a)), a).Waiting? then Wait else Done
    {
      if target in refs[r].locations { return Done; }
      LockFor(Key(refs[r].id, target));
      outcome := Wait;
    }

    /** The first location that has a client. */
    method FindSource(locations: seq<WorkerId>) returns (source: Option<WorkerId>)
      ensures source == FirstReachable(locations, clients)
    {
      var i := 0;
      while i < |locations| && locations[i] !in clients
        invariant i <= |locations|
        invariant FirstReachable(locations, clients) == FirstReachable(locations[i..], clients)
      {
        i := i + 1;
      }
      source := if i < |locations| then Some(locations[i]) else None;
    }

    /** With the lock just acquired: nothing to do, no way to do it, or pull from the first reachable location. */
    method EnterLocked(refs: seq<ArtifactRef>, ghost s: State, a: ActionId, r: RefId, target: WorkerId)
      returns (outcome: Outcome)
      requires Shows(s, refs) && r < |refs|
      requires Enabled(s, Acquire(a)) && CurrentRef(s, a) == r && s.tasks[a].worker == target
      modifies this, refs[r]
      ensures Shows(Apply(s, Acquire(a)), refs)
      ensures
        var p := PhaseOf(Apply(s, Acquire(a)), a);
        outcome == if p.Localize? then Done else if p.Failed? then Error else Pull(p.source)
    {
      var artifact := refs[r];
      var key := Key(artifact.id, target);
      if key in completed {
        if target !in artifact.locations {
          artifact.locations := artifact.locations + [target];
        }
        return Done;
      }
      if target in artifact.locations {
        completed := completed + {key};
        return Done;
      }
      if target !in clients { return Error; }
      var source := FindSource(artifact.locations);
      if source.None? { return Error; }
      locks := locks[key := Some(a)];
      outcome := Pull(source.value);
    }

    method RecordStart(refs: seq<ArtifactRef>, ghost s: State, a: ActionId, r: RefId, source: WorkerId,
                       target: WorkerId)
      requires Shows(s, refs) && r < |refs|
      requires Enabled(s, Protocol.RecordStart(a)) && CurrentRef(s, a) == r && s.tasks[a].worker == target
      requires PhaseOf(s, a).source == source
      modifies this`trace
      ensures Shows(Apply(s, Protocol.RecordStart(a)), refs)
    {
      trace := trace + [TransferStarted(a, refs[r].id, source, target, |trace|)];
    }

    /** After a pull that reported `bytes`: list the target, unless the count or the location is impossible. */
    method ListTarget(refs: seq<ArtifactRef>, ghost s: State, a: ActionId, r: RefId, target: WorkerId, bytes: nat)
      returns (ok: bool)
      requires Shows(s, refs) && r < |refs|
      requires Enabled(s, ListLocation(a)) && CurrentRef(s, a) == r && s.tasks[a].worker == target
      requires PhaseOf(s, a).bytes == bytes
      requires refs[r].id in s.sizes && s.sizes[refs[r].id] == refs[r].sizeBytes
      modifies refs[r]
      ensures Shows(Apply(s, ListLocation(a)), refs)
      ensures ok <==> PhaseOf(Apply(s, ListLocation(a)), a).Finishing?
    {
      var artifact := refs[r];
      if bytes != 0 && bytes != artifact.sizeBytes { return false; }
      if target in artifact.locations { return false; }
      artifact.locations := artifact.locations + [target];
      ok := true;
    }

    /** Record the end of the transfer, mark the key completed and release the lock. */
    method Complete(refs: seq<ArtifactRef>, ghost s: State, a: ActionId, r: RefId, source: WorkerId, target: WorkerId,
                    bytes: nat)
      requires Shows(s, refs) && r < |refs|
      requires Enabled(s, RecordEnd(a)) && CurrentRef(s, a) == r && s.tasks[a].worker == target
      requires PhaseOf(s, a).source == source && PhaseOf(s, a).bytes == bytes
      modifies this
      ensures Shows(Apply(s, RecordEnd(a)), refs)
    {
      var key := Key(refs[r].id, target);
      trace := trace + [TransferEnded(a, refs[r].id, source, target, bytes, true, |trace|)];
      completed := completed + {key};
      locks := locks[key := None];
    }

    /** Record the failed transfer and release the lock; the key stays open for a retry. */
    method Abort(refs: seq<ArtifactRef>, ghost s: State, a: ActionId, r: RefId, source: WorkerId, target: WorkerId)
      requires Shows(s, refs) && r < |refs|
      requires Enabled(s, RecordAbort(a)) && CurrentRef(s, a) == r && s.tasks[a].worker == target
      requires PhaseOf(s, a).source == source
      modifies this
      ensures Shows(Apply(s, RecordAbort(a)), refs)
    {
      trace := trace + [TransferEnded(a, refs[r].id, source, target, 0, false, |trace|)];
      locks := locks[Key(refs[r].id, target) := None];
    }
  }
}
