/**
 What every step of the transfer protocol keeps, failing pulls included.
 */
module ProtocolInvariant {
  import opened Options
  import opened Sequences
  import opened Protocol

  // ---------- the invariant ----------

  /** Locations are unique, start with the original Worker, and each stores a copy of the right size. */
  ghost predicate RefOk(s: State, ref: Ref) {
    && ref.id in s.sizes && ref.id in s.origins
    && ref.locations != [] && ref.locations[0] == s.origins[ref.id]
    && NoDuplicates(ref.locations)
    && forall w <- ref.locations :: HasCopy(s, Key(ref.id, w))
  }

  ghost predicate RefsOk(s: State) {
    forall i :: 0 <= i < |s.refs| ==> RefOk(s, s.refs[i])
  }

  ghost predicate CompletedOk(s: State) {
    forall key <- s.completed :: HasCopy(s, key)
  }

  /** A held lock belongs to an action that is localizing exactly that artifact at that Worker. */
  ghost predicate LocksOk(s: State) {
    forall key <- s.locks :: s.locks[key].Some? ==> Holds(s, s.locks[key].value, key)
  }

  ghost predicate Holds(s: State, a: ActionId, key: Key) {
    ValidIndices(s, a) && Holding(PhaseOf(s, a)) && CurrentKey(s, a) == key
  }

  /** Bytes that successful transfers of the artifact to the Worker have reported. */
  function Moved(events: seq<Event>, key: Key): nat {
    if events == [] then 0
    else
      var n := |events| - 1;
      Moved(events[..n], key) + BytesOf(events[n], key)
  }

  function BytesOf(e: Event, key: Key): nat {
    if e.TransferEnded? && e.success && Key(e.artifact, e.target) == key then e.bytes else 0
  }

  ghost predicate MovedOk(s: State) {
    forall key :: Moved(s.events, key) == 0 || (HasCopy(s, key) && Moved(s.events, key) == s.sizes[key.artifact])
  }

  ghost predicate Unlisted(s: State, key: Key) {
    forall i :: 0 <= i < |s.refs| && s.refs[i].id == key.artifact ==> key.worker !in s.refs[i].locations
  }

  /** How many inputs are known to be local. */
  function LocalInputs(t: Task): nat {
    match t.phase
    case Failed => 0
    case Running => |t.inputs|
    case Ending => |t.inputs|
    case Failing => |t.inputs|
    case Announced(_) => |t.inputs|
    case _ => t.phase.i
  }

  ghost predicate InputsLocal(s: State, a: ActionId)
    requires ValidIndices(s, a)
  {
    var t := s.tasks[a];
    forall j :: 0 <= j < LocalInputs(t) ==> HasCopy(s, Key(s.refs[t.inputs[j]].id, t.worker))
  }

  /** The stage of a pull, for the action that holds the lock. */
  ghost predicate StageOk(s: State, a: ActionId)
    requires ValidIndices(s, a) && Holding(PhaseOf(s, a))
  {
    var p, t, key := PhaseOf(s, a), s.tasks[a], CurrentKey(s, a);
    && key in s.locks && s.locks[key] == Some(a)
    && t.worker in s.clients && p.source in s.clients
    && (key.artifact in s.origins && s.origins[key.artifact] in s.clients ==> p.source == s.origins[key.artifact])
    && (Pulls(p) ==> t.worker !in s.refs[CurrentRef(s, a)].locations && key !in s.completed)
    && (p.Fetching? ==> key !in s.stores)
    && (p.Verifying? ==> key in s.stores && s.stores[key] == p.written && Unlisted(s, key) && Moved(s.events, key) == 0)
    && (p.Returned? || p.Finishing? ==>
          && HasCopy(s, key)
          && (p.bytes == 0 || p.bytes == s.sizes[key.artifact])
          && (p.bytes == 0 || Moved(s.events, key) == 0))
  }

  ghost predicate TaskOk(s: State, a: ActionId) {
    && ValidIndices(s, a)
    && InputsLocal(s, a)
    && (PhaseOf(s, a).Waiting? ==> CurrentKey(s, a) in s.locks)
    && (Holding(PhaseOf(s, a)) ==> StageOk(s, a))
  }

  ghost predicate TasksOk(s: State) {
    forall a <- s.tasks :: TaskOk(s, a)
  }

  ghost predicate Inv(s: State) {
    RefsOk(s) && CompletedOk(s) && LocksOk(s) && MovedOk(s) && TasksOk(s)
  }

  // ---------- framing ----------

  /** What no step takes back. */
  ghost predicate Grows(s: State, s': State) {
    && s'.clients == s.clients
    && |s.refs| <= |s'.refs|
    && (forall i :: 0 <= i < |s.refs| ==> s'.refs[i].id == s.refs[i].id)
    && (forall key :: HasCopy(s, key) ==> HasCopy(s', key))
    && (forall x <- s.sizes :: x in s'.sizes && s'.sizes[x] == s.sizes[x])
    && (forall x <- s.origins :: x in s'.origins && s'.origins[x] == s.origins[x])
    && s.locks.Keys <= s'.locks.Keys
  }

  /** Nothing that concerns the holder of `key` (pulling through ref `r`) changes. */
  ghost predicate KeyUntouched(s: State, s': State, key: Key, r: RefId) {
    && r < |s.refs| <= |s'.refs|
    && (key in s.locks ==> key in s'.locks && s'.locks[key] == s.locks[key])
    && (key in s'.stores <==> key in s.stores)
    && (key in s.stores ==> s'.stores[key] == s.stores[key])
    && (key in s'.completed ==> key in s.completed)
    && (key.artifact in s'.origins ==> key.artifact in s.origins)
    && Moved(s'.events, key) == Moved(s.events, key)
    && (key.worker in s'.refs[r].locations ==> key.worker in s.refs[r].locations)
    && (Unlisted(s, key) ==> Unlisted(s', key))
  }

  lemma TaskFrame(s: State, s': State, b: ActionId)
    requires TaskOk(s, b) && Grows(s, s')
    requires b in s'.tasks && s'.tasks[b] == s.tasks[b]
    requires Pulls(PhaseOf(s, b)) ==> KeyUntouched(s, s', CurrentKey(s, b), CurrentRef(s, b))
    requires Holding(PhaseOf(s, b)) && !Pulls(PhaseOf(s, b)) ==>
      && CurrentKey(s, b) in s'.locks && s'.locks[CurrentKey(s, b)] == s.locks[CurrentKey(s, b)]
      && Moved(s'.events, CurrentKey(s, b)) == Moved(s.events, CurrentKey(s, b))
      && (CurrentKey(s, b).artifact in s'.origins ==> CurrentKey(s, b).artifact in s.origins)
    ensures TaskOk(s', b)
  {
  }

  lemma RefFrame(s: State, s': State, ref: Ref)
    requires RefOk(s, ref) && Grows(s, s')
    ensures RefOk(s', ref)
  {
  }

  /** Two actions never hold the lock of the same key, so at most one pull per key is in flight. */
  lemma HolderIsUnique(s: State, a: ActionId, b: ActionId)
    requires TasksOk(s) && a in s.tasks && b in s.tasks
    requires Holding(PhaseOf(s, a)) && Holding(PhaseOf(s, b))
    requires ValidIndices(s, a) && ValidIndices(s, b) && CurrentKey(s, a) == CurrentKey(s, b)
    ensures a == b
  {
  }
}
