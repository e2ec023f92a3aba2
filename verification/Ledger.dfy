/**
 The planning ledger: completed invocations in a table, and a snapshot that does not depend on the order in
 which they completed.
 */
module Ledger {
  import opened Options
  import opened Sequences
  import opened Sorting
  import Json

  type ArtifactId = string
  type ActionId = string

  datatype Invocation = Invocation(action: ActionId, model: string, inputs: seq<ArtifactId>, outputs: seq<ArtifactId>)
  datatype Usage = Usage(artifact: ArtifactId, count: nat)
  datatype PlanningState = PlanningState(initialInputs: seq<Usage>, unused: seq<ArtifactId>, completed: seq<Invocation>)

  // ---------- the order of the snapshot ----------

  /** The text after the last dash; all of it when there is none. */
  function Suffix(id: ActionId): string {
    if id == [] || '-' !in id then id
    else if id[|id| - 1] == '-' then []
    else Suffix(id[..|id| - 1]) + [id[|id| - 1]]
  }

  /** `number` reads a whole number, as Python's `int` does; `None` stands for its ValueError. */
  function SortNumber(id: ActionId, number: string -> Option<int>): int {
    var n := number(Suffix(id));
    if n.Some? then n.value else 0
  }

  function InvocationLe(number: string -> Option<int>): (Invocation, Invocation) -> bool {
    (a: Invocation, b: Invocation) =>
      var m, n := SortNumber(a.action, number), SortNumber(b.action, number);
      m < n || (m == n && Json.CompareStrings(a.action, b.action) <= 0)
  }

  lemma InvocationOrder(number: string -> Option<int>)
    ensures TotalPreorder(InvocationLe(number))
    ensures forall a, b :: InvocationLe(number)(a, b) && InvocationLe(number)(b, a) ==> a.action == b.action
  {
    var le := InvocationLe(number);
    forall a, b
      ensures le(a, b) || le(b, a)
      ensures le(a, b) && le(b, a) ==> a.action == b.action
    {
      Json.CompareStringsAntisymmetric(a.action, b.action);
      Json.CompareStringsZero(a.action, b.action);
    }
    forall a, b, c | le(a, b) && le(b, c)
      ensures le(a, c)
    {
      if SortNumber(a.action, number) == SortNumber(b.action, number) == SortNumber(c.action, number) {
        Json.CompareStringsTransitive(a.action, b.action, c.action);
      }
    }
  }

  // ---------- use counts ----------

  /** How many invocations used the artifact, each counted once however often it lists it. */
  function Uses(completed: seq<Invocation>, x: ArtifactId): nat {
    if completed == [] then 0
    else
      var n := |completed| - 1;
      Uses(completed[..n], x) + if x in completed[n].inputs then 1 else 0
  }

  function Usages(initial: seq<ArtifactId>, completed: seq<Invocation>): (usages: seq<Usage>)
    ensures |usages| == |initial|
    ensures forall i :: 0 <= i < |initial| ==> usages[i] == Usage(initial[i], Uses(completed, initial[i]))
  {
    seq(|initial|, i requires 0 <= i < |initial| => Usage(initial[i], Uses(completed, initial[i])))
  }

  function Unused(usages: seq<Usage>): seq<ArtifactId> {
    if usages == [] then []
    else
      var n := |usages| - 1;
      Unused(usages[..n]) + if usages[n].count == 0 then [usages[n].artifact] else []
  }

  function SnapshotOf(initial: seq<ArtifactId>, completed: seq<Invocation>,
                      number: string -> Option<int>): PlanningState
  {
    var sorted := Sort(completed, InvocationLe(number));
    PlanningState(Usages(initial, sorted), Unused(Usages(initial, sorted)), sorted)
  }

  ghost predicate UniqueActions(completed: seq<Invocation>) {
    forall i, j :: 0 <= i < j < |completed| ==> completed[i].action != completed[j].action
  }

  predicate Has(completed: seq<Invocation>, action: ActionId) {
    exists i :: 0 <= i < |completed| && completed[i].action == action
  }

  function Elements(ids: seq<ArtifactId>): (elements: set<ArtifactId>)
    ensures forall x :: x in elements <==> x in ids
  {
    if ids == [] then {}
    else
      var n := |ids| - 1;
      assert ids == ids[..n] + [ids[n]];
      Elements(ids[..n]) + {ids[n]}
  }

  lemma NoDuplicatesFront(ids: seq<ArtifactId>)
    requires ids != []
    ensures NoDuplicates(ids) <==> NoDuplicates(ids[..|ids| - 1]) && ids[|ids| - 1] !in ids[..|ids| - 1]
  {
  }

  lemma {:induction false} NoDuplicatesSize(ids: seq<ArtifactId>)
    ensures |Elements(ids)| <= |ids|
    ensures |Elements(ids)| == |ids| <==> NoDuplicates(ids)
  {
    if ids != [] {
      NoDuplicatesSize(ids[..|ids| - 1]);
      NoDuplicatesFront(ids);
    }
  }

  /** `null` stands for the ValueError on repeated initial ids. */
  method Open(initialIds: seq<ArtifactId>, number: string -> Option<int>) returns (ledger: PlanningLedger?)
    ensures ledger == null <==> !NoDuplicates(initialIds)
    ensures ledger != null ==>
      && fresh(ledger) && ledger.Valid()
      && ledger.initialIds == initialIds && ledger.number == number && ledger.completed == []
  {
    NoDuplicatesSize(initialIds);
    if |initialIds| != |Elements(initialIds)| { return null; }
    ledger := new PlanningLedger(initialIds, number);
  }

  class PlanningLedger {
    const initialIds: seq<ArtifactId>
    const number: string -> Option<int>
    var completed: seq<Invocation>

    /** After the check in `Open`. */
    constructor (initialIds: seq<ArtifactId>, number: string -> Option<int>)
      requires NoDuplicates(initialIds)
      ensures this.initialIds == initialIds && this.number == number && completed == [] && Valid()
    {
      this.initialIds, this.number, completed := initialIds, number, [];
    }

    ghost predicate Valid()
      reads this
    {
      UniqueActions(completed) && NoDuplicates(initialIds)
    }

    /** `None` stands for the ValueError on an action that is already recorded. */
    method RecordCompleted(invocation: Invocation) returns (state: Option<PlanningState>)
      requires Valid()
      modifies this`completed
      ensures Valid()
      ensures state.None? <==> Has(old(completed), invocation.action)
      ensures state.None? ==> completed == old(completed)
      ensures state.Some? ==>
        completed == old(completed) + [invocation] && state.value == SnapshotOf(initialIds, completed, number)
    {
      if Has(completed, invocation.action) { return None; }
      completed := completed + [invocation];
      var snapshot := Snapshot();
      state := Some(snapshot);
    }

    method Snapshot() returns (state: PlanningState)
      requires Valid()
      ensures state == SnapshotOf(initialIds, completed, number)
    {
      var sorted := Sort(completed, InvocationLe(number));
      var counts := CountUses(sorted);
      var usages := [];
      var unused := [];
      for i := 0 to |initialIds|
        invariant usages == Usages(initialIds[..i], sorted) && unused == Unused(usages)
      {
        assert initialIds[..i + 1][..i] == initialIds[..i];
        var usage := Usage(initialIds[i], counts[initialIds[i]]);
        assert (usages + [usage])[..i] == usages;
        usages := usages + [usage];
        if usage.count == 0 { unused := unused + [usage.artifact]; }
      }
      assert initialIds[..|initialIds|] == initialIds;
      state := PlanningState(usages, unused, sorted);
    }

    /** The nested loops over invocations and the distinct inputs of each. */
    method CountUses(sorted: seq<Invocation>) returns (counts: map<ArtifactId, nat>)
      requires Valid()
      ensures forall x :: x in counts <==> x in initialIds
      ensures forall x <- counts :: counts[x] == Uses(sorted, x)
    {
      counts := map x | x in initialIds :: 0;
      for i := 0 to |sorted|
        invariant forall x :: x in counts <==> x in initialIds
        invariant forall x <- counts :: counts[x] == Uses(sorted[..i], x)
      {
        assert sorted[..i + 1][..i] == sorted[..i];
        ghost var before := counts;
        var distinct := Elements(sorted[i].inputs);
        var rest := distinct;
        while rest != {}
          invariant rest <= distinct && counts.Keys == before.Keys
          invariant forall x <- counts :: counts[x] == before[x] + if x in distinct - rest then 1 else 0
          decreases |rest|
        {
          var x :| x in rest;
          if x in counts { counts := counts[x := counts[x] + 1]; }
          rest := rest - {x};
        }
      }
      assert sorted[..|sorted|] == sorted;
    }
  }

  // ---------- what the snapshot says ----------

  lemma UniqueSeparates(completed: seq<Invocation>, number: string -> Option<int>)
    requires UniqueActions(completed)
    ensures Separates(InvocationLe(number), completed)
  {
    InvocationOrder(number);
    forall a, b | a in completed && b in completed && InvocationLe(number)(a, b) && InvocationLe(number)(b, a)
      ensures a == b
    {
      var i :| 0 <= i < |completed| && completed[i] == a;
      var j :| 0 <= j < |completed| && completed[j] == b;
      assert i == j;
    }
  }

  /** The snapshot is the same for every order in which the same invocations complete. */
  lemma SnapshotIgnoresOrder(initial: seq<ArtifactId>, a: seq<Invocation>, b: seq<Invocation>,
                             number: string -> Option<int>)
    requires UniqueActions(a) && multiset(a) == multiset(b)
    ensures SnapshotOf(initial, a, number) == SnapshotOf(initial, b, number)
  {
    InvocationOrder(number);
    UniqueSeparates(a, number);
    SortOfPermutation(a, b, InvocationLe(number));
  }

  /** The invocations that list the artifact among their inputs. */
  function Users(completed: seq<Invocation>, x: ArtifactId): set<ActionId> {
    set inv <- completed | x in inv.inputs :: inv.action
  }

  lemma {:induction false} UsesCountUsers(completed: seq<Invocation>, x: ArtifactId)
    requires UniqueActions(completed)
    ensures Uses(completed, x) == |Users(completed, x)|
  {
    if completed != [] {
      var n := |completed| - 1;
      UsesCountUsers(completed[..n], x);
      assert completed == completed[..n] + [completed[n]];
      if x in completed[n].inputs {
        assert Users(completed, x) == Users(completed[..n], x) + {completed[n].action};
        assert completed[n].action !in Users(completed[..n], x);
      } else {
        assert Users(completed, x) == Users(completed[..n], x);
      }
    }
  }

  lemma SortedUses(completed: seq<Invocation>, number: string -> Option<int>, x: ArtifactId)
    requires UniqueActions(completed)
    ensures Uses(Sort(completed, InvocationLe(number)), x) == |Users(completed, x)|
  {
    var sorted := Sort(completed, InvocationLe(number));
    SortPermutes(completed, InvocationLe(number));
    SortElements(completed, InvocationLe(number));
    UniquePermutation(completed, sorted);
    UsesCountUsers(sorted, x);
    assert Users(sorted, x) == Users(completed, x);
  }

  lemma UniquePermutation(a: seq<Invocation>, b: seq<Invocation>)
    requires UniqueActions(a) && multiset(a) == multiset(b)
    ensures UniqueActions(b)
  {
    forall i, j | 0 <= i < j < |b|
      ensures b[i].action != b[j].action
    {
      assert b[i] in multiset(a) && b[j] in multiset(a);
      if b[i].action == b[j].action {
        var k :| 0 <= k < |a| && a[k] == b[i];
        var l :| 0 <= l < |a| && a[l] == b[j];
        assert k == l;
        TwiceInSeq(b, i, j);
        OnceInSeq(a, k);
      }
    }
  }

  lemma TwiceInSeq<T>(s: seq<T>, i: nat, j: nat)
    requires i < j < |s| && s[i] == s[j]
    ensures multiset(s)[s[i]] >= 2
  {
    assert s == s[..j] + s[j..];
    assert s[i] in s[..j] && s[j] in s[j..];
    assert multiset(s) == multiset(s[..j]) + multiset(s[j..]);
  }

  lemma OnceInSeq(s: seq<Invocation>, k: nat)
    requires UniqueActions(s) && k < |s|
    ensures multiset(s)[s[k]] == 1
  {
    assert s == s[..k] + [s[k]] + s[k + 1..];
    assert s[k] !in s[..k] && s[k] !in s[k + 1..];
    assert multiset(s) == multiset(s[..k]) + multiset{s[k]} + multiset(s[k + 1..]);
  }

  /** The ids of `kept`, in the order of `whole`. */
  function Filter(whole: seq<ArtifactId>, kept: set<ArtifactId>): seq<ArtifactId> {
    if whole == [] then []
    else
      var n := |whole| - 1;
      Filter(whole[..n], kept) + if whole[n] in kept then [whole[n]] else []
  }

  lemma {:induction false} UnusedInOrder(initial: seq<ArtifactId>, usages: seq<Usage>, kept: set<ArtifactId>)
    requires |usages| == |initial| && forall i :: 0 <= i < |initial| ==> usages[i].artifact == initial[i]
    requires forall i :: 0 <= i < |initial| ==> (usages[i].count == 0 <==> initial[i] in kept)
    ensures Unused(usages) == Filter(initial, kept)
  {
    if initial != [] { UnusedInOrder(initial[..|initial| - 1], usages[..|usages| - 1], kept); }
  }

  /**
   Each use count is the number of recorded invocations that take the input, and the unused list is exactly the
   inputs that none takes, in their initial order.
   */
  lemma SnapshotCounts(initial: seq<ArtifactId>, completed: seq<Invocation>, number: string -> Option<int>)
    requires UniqueActions(completed)
    ensures
      var state := SnapshotOf(initial, completed, number);
      && |state.initialInputs| == |initial|
      && (forall i :: 0 <= i < |initial| ==>
            state.initialInputs[i] == Usage(initial[i], |Users(completed, initial[i])|))
      && state.unused == Filter(initial, set x | x in initial && Users(completed, x) == {} :: x)
      && multiset(state.completed) == multiset(completed) && Sorted(state.completed, InvocationLe(number))
  {
    InvocationOrder(number);
    SortPermutes(completed, InvocationLe(number));
    SortSorts(completed, InvocationLe(number));
    forall i | 0 <= i < |initial|
      ensures Uses(Sort(completed, InvocationLe(number)), initial[i]) == |Users(completed, initial[i])|
    {
      SortedUses(completed, number, initial[i]);
    }
    var usages := Usages(initial, Sort(completed, InvocationLe(number)));
    UnusedInOrder(initial, usages, set x | x in initial && Users(completed, x) == {} :: x);
  }

  lemma {:induction false} SuffixIs(id: ActionId)
    ensures '-' !in Suffix(id)
    ensures |Suffix(id)| <= |id| && id[|id| - |Suffix(id)|..] == Suffix(id)
    ensures '-' in id ==> |Suffix(id)| < |id| && id[|id| - |Suffix(id)| - 1] == '-'
    ensures '-' !in id ==> Suffix(id) == id
  {
    if id != [] && '-' in id && id[|id| - 1] != '-' {
      var front := id[..|id| - 1];
      assert id == front + [id[|id| - 1]];
      SuffixIs(front);
    }
  }

  /** `text` is what follows the last dash of the id, or the whole id when it has none. */
  ghost predicate LastPart(id: ActionId, text: string) {
    && '-' !in text
    && (id == text || (|text| < |id| && id[|id| - |text|..] == text && id[|id| - |text| - 1] == '-'))
  }

  lemma DashInside(id: ActionId, short: string, long: string)
    requires |short| < |long| <= |id| && id[|id| - |long|..] == long && id[|id| - |short| - 1] == '-'
    ensures '-' in long
  {
    assert long[|long| - |short| - 1] == id[|id| - |short| - 1];
  }

  lemma LastPartIsSuffix(id: ActionId, text: string)
    requires LastPart(id, text)
    ensures Suffix(id) == text
  {
    SuffixIs(id);
    var suffix := Suffix(id);
    if |suffix| < |text| { DashInside(id, suffix, text); }
    if |text| < |suffix| { DashInside(id, text, suffix); }
  }

  /**
   The snapshot lists the completed invocations by the number after the last dash of their action, 0 when there is
   none, and those of equal number by the characters of the action, a prefix first.
   */
  lemma SnapshotIsOrdered(initial: seq<ArtifactId>, completed: seq<Invocation>, number: string -> Option<int>,
                          i: nat, j: nat, first: string, second: string)
    requires UniqueActions(completed)
    requires i < j < |SnapshotOf(initial, completed, number).completed|
    requires LastPart(SnapshotOf(initial, completed, number).completed[i].action, first)
    requires LastPart(SnapshotOf(initial, completed, number).completed[j].action, second)
    ensures
      var a := SnapshotOf(initial, completed, number).completed[i].action;
      var b := SnapshotOf(initial, completed, number).completed[j].action;
      var m := if number(first).Some? then number(first).value else 0;
      var n := if number(second).Some? then number(second).value else 0;
      m < n || (m == n && Json.ComesBefore(a, b))
  {
    var listed := SnapshotOf(initial, completed, number).completed;
    InvocationOrder(number);
    SortPermutes(completed, InvocationLe(number));
    SortSorts(completed, InvocationLe(number));
    UniquePermutation(completed, listed);
    LastPartIsSuffix(listed[i].action, first);
    LastPartIsSuffix(listed[j].action, second);
    Json.StringOrder(listed[i].action, listed[j].action);
    assert InvocationLe(number)(listed[i], listed[j]);
  }
}
