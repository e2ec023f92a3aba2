/**
 The round-robin scheduler: a stored position for each model, and the fairness of every sequence of selections.
 */
module RoundRobin {
  import opened Options

  type ModelId = string
  type ExecutorId = string

  /** The position after `n` selections among `k` replicas: one further each time, and back to the first. */
  function Position(n: nat, k: nat): (position: nat)
    requires k > 0
    ensures position < k
  {
    if n == 0 then 0 else Next(Position(n - 1, k), k)
  }

  function Next(position: nat, k: nat): (next: nat)
    requires position < k
    ensures next < k
  {
    if position + 1 == k then 0 else position + 1
  }

  /** How often the turn has come back to the first replica. */
  function Rounds(n: nat, k: nat): nat
    requires k > 0
  {
    if n == 0 then 0 else Rounds(n - 1, k) + if Position(n, k) == 0 then 1 else 0
  }

  datatype Pick = Pick(model: ModelId, index: nat)

  /** How often the model was selected. */
  function Selections(history: seq<Pick>, model: ModelId): nat {
    if history == [] then 0
    else Selections(history[..|history| - 1], model) + if history[|history| - 1].model == model then 1 else 0
  }

  /** How often the replica at `index` was selected for the model. */
  function Times(history: seq<Pick>, model: ModelId, index: nat): nat {
    if history == [] then 0
    else Times(history[..|history| - 1], model, index) + if history[|history| - 1] == Pick(model, index) then 1 else 0
  }

  /** The replicas selected for one model, in order. */
  function PicksOf(history: seq<Pick>, model: ModelId): seq<nat> {
    if history == [] then []
    else
      var last := history[|history| - 1];
      PicksOf(history[..|history| - 1], model) + if last.model == model then [last.index] else []
  }

  /** Each selection of a model took the next replica in turn. */
  ghost predicate TakesTurns(history: seq<Pick>, replicas: map<ModelId, seq<ExecutorId>>) {
    forall model :: (model in replicas && replicas[model] != [] ==> InTurn(PicksOf(history, model), |replicas[model]|))
  }

  ghost predicate InTurn(picks: seq<nat>, k: nat)
    requires k > 0
  {
    forall i :: 0 <= i < |picks| ==> picks[i] == Position(i, k)
  }

  /** The selections take turns, and the stored positions continue them. */
  ghost predicate InStep(history: seq<Pick>, replicas: map<ModelId, seq<ExecutorId>>, nextIndices: map<ModelId, nat>) {
    TakesTurns(history, replicas) && forall model :: Continues(history, replicas, nextIndices, model)
  }

  ghost predicate Continues(history: seq<Pick>, replicas: map<ModelId, seq<ExecutorId>>, nextIndices: map<ModelId, nat>,
                            model: ModelId)
  {
    model in replicas && replicas[model] != [] ==>
      (if model in nextIndices then nextIndices[model] else 0) == Position(|PicksOf(history, model)|, |replicas[model]|)
  }

  lemma NextTurn(picks: seq<nat>, k: nat)
    requires k > 0 && InTurn(picks, k)
    ensures InTurn(picks + [Position(|picks|, k)], k)
    ensures Position(|picks| + 1, k) == Next(Position(|picks|, k), k)
  {
  }

  lemma PickKeepsStep(history: seq<Pick>, replicas: map<ModelId, seq<ExecutorId>>, nextIndices: map<ModelId, nat>,
                      model: ModelId, index: nat)
    requires InStep(history, replicas, nextIndices) && model in replicas && replicas[model] != []
    requires index == Position(|PicksOf(history, model)|, |replicas[model]|)
    ensures InStep(history + [Pick(model, index)], replicas, nextIndices[model := Next(index, |replicas[model]|)])
  {
    var more, next := history + [Pick(model, index)], nextIndices[model := Next(index, |replicas[model]|)];
    AppendPick(history, Pick(model, index));
    NextTurn(PicksOf(history, model), |replicas[model]|);
    forall other | other in replicas && replicas[other] != []
      ensures InTurn(PicksOf(more, other), |replicas[other]|) && Continues(more, replicas, next, other)
    {
      if other != model {
        assert PicksOf(more, other) == PicksOf(history, other);
        assert Continues(history, replicas, nextIndices, other);
      } else {
        assert |PicksOf(more, model)| == |PicksOf(history, model)| + 1;
      }
    }
  }

  class RoundRobinScheduler {
    const replicas: map<ModelId, seq<ExecutorId>>
    var nextIndices: map<ModelId, nat>
    ghost var history: seq<Pick>

    constructor (replicas: map<ModelId, seq<ExecutorId>>)
      ensures this.replicas == replicas && nextIndices == map[] && history == [] && Valid()
    {
      this.replicas, nextIndices, history := replicas, map[], [];
    }

    /** The stored position is the number of selections so far, counted in turns. */
    ghost predicate Valid()
      reads this
    {
      InStep(history, replicas, nextIndices)
    }

    /** `None` stands for NoExecutorAvailableError. */
    method Select(model: ModelId) returns (selected: Option<ExecutorId>)
      requires Valid()
      modifies this
      ensures Valid()
      ensures selected.None? <==> model !in replicas || replicas[model] == []
      ensures selected.None? ==> history == old(history) && nextIndices == old(nextIndices)
      ensures selected.Some? ==>
        && var index := Position(|PicksOf(old(history), model)|, |replicas[model]|);
        && history == old(history) + [Pick(model, index)] && selected.value == replicas[model][index]
        && nextIndices == old(nextIndices)[model := Next(index, |replicas[model]|)]
    {
      var candidates := if model in replicas then replicas[model] else [];
      if candidates == [] { return None; }
      var index := if model in nextIndices then nextIndices[model] else 0;
      var k := |candidates|;
      assert Continues(history, replicas, nextIndices, model);
      SmallRemainders(index, k);
      PickKeepsStep(history, replicas, nextIndices, model, index);
      selected := Some(candidates[index % k]);
      nextIndices := nextIndices[model := (index + 1) % k];
      history := history + [Pick(model, index)];
    }
  }

  lemma AppendPick(history: seq<Pick>, pick: Pick)
    ensures PicksOf(history + [pick], pick.model) == PicksOf(history, pick.model) + [pick.index]
    ensures forall model :: model != pick.model ==> PicksOf(history + [pick], model) == PicksOf(history, model)
  {
  }

  lemma SmallRemainders(index: nat, k: nat)
    requires index < k
    ensures index % k == index && (index + 1) % k == Next(index, k)
  {
  }

  // ---------- fairness ----------

  /** How often the replica was taken in the first `n` turns. */
  function Share(n: nat, k: nat, index: nat): nat
    requires k > 0
  {
    Rounds(n, k) + if index < Position(n, k) then 1 else 0
  }

  lemma {:induction false} TurnsCount(picks: seq<nat>, k: nat, index: nat)
    requires k > 0 && index < k && InTurn(picks, k)
    ensures Occurrences(picks, index) == Share(|picks|, k, index)
  {
    if picks != [] {
      var n := |picks| - 1;
      TurnsCount(picks[..n], k, index);
      assert picks[n] == Position(n, k) && Position(n + 1, k) == Next(Position(n, k), k);
    }
  }

  function Occurrences(picks: seq<nat>, index: nat): nat {
    if picks == [] then 0
    else Occurrences(picks[..|picks| - 1], index) + if picks[|picks| - 1] == index then 1 else 0
  }

  lemma {:induction false} TimesAreOccurrences(history: seq<Pick>, model: ModelId, index: nat)
    ensures Times(history, model, index) == Occurrences(PicksOf(history, model), index)
    ensures Selections(history, model) == |PicksOf(history, model)|
  {
    if history != [] {
      var n := |history| - 1;
      TimesAreOccurrences(history[..n], model, index);
      var before := PicksOf(history[..n], model);
      if history[n].model == model {
        assert PicksOf(history, model) == before + [history[n].index];
        assert PicksOf(history, model)[..|before|] == before;
        assert history[n] == Pick(model, index) <==> history[n].index == index;
      } else {
        assert PicksOf(history, model) == before;
      }
    }
  }

  lemma {:induction false} PositionAndRounds(n: nat, k: nat)
    requires k > 0
    ensures k * Rounds(n, k) + Position(n, k) == n
  {
    if n > 0 {
      PositionAndRounds(n - 1, k);
      if Position(n, k) == 0 { assert k * (Rounds(n - 1, k) + 1) == k * Rounds(n - 1, k) + k; }
    }
  }

  /**
   The selection with `i` selections of its model before it takes the replica at `i` modulo k: the index is below k and
   differs from `i` by whole rounds.
   */
  lemma TurnsAreRemainders(history: seq<Pick>, replicas: map<ModelId, seq<ExecutorId>>, model: ModelId, i: nat)
    requires TakesTurns(history, replicas) && model in replicas && replicas[model] != []
    requires i < |PicksOf(history, model)|
    ensures
      var k, index := |replicas[model]|, PicksOf(history, model)[i];
      index < k && i == k * Rounds(i, k) + index
  {
    PositionAndRounds(i, |replicas[model]|);
  }

  /** After any sequence of selections, two replicas of a model differ by at most one in how often they were chosen. */
  lemma CountsDifferByOne(history: seq<Pick>, replicas: map<ModelId, seq<ExecutorId>>, model: ModelId, i: nat, j: nat)
    requires TakesTurns(history, replicas) && model in replicas && i < |replicas[model]| && j < |replicas[model]|
    ensures -1 <= Times(history, model, i) - Times(history, model, j) <= 1
    ensures Times(history, model, i) == Share(Selections(history, model), |replicas[model]|, i)
  {
    TimesAreOccurrences(history, model, i);
    TimesAreOccurrences(history, model, j);
    TurnsCount(PicksOf(history, model), |replicas[model]|, i);
    TurnsCount(PicksOf(history, model), |replicas[model]|, j);
  }

  /** Any k consecutive selections of a model with k replicas take each replica exactly once. */
  lemma WindowTakesEachOnce(history: seq<Pick>, replicas: map<ModelId, seq<ExecutorId>>, model: ModelId, start: nat,
                            index: nat)
    returns (turn: nat)
    requires TakesTurns(history, replicas) && model in replicas && index < |replicas[model]|
    requires start + |replicas[model]| <= |PicksOf(history, model)|
    ensures start <= turn < start + |replicas[model]| && PicksOf(history, model)[turn] == index
    ensures forall other :: start <= other < start + |replicas[model]| && PicksOf(history, model)[other] == index ==>
              other == turn
  {
    var k, picks := |replicas[model]|, PicksOf(history, model);
    var first := Position(start, k);
    forall t | start <= t < start + k
      ensures picks[t] == if first + t - start < k then first + t - start else first + t - start - k
    {
      PositionLater(start, k, t - start);
    }
    turn := if first <= index then start + index - first else start + index - first + k;
  }

  lemma {:induction false} PositionLater(start: nat, k: nat, i: nat)
    requires k > 0 && i < k
    ensures Position(start + i, k)
         == if Position(start, k) + i < k then Position(start, k) + i else Position(start, k) + i - k
  {
    if i > 0 { PositionLater(start, k, i - 1); }
  }
}
