/**
 Two sweeps over the times of a realized workflow: the length of a union of intervals, and the largest number
 of actions that run at once.  Times are whole ticks, so lengths are exact.
 */
module Intervals {
  import opened Options
  import opened Sequences
  import opened Sorting

  datatype Times = Times(started: Option<int>, finished: Option<int>)

  datatype Interval = Interval(start: int, end: int)

  /** The intervals of the rows that have both times. */
  function Measured(rows: seq<Times>): seq<Interval> {
    if rows == [] then []
    else
      var rest := Measured(rows[1..]);
      if rows[0].started.Some? && rows[0].finished.Some?
      then [Interval(rows[0].started.value, rows[0].finished.value)] + rest
      else rest
  }

  predicate Forward(intervals: seq<Interval>) {
    forall i :: 0 <= i < |intervals| ==> intervals[i].start <= intervals[i].end
  }

  // ---------- what is covered ----------

  function Instants(start: int, end: int): (instants: set<int>)
    ensures forall t :: t in instants <==> start <= t < end
    decreases end - start
  {
    if start < end then Instants(start, end - 1) + {end - 1} else {}
  }

  lemma {:induction false} InstantsCount(start: int, end: int)
    requires start <= end
    ensures |Instants(start, end)| == end - start
    decreases end - start
  {
    if start < end {
      InstantsCount(start, end - 1);
      assert Instants(start, end) == Instants(start, end - 1) + {end - 1};
    } else {
      assert Instants(start, end) == {};
    }
  }

  /** The instants that lie in at least one interval. */
  function Covered(intervals: seq<Interval>): set<int> {
    if intervals == [] then {}
    else
      var n := |intervals| - 1;
      Covered(intervals[..n]) + Instants(intervals[n].start, intervals[n].end)
  }

  lemma {:induction false} CoveredMembers(intervals: seq<Interval>, t: int)
    ensures t in Covered(intervals) <==> exists i :: i in intervals && i.start <= t < i.end
  {
    if intervals != [] {
      var n := |intervals| - 1;
      CoveredMembers(intervals[..n], t);
      assert intervals == intervals[..n] + [intervals[n]];
      if t in Covered(intervals) && t !in Covered(intervals[..n]) { assert intervals[n] in intervals; }
    }
  }

  /** Only which intervals occur matters, not their order or number. */
  lemma CoveredByElements(a: seq<Interval>, b: seq<Interval>)
    requires forall i :: i in a <==> i in b
    ensures Covered(a) == Covered(b)
  {
    forall t
      ensures t in Covered(a) <==> t in Covered(b)
    {
      CoveredMembers(a, t);
      CoveredMembers(b, t);
    }
  }

  // ---------- the union sweep ----------

  function IntervalLe(a: Interval, b: Interval): bool {
    a.start < b.start || (a.start == b.start && a.end <= b.end)
  }

  lemma IntervalOrder()
    ensures TotalPreorder(IntervalLe)
  {
  }

  function Max(a: int, b: int): int {
    if a < b then b else a
  }

  lemma DisjointUnionSize(a: set<int>, b: set<int>)
    requires a !! b
    ensures |a + b| == |a| + |b|
  {
  }

  /** An interval that runs backwards, beyond the end of every interval that starts before it. */
  predicate Exposed(all: seq<Interval>, b: Interval) {
    b.end < b.start && forall i <- all :: !(i.start < b.start <= i.end)
  }

  /** What the exposed intervals among the given ones take away. */
  function Debt(all: seq<Interval>, intervals: seq<Interval>): nat {
    if intervals == [] then 0
    else
      (if Exposed(all, intervals[0]) then intervals[0].start - intervals[0].end else 0) + Debt(all, intervals[1..])
  }

  lemma {:induction false} DebtConcat(all: seq<Interval>, a: seq<Interval>, b: seq<Interval>)
    ensures Debt(all, a + b) == Debt(all, a) + Debt(all, b)
  {
    if a == [] {
      assert a + b == b;
    } else {
      assert (a + b)[1..] == a[1..] + b;
      DebtConcat(all, a[1..], b);
    }
  }

  lemma {:induction false} InsertKeepsDebt(all: seq<Interval>, x: Interval, s: seq<Interval>)
    ensures Debt(all, Insert(x, s, IntervalLe)) == Debt(all, [x] + s)
  {
    assert ([x] + s)[1..] == s;
    if s != [] && !IntervalLe(x, s[0]) {
      InsertKeepsDebt(all, x, s[1..]);
      assert ([x] + s[1..])[1..] == s[1..];
    }
  }

  lemma {:induction false} SortKeepsDebt(all: seq<Interval>, s: seq<Interval>)
    ensures Debt(all, Sort(s, IntervalLe)) == Debt(all, s)
  {
    if s != [] {
      SortKeepsDebt(all, s[1..]);
      InsertKeepsDebt(all, s[0], Sort(s[1..], IntervalLe));
      assert ([s[0]] + Sort(s[1..], IntervalLe))[1..] == Sort(s[1..], IntervalLe);
    }
  }

  lemma {:induction false} DebtByElements(a: seq<Interval>, b: seq<Interval>, intervals: seq<Interval>)
    requires forall i :: i in a <==> i in b
    ensures Debt(a, intervals) == Debt(b, intervals)
  {
    if intervals != [] { DebtByElements(a, b, intervals[1..]); }
  }

  /** There is no debt exactly when no interval is exposed. */
  lemma {:induction false} NoDebtExactly(all: seq<Interval>, intervals: seq<Interval>)
    ensures Debt(all, intervals) == 0 <==> forall b <- intervals :: !Exposed(all, b)
  {
    if intervals != [] {
      NoDebtExactly(all, intervals[1..]);
      assert intervals == [intervals[0]] + intervals[1..];
    }
  }

  /** The closed runs, all before `start`, and the open run from `start` to `end`, which may run backwards. */
  ghost predicate Counted(all: seq<Interval>, prefix: seq<Interval>, total: int, start: int, end: int, done: set<int>) {
    && total == |done| - Debt(all, prefix) + Max(0, start - end)
    && (forall t <- done :: t < start)
    && Covered(prefix) == done + Instants(start, end)
  }

  /** No interval of the prefix reaches beyond the open run. */
  ghost predicate Reached(prefix: seq<Interval>, start: int, end: int) {
    && (forall i <- prefix :: i.end <= end || i.end < start)
    && (start <= end ==> exists i :: i in prefix && i.start <= i.end == end)
  }

  /** After a prefix of the sorted list. */
  ghost predicate Swept(all: seq<Interval>, prefix: seq<Interval>, total: int, start: int, end: int, done: set<int>) {
    Counted(all, prefix, total, start, end, done) && Reached(prefix, start, end)
  }

  /** The next interval in sorted order. */
  ghost predicate IsNext(all: seq<Interval>, prefix: seq<Interval>, next: Interval) {
    && (forall i <- prefix :: i in all && IntervalLe(i, next))
    && (forall i <- all :: i in prefix || next.start <= i.start)
  }

  lemma OneMoreDebt(all: seq<Interval>, prefix: seq<Interval>, next: Interval)
    ensures Debt(all, prefix + [next])
         == Debt(all, prefix) + if Exposed(all, next) then next.start - next.end else 0
  {
    DebtConcat(all, prefix, [next]);
    assert [next][1..] == [];
  }

  lemma OneMoreCovered(prefix: seq<Interval>, next: Interval)
    ensures Covered(prefix + [next]) == Covered(prefix) + Instants(next.start, next.end)
  {
    assert (prefix + [next])[..|prefix|] == prefix;
  }

  /** An interval that starts within the open run is not exposed; one that starts after it is, if it runs backwards. */
  lemma ExposedOutside(all: seq<Interval>, prefix: seq<Interval>, next: Interval, start: int, end: int)
    requires Reached(prefix, start, end) && IsNext(all, prefix, next) && start <= next.start
    ensures Exposed(all, next) <==> next.end < next.start && end < next.start
  {
    if next.start <= end {
      var i :| i in prefix && i.start <= i.end == end;
      assert i in all && IntervalLe(i, next);
    }
  }

  lemma ReachedNext(prefix: seq<Interval>, next: Interval, start: int, end: int)
    requires Reached(prefix, start, end) && start <= next.start
    ensures next.start <= end ==> Reached(prefix + [next], start, Max(end, next.end))
    ensures end < next.start ==> Reached(prefix + [next], next.start, next.end)
  {
    assert next in prefix + [next];
    if next.start <= end {
      var i :| i in prefix && i.start <= i.end == end;
      assert i in prefix + [next];
    }
  }

  lemma JoinInstants(start: int, end: int, next: Interval)
    requires start <= next.start <= end
    ensures Instants(start, Max(end, next.end)) == Instants(start, end) + Instants(next.start, next.end)
  {
    forall t
      ensures t in Instants(start, Max(end, next.end)) <==> t in Instants(start, end) + Instants(next.start, next.end)
    {
    }
  }

  lemma SetsJoin(a: set<int>, b: set<int>, c: set<int>)
    ensures a + b + c == a + (b + c)
  {
  }

  lemma ExtendRun(all: seq<Interval>, prefix: seq<Interval>, next: Interval, total: int, start: int, end: int,
                  done: set<int>)
    requires Counted(all, prefix, total, start, end, done) && !Exposed(all, next) && start <= next.start <= end
    ensures Counted(all, prefix + [next], total, start, Max(end, next.end), done)
  {
    OneMoreDebt(all, prefix, next);
    OneMoreCovered(prefix, next);
    JoinInstants(start, end, next);
    SetsJoin(done, Instants(start, end), Instants(next.start, next.end));
  }

  lemma ClosedLength(start: int, end: int, done: set<int>)
    requires forall t <- done :: t < start
    ensures |done + Instants(start, end)| == |done| + Max(0, end - start)
  {
    if start <= end {
      InstantsCount(start, end);
      DisjointUnionSize(done, Instants(start, end));
    } else {
      assert done + Instants(start, end) == done;
    }
  }

  lemma CloseRun(all: seq<Interval>, prefix: seq<Interval>, next: Interval, total: int, start: int, end: int,
                 done: set<int>)
    requires Counted(all, prefix, total, start, end, done) && (Exposed(all, next) <==> next.end < next.start)
    requires start <= next.start && end < next.start
    ensures Counted(all, prefix + [next], total + end - start, next.start, next.end, done + Instants(start, end))
  {
    ClosedLength(start, end, done);
    OneMoreDebt(all, prefix, next);
    OneMoreCovered(prefix, next);
  }

  lemma SweepNext(all: seq<Interval>, prefix: seq<Interval>, next: Interval, total: int, start: int, end: int,
                  done: set<int>)
    requires Swept(all, prefix, total, start, end, done) && IsNext(all, prefix, next) && start <= next.start
    ensures
      if next.start <= end then Swept(all, prefix + [next], total, start, Max(end, next.end), done)
      else Swept(all, prefix + [next], total + end - start, next.start, next.end, done + Instants(start, end))
  {
    ExposedOutside(all, prefix, next, start, end);
    ReachedNext(prefix, next, start, end);
    if next.start <= end {
      ExtendRun(all, prefix, next, total, start, end, done);
    } else {
      CloseRun(all, prefix, next, total, start, end, done);
    }
  }

  lemma SweptLength(all: seq<Interval>, total: int, start: int, end: int, done: set<int>)
    requires Swept(all, all, total, start, end, done)
    ensures total + end - start == |Covered(all)| - Debt(all, all)
  {
    ClosedLength(start, end, done);
  }

  lemma StartRun(all: seq<Interval>, first: Interval)
    requires IsNext(all, [], first)
    ensures Swept(all, [first], 0, first.start, first.end, {})
  {
    OneMoreDebt(all, [], first);
    OneMoreCovered([], first);
    assert [] + [first] == [first] && Covered([]) == {} && Debt(all, []) == 0;
    assert Exposed(all, first) <==> first.end < first.start;
  }

  lemma SortedIntervals(intervals: seq<Interval>)
    ensures
      var s := Sort(intervals, IntervalLe);
      Covered(s) == Covered(intervals) && Debt(s, s) == Debt(intervals, intervals) && Sorted(s, IntervalLe)
  {
    var s := Sort(intervals, IntervalLe);
    IntervalOrder();
    SortSorts(intervals, IntervalLe);
    SortElements(intervals, IntervalLe);
    CoveredByElements(s, intervals);
    SortKeepsDebt(s, intervals);
    DebtByElements(s, intervals, intervals);
  }

  lemma SortedNext(all: seq<Interval>, k: nat)
    requires k < |all| && Sorted(all, IntervalLe)
    ensures IsNext(all, all[..k], all[k])
    ensures 0 < k ==> all[k - 1].start <= all[k].start
  {
    forall i | i in all
      ensures i in all[..k] || all[k].start <= i.start
    {
      var j :| 0 <= j < |all| && all[j] == i;
      if j < k {
        assert all[..k][j] == i;
      } else {
        assert j == k || IntervalLe(all[k], all[j]);
      }
    }
    assert 0 < k ==> IntervalLe(all[k - 1], all[k]);
  }

  lemma StartSweep(intervals: seq<Interval>)
    requires intervals != [] && Sorted(intervals, IntervalLe)
    ensures Swept(intervals, intervals[..1], 0, intervals[0].start, intervals[0].end, {})
  {
    assert intervals[..1] == [intervals[0]] && intervals[..0] == [];
    SortedNext(intervals, 0);
    StartRun(intervals, intervals[0]);
  }

  /** The sweep goes on with the k-th interval. */
  lemma SweepAt(all: seq<Interval>, k: nat, total: int, start: int, end: int, done: set<int>)
    requires 0 < k < |all| && Sorted(all, IntervalLe) && Swept(all, all[..k], total, start, end, done)
    requires start <= all[k - 1].start
    ensures start <= all[k].start
    ensures
      var next := all[k];
      if next.start <= end then Swept(all, all[..k + 1], total, start, Max(end, next.end), done)
      else Swept(all, all[..k + 1], total + end - start, next.start, next.end, done + Instants(start, end))
  {
    TakeOneMore(all, k);
    SortedNext(all, k);
    SweepNext(all, all[..k], all[k], total, start, end, done);
  }

  /**
   The sweep returns the number of covered instants less the debt of exposed backward intervals; so it is the length of
   the union exactly when none is exposed.
   */
  method UnionLength(rows: seq<Times>) returns (length: int)
    ensures length == |Covered(Measured(rows))| - Debt(Measured(rows), Measured(rows))
    ensures length == |Covered(Measured(rows))| <==> forall b <- Measured(rows) :: !Exposed(Measured(rows), b)
  {
    var intervals := Sort(Measured(rows), IntervalLe);
    SortedIntervals(Measured(rows));
    NoDebtExactly(Measured(rows), Measured(rows));
    length := Sweep(intervals);
  }

  /** A single row that runs backwards covers nothing, and the sweep returns a negative length. */
  method BackwardUnion() returns (length: int)
    ensures length == -2 && |Covered(Measured([Times(Some(5), Some(3))]))| == 0
  {
    var row, b := Times(Some(5), Some(3)), Interval(5, 3);
    assert [row][1..] == [] && [b][1..] == [] && [b][..0] == [];
    assert Measured([row]) == [b];
    assert Covered([b]) == {} && Exposed([b], b);
    assert Debt([b], []) == 0;
    assert Debt([b], [b]) == 2;
    length := UnionLength([row]);
  }

  /** The loop over the sorted intervals. */
  method Sweep(intervals: seq<Interval>) returns (length: int)
    requires Sorted(intervals, IntervalLe)
    ensures length == |Covered(intervals)| - Debt(intervals, intervals)
  {
    if intervals == [] { return 0; }
    var total := 0;
    var start, end := intervals[0].start, intervals[0].end;
    ghost var done: set<int> := {};
    StartSweep(intervals);
    for k := 1 to |intervals|
      invariant start <= intervals[k - 1].start
      invariant Swept(intervals, intervals[..k], total, start, end, done)
    {
      var next := intervals[k];
      SweepAt(intervals, k, total, start, end, done);
      if next.start <= end {
        end := Max(end, next.end);
      } else {
        total := total + end - start;
        done := done + Instants(start, end);
        start, end := next.start, next.end;
      }
    }
    assert intervals[..|intervals|] == intervals;
    SweptLength(intervals, total, start, end, done);
    length := total + end - start;
  }

  // ---------- what the length satisfies ----------

  lemma SubsetSize(a: set<int>, b: set<int>)
    requires a <= b
    ensures |a| <= |b|
  {
    assert b == a + (b - a);
    DisjointUnionSize(a, b - a);
  }

  lemma UnionAtLeastEach(intervals: seq<Interval>, i: Interval)
    requires Forward(intervals) && i in intervals
    ensures i.end - i.start <= |Covered(intervals)|
  {
    forall t | t in Instants(i.start, i.end)
      ensures t in Covered(intervals)
    {
      CoveredMembers(intervals, t);
    }
    InstantsCount(i.start, i.end);
    SubsetSize(Instants(i.start, i.end), Covered(intervals));
  }

  function SumOfLengths(intervals: seq<Interval>): int {
    if intervals == [] then 0
    else
      var n := |intervals| - 1;
      SumOfLengths(intervals[..n]) + intervals[n].end - intervals[n].start
  }

  lemma UnionSizeAtMost(a: set<int>, b: set<int>)
    ensures |a + b| <= |a| + |b|
  {
  }

  lemma {:induction false} UnionAtMostSum(intervals: seq<Interval>)
    requires Forward(intervals)
    ensures |Covered(intervals)| <= SumOfLengths(intervals)
  {
    if intervals != [] {
      var n := |intervals| - 1;
      assert intervals[n] in intervals;
      UnionAtMostSum(intervals[..n]);
      InstantsCount(intervals[n].start, intervals[n].end);
      UnionSizeAtMost(Covered(intervals[..n]), Instants(intervals[n].start, intervals[n].end));
    }
  }

  /** An instant of `i` is covered by the list exactly when some entry of the list shares it. */
  lemma MeetsCovered(intervals: seq<Interval>, last: Interval)
    ensures Instants(last.start, last.end) !! Covered(intervals) <==>
            forall i :: 0 <= i < |intervals| ==> Disjoint(intervals[i], last)
  {
  }

  ghost predicate Disjoint(a: Interval, b: Interval) {
    Instants(a.start, a.end) !! Instants(b.start, b.end)
  }

  ghost predicate PairwiseDisjoint(intervals: seq<Interval>) {
    forall i, j :: 0 <= i < j < |intervals| ==> Disjoint(intervals[i], intervals[j])
  }

  lemma UnionSizeExactly(a: set<int>, b: set<int>)
    ensures |a + b| == |a| + |b| <==> a !! b
  {
    assert a + b == a + (b - a) && b == (b - a) + (b * a);
    DisjointUnionSize(a, b - a);
    DisjointUnionSize(b - a, b * a);
  }

  /** The sum is reached exactly when no instant is covered by two entries of the list. */
  lemma {:induction false} UnionIsSumExactly(intervals: seq<Interval>)
    requires Forward(intervals)
    ensures |Covered(intervals)| == SumOfLengths(intervals) <==> PairwiseDisjoint(intervals)
  {
    if intervals != [] {
      var n := |intervals| - 1;
      var front, last := intervals[..n], intervals[n];
      UnionIsSumExactly(front);
      UnionAtMostSum(front);
      InstantsCount(last.start, last.end);
      UnionSizeExactly(Covered(front), Instants(last.start, last.end));
      UnionSizeAtMost(Covered(front), Instants(last.start, last.end));
      MeetsCovered(front, last);
      PairsOfFront(intervals);
    }
  }

  lemma PairsOfFront(intervals: seq<Interval>)
    requires intervals != []
    ensures
      var n := |intervals| - 1;
      PairwiseDisjoint(intervals) <==>
      PairwiseDisjoint(intervals[..n]) && forall i :: 0 <= i < n ==> Disjoint(intervals[..n][i], intervals[n])
  {
  }

  // ---------- how many actions run at once ----------

  /** How many intervals contain the instant. */
  function Running(intervals: seq<Interval>, t: int): nat {
    if intervals == [] then 0
    else (if intervals[0].start <= t < intervals[0].end then 1 else 0) + Running(intervals[1..], t)
  }

  /** How many intervals have started, less how many have ended. */
  function Balance(intervals: seq<Interval>, t: int): int {
    if intervals == [] then 0
    else
      (if intervals[0].start <= t then 1 else 0) - (if intervals[0].end <= t then 1 else 0)
      + Balance(intervals[1..], t)
  }

  /** How many intervals have ended and not yet started. */
  function Backward(intervals: seq<Interval>, t: int): nat {
    if intervals == [] then 0
    else (if intervals[0].end <= t < intervals[0].start then 1 else 0) + Backward(intervals[1..], t)
  }

  /** The balance counts what runs, less the intervals that have ended before they start. */
  lemma {:induction false} BalanceSplits(intervals: seq<Interval>, t: int)
    ensures Balance(intervals, t) == Running(intervals, t) - Backward(intervals, t)
  {
    if intervals != [] { BalanceSplits(intervals[1..], t); }
  }

  /** No interval runs backwards over the instant. */
  predicate ClearAt(intervals: seq<Interval>, t: int) {
    forall i <- intervals :: !(i.end <= t < i.start)
  }

  lemma {:induction false} NoneBackward(intervals: seq<Interval>, t: int)
    ensures Backward(intervals, t) == 0 <==> ClearAt(intervals, t)
  {
    if intervals != [] {
      NoneBackward(intervals[1..], t);
      assert intervals == [intervals[0]] + intervals[1..];
    }
  }

  /** The balance is what runs exactly at the instants that no interval runs over backwards. */
  lemma BalanceIsRunning(intervals: seq<Interval>, t: int)
    ensures Balance(intervals, t) == Running(intervals, t) <==> ClearAt(intervals, t)
  {
    BalanceSplits(intervals, t);
    NoneBackward(intervals, t);
  }

  ghost predicate LargestBalance(intervals: seq<Interval>, m: int) {
    (forall t :: Balance(intervals, t) <= m) && exists t :: Balance(intervals, t) == m
  }

  /** `m` actions run at once at some instant, and never more. */
  ghost predicate MostRunning(intervals: seq<Interval>, m: int) {
    (forall t :: Running(intervals, t) <= m) && exists t :: Running(intervals, t) == m
  }

  /** At no other instant do more actions run. */
  ghost predicate Busiest(intervals: seq<Interval>, t: int) {
    forall u :: Running(intervals, u) <= Running(intervals, t)
  }

  lemma BusiestIsCounted(intervals: seq<Interval>, m: int, t: int)
    requires LargestBalance(intervals, m) && Busiest(intervals, t) && ClearAt(intervals, t)
    ensures MostRunning(intervals, m)
  {
    var u :| Balance(intervals, u) == m;
    BalanceSplits(intervals, u);
    BalanceIsRunning(intervals, t);
    assert Running(intervals, u) <= Running(intervals, t) == Balance(intervals, t) <= m;
  }

  lemma CountedIsBusiest(intervals: seq<Interval>, m: int) returns (t: int)
    requires LargestBalance(intervals, m) && MostRunning(intervals, m)
    ensures Busiest(intervals, t) && ClearAt(intervals, t)
  {
    t :| Balance(intervals, t) == m;
    BalanceSplits(intervals, t);
    assert Running(intervals, t) <= m;
    NoneBackward(intervals, t);
  }

  /** The largest balance is the largest overlap exactly when some busiest instant is clear of backward intervals. */
  lemma OverlapExactly(intervals: seq<Interval>, m: int)
    requires LargestBalance(intervals, m)
    ensures MostRunning(intervals, m) <==> exists t :: Busiest(intervals, t) && ClearAt(intervals, t)
  {
    if MostRunning(intervals, m) { var t := CountedIsBusiest(intervals, m); }
    if t :| Busiest(intervals, t) && ClearAt(intervals, t) { BusiestIsCounted(intervals, m, t); }
  }

  datatype Boundary = Boundary(time: int, delta: int)

  function BoundaryLe(a: Boundary, b: Boundary): bool {
    a.time < b.time || (a.time == b.time && a.delta <= b.delta)
  }

  lemma BoundaryOrder()
    ensures TotalPreorder(BoundaryLe)
  {
  }

  function Boundaries(intervals: seq<Interval>): seq<Boundary> {
    if intervals == [] then []
    else [Boundary(intervals[0].start, 1), Boundary(intervals[0].end, -1)] + Boundaries(intervals[1..])
  }

  function Total(boundaries: seq<Boundary>): int {
    if boundaries == [] then 0 else boundaries[0].delta + Total(boundaries[1..])
  }

  /** The sum of the changes up to an instant. */
  function TotalUntil(boundaries: seq<Boundary>, t: int): int {
    if boundaries == [] then 0
    else (if boundaries[0].time <= t then boundaries[0].delta else 0) + TotalUntil(boundaries[1..], t)
  }

  lemma {:induction false} TotalUntilConcat(a: seq<Boundary>, b: seq<Boundary>, t: int)
    ensures TotalUntil(a + b, t) == TotalUntil(a, t) + TotalUntil(b, t)
  {
    if a == [] {
      assert a + b == b;
    } else {
      assert (a + b)[1..] == a[1..] + b;
      TotalUntilConcat(a[1..], b, t);
    }
  }

  lemma {:induction false} TotalConcat(a: seq<Boundary>, b: seq<Boundary>)
    ensures Total(a + b) == Total(a) + Total(b)
  {
    if a == [] {
      assert a + b == b;
    } else {
      assert (a + b)[1..] == a[1..] + b;
      TotalConcat(a[1..], b);
    }
  }

  lemma {:induction false} InsertKeepsTotal(x: Boundary, s: seq<Boundary>, t: int)
    ensures TotalUntil(Insert(x, s, BoundaryLe), t) == TotalUntil([x] + s, t)
  {
    assert ([x] + s)[1..] == s;
    if s != [] && !BoundaryLe(x, s[0]) {
      InsertKeepsTotal(x, s[1..], t);
      assert ([x] + s[1..])[1..] == s[1..];
    }
  }

  lemma {:induction false} SortKeepsTotal(s: seq<Boundary>, t: int)
    ensures TotalUntil(Sort(s, BoundaryLe), t) == TotalUntil(s, t)
  {
    if s != [] {
      SortKeepsTotal(s[1..], t);
      InsertKeepsTotal(s[0], Sort(s[1..], BoundaryLe), t);
      assert ([s[0]] + Sort(s[1..], BoundaryLe))[1..] == Sort(s[1..], BoundaryLe);
    }
  }

  lemma {:induction false} BalanceIsTotal(intervals: seq<Interval>, t: int)
    ensures TotalUntil(Boundaries(intervals), t) == Balance(intervals, t)
  {
    if intervals != [] {
      BalanceIsTotal(intervals[1..], t);
      var first := [Boundary(intervals[0].start, 1), Boundary(intervals[0].end, -1)];
      TotalUntilConcat(first, Boundaries(intervals[1..]), t);
      assert first[1..] == [first[1]];
    }
  }

  lemma {:induction false} AllUntil(boundaries: seq<Boundary>, t: int)
    requires forall b <- boundaries :: b.time <= t
    ensures TotalUntil(boundaries, t) == Total(boundaries)
  {
    if boundaries != [] { AllUntil(boundaries[1..], t); }
  }

  lemma {:induction false} NoneUntil(boundaries: seq<Boundary>, t: int)
    requires forall b <- boundaries :: b.time <= t ==> b.delta >= 0
    ensures TotalUntil(boundaries, t) >= 0
    ensures (forall b <- boundaries :: b.time > t) ==> TotalUntil(boundaries, t) == 0
  {
    if boundaries != [] { NoneUntil(boundaries[1..], t); }
  }

  /** Just after the k-th boundary, a start, no more actions are counted than run at its instant. */
  lemma StartIsCounted(sorted: seq<Boundary>, k: nat)
    requires Sorted(sorted, BoundaryLe) && k < |sorted|
    requires sorted[k].delta == 1
    ensures Total(sorted[..k + 1]) <= TotalUntil(sorted, sorted[k].time)
  {
    var t := sorted[k].time;
    assert sorted == sorted[..k + 1] + sorted[k + 1..];
    TotalUntilConcat(sorted[..k + 1], sorted[k + 1..], t);
    forall b | b in sorted[..k + 1]
      ensures b.time <= t
    {
      var i :| 0 <= i <= k && sorted[i] == b;
      assert i < k ==> BoundaryLe(sorted[i], sorted[k]);
    }
    AllUntil(sorted[..k + 1], t);
    forall b | b in sorted[k + 1..]
      ensures b.time <= t ==> b.delta >= 0
    {
      var i :| k < i < |sorted| && sorted[i] == b;
      assert BoundaryLe(sorted[k], sorted[i]);
    }
    NoneUntil(sorted[k + 1..], t);
  }

  /** What runs at an instant is a prefix sum of the sorted boundaries. */
  lemma InstantIsPrefix(sorted: seq<Boundary>, t: int, k: nat)
    requires Sorted(sorted, BoundaryLe) && k <= |sorted|
    requires forall i :: 0 <= i < k ==> sorted[i].time <= t
    requires forall i :: k <= i < |sorted| ==> sorted[i].time > t
    ensures TotalUntil(sorted, t) == Total(sorted[..k])
  {
    assert sorted == sorted[..k] + sorted[k..];
    TotalUntilConcat(sorted[..k], sorted[k..], t);
    AllUntil(sorted[..k], t);
    NoneUntil(sorted[k..], t);
  }

  lemma {:induction false} PrefixExists(sorted: seq<Boundary>, t: int) returns (k: nat)
    requires Sorted(sorted, BoundaryLe)
    ensures k <= |sorted|
    ensures forall i :: 0 <= i < k ==> sorted[i].time <= t
    ensures forall i :: k <= i < |sorted| ==> sorted[i].time > t
  {
    k := 0;
    while k < |sorted| && sorted[k].time <= t
      invariant k <= |sorted|
      invariant forall i :: 0 <= i < k ==> sorted[i].time <= t
    {
      k := k + 1;
    }
    forall i | k <= i < |sorted|
      ensures sorted[i].time > t
    {
      assert k < i ==> BoundaryLe(sorted[k], sorted[i]);
    }
  }

  /** The sorted boundaries add up to the balance at each instant, which is 0 before all of them. */
  lemma SortedBoundaries(intervals: seq<Interval>) returns (early: int)
    ensures
      var sorted := Sort(Boundaries(intervals), BoundaryLe);
      && Sorted(sorted, BoundaryLe)
      && (forall k :: 0 <= k < |sorted| ==> sorted[k].delta == 1 || sorted[k].delta == -1)
      && (forall t :: Balance(intervals, t) == TotalUntil(sorted, t))
      && Balance(intervals, early) == 0
  {
    var unsorted := Boundaries(intervals);
    var sorted := Sort(unsorted, BoundaryLe);
    BoundaryOrder();
    SortSorts(unsorted, BoundaryLe);
    SortElements(unsorted, BoundaryLe);
    BoundaryDeltas(intervals);
    forall k | 0 <= k < |sorted|
      ensures sorted[k].delta == 1 || sorted[k].delta == -1
    {
      assert sorted[k] in unsorted;
    }
    forall t
      ensures Balance(intervals, t) == TotalUntil(sorted, t)
    {
      SortKeepsTotal(unsorted, t);
      BalanceIsTotal(intervals, t);
    }
    early := if sorted == [] then 0 else sorted[0].time - 1;
    forall b | b in sorted
      ensures b.time > early
    {
      var k :| 0 <= k < |sorted| && sorted[k] == b;
      assert 0 < k ==> BoundaryLe(sorted[0], sorted[k]);
    }
    NoneUntil(sorted, early);
  }

  /**
   The largest balance of any instant; it is the largest number of intervals that contain one instant exactly when some
   busiest instant is clear of backward intervals.
   */
  method MaxParallel(rows: seq<Times>) returns (maximum: int)
    ensures LargestBalance(Measured(rows), maximum)
    ensures MostRunning(Measured(rows), maximum)
       <==> exists t :: Busiest(Measured(rows), t) && ClearAt(Measured(rows), t)
  {
    maximum := LargestSum(rows);
    OverlapExactly(Measured(rows), maximum);
  }

  /** A row that runs backwards hides the one action that runs. */
  method BackwardOverlap() returns (maximum: int)
    ensures
      var rows := [Times(Some(5), Some(1)), Times(Some(2), Some(4))];
      maximum == 0 && Running(Measured(rows), 2) == 1 && !MostRunning(Measured(rows), maximum)
  {
    var rows := [Times(Some(5), Some(1)), Times(Some(2), Some(4))];
    var a, b := Interval(5, 1), Interval(2, 4);
    assert rows[1..] == [rows[1]] && [rows[1]][1..] == [] && [a, b][1..] == [b] && [b][1..] == [];
    assert Measured([rows[1]]) == [b] && [a] + [b] == [a, b];
    assert Measured(rows) == [a, b];
    maximum := MaxParallel(rows);
    forall t
      ensures Balance([a, b], t) == Balance([b], t) + if 1 <= t < 5 then -1 else 0
    {
    }
    forall t
      ensures Balance([b], t) == if 2 <= t < 4 then 1 else 0
    {
    }
    assert Balance([a, b], 0) == 0 && Running([b], 2) == 1 && Running([a, b], 2) == 1;
  }

  /** The loop over the sorted boundaries. */
  method LargestSum(rows: seq<Times>) returns (maximum: int)
    ensures LargestBalance(Measured(rows), maximum)
  {
    ghost var intervals := Measured(rows);
    var unsorted := CollectBoundaries(rows);
    var sorted := Sort(unsorted, BoundaryLe);
    ghost var peak := SortedBoundaries(intervals);
    var current := 0;
    maximum := 0;
    for k := 0 to |sorted|
      invariant current == Total(sorted[..k]) && 0 <= maximum
      invariant forall j :: 0 <= j <= k ==> Total(sorted[..j]) <= maximum
      invariant maximum <= Balance(intervals, peak)
    {
      assert sorted[..k + 1] == sorted[..k] + [sorted[k]];
      TotalConcat(sorted[..k], [sorted[k]]);
      current := current + sorted[k].delta;
      if current > maximum {
        StartIsCounted(sorted, k);
        peak := sorted[k].time;
      }
      maximum := Max(maximum, current);
    }
    forall t
      ensures Balance(intervals, t) <= maximum
    {
      var k := PrefixExists(sorted, t);
      InstantIsPrefix(sorted, t, k);
    }
    assert Balance(intervals, peak) == maximum;
  }

  lemma {:induction false} BoundaryDeltas(intervals: seq<Interval>)
    ensures forall b <- Boundaries(intervals) :: b.delta == 1 || b.delta == -1
  {
    if intervals != [] { BoundaryDeltas(intervals[1..]); }
  }

  /** Two boundaries for each row that has both times. */
  method CollectBoundaries(rows: seq<Times>) returns (boundaries: seq<Boundary>)
    ensures boundaries == Boundaries(Measured(rows))
  {
    boundaries := [];
    for i := 0 to |rows|
      invariant Boundaries(Measured(rows)) == boundaries + Boundaries(Measured(rows[i..]))
    {
      assert rows[i..][1..] == rows[i + 1..];
      var row := rows[i];
      if row.started.None? || row.finished.None? { continue; }
      var first := Interval(row.started.value, row.finished.value);
      assert ([first] + Measured(rows[i + 1..]))[1..] == Measured(rows[i + 1..]);
      boundaries := boundaries + [Boundary(first.start, 1)];
      boundaries := boundaries + [Boundary(first.end, -1)];
    }
  }
}
