/**
 Python's `sorted`: a stable sort by a total preorder given as a "less or equal" function.
 For a total order (equal means identical) the result depends only on the multiset of elements, and
 the k least elements of a whole can be taken from the k least elements of a part.
 */
module Sorting {
  import opened Sequences

  ghost predicate TotalPreorder<T(!new)>(le: (T, T) -> bool) {
    && (forall x, y :: le(x, y) || le(y, x))
    && (forall x, y, z :: le(x, y) && le(y, z) ==> le(x, z))
  }

  ghost predicate TotalOrder<T(!new)>(le: (T, T) -> bool) {
    && TotalPreorder(le)
    && (forall x, y :: le(x, y) && le(y, x) ==> x == y)
  }

  ghost predicate Sorted<T>(s: seq<T>, le: (T, T) -> bool) {
    forall i, j :: 0 <= i < j < |s| ==> le(s[i], s[j])
  }

  function Insert<T>(x: T, s: seq<T>, le: (T, T) -> bool): seq<T> {
    if s == [] then [x]
    else if le(x, s[0]) then [x] + s
    else [s[0]] + Insert(x, s[1..], le)
  }

  /** Stable insertion sort; earlier elements stay before later equal ones. */
  function Sort<T>(s: seq<T>, le: (T, T) -> bool): seq<T> {
    if s == [] then [] else Insert(s[0], Sort(s[1..], le), le)
  }

  lemma {:induction false} InsertPermutes<T>(x: T, s: seq<T>, le: (T, T) -> bool)
    ensures multiset(Insert(x, s, le)) == multiset{x} + multiset(s)
    ensures |Insert(x, s, le)| == |s| + 1
  {
    if s != [] && !le(x, s[0]) {
      InsertPermutes(x, s[1..], le);
      assert s == [s[0]] + s[1..];
    }
  }

  lemma {:induction false} InsertSorted<T(!new)>(x: T, s: seq<T>, le: (T, T) -> bool)
    requires TotalPreorder(le) && Sorted(s, le)
    ensures Sorted(Insert(x, s, le), le)
  {
    if s != [] && !le(x, s[0]) {
      var rest := Insert(x, s[1..], le);
      InsertSorted(x, s[1..], le);
      InsertPermutes(x, s[1..], le);
      forall i | 0 <= i < |rest|
        ensures le(s[0], rest[i])
      {
        assert rest[i] in multiset(rest);
        assert rest[i] == x || rest[i] in s[1..];
      }
    } else if s != [] {
      assert forall i :: 0 < i < |s| ==> le(s[0], s[i]);
    }
  }

  lemma {:induction false} SortPermutes<T>(s: seq<T>, le: (T, T) -> bool)
    ensures multiset(Sort(s, le)) == multiset(s)
    ensures |Sort(s, le)| == |s|
  {
    if s != [] {
      SortPermutes(s[1..], le);
      InsertPermutes(s[0], Sort(s[1..], le), le);
      assert s == [s[0]] + s[1..];
    }
  }

  lemma {:induction false} SortSorts<T(!new)>(s: seq<T>, le: (T, T) -> bool)
    requires TotalPreorder(le)
    ensures Sorted(Sort(s, le), le)
  {
    if s != [] {
      SortSorts(s[1..], le);
      InsertSorted(s[0], Sort(s[1..], le), le);
    }
  }

  lemma SortElements<T>(s: seq<T>, le: (T, T) -> bool)
    ensures forall x :: x in Sort(s, le) <==> x in s
  {
    SortPermutes(s, le);
    assert forall x :: x in Sort(s, le) <==> x in multiset(Sort(s, le));
    assert forall x :: x in s <==> x in multiset(s);
  }

  /** Different elements of the list are never equal in the order. */
  ghost predicate Separates<T(!new)>(le: (T, T) -> bool, s: seq<T>) {
    forall x, y :: x in s && y in s && le(x, y) && le(y, x) ==> x == y
  }

  lemma FirstIsLeast<T(!new)>(a: seq<T>, b: seq<T>, le: (T, T) -> bool)
    requires TotalPreorder(le) && Separates(le, a) && Sorted(a, le) && Sorted(b, le)
    requires multiset(a) == multiset(b) && a != []
    ensures b != [] && a[0] == b[0]
  {
    assert a[0] in multiset(a) && |multiset(a)| == |a| && |multiset(b)| == |b|;
    assert a[0] in multiset(b) && a[0] in b;
    assert b[0] in multiset(b) && b[0] in multiset(a) && b[0] in a;
  }

  /** A sorted arrangement of a multiset is unique. */
  lemma {:induction false} SortedUnique<T(!new)>(a: seq<T>, b: seq<T>, le: (T, T) -> bool)
    requires TotalPreorder(le) && Separates(le, a) && Sorted(a, le) && Sorted(b, le)
    requires multiset(a) == multiset(b)
    ensures a == b
  {
    if a == [] {
      assert |multiset(b)| == |b|;
    } else {
      FirstIsLeast(a, b, le);
      assert a == [a[0]] + a[1..] && b == [b[0]] + b[1..];
      assert multiset(a[1..]) == multiset(a) - multiset{a[0]};
      assert multiset(b[1..]) == multiset(b) - multiset{b[0]};
      SortedUnique(a[1..], b[1..], le);
    }
  }

  /** Sorting forgets the input order. */
  lemma SortOfPermutation<T(!new)>(a: seq<T>, b: seq<T>, le: (T, T) -> bool)
    requires TotalPreorder(le) && Separates(le, a) && multiset(a) == multiset(b)
    ensures Sort(a, le) == Sort(b, le)
  {
    SortElements(a, le);
    SortSorts(a, le);
    SortSorts(b, le);
    SortPermutes(a, le);
    SortPermutes(b, le);
    SortedUnique(Sort(a, le), Sort(b, le), le);
  }

  // ---------- the k least elements ----------

  function Least<T>(s: seq<T>, k: nat, le: (T, T) -> bool): seq<T> {
    var sorted := Sort(s, le);
    if k <= |sorted| then sorted[..k] else sorted
  }

  /** In a sorted list nothing behind a place is below what stands before it. */
  lemma SortedCut<T(!new)>(s: seq<T>, n: nat, le: (T, T) -> bool)
    requires Sorted(s, le) && n <= |s|
    ensures forall x, y :: x in s[..n] && y in s[n..] ==> le(x, y)
  {
    forall x, y | x in s[..n] && y in s[n..]
      ensures le(x, y)
    {
      var i :| 0 <= i < n && s[i] == x;
      var j :| n <= j < |s| && s[j] == y;
    }
  }

  lemma LeastSplits<T(!new)>(s: seq<T>, k: nat, le: (T, T) -> bool) returns (omitted: seq<T>)
    requires TotalPreorder(le)
    ensures |Least(s, k, le)| == if k <= |s| then k else |s|
    ensures Sorted(Least(s, k, le), le)
    ensures multiset(s) == multiset(Least(s, k, le)) + multiset(omitted)
    ensures forall x, y :: x in Least(s, k, le) && y in omitted ==> le(x, y)
  {
    var sorted := Sort(s, le);
    var n := if k <= |sorted| then k else |sorted|;
    SortSorts(s, le);
    SortPermutes(s, le);
    SortedCut(sorted, n, le);
    omitted := sorted[n..];
    assert sorted == sorted[..n] + omitted && Least(s, k, le) == sorted[..n];
  }

  /** Inserting an element that is not below the first k leaves the first k as they are. */
  lemma {:induction false} InsertBeyond<T(!new)>(q: T, s: seq<T>, k: nat, le: (T, T) -> bool)
    requires TotalOrder(le) && Sorted(s, le)
    requires 0 < k <= |s| && le(s[k - 1], q)
    ensures k <= |Insert(q, s, le)| && Insert(q, s, le)[..k] == s[..k]
  {
    InsertPermutes(q, s, le);
    if le(q, s[0]) {
      forall i | 0 <= i < k
        ensures s[i] == q
      {
        assert i == 0 || le(s[0], s[i]);
        assert i == k - 1 || le(s[i], s[k - 1]);
      }
    } else if k > 1 {
      InsertBeyond(q, s[1..], k - 1, le);
      assert Insert(q, s, le)[..k] == [s[0]] + Insert(q, s[1..], le)[..k - 1];
      assert s[..k] == [s[0]] + s[1..][..k - 1];
    }
  }

  lemma SubmultisetSize<T>(a: multiset<T>, b: multiset<T>)
    requires a <= b
    ensures |a| <= |b|
  {
    assert b == a + (b - a);
  }

  /** If k elements of a sorted sequence are at most q, so is its k-th element. */
  lemma KthAtMost<T(!new)>(p: seq<T>, s: seq<T>, q: T, le: (T, T) -> bool)
    requires TotalOrder(le) && Sorted(s, le)
    requires p != [] && multiset(p) <= multiset(s)
    requires forall x <- p :: le(x, q)
    ensures |p| <= |s| && le(s[|p| - 1], q)
  {
    var k := |p|;
    SubmultisetSize(multiset(p), multiset(s));
    if !le(s[k - 1], q) {
      var low, high := s[..k - 1], s[k - 1..];
      assert s == low + high;
      forall x | x in p
        ensures multiset(p)[x] <= multiset(low)[x]
      {
        assert x !in high;
      }
      assert multiset(p) <= multiset(low);
      SubmultisetSize(multiset(p), multiset(low));
    }
  }

  /** Elements not below k others never enter the k least. */
  lemma {:induction false} LeastIgnoresLarge<T(!new)>(p: seq<T>, q: seq<T>, b: seq<T>, le: (T, T) -> bool)
    requires TotalOrder(le) && p != []
    requires forall x, y :: x in p && y in q ==> le(x, y)
    ensures Least(q + (p + b), |p|, le) == Least(p + b, |p|, le)
  {
    if q == [] {
      assert q + (p + b) == p + b;
    } else {
      var rest := q[1..] + (p + b);
      assert q + (p + b) == [q[0]] + rest;
      LeastIgnoresLarge(p, q[1..], b, le);
      SortSorts(rest, le);
      SortPermutes(rest, le);
      assert multiset(p) <= multiset(rest);
      KthAtMost(p, Sort(rest, le), q[0], le);
      InsertBeyond(q[0], Sort(rest, le), |p|, le);
      assert Sort(q + (p + b), le) == Insert(q[0], Sort(rest, le), le);
    }
  }

  lemma PartsPermute<T>(a: seq<T>, p: seq<T>, q: seq<T>, b: seq<T>)
    requires multiset(a) == multiset(p + q)
    ensures multiset(a + b) == multiset(q + (p + b))
  {
  }

  /** The k least of `a + b` only need the k least of `a`. */
  lemma LeastOfPart<T(!new)>(a: seq<T>, b: seq<T>, k: nat, le: (T, T) -> bool)
    requires TotalOrder(le)
    ensures Least(a + b, k, le) == Least(Least(a, k, le) + b, k, le)
  {
    var s := Sort(a, le);
    SortPermutes(a, le);
    SortSorts(a, le);
    var p := Least(a, k, le);
    if k == 0 {
      SortPermutes(a + b, le);
    } else if k < |s| {
      var q := s[k..];
      assert s == p + q;
      LeastIgnoresLarge(p, q, b, le);
      PartsPermute(a, p, q, b);
      SortOfPermutation(a + b, q + (p + b), le);
    } else {
      assert s[..|s|] == s == p;
      assert multiset(a + b) == multiset(p + b);
      SortOfPermutation(a + b, p + b, le);
    }
  }

  // ---------- mapping before or after the selection ----------

  function MapAll<S, T>(f: S -> T, s: seq<S>): (mapped: seq<T>)
    ensures |mapped| == |s|
  {
    seq(|s|, i requires 0 <= i < |s| => f(s[i]))
  }

  lemma MapSplits<S, T>(f: S -> T, s: seq<S>, i: nat)
    requires i < |s|
    ensures multiset(MapAll(f, s)) == multiset{f(s[i])} + multiset(MapAll(f, s[..i] + s[i + 1..]))
  {
    var x, y := MapAll(f, s[..i]), MapAll(f, s[i + 1..]);
    assert MapAll(f, s) == x + [f(s[i])] + y;
    assert MapAll(f, s[..i] + s[i + 1..]) == x + y;
  }

  lemma {:induction false} MapPermutes<S, T>(f: S -> T, a: seq<S>, b: seq<S>)
    requires multiset(a) == multiset(b)
    ensures multiset(MapAll(f, a)) == multiset(MapAll(f, b))
  {
    if a == [] {
      assert |multiset(b)| == |b|;
    } else {
      var i := FirstElsewhere(a, b);
      MapPermutes(f, a[1..], b[..i] + b[i + 1..]);
      MapSplits(f, a, 0);
      MapSplits(f, b, i);
      assert a[..0] + a[1..] == a[1..];
    }
  }

  /** The map keeps the order of the elements of the list. */
  ghost predicate KeepsOrder<T(!new)>(f: T -> T, s: seq<T>, le: (T, T) -> bool) {
    forall x, y :: x in s && y in s && le(x, y) ==> le(f(x), f(y))
  }

  lemma SortOfMapped<T(!new)>(f: T -> T, s: seq<T>, le: (T, T) -> bool)
    requires TotalOrder(le) && KeepsOrder(f, s, le)
    ensures Sort(MapAll(f, s), le) == MapAll(f, Sort(s, le))
  {
    var sorted := Sort(s, le);
    var mapped := MapAll(f, sorted);
    SortSorts(s, le);
    SortPermutes(s, le);
    SortElements(s, le);
    forall i, j | 0 <= i < j < |mapped|
      ensures le(mapped[i], mapped[j])
    {
      assert sorted[i] in s && sorted[j] in s && le(sorted[i], sorted[j]);
    }
    SortSorts(MapAll(f, s), le);
    SortPermutes(MapAll(f, s), le);
    MapPermutes(f, sorted, s);
    SortedUnique(mapped, Sort(MapAll(f, s), le), le);
  }

  lemma LeastOfMapped<T(!new)>(f: T -> T, s: seq<T>, k: nat, le: (T, T) -> bool)
    requires TotalOrder(le) && KeepsOrder(f, s, le)
    ensures Least(MapAll(f, s), k, le) == MapAll(f, Least(s, k, le))
  {
    SortOfMapped(f, s, le);
    var sorted := Sort(s, le);
    assert k <= |sorted| ==> MapAll(f, sorted[..k]) == MapAll(f, sorted)[..k];
  }

  lemma LeastOfAll<T(!new)>(s: seq<T>, le: (T, T) -> bool)
    ensures Least(s, |s|, le) == Sort(s, le)
  {
    SortPermutes(s, le);
    assert Sort(s, le)[..|s|] == Sort(s, le);
  }

  /** Two elements of a sorted list stay in order when the mapped list is sorted too. */
  lemma MappedPairInOrder<T(!new)>(f: T -> T, sorted: seq<T>, le: (T, T) -> bool, i: nat, j: nat)
    requires TotalOrder(le) && Sorted(sorted, le) && Sorted(MapAll(f, sorted), le)
    requires i < |sorted| && j < |sorted| && le(sorted[i], sorted[j])
    ensures le(f(sorted[i]), f(sorted[j]))
  {
    var mapped := MapAll(f, sorted);
    assert mapped[i] == f(sorted[i]) && mapped[j] == f(sorted[j]);
    if j < i { assert sorted[i] == sorted[j]; }
  }

  lemma MappedKeepsOrder<T(!new)>(f: T -> T, s: seq<T>, le: (T, T) -> bool)
    requires TotalOrder(le) && Sort(MapAll(f, s), le) == MapAll(f, Sort(s, le))
    ensures KeepsOrder(f, s, le)
  {
    var sorted := Sort(s, le);
    SortSorts(s, le);
    SortElements(s, le);
    SortSorts(MapAll(f, s), le);
    forall x, y | x in s && y in s && le(x, y)
      ensures le(f(x), f(y))
    {
      assert x in sorted && y in sorted;
      var i :| 0 <= i < |sorted| && sorted[i] == x;
      var j :| 0 <= j < |sorted| && sorted[j] == y;
      MappedPairInOrder(f, sorted, le, i, j);
    }
  }

  /** A map can be applied before or after taking the k least, for every k, exactly when it keeps the order. */
  lemma LeastOfMappedExactly<T(!new)>(f: T -> T, s: seq<T>, le: (T, T) -> bool)
    requires TotalOrder(le)
    ensures (forall k: nat :: Least(MapAll(f, s), k, le) == MapAll(f, Least(s, k, le))) <==> KeepsOrder(f, s, le)
  {
    if KeepsOrder(f, s, le) {
      forall k: nat
        ensures Least(MapAll(f, s), k, le) == MapAll(f, Least(s, k, le))
      {
        LeastOfMapped(f, s, k, le);
      }
    }
    if forall k: nat :: Least(MapAll(f, s), k, le) == MapAll(f, Least(s, k, le)) {
      assert Least(MapAll(f, s), |s|, le) == MapAll(f, Least(s, |s|, le));
      LeastOfAll(s, le);
      LeastOfAll(MapAll(f, s), le);
      MappedKeepsOrder(f, s, le);
    }
  }
}
