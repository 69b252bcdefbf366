/** Sequence operations behind the stores: the stable sort that
    `Array.prototype.sort` performs with a comparator, `findIndex`/`find`,
    and `filter`. */
module Collections {
  import opened Wrappers

  // ---------------------------------------------------------------------------
  // Sorting by a lexicographic rank
  // ---------------------------------------------------------------------------

  /** A sort key compared lexicographically: `major` first, then `minor`.
      A comparator `cmp` is modelled by a rank with cmp(a, b) < 0 exactly when
      rank(a) is strictly below rank(b). */
  datatype Rank = Rank(major: int, minor: int)

  predicate RankLe(a: Rank, b: Rank) {
    a.major < b.major || (a.major == b.major && a.minor <= b.minor)
  }

  predicate RankLt(a: Rank, b: Rank) {
    !RankLe(b, a)
  }

  ghost predicate SortedBy<T>(s: seq<T>, rank: T -> Rank) {
    forall i, j | 0 <= i < j < |s| :: RankLe(rank(s[i]), rank(s[j]))
  }

  /** Inserts `x` in front of the first element that does not rank strictly
      below it, so `x` stays ahead of the elements it ties with. */
  function Insert<T>(x: T, s: seq<T>, rank: T -> Rank): (r: seq<T>)
    ensures multiset(r) == multiset(s) + multiset{x}
    decreases |s|
  {
    if |s| == 0 then [x]
    else if RankLt(rank(s[0]), rank(x)) then
      var r := [s[0]] + Insert(x, s[1..], rank);
      assert s == [s[0]] + s[1..];
      r
    else [x] + s
  }

  /** The test "ranks exactly `k`", as a predicate value. */
  function Tie<T>(rank: T -> Rank, k: Rank): T -> bool {
    (x: T) => rank(x) == k
  }

  /** A stable insertion sort: the result is a permutation of `s` in
      non-decreasing rank, and elements of equal rank keep their input order. */
  function Sort<T>(s: seq<T>, rank: T -> Rank): (r: seq<T>)
    ensures multiset(r) == multiset(s)
    ensures SortedBy(r, rank)
    ensures forall k :: Filter(r, Tie(rank, k)) == Filter(s, Tie(rank, k))
    decreases |s|
  {
    if |s| == 0 then []
    else
      var rest := Sort(s[1..], rank);
      var r := Insert(s[0], rest, rank);
      InsertKeepsOrder(s[0], rest, rank);
      assert s == [s[0]] + s[1..];
      forall k ensures Filter(r, Tie(rank, k)) == Filter(s, Tie(rank, k)) {
        FilterInsertTie(s[0], rest, rank, k);
        FilterCons(s[0], s[1..], Tie(rank, k));
      }
      r
  }

  /** Filtering a sequence that starts with `x` either keeps `x` in front or
      drops it. */
  lemma FilterCons<T>(x: T, s: seq<T>, p: T -> bool)
    ensures Filter([x] + s, p) == (if p(x) then [x] else []) + Filter(s, p)
  {
    assert ([x] + s)[1..] == s;
  }

  /** `Insert` puts `x` ahead of every element it ties with, so among the
      elements of one rank it appears first. */
  lemma {:induction false} FilterInsertTie<T>(x: T, s: seq<T>, rank: T -> Rank, k: Rank)
    ensures Filter(Insert(x, s, rank), Tie(rank, k))
            == (if rank(x) == k then [x] else []) + Filter(s, Tie(rank, k))
    decreases |s|
  {
    var q := Tie(rank, k);
    if |s| == 0 {
      FilterCons(x, [], q);
    } else if RankLt(rank(s[0]), rank(x)) {
      var tail := Insert(x, s[1..], rank);
      assert Insert(x, s, rank) == [s[0]] + tail;
      assert s == [s[0]] + s[1..];
      FilterInsertTie(x, s[1..], rank, k);
      FilterCons(s[0], tail, q);
      FilterCons(s[0], s[1..], q);
      if q(x) {
        assert !q(s[0]);
        assert Filter(Insert(x, s, rank), q) == Filter(tail, q);
        assert Filter(s, q) == Filter(s[1..], q);
      } else {
        assert Filter(tail, q) == Filter(s[1..], q);
      }
    } else {
      FilterCons(x, s, q);
    }
  }

  /** Inserting into an ordered sequence keeps it ordered. */
  lemma {:induction false} InsertKeepsOrder<T>(x: T, s: seq<T>, rank: T -> Rank)
    requires SortedBy(s, rank)
    ensures SortedBy(Insert(x, s, rank), rank)
    decreases |s|
  {
    if |s| > 0 {
      var r := Insert(x, s, rank);
      if RankLt(rank(s[0]), rank(x)) {
        var tail := Insert(x, s[1..], rank);
        assert SortedBy(s[1..], rank);
        InsertKeepsOrder(x, s[1..], rank);
        forall j | 0 <= j < |tail|
          ensures RankLe(rank(s[0]), rank(tail[j]))
        {
          assert tail[j] in multiset(tail);
          if tail[j] != x {
            assert tail[j] in multiset(s[1..]);
            var k :| 0 <= k < |s[1..]| && s[1..][k] == tail[j];
            assert s[k + 1] == tail[j];
          }
        }
        assert r == [s[0]] + tail;
      } else {
        forall j | 0 <= j < |s|
          ensures RankLe(rank(x), rank(s[j]))
        {
          if j > 0 {
            assert RankLe(rank(s[0]), rank(s[j]));
          }
        }
        assert r == [x] + s;
      }
    }
  }

  /** Sorting keeps the length. */
  lemma SortLength<T>(s: seq<T>, rank: T -> Rank)
    ensures |Sort(s, rank)| == |s|
  {
    assert |multiset(Sort(s, rank))| == |multiset(s)|;
  }

  /** Membership is unchanged by sorting. */
  lemma SortMembers<T>(s: seq<T>, rank: T -> Rank, x: T)
    ensures x in Sort(s, rank) <==> x in s
  {
    assert x in Sort(s, rank) <==> x in multiset(Sort(s, rank));
    assert x in s <==> x in multiset(s);
  }

  /** A sequence that is already in order is left exactly as it was. */
  lemma {:induction false} SortOfSorted<T>(s: seq<T>, rank: T -> Rank)
    requires SortedBy(s, rank)
    ensures Sort(s, rank) == s
    decreases |s|
  {
    if |s| > 0 {
      assert SortedBy(s[1..], rank);
      SortOfSorted(s[1..], rank);
      if |s| > 1 {
        assert RankLe(rank(s[0]), rank(s[1..][0]));
      }
    }
  }

  // ---------------------------------------------------------------------------
  // Searching
  // ---------------------------------------------------------------------------

  /** `s.findIndex(p)`: the first index whose element satisfies `p`, or none
      (JavaScript's -1). */
  function FindIndex<T>(s: seq<T>, p: T -> bool): (r: Option<nat>)
    ensures r.Some? ==> r.value < |s| && p(s[r.value])
    ensures r.Some? ==> forall k | 0 <= k < r.value :: !p(s[k])
    ensures r.None? ==> forall k | 0 <= k < |s| :: !p(s[k])
    decreases |s|
  {
    if |s| == 0 then None
    else if p(s[0]) then Some(0)
    else match FindIndex(s[1..], p)
      case None => None
      case Some(k) => Some(k + 1)
  }

  // ---------------------------------------------------------------------------
  // Filtering and counting
  // ---------------------------------------------------------------------------

  /** `s.filter(p)`: the elements satisfying `p`, in their original order,
      one for each position of `s` that satisfies it. */
  function Filter<T>(s: seq<T>, p: T -> bool): (r: seq<T>)
    ensures forall i | 0 <= i < |r| :: r[i] in s && p(r[i])
    ensures forall i | 0 <= i < |s| && p(s[i]) :: s[i] in r
    ensures |r| == Count(s, p) <= |s|
    decreases |s|
  {
    if |s| == 0 then []
    else
      var rest := Filter(s[1..], p);
      assert forall i | 1 <= i < |s| :: s[i] == s[1..][i - 1];
      if p(s[0]) then [s[0]] + rest else rest
  }

  /** Dropping elements keeps the survivors in order. */
  lemma {:induction false} FilterKeepsOrder<T>(s: seq<T>, p: T -> bool, rank: T -> Rank)
    requires SortedBy(s, rank)
    ensures SortedBy(Filter(s, p), rank)
    decreases |s|
  {
    if |s| > 0 {
      assert SortedBy(s[1..], rank);
      FilterKeepsOrder(s[1..], p, rank);
      var rest := Filter(s[1..], p);
      if p(s[0]) {
        forall j | 0 < j < |rest| + 1
          ensures RankLe(rank(s[0]), rank(([s[0]] + rest)[j]))
        {
          var x := rest[j - 1];
          assert x in s[1..] by { assert x in s && p(x); }
          var k :| 0 <= k < |s[1..]| && s[1..][k] == x;
          assert s[k + 1] == x;
        }
      }
    }
  }

  /** `r` is `s` with some elements dropped and the rest in their order. */
  ghost predicate SubsequenceOf<T>(r: seq<T>, s: seq<T>)
    decreases |s|
  {
    if |r| == 0 then true
    else if |s| == 0 then false
    else (s[0] == r[0] && SubsequenceOf(r[1..], s[1..])) || SubsequenceOf(r, s[1..])
  }

  /** Filtering only drops elements: what survives is a subsequence. */
  lemma {:induction false} FilterSubsequence<T>(s: seq<T>, p: T -> bool)
    ensures SubsequenceOf(Filter(s, p), s)
    decreases |s|
  {
    if |s| > 0 {
      FilterSubsequence(s[1..], p);
      var rest := Filter(s[1..], p);
      if p(s[0]) {
        assert ([s[0]] + rest)[1..] == rest;
      }
    }
  }

  /** Of three elements where only the last fails the predicate, the filter
      keeps the first two. */
  lemma FilterTwoOfThree<T>(x: T, y: T, z: T, p: T -> bool)
    requires p(x) && p(y) && !p(z)
    ensures Filter([x, y, z], p) == [x, y]
  {
    assert [z][1..] == [];
    assert Filter([z], p) == [];
    assert [y, z][1..] == [z];
    assert Filter([y, z], p) == [y];
    assert [x, y, z][1..] == [y, z];
  }

  /** Filtering twice by the same predicate is filtering once. */
  lemma {:induction false} FilterIdempotent<T>(s: seq<T>, p: T -> bool)
    ensures Filter(Filter(s, p), p) == Filter(s, p)
    decreases |s|
  {
    if |s| > 0 {
      FilterIdempotent(s[1..], p);
    }
  }

  /** The number of elements satisfying `p`. */
  function Count<T>(s: seq<T>, p: T -> bool): nat
    decreases |s|
  {
    if |s| == 0 then 0 else (if p(s[0]) then 1 else 0) + Count(s[1..], p)
  }

  /** Inserting one element adds exactly its own contribution to a count. */
  lemma {:induction false} CountInsert<T>(x: T, s: seq<T>, rank: T -> Rank, p: T -> bool)
    ensures Count(Insert(x, s, rank), p) == (if p(x) then 1 else 0) + Count(s, p)
    decreases |s|
  {
    if |s| > 0 && RankLt(rank(s[0]), rank(x)) {
      CountInsert(x, s[1..], rank, p);
      assert ([s[0]] + Insert(x, s[1..], rank))[1..] == Insert(x, s[1..], rank);
    } else if |s| > 0 {
      assert ([x] + s)[1..] == s;
    }
  }

  /** Sorting does not change how many elements satisfy a predicate. */
  lemma {:induction false} CountSort<T>(s: seq<T>, rank: T -> Rank, p: T -> bool)
    ensures Count(Sort(s, rank), p) == Count(s, p)
    decreases |s|
  {
    if |s| > 0 {
      CountSort(s[1..], rank, p);
      CountInsert(s[0], Sort(s[1..], rank), rank, p);
    }
  }

  /** A count over a prefixed sequence. */
  lemma CountCons<T>(x: T, s: seq<T>, p: T -> bool)
    ensures Count([x] + s, p) == (if p(x) then 1 else 0) + Count(s, p)
  {
    assert ([x] + s)[1..] == s;
  }

  /** Two distinct positions satisfying `p` make the count at least two. */
  lemma {:induction false} CountAtLeastTwo<T>(s: seq<T>, p: T -> bool, i: int, j: int)
    requires 0 <= i < j < |s| && p(s[i]) && p(s[j])
    ensures Count(s, p) >= 2
    decreases |s|
  {
    if i > 0 {
      CountAtLeastTwo(s[1..], p, i - 1, j - 1);
    } else {
      assert s[1..][j - 1] == s[j];
      CountPositive(s[1..], p);
    }
  }

  /** A positive count means some element satisfies `p`. */
  lemma {:induction false} CountPositive<T>(s: seq<T>, p: T -> bool)
    ensures Count(s, p) > 0 <==> exists x :: x in s && p(x)
    decreases |s|
  {
    if |s| > 0 {
      CountPositive(s[1..], p);
      if Count(s, p) > 0 && !p(s[0]) {
        var x :| x in s[1..] && p(x);
        assert x in s;
      }
    }
  }

  /** When every element satisfying `p` is `x`, the count is the number of
      copies of `x`. */
  lemma {:induction false} CountOfSingleKind<T>(s: seq<T>, p: T -> bool, x: T)
    requires p(x)
    requires forall i | 0 <= i < |s| && p(s[i]) :: s[i] == x
    ensures Count(s, p) == multiset(s)[x]
    decreases |s|
  {
    if |s| > 0 {
      assert forall i | 0 <= i < |s[1..]| && p(s[1..][i]) :: s[1..][i] == x by {
        forall i | 0 <= i < |s[1..]| && p(s[1..][i])
          ensures s[1..][i] == x
        {
          assert s[1..][i] == s[i + 1];
        }
      }
      CountOfSingleKind(s[1..], p, x);
      assert s == [s[0]] + s[1..];
      assert multiset(s) == multiset{s[0]} + multiset(s[1..]);
    }
  }
}
