/** The portal's sorts: `Array.prototype.sort` (a stable sort) with a
    comparator that orders by a key, largest first. Every key the portal
    sorts by (likes, views, premium-then-creation-date) is a `Rank`
    compared lexicographically, so one stable insertion sort covers them. */
module Sorting {
  import opened Seqs

  /** A two-level sort key, compared lexicographically. */
  datatype Rank = Rank(major: int, minor: int)

  /** `a` may come before `b` in a largest-first order. */
  predicate AtLeast(a: Rank, b: Rank) {
    a.major > b.major || (a.major == b.major && a.minor >= b.minor)
  }

  /** `s` is in non-increasing rank order. */
  predicate SortedBy<T>(s: seq<T>, rank: T -> Rank) {
    forall i, j :: 0 <= i < j < |s| ==> AtLeast(rank(s[i]), rank(s[j]))
  }

  /** `x` placed in `s` before the first element whose rank it reaches. */
  function Insert<T>(x: T, s: seq<T>, rank: T -> Rank): (r: seq<T>)
    ensures |r| == |s| + 1
    ensures multiset(r) == multiset(s) + multiset{x}
  {
    if s == [] || AtLeast(rank(x), rank(s[0])) then [x] + s
    else
      assert s == [s[0]] + s[1..];
      [s[0]] + Insert(x, s[1..], rank)
  }

  /** An element that reaches the head's rank goes in front. */
  lemma InsertFront<T>(x: T, s: seq<T>, rank: T -> Rank)
    requires s == [] || AtLeast(rank(x), rank(s[0]))
    ensures Insert(x, s, rank) == [x] + s
  {
  }

  /** An element below the head's rank goes after it. */
  lemma InsertPast<T>(x: T, s: seq<T>, rank: T -> Rank)
    requires s != [] && !AtLeast(rank(x), rank(s[0]))
    ensures Insert(x, s, rank) == [s[0]] + Insert(x, s[1..], rank)
  {
  }

  /** Inserting into a sorted sequence keeps it sorted. */
  lemma {:induction false} InsertSorted<T>(x: T, s: seq<T>, rank: T -> Rank)
    requires SortedBy(s, rank)
    ensures SortedBy(Insert(x, s, rank), rank)
  {
    if s != [] && !AtLeast(rank(x), rank(s[0])) {
      var t := Insert(x, s[1..], rank);
      InsertSorted(x, s[1..], rank);
      forall j | 0 <= j < |t|
        ensures AtLeast(rank(s[0]), rank(t[j]))
      {
        assert t[j] in multiset(t);
        if t[j] != x {
          assert t[j] in multiset(s[1..]);
          var k :| 0 <= k < |s[1..]| && s[1..][k] == t[j];
          assert s[k + 1] == t[j];
        }
      }
      assert Insert(x, s, rank) == [s[0]] + t;
    }
  }

  /** The stable sort: `s.sort((a, b) => rank(b) - rank(a))`. */
  function SortByRank<T>(s: seq<T>, rank: T -> Rank): (r: seq<T>)
    ensures |r| == |s|
    ensures multiset(r) == multiset(s)
    ensures SortedBy(r, rank)
  {
    if s == [] then []
    else
      var t := SortByRank(s[1..], rank);
      assert s == [s[0]] + s[1..];
      assert SortedBy(Insert(s[0], t, rank), rank) by {
        InsertSorted(s[0], t, rank);
      }
      Insert(s[0], t, rank)
  }

  /** The test "has rank `k`", as a value that can be passed to `Filter`. */
  function HasRank<T>(rank: T -> Rank, k: Rank): T -> bool {
    y => rank(y) == k
  }

  /** Insertion puts `x` in front of every element of its own rank. */
  lemma {:induction false} InsertStable<T>(x: T, s: seq<T>, rank: T -> Rank, k: Rank)
    ensures Filter(Insert(x, s, rank), HasRank(rank, k))
         == if rank(x) == k then [x] + Filter(s, HasRank(rank, k)) else Filter(s, HasRank(rank, k))
  {
    var keep := HasRank(rank, k);
    if s == [] || AtLeast(rank(x), rank(s[0])) {
      assert ([x] + s)[1..] == s;
    } else {
      InsertStable(x, s[1..], rank, k);
      assert ([s[0]] + Insert(x, s[1..], rank))[1..] == Insert(x, s[1..], rank);
    }
  }

  /** The sort is stable: the elements of any one rank keep their order. */
  lemma {:induction false} SortStable<T>(s: seq<T>, rank: T -> Rank, k: Rank)
    ensures Filter(SortByRank(s, rank), HasRank(rank, k)) == Filter(s, HasRank(rank, k))
  {
    if s != [] {
      SortStable(s[1..], rank, k);
      InsertStable(s[0], SortByRank(s[1..], rank), rank, k);
    }
  }

  /** A sequence already in order is left as it is. */
  lemma {:induction false} SortKeepsSorted<T>(s: seq<T>, rank: T -> Rank)
    requires SortedBy(s, rank)
    ensures SortByRank(s, rank) == s
  {
    if s != [] {
      var tail := s[1..];
      SortedTail(s, rank);
      SortKeepsSorted(tail, rank);
      assert tail == [] || AtLeast(rank(s[0]), rank(tail[0]));
      InsertFront(s[0], tail, rank);
      assert [s[0]] + tail == s;
    }
  }

  /** The tail of a sorted sequence is sorted. */
  lemma SortedTail<T>(s: seq<T>, rank: T -> Rank)
    requires s != [] && SortedBy(s, rank)
    ensures SortedBy(s[1..], rank)
  {
    var tail := s[1..];
    forall i, j | 0 <= i < j < |tail|
      ensures AtLeast(rank(tail[i]), rank(tail[j]))
    {
      assert tail[i] == s[i + 1] && tail[j] == s[j + 1];
    }
  }

  /** Dropping elements from a sorted sequence leaves it sorted. */
  lemma {:induction false} FilterKeepsSorted<T>(s: seq<T>, keep: T -> bool, rank: T -> Rank)
    requires SortedBy(s, rank)
    ensures SortedBy(Filter(s, keep), rank)
  {
    if s != [] {
      var tail := s[1..];
      SortedTail(s, rank);
      FilterKeepsSorted(tail, keep, rank);
      var rest := Filter(tail, keep);
      if keep(s[0]) {
        forall j | 0 <= j < |rest|
          ensures AtLeast(rank(s[0]), rank(rest[j]))
        {
          var k :| 0 <= k < |tail| && tail[k] == rest[j];
          assert s[k + 1] == rest[j];
        }
        assert Filter(s, keep) == [s[0]] + rest;
        SortedCons(s[0], rest, rank);
      } else {
        assert Filter(s, keep) == rest;
      }
    }
  }

  /** An element ranking at least as high as every element of a sorted
      sequence can go in front of it. */
  lemma SortedCons<T>(x: T, t: seq<T>, rank: T -> Rank)
    requires SortedBy(t, rank)
    requires forall j :: 0 <= j < |t| ==> AtLeast(rank(x), rank(t[j]))
    ensures SortedBy([x] + t, rank)
  {
    var r := [x] + t;
    forall i, j | 0 <= i < j < |r| ensures AtLeast(rank(r[i]), rank(r[j])) {
      assert r[j] == t[j - 1];
      if i > 0 {
        assert r[i] == t[i - 1];
      }
    }
  }

  /** `s.slice(0, n)`. */
  function Take<T>(s: seq<T>, n: nat): (r: seq<T>)
    ensures |r| == if |s| < n then |s| else n
    ensures r == s[..|r|]
  {
    if n <= |s| then s[..n] else s
  }

  /** In a sorted sequence everything before position `k` ranks at least
      as high as everything from `k` on. */
  lemma PrefixBeatsSuffix<T>(s: seq<T>, k: nat, rank: T -> Rank)
    requires SortedBy(s, rank) && k <= |s|
    ensures forall x, y :: x in s[..k] && y in s[k..] ==> AtLeast(rank(x), rank(y))
  {
    forall x, y | x in s[..k] && y in s[k..]
      ensures AtLeast(rank(x), rank(y))
    {
      var i :| 0 <= i < k && s[..k][i] == x;
      var j :| 0 <= j < |s| - k && s[k..][j] == y;
      assert s[i] == x && s[k + j] == y;
    }
  }

  /** What a prefix leaves out of a permutation of `s` is the rest of it. */
  lemma PrefixRest<T>(s: seq<T>, sorted: seq<T>, k: nat)
    requires multiset(sorted) == multiset(s) && k <= |sorted|
    ensures multiset(s) - multiset(sorted[..k]) == multiset(sorted[k..])
    ensures multiset(sorted[..k]) <= multiset(s)
  {
    assert sorted == sorted[..k] + sorted[k..];
    assert multiset(sorted) == multiset(sorted[..k]) + multiset(sorted[k..]);
  }

  /** `[...s].sort(byRank).slice(0, n)`: the `n` best-ranked elements. */
  function TopN<T>(s: seq<T>, rank: T -> Rank, n: nat): (r: seq<T>)
    ensures |r| == if |s| < n then |s| else n
    ensures SortedBy(r, rank)
    ensures multiset(r) <= multiset(s)
    ensures forall x, y :: x in r && y in multiset(s) - multiset(r) ==> AtLeast(rank(x), rank(y))
  {
    var sorted := SortByRank(s, rank);
    var r := Take(sorted, n);
    PrefixRest(s, sorted, |r|);
    PrefixBeatsSuffix(sorted, |r|, rank);
    r
  }

  /** The top list read on the major key alone: non-increasing, and never
      below an element left out. */
  lemma TopNByMajor<T>(s: seq<T>, rank: T -> Rank, n: nat)
    ensures var top := TopN(s, rank, n);
            && (forall i, j :: 0 <= i < j < |top| ==> rank(top[i]).major >= rank(top[j]).major)
            && (forall x, y :: x in top && y in multiset(s) - multiset(top) ==> rank(x).major >= rank(y).major)
  {
    var top := TopN(s, rank, n);
    forall i, j | 0 <= i < j < |top| ensures rank(top[i]).major >= rank(top[j]).major {
      assert AtLeast(rank(top[i]), rank(top[j]));
    }
    forall x, y | x in top && y in multiset(s) - multiset(top) ensures rank(x).major >= rank(y).major {
      assert AtLeast(rank(x), rank(y));
    }
  }
}
