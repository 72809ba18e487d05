/** `Array.prototype.filter` and the sums and counts built on it. */
module Seqs {

  /** The elements of `s` that `keep` accepts, in their original order. */
  function Filter<T>(s: seq<T>, keep: T -> bool): (r: seq<T>)
    ensures |r| <= |s|
    ensures forall i :: 0 <= i < |r| ==> keep(r[i])
    ensures forall i :: 0 <= i < |r| ==> r[i] in s
    ensures forall i :: 0 <= i < |s| && keep(s[i]) ==> s[i] in r
    ensures multiset(r) <= multiset(s)
  {
    if s == [] then []
    else
      var rest := Filter(s[1..], keep);
      assert s == [s[0]] + s[1..];
      if keep(s[0]) then [s[0]] + rest else rest
  }

  /** Filtering keeps every accepted element as often as it occurs and drops
      every other one. */
  lemma {:induction false} FilterMultiplicity<T>(s: seq<T>, keep: T -> bool)
    ensures forall i :: 0 <= i < |s| ==>
              multiset(Filter(s, keep))[s[i]] == if keep(s[i]) then multiset(s)[s[i]] else 0
  {
    if s != [] {
      FilterMultiplicity(s[1..], keep);
      FilterStepMultiplicity(s, keep, Filter(s[1..], keep), Filter(s, keep));
    }
  }

  /** One step of `Filter`: if `rest` keeps the multiplicities of the tail,
      `r` keeps those of the whole sequence. */
  lemma FilterStepMultiplicity<T>(s: seq<T>, keep: T -> bool, rest: seq<T>, r: seq<T>)
    requires s != []
    requires multiset(rest) <= multiset(s[1..])
    requires forall i :: 0 <= i < |s[1..]| ==>
               multiset(rest)[s[1..][i]] == if keep(s[1..][i]) then multiset(s[1..])[s[1..][i]] else 0
    requires r == if keep(s[0]) then [s[0]] + rest else rest
    ensures forall i :: 0 <= i < |s| ==> multiset(r)[s[i]] == if keep(s[i]) then multiset(s)[s[i]] else 0
  {
    assert s == [s[0]] + s[1..];
    assert multiset(s) == multiset{s[0]} + multiset(s[1..]);
    assert multiset(r) == (if keep(s[0]) then multiset{s[0]} else multiset{}) + multiset(rest);
    forall i | 0 <= i < |s|
      ensures multiset(r)[s[i]] == if keep(s[i]) then multiset(s)[s[i]] else 0
    {
      var x := s[i];
      if x in s[1..] {
        var j :| 0 <= j < |s[1..]| && s[1..][j] == x;
      } else {
        assert multiset(s[1..])[x] == 0;
      }
    }
  }

  /** Filtering distributes over concatenation. */
  lemma {:induction false} FilterAppend<T>(a: seq<T>, b: seq<T>, keep: T -> bool)
    ensures Filter(a + b, keep) == Filter(a, keep) + Filter(b, keep)
  {
    if a == [] {
      assert a + b == b;
    } else {
      var ab := a + b;
      assert ab[1..] == a[1..] + b;
      FilterAppend(a[1..], b, keep);
      if keep(a[0]) {
        calc {
          Filter(ab, keep);
          [a[0]] + Filter(a[1..] + b, keep);
          [a[0]] + (Filter(a[1..], keep) + Filter(b, keep));
          ([a[0]] + Filter(a[1..], keep)) + Filter(b, keep);
        }
      }
    }
  }

  /** A filter that accepts everything keeps everything. */
  lemma {:induction false} FilterKeepsAll<T>(s: seq<T>, keep: T -> bool)
    requires forall i :: 0 <= i < |s| ==> keep(s[i])
    ensures Filter(s, keep) == s
  {
    if s != [] {
      FilterKeepsAll(s[1..], keep);
    }
  }

  /** How many elements of `s` `keep` accepts: `s.filter(keep).length`. */
  function Count<T>(s: seq<T>, keep: T -> bool): (n: nat)
    ensures n <= |s|
    ensures n == 0 <==> forall i :: 0 <= i < |s| ==> !keep(s[i])
  {
    var r := Filter(s, keep);
    assert r != [] ==> r[0] in s;
    |r|
  }

  /** The count of a non-empty sequence: its head, then the rest. */
  lemma CountCons<T>(s: seq<T>, keep: T -> bool)
    requires s != []
    ensures Count(s, keep) == (if keep(s[0]) then 1 else 0) + Count(s[1..], keep)
  {
  }

  /** Counting does not depend on the order of the elements. */
  lemma {:induction false} CountPermutation<T>(a: seq<T>, b: seq<T>, keep: T -> bool)
    requires multiset(a) == multiset(b)
    ensures Count(a, keep) == Count(b, keep)
    decreases |a|
  {
    if a == [] {
      assert |multiset(b)| == 0;
    } else {
      var x := a[0];
      assert x in multiset(b);
      var k :| 0 <= k < |b| && b[k] == x;
      var rest := b[..k] + b[k + 1..];
      assert b == b[..k] + [x] + b[k + 1..];
      assert a == [x] + a[1..];
      assert multiset(b) == multiset(b[..k]) + multiset{x} + multiset(b[k + 1..]);
      assert multiset(a) == multiset{x} + multiset(a[1..]);
      assert multiset(rest) == multiset(b[..k]) + multiset(b[k + 1..]);
      assert multiset(a[1..]) == multiset(a) - multiset{x};
      assert multiset(rest) == multiset(b) - multiset{x};
      assert multiset(a[1..]) == multiset(rest);
      CountPermutation(a[1..], rest, keep);
      FilterAppend(b[..k] + [x], b[k + 1..], keep);
      FilterAppend(b[..k], [x], keep);
      FilterAppend(b[..k], b[k + 1..], keep);
      FilterAppend([x], a[1..], keep);
      assert [x][1..] == [];
    }
  }

  /** Sequences that agree, position by position, on `keep` have equal counts. */
  lemma {:induction false} CountPointwise<T>(a: seq<T>, b: seq<T>, keep: T -> bool)
    requires |a| == |b|
    requires forall i :: 0 <= i < |a| ==> keep(a[i]) == keep(b[i])
    ensures Count(a, keep) == Count(b, keep)
  {
    if a != [] {
      CountPointwise(a[1..], b[1..], keep);
    }
  }

  /** `xs.reduce((sum, x) => sum + f(x), 0)`. */
  function Sum<T>(s: seq<T>, f: T -> nat): nat {
    if s == [] then 0 else f(s[0]) + Sum(s[1..], f)
  }

  /** A sum over a concatenation is the sum of the sums. */
  lemma {:induction false} SumAppend<T>(a: seq<T>, b: seq<T>, f: T -> nat)
    ensures Sum(a + b, f) == Sum(a, f) + Sum(b, f)
  {
    if a != [] {
      assert (a + b)[0] == a[0] && (a + b)[1..] == a[1..] + b;
      SumAppend(a[1..], b, f);
    } else {
      assert a + b == b;
    }
  }

  /** A sum is zero exactly when every term is. */
  lemma {:induction false} SumZero<T>(s: seq<T>, f: T -> nat)
    ensures Sum(s, f) == 0 <==> forall i :: 0 <= i < |s| ==> f(s[i]) == 0
  {
    if s != [] {
      SumZero(s[1..], f);
      assert forall i :: 1 <= i < |s| ==> s[i] == s[1..][i - 1];
    }
  }

  /** Every term of a sum is at most the sum. */
  lemma {:induction false} SumBoundsTerm<T>(s: seq<T>, f: T -> nat, i: nat)
    requires i < |s|
    ensures f(s[i]) <= Sum(s, f)
  {
    if i > 0 {
      SumBoundsTerm(s[1..], f, i - 1);
    }
  }

  /** Every element of a permutation of `b` is an element of `b`. */
  lemma PermutationMembers<T>(a: seq<T>, b: seq<T>)
    requires multiset(a) == multiset(b)
    ensures forall i :: 0 <= i < |a| ==> a[i] in b
  {
    forall i | 0 <= i < |a| ensures a[i] in b {
      assert a[i] in multiset(a);
    }
  }
}
