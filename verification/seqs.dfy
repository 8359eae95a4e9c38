/** Generic sequence operations: the list comprehensions, filters and ORDER BY clauses of the
    source are all instances of these. */
module Seqs {
  import opened Wrappers

  /** `[x for x in s if keep(x)]` */
  function Filter<T>(s: seq<T>, keep: T -> bool): (r: seq<T>)
    ensures |r| <= |s|
    ensures forall x :: x in r ==> x in s && keep(x)
  {
    if s == [] then [] else (if keep(s[0]) then [s[0]] else []) + Filter(s[1..], keep)
  }

  /** `[f(x) for x in s]` */
  function Map<T, U>(s: seq<T>, f: T -> U): (r: seq<U>)
    ensures |r| == |s|
    ensures forall i :: 0 <= i < |s| ==> r[i] == f(s[i])
  {
    if s == [] then [] else [f(s[0])] + Map(s[1..], f)
  }

  lemma {:induction false} FilterAppend<T>(a: seq<T>, b: seq<T>, keep: T -> bool)
    ensures Filter(a + b, keep) == Filter(a, keep) + Filter(b, keep)
  {
    if a == [] {
      assert a + b == b;
    } else {
      assert (a + b)[1..] == a[1..] + b;
      FilterAppend(a[1..], b, keep);
    }
  }

  lemma {:induction false} MapAppend<T, U>(a: seq<T>, b: seq<T>, f: T -> U)
    ensures Map(a + b, f) == Map(a, f) + Map(b, f)
  {
    if a == [] {
      assert a + b == b;
    } else {
      assert (a + b)[1..] == a[1..] + b;
      MapAppend(a[1..], b, f);
    }
  }

  /** Every element the predicate keeps survives the filter: together with Filter's own
      ensures, `x in Filter(s, keep) <==> x in s && keep(x)`. */
  lemma {:induction false} FilterKeeps<T>(s: seq<T>, keep: T -> bool, x: T)
    requires x in s && keep(x)
    ensures x in Filter(s, keep)
  {
    if s[0] != x {
      FilterKeeps(s[1..], keep, x);
    }
  }

  /** Every position moved one place to the right. */
  function Shift(p: seq<nat>): (r: seq<nat>)
    ensures |r| == |p| && forall k :: 0 <= k < |p| ==> r[k] == p[k] + 1
  {
    seq(|p|, k requires 0 <= k < |p| => p[k] + 1)
  }

  predicate Increasing(p: seq<nat>) {
    forall k, l :: 0 <= k < l < |p| ==> p[k] < p[l]
  }

  /** The positions of `s` whose elements `keep` accepts, in increasing order. */
  function Positions<T>(s: seq<T>, keep: T -> bool): seq<nat> {
    if s == [] then [] else (if keep(s[0]) then [0] else []) + Shift(Positions(s[1..], keep))
  }

  lemma {:induction false} PositionsPick<T>(s: seq<T>, keep: T -> bool)
    ensures var p := Positions(s, keep);
      |p| == |Filter(s, keep)| && forall k :: 0 <= k < |p| ==> p[k] < |s| && Filter(s, keep)[k] == s[p[k]]
  {
    if s != [] {
      PositionsPick(s[1..], keep);
      var p, f := Positions(s, keep), Filter(s, keep);
      var q, g := Positions(s[1..], keep), Filter(s[1..], keep);
      var h := if keep(s[0]) then 1 else 0;
      assert p == (if keep(s[0]) then [0] else []) + Shift(q);
      assert f == (if keep(s[0]) then [s[0]] else []) + g;
      forall k | h <= k < |p| ensures p[k] < |s| && f[k] == s[p[k]] {
        assert p[k] == q[k - h] + 1 && f[k] == g[k - h];
        assert s[1..][q[k - h]] == s[q[k - h] + 1];
      }
    }
  }

  lemma {:induction false} PositionsIncreasing<T>(s: seq<T>, keep: T -> bool)
    ensures Increasing(Positions(s, keep))
  {
    if s != [] {
      PositionsIncreasing(s[1..], keep);
      var p, q := Positions(s, keep), Positions(s[1..], keep);
      var h := if keep(s[0]) then 1 else 0;
      assert p == (if keep(s[0]) then [0] else []) + Shift(q);
      forall k, l | 0 <= k < l < |p| ensures p[k] < p[l] {
        assert p[l] == q[l - h] + 1;
        if k >= h {
          assert p[k] == q[k - h] + 1;
          assert 0 <= k - h < l - h < |q|;
          assert q[k - h] < q[l - h];
        } else {
          assert p[k] == 0;
        }
      }
    }
  }

  lemma {:induction false} PositionsComplete<T>(s: seq<T>, keep: T -> bool)
    ensures forall i :: 0 <= i < |s| && keep(s[i]) ==> i in Positions(s, keep)
  {
    if s != [] {
      PositionsComplete(s[1..], keep);
      var p, q := Positions(s, keep), Positions(s[1..], keep);
      var h := if keep(s[0]) then 1 else 0;
      assert p == (if keep(s[0]) then [0] else []) + Shift(q);
      forall i | 0 <= i < |s| && keep(s[i]) ensures i in p {
        if i > 0 {
          assert s[1..][i - 1] == s[i];
          var k :| 0 <= k < |q| && q[k] == i - 1;
          assert p[k + h] == i;
        }
      }
    }
  }

  /** A filter keeps its elements in input order: it picks the positions `idx`, increasing,
      and misses no position whose element it keeps. */
  lemma FilterSubsequence<T>(s: seq<T>, keep: T -> bool) returns (idx: seq<nat>)
    ensures |idx| == |Filter(s, keep)|
    ensures forall k :: 0 <= k < |idx| ==> idx[k] < |s| && Filter(s, keep)[k] == s[idx[k]]
    ensures forall k, l :: 0 <= k < l < |idx| ==> idx[k] < idx[l]
    ensures forall i :: 0 <= i < |s| && keep(s[i]) ==> i in idx
  {
    idx := Positions(s, keep);
    PositionsPick(s, keep);
    PositionsIncreasing(s, keep);
    PositionsComplete(s, keep);
  }

  /** Counting what a filter keeps is counting, in the multiset of `f`-images, the one value
      `v` that `keep` stands for. */
  lemma {:induction false} FilterCount<T, U>(s: seq<T>, keep: T -> bool, f: T -> U, v: U)
    requires forall x :: keep(x) <==> f(x) == v
    ensures |Filter(s, keep)| == multiset(Map(s, f))[v]
  {
    if s != [] {
      assert Map(s, f) == [f(s[0])] + Map(s[1..], f);
      FilterCount(s[1..], keep, f, v);
    }
  }

  /** A filter selects a sub-multiset. */
  lemma {:induction false} FilterSubMultiset<T>(s: seq<T>, keep: T -> bool)
    ensures multiset(Filter(s, keep)) <= multiset(s)
  {
    if s != [] {
      assert s == [s[0]] + s[1..];
      FilterSubMultiset(s[1..], keep);
    }
  }

  /** Three predicates that split every value three ways split every sequence three ways:
      each element lands in exactly one of the three filters. */
  lemma {:induction false} FilterPartition3<T>(s: seq<T>, p: T -> bool, q: T -> bool, r: T -> bool)
    requires forall x :: (p(x) && !q(x) && !r(x)) || (!p(x) && q(x) && !r(x)) || (!p(x) && !q(x) && r(x))
    ensures multiset(Filter(s, p)) + multiset(Filter(s, q)) + multiset(Filter(s, r)) == multiset(s)
  {
    if s != [] {
      assert s == [s[0]] + s[1..];
      FilterPartition3(s[1..], p, q, r);
    }
  }

  /** The first element that satisfies `p` (a `SELECT ... WHERE` followed by `fetchone()`). */
  function Find<T>(s: seq<T>, p: T -> bool): (r: Option<T>)
    ensures r.Some? ==> r.value in s && p(r.value)
    ensures r.None? <==> forall x :: x in s ==> !p(x)
  {
    if s == [] then None else if p(s[0]) then Some(s[0]) else Find(s[1..], p)
  }

  lemma {:induction false} FindAppend<T>(a: seq<T>, b: seq<T>, p: T -> bool)
    ensures Find(a + b, p) == if Find(a, p).Some? then Find(a, p) else Find(b, p)
  {
    if a != [] {
      assert (a + b)[0] == a[0] && (a + b)[1..] == a[1..] + b;
      FindAppend(a[1..], b, p);
    } else {
      assert a + b == b;
    }
  }

  /** Elements with no repetition. */
  ghost predicate Distinct<T>(s: seq<T>) {
    forall i, j :: 0 <= i < j < |s| ==> s[i] != s[j]
  }

  lemma {:induction false} DistinctCount<T>(s: seq<T>, x: T)
    requires Distinct(s)
    ensures multiset(s)[x] <= 1
  {
    if s != [] {
      assert s == [s[0]] + s[1..];
      DistinctCount(s[1..], x);
      if s[0] == x {
        assert x !in s[1..] by {
          forall k | 0 <= k < |s[1..]| ensures s[1..][k] != x {
            assert s[1..][k] == s[k + 1];
          }
        }
      }
    }
  }

  /** A value that occurs at most once occurs at no two positions. */
  lemma NoRepeat<T>(s: seq<T>, i: nat, j: nat)
    requires i < j < |s| && multiset(s)[s[i]] <= 1
    ensures s[i] != s[j]
  {
    assert s == s[..j] + [s[j]] + s[j + 1..];
    assert s[i] in s[..j];
    assert multiset(s)[s[i]] >= multiset(s[..j])[s[i]] + multiset{s[j]}[s[i]];
  }

  /** Rearranging a sequence without repetition gives one without repetition. */
  lemma DistinctPermutation<T>(a: seq<T>, b: seq<T>)
    requires multiset(a) == multiset(b) && Distinct(a)
    ensures Distinct(b)
  {
    forall i, j | 0 <= i < j < |b| ensures b[i] != b[j] {
      DistinctCount(a, b[i]);
      NoRepeat(b, i, j);
    }
  }

  lemma DistinctFilter<T>(s: seq<T>, keep: T -> bool)
    requires Distinct(s)
    ensures Distinct(Filter(s, keep))
  {
    var f := Filter(s, keep);
    FilterSubMultiset(s, keep);
    forall i, j | 0 <= i < j < |f| ensures f[i] != f[j] {
      DistinctCount(s, f[i]);
      NoRepeat(f, i, j);
    }
  }

  /** Ordered by `key`, largest first (SQL's `ORDER BY key DESC`). */
  predicate SortedDesc<T>(s: seq<T>, key: T -> int) {
    forall i, j :: 0 <= i < j < |s| ==> key(s[i]) >= key(s[j])
  }

  function InsertDesc<T>(x: T, s: seq<T>, key: T -> int): (r: seq<T>)
    requires SortedDesc(s, key)
    ensures multiset(r) == multiset(s) + multiset{x}
    ensures SortedDesc(r, key)
  {
    if s == [] then [x]
    else if key(x) >= key(s[0]) then [x] + s
    else
      var rest := InsertDesc(x, s[1..], key);
      InsertDescBelow(s[0], x, s[1..], rest, key);
      assert s == [s[0]] + s[1..];
      [s[0]] + rest
  }

  lemma InsertDescBelow<T>(head: T, x: T, tail: seq<T>, rest: seq<T>, key: T -> int)
    requires SortedDesc([head] + tail, key) && key(head) > key(x)
    requires multiset(rest) == multiset(tail) + multiset{x} && SortedDesc(rest, key)
    ensures SortedDesc([head] + rest, key)
  {
    forall k | 0 <= k < |rest| ensures key(head) >= key(rest[k]) {
      assert rest[k] in multiset(rest);
      if rest[k] != x {
        assert rest[k] in multiset(tail);
        assert rest[k] in tail;
        var m :| 0 <= m < |tail| && tail[m] == rest[k];
        assert ([head] + tail)[0] == head && ([head] + tail)[m + 1] == tail[m];
        assert key(head) >= key(tail[m]);
      }
    }
    var r := [head] + rest;
    forall i, j | 0 <= i < j < |r| ensures key(r[i]) >= key(r[j]) {
      if i > 0 {
        assert r[i] == rest[i - 1] && r[j] == rest[j - 1];
      } else {
        assert r[j] == rest[j - 1];
      }
    }
  }

  /** `ORDER BY key DESC`: a permutation of the input, largest key first. SQL leaves the order
      of equal keys open; this one is a particular choice. */
  function SortDesc<T>(s: seq<T>, key: T -> int): (r: seq<T>)
    ensures multiset(r) == multiset(s)
    ensures SortedDesc(r, key)
  {
    if s == [] then []
    else
      assert s == [s[0]] + s[1..];
      InsertDesc(s[0], SortDesc(s[1..], key), key)
  }
}
