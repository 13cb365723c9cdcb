/** Collection helpers shared by every widget: the optional value that stands
    for a nullable state field, and the list operations the widgets call on
    their records (filter, descending sort, sums). */
module Seqs {

  /** A value that may be absent, for the widgets' `T | null` state fields. */
  datatype Option<T> = None | Some(value: T)

  /** The elements of `s` that satisfy `p`, in their original order
      (Array.prototype.filter). */
  function Filter<T(!new)>(p: T -> bool, s: seq<T>): (r: seq<T>)
    ensures |r| <= |s|
    ensures forall x :: x in r <==> x in s && p(x)
  {
    if s == [] then []
    else
      var rest := Filter(p, s[1..]);
      assert s == [s[0]] + s[1..];
      if p(s[0]) then [s[0]] + rest else rest
  }

  /** Filtering keeps each element that satisfies `p` as often as it occurs,
      and no other. */
  lemma {:induction false} FilterCounts<T(!new)>(p: T -> bool, s: seq<T>)
    ensures forall x :: multiset(Filter(p, s))[x] == if p(x) then multiset(s)[x] else 0
  {
    if s != [] {
      FilterCounts(p, s[1..]);
      assert s == [s[0]] + s[1..];
    }
  }

  /** Filtering distributes over concatenation, so appending to a list only
      appends to each of its filtered views. */
  lemma {:induction false} FilterAppend<T(!new)>(p: T -> bool, a: seq<T>, b: seq<T>)
    ensures Filter(p, a + b) == Filter(p, a) + Filter(p, b)
  {
    if a == [] {
      assert a + b == b;
    } else {
      assert (a + b)[1..] == a[1..] + b;
      FilterAppend(p, a[1..], b);
    }
  }

  /** One unfolding of `Filter`. */
  lemma FilterCons<T(!new)>(p: T -> bool, x: T, s: seq<T>)
    ensures Filter(p, [x] + s) == (if p(x) then [x] else []) + Filter(p, s)
  {
    assert ([x] + s)[0] == x && ([x] + s)[1..] == s;
  }

  /** A filter of one element keeps it exactly when it satisfies `p`. */
  lemma FilterSingleton<T(!new)>(p: T -> bool, x: T)
    ensures Filter(p, [x]) == if p(x) then [x] else []
  {
    FilterCons(p, x, []);
    assert [x] + [] == [x];
  }

  /** When every element satisfies `p`, filtering keeps the whole list. */
  lemma {:induction false} FilterAll<T(!new)>(p: T -> bool, s: seq<T>)
    requires forall i :: 0 <= i < |s| ==> p(s[i])
    ensures Filter(p, s) == s
  {
    if s != [] {
      FilterAll(p, s[1..]);
      assert s == [s[0]] + s[1..];
    }
  }

  /** Filtering out one element that fails `p` among elements that pass it
      leaves the others, in order. */
  lemma FilterDropsOne<T(!new)>(p: T -> bool, before: seq<T>, x: T, after: seq<T>)
    requires forall i :: 0 <= i < |before| ==> p(before[i])
    requires forall i :: 0 <= i < |after| ==> p(after[i])
    requires !p(x)
    ensures Filter(p, before + [x] + after) == before + after
  {
    FilterAppend(p, before + [x], after);
    FilterAppend(p, before, [x]);
    FilterSingleton(p, x);
    FilterAll(p, before);
    FilterAll(p, after);
    assert before + [] == before;
  }

  /** The positions of the elements of `s` that satisfy `p`, in increasing
      order: each listed position holds such an element, and each such
      element's position is listed. */
  function Positions<T>(p: T -> bool, s: seq<T>): (idx: seq<nat>)
    ensures forall k :: 0 <= k < |idx| ==> idx[k] < |s| && p(s[idx[k]])
    ensures forall k, l :: 0 <= k < l < |idx| ==> idx[k] < idx[l]
    ensures forall i :: 0 <= i < |s| && p(s[i]) ==> i in idx
    decreases |s|
  {
    if s == [] then []
    else
      var n := |s| - 1;
      var front := Positions(p, s[..n]);
      assert forall i :: 0 <= i < n ==> s[..n][i] == s[i];
      front + (if p(s[n]) then [n] else [])
  }

  /** `r` lists exactly the elements of `s` that satisfy `p`, in their order
      in `s`: its k-th element is the one at the k-th such position. */
  ghost predicate Selects<T>(r: seq<T>, s: seq<T>, p: T -> bool) {
    var idx := Positions(p, s);
    |r| == |idx| && forall k :: 0 <= k < |r| ==> r[k] == s[idx[k]]
  }

  /** `Filter` selects, in order, exactly the elements that satisfy `p`. */
  lemma {:induction false} FilterSelects<T(!new)>(p: T -> bool, s: seq<T>)
    ensures Selects(Filter(p, s), s, p)
    decreases |s|
  {
    if s != [] {
      var n := |s| - 1;
      var front := s[..n];
      FilterSelects(p, front);
      assert s == front + [s[n]];
      FilterAppend(p, front, [s[n]]);
      FilterSingleton(p, s[n]);
      SelectsSnoc(Filter(p, front), front, p, s[n]);
    }
  }

  /** Appending one element to a list appends it to a selection exactly
      when it satisfies `p`. */
  lemma SelectsSnoc<T>(r: seq<T>, s: seq<T>, p: T -> bool, x: T)
    requires Selects(r, s, p)
    ensures Selects(r + (if p(x) then [x] else []), s + [x], p)
  {
    var t := s + [x];
    assert t[..|s|] == s;
    var idx := Positions(p, s);
    assert Positions(p, t) == idx + (if p(x) then [|s|] else []);
    assert forall k :: 0 <= k < |idx| ==> t[idx[k]] == s[idx[k]];
  }

  /** The positions of `s` whose elements satisfy `p`. */
  ghost function IndexSet<T>(p: T -> bool, s: seq<T>): set<nat> {
    set i: nat | i < |s| && p(s[i])
  }

  /** There are as many listed positions as positions satisfying `p`. */
  lemma {:induction false} PositionsCount<T>(p: T -> bool, s: seq<T>)
    ensures |Positions(p, s)| == |IndexSet(p, s)|
    decreases |s|
  {
    if s != [] {
      var n := |s| - 1;
      PositionsCount(p, s[..n]);
      var before := IndexSet(p, s[..n]);
      IndexSetSnoc(p, s);
      assert n !in before;
    }
  }

  lemma IndexSetSnoc<T>(p: T -> bool, s: seq<T>)
    requires s != []
    ensures IndexSet(p, s) == IndexSet(p, s[..|s| - 1]) + (if p(s[|s| - 1]) then {|s| - 1} else {})
  {
    var n := |s| - 1;
    var a, b := IndexSet(p, s), IndexSet(p, s[..n]) + (if p(s[n]) then {n} else {});
    forall i | i in a ensures i in b {
      if i < n { assert s[..n][i] == s[i]; }
    }
    forall i | i in b ensures i in a {
      if i < n { assert s[..n][i] == s[i]; }
    }
  }

  /** A filter keeps as many elements as there are positions satisfying `p`. */
  lemma FilterLength<T(!new)>(p: T -> bool, s: seq<T>)
    ensures |Filter(p, s)| == |IndexSet(p, s)|
  {
    FilterSelects(p, s);
    PositionsCount(p, s);
  }

  /** No two elements of `s` share a key. */
  ghost predicate DistinctKeys<T, K>(s: seq<T>, key: T -> K) {
    forall i, j :: 0 <= i < j < |s| ==> key(s[i]) != key(s[j])
  }

  /** Filtering never makes two surviving elements share a key. */
  lemma {:induction false} FilterKeepsDistinct<T(!new), K>(p: T -> bool, s: seq<T>, key: T -> K)
    requires DistinctKeys(s, key)
    ensures DistinctKeys(Filter(p, s), key)
  {
    if s != [] {
      var rest := Filter(p, s[1..]);
      assert DistinctKeys(s[1..], key) by {
        forall i, j | 0 <= i < j < |s[1..]| ensures key(s[1..][i]) != key(s[1..][j]) {
          assert s[1..][i] == s[i + 1] && s[1..][j] == s[j + 1];
        }
      }
      FilterKeepsDistinct(p, s[1..], key);
      if p(s[0]) {
        var r := [s[0]] + rest;
        forall i, j | 0 <= i < j < |r| ensures key(r[i]) != key(r[j]) {
          if i == 0 {
            assert r[j] in rest;
            var k :| 0 <= k < |s[1..]| && s[1..][k] == r[j];
            assert s[k + 1] == r[j];
          } else {
            assert r[i] == rest[i - 1] && r[j] == rest[j - 1];
          }
        }
      }
    }
  }

  /** `s` is ordered by `key` from the largest to the smallest. */
  ghost predicate NonIncreasing<T>(s: seq<T>, key: T -> int) {
    forall i, j :: 0 <= i < j < |s| ==> key(s[i]) >= key(s[j])
  }

  /** Inserts `x` into a list already in descending order, before the first
      element whose key is not larger than its own. */
  function InsertDesc<T>(x: T, s: seq<T>, key: T -> int): (r: seq<T>)
    requires NonIncreasing(s, key)
    ensures NonIncreasing(r, key)
    ensures multiset(r) == multiset(s) + multiset{x}
  {
    if s == [] || key(s[0]) <= key(x) then
      ConsNonIncreasing(x, s, key);
      [x] + s
    else
      TailNonIncreasing(s, key);
      var rest := InsertDesc(x, s[1..], key);
      assert s == [s[0]] + s[1..];
      HeadBoundsInsert(x, s, rest, key);
      ConsNonIncreasing(s[0], rest, key);
      [s[0]] + rest
  }

  lemma TailNonIncreasing<T>(s: seq<T>, key: T -> int)
    requires s != [] && NonIncreasing(s, key)
    ensures NonIncreasing(s[1..], key)
  {
    forall i, j | 0 <= i < j < |s[1..]| ensures key(s[1..][i]) >= key(s[1..][j]) {
      assert s[1..][i] == s[i + 1] && s[1..][j] == s[j + 1];
    }
  }

  /** A head with a key at least every key of a descending list, and at least
      its first one in particular, keeps the list descending. */
  lemma ConsNonIncreasing<T>(h: T, s: seq<T>, key: T -> int)
    requires NonIncreasing(s, key)
    requires s == [] || key(s[0]) <= key(h)
    ensures NonIncreasing([h] + s, key)
  {
    var r := [h] + s;
    forall i, j | 0 <= i < j < |r| ensures key(r[i]) >= key(r[j]) {
      if i == 0 {
        assert r[j] == s[j - 1];
        assert key(s[0]) >= key(s[j - 1]);
      } else {
        assert r[i] == s[i - 1] && r[j] == s[j - 1];
      }
    }
  }

  /** The head of a descending list, larger than `x`, stays ahead of `x`
      and of the rest of the list. */
  lemma HeadBoundsInsert<T>(x: T, s: seq<T>, rest: seq<T>, key: T -> int)
    requires s != [] && NonIncreasing(s, key) && key(x) < key(s[0])
    requires multiset(rest) == multiset(s[1..]) + multiset{x}
    ensures rest == [] || key(rest[0]) <= key(s[0])
  {
    if rest != [] && rest[0] != x {
      assert rest[0] in multiset(rest);
      assert rest[0] in multiset(s[1..]);
      var k :| 0 <= k < |s[1..]| && s[1..][k] == rest[0];
      assert s[k + 1] == rest[0];
    }
  }

  /** A sort of `s` into descending order of `key`, as
      `[...s].sort((a, b) => key(b) - key(a))` computes it: a permutation
      whose keys never increase. */
  function SortByKeyDesc<T>(s: seq<T>, key: T -> int): (r: seq<T>)
    ensures NonIncreasing(r, key)
    ensures multiset(r) == multiset(s)
    ensures |r| == |s|
  {
    if s == [] then []
    else
      assert s == [s[0]] + s[1..];
      InsertDesc(s[0], SortByKeyDesc(s[1..], key), key)
  }

  /** The elements whose key is `k`. */
  function KeyIs<T>(key: T -> int, k: int): T -> bool {
    (x: T) => key(x) == k
  }

  /** Inserting `x` puts it ahead of every element with the same key, so
      the elements of any one key keep the order of `[x] + s`. */
  lemma {:induction false} InsertDescStable<T(!new)>(x: T, s: seq<T>, key: T -> int, k: int)
    requires NonIncreasing(s, key)
    ensures Filter(KeyIs(key, k), InsertDesc(x, s, key)) == Filter(KeyIs(key, k), [x] + s)
  {
    if s != [] && key(s[0]) > key(x) {
      var p := KeyIs(key, k);
      TailNonIncreasing(s, key);
      var rest := InsertDesc(x, s[1..], key);
      InsertDescStable(x, s[1..], key, k);
      assert s == [s[0]] + s[1..];
      FilterCons(p, s[0], rest);
      FilterCons(p, x, s[1..]);
      FilterCons(p, x, s);
      FilterCons(p, s[0], s[1..]);
      assert !(p(x) && p(s[0]));
    }
  }

  /** The sort is stable: the elements of any one key come out in their input
      order. With the two ensures of `SortByKeyDesc` this fixes the result to
      the one a stable sort by descending key gives. */
  lemma {:induction false} SortByKeyDescStable<T(!new)>(s: seq<T>, key: T -> int, k: int)
    ensures Filter(KeyIs(key, k), SortByKeyDesc(s, key)) == Filter(KeyIs(key, k), s)
  {
    if s != [] {
      var p := KeyIs(key, k);
      SortByKeyDescStable(s[1..], key, k);
      InsertDescStable(s[0], SortByKeyDesc(s[1..], key), key, k);
      FilterCons(p, s[0], SortByKeyDesc(s[1..], key));
      FilterCons(p, s[0], s[1..]);
      assert s == [s[0]] + s[1..];
    }
  }

  /** The sum of `f` over the elements of `s` (a reduce with `+` and 0). */
  function SumBy<T>(s: seq<T>, f: T -> int): int {
    if s == [] then 0 else f(s[0]) + SumBy(s[1..], f)
  }

  /** A sum over a concatenation is the sum of the two sums. */
  lemma {:induction false} SumByAppend<T>(a: seq<T>, b: seq<T>, f: T -> int)
    ensures SumBy(a + b, f) == SumBy(a, f) + SumBy(b, f)
  {
    if a == [] {
      assert a + b == b;
    } else {
      assert (a + b)[1..] == a[1..] + b;
      SumByAppend(a[1..], b, f);
    }
  }

  /** A sum of non-negative terms is non-negative. */
  lemma {:induction false} SumByNonNegative<T>(s: seq<T>, f: T -> int)
    requires forall i :: 0 <= i < |s| ==> f(s[i]) >= 0
    ensures SumBy(s, f) >= 0
  {
    if s != [] {
      SumByNonNegative(s[1..], f);
    }
  }
}
