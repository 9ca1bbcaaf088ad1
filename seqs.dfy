/**
 * The array operations of JavaScript that the core is built from, on
 * sequences: `filter`, `map`, `slice` and the stable `sort` with a comparator.
 */
module Seqs {

  /** `s.filter(p)`. */
  function Filter<T>(s: seq<T>, p: T -> bool): (r: seq<T>)
    ensures |r| <= |s|
    ensures forall i :: 0 <= i < |r| ==> r[i] in s && p(r[i])
    ensures forall i :: 0 <= i < |s| && p(s[i]) ==> s[i] in r
  {
    if s == [] then []
    else (if p(s[0]) then [s[0]] else []) + Filter(s[1..], p)
  }

  /** `a` is `b` with some elements left out, the rest in their order. */
  ghost predicate IsSubsequence<T>(a: seq<T>, b: seq<T>)
    decreases |b|
  {
    a == [] || (b != [] && ((a[0] == b[0] && IsSubsequence(a[1..], b[1..])) || IsSubsequence(a, b[1..])))
  }

  lemma {:induction false} FilterIsSubsequence<T>(s: seq<T>, p: T -> bool)
    ensures IsSubsequence(Filter(s, p), s)
  {
    if s != [] {
      FilterIsSubsequence(s[1..], p);
      if p(s[0]) {
        assert Filter(s, p) == [s[0]] + Filter(s[1..], p);
        assert Filter(s, p)[0] == s[0] && Filter(s, p)[1..] == Filter(s[1..], p);
      } else {
        assert Filter(s, p) == Filter(s[1..], p);
      }
    }
  }

  lemma {:induction false} FilterConcat<T>(a: seq<T>, b: seq<T>, p: T -> bool)
    ensures Filter(a + b, p) == Filter(a, p) + Filter(b, p)
  {
    if a != [] {
      assert (a + b)[1..] == a[1..] + b;
      FilterConcat(a[1..], b, p);
    } else {
      assert a + b == b;
    }
  }

  /** Filtering by two predicates in turn is filtering by their conjunction. */
  lemma {:induction false} FilterFilter<T>(s: seq<T>, p: T -> bool, q: T -> bool)
    ensures Filter(Filter(s, p), q) == Filter(s, x => p(x) && q(x))
  {
    if s != [] {
      FilterFilter(s[1..], p, q);
      FilterConcat(if p(s[0]) then [s[0]] else [], Filter(s[1..], p), q);
    }
  }

  /** Only the values of the predicate on the elements matter. */
  lemma {:induction false} FilterExtensional<T>(s: seq<T>, p: T -> bool, q: T -> bool)
    requires forall x :: x in s ==> p(x) == q(x)
    ensures Filter(s, p) == Filter(s, q)
  {
    if s != [] {
      FilterExtensional(s[1..], p, q);
    }
  }

  /**
   * One more optional filter stage: applying `q` only when `c` holds, after
   * `p`, is filtering by any `r` that is `p` and, when `c` holds, `q`.
   */
  lemma FilterStage<T>(s: seq<T>, p: T -> bool, c: bool, q: T -> bool, r: T -> bool)
    requires forall x :: x in s ==> r(x) == (p(x) && (c ==> q(x)))
    ensures (if c then Filter(Filter(s, p), q) else Filter(s, p)) == Filter(s, r)
  {
    if c {
      FilterFilter(s, p, q);
      FilterExtensional(s, x => p(x) && q(x), r);
    } else {
      FilterExtensional(s, p, r);
    }
  }

  /** A filter that no element passes keeps nothing. */
  lemma {:induction false} FilterNone<T>(s: seq<T>, p: T -> bool)
    requires forall x :: x in s ==> !p(x)
    ensures Filter(s, p) == []
  {
    if s != [] {
      FilterNone(s[1..], p);
    }
  }

  /** The order in which two filters are applied does not matter. */
  lemma FilterCommutes<T>(s: seq<T>, p: T -> bool, q: T -> bool)
    ensures Filter(Filter(s, p), q) == Filter(Filter(s, q), p)
  {
    FilterFilter(s, p, q);
    FilterFilter(s, q, p);
    FilterExtensional(s, x => p(x) && q(x), x => q(x) && p(x));
  }

  /** A filter that every element passes keeps the whole sequence. */
  lemma {:induction false} FilterAll<T>(s: seq<T>, p: T -> bool)
    requires forall x :: x in s ==> p(x)
    ensures Filter(s, p) == s
  {
    if s != [] {
      FilterAll(s[1..], p);
    }
  }

  /** Filtering twice by the same predicate removes nothing more. */
  lemma FilterIdempotent<T>(s: seq<T>, p: T -> bool)
    ensures Filter(Filter(s, p), p) == Filter(s, p)
  {
    FilterAll(Filter(s, p), p);
  }

  /** Filtering a subsequence keeps no more than filtering the whole. */
  lemma {:induction false} FilterOfSubsequence<T>(a: seq<T>, b: seq<T>, p: T -> bool)
    requires IsSubsequence(a, b)
    ensures |Filter(a, p)| <= |Filter(b, p)|
    decreases |b|
  {
    if a != [] {
      if a[0] == b[0] && IsSubsequence(a[1..], b[1..]) {
        FilterOfSubsequence(a[1..], b[1..], p);
      } else {
        FilterOfSubsequence(a, b[1..], p);
      }
    }
  }

  lemma FilterMembership<T>(s: seq<T>, p: T -> bool, x: T)
    ensures x in Filter(s, p) <==> x in s && p(x)
  {
    if x in s && p(x) {
      var i :| 0 <= i < |s| && s[i] == x;
    }
  }

  /** How often a filter keeps `x`: as often as `s` holds it when `x` passes, never otherwise. */
  lemma {:induction false} FilterCount<T>(s: seq<T>, p: T -> bool, x: T)
    ensures multiset(Filter(s, p))[x] == if p(x) then multiset(s)[x] else 0
  {
    if s != [] {
      FilterCount(s[1..], p, x);
      assert s == [s[0]] + s[1..];
    }
  }

  /** Filtering two orderings of the same elements keeps the same elements. */
  lemma FilterSameMultiset<T>(a: seq<T>, b: seq<T>, p: T -> bool)
    requires multiset(a) == multiset(b)
    ensures multiset(Filter(a, p)) == multiset(Filter(b, p))
  {
    forall x ensures multiset(Filter(a, p))[x] == multiset(Filter(b, p))[x] {
      FilterCount(a, p, x);
      FilterCount(b, p, x);
    }
  }

  /** Two filters that no element passes both keep no more elements together than there are. */
  lemma {:induction false} FilterDisjointCount<T>(s: seq<T>, p: T -> bool, q: T -> bool)
    requires forall x :: x in s ==> !(p(x) && q(x))
    ensures |Filter(s, p)| + |Filter(s, q)| <= |s|
  {
    if s != [] {
      FilterDisjointCount(s[1..], p, q);
    }
  }

  /** No element occurs twice. */
  ghost predicate Distinct<T>(s: seq<T>)
  {
    forall i, j :: 0 <= i < j < |s| ==> s[i] != s[j]
  }

  lemma {:induction false} FilterDistinct<T>(s: seq<T>, p: T -> bool)
    requires Distinct(s)
    ensures Distinct(Filter(s, p))
  {
    if s != [] {
      FilterDistinct(s[1..], p);
      FilterMembership(s[1..], p, s[0]);
    }
  }

  /** A sequence without repetitions has as many elements as its set has members. */
  lemma {:induction false} DistinctCardinality<T>(s: seq<T>)
    requires Distinct(s)
    ensures |set x | x in s| == |s|
  {
    if s != [] {
      DistinctCardinality(s[1..]);
      assert (set x | x in s) == {s[0]} + (set x | x in s[1..]);
    }
  }

  /** `s.map(f)`. */
  function Map<T, U>(s: seq<T>, f: T -> U): (r: seq<U>)
    ensures |r| == |s|
    ensures forall i :: 0 <= i < |s| ==> r[i] == f(s[i])
  {
    if s == [] then [] else [f(s[0])] + Map(s[1..], f)
  }

  function Min(a: int, b: int): int { if a <= b then a else b }

  function Max(a: int, b: int): int { if a >= b then a else b }

  /** Where `slice` starts or stops for an index argument `i` on a sequence of length `len`. */
  function SliceBound(i: int, len: nat): (b: nat)
    ensures b <= len
  {
    if i < 0 then Max(len + i, 0) else Min(i, len)
  }

  /** `s.slice(start, end)`, negative indices counting from the end. */
  function Slice<T>(s: seq<T>, start: int, end: int): (r: seq<T>)
    ensures |r| <= |s|
    ensures 0 <= start <= end <= |s| ==> r == s[start..end]
    ensures 0 <= start && end - start >= 0 ==> |r| <= end - start
  {
    var from, to := SliceBound(start, |s|), SliceBound(end, |s|);
    if from < to then s[from..to] else []
  }

  /** `s.slice(0, n)`: the first `n` elements, or all of them if there are fewer. */
  function Take<T>(s: seq<T>, n: nat): (r: seq<T>)
    ensures |r| == Min(n, |s|)
    ensures r == s[..|r|]
  {
    Slice(s, 0, n)
  }

  /**
   * A comparator that `sort` can rely on: `lt(a, b)` means `a` goes before
   * `b`; it is asymmetric, and "neither goes first" is transitive.
   */
  ghost predicate StrictWeakOrder<T(!new)>(lt: (T, T) -> bool)
  {
    && (forall a, b :: lt(a, b) ==> !lt(b, a))
    && (forall a, b, c :: !lt(a, b) && !lt(b, c) ==> !lt(a, c))
  }

  /** No element goes strictly before an element to its left. */
  ghost predicate Sorted<T>(s: seq<T>, lt: (T, T) -> bool)
  {
    forall i, j :: 0 <= i < j < |s| ==> !lt(s[j], s[i])
  }

  /** Neither of `a` and `b` goes before the other. */
  predicate Tied<T>(lt: (T, T) -> bool, a: T, b: T)
  {
    !lt(a, b) && !lt(b, a)
  }

  /** Puts `x` in front of the first element of `s` that does not go before it. */
  function Insert<T>(x: T, s: seq<T>, lt: (T, T) -> bool): (r: seq<T>)
    ensures multiset(r) == multiset(s) + multiset{x}
    ensures |r| == |s| + 1
  {
    if s == [] || !lt(s[0], x) then [x] + s
    else
      assert s == [s[0]] + s[1..];
      [s[0]] + Insert(x, s[1..], lt)
  }

  lemma {:induction false} InsertSorted<T(!new)>(x: T, s: seq<T>, lt: (T, T) -> bool)
    requires StrictWeakOrder(lt) && Sorted(s, lt)
    ensures Sorted(Insert(x, s, lt), lt)
  {
    if s == [] || !lt(s[0], x) {
      var r := [x] + s;
      forall i, j | 0 <= i < j < |r| ensures !lt(r[j], r[i]) {
        if i == 0 && j > 1 {
          assert !lt(s[j - 1], s[0]);
        }
      }
    } else {
      InsertSorted(x, s[1..], lt);
      var t := Insert(x, s[1..], lt);
      var r := [s[0]] + t;
      forall i, j | 0 <= i < j < |r| ensures !lt(r[j], r[i]) {
        if i == 0 {
          assert r[j] in multiset(t);
          assert r[j] in multiset(s[1..]) + multiset{x};
          if r[j] in multiset(s[1..]) {
            var k :| 0 <= k < |s[1..]| && s[1..][k] == r[j];
            assert !lt(s[k + 1], s[0]);
          }
        }
      }
    }
  }

  /**
   * `Insert` passes over exactly the elements that go strictly before `x`, so
   * among the elements tied with some `e` it adds `x` in front, and nowhere
   * if `x` is not tied with `e`.
   */
  lemma FilterCons<T>(a: T, t: seq<T>, p: T -> bool)
    ensures Filter([a] + t, p) == (if p(a) then [a] else []) + Filter(t, p)
  {
    assert ([a] + t)[1..] == t;
  }

  lemma {:induction false} InsertKeepsTies<T(!new)>(x: T, s: seq<T>, lt: (T, T) -> bool, e: T)
    requires StrictWeakOrder(lt)
    ensures Filter(Insert(x, s, lt), y => Tied(lt, y, e))
         == (if Tied(lt, x, e) then [x] else []) + Filter(s, y => Tied(lt, y, e))
  {
    if s == [] || !lt(s[0], x) {
      FilterCons(x, s, y => Tied(lt, y, e));
    } else {
      var h, t := s[0], Insert(x, s[1..], lt);
      assert Insert(x, s, lt) == [h] + t;
      assert s == [h] + s[1..];
      InsertKeepsTies(x, s[1..], lt, e);
      FilterCons(h, t, y => Tied(lt, y, e));
      FilterCons(h, s[1..], y => Tied(lt, y, e));
      if Tied(lt, x, e) {
        assert !lt(h, e) && !lt(e, x) ==> !lt(h, x);
      }
    }
  }

  /** Insertion sort; it is stable, like JavaScript's `Array.prototype.sort`. */
  function SortBy<T(!new)>(s: seq<T>, lt: (T, T) -> bool): (r: seq<T>)
    requires StrictWeakOrder(lt)
    ensures multiset(r) == multiset(s)
    ensures Sorted(r, lt)
  {
    if s == [] then []
    else
      var rest := SortBy(s[1..], lt);
      InsertSorted(s[0], rest, lt);
      assert s == [s[0]] + s[1..];
      Insert(s[0], rest, lt)
  }

  /** Stability: elements tied with each other keep their relative order. */
  lemma {:induction false} SortByStable<T(!new)>(s: seq<T>, lt: (T, T) -> bool, e: T)
    requires StrictWeakOrder(lt)
    ensures Filter(SortBy(s, lt), y => Tied(lt, y, e)) == Filter(s, y => Tied(lt, y, e))
  {
    if s != [] {
      SortByStable(s[1..], lt, e);
      InsertKeepsTies(s[0], SortBy(s[1..], lt), lt, e);
    }
  }

  /** What a filter keeps of a sorted sequence is sorted. */
  lemma {:induction false} FilterSorted<T>(s: seq<T>, p: T -> bool, lt: (T, T) -> bool)
    requires Sorted(s, lt)
    ensures Sorted(Filter(s, p), lt)
  {
    if s != [] {
      FilterSorted(s[1..], p, lt);
      var rest := Filter(s[1..], p);
      if p(s[0]) {
        var r := [s[0]] + rest;
        forall i, j | 0 <= i < j < |r| ensures !lt(r[j], r[i]) {
          if i == 0 {
            var k :| 0 <= k < |s[1..]| && s[1..][k] == r[j];
            assert s[k + 1] == r[j];
          }
        }
      }
    }
  }

  /**
   * For a sequence in non-increasing order of `key`, the first `n` elements
   * hold the greatest keys: no element left out has a greater key than one kept.
   */
  lemma TakeKeepsGreatest<T>(s: seq<T>, key: T -> int, n: nat)
    requires forall i, j :: 0 <= i < j < |s| ==> key(s[i]) >= key(s[j])
    ensures var t := Take(s, n);
      && (forall i, j :: 0 <= i < j < |t| ==> key(t[i]) >= key(t[j]))
      && multiset(t) <= multiset(s)
      && forall x, i :: x in multiset(s) - multiset(t) && 0 <= i < |t| ==> key(x) <= key(t[i])
  {
    var t := Take(s, n);
    assert s == t + s[|t|..];
    assert multiset(s) - multiset(t) == multiset(s[|t|..]);
    forall x, i | x in multiset(s) - multiset(t) && 0 <= i < |t| ensures key(x) <= key(t[i]) {
      var k :| 0 <= k < |s[|t|..]| && s[|t|..][k] == x;
      assert s[|t| + k] == x && t[i] == s[i];
    }
  }
}
