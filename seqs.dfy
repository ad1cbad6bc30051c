/** Sequence helpers shared by the catalog and the simulation store: the
    shapes of JavaScript's `Array.prototype.findIndex` and `filter`, each
    stated once with its specification. */
module Seqs {

  datatype Option<+T> = None | Some(value: T)

  /** The value held, or `default` when there is none (`o ?? default`). */
  function Pick<T>(o: Option<T>, default: T): T
  {
    match o
    case Some(v) => v
    case None => default
  }

  /** `s` is obtained from `xs` by deleting elements, without reordering. */
  ghost predicate IsSubsequence<T>(s: seq<T>, xs: seq<T>)
    decreases |xs|
  {
    if |s| == 0 then true
    else if |xs| == 0 then false
    else (s[0] == xs[0] && IsSubsequence(s[1..], xs[1..])) || IsSubsequence(s, xs[1..])
  }

  /** No element occurs twice. */
  ghost predicate Distinct<T>(xs: seq<T>)
  {
    forall i, j :: 0 <= i < j < |xs| ==> xs[i] != xs[j]
  }

  /** The index of the first element satisfying `p`, or None (`findIndex` / `find`). */
  function FirstIndex<T>(xs: seq<T>, p: T -> bool): (r: Option<nat>)
    ensures r.None? <==> forall k :: 0 <= k < |xs| ==> !p(xs[k])
    ensures r.Some? ==> r.value < |xs| && p(xs[r.value])
    ensures r.Some? ==> forall k :: 0 <= k < r.value ==> !p(xs[k])
    decreases |xs|
  {
    if |xs| == 0 then None
    else if p(xs[0]) then Some(0)
    else match FirstIndex(xs[1..], p)
      case None => None
      case Some(k) => Some(k + 1)
  }

  /** The elements satisfying `p`, in their original order (`filter`). */
  function Filter<T>(xs: seq<T>, p: T -> bool): (r: seq<T>)
    ensures |r| <= |xs|
    ensures forall k :: 0 <= k < |r| ==> p(r[k]) && r[k] in xs
    ensures forall k :: 0 <= k < |xs| && p(xs[k]) ==> xs[k] in r
    ensures IsSubsequence(r, xs)
    decreases |xs|
  {
    if |xs| == 0 then []
    else if p(xs[0]) then [xs[0]] + Filter(xs[1..], p)
    else Filter(xs[1..], p)
  }

  /** `filter` keeps every copy of a kept element and none of the others. */
  lemma {:induction false} FilterCounts<T>(xs: seq<T>, p: T -> bool)
    ensures forall x :: multiset(Filter(xs, p))[x] == if p(x) then multiset(xs)[x] else 0
    decreases |xs|
  {
    if |xs| > 0 {
      FilterCounts(xs[1..], p);
      assert xs == [xs[0]] + xs[1..];
      if p(xs[0]) {
        assert Filter(xs, p) == [xs[0]] + Filter(xs[1..], p);
      } else {
        assert Filter(xs, p) == Filter(xs[1..], p);
      }
    }
  }

  lemma {:induction false} SubsequenceMembers<T>(s: seq<T>, xs: seq<T>)
    requires IsSubsequence(s, xs)
    ensures forall k :: 0 <= k < |s| ==> s[k] in xs
    decreases |xs|
  {
    if |s| > 0 {
      assert |xs| > 0;
      if s[0] == xs[0] && IsSubsequence(s[1..], xs[1..]) {
        SubsequenceMembers(s[1..], xs[1..]);
        forall k | 0 <= k < |s| ensures s[k] in xs {
          if k > 0 {
            assert s[k] == s[1..][k - 1];
          }
        }
      } else {
        SubsequenceMembers(s, xs[1..]);
      }
    }
  }

  /** Deleting elements cannot introduce a duplicate. */
  lemma {:induction false} SubsequenceOfDistinct<T>(s: seq<T>, xs: seq<T>)
    requires IsSubsequence(s, xs) && Distinct(xs)
    ensures Distinct(s)
    decreases |xs|
  {
    if |s| > 0 {
      assert Distinct(xs[1..]) by {
        forall i, j | 0 <= i < j < |xs[1..]| ensures xs[1..][i] != xs[1..][j] {
          assert xs[1..][i] == xs[i + 1] && xs[1..][j] == xs[j + 1];
        }
      }
      if s[0] == xs[0] && IsSubsequence(s[1..], xs[1..]) {
        SubsequenceOfDistinct(s[1..], xs[1..]);
        SubsequenceMembers(s[1..], xs[1..]);
        assert xs[0] !in xs[1..] by {
          forall j | 0 <= j < |xs[1..]| ensures xs[1..][j] != xs[0] {
            assert xs[1..][j] == xs[j + 1];
          }
        }
        forall i, j | 0 <= i < j < |s| ensures s[i] != s[j] {
          if i == 0 {
            assert s[j] == s[1..][j - 1];
          } else {
            assert s[i] == s[1..][i - 1] && s[j] == s[1..][j - 1];
          }
        }
      } else {
        SubsequenceOfDistinct(s, xs[1..]);
      }
    }
  }

  /** Filtering twice with the same predicate is filtering once. */
  lemma {:induction false} FilterIdempotent<T>(xs: seq<T>, p: T -> bool)
    ensures Filter(Filter(xs, p), p) == Filter(xs, p)
    decreases |xs|
  {
    if |xs| > 0 {
      FilterIdempotent(xs[1..], p);
      if p(xs[0]) {
        var r := Filter(xs[1..], p);
        assert ([xs[0]] + r)[1..] == r;
      }
    }
  }

  /** A predicate that keeps every element keeps the whole sequence. */
  lemma {:induction false} FilterKeepsAll<T>(xs: seq<T>, p: T -> bool)
    requires forall k :: 0 <= k < |xs| ==> p(xs[k])
    ensures Filter(xs, p) == xs
    decreases |xs|
  {
    if |xs| > 0 {
      FilterKeepsAll(xs[1..], p);
      assert [xs[0]] + xs[1..] == xs;
    }
  }

  /** Filtering a concatenation filters each part. */
  lemma {:induction false} FilterConcat<T>(xs: seq<T>, ys: seq<T>, p: T -> bool)
    ensures Filter(xs + ys, p) == Filter(xs, p) + Filter(ys, p)
    decreases |xs|
  {
    if |xs| > 0 {
      assert (xs + ys)[0] == xs[0];
      assert (xs + ys)[1..] == xs[1..] + ys;
      FilterConcat(xs[1..], ys, p);
    } else {
      assert xs + ys == ys;
    }
  }

  /** A predicate that keeps no element gives the empty sequence. */
  lemma FilterKeepsNone<T>(xs: seq<T>, p: T -> bool)
    requires forall k :: 0 <= k < |xs| ==> !p(xs[k])
    ensures Filter(xs, p) == []
  {
  }

  /** `xs` mapped through the partial function `f`, undefined results dropped,
      order kept. */
  function FilterMap<A, B>(xs: seq<A>, f: A -> Option<B>): (r: seq<B>)
    ensures |r| <= |xs|
    decreases |xs|
  {
    if |xs| == 0 then []
    else (match f(xs[0]) case Some(y) => [y] case None => []) + FilterMap(xs[1..], f)
  }

  /** Mapping consecutive runs maps each run, in order. */
  lemma {:induction false} FilterMapConcat<A, B>(xs: seq<A>, ys: seq<A>, f: A -> Option<B>)
    ensures FilterMap(xs + ys, f) == FilterMap(xs, f) + FilterMap(ys, f)
    decreases |xs|
  {
    if |xs| == 0 {
      assert xs + ys == ys;
    } else {
      var head := match f(xs[0]) case Some(y) => [y] case None => [];
      assert (xs + ys)[0] == xs[0];
      assert (xs + ys)[1..] == xs[1..] + ys;
      FilterMapConcat(xs[1..], ys, f);
      assert head + (FilterMap(xs[1..], f) + FilterMap(ys, f)) == (head + FilterMap(xs[1..], f)) + FilterMap(ys, f);
    }
  }

  /** Every result is the defined value of `f` on some element. */
  lemma {:induction false} FilterMapSources<A, B>(xs: seq<A>, f: A -> Option<B>)
    ensures forall k :: 0 <= k < |FilterMap(xs, f)| ==> exists i :: 0 <= i < |xs| && f(xs[i]) == Some(FilterMap(xs, f)[k])
    decreases |xs|
  {
    if |xs| > 0 {
      var r := FilterMap(xs, f);
      var tail := FilterMap(xs[1..], f);
      FilterMapSources(xs[1..], f);
      forall k | 0 <= k < |r| ensures exists i :: 0 <= i < |xs| && f(xs[i]) == Some(r[k]) {
        match f(xs[0])
        case Some(y) =>
          assert r == [y] + tail;
          if k == 0 {
            assert f(xs[0]) == Some(r[k]);
          } else {
            assert r[k] == tail[k - 1];
            var i :| 0 <= i < |xs[1..]| && f(xs[1..][i]) == Some(tail[k - 1]);
            assert f(xs[i + 1]) == Some(r[k]);
          }
        case None =>
          assert r == tail;
          var i :| 0 <= i < |xs[1..]| && f(xs[1..][i]) == Some(tail[k]);
          assert f(xs[i + 1]) == Some(r[k]);
      }
    } else {
      assert FilterMap(xs, f) == [];
    }
  }

  /** An element of a sequence without duplicates occurs in it at most once. */
  lemma {:induction false} DistinctCountAtMostOne<T>(s: seq<T>, x: T)
    requires Distinct(s)
    ensures multiset(s)[x] <= 1
    decreases |s|
  {
    if |s| > 0 {
      assert s == [s[0]] + s[1..];
      assert Distinct(s[1..]) by {
        forall i, j | 0 <= i < j < |s[1..]| ensures s[1..][i] != s[1..][j] {
          assert s[1..][i] == s[i + 1] && s[1..][j] == s[j + 1];
        }
      }
      DistinctCountAtMostOne(s[1..], x);
      if x == s[0] {
        assert x !in s[1..] by {
          forall j | 0 <= j < |s[1..]| ensures s[1..][j] != x {
            assert s[1..][j] == s[j + 1];
          }
        }
      }
    }
  }

  /** An element at two positions occurs at least twice. */
  lemma {:induction false} RepeatedCountsTwice<T>(s: seq<T>, i: nat, j: nat)
    requires i < j < |s| && s[i] == s[j]
    ensures multiset(s)[s[i]] >= 2
  {
    assert s == s[..i] + [s[i]] + s[i + 1..j] + [s[j]] + s[j + 1..];
  }

  /** A rearrangement of a sequence without duplicates has none either. */
  lemma PermutationOfDistinct<T>(s: seq<T>, t: seq<T>)
    requires multiset(s) == multiset(t) && Distinct(t)
    ensures Distinct(s)
  {
    forall i, j | 0 <= i < j < |s| ensures s[i] != s[j] {
      if s[i] == s[j] {
        RepeatedCountsTwice(s, i, j);
        DistinctCountAtMostOne(t, s[i]);
      }
    }
  }

  /** A rearrangement of a sequence whose elements have pairwise different
      keys has pairwise different keys too. */
  lemma PermutationKeysDistinct<T, K>(s: seq<T>, t: seq<T>, key: T -> K)
    requires multiset(s) == multiset(t)
    requires forall p, q :: 0 <= p < |t| && 0 <= q < |t| && p != q ==> key(t[p]) != key(t[q])
    ensures forall i, j :: 0 <= i < j < |s| ==> key(s[i]) != key(s[j])
  {
    PermutationOfDistinct(s, t);
    forall i, j | 0 <= i < j < |s| ensures key(s[i]) != key(s[j]) {
      assert s[i] in multiset(t) && s[j] in multiset(t);
      var p :| 0 <= p < |t| && t[p] == s[i];
      var q :| 0 <= q < |t| && t[q] == s[j];
    }
  }
}
