/**
 * Python's list.sort / sorted: a stable sort under a total preorder `le`,
 * written as insertion sort. Its three promises are proved below: the
 * result is sorted, it is a permutation of the input, and elements that
 * compare equal keep their input order.
 */
module Sorting {

  /** `le` is total, so every pair of elements is comparable. */
  ghost predicate Total<T(!new)>(le: (T, T) -> bool) {
    forall a, b :: le(a, b) || le(b, a)
  }

  ghost predicate Transitive<T(!new)>(le: (T, T) -> bool) {
    forall a, b, c :: le(a, b) && le(b, c) ==> le(a, c)
  }

  /** Adjacent elements are in order. */
  ghost predicate Sorted<T>(s: seq<T>, le: (T, T) -> bool) {
    forall i :: 0 < i < |s| ==> le(s[i - 1], s[i])
  }

  /** Every earlier element is at most every later one. */
  ghost predicate SortedPairwise<T>(s: seq<T>, le: (T, T) -> bool) {
    forall i, j :: 0 <= i < j < |s| ==> le(s[i], s[j])
  }

  /** `x` is placed after the last element of `t` that is at most `x`. */
  function Insert<T>(t: seq<T>, x: T, le: (T, T) -> bool): seq<T>
    decreases |t|
  {
    if t == [] || le(t[|t| - 1], x) then t + [x]
    else Insert(t[..|t| - 1], x, le) + [t[|t| - 1]]
  }

  /** Stable insertion sort: the elements are inserted in input order. */
  function SortBy<T>(s: seq<T>, le: (T, T) -> bool): seq<T>
    decreases |s|
  {
    if s == [] then [] else Insert(SortBy(s[..|s| - 1], le), s[|s| - 1], le)
  }

  /** Insert puts `x` somewhere into `t` without reordering `t`. */
  lemma {:induction false} InsertSplits<T>(t: seq<T>, x: T, le: (T, T) -> bool) returns (j: nat)
    ensures j <= |t| && Insert(t, x, le) == t[..j] + [x] + t[j..]
    ensures forall k :: j <= k < |t| ==> !le(t[k], x)
    ensures j > 0 ==> le(t[j - 1], x)
    decreases |t|
  {
    if t == [] || le(t[|t| - 1], x) {
      j := |t|;
      assert t[..j] == t && t[j..] == [];
    } else {
      var init := t[..|t| - 1];
      j := InsertSplits(init, x, le);
      assert init[..j] == t[..j];
      assert init[j..] + [t[|t| - 1]] == t[j..];
    }
  }

  lemma {:induction false} InsertPermutes<T>(t: seq<T>, x: T, le: (T, T) -> bool)
    ensures multiset(Insert(t, x, le)) == multiset(t) + multiset{x}
    decreases |t|
  {
    if t != [] && !le(t[|t| - 1], x) {
      var init := t[..|t| - 1];
      InsertPermutes(init, x, le);
      assert t == init + [t[|t| - 1]];
    }
  }

  lemma {:induction false} InsertSorted<T(!new)>(t: seq<T>, x: T, le: (T, T) -> bool)
    requires Total(le)
    requires Sorted(t, le)
    ensures Sorted(Insert(t, x, le), le)
    decreases |t|
  {
    if t == [] || le(t[|t| - 1], x) {
    } else {
      var init := t[..|t| - 1];
      var last := t[|t| - 1];
      InsertSorted(init, x, le);
      var r := Insert(init, x, le);
      var j := InsertSplits(init, x, le);
      assert le(x, last);
      if |r| > 0 {
        // the last element of r is x or the last element of init
        if j == |init| {
          assert r[|r| - 1] == x;
        } else {
          assert r[|r| - 1] == init[|init| - 1];
          assert le(t[|t| - 2], t[|t| - 1]);
        }
      }
      assert Insert(t, x, le) == r + [last];
    }
  }

  /** The result of SortBy is sorted. */
  lemma {:induction false} SortBySorted<T(!new)>(s: seq<T>, le: (T, T) -> bool)
    requires Total(le)
    ensures Sorted(SortBy(s, le), le)
    decreases |s|
  {
    if s != [] {
      SortBySorted(s[..|s| - 1], le);
      InsertSorted(SortBy(s[..|s| - 1], le), s[|s| - 1], le);
    }
  }

  /** The result of SortBy is a permutation of its input. */
  lemma {:induction false} SortByPermutes<T(!new)>(s: seq<T>, le: (T, T) -> bool)
    ensures multiset(SortBy(s, le)) == multiset(s)
    decreases |s|
  {
    if s != [] {
      SortByPermutes(s[..|s| - 1], le);
      InsertPermutes(SortBy(s[..|s| - 1], le), s[|s| - 1], le);
      assert s == s[..|s| - 1] + [s[|s| - 1]];
    }
  }

  lemma SortByLength<T(!new)>(s: seq<T>, le: (T, T) -> bool)
    ensures |SortBy(s, le)| == |s|
  {
    SortByPermutes(s, le);
    assert |multiset(SortBy(s, le))| == |multiset(s)|;
  }

  /** With a transitive order, adjacent sortedness gives sortedness of every pair. */
  lemma {:induction false} SortedIsPairwise<T(!new)>(s: seq<T>, le: (T, T) -> bool)
    requires Transitive(le)
    requires Sorted(s, le)
    ensures SortedPairwise(s, le)
    decreases |s|
  {
    if |s| > 1 {
      var init := s[..|s| - 1];
      SortedIsPairwise(init, le);
      forall i, j | 0 <= i < j < |s|
        ensures le(s[i], s[j])
      {
        if j < |s| - 1 {
          assert le(init[i], init[j]);
        } else if i < |s| - 2 {
          assert le(init[i], init[|s| - 2]);
          assert le(s[|s| - 2], s[|s| - 1]);
        }
      }
    }
  }

  // ---------------------------------------------------------------------
  // Stability
  // ---------------------------------------------------------------------

  /** The elements equivalent to `k` under `le` (both `le(x, k)` and `le(k, x)`), in order. */
  function EquivTo<T>(s: seq<T>, k: T, le: (T, T) -> bool): seq<T>
    decreases |s|
  {
    if s == [] then []
    else EquivTo(s[..|s| - 1], k, le) + (if le(s[|s| - 1], k) && le(k, s[|s| - 1]) then [s[|s| - 1]] else [])
  }

  lemma {:induction false} EquivToConcat<T(!new)>(a: seq<T>, b: seq<T>, k: T, le: (T, T) -> bool)
    ensures EquivTo(a + b, k, le) == EquivTo(a, k, le) + EquivTo(b, k, le)
    decreases |b|
  {
    if b == [] {
      assert a + b == a;
    } else {
      var b' := b[..|b| - 1];
      EquivToConcat(a, b', k, le);
      assert (a + b)[..|a + b| - 1] == a + b';
    }
  }

  /** None of `u` is equivalent to `k`, so EquivTo drops all of it. */
  lemma {:induction false} EquivToNone<T(!new)>(u: seq<T>, k: T, le: (T, T) -> bool)
    requires forall i :: 0 <= i < |u| ==> !(le(u[i], k) && le(k, u[i]))
    ensures EquivTo(u, k, le) == []
    decreases |u|
  {
    if u != [] {
      EquivToNone(u[..|u| - 1], k, le);
    }
  }

  /** EquivTo of `pre + [x] + post` and of `pre + post`, piece by piece. */
  lemma EquivToAround<T(!new)>(pre: seq<T>, x: T, post: seq<T>, k: T, le: (T, T) -> bool)
    ensures EquivTo(pre + [x] + post, k, le)
            == EquivTo(pre, k, le) + (if le(x, k) && le(k, x) then [x] else []) + EquivTo(post, k, le)
    ensures EquivTo(pre + post, k, le) == EquivTo(pre, k, le) + EquivTo(post, k, le)
  {
    EquivToConcat(pre, post, k, le);
    EquivToConcat(pre + [x], post, k, le);
    EquivToConcat(pre, [x], k, le);
    assert EquivTo([x], k, le) == (if le(x, k) && le(k, x) then [x] else []) by {
      assert [x][..0] == [];
    }
  }

  /** Everything strictly above an element equivalent to `k` is not equivalent to `k`. */
  lemma AboveNotEquiv<T(!new)>(t: seq<T>, j: nat, x: T, k: T, le: (T, T) -> bool)
    requires Transitive(le)
    requires le(x, k) && le(k, x)
    requires j <= |t| && forall i :: j <= i < |t| ==> !le(t[i], x)
    ensures EquivTo(t[j..], k, le) == []
  {
    var post := t[j..];
    forall i | 0 <= i < |post|
      ensures !(le(post[i], k) && le(k, post[i]))
    {
      assert post[i] == t[j + i];
    }
    EquivToNone(post, k, le);
  }

  lemma InsertStable<T(!new)>(t: seq<T>, x: T, k: T, le: (T, T) -> bool)
    requires Transitive(le)
    ensures EquivTo(Insert(t, x, le), k, le)
            == EquivTo(t, k, le) + (if le(x, k) && le(k, x) then [x] else [])
  {
    var j := InsertSplits(t, x, le);
    var pre, post := t[..j], t[j..];
    assert t == pre + post;
    EquivToAround(pre, x, post, k, le);
    if le(x, k) && le(k, x) {
      // every element moved behind x is strictly above x, so not equivalent to k
      AboveNotEquiv(t, j, x, k, le);
    }
  }

  /** SortBy is stable: the elements equivalent to any `k` appear in input order. */
  lemma {:induction false} SortByStable<T(!new)>(s: seq<T>, k: T, le: (T, T) -> bool)
    requires Transitive(le)
    ensures EquivTo(SortBy(s, le), k, le) == EquivTo(s, k, le)
    decreases |s|
  {
    if s != [] {
      SortByStable(s[..|s| - 1], k, le);
      InsertStable(SortBy(s[..|s| - 1], le), s[|s| - 1], k, le);
    }
  }
}
