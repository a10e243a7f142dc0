/**
 * Generic sequence helpers: the "first element that matches" search used by
 * every ORM lookup, order-preserving filtering, and permutations (the model of
 * a random shuffle).
 */
module SeqUtil {
  import opened Wrappers

  /** Position of the first element satisfying `p`, or None when there is none. */
  function FirstIndex<T>(s: seq<T>, p: T -> bool): (r: Option<nat>)
    ensures r.Some? ==> r.value < |s| && p(s[r.value])
    ensures r.Some? ==> forall j :: 0 <= j < r.value ==> !p(s[j])
    ensures r.None? <==> forall j :: 0 <= j < |s| ==> !p(s[j])
  {
    if |s| == 0 then None
    else if p(s[0]) then Some(0)
    else
      match FirstIndex(s[1..], p)
      case None => None
      case Some(k) => Some(k + 1)
  }

  /** The elements of `s` satisfying `p`, in their original order. */
  function Filter<T(!new)>(s: seq<T>, p: T -> bool): (r: seq<T>)
    ensures |r| <= |s|
    ensures forall k :: 0 <= k < |r| ==> p(r[k])
  {
    if |s| == 0 then []
    else (if p(s[0]) then [s[0]] else []) + Filter(s[1..], p)
  }

  /** An element is kept iff it occurs and satisfies `p`. */
  lemma {:induction false} FilterMembers<T(!new)>(s: seq<T>, p: T -> bool)
    ensures forall x :: x in Filter(s, p) <==> x in s && p(x)
  {
    if |s| > 0 {
      FilterMembers(s[1..], p);
      assert s == [s[0]] + s[1..];
    }
  }

  lemma {:induction false} FilterAppend<T(!new)>(a: seq<T>, b: seq<T>, p: T -> bool)
    ensures Filter(a + b, p) == Filter(a, p) + Filter(b, p)
  {
    if |a| == 0 {
      assert a + b == b;
    } else {
      assert (a + b)[1..] == a[1..] + b;
      FilterAppend(a[1..], b, p);
    }
  }

  lemma FilterSingleton<T(!new)>(x: T, p: T -> bool)
    ensures Filter([x], p) == if p(x) then [x] else []
  {
    assert [x][1..] == [];
  }

  /** Filtering a non-empty sequence: the filtered front, then the last element if it passes. */
  lemma {:induction false} FilterSnoc<T(!new)>(s: seq<T>, p: T -> bool)
    requires |s| > 0
    ensures Filter(s, p) == Filter(s[..|s| - 1], p) + (if p(s[|s| - 1]) then [s[|s| - 1]] else [])
  {
    var front, last := s[..|s| - 1], s[|s| - 1];
    assert s == front + [last];
    FilterAppend(front, [last], p);
    FilterSingleton(last, p);
  }

  lemma {:induction false} FilterAllFail<T(!new)>(s: seq<T>, p: T -> bool)
    requires forall i :: 0 <= i < |s| ==> !p(s[i])
    ensures Filter(s, p) == []
  {
    if |s| > 0 {
      FilterAllFail(s[1..], p);
    }
  }

  lemma {:induction false} FilterAllPass<T(!new)>(s: seq<T>, p: T -> bool)
    requires forall i :: 0 <= i < |s| ==> p(s[i])
    ensures Filter(s, p) == s
  {
    if |s| > 0 {
      FilterAllPass(s[1..], p);
      assert [s[0]] + s[1..] == s;
    }
  }

  /** When exactly the first `m` elements satisfy `p`, filtering keeps exactly that prefix. */
  lemma {:induction false} FilterPrefixRun<T(!new)>(s: seq<T>, p: T -> bool, m: nat)
    requires m <= |s|
    requires forall k :: 0 <= k < m ==> p(s[k])
    requires forall k :: m <= k < |s| ==> !p(s[k])
    ensures Filter(s, p) == s[..m]
  {
    if m == 0 {
      FilterAllFail(s, p);
    } else {
      FilterPrefixRun(s[1..], p, m - 1);
      assert s[..m] == [s[0]] + s[1..][..m - 1];
    }
  }

  /** A prefix one longer is the prefix plus one element. */
  lemma TakeOneMore<T>(s: seq<T>, i: nat)
    requires i < |s|
    ensures s[..i + 1] == s[..i] + [s[i]]
  {
  }

  lemma TakeOfTake<T>(s: seq<T>, i: nat)
    requires i < |s|
    ensures s[..i + 1][..i] == s[..i]
  {
  }

  lemma TakeAll<T>(s: seq<T>)
    ensures s[..|s|] == s
  {
  }

  /** `perm` lists every position 0 .. n-1 exactly once. */
  predicate IsPermutation(perm: seq<nat>, n: nat) {
    && |perm| == n
    && (forall k :: 0 <= k < n ==> perm[k] < n)
    && (forall k, l :: 0 <= k < l < n ==> perm[k] != perm[l])
    && (forall j :: 0 <= j < n ==> j in perm)
  }

  /** The first `m` entries of a duplicate-free sequence name `m` distinct positions. */
  lemma {:induction false} PrefixImageSize(perm: seq<nat>, m: nat)
    requires m <= |perm|
    requires forall k, l :: 0 <= k < l < |perm| ==> perm[k] != perm[l]
    ensures |set k | 0 <= k < m :: perm[k]| == m
  {
    if m > 0 {
      PrefixImageSize(perm, m - 1);
      var smaller := set k | 0 <= k < m - 1 :: perm[k];
      var whole := set k | 0 <= k < m :: perm[k];
      assert whole == smaller + {perm[m - 1]};
      assert perm[m - 1] !in smaller;
    }
  }
}
