// The collection operations the view-models apply to their lists: `List.Remove`
// (first occurrence, by identity), duplicate-freedom, and LINQ's `TakeLast(n)`
// and `Where(p)`.
module Sequences {

  /** No element occurs twice. */
  predicate Distinct<T(==)>(s: seq<T>)
  {
    forall i, j :: 0 <= i < j < |s| ==> s[i] != s[j]
  }

  /** `list.IndexOf(x)` for a present element: the position of its first occurrence. */
  function FirstIndex<T(==)>(s: seq<T>, x: T): (i: nat)
    requires x in s
    ensures i < |s| && s[i] == x && x !in s[..i]
  {
    if s[0] == x then 0
    else
      assert x in s[1..];
      var j := FirstIndex(s[1..], x);
      assert s[..j + 1] == [s[0]] + s[1..][..j];
      j + 1
  }

  /** The first occurrence is the one index holding `x` with no `x` before it. */
  lemma FirstIndexUnique<T>(s: seq<T>, x: T, k: nat)
    requires k < |s| && s[k] == x && x !in s[..k]
    ensures FirstIndex(s, x) == k
  {
  }

  /** `list.Remove(x)`: drops the first occurrence of `x`, if any. */
  function RemoveFirst<T(==)>(s: seq<T>, x: T): seq<T>
  {
    if x in s then s[..FirstIndex(s, x)] + s[FirstIndex(s, x) + 1..] else s
  }

  /** Removing takes exactly one copy of a present element out of the multiset and keeps the others in order. */
  lemma RemoveFirstMultiset<T>(s: seq<T>, x: T)
    requires x in s
    ensures |RemoveFirst(s, x)| == |s| - 1
    ensures multiset(RemoveFirst(s, x)) == multiset(s) - multiset{x}
  {
    var i := FirstIndex(s, x);
    assert s == s[..i] + [x] + s[i + 1..];
    assert multiset(s) == multiset(s[..i]) + multiset{x} + multiset(s[i + 1..]);
  }

  /** Dropping position `i` shifts every later element one place down. */
  lemma DropAt<T>(s: seq<T>, i: nat)
    requires i < |s|
    ensures |s[..i] + s[i + 1..]| == |s| - 1
    ensures forall k :: 0 <= k < |s| - 1 ==> (s[..i] + s[i + 1..])[k] == if k < i then s[k] else s[k + 1]
  {
  }

  /** Removing the first copy of `x` shifts every later element one place down. */
  lemma RemoveFirstAt<T>(s: seq<T>, x: T)
    requires x in s
    ensures |RemoveFirst(s, x)| == |s| - 1
    ensures forall k :: 0 <= k < |RemoveFirst(s, x)| ==>
      RemoveFirst(s, x)[k] == if k < FirstIndex(s, x) then s[k] else s[k + 1]
  {
    DropAt(s, FirstIndex(s, x));
  }

  /** Without duplicates, the first copy of `x` is its only copy. */
  lemma RemoveFirstLeavesNoCopy<T>(s: seq<T>, x: T)
    requires Distinct(s) && x in s
    ensures x !in RemoveFirst(s, x)
  {
    var i := FirstIndex(s, x);
    var r := RemoveFirst(s, x);
    RemoveFirstAt(s, x);
    forall k | 0 <= k < |r|
      ensures r[k] != x
    {
      var k' := if k < i then k else k + 1;
      assert r[k] == s[k'] && k' != i;
    }
  }

  /** Removing an element keeps a list free of duplicates. */
  lemma RemoveFirstKeepsDistinct<T>(s: seq<T>, x: T)
    requires Distinct(s) && x in s
    ensures Distinct(RemoveFirst(s, x))
  {
    var i := FirstIndex(s, x);
    var r := RemoveFirst(s, x);
    RemoveFirstAt(s, x);
    forall a, b | 0 <= a < b < |r|
      ensures r[a] != r[b]
    {
      if b < i {
        assert r[a] == s[a] && r[b] == s[b];
      } else if a < i {
        assert r[a] == s[a] && r[b] == s[b + 1];
      } else {
        assert r[a] == s[a + 1] && r[b] == s[b + 1];
      }
    }
  }

  /** In a list without duplicates, removing an element leaves no copy of it behind. */
  lemma RemoveFirstOfDistinct<T>(s: seq<T>, x: T)
    requires Distinct(s)
    ensures x !in RemoveFirst(s, x)
    ensures Distinct(RemoveFirst(s, x))
  {
    if x in s {
      RemoveFirstLeavesNoCopy(s, x);
      RemoveFirstKeepsDistinct(s, x);
    }
  }

  /** `s.TakeLast(n)`: the last `n` elements, or all of them when there are fewer. */
  function TakeLast<T>(s: seq<T>, n: nat): (r: seq<T>)
    ensures |r| == if |s| <= n then |s| else n
    ensures r == s[|s| - |r|..]
  {
    if |s| <= n then s else s[|s| - n..]
  }

  /** `s.Where(p)`: the elements satisfying `p`, in their original order. */
  function Where<T>(s: seq<T>, p: T -> bool): (r: seq<T>)
    ensures |r| <= |s|
    decreases |s|
  {
    if s == [] then []
    else Where(s[..|s| - 1], p) + (if p(s[|s| - 1]) then [s[|s| - 1]] else [])
  }

  /** `r` is `s` with some elements left out, the rest kept in order. */
  predicate IsSubsequence<T(==)>(r: seq<T>, s: seq<T>)
    decreases |s|
  {
    r == [] || (s != [] &&
      (IsSubsequence(r, s[..|s| - 1]) ||
       (r[|r| - 1] == s[|s| - 1] && IsSubsequence(r[..|r| - 1], s[..|s| - 1]))))
  }

  /** An element survives `Where` exactly when it is in the input and satisfies the predicate. */
  lemma {:induction false} WhereMembers<T>(s: seq<T>, p: T -> bool, x: T)
    ensures x in Where(s, p) <==> x in s && p(x)
    decreases |s|
  {
    if s != [] {
      WhereMembers(s[..|s| - 1], p, x);
      assert s == s[..|s| - 1] + [s[|s| - 1]];
    }
  }

  /** `Where` keeps the surviving elements in their original order. */
  lemma {:induction false} WhereIsSubsequence<T>(s: seq<T>, p: T -> bool)
    ensures IsSubsequence(Where(s, p), s)
    decreases |s|
  {
    if s != [] {
      var init := s[..|s| - 1];
      WhereIsSubsequence(init, p);
      var w := Where(init, p);
      assert s[..|s| - 1] == init;
      if p(s[|s| - 1]) {
        var r := w + [s[|s| - 1]];
        assert Where(s, p) == r;
        assert r[..|r| - 1] == w;
      } else {
        assert Where(s, p) == w;
      }
    }
  }

  /** `Where` depends only on which elements the predicate accepts. */
  lemma {:induction false} WhereCongruent<T>(s: seq<T>, p: T -> bool, q: T -> bool)
    requires forall x :: p(x) == q(x)
    ensures Where(s, p) == Where(s, q)
    decreases |s|
  {
    if s != [] {
      WhereCongruent(s[..|s| - 1], p, q);
    }
  }

  /** A predicate that holds everywhere filters nothing out. */
  lemma {:induction false} WhereAll<T>(s: seq<T>, p: T -> bool)
    requires forall x :: p(x)
    ensures Where(s, p) == s
    decreases |s|
  {
    if s != [] {
      WhereAll(s[..|s| - 1], p);
      assert s == s[..|s| - 1] + [s[|s| - 1]];
    }
  }

  /** A predicate no element satisfies filters everything out. */
  lemma {:induction false} WhereNone<T>(s: seq<T>, p: T -> bool)
    requires forall x :: x in s ==> !p(x)
    ensures Where(s, p) == []
    decreases |s|
  {
    if s != [] {
      assert s[|s| - 1] in s;
      assert forall x :: x in s[..|s| - 1] ==> x in s;
      WhereNone(s[..|s| - 1], p);
    }
  }

  /** Two chained `Where`s are one `Where` with the conjunction. */
  lemma {:induction false} WhereWhere<T>(s: seq<T>, p: T -> bool, q: T -> bool, pq: T -> bool)
    requires forall x :: pq(x) == (p(x) && q(x))
    ensures Where(Where(s, p), q) == Where(s, pq)
    decreases |s|
  {
    if s != [] {
      var init := s[..|s| - 1];
      var last := s[|s| - 1];
      WhereWhere(init, p, q, pq);
      var w := Where(init, p);
      if p(last) {
        var r := w + [last];
        assert r[..|r| - 1] == w && r[|r| - 1] == last;
      } else {
        assert Where(s, p) == w;
      }
    }
  }

  /** A suffix of a subsequence is still a subsequence. */
  lemma {:induction false} SuffixOfSubsequence<T>(r: seq<T>, s: seq<T>, k: nat)
    requires IsSubsequence(r, s) && k <= |r|
    ensures IsSubsequence(r[k..], s)
    decreases |s|
  {
    if r[k..] != [] {
      var init := s[..|s| - 1];
      if IsSubsequence(r, init) {
        SuffixOfSubsequence(r, init, k);
      } else {
        var r' := r[..|r| - 1];
        SuffixOfSubsequence(r', init, k);
        assert r[k..][..|r[k..]| - 1] == r'[k..];
      }
    }
  }
}
