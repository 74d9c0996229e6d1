// `OrderBy(key)` on strings, as an insertion sort over the ordinal order of the
// keys: an element goes in front of the first element whose key is not smaller.
module Sorting {

  /** Ordinal comparison: `a` sorts before or together with `b`. */
  predicate Le(a: string, b: string)
    decreases |a|
  {
    a == [] || (b != [] && (a[0] < b[0] || (a[0] == b[0] && Le(a[1..], b[1..]))))
  }

  lemma {:induction false} LeTotal(a: string, b: string)
    ensures Le(a, b) || Le(b, a)
    decreases |a|
  {
    if a != [] && b != [] && a[0] == b[0] {
      LeTotal(a[1..], b[1..]);
    }
  }

  lemma {:induction false} LeTransitive(a: string, b: string, c: string)
    requires Le(a, b) && Le(b, c)
    ensures Le(a, c)
    decreases |a|
  {
    if a != [] && b[0] == c[0] && a[0] == b[0] {
      LeTransitive(a[1..], b[1..], c[1..]);
    }
  }

  predicate SortedBy<T>(s: seq<T>, key: T -> string)
  {
    forall i, j :: 0 <= i < j < |s| ==> Le(key(s[i]), key(s[j]))
  }

  /** An element whose key is at most every key of a sorted list may go in front of it. */
  lemma ConsSorted<T>(y: T, r: seq<T>, key: T -> string)
    requires SortedBy(r, key)
    requires forall j :: 0 <= j < |r| ==> Le(key(y), key(r[j]))
    ensures SortedBy([y] + r, key)
  {
    forall i, j | 0 <= i < j < |[y] + r|
      ensures Le(key(([y] + r)[i]), key(([y] + r)[j]))
    {
      assert ([y] + r)[j] == r[j - 1];
      if i > 0 {
        assert ([y] + r)[i] == r[i - 1];
      }
    }
  }

  /** The head of a sorted list is at most every element of its tail with one more element above it inserted. */
  lemma HeadBelowInserted<T>(x: T, s: seq<T>, rest: seq<T>, key: T -> string)
    requires s != [] && SortedBy(s, key) && Le(key(s[0]), key(x))
    requires multiset(rest) == multiset(s[1..]) + multiset{x}
    ensures forall j :: 0 <= j < |rest| ==> Le(key(s[0]), key(rest[j]))
  {
    forall j | 0 <= j < |rest|
      ensures Le(key(s[0]), key(rest[j]))
    {
      assert rest[j] in multiset(rest);
      if rest[j] != x {
        assert rest[j] in multiset(s[1..]);
        var k :| 0 <= k < |s[1..]| && s[1..][k] == rest[j];
        assert s[k + 1] == rest[j];
      }
    }
  }

  /** Insert `x` in front of the first element of `s` whose key is not below `x`'s. */
  function InsertBy<T>(x: T, s: seq<T>, key: T -> string): (r: seq<T>)
    requires SortedBy(s, key)
    ensures SortedBy(r, key)
    ensures multiset(r) == multiset(s) + multiset{x}
    decreases |s|
  {
    if s == [] then [x]
    else if Le(key(x), key(s[0])) then
      assert forall j :: 0 <= j < |s| ==> Le(key(x), key(s[j])) by {
        forall j | 0 <= j < |s|
          ensures Le(key(x), key(s[j]))
        {
          if j > 0 {
            LeTransitive(key(x), key(s[0]), key(s[j]));
          }
        }
      }
      ConsSorted(x, s, key);
      [x] + s
    else
      LeTotal(key(x), key(s[0]));
      var rest := InsertBy(x, s[1..], key);
      assert s == [s[0]] + s[1..];
      HeadBelowInserted(x, s, rest, key);
      ConsSorted(s[0], rest, key);
      [s[0]] + rest
  }

  /** `s.OrderBy(key)`: a permutation of `s` sorted by key. */
  function SortBy<T>(s: seq<T>, key: T -> string): (r: seq<T>)
    ensures SortedBy(r, key)
    ensures multiset(r) == multiset(s)
    decreases |s|
  {
    if s == [] then []
    else
      assert s == [s[0]] + s[1..];
      InsertBy(s[0], SortBy(s[1..], key), key)
  }

  /** Sorting keeps exactly the elements it was given. */
  lemma SortByMembers<T>(s: seq<T>, key: T -> string, x: T)
    ensures x in SortBy(s, key) <==> x in s
  {
    assert x in SortBy(s, key) <==> x in multiset(SortBy(s, key));
    assert x in s <==> x in multiset(s);
  }
}
