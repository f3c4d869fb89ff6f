// Python's list.sort(key=..., reverse=True) on a sequence: a stable descending sort by a key.
module Sorting {
  predicate SortedDescBy<T>(s: seq<T>, key: T -> real)
  {
    forall i, j :: 0 <= i < j < |s| ==> key(s[i]) >= key(s[j])
  }

  /** `x` placed after every element whose key is at least its own. */
  function InsertDescBy<T>(s: seq<T>, x: T, key: T -> real): (r: seq<T>)
    requires SortedDescBy(s, key)
    ensures SortedDescBy(r, key)
    ensures multiset(r) == multiset(s) + multiset{x}
    ensures |r| == |s| + 1
    ensures r[0] == x || (|s| > 0 && r[0] == s[0])
  {
    if s == [] then [x]
    else if key(s[0]) >= key(x) then
      var rest := InsertDescBy(s[1..], x, key);
      assert s == [s[0]] + s[1..];
      assert key(s[0]) >= key(rest[0]);
      HeadBoundsAll(s[0], rest, key);
      [s[0]] + rest
    else
      assert s == [s[0]] + s[1..];
      [x] + s
  }

  /** Prepending an element whose key bounds the head of a sorted sequence keeps it sorted. */
  lemma HeadBoundsAll<T>(h: T, rest: seq<T>, key: T -> real)
    requires SortedDescBy(rest, key) && |rest| > 0 && key(h) >= key(rest[0])
    ensures SortedDescBy([h] + rest, key)
  {
    var r := [h] + rest;
    forall i, j | 0 <= i < j < |r|
      ensures key(r[i]) >= key(r[j])
    {
      if i == 0 {
        assert r[j] == rest[j - 1];
        assert key(rest[0]) >= key(rest[j - 1]) || j - 1 == 0;
      } else {
        assert r[i] == rest[i - 1] && r[j] == rest[j - 1];
      }
    }
  }

  /** The descending sort by `key`: ordered, and a permutation of the input. */
  function SortDescBy<T>(s: seq<T>, key: T -> real): (r: seq<T>)
    ensures SortedDescBy(r, key)
    ensures multiset(r) == multiset(s)
    ensures |r| == |s|
  {
    if s == [] then []
    else
      assert s == s[..|s| - 1] + [s[|s| - 1]];
      InsertDescBy(SortDescBy(s[..|s| - 1], key), s[|s| - 1], key)
  }

  /** Two sequences with the same elements: each element of one appears in the other. */
  lemma SameElements<T>(a: seq<T>, b: seq<T>)
    requires multiset(a) == multiset(b)
    ensures forall j :: 0 <= j < |a| ==> a[j] in b
  {
    forall j | 0 <= j < |a|
      ensures a[j] in b
    {
      assert a[j] in multiset(b);
    }
  }

  /** Python's s[:limit]: a negative limit counts from the end. */
  function TakePrefix<T>(s: seq<T>, limit: int): (r: seq<T>)
    ensures limit >= 0 ==> r == s[..if limit <= |s| then limit else |s|]
    ensures limit < 0 ==> r == s[..if |s| + limit >= 0 then |s| + limit else 0]
    ensures |r| <= |s| && (limit >= 0 ==> |r| <= limit)
  {
    if limit >= 0 then s[..if limit <= |s| then limit else |s|]
    else s[..if |s| + limit >= 0 then |s| + limit else 0]
  }
}
