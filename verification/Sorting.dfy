/** Sorting by a key. Which of two elements with equal keys comes first is not promised. */
module Sorting {
  import opened Seqs

  ghost predicate SortedBy<T>(s: seq<T>, key: T -> int) {
    forall i, j :: 0 <= i < j < |s| ==> key(s[i]) <= key(s[j])
  }

  method SortBy<T>(ts: seq<T>, key: T -> int) returns (r: seq<T>)
    ensures SortedBy(r, key) && multiset(r) == multiset(ts)
  {
    r := [];
    for i := 0 to |ts|
      invariant SortedBy(r, key) && multiset(r) == multiset(ts[..i])
    {
      assert ts[..i + 1] == ts[..i] + [ts[i]];
      r := InsertBy(r, ts[i], key);
    }
    assert ts[..|ts|] == ts;
  }

  method InsertBy<T>(s: seq<T>, t: T, key: T -> int) returns (r: seq<T>)
    requires SortedBy(s, key)
    ensures SortedBy(r, key) && multiset(r) == multiset(s) + multiset{t}
  {
    var k := |s|;
    while k > 0 && key(s[k - 1]) > key(t)
      invariant 0 <= k <= |s|
      invariant forall j :: k <= j < |s| ==> key(s[j]) > key(t)
    {
      k := k - 1;
    }
    r := s[..k] + [t] + s[k..];
    Inserted(s, k, t);
  }

  lemma Inserted<T>(r: seq<T>, k: nat, x: T)
    requires k <= |r|
    ensures multiset(r[..k] + [x] + r[k..]) == multiset(r) + multiset{x}
  {
    assert r == r[..k] + r[k..];
  }

  /** Picking elements keeps them sorted. */
  lemma {:induction false} KeepSorted<T>(s: seq<T>, p: T -> bool, key: T -> int)
    requires SortedBy(s, key)
    ensures SortedBy(Keep(s, p), key)
  {
    if s != [] {
      var front, x := s[..|s| - 1], s[|s| - 1];
      KeepSorted(front, p, key);
      forall i | 0 <= i < |Keep(front, p)| ensures key(Keep(front, p)[i]) <= key(x) {
        KeepElement(front, p, i);
      }
    }
  }
}
