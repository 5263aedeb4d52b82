/** List operations that the interpreter loops share, each defined from the front of the
    list to its end so that a loop extends it by one element at a time. */
module Seqs {

  datatype Option<+T> = None | Some(value: T)

  /** The list without repeats, each element kept where it first occurs. */
  function Dedup<T(==)>(s: seq<T>): seq<T> {
    if s == [] then [] else
    var d := Dedup(s[..|s| - 1]);
    if s[|s| - 1] in d then d else d + [s[|s| - 1]]
  }

  function Concat<T>(s: seq<seq<T>>): seq<T> {
    if s == [] then [] else Concat(s[..|s| - 1]) + s[|s| - 1]
  }

  lemma ConcatNext<T>(s: seq<seq<T>>, i: nat)
    requires i < |s|
    ensures Concat(s[..i + 1]) == Concat(s[..i]) + s[i]
  {
    assert s[..i + 1][..i] == s[..i];
  }

  function Reverse<T>(s: seq<T>): seq<T> {
    if s == [] then [] else Reverse(s[1..]) + [s[0]]
  }

  ghost predicate Distinct<T>(s: seq<T>) {
    forall i, j :: 0 <= i < j < |s| ==> s[i] != s[j]
  }

  /** How often `x` occurs. */
  function Count<T(==)>(s: seq<T>, x: T): nat {
    if s == [] then 0 else Count(s[..|s| - 1], x) + (if s[|s| - 1] == x then 1 else 0)
  }

  /** The elements that satisfy `p`, in order. */
  function Keep<T>(s: seq<T>, p: T -> bool): seq<T> {
    if s == [] then []
    else Keep(s[..|s| - 1], p) + if p(s[|s| - 1]) then [s[|s| - 1]] else []
  }

  lemma KeepSnoc<T>(s: seq<T>, x: T, p: T -> bool)
    ensures Keep(s + [x], p) == Keep(s, p) + if p(x) then [x] else []
  {
    assert (s + [x])[..|s|] == s;
  }

  lemma {:induction false} KeepCounts<T>(s: seq<T>, p: T -> bool, x: T)
    ensures multiset(Keep(s, p))[x] == if p(x) then multiset(s)[x] else 0
  {
    if s != [] {
      KeepCounts(s[..|s| - 1], p, x);
      assert s == s[..|s| - 1] + [s[|s| - 1]];
    }
  }

  /** Splitting by a predicate loses and duplicates nothing. */
  lemma KeepPartition<T>(s: seq<T>, p: T -> bool, q: T -> bool)
    requires forall x :: p(x) != q(x)
    ensures multiset(Keep(s, p)) + multiset(Keep(s, q)) == multiset(s)
  {
    forall x ensures multiset(Keep(s, p))[x] + multiset(Keep(s, q))[x] == multiset(s)[x] {
      KeepCounts(s, p, x);
      KeepCounts(s, q, x);
    }
    SumByCounts(multiset(Keep(s, p)), multiset(Keep(s, q)), multiset(s));
  }

  lemma SumByCounts<T>(a: multiset<T>, b: multiset<T>, c: multiset<T>)
    requires forall x :: a[x] + b[x] == c[x]
    ensures a + b == c
  {
  }

  lemma {:induction false} KeepElement<T>(s: seq<T>, p: T -> bool, i: nat)
    requires i < |Keep(s, p)|
    ensures Keep(s, p)[i] in s && p(Keep(s, p)[i])
  {
    if i < |Keep(s[..|s| - 1], p)| {
      KeepElement(s[..|s| - 1], p, i);
    }
  }

  lemma {:induction false} KeepElements<T>(s: seq<T>, p: T -> bool)
    ensures forall x :: x in Keep(s, p) <==> x in s && p(x)
  {
    if s != [] {
      KeepElements(s[..|s| - 1], p);
      assert s == s[..|s| - 1] + [s[|s| - 1]];
    }
  }

  lemma DistinctSnoc<T>(s: seq<T>, x: T)
    requires Distinct(s) && x !in s
    ensures Distinct(s + [x])
  {
  }

  lemma {:induction false} DedupElements<T>(s: seq<T>)
    ensures forall x :: x in Dedup(s) <==> x in s
    ensures Distinct(Dedup(s))
  {
    if s != [] {
      DedupElements(s[..|s| - 1]);
      assert s == s[..|s| - 1] + [s[|s| - 1]];
    }
  }

  lemma {:induction false} DedupSnoc<T>(s: seq<T>, x: T)
    ensures Dedup(s + [x]) == if x in s then Dedup(s) else Dedup(s) + [x]
  {
    DedupElements(s);
    assert (s + [x])[..|s|] == s;
  }

  /** Repeats that are already present change nothing, whatever their order. */
  lemma {:induction false} DedupAppend<T>(s: seq<T>, t: seq<T>)
    ensures Dedup(s + t) == Dedup(Dedup(s) + t)
  {
    if t == [] {
      assert s + t == s && Dedup(s) + t == Dedup(s);
      DedupIdempotent(s);
    } else {
      var u := t[..|t| - 1];
      var x := t[|t| - 1];
      DedupAppend(s, u);
      assert s + t == (s + u) + [x];
      assert Dedup(s) + t == (Dedup(s) + u) + [x];
      DedupSnoc(s + u, x);
      DedupSnoc(Dedup(s) + u, x);
      DedupElements(s + u);
      DedupElements(Dedup(s) + u);
      DedupElements(s);
    }
  }

  lemma {:induction false} DistinctDedup<T>(s: seq<T>)
    requires Distinct(s)
    ensures Dedup(s) == s
  {
    if s != [] {
      DistinctDedup(s[..|s| - 1]);
      assert s == s[..|s| - 1] + [s[|s| - 1]];
    }
  }

  lemma {:induction false} DedupIdempotent<T>(s: seq<T>)
    ensures Dedup(Dedup(s)) == Dedup(s)
  {
    DedupElements(s);
    DistinctDedup(Dedup(s));
  }

  lemma {:induction false} DedupKnown<T>(s: seq<T>, t: seq<T>)
    requires forall x :: x in t ==> x in s
    ensures Dedup(s + t) == Dedup(s)
  {
    if t == [] {
      assert s + t == s;
    } else {
      var u := t[..|t| - 1];
      assert s + t == (s + u) + [t[|t| - 1]];
      DedupKnown(s, u);
      DedupSnoc(s + u, t[|t| - 1]);
    }
  }

  lemma {:induction false} DedupHead<T>(s: seq<T>)
    requires s != []
    ensures Dedup(s) != [] && Dedup(s)[0] == s[0]
  {
    if |s| > 1 {
      DedupHead(s[..|s| - 1]);
    }
  }

  lemma {:induction false} ReverseElements<T>(s: seq<T>)
    ensures |Reverse(s)| == |s|
    ensures forall i :: 0 <= i < |s| ==> Reverse(s)[i] == s[|s| - 1 - i]
    ensures forall x :: x in Reverse(s) <==> x in s
  {
    if s != [] {
      ReverseElements(s[1..]);
      assert s == [s[0]] + s[1..];
    }
  }

  lemma {:induction false} CountSnoc<T>(s: seq<T>, x: T, y: T)
    ensures Count(s + [x], y) == Count(s, y) + (if x == y then 1 else 0)
  {
    assert (s + [x])[..|s|] == s;
  }

  lemma {:induction false} CountAppend<T>(s: seq<T>, t: seq<T>, y: T)
    ensures Count(s + t, y) == Count(s, y) + Count(t, y)
  {
    if t == [] {
      assert s + t == s;
    } else {
      assert s + t == (s + t[..|t| - 1]) + [t[|t| - 1]];
      CountAppend(s, t[..|t| - 1], y);
      CountSnoc(s + t[..|t| - 1], t[|t| - 1], y);
    }
  }

  lemma {:induction false} CountDistinct<T>(s: seq<T>, y: T)
    requires Distinct(s)
    ensures Count(s, y) == if y in s then 1 else 0
  {
    if s != [] {
      CountDistinct(s[..|s| - 1], y);
      assert s == s[..|s| - 1] + [s[|s| - 1]];
    }
  }
}
