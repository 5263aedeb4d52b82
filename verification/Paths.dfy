/** How paths and configurations fit together. */
module Paths {
  import opened Seqs
  import opened Charts
  import opened Navigation
  import opened Configurations
  import opened Interpreter
  import opened Orders

  lemma {:induction false} ReverseAppend<T>(a: seq<T>, b: seq<T>)
    ensures Reverse(a + b) == Reverse(b) + Reverse(a)
  {
    if a == [] {
      assert a + b == b && Reverse(b) + [] == Reverse(b);
    } else {
      assert (a + b)[1..] == a[1..] + b;
      ReverseAppend(a[1..], b);
      assert Reverse(b) + Reverse(a[1..]) + [a[0]] == Reverse(b) + (Reverse(a[1..]) + [a[0]]);
    }
  }

  lemma SeqAssoc<T>(a: seq<T>, b: seq<T>, c: seq<T>)
    ensures a + (b + c) == (a + b) + c
  {
  }

  lemma {:induction false} PathSplits(c: Chart, x: StateID, l: StateID)
    requires c.Linked() && (x == l || c.Below(l, x))
    ensures PathUp(c, x, ROOT) == PathUp(c, x, l) + PathUp(c, l, ROOT)
    decreases c.Rank(x)
  {
    assert c.NodeOK(x) && c.NodeOK(ROOT);
    if x == l {
      assert PathUp(c, x, l) == [];
    } else if c.nodes[x].parent.Some? {
      PathSplits(c, c.Par(x), l);
      SeqAssoc([x], PathUp(c, c.Par(x), l), PathUp(c, l, ROOT));
    } else {
      assert PathUp(c, l, ROOT) == [];
    }
  }

  /** The configuration of a leaf is that of the LCCA followed by the reversed exit path, that of
      the target's leaf is that of the LCCA followed by the entry path. */
  lemma ConfigurationSplits(c: Chart, source: StateID, target: StateID)
    requires c.Linked() && source in c.nodes && target in c.nodes
    ensures var y := LeafTargetOf(c, target);
      var l := LccaOf(c, source, y);
      && y in c.nodes
      && Reverse(PathUp(c, source, ROOT)) == Reverse(PathUp(c, l, ROOT)) + Reverse(PathUp(c, source, l))
      && Reverse(PathUp(c, y, ROOT)) == Reverse(PathUp(c, l, ROOT)) + Reverse(PathUp(c, y, l))
  {
    var y := LeafTargetOf(c, target);
    LeafTargetFirst(c, target);
    LeafTargetsAtomic(c, target, y);
    var l := LccaOf(c, source, y);
    LccaDeepest(c, source, y);
    PathSplits(c, source, l);
    PathSplits(c, y, l);
    ReverseAppend(PathUp(c, source, l), PathUp(c, l, ROOT));
    ReverseAppend(PathUp(c, y, l), PathUp(c, l, ROOT));
  }

  /** Between atomic states, nothing is both exited and entered unless they are the same state. */
  lemma PathsDisjoint(c: Chart, x: StateID, y: StateID)
    requires c.Linked() && c.IsAtomic(x) && c.IsAtomic(y)
    ensures var l := LccaOf(c, x, y);
      (forall s :: !(s in PathUp(c, x, l) && s in PathUp(c, y, l))) <==> x != y
  {
    var l := LccaOf(c, x, y);
    LccaDeepest(c, x, y);
    PathUpElements(c, x, l, x);
    PathUpElements(c, y, l, x);
    if x != y {
      forall s ensures !(s in PathUp(c, x, l) && s in PathUp(c, y, l)) {
        PathUpElements(c, x, l, s);
        PathUpElements(c, y, l, s);
        AtomicNoneBelow(c, x, y);
        AtomicNoneBelow(c, y, x);
        if c.Below(s, x) && c.Below(s, y) && c.Below(l, s) {
          BelowRank(c, l, s);
          if s != l { BelowRank(c, s, l); }
        }
      }
    }
  }

  // ---------------------------------------------------------------- initial entry

  /** What is in `r` and not in `p` comes after all of `p`. */
  ghost predicate NewComesLater(c: Chart, p: seq<StateID>, r: seq<StateID>) {
    forall s, f :: s in r && s !in p && f in p ==> c.Rank(f) < c.Rank(s)
  }

  lemma IncreasingSnoc(c: Chart, d: seq<StateID>, x: StateID)
    requires Increasing(c, d) && forall f :: f in d ==> c.Rank(f) < c.Rank(x)
    ensures Increasing(c, d + [x])
  {
  }

  lemma WithoutLast(c: Chart, p: seq<StateID>, r: seq<StateID>, x: StateID)
    requires Increasing(c, r + [x]) && NewComesLater(c, p, r + [x])
    ensures Increasing(c, r) && NewComesLater(c, p, r)
  {
    assert forall s :: s in r ==> s in r + [x];
    assert forall i :: 0 <= i < |r| ==> (r + [x])[i] == r[i];
  }

  lemma LastIsLatest(c: Chart, p: seq<StateID>, r: seq<StateID>, x: StateID, f: StateID)
    requires Increasing(c, r + [x]) && NewComesLater(c, p, r + [x]) && x !in p && f in p + r
    ensures c.Rank(f) < c.Rank(x)
  {
    if f in p {
      assert x in r + [x];
    } else {
      var i :| 0 <= i < |r| && r[i] == f;
      assert (r + [x])[i] == f && (r + [x])[|r|] == x;
    }
  }

  /** Appending what comes later keeps the order. */
  lemma {:induction false} DedupStaysIncreasing(c: Chart, p: seq<StateID>, r: seq<StateID>)
    requires Increasing(c, Dedup(p)) && Increasing(c, r) && NewComesLater(c, p, r)
    ensures Increasing(c, Dedup(p + r))
  {
    if r == [] {
      assert p + r == p;
    } else {
      var front, x := r[..|r| - 1], r[|r| - 1];
      assert r == front + [x];
      WithoutLast(c, p, front, x);
      DedupStaysIncreasing(c, p, front);
      assert p + r == (p + front) + [x];
      OneMore(c, p + front, x, p, front);
    }
  }

  lemma OneMore(c: Chart, all: seq<StateID>, x: StateID, p: seq<StateID>, r: seq<StateID>)
    requires all == p + r && Increasing(c, Dedup(all)) && Increasing(c, r + [x]) && NewComesLater(c, p, r + [x])
    ensures Increasing(c, Dedup(all + [x]))
  {
    DedupSnoc(all, x);
    DedupElements(all);
    if x !in all {
      forall f | f in all ensures c.Rank(f) < c.Rank(x) {
        LastIsLatest(c, p, r, x, f);
      }
      IncreasingSnoc(c, Dedup(all), x);
    }
  }

  lemma ReversedPathIncreasing(c: Chart, t: StateID)
    requires c.Linked()
    ensures Increasing(c, Reverse(PathUp(c, t, ROOT)))
  {
    PathUpOrdered(c, t, ROOT);
    ReverseElements(PathUp(c, t, ROOT));
  }

  /** What leads to a later leaf and not to an earlier one comes after all that leads to the
      earlier one. */
  lemma LaterBranch(c: Chart, t: StateID, s: StateID, u: StateID, f: StateID)
    requires c.WF() && t in c.nodes && u in c.nodes && c.Rank(u) < c.Rank(t)
    requires s in c.nodes && c.Anc(s, t) && !c.Anc(s, u) && c.Anc(f, u)
    ensures c.Rank(f) < c.Rank(s)
  {
    SubtreeBefore(c, s, t, u);
    if c.Rank(s) == c.Rank(u) {
      RankInjective(c, s, u);
    }
    if f != u {
      BelowRank(c, f, u);
    }
  }

  lemma {:induction false} EntryIncreasing(c: Chart, leaves: seq<StateID>)
    requires c.WF() && Increasing(c, leaves) && forall l :: l in leaves ==> l in c.nodes
    ensures Increasing(c, Dedup(EntryPaths(c, ROOT, leaves)))
  {
    if leaves != [] {
      var front, t := leaves[..|leaves| - 1], leaves[|leaves| - 1];
      assert leaves == front + [t];
      EntryIncreasing(c, front);
      var p, r := EntryPaths(c, ROOT, front), Reverse(PathUp(c, t, ROOT));
      ReversedPathIncreasing(c, t);
      forall s, f | s in r && s !in p && f in p ensures c.Rank(f) < c.Rank(s) {
        EntryPathsElements(c, ROOT, front, f);
        var u :| u in front && f in PathUp(c, u, ROOT);
        var i :| 0 <= i < |front| && leaves[i] == u;
        EntryPathsElements(c, ROOT, front, s);
        ReverseElements(PathUp(c, t, ROOT));
        PathUpAll(c, t, s);
        PathUpAll(c, u, s);
        PathUpAll(c, u, f);
        assert c.NodeOK(s);
        if s != t { BelowRank(c, s, t); }
        LaterBranch(c, t, s, u, f);
      }
      DedupStaysIncreasing(c, p, r);
    }
  }

  /** For leaves in definition order the initial entry list is the configuration, in definition
      order. */
  lemma InitialEntryIsConfiguration(c: Chart, leaves: seq<StateID>)
    requires c.WF() && Increasing(c, leaves) && forall l :: l in leaves ==> l in c.nodes
    ensures Dedup(EntryPaths(c, ROOT, leaves)) == ActiveInOrder(c, leaves, |c.order|)
  {
    var a, b := Dedup(EntryPaths(c, ROOT, leaves)), ActiveInOrder(c, leaves, |c.order|);
    EntryIncreasing(c, leaves);
    InitialEntryOrder(c, leaves);
    ActiveInOrderElements(c, leaves, |c.order|);
    forall s ensures s in a <==> s in b {
      ActiveRanked(c, leaves, s);
    }
    SameIncreasing(c, a, b);
  }

  lemma ActiveRanked(c: Chart, leaves: seq<StateID>, s: StateID)
    requires c.Linked() && forall l :: l in leaves ==> l in c.nodes
    ensures IsActive(c, leaves, s) ==> (s != ROOT <==> 0 < c.Rank(s) <= |c.order|)
  {
    assert c.NodeOK(s) && c.NodeOK(ROOT);
    if l :| l in leaves && c.Below(s, l) {
      BelowRank(c, s, l);
    }
  }
}
