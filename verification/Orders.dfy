/** The order in which a microstep exits and enters states. */
module Orders {
  import opened Seqs
  import opened Charts
  import opened Navigation
  import opened Configurations
  import opened Steps
  import opened Interpreter

  // ---------------------------------------------------------------- which states

  lemma {:induction false} ExitListElements(c: Chart, hops: seq<Hop>, s: StateID)
    requires c.Linked()
    ensures s in ExitList(c, hops) <==> Exited(c, hops, s)
  {
    if hops != [] {
      var front, h := hops[..|hops| - 1], hops[|hops| - 1];
      ExitListElements(c, front, s);
      assert hops == front + [h] && h in hops;
      if Exited(c, hops, s) {
        var g :| g in hops && Exits(c, g, s);
        if g != h { assert Exited(c, front, s); }
      }
      if Exited(c, front, s) {
        var g :| g in front && Exits(c, g, s);
        assert g in hops;
      }
    }
  }

  lemma {:induction false} EntryPathsElements(c: Chart, l: StateID, ts: seq<StateID>, s: StateID)
    requires c.Linked()
    ensures s in EntryPaths(c, l, ts) <==> exists t :: t in ts && s in PathUp(c, t, l)
  {
    if ts != [] {
      var front, t := ts[..|ts| - 1], ts[|ts| - 1];
      EntryPathsElements(c, l, front, s);
      ReverseElements(PathUp(c, t, l));
      assert ts == front + [t] && t in ts;
      if u :| u in ts && s in PathUp(c, u, l) {
        assert u in front || u == t;
      }
      if u :| u in front && s in PathUp(c, u, l) {
        assert u in ts;
      }
    }
  }

  lemma {:induction false} EntryListElements(c: Chart, hops: seq<Hop>, s: StateID)
    requires c.Linked()
    ensures s in EntryList(c, hops) <==> Entered(c, hops, s)
  {
    if hops != [] {
      var front, h := hops[..|hops| - 1], hops[|hops| - 1];
      EntryListElements(c, front, s);
      EntryPathsElements(c, LccaOfHop(c, h), LeafTargets(c, h.target), s);
      assert hops == front + [h] && h in hops;
      if Entered(c, hops, s) {
        var g :| g in hops && Enters(c, g, s);
        if g != h { assert Entered(c, front, s); }
      }
      if Entered(c, front, s) {
        var g :| g in front && Enters(c, g, s);
        assert g in hops;
      }
    }
  }

  // ---------------------------------------------------------------- the depth sort

  ghost predicate DeepestFirst(c: Chart, s: seq<StateID>)
    requires c.Linked()
  {
    forall i, j :: 0 <= i < j < |s| ==> DepthOf(c, s[i]) >= DepthOf(c, s[j])
  }

  /** The members of one depth, in order. */
  ghost function AtDepth(c: Chart, s: seq<StateID>, d: nat): seq<StateID>
    requires c.Linked()
  {
    if s == [] then []
    else AtDepth(c, s[..|s| - 1], d) + (if DepthOf(c, s[|s| - 1]) == d then [s[|s| - 1]] else [])
  }

  lemma {:induction false} InsertElements(c: Chart, s: seq<StateID>, x: StateID)
    requires c.Linked()
    ensures multiset(InsertByDepth(c, s, x)) == multiset(s) + multiset{x}
  {
    if !(s == [] || DepthOf(c, s[|s| - 1]) >= DepthOf(c, x)) {
      InsertElements(c, s[..|s| - 1], x);
      assert s == s[..|s| - 1] + [s[|s| - 1]];
    }
  }

  lemma {:induction false} InsertSorted(c: Chart, s: seq<StateID>, x: StateID)
    requires c.Linked() && DeepestFirst(c, s)
    ensures DeepestFirst(c, InsertByDepth(c, s, x))
  {
    if !(s == [] || DepthOf(c, s[|s| - 1]) >= DepthOf(c, x)) {
      var front, last := s[..|s| - 1], s[|s| - 1];
      InsertSorted(c, front, x);
      InsertElements(c, front, x);
      var q := InsertByDepth(c, front, x);
      forall i | 0 <= i < |q| ensures DepthOf(c, q[i]) >= DepthOf(c, last) {
        assert q[i] in multiset(q);
        assert q[i] == x || q[i] in front;
      }
      DeepestFirstSnoc(c, q, last);
    }
  }

  lemma DeepestFirstSnoc(c: Chart, q: seq<StateID>, x: StateID)
    requires c.Linked() && DeepestFirst(c, q) && forall i :: 0 <= i < |q| ==> DepthOf(c, q[i]) >= DepthOf(c, x)
    ensures DeepestFirst(c, q + [x])
  {
  }

  lemma {:induction false} InsertStable(c: Chart, s: seq<StateID>, x: StateID, d: nat)
    requires c.Linked() && DeepestFirst(c, s)
    ensures AtDepth(c, InsertByDepth(c, s, x), d) ==
      AtDepth(c, s, d) + if DepthOf(c, x) == d then [x] else []
  {
    var r := InsertByDepth(c, s, x);
    if s == [] || DepthOf(c, s[|s| - 1]) >= DepthOf(c, x) {
      assert r[..|s|] == s;
    } else {
      var front, last := s[..|s| - 1], s[|s| - 1];
      InsertStable(c, front, x, d);
      assert r[..|r| - 1] == InsertByDepth(c, front, x);
      if DepthOf(c, x) == d {
        assert AtDepth(c, s, d) == AtDepth(c, front, d);
      }
    }
  }

  /** The sort rearranges, puts deeper states first, and keeps the order of equal depths. */
  lemma {:induction false} SortByDepthSorts(c: Chart, s: seq<StateID>)
    requires c.Linked()
    ensures var r := SortByDepth(c, s);
      && DeepestFirst(c, r) && multiset(r) == multiset(s)
      && forall d :: AtDepth(c, r, d) == AtDepth(c, s, d)
  {
    if s != [] {
      var front, x := s[..|s| - 1], s[|s| - 1];
      SortByDepthSorts(c, front);
      var q := SortByDepth(c, front);
      InsertSorted(c, q, x);
      InsertElements(c, q, x);
      assert s == front + [x];
      forall d: nat ensures AtDepth(c, SortByDepth(c, s), d) == AtDepth(c, s, d) {
        InsertStable(c, q, x, d);
      }
    }
  }

  lemma DistinctByMultiset<T>(a: seq<T>, b: seq<T>)
    requires Distinct(a) && multiset(a) == multiset(b)
    ensures Distinct(b) && forall x :: x in a <==> x in b
  {
    forall x ensures x in a <==> x in b {
      assert x in multiset(a) <==> x in multiset(b);
    }
    forall i, j | 0 <= i < j < |b| ensures b[i] != b[j] {
      if b[i] == b[j] {
        var x := b[i];
        assert b == b[..i] + [x] + b[i + 1..j] + [x] + b[j + 1..];
        assert multiset(b)[x] >= 2;
        DistinctOnce(a, x);
      }
    }
  }

  lemma {:induction false} DistinctOnce<T>(a: seq<T>, x: T)
    requires Distinct(a)
    ensures multiset(a)[x] <= 1
  {
    if a != [] {
      var front := a[..|a| - 1];
      assert a == front + [a[|a| - 1]];
      DistinctOnce(front, x);
      if x == a[|a| - 1] {
        assert x !in front;
      }
    }
  }

  lemma {:induction false} DeeperBelow(c: Chart, a: StateID, id: StateID)
    requires c.Linked() && c.Below(a, id) && a != ROOT
    ensures DepthOf(c, a) < DepthOf(c, id)
    decreases c.Rank(id)
  {
    assert c.NodeOK(id) && c.NodeOK(ROOT);
    if c.Par(id) != a {
      DeeperBelow(c, a, c.Par(id));
    }
  }

  /** The exit order lists the exited states, each once, and none before a state below it. */
  lemma ExitOrderSound(c: Chart, hops: seq<Hop>)
    requires c.Linked()
    ensures var o := ExitOrder(c, hops);
      && Distinct(o)
      && (forall s :: s in o <==> Exited(c, hops, s))
      && forall i, j :: 0 <= i < j < |o| ==> !c.Below(o[i], o[j])
  {
    var l := ExitList(c, hops);
    var o := ExitOrder(c, hops);
    DedupElements(l);
    SortByDepthSorts(c, Dedup(l));
    DistinctByMultiset(Dedup(l), o);
    forall s ensures s in o <==> Exited(c, hops, s) {
      ExitListElements(c, hops, s);
    }
    forall x | x in o ensures x != ROOT {
      ExitListDeclared(c, hops, x);
    }
    DeepestFirstBelow(c, o);
  }

  /** In a list sorted deepest first no declared state comes before one below it. */
  lemma DeepestFirstBelow(c: Chart, o: seq<StateID>)
    requires c.Linked() && DeepestFirst(c, o) && forall x :: x in o ==> x != ROOT
    ensures forall i, j :: 0 <= i < j < |o| ==> !c.Below(o[i], o[j])
  {
    forall i, j | 0 <= i < j < |o| ensures !c.Below(o[i], o[j]) {
      if c.Below(o[i], o[j]) {
        assert o[i] in o;
        DeeperBelow(c, o[i], o[j]);
      }
    }
  }

  lemma {:induction false} ExitListDeclared(c: Chart, hops: seq<Hop>, s: StateID)
    requires c.Linked() && s in ExitList(c, hops)
    ensures s in c.nodes && s != ROOT
  {
    ExitListElements(c, hops, s);
    var h :| h in hops && Exits(c, h, s);
    PathUpDistinct(c, h.source, LccaOfHop(c, h));
    assert c.NodeOK(s);
  }

  // ---------------------------------------------------------------- the entry order

  /** Each member comes after its proper ancestors among `among`. */
  ghost predicate AncestorsFirst(c: Chart, s: seq<StateID>, among: set<StateID>)
    requires c.Linked()
  {
    forall k, a :: 0 <= k < |s| && a in among && c.Below(a, s[k]) ==> a in s[..k]
  }

  lemma AncestorsFirstAppend(c: Chart, s: seq<StateID>, t: seq<StateID>, among: set<StateID>)
    requires c.Linked() && AncestorsFirst(c, s, among) && AncestorsFirst(c, t, among)
    ensures AncestorsFirst(c, s + t, among)
  {
    var r := s + t;
    forall k, a | 0 <= k < |r| && a in among && c.Below(a, r[k]) ensures a in r[..k] {
      if k < |s| {
        assert r[..k] == s[..k];
      } else {
        assert r[k] == t[k - |s|];
        assert r[..k] == s + t[..k - |s|];
      }
    }
  }

  lemma {:induction false} AncestorsFirstDedup(c: Chart, s: seq<StateID>, among: set<StateID>)
    requires c.Linked() && AncestorsFirst(c, s, among)
    ensures AncestorsFirst(c, Dedup(s), among)
  {
    if s != [] {
      var front, x := s[..|s| - 1], s[|s| - 1];
      assert s == front + [x];
      forall k, a | 0 <= k < |front| && a in among && c.Below(a, front[k]) ensures a in front[..k] {
        assert front[..k] == s[..k] && front[k] == s[k];
      }
      AncestorsFirstDedup(c, front, among);
      DedupElements(front);
      if x !in front {
        var d := Dedup(front);
        assert Dedup(s) == d + [x];
        forall k, a | 0 <= k < |d| + 1 && a in among && c.Below(a, (d + [x])[k])
          ensures a in (d + [x])[..k]
        {
          if k < |d| {
            assert (d + [x])[..k] == d[..k];
          } else {
            assert c.Below(a, s[|s| - 1]);
            assert (d + [x])[..k] == d;
          }
        }
      }
    }
  }

  /** A list in definition order has ancestors before descendants. */
  lemma RanksAncestorsFirst(c: Chart, p: seq<StateID>, k: nat, a: StateID)
    requires |Reverse(p)| == |p| && forall i :: 0 <= i < |p| ==> Reverse(p)[i] == p[|p| - 1 - i]
    requires c.Linked() && Decreasing(c, p) && k < |p| && a in p && c.Below(a, Reverse(p)[k])
    ensures a in Reverse(p)[..k]
  {
    var r := Reverse(p);
    var i :| 0 <= i < |p| && p[i] == a;
    BelowRank(c, a, r[k]);
    assert r[|p| - 1 - i] == a;
  }

  lemma PathAncestorsFirst(c: Chart, t: StateID, l: StateID, among: set<StateID>)
    requires c.Linked() && c.Below(l, t)
    requires forall a, s :: a in among && s in PathUp(c, t, l) && c.Below(a, s) ==> c.Below(l, a)
    ensures AncestorsFirst(c, Reverse(PathUp(c, t, l)), among)
  {
    var p := PathUp(c, t, l);
    var r := Reverse(p);
    ReverseElements(p);
    PathUpOrdered(c, t, l);
    forall k, a | 0 <= k < |r| && a in among && c.Below(a, r[k]) ensures a in r[..k] {
      assert r[k] in p;
      AboveOnPath(c, t, l, r[k], a);
      RanksAncestorsFirst(c, p, k, a);
    }
  }

  /** What is above a state on a path and below the path's stop is on the path. */
  lemma AboveOnPath(c: Chart, t: StateID, l: StateID, s: StateID, a: StateID)
    requires c.Linked() && c.Below(l, t) && s in PathUp(c, t, l) && c.Below(a, s) && c.Below(l, a)
    ensures a in PathUp(c, t, l)
  {
    PathUpElements(c, t, l, s);
    if s != t { BelowTrans(c, a, s, t); }
    PathUpElements(c, t, l, a);
  }

  lemma {:induction false} PathsAncestorsFirst(c: Chart, l: StateID, ts: seq<StateID>, among: set<StateID>)
    requires c.Linked() && forall t :: t in ts ==> c.Below(l, t)
    requires forall t, a, s :: t in ts && a in among && s in PathUp(c, t, l) && c.Below(a, s) ==>
      c.Below(l, a)
    ensures AncestorsFirst(c, EntryPaths(c, l, ts), among)
  {
    if ts != [] {
      var front, t := ts[..|ts| - 1], ts[|ts| - 1];
      assert ts == front + [t];
      PathsAncestorsFirst(c, l, front, among);
      PathAncestorsFirst(c, t, l, among);
      AncestorsFirstAppend(c, EntryPaths(c, l, front), Reverse(PathUp(c, t, l)), among);
    }
  }

  /** Above a state that one hop enters, whatever else is entered lies below that hop's LCCA. */
  lemma EnteredAncestors(c: Chart, leaves: seq<StateID>, hops: seq<Hop>, h: Hop, a: StateID, s: StateID)
    requires c.Linked() && StepPre(c, leaves, hops) && h in hops && Enters(c, h, s)
    requires Entered(c, hops, a) && c.Below(a, s)
    ensures c.Below(LccaOfHop(c, h), a)
  {
    var g :| g in hops && Enters(c, g, a);
    EnterInReach(c, leaves, hops, g, a);
    EnterInReach(c, leaves, hops, h, s);
    ReachDown(c, leaves, hops, LccaOfHop(c, g), a, s);
    ReachesMeet(c, leaves, hops, g, h, s);
  }

  lemma {:induction false} EntryListAncestorsFirst(c: Chart, leaves: seq<StateID>, hops: seq<Hop>,
                                                   k: nat, among: set<StateID>)
    requires c.Linked() && StepPre(c, leaves, hops) && k <= |hops|
    requires forall a :: a in among ==> Entered(c, hops, a)
    ensures AncestorsFirst(c, EntryList(c, hops[..k]), among)
  {
    if k > 0 {
      var h := hops[k - 1];
      var l := LccaOfHop(c, h);
      var ts := LeafTargets(c, h.target);
      EntryListAncestorsFirst(c, leaves, hops, k - 1, among);
      assert hops[..k][..k - 1] == hops[..k - 1] && h in hops;
      forall t, a, s | t in ts && a in among && s in PathUp(c, t, l) && c.Below(a, s)
        ensures c.Below(l, a)
      {
        assert Enters(c, h, s);
        EnteredAncestors(c, leaves, hops, h, a, s);
      }
      PathsAncestorsFirst(c, l, ts, among);
      AncestorsFirstAppend(c, EntryList(c, hops[..k - 1]), EntryPaths(c, l, ts), among);
    }
  }

  /** The entry order lists the entered states, each once; in a joint step none comes before a
      state above it that is entered too. */
  lemma EntryOrderSound(c: Chart, leaves: seq<StateID>, hops: seq<Hop>)
    requires c.Linked()
    ensures var o := EntryOrder(c, hops);
      Distinct(o) && forall s :: s in o <==> Entered(c, hops, s)
    ensures StepPre(c, leaves, hops) ==>
      var o := EntryOrder(c, hops);
      forall i, j :: 0 <= i < j < |o| ==> !c.Below(o[j], o[i])
  {
    var l := EntryList(c, hops);
    var o := EntryOrder(c, hops);
    DedupElements(l);
    forall s ensures s in o <==> Entered(c, hops, s) {
      EntryListElements(c, hops, s);
    }
    if StepPre(c, leaves, hops) {
      var among := set s | s in o;
      EntryListAncestorsFirst(c, leaves, hops, |hops|, among);
      assert hops[..|hops|] == hops;
      AncestorsFirstDedup(c, l, among);
      AncestorsFirstNoneLater(c, o, among);
    }
  }

  lemma AncestorsFirstNoneLater(c: Chart, o: seq<StateID>, among: set<StateID>)
    requires c.Linked() && Distinct(o) && AncestorsFirst(c, o, among)
    requires forall s :: s in o ==> s in among
    ensures forall i, j :: 0 <= i < j < |o| ==> !c.Below(o[j], o[i])
  {
    forall i, j | 0 <= i < j < |o| ensures !c.Below(o[j], o[i]) {
      assert o[j] in o && o[j] !in o[..i];
    }
  }

  /** Initial entry enters exactly the configuration of its leaves, ancestors first. */
  lemma InitialEntryOrder(c: Chart, leaves: seq<StateID>)
    requires c.Linked() && forall l :: l in leaves ==> l in c.nodes
    ensures var o := Dedup(EntryPaths(c, ROOT, leaves));
      && Distinct(o)
      && (forall s :: s in o <==> s != ROOT && IsActive(c, leaves, s))
      && forall i, j :: 0 <= i < j < |o| ==> !c.Below(o[j], o[i])
  {
    var p := EntryPaths(c, ROOT, leaves);
    var o := Dedup(p);
    DedupElements(p);
    forall s ensures s in o <==> s != ROOT && IsActive(c, leaves, s) {
      EntryPathsElements(c, ROOT, leaves, s);
      forall t | t in leaves ensures s in PathUp(c, t, ROOT) <==> s != ROOT && c.Anc(s, t) {
        PathUpAll(c, t, s);
      }
    }
    var among := set s | s in o;
    forall t | t in leaves ensures c.Below(ROOT, t) { RootAboveAll(c, t); }
    forall t, a, s | t in leaves && a in among && s in PathUp(c, t, ROOT) && c.Below(a, s)
      ensures c.Below(ROOT, a)
    {
      BelowRank(c, a, s);
      RootAboveAll(c, a);
    }
    PathsAncestorsFirst(c, ROOT, leaves, among);
    AncestorsFirstDedup(c, p, among);
    AncestorsFirstNoneLater(c, o, among);
  }
}
