/** The exact order in which a microstep exits and enters states and raises done events, and where
    the new leaves go. */
module Sequencing {
  import opened Seqs
  import opened Charts
  import opened Navigation
  import opened Configurations
  import opened Steps
  import opened Machines
  import opened Interpreter
  import opened Orders
  import opened Completion

  /** Some prefix of the list holds `x` and not `y`. */
  ghost predicate Before<T>(l: seq<T>, x: T, y: T) {
    exists n :: 0 <= n <= |l| && Reached(l, n, x, y)
  }

  ghost predicate Reached<T>(l: seq<T>, n: nat, x: T, y: T)
    requires n <= |l|
  {
    x in l[..n] && y !in l[..n]
  }

  lemma {:induction false} DedupBefore<T>(l: seq<T>, i: nat, j: nat)
    requires i < j < |Dedup(l)|
    ensures Before(l, Dedup(l)[i], Dedup(l)[j])
  {
    var n := |l| - 1;
    var d := Dedup(l[..n]);
    DedupElements(l[..n]);
    if j < |d| {
      DedupBefore(l[..n], i, j);
      var k :| 0 <= k <= n && Reached(l[..n], k, d[i], d[j]);
      assert l[..n][..k] == l[..k];
      assert Reached(l, k, d[i], d[j]);
    } else {
      assert d[i] in d;
      assert Reached(l, n, d[i], l[n]);
    }
  }

  /** What comes before in the whole comes from a part before, or before in the same part. */
  lemma {:induction false} ConcatBefore<T>(parts: seq<seq<T>>, x: T, y: T) returns (k: nat)
    requires Before(Concat(parts), x, y)
    ensures k < |parts| && x in parts[k] && (forall m :: 0 <= m < k ==> y !in parts[m])
    ensures y !in parts[k] || Before(parts[k], x, y)
  {
    var n := |parts| - 1;
    var all := Concat(parts);
    var front := Concat(parts[..n]);
    var p :| 0 <= p <= |all| && Reached(all, p, x, y);
    if p <= |front| {
      assert all[..p] == front[..p];
      assert Reached(front, p, x, y);
      k := ConcatBefore(parts[..n], x, y);
    } else {
      assert all[..p] == front + parts[n][..p - |front|];
      if x in front {
        assert front[..|front|] == front;
        assert Reached(front, |front|, x, y);
        k := ConcatBefore(parts[..n], x, y);
      } else {
        k := n;
        NotInParts(parts[..n], y);
        assert forall m :: 0 <= m < n ==> parts[..n][m] == parts[m];
        assert Reached(parts[n], p - |front|, x, y);
      }
    }
  }

  lemma {:induction false} NotInParts<T>(parts: seq<seq<T>>, y: T)
    requires y !in Concat(parts)
    ensures forall m :: 0 <= m < |parts| ==> y !in parts[m]
  {
    if parts != [] {
      NotInParts(parts[..|parts| - 1], y);
    }
  }

  // ---------------------------------------------------------------- exits

  lemma {:induction false} ExitParts(c: Chart, hops: seq<Hop>) returns (parts: seq<seq<StateID>>)
    requires c.Linked()
    ensures |parts| == |hops| && Concat(parts) == ExitList(c, hops)
    ensures forall k :: 0 <= k < |hops| ==> parts[k] == PathUp(c, hops[k].source, LccaOfHop(c, hops[k]))
  {
    if hops == [] {
      parts := [];
    } else {
      var h := hops[|hops| - 1];
      parts := ExitParts(c, hops[..|hops| - 1]);
      var last := PathUp(c, h.source, LccaOfHop(c, h));
      assert (parts + [last])[..|parts|] == parts;
      parts := parts + [last];
    }
  }

  /** Where a member of the right depth is among the members of that depth. */
  lemma {:induction false} AtDepthIndex(c: Chart, s: seq<StateID>, i: nat) returns (n: nat)
    requires c.Linked() && i < |s|
    ensures n == |AtDepth(c, s[..i], DepthOf(c, s[i]))|
    ensures n < |AtDepth(c, s, DepthOf(c, s[i]))| && AtDepth(c, s, DepthOf(c, s[i]))[n] == s[i]
  {
    var last := |s| - 1;
    if i < last {
      n := AtDepthIndex(c, s[..last], i);
      assert s[..last][..i] == s[..i];
    } else {
      n := |AtDepth(c, s[..last], DepthOf(c, s[i]))|;
    }
  }

  lemma {:induction false} AtDepthGrows(c: Chart, s: seq<StateID>, i: nat, d: nat)
    requires c.Linked() && i <= |s|
    ensures |AtDepth(c, s[..i], d)| <= |AtDepth(c, s, d)|
    decreases |s|
  {
    if i < |s| {
      AtDepthGrows(c, s[..|s| - 1], i, d);
      assert s[..|s| - 1][..i] == s[..i];
    } else {
      assert s[..i] == s;
    }
  }

  /** A member has as many of its depth before it in both lists. */
  lemma SamePlace(c: Chart, s: seq<StateID>, r: seq<StateID>, a: nat, i: nat)
    requires c.Linked() && a < |s| && i < |r| && s[a] == r[i]
    requires AtDepth(c, s, DepthOf(c, s[a])) == AtDepth(c, r, DepthOf(c, s[a])) && Distinct(AtDepth(c, s, DepthOf(c, s[a])))
    ensures |AtDepth(c, s[..a], DepthOf(c, s[a]))| == |AtDepth(c, r[..i], DepthOf(c, s[a]))|
  {
    var sa := AtDepthIndex(c, s, a);
    var ri := AtDepthIndex(c, r, i);
  }

  /** Members of one depth keep their order when the list is sorted. */
  lemma SortKeeps(c: Chart, s: seq<StateID>, i: nat, j: nat) returns (a: nat, b: nat)
    requires c.Linked() && Distinct(s)
    requires i < j < |SortByDepth(c, s)| && DepthOf(c, SortByDepth(c, s)[i]) == DepthOf(c, SortByDepth(c, s)[j])
    ensures a < b < |s| && s[a] == SortByDepth(c, s)[i] && s[b] == SortByDepth(c, s)[j]
  {
    var r := SortByDepth(c, s);
    SortByDepthSorts(c, s);
    DistinctByMultiset(s, r);
    a, b := IndexIn(s, r, i), IndexIn(s, r, j);
    assert AtDepth(c, r, DepthOf(c, r[i])) == AtDepth(c, s, DepthOf(c, r[i]));
    KeepsOrder(c, s, r, i, j, a, b);
  }

  ghost function IndexIn<T>(s: seq<T>, r: seq<T>, i: nat): (a: nat)
    requires multiset(s) == multiset(r) && i < |r|
    ensures a < |s| && s[a] == r[i]
  {
    assert r[i] in multiset(r) && r[i] in s;
    var a :| 0 <= a < |s| && s[a] == r[i];
    a
  }

  lemma KeepsOrder(c: Chart, s: seq<StateID>, r: seq<StateID>, i: nat, j: nat, a: nat, b: nat)
    requires c.Linked() && Distinct(s) && Distinct(r) && i < j < |r| && DepthOf(c, r[i]) == DepthOf(c, r[j])
    requires a < |s| && b < |s| && s[a] == r[i] && s[b] == r[j]
    requires AtDepth(c, r, DepthOf(c, r[i])) == AtDepth(c, s, DepthOf(c, r[i]))
    ensures a < b
  {
    AtDepthDistinct(c, s, DepthOf(c, r[i]));
    SamePlace(c, s, r, a, i);
    SamePlace(c, s, r, b, j);
    StrictlyMore(c, r, i, j);
    if b < a {
      StrictlyMore(c, s, b, a);
    }
  }

  lemma StrictlyMore(c: Chart, s: seq<StateID>, i: nat, j: nat)
    requires c.Linked() && i < j < |s| && DepthOf(c, s[i]) == DepthOf(c, s[j])
    ensures |AtDepth(c, s[..i], DepthOf(c, s[i]))| < |AtDepth(c, s[..j], DepthOf(c, s[i]))|
  {
    var n := AtDepthIndex(c, s[..j], i);
    assert s[..j][..i] == s[..i];
  }

  lemma {:induction false} AtDepthDistinct(c: Chart, s: seq<StateID>, d: nat)
    requires c.Linked() && Distinct(s)
    ensures Distinct(AtDepth(c, s, d)) && forall x :: x in AtDepth(c, s, d) ==> x in s
  {
    if s != [] {
      var front, x := s[..|s| - 1], s[|s| - 1];
      assert forall k :: 0 <= k < |front| ==> front[k] == s[k] && s[k] != x;
      AtDepthDistinct(c, front, d);
      assert s == front + [x] && x !in front;
      DistinctSnoc(AtDepth(c, front, d), x);
    }
  }

  /** On one exit path every depth occurs once. */
  lemma OnePerDepth(c: Chart, id: StateID, stop: StateID, x: StateID, y: StateID)
    requires c.Linked() && id in c.nodes && x in PathUp(c, id, stop) && y in PathUp(c, id, stop) && x != y
    ensures DepthOf(c, x) != DepthOf(c, y)
  {
    PathUpAbove(c, id, stop, x);
    PathUpAbove(c, id, stop, y);
    AncLinear(c, x, y, id);
    assert c.NodeOK(x) && c.NodeOK(y) && c.NodeOK(ROOT);
    if c.Below(x, y) { DeeperBelow(c, x, y); } else { DeeperBelow(c, y, x); }
  }

  lemma {:induction false} PathUpAbove(c: Chart, id: StateID, stop: StateID, x: StateID)
    requires c.Linked() && x in PathUp(c, id, stop)
    ensures c.Anc(x, id) && x in c.nodes && x != ROOT
    decreases c.Rank(id)
  {
    assert c.NodeOK(id) && c.NodeOK(ROOT);
    if x != id {
      PathUpAbove(c, c.Par(id), stop, x);
      if x != c.Par(id) { BelowTrans(c, x, c.Par(id), id); }
    }
  }

  /** The first transition that exits `x` comes before any that exits `y`. */
  ghost predicate ExitedFirst(c: Chart, hops: seq<Hop>, x: StateID, y: StateID)
    requires c.Linked()
  {
    exists k :: 0 <= k < |hops| && Exits(c, hops[k], x) && forall m :: 0 <= m <= k ==> !Exits(c, hops[m], y)
  }

  /** The exit order is deepest first, and among equally deep states follows the transitions. */
  lemma ExitOrderExact(c: Chart, hops: seq<Hop>, i: nat, j: nat)
    requires c.Linked() && i < j < |ExitOrder(c, hops)|
    ensures var o := ExitOrder(c, hops);
      DepthOf(c, o[i]) > DepthOf(c, o[j])
      || (DepthOf(c, o[i]) == DepthOf(c, o[j]) && ExitedFirst(c, hops, o[i], o[j]))
  {
    var o, l := ExitOrder(c, hops), ExitList(c, hops);
    DedupElements(l);
    SortByDepthSorts(c, Dedup(l));
    if DepthOf(c, o[i]) == DepthOf(c, o[j]) {
      var a, b := SortKeeps(c, Dedup(l), i, j);
      DedupBefore(l, a, b);
      DistinctAt(Dedup(l), a, b);
      ListedFirst(c, hops, o[i], o[j]);
    }
  }

  lemma DistinctAt<T>(s: seq<T>, a: nat, b: nat)
    requires Distinct(s) && a < b < |s|
    ensures s[a] != s[b]
  {
  }

  lemma ListedFirst(c: Chart, hops: seq<Hop>, x: StateID, y: StateID)
    requires c.Linked() && Before(ExitList(c, hops), x, y) && x != y && DepthOf(c, x) == DepthOf(c, y)
    ensures ExitedFirst(c, hops, x, y)
  {
    var parts := ExitParts(c, hops);
    var k := ConcatBefore(parts, x, y);
    assert Exits(c, hops[k], x);
    if y in parts[k] {
      ExitedDeclared(c, hops[k], x);
      OnePerDepth(c, hops[k].source, LccaOfHop(c, hops[k]), x, y);
    }
    forall m | 0 <= m <= k ensures !Exits(c, hops[m], y) {
      assert y !in parts[m];
    }
  }

  lemma ExitedDeclared(c: Chart, h: Hop, s: StateID)
    requires c.Linked() && Exits(c, h, s)
    ensures h.source in c.nodes
  {
    PathUpAbove(c, h.source, LccaOfHop(c, h), s);
    if s != h.source { BelowRank(c, s, h.source); }
  }

  // ---------------------------------------------------------------- entries

  lemma {:induction false} EntryParts(c: Chart, hops: seq<Hop>) returns (parts: seq<seq<StateID>>)
    requires c.Linked()
    ensures |parts| == |hops| && Concat(parts) == EntryList(c, hops)
    ensures forall k :: 0 <= k < |hops| ==>
      parts[k] == EntryPaths(c, LccaOfHop(c, hops[k]), LeafTargets(c, hops[k].target))
  {
    if hops == [] {
      parts := [];
    } else {
      var h := hops[|hops| - 1];
      parts := EntryParts(c, hops[..|hops| - 1]);
      var last := EntryPaths(c, LccaOfHop(c, h), LeafTargets(c, h.target));
      assert (parts + [last])[..|parts|] == parts;
      parts := parts + [last];
    }
  }

  lemma {:induction false} PathParts(c: Chart, l: StateID, ts: seq<StateID>) returns (parts: seq<seq<StateID>>)
    requires c.Linked()
    ensures |parts| == |ts| && Concat(parts) == EntryPaths(c, l, ts)
    ensures forall k :: 0 <= k < |ts| ==> parts[k] == Reverse(PathUp(c, ts[k], l))
  {
    if ts == [] {
      parts := [];
    } else {
      parts := PathParts(c, l, ts[..|ts| - 1]);
      var last := Reverse(PathUp(c, ts[|ts| - 1], l));
      assert (parts + [last])[..|parts|] == parts;
      parts := parts + [last];
    }
  }

  /** The state is on the way from the LCCA to the hop's `t`-th default leaf. */
  ghost predicate OnWay(c: Chart, h: Hop, t: nat, s: StateID)
    requires c.Linked() && t < |LeafTargets(c, h.target)|
  {
    s in PathUp(c, LeafTargets(c, h.target)[t], LccaOfHop(c, h))
  }

  /** Within one hop: on the way to an earlier default leaf, or further up on the way to the same. */
  ghost predicate OnWayFirst(c: Chart, h: Hop, x: StateID, y: StateID)
    requires c.Linked()
  {
    exists t :: 0 <= t < |LeafTargets(c, h.target)| && OnWay(c, h, t, x)
      && (forall u :: 0 <= u < t ==> !OnWay(c, h, u, y))
      && (OnWay(c, h, t, y) ==> c.Rank(x) < c.Rank(y))
  }

  ghost predicate EnteredFirst(c: Chart, hops: seq<Hop>, x: StateID, y: StateID)
    requires c.Linked()
  {
    exists k :: 0 <= k < |hops| && Enters(c, hops[k], x)
      && (forall m :: 0 <= m < k ==> !Enters(c, hops[m], y))
      && (Enters(c, hops[k], y) ==> OnWayFirst(c, hops[k], x, y))
  }

  lemma {:induction false} ReverseAt<T>(p: seq<T>, k: nat)
    requires k < |p|
    ensures |Reverse(p)| == |p| && Reverse(p)[k] == p[|p| - 1 - k]
  {
    if |p| > 1 {
      ReverseAt(p[1..], if k < |p| - 1 then k else 0);
    }
  }

  lemma BeforeAt<T>(l: seq<T>, x: T, y: T) returns (i: nat, j: nat)
    requires Before(l, x, y) && y in l
    ensures i < j < |l| && l[i] == x && l[j] == y
  {
    var n :| 0 <= n <= |l| && Reached(l, n, x, y);
    i :| 0 <= i < n && l[..n][i] == x;
    j :| 0 <= j < |l| && l[j] == y;
    assert forall k :: 0 <= k < n ==> l[k] == l[..n][k];
  }

  lemma ReverseBefore(c: Chart, p: seq<StateID>, x: StateID, y: StateID)
    requires c.Linked() && Decreasing(c, p) && Before(Reverse(p), x, y) && y in p
    ensures c.Rank(x) < c.Rank(y)
  {
    ReverseElements(p);
    var i, j := BeforeAt(Reverse(p), x, y);
    assert p != [];
    ReverseAt(p, 0);
    ReverseAt(p, i);
    ReverseAt(p, j);
  }

  lemma EntersIsListed(c: Chart, h: Hop, s: StateID)
    requires c.Linked()
    ensures Enters(c, h, s) <==> s in EntryPaths(c, LccaOfHop(c, h), LeafTargets(c, h.target))
  {
    EntryPathsElements(c, LccaOfHop(c, h), LeafTargets(c, h.target), s);
  }

  lemma WaysBefore(c: Chart, h: Hop, x: StateID, y: StateID)
    requires c.Linked() && Before(EntryPaths(c, LccaOfHop(c, h), LeafTargets(c, h.target)), x, y)
    ensures OnWayFirst(c, h, x, y)
  {
    var l, ts := LccaOfHop(c, h), LeafTargets(c, h.target);
    var parts := PathParts(c, l, ts);
    var t := ConcatBefore(parts, x, y);
    forall u, s | 0 <= u < |ts| ensures s in parts[u] <==> OnWay(c, h, u, s) {
      ReverseElements(PathUp(c, ts[u], l));
    }
    if OnWay(c, h, t, y) {
      PathUpOrdered(c, ts[t], l);
      ReverseBefore(c, PathUp(c, ts[t], l), x, y);
    }
  }

  /** The entry order follows the transitions, within one transition its default leaves, and on the
      way to one leaf goes from the outside in. */
  lemma EntryOrderExact(c: Chart, hops: seq<Hop>, i: nat, j: nat)
    requires c.Linked() && i < j < |EntryOrder(c, hops)|
    ensures EnteredFirst(c, hops, EntryOrder(c, hops)[i], EntryOrder(c, hops)[j])
  {
    var x, y := EntryOrder(c, hops)[i], EntryOrder(c, hops)[j];
    DedupBefore(EntryList(c, hops), i, j);
    var parts := EntryParts(c, hops);
    var k := ConcatBefore(parts, x, y);
    forall m, s | 0 <= m < |hops| ensures Enters(c, hops[m], s) <==> s in parts[m] {
      EntersIsListed(c, hops[m], s);
    }
    if Enters(c, hops[k], y) {
      WaysBefore(c, hops[k], x, y);
    }
  }

  // ---------------------------------------------------------------- new leaves

  /** What takes the place of one leaf: the default leaves of its transition's target, or itself. */
  ghost predicate InPlace(c: Chart, hops: seq<Hop>, leaf: StateID, new': seq<StateID>)
    requires c.Linked()
  {
    && (forall h :: h in hops && h.source == leaf ==> new' == LeafTargets(c, h.target))
    && ((forall h :: h in hops ==> h.source != leaf) ==> new' == [leaf])
  }

  /** The new leaves are those that take the place of each old one, in the order of the old ones. */
  lemma {:induction false} NewLeavesInPlace(c: Chart, leaves: seq<StateID>, all: seq<StateID>, hops: seq<Hop>)
    returns (parts: seq<seq<StateID>>)
    requires c.Linked() && HopsFor(c, all, hops)
    ensures |parts| == |leaves| && NewLeaves(c, leaves, hops) == Concat(parts)
    ensures forall k :: 0 <= k < |leaves| ==> InPlace(c, hops, leaves[k], parts[k])
  {
    if leaves == [] {
      parts := [];
    } else {
      var n := |leaves| - 1;
      parts := NewLeavesInPlace(c, leaves[..n], all, hops);
      var last := Image(c, leaves[n], hops);
      HopFromFound(hops, leaves[n]);
      forall h | h in hops && h.source == leaves[n] ensures last == LeafTargets(c, h.target) {
        HopFromUnique(c, all, hops, h);
      }
      assert (parts + [last])[..n] == parts;
      parts := parts + [last];
    }
  }

  // ---------------------------------------------------------------- done events

  lemma {:induction false} AncestorParts(c: Chart, entered: seq<StateID>) returns (parts: seq<seq<StateID>>)
    requires c.Linked()
    ensures |parts| == |entered| && Concat(parts) == AncestorList(c, entered)
    ensures forall k :: 0 <= k < |entered| ==> parts[k] == PathUp(c, c.Par(entered[k]), ROOT)
  {
    if entered == [] {
      parts := [];
    } else {
      var n := |entered| - 1;
      parts := AncestorParts(c, entered[..n]);
      var last := PathUp(c, c.Par(entered[n]), ROOT);
      assert (parts + [last])[..n] == parts;
      parts := parts + [last];
    }
  }

  /** The states whose done events are the `i`-th and the `j`-th. */
  lemma {:induction false} DoneOfAt(c: Chart, leaves: seq<StateID>, ids: seq<StateID>, i: nat, j: nat)
    returns (p: nat, q: nat)
    requires c.Linked() && i < j < |DoneOf(c, leaves, ids)|
    ensures p < q < |ids|
    ensures DoneOf(c, leaves, ids)[i] == DoneEvent(ids[p]) && DoneOf(c, leaves, ids)[j] == DoneEvent(ids[q])
  {
    var n := |ids| - 1;
    var front := DoneOf(c, leaves, ids[..n]);
    if j < |front| {
      p, q := DoneOfAt(c, leaves, ids[..n], i, j);
    } else {
      p := DoneOfOne(c, leaves, ids[..n], i);
      q := n;
    }
  }

  lemma {:induction false} DoneOfOne(c: Chart, leaves: seq<StateID>, ids: seq<StateID>, i: nat) returns (p: nat)
    requires c.Linked() && i < |DoneOf(c, leaves, ids)|
    ensures p < |ids| && DoneOf(c, leaves, ids)[i] == DoneEvent(ids[p])
  {
    var n := |ids| - 1;
    if i < |DoneOf(c, leaves, ids[..n])| {
      p := DoneOfOne(c, leaves, ids[..n], i);
    } else {
      p := n;
    }
  }

  /** Some entered state lies below `a`, none before it below `b`; if it lies below both, `b` is the
      outer one. */
  ghost predicate RaisedFirst(c: Chart, entered: seq<StateID>, a: StateID, b: StateID)
    requires c.Linked()
  {
    exists k :: 0 <= k < |entered| && c.Below(a, entered[k])
      && (forall m :: 0 <= m < k ==> !c.Below(b, entered[m]))
      && (c.Below(b, entered[k]) ==> c.Below(b, a))
  }

  lemma DecreasingBefore(c: Chart, p: seq<StateID>, x: StateID, y: StateID)
    requires c.Linked() && Decreasing(c, p) && Before(p, x, y) && y in p
    ensures c.Rank(y) < c.Rank(x)
  {
    var i, j := BeforeAt(p, x, y);
  }

  lemma AncestorListed(c: Chart, s: StateID, a: StateID)
    requires c.Linked() && s in c.nodes
    ensures a in PathUp(c, c.Par(s), ROOT) <==> a != ROOT && c.Below(a, s)
  {
    assert [s][..0] == [] && AncestorList(c, []) == [];
    AncestorListElements(c, [s], a);
    assert AncestorList(c, [s]) == PathUp(c, c.Par(s), ROOT);
  }

  lemma AncestorsBefore(c: Chart, entered: seq<StateID>, a: StateID, b: StateID)
    requires c.Linked() && (forall s :: s in entered ==> s in c.nodes)
    requires Before(AncestorList(c, entered), a, b) && a != b && b != ROOT
    ensures RaisedFirst(c, entered, a, b)
  {
    var parts := AncestorParts(c, entered);
    var k := ConcatBefore(parts, a, b);
    forall m, s | 0 <= m < |entered| ensures s in parts[m] <==> s != ROOT && c.Below(s, entered[m]) {
      assert entered[m] in entered;
      AncestorListed(c, entered[m], s);
    }
    if c.Below(b, entered[k]) {
      PathUpOrdered(c, c.Par(entered[k]), ROOT);
      DecreasingBefore(c, parts[k], a, b);
      AncLinear(c, a, b, entered[k]);
      if c.Below(a, b) { BelowRank(c, a, b); }
    }
  }

  /** Done events are raised state by state as entered, for each from the inside out. */
  lemma DoneOrderExact(c: Chart, leaves: seq<StateID>, entered: seq<StateID>, i: nat, j: nat)
    returns (a: StateID, b: StateID)
    requires c.Linked() && (forall s :: s in entered ==> s in c.nodes) && i < j < |DoneEvents(c, leaves, entered)|
    ensures DoneEvents(c, leaves, entered)[i] == Event("done.state." + a, [])
    ensures DoneEvents(c, leaves, entered)[j] == Event("done.state." + b, [])
    ensures RaisedFirst(c, entered, a, b)
  {
    var all := AncestorList(c, entered);
    DedupElements(all);
    var p, q := DoneOfAt(c, leaves, Dedup(all), i, j);
    a, b := Dedup(all)[p], Dedup(all)[q];
    DistinctAt(Dedup(all), p, q);
    DedupBefore(all, p, q);
    AncestorListElements(c, entered, b);
    AncestorsBefore(c, entered, a, b);
  }
}
