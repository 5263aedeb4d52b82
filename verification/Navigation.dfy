/** Walking the state tree: depth, default descent, least common compound ancestor, exit and
    entry paths, configurations. Each loop of the code is a method here, proved against a
    function; the lemmas say what those functions mean in terms of `Below`. */
module Navigation {
  import opened Seqs
  import opened Charts

  // ---------------------------------------------------------------- specifications

  function DepthOf(c: Chart, id: StateID): nat
    requires c.Linked()
    decreases c.Rank(id)
  {
    assert c.NodeOK(id);
    if id in c.nodes && c.nodes[id].parent.Some? then 1 + DepthOf(c, c.Par(id)) else 0
  }

  /** From `id` upwards, itself included, stopping short of `stop`. */
  ghost function PathUp(c: Chart, id: StateID, stop: StateID): seq<StateID>
    requires c.Linked()
    decreases c.Rank(id)
  {
    assert c.NodeOK(id) && c.NodeOK(ROOT);
    if id == stop || id !in c.nodes then []
    else if c.nodes[id].parent.Some? then [id] + PathUp(c, c.Par(id), stop)
    else [id]
  }

  /** The first proper ancestor of `s2`, going up, that is also one of `s1`; ROOT if none. */
  ghost function LccaOf(c: Chart, s1: StateID, s2: StateID): StateID
    requires c.Linked()
    decreases c.Rank(s2)
  {
    assert c.NodeOK(s2) && c.NodeOK(ROOT);
    if s2 !in c.nodes || c.nodes[s2].parent.None? then ROOT
    else if c.Below(c.Par(s2), s1) then c.Par(s2)
    else LccaOf(c, s1, c.Par(s2))
  }

  ghost function Descent(c: Chart, id: StateID): nat
  {
    if c.Rank(id) <= |c.order| then |c.order| - c.Rank(id) else 0
  }

  lemma ChildDescends(c: Chart, p: StateID, id: StateID)
    requires c.Linked() && p in c.nodes && id in c.nodes[p].children
    ensures Descent(c, id) < Descent(c, p)
  {
    ListedChild(c, p, id);
    assert c.NodeOK(id);
  }

  ghost function LeafTargetOf(c: Chart, id: StateID): StateID
    requires c.Linked()
    decreases Descent(c, id)
  {
    assert c.NodeOK(id);
    if !c.IsCompound(id) then id
    else
      var next := if c.nodes[id].parallel then c.nodes[id].children[0] else c.nodes[id].initial;
      ChildDescends(c, id, next);
      LeafTargetOf(c, next)
  }

  /** All default leaves of `id`, one per region of every parallel state on the way. */
  function LeafTargets(c: Chart, id: StateID): seq<StateID>
    requires c.Linked()
    decreases Descent(c, id), |c.order| + 1, 0
  {
    assert c.NodeOK(id);
    if !c.IsCompound(id) then [id]
    else if c.nodes[id].parallel then RegionTargets(c, id, |c.nodes[id].children|)
    else
      ChildDescends(c, id, c.nodes[id].initial);
      LeafTargets(c, c.nodes[id].initial)
  }

  /** The default leaves of the first `k` children. */
  function RegionTargets(c: Chart, id: StateID, k: nat): seq<StateID>
    requires c.Linked() && id in c.nodes && k <= |c.nodes[id].children|
    decreases Descent(c, id), 0, k
  {
    if k == 0 then []
    else
      ChildDescends(c, id, c.nodes[id].children[k - 1]);
      RegionTargets(c, id, k - 1) + LeafTargets(c, c.nodes[id].children[k - 1])
  }

  /** All states above or at one of the leaves. */
  ghost predicate IsActive(c: Chart, leaves: seq<StateID>, s: StateID)
    requires c.Linked()
  {
    exists l :: l in leaves && c.Anc(s, l)
  }

  /** The elements of the definition order that are active. */
  ghost function ActiveInOrder(c: Chart, leaves: seq<StateID>, n: nat): seq<StateID>
    requires c.Linked() && n <= |c.order|
  {
    if n == 0 then []
    else
      ActiveInOrder(c, leaves, n - 1)
      + (if IsActive(c, leaves, c.order[n - 1]) then [c.order[n - 1]] else [])
  }

  // ---------------------------------------------------------------- what they mean

  lemma {:induction false} PathUpElements(c: Chart, id: StateID, stop: StateID, s: StateID)
    requires c.Linked() && (id == stop || c.Below(stop, id))
    ensures s in PathUp(c, id, stop) <==> c.Anc(s, id) && c.Below(stop, s)
    decreases c.Rank(id)
  {
    assert c.NodeOK(id) && c.NodeOK(ROOT) && c.NodeOK(s);
    if id == stop {
      if c.Anc(s, id) && c.Below(stop, s) {
        BelowRank(c, stop, s);
        if s != id { BelowRank(c, s, id); }
      }
    } else if c.nodes[id].parent.Some? {
      PathUpElements(c, c.Par(id), stop, s);
    }
  }

  lemma {:induction false} PathUpAll(c: Chart, id: StateID, s: StateID)
    requires c.Linked() && id in c.nodes
    ensures s in PathUp(c, id, ROOT) <==> s != ROOT && c.Anc(s, id)
  {
    RootAboveAll(c, id);
    PathUpElements(c, id, ROOT, s);
    assert c.NodeOK(ROOT);
    if s != id && c.Below(s, id) {
      BelowRank(c, s, id);
    }
    if s in c.nodes {
      RootAboveAll(c, s);
    }
  }

  lemma {:induction false} PathUpDistinct(c: Chart, id: StateID, stop: StateID)
    requires c.Linked()
    ensures Distinct(PathUp(c, id, stop))
    ensures forall s :: s in PathUp(c, id, stop) ==> s in c.nodes && c.Rank(s) <= c.Rank(id)
    decreases c.Rank(id)
  {
    assert c.NodeOK(id);
    if id != stop && id in c.nodes && c.nodes[id].parent.Some? {
      PathUpDistinct(c, c.Par(id), stop);
    }
  }

  /** The LCCA is the deepest state (ROOT included) strictly above both. */
  lemma {:induction false} LccaDeepest(c: Chart, s1: StateID, s2: StateID)
    requires c.Linked() && s1 in c.nodes && s2 in c.nodes
    ensures var l := LccaOf(c, s1, s2);
      && c.Below(l, s1) && c.Below(l, s2)
      && forall a :: c.Below(a, s1) && c.Below(a, s2) ==> a == l || c.Below(a, l)
    decreases c.Rank(s2)
  {
    assert c.NodeOK(s2) && c.NodeOK(ROOT);
    RootAboveAll(c, s1);
    RootAboveAll(c, s2);
    var l := LccaOf(c, s1, s2);
    if c.nodes[s2].parent.None? {
    } else if c.Below(c.Par(s2), s1) {
    } else {
      LccaDeepest(c, s1, c.Par(s2));
    }
  }

  lemma LccaSymmetric(c: Chart, s1: StateID, s2: StateID)
    requires c.Linked() && s1 in c.nodes && s2 in c.nodes
    ensures LccaOf(c, s1, s2) == LccaOf(c, s2, s1)
  {
    LccaDeepest(c, s1, s2);
    LccaDeepest(c, s2, s1);
    var a := LccaOf(c, s1, s2);
    var b := LccaOf(c, s2, s1);
    if a != b {
      assert c.Below(a, b);
      assert c.Below(b, a);
      BelowRank(c, a, b);
      BelowRank(c, b, a);
    }
  }

  /** Anything strictly above both states is the LCCA or above it. */
  lemma LccaUnique(c: Chart, s1: StateID, s2: StateID, l: StateID)
    requires c.Linked() && c.Below(l, s1) && c.Below(l, s2)
    requires forall a :: c.Below(a, s1) && c.Below(a, s2) ==> a == l || c.Below(a, l)
    ensures LccaOf(c, s1, s2) == l
  {
    LccaDeepest(c, s1, s2);
    var m := LccaOf(c, s1, s2);
    if m != l {
      BelowRank(c, m, l);
      BelowRank(c, l, m);
    }
  }

  lemma {:induction false} LeafTargetFirst(c: Chart, id: StateID)
    requires c.Linked() && id in c.nodes
    ensures LeafTargets(c, id) != [] && LeafTargets(c, id)[0] == LeafTargetOf(c, id)
    decreases Descent(c, id)
  {
    assert c.NodeOK(id);
    if c.IsCompound(id) {
      var next := if c.nodes[id].parallel then c.nodes[id].children[0] else c.nodes[id].initial;
      ChildDescends(c, id, next);
      LeafTargetFirst(c, next);
      if c.nodes[id].parallel {
        RegionTargetsFirst(c, id, |c.nodes[id].children|);
      }
    }
  }

  lemma {:induction false} RegionTargetsFirst(c: Chart, id: StateID, k: nat)
    requires c.Linked() && id in c.nodes && 1 <= k <= |c.nodes[id].children|
    requires LeafTargets(c, c.nodes[id].children[0]) != []
    ensures RegionTargets(c, id, k) != []
    ensures RegionTargets(c, id, k)[0] == LeafTargets(c, c.nodes[id].children[0])[0]
  {
    if k == 1 {
      assert RegionTargets(c, id, 0) == [];
      assert RegionTargets(c, id, 1) == LeafTargets(c, c.nodes[id].children[0]);
    } else {
      RegionTargetsFirst(c, id, k - 1);
    }
  }

  lemma RegionTargetsContain(c: Chart, id: StateID, k: nat, i: nat, t: StateID)
    requires c.Linked() && id in c.nodes && i < k <= |c.nodes[id].children|
    requires t in LeafTargets(c, c.nodes[id].children[i])
    ensures t in RegionTargets(c, id, k)
  {
  }

  lemma RegionTargetsSource(c: Chart, id: StateID, k: nat, t: StateID) returns (i: nat)
    requires c.Linked() && id in c.nodes && k <= |c.nodes[id].children|
    requires t in RegionTargets(c, id, k)
    ensures i < k && t in LeafTargets(c, c.nodes[id].children[i])
  {
    if t in LeafTargets(c, c.nodes[id].children[k - 1]) {
      i := k - 1;
    } else {
      i := RegionTargetsSource(c, id, k - 1, t);
    }
  }

  /** Default leaves are atomic descendants. */
  lemma {:induction false} LeafTargetsAtomic(c: Chart, id: StateID, t: StateID)
    requires c.Linked() && id in c.nodes && t in LeafTargets(c, id)
    ensures c.IsAtomic(t) && c.Anc(id, t)
    decreases Descent(c, id)
  {
    assert c.NodeOK(id);
    if c.IsCompound(id) {
      var next: StateID;
      if c.nodes[id].parallel {
        var i := RegionTargetsSource(c, id, |c.nodes[id].children|, t);
        next := c.nodes[id].children[i];
      } else {
        next := c.nodes[id].initial;
      }
      ChildDescends(c, id, next);
      ListedChild(c, id, next);
      LeafTargetsAtomic(c, next, t);
      BelowTrans(c, id, next, t);
    }
  }

  /** Default leaves come in definition order, without repeats. */
  ghost predicate Increasing(c: Chart, s: seq<StateID>) {
    forall i, j :: 0 <= i < j < |s| ==> c.Rank(s[i]) < c.Rank(s[j])
  }

  lemma {:induction false} LeafTargetsIncreasing(c: Chart, id: StateID)
    requires c.WF() && id in c.nodes
    ensures Increasing(c, LeafTargets(c, id))
    decreases Descent(c, id), |c.order| + 1, 0
  {
    assert c.NodeOK(id);
    if c.IsCompound(id) {
      if c.nodes[id].parallel {
        RegionTargetsIncreasing(c, id, |c.nodes[id].children|);
      } else {
        ChildDescends(c, id, c.nodes[id].initial);
        LeafTargetsIncreasing(c, c.nodes[id].initial);
      }
    }
  }

  lemma {:induction false} RegionTargetsIncreasing(c: Chart, id: StateID, k: nat)
    requires c.WF() && id in c.nodes && k <= |c.nodes[id].children|
    ensures Increasing(c, RegionTargets(c, id, k))
    decreases Descent(c, id), 0, k
  {
    if k > 0 {
      var kids := c.nodes[id].children;
      var last := kids[k - 1];
      ChildDescends(c, id, last);
      RegionTargetsIncreasing(c, id, k - 1);
      LeafTargetsIncreasing(c, last);
      var a := RegionTargets(c, id, k - 1);
      var b := LeafTargets(c, last);
      forall i, j | 0 <= i < |a| && 0 <= j < |b|
        ensures c.Rank(a[i]) < c.Rank(b[j])
      {
        var m := RegionTargetsSource(c, id, k - 1, a[i]);
        SiblingLeavesOrdered(c, id, m, k - 1, a[i], b[j]);
      }
    }
  }

  /** Everything under an earlier child precedes everything under a later one. */
  lemma SiblingsOrdered(c: Chart, p: StateID, m: nat, n: nat, s: StateID, t: StateID)
    requires c.WF() && p in c.nodes && m < n < |c.nodes[p].children|
    requires c.Anc(c.nodes[p].children[m], s) && c.Anc(c.nodes[p].children[n], t)
    ensures c.Rank(s) < c.Rank(t)
  {
    var x, y := c.nodes[p].children[m], c.nodes[p].children[n];
    assert c.NodeOK(p);
    ListedChild(c, p, x);
    ListedChild(c, p, y);
    if c.Anc(x, y) {
      TowardUnique(c, p, x, y);
      TowardUnique(c, p, y, y);
    }
    SubtreeBefore(c, x, s, y);
    if y != t {
      BelowRank(c, y, t);
    }
  }

  lemma SiblingLeavesOrdered(c: Chart, p: StateID, m: nat, n: nat, s: StateID, t: StateID)
    requires c.WF() && p in c.nodes && m < n < |c.nodes[p].children|
    requires s in LeafTargets(c, c.nodes[p].children[m])
    requires t in LeafTargets(c, c.nodes[p].children[n])
    ensures c.Rank(s) < c.Rank(t)
  {
    assert c.NodeOK(p);
    LeafTargetsAtomic(c, c.nodes[p].children[m], s);
    LeafTargetsAtomic(c, c.nodes[p].children[n], t);
    SiblingsOrdered(c, p, m, n, s, t);
  }

  // ---------------------------------------------------------------- the loops

  method Depth(c: Chart, id: StateID) returns (depth: nat)
    requires c.Linked()
    ensures depth == DepthOf(c, id)
  {
    depth := 0;
    var s := id;
    while s in c.nodes && c.nodes[s].parent.Some?
      invariant depth + DepthOf(c, s) == DepthOf(c, id)
      decreases c.Rank(s)
    {
      assert c.NodeOK(s);
      depth := depth + 1;
      s := c.nodes[s].parent.value;
    }
  }

  method IsDescendantOf(c: Chart, id: StateID, ancestor: StateID) returns (r: bool)
    requires c.Linked()
    ensures r <==> ancestor != ROOT && c.Below(ancestor, id)
  {
    assert c.NodeOK(ROOT);
    if id !in c.nodes {
      return false;
    }
    var s := id;
    while c.nodes[s].parent.Some?
      invariant s in c.nodes
      invariant c.Below(ancestor, id) <==> c.Below(ancestor, s)
      decreases c.Rank(s)
    {
      assert c.NodeOK(s);
      s := c.nodes[s].parent.value;
      if s == ancestor {
        return true;
      }
    }
    return false;
  }

  method LeafTarget(c: Chart, target: StateID) returns (id: StateID)
    requires c.Linked()
    ensures id == LeafTargetOf(c, target)
  {
    id := target;
    while c.IsCompound(id)
      invariant LeafTargetOf(c, id) == LeafTargetOf(c, target)
      decreases Descent(c, id)
    {
      assert c.NodeOK(id);
      var next := if c.nodes[id].parallel then c.nodes[id].children[0] else c.nodes[id].initial;
      ChildDescends(c, id, next);
      id := next;
    }
  }

  method LCCA(c: Chart, s1: StateID, s2: StateID) returns (r: StateID)
    requires c.Linked()
    ensures r == LccaOf(c, s1, s2)
  {
    assert c.NodeOK(ROOT);
    var anc1: set<StateID> := {};
    var s := s1;
    while s in c.nodes && c.nodes[s].parent.Some?
      invariant forall a :: a in anc1 ==> a in c.nodes
      invariant forall a :: a != ROOT ==> (c.Below(a, s1) <==> a in anc1 || c.Below(a, s))
      decreases c.Rank(s)
    {
      assert c.NodeOK(s);
      anc1 := anc1 + {c.nodes[s].parent.value};
      s := c.nodes[s].parent.value;
    }
    s := s2;
    while s in c.nodes && c.nodes[s].parent.Some?
      invariant LccaOf(c, s1, s) == LccaOf(c, s1, s2)
      decreases c.Rank(s)
    {
      assert c.NodeOK(s);
      var p := c.nodes[s].parent.value;
      if p in anc1 && |c.nodes[p].children| > 0 {
        return p;
      }
      s := p;
    }
    return ROOT;
  }

  method ExitPath(c: Chart, currentLeaf: StateID, lcca: StateID) returns (path: seq<StateID>)
    requires c.Linked() && (currentLeaf in c.nodes || currentLeaf == lcca)
    ensures path == PathUp(c, currentLeaf, lcca)
  {
    path := [];
    var id := currentLeaf;
    while id != lcca
      invariant id in c.nodes || id == lcca
      invariant path + PathUp(c, id, lcca) == PathUp(c, currentLeaf, lcca)
      decreases c.Rank(id)
    {
      PathUpNext(c, path, id, lcca);
      path := path + [id];
      if c.nodes[id].parent.None? {
        break;
      }
      id := c.nodes[id].parent.value;
    }
  }

  lemma PathUpNext(c: Chart, path: seq<StateID>, id: StateID, stop: StateID)
    requires c.Linked() && id in c.nodes && id != stop
    ensures var p := c.nodes[id].parent;
      && (p.Some? ==> p.value in c.nodes && c.Rank(p.value) < c.Rank(id))
      && path + PathUp(c, id, stop) == (path + [id]) + if p.Some? then PathUp(c, p.value, stop) else []
  {
    assert c.NodeOK(id);
  }

  /** The two-index reversal that `EntryPath` and `Configuration` end with. */
  method ReverseInPlace(s: seq<StateID>) returns (path: seq<StateID>)
    ensures path == Reverse(s)
  {
    path := s;
    var i, j := 0, |path| - 1;
    while i < j
      invariant |path| == |s| && 0 <= i <= |s| && j == |s| - 1 - i && i <= j + 1
      invariant forall k :: i <= k <= j ==> path[k] == s[k]
      invariant forall k :: 0 <= k < i ==> path[k] == s[|s| - 1 - k]
      invariant forall k :: j < k < |s| ==> path[k] == s[|s| - 1 - k]
    {
      path := path[i := path[j]][j := path[i]];
      i, j := i + 1, j - 1;
    }
    ReverseElements(s);
  }

  method EntryPath(c: Chart, lcca: StateID, target: StateID) returns (path: seq<StateID>)
    requires c.Linked() && target in c.nodes
    ensures path == Reverse(PathUp(c, LeafTargetOf(c, target), lcca))
  {
    var id := LeafTarget(c, target);
    LeafTargetFirst(c, target);
    LeafTargetsAtomic(c, target, id);
    path := ExitPath(c, id, lcca);
    path := ReverseInPlace(path);
  }

  method Configuration(c: Chart, leaf: StateID) returns (path: seq<StateID>)
    requires c.Linked()
    ensures path == Reverse(PathUp(c, leaf, ROOT))
  {
    assert c.NodeOK(ROOT);
    path := [];
    var s := leaf;
    while s in c.nodes
      invariant path + PathUp(c, s, ROOT) == PathUp(c, leaf, ROOT)
      decreases c.Rank(s), if s in c.nodes then 1 else 0
    {
      assert c.NodeOK(s);
      path := path + [s];
      if c.nodes[s].parent.None? {
        break;
      }
      s := c.nodes[s].parent.value;
    }
    assert path == PathUp(c, leaf, ROOT);
    path := ReverseInPlace(path);
  }

  /** The single-leaf fast path gives what the general filter of the definition order would. */
  lemma {:induction false} SingleLeafConfiguration(c: Chart, leaf: StateID)
    requires c.Linked()
    ensures Reverse(PathUp(c, leaf, ROOT)) == ActiveInOrder(c, [leaf], |c.order|)
  {
    if leaf !in c.nodes {
      NothingActive(c, leaf, |c.order|);
      return;
    }
    var p := PathUp(c, leaf, ROOT);
    var r := Reverse(p);
    ReverseElements(p);
    PathUpOrdered(c, leaf, ROOT);
    ActiveInOrderElements(c, [leaf], |c.order|);
    forall s ensures s in r <==> s in ActiveInOrder(c, [leaf], |c.order|) {
      PathUpAll(c, leaf, s);
      AboveOneLeaf(c, leaf, s);
    }
    SameIncreasing(c, r, ActiveInOrder(c, [leaf], |c.order|));
  }

  lemma {:induction false} NothingActive(c: Chart, leaf: StateID, n: nat)
    requires c.Linked() && leaf !in c.nodes && n <= |c.order|
    ensures ActiveInOrder(c, [leaf], n) == []
  {
    if n > 0 {
      NothingActive(c, leaf, n - 1);
    }
  }

  lemma AboveOneLeaf(c: Chart, leaf: StateID, s: StateID)
    requires c.Linked() && leaf in c.nodes
    ensures IsActive(c, [leaf], s) <==> c.Anc(s, leaf)
    ensures s != ROOT && c.Anc(s, leaf) ==> 0 < c.Rank(s) <= |c.order|
    ensures c.Rank(ROOT) == 0
  {
    assert leaf in [leaf];
    assert c.NodeOK(s) && c.NodeOK(leaf) && c.NodeOK(ROOT);
    if c.Below(s, leaf) { BelowRank(c, s, leaf); }
  }

  ghost predicate Decreasing(c: Chart, s: seq<StateID>) {
    forall i, j :: 0 <= i < j < |s| ==> c.Rank(s[i]) > c.Rank(s[j])
  }

  lemma {:induction false} PathUpOrdered(c: Chart, id: StateID, stop: StateID)
    requires c.Linked()
    ensures Decreasing(c, PathUp(c, id, stop))
    decreases c.Rank(id)
  {
    assert c.NodeOK(id);
    if id != stop && id in c.nodes && c.nodes[id].parent.Some? {
      var q := PathUp(c, c.Par(id), stop);
      PathUpOrdered(c, c.Par(id), stop);
      PathUpDistinct(c, c.Par(id), stop);
      assert forall j :: 0 <= j < |q| ==> q[j] in q && c.Rank(q[j]) < c.Rank(id);
      assert PathUp(c, id, stop) == [id] + q;
    }
  }

  lemma {:induction false} ActiveInOrderElements(c: Chart, leaves: seq<StateID>, n: nat)
    requires c.Linked() && n <= |c.order|
    ensures var r := ActiveInOrder(c, leaves, n);
      && Increasing(c, r)
      && forall s :: s in r <==> IsActive(c, leaves, s) && 0 < c.Rank(s) <= n
  {
    if n > 0 {
      ActiveInOrderElements(c, leaves, n - 1);
      RankIndex(c, n - 1);
      var r := ActiveInOrder(c, leaves, n);
      forall s ensures s in r <==> IsActive(c, leaves, s) && 0 < c.Rank(s) <= n {
        if c.Rank(s) == n {
          assert s == c.order[n - 1];
        }
      }
    }
  }

  lemma SameLast(c: Chart, a: seq<StateID>, b: seq<StateID>)
    requires Increasing(c, a) && Increasing(c, b) && a != [] && b != []
    requires a[|a| - 1] in b && b[|b| - 1] in a
    ensures a[|a| - 1] == b[|b| - 1]
  {
    var i :| 0 <= i < |b| && b[i] == a[|a| - 1];
    var j :| 0 <= j < |a| && a[j] == b[|b| - 1];
  }

  lemma FrontElements(c: Chart, a: seq<StateID>, z: StateID)
    requires Increasing(c, a) && a != []
    ensures z in a[..|a| - 1] <==> z in a && z != a[|a| - 1]
  {
    var n := |a| - 1;
    assert a == a[..n] + [a[n]];
    if z in a[..n] {
      var k :| 0 <= k < n && a[k] == z;
      assert c.Rank(a[k]) < c.Rank(a[n]);
    }
  }

  /** A list increasing in definition order is determined by its elements. */
  lemma {:induction false} SameIncreasing(c: Chart, a: seq<StateID>, b: seq<StateID>)
    requires Increasing(c, a) && Increasing(c, b)
    requires forall x :: x in a <==> x in b
    ensures a == b
  {
    assert a != [] ==> a[|a| - 1] in b;
    assert b != [] ==> b[|b| - 1] in a;
    if a != [] && b != [] {
      SameLast(c, a, b);
      var a', b' := a[..|a| - 1], b[..|b| - 1];
      forall z ensures z in a' <==> z in b' {
        FrontElements(c, a, z);
        FrontElements(c, b, z);
      }
      SameIncreasing(c, a', b');
      assert a == a' + [a[|a| - 1]] && b == b' + [b[|b| - 1]];
    }
  }

  method ConfigurationOf(c: Chart, leaves: seq<StateID>) returns (result: seq<StateID>)
    requires c.Linked()
    ensures result == ActiveInOrder(c, leaves, |c.order|)
  {
    if |leaves| == 1 {
      result := Configuration(c, leaves[0]);
      SingleLeafConfiguration(c, leaves[0]);
      assert leaves == [leaves[0]];
      return;
    }
    assert c.NodeOK(ROOT);
    var seen: set<StateID> := {};
    for i := 0 to |leaves|
      invariant forall s :: s in c.nodes ==> (s in seen <==> IsActive(c, leaves[..i], s))
    {
      ghost var before := seen;
      var s := leaves[i];
      while s in c.nodes
        invariant before <= seen
        invariant forall a :: a in c.nodes ==>
          (a in before || c.Anc(a, leaves[i]) <==> a in seen || c.Anc(a, s))
        decreases c.Rank(s), if s in c.nodes then 1 else 0
      {
        assert c.NodeOK(s);
        seen := seen + {s};
        s := c.Par(s);
      }
      forall a | a in c.nodes ensures a in seen <==> IsActive(c, leaves[..i + 1], a) {
        assert leaves[..i + 1] == leaves[..i] + [leaves[i]];
        if IsActive(c, leaves[..i], a) {
          var l :| l in leaves[..i] && c.Anc(a, l);
          assert l in leaves[..i + 1];
        }
        if c.Anc(a, leaves[i]) {
          assert leaves[i] in leaves[..i + 1];
        }
      }
    }
    assert leaves[..|leaves|] == leaves;
    result := [];
    for n := 0 to |c.order|
      invariant result == ActiveInOrder(c, leaves, n)
    {
      if c.order[n] in seen {
        result := result + [c.order[n]];
      }
    }
  }
}
