/** The loops of a microstep that only read the machine. The runtime and the test harness hold
    the same statements; each of them is modelled once, here. */
module Engine {
  import opened Seqs
  import opened Charts
  import opened Navigation
  import opened Configurations
  import opened Machines
  import opened Interpreter
  import opened Threads
  import opened Runs

  /** Per-transition metadata. */
  datatype TransInfo = TransInfo(source: StateID, leafTargets: seq<StateID>, lcca: StateID,
                                 exitPath: seq<StateID>, entryPaths: seq<seq<StateID>>)

  ghost predicate InfoOf(c: Chart, h: Hop, info: TransInfo)
    requires c.Linked()
  {
    && info.source == h.source
    && info.leafTargets == LeafTargets(c, h.target)
    && info.lcca == LccaOfHop(c, h)
    && info.exitPath == PathUp(c, h.source, info.lcca)
    && |info.entryPaths| == |info.leafTargets|
    && forall j :: 0 <= j < |info.entryPaths| ==>
         info.entryPaths[j] == Reverse(PathUp(c, info.leafTargets[j], info.lcca))
  }

  ghost predicate InfosOf(c: Chart, hops: seq<Hop>, infos: seq<TransInfo>)
    requires c.Linked()
  {
    |infos| == |hops| && forall i :: 0 <= i < |hops| ==> InfoOf(c, hops[i], infos[i])
  }

  method Inspect(c: Chart, source: StateID, target: StateID) returns (info: TransInfo)
    requires c.Linked() && HopOK(c, Hop(source, target))
    ensures InfoOf(c, Hop(source, target), info)
  {
    var lt := LeafTargets(c, target);
    LeafTargetFirst(c, target);
    var lcca := LCCA(c, source, lt[0]);
    var exitPath := ExitPath(c, source, lcca);
    var entryPaths: seq<seq<StateID>> := [];
    for j := 0 to |lt|
      invariant |entryPaths| == j
      invariant forall k :: 0 <= k < j ==> entryPaths[k] == Reverse(PathUp(c, lt[k], lcca))
    {
      LeafTargetsAtomic(c, target, lt[j]);
      var path := EntryPath(c, lcca, lt[j]);
      entryPaths := entryPaths + [path];
    }
    info := TransInfo(source, lt, lcca, exitPath, entryPaths);
  }

  /** Append what has not been seen yet. */
  method AppendUnseen(order: seq<StateID>, seen: set<StateID>, path: seq<StateID>, ghost all: seq<StateID>)
    returns (order': seq<StateID>, seen': set<StateID>)
    requires order == Dedup(all) && forall s :: s in seen <==> s in order
    ensures order' == Dedup(all + path) && forall s :: s in seen' <==> s in order'
  {
    order', seen' := order, seen;
    assert all + path[..0] == all;
    for k := 0 to |path|
      invariant order' == Dedup(all + path[..k])
      invariant forall s :: s in seen' <==> s in order'
    {
      assert all + path[..k + 1] == (all + path[..k]) + [path[k]];
      DedupSnoc(all + path[..k], path[k]);
      DedupElements(all + path[..k]);
      if path[k] !in seen' {
        seen' := seen' + {path[k]};
        order' := order' + [path[k]];
      }
    }
    assert path[..|path|] == path;
  }

  /** The unified exit set, innermost first. */
  method UnifiedExits(c: Chart, infos: seq<TransInfo>, ghost hops: seq<Hop>) returns (exitOrder: seq<StateID>)
    requires c.Linked() && InfosOf(c, hops, infos)
    ensures exitOrder == ExitOrder(c, hops)
  {
    var exitSeen: set<StateID> := {};
    exitOrder := [];
    for i := 0 to |infos|
      invariant exitOrder == Dedup(ExitList(c, hops[..i]))
      invariant forall s :: s in exitSeen <==> s in exitOrder
    {
      assert hops[..i + 1][..i] == hops[..i];
      assert InfoOf(c, hops[i], infos[i]);
      exitOrder, exitSeen := AppendUnseen(exitOrder, exitSeen, infos[i].exitPath, ExitList(c, hops[..i]));
    }
    assert hops[..|hops|] == hops;
    exitOrder := SortDeepestFirst(c, exitOrder);
  }

  /** A stable sort by depth; `SortByDepthSorts` leaves it no choice of result. */
  method SortDeepestFirst(c: Chart, s: seq<StateID>) returns (r: seq<StateID>)
    requires c.Linked()
    ensures r == SortByDepth(c, s)
  {
    r := [];
    for i := 0 to |s|
      invariant r == SortByDepth(c, s[..i])
    {
      assert s[..i + 1][..i] == s[..i];
      r := PutByDepth(c, r, s[i]);
    }
    assert s[..|s|] == s;
  }

  /** Behind everything at least as deep. */
  method PutByDepth(c: Chart, s: seq<StateID>, x: StateID) returns (r: seq<StateID>)
    requires c.Linked()
    ensures r == InsertByDepth(c, s, x)
  {
    var dx := Depth(c, x);
    var k := |s|;
    assert s[..k] == s && InsertByDepth(c, s, x) + [] == InsertByDepth(c, s, x);
    while k > 0
      invariant 0 <= k <= |s|
      invariant InsertByDepth(c, s, x) == InsertByDepth(c, s[..k], x) + s[k..]
    {
      var d := Depth(c, s[k - 1]);
      if d >= dx {
        break;
      }
      assert s[..k][..k - 1] == s[..k - 1] && [s[k - 1]] + s[k..] == s[k - 1..];
      k := k - 1;
    }
    r := s[..k] + [x] + s[k..];
  }

  lemma {:induction false} EntryPathsConcat(c: Chart, l: StateID, ts: seq<StateID>, paths: seq<seq<StateID>>)
    requires c.Linked() && |paths| == |ts|
    requires forall j :: 0 <= j < |ts| ==> paths[j] == Reverse(PathUp(c, ts[j], l))
    ensures EntryPaths(c, l, ts) == Concat(paths)
  {
    if ts != [] {
      EntryPathsConcat(c, l, ts[..|ts| - 1], paths[..|ts| - 1]);
    }
  }

  /** The entry paths of one transition. */
  method AppendPaths(paths: seq<seq<StateID>>, order: seq<StateID>, seen: set<StateID>, ghost known: seq<StateID>)
    returns (order': seq<StateID>, seen': set<StateID>)
    requires order == Dedup(known) && forall s :: s in seen <==> s in order
    ensures order' == Dedup(known + Concat(paths)) && forall s :: s in seen' <==> s in order'
  {
    order', seen' := order, seen;
    ghost var all := known;
    assert known + [] == known;
    for j := 0 to |paths|
      invariant all == known + Concat(paths[..j])
      invariant order' == Dedup(all) && forall s :: s in seen' <==> s in order'
    {
      ConcatNext(paths, j);
      order', seen' := AppendUnseen(order', seen', paths[j], all);
      all := all + paths[j];
    }
    assert paths[..|paths|] == paths;
  }

  /** The unified entry set, outermost first within each path. */
  method UnifiedEntries(c: Chart, infos: seq<TransInfo>, ghost hops: seq<Hop>) returns (entryOrder: seq<StateID>)
    requires c.Linked() && InfosOf(c, hops, infos)
    ensures entryOrder == EntryOrder(c, hops)
  {
    var entrySeen: set<StateID> := {};
    entryOrder := [];
    for i := 0 to |infos|
      invariant entryOrder == Dedup(EntryList(c, hops[..i]))
      invariant forall s :: s in entrySeen <==> s in entryOrder
    {
      assert InfoOf(c, hops[i], infos[i]);
      EntryPathsConcat(c, infos[i].lcca, infos[i].leafTargets, infos[i].entryPaths);
      entryOrder, entrySeen :=
        AppendPaths(infos[i].entryPaths, entryOrder, entrySeen, EntryList(c, hops[..i]));
      assert hops[..i + 1][..i] == hops[..i];
    }
    assert hops[..|hops|] == hops;
  }

  /** Each hopping leaf gives way to its targets, in place. */
  method ReplaceLeaves(c: Chart, leaves: seq<StateID>, infos: seq<TransInfo>, ghost hops: seq<Hop>)
    returns (newLeaves: seq<StateID>)
    requires c.Linked() && InfosOf(c, hops, infos)
    ensures newLeaves == NewLeaves(c, leaves, hops)
  {
    var sourceToInfo: map<StateID, TransInfo> := map[];
    for i := 0 to |infos|
      invariant forall s :: s in sourceToInfo <==> HopFrom(hops[..i], s).Some?
      invariant forall s :: s in sourceToInfo ==>
        sourceToInfo[s].leafTargets == LeafTargets(c, HopFrom(hops[..i], s).value.target)
    {
      assert hops[..i + 1][..i] == hops[..i];
      assert InfoOf(c, hops[i], infos[i]);
      sourceToInfo := sourceToInfo[infos[i].source := infos[i]];
    }
    assert hops[..|hops|] == hops;
    newLeaves := [];
    for i := 0 to |leaves|
      invariant newLeaves == NewLeaves(c, leaves[..i], hops)
    {
      assert leaves[..i + 1][..i] == leaves[..i];
      if leaves[i] in sourceToInfo {
        newLeaves := newLeaves + sourceToInfo[leaves[i]].leafTargets;
      } else {
        newLeaves := newLeaves + [leaves[i]];
      }
    }
    assert leaves[..|leaves|] == leaves;
  }

  method UnifiedEntryPaths(c: Chart, lcca: StateID, leaves: seq<StateID>) returns (result: seq<StateID>)
    requires c.Linked() && forall l :: l in leaves ==> c.IsAtomic(l)
    ensures result == Dedup(EntryPaths(c, lcca, leaves))
  {
    var seen: set<StateID> := {};
    result := [];
    for i := 0 to |leaves|
      invariant result == Dedup(EntryPaths(c, lcca, leaves[..i]))
      invariant forall s :: s in seen <==> s in result
    {
      assert leaves[..i + 1][..i] == leaves[..i];
      assert c.IsAtomic(leaves[i]);
      var path := EntryPath(c, lcca, leaves[i]);
      result, seen := AppendUnseen(result, seen, path, EntryPaths(c, lcca, leaves[..i]));
    }
    assert leaves[..|leaves|] == leaves;
  }

  // ---------------------------------------------------------------- transitions and actions

  /** Each action gets the context that the one before it left; what they raise is kept in order. */
  method RunActionList<C>(acts: seq<Action<C>>, ctx: C, ev: Event)
    returns (ctx': C, raised: seq<Event>, ghost cs: seq<C>, ghost rs: seq<seq<Event>>)
    ensures (ctx', raised) == RunActions(acts, ctx, ev)
    ensures Thread(acts, ev, cs, rs) && cs[0] == ctx && ctx' == cs[|acts|] && raised == Concat(rs)
  {
    ctx', raised := ctx, [];
    for i := 0 to |acts|
      invariant (ctx', raised) == RunActions(acts[..i], ctx, ev)
    {
      assert acts[..i + 1][..i] == acts[..i];
      var (c, more) := acts[i](ctx', ev);
      ctx', raised := c, raised + more;
    }
    assert acts[..|acts|] == acts;
    cs, rs := ActionsThread(acts, ctx, ev);
  }

  method InspectAll<C>(c: Chart, ghost leaves: seq<StateID>, pending: seq<Pending<C>>) returns (infos: seq<TransInfo>)
    requires c.Linked() && HopsFor(c, leaves, Hops(pending))
    ensures InfosOf(c, Hops(pending), infos)
  {
    ghost var hops := Hops(pending);
    HopsAt(pending);
    infos := [];
    for i := 0 to |pending|
      invariant |infos| == i
      invariant forall k :: 0 <= k < i ==> InfoOf(c, hops[k], infos[k])
    {
      assert hops[i] in hops;
      var info := Inspect(c, pending[i].source, pending[i].target);
      infos := infos + [info];
    }
  }

  /** The enabled transition of each leaf; a repeated leaf is covered once. */
  method CollectEnabled<C>(m: Machine<C>, leaves: seq<StateID>, ctx: C, ev: Event) returns (pending: seq<Pending<C>>)
    requires WellFormed(m)
    ensures pending == Enabled(m, leaves, ctx, ev)
  {
    pending := [];
    var covered: set<StateID> := {};
    for i := 0 to |leaves|
      invariant pending == Enabled(m, leaves[..i], ctx, ev)
      invariant forall s :: s in covered ==> s in leaves[..i]
      invariant forall s :: s in leaves[..i] && s !in covered ==> Resolve(m, s, ctx, ev).None?
    {
      assert leaves[..i + 1][..i] == leaves[..i];
      assert leaves[..i + 1] == leaves[..i] + [leaves[i]];
      if leaves[i] !in covered {
        var r := ResolveTransition(m, leaves[i], ctx, ev);
        if r.Some? {
          pending := pending + [Pending(leaves[i], r.value.target, r.value.actions)];
          covered := covered + {leaves[i]};
        }
      }
    }
    assert leaves[..|leaves|] == leaves;
  }

  // ---------------------------------------------------------------- done events

  method CompoundIsDone(c: Chart, leaves: seq<StateID>, id: StateID) returns (done: bool)
    requires c.Linked()
    ensures done <==> IsDone(c, leaves, id)
  {
    assert c.NodeOK(id) && c.NodeOK(ROOT);
    if !c.IsCompound(id) {
      return false;
    }
    if c.nodes[id].parallel {
      var kids := c.nodes[id].children;
      for k := 0 to |kids|
        invariant forall r :: 0 <= r < k ==> RegionDone(c, leaves, kids[r], Finals(c))
      {
        var regionDone := false;
        for i := 0 to |leaves|
          invariant !regionDone
          invariant forall j :: 0 <= j < i ==> !(c.Anc(kids[k], leaves[j]) && c.IsFinal(leaves[j]))
        {
          var below := IsDescendantOf(c, leaves[i], kids[k]);
          if (leaves[i] == kids[k] || below) && c.IsFinal(leaves[i]) {
            assert leaves[i] in leaves;
            regionDone := true;
            break;
          }
        }
        if !regionDone {
          assert kids[k] in kids;
          return false;
        }
      }
      return true;
    }
    assert leaves[0..] == leaves;
    for i := 0 to |leaves|
      invariant FirstUnderFinal(c, leaves, id, Finals(c)) <==> FirstUnderFinal(c, leaves[i..], id, Finals(c))
    {
      var below := IsDescendantOf(c, leaves[i], id);
      if below {
        return c.IsFinal(leaves[i]);
      }
      assert leaves[i..][1..] == leaves[i + 1..];
    }
    return false;
  }

  /** Everything above a checked state is checked. */
  ghost predicate UpwardClosed(c: Chart, checked: set<StateID>)
    requires c.Linked()
  {
    forall s :: s in checked ==> s in c.nodes && (c.Par(s) == ROOT || c.Par(s) in checked)
  }

  lemma {:induction false} ClosedAbove(c: Chart, checked: set<StateID>, s: StateID, x: StateID)
    requires c.Linked() && UpwardClosed(c, checked) && s in checked && x in PathUp(c, s, ROOT)
    ensures x in checked
    decreases c.Rank(s)
  {
    assert c.NodeOK(s) && c.NodeOK(ROOT);
    if x != s {
      ClosedAbove(c, checked, c.Par(s), x);
    }
  }

  /** The states checked so far, as a list, and the events raised for those that are done. */
  ghost predicate CheckedAs(c: Chart, leaves: seq<StateID>, checked: set<StateID>,
                            raised: seq<Event>, order: seq<StateID>)
    requires c.Linked()
  {
    && (forall s :: s in checked <==> s in order)
    && raised == DoneOf(c, leaves, order)
  }

  lemma CheckOne(c: Chart, leaves: seq<StateID>, checked: set<StateID>, raised: seq<Event>,
                 all: seq<StateID>, par: StateID)
    requires c.Linked() && CheckedAs(c, leaves, checked, raised, Dedup(all)) && par !in checked
    ensures CheckedAs(c, leaves, checked + {par},
                      raised + (if IsDone(c, leaves, par) then [DoneEvent(par)] else []),
                      Dedup(all + [par]))
  {
    DedupSnoc(all, par);
    DedupElements(all);
    assert (Dedup(all) + [par])[..|Dedup(all)|] == Dedup(all);
  }

  /** Above a checked state the walk finds nothing new. */
  lemma RestKnown(c: Chart, checked: set<StateID>, all: seq<StateID>, s: StateID)
    requires c.Linked() && UpwardClosed(c, checked) && (s == ROOT || s in checked)
    requires forall x :: x in checked <==> x in Dedup(all)
    ensures Dedup(all + PathUp(c, s, ROOT)) == Dedup(all)
  {
    assert c.NodeOK(ROOT);
    DedupElements(all);
    forall x | x in PathUp(c, s, ROOT) ensures x in all {
      ClosedAbove(c, checked, s, x);
    }
    DedupKnown(all, PathUp(c, s, ROOT));
  }

  /** Closed upwards, but for states whose parent is `q`. */
  ghost predicate ClosedBut(c: Chart, checked: set<StateID>, q: StateID)
    requires c.Linked()
  {
    forall s :: s in checked ==>
      s in c.nodes && (c.Par(s) == ROOT || c.Par(s) in checked || c.Par(s) == q)
  }

  lemma ClosedButNext(c: Chart, checked: set<StateID>, par: StateID)
    requires c.Linked() && ClosedBut(c, checked, par) && par in c.nodes
    ensures ClosedBut(c, checked + {par}, c.Par(par))
  {
  }

  /** Check one ancestor. */
  method CheckParent(c: Chart, leaves: seq<StateID>, par: StateID, checked: set<StateID>,
                     raised: seq<Event>, ghost all: seq<StateID>)
    returns (checked': set<StateID>, raised': seq<Event>)
    requires c.Linked() && par !in checked && CheckedAs(c, leaves, checked, raised, Dedup(all))
    ensures checked' == checked + {par}
    ensures CheckedAs(c, leaves, checked', raised', Dedup(all + [par]))
  {
    CheckOne(c, leaves, checked, raised, all, par);
    checked', raised' := checked + {par}, raised;
    var done := CompoundIsDone(c, leaves, par);
    if done {
      raised' := raised' + [DoneEvent(par)];
    }
  }

  lemma PathUpStep(c: Chart, cur: StateID, all: seq<StateID>)
    requires c.Linked() && cur in c.nodes && c.nodes[cur].parent.Some?
    ensures c.Par(cur) in c.nodes && c.Rank(c.Par(cur)) < c.Rank(cur)
    ensures all + PathUp(c, c.Par(cur), ROOT) ==
      (all + [c.Par(cur)]) + PathUp(c, c.Par(c.Par(cur)), ROOT)
  {
    assert c.NodeOK(cur) && c.NodeOK(ROOT) && c.NodeOK(c.Par(cur));
  }

  /** Walk up from `id` until a checked ancestor, checking each. */
  method CheckAncestors(c: Chart, leaves: seq<StateID>, id: StateID, checked: set<StateID>,
                        raised: seq<Event>, ghost known: seq<StateID>)
    returns (checked': set<StateID>, raised': seq<Event>)
    requires c.Linked() && id in c.nodes && UpwardClosed(c, checked)
    requires CheckedAs(c, leaves, checked, raised, Dedup(known))
    ensures UpwardClosed(c, checked')
    ensures CheckedAs(c, leaves, checked', raised', Dedup(known + PathUp(c, c.Par(id), ROOT)))
  {
    checked', raised' := checked, raised;
    var cur := id;
    ghost var all := known;
    while c.nodes[cur].parent.Some? && c.nodes[cur].parent.value !in checked'
      invariant cur in c.nodes
      invariant all + PathUp(c, c.Par(cur), ROOT) == known + PathUp(c, c.Par(id), ROOT)
      invariant CheckedAs(c, leaves, checked', raised', Dedup(all))
      invariant ClosedBut(c, checked', c.Par(cur))
      decreases c.Rank(cur)
    {
      PathUpStep(c, cur, all);
      cur := c.nodes[cur].parent.value;
      ClosedButNext(c, checked', cur);
      checked', raised' := CheckParent(c, leaves, cur, checked', raised', all);
      all := all + [cur];
    }
    RestKnown(c, checked', all, c.Par(cur));
  }

  /** For each entered state walk up until a checked ancestor; raise an event for each newly
      checked ancestor that is done. The early stop loses nothing. */
  method RaiseDoneEvents(c: Chart, leaves: seq<StateID>, entered: seq<StateID>) returns (raised: seq<Event>)
    requires c.Linked() && forall s :: s in entered ==> s in c.nodes
    ensures raised == DoneEvents(c, leaves, entered)
  {
    var checked: set<StateID> := {};
    raised := [];
    for i := 0 to |entered|
      invariant UpwardClosed(c, checked)
      invariant CheckedAs(c, leaves, checked, raised, Dedup(AncestorList(c, entered[..i])))
    {
      assert entered[..i + 1][..i] == entered[..i];
      checked, raised :=
        CheckAncestors(c, leaves, entered[i], checked, raised, AncestorList(c, entered[..i]));
    }
    assert entered[..|entered|] == entered;
  }
}
