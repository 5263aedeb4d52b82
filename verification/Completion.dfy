/** Done events: each completed ancestor of an entered state gets exactly one, nothing else does,
    and when "completed" means that all active leaves inside are final. */
module Completion {
  import opened Seqs
  import opened Charts
  import opened Navigation
  import opened Configurations
  import opened Hypotheses
  import opened Machines
  import opened Interpreter

  // ---------------------------------------------------------------- which events are raised

  lemma {:induction false} AncestorListElements(c: Chart, entered: seq<StateID>, a: StateID)
    requires c.Linked() && forall s :: s in entered ==> s in c.nodes
    ensures a in AncestorList(c, entered) <==> a != ROOT && exists s :: s in entered && c.Below(a, s)
  {
    if entered != [] {
      var front, x := entered[..|entered| - 1], entered[|entered| - 1];
      assert entered == front + [x];
      assert x in entered;
      AncestorListElements(c, front, a);
      assert c.NodeOK(x) && c.NodeOK(ROOT);
      if c.Par(x) != ROOT {
        PathUpAll(c, c.Par(x), a);
        assert a in c.nodes ==> (c.Below(a, x) <==> c.Anc(a, c.Par(x)));
        if a != ROOT && c.Below(a, x) { BelowRank(c, a, x); }
      }
      if s :| s in entered && c.Below(a, s) && a != ROOT { assert s in front || s == x; }
    }
  }

  lemma DoneEventInjective(a: StateID, b: StateID)
    ensures DoneEvent(a) == DoneEvent(b) <==> a == b
  {
    var p := "done.state.";
    assert a == (p + a)[|p|..] && b == (p + b)[|p|..];
  }

  lemma DoneOfLast(c: Chart, leaves: seq<StateID>, ids: seq<StateID>, e: Event)
    requires c.Linked() && ids != []
    ensures var x := ids[|ids| - 1];
      Count(DoneOf(c, leaves, ids), e) ==
        Count(DoneOf(c, leaves, ids[..|ids| - 1]), e) + if IsDone(c, leaves, x) && DoneEvent(x) == e then 1 else 0
  {
    var done, x := DoneOf(c, leaves, ids[..|ids| - 1]), ids[|ids| - 1];
    assert done + [] == done;
    CountSnoc(done, DoneEvent(x), e);
  }

  lemma {:induction false} DoneOfCount(c: Chart, leaves: seq<StateID>, ids: seq<StateID>, a: StateID)
    requires c.Linked() && Distinct(ids)
    ensures Count(DoneOf(c, leaves, ids), DoneEvent(a)) == if a in ids && IsDone(c, leaves, a) then 1 else 0
  {
    if ids != [] {
      var front, x := ids[..|ids| - 1], ids[|ids| - 1];
      DoneOfCount(c, leaves, front, a);
      assert ids == front + [x];
      DoneOfLast(c, leaves, ids, DoneEvent(a));
      DoneEventInjective(x, a);
    }
  }

  lemma {:induction false} DoneOfSource(c: Chart, leaves: seq<StateID>, ids: seq<StateID>, e: Event)
    requires c.Linked() && e in DoneOf(c, leaves, ids)
    ensures exists id :: id in ids && e == DoneEvent(id)
  {
    var front, x := ids[..|ids| - 1], ids[|ids| - 1];
    assert x in ids && forall id :: id in front ==> id in ids;
    if e in DoneOf(c, leaves, front) {
      DoneOfSource(c, leaves, front, e);
    }
  }

  /** One event for each completed proper ancestor of an entered state and nothing else: stopping
      the upward walk at a checked state loses none. */
  lemma DoneEventsExact(c: Chart, leaves: seq<StateID>, entered: seq<StateID>, a: StateID)
    requires c.Linked() && forall s :: s in entered ==> s in c.nodes
    ensures Count(DoneEvents(c, leaves, entered), Event("done.state." + a, [])) ==
      if IsDone(c, leaves, a) && exists s :: s in entered && c.Below(a, s) then 1 else 0
    ensures forall e :: e in DoneEvents(c, leaves, entered) ==>
      exists id :: id in c.nodes && e == Event("done.state." + id, [])
  {
    var all := AncestorList(c, entered);
    DedupElements(all);
    AncestorListElements(c, entered, a);
    DoneOfCount(c, leaves, Dedup(all), a);
    assert c.NodeOK(ROOT);
    forall e | e in DoneEvents(c, leaves, entered)
      ensures exists id :: id in c.nodes && e == Event("done.state." + id, [])
    {
      DoneOfSource(c, leaves, Dedup(all), e);
      var id :| id in Dedup(all) && e == DoneEvent(id);
      AncestorListElements(c, entered, id);
      var s :| s in entered && c.Below(id, s);
      BelowRank(c, id, s);
    }
  }

  /** When a state counts as done: a parallel state when each child has a final active leaf at or
      below it, another state with children when the first active leaf below it is final. */
  lemma DoneExactly(c: Chart, leaves: seq<StateID>, id: StateID)
    requires c.Linked()
    ensures IsDone(c, leaves, id) <==>
      && id in c.nodes && c.nodes[id].children != []
      && if c.nodes[id].parallel then
           forall r :: r in c.nodes[id].children ==>
             exists l :: l in leaves && c.Anc(r, l) && l in c.nodes && c.nodes[l].final
         else
           exists i :: 0 <= i < |leaves| && FirstBelow(c, leaves, id, i) && c.nodes[leaves[i]].final
  {
    if id in c.nodes && c.nodes[id].parallel {
      forall r ensures RegionDone(c, leaves, r, Finals(c)) <==>
        exists l :: l in leaves && c.Anc(r, l) && l in c.nodes && c.nodes[l].final
      {
      }
    } else {
      FirstFinalExactly(c, leaves, id);
    }
  }

  /** `leaves[i]` is the first of them below `id`. */
  ghost predicate FirstBelow(c: Chart, leaves: seq<StateID>, id: StateID, i: nat)
    requires c.Linked() && i < |leaves|
  {
    c.Below(id, leaves[i]) && forall j :: 0 <= j < i ==> !c.Below(id, leaves[j])
  }

  lemma {:induction false} FirstFinalExactly(c: Chart, leaves: seq<StateID>, id: StateID)
    requires c.Linked()
    ensures FirstUnderFinal(c, leaves, id, Finals(c)) <==>
      exists i :: 0 <= i < |leaves| && FirstBelow(c, leaves, id, i) && c.nodes[leaves[i]].final
  {
    if leaves != [] {
      var rest := leaves[1..];
      FirstFinalExactly(c, rest, id);
      assert FirstBelow(c, leaves, id, 0) <==> c.Below(id, leaves[0]);
      if !c.Below(id, leaves[0]) {
        forall i | 0 <= i < |rest| ensures FirstBelow(c, rest, id, i) <==> FirstBelow(c, leaves, id, i + 1) {
          assert forall j :: 0 <= j < |rest| ==> rest[j] == leaves[j + 1];
          assert forall j :: 0 < j < |leaves| ==> leaves[j] == rest[j - 1];
        }
        if i :| 0 <= i < |rest| && FirstBelow(c, rest, id, i) && c.nodes[rest[i]].final {
          assert FirstBelow(c, leaves, id, i + 1) && leaves[i + 1] == rest[i];
        }
        if i :| 0 <= i < |leaves| && FirstBelow(c, leaves, id, i) && c.nodes[leaves[i]].final {
          assert FirstBelow(c, rest, id, i - 1) && leaves[i] == rest[i - 1];
        }
      }
    }
  }

  // ---------------------------------------------------------------- what completed means

  /** All active leaves inside `id` are final, and there are some. */
  ghost predicate Complete(c: Chart, leaves: seq<StateID>, id: StateID, finals: set<StateID>)
    requires c.Linked()
  {
    && (exists l :: l in leaves && c.Below(id, l))
    && forall l :: l in leaves && c.Below(id, l) ==> l in finals
  }

  /** No parallel state is active inside `id`. */
  ghost predicate NoAndInside(c: Chart, leaves: seq<StateID>, id: StateID)
    requires c.Linked()
  {
    forall a :: a in Active(c, leaves) && c.Below(id, a) ==> !c.IsAnd(a)
  }

  lemma {:induction false} FirstUnder(c: Chart, leaves: seq<StateID>, id: StateID) returns (x: StateID)
    requires c.Linked() && exists l :: l in leaves && c.Below(id, l)
    ensures x in leaves && c.Below(id, x)
    ensures forall finals :: FirstUnderFinal(c, leaves, id, finals) <==> x in finals
  {
    if c.Below(id, leaves[0]) {
      x := leaves[0];
    } else {
      var l :| l in leaves && c.Below(id, l);
      assert leaves == [leaves[0]] + leaves[1..];
      assert l in leaves[1..];
      x := FirstUnder(c, leaves[1..], id);
    }
  }

  /** Two active leaves at or below one child of `id`, when no parallel state is active inside. */
  lemma OneLeafPerChild(c: Chart, leaves: seq<StateID>, id: StateID, r: StateID, x: StateID, y: StateID)
    requires c.Linked() && LeafList(c, leaves) && Legal(c, Active(c, leaves)) && NoAndInside(c, leaves, id)
    requires c.IsChild(id, r) && id in c.nodes && x in leaves && y in leaves && c.Anc(r, x) && c.Anc(r, y)
    ensures x == y
  {
    if x != y {
      var p := LccaOf(c, x, y);
      LccaDeepest(c, x, y);
      if r == x { AtomicNoneBelow(c, x, y); }
      if r == y { AtomicNoneBelow(c, y, x); }
      assert p == r || c.Below(r, p);
      assert c.NodeOK(ROOT);
      BelowTrans(c, id, r, p);
      assert p in Active(c, leaves);
      LeavesPartAtAnd(c, leaves, x, y);
    }
  }

  /** An active compound state has an active leaf inside. */
  lemma LeafInside(c: Chart, leaves: seq<StateID>, id: StateID) returns (l: StateID)
    requires c.Linked() && LeafList(c, leaves) && id in Active(c, leaves) && c.IsCompound(id)
    ensures l in leaves && c.Below(id, l)
  {
    l :| l in leaves && c.Anc(id, l);
  }

  lemma DoneOrIsComplete(c: Chart, leaves: seq<StateID>, id: StateID, finals: set<StateID>)
    requires c.Linked() && LeafList(c, leaves) && Legal(c, Active(c, leaves))
    requires id in Active(c, leaves) && c.IsCompound(id) && !c.IsAnd(id) && NoAndInside(c, leaves, id)
    ensures DoneBy(c, leaves, id, finals) <==> Complete(c, leaves, id, finals)
  {
    var l := LeafInside(c, leaves, id);
    var x := FirstUnder(c, leaves, id);
    forall y | y in leaves && c.Below(id, y) ensures y == x {
      SameBranch(c, leaves, id, x, y);
      OneLeafPerChild(c, leaves, id, Toward(c, id, x), x, y);
    }
  }

  lemma DoneAndIsComplete(c: Chart, leaves: seq<StateID>, id: StateID, finals: set<StateID>)
    requires c.Linked() && LeafList(c, leaves) && Legal(c, Active(c, leaves))
    requires id in Active(c, leaves) && c.IsAnd(id) && NoAndInside(c, leaves, id)
    ensures DoneBy(c, leaves, id, finals) <==> Complete(c, leaves, id, finals)
  {
    var conf := Active(c, leaves);
    var l := LeafInside(c, leaves, id);
    assert ChildrenOK(c, conf, id) && c.NodeOK(ROOT);
    if DoneBy(c, leaves, id, finals) {
      forall y | y in leaves && c.Below(id, y) ensures y in finals {
        var r := Toward(c, id, y);
        ChildListed(c, id, r);
        assert RegionDone(c, leaves, r, finals);
        var x :| x in leaves && c.Anc(r, x) && x in finals;
        OneLeafPerChild(c, leaves, id, r, x, y);
      }
    }
    if Complete(c, leaves, id, finals) {
      forall r | r in c.nodes[id].children ensures RegionDone(c, leaves, r, finals) {
        ListedChild(c, id, r);
        assert c.IsChild(id, r) && r in conf;
        var x :| x in leaves && c.Anc(r, x);
        BelowTrans(c, id, r, x);
      }
    }
  }

  /** Two different active leaves inside an active parallel state. */
  lemma TwoInside(c: Chart, leaves: seq<StateID>, a: StateID) returns (x: StateID, y: StateID)
    requires c.Linked() && Legal(c, Active(c, leaves)) && a in Active(c, leaves) && c.IsAnd(a)
    ensures x in leaves && y in leaves && x != y && c.Below(a, x) && c.Below(a, y)
  {
    var conf := Active(c, leaves);
    assert c.NodeOK(a) && ChildrenOK(c, conf, a) && c.NodeOK(ROOT);
    var kids := c.nodes[a].children;
    ListedChild(c, a, kids[0]);
    ListedChild(c, a, kids[1]);
    assert kids[0] in conf && kids[1] in conf;
    assert c.Rank(kids[0]) < c.Rank(kids[1]);
    x :| x in leaves && c.Anc(kids[0], x);
    y :| y in leaves && c.Anc(kids[1], y);
    TowardUnique(c, a, kids[0], x);
    TowardUnique(c, a, kids[1], y);
  }

  /** A parallel state active inside `id`: for some choice of final states, `id` is done though
      an active leaf inside is not final. */
  lemma InsideBreaks(c: Chart, leaves: seq<StateID>, id: StateID, a: StateID) returns (finals: set<StateID>)
    requires c.Linked() && LeafList(c, leaves) && Legal(c, Active(c, leaves))
    requires id in Active(c, leaves) && c.IsCompound(id)
    requires a in Active(c, leaves) && c.Below(id, a) && c.IsAnd(a)
    ensures DoneBy(c, leaves, id, finals) && !Complete(c, leaves, id, finals)
  {
    var x, y := TwoInside(c, leaves, a);
    assert c.NodeOK(ROOT);
    BelowTrans(c, id, a, x);
    BelowTrans(c, id, a, y);
    if c.IsAnd(id) {
      finals := (set l | l in leaves) - {x};
      assert ChildrenOK(c, Active(c, leaves), id);
      forall r | r in c.nodes[id].children ensures RegionDone(c, leaves, r, finals) {
        ListedChild(c, id, r);
        assert c.IsChild(id, r) && r in Active(c, leaves);
        if r == Toward(c, id, a) {
          if r != a { BelowTrans(c, r, a, y); }
          assert y in leaves && c.Anc(r, y) && y in finals;
        } else {
          var l :| l in leaves && c.Anc(r, l);
          if l == x {
            TowardUnique(c, id, r, x);
            var t := Toward(c, id, a);
            if t != a { BelowTrans(c, t, a, x); }
            TowardUnique(c, id, t, x);
          }
          assert l in finals;
        }
      }
    } else {
      var f := FirstUnder(c, leaves, id);
      finals := {f};
    }
  }

  /** In a legal configuration: the code's test says "all active leaves inside are final",
      whichever states are final, exactly when no parallel state is active strictly inside. */
  lemma DoneMeansComplete(c: Chart, leaves: seq<StateID>, id: StateID)
    requires c.Linked() && LeafList(c, leaves) && Legal(c, Active(c, leaves))
    requires id in Active(c, leaves) && c.IsCompound(id)
    ensures (forall finals :: DoneBy(c, leaves, id, finals) <==> Complete(c, leaves, id, finals))
      <==> NoAndInside(c, leaves, id)
  {
    if NoAndInside(c, leaves, id) {
      forall finals ensures DoneBy(c, leaves, id, finals) <==> Complete(c, leaves, id, finals) {
        if c.IsAnd(id) {
          DoneAndIsComplete(c, leaves, id, finals);
        } else {
          DoneOrIsComplete(c, leaves, id, finals);
        }
      }
    } else {
      var a :| a in Active(c, leaves) && c.Below(id, a) && c.IsAnd(a);
      var finals := InsideBreaks(c, leaves, id, a);
    }
  }

  /** A completed state always counts as done; only the converse needs the condition. */
  lemma CompleteIsDone(c: Chart, leaves: seq<StateID>, id: StateID, finals: set<StateID>)
    requires c.Linked() && LeafList(c, leaves) && Legal(c, Active(c, leaves))
    requires id in Active(c, leaves) && c.IsCompound(id) && Complete(c, leaves, id, finals)
    ensures DoneBy(c, leaves, id, finals)
  {
    assert ChildrenOK(c, Active(c, leaves), id) && c.NodeOK(ROOT);
    if c.IsAnd(id) {
      forall r | r in c.nodes[id].children ensures RegionDone(c, leaves, r, finals) {
        ListedChild(c, id, r);
        assert c.IsChild(id, r) && r in Active(c, leaves);
        var x :| x in leaves && c.Anc(r, x);
        BelowTrans(c, id, r, x);
      }
    } else {
      var x := FirstUnder(c, leaves, id);
    }
  }
}
