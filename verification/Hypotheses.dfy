/** When steps are clean: the shapes of clean steps, why their hops act together, machines without
    parallel states, and the initial configuration. */
module Hypotheses {
  import opened Charts
  import opened Navigation
  import opened Configurations
  import opened Steps

  /** The hop stays inside one region of every parallel state. */
  ghost predicate RegionLocal(c: Chart, h: Hop)
    requires c.Linked()
  {
    TargetClean(c, h) && forall s :: Exits(c, h, s) ==> !c.IsAnd(s)
  }

  /** The hop leaves parallel states, together with every active leaf under them. */
  ghost predicate JointExit(c: Chart, leaves: seq<StateID>, hops: seq<Hop>, h: Hop)
    requires c.Linked()
  {
    && TargetClean(c, h)
    && (exists s :: Exits(c, h, s) && c.IsAnd(s))
    && forall l, s :: l in leaves && Exits(c, h, s) && c.IsAnd(s) && c.Anc(s, l) ==>
         Hop(l, h.target) in hops
  }

  /** Two active leaves part at a parallel state. */
  lemma LeavesPartAtAnd(c: Chart, leaves: seq<StateID>, x: StateID, y: StateID)
    requires c.Linked() && LeafList(c, leaves) && Legal(c, Active(c, leaves))
    requires x in leaves && y in leaves && x != y
    ensures c.IsAnd(LccaOf(c, x, y))
  {
    var p := LccaOf(c, x, y);
    LccaDeepest(c, x, y);
    if !c.IsAnd(p) {
      SameBranch(c, leaves, p, x, y);
      var t := Toward(c, p, x);
      if t == x { AtomicNoneBelow(c, x, y); }
      if t == y { AtomicNoneBelow(c, y, x); }
      assert c.Below(p, t);
      BelowRank(c, p, t);
      BelowRank(c, t, p);
    }
  }

  /** Leaving parallel states jointly, a hop leaves no active leaf behind anywhere. */
  lemma ShapeSourceClean(c: Chart, leaves: seq<StateID>, hops: seq<Hop>, h: Hop)
    requires c.Linked() && LeafList(c, leaves) && Legal(c, Active(c, leaves))
    requires HopsFor(c, leaves, hops) && h in hops
    requires RegionLocal(c, h) || JointExit(c, leaves, hops, h)
    ensures SourceClean(c, leaves, hops, h)
  {
    forall l, s | l in leaves && Exits(c, h, s) && c.Anc(s, l) ensures Hop(l, h.target) in hops {
      if l != h.source {
        var p := LccaOf(c, l, h.source);
        LeavesPartAtAnd(c, leaves, l, h.source);
        LccaDeepest(c, l, h.source);
        ExitsMeaning(c, h, s);
        ExitsMeaning(c, h, p);
        if s == l { AtomicNoneBelow(c, l, h.source); }
        if s == h.source { AtomicNoneBelow(c, h.source, l); }
        if s != p { BelowTrans(c, LccaOfHop(c, h), s, p); }
        assert Exits(c, h, p) && c.Anc(p, l);
      }
    }
  }

  /** Clean steps are those made of region-local hops, joint exits and joint restarts. */
  lemma CleanStepShapes(c: Chart, leaves: seq<StateID>, hops: seq<Hop>)
    requires c.Linked() && LeafList(c, leaves) && Legal(c, Active(c, leaves))
    requires HopsFor(c, leaves, hops)
    ensures CleanStep(c, leaves, hops) <==>
      forall h :: h in hops ==>
        RegionLocal(c, h) || JointExit(c, leaves, hops, h) || JointRestart(c, leaves, hops, h)
  {
    forall h | h in hops
      ensures HopClean(c, leaves, hops, h) <==>
        RegionLocal(c, h) || JointExit(c, leaves, hops, h) || JointRestart(c, leaves, hops, h)
    {
      if RegionLocal(c, h) || JointExit(c, leaves, hops, h) {
        ShapeSourceClean(c, leaves, hops, h);
      }
    }
  }

  // ---------------------------------------------------------------- clean steps are joint steps

  /** A hop from below the LCCA of a clean hop that does not merely stay has its target. */
  lemma CleanGroup(c: Chart, leaves: seq<StateID>, hops: seq<Hop>, h: Hop, g: Hop)
    requires c.Linked() && Legitimate(c, leaves, hops) && CleanStep(c, leaves, hops)
    requires h in hops && g in hops && !Stays(c, h) && c.Below(LccaOfHop(c, h), g.source)
    ensures g.target == h.target
  {
    ZoneLeaf(c, leaves, hops, h, g.source);
    HopFromUnique(c, leaves, hops, g);
    HopFromUnique(c, leaves, hops, Hop(g.source, h.target));
  }

  lemma CleanTogether(c: Chart, leaves: seq<StateID>, hops: seq<Hop>)
    requires c.Linked() && Legitimate(c, leaves, hops) && CleanStep(c, leaves, hops)
    ensures Together(c, leaves, hops)
  {
    forall h, l | h in hops && l in leaves && InReach(c, hops, LccaOfHop(c, h), l)
      ensures Takes(c, hops, l, LccaOfHop(c, h))
    {
      if g :| g in hops && LccaOfHop(c, g) == LccaOfHop(c, h) && !Stays(c, g) {
        ZoneLeaf(c, leaves, hops, g, l);
        assert Hop(l, g.target).source == l;
      }
    }
  }

  lemma CleanNoneAstray(c: Chart, leaves: seq<StateID>, hops: seq<Hop>)
    requires c.Linked() && Legitimate(c, leaves, hops) && CleanStep(c, leaves, hops)
    ensures NoneAstray(c, hops)
  {
    forall h, t | h in hops && t in LeafTargets(c, h.target) ensures c.Below(LccaOfHop(c, h), t) {
      assert HopClean(c, leaves, hops, h);
      TargetsBelowLcca(c, h, t);
    }
  }

  /** Clean hops with one LCCA that do not all stay bring the default leaves of one target. */
  lemma CleanBrings(c: Chart, leaves: seq<StateID>, hops: seq<Hop>, g: Hop)
    requires c.Linked() && Legitimate(c, leaves, hops) && CleanStep(c, leaves, hops) && g in hops && !Stays(c, g)
    ensures Brought(c, hops, LccaOfHop(c, g)) == Active(c, LeafTargets(c, g.target))
  {
    forall s ensures Brings(c, hops, LccaOfHop(c, g), s) <==> IsActive(c, LeafTargets(c, g.target), s) {
      if k :| k in hops && LccaOfHop(c, k) == LccaOfHop(c, g) && IsActive(c, LeafTargets(c, k.target), s) {
        LccaOfHopAbove(c, k);
        CleanGroup(c, leaves, hops, g, k);
      }
    }
  }

  /** The default leaves of a clean target complete its LCCA and what is entered below it. */
  lemma TargetCompletes(c: Chart, h: Hop, s: StateID)
    requires c.Linked() && HopOK(c, h) && TargetOK(c, h) && !Stays(c, h)
    requires s == LccaOfHop(c, h) || (c.Below(LccaOfHop(c, h), s) && s in Active(c, LeafTargets(c, h.target)))
    ensures var part := Active(c, LeafTargets(c, h.target));
      ChildrenOK(c, part, s) && (s == ROOT ==> OneChild(c, part, s))
  {
    assert c.NodeOK(ROOT);
    EntersMeaning(c, h, s);
    EnteredComplete(c, h, s);
  }

  lemma CleanCompletes(c: Chart, leaves: seq<StateID>, hops: seq<Hop>, g: Hop)
    requires c.Linked() && Legitimate(c, leaves, hops) && CleanStep(c, leaves, hops) && g in hops && !Stays(c, g)
    ensures Completes(c, hops, LccaOfHop(c, g))
  {
    var p := LccaOfHop(c, g);
    assert HopClean(c, leaves, hops, g);
    CleanBrings(c, leaves, hops, g);
    TargetCompletes(c, g, p);
    forall s | s in Brought(c, hops, p) && c.Below(p, s) ensures ChildrenOK(c, Brought(c, hops, p), s) {
      TargetCompletes(c, g, s);
    }
  }

  lemma CleanInOrder(c: Chart, leaves: seq<StateID>, hops: seq<Hop>)
    requires c.Linked() && Legitimate(c, leaves, hops) && CleanStep(c, leaves, hops)
    ensures InOrder(c, hops)
  {
    forall g, h, v, u |
      g in hops && h in hops && LccaOfHop(c, g) == LccaOfHop(c, h) && c.Rank(g.source) < c.Rank(h.source)
      && v in LeafTargets(c, g.target) && u in LeafTargets(c, h.target)
      ensures c.Rank(v) < c.Rank(u) || BroughtBefore(c, hops, LccaOfHop(c, h), h.source, u)
    {
      LccaOfHopAbove(c, g);
      LccaOfHopAbove(c, h);
      if !Stays(c, g) {
        CleanGroup(c, leaves, hops, g, h);
      } else if !Stays(c, h) {
        CleanGroup(c, leaves, hops, h, g);
      } else {
        AndZone(c, g, v);
        AndZone(c, h, u);
      }
    }
  }

  /** The hops of a clean step act together, complete what they change and stay in order. */
  lemma CleanIsJoint(c: Chart, leaves: seq<StateID>, hops: seq<Hop>)
    requires c.Linked() && Legitimate(c, leaves, hops) && CleanStep(c, leaves, hops)
    ensures JointStep(c, leaves, hops) && InOrder(c, hops)
  {
    CleanTogether(c, leaves, hops);
    CleanNoneAstray(c, leaves, hops);
    CleanInOrder(c, leaves, hops);
    forall h | h in hops ensures Completes(c, hops, LccaOfHop(c, h)) {
      if g :| g in hops && LccaOfHop(c, g) == LccaOfHop(c, h) && !Stays(c, g) {
        CleanCompletes(c, leaves, hops, g);
      }
    }
  }

  // ---------------------------------------------------------------- no parallel states

  ghost predicate NoParallel(c: Chart) {
    forall a :: !c.IsAnd(a)
  }

  /** Without parallel states there is one active leaf, and every step is clean. */
  lemma NoParallelOneLeaf(c: Chart, leaves: seq<StateID>, hops: seq<Hop>)
    requires c.Linked() && NoParallel(c) && LeafList(c, leaves) && Legal(c, Active(c, leaves))
    requires HopsFor(c, leaves, hops)
    ensures forall l :: l in leaves ==> l == leaves[0]
    ensures CleanStep(c, leaves, hops)
  {
    forall l | l in leaves ensures l == leaves[0] {
      if l != leaves[0] {
        LeavesPartAtAnd(c, leaves, l, leaves[0]);
      }
    }
    forall h | h in hops ensures HopClean(c, leaves, hops, h) {
    }
  }

  /** The default leaves of a state form a legal configuration exactly when no proper ancestor
      of the state is parallel. */
  lemma InitialLegal(c: Chart, d: StateID)
    requires c.WF() && d in c.nodes
    ensures Legal(c, Active(c, LeafTargets(c, d))) <==> forall a :: c.Below(a, d) ==> !c.IsAnd(a)
    ensures LeafList(c, LeafTargets(c, d)) && FirstsIncrease(c, LeafTargets(c, d))
  {
    var ts := LeafTargets(c, d);
    LeafTargetFirst(c, d);
    forall t | t in ts ensures c.IsAtomic(t) && c.Anc(d, t) { LeafTargetsAtomic(c, d, t); }
    LeafTargetsIncreasing(c, d);
    if forall a :: c.Below(a, d) ==> !c.IsAnd(a) {
      InitialIsLegal(c, d);
    }
    if a :| c.Below(a, d) && c.IsAnd(a) && Legal(c, Active(c, ts)) {
      InitialInsideRegion(c, d, a);
    }
  }

  lemma InitialIsLegal(c: Chart, d: StateID)
    requires c.WF() && d in c.nodes
    requires forall a :: c.Below(a, d) ==> !c.IsAnd(a)
    ensures Legal(c, Active(c, LeafTargets(c, d)))
  {
    var ts := LeafTargets(c, d);
    var conf := Active(c, ts);
    assert c.NodeOK(ROOT);
    forall p | p == ROOT || p in conf
      ensures ChildrenOK(c, conf, p) && (p == ROOT ==> OneChild(c, conf, p))
    {
      LeafTargetFirst(c, d);
      if c.Anc(d, p) {
        Completion(c, d, p);
      } else {
        assert c.Below(p, d) by {
          if p == ROOT {
            RootAboveAll(c, d);
          } else {
            var t :| t in ts && c.Anc(p, t);
            LeafTargetsAtomic(c, d, t);
            AncLinear(c, p, d, t);
          }
        }
        var ch := Toward(c, p, d);
        forall x | x in ts ensures c.Anc(ch, x) {
          LeafTargetsAtomic(c, d, x);
          if ch != d { BelowTrans(c, ch, d, x); }
        }
        OnlyToward(c, ts, p, ch);
      }
    }
    ActiveClosed(c, ts);
  }

  /** Some child of a parallel state is not the one towards a given state below it. */
  lemma OtherRegion(c: Chart, a: StateID, s: StateID) returns (r: StateID)
    requires c.Linked() && c.IsAnd(a) && c.Below(a, s)
    ensures c.IsChild(a, r) && r != Toward(c, a, s)
  {
    assert c.NodeOK(a) && c.NodeOK(ROOT);
    var kids := c.nodes[a].children;
    ListedChild(c, a, kids[0]);
    ListedChild(c, a, kids[1]);
    assert c.Rank(kids[0]) < c.Rank(kids[1]);
    r := if kids[0] == Toward(c, a, s) then kids[1] else kids[0];
  }

  lemma InitialInsideRegion(c: Chart, d: StateID, a: StateID)
    requires c.WF() && d in c.nodes && c.Below(a, d) && c.IsAnd(a)
    ensures !Legal(c, Active(c, LeafTargets(c, d)))
  {
    var ts := LeafTargets(c, d);
    if Legal(c, Active(c, ts)) {
      var r := OtherRegion(c, a, d);
      LeafTargetFirst(c, d);
      LeafTargetsAtomic(c, d, ts[0]);
      BelowTrans(c, a, d, ts[0]);
      assert a in Active(c, ts);
      assert ChildrenOK(c, Active(c, ts), a);
      var t :| t in ts && c.Anc(r, t);
      LeafTargetsAtomic(c, d, t);
      TowardUnique(c, a, r, t);
      if Toward(c, a, d) != d { BelowTrans(c, Toward(c, a, d), d, t); }
      TowardUnique(c, a, Toward(c, a, d), t);
    }
  }
}
