/** What a microstep does whose hops act together: it keeps the configuration legal, keeps the
    leaves in definition order, and changes the configuration by exactly its exit set and its
    entry set. */
module Steps {
  import opened Seqs
  import opened Charts
  import opened Navigation
  import opened Configurations

  // ---------------------------------------------------------------- the new leaf list

  lemma {:induction false} HopFromFound(hops: seq<Hop>, leaf: StateID)
    ensures var o := HopFrom(hops, leaf);
      && (o.Some? ==> o.value in hops && o.value.source == leaf)
      && (o.None? ==> forall h :: h in hops ==> h.source != leaf)
  {
    if hops != [] {
      HopFromFound(hops[..|hops| - 1], leaf);
      assert hops == hops[..|hops| - 1] + [hops[|hops| - 1]];
    }
  }

  lemma HopFromUnique(c: Chart, leaves: seq<StateID>, hops: seq<Hop>, h: Hop)
    requires HopsFor(c, leaves, hops) && h in hops
    ensures HopFrom(hops, h.source) == Some(h)
  {
    HopFromFound(hops, h.source);
  }

  lemma {:induction false} NewLeavesElements(c: Chart, leaves: seq<StateID>, hops: seq<Hop>, x: StateID)
    requires c.Linked()
    ensures x in NewLeaves(c, leaves, hops) <==> exists l :: l in leaves && x in Image(c, l, hops)
  {
    if leaves != [] {
      var front, last := leaves[..|leaves| - 1], leaves[|leaves| - 1];
      NewLeavesElements(c, front, hops, x);
      assert leaves == front + [last];
    }
  }

  lemma ImageOfHop(c: Chart, leaves: seq<StateID>, hops: seq<Hop>, h: Hop)
    requires c.Linked() && HopsFor(c, leaves, hops) && h in hops
    ensures Image(c, h.source, hops) == LeafTargets(c, h.target)
  {
    HopFromUnique(c, leaves, hops, h);
  }

  /** Whatever the machine and the hops, a leaf list stays a leaf list. */
  lemma NewLeafList(c: Chart, leaves: seq<StateID>, hops: seq<Hop>)
    requires c.Linked() && LeafList(c, leaves) && HopsFor(c, leaves, hops)
    ensures LeafList(c, NewLeaves(c, leaves, hops))
  {
    var new' := NewLeaves(c, leaves, hops);
    forall x | x in new' ensures c.IsAtomic(x) {
      NewLeavesElements(c, leaves, hops, x);
      var l :| l in leaves && x in Image(c, l, hops);
      HopFromFound(hops, l);
      var o := HopFrom(hops, l);
      if o.Some? { LeafTargetsAtomic(c, o.value.target, x); }
    }
    var first := leaves[0];
    HopFromFound(hops, first);
    if HopFrom(hops, first).Some? { LeafTargetFirst(c, HopFrom(hops, first).value.target); }
    var x := Image(c, first, hops)[0];
    assert first in leaves && x in Image(c, first, hops);
    NewLeavesElements(c, leaves, hops, x);
  }

  lemma ActiveAfter(c: Chart, leaves: seq<StateID>, hops: seq<Hop>, s: StateID)
    requires c.Linked() && HopsFor(c, leaves, hops)
    ensures IsActive(c, NewLeaves(c, leaves, hops), s) <==>
      || (exists l :: l in leaves && HopFrom(hops, l).None? && c.Anc(s, l))
      || (exists h :: h in hops && IsActive(c, LeafTargets(c, h.target), s))
  {
    var new' := NewLeaves(c, leaves, hops);
    if IsActive(c, new', s) {
      var x :| x in new' && c.Anc(s, x);
      NewLeavesElements(c, leaves, hops, x);
      var l :| l in leaves && x in Image(c, l, hops);
      HopFromFound(hops, l);
      if HopFrom(hops, l).Some? {
        assert IsActive(c, LeafTargets(c, HopFrom(hops, l).value.target), s);
      }
    }
    if l :| l in leaves && HopFrom(hops, l).None? && c.Anc(s, l) {
      assert l in Image(c, l, hops);
      NewLeavesElements(c, leaves, hops, l);
    }
    if h :| h in hops && IsActive(c, LeafTargets(c, h.target), s) {
      var t :| t in LeafTargets(c, h.target) && c.Anc(s, t);
      ImageOfHop(c, leaves, hops, h);
      assert h.source in leaves && t in Image(c, h.source, hops);
      NewLeavesElements(c, leaves, hops, t);
    }
  }

  // ---------------------------------------------------------------- hops that act together

  /** All hops with LCCA `p` are self-transitions of leaves that are regions of it. */
  ghost predicate OnlyStays(c: Chart, hops: seq<Hop>, p: StateID)
    requires c.Linked()
  {
    forall g :: g in hops && LccaOfHop(c, g) == p ==> Stays(c, g)
  }

  ghost predicate Takes(c: Chart, hops: seq<Hop>, l: StateID, p: StateID)
    requires c.Linked()
  {
    exists g :: g in hops && g.source == l && LccaOfHop(c, g) == p
  }

  /** What the hops with LCCA `p` may change: everything below it, or only their sources if they
      all stay. */
  ghost predicate InReach(c: Chart, hops: seq<Hop>, p: StateID, s: StateID)
    requires c.Linked()
  {
    c.Below(p, s) && (OnlyStays(c, hops, p) ==> Takes(c, hops, s, p))
  }

  /** An active leaf that hops may change hops too, with their LCCA. */
  ghost predicate Together(c: Chart, leaves: seq<StateID>, hops: seq<Hop>)
    requires c.Linked()
  {
    forall h, l :: h in hops && l in leaves && InReach(c, hops, LccaOfHop(c, h), l) ==>
      Takes(c, hops, l, LccaOfHop(c, h))
  }

  ghost predicate Brings(c: Chart, hops: seq<Hop>, p: StateID, s: StateID)
    requires c.Linked()
  {
    exists g :: g in hops && LccaOfHop(c, g) == p && IsActive(c, LeafTargets(c, g.target), s)
  }

  /** The states at or above the default leaves of the hops with LCCA `p`, taken together. */
  ghost function Brought(c: Chart, hops: seq<Hop>, p: StateID): set<StateID>
    requires c.Linked()
  {
    set s | s in c.nodes && Brings(c, hops, p, s)
  }

  /** The default leaves of the hops with LCCA `p` together complete it and what they enter below
      it; hops that all stay always do. */
  ghost predicate Completes(c: Chart, hops: seq<Hop>, p: StateID)
    requires c.Linked()
  {
    var conf := Brought(c, hops, p);
    OnlyStays(c, hops, p)
    || (&& ChildrenOK(c, conf, p) && (p == ROOT ==> OneChild(c, conf, p))
        && forall s {:trigger ChildrenOK(c, conf, s)} :: s in conf && c.Below(p, s) ==> ChildrenOK(c, conf, s))
  }

  /** No default leaf of a hop lies outside its LCCA. */
  ghost predicate NoneAstray(c: Chart, hops: seq<Hop>)
    requires c.Linked()
  {
    forall h, t :: h in hops && t in LeafTargets(c, h.target) ==> c.Below(LccaOfHop(c, h), t)
  }

  /** The hops of each LCCA act together, stay below it and complete it. */
  ghost predicate JointStep(c: Chart, leaves: seq<StateID>, hops: seq<Hop>)
    requires c.Linked()
  {
    && Together(c, leaves, hops) && NoneAstray(c, hops)
    && forall h :: h in hops ==> Completes(c, hops, LccaOfHop(c, h))
  }

  ghost predicate StepPre(c: Chart, leaves: seq<StateID>, hops: seq<Hop>)
    requires c.Linked()
  {
    Legitimate(c, leaves, hops) && JointStep(c, leaves, hops)
  }

  // ---------------------------------------------------------------- reaches

  lemma StaysRegion(c: Chart, hops: seq<Hop>, p: StateID, s: StateID)
    requires c.Linked() && OnlyStays(c, hops, p) && Takes(c, hops, s, p) && forall h :: h in hops ==> HopOK(c, h)
    ensures c.IsAtomic(s) && c.IsChild(p, s) && c.IsAnd(p)
    ensures Brings(c, hops, p, s)
  {
    var g :| g in hops && g.source == s && LccaOfHop(c, g) == p;
    AndZone(c, g, s);
    assert s in LeafTargets(c, g.target);
  }

  lemma OwnReach(c: Chart, leaves: seq<StateID>, hops: seq<Hop>, h: Hop)
    requires c.Linked() && HopsFor(c, leaves, hops) && h in hops
    ensures InReach(c, hops, LccaOfHop(c, h), h.source)
  {
    LccaOfHopAbove(c, h);
  }

  /** Below a state in reach everything is. */
  lemma ReachDown(c: Chart, leaves: seq<StateID>, hops: seq<Hop>, p: StateID, s: StateID, t: StateID)
    requires c.Linked() && HopsFor(c, leaves, hops) && InReach(c, hops, p, s) && c.Anc(s, t)
    ensures InReach(c, hops, p, t)
  {
    if s != t {
      BelowTrans(c, p, s, t);
      if OnlyStays(c, hops, p) {
        StaysRegion(c, hops, p, s);
        AtomicNoneBelow(c, s, t);
      }
    }
  }

  /** Between the LCCA and a state in reach everything is in reach. */
  lemma ReachUp(c: Chart, leaves: seq<StateID>, hops: seq<Hop>, p: StateID, s: StateID, t: StateID)
    requires c.Linked() && HopsFor(c, leaves, hops) && InReach(c, hops, p, t) && c.Below(p, s) && c.Anc(s, t)
    ensures InReach(c, hops, p, s)
  {
    if s != t && OnlyStays(c, hops, p) {
      StaysRegion(c, hops, p, t);
      BelowStrictlyBetween(c, p, s, t);
    }
  }

  /** The hop of an active leaf in reach. */
  lemma ReachHop(c: Chart, leaves: seq<StateID>, hops: seq<Hop>, h: Hop, l: StateID) returns (g: Hop)
    requires c.Linked() && HopsFor(c, leaves, hops) && Together(c, leaves, hops)
    requires h in hops && l in leaves && InReach(c, hops, LccaOfHop(c, h), l)
    ensures g in hops && g.source == l && LccaOfHop(c, g) == LccaOfHop(c, h) && HopFrom(hops, l) == Some(g)
  {
    assert Takes(c, hops, l, LccaOfHop(c, h));
    g :| g in hops && g.source == l && LccaOfHop(c, g) == LccaOfHop(c, h);
    HopFromUnique(c, leaves, hops, g);
  }

  lemma ReachNotInside(c: Chart, leaves: seq<StateID>, hops: seq<Hop>, g: Hop, h: Hop, s: StateID)
    requires c.Linked() && HopsFor(c, leaves, hops) && Together(c, leaves, hops) && g in hops && h in hops
    requires InReach(c, hops, LccaOfHop(c, g), s) && c.Below(LccaOfHop(c, h), s)
    ensures !c.Below(LccaOfHop(c, g), LccaOfHop(c, h))
  {
    var p, q := LccaOfHop(c, g), LccaOfHop(c, h);
    if c.Below(p, q) {
      ReachUp(c, leaves, hops, p, q, s);
      LccaOfHopAbove(c, h);
      ReachDown(c, leaves, hops, p, q, h.source);
      var k := ReachHop(c, leaves, hops, g, h.source);
      HopFromUnique(c, leaves, hops, h);
      BelowRank(c, p, q);
    }
  }

  /** Reaches that meet belong to one LCCA. */
  lemma ReachesMeet(c: Chart, leaves: seq<StateID>, hops: seq<Hop>, g: Hop, h: Hop, s: StateID)
    requires c.Linked() && HopsFor(c, leaves, hops) && Together(c, leaves, hops) && g in hops && h in hops
    requires InReach(c, hops, LccaOfHop(c, g), s) && InReach(c, hops, LccaOfHop(c, h), s)
    ensures LccaOfHop(c, g) == LccaOfHop(c, h)
  {
    AncLinear2(c, LccaOfHop(c, g), LccaOfHop(c, h), s);
    ReachNotInside(c, leaves, hops, g, h, s);
    ReachNotInside(c, leaves, hops, h, g, s);
  }

  /** Default leaves are in reach. */
  lemma TargetInReach(c: Chart, leaves: seq<StateID>, hops: seq<Hop>, h: Hop, t: StateID)
    requires c.Linked() && HopsFor(c, leaves, hops) && NoneAstray(c, hops) && h in hops
    requires t in LeafTargets(c, h.target)
    ensures InReach(c, hops, LccaOfHop(c, h), t)
  {
    if OnlyStays(c, hops, LccaOfHop(c, h)) {
      AndZone(c, h, t);
    }
  }

  // ---------------------------------------------------------------- exit set, entry set

  ghost predicate InSomeReach(c: Chart, hops: seq<Hop>, s: StateID)
    requires c.Linked()
  {
    exists h :: h in hops && InReach(c, hops, LccaOfHop(c, h), s)
  }

  ghost predicate Exited(c: Chart, hops: seq<Hop>, s: StateID)
    requires c.Linked()
  {
    exists h :: h in hops && Exits(c, h, s)
  }

  ghost predicate Entered(c: Chart, hops: seq<Hop>, s: StateID)
    requires c.Linked()
  {
    exists h :: h in hops && Enters(c, h, s)
  }

  lemma ExitInReach(c: Chart, leaves: seq<StateID>, hops: seq<Hop>, h: Hop, s: StateID)
    requires c.Linked() && HopsFor(c, leaves, hops) && h in hops
    requires c.Below(LccaOfHop(c, h), s) && c.Anc(s, h.source)
    ensures InReach(c, hops, LccaOfHop(c, h), s)
  {
    OwnReach(c, leaves, hops, h);
    ReachUp(c, leaves, hops, LccaOfHop(c, h), s, h.source);
  }

  lemma EnterInReach(c: Chart, leaves: seq<StateID>, hops: seq<Hop>, h: Hop, s: StateID)
    requires c.Linked() && HopsFor(c, leaves, hops) && NoneAstray(c, hops) && h in hops && Enters(c, h, s)
    ensures InReach(c, hops, LccaOfHop(c, h), s)
  {
    EntersBelow(c, h, s);
    var t :| t in LeafTargets(c, h.target) && c.Anc(s, t);
    TargetInReach(c, leaves, hops, h, t);
    ReachUp(c, leaves, hops, LccaOfHop(c, h), s, t);
  }

  /** Exits are the active states in reach. */
  lemma ExitsAreActiveReach(c: Chart, leaves: seq<StateID>, hops: seq<Hop>, s: StateID)
    requires c.Linked() && HopsFor(c, leaves, hops) && Together(c, leaves, hops)
    ensures Exited(c, hops, s) <==> IsActive(c, leaves, s) && InSomeReach(c, hops, s)
  {
    if h :| h in hops && Exits(c, h, s) {
      ExitsMeaning(c, h, s);
      ExitInReach(c, leaves, hops, h, s);
      assert h.source in leaves && c.Anc(s, h.source);
    }
    if IsActive(c, leaves, s) && InSomeReach(c, hops, s) {
      var l :| l in leaves && c.Anc(s, l);
      var h :| h in hops && InReach(c, hops, LccaOfHop(c, h), s);
      ReachDown(c, leaves, hops, LccaOfHop(c, h), s, l);
      var g := ReachHop(c, leaves, hops, h, l);
      ExitsMeaning(c, g, s);
      assert Exits(c, g, s);
    }
  }

  /** At or above its LCCA, a hop's source and its first default leaf are both below. */
  lemma AboveLcca(c: Chart, h: Hop, s: StateID)
    requires c.Linked() && HopOK(c, h) && c.Anc(s, LccaOfHop(c, h))
    ensures c.Anc(s, h.source) && IsActive(c, LeafTargets(c, h.target), s)
  {
    var p, y := LccaOfHop(c, h), LeafTargetOf(c, h.target);
    LccaOfHopAbove(c, h);
    LeafTargetFirst(c, h.target);
    if s != p {
      BelowTrans(c, s, p, h.source);
      BelowTrans(c, s, p, y);
    }
    assert y in LeafTargets(c, h.target);
  }

  /** Nothing at or above an LCCA is in reach of any hop. */
  lemma LccaOutside(c: Chart, leaves: seq<StateID>, hops: seq<Hop>, g: Hop, s: StateID)
    requires c.Linked() && HopsFor(c, leaves, hops) && Together(c, leaves, hops) && g in hops
    requires c.Anc(s, LccaOfHop(c, g))
    ensures !InSomeReach(c, hops, s)
  {
    if h :| h in hops && InReach(c, hops, LccaOfHop(c, h), s) {
      var p := LccaOfHop(c, g);
      AboveLcca(c, g, s);
      ReachDown(c, leaves, hops, LccaOfHop(c, h), s, g.source);
      OwnReach(c, leaves, hops, g);
      ReachesMeet(c, leaves, hops, g, h, g.source);
      BelowRank(c, p, s);
      if s != p { BelowRank(c, s, p); }
    }
  }

  /** What a hop brings below another's LCCA is brought by a hop with that LCCA. */
  lemma BroughtInReach(c: Chart, leaves: seq<StateID>, hops: seq<Hop>, h: Hop, g: Hop, s: StateID)
    requires c.Linked() && HopsFor(c, leaves, hops) && Together(c, leaves, hops) && NoneAstray(c, hops)
    requires h in hops && g in hops && InReach(c, hops, LccaOfHop(c, h), s)
    requires IsActive(c, LeafTargets(c, g.target), s)
    ensures LccaOfHop(c, g) == LccaOfHop(c, h) && Enters(c, g, s)
  {
    var t :| t in LeafTargets(c, g.target) && c.Anc(s, t);
    TargetInReach(c, leaves, hops, g, t);
    ReachDown(c, leaves, hops, LccaOfHop(c, h), s, t);
    ReachesMeet(c, leaves, hops, g, h, t);
    EntersBelow(c, g, s);
  }

  /** In reach of a hop exactly what is brought with its LCCA is active after the step, and that
      is entered. */
  lemma AfterInReach(c: Chart, leaves: seq<StateID>, hops: seq<Hop>, h: Hop, s: StateID)
    requires c.Linked() && HopsFor(c, leaves, hops) && Together(c, leaves, hops) && NoneAstray(c, hops)
    requires h in hops && InReach(c, hops, LccaOfHop(c, h), s)
    ensures IsActive(c, NewLeaves(c, leaves, hops), s) <==> Brings(c, hops, LccaOfHop(c, h), s)
    ensures Entered(c, hops, s) <==> Brings(c, hops, LccaOfHop(c, h), s)
  {
    ActiveAfter(c, leaves, hops, s);
    if l :| l in leaves && HopFrom(hops, l).None? && c.Anc(s, l) {
      ReachDown(c, leaves, hops, LccaOfHop(c, h), s, l);
      var g := ReachHop(c, leaves, hops, h, l);
    }
    if g :| g in hops && IsActive(c, LeafTargets(c, g.target), s) {
      BroughtInReach(c, leaves, hops, h, g, s);
    }
    if g :| g in hops && Enters(c, g, s) {
      EntersBelow(c, g, s);
      BroughtInReach(c, leaves, hops, h, g, s);
    }
  }

  /** Outside all reaches nothing changes. */
  lemma AfterOutside(c: Chart, leaves: seq<StateID>, hops: seq<Hop>, s: StateID)
    requires c.Linked() && HopsFor(c, leaves, hops) && NoneAstray(c, hops)
    requires s in c.nodes && !InSomeReach(c, hops, s)
    ensures IsActive(c, NewLeaves(c, leaves, hops), s) <==> IsActive(c, leaves, s)
    ensures !Entered(c, hops, s)
  {
    ActiveAfter(c, leaves, hops, s);
    if h :| h in hops && Enters(c, h, s) {
      EnterInReach(c, leaves, hops, h, s);
    }
    if h :| h in hops && IsActive(c, LeafTargets(c, h.target), s) {
      var t :| t in LeafTargets(c, h.target) && c.Anc(s, t);
      EntersBelow(c, h, s);
      AboveOrBelow(c, LccaOfHop(c, h), s, t);
      assert !Enters(c, h, s);
      AboveLcca(c, h, s);
      assert h.source in leaves;
    }
    if IsActive(c, leaves, s) {
      var l :| l in leaves && c.Anc(s, l);
      HopFromFound(hops, l);
      if HopFrom(hops, l).Some? {
        var h := HopFrom(hops, l).value;
        LccaOfHopAbove(c, h);
        AboveOrBelow(c, LccaOfHop(c, h), s, l);
        if c.Below(LccaOfHop(c, h), s) { ExitInReach(c, leaves, hops, h, s); }
        AboveLcca(c, h, s);
      }
    }
  }

  lemma AboveOrBelow(c: Chart, p: StateID, s: StateID, t: StateID)
    requires c.Linked() && c.Below(p, t) && c.Anc(s, t) && s in c.nodes
    ensures c.Below(p, s) || c.Anc(s, p)
  {
    if s != t {
      AncLinear2(c, s, p, t);
    }
  }

  /** The new configuration is the old one less the exit set plus an entry set disjoint from
      what is left; only active states are exited. */
  lemma StepBalance(c: Chart, leaves: seq<StateID>, hops: seq<Hop>, s: StateID)
    requires c.Linked() && StepPre(c, leaves, hops) && s in c.nodes
    ensures var before := IsActive(c, leaves, s);
      var after := IsActive(c, NewLeaves(c, leaves, hops), s);
      && (after <==> (before && !Exited(c, hops, s)) || Entered(c, hops, s))
      && (Exited(c, hops, s) ==> before)
      && (Entered(c, hops, s) ==> !(before && !Exited(c, hops, s)))
  {
    ExitsAreActiveReach(c, leaves, hops, s);
    if h :| h in hops && InReach(c, hops, LccaOfHop(c, h), s) {
      AfterInReach(c, leaves, hops, h, s);
    } else {
      AfterOutside(c, leaves, hops, s);
    }
  }

  // ---------------------------------------------------------------- legality is kept

  /** In reach, the children conditions after the step are those on what is brought. */
  lemma SameInReach(c: Chart, leaves: seq<StateID>, hops: seq<Hop>, h: Hop, p: StateID)
    requires c.Linked() && HopsFor(c, leaves, hops) && Together(c, leaves, hops) && NoneAstray(c, hops) && h in hops
    requires forall o :: c.IsChild(p, o) ==> InReach(c, hops, LccaOfHop(c, h), o)
    ensures var conf, part := Active(c, NewLeaves(c, leaves, hops)), Brought(c, hops, LccaOfHop(c, h));
      && (ChildrenOK(c, conf, p) <==> ChildrenOK(c, part, p))
      && (OneChild(c, conf, p) <==> OneChild(c, part, p))
  {
    var conf, part := Active(c, NewLeaves(c, leaves, hops)), Brought(c, hops, LccaOfHop(c, h));
    forall o | c.IsChild(p, o) ensures o in conf <==> o in part {
      AfterInReach(c, leaves, hops, h, o);
    }
    SameChildren(c, conf, part, p);
  }

  lemma ChildrenInReach(c: Chart, leaves: seq<StateID>, hops: seq<Hop>, p: StateID, s: StateID)
    requires c.Linked() && HopsFor(c, leaves, hops)
    requires (s == p && !OnlyStays(c, hops, p)) || InReach(c, hops, p, s)
    ensures forall o :: c.IsChild(s, o) ==> InReach(c, hops, p, o)
  {
    assert c.NodeOK(ROOT);
    forall o | c.IsChild(s, o) ensures InReach(c, hops, p, o) {
      if InReach(c, hops, p, s) {
        BelowRank(c, p, s);
        ReachDown(c, leaves, hops, p, s, o);
      }
    }
  }

  lemma SameChildrenAt(c: Chart, leaves: seq<StateID>, hops: seq<Hop>, h: Hop, s: StateID)
    requires c.Linked() && HopsFor(c, leaves, hops) && Together(c, leaves, hops) && NoneAstray(c, hops) && h in hops
    requires InReach(c, hops, LccaOfHop(c, h), s)
    ensures ChildrenOK(c, Active(c, NewLeaves(c, leaves, hops)), s) <==>
      ChildrenOK(c, Brought(c, hops, LccaOfHop(c, h)), s)
  {
    ChildrenInReach(c, leaves, hops, LccaOfHop(c, h), s);
    SameInReach(c, leaves, hops, h, s);
  }

  /** Children of a state that is in no reach, and is no LCCA except of hops that stay: active if
      they were. */
  lemma ChildrenOutside(c: Chart, leaves: seq<StateID>, hops: seq<Hop>, p: StateID, o: StateID)
    requires c.Linked() && HopsFor(c, leaves, hops) && Together(c, leaves, hops) && NoneAstray(c, hops)
    requires c.IsChild(p, o) && !InSomeReach(c, hops, p)
    requires forall h :: h in hops && LccaOfHop(c, h) == p ==> OnlyStays(c, hops, p)
    ensures var before, after := IsActive(c, leaves, o), IsActive(c, NewLeaves(c, leaves, hops), o);
      if c.IsAnd(p) then before ==> after else before <==> after
  {
    assert c.NodeOK(ROOT);
    if h :| h in hops && InReach(c, hops, LccaOfHop(c, h), o) {
      var q := LccaOfHop(c, h);
      assert c.Below(p, o);
      AncLinear2(c, p, q, o);
      BelowStrictlyBetween(c, p, q, o);
      if c.Below(q, p) {
        BelowRank(c, q, p);
        ReachUp(c, leaves, hops, q, p, o);
      }
      StaysRegion(c, hops, p, o);
      AfterInReach(c, leaves, hops, h, o);
    } else {
      AfterOutside(c, leaves, hops, o);
    }
  }

  lemma StepChildrenOutside(c: Chart, leaves: seq<StateID>, hops: seq<Hop>, p: StateID)
    requires c.Linked() && StepPre(c, leaves, hops)
    requires p == ROOT || p in Active(c, NewLeaves(c, leaves, hops))
    requires !InSomeReach(c, hops, p)
    requires forall h :: h in hops && LccaOfHop(c, h) == p ==> OnlyStays(c, hops, p)
    ensures var conf := Active(c, NewLeaves(c, leaves, hops));
      ChildrenOK(c, conf, p) && (p == ROOT ==> OneChild(c, conf, p))
  {
    var before, after := Active(c, leaves), Active(c, NewLeaves(c, leaves, hops));
    assert c.NodeOK(ROOT);
    if p != ROOT {
      AfterOutside(c, leaves, hops, p);
      assert ChildrenOK(c, before, p);
    }
    forall o | c.IsChild(p, o)
      ensures if c.IsAnd(p) then o in before ==> o in after else o in before <==> o in after
    {
      ChildrenOutside(c, leaves, hops, p, o);
    }
    if !c.IsAnd(p) {
      SameChildren(c, before, after, p);
    }
  }

  lemma StepChildrenAtLcca(c: Chart, leaves: seq<StateID>, hops: seq<Hop>, h: Hop)
    requires c.Linked() && StepPre(c, leaves, hops) && h in hops && !OnlyStays(c, hops, LccaOfHop(c, h))
    ensures var conf := Active(c, NewLeaves(c, leaves, hops));
      ChildrenOK(c, conf, LccaOfHop(c, h)) && (LccaOfHop(c, h) == ROOT ==> OneChild(c, conf, ROOT))
  {
    var p := LccaOfHop(c, h);
    ChildrenInReach(c, leaves, hops, p, p);
    SameInReach(c, leaves, hops, h, p);
    assert Completes(c, hops, p);
  }

  /** What the hops with one LCCA bring below it is complete. */
  lemma BroughtComplete(c: Chart, leaves: seq<StateID>, hops: seq<Hop>, p: StateID, s: StateID)
    requires c.Linked() && HopsFor(c, leaves, hops) && Completes(c, hops, p) && s in c.nodes
    requires InReach(c, hops, p, s) && Brings(c, hops, p, s)
    ensures ChildrenOK(c, Brought(c, hops, p), s)
  {
    if OnlyStays(c, hops, p) {
      StaysRegion(c, hops, p, s);
    } else {
      assert s in Brought(c, hops, p);
    }
  }

  lemma StepChildrenInReach(c: Chart, leaves: seq<StateID>, hops: seq<Hop>, h: Hop, s: StateID)
    requires c.Linked() && HopsFor(c, leaves, hops) && Together(c, leaves, hops) && NoneAstray(c, hops)
    requires h in hops && Completes(c, hops, LccaOfHop(c, h))
    requires InReach(c, hops, LccaOfHop(c, h), s) && s in Active(c, NewLeaves(c, leaves, hops))
    ensures ChildrenOK(c, Active(c, NewLeaves(c, leaves, hops)), s) && s != ROOT
  {
    var p := LccaOfHop(c, h);
    assert c.NodeOK(ROOT);
    AfterInReach(c, leaves, hops, h, s);
    BroughtComplete(c, leaves, hops, p, s);
    SameChildrenAt(c, leaves, hops, h, s);
  }

  /** A joint step leads from a legal configuration to a legal one. */
  lemma StepLegal(c: Chart, leaves: seq<StateID>, hops: seq<Hop>)
    requires c.Linked() && StepPre(c, leaves, hops)
    ensures Legal(c, Active(c, NewLeaves(c, leaves, hops)))
  {
    var new' := NewLeaves(c, leaves, hops);
    var conf := Active(c, new');
    assert c.NodeOK(ROOT);
    forall p | p == ROOT || p in conf
      ensures ChildrenOK(c, conf, p) && (p == ROOT ==> OneChild(c, conf, p))
    {
      if h :| h in hops && LccaOfHop(c, h) == p && !OnlyStays(c, hops, p) {
        StepChildrenAtLcca(c, leaves, hops, h);
      } else if h :| h in hops && InReach(c, hops, LccaOfHop(c, h), p) {
        StepChildrenInReach(c, leaves, hops, h, p);
      } else {
        StepChildrenOutside(c, leaves, hops, p);
      }
    }
    ActiveClosed(c, new');
  }

  lemma ActiveClosed(c: Chart, leaves: seq<StateID>)
    requires c.Linked()
    ensures var conf := Active(c, leaves);
      forall s :: s in conf ==> c.Par(s) == ROOT || c.Par(s) in conf
  {
    forall s | s in Active(c, leaves) && c.Par(s) != ROOT ensures c.Par(s) in Active(c, leaves) {
      assert c.NodeOK(s);
      var l :| l in leaves && c.Anc(s, l);
      BelowTrans(c, c.Par(s), s, l);
    }
  }

  // ---------------------------------------------------------------- order is kept

  /** `u` is a default leaf of a hop with LCCA `p` from a leaf before `x`. */
  ghost predicate BroughtBefore(c: Chart, hops: seq<Hop>, p: StateID, x: StateID, u: StateID)
    requires c.Linked()
  {
    exists k :: k in hops && LccaOfHop(c, k) == p && c.Rank(k.source) < c.Rank(x) && u in LeafTargets(c, k.target)
  }

  /** Hops with one LCCA bring their default leaves in the order of their sources, except for what
      an earlier one brings anyway. */
  ghost predicate InOrder(c: Chart, hops: seq<Hop>)
    requires c.Linked()
  {
    forall g, h, v, u ::
      g in hops && h in hops && LccaOfHop(c, g) == LccaOfHop(c, h) && c.Rank(g.source) < c.Rank(h.source)
      && v in LeafTargets(c, g.target) && u in LeafTargets(c, h.target) ==>
        c.Rank(v) < c.Rank(u) || BroughtBefore(c, hops, LccaOfHop(c, h), h.source, u)
  }

  /** What an active leaf may turn into: itself, or something in reach of its hop. */
  lemma ImageInReach(c: Chart, leaves: seq<StateID>, hops: seq<Hop>, l: StateID, v: StateID)
    requires c.Linked() && StepPre(c, leaves, hops) && l in leaves && v in Image(c, l, hops)
    ensures c.IsAtomic(v)
    ensures var o := HopFrom(hops, l);
      if o.Some? then InReach(c, hops, LccaOfHop(c, o.value), v) else v == l
  {
    HopFromFound(hops, l);
    var o := HopFrom(hops, l);
    if o.Some? {
      LeafTargetsAtomic(c, o.value.target, v);
      TargetInReach(c, leaves, hops, o.value, v);
    }
  }

  /** An atomic state out of a hop's reach lies on one side of source and default leaves. */
  lemma ReachOneSide(c: Chart, leaves: seq<StateID>, hops: seq<Hop>, h: Hop, v: StateID, x: StateID)
    requires c.WF() && StepPre(c, leaves, hops) && h in hops && v in LeafTargets(c, h.target)
    requires c.IsAtomic(x) && !InReach(c, hops, LccaOfHop(c, h), x)
    ensures c.Rank(h.source) < c.Rank(x) ==> c.Rank(v) < c.Rank(x)
    ensures c.Rank(x) < c.Rank(h.source) ==> c.Rank(x) < c.Rank(v)
  {
    var p := LccaOfHop(c, h);
    assert c.NodeOK(ROOT) && c.NodeOK(x);
    TargetInReach(c, leaves, hops, h, v);
    OwnReach(c, leaves, hops, h);
    if OnlyStays(c, hops, p) {
      AndZone(c, h, v);
    } else {
      RootAboveAll(c, x);
      BelowRank(c, p, h.source);
      BelowRank(c, p, v);
      if p == x { AtomicNoneBelow(c, x, v); }
      SubtreeBefore(c, p, h.source, x);
      SubtreeBefore(c, p, v, x);
    }
  }

  /** Two hops with one LCCA. */
  ghost predicate SameLcca(c: Chart, hops: seq<Hop>, l: StateID, x: StateID)
    requires c.Linked()
  {
    var g, h := HopFrom(hops, l), HopFrom(hops, x);
    g.Some? && h.Some? && LccaOfHop(c, g.value) == LccaOfHop(c, h.value)
  }

  /** Images of two active leaves that do not hop with one LCCA keep the leaves' order. */
  lemma ImagesOrdered(c: Chart, leaves: seq<StateID>, hops: seq<Hop>,
                      l: StateID, x: StateID, v: StateID, u: StateID)
    requires c.WF() && StepPre(c, leaves, hops) && l in leaves && x in leaves
    requires c.Rank(l) < c.Rank(x) && v in Image(c, l, hops) && u in Image(c, x, hops)
    requires !SameLcca(c, hops, l, x)
    ensures c.Rank(v) < c.Rank(u)
  {
    HopFromFound(hops, l);
    HopFromFound(hops, x);
    ImageInReach(c, leaves, hops, l, v);
    ImageInReach(c, leaves, hops, x, u);
    if HopFrom(hops, l).Some? {
      var g := HopFrom(hops, l).value;
      if InReach(c, hops, LccaOfHop(c, g), x) { var k := ReachHop(c, leaves, hops, g, x); }
      ReachOneSide(c, leaves, hops, g, v, x);
    }
    if HopFrom(hops, x).Some? {
      var h := HopFrom(hops, x).value;
      if InReach(c, hops, LccaOfHop(c, h), v) {
        if HopFrom(hops, l).Some? {
          ReachesMeet(c, leaves, hops, HopFrom(hops, l).value, h, v);
        } else {
          var k := ReachHop(c, leaves, hops, h, l);
        }
      }
      ReachOneSide(c, leaves, hops, h, u, v);
    }
  }

  /** A leaf from which a hop starts that comes before `x` in definition order comes before the
      first `x` in the list. */
  lemma SourceBefore(c: Chart, leaves: seq<StateID>, k: nat, y: StateID)
    requires FirstsIncrease(c, leaves) && k < |leaves| && leaves[k] !in leaves[..k]
    requires y in leaves && c.Rank(y) < c.Rank(leaves[k])
    ensures y in leaves[..k]
  {
    var i := FirstIndex(leaves, y);
    assert i < k && leaves[..k][i] == y;
  }

  lemma FirstIndex(s: seq<StateID>, x: StateID) returns (i: nat)
    requires x in s
    ensures i < |s| && s[i] == x && x !in s[..i]
  {
    if s[0] == x {
      i := 0;
    } else {
      i := FirstIndex(s[1..], x);
      assert s[..i + 1] == [s[0]] + s[1..][..i];
      i := i + 1;
    }
  }

  /** Appending a list of known elements and larger ones that increase keeps the order of first
      occurrences. */
  lemma FirstsAppend(c: Chart, a: seq<StateID>, b: seq<StateID>)
    requires FirstsIncrease(c, a)
    requires FirstsIncrease(c, b) && forall v, u :: v in a && u in b && u !in a ==> c.Rank(v) < c.Rank(u)
    ensures FirstsIncrease(c, a + b)
  {
    var s := a + b;
    forall i, j | 0 <= i < j < |s| && s[j] !in s[..j] ensures c.Rank(s[i]) < c.Rank(s[j]) {
      if j < |a| {
        assert s[..j] == a[..j];
      } else {
        assert s[j] == b[j - |a|] && s[j] in b;
        assert s[..j] == a + b[..j - |a|];
        if i < |a| {
          assert s[i] == a[i] && s[i] in a;
        } else {
          assert s[i] == b[i - |a|];
        }
      }
    }
  }

  lemma ImageIncreases(c: Chart, hops: seq<Hop>, x: StateID)
    requires c.WF() && forall h :: h in hops ==> HopOK(c, h)
    ensures FirstsIncrease(c, Image(c, x, hops))
  {
    HopFromFound(hops, x);
    if HopFrom(hops, x).Some? {
      LeafTargetsIncreasing(c, HopFrom(hops, x).value.target);
    }
  }

  /** A new leaf of the first `x` that no earlier leaf turns into follows all they turn into. */
  lemma NextImage(c: Chart, leaves: seq<StateID>, hops: seq<Hop>, k: nat, l: StateID, v: StateID, u: StateID)
    requires c.WF() && StepPre(c, leaves, hops) && FirstsIncrease(c, leaves) && InOrder(c, hops)
    requires k < |leaves| && leaves[k] !in leaves[..k] && l in leaves[..k]
    requires v in Image(c, l, hops) && u in Image(c, leaves[k], hops)
    requires u !in NewLeaves(c, leaves[..k], hops)
    ensures c.Rank(v) < c.Rank(u)
  {
    var x := leaves[k];
    var i :| 0 <= i < k && leaves[i] == l;
    assert c.Rank(leaves[i]) < c.Rank(leaves[k]) && x in leaves;
    HopFromFound(hops, l);
    HopFromFound(hops, x);
    if SameLcca(c, hops, l, x) {
      var h := HopFrom(hops, x).value;
      if BroughtBefore(c, hops, LccaOfHop(c, h), x, u) {
        var b :|
          b in hops && LccaOfHop(c, b) == LccaOfHop(c, h) && c.Rank(b.source) < c.Rank(x) && u in LeafTargets(c, b.target);
        SourceBefore(c, leaves, k, b.source);
        ImageOfHop(c, leaves, hops, b);
        NewLeavesElements(c, leaves[..k], hops, u);
      }
    } else {
      ImagesOrdered(c, leaves, hops, l, x, v, u);
    }
  }

  lemma {:induction false} PrefixOrdered(c: Chart, leaves: seq<StateID>, hops: seq<Hop>, k: nat)
    requires c.WF() && StepPre(c, leaves, hops) && FirstsIncrease(c, leaves) && InOrder(c, hops) && k <= |leaves|
    ensures FirstsIncrease(c, NewLeaves(c, leaves[..k], hops))
  {
    if k > 0 {
      PrefixOrdered(c, leaves, hops, k - 1);
      var front, x := leaves[..k - 1], leaves[k - 1];
      var a, b := NewLeaves(c, front, hops), Image(c, x, hops);
      assert leaves[..k][..k - 1] == front;
      ImageIncreases(c, hops, x);
      forall v, u | v in a && u in b && u !in a ensures c.Rank(v) < c.Rank(u) {
        NewLeavesElements(c, front, hops, v);
        NewLeavesElements(c, front, hops, u);
        var l :| l in front && v in Image(c, l, hops);
        assert x !in front;
        NextImage(c, leaves, hops, k - 1, l, v, u);
      }
      FirstsAppend(c, a, b);
    }
  }

  /** A joint step whose hops are in order keeps the active leaves in definition order. */
  lemma StepOrdered(c: Chart, leaves: seq<StateID>, hops: seq<Hop>)
    requires c.WF() && StepPre(c, leaves, hops) && FirstsIncrease(c, leaves) && InOrder(c, hops)
    ensures FirstsIncrease(c, NewLeaves(c, leaves, hops))
  {
    PrefixOrdered(c, leaves, hops, |leaves|);
    assert leaves[..|leaves|] == leaves;
  }

  lemma {:induction false} NewLeavesPrefix(c: Chart, leaves: seq<StateID>, hops: seq<Hop>, k: nat)
    requires c.Linked() && k <= |leaves|
    ensures NewLeaves(c, leaves[..k], hops) <= NewLeaves(c, leaves, hops)
    decreases |leaves| - k
  {
    if k == |leaves| {
      assert leaves[..k] == leaves;
    } else {
      NewLeavesPrefix(c, leaves, hops, k + 1);
      assert leaves[..k + 1][..k] == leaves[..k];
    }
  }

  /** What an earlier leaf brings of a hop's default leaves it brings with the same LCCA. */
  lemma BroughtEarlier(c: Chart, leaves: seq<StateID>, hops: seq<Hop>, k: nat, h: Hop, u: StateID)
    requires c.Linked() && StepPre(c, leaves, hops) && FirstsIncrease(c, leaves) && h in hops
    requires k < |leaves| && leaves[k] == h.source && h.source !in leaves[..k]
    requires u in LeafTargets(c, h.target) && u in NewLeaves(c, leaves[..k], hops)
    ensures BroughtBefore(c, hops, LccaOfHop(c, h), h.source, u)
  {
    NewLeavesElements(c, leaves[..k], hops, u);
    var l :| l in leaves[..k] && u in Image(c, l, hops);
    var i :| 0 <= i < k && leaves[i] == l;
    assert c.Rank(leaves[i]) < c.Rank(leaves[k]);
    HopFromFound(hops, l);
    ImageInReach(c, leaves, hops, l, u);
    TargetInReach(c, leaves, hops, h, u);
    if HopFrom(hops, l).Some? {
      ReachesMeet(c, leaves, hops, HopFrom(hops, l).value, h, u);
    } else {
      var g := ReachHop(c, leaves, hops, h, l);
    }
  }

  lemma FirstsApart(c: Chart, all: seq<StateID>, a: seq<StateID>, b: seq<StateID>, v: StateID, u: StateID)
    requires FirstsIncrease(c, all) && a + b <= all && v in a && u in b && u !in a
    ensures c.Rank(v) < c.Rank(u)
  {
    var i :| 0 <= i < |a| && a[i] == v;
    var j := FirstIndex(b, u);
    assert all[i] == (a + b)[i] && all[|a| + j] == (a + b)[|a| + j];
    assert all[..|a| + j] == a + b[..j];
  }

  /** Where the default leaves of two hops are among the new leaves. */
  lemma HopImages(c: Chart, leaves: seq<StateID>, hops: seq<Hop>, k: nat, g: Hop, h: Hop, v: StateID)
    requires c.Linked() && HopsFor(c, leaves, hops) && g in hops && h in hops && v in LeafTargets(c, g.target)
    requires k < |leaves| && leaves[k] == h.source && g.source in leaves[..k]
    ensures v in NewLeaves(c, leaves[..k], hops)
    ensures NewLeaves(c, leaves[..k], hops) + LeafTargets(c, h.target) <= NewLeaves(c, leaves, hops)
  {
    ImageOfHop(c, leaves, hops, g);
    ImageOfHop(c, leaves, hops, h);
    NewLeavesElements(c, leaves[..k], hops, v);
    assert leaves[..k + 1][..k] == leaves[..k];
    NewLeavesPrefix(c, leaves, hops, k + 1);
  }

  /** Leaves that stay in definition order come from hops in order. */
  lemma OrderNeeded(c: Chart, leaves: seq<StateID>, hops: seq<Hop>, g: Hop, h: Hop, v: StateID, u: StateID)
    requires c.Linked() && StepPre(c, leaves, hops) && FirstsIncrease(c, leaves)
    requires FirstsIncrease(c, NewLeaves(c, leaves, hops))
    requires g in hops && h in hops && c.Rank(g.source) < c.Rank(h.source)
    requires v in LeafTargets(c, g.target) && u in LeafTargets(c, h.target)
    requires !BroughtBefore(c, hops, LccaOfHop(c, h), h.source, u)
    ensures c.Rank(v) < c.Rank(u)
  {
    var k := FirstIndex(leaves, h.source);
    SourceBefore(c, leaves, k, g.source);
    HopImages(c, leaves, hops, k, g, h, v);
    if u in NewLeaves(c, leaves[..k], hops) { BroughtEarlier(c, leaves, hops, k, h, u); }
    FirstsApart(c, NewLeaves(c, leaves, hops), NewLeaves(c, leaves[..k], hops), LeafTargets(c, h.target), v, u);
  }

  lemma OutOfOrder(c: Chart, hops: seq<Hop>) returns (g: Hop, h: Hop, v: StateID, u: StateID)
    requires c.Linked() && !InOrder(c, hops)
    ensures g in hops && h in hops && c.Rank(g.source) < c.Rank(h.source)
    ensures v in LeafTargets(c, g.target) && u in LeafTargets(c, h.target) && c.Rank(v) >= c.Rank(u)
    ensures !BroughtBefore(c, hops, LccaOfHop(c, h), h.source, u)
  {
    g, h, v, u :|
      g in hops && h in hops && LccaOfHop(c, g) == LccaOfHop(c, h) && c.Rank(g.source) < c.Rank(h.source)
      && v in LeafTargets(c, g.target) && u in LeafTargets(c, h.target)
      && c.Rank(v) >= c.Rank(u) && !BroughtBefore(c, hops, LccaOfHop(c, h), h.source, u);
  }

  /** A joint step keeps the active leaves in definition order exactly when its hops are. */
  lemma OrderExact(c: Chart, leaves: seq<StateID>, hops: seq<Hop>)
    requires c.WF() && StepPre(c, leaves, hops) && FirstsIncrease(c, leaves)
    ensures FirstsIncrease(c, NewLeaves(c, leaves, hops)) <==> InOrder(c, hops)
  {
    if InOrder(c, hops) {
      StepOrdered(c, leaves, hops);
    } else if FirstsIncrease(c, NewLeaves(c, leaves, hops)) {
      var g, h, v, u := OutOfOrder(c, hops);
      OrderNeeded(c, leaves, hops, g, h, v, u);
      assert false;
    }
  }

  lemma {:induction false} DedupIncreases(c: Chart, leaves: seq<StateID>)
    requires FirstsIncrease(c, leaves)
    ensures Increasing(c, Dedup(leaves))
  {
    if leaves != [] {
      var n := |leaves| - 1;
      var front := leaves[..n];
      forall i, j | 0 <= i < j < n && front[j] !in front[..j] ensures c.Rank(front[i]) < c.Rank(front[j]) {
        assert front[..j] == leaves[..j];
      }
      DedupIncreases(c, front);
      DedupElements(front);
      assert forall x :: x in Dedup(front) ==> x in front;
      forall x | leaves[n] !in front && x in front ensures c.Rank(x) < c.Rank(leaves[n]) {
        var i :| 0 <= i < n && leaves[i] == x;
      }
    }
  }
}
