/** Which steps have a legal and balanced outcome: for steps whose hops keep out of each other's
    way, exactly the clean ones; for steps whose hops act together, exactly those in which they
    complete what they change. */
module Exactness {
  import opened Charts
  import opened Navigation
  import opened Configurations
  import opened Steps
  import opened Hypotheses

  ghost predicate BalancedAt(c: Chart, leaves: seq<StateID>, hops: seq<Hop>, s: StateID)
    requires c.Linked()
  {
    var kept := IsActive(c, leaves, s) && !Exited(c, hops, s);
    && (IsActive(c, NewLeaves(c, leaves, hops), s) <==> kept || Entered(c, hops, s))
    && !(kept && Entered(c, hops, s))
  }

  /** The outcome of a step is legal, and is the old configuration less the exit set plus an
      entry set disjoint from the rest. */
  ghost predicate GoodOutcome(c: Chart, leaves: seq<StateID>, hops: seq<Hop>)
    requires c.Linked()
  {
    && Legal(c, Active(c, NewLeaves(c, leaves, hops)))
    && forall s {:trigger BalancedAt(c, leaves, hops, s)} :: s in c.nodes ==> BalancedAt(c, leaves, hops, s)
  }

  /** Hops to different targets keep out of each other's way: neither starts in what the other
      may change. */
  ghost predicate Apart(c: Chart, hops: seq<Hop>)
    requires c.Linked()
  {
    forall g, h :: g in hops && h in hops && InZone(c, h, g.source) ==> g.target == h.target
  }

  ghost predicate GoodApart(c: Chart, leaves: seq<StateID>, hops: seq<Hop>)
    requires c.Linked()
  {
    Legitimate(c, leaves, hops) && Apart(c, hops) && GoodOutcome(c, leaves, hops)
  }

  /** Two default leaves part at a parallel state at or below the target. */
  lemma DefaultsPartAtAnd(c: Chart, d: StateID, t: StateID, y: StateID)
    requires c.Linked() && d in c.nodes && t in LeafTargets(c, d) && y in LeafTargets(c, d) && t != y
    ensures c.IsAnd(LccaOf(c, t, y)) && c.Anc(d, LccaOf(c, t, y))
  {
    var ts := LeafTargets(c, d);
    var p := LccaOf(c, t, y);
    LeafTargetsAtomic(c, d, t);
    LeafTargetsAtomic(c, d, y);
    LccaDeepest(c, t, y);
    if d == t { AtomicNoneBelow(c, t, y); }
    if d == y { AtomicNoneBelow(c, y, t); }
    Completion(c, d, p);
    assert c.NodeOK(ROOT);
    if !c.IsAnd(p) {
      var a, b := Toward(c, p, t), Toward(c, p, y);
      ChildListed(c, p, a);
      assert a in Active(c, ts) && b in Active(c, ts);
      assert a == b;
      if a == t { AtomicNoneBelow(c, t, y); }
      if a == y { AtomicNoneBelow(c, y, t); }
      assert c.Below(p, a);
      BelowRank(c, p, a);
      BelowRank(c, a, p);
    }
  }

  /** A path that never meets its stop runs to the top. */
  lemma {:induction false} PathUpMisses(c: Chart, id: StateID, stop: StateID, s: StateID)
    requires c.Linked() && !c.Anc(stop, id) && s in c.nodes
    ensures s in PathUp(c, id, stop) <==> c.Anc(s, id)
    decreases c.Rank(id)
  {
    assert c.NodeOK(id) && c.NodeOK(ROOT) && c.NodeOK(s);
    if id in c.nodes && c.nodes[id].parent.Some? {
      PathUpMisses(c, c.Par(id), stop, s);
    }
  }

  lemma SkippedRegion(c: Chart, a: StateID, d: StateID, r: StateID, t: StateID)
    requires c.Linked() && c.Below(a, d) && d in c.nodes && c.IsChild(a, r) && r != Toward(c, a, d)
    requires t in LeafTargets(c, d)
    ensures !c.Anc(r, t)
  {
    LeafTargetsAtomic(c, d, t);
    var td := Toward(c, a, d);
    if td != d { BelowTrans(c, td, d, t); }
    TowardUnique(c, a, td, t);
    if c.Anc(r, t) { TowardUnique(c, a, r, t); }
  }

  // ---------------------------------------------------------------- what a good outcome implies

  /** A hop from below a state that another hop changes has the same target. */
  lemma SameTarget(c: Chart, leaves: seq<StateID>, hops: seq<Hop>, g: Hop, h: Hop, s: StateID)
    requires c.Linked() && Legitimate(c, leaves, hops) && Apart(c, hops) && g in hops && h in hops
    requires c.Below(LccaOfHop(c, g), s) && c.Anc(s, h.source) && (Stays(c, g) ==> c.Anc(s, g.source))
    ensures g.target == h.target
  {
    if Stays(c, g) {
      AndZone(c, g, s);
      if s != h.source { AtomicNoneBelow(c, s, h.source); }
      HopFromUnique(c, leaves, hops, g);
      HopFromUnique(c, leaves, hops, h);
    } else {
      if s != h.source { BelowTrans(c, LccaOfHop(c, g), s, h.source); }
      assert InZone(c, g, h.source);
    }
  }

  lemma MustExit(c: Chart, leaves: seq<StateID>, hops: seq<Hop>, s: StateID) returns (g: Hop)
    requires c.Linked() && Legitimate(c, leaves, hops) && GoodOutcome(c, leaves, hops) && s in c.nodes
    requires IsActive(c, leaves, s) && Entered(c, hops, s)
    ensures g in hops && Exits(c, g, s) && c.Below(LccaOfHop(c, g), s) && c.Anc(s, g.source)
  {
    assert BalancedAt(c, leaves, hops, s);
    g :| g in hops && Exits(c, g, s);
    ExitsMeaning(c, g, s);
  }

  /** A state above both ends of a hop is not below its LCCA. */
  lemma NotAboveBoth(c: Chart, h: Hop, a: StateID)
    requires c.Linked() && HopOK(c, h)
    requires c.Below(a, h.source) && c.Below(a, LeafTargetOf(c, h.target))
    ensures !c.Below(LccaOfHop(c, h), a)
  {
    LccaOfHopAbove(c, h);
    var l := LccaOfHop(c, h);
    if c.Below(l, a) {
      BelowRank(c, l, a);
      if a != l { BelowRank(c, a, l); }
    }
  }

  /** A hop with a default leaf outside its LCCA enters a parallel state above it. */
  lemma AstrayEnters(c: Chart, g: Hop, t: StateID) returns (q: StateID)
    requires c.Linked() && HopOK(c, g) && t in LeafTargets(c, g.target) && !c.Below(LccaOfHop(c, g), t)
    ensures q in c.nodes && Enters(c, g, q) && c.Below(q, LccaOfHop(c, g))
    ensures c.Below(q, g.source) && c.Below(q, LeafTargetOf(c, g.target))
  {
    var p, y := LccaOfHop(c, g), LeafTargetOf(c, g.target);
    LccaOfHopAbove(c, g);
    LeafTargetFirst(c, g.target);
    LeafTargetsAtomic(c, g.target, t);
    RootAboveAll(c, t);
    if p == t { AtomicNoneBelow(c, t, y); }
    DefaultsPartAtAnd(c, g.target, t, y);
    q := LccaOf(c, t, y);
    LccaDeepest(c, t, y);
    AncLinear2(c, p, q, y);
    if c.Below(p, q) { BelowTrans(c, p, q, t); }
    BelowTrans(c, q, p, g.source);
    PathUpMisses(c, t, p, q);
  }

  /** No default leaf of a target lies outside the LCCA. */
  lemma NoRunaway(c: Chart, leaves: seq<StateID>, hops: seq<Hop>, g: Hop, t: StateID)
    requires c.Linked() && GoodApart(c, leaves, hops) && g in hops && t in LeafTargets(c, g.target)
    ensures c.Below(LccaOfHop(c, g), t)
  {
    var y := LeafTargetOf(c, g.target);
    LccaOfHopAbove(c, g);
    if !c.Below(LccaOfHop(c, g), t) {
      var q := AstrayEnters(c, g, t);
      assert g.source in leaves && c.Anc(q, g.source);
      var k := MustExit(c, leaves, hops, q);
      if Stays(c, k) { AndZone(c, k, q); }
      SameTarget(c, leaves, hops, k, g, q);
      if q == k.source { AtomicNoneBelow(c, q, y); }
      NotAboveBoth(c, k, q);
    }
  }

  lemma EntersIff(c: Chart, leaves: seq<StateID>, hops: seq<Hop>, g: Hop, s: StateID)
    requires c.Linked() && GoodApart(c, leaves, hops) && g in hops
    ensures Enters(c, g, s) <==> c.Below(LccaOfHop(c, g), s) && IsActive(c, LeafTargets(c, g.target), s)
    ensures Enters(c, g, s) && Stays(c, g) ==> c.Anc(s, g.source)
  {
    forall t | t in LeafTargets(c, g.target)
      ensures s in PathUp(c, t, LccaOfHop(c, g)) <==> c.Anc(s, t) && c.Below(LccaOfHop(c, g), s)
    {
      NoRunaway(c, leaves, hops, g, t);
      PathUpElements(c, t, LccaOfHop(c, g), s);
    }
    if Stays(c, g) { AndZone(c, g, s); }
  }

  lemma NoHopStays(c: Chart, leaves: seq<StateID>, hops: seq<Hop>, l: StateID, s: StateID)
    requires c.Linked() && HopsFor(c, leaves, hops) && l in leaves && HopFrom(hops, l).None? && c.Anc(s, l)
    ensures IsActive(c, NewLeaves(c, leaves, hops), s)
  {
    ActiveAfter(c, leaves, hops, s);
  }

  /** A state that a hop exits over a staying leaf is entered again, by a hop to the same target. */
  lemma ExitedOverStaying(c: Chart, leaves: seq<StateID>, hops: seq<Hop>, h: Hop, l: StateID, a: StateID)
    returns (k: Hop)
    requires c.Linked() && GoodApart(c, leaves, hops) && h in hops
    requires l in leaves && HopFrom(hops, l).None? && c.Below(a, l)
    requires c.Below(LccaOfHop(c, h), a) && c.Below(a, h.source)
    ensures k in hops && k.target == h.target && c.Below(LccaOfHop(c, k), a)
    ensures IsActive(c, LeafTargets(c, h.target), a)
  {
    ExitsMeaning(c, h, a);
    NoHopStays(c, leaves, hops, l, a);
    assert BalancedAt(c, leaves, hops, a);
    k :| k in hops && Enters(c, k, a);
    EntersIff(c, leaves, hops, k, a);
    SameTarget(c, leaves, hops, k, h, a);
  }

  /** The parallel state where a hopping and a staying leaf part is entered whole, so another
      leaf parts from the staying one further down. */
  lemma LeftBehindNext(c: Chart, leaves: seq<StateID>, hops: seq<Hop>, h: Hop, l: StateID) returns (g: Hop)
    requires c.Linked() && GoodApart(c, leaves, hops) && h in hops
    requires l in leaves && HopFrom(hops, l).None?
    requires c.Below(LccaOfHop(c, h), LccaOf(c, h.source, l))
    ensures c.Below(LccaOf(c, h.source, l), l)
    ensures g in hops && c.Below(LccaOfHop(c, g), Toward(c, LccaOf(c, h.source, l), l))
    ensures c.Anc(Toward(c, LccaOf(c, h.source, l), l), g.source)
  {
    var x, a := h.source, LccaOf(c, h.source, l);
    HopFromFound(hops, l);
    LccaDeepest(c, x, l);
    LeavesPartAtAnd(c, leaves, x, l);
    var k := ExitedOverStaying(c, leaves, hops, h, l, a);
    TargetAtOrAbove(c, h, a);
    Completion(c, h.target, a);
    var r := Toward(c, a, l);
    assert c.Below(a, r) && c.IsChild(a, r);
    BelowTrans(c, LccaOfHop(c, k), a, r);
    EntersIff(c, leaves, hops, k, r);
    assert c.Anc(r, l);
    g := MustExit(c, leaves, hops, r);
  }

  /** What a hop exits and enters again lies at or below its target. */
  lemma TargetAtOrAbove(c: Chart, h: Hop, a: StateID)
    requires c.Linked() && HopOK(c, h) && c.Below(LccaOfHop(c, h), a) && c.Below(a, h.source)
    requires IsActive(c, LeafTargets(c, h.target), a)
    ensures c.Anc(h.target, a)
  {
    var d, y := h.target, LeafTargetOf(c, h.target);
    var t :| t in LeafTargets(c, d) && c.Anc(a, t);
    LeafTargetFirst(c, d);
    LeafTargetsAtomic(c, d, t);
    LeafTargetsAtomic(c, d, y);
    if a == t { AtomicNoneBelow(c, a, h.source); }
    if d != t { AncLinear2(c, a, d, t); }
    if c.Below(a, d) {
      BelowTrans(c, a, d, y);
      NotAboveBoth(c, h, a);
    }
  }

  /** The next pair of leaves parts strictly below the first. */
  lemma PartsLower(c: Chart, leaves: seq<StateID>, hops: seq<Hop>, g: Hop, l: StateID, a: StateID)
    requires c.Linked() && HopsFor(c, leaves, hops) && g in hops
    requires c.IsAtomic(l) && HopFrom(hops, l).None? && c.Below(a, l)
    requires c.Below(LccaOfHop(c, g), Toward(c, a, l)) && c.Anc(Toward(c, a, l), g.source)
    ensures var b := LccaOf(c, g.source, l);
      c.Below(LccaOfHop(c, g), b) && Descent(c, b) < Descent(c, a)
  {
    var r, b := Toward(c, a, l), LccaOf(c, g.source, l);
    HopFromFound(hops, l);
    assert c.Below(a, r);
    if r == l { AtomicNoneBelow(c, l, g.source); }
    if r == g.source { AtomicNoneBelow(c, r, l); }
    LccaDeepest(c, g.source, l);
    BelowRank(c, a, r);
    if r != b { BelowRank(c, r, b); BelowTrans(c, LccaOfHop(c, g), r, b); }
  }

  lemma {:induction false} LeftBehind(c: Chart, leaves: seq<StateID>, hops: seq<Hop>, h: Hop, l: StateID)
    requires c.Linked() && GoodApart(c, leaves, hops) && h in hops
    requires l in leaves && HopFrom(hops, l).None?
    ensures !c.Below(LccaOfHop(c, h), LccaOf(c, h.source, l))
    decreases Descent(c, LccaOf(c, h.source, l))
  {
    if c.Below(LccaOfHop(c, h), LccaOf(c, h.source, l)) {
      var g := LeftBehindNext(c, leaves, hops, h, l);
      PartsLower(c, leaves, hops, g, l, LccaOf(c, h.source, l));
      LeftBehind(c, leaves, hops, g, l);
    }
  }

  lemma SourceCleanHolds(c: Chart, leaves: seq<StateID>, hops: seq<Hop>, h: Hop)
    requires c.Linked() && GoodApart(c, leaves, hops) && h in hops
    ensures SourceClean(c, leaves, hops, h)
  {
    forall l, s | l in leaves && Exits(c, h, s) && c.Anc(s, l) ensures Hop(l, h.target) in hops {
      ExitsMeaning(c, h, s);
      HopFromFound(hops, l);
      if HopFrom(hops, l).Some? {
        SameTarget(c, leaves, hops, h, HopFrom(hops, l).value, s);
      } else {
        var a := LccaOf(c, h.source, l);
        if s == l { AtomicNoneBelow(c, l, h.source); }
        if s == h.source { AtomicNoneBelow(c, s, l); }
        LccaDeepest(c, h.source, l);
        if s != a { BelowTrans(c, LccaOfHop(c, h), s, a); }
        LeftBehind(c, leaves, hops, h, l);
      }
    }
  }

  // ---------------------------------------------------------------- targets of a good outcome

  lemma AboveTarget(c: Chart, h: Hop, a: StateID)
    requires c.Linked() && HopOK(c, h) && c.Below(a, h.target)
    ensures var y := LeafTargetOf(c, h.target);
      c.Below(a, y) && y in LeafTargets(c, h.target) && IsActive(c, LeafTargets(c, h.target), a)
  {
    var y := LeafTargetOf(c, h.target);
    LeafTargetFirst(c, h.target);
    LeafTargetsAtomic(c, h.target, y);
    BelowTrans(c, a, h.target, y);
    assert y in LeafTargets(c, h.target);
  }

  /** A parallel state entered on the way to the target was not active. */
  lemma EnteredFresh(c: Chart, leaves: seq<StateID>, hops: seq<Hop>, h: Hop, a: StateID)
    requires c.Linked() && GoodApart(c, leaves, hops) && h in hops
    requires c.IsAnd(a) && c.Below(LccaOfHop(c, h), a) && c.Below(a, h.target)
    ensures !IsActive(c, leaves, a) && IsActive(c, NewLeaves(c, leaves, hops), a) && !Stays(c, h)
  {
    AboveTarget(c, h, a);
    EntersIff(c, leaves, hops, h, a);
    if Stays(c, h) { AndZone(c, h, a); }
    if IsActive(c, leaves, a) {
      var k := MustExit(c, leaves, hops, a);
      SameTarget(c, leaves, hops, h, k, a);
      if a == k.source { AtomicNoneBelow(c, a, h.target); }
      NotAboveBoth(c, k, a);
    }
    assert BalancedAt(c, leaves, hops, a);
  }

  /** What comes to life below an inactive state comes from a hop towards it. */
  lemma FreshSource(c: Chart, leaves: seq<StateID>, hops: seq<Hop>, h: Hop, a: StateID, g: Hop, t: StateID)
    requires c.Linked() && GoodApart(c, leaves, hops) && h in hops && g in hops
    requires !IsActive(c, leaves, a) && c.Below(LccaOfHop(c, h), a) && !Stays(c, h)
    requires t in LeafTargets(c, g.target) && c.Below(a, t)
    ensures g.target == h.target
  {
    var l, k := LccaOfHop(c, h), LccaOfHop(c, g);
    NoRunaway(c, leaves, hops, g, t);
    LccaOfHopAbove(c, g);
    assert g.source in leaves && !c.Anc(a, g.source);
    AncLinear2(c, k, a, t);
    if c.Below(a, k) { BelowTrans(c, a, k, g.source); }
    if Stays(c, g) { AndZone(c, g, t); }
    OneHoldsOther(c, h, g, a);
    ApartTargets(c, hops, h, g);
  }

  lemma ApartTargets(c: Chart, hops: seq<Hop>, h: Hop, g: Hop)
    requires c.Linked() && Apart(c, hops) && h in hops && g in hops
    requires InZone(c, h, g.source) || InZone(c, g, h.source)
    ensures g.target == h.target
  {
  }

  /** Two hops that reach below one state from above it: one starts in what the other may change. */
  lemma OneHoldsOther(c: Chart, h: Hop, g: Hop, a: StateID)
    requires c.Linked() && HopOK(c, h) && HopOK(c, g) && !Stays(c, h) && !Stays(c, g)
    requires c.Below(LccaOfHop(c, h), a) && c.Below(LccaOfHop(c, g), a)
    ensures InZone(c, h, g.source) || InZone(c, g, h.source)
  {
    var l, k := LccaOfHop(c, h), LccaOfHop(c, g);
    LccaOfHopAbove(c, g);
    LccaOfHopAbove(c, h);
    AncLinear2(c, l, k, a);
    if c.Below(l, k) { BelowTrans(c, l, k, g.source); }
    if c.Below(k, l) { BelowTrans(c, k, l, h.source); }
  }

  /** A region off the way to the target stays empty when the parallel state was not active. */
  lemma OffTheWay(c: Chart, leaves: seq<StateID>, hops: seq<Hop>, h: Hop, a: StateID, r: StateID)
    requires c.Linked() && GoodApart(c, leaves, hops) && h in hops && !Stays(c, h)
    requires c.Below(LccaOfHop(c, h), a) && c.Below(a, h.target) && !IsActive(c, leaves, a)
    requires c.IsChild(a, r) && r != Toward(c, a, h.target)
    ensures !IsActive(c, NewLeaves(c, leaves, hops), r)
  {
    ActiveAfter(c, leaves, hops, r);
    assert c.NodeOK(ROOT) && c.Below(a, r);
    forall l | l in leaves ensures !c.Anc(r, l) {
      if c.Anc(r, l) { BelowTrans(c, a, r, l); }
    }
    forall g, t | g in hops && t in LeafTargets(c, g.target) ensures !c.Anc(r, t) {
      if c.Anc(r, t) {
        BelowTrans(c, a, r, t);
        FreshSource(c, leaves, hops, h, a, g, t);
        SkippedRegion(c, a, h.target, r, t);
      }
    }
  }

  lemma NoAndBetween(c: Chart, leaves: seq<StateID>, hops: seq<Hop>, h: Hop, a: StateID)
    requires c.Linked() && GoodApart(c, leaves, hops) && h in hops
    requires c.Below(LccaOfHop(c, h), a) && c.Below(a, h.target)
    ensures !c.IsAnd(a)
  {
    if c.IsAnd(a) {
      EnteredFresh(c, leaves, hops, h, a);
      var r := OtherRegion(c, a, h.target);
      ActiveRegion(c, leaves, hops, a, r);
      OffTheWay(c, leaves, hops, h, a, r);
    }
  }

  lemma ActiveRegion(c: Chart, leaves: seq<StateID>, hops: seq<Hop>, a: StateID, r: StateID)
    requires c.Linked() && GoodOutcome(c, leaves, hops) && c.IsAnd(a) && c.IsChild(a, r)
    requires IsActive(c, NewLeaves(c, leaves, hops), a)
    ensures IsActive(c, NewLeaves(c, leaves, hops), r)
  {
    var conf := Active(c, NewLeaves(c, leaves, hops));
    assert a in conf && ChildrenOK(c, conf, a);
  }

  lemma NoAndAbove(c: Chart, leaves: seq<StateID>, hops: seq<Hop>, h: Hop, b: StateID)
    requires c.Linked() && GoodApart(c, leaves, hops) && h in hops
    requires c.Anc(h.target, b) && c.Below(b, LccaOfHop(c, h))
    ensures !c.IsAnd(b)
  {
    if c.IsAnd(b) {
      var p := LccaOfHop(c, h);
      var y := LeafTargetOf(c, h.target);
      LccaOfHopAbove(c, h);
      LeafTargetFirst(c, h.target);
      BelowTrans(c, b, p, y);
      assert y in LeafTargets(c, h.target);
      var r := OtherRegion(c, b, p);
      Completion(c, h.target, b);
      var t :| t in LeafTargets(c, h.target) && c.Anc(r, t);
      NoRunaway(c, leaves, hops, h, t);
      var tp := Toward(c, b, p);
      if tp != p { BelowTrans(c, tp, p, t); }
      TowardUnique(c, b, tp, t);
      TowardUnique(c, b, r, t);
    }
  }

  // ---------------------------------------------------------------- a parallel LCCA

  /** The regions of a parallel LCCA that a hop leaves and enters, unless both ends are one
      atomic region. */
  lemma TwoRegions(c: Chart, h: Hop)
    requires c.Linked() && HopOK(c, h) && c.IsAnd(LccaOfHop(c, h))
    ensures var l, y := LccaOfHop(c, h), LeafTargetOf(c, h.target);
      && c.Below(l, h.source) && c.Below(l, y)
      && (Toward(c, l, h.source) == Toward(c, l, y) ==>
            h.source == y && c.IsChild(l, y))
  {
    var l, y, x := LccaOfHop(c, h), LeafTargetOf(c, h.target), h.source;
    LccaOfHopAbove(c, h);
    var r := Toward(c, l, x);
    if r == Toward(c, l, y) {
      assert c.Below(l, r);
      if c.Below(r, x) && c.Below(r, y) { NotAboveBoth(c, h, r); }
      if r == x && x != y { AtomicNoneBelow(c, x, y); }
      if r == y && x != y { AtomicNoneBelow(c, y, x); }
    }
  }

  /** The region that a hop under a parallel LCCA enters is one atomic leaf, which hops to the
      same target and has the same LCCA. */
  lemma EnteredRegion(c: Chart, leaves: seq<StateID>, hops: seq<Hop>, h: Hop, r: StateID) returns (g: Hop)
    requires c.Linked() && GoodApart(c, leaves, hops) && h in hops
    requires c.IsAnd(LccaOfHop(c, h)) && !Stays(c, h)
    requires c.IsChild(LccaOfHop(c, h), r) && IsActive(c, LeafTargets(c, h.target), r)
    ensures g in hops && g.target == h.target && Exits(c, g, r) && c.Anc(r, g.source)
    ensures LccaOfHop(c, g) == LccaOfHop(c, h)
    ensures c.Anc(r, LeafTargetOf(c, h.target)) ==> r == g.source == LeafTargetOf(c, h.target)
  {
    var l, y := LccaOfHop(c, h), LeafTargetOf(c, h.target);
    LccaOfHopAbove(c, h);
    assert c.NodeOK(ROOT) && c.Below(l, r);
    assert l in Active(c, leaves) && ChildrenOK(c, Active(c, leaves), l);
    EntersIff(c, leaves, hops, h, r);
    g := MustExit(c, leaves, hops, r);
    SameTarget(c, leaves, hops, h, g, r);
    LccaOfHopAbove(c, g);
    BelowTrans(c, l, r, g.source);
    BelowStrictlyBetween(c, l, LccaOfHop(c, g), r);
    if c.Anc(r, y) {
      if c.Below(r, g.source) && c.Below(r, y) { NotAboveBoth(c, g, r); }
      if r == y { AtomicOnly(c, y, g.source); }
      if r == g.source { AtomicOnly(c, r, y); }
    }
  }

  lemma AtomicOnly(c: Chart, a: StateID, s: StateID)
    requires c.Linked() && c.IsAtomic(a) && c.Anc(a, s)
    ensures a == s
  {
    AtomicNoneBelow(c, a, s);
  }

  /** Between two regions of a parallel state: the region left stays empty. */
  lemma EmptyRegion(c: Chart, leaves: seq<StateID>, hops: seq<Hop>, h: Hop, r: StateID)
    requires c.Linked() && GoodApart(c, leaves, hops) && h in hops && !Stays(c, h)
    requires c.IsChild(LccaOfHop(c, h), r) && c.Anc(r, h.source)
    requires forall t :: t in LeafTargets(c, h.target) ==> !c.Anc(r, t)
    ensures !IsActive(c, NewLeaves(c, leaves, hops), r)
  {
    var l := LccaOfHop(c, h);
    LccaOfHopAbove(c, h);
    assert c.NodeOK(ROOT) && c.Below(l, r);
    ActiveAfter(c, leaves, hops, r);
    SourceCleanHolds(c, leaves, hops, h);
    ExitsMeaning(c, h, r);
    forall k | k in leaves && c.Anc(r, k) ensures HopFrom(hops, k).Some? {
      assert Exits(c, h, r);
      HopFromFound(hops, k);
    }
    forall g | g in hops ensures !IsActive(c, LeafTargets(c, g.target), r) {
      if t :| t in LeafTargets(c, g.target) && c.Anc(r, t) {
        assert g.target != h.target;
        NoRunaway(c, leaves, hops, g, t);
        RegionReached(c, leaves, hops, h, g, r, t);
      }
    }
  }

  /** Only a hop that the other's zone holds, or that holds the other, reaches into a region. */
  lemma RegionReached(c: Chart, leaves: seq<StateID>, hops: seq<Hop>, h: Hop, g: Hop, r: StateID, t: StateID)
    requires c.Linked() && Legitimate(c, leaves, hops) && h in hops && g in hops && !Stays(c, h)
    requires c.IsChild(LccaOfHop(c, h), r) && c.Anc(r, t) && t in LeafTargets(c, g.target)
    requires c.Below(LccaOfHop(c, h), r) && c.Below(LccaOfHop(c, g), t)
    ensures InZone(c, h, g.source) || InZone(c, g, h.source)
  {
    var l, k := LccaOfHop(c, h), LccaOfHop(c, g);
    LccaOfHopAbove(c, h);
    LccaOfHopAbove(c, g);
    if Stays(c, g) {
      AndZone(c, g, t);
      if r != t { BelowTrans(c, l, r, t); }
    } else {
      if r != t { AncLinear2(c, r, k, t); }
      if c.Anc(r, k) {
        BelowTrans(c, l, r, k);
        BelowTrans(c, l, k, g.source);
      } else {
        assert c.Below(k, r);
        BelowStrictlyBetween(c, l, k, r);
        AncLinear2(c, l, k, r);
        if k != l { BelowTrans(c, k, l, h.source); }
      }
    }
  }

  lemma LccaKept(c: Chart, leaves: seq<StateID>, hops: seq<Hop>, h: Hop)
    requires c.Linked() && GoodApart(c, leaves, hops) && h in hops
    requires c.IsAnd(LccaOfHop(c, h)) && !Stays(c, h)
    ensures var conf := Active(c, NewLeaves(c, leaves, hops));
      LccaOfHop(c, h) in conf && AllChildren(c, conf, LccaOfHop(c, h))
  {
    var l, y := LccaOfHop(c, h), LeafTargetOf(c, h.target);
    var conf := Active(c, NewLeaves(c, leaves, hops));
    LccaOfHopAbove(c, h);
    assert h.source in leaves && c.Anc(l, h.source);
    if k :| k in hops && Exits(c, k, l) {
      ExitsMeaning(c, k, l);
      if k.source == l { AtomicNoneBelow(c, l, y); }
      assert InZone(c, h, k.source);
      NotAboveBoth(c, k, l);
    }
    assert BalancedAt(c, leaves, hops, l);
    assert ChildrenOK(c, conf, l);
  }

  lemma RestartAbove(c: Chart, leaves: seq<StateID>, hops: seq<Hop>, h: Hop)
    requires c.Linked() && GoodApart(c, leaves, hops) && h in hops
    requires c.IsAnd(LccaOfHop(c, h)) && !Stays(c, h)
    ensures c.Anc(h.target, LccaOfHop(c, h))
  {
    var l, y, d, x := LccaOfHop(c, h), LeafTargetOf(c, h.target), h.target, h.source;
    TwoRegions(c, h);
    LeafTargetFirst(c, d);
    LeafTargetsAtomic(c, d, y);
    if d != y { AncLinear2(c, d, l, y); }
    if !c.Anc(d, l) {
      assert c.Below(l, d) && c.Anc(d, y);
      var rx, ry := Toward(c, l, x), Toward(c, l, y);
      if rx == ry {
        BelowStrictlyBetween(c, l, d, y);
      } else {
        assert y in LeafTargets(c, d) && c.Anc(ry, y);
        var g := EnteredRegion(c, leaves, hops, h, ry);
        BelowStrictlyBetween(c, l, d, y);
        assert LeafTargets(c, d) == [y];
        if c.Anc(rx, y) { TowardUnique(c, l, rx, y); }
        EmptyRegion(c, leaves, hops, h, rx);
        LccaKept(c, leaves, hops, h);
      }
    }
  }

  lemma RestartLeaf(c: Chart, leaves: seq<StateID>, hops: seq<Hop>, h: Hop, l: StateID)
    requires c.Linked() && GoodApart(c, leaves, hops) && h in hops
    requires c.IsAnd(LccaOfHop(c, h)) && !Stays(c, h) && c.Anc(h.target, LccaOfHop(c, h))
    requires l in leaves && c.Below(LccaOfHop(c, h), l)
    ensures Hop(l, h.target) in hops && LccaOfHop(c, Hop(l, h.target)) == LccaOfHop(c, h)
  {
    var p, y := LccaOfHop(c, h), LeafTargetOf(c, h.target);
    LccaOfHopAbove(c, h);
    LeafTargetFirst(c, h.target);
    assert y in LeafTargets(c, h.target);
    Completion(c, h.target, p);
    var r := Toward(c, p, l);
    var g := EnteredRegion(c, leaves, hops, h, r);
    SourceCleanHolds(c, leaves, hops, g);
    forall a | c.Below(a, l) && c.Below(a, y) ensures a == p || c.Below(a, p) {
      AncLinear2(c, a, p, l);
      if c.Below(p, a) {
        BelowMeansTowardAbove(c, p, a, l);
        if r != a { BelowTrans(c, r, a, y); }
      }
    }
    LccaUnique(c, l, y, p);
  }

  // ---------------------------------------------------------------- the results

  lemma GoodTarget(c: Chart, leaves: seq<StateID>, hops: seq<Hop>, h: Hop)
    requires c.Linked() && GoodApart(c, leaves, hops) && h in hops
    ensures Stays(c, h) || !c.IsAnd(LccaOfHop(c, h)) ==> TargetClean(c, h)
    ensures c.IsAnd(LccaOfHop(c, h)) && c.Anc(h.target, LccaOfHop(c, h)) ==> Restarts(c, h)
  {
    var p := LccaOfHop(c, h);
    LccaOfHopAbove(c, h);
    forall a | c.Below(p, a) && c.Below(a, h.target) ensures !c.IsAnd(a) {
      NoAndBetween(c, leaves, hops, h, a);
    }
    forall b | c.Anc(h.target, b) && c.Below(b, p) ensures !c.IsAnd(b) {
      NoAndAbove(c, leaves, hops, h, b);
    }
    if Stays(c, h) && c.Anc(h.source, p) {
      AtomicOnly(c, h.source, p);
      BelowRank(c, p, h.source);
    }
  }

  lemma GoodIsClean(c: Chart, leaves: seq<StateID>, hops: seq<Hop>, h: Hop)
    requires c.Linked() && GoodApart(c, leaves, hops) && h in hops
    ensures HopClean(c, leaves, hops, h)
  {
    SourceCleanHolds(c, leaves, hops, h);
    GoodTarget(c, leaves, hops, h);
    if c.IsAnd(LccaOfHop(c, h)) && !Stays(c, h) {
      RestartAbove(c, leaves, hops, h);
      forall l | l in leaves && c.Below(LccaOfHop(c, h), l)
        ensures Hop(l, h.target) in hops && LccaOfHop(c, Hop(l, h.target)) == LccaOfHop(c, h)
      {
        RestartLeaf(c, leaves, hops, h, l);
      }
    }
  }

  lemma CleanIsApart(c: Chart, leaves: seq<StateID>, hops: seq<Hop>)
    requires c.Linked() && Legitimate(c, leaves, hops) && CleanStep(c, leaves, hops)
    ensures Apart(c, hops)
  {
    forall g, h | g in hops && h in hops && InZone(c, h, g.source) ensures g.target == h.target {
      ZoneLeaf(c, leaves, hops, h, g.source);
      HopFromUnique(c, leaves, hops, g);
      HopFromUnique(c, leaves, hops, Hop(g.source, h.target));
    }
  }

  /** For any step from a legal configuration, however many leaves take transitions: it is clean
      if and only if its hops are apart and its outcome is legal and balanced. */
  lemma CleanStepExact(c: Chart, leaves: seq<StateID>, hops: seq<Hop>)
    requires c.Linked() && Legitimate(c, leaves, hops)
    ensures CleanStep(c, leaves, hops) <==> Apart(c, hops) && GoodOutcome(c, leaves, hops)
  {
    if CleanStep(c, leaves, hops) {
      CleanIsApart(c, leaves, hops);
      CleanIsJoint(c, leaves, hops);
      StepLegal(c, leaves, hops);
      forall s | s in c.nodes ensures BalancedAt(c, leaves, hops, s) {
        StepBalance(c, leaves, hops, s);
      }
    } else if Apart(c, hops) && GoodOutcome(c, leaves, hops) {
      forall h | h in hops ensures HopClean(c, leaves, hops, h) {
        GoodIsClean(c, leaves, hops, h);
      }
    }
  }

  /** When all transitions of a step have one target, as for a single transition and for one that
      several leaves take together, cleanness is exactly what a good outcome needs. */
  lemma CommonTargetExact(c: Chart, leaves: seq<StateID>, hops: seq<Hop>)
    requires c.Linked() && Legitimate(c, leaves, hops)
    requires forall g, h :: g in hops && h in hops ==> g.target == h.target
    ensures GoodOutcome(c, leaves, hops) <==> CleanStep(c, leaves, hops)
  {
    CleanStepExact(c, leaves, hops);
  }

  // ---------------------------------------------------------------- hops that act together

  ghost predicate GoodTogether(c: Chart, leaves: seq<StateID>, hops: seq<Hop>)
    requires c.Linked()
  {
    Legitimate(c, leaves, hops) && Together(c, leaves, hops) && GoodOutcome(c, leaves, hops)
  }

  lemma GoodNotAstray(c: Chart, leaves: seq<StateID>, hops: seq<Hop>, g: Hop, t: StateID)
    requires c.Linked() && GoodTogether(c, leaves, hops) && g in hops && t in LeafTargets(c, g.target)
    ensures c.Below(LccaOfHop(c, g), t)
  {
    if !c.Below(LccaOfHop(c, g), t) {
      var q := AstrayEnters(c, g, t);
      assert g.source in leaves && c.Anc(q, g.source);
      var k := MustExit(c, leaves, hops, q);
      ExitInReach(c, leaves, hops, k, q);
      LccaOutside(c, leaves, hops, g, q);
    }
  }

  /** In the legal outcome the hops of each LCCA have completed it. */
  lemma GoodCompletes(c: Chart, leaves: seq<StateID>, hops: seq<Hop>, h: Hop)
    requires c.Linked() && GoodTogether(c, leaves, hops) && NoneAstray(c, hops) && h in hops
    ensures Completes(c, hops, LccaOfHop(c, h))
  {
    var p := LccaOfHop(c, h);
    var conf := Active(c, NewLeaves(c, leaves, hops));
    assert c.NodeOK(ROOT);
    if !OnlyStays(c, hops, p) {
      if p != ROOT { LccaStaysActive(c, leaves, hops, h); }
      assert ChildrenOK(c, conf, p) && (p == ROOT ==> OneChild(c, conf, p));
      ChildrenInReach(c, leaves, hops, p, p);
      SameInReach(c, leaves, hops, h, p);
      forall s | s in Brought(c, hops, p) && c.Below(p, s) ensures ChildrenOK(c, Brought(c, hops, p), s) {
        AfterInReach(c, leaves, hops, h, s);
        assert ChildrenOK(c, conf, s);
        SameChildrenAt(c, leaves, hops, h, s);
      }
    }
  }

  lemma LccaStaysActive(c: Chart, leaves: seq<StateID>, hops: seq<Hop>, h: Hop)
    requires c.Linked() && HopsFor(c, leaves, hops) && h in hops && LccaOfHop(c, h) != ROOT
    ensures LccaOfHop(c, h) in Active(c, NewLeaves(c, leaves, hops))
  {
    LccaOfHopAbove(c, h);
    BelowRank(c, LccaOfHop(c, h), h.source);
    AboveLcca(c, h, LccaOfHop(c, h));
    ActiveAfter(c, leaves, hops, LccaOfHop(c, h));
  }

  /** For any step in which every active leaf that hops may change hops with their LCCA, to
      whatever targets: the outcome is legal and balanced if and only if the default leaves of all
      targets together complete each LCCA. */
  lemma JointStepExact(c: Chart, leaves: seq<StateID>, hops: seq<Hop>)
    requires c.Linked() && Legitimate(c, leaves, hops) && Together(c, leaves, hops)
    ensures GoodOutcome(c, leaves, hops) <==> JointStep(c, leaves, hops)
  {
    if JointStep(c, leaves, hops) {
      StepLegal(c, leaves, hops);
      forall s | s in c.nodes ensures BalancedAt(c, leaves, hops, s) {
        StepBalance(c, leaves, hops, s);
      }
    }
    if GoodOutcome(c, leaves, hops) {
      forall g, t | g in hops && t in LeafTargets(c, g.target) ensures c.Below(LccaOfHop(c, g), t) {
        GoodNotAstray(c, leaves, hops, g, t);
      }
      forall h | h in hops ensures Completes(c, hops, LccaOfHop(c, h)) {
        GoodCompletes(c, leaves, hops, h);
      }
    }
  }
}
