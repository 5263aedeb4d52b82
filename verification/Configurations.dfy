/** Legal configurations (section 3.11 of the W3C SCXML Recommendation, 2015) and what one
    microstep does to them. A microstep is a list of hops, one per enabled leaf; the actions
    play no part here. */
module Configurations {
  import opened Seqs
  import opened Charts
  import opened Navigation

  /** One enabled transition: from an active leaf to a declared target. */
  datatype Hop = Hop(source: StateID, target: StateID)

  // ---------------------------------------------------------------- legality

  ghost function Active(c: Chart, leaves: seq<StateID>): set<StateID>
    requires c.Linked()
  {
    set s | s in c.nodes && IsActive(c, leaves, s)
  }

  /** `p` (ROOT included) has exactly one active child. */
  ghost predicate OneChild(c: Chart, conf: set<StateID>, p: StateID) {
    exists ch :: IsOnlyChild(c, conf, p, ch)
  }

  ghost predicate IsOnlyChild(c: Chart, conf: set<StateID>, p: StateID, ch: StateID) {
    && c.IsChild(p, ch) && ch in conf
    && forall o :: c.IsChild(p, o) && o in conf ==> o == ch
  }

  ghost predicate AllChildren(c: Chart, conf: set<StateID>, p: StateID) {
    forall o :: c.IsChild(p, o) ==> o in conf
  }

  ghost predicate ChildrenOK(c: Chart, conf: set<StateID>, s: StateID) {
    c.IsCompound(s) ==> if c.IsAnd(s) then AllChildren(c, conf, s) else OneChild(c, conf, s)
  }

  ghost predicate ParentIn(c: Chart, conf: set<StateID>, s: StateID) {
    c.Par(s) == ROOT || c.Par(s) in conf
  }

  /** One top-level state, the parent of every member, one child of every OR state and every
      child of every AND state. */
  ghost predicate Legal(c: Chart, conf: set<StateID>) {
    && conf <= c.nodes.Keys
    && (forall s {:trigger ParentIn(c, conf, s)} :: s in conf ==> ParentIn(c, conf, s))
    && OneChild(c, conf, ROOT)
    && forall s {:trigger ChildrenOK(c, conf, s)} :: s in conf ==> ChildrenOK(c, conf, s)
  }

  /** A non-empty list of atomic states. */
  ghost predicate LeafList(c: Chart, leaves: seq<StateID>) {
    leaves != [] && forall l :: l in leaves ==> c.IsAtomic(l)
  }

  /** The first occurrences come in definition order. */
  ghost predicate FirstsIncrease(c: Chart, leaves: seq<StateID>) {
    forall i, j :: 0 <= i < j < |leaves| && leaves[j] !in leaves[..j] ==>
      c.Rank(leaves[i]) < c.Rank(leaves[j])
  }

  // ---------------------------------------------------------------- one hop

  ghost function LccaOfHop(c: Chart, h: Hop): StateID
    requires c.Linked()
  {
    LccaOf(c, h.source, LeafTargetOf(c, h.target))
  }

  ghost predicate HopOK(c: Chart, h: Hop) {
    c.IsAtomic(h.source) && h.target in c.nodes
  }

  ghost predicate Exits(c: Chart, h: Hop, s: StateID)
    requires c.Linked()
  {
    s in PathUp(c, h.source, LccaOfHop(c, h))
  }

  ghost predicate Enters(c: Chart, h: Hop, s: StateID)
    requires c.Linked()
  {
    exists t :: t in LeafTargets(c, h.target) && s in PathUp(c, t, LccaOfHop(c, h))
  }

  /** No parallel state is entered, or re-entered, through one region only. */
  ghost predicate TargetClean(c: Chart, h: Hop)
    requires c.Linked()
  {
    var y := LeafTargetOf(c, h.target);
    var l := LccaOfHop(c, h);
    && (c.IsAnd(l) ==> h.target == h.source == y)
    && (forall a :: c.Below(l, a) && c.Below(a, h.target) ==> !c.IsAnd(a))
    && (c.Anc(h.target, l) ==>
          forall a :: c.Anc(h.target, a) && c.Anc(a, l) ==> !c.IsAnd(a))
  }

  /** Every active leaf under a state that the hop exits takes a hop to the same target. */
  ghost predicate SourceClean(c: Chart, leaves: seq<StateID>, hops: seq<Hop>, h: Hop)
    requires c.Linked()
  {
    forall l, s :: l in leaves && Exits(c, h, s) && c.Anc(s, l) ==> Hop(l, h.target) in hops
  }

  /** The self-transition of a leaf that is itself a region: nothing but that leaf changes. */
  ghost predicate Stays(c: Chart, h: Hop)
    requires c.Linked()
  {
    c.IsAnd(LccaOfHop(c, h)) && h.target == h.source
  }

  /** The hop goes back into the parallel state it comes from, by way of a target that is that
      state or encloses it, with only OR states between. */
  ghost predicate Restarts(c: Chart, h: Hop)
    requires c.Linked()
  {
    var l := LccaOfHop(c, h);
    && c.IsAnd(l) && c.Anc(h.target, l)
    && forall a :: c.Anc(h.target, a) && c.Below(a, l) ==> !c.IsAnd(a)
  }

  /** All active leaves of the parallel state restart it together. */
  ghost predicate JointRestart(c: Chart, leaves: seq<StateID>, hops: seq<Hop>, h: Hop)
    requires c.Linked()
  {
    && Restarts(c, h)
    && forall l :: l in leaves && c.Below(LccaOfHop(c, h), l) ==>
         Hop(l, h.target) in hops && LccaOfHop(c, Hop(l, h.target)) == LccaOfHop(c, h)
  }

  ghost predicate HopClean(c: Chart, leaves: seq<StateID>, hops: seq<Hop>, h: Hop)
    requires c.Linked()
  {
    (TargetClean(c, h) && SourceClean(c, leaves, hops, h)) || JointRestart(c, leaves, hops, h)
  }

  ghost predicate CleanStep(c: Chart, leaves: seq<StateID>, hops: seq<Hop>)
    requires c.Linked()
  {
    forall h :: h in hops ==> HopClean(c, leaves, hops, h)
  }

  /** What a clean hop's target looks like. */
  ghost predicate TargetOK(c: Chart, h: Hop)
    requires c.Linked()
  {
    TargetClean(c, h) || Restarts(c, h)
  }

  /** What the interpreter's collection loop guarantees of its pending list. */
  ghost predicate HopsFor(c: Chart, leaves: seq<StateID>, hops: seq<Hop>) {
    && (forall h :: h in hops ==> HopOK(c, h) && h.source in leaves)
    && forall i, j :: 0 <= i < j < |hops| ==> hops[i].source != hops[j].source
  }

  function HopFrom(hops: seq<Hop>, leaf: StateID): Option<Hop> {
    if hops == [] then None
    else if hops[|hops| - 1].source == leaf then Some(hops[|hops| - 1])
    else HopFrom(hops[..|hops| - 1], leaf)
  }

  /** Each leaf that hops is replaced in place by the default leaves of its target. */
  function NewLeaves(c: Chart, leaves: seq<StateID>, hops: seq<Hop>): seq<StateID>
    requires c.Linked()
  {
    if leaves == [] then []
    else NewLeaves(c, leaves[..|leaves| - 1], hops) + Image(c, leaves[|leaves| - 1], hops)
  }

  function Image(c: Chart, leaf: StateID, hops: seq<Hop>): seq<StateID>
    requires c.Linked()
  {
    var h := HopFrom(hops, leaf);
    if h.Some? then LeafTargets(c, h.value.target) else [leaf]
  }

  // ---------------------------------------------------------------- default completion

  /** Below a region of a parallel state, only that region's default leaves count. */
  lemma RegionActive(c: Chart, d: StateID, ch: StateID, x: StateID)
    requires c.Linked() && c.IsAnd(d) && c.IsChild(d, ch) && c.Anc(ch, x)
    ensures IsActive(c, LeafTargets(c, d), x) <==> IsActive(c, LeafTargets(c, ch), x)
  {
    assert c.NodeOK(d) && c.NodeOK(ROOT);
    ChildListed(c, d, ch);
    var kids := c.nodes[d].children;
    if IsActive(c, LeafTargets(c, d), x) {
      var t :| t in LeafTargets(c, d) && c.Anc(x, t);
      var i := RegionTargetsSource(c, d, |kids|, t);
      ListedChild(c, d, kids[i]);
      LeafTargetsAtomic(c, kids[i], t);
      if ch != x { BelowTrans(c, ch, x, t); }
      TowardUnique(c, d, ch, t);
      TowardUnique(c, d, kids[i], t);
    }
    if IsActive(c, LeafTargets(c, ch), x) {
      var t :| t in LeafTargets(c, ch) && c.Anc(x, t);
      var i :| 0 <= i < |kids| && kids[i] == ch;
      RegionTargetsContain(c, d, |kids|, i, t);
    }
  }

  ghost predicate CompletedAt(c: Chart, t: seq<StateID>, s: StateID)
    requires c.Linked()
  {
    c.IsCompound(s) ==>
      if c.IsAnd(s) then AllChildren(c, Active(c, t), s) else OneChild(c, Active(c, t), s)
  }

  /** Only the child towards the leaves is active when all leaves are under it. */
  lemma OnlyToward(c: Chart, t: seq<StateID>, s: StateID, ch: StateID)
    requires c.Linked() && c.IsChild(s, ch) && t != []
    requires forall x :: x in t ==> c.Anc(ch, x)
    ensures OneChild(c, Active(c, t), s)
  {
    assert t[0] in t;
    forall o | c.IsChild(s, o) && o in Active(c, t) ensures o == ch {
      var x :| x in t && c.Anc(o, x);
      TowardUnique(c, s, o, x);
      TowardUnique(c, s, ch, x);
    }
    assert IsOnlyChild(c, Active(c, t), s, ch);
  }

  /** The default leaves of `d` complete every active state at or below `d`. */
  lemma {:induction false} Completion(c: Chart, d: StateID, s: StateID)
    requires c.Linked() && d in c.nodes && c.Anc(d, s) && IsActive(c, LeafTargets(c, d), s)
    ensures CompletedAt(c, LeafTargets(c, d), s)
    decreases Descent(c, d)
  {
    assert c.NodeOK(d) && c.NodeOK(s) && c.NodeOK(ROOT);
    var ts := LeafTargets(c, d);
    if s == d {
      if c.IsAnd(d) {
        forall ch | c.IsChild(d, ch) ensures ch in Active(c, ts) {
          LeafTargetFirst(c, ch);
          LeafTargetsAtomic(c, ch, LeafTargets(c, ch)[0]);
          RegionActive(c, d, ch, ch);
        }
      } else if c.IsCompound(d) {
        var init := c.nodes[d].initial;
        ListedChild(c, d, init);
        forall x | x in ts ensures c.Anc(init, x) { LeafTargetsAtomic(c, init, x); }
        OnlyToward(c, ts, d, init);
      }
    } else if c.IsAnd(d) {
      var ch := Toward(c, d, s);
      ChildListed(c, d, ch);
      ChildDescends(c, d, ch);
      RegionActive(c, d, ch, s);
      Completion(c, ch, s);
      forall o | c.IsChild(s, o) ensures o in Active(c, ts) <==> o in Active(c, LeafTargets(c, ch)) {
        if s != ch { BelowTrans(c, ch, s, o); }
        RegionActive(c, d, ch, o);
      }
      SameChildren(c, Active(c, LeafTargets(c, ch)), Active(c, ts), s);
    } else {
      var t :| t in ts && c.Anc(s, t);
      var ch := Toward(c, d, s);
      ChildListed(c, d, ch);
      var init := c.nodes[d].initial;
      ListedChild(c, d, init);
      LeafTargetsAtomic(c, init, t);
      TowardUnique(c, d, init, t);
      if ch != s { BelowTrans(c, ch, s, t); }
      TowardUnique(c, d, ch, t);
      ChildDescends(c, d, ch);
      Completion(c, ch, s);
    }
  }

  /** The child conditions at `s` depend only on which children of `s` are active. */
  lemma SameChildren(c: Chart, a: set<StateID>, b: set<StateID>, s: StateID)
    requires forall o :: c.IsChild(s, o) ==> (o in a <==> o in b)
    ensures OneChild(c, a, s) <==> OneChild(c, b, s)
    ensures AllChildren(c, a, s) <==> AllChildren(c, b, s)
  {
    if OneChild(c, a, s) {
      var ch :| IsOnlyChild(c, a, s, ch);
      assert IsOnlyChild(c, b, s, ch);
    }
    if OneChild(c, b, s) {
      var ch :| IsOnlyChild(c, b, s, ch);
      assert IsOnlyChild(c, a, s, ch);
    }
  }

  // ---------------------------------------------------------------- the entered part

  /** Going down from `d` through OR states only, the default leaves are those of the state
      reached. */
  lemma {:induction false} DescendThroughOrs(c: Chart, d: StateID, l: StateID, y: StateID)
    requires c.Linked() && c.Anc(d, l) && y == LeafTargetOf(c, d) && c.Below(l, y)
    requires d in c.nodes
    requires forall a :: c.Anc(d, a) && c.Anc(a, l) ==> !c.IsAnd(a)
    ensures LeafTargets(c, d) == LeafTargets(c, Toward(c, l, y))
    decreases Descent(c, d)
  {
    assert c.NodeOK(d) && c.NodeOK(ROOT);
    assert c.Below(d, y) by { if d != l { BelowTrans(c, d, l, y); } }
    var down := Toward(c, d, y);
    ChildListed(c, d, down);
    assert !c.IsAnd(d);
    var init := c.nodes[d].initial;
    ListedChild(c, d, init);
    ChildDescends(c, d, init);
    LeafTargetFirst(c, init);
    LeafTargetsAtomic(c, init, y);
    TowardUnique(c, d, init, y);
    if d != l {
      BelowMeansTowardAbove(c, d, l, y);
      forall a | c.Anc(init, a) && c.Anc(a, l) ensures !c.IsAnd(a) {
        BelowTrans(c, d, init, a);
      }
      DescendThroughOrs(c, init, l, y);
    }
  }

  /** As above, down to `l` itself. */
  lemma {:induction false} DescendTo(c: Chart, d: StateID, l: StateID, y: StateID)
    requires c.Linked() && c.Anc(d, l) && y == LeafTargetOf(c, d) && c.Below(l, y)
    requires d in c.nodes
    requires forall a :: c.Anc(d, a) && c.Below(a, l) ==> !c.IsAnd(a)
    ensures LeafTargets(c, d) == LeafTargets(c, l)
    decreases Descent(c, d)
  {
    assert c.NodeOK(d) && c.NodeOK(ROOT);
    if d != l {
      BelowTrans(c, d, l, y);
      var down := Toward(c, d, y);
      ChildListed(c, d, down);
      var init := c.nodes[d].initial;
      ListedChild(c, d, init);
      ChildDescends(c, d, init);
      LeafTargetFirst(c, init);
      LeafTargetsAtomic(c, init, y);
      TowardUnique(c, d, init, y);
      BelowMeansTowardAbove(c, d, l, y);
      forall a | c.Anc(init, a) && c.Below(a, l) ensures !c.IsAnd(a) {
        BelowTrans(c, d, init, a);
      }
      DescendTo(c, init, l, y);
    }
  }

  /** A restart enters the default leaves of the parallel state. */
  lemma RestartTargets(c: Chart, h: Hop)
    requires c.Linked() && HopOK(c, h) && Restarts(c, h)
    ensures LeafTargets(c, h.target) == LeafTargets(c, LccaOfHop(c, h)) && h.target != h.source
    ensures forall t :: t in LeafTargets(c, h.target) ==> c.Below(LccaOfHop(c, h), t)
  {
    var l := LccaOfHop(c, h);
    LccaOfHopAbove(c, h);
    DescendTo(c, h.target, l, LeafTargetOf(c, h.target));
    forall t | t in LeafTargets(c, h.target) ensures c.Below(l, t) {
      LeafTargetsAtomic(c, l, t);
    }
    if h.target == h.source {
      if h.target != l { AtomicNoneBelow(c, h.source, l); }
      BelowRank(c, l, h.source);
    }
  }

  /** Some state below the LCCA has the target's default leaves, with only OR states between. */
  lemma EffectiveTarget(c: Chart, h: Hop) returns (e: StateID)
    requires c.Linked() && HopOK(c, h) && TargetClean(c, h)
    ensures c.Below(LccaOfHop(c, h), e) && LeafTargets(c, e) == LeafTargets(c, h.target)
    ensures forall a :: c.Below(LccaOfHop(c, h), a) && c.Below(a, e) ==> !c.IsAnd(a)
  {
    var y := LeafTargetOf(c, h.target);
    var l := LccaOfHop(c, h);
    LeafTargetFirst(c, h.target);
    LeafTargetsAtomic(c, h.target, y);
    LccaDeepest(c, h.source, y);
    assert c.NodeOK(ROOT);
    if c.Anc(h.target, l) {
      DescendThroughOrs(c, h.target, l, y);
      e := Toward(c, l, y);
      forall a ensures !(c.Below(l, a) && c.Below(a, e)) {
        BelowStrictlyBetween(c, l, a, e);
      }
    } else {
      e := h.target;
      if l == ROOT {
        RootAboveAll(c, e);
      } else {
        AncLinear(c, l, e, y);
      }
    }
  }

  /** Nothing lies strictly between a state and its child. */
  lemma BelowStrictlyBetween(c: Chart, l: StateID, a: StateID, e: StateID)
    requires c.Linked() && c.IsChild(l, e)
    ensures !(c.Below(l, a) && c.Below(a, e))
  {
    assert c.NodeOK(e) && c.NodeOK(ROOT);
    if c.Below(l, a) && c.Below(a, e) {
      BelowRank(c, l, a);
      BelowRank(c, a, l);
    }
  }

  /** All default leaves of a clean target lie under the LCCA. */
  lemma TargetsBelowLcca(c: Chart, h: Hop, t: StateID)
    requires c.Linked() && HopOK(c, h) && TargetOK(c, h) && t in LeafTargets(c, h.target)
    ensures c.Below(LccaOfHop(c, h), t)
  {
    if TargetClean(c, h) {
      var e := EffectiveTarget(c, h);
      LeafTargetsAtomic(c, e, t);
      BelowTrans(c, LccaOfHop(c, h), e, t);
    } else {
      RestartTargets(c, h);
    }
  }

  /** A hop whose default leaves all lie below its LCCA enters what is above them and below it. */
  lemma EntersBelow(c: Chart, h: Hop, s: StateID)
    requires c.Linked() && forall t :: t in LeafTargets(c, h.target) ==> c.Below(LccaOfHop(c, h), t)
    ensures Enters(c, h, s) <==>
      c.Below(LccaOfHop(c, h), s) && IsActive(c, LeafTargets(c, h.target), s)
  {
    forall t | t in LeafTargets(c, h.target)
      ensures s in PathUp(c, t, LccaOfHop(c, h)) <==> c.Anc(s, t) && c.Below(LccaOfHop(c, h), s)
    {
      PathUpElements(c, t, LccaOfHop(c, h), s);
    }
  }

  lemma EntersMeaning(c: Chart, h: Hop, s: StateID)
    requires c.Linked() && HopOK(c, h) && TargetOK(c, h)
    ensures Enters(c, h, s) <==>
      c.Below(LccaOfHop(c, h), s) && IsActive(c, LeafTargets(c, h.target), s)
  {
    forall t | t in LeafTargets(c, h.target) ensures c.Below(LccaOfHop(c, h), t) {
      TargetsBelowLcca(c, h, t);
    }
    EntersBelow(c, h, s);
  }

  lemma ExitsMeaning(c: Chart, h: Hop, s: StateID)
    requires c.Linked() && HopOK(c, h)
    ensures Exits(c, h, s) <==> c.Below(LccaOfHop(c, h), s) && c.Anc(s, h.source)
  {
    LccaOfHopAbove(c, h);
    PathUpElements(c, h.source, LccaOfHop(c, h), s);
  }

  lemma LccaOfHopAbove(c: Chart, h: Hop)
    requires c.Linked() && HopOK(c, h)
    ensures var y := LeafTargetOf(c, h.target); var l := LccaOfHop(c, h);
      && c.IsAtomic(y) && c.Below(l, h.source) && c.Below(l, y)
      && forall a :: c.Below(a, h.source) && c.Below(a, y) ==> a == l || c.Below(a, l)
  {
    var y := LeafTargetOf(c, h.target);
    LeafTargetFirst(c, h.target);
    LeafTargetsAtomic(c, h.target, y);
    LccaDeepest(c, h.source, y);
  }

  lemma CleanEnteredComplete(c: Chart, h: Hop, s: StateID)
    requires c.Linked() && HopOK(c, h) && TargetClean(c, h)
    requires (s == LccaOfHop(c, h) && !c.IsAnd(s)) || Enters(c, h, s)
    ensures var t := Active(c, LeafTargets(c, h.target));
      if c.IsAnd(s) then AllChildren(c, t, s)
      else c.IsCompound(s) || s == ROOT ==> OneChild(c, t, s)
  {
    var l := LccaOfHop(c, h);
    var e := EffectiveTarget(c, h);
    var ts := LeafTargets(c, e);
    assert c.NodeOK(ROOT);
    LeafTargetFirst(c, h.target);
    EntersMeaning(c, h, s);
    if c.Below(l, s) { BelowRank(c, l, s); }
    if c.Anc(e, s) {
      if s == l { BelowRank(c, l, e); if e != l { BelowRank(c, e, l); } }
      Completion(c, e, s);
    } else {
      assert c.Below(s, e) by {
        if s != l {
          var t :| t in ts && c.Anc(s, t);
          LeafTargetsAtomic(c, e, t);
          AncLinear(c, s, e, t);
        }
      }
      assert !c.IsAnd(s) by {
        if s != l { assert c.Below(l, s) && c.Below(s, e); }
      }
      var ch := Toward(c, s, e);
      forall x | x in ts ensures c.Anc(ch, x) {
        LeafTargetsAtomic(c, e, x);
        if ch != e { BelowTrans(c, ch, e, x); }
      }
      OnlyToward(c, ts, s, ch);
    }
  }

  /** The entered part is complete: at the LCCA (unless the hop only stays) and at every entered
      state. */
  lemma EnteredComplete(c: Chart, h: Hop, s: StateID)
    requires c.Linked() && HopOK(c, h) && TargetOK(c, h)
    requires (s == LccaOfHop(c, h) && !Stays(c, h)) || Enters(c, h, s)
    ensures var t := Active(c, LeafTargets(c, h.target));
      if c.IsAnd(s) then AllChildren(c, t, s)
      else c.IsCompound(s) || s == ROOT ==> OneChild(c, t, s)
  {
    if Restarts(c, h) {
      var l := LccaOfHop(c, h);
      RestartTargets(c, h);
      EntersMeaning(c, h, s);
      LeafTargetFirst(c, l);
      var y := LeafTargets(c, l)[0];
      assert y in LeafTargets(c, l) && c.Below(l, y);
      assert c.NodeOK(ROOT) && s in c.nodes;
      Completion(c, l, s);
    } else {
      CleanEnteredComplete(c, h, s);
    }
  }

  // ---------------------------------------------------------------- zones

  /** The part of the tree a hop may change. */
  ghost predicate InZone(c: Chart, h: Hop, s: StateID)
    requires c.Linked()
  {
    if Stays(c, h) then s == h.source else c.Below(LccaOfHop(c, h), s)
  }

  /** A legal configuration and hops that the interpreter may have collected from it. */
  ghost predicate Legitimate(c: Chart, leaves: seq<StateID>, hops: seq<Hop>)
    requires c.Linked()
  {
    LeafList(c, leaves) && Legal(c, Active(c, leaves)) && HopsFor(c, leaves, hops)
  }

  lemma AndZone(c: Chart, h: Hop, s: StateID)
    requires c.Linked() && HopOK(c, h) && Stays(c, h)
    ensures c.Par(h.source) == LccaOfHop(c, h) && LeafTargets(c, h.target) == [h.source]
    ensures c.Below(LccaOfHop(c, h), s) && c.Anc(s, h.source) ==> s == h.source
  {
    var l := LccaOfHop(c, h);
    LccaOfHopAbove(c, h);
    assert c.NodeOK(h.source) && c.NodeOK(ROOT);
    assert c.Below(c.Par(h.source), h.source);
    if c.Par(h.source) != l { BelowRank(c, c.Par(h.source), l); BelowRank(c, l, c.Par(h.source)); }
    if c.Below(l, s) && c.Anc(s, h.source) && s != h.source {
      BelowStrictlyBetween(c, l, s, h.source);
    }
  }

  lemma AtomicNoneBelow(c: Chart, a: StateID, s: StateID)
    requires c.Linked() && c.IsAtomic(a)
    ensures !c.Below(a, s)
  {
    if c.Below(a, s) {
      var t := Toward(c, a, s);
      assert c.NodeOK(ROOT);
      ChildListed(c, a, t);
    }
  }

  /** Two active leaves below an OR state (or ROOT) are below the same child of it. */
  lemma SameBranch(c: Chart, leaves: seq<StateID>, p: StateID, x: StateID, y: StateID)
    requires c.Linked() && Legal(c, Active(c, leaves)) && !c.IsAnd(p)
    requires x in leaves && y in leaves && c.Below(p, x) && c.Below(p, y)
    ensures Toward(c, p, x) == Toward(c, p, y)
  {
    var a, b := Toward(c, p, x), Toward(c, p, y);
    assert c.NodeOK(ROOT);
    assert a in Active(c, leaves) && b in Active(c, leaves);
    if p != ROOT {
      ChildListed(c, p, a);
      assert p in Active(c, leaves);
      assert ChildrenOK(c, Active(c, leaves), p);
    }
  }

  /** Every active leaf in a hop's zone hops to the same target, with the same LCCA. */
  lemma ZoneLeaf(c: Chart, leaves: seq<StateID>, hops: seq<Hop>, h: Hop, l: StateID)
    requires c.Linked() && Legitimate(c, leaves, hops) && CleanStep(c, leaves, hops)
    requires h in hops && l in leaves && InZone(c, h, l)
    ensures Hop(l, h.target) in hops && LccaOfHop(c, Hop(l, h.target)) == LccaOfHop(c, h)
  {
    var p := LccaOfHop(c, h);
    var y := LeafTargetOf(c, h.target);
    LccaOfHopAbove(c, h);
    assert HopClean(c, leaves, hops, h);
    if Stays(c, h) {
      assert h == Hop(l, h.target);
    } else if JointRestart(c, leaves, hops, h) {
    } else {
      SameBranch(c, leaves, p, l, h.source);
      var t := Toward(c, p, l);
      assert c.Below(p, t);
      ExitsMeaning(c, h, t);
      assert Exits(c, h, t) && c.Anc(t, l);
      forall a | c.Below(a, l) && c.Below(a, y) ensures a == p || c.Below(a, p) {
        AncLinear2(c, a, p, l);
        if c.Below(p, a) {
          BelowMeansTowardAbove(c, p, a, l);
          // t is at or above a, hence strictly above y, and above the source
          if t != a { BelowTrans(c, t, a, y); }
          assert c.Below(t, y);
          if t == h.source { AtomicNoneBelow(c, t, y); }
          assert c.Below(t, h.source);
          BelowRank(c, p, t);
          BelowRank(c, t, p);
        }
      }
      LccaUnique(c, l, y, p);
    }
  }

  /** As AncLinear, for proper ancestors that may be ROOT. */
  lemma AncLinear2(c: Chart, a: StateID, b: StateID, id: StateID)
    requires c.Linked() && c.Below(a, id) && c.Below(b, id)
    ensures a == b || c.Below(a, b) || c.Below(b, a)
  {
    assert c.NodeOK(ROOT);
    if a == ROOT && b != ROOT {
      BelowRank(c, b, id);
      RootAboveAll(c, b);
    } else if b == ROOT && a != ROOT {
      BelowRank(c, a, id);
      RootAboveAll(c, a);
    } else if a != ROOT {
      AncLinear(c, a, b, id);
    }
  }
}
