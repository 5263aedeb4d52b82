/** Where each declared state ends up in the compiled machine, field by field, and which
    declarations are valid, state by state. */
module Placement {
  import opened Seqs
  import opened Charts
  import opened Navigation
  import opened Machines
  import opened TimerNames
  import opened Declarations
  import opened Compiling
  import opened Forests
  import opened Meaning

  /** `sc` is declared somewhere in the forest, with parent `p`. */
  ghost predicate Occurs<C>(f: seq<StateDecl<C>>, parent: Option<StateID>, sc: StateDecl<C>, p: Option<StateID>)
    decreases f
  {
    exists i :: 0 <= i < |f| && OccursIn(f[i], parent, sc, p)
  }

  ghost predicate OccursIn<C>(t: StateDecl<C>, parent: Option<StateID>, sc: StateDecl<C>, p: Option<StateID>)
    decreases t
  {
    (t == sc && p == parent) || Occurs(t.children, Some(t.id), sc, p)
  }

  lemma OccursInFront<C>(f: seq<StateDecl<C>>, parent: Option<StateID>, i: nat, sc: StateDecl<C>, p: Option<StateID>)
    requires i < |f| - 1 && OccursIn(f[i], parent, sc, p)
    ensures Occurs(f[..|f| - 1], parent, sc, p)
  {
    assert f[..|f| - 1][i] == f[i];
  }

  lemma {:induction false} ForestPlaced<C>(m: Machine<C>, f: seq<StateDecl<C>>, parent: Option<StateID>, k: nat,
                                           sc: StateDecl<C>, p: Option<StateID>)
    requires WellFormed(m) && LiesAt(m.chart, f, parent, k) && RulesAgree(m, ForestRules(f))
    requires Occurs(f, parent, sc, p)
    ensures sc.id in m.chart.nodes && m.chart.nodes[sc.id] == NodeOf(sc, p) && m.rules[sc.id] == RulesOf(sc)
    decreases f, 0
  {
    var i :| 0 <= i < |f| && OccursIn(f[i], parent, sc, p);
    Parts(m, f, parent, k);
    if i == |f| - 1 {
      TreePlaced(m, f[i], parent, k + |Ids(f[..i])|, sc, p);
    } else {
      OccursInFront(f, parent, i, sc, p);
      ForestPlaced(m, f[..|f| - 1], parent, k, sc, p);
    }
  }

  lemma {:induction false} TreePlaced<C>(m: Machine<C>, t: StateDecl<C>, parent: Option<StateID>, k: nat,
                                         sc: StateDecl<C>, p: Option<StateID>)
    requires WellFormed(m) && Slice(m.chart.order, k, TreeIds(t)) && Agrees(m.chart, TreeNodes(t, parent))
    requires RulesAgree(m, TreeRules(t)) && OccursIn(t, parent, sc, p)
    ensures sc.id in m.chart.nodes && m.chart.nodes[sc.id] == NodeOf(sc, p) && m.rules[sc.id] == RulesOf(sc)
    decreases t, 1
  {
    SliceDistinct(m.chart.order, k, TreeIds(t));
    TreeParts(m.chart, t, parent, k);
    TreeRulesParts(m, t);
    if !(t == sc && p == parent) {
      ForestPlaced(m, t.children, Some(t.id), k + 1, sc, p);
    }
  }

  /** Every declared state is in the compiled machine, as the functions of module Declarations say. */
  lemma CompiledAs<C>(cfg: MachineDecl<C>, sc: StateDecl<C>, p: Option<StateID>)
    requires Valid(cfg) && Occurs(cfg.states, None, sc, p)
    ensures var m := MachineOf(cfg);
      && WellFormed(m) && sc.id in m.chart.nodes
      && m.chart.nodes[sc.id] == NodeOf(sc, p) && m.rules[sc.id] == RulesOf(sc)
  {
    CompiledWellFormed(cfg);
    CompiledLinked(cfg);
    ForestPlaced(MachineOf(cfg), cfg.states, None, 0, sc, p);
  }

  // ---------------------------------------------------------------- field by field

  /** Parent, children in order, flags, and the child that is entered by default. */
  lemma ShapeCompiled<C>(cfg: MachineDecl<C>, sc: StateDecl<C>, p: Option<StateID>)
    requires Valid(cfg) && Occurs(cfg.states, None, sc, p)
    ensures var c := MachineOf(cfg).chart;
      && c.WF() && sc.id in c.nodes && sc.id in c.order
      && var n := c.nodes[sc.id];
      && n.parent == p && n.parallel == sc.parallel && n.final == sc.final
      && |n.children| == |sc.children|
      && (forall i :: 0 <= i < |sc.children| ==> n.children[i] == sc.children[i].id)
      && (sc.children != [] && !sc.parallel ==>
            n.initial == if sc.initialChild != "" then sc.initialChild else sc.children[0].id)
  {
    CompiledAs(cfg, sc, p);
    RootIdsAt(sc.children);
    assert MachineOf(cfg).chart.NodeOK(sc.id);
  }

  /** The default leaves of a state: its own ID, those of its default child, or those of all its
      children. */
  lemma DefaultsCompiled<C>(cfg: MachineDecl<C>, sc: StateDecl<C>, p: Option<StateID>)
    requires Valid(cfg) && Occurs(cfg.states, None, sc, p)
    ensures var c := MachineOf(cfg).chart;
      && c.WF()
      && (sc.children == [] ==> LeafTargets(c, sc.id) == [sc.id])
      && (sc.children != [] && !sc.parallel ==>
            LeafTargets(c, sc.id) ==
              LeafTargets(c, if sc.initialChild != "" then sc.initialChild else sc.children[0].id))
      && (sc.children != [] && sc.parallel ==>
            forall t :: t in LeafTargets(c, sc.id) <==>
              exists i :: 0 <= i < |sc.children| && t in LeafTargets(c, sc.children[i].id))
  {
    var c := MachineOf(cfg).chart;
    ShapeCompiled(cfg, sc, p);
    assert c.NodeOK(sc.id);
    if sc.children != [] && sc.parallel {
      var n := |sc.children|;
      forall t ensures t in LeafTargets(c, sc.id) <==>
        exists i :: 0 <= i < n && t in LeafTargets(c, sc.children[i].id)
      {
        if t in LeafTargets(c, sc.id) {
          var i := RegionTargetsSource(c, sc.id, n, t);
          assert c.nodes[sc.id].children[i] == sc.children[i].id;
        }
        if i :| 0 <= i < n && t in LeafTargets(c, sc.children[i].id) {
          assert c.nodes[sc.id].children[i] == sc.children[i].id;
          RegionTargetsContain(c, sc.id, n, i, t);
        }
      }
    }
  }

  /** Actions, invoke functions and always transitions. */
  lemma ActionsCompiled<C>(cfg: MachineDecl<C>, sc: StateDecl<C>, p: Option<StateID>)
    requires Valid(cfg) && Occurs(cfg.states, None, sc, p)
    ensures var m := MachineOf(cfg);
      && sc.id in m.rules
      && var r := m.rules[sc.id];
      && r.onEntry == sc.onEntry && r.onExit == sc.onExit && r.invokes == sc.invokes
      && |r.always| == |sc.always|
      && forall i :: 0 <= i < |sc.always| ==>
           && r.always[i].target == sc.always[i].target && r.always[i].guard == sc.always[i].guard
           && r.always[i].actions == sc.always[i].actions
  {
    CompiledAs(cfg, sc, p);
    AlwaysesAt(sc.always);
  }

  /** `a` is the `i`-th delayed transition of the declared state: its delay, where it goes and when,
      and a timer named after state and position. */
  ghost predicate IsAfter<C>(sc: StateDecl<C>, i: nat, a: After<C>)
    requires i < |sc.afters|
  {
    && a.delay == sc.afters[i].delay && a.transition.target == sc.afters[i].target
    && a.transition.guard == sc.afters[i].guard && a.transition.actions == sc.afters[i].actions
    && exists d :: Numeral(d, i) && a.timerID == sc.id + ".after[" + d + "]"
  }

  /** The compiled machine keeps the declared ID, initial state and context. */
  lemma MachineCompiled<C>(cfg: MachineDecl<C>)
    ensures var m := MachineOf(cfg);
      m.id == cfg.id && m.initial == cfg.initial && m.context == cfg.context && m.chart.order == Ids(cfg.states)
  {
  }

  /** Its states are the declared ones. */
  lemma NothingElseCompiled<C>(cfg: MachineDecl<C>, id: StateID) returns (sc: StateDecl<C>, p: Option<StateID>)
    requires Valid(cfg) && id in MachineOf(cfg).chart.nodes
    ensures Occurs(cfg.states, None, sc, p) && sc.id == id
  {
    NodesKeys(cfg.states, None);
    sc, p := IdOccurs(cfg.states, None, id);
  }

  lemma {:induction false} IdOccurs<C>(f: seq<StateDecl<C>>, parent: Option<StateID>, id: StateID)
    returns (sc: StateDecl<C>, p: Option<StateID>)
    requires id in Ids(f)
    ensures Occurs(f, parent, sc, p) && sc.id == id
    decreases f, 0
  {
    var n := |f| - 1;
    if id in TreeIds(f[n]) {
      sc, p := IdOccursIn(f[n], parent, id);
      assert OccursIn(f[n], parent, sc, p);
    } else {
      sc, p := IdOccurs(f[..n], parent, id);
      var i :| 0 <= i < n && OccursIn(f[..n][i], parent, sc, p);
      assert f[..n][i] == f[i];
    }
  }

  lemma {:induction false} IdOccursIn<C>(t: StateDecl<C>, parent: Option<StateID>, id: StateID)
    returns (sc: StateDecl<C>, p: Option<StateID>)
    requires id in TreeIds(t)
    ensures OccursIn(t, parent, sc, p) && sc.id == id
    decreases t, 1
  {
    if id == t.id {
      sc, p := t, parent;
    } else {
      sc, p := IdOccurs(t.children, Some(t.id), id);
    }
  }

  /** Every declared state is in the compiled machine with its own fields. */
  lemma DeclaredIsCompiled<C>(cfg: MachineDecl<C>, sc: StateDecl<C>, p: Option<StateID>)
    requires Valid(cfg) && Occurs(cfg.states, None, sc, p)
    ensures var m := MachineOf(cfg);
      && m.chart.WF() && sc.id in m.chart.nodes && sc.id in m.rules
      && var n, r := m.chart.nodes[sc.id], m.rules[sc.id];
      && n.parent == p && n.parallel == sc.parallel && n.final == sc.final
      && |n.children| == |sc.children|
      && (forall i :: 0 <= i < |sc.children| ==> n.children[i] == sc.children[i].id)
      && (sc.children != [] && !sc.parallel ==>
            var first := if sc.initialChild != "" then sc.initialChild else sc.children[0].id;
            n.initial == first && LeafTargets(m.chart, sc.id) == LeafTargets(m.chart, first))
      && r.onEntry == sc.onEntry && r.onExit == sc.onExit && r.invokes == sc.invokes
      && |r.afters| == |sc.afters| && |r.always| == |sc.always|
      && (forall i :: 0 <= i < |sc.afters| ==> IsAfter(sc, i, r.afters[i]))
      && forall i :: 0 <= i < |sc.always| ==>
           && r.always[i].target == sc.always[i].target && r.always[i].guard == sc.always[i].guard
           && r.always[i].actions == sc.always[i].actions
  {
    ShapeCompiled(cfg, sc, p);
    DefaultsCompiled(cfg, sc, p);
    ActionsCompiled(cfg, sc, p);
    AftersCompiled(cfg, sc, p);
  }

  lemma AftersCompiled<C>(cfg: MachineDecl<C>, sc: StateDecl<C>, p: Option<StateID>)
    requires Valid(cfg) && Occurs(cfg.states, None, sc, p)
    ensures var m := MachineOf(cfg);
      && sc.id in m.rules && |m.rules[sc.id].afters| == |sc.afters|
      && forall i :: 0 <= i < |sc.afters| ==> IsAfter(sc, i, m.rules[sc.id].afters[i])
  {
    CompiledAs(cfg, sc, p);
    AftersNamed(sc.id, sc.afters);
    forall i | 0 <= i < |sc.afters| ensures IsAfter(sc, i, MachineOf(cfg).rules[sc.id].afters[i]) {
      DecimalNumeral(i);
    }
  }

  // ---------------------------------------------------------------- which declarations are valid

  /** What is asked of one declared state, `ids` being all declared IDs. */
  ghost predicate WellDeclared<C>(sc: StateDecl<C>, ids: seq<StateID>) {
    && (forall i :: 0 <= i < |sc.transitions| ==> sc.transitions[i].target in ids)
    && (forall i :: 0 <= i < |sc.afters| ==> sc.afters[i].delay > 0 && sc.afters[i].target in ids)
    && (forall i :: 0 <= i < |sc.always| ==> sc.always[i].target in ids)
    && (forall i :: 0 <= i < |sc.always| ==> sc.always[i].guard == None ==> sc.always[i].target != sc.id)
    && (sc.children != [] && sc.parallel ==> |sc.children| > 1 && sc.initialChild == "")
    && (sc.children != [] && !sc.parallel && sc.initialChild != "" ==>
          exists i :: 0 <= i < |sc.children| && sc.children[i].id == sc.initialChild)
  }

  lemma NodeValidHere<C>(sc: StateDecl<C>, ids: seq<StateID>, known: set<StateID>)
    requires "" !in ids && forall id :: id in ids <==> id in known
    ensures NodeValid(sc, known) <==>
      && (forall i :: 0 <= i < |sc.transitions| ==> sc.transitions[i].target in ids)
      && (forall i :: 0 <= i < |sc.afters| ==> sc.afters[i].delay > 0 && sc.afters[i].target in ids)
      && (forall i :: 0 <= i < |sc.always| ==> sc.always[i].target in ids)
      && forall i :: 0 <= i < |sc.always| ==> sc.always[i].guard == None ==> sc.always[i].target != sc.id
  {
    forall t ensures TargetValid(t, known) <==> t in ids {
    }
  }

  lemma ShapeValidHere<C>(sc: StateDecl<C>)
    ensures ShapeValid(sc) <==>
      && (sc.children != [] && sc.parallel ==> |sc.children| > 1 && sc.initialChild == "")
      && (sc.children != [] && !sc.parallel && sc.initialChild != "" ==>
            exists i :: 0 <= i < |sc.children| && sc.children[i].id == sc.initialChild)
  {
    var ids := RootIds(sc.children);
    RootIdsAt(sc.children);
    if sc.initialChild in ids {
      var i :| 0 <= i < |ids| && ids[i] == sc.initialChild;
      assert sc.children[i].id == sc.initialChild;
    }
    if i :| 0 <= i < |sc.children| && sc.children[i].id == sc.initialChild {
      assert ids[i] == sc.initialChild;
    }
  }

  ghost predicate AllWell<C>(f: seq<StateDecl<C>>, ids: seq<StateID>)
    decreases f, 0
  {
    forall i :: 0 <= i < |f| ==> AllWellIn(f[i], ids)
  }

  ghost predicate AllWellIn<C>(t: StateDecl<C>, ids: seq<StateID>)
    decreases t, 1
  {
    WellDeclared(t, ids) && AllWell(t.children, ids)
  }

  lemma {:induction false} ForestValidHere<C>(f: seq<StateDecl<C>>, ids: seq<StateID>, known: set<StateID>)
    requires "" !in ids && forall id :: id in ids <==> id in known
    ensures ForestValid(f, known) <==> AllWell(f, ids)
    decreases f, 0
  {
    if f != [] {
      var n := |f| - 1;
      ForestValidHere(f[..n], ids, known);
      NodeValidHere(f[n], ids, known);
      ShapeValidHere(f[n]);
      ForestValidHere(f[n].children, ids, known);
      AllWellFront(f, ids);
    }
  }

  lemma AllWellFront<C>(f: seq<StateDecl<C>>, ids: seq<StateID>)
    requires f != []
    ensures AllWell(f, ids) <==> AllWell(f[..|f| - 1], ids) && AllWellIn(f[|f| - 1], ids)
  {
    assert f == f[..|f| - 1] + [f[|f| - 1]];
  }

  /** All states of the forest are well declared when every state that occurs in it is. */
  lemma {:induction false} WellOccurs<C>(f: seq<StateDecl<C>>, parent: Option<StateID>, ids: seq<StateID>,
                                         sc: StateDecl<C>, p: Option<StateID>)
    requires AllWell(f, ids) && Occurs(f, parent, sc, p)
    ensures WellDeclared(sc, ids)
    decreases f
  {
    var i :| 0 <= i < |f| && OccursIn(f[i], parent, sc, p);
    if !(f[i] == sc && parent == p) {
      WellOccurs(f[i].children, Some(f[i].id), ids, sc, p);
    }
  }

  lemma {:induction false} IllOccurs<C>(f: seq<StateDecl<C>>, parent: Option<StateID>, ids: seq<StateID>)
    returns (sc: StateDecl<C>, p: Option<StateID>)
    requires !AllWell(f, ids)
    ensures Occurs(f, parent, sc, p) && !WellDeclared(sc, ids)
    decreases f
  {
    var i :| 0 <= i < |f| && !AllWellIn(f[i], ids);
    if WellDeclared(f[i], ids) {
      sc, p := IllOccurs(f[i].children, Some(f[i].id), ids);
    } else {
      sc, p := f[i], parent;
    }
    assert OccursIn(f[i], parent, sc, p);
  }

  /** The compiler accepts exactly declarations with a name, an initial state among the declared
      ones, IDs that are neither empty nor repeated, and every state well declared. */
  lemma ValidExactly<C>(cfg: MachineDecl<C>)
    ensures Valid(cfg) <==>
      && cfg.id != "" && cfg.states != [] && cfg.initial != "" && cfg.initial in Ids(cfg.states)
      && "" !in Ids(cfg.states) && Distinct(Ids(cfg.states))
      && forall sc, p :: Occurs(cfg.states, None, sc, p) ==> WellDeclared(sc, Ids(cfg.states))
  {
    var ids := Ids(cfg.states);
    if "" !in ids {
      ForestValidHere(cfg.states, ids, Declared(cfg));
      if AllWell(cfg.states, ids) {
        forall sc, p | Occurs(cfg.states, None, sc, p) ensures WellDeclared(sc, ids) {
          WellOccurs(cfg.states, None, ids, sc, p);
        }
      } else {
        var sc, p := IllOccurs(cfg.states, None, ids);
        assert Occurs(cfg.states, None, sc, p) && !WellDeclared(sc, ids);
      }
    }
  }
}
