/** The machine that a valid declaration denotes is a finite forest in preorder, with all targets
    declared and no timer ID shared: everything the interpreter relies on. */
module Forests {
  import opened Seqs
  import opened Charts
  import opened Machines
  import opened TimerNames
  import opened Declarations
  import opened Interpreter
  import opened Runs
  import opened Compiling

  // ---------------------------------------------------------------- where a forest lies

  /** The forest's IDs are the slice of definition order from `k` on, and the chart has its nodes. */
  ghost predicate LiesAt<C>(c: Chart, f: seq<StateDecl<C>>, parent: Option<StateID>, k: nat) {
    && Slice(c.order, k, Ids(f))
    && Agrees(c, Nodes(f, parent))
  }

  ghost predicate Slice(order: seq<StateID>, k: nat, ids: seq<StateID>) {
    k + |ids| <= |order| && order[k..k + |ids|] == ids
  }

  ghost predicate Agrees(c: Chart, nodes: map<StateID, Node>) {
    forall id :: id in nodes ==> id in c.nodes && c.nodes[id] == nodes[id]
  }

  lemma SliceParts(order: seq<StateID>, k: nat, a: seq<StateID>, b: seq<StateID>)
    requires Slice(order, k, a + b)
    ensures Slice(order, k, a) && Slice(order, k + |a|, b)
  {
    assert order[k..k + |a|] == order[k..k + |a + b|][..|a|];
    assert order[k + |a|..k + |a| + |b|] == order[k..k + |a + b|][|a|..];
  }

  lemma SliceDistinct(order: seq<StateID>, k: nat, ids: seq<StateID>)
    requires Slice(order, k, ids) && Distinct(order)
    ensures Distinct(ids)
  {
    forall i, j | 0 <= i < j < |ids| ensures ids[i] != ids[j] {
      assert order[k + i] == ids[i] && order[k + j] == ids[j];
    }
  }

  lemma SliceRank(c: Chart, k: nat, ids: seq<StateID>, i: nat)
    requires Slice(c.order, k, ids) && Distinct(c.order) && i < |ids|
    ensures c.Rank(ids[i]) == k + i + 1 && ids[i] in c.order
  {
    assert c.order[k + i] == ids[i];
  }

  lemma DistinctParts(a: seq<StateID>, b: seq<StateID>, x: StateID)
    requires Distinct(a + b) && x in a
    ensures x !in b
  {
    var i :| 0 <= i < |a| && a[i] == x;
    assert forall j :: 0 <= j < |b| ==> b[j] == (a + b)[|a| + j] && (a + b)[i] != (a + b)[|a| + j];
  }

  lemma ForestParts<C>(c: Chart, f: seq<StateDecl<C>>, parent: Option<StateID>, k: nat)
    requires f != [] && LiesAt(c, f, parent, k) && Distinct(c.order)
    ensures var front, sc := f[..|f| - 1], f[|f| - 1];
      && LiesAt(c, front, parent, k)
      && Slice(c.order, k + |Ids(front)|, TreeIds(sc))
      && Agrees(c, TreeNodes(sc, parent))
  {
    var front, sc := f[..|f| - 1], f[|f| - 1];
    SliceParts(c.order, k, Ids(front), TreeIds(sc));
    SliceDistinct(c.order, k, Ids(f));
    NodesKeys(front, parent);
    TreeNodesKeys(sc, parent);
    forall id | id in Nodes(front, parent) ensures id !in TreeNodes(sc, parent) {
      DistinctParts(Ids(front), TreeIds(sc), id);
    }
    AgreesParts(c, Nodes(front, parent), TreeNodes(sc, parent));
  }

  /** A chart that agrees with two disjoint maps together agrees with each. */
  lemma AgreesParts(c: Chart, a: map<StateID, Node>, b: map<StateID, Node>)
    requires Agrees(c, a + b) && forall id :: id in a ==> id !in b
    ensures Agrees(c, a) && Agrees(c, b)
  {
    forall id | id in a ensures id in c.nodes && c.nodes[id] == a[id] {
      assert id in a + b;
    }
    forall id | id in b ensures id in c.nodes && c.nodes[id] == b[id] {
      assert id in a + b;
    }
  }

  lemma TreeParts<C>(c: Chart, sc: StateDecl<C>, parent: Option<StateID>, k: nat)
    requires Slice(c.order, k, TreeIds(sc)) && Agrees(c, TreeNodes(sc, parent)) && Distinct(c.order)
    ensures sc.id in c.nodes && c.nodes[sc.id] == NodeOf(sc, parent) && c.Rank(sc.id) == k + 1
    ensures LiesAt(c, sc.children, Some(sc.id), k + 1)
  {
    SliceRank(c, k, TreeIds(sc), 0);
    SliceParts(c.order, k, [sc.id], Ids(sc.children));
    SliceDistinct(c.order, k, TreeIds(sc));
    NodesKeys(sc.children, Some(sc.id));
    assert sc.id in [sc.id];
    DistinctParts([sc.id], Ids(sc.children), sc.id);
    assert sc.id in TreeNodes(sc, parent);
    forall id | id in Nodes(sc.children, Some(sc.id))
      ensures id in c.nodes && c.nodes[id] == Nodes(sc.children, Some(sc.id))[id]
    {
      assert id in TreeNodes(sc, parent);
    }
  }

  // ---------------------------------------------------------------- links

  /** Roots of a forest: their parent, and in which order they come. */
  lemma {:induction false} RootsLinked<C>(c: Chart, f: seq<StateDecl<C>>, parent: Option<StateID>, k: nat)
    requires LiesAt(c, f, parent, k) && Distinct(c.order)
    ensures forall i :: 0 <= i < |RootIds(f)| ==>
      RootIds(f)[i] in c.nodes && c.nodes[RootIds(f)[i]].parent == parent
    ensures forall i :: 0 <= i < |RootIds(f)| ==> k < c.Rank(RootIds(f)[i]) <= k + |Ids(f)|
    ensures forall i, j :: 0 <= i < j < |RootIds(f)| ==> c.Rank(RootIds(f)[i]) < c.Rank(RootIds(f)[j])
  {
    if f != [] {
      var front, sc := f[..|f| - 1], f[|f| - 1];
      ForestParts(c, f, parent, k);
      RootsLinked(c, front, parent, k);
      TreeParts(c, sc, parent, k + |Ids(front)|);
    }
  }

  ghost predicate ParentBefore(c: Chart, roots: seq<StateID>, parent: Option<StateID>, k: nat) {
    parent.Some? ==>
      var p := parent.value;
      p in c.nodes && 0 < c.Rank(p) <= k && forall r :: r in roots ==> r in c.nodes[p].children
  }

  lemma {:induction false} ForestNodesOK<C>(c: Chart, f: seq<StateDecl<C>>, parent: Option<StateID>,
                                            k: nat, known: set<StateID>)
    requires LiesAt(c, f, parent, k) && Distinct(c.order) && ROOT !in c.order
    requires ParentBefore(c, RootIds(f), parent, k) && ForestValid(f, known)
    ensures forall id :: id in Ids(f) ==> c.NodeOK(id)
    decreases f, 0
  {
    if f != [] {
      var front, sc := f[..|f| - 1], f[|f| - 1];
      ForestParts(c, f, parent, k);
      assert RootIds(f) == RootIds(front) + [sc.id];
      ForestNodesOK(c, front, parent, k, known);
      TreeNodesOK(c, sc, parent, k + |Ids(front)|, known);
    }
  }

  lemma {:induction false} TreeNodesOK<C>(c: Chart, sc: StateDecl<C>, parent: Option<StateID>,
                                          k: nat, known: set<StateID>)
    requires Slice(c.order, k, TreeIds(sc)) && Agrees(c, TreeNodes(sc, parent))
    requires Distinct(c.order) && ROOT !in c.order
    requires ParentBefore(c, [sc.id], parent, k) && TreeValid(sc, known)
    ensures forall id :: id in TreeIds(sc) ==> c.NodeOK(id)
    decreases sc, 1
  {
    TreeParts(c, sc, parent, k);
    ForestNodesOK(c, sc.children, Some(sc.id), k + 1, known);
    RootsLinked(c, sc.children, Some(sc.id), k + 1);
    RootIdsAt(sc.children);
    RootNodeOK(c, sc, parent);
  }

  lemma RootNodeOK<C>(c: Chart, sc: StateDecl<C>, parent: Option<StateID>)
    requires sc.id in c.nodes && c.nodes[sc.id] == NodeOf(sc, parent)
    requires sc.id in c.order && ROOT !in c.order && ShapeValid(sc)
    requires ParentBefore(c, [sc.id], parent, c.Rank(sc.id) - 1)
    requires |RootIds(sc.children)| == |sc.children|
    requires forall i :: 0 <= i < |sc.children| ==> RootIds(sc.children)[i] == sc.children[i].id
    requires forall i :: 0 <= i < |RootIds(sc.children)| ==>
      RootIds(sc.children)[i] in c.nodes && c.nodes[RootIds(sc.children)[i]].parent == Some(sc.id)
    requires forall i, j :: 0 <= i < j < |RootIds(sc.children)| ==>
      c.Rank(RootIds(sc.children)[i]) < c.Rank(RootIds(sc.children)[j])
    ensures c.NodeOK(sc.id)
  {
    assert sc.id in [sc.id];
    if sc.children != [] {
      assert RootIds(sc.children)[0] in RootIds(sc.children);
    }
  }

  // ---------------------------------------------------------------- preorder

  lemma {:induction false} ForestBelow<C>(c: Chart, f: seq<StateDecl<C>>, parent: Option<StateID>, k: nat, id: StateID)
    requires LiesAt(c, f, parent, k) && c.Linked() && id in Ids(f)
    ensures c.Below(if parent.Some? then parent.value else ROOT, id)
    decreases f, 0
  {
    ForestParts(c, f, parent, k);
    if id in Ids(f[..|f| - 1]) {
      ForestBelow(c, f[..|f| - 1], parent, k, id);
    } else {
      TreeBelow(c, f[|f| - 1], parent, k + |Ids(f[..|f| - 1])|, id);
    }
  }

  lemma {:induction false} TreeBelow<C>(c: Chart, sc: StateDecl<C>, parent: Option<StateID>, k: nat, id: StateID)
    requires Slice(c.order, k, TreeIds(sc)) && Agrees(c, TreeNodes(sc, parent)) && c.Linked()
    requires id in TreeIds(sc)
    ensures c.Below(if parent.Some? then parent.value else ROOT, id) && c.Anc(sc.id, id)
    decreases sc, 1
  {
    TreeParts(c, sc, parent, k);
    assert c.NodeOK(sc.id);
    assert c.Par(sc.id) == if parent.Some? then parent.value else ROOT;
    if id != sc.id {
      ForestBelow(c, sc.children, Some(sc.id), k + 1, id);
      BelowTrans(c, c.Par(sc.id), sc.id, id);
    }
  }

  /** Inside a forest every state follows its parent or something below it. */
  lemma {:induction false} ForestPreorder<C>(c: Chart, f: seq<StateDecl<C>>, parent: Option<StateID>, k: nat, i: nat)
    requires LiesAt(c, f, parent, k) && c.Linked() && k <= i < k + |Ids(f)|
    requires k > 0 && parent.Some? ==> parent.value == c.order[k - 1]
    ensures c.PreorderAt(i)
    decreases f, 0
  {
    var front, sc := f[..|f| - 1], f[|f| - 1];
    var k1 := k + |Ids(front)|;
    ForestParts(c, f, parent, k);
    if i < k1 {
      ForestPreorder(c, front, parent, k, i);
    } else if i > k1 || k1 == 0 || parent.None? || k1 == k {
      TreePreorder(c, sc, parent, k1, i);
    } else {
      var before := c.order[k1 - 1];
      assert c.order[k..k1][k1 - 1 - k] == before;
      ForestBelow(c, front, parent, k, before);
      TreePreorder(c, sc, parent, k1, i);
    }
  }

  lemma {:induction false} TreePreorder<C>(c: Chart, sc: StateDecl<C>, parent: Option<StateID>, k: nat, i: nat)
    requires Slice(c.order, k, TreeIds(sc)) && Agrees(c, TreeNodes(sc, parent)) && c.Linked()
    requires k <= i < k + |TreeIds(sc)|
    requires i == k > 0 && parent.Some? ==> c.Anc(parent.value, c.order[k - 1])
    ensures c.PreorderAt(i)
    decreases sc, 1
  {
    TreeParts(c, sc, parent, k);
    assert c.order[k] == c.order[k..k + |TreeIds(sc)|][0] == sc.id;
    if i > k {
      ForestPreorder(c, sc.children, Some(sc.id), k + 1, i);
    }
  }

  // ---------------------------------------------------------------- rules

  lemma {:induction false} RuleSource<C>(f: seq<StateDecl<C>>, known: set<StateID>, id: StateID)
    returns (sc: StateDecl<C>)
    requires id in Ids(f)
    ensures id in ForestRules(f) && ForestRules(f)[id] == RulesOf(sc) && sc.id == id
    ensures ForestValid(f, known) ==> NodeValid(sc, known)
    decreases f, 0
  {
    NodesKeys(f[..|f| - 1], None);
    TreeNodesKeys(f[|f| - 1], None);
    if id in TreeIds(f[|f| - 1]) {
      sc := TreeRuleSource(f[|f| - 1], known, id);
    } else {
      sc := RuleSource(f[..|f| - 1], known, id);
    }
  }

  lemma {:induction false} TreeRuleSource<C>(t: StateDecl<C>, known: set<StateID>, id: StateID)
    returns (sc: StateDecl<C>)
    requires id in TreeIds(t)
    ensures id in TreeRules(t) && TreeRules(t)[id] == RulesOf(sc) && sc.id == id
    ensures TreeValid(t, known) ==> NodeValid(sc, known)
    decreases t, 1
  {
    NodesKeys(t.children, None);
    if id in Ids(t.children) {
      sc := RuleSource(t.children, known, id);
    } else {
      sc := t;
    }
  }

  ghost predicate TargetsIn<C>(ts: seq<Transition<C>>, known: set<StateID>) {
    forall t :: t in ts ==> t.target in known
  }

  ghost predicate BucketsIn<C>(b: map<string, seq<Transition<C>>>, known: set<StateID>) {
    forall typ :: typ in b ==> TargetsIn(b[typ], known)
  }

  lemma AddToIn<C>(b: map<string, seq<Transition<C>>>, typ: string, t: Transition<C>, known: set<StateID>)
    requires BucketsIn(b, known) && t.target in known
    ensures BucketsIn(AddTo(b, typ, t), known)
  {
  }

  lemma {:induction false} RegularIn<C>(ts: seq<TransDecl<C>>, known: set<StateID>)
    requires forall i :: 0 <= i < |ts| ==> TargetValid(ts[i].target, known)
    ensures BucketsIn(RegularBuckets(ts), known) && TargetsIn(Alwayses(ts), known)
  {
    if ts != [] {
      RegularIn(ts[..|ts| - 1], known);
      AddToIn(RegularBuckets(ts[..|ts| - 1]), ts[|ts| - 1].event, TransitionOf(ts[|ts| - 1]), known);
    }
  }

  lemma {:induction false} AftersIn<C>(b: map<string, seq<Transition<C>>>, id: StateID,
                                       afters: seq<AfterDecl<C>>, known: set<StateID>)
    requires BucketsIn(b, known)
    requires forall i :: 0 <= i < |afters| ==> TargetValid(afters[i].target, known)
    ensures BucketsIn(AfterBuckets(b, id, afters), known)
  {
    if afters != [] {
      var n := |afters| - 1;
      AftersIn(b, id, afters[..n], known);
      AddToIn(AfterBuckets(b, id, afters[..n]), AfterEventType(TimerName(id, n)), AfterTransition(afters[n]), known);
    }
  }

  lemma {:induction false} AftersNamed<C>(id: StateID, afters: seq<AfterDecl<C>>)
    ensures |Afters(id, afters)| == |afters|
    ensures forall i :: 0 <= i < |afters| ==> Afters(id, afters)[i] == AfterOf(id, i, afters[i])
  {
    if afters != [] {
      AftersNamed(id, afters[..|afters| - 1]);
    }
  }

  lemma CompiledRulesOK<C>(cfg: MachineDecl<C>, id: StateID)
    requires Valid(cfg)
    ensures RulesOK(MachineOf(cfg), id)
  {
    var m := MachineOf(cfg);
    NodesKeys(cfg.states, None);
    if id in m.rules {
      var sc := RuleSource(cfg.states, Declared(cfg), id);
      RegularIn(sc.transitions, Declared(cfg));
      RegularIn(sc.always, Declared(cfg));
      AftersIn(RegularBuckets(sc.transitions), id, sc.afters, Declared(cfg));
      forall typ ensures TargetsDeclared(m.chart, Bucket(m.rules[id], typ)) {
        assert TargetsIn(Bucket(m.rules[id], typ), Declared(cfg));
      }
    }
  }

  // ---------------------------------------------------------------- the result

  lemma AllNodesOK(c: Chart)
    requires Distinct(c.order) && c.nodes.Keys == (set id | id in c.order)
    requires forall id :: id in c.order ==> c.NodeOK(id)
    ensures c.Linked()
  {
    forall id ensures c.NodeOK(id) {
      if id in c.nodes {
        assert id in c.order;
      }
    }
    assert forall i :: 0 <= i < |c.order| ==> c.order[i] in c.nodes.Keys;
  }

  lemma CompiledLinked<C>(cfg: MachineDecl<C>)
    requires Valid(cfg)
    ensures MachineOf(cfg).chart.Linked()
    ensures LiesAt(MachineOf(cfg).chart, cfg.states, None, 0)
    ensures MachineOf(cfg).chart.nodes.Keys == Declared(cfg)
  {
    var c := MachineOf(cfg).chart;
    NodesKeys(cfg.states, None);
    assert c.order[0..|c.order|] == c.order;
    ForestNodesOK(c, cfg.states, None, 0, Declared(cfg));
    AllNodesOK(c);
  }

  /** What a valid declaration denotes is well formed: unique IDs, mutually consistent links, a
      preorder, declared targets, default children. */
  lemma CompiledWellFormed<C>(cfg: MachineDecl<C>)
    requires Valid(cfg)
    ensures WellFormed(MachineOf(cfg))
  {
    var m := MachineOf(cfg);
    CompiledLinked(cfg);
    NodesKeys(cfg.states, None);
    forall i: nat ensures m.chart.PreorderAt(i) {
      if 0 < i < |m.chart.order| {
        ForestPreorder(m.chart, cfg.states, None, 0, i);
      }
    }
    forall id ensures RulesOK(m, id) {
      CompiledRulesOK(cfg, id);
    }
  }

  /** No two states of a compiled machine share a timer ID. */
  lemma CompiledTimersApart<C>(cfg: MachineDecl<C>)
    requires Valid(cfg)
    ensures TimersApart(MachineOf(cfg))
  {
    var m := MachineOf(cfg);
    forall s, t, name | name in TimersOf(m, s) && name in TimersOf(m, t) ensures s == t {
      var i := TimerNamed(cfg, s, name);
      var j := TimerNamed(cfg, t, name);
      TimerNameInjective(s, i, t, j);
    }
  }

  lemma TimerNamed<C>(cfg: MachineDecl<C>, s: StateID, name: string) returns (i: nat)
    requires name in TimersOf(MachineOf(cfg), s)
    ensures i < |MachineOf(cfg).rules[s].afters| && name == TimerName(s, i)
  {
    NodesKeys(cfg.states, None);
    var sc := RuleSource(cfg.states, Declared(cfg), s);
    assert MachineOf(cfg).rules[s].afters == Afters(s, sc.afters);
    i := NamedAfter(s, sc.afters, name);
  }

  lemma NamedAfter<C>(id: StateID, afters: seq<AfterDecl<C>>, name: string) returns (i: nat)
    requires exists k :: 0 <= k < |Afters(id, afters)| && Afters(id, afters)[k].timerID == name
    ensures i < |Afters(id, afters)| && name == TimerName(id, i)
  {
    AftersNamed(id, afters);
    i :| 0 <= i < |afters| && Afters(id, afters)[i].timerID == name;
  }
}
