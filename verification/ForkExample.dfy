/** A declared joint fork: one event takes the leaves of one parallel state to those of another.
    No transition is clean by itself, and the step is as good as any. */
module ForkExample {
  import opened Seqs
  import opened Charts
  import opened Navigation
  import opened Configurations
  import opened Steps
  import opened Machines
  import opened Declarations
  import opened Compiling
  import opened Interpreter
  import opened Runs
  import opened Forests
  import opened Examples

  /** Two parallel states of two regions each; on the event, `n` goes to `s` and `m` to `t`. */
  function Fork(f: StateID, n: StateID, m: StateID, q: StateID, s: StateID, t: StateID): MachineDecl<int> {
    MachineDecl("forks", f, 0,
                [Group(f, true, [Leaf(n, false, OnGo(s), []), Leaf(m, false, OnGo(t), [])], []),
                 Group(q, true, [Leaf(s, false, [], []), Leaf(t, false, [], [])], [])])
  }

  ghost predicate Named6(f: StateID, n: StateID, m: StateID, q: StateID, s: StateID, t: StateID) {
    && "" != f && "" != n && "" != m && "" != q && "" != s && "" != t
    && f != n && f != m && f != q && f != s && f != t && n != m && n != q && n != s && n != t
    && m != q && m != s && m != t && q != s && q != t && s != t
  }

  lemma ForkIds(f: StateID, n: StateID, m: StateID, q: StateID, s: StateID, t: StateID)
    ensures var cfg := Fork(f, n, m, q, s, t);
      && Ids(cfg.states) == [f, n, m, q, s, t]
      && RootIds(cfg.states[0].children) == [n, m] && RootIds(cfg.states[1].children) == [s, t]
  {
    var cfg := Fork(f, n, m, q, s, t);
    IdsOf2(cfg.states[0].children[0], cfg.states[0].children[1]);
    IdsOf2(cfg.states[1].children[0], cfg.states[1].children[1]);
    IdsOf2(cfg.states[0], cfg.states[1]);
  }

  lemma TargetsDeclared(f: StateID, n: StateID, m: StateID, q: StateID, s: StateID, t: StateID)
    requires Named6(f, n, m, q, s, t)
    ensures var cfg := Fork(f, n, m, q, s, t);
      {f, s, t} <= Declared(cfg) && Fresh(Ids(cfg.states), {})
  {
    var ids := [f, n, m, q, s, t];
    ForkIds(f, n, m, q, s, t);
    assert ids[0] == f && ids[4] == s && ids[5] == t;
  }

  lemma ForkValid(f: StateID, n: StateID, m: StateID, q: StateID, s: StateID, t: StateID)
    requires Named6(f, n, m, q, s, t)
    ensures Valid(Fork(f, n, m, q, s, t))
  {
    var cfg := Fork(f, n, m, q, s, t);
    var a, b := cfg.states[0], cfg.states[1];
    TargetsDeclared(f, n, m, q, s, t);
    LeafValid(n, false, OnGo(s), Declared(cfg));
    LeafValid(m, false, OnGo(t), Declared(cfg));
    LeafValid(s, false, [], Declared(cfg));
    LeafValid(t, false, [], Declared(cfg));
    PairValid(f, a.children[0], a.children[1], [], Declared(cfg));
    PairValid(q, b.children[0], b.children[1], [], Declared(cfg));
    ValidOf2(a, b, Declared(cfg));
  }

  ghost predicate IsFork(c: Chart, f: StateID, n: StateID, m: StateID, q: StateID, s: StateID, t: StateID) {
    && c.WF() && Named6(f, n, m, q, s, t) && c.order == [f, n, m, q, s, t]
    && f in c.nodes && c.nodes[f] == Node(None, [n, m], "", true, false)
    && n in c.nodes && c.nodes[n] == Node(Some(f), [], "", false, false)
    && m in c.nodes && c.nodes[m] == Node(Some(f), [], "", false, false)
    && q in c.nodes && c.nodes[q] == Node(None, [s, t], "", true, false)
    && s in c.nodes && c.nodes[s] == Node(Some(q), [], "", false, false)
    && t in c.nodes && c.nodes[t] == Node(Some(q), [], "", false, false)
    && forall id :: id in c.nodes ==> id == f || id == n || id == m || id == q || id == s || id == t
  }

  /** The compiled fork. */
  ghost predicate IsForkMachine(k: Machine<int>, f: StateID, n: StateID, m: StateID, q: StateID, s: StateID, t: StateID) {
    && WellFormed(k) && TimersApart(k) && IsFork(k.chart, f, n, m, q, s, t) && k.initial == f
    && f in k.rules && k.rules[f] == RulesOf(Fork(f, n, m, q, s, t).states[0])
    && n in k.rules && k.rules[n] == RulesOf(Leaf(n, false, OnGo(s), []))
    && m in k.rules && k.rules[m] == RulesOf(Leaf(m, false, OnGo(t), []))
  }

  lemma ForkChart(f: StateID, n: StateID, m: StateID, q: StateID, s: StateID, t: StateID)
    requires Named6(f, n, m, q, s, t) && Valid(Fork(f, n, m, q, s, t))
    ensures IsFork(MachineOf(Fork(f, n, m, q, s, t)).chart, f, n, m, q, s, t)
  {
    var cfg := Fork(f, n, m, q, s, t);
    CompiledWellFormed(cfg);
    PairNodes(cfg, 0, f, n, m);
    PairNodes(cfg, 1, q, s, t);
    ChartIds(cfg);
    ForkIds(f, n, m, q, s, t);
  }

  lemma ForkCompiled(f: StateID, n: StateID, m: StateID, q: StateID, s: StateID, t: StateID)
    requires Named6(f, n, m, q, s, t) && Valid(Fork(f, n, m, q, s, t))
    ensures IsForkMachine(MachineOf(Fork(f, n, m, q, s, t)), f, n, m, q, s, t)
  {
    var cfg := Fork(f, n, m, q, s, t);
    CompiledWellFormed(cfg);
    CompiledTimersApart(cfg);
    ForkChart(f, n, m, q, s, t);
    PairPlaced(cfg, 0);
    assert cfg.states[0].children[0].id == n && cfg.states[0].children[1].id == m;
  }

  // ---------------------------------------------------------------- the chart

  lemma TopAbove(c: Chart, p: StateID)
    requires c.Linked() && p in c.nodes && c.nodes[p].parent == None
    ensures forall a :: c.Below(a, p) <==> a == ROOT
  {
    assert c.NodeOK(p);
  }

  lemma RegionAbove(c: Chart, p: StateID, x: StateID)
    requires c.Linked() && p in c.nodes && c.nodes[p].parent == None && x in c.nodes && c.nodes[x].parent == Some(p)
    ensures forall a :: c.Below(a, x) <==> a == p || a == ROOT
  {
    TopAbove(c, p);
    assert c.NodeOK(x) && c.Par(x) == p;
  }

  /** Leaves inside different top-level states have no common ancestor. */
  lemma AcrossTops(c: Chart, f: StateID, q: StateID, x: StateID, y: StateID)
    requires c.Linked() && f != q && x in c.nodes && c.nodes[x].parent == Some(f) && y in c.nodes && c.IsAtomic(y)
    requires f in c.nodes && c.nodes[f].parent == None && q in c.nodes && c.nodes[q].parent == None
    requires c.nodes[y].parent == Some(q)
    ensures LeafTargets(c, y) == [y] && LccaOfHop(c, Hop(x, y)) == ROOT
  {
    RegionAbove(c, f, x);
    RegionAbove(c, q, y);
    LccaDeepest(c, x, y);
  }

  lemma ForkHops(c: Chart, f: StateID, n: StateID, m: StateID, q: StateID, s: StateID, t: StateID)
    requires IsFork(c, f, n, m, q, s, t)
    ensures LeafTargets(c, s) == [s] && LeafTargets(c, t) == [t]
    ensures LccaOfHop(c, Hop(n, s)) == ROOT && LccaOfHop(c, Hop(m, t)) == ROOT
  {
    AcrossTops(c, f, q, n, s);
    AcrossTops(c, f, q, m, t);
  }

  /** What the two hops bring: the other parallel state, whole. */
  lemma ForkBrings(c: Chart, f: StateID, n: StateID, m: StateID, q: StateID, s: StateID, t: StateID)
    requires IsFork(c, f, n, m, q, s, t)
    ensures Brought(c, [Hop(n, s), Hop(m, t)], ROOT) == {q, s, t}
  {
    var hops := [Hop(n, s), Hop(m, t)];
    ForkHops(c, f, n, m, q, s, t);
    RegionAbove(c, q, s);
    RegionAbove(c, q, t);
    assert c.NodeOK(ROOT) && hops[0] in hops && hops[1] in hops;
    assert s in LeafTargets(c, s) && t in LeafTargets(c, t);
    forall x ensures x in Brought(c, hops, ROOT) <==> x == q || x == s || x == t {
      assert IsActive(c, LeafTargets(c, s), x) <==> c.Anc(x, s);
      assert IsActive(c, LeafTargets(c, t), x) <==> c.Anc(x, t);
    }
  }

  lemma ForkComplete(c: Chart, f: StateID, n: StateID, m: StateID, q: StateID, s: StateID, t: StateID)
    requires IsFork(c, f, n, m, q, s, t)
    ensures OneChild(c, {q, s, t}, ROOT) && ChildrenOK(c, {q, s, t}, ROOT)
    ensures forall x :: x in {q, s, t} ==> ChildrenOK(c, {q, s, t}, x)
  {
    assert c.NodeOK(ROOT);
    assert c.Par(f) == ROOT && c.Par(n) == f && c.Par(m) == f;
    assert c.Par(q) == ROOT && c.Par(s) == q && c.Par(t) == q;
    assert IsOnlyChild(c, {q, s, t}, ROOT, q);
  }

  lemma ForkCompletes(c: Chart, f: StateID, n: StateID, m: StateID, q: StateID, s: StateID, t: StateID)
    requires IsFork(c, f, n, m, q, s, t)
    ensures Completes(c, [Hop(n, s), Hop(m, t)], ROOT)
  {
    ForkBrings(c, f, n, m, q, s, t);
    ForkComplete(c, f, n, m, q, s, t);
  }

  lemma ForkTogether(c: Chart, f: StateID, n: StateID, m: StateID, q: StateID, s: StateID, t: StateID)
    requires IsFork(c, f, n, m, q, s, t)
    ensures Together(c, [n, m], [Hop(n, s), Hop(m, t)]) && NoneAstray(c, [Hop(n, s), Hop(m, t)])
  {
    var hops := [Hop(n, s), Hop(m, t)];
    ForkHops(c, f, n, m, q, s, t);
    assert hops[0] in hops && hops[1] in hops;
    RootAboveAll(c, s);
    RootAboveAll(c, t);
  }

  lemma ForkInOrder(c: Chart, f: StateID, n: StateID, m: StateID, q: StateID, s: StateID, t: StateID)
    requires IsFork(c, f, n, m, q, s, t)
    ensures InOrder(c, [Hop(n, s), Hop(m, t)])
  {
    ForkHops(c, f, n, m, q, s, t);
    RankIndex(c, 1);
    RankIndex(c, 2);
    RankIndex(c, 4);
    RankIndex(c, 5);
  }

  /** The target is below a parallel state that the hop does not come from. */
  lemma ForkNotClean(c: Chart, f: StateID, n: StateID, m: StateID, q: StateID, s: StateID, t: StateID)
    requires IsFork(c, f, n, m, q, s, t)
    ensures !CleanStep(c, [n, m], [Hop(n, s), Hop(m, t)])
  {
    var hops := [Hop(n, s), Hop(m, t)];
    ForkHops(c, f, n, m, q, s, t);
    RootAboveAll(c, q);
    RegionAbove(c, q, s);
    assert c.NodeOK(ROOT) && c.IsAnd(q) && c.Below(q, s);
    assert hops[0] in hops && !HopClean(c, [n, m], hops, hops[0]);
  }

  lemma ForkJoint(c: Chart, f: StateID, n: StateID, m: StateID, q: StateID, s: StateID, t: StateID)
    requires IsFork(c, f, n, m, q, s, t)
    ensures JointStep(c, [n, m], [Hop(n, s), Hop(m, t)])
  {
    ForkTogether(c, f, n, m, q, s, t);
    ForkCompletes(c, f, n, m, q, s, t);
    ForkHops(c, f, n, m, q, s, t);
  }

  lemma ForkStart(k: Machine<int>, f: StateID, n: StateID, m: StateID, q: StateID, s: StateID, t: StateID)
    requires IsForkMachine(k, f, n, m, q, s, t)
    ensures Good(k, StartConf(k)) && StartConf(k).leaves == [n, m]
  {
    TopAbove(k.chart, f);
    StartGood(k);
    StartParts(k);
    assert k.chart.NodeOK(ROOT);
    TwoRegions(k.chart, f, n, m);
  }

  lemma TwoRegions(c: Chart, f: StateID, n: StateID, m: StateID)
    requires c.Linked() && c.IsAnd(f) && c.nodes[f].children == [n, m] && c.IsAtomic(n) && c.IsAtomic(m)
    ensures LeafTargets(c, f) == [n, m]
  {
    assert RegionTargets(c, f, 0) == [];
    assert RegionTargets(c, f, 1) == [] + [n];
    assert RegionTargets(c, f, 2) == [n] + [m];
  }

  lemma ForkGo(k: Machine<int>, f: StateID, n: StateID, m: StateID, q: StateID, s: StateID, t: StateID)
    requires IsForkMachine(k, f, n, m, q, s, t) && StartConf(k).leaves == [n, m]
    ensures Hops(MovePending(k, StartConf(k), Move.Step(GO))) == [Hop(n, s), Hop(m, t)]
    ensures NewLeaves(k.chart, [n, m], [Hop(n, s), Hop(m, t)]) == [s, t]
  {
    var g := Fork(f, n, m, q, s, t).states[0];
    ResolveRegion(k, f, n, g, [], OnGo(s), f, s, StartConf(k).ctx);
    ResolveRegion(k, f, m, g, [], OnGo(t), f, t, StartConf(k).ctx);
    EnabledTwo(k, n, m, StartConf(k).ctx, GO);
    HopsTwo(n, m, Transition(s, None, []), Transition(t, None, []));
    HopFromTwo(n, m, s, t);
    ForkHops(k.chart, f, n, m, q, s, t);
    NewLeavesTwo(k.chart, n, m, [Hop(n, s), Hop(m, t)]);
  }

  lemma ForkStep(k: Machine<int>, f: StateID, n: StateID, m: StateID, q: StateID, s: StateID, t: StateID)
    requires IsForkMachine(k, f, n, m, q, s, t)
    ensures Good(k, StartConf(k)) && CleanMove(k, StartConf(k), Move.Step(GO))
    ensures Good(k, Next(k, StartConf(k), Move.Step(GO))) && Next(k, StartConf(k), Move.Step(GO)).leaves == [s, t]
  {
    ForkStart(k, f, n, m, q, s, t);
    ForkGo(k, f, n, m, q, s, t);
    ForkJoint(k.chart, f, n, m, q, s, t);
    ForkInOrder(k.chart, f, n, m, q, s, t);
    NextGood(k, StartConf(k), Move.Step(GO));
    StepLeaves(k, StartConf(k), GO, [Hop(n, s), Hop(m, t)]);
  }

  /** A joint fork on a valid declaration keeps the invariant although it is not clean hop by hop. */
  lemma ForkIsGood(f: StateID, n: StateID, m: StateID, q: StateID, s: StateID, t: StateID) returns (k: Machine<int>)
    requires Named6(f, n, m, q, s, t)
    ensures Valid(Fork(f, n, m, q, s, t)) && k == MachineOf(Fork(f, n, m, q, s, t)) && WellFormed(k)
    ensures Good(k, StartConf(k)) && StartConf(k).leaves == [n, m]
    ensures Hops(MovePending(k, StartConf(k), Move.Step(GO))) == [Hop(n, s), Hop(m, t)]
    ensures !CleanStep(k.chart, [n, m], [Hop(n, s), Hop(m, t)]) && CleanMove(k, StartConf(k), Move.Step(GO))
    ensures Good(k, Next(k, StartConf(k), Move.Step(GO))) && Next(k, StartConf(k), Move.Step(GO)).leaves == [s, t]
  {
    ForkValid(f, n, m, q, s, t);
    k := MachineOf(Fork(f, n, m, q, s, t));
    ForkCompiled(f, n, m, q, s, t);
    ForkStart(k, f, n, m, q, s, t);
    ForkGo(k, f, n, m, q, s, t);
    ForkNotClean(k.chart, f, n, m, q, s, t);
    ForkStep(k, f, n, m, q, s, t);
  }
}
