/** Small declared machines on which hypotheses of the theorems fail, or just hold. Their state
    IDs are parameters; the results hold for any distinct non-empty IDs. */
module Examples {
  import opened Seqs
  import opened Charts
  import opened Navigation
  import opened Configurations
  import opened Steps
  import opened Hypotheses
  import opened Exactness
  import opened Machines
  import opened Declarations
  import opened Compiling
  import opened Meaning
  import opened Placement
  import opened Interpreter
  import opened Runs
  import opened Forests

  const GO: Event := E("go")

  function Leaf(id: StateID, final: bool, ts: seq<TransDecl<int>>, always: seq<TransDecl<int>>): StateDecl<int> {
    StateDecl(id, final, false, "", [], ts, [], always, [], [], 0)
  }

  function Group(id: StateID, parallel: bool, children: seq<StateDecl<int>>, ts: seq<TransDecl<int>>): StateDecl<int> {
    StateDecl(id, false, parallel, "", children, ts, [], [], [], [], 0)
  }

  function OnGo(target: StateID): seq<TransDecl<int>> {
    [TransDecl("go", target, None, [])]
  }

  lemma IdsOf2(a: StateDecl<int>, b: StateDecl<int>)
    ensures Ids([a, b]) == TreeIds(a) + TreeIds(b) && RootIds([a, b]) == [a.id, b.id]
  {
    assert [a, b][..1] == [a] && [a][..0] == [];
    assert Ids([a]) == [] + TreeIds(a);
    assert RootIds([a]) == [] + [a.id];
  }

  lemma ValidOf2(a: StateDecl<int>, b: StateDecl<int>, known: set<StateID>)
    ensures ForestValid([a, b], known) <==> TreeValid(a, known) && TreeValid(b, known)
  {
    assert [a, b][..1] == [a] && [a][..0] == [];
    ValidOf1(a, known);
  }

  lemma IdsOf1(a: StateDecl<int>)
    ensures Ids([a]) == TreeIds(a) && RootIds([a]) == [a.id]
  {
    assert [a][..0] == [];
  }

  lemma ValidOf1(a: StateDecl<int>, known: set<StateID>)
    ensures ForestValid([a], known) <==> TreeValid(a, known)
  {
    var none: seq<StateDecl<int>> := [];
    assert [a][..0] == none;
    assert ForestValid(none, known);
  }

  lemma LeafValid(id: StateID, final: bool, ts: seq<TransDecl<int>>, known: set<StateID>)
    requires forall i :: 0 <= i < |ts| ==> TargetValid(ts[i].target, known)
    ensures TreeValid(Leaf(id, final, ts, []), known)
  {
  }

  lemma PairValid(id: StateID, a: StateDecl<int>, b: StateDecl<int>, ts: seq<TransDecl<int>>, known: set<StateID>)
    requires TreeValid(a, known) && TreeValid(b, known)
    requires forall i :: 0 <= i < |ts| ==> TargetValid(ts[i].target, known)
    ensures TreeValid(Group(id, true, [a, b], ts), known)
  {
    ValidOf2(a, b, known);
  }

  // ---------------------------------------------------------------- a form with two regions

  /** A parallel form with two atomic regions, and a state outside it. */
  function Form(f: StateID, n: StateID, m: StateID, s: StateID, onForm: seq<TransDecl<int>>,
                onName: seq<TransDecl<int>>, onMail: seq<TransDecl<int>>): MachineDecl<int>
  {
    MachineDecl("forms", f, 0,
                [Group(f, true, [Leaf(n, false, onName, []), Leaf(m, false, onMail, [])], onForm),
                 Leaf(s, true, [], [])])
  }

  ghost predicate Named(f: StateID, n: StateID, m: StateID, s: StateID) {
    && "" != f && "" != n && "" != m && "" != s
    && f != n && f != m && f != s && n != m && n != s && m != s
  }

  ghost predicate TargetsAmong(ts: seq<TransDecl<int>>, ids: seq<StateID>) {
    forall i :: 0 <= i < |ts| ==> ts[i].target in ids && ts[i].target != ""
  }

  lemma FormValid(f: StateID, n: StateID, m: StateID, s: StateID, onForm: seq<TransDecl<int>>,
                  onName: seq<TransDecl<int>>, onMail: seq<TransDecl<int>>)
    requires Named(f, n, m, s)
    requires TargetsAmong(onForm, [f, n, m, s]) && TargetsAmong(onName, [f, n, m, s]) && TargetsAmong(onMail, [f, n, m, s])
    ensures Valid(Form(f, n, m, s, onForm, onName, onMail))
    ensures Ids(Form(f, n, m, s, onForm, onName, onMail).states) == [f, n, m, s]
  {
    var cfg := Form(f, n, m, s, onForm, onName, onMail);
    var a, b := Leaf(n, false, onName, []), Leaf(m, false, onMail, []);
    var g, o := cfg.states[0], cfg.states[1];
    IdsOf2(a, b);
    IdsOf2(g, o);
    assert Ids(cfg.states) == [f, n, m, s];
    assert f in Ids(cfg.states);
    assert Declared(cfg) == set id | id in [f, n, m, s];
    LeafValid(n, false, onName, Declared(cfg));
    LeafValid(m, false, onMail, Declared(cfg));
    LeafValid(s, true, [], Declared(cfg));
    PairValid(f, a, b, onForm, Declared(cfg));
    ValidOf2(g, o, Declared(cfg));
  }

  /** The compiled form. */
  ghost predicate IsForm(c: Chart, f: StateID, n: StateID, m: StateID, s: StateID) {
    && c.WF() && Named(f, n, m, s) && c.order == [f, n, m, s]
    && f in c.nodes && c.nodes[f] == Node(None, [n, m], "", true, false)
    && n in c.nodes && c.nodes[n] == Node(Some(f), [], "", false, false)
    && m in c.nodes && c.nodes[m] == Node(Some(f), [], "", false, false)
    && s in c.nodes && c.nodes[s] == Node(None, [], "", false, true)
    && forall id :: id in c.nodes ==> id == f || id == n || id == m || id == s
  }

  /** A state declared at the top, and one declared inside it. */
  lemma TopOccurs(states: seq<StateDecl<int>>, i: nat)
    requires i < |states|
    ensures Occurs(states, None, states[i], None)
  {
    assert OccursIn(states[i], None, states[i], None);
  }

  lemma ChildOccurs(states: seq<StateDecl<int>>, i: nat, j: nat)
    requires i < |states| && j < |states[i].children|
    ensures Occurs(states, None, states[i].children[j], Some(states[i].id))
  {
    var t := states[i];
    assert OccursIn(t.children[j], Some(t.id), t.children[j], Some(t.id));
    assert Occurs(t.children, Some(t.id), t.children[j], Some(t.id));
    assert OccursIn(t, None, t.children[j], Some(t.id));
  }

  /** A state of two children, compiled. */
  lemma PairPlaced(cfg: MachineDecl<int>, i: nat)
    requires Valid(cfg) && i < |cfg.states| && |cfg.states[i].children| == 2
    ensures var k, g := MachineOf(cfg), cfg.states[i];
      && g.id in k.chart.nodes && k.chart.nodes[g.id] == NodeOf(g, None)
      && g.id in k.rules && k.rules[g.id] == RulesOf(g)
      && var a, b := g.children[0], g.children[1];
      && a.id in k.chart.nodes && k.chart.nodes[a.id] == NodeOf(a, Some(g.id))
      && b.id in k.chart.nodes && k.chart.nodes[b.id] == NodeOf(b, Some(g.id))
      && {a.id, b.id} <= k.rules.Keys && k.rules[a.id] == RulesOf(a) && k.rules[b.id] == RulesOf(b)
  {
    var g := cfg.states[i];
    TopOccurs(cfg.states, i);
    ChildOccurs(cfg.states, i, 0);
    ChildOccurs(cfg.states, i, 1);
    CompiledAs(cfg, g, None);
    CompiledAs(cfg, g.children[0], Some(g.id));
    CompiledAs(cfg, g.children[1], Some(g.id));
  }

  /** A parallel state of two atomic regions, compiled. */
  lemma PairNodes(cfg: MachineDecl<int>, i: nat, p: StateID, x: StateID, y: StateID)
    requires Valid(cfg) && i < |cfg.states| && |cfg.states[i].children| == 2
    requires var g := cfg.states[i];
      && g == Group(p, true, g.children, g.transitions)
      && g.children[0] == Leaf(x, false, g.children[0].transitions, [])
      && g.children[1] == Leaf(y, false, g.children[1].transitions, [])
    ensures var c := MachineOf(cfg).chart;
      && p in c.nodes && c.nodes[p] == Node(None, [x, y], "", true, false)
      && x in c.nodes && c.nodes[x] == Node(Some(p), [], "", false, false)
      && y in c.nodes && c.nodes[y] == Node(Some(p), [], "", false, false)
  {
    var g := cfg.states[i];
    PairPlaced(cfg, i);
    IdsOf2(g.children[0], g.children[1]);
    assert g.children == [g.children[0], g.children[1]];
  }

  lemma FormCompiled(f: StateID, n: StateID, m: StateID, s: StateID, onForm: seq<TransDecl<int>>,
                     onName: seq<TransDecl<int>>, onMail: seq<TransDecl<int>>)
    requires Named(f, n, m, s)
    requires TargetsAmong(onForm, [f, n, m, s]) && TargetsAmong(onName, [f, n, m, s]) && TargetsAmong(onMail, [f, n, m, s])
    ensures Valid(Form(f, n, m, s, onForm, onName, onMail))
    ensures var k := MachineOf(Form(f, n, m, s, onForm, onName, onMail));
      && WellFormed(k) && TimersApart(k) && IsForm(k.chart, f, n, m, s)
      && k.rules[f] == RulesOf(Form(f, n, m, s, onForm, onName, onMail).states[0])
      && k.rules[n] == RulesOf(Leaf(n, false, onName, []))
      && k.rules[m] == RulesOf(Leaf(m, false, onMail, []))
  {
    var cfg := Form(f, n, m, s, onForm, onName, onMail);
    FormValid(f, n, m, s, onForm, onName, onMail);
    CompiledWellFormed(cfg);
    CompiledTimersApart(cfg);
    PairPlaced(cfg, 0);
    FormChart(f, n, m, s, onForm, onName, onMail);
  }

  lemma FormChart(f: StateID, n: StateID, m: StateID, s: StateID, onForm: seq<TransDecl<int>>,
                  onName: seq<TransDecl<int>>, onMail: seq<TransDecl<int>>)
    requires Named(f, n, m, s) && Valid(Form(f, n, m, s, onForm, onName, onMail))
    requires Ids(Form(f, n, m, s, onForm, onName, onMail).states) == [f, n, m, s]
    ensures IsForm(MachineOf(Form(f, n, m, s, onForm, onName, onMail)).chart, f, n, m, s)
  {
    var cfg := Form(f, n, m, s, onForm, onName, onMail);
    CompiledWellFormed(cfg);
    PairNodes(cfg, 0, f, n, m);
    TopOccurs(cfg.states, 1);
    CompiledAs(cfg, cfg.states[1], None);
    ChartIds(cfg);
  }

  lemma ChartIds(cfg: MachineDecl<int>)
    requires Valid(cfg)
    ensures var c := MachineOf(cfg).chart;
      c.order == Ids(cfg.states) && forall id :: id in c.nodes ==> id in Ids(cfg.states)
  {
    NodesKeys(cfg.states, None);
  }

  // ---------------------------------------------------------------- what its chart looks like

  lemma FormTargets(c: Chart, f: StateID, n: StateID, m: StateID, s: StateID)
    requires IsForm(c, f, n, m, s)
    ensures LeafTargets(c, f) == [n, m] && LeafTargetOf(c, f) == n
    ensures LeafTargets(c, n) == [n] && LeafTargets(c, m) == [m] && LeafTargets(c, s) == [s]
    ensures c.IsAnd(f) && c.Par(f) == ROOT && c.Par(n) == f && c.Par(m) == f && c.Par(s) == ROOT
    ensures c.IsAtomic(n) && c.IsAtomic(m) && c.IsAtomic(s)
  {
    assert RegionTargets(c, f, 0) == [];
    assert RegionTargets(c, f, 1) == [] + [n];
    assert RegionTargets(c, f, 2) == [n] + [m];
    LeafTargetFirst(c, f);
  }

  /** From its start, the form is in both regions. */
  lemma FormStart(c: Chart, f: StateID, n: StateID, m: StateID, s: StateID)
    requires IsForm(c, f, n, m, s)
    ensures LeafList(c, [n, m]) && Legal(c, Active(c, [n, m])) && FirstsIncrease(c, [n, m])
    ensures Active(c, [n, m]) == {f, n, m}
  {
    FormTargets(c, f, n, m, s);
    assert c.NodeOK(ROOT) && c.NodeOK(f);
    InitialLegal(c, f);
    forall a ensures c.Below(a, f) ==> a == ROOT { }
    FormAbove(c, f, n, m, s);
    assert n in [n, m] && m in [n, m];
    forall x ensures x in Active(c, [n, m]) <==> x == f || x == n || x == m {
    }
  }

  lemma FormAbove(c: Chart, f: StateID, n: StateID, m: StateID, s: StateID)
    requires IsForm(c, f, n, m, s)
    ensures forall a :: c.Below(a, n) <==> a == f || a == ROOT
    ensures forall a :: c.Below(a, m) <==> a == f || a == ROOT
    ensures forall a :: c.Below(a, s) <==> a == ROOT
    ensures forall a :: c.Below(a, f) <==> a == ROOT
  {
    assert c.NodeOK(n) && c.NodeOK(m) && c.NodeOK(s) && c.NodeOK(f);
  }

  lemma FormLccas(c: Chart, f: StateID, n: StateID, m: StateID, s: StateID)
    requires IsForm(c, f, n, m, s)
    ensures LccaOf(c, n, n) == f && LccaOf(c, m, n) == f && LccaOf(c, m, m) == f && LccaOf(c, n, s) == ROOT
  {
    FormAbove(c, f, n, m, s);
    assert c.NodeOK(n) && c.NodeOK(m) && c.NodeOK(s);
  }

  // ---------------------------------------------------------------- one event on the form

  lemma ScanGo(id: StateID, final: bool, ts: seq<TransDecl<int>>, target: StateID, ctx: int)
    requires ts == [] || ts == OnGo(target)
    ensures ScanState(Leaf(id, final, ts, []), ctx, GO) ==
      if ts == [] then None else Some(Transition(target, None, []))
    ensures forall kids :: ScanState(Group(id, true, kids, ts), ctx, GO) == ScanState(Leaf(id, final, ts, []), ctx, GO)
  {
    if ts != [] {
      assert ts[0] == TransDecl("go", target, None, []);
    }
  }

  /** What a region's leaf does on the event: its own transition, else the form's. */
  lemma ResolveRegion(k: Machine<int>, f: StateID, x: StateID, g: StateDecl<int>, onForm: seq<TransDecl<int>>,
                      own: seq<TransDecl<int>>, toForm: StateID, toOwn: StateID, ctx: int)
    requires WellFormed(k) && x in k.chart.nodes && k.chart.nodes[x].parent == Some(f)
    requires f in k.chart.nodes && k.chart.nodes[f].parent == None
    requires g.id == f && g == Group(f, true, g.children, onForm)
    requires k.rules[x] == RulesOf(Leaf(x, false, own, [])) && k.rules[f] == RulesOf(g)
    requires (own == [] || own == OnGo(toOwn)) && (onForm == [] || onForm == OnGo(toForm))
    ensures Resolve(k, x, ctx, GO) ==
      if own != [] then Some(Transition(toOwn, None, []))
      else if onForm != [] then Some(Transition(toForm, None, [])) else None
  {
    ScanGo(x, false, own, toOwn, ctx);
    ScanGo(f, false, onForm, toForm, ctx);
    StateMeaning(Leaf(x, false, own, []), ctx, GO);
    StateMeaning(g, ctx, GO);
  }

  function Taken(x: StateID, r: Option<Transition<int>>): seq<Pending<int>> {
    if r.None? then [] else [Pending(x, r.value.target, r.value.actions)]
  }

  lemma EnabledTwo(k: Machine<int>, x: StateID, y: StateID, ctx: int, ev: Event)
    requires WellFormed(k) && x != y
    ensures Enabled(k, [x, y], ctx, ev) == Taken(x, Resolve(k, x, ctx, ev)) + Taken(y, Resolve(k, y, ctx, ev))
  {
    assert [x, y][..1] == [x] && [x][..0] == [];
    assert Enabled(k, [x], ctx, ev) == [] + Taken(x, Resolve(k, x, ctx, ev));
  }

  lemma NewLeavesTwo(c: Chart, x: StateID, y: StateID, hops: seq<Hop>)
    requires c.Linked()
    ensures NewLeaves(c, [x, y], hops) == Image(c, x, hops) + Image(c, y, hops)
  {
    assert [x, y][..1] == [x] && [x][..0] == [];
    assert NewLeaves(c, [x], hops) == [] + Image(c, x, hops);
  }

  lemma HopFromTwo(x: StateID, y: StateID, tx: StateID, ty: StateID)
    requires x != y
    ensures HopFrom([Hop(x, tx)], x) == Some(Hop(x, tx)) && HopFrom([Hop(x, tx)], y) == None
    ensures HopFrom([Hop(x, tx), Hop(y, ty)], x) == Some(Hop(x, tx))
    ensures HopFrom([Hop(x, tx), Hop(y, ty)], y) == Some(Hop(y, ty))
  {
    assert [Hop(x, tx)][..0] == [];
    assert [Hop(x, tx), Hop(y, ty)][..1] == [Hop(x, tx)];
  }

  lemma HopsOne(x: StateID, r: Option<Transition<int>>)
    ensures Hops(Taken(x, r)) == if r.None? then [] else [Hop(x, r.value.target)]
  {
    if r.Some? {
      assert Taken(x, r)[..0] == [];
    }
  }

  lemma HopsTwo(x: StateID, y: StateID, r: Transition<int>, q: Transition<int>)
    ensures Hops(Taken(x, Some(r)) + Taken(y, Some(q))) == [Hop(x, r.target), Hop(y, q.target)]
  {
    HopsOne(x, Some(r));
    HopsSnoc(Taken(x, Some(r)), Pending(y, q.target, q.actions));
  }

  /** The start of the form, and the hops that the event leads to. */
  lemma FormGo(f: StateID, n: StateID, m: StateID, s: StateID, onForm: seq<TransDecl<int>>,
               onName: seq<TransDecl<int>>, onMail: seq<TransDecl<int>>, tf: StateID, tn: StateID, tm: StateID)
    requires Named(f, n, m, s) && {tf, tn, tm} <= {f, n, m, s}
    requires onForm in [[], OnGo(tf)] && onName in [[], OnGo(tn)] && onMail in [[], OnGo(tm)]
    ensures Valid(Form(f, n, m, s, onForm, onName, onMail))
    ensures var k := MachineOf(Form(f, n, m, s, onForm, onName, onMail));
      && WellFormed(k) && TimersApart(k) && IsForm(k.chart, f, n, m, s)
      && StartConf(k).leaves == [n, m] && Good(k, StartConf(k))
      && MovePending(k, StartConf(k), Move.Step(GO)) ==
           Taken(n, Resolve(k, n, StartConf(k).ctx, GO)) + Taken(m, Resolve(k, m, StartConf(k).ctx, GO))
      && Resolve(k, n, StartConf(k).ctx, GO) ==
           (if onName != [] then Some(Transition(tn, None, []))
            else if onForm != [] then Some(Transition(tf, None, [])) else None)
      && Resolve(k, m, StartConf(k).ctx, GO) ==
           (if onMail != [] then Some(Transition(tm, None, []))
            else if onForm != [] then Some(Transition(tf, None, [])) else None)
  {
    FormCompiled(f, n, m, s, onForm, onName, onMail);
    var cfg := Form(f, n, m, s, onForm, onName, onMail);
    var k := MachineOf(cfg);
    FormTargets(k.chart, f, n, m, s);
    FormAbove(k.chart, f, n, m, s);
    StartGood(k);
    assert k.chart.NodeOK(ROOT);
    EnabledTwo(k, n, m, StartConf(k).ctx, GO);
    ResolveRegion(k, f, n, cfg.states[0], onForm, onName, tf, tn, StartConf(k).ctx);
    ResolveRegion(k, f, m, cfg.states[0], onForm, onMail, tf, tm, StartConf(k).ctx);
  }

  lemma StepLeaves(k: Machine<int>, st: Conf<int>, ev: Event, hops: seq<Hop>)
    requires WellFormed(k) && LeafList(k.chart, st.leaves) && hops != []
    requires Hops(MovePending(k, st, Move.Step(ev))) == hops
    ensures Next(k, st, Move.Step(ev)).leaves == NewLeaves(k.chart, st.leaves, hops)
  {
    NextCases(k, st, Move.Step(ev));
  }

  /** A valid declaration and one event that take a legal configuration to an illegal one: the
      parallel form is left from one region only, and two top-level states stay active. */
  lemma OneRegionLeaves(f: StateID, n: StateID, m: StateID, s: StateID)
    requires Named(f, n, m, s)
    ensures Valid(Form(f, n, m, s, [], OnGo(s), []))
    ensures var k := MachineOf(Form(f, n, m, s, [], OnGo(s), []));
      && WellFormed(k) && Good(k, StartConf(k))
      && var after := Next(k, StartConf(k), Move.Step(GO)).leaves;
         after == [s, m] && !Legal(k.chart, Active(k.chart, after))
  {
    FormGo(f, n, m, s, [], OnGo(s), [], f, s, f);
    var k := MachineOf(Form(f, n, m, s, [], OnGo(s), []));
    SubmitHops(k, f, n, m, s);
    StepLeaves(k, StartConf(k), GO, [Hop(n, s)]);
    TwoTops(k.chart, f, n, m, s);
  }

  lemma SubmitHops(k: Machine<int>, f: StateID, n: StateID, m: StateID, s: StateID)
    requires WellFormed(k) && IsForm(k.chart, f, n, m, s) && LeafList(k.chart, StartConf(k).leaves)
    requires MovePending(k, StartConf(k), Move.Step(GO)) == Taken(n, Some(Transition(s, None, []))) + Taken(m, None)
    ensures Hops(MovePending(k, StartConf(k), Move.Step(GO))) == [Hop(n, s)]
    ensures NewLeaves(k.chart, [n, m], [Hop(n, s)]) == [s, m]
  {
    FormTargets(k.chart, f, n, m, s);
    HopsOne(n, Some(Transition(s, None, [])));
    var t: seq<Pending<int>> := Taken(n, Some(Transition(s, None, [])));
    assert t + [] == t;
    HopFromTwo(n, m, s, s);
    NewLeavesTwo(k.chart, n, m, [Hop(n, s)]);
  }

  lemma TwoTops(c: Chart, f: StateID, n: StateID, m: StateID, s: StateID)
    requires IsForm(c, f, n, m, s)
    ensures !Legal(c, Active(c, [s, m]))
  {
    FormTargets(c, f, n, m, s);
    FormAbove(c, f, n, m, s);
    assert s in [s, m] && m in [s, m];
    assert f in Active(c, [s, m]) && s in Active(c, [s, m]);
    assert c.IsChild(ROOT, f) && c.IsChild(ROOT, s);
  }

  // ---------------------------------------------------------------- all regions at once

  /** Both regions' leaves take the form's own transition to itself: nothing about the targets is
      clean, yet the step restarts the form and is as good as any. */
  lemma RestartIsClean(f: StateID, n: StateID, m: StateID, s: StateID)
    requires Named(f, n, m, s)
    ensures Valid(Form(f, n, m, s, OnGo(f), [], []))
    ensures var k := MachineOf(Form(f, n, m, s, OnGo(f), [], []));
      && WellFormed(k) && Good(k, StartConf(k)) && StartConf(k).leaves == [n, m]
      && Hops(MovePending(k, StartConf(k), Move.Step(GO))) == [Hop(n, f), Hop(m, f)]
      && CleanMove(k, StartConf(k), Move.Step(GO)) && Good(k, Next(k, StartConf(k), Move.Step(GO)))
      && !TargetClean(k.chart, Hop(n, f)) && !TargetClean(k.chart, Hop(m, f))
  {
    FormGo(f, n, m, s, OnGo(f), [], [], f, f, f);
    var k := MachineOf(Form(f, n, m, s, OnGo(f), [], []));
    HopsTwo(n, m, Transition(f, None, []), Transition(f, None, []));
    RestartHops(k.chart, f, n, m, s);
    NextGood(k, StartConf(k), Move.Step(GO));
  }

  lemma RestartHops(c: Chart, f: StateID, n: StateID, m: StateID, s: StateID)
    requires IsForm(c, f, n, m, s)
    ensures CleanStep(c, [n, m], [Hop(n, f), Hop(m, f)])
    ensures JointStep(c, [n, m], [Hop(n, f), Hop(m, f)]) && InOrder(c, [Hop(n, f), Hop(m, f)])
    ensures !TargetClean(c, Hop(n, f)) && !TargetClean(c, Hop(m, f))
  {
    FormTargets(c, f, n, m, s);
    FormLccas(c, f, n, m, s);
    var hops := [Hop(n, f), Hop(m, f)];
    assert Hop(n, f) in hops && Hop(m, f) in hops;
    FormAbove(c, f, n, m, s);
    assert c.NodeOK(ROOT);
    assert forall a :: c.Below(a, f) ==> !c.IsAnd(a);
    assert JointRestart(c, [n, m], hops, Hop(n, f));
    assert JointRestart(c, [n, m], hops, Hop(m, f));
    FormStart(c, f, n, m, s);
    assert [n, m][0] == n && [n, m][1] == m;
    CleanIsJoint(c, [n, m], hops);
  }

  /** Transitions to different targets can make up for one another: one leaf restarts the form,
      the other takes its own self-transition. The step is not clean hop by hop, because the hops
      are not apart; it is a clean move, because they act together. */
  lemma GoodNotApart(f: StateID, n: StateID, m: StateID, s: StateID)
    requires Named(f, n, m, s)
    ensures Valid(Form(f, n, m, s, [], OnGo(f), OnGo(m)))
    ensures var k := MachineOf(Form(f, n, m, s, [], OnGo(f), OnGo(m)));
      var hops := [Hop(n, f), Hop(m, m)];
      && WellFormed(k) && Good(k, StartConf(k)) && StartConf(k).leaves == [n, m]
      && Hops(MovePending(k, StartConf(k), Move.Step(GO))) == hops
      && !Apart(k.chart, hops) && !CleanStep(k.chart, [n, m], hops)
      && CleanMove(k, StartConf(k), Move.Step(GO)) && Good(k, Next(k, StartConf(k), Move.Step(GO)))
  {
    FormGo(f, n, m, s, [], OnGo(f), OnGo(m), f, f, m);
    var k := MachineOf(Form(f, n, m, s, [], OnGo(f), OnGo(m)));
    HopsTwo(n, m, Transition(f, None, []), Transition(m, None, []));
    MixedHops(k.chart, f, n, m, s);
    NextGood(k, StartConf(k), Move.Step(GO));
  }

  lemma MixedHops(c: Chart, f: StateID, n: StateID, m: StateID, s: StateID)
    requires IsForm(c, f, n, m, s)
    ensures var hops := [Hop(n, f), Hop(m, m)];
      && JointStep(c, [n, m], hops) && InOrder(c, hops)
      && !Apart(c, hops) && !CleanStep(c, [n, m], hops)
  {
    var hops := [Hop(n, f), Hop(m, m)];
    FormStart(c, f, n, m, s);
    MixedLeaves(c, f, n, m, s);
    MixedMeet(c, f, n, m, s);
    MixedOutcome(c, f, n, m, s);
    CleanStepExact(c, [n, m], hops);
    JointStepExact(c, [n, m], hops);
    OrderExact(c, [n, m], hops);
  }

  lemma MixedOutcome(c: Chart, f: StateID, n: StateID, m: StateID, s: StateID)
    requires IsForm(c, f, n, m, s)
    ensures GoodOutcome(c, [n, m], [Hop(n, f), Hop(m, m)])
  {
    FormStart(c, f, n, m, s);
    MixedLeaves(c, f, n, m, s);
    SameLeavesActive(c, [n, m, m], [n, m]);
    MixedBalanced(c, f, n, m, s);
  }

  lemma MixedLeaves(c: Chart, f: StateID, n: StateID, m: StateID, s: StateID)
    requires IsForm(c, f, n, m, s)
    ensures NewLeaves(c, [n, m], [Hop(n, f), Hop(m, m)]) == [n, m, m] && FirstsIncrease(c, [n, m, m])
  {
    FormTargets(c, f, n, m, s);
    HopFromTwo(n, m, f, m);
    NewLeavesTwo(c, n, m, [Hop(n, f), Hop(m, m)]);
    assert c.order[1] == n && c.order[2] == m;
  }

  lemma MixedMeet(c: Chart, f: StateID, n: StateID, m: StateID, s: StateID)
    requires IsForm(c, f, n, m, s)
    ensures var hops := [Hop(n, f), Hop(m, m)];
      HopsFor(c, [n, m], hops) && !Apart(c, hops) && Together(c, [n, m], hops)
  {
    var hops := [Hop(n, f), Hop(m, m)];
    FormTargets(c, f, n, m, s);
    FormLccas(c, f, n, m, s);
    assert hops[0] in hops && hops[1] in hops && [n, m][0] == n && [n, m][1] == m;
    assert InZone(c, hops[0], hops[1].source);
  }

  lemma SameLeavesActive(c: Chart, a: seq<StateID>, b: seq<StateID>)
    requires c.Linked() && forall l :: l in a <==> l in b
    ensures Active(c, a) == Active(c, b) && forall x :: IsActive(c, a, x) <==> IsActive(c, b, x)
  {
    forall x ensures IsActive(c, a, x) <==> IsActive(c, b, x) {
    }
  }

  lemma MixedBalanced(c: Chart, f: StateID, n: StateID, m: StateID, s: StateID)
    requires IsForm(c, f, n, m, s)
    ensures var hops := [Hop(n, f), Hop(m, m)];
      forall x :: Exited(c, hops, x) <==> x == n || x == m
    ensures var hops := [Hop(n, f), Hop(m, m)];
      forall x :: Entered(c, hops, x) <==> x == n || x == m
  {
    var hops := [Hop(n, f), Hop(m, m)];
    FormTargets(c, f, n, m, s);
    FormLccas(c, f, n, m, s);
    assert c.NodeOK(n) && c.NodeOK(m) && c.NodeOK(f);
    assert PathUp(c, f, f) == [];
    assert PathUp(c, n, f) == [n] && PathUp(c, m, f) == [m];
    assert hops[0] in hops && hops[1] in hops;
    forall x ensures Exited(c, hops, x) <==> x == n || x == m {
      assert Exits(c, hops[0], x) <==> x == n;
      assert Exits(c, hops[1], x) <==> x == m;
    }
    forall x ensures Entered(c, hops, x) <==> x == n || x == m {
      assert n in LeafTargets(c, f) && m in LeafTargets(c, f);
      assert Enters(c, hops[0], x) <==> x == n || x == m;
      assert Enters(c, hops[1], x) ==> x == m;
    }
  }
}
