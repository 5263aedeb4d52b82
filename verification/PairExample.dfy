/** Two regions with always transitions that compete: the service takes both in one step, the
    test harness takes the first alone and finds the second disabled. They settle apart. */
module PairExample {
  import opened Seqs
  import opened Charts
  import opened Navigation
  import opened Configurations
  import opened Machines
  import opened Declarations
  import opened Compiling
  import opened Forests
  import opened Meaning
  import opened Placement
  import opened Interpreter
  import opened Runs
  import opened RunLoop
  import opened Flushing
  import opened Examples
  import opened NestedExample

  const FRESH: Guard<int> := (c: int, e: Event) => c == 0
  const MARK: Action<int> := (c: int, e: Event) => (1, [])

  /** An always transition while the context is 0. */
  function WhileFresh(target: StateID, actions: seq<Action<int>>): seq<TransDecl<int>> {
    [TransDecl("", target, Some(FRESH), actions)]
  }

  function Region(r: StateID, from: StateID, to: StateID, actions: seq<Action<int>>): StateDecl<int> {
    Group(r, false, [Leaf(from, false, [], WhileFresh(to, actions)), Leaf(to, false, [], [])], [])
  }

  /** The parallel state `p` with regions `a` (from `a1` to `a2`, marking the context) and `b`
      (from `b1` to `b2`). */
  function Pair(p: StateID, a: StateID, a1: StateID, a2: StateID, b: StateID, b1: StateID, b2: StateID)
    : MachineDecl<int>
  {
    MachineDecl("pairs", p, 0, [Group(p, true, [Region(a, a1, a2, [MARK]), Region(b, b1, b2, [])], [])])
  }

  ghost predicate Seven(p: StateID, a: StateID, a1: StateID, a2: StateID, b: StateID, b1: StateID, b2: StateID) {
    Distinct([p, a, a1, a2, b, b1, b2]) && "" !in [p, a, a1, a2, b, b1, b2]
  }

  // ---------------------------------------------------------------- compilation

  lemma RegionIds(r: StateID, from: StateID, to: StateID, actions: seq<Action<int>>)
    ensures TreeIds(Region(r, from, to, actions)) == [r, from, to]
    ensures RootIds(Region(r, from, to, actions).children) == [from, to]
  {
    IdsOf2(Leaf(from, false, [], WhileFresh(to, actions)), Leaf(to, false, [], []));
  }

  lemma RegionValid(r: StateID, from: StateID, to: StateID, actions: seq<Action<int>>, known: set<StateID>)
    requires to in known && to != "" && from != to
    ensures TreeValid(Region(r, from, to, actions), known)
  {
    ValidOf2(Leaf(from, false, [], WhileFresh(to, actions)), Leaf(to, false, [], []), known);
    var none: seq<StateDecl<int>> := [];
    assert ForestValid(none, known);
  }

  lemma PairValid(p: StateID, a: StateID, a1: StateID, a2: StateID, b: StateID, b1: StateID, b2: StateID)
    requires Seven(p, a, a1, a2, b, b1, b2)
    ensures Valid(Pair(p, a, a1, a2, b, b1, b2))
    ensures Ids(Pair(p, a, a1, a2, b, b1, b2).states) == [p, a, a1, a2, b, b1, b2]
  {
    var cfg := Pair(p, a, a1, a2, b, b1, b2);
    var ra, rb := Region(a, a1, a2, [MARK]), Region(b, b1, b2, []);
    PairIds(p, a, a1, a2, b, b1, b2);
    var ids := [p, a, a1, a2, b, b1, b2];
    SevenApart(p, a, a1, a2, b, b1, b2);
    assert ids[0] in ids && ids[2] in ids && ids[3] in ids && ids[5] in ids && ids[6] in ids;
    RegionValid(a, a1, a2, [MARK], Declared(cfg));
    RegionValid(b, b1, b2, [], Declared(cfg));
    ValidOf2(ra, rb, Declared(cfg));
    ValidOf1(cfg.states[0], Declared(cfg));
  }

  lemma PairIds(p: StateID, a: StateID, a1: StateID, a2: StateID, b: StateID, b1: StateID, b2: StateID)
    ensures Ids(Pair(p, a, a1, a2, b, b1, b2).states) == [p, a, a1, a2, b, b1, b2]
  {
    var cfg := Pair(p, a, a1, a2, b, b1, b2);
    RegionIds(a, a1, a2, [MARK]);
    RegionIds(b, b1, b2, []);
    IdsOf2(Region(a, a1, a2, [MARK]), Region(b, b1, b2, []));
    IdsOf1(cfg.states[0]);
    assert [p] + ([a, a1, a2] + [b, b1, b2]) == [p, a, a1, a2, b, b1, b2];
  }

  /** One compiled region. */
  ghost predicate IsRegion(k: Machine<int>, p: StateID, r: StateID, from: StateID, to: StateID,
                           actions: seq<Action<int>>)
    requires WellFormed(k)
  {
    var c := k.chart;
    && r in c.nodes && c.nodes[r] == Node(Some(p), [from, to], from, false, false)
    && from in c.nodes && c.nodes[from] == Node(Some(r), [], "", false, false)
    && to in c.nodes && c.nodes[to] == Node(Some(r), [], "", false, false)
    && k.rules[r] == RulesOf(Region(r, from, to, actions))
    && k.rules[from] == RulesOf(Leaf(from, false, [], WhileFresh(to, actions)))
    && k.rules[to] == RulesOf(Leaf(to, false, [], []))
  }

  lemma RegionCompiled(cfg: MachineDecl<int>, p: StateID, j: nat, r: StateID, from: StateID, to: StateID,
                       actions: seq<Action<int>>)
    requires Valid(cfg) && WellFormed(MachineOf(cfg)) && |cfg.states| == 1 && cfg.states[0].id == p
    requires j < |cfg.states[0].children| && cfg.states[0].children[j] == Region(r, from, to, actions)
    ensures IsRegion(MachineOf(cfg), p, r, from, to, actions)
  {
    var g := Region(r, from, to, actions);
    ChildOccurs(cfg.states, 0, j);
    GrandchildOccurs(cfg.states, 0, j, 0);
    GrandchildOccurs(cfg.states, 0, j, 1);
    CompiledAs(cfg, g, Some(p));
    CompiledAs(cfg, g.children[0], Some(r));
    CompiledAs(cfg, g.children[1], Some(r));
    RegionIds(r, from, to, actions);
  }

  ghost predicate IsPair(k: Machine<int>, p: StateID, a: StateID, a1: StateID, a2: StateID,
                         b: StateID, b1: StateID, b2: StateID)
  {
    && WellFormed(k) && Seven(p, a, a1, a2, b, b1, b2) && k.initial == p && k.context == 0
    && p in k.chart.nodes && k.chart.nodes[p] == Node(None, [a, b], "", true, false)
    && k.rules[p] == RulesOf(Group(p, true, [Region(a, a1, a2, [MARK]), Region(b, b1, b2, [])], []))
    && IsRegion(k, p, a, a1, a2, [MARK]) && IsRegion(k, p, b, b1, b2, [])
    && forall id :: id in k.chart.nodes ==> id in [p, a, a1, a2, b, b1, b2]
  }

  lemma PairCompiled(p: StateID, a: StateID, a1: StateID, a2: StateID, b: StateID, b1: StateID, b2: StateID)
    requires Seven(p, a, a1, a2, b, b1, b2)
    ensures Valid(Pair(p, a, a1, a2, b, b1, b2))
    ensures IsPair(MachineOf(Pair(p, a, a1, a2, b, b1, b2)), p, a, a1, a2, b, b1, b2)
  {
    var cfg := Pair(p, a, a1, a2, b, b1, b2);
    PairValid(p, a, a1, a2, b, b1, b2);
    CompiledWellFormed(cfg);
    RegionCompiled(cfg, p, 0, a, a1, a2, [MARK]);
    RegionCompiled(cfg, p, 1, b, b1, b2, []);
    TopOccurs(cfg.states, 0);
    CompiledAs(cfg, cfg.states[0], None);
    IdsOf2(Region(a, a1, a2, [MARK]), Region(b, b1, b2, []));
    NodesKeys(cfg.states, None);
  }

  // ---------------------------------------------------------------- steps without entry or exit actions

  /** No entry or exit actions and no final states. */
  ghost predicate Plain(k: Machine<int>) {
    && (forall id :: id in k.rules ==> k.rules[id].onEntry == [] && k.rules[id].onExit == [])
    && Finals(k.chart) == {}
  }

  ghost predicate PlainState(k: Machine<int>, id: StateID) {
    && id in k.rules && k.rules[id].onEntry == [] && k.rules[id].onExit == []
    && id in k.chart.nodes && !k.chart.nodes[id].final
  }

  lemma RegionPlain(k: Machine<int>, p: StateID, r: StateID, from: StateID, to: StateID, actions: seq<Action<int>>)
    requires WellFormed(k) && IsRegion(k, p, r, from, to, actions)
    ensures PlainState(k, r) && PlainState(k, from) && PlainState(k, to)
  {
  }

  lemma PairPlain(k: Machine<int>, p: StateID, a: StateID, a1: StateID, a2: StateID,
                  b: StateID, b1: StateID, b2: StateID)
    requires IsPair(k, p, a, a1, a2, b, b1, b2)
    ensures Plain(k)
  {
    RegionPlain(k, p, a, a1, a2, [MARK]);
    RegionPlain(k, p, b, b1, b2, []);
    AllPlain(k, [p, a, a1, a2, b, b1, b2]);
  }

  lemma AllPlain(k: Machine<int>, ids: seq<StateID>)
    requires k.rules.Keys == k.chart.nodes.Keys
    requires (forall id :: id in k.chart.nodes ==> id in ids) && forall id :: id in ids ==> PlainState(k, id)
    ensures Plain(k)
  {
    forall id | id in k.rules ensures PlainState(k, id) {
      assert id in k.chart.nodes;
    }
    forall id ensures id !in Finals(k.chart) {
      if id in k.chart.nodes { assert id in ids; }
    }
  }

  lemma {:induction false} PlainMoves(k: Machine<int>, ids: seq<StateID>, ctx: int, ev: Event)
    requires Plain(k)
    ensures RunEntries(k, ids, ctx, ev) == (ctx, []) && RunExits(k, ids, ctx, ev) == (ctx, [])
  {
    if ids != [] {
      PlainMoves(k, ids[..|ids| - 1], ctx, ev);
      assert EntryActions(k, ids[|ids| - 1]) == [] && ExitActions(k, ids[|ids| - 1]) == [];
      var none: seq<Event> := [];
      assert none + none == none;
    }
  }

  lemma {:induction false} PlainDone(k: Machine<int>, leaves: seq<StateID>, ids: seq<StateID>)
    requires k.chart.Linked() && Plain(k)
    ensures DoneOf(k.chart, leaves, ids) == []
  {
    if ids != [] {
      PlainDone(k, leaves, ids[..|ids| - 1]);
      PlainFirst(k, leaves, ids[|ids| - 1]);
      NotDone(k, leaves, ids[|ids| - 1]);
    }
  }

  lemma {:induction false} PlainFirst(k: Machine<int>, leaves: seq<StateID>, id: StateID)
    requires k.chart.Linked()
    ensures !FirstUnderFinal(k.chart, leaves, id, {})
  {
    if leaves != [] {
      PlainFirst(k, leaves[1..], id);
    }
  }

  lemma NotDone(k: Machine<int>, leaves: seq<StateID>, id: StateID)
    requires k.chart.Linked() && Plain(k) && !FirstUnderFinal(k.chart, leaves, id, {})
    ensures !IsDone(k.chart, leaves, id)
  {
    if k.chart.IsAnd(id) {
      var r := k.chart.nodes[id].children[0];
      assert r in k.chart.nodes[id].children;
      assert !RegionDone(k.chart, leaves, r, {});
    }
  }

  /** A microstep of such a machine: leaves and context, nothing raised. */
  lemma PlainMicro(k: Machine<int>, st: Conf<int>, mv: Move, pending: seq<Pending<int>>, ctx: int)
    requires WellFormed(k) && Plain(k) && LeafList(k.chart, st.leaves) && st.internal == [] && !mv.PopInternal?
    requires pending == MovePending(k, st, mv) && pending != []
    requires RunActions(AllActions(pending), st.ctx, MoveEvent(st, mv)) == (ctx, [])
    ensures var r := Next(k, st, mv);
      r.leaves == NewLeaves(k.chart, st.leaves, Hops(pending)) && r.ctx == ctx && r.internal == []
  {
    NextCases(k, st, mv);
    var hops := Hops(pending);
    var exits, entries := ExitOrder(k.chart, hops), EntryOrder(k.chart, hops);
    PlainMoves(k, exits, st.ctx, MoveEvent(st, mv));
    PlainMoves(k, entries, ctx, MoveEvent(st, mv));
    PlainDone(k, NewLeaves(k.chart, st.leaves, hops), Dedup(AncestorList(k.chart, entries)));
  }

  lemma PlainStart(k: Machine<int>)
    requires WellFormed(k) && Plain(k)
    ensures StartConf(k).ctx == k.context && StartConf(k).internal == []
    ensures LeafList(k.chart, StartConf(k).leaves)
  {
    StartGood(k);
    var entries := Dedup(EntryPaths(k.chart, ROOT, StartConf(k).leaves));
    PlainMoves(k, entries, k.context, INIT);
    PlainDone(k, StartConf(k).leaves, Dedup(AncestorList(k.chart, entries)));
  }

  // ---------------------------------------------------------------- the always transitions

  /** The always transition of a region's first leaf is enabled exactly while the context is 0. */
  lemma FirstLeafAlways(k: Machine<int>, p: StateID, r: StateID, from: StateID, to: StateID,
                        actions: seq<Action<int>>, kids: seq<StateDecl<int>>, ctx: int)
    requires WellFormed(k) && IsRegion(k, p, r, from, to, actions)
    requires p in k.chart.nodes && k.chart.nodes[p].parent == None && k.rules[p] == RulesOf(Group(p, true, kids, []))
    ensures ResolveNull(k, from, ctx) == if ctx == 0 then Some(Transition(to, Some(FRESH), actions)) else None
    ensures ResolveNull(k, to, ctx) == None
  {
    var region := Region(r, from, to, actions);
    ResolveHere(k, Group(p, true, kids, []), None, ctx, None);
    ResolveHere(k, region, Some(p), ctx, None);
    ResolveHere(k, region.children[0], Some(r), ctx, None);
    ResolveHere(k, region.children[1], Some(r), ctx, None);
    assert WhileFresh(to, actions)[1..] == [];
  }

  lemma NullTwo(k: Machine<int>, x: StateID, y: StateID, ctx: int)
    requires WellFormed(k) && x != y
    ensures EnabledNull(k, [x, y], ctx) == Taken(x, ResolveNull(k, x, ctx)) + Taken(y, ResolveNull(k, y, ctx))
  {
    assert [x, y][..1] == [x] && [x][..0] == [];
    assert EnabledNull(k, [x], ctx) == [] + Taken(x, ResolveNull(k, x, ctx));
  }

  lemma SevenApart(p: StateID, a: StateID, a1: StateID, a2: StateID, b: StateID, b1: StateID, b2: StateID)
    requires Seven(p, a, a1, a2, b, b1, b2)
    ensures a1 != b1 && a2 != b2 && a2 != b1 && b1 != b2 && a1 != a2
  {
    var ids := [p, a, a1, a2, b, b1, b2];
    assert ids[2] == a1 && ids[3] == a2 && ids[5] == b1 && ids[6] == b2;
  }

  lemma PairResolves(k: Machine<int>, p: StateID, a: StateID, a1: StateID, a2: StateID,
                     b: StateID, b1: StateID, b2: StateID)
    requires IsPair(k, p, a, a1, a2, b, b1, b2)
    ensures ResolveNull(k, a1, 0) == Some(Transition(a2, Some(FRESH), [MARK]))
    ensures ResolveNull(k, b1, 0) == Some(Transition(b2, Some(FRESH), []))
    ensures ResolveNull(k, a2, 1) == None && ResolveNull(k, b2, 1) == None && ResolveNull(k, b1, 1) == None
  {
    var kids := [Region(a, a1, a2, [MARK]), Region(b, b1, b2, [])];
    FirstLeafAlways(k, p, a, a1, a2, [MARK], kids, 0);
    FirstLeafAlways(k, p, a, a1, a2, [MARK], kids, 1);
    FirstLeafAlways(k, p, b, b1, b2, [], kids, 0);
    FirstLeafAlways(k, p, b, b1, b2, [], kids, 1);
  }

  /** What is enabled in the states that matter. */
  lemma PairNulls(k: Machine<int>, p: StateID, a: StateID, a1: StateID, a2: StateID,
                  b: StateID, b1: StateID, b2: StateID)
    requires IsPair(k, p, a, a1, a2, b, b1, b2)
    ensures EnabledNull(k, [a1, b1], 0) == [Pending(a1, a2, [MARK]), Pending(b1, b2, [])]
    ensures EnabledNull(k, [a2, b2], 1) == [] && EnabledNull(k, [a2, b1], 1) == []
  {
    SevenApart(p, a, a1, a2, b, b1, b2);
    PairResolves(k, p, a, a1, a2, b, b1, b2);
    NullPairs(k, a1, a2, b1, b2);
  }

  lemma NullPairs(k: Machine<int>, a1: StateID, a2: StateID, b1: StateID, b2: StateID)
    requires WellFormed(k) && a1 != b1 && a2 != b2 && a2 != b1
    requires ResolveNull(k, a1, 0) == Some(Transition(a2, Some(FRESH), [MARK]))
    requires ResolveNull(k, b1, 0) == Some(Transition(b2, Some(FRESH), []))
    requires ResolveNull(k, a2, 1) == None && ResolveNull(k, b2, 1) == None && ResolveNull(k, b1, 1) == None
    ensures EnabledNull(k, [a1, b1], 0) == [Pending(a1, a2, [MARK]), Pending(b1, b2, [])]
    ensures EnabledNull(k, [a2, b2], 1) == [] && EnabledNull(k, [a2, b1], 1) == []
  {
    NullTwo(k, a1, b1, 0);
    NullTwo(k, a2, b2, 1);
    NullTwo(k, a2, b1, 1);
  }

  lemma RegionDefault(k: Machine<int>, p: StateID, r: StateID, from: StateID, to: StateID, actions: seq<Action<int>>)
    requires WellFormed(k) && IsRegion(k, p, r, from, to, actions)
    ensures LeafTargets(k.chart, r) == [from] && LeafTargets(k.chart, from) == [from] && LeafTargets(k.chart, to) == [to]
  {
  }

  lemma RegionsDefault(c: Chart, p: StateID, a: StateID, b: StateID, x: StateID, y: StateID)
    requires c.Linked() && p in c.nodes && c.nodes[p].children == [a, b] && c.nodes[p].parallel
    requires LeafTargets(c, a) == [x] && LeafTargets(c, b) == [y]
    ensures LeafTargets(c, p) == [x, y]
  {
    assert RegionTargets(c, p, 0) == [];
    assert RegionTargets(c, p, 1) == [] + [x];
    assert RegionTargets(c, p, 2) == [x] + [y];
  }

  lemma PairTargets(k: Machine<int>, p: StateID, a: StateID, a1: StateID, a2: StateID,
                    b: StateID, b1: StateID, b2: StateID)
    requires IsPair(k, p, a, a1, a2, b, b1, b2)
    ensures StartConf(k).leaves == [a1, b1]
    ensures LeafTargets(k.chart, a2) == [a2] && LeafTargets(k.chart, b2) == [b2]
  {
    RegionDefault(k, p, a, a1, a2, [MARK]);
    RegionDefault(k, p, b, b1, b2, []);
    RegionsDefault(k.chart, p, a, b, a1, b1);
  }

  // ---------------------------------------------------------------- where the two settle

  lemma Actions(a1: StateID, a2: StateID, b1: StateID, b2: StateID)
    ensures var pending: seq<Pending<int>> := [Pending(a1, a2, [MARK]), Pending(b1, b2, [])];
      AllActions(pending) == [MARK] && Hops(pending) == [Hop(a1, a2), Hop(b1, b2)]
    ensures var pending: seq<Pending<int>> := [Pending(a1, a2, [MARK])];
      AllActions(pending) == [MARK] && Hops(pending) == [Hop(a1, a2)]
  {
    var one: seq<Pending<int>> := [Pending(a1, a2, [MARK])];
    var two: seq<Pending<int>> := [Pending(a1, a2, [MARK]), Pending(b1, b2, [])];
    var none: seq<Action<int>> := [];
    assert two[..1] == one && one[..0] == [];
    assert AllActions(one) == none + [MARK] == [MARK];
    assert AllActions(two) == [MARK] + none == [MARK];
    assert Hops(one) == [] + [Hop(a1, a2)];
  }

  lemma Marks(ev: Event)
    ensures RunActions([MARK], 0, ev) == (1, [])
  {
    assert [MARK][..0] == [];
    var none: seq<Event> := [];
    assert none + none == none;
  }

  /** The pair at its start: leaves, context and enabled always transitions. */
  ghost predicate AtStart(k: Machine<int>, st: Conf<int>, a1: StateID, a2: StateID, b1: StateID, b2: StateID) {
    && WellFormed(k) && Plain(k) && LeafList(k.chart, st.leaves) && a1 != b1
    && st.leaves == [a1, b1] && st.ctx == 0 && st.internal == []
    && EnabledNull(k, [a1, b1], 0) == [Pending(a1, a2, [MARK]), Pending(b1, b2, [])]
    && LeafTargets(k.chart, a2) == [a2] && LeafTargets(k.chart, b2) == [b2]
  }

  lemma ServiceStep(k: Machine<int>, st: Conf<int>, a1: StateID, a2: StateID, b1: StateID, b2: StateID)
    requires AtStart(k, st, a1, a2, b1, b2)
    ensures var r := Next(k, st, Null); r.leaves == [a2, b2] && r.ctx == 1 && r.internal == []
  {
    Actions(a1, a2, b1, b2);
    Marks(ALWAYS);
    HopFromTwo(a1, b1, a2, b2);
    NewLeavesTwo(k.chart, a1, b1, [Hop(a1, a2), Hop(b1, b2)]);
    PlainMicro(k, st, Null, [Pending(a1, a2, [MARK]), Pending(b1, b2, [])], 1);
  }

  lemma HarnessStep(k: Machine<int>, st: Conf<int>, a1: StateID, a2: StateID, b1: StateID, b2: StateID)
    requires AtStart(k, st, a1, a2, b1, b2)
    ensures var r := Next(k, st, FirstNull); r.leaves == [a2, b1] && r.ctx == 1 && r.internal == []
  {
    Actions(a1, a2, b1, b2);
    Marks(ALWAYS);
    HopFromTwo(a1, b1, a2, b2);
    NewLeavesTwo(k.chart, a1, b1, [Hop(a1, a2)]);
    PlainMicro(k, st, FirstNull, [Pending(a1, a2, [MARK])], 1);
  }

  /** A valid declaration on which harness and service disagree for good: right after the start
      the service's loop comes to rest with both regions moved, the harness with one. */
  lemma SettleApart(p: StateID, a: StateID, a1: StateID, a2: StateID, b: StateID, b1: StateID, b2: StateID)
    requires Seven(p, a, a1, a2, b, b1, b2)
    ensures Valid(Pair(p, a, a1, a2, b, b1, b2)) && WellFormed(MachineOf(Pair(p, a, a1, a2, b, b1, b2)))
    ensures var k := MachineOf(Pair(p, a, a1, a2, b, b1, b2));
      && LeafList(k.chart, StartConf(k).leaves)
      && HarnessRun(k, []).Some? && HarnessRun(k, []).value.leaves == [a2, b1]
      && var (outcome, r) := AlwaysRun(k, StartConf(k), MAX_ALWAYS_ITER);
         outcome == Quiet && Quiescent(k, r) && r.leaves == [a2, b2]
    ensures [a2, b1] != [a2, b2]
  {
    PairCompiled(p, a, a1, a2, b, b1, b2);
    var k := MachineOf(Pair(p, a, a1, a2, b, b1, b2));
    PairPlain(k, p, a, a1, a2, b, b1, b2);
    PlainStart(k);
    PairTargets(k, p, a, a1, a2, b, b1, b2);
    PairNulls(k, p, a, a1, a2, b, b1, b2);
    SevenApart(p, a, a1, a2, b, b1, b2);
    ServiceStep(k, StartConf(k), a1, a2, b1, b2);
    HarnessStep(k, StartConf(k), a1, a2, b1, b2);
    ServiceSettles(k, StartConf(k), MAX_ALWAYS_ITER);
    HarnessSettles(k, StartConf(k), MAX_FLUSH_ITER);
    assert [a2, b1][1] == b1 && [a2, b2][1] == b2;
  }

  lemma ServiceSettles(k: Machine<int>, st: Conf<int>, n: nat)
    requires WellFormed(k) && LeafList(k.chart, st.leaves) && n >= 2 && st.internal == []
    requires EnabledNull(k, st.leaves, st.ctx) != []
    requires var r := Next(k, st, Null); r.internal == [] && EnabledNull(k, r.leaves, r.ctx) == []
    ensures AlwaysRun(k, st, n) == (Quiet, Next(k, st, Null)) && Quiescent(k, Next(k, st, Null))
  {
    NextLeafList(k, st, Null);
    var r := Next(k, st, Null);
    assert AlwaysRun(k, r, n - 1) == (Quiet, r);
  }

  lemma HarnessSettles(k: Machine<int>, st: Conf<int>, n: nat)
    requires WellFormed(k) && LeafList(k.chart, st.leaves) && n >= 2 && st.internal == []
    requires EnabledNull(k, st.leaves, st.ctx) != []
    requires var r := Next(k, st, FirstNull); r.internal == [] && EnabledNull(k, r.leaves, r.ctx) == []
    ensures Flush(k, st, n) == Some(Next(k, st, FirstNull))
  {
    NextLeafList(k, st, FirstNull);
    var r := Next(k, st, FirstNull);
    assert Flush(k, r, n - 1) == Some(r);
  }
}
