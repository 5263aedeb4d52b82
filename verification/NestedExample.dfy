/** A parallel state inside an OR state: the outer state counts as done while one of its active
    leaves is not final. */
module NestedExample {
  import opened Seqs
  import opened Charts
  import opened Navigation
  import opened Configurations
  import opened Hypotheses
  import opened Machines
  import opened Declarations
  import opened Forests
  import opened Placement
  import opened Interpreter
  import opened Orders
  import opened Runs
  import opened Completion
  import opened Examples

  /** `o` contains the parallel `q`, whose regions are the final `x` and the other `y`. */
  function Box(o: StateID, q: StateID, x: StateID, y: StateID): MachineDecl<int> {
    MachineDecl("boxes", o, 0,
                [Group(o, false, [Group(q, true, [Leaf(x, true, [], []), Leaf(y, false, [], [])], [])], [])])
  }

  ghost predicate IsBox(c: Chart, o: StateID, q: StateID, x: StateID, y: StateID) {
    && c.WF() && Named(o, q, x, y)
    && o in c.nodes && c.nodes[o] == Node(None, [q], q, false, false)
    && q in c.nodes && c.nodes[q] == Node(Some(o), [x, y], "", true, false)
    && x in c.nodes && c.nodes[x] == Node(Some(q), [], "", false, true)
    && y in c.nodes && c.nodes[y] == Node(Some(q), [], "", false, false)
  }

  lemma BoxValid(o: StateID, q: StateID, x: StateID, y: StateID)
    requires Named(o, q, x, y)
    ensures Valid(Box(o, q, x, y))
  {
    var cfg := Box(o, q, x, y);
    var outer := cfg.states[0];
    var inner := outer.children[0];
    var a, b := inner.children[0], inner.children[1];
    BoxIds(o, q, x, y);
    assert o in Ids(cfg.states);
    ValidOf2(a, b, Declared(cfg));
    ValidOf1(inner, Declared(cfg));
    ValidOf1(outer, Declared(cfg));
  }

  lemma BoxIds(o: StateID, q: StateID, x: StateID, y: StateID)
    ensures Ids(Box(o, q, x, y).states) == [o, q, x, y]
    ensures RootIds(Box(o, q, x, y).states[0].children) == [q]
  {
    var outer := Box(o, q, x, y).states[0];
    var inner := outer.children[0];
    IdsOf2(inner.children[0], inner.children[1]);
    IdsOf1(inner);
    IdsOf1(outer);
    assert [o] + ([q] + [x, y]) == [o, q, x, y];
  }

  lemma GrandchildOccurs(states: seq<StateDecl<int>>, i: nat, j: nat, k: nat)
    requires i < |states| && j < |states[i].children| && k < |states[i].children[j].children|
    ensures Occurs(states, None, states[i].children[j].children[k], Some(states[i].children[j].id))
  {
    var t, u := states[i], states[i].children[j];
    var v := u.children[k];
    assert OccursIn(v, Some(u.id), v, Some(u.id));
    assert Occurs(u.children, Some(u.id), v, Some(u.id));
    assert OccursIn(u, Some(t.id), v, Some(u.id));
    assert Occurs(t.children, Some(t.id), v, Some(u.id));
    assert OccursIn(t, None, v, Some(u.id));
  }

  lemma BoxCompiled(o: StateID, q: StateID, x: StateID, y: StateID)
    requires Named(o, q, x, y)
    ensures Valid(Box(o, q, x, y)) && WellFormed(MachineOf(Box(o, q, x, y)))
    ensures IsBox(MachineOf(Box(o, q, x, y)).chart, o, q, x, y)
  {
    var cfg := Box(o, q, x, y);
    BoxValid(o, q, x, y);
    CompiledWellFormed(cfg);
    var outer := cfg.states[0];
    var inner := outer.children[0];
    TopOccurs(cfg.states, 0);
    ChildOccurs(cfg.states, 0, 0);
    GrandchildOccurs(cfg.states, 0, 0, 0);
    GrandchildOccurs(cfg.states, 0, 0, 1);
    CompiledAs(cfg, outer, None);
    CompiledAs(cfg, inner, Some(o));
    CompiledAs(cfg, inner.children[0], Some(q));
    CompiledAs(cfg, inner.children[1], Some(q));
    IdsOf1(inner);
    IdsOf2(inner.children[0], inner.children[1]);
  }

  lemma BoxChart(c: Chart, o: StateID, q: StateID, x: StateID, y: StateID)
    requires IsBox(c, o, q, x, y)
    ensures LeafTargets(c, o) == [x, y] && Legal(c, Active(c, [x, y])) && LeafList(c, [x, y])
    ensures c.Below(o, x) && c.Below(o, y) && c.IsCompound(o)
  {
    assert RegionTargets(c, q, 0) == [];
    assert RegionTargets(c, q, 1) == [] + [x];
    assert RegionTargets(c, q, 2) == [x] + [y];
    assert LeafTargets(c, o) == LeafTargets(c, q);
    assert c.NodeOK(ROOT) && c.NodeOK(o) && c.NodeOK(q) && c.NodeOK(x) && c.NodeOK(y);
    assert forall a :: c.Below(a, o) ==> a == ROOT;
    InitialLegal(c, o);
  }

  lemma {:induction false} CountedIn<T>(s: seq<T>, e: T)
    requires Count(s, e) > 0
    ensures e in s
  {
    if s[|s| - 1] != e {
      CountedIn(s[..|s| - 1], e);
    }
  }

  /** At the very start of this machine the outer state is done, and its done event is raised,
      though `y`, active inside it, is not final. */
  lemma DoneThoughIncomplete(o: StateID, q: StateID, x: StateID, y: StateID)
    requires Named(o, q, x, y)
    ensures Valid(Box(o, q, x, y)) && WellFormed(MachineOf(Box(o, q, x, y)))
    ensures var k := MachineOf(Box(o, q, x, y));
      var c, leaves := k.chart, StartConf(k).leaves;
      && Legal(c, Active(c, leaves)) && leaves == [x, y] && IsDone(c, leaves, o) && !Complete(c, leaves, o, Finals(c))
      && c.Below(o, y) && !c.IsFinal(y) && DoneEvent(o) in StartConf(k).internal
  {
    BoxCompiled(o, q, x, y);
    var k := MachineOf(Box(o, q, x, y));
    var c, leaves := k.chart, StartConf(k).leaves;
    BoxChart(c, o, q, x, y);
    assert y in leaves && x in leaves;
    BoxEvent(k, o, x);
  }

  lemma BoxEvent(k: Machine<int>, o: StateID, x: StateID)
    requires WellFormed(k) && LeafList(k.chart, StartConf(k).leaves) && x in StartConf(k).leaves
    requires k.chart.Below(o, x) && IsDone(k.chart, StartConf(k).leaves, o)
    ensures DoneEvent(o) in StartConf(k).internal
  {
    var c, leaves := k.chart, StartConf(k).leaves;
    var entries := Dedup(EntryPaths(c, ROOT, leaves));
    InitialEntryOrder(c, leaves);
    assert c.NodeOK(ROOT);
    assert x in entries by { assert c.Anc(x, x); }
    ActiveIsDeclared(c, leaves);
    DoneEventsExact(c, leaves, entries, o);
    CountedIn(DoneEvents(c, leaves, entries), DoneEvent(o));
  }
}
