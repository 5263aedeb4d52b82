/** What the invariant of runs says of one declared state, in terms of its node, its rules, the log,
    the registered timers and the handles held. */
module Invariants {
  import opened Seqs
  import opened Charts
  import opened Configurations
  import opened Machines
  import opened Interpreter
  import opened Runs

  /** Some active leaf is the state or lies below it. */
  ghost predicate On<C>(m: Machine<C>, st: Conf<C>, s: StateID)
    requires m.chart.Linked()
  {
    s in m.chart.nodes && exists i :: 0 <= i < |st.leaves| && m.chart.Anc(s, st.leaves[i])
  }

  /** The `k`-th child of a state is its only active one. */
  ghost predicate OnlyChildOn<C>(m: Machine<C>, st: Conf<C>, s: StateID, k: nat)
    requires m.chart.Linked() && s in m.chart.nodes && k < |m.chart.nodes[s].children|
  {
    var kids := m.chart.nodes[s].children;
    forall j :: 0 <= j < |kids| ==> (On(m, st, kids[j]) <==> j == k)
  }

  lemma OnIsActive<C>(m: Machine<C>, st: Conf<C>, s: StateID)
    requires m.chart.Linked()
    ensures On(m, st, s) <==> s in Active(m.chart, st.leaves)
  {
    if s in Active(m.chart, st.leaves) {
      var l :| l in st.leaves && m.chart.Anc(s, l);
      var i :| 0 <= i < |st.leaves| && st.leaves[i] == l;
    }
    if On(m, st, s) {
      var i :| 0 <= i < |st.leaves| && m.chart.Anc(s, st.leaves[i]);
      assert st.leaves[i] in st.leaves;
    }
  }

  lemma ChildrenOn<C>(m: Machine<C>, st: Conf<C>, s: StateID)
    requires WellFormed(m) && s in m.chart.nodes
    ensures forall k :: 0 <= k < |m.chart.nodes[s].children| ==>
      var ch := m.chart.nodes[s].children[k];
      m.chart.IsChild(s, ch) && (On(m, st, ch) <==> ch in Active(m.chart, st.leaves))
  {
    forall k | 0 <= k < |m.chart.nodes[s].children|
      ensures var ch := m.chart.nodes[s].children[k];
        m.chart.IsChild(s, ch) && (On(m, st, ch) <==> ch in Active(m.chart, st.leaves))
    {
      ListedChild(m.chart, s, m.chart.nodes[s].children[k]);
      OnIsActive(m, st, m.chart.nodes[s].children[k]);
    }
  }

  lemma OneChildOn<C>(m: Machine<C>, st: Conf<C>, s: StateID)
    requires WellFormed(m) && s in m.chart.nodes && s != ROOT && OneChild(m.chart, Active(m.chart, st.leaves), s)
    ensures exists k :: 0 <= k < |m.chart.nodes[s].children| && OnlyChildOn(m, st, s, k)
  {
    var c, kids := m.chart, m.chart.nodes[s].children;
    var ch :| IsOnlyChild(c, Active(c, st.leaves), s, ch);
    ChildListed(c, s, ch);
    ChildrenOn(m, st, s);
    var k :| 0 <= k < |kids| && kids[k] == ch;
    OneIndex(c, s, k);
    assert OnlyChildOn(m, st, s, k);
  }

  /** The parent of an active state is active, of its children all if it is parallel and else one. */
  lemma ActiveNode<C>(m: Machine<C>, st: Conf<C>, s: StateID)
    requires WellFormed(m) && Good(m, st) && On(m, st, s)
    ensures var n := m.chart.nodes[s];
      && (n.parent.Some? ==> On(m, st, n.parent.value))
      && (n.parallel ==> forall k :: 0 <= k < |n.children| ==> On(m, st, n.children[k]))
      && (!n.parallel && n.children != [] ==> exists k :: 0 <= k < |n.children| && OnlyChildOn(m, st, s, k))
  {
    var c, conf := m.chart, Active(m.chart, st.leaves);
    assert c.NodeOK(s) && c.NodeOK(ROOT);
    OnIsActive(m, st, s);
    assert ParentIn(c, conf, s) && ChildrenOK(c, conf, s);
    if c.nodes[s].parent.Some? {
      OnIsActive(m, st, c.nodes[s].parent.value);
    }
    if c.nodes[s].parallel {
      ChildrenOn(m, st, s);
    } else if c.nodes[s].children != [] {
      OneChildOn(m, st, s);
    }
  }

  /** Exactly one state without a parent is active. */
  lemma ActiveTop<C>(m: Machine<C>, st: Conf<C>) returns (t: StateID)
    requires WellFormed(m) && Good(m, st)
    ensures forall s :: s in m.chart.nodes && m.chart.nodes[s].parent.None? ==> (On(m, st, s) <==> s == t)
    ensures On(m, st, t) && m.chart.nodes[t].parent.None?
  {
    var c, conf := m.chart, Active(m.chart, st.leaves);
    assert OneChild(c, conf, ROOT);
    t :| IsOnlyChild(c, conf, ROOT, t);
    OnIsActive(m, st, t);
    assert c.NodeOK(t) && c.NodeOK(ROOT);
    forall s | s in c.nodes && c.nodes[s].parent.None? ensures On(m, st, s) <==> s == t {
      OnIsActive(m, st, s);
      assert c.IsChild(ROOT, s);
    }
  }

  lemma OneIndex(c: Chart, s: StateID, k: nat)
    requires c.Linked() && s in c.nodes && k < |c.nodes[s].children|
    ensures forall j :: 0 <= j < |c.nodes[s].children| && c.nodes[s].children[j] == c.nodes[s].children[k] ==> j == k
  {
    assert c.NodeOK(s);
  }

  lemma {:induction false} CountsIn<T>(l: seq<T>, x: T)
    ensures Count(l, x) == multiset(l)[x]
  {
    if l != [] {
      CountsIn(l[..|l| - 1], x);
      assert l == l[..|l| - 1] + [l[|l| - 1]];
    }
  }

  /** An active state has been entered once more than exited; its timers are registered and it holds
      a handle for each of its invoke functions. Another has been exited as often as entered and has
      neither. */
  lemma StateEffects<C>(m: Machine<C>, st: Conf<C>, s: StateID)
    requires WellFormed(m) && Good(m, st) && OwnTimers(m) && s in m.rules
    ensures On(m, st, s) ==>
      && multiset(st.log)[Entry(s)] == multiset(st.log)[Exit(s)] + 1
      && (forall i :: 0 <= i < |m.rules[s].afters| ==> m.rules[s].afters[i].timerID in st.timers)
      && (m.rules[s].invokes > 0 ==> s in st.inv.held && |st.inv.held[s]| == m.rules[s].invokes)
    ensures !On(m, st, s) ==>
      && multiset(st.log)[Entry(s)] == multiset(st.log)[Exit(s)]
      && (forall i :: 0 <= i < |m.rules[s].afters| ==> m.rules[s].afters[i].timerID !in st.timers)
      && s !in st.inv.held
  {
    OnIsActive(m, st, s);
    CountsIn(st.log, Entry(s));
    CountsIn(st.log, Exit(s));
    assert Net(st.log, s) == if On(m, st, s) then 1 else 0;
    OwnTimersApart(m);
    forall i | 0 <= i < |m.rules[s].afters|
      ensures m.rules[s].afters[i].timerID in st.timers <==> On(m, st, s)
    {
      assert m.rules[s].afters[i].timerID in TimersOf(m, s);
    }
  }

  /** Starting `n` invocations hands out the next `n` handles, to that state alone. */
  lemma {:induction false} HandlesStarted(inv: Invocations, id: StateID, n: nat)
    ensures var r := StartInvokes(inv, id, n);
      && r.next == inv.next + n && r.cancelled == inv.cancelled
      && (forall s :: s != id ==> (s in r.held <==> s in inv.held) && (s in r.held ==> r.held[s] == inv.held[s]))
      && (n > 0 ==> id in r.held && |r.held[id]| == (if id in inv.held then |inv.held[id]| else 0) + n)
      && (n > 0 ==> forall k :: 0 <= k < |r.held[id]| ==>
            r.held[id][k] == if k < |r.held[id]| - n then inv.held[id][k] else inv.next + k - (|r.held[id]| - n))
  {
    if n > 0 {
      HandlesStarted(inv, id, n - 1);
    }
  }

  /** State `s` holds handle `h` as its `i`-th. */
  ghost predicate HeldAt(inv: Invocations, s: StateID, i: int, h: nat) {
    s in inv.held && 0 <= i < |inv.held[s]| && inv.held[s][i] == h
  }

  /** No handle is held twice, none that is held is cancelled, and all others given out are. */
  lemma HandlesApart<C>(m: Machine<C>, st: Conf<C>, h: nat)
    requires WellFormed(m) && Good(m, st)
    ensures h in st.inv.cancelled <==>
      h < st.inv.next && forall s :: s in st.inv.held ==> h !in st.inv.held[s]
    ensures forall s, t, i, j :: HeldAt(st.inv, s, i, h) && HeldAt(st.inv, t, j, h) ==> s == t && i == j
  {
    var inv := st.inv;
    assert Open(0);
    forall s ensures Holds(inv, s, h) <==> s in inv.held && h in inv.held[s] {
    }
    forall s, t, i, j | HeldAt(inv, s, i, h) && HeldAt(inv, t, j, h) ensures s == t && i == j {
      assert Holds(inv, s, h) && Holds(inv, t, h);
      assert Distinct(HeldBy(inv, s));
    }
  }
}
