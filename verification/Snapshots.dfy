/** What snapshots say about the interpreter's state, in every state that a run reaches, and what
    one move does to them. */
module Snapshots {
  import opened Charts
  import opened Navigation
  import opened Configurations
  import opened Machines
  import opened Interpreter
  import opened Runs

  /** The snapshot reports the leaves, all active states in definition order, the previous first
      leaf and the context; it is final when every active leaf is a final state. */
  ghost predicate Reports<C>(m: Machine<C>, st: Conf<C>, snap: Snapshot<C>)
    requires m.chart.Linked()
  {
    && st.leaves != [] && snap.state == st.leaves[0] && snap.leaves == st.leaves
    && snap.previousState == st.prev && snap.context == st.ctx
    && (forall i :: 0 <= i < |st.leaves| ==> st.leaves[i] in m.chart.nodes)
    && (snap.final <==> forall i :: 0 <= i < |st.leaves| ==> m.chart.nodes[st.leaves[i]].final)
    && (forall s :: s in snap.activeStates <==>
          s in m.chart.nodes && exists i :: 0 <= i < |st.leaves| && m.chart.Anc(s, st.leaves[i]))
    && forall i, j :: 0 <= i < j < |snap.activeStates| ==>
         m.chart.Rank(snap.activeStates[i]) < m.chart.Rank(snap.activeStates[j])
  }

  lemma CoherentReports<C>(m: Machine<C>, st: Conf<C>)
    requires WellFormed(m) && Coherent(m, st)
    ensures Reports(m, st, st.snap)
  {
    var c, leaves := m.chart, st.leaves;
    forall i | 0 <= i < |leaves| ensures leaves[i] in c.nodes {
      assert leaves[i] in leaves;
    }
    assert st.snap.final <==> forall i :: 0 <= i < |leaves| ==> c.nodes[leaves[i]].final by {
      if forall i :: 0 <= i < |leaves| ==> c.nodes[leaves[i]].final {
        forall l | l in leaves ensures c.IsFinal(l) {
          var i :| 0 <= i < |leaves| && leaves[i] == l;
        }
      }
      if st.snap.final {
        forall i | 0 <= i < |leaves| ensures c.nodes[leaves[i]].final {
          assert leaves[i] in leaves;
        }
      }
    }
    ActiveInOrderElements(c, leaves, |c.order|);
    forall s ensures s in st.snap.activeStates <==>
      s in c.nodes && exists i :: 0 <= i < |leaves| && c.Anc(s, leaves[i])
    {
      ActiveListed(c, leaves, s);
    }
  }

  lemma ActiveListed(c: Chart, leaves: seq<StateID>, s: StateID)
    requires c.Linked()
    ensures s in ActiveInOrder(c, leaves, |c.order|) <==>
      s in c.nodes && exists i :: 0 <= i < |leaves| && c.Anc(s, leaves[i])
  {
    ActiveInOrderElements(c, leaves, |c.order|);
    assert c.NodeOK(s) && c.NodeOK(ROOT);
    if l :| l in leaves && c.Anc(s, l) {
      var i :| 0 <= i < |leaves| && leaves[i] == l;
    }
    if i :| 0 <= i < |leaves| && c.Anc(s, leaves[i]) {
      assert leaves[i] in leaves;
    }
  }

  /** After any run from the start. */
  lemma ReachableReports<C>(m: Machine<C>, moves: seq<Move>)
    requires WellFormed(m)
    ensures Coherent(m, StartConf(m))
    ensures var st := Run(m, StartConf(m), moves); Reports(m, st, st.snap)
  {
    StartGood(m);
    CoherentReports(m, Run(m, StartConf(m), moves));
  }

  /** A started service has published nothing; its snapshot names the initial event and no change. */
  lemma StartSnapshot<C>(m: Machine<C>)
    requires WellFormed(m)
    ensures var st := StartConf(m);
      && st.prev == "" && st.notified == [] && st.leaves == LeafTargets(m.chart, m.initial)
      && st.snap.event == Event("statecraft.init", []) && !st.snap.changed
  {
  }

  /** A restored one has the given leaves and context and nothing queued. */
  lemma RestoreSnapshot<C>(m: Machine<C>, leaves: seq<StateID>, ctx: C)
    requires WellFormed(m) && LeafList(m.chart, leaves)
    ensures var st := RestoreConf(m, leaves, ctx);
      && st.leaves == leaves && st.ctx == ctx && st.internal == [] && st.prev == "" && st.notified == []
      && Reports(m, st, st.snap) && st.snap.event == Event("statecraft.init", []) && !st.snap.changed
  {
    CoherentReports(m, RestoreConf(m, leaves, ctx));
  }

  /** A move that takes a transition publishes one snapshot: of the event that it was for, changed,
      the first leaf from before as the previous state. One that takes none publishes nothing and
      changes nothing but the queue. */
  lemma MoveReports<C>(m: Machine<C>, st: Conf<C>, mv: Move)
    requires WellFormed(m) && Coherent(m, st)
    ensures var r := Next(m, st, mv);
      if MovePending(m, st, mv) == [] then
        && r.leaves == st.leaves && r.prev == st.prev && r.ctx == st.ctx && r.timers == st.timers
        && r.inv == st.inv && r.log == st.log && r.snap == st.snap && r.notified == st.notified
        && r.internal == if mv == PopInternal && st.internal != [] then st.internal[1..] else st.internal
      else
        && r.prev == st.leaves[0] && Reports(m, r, r.snap) && r.notified == st.notified + [r.snap]
        && r.snap.changed && r.snap.previousState == st.leaves[0]
        && r.snap.event == (if mv.Step? then mv.ev
             else if mv == PopInternal && st.internal != [] then st.internal[0] else Event("statecraft.always", []))
  {
    NextCases(m, st, mv);
    NextCoherent(m, st, mv);
    CoherentReports(m, Next(m, st, mv));
  }

  // ---------------------------------------------------------------- what subscribers see

  /** Each published snapshot's previous state is the state of the one before it. */
  ghost predicate Chained<C>(first: StateID, ns: seq<Snapshot<C>>) {
    && (ns != [] ==> ns[0].previousState == first)
    && (forall k :: 0 <= k < |ns| ==> ns[k].changed)
    && forall k :: 0 < k < |ns| ==> ns[k].previousState == ns[k - 1].state
  }

  ghost function LastState<C>(first: StateID, ns: seq<Snapshot<C>>): StateID {
    if ns == [] then first else ns[|ns| - 1].state
  }

  lemma ChainedNext<C>(m: Machine<C>, st: Conf<C>, mv: Move, first: StateID)
    requires WellFormed(m) && Coherent(m, st) && Chained(first, st.notified)
    requires st.leaves[0] == LastState(first, st.notified)
    ensures var r := Next(m, st, mv);
      r.leaves != [] && Chained(first, r.notified) && r.leaves[0] == LastState(first, r.notified)
  {
    NextSeen(m, st, mv);
    var r := Next(m, st, mv);
    if r.notified != st.notified {
      ChainedSnoc(first, st.notified, r.snap);
    }
  }

  lemma NextSeen<C>(m: Machine<C>, st: Conf<C>, mv: Move)
    requires WellFormed(m) && Coherent(m, st)
    ensures var r := Next(m, st, mv);
      && r.leaves != []
      && ((r.notified == st.notified && r.leaves == st.leaves)
          || (r.notified == st.notified + [r.snap] && r.snap.changed
              && r.snap.previousState == st.leaves[0] && r.snap.state == r.leaves[0]))
  {
    MoveReports(m, st, mv);
    NextCoherent(m, st, mv);
  }

  lemma ChainedSnoc<C>(first: StateID, ns: seq<Snapshot<C>>, s: Snapshot<C>)
    requires Chained(first, ns) && s.changed && s.previousState == LastState(first, ns)
    ensures Chained(first, ns + [s]) && LastState(first, ns + [s]) == s.state
  {
  }

  /** In every run what subscribers see is one unbroken chain from the state it starts in to the
      state it ends in. */
  lemma {:induction false} RunChained<C>(m: Machine<C>, st: Conf<C>, moves: seq<Move>, first: StateID)
    requires WellFormed(m) && Coherent(m, st) && Chained(first, st.notified)
    requires st.leaves[0] == LastState(first, st.notified)
    ensures var r := Run(m, st, moves);
      r.leaves != [] && Chained(first, r.notified) && r.leaves[0] == LastState(first, r.notified)
    decreases |moves|
  {
    if moves != [] {
      ChainedNext(m, st, moves[0], first);
      NextCoherent(m, st, moves[0]);
      RunChained(m, Next(m, st, moves[0]), moves[1..], first);
    }
  }

  lemma ReachableChained<C>(m: Machine<C>, moves: seq<Move>)
    requires WellFormed(m)
    ensures Coherent(m, StartConf(m))
    ensures var first, r := LeafTargets(m.chart, m.initial), Run(m, StartConf(m), moves);
      && first != [] && r.leaves != []
      && Chained(first[0], r.notified) && r.leaves[0] == LastState(first[0], r.notified)
  {
    StartGood(m);
    StartSnapshot(m);
    RunChained(m, StartConf(m), moves, StartConf(m).leaves[0]);
  }
}
