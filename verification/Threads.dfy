/** What running actions computes: each gets the context that the one before it left, and what
    they raise is queued in order. From one action list up to a whole microstep and the start. */
module Threads {
  import opened Seqs
  import opened Charts
  import opened Navigation
  import opened Configurations
  import opened Hypotheses
  import opened Machines
  import opened Interpreter
  import opened Orders
  import opened Paths

  /** The actions pass the contexts `cs` along, from before the first to after the last; `rs` is
      what each of them raises. */
  ghost predicate Thread<C>(acts: seq<Action<C>>, ev: Event, cs: seq<C>, rs: seq<seq<Event>>) {
    && |cs| == |acts| + 1 && |rs| == |acts|
    && forall i :: 0 <= i < |acts| ==> acts[i](cs[i], ev) == (cs[i + 1], rs[i])
  }

  lemma ThreadSnoc<C>(acts: seq<Action<C>>, ev: Event, cs: seq<C>, rs: seq<seq<Event>>,
                      act: Action<C>, c: C, raised: seq<Event>)
    requires Thread(acts, ev, cs, rs) && act(cs[|acts|], ev) == (c, raised)
    ensures Thread(acts + [act], ev, cs + [c], rs + [raised]) && Concat(rs + [raised]) == Concat(rs) + raised
  {
    assert (rs + [raised])[..|rs|] == rs;
  }

  /** A list of actions. */
  lemma {:induction false} ActionsThread<C>(acts: seq<Action<C>>, ctx: C, ev: Event)
    returns (cs: seq<C>, rs: seq<seq<Event>>)
    ensures Thread(acts, ev, cs, rs) && cs[0] == ctx
    ensures RunActions(acts, ctx, ev) == (cs[|acts|], Concat(rs))
  {
    if acts == [] {
      cs, rs := [ctx], [];
    } else {
      var front, act := acts[..|acts| - 1], acts[|acts| - 1];
      assert acts == front + [act];
      cs, rs := ActionsThread(front, ctx, ev);
      var (c, raised) := act(cs[|front|], ev);
      ThreadSnoc(front, ev, cs, rs, act, c, raised);
      cs, rs := cs + [c], rs + [raised];
    }
  }

  /** One thread after another. */
  lemma ThreadAppend<C>(a: seq<Action<C>>, b: seq<Action<C>>, ev: Event, cs: seq<C>, rs: seq<seq<Event>>,
                        ds: seq<C>, qs: seq<seq<Event>>)
    requires Thread(a, ev, cs, rs) && Thread(b, ev, ds, qs) && ds[0] == cs[|a|]
    ensures Thread(a + b, ev, cs + ds[1..], rs + qs)
    ensures (cs + ds[1..])[0] == cs[0] && (cs + ds[1..])[|a + b|] == ds[|b|]
  {
    var all := cs + ds[1..];
    forall i | 0 <= i <= |b| ensures all[|a| + i] == ds[i] {
    }
    forall i | 0 <= i < |a + b| ensures (a + b)[i](all[i], ev) == (all[i + 1], (rs + qs)[i]) {
      if i >= |a| {
        assert all[|a| + (i - |a|)] == ds[i - |a|] && all[|a| + (i - |a| + 1)] == ds[i - |a| + 1];
      }
    }
  }

  lemma {:induction false} RunActionsAppend<C>(a: seq<Action<C>>, b: seq<Action<C>>, ctx: C, ev: Event)
    ensures var (c1, r1) := RunActions(a, ctx, ev);
      var (c2, r2) := RunActions(b, c1, ev);
      RunActions(a + b, ctx, ev) == (c2, r1 + r2)
  {
    if b == [] {
      var r1 := RunActions(a, ctx, ev).1;
      assert a + b == a && r1 + [] == r1;
    } else {
      RunActionsAppend(a, b[..|b| - 1], ctx, ev);
      assert (a + b)[..|a + b| - 1] == a + b[..|b| - 1];
      var (c1, r1) := RunActions(a, ctx, ev);
      var (c2, r2) := RunActions(b[..|b| - 1], c1, ev);
      var more := b[|b| - 1](c2, ev).1;
      assert (r1 + r2) + more == r1 + (r2 + more);
    }
  }

  // ---------------------------------------------------------------- lists of states

  /** The entry actions of the states, state by state. */
  ghost predicate OnEntries<C>(m: Machine<C>, ids: seq<StateID>, lists: seq<seq<Action<C>>>) {
    |lists| == |ids| && forall i :: 0 <= i < |ids| ==> ids[i] in m.rules && lists[i] == m.rules[ids[i]].onEntry
  }

  ghost predicate OnExits<C>(m: Machine<C>, ids: seq<StateID>, lists: seq<seq<Action<C>>>) {
    |lists| == |ids| && forall i :: 0 <= i < |ids| ==> ids[i] in m.rules && lists[i] == m.rules[ids[i]].onExit
  }

  lemma {:induction false} EntriesRun<C>(m: Machine<C>, ids: seq<StateID>, ctx: C, ev: Event)
    returns (lists: seq<seq<Action<C>>>)
    requires forall s :: s in ids ==> s in m.rules
    ensures OnEntries(m, ids, lists) && RunEntries(m, ids, ctx, ev) == RunActions(Concat(lists), ctx, ev)
  {
    if ids == [] {
      lists := [];
    } else {
      var front, x := ids[..|ids| - 1], ids[|ids| - 1];
      assert ids == front + [x];
      lists := EntriesRun(m, front, ctx, ev);
      RunActionsAppend(Concat(lists), m.rules[x].onEntry, ctx, ev);
      assert (lists + [m.rules[x].onEntry])[..|lists|] == lists;
      lists := lists + [m.rules[x].onEntry];
    }
  }

  lemma {:induction false} ExitsRun<C>(m: Machine<C>, ids: seq<StateID>, ctx: C, ev: Event)
    returns (lists: seq<seq<Action<C>>>)
    requires forall s :: s in ids ==> s in m.rules
    ensures OnExits(m, ids, lists) && RunExits(m, ids, ctx, ev) == RunActions(Concat(lists), ctx, ev)
  {
    if ids == [] {
      lists := [];
    } else {
      var front, x := ids[..|ids| - 1], ids[|ids| - 1];
      assert ids == front + [x];
      lists := ExitsRun(m, front, ctx, ev);
      RunActionsAppend(Concat(lists), m.rules[x].onExit, ctx, ev);
      assert (lists + [m.rules[x].onExit])[..|lists|] == lists;
      lists := lists + [m.rules[x].onExit];
    }
  }

  ghost predicate OnTransitions<C>(pending: seq<Pending<C>>, lists: seq<seq<Action<C>>>) {
    |lists| == |pending| && forall k :: 0 <= k < |pending| ==> lists[k] == pending[k].actions
  }

  lemma {:induction false} TransitionsRun<C>(pending: seq<Pending<C>>) returns (lists: seq<seq<Action<C>>>)
    ensures OnTransitions(pending, lists) && AllActions(pending) == Concat(lists)
  {
    if pending == [] {
      lists := [];
    } else {
      lists := TransitionsRun(pending[..|pending| - 1]);
      var last := pending[|pending| - 1].actions;
      assert (lists + [last])[..|lists|] == lists;
      lists := lists + [last];
    }
  }

  // ---------------------------------------------------------------- a whole microstep

  /** The actions of a microstep: those of the exits, of the transitions and of the entries. */
  datatype Acts<!C> = Acts(exits: seq<Action<C>>, transitions: seq<Action<C>>, entries: seq<Action<C>>)

  /** What each of them raises. */
  datatype Queued = Queued(exits: seq<seq<Event>>, transitions: seq<seq<Event>>, entries: seq<seq<Event>>)

  lemma ExitsInRules<C>(m: Machine<C>, hops: seq<Hop>)
    requires WellFormed(m)
    ensures forall s :: s in ExitOrder(m.chart, hops) || s in EntryOrder(m.chart, hops) ==> s in m.rules
  {
    ExitOrderSound(m.chart, hops);
    EntryOrderSound(m.chart, [], hops);
    forall s | s in ExitOrder(m.chart, hops) ensures s in m.rules {
      ExitListDeclaredIn(m.chart, hops, s);
    }
    forall s | s in EntryOrder(m.chart, hops) ensures s in m.rules {
      var h :| h in hops && Enters(m.chart, h, s);
      var t :| t in LeafTargets(m.chart, h.target) && s in PathUp(m.chart, t, LccaOfHop(m.chart, h));
      PathUpDistinct(m.chart, t, LccaOfHop(m.chart, h));
    }
  }

  lemma ExitListDeclaredIn(c: Chart, hops: seq<Hop>, s: StateID)
    requires c.Linked() && s in ExitOrder(c, hops)
    ensures s in c.nodes
  {
    ExitOrderSound(c, hops);
    var h :| h in hops && Exits(c, h, s);
    PathUpDistinct(c, h.source, LccaOfHop(c, h));
  }

  /** Three lists of actions, run one after the other. */
  lemma ThreeThreads<C>(a: Acts<C>, ctx: C, ev: Event) returns (cs: seq<C>, r: Queued)
    ensures Thread(a.exits + a.transitions + a.entries, ev, cs, r.exits + r.transitions + r.entries) && cs[0] == ctx
    ensures |r.exits| == |a.exits| && |r.transitions| == |a.transitions| && |r.entries| == |a.entries|
    ensures var (c1, r1) := RunActions(a.exits, ctx, ev);
      var (c2, r2) := RunActions(a.transitions, c1, ev);
      var (c3, r3) := RunActions(a.entries, c2, ev);
      && c3 == cs[|a.exits + a.transitions + a.entries|]
      && r1 == Concat(r.exits) && r2 == Concat(r.transitions) && r3 == Concat(r.entries)
  {
    var cs1, rs1 := ActionsThread(a.exits, ctx, ev);
    var cs2, rs2 := ActionsThread(a.transitions, cs1[|a.exits|], ev);
    var cs3, rs3 := ActionsThread(a.entries, cs2[|a.transitions|], ev);
    ThreadAppend(a.exits, a.transitions, ev, cs1, rs1, cs2, rs2);
    ThreadAppend(a.exits + a.transitions, a.entries, ev, cs1 + cs2[1..], rs1 + rs2, cs3, rs3);
    cs, r := cs1 + cs2[1..] + cs3[1..], Queued(rs1, rs2, rs3);
  }

  /** A microstep runs, in one thread of contexts from the one before it to the one after it, the
      exit actions of the states in exit order, the actions of the transitions in their order and
      the entry actions of the states in entry order. Behind what was queued it queues what the
      exits raised, then the entries, then the transitions, then the done events. */
  lemma MicroThreads<C>(m: Machine<C>, st: Conf<C>, ev: Event, pending: seq<Pending<C>>)
    returns (onExit: seq<seq<Action<C>>>, onTransition: seq<seq<Action<C>>>, onEntry: seq<seq<Action<C>>>,
             cs: seq<C>, r: Queued)
    requires WellFormed(m) && st.leaves != [] && NewLeaves(m.chart, st.leaves, Hops(pending)) != []
    ensures OnExits(m, ExitOrder(m.chart, Hops(pending)), onExit) && OnTransitions(pending, onTransition)
    ensures OnEntries(m, EntryOrder(m.chart, Hops(pending)), onEntry)
    ensures |r.exits| == |Concat(onExit)| && |r.transitions| == |Concat(onTransition)|
    ensures Thread(Concat(onExit) + Concat(onTransition) + Concat(onEntry), ev, cs, r.exits + r.transitions + r.entries)
    ensures var after := Micro(m, st, ev, pending);
      && cs[0] == st.ctx && after.ctx == cs[|cs| - 1]
      && after.internal == st.internal + Concat(r.exits) + Concat(r.entries) + Concat(r.transitions)
           + DoneEvents(m.chart, after.leaves, EntryOrder(m.chart, Hops(pending)))
  {
    var exits, entries := ExitOrder(m.chart, Hops(pending)), EntryOrder(m.chart, Hops(pending));
    ExitsInRules(m, Hops(pending));
    onExit := ExitsRun(m, exits, st.ctx, ev);
    onTransition := TransitionsRun(pending);
    var c1 := RunExits(m, exits, st.ctx, ev).0;
    var c2 := RunActions(AllActions(pending), c1, ev).0;
    onEntry := EntriesRun(m, entries, c2, ev);
    cs, r := ThreeThreads(Acts(Concat(onExit), Concat(onTransition), Concat(onEntry)), st.ctx, ev);
  }

  // ---------------------------------------------------------------- the start

  /** A start runs the entry actions of the initial configuration, in definition order, from the
      machine's own context and with the initial event; it queues what they raise, then the done
      events. */
  lemma StartThreads<C>(m: Machine<C>) returns (onEntry: seq<seq<Action<C>>>, cs: seq<C>, rs: seq<seq<Event>>)
    requires WellFormed(m)
    ensures OnEntries(m, StartConf(m).snap.activeStates, onEntry)
    ensures Thread(Concat(onEntry), Event("statecraft.init", []), cs, rs)
    ensures var st := StartConf(m);
      && cs[0] == m.context && st.ctx == cs[|cs| - 1]
      && st.internal == Concat(rs) + DoneEvents(m.chart, st.leaves, st.snap.activeStates)
  {
    var leaves := LeafTargets(m.chart, m.initial);
    InitialLegal(m.chart, m.initial);
    LeafTargetsIncreasing(m.chart, m.initial);
    InitialEntryIsConfiguration(m.chart, leaves);
    var ids := ActiveInOrder(m.chart, leaves, |m.chart.order|);
    ActiveInOrderElements(m.chart, leaves, |m.chart.order|);
    assert StartConf(m).snap.activeStates == ids;
    onEntry := EntriesRun(m, ids, m.context, INIT);
    cs, rs := ActionsThread(Concat(onEntry), m.context, INIT);
  }
}
