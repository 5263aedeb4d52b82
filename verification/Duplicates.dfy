/** A joint exit leaves repeats in the leaf list. They are harmless, for every machine: states
    whose leaf lists agree once repeats are dropped behave alike for ever. */
module Duplicates {
  import opened Seqs
  import opened Charts
  import opened Navigation
  import opened Configurations
  import opened Steps
  import opened Machines
  import opened Interpreter
  import opened Runs

  ghost predicate SnapshotsAlike<C>(a: Snapshot<C>, b: Snapshot<C>) {
    Dedup(a.leaves) == Dedup(b.leaves) && a.(leaves := []) == b.(leaves := [])
  }

  /** The same but for repeated leaves. */
  ghost predicate Alike<C>(a: Conf<C>, b: Conf<C>) {
    && Dedup(a.leaves) == Dedup(b.leaves)
    && a.prev == b.prev && a.ctx == b.ctx && a.internal == b.internal
    && a.timers == b.timers && a.inv == b.inv && a.log == b.log
    && SnapshotsAlike(a.snap, b.snap)
    && |a.notified| == |b.notified|
    && forall i :: 0 <= i < |a.notified| ==> SnapshotsAlike(a.notified[i], b.notified[i])
  }

  // ---------------------------------------------------------------- what a step reads

  lemma {:induction false} EnabledDedup<C>(m: Machine<C>, leaves: seq<StateID>, ctx: C, ev: Event)
    requires WellFormed(m)
    ensures Enabled(m, leaves, ctx, ev) == Enabled(m, Dedup(leaves), ctx, ev)
  {
    if leaves != [] {
      var front := leaves[..|leaves| - 1];
      EnabledDedup(m, front, ctx, ev);
      DedupElements(front);
      assert leaves[|leaves| - 1] !in Dedup(front) ==>
        Dedup(leaves)[..|Dedup(leaves)| - 1] == Dedup(front);
    }
  }

  lemma {:induction false} EnabledNullDedup<C>(m: Machine<C>, leaves: seq<StateID>, ctx: C)
    requires WellFormed(m)
    ensures EnabledNull(m, leaves, ctx) == EnabledNull(m, Dedup(leaves), ctx)
  {
    if leaves != [] {
      var front := leaves[..|leaves| - 1];
      EnabledNullDedup(m, front, ctx);
      DedupElements(front);
      assert leaves[|leaves| - 1] !in Dedup(front) ==>
        Dedup(leaves)[..|Dedup(leaves)| - 1] == Dedup(front);
    }
  }

  lemma {:induction false} NewLeavesSnoc(c: Chart, leaves: seq<StateID>, x: StateID, hops: seq<Hop>)
    requires c.Linked()
    ensures NewLeaves(c, leaves + [x], hops) == NewLeaves(c, leaves, hops) + Image(c, x, hops)
  {
    assert (leaves + [x])[..|leaves|] == leaves;
  }

  lemma ImagePresent(c: Chart, leaves: seq<StateID>, x: StateID, hops: seq<Hop>)
    requires c.Linked() && x in leaves
    ensures forall t :: t in Image(c, x, hops) ==> t in NewLeaves(c, leaves, hops)
  {
    forall t | t in Image(c, x, hops) ensures t in NewLeaves(c, leaves, hops) {
      NewLeavesElements(c, leaves, hops, t);
    }
  }

  lemma {:induction false} NewLeavesDedup(c: Chart, leaves: seq<StateID>, hops: seq<Hop>)
    requires c.Linked()
    ensures Dedup(NewLeaves(c, leaves, hops)) == Dedup(NewLeaves(c, Dedup(leaves), hops))
  {
    if leaves != [] {
      var front, x := leaves[..|leaves| - 1], leaves[|leaves| - 1];
      NewLeavesDedup(c, front, hops);
      assert leaves == front + [x];
      DedupSnoc(front, x);
      NewLeavesSnoc(c, front, x, hops);
      NewLeavesSnoc(c, Dedup(front), x, hops);
      if x in front {
        ImagePresent(c, front, x, hops);
        DedupKnown(NewLeaves(c, front, hops), Image(c, x, hops));
      } else {
        DedupAppend(NewLeaves(c, front, hops), Image(c, x, hops));
        DedupAppend(NewLeaves(c, Dedup(front), hops), Image(c, x, hops));
      }
    }
  }

  ghost predicate SomeUnder(c: Chart, leaves: seq<StateID>, id: StateID)
    requires c.Linked()
  {
    exists l :: l in leaves && c.Below(id, l)
  }

  lemma {:induction false} FirstUnderSnoc(c: Chart, leaves: seq<StateID>, x: StateID, id: StateID, finals: set<StateID>)
    requires c.Linked()
    ensures FirstUnderFinal(c, leaves + [x], id, finals) <==>
      if SomeUnder(c, leaves, id) then FirstUnderFinal(c, leaves, id, finals)
      else c.Below(id, x) && x in finals
    ensures FirstUnderFinal(c, leaves, id, finals) ==> SomeUnder(c, leaves, id)
  {
    if leaves == [] {
      assert leaves + [x] == [x] && [x][1..] == [];
      assert !FirstUnderFinal(c, [], id, finals);
    } else {
      assert (leaves + [x])[1..] == leaves[1..] + [x];
      FirstUnderSnoc(c, leaves[1..], x, id, finals);
      assert leaves == [leaves[0]] + leaves[1..];
      assert SomeUnder(c, leaves, id) <==> c.Below(id, leaves[0]) || SomeUnder(c, leaves[1..], id);
    }
  }

  lemma {:induction false} FirstUnderDedup(c: Chart, leaves: seq<StateID>, id: StateID, finals: set<StateID>)
    requires c.Linked()
    ensures FirstUnderFinal(c, leaves, id, finals) <==> FirstUnderFinal(c, Dedup(leaves), id, finals)
  {
    if leaves != [] {
      var front, x := leaves[..|leaves| - 1], leaves[|leaves| - 1];
      FirstUnderDedup(c, front, id, finals);
      assert leaves == front + [x];
      DedupSnoc(front, x);
      DedupElements(front);
      FirstUnderSnoc(c, front, x, id, finals);
      FirstUnderSnoc(c, Dedup(front), x, id, finals);
    }
  }

  ghost predicate SameElements(a: seq<StateID>, b: seq<StateID>) {
    forall x :: x in a <==> x in b
  }

  lemma {:induction false} SameActive(c: Chart, a: seq<StateID>, b: seq<StateID>, n: nat)
    requires c.Linked() && SameElements(a, b) && n <= |c.order|
    ensures ActiveInOrder(c, a, n) == ActiveInOrder(c, b, n)
  {
    if n > 0 {
      SameActive(c, a, b, n - 1);
    }
  }

  lemma {:induction false} SameDone(c: Chart, a: seq<StateID>, b: seq<StateID>, ids: seq<StateID>)
    requires c.Linked() && SameElements(a, b) && Dedup(a) == Dedup(b)
    ensures DoneOf(c, a, ids) == DoneOf(c, b, ids)
  {
    if ids != [] {
      SameDone(c, a, b, ids[..|ids| - 1]);
      var id := ids[|ids| - 1];
      FirstUnderDedup(c, a, id, Finals(c));
      FirstUnderDedup(c, b, id, Finals(c));
      assert forall r :: RegionDone(c, a, r, Finals(c)) <==> RegionDone(c, b, r, Finals(c));
    }
  }

  lemma SameDedup(a: seq<StateID>, b: seq<StateID>)
    requires Dedup(a) == Dedup(b)
    ensures SameElements(a, b) && (a == [] <==> b == []) && (a != [] ==> a[0] == b[0])
  {
    DedupElements(a);
    DedupElements(b);
    if a != [] {
      DedupHead(a);
      assert a[0] in b;
      DedupHead(b);
    }
  }

  lemma SnapshotsSame<C>(m: Machine<C>, a: seq<StateID>, b: seq<StateID>, prev: StateID, ctx: C, ev: Event, ch: bool)
    requires m.chart.Linked() && Dedup(a) == Dedup(b) && a != [] && b != []
    ensures SnapshotsAlike(SnapshotOf(m, a, prev, ctx, ev, ch), SnapshotOf(m, b, prev, ctx, ev, ch))
  {
    SameDedup(a, b);
    SameActive(m.chart, a, b, |m.chart.order|);
  }

  // ---------------------------------------------------------------- steps and runs

  /** The same transitions fire, with the same context, raised events, exits and entries. */
  lemma AlikePending<C>(m: Machine<C>, a: Conf<C>, b: Conf<C>, mv: Move)
    requires WellFormed(m) && Alike(a, b)
    ensures MovePending(m, a, mv) == MovePending(m, b, mv)
  {
    EnabledNullDedup(m, a.leaves, a.ctx);
    EnabledNullDedup(m, b.leaves, b.ctx);
    forall ev ensures Enabled(m, a.leaves, a.ctx, ev) == Enabled(m, b.leaves, b.ctx, ev) {
      EnabledDedup(m, a.leaves, a.ctx, ev);
      EnabledDedup(m, b.leaves, b.ctx, ev);
    }
  }

  lemma AlikeMicro<C>(m: Machine<C>, a: Conf<C>, b: Conf<C>, ev: Event, pending: seq<Pending<C>>)
    requires WellFormed(m) && Alike(a, b) && a.leaves != [] && b.leaves != []
    requires NewLeaves(m.chart, a.leaves, Hops(pending)) != []
    requires NewLeaves(m.chart, b.leaves, Hops(pending)) != []
    ensures Alike(Micro(m, a, ev, pending), Micro(m, b, ev, pending))
  {
    var c, hops := m.chart, Hops(pending);
    var la, lb := NewLeaves(c, a.leaves, hops), NewLeaves(c, b.leaves, hops);
    SameDedup(a.leaves, b.leaves);
    NewLeavesDedup(c, a.leaves, hops);
    NewLeavesDedup(c, b.leaves, hops);
    SameDedup(la, lb);
    SameDone(c, la, lb, Dedup(AncestorList(c, EntryOrder(c, hops))));
    MicroInSteps(m, a, ev, pending);
    MicroInSteps(m, b, ev, pending);
    AlikePerformed(m, a, b, ev, AllActions(pending), ExitOrder(c, hops), la, lb, EntryOrder(c, hops));
  }

  lemma AlikePerformed<C>(m: Machine<C>, a: Conf<C>, b: Conf<C>, ev: Event, acts: seq<Action<C>>,
                          exits: seq<StateID>, la: seq<StateID>, lb: seq<StateID>, entries: seq<StateID>)
    requires WellFormed(m) && Alike(a, b) && a.leaves != [] && b.leaves != [] && a.leaves[0] == b.leaves[0]
    requires la != [] && lb != [] && Dedup(la) == Dedup(lb)
    requires DoneEvents(m.chart, la, entries) == DoneEvents(m.chart, lb, entries)
    ensures Alike(Performed(m, a, ev, acts, exits, la, entries), Performed(m, b, ev, acts, exits, lb, entries))
  {
    var p := Transit(m, PartOf(a), ev, acts, exits, entries);
    SnapshotsSame(m, la, lb, a.leaves[0], p.ctx, ev, true);
  }

  lemma AlikeNext<C>(m: Machine<C>, a: Conf<C>, b: Conf<C>, mv: Move)
    requires WellFormed(m) && Alike(a, b) && LeafList(m.chart, a.leaves) && LeafList(m.chart, b.leaves)
    ensures Alike(Next(m, a, mv), Next(m, b, mv))
  {
    NextIs(m, a, mv);
    NextIs(m, b, mv);
    AlikePending(m, a, b, mv);
    PendingUsable(m, a, mv);
    PendingUsable(m, b, mv);
    var pending := MovePending(m, a, mv);
    if pending != [] {
      AlikeMicro(m, Popped(a, mv), Popped(b, mv), MoveEvent(a, mv), pending);
    }
  }

  /** Whole runs from states that differ in repeated leaves only stay that way. */
  lemma {:induction false} AlikeRun<C>(m: Machine<C>, a: Conf<C>, b: Conf<C>, moves: seq<Move>)
    requires WellFormed(m) && Coherent(m, a) && Coherent(m, b) && Alike(a, b)
    ensures Alike(Run(m, a, moves), Run(m, b, moves))
    decreases |moves|
  {
    if moves != [] {
      AlikeNext(m, a, b, moves[0]);
      NextCoherent(m, a, moves[0]);
      NextCoherent(m, b, moves[0]);
      AlikeRun(m, Next(m, a, moves[0]), Next(m, b, moves[0]), moves[1..]);
    }
  }

  /** In particular a state and the one with repeats dropped. */
  ghost function WithoutRepeats<C>(st: Conf<C>): Conf<C> {
    st.(leaves := Dedup(st.leaves), snap := st.snap.(leaves := Dedup(st.leaves)))
  }

  lemma RepeatsHarmless<C>(m: Machine<C>, st: Conf<C>, moves: seq<Move>)
    requires WellFormed(m) && Coherent(m, st)
    ensures Coherent(m, WithoutRepeats(st))
    ensures Alike(Run(m, st, moves), Run(m, WithoutRepeats(st), moves))
  {
    WithoutRepeatsCoherent(m, st);
    WithoutRepeatsAlike(st);
    AlikeRun(m, st, WithoutRepeats(st), moves);
  }

  lemma WithoutRepeatsAlike<C>(st: Conf<C>)
    requires st.snap.leaves == st.leaves
    ensures Alike(st, WithoutRepeats(st))
  {
    DedupIdempotent(st.leaves);
  }

  lemma WithoutRepeatsCoherent<C>(m: Machine<C>, st: Conf<C>)
    requires WellFormed(m) && Coherent(m, st)
    ensures Coherent(m, WithoutRepeats(st)) && st.snap.leaves == st.leaves
  {
    DedupIdempotent(st.leaves);
    DedupElements(st.leaves);
    DedupHead(st.leaves);
    SnapshotsSame(m, st.leaves, Dedup(st.leaves), st.prev, st.ctx, st.snap.event, st.snap.changed);
  }
}
