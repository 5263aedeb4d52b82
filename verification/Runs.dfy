/** What every run keeps: legality, entry/exit balance, and timers and invocations scoped to
    the active states, whatever order events, always transitions and raised events come in. */
module Runs {
  import opened Seqs
  import opened Charts
  import opened Navigation
  import opened Configurations
  import opened Steps
  import opened Hypotheses
  import opened Machines
  import opened Interpreter
  import opened Orders

  // ---------------------------------------------------------------- moves

  /** One thing the interpreter does: step an external or timer event, take the oldest raised
      event, apply every enabled always transition, or only that of the first leaf. */
  datatype Move = Step(ev: Event) | PopInternal | Null | FirstNull

  /** The event of a move, the interpreter state it starts from and the transitions it applies. */
  ghost function MoveEvent<C>(st: Conf<C>, mv: Move): Event {
    match mv
    case Step(ev) => ev
    case PopInternal => if st.internal == [] then ALWAYS else st.internal[0]
    case Null => ALWAYS
    case FirstNull => ALWAYS
  }

  ghost function Popped<C>(st: Conf<C>, mv: Move): Conf<C> {
    if mv.PopInternal? && st.internal != [] then st.(internal := st.internal[1..]) else st
  }

  ghost function MovePending<C>(m: Machine<C>, st: Conf<C>, mv: Move): seq<Pending<C>>
    requires WellFormed(m)
  {
    match mv
    case Step(ev) => Enabled(m, st.leaves, st.ctx, ev)
    case PopInternal => if st.internal == [] then [] else Enabled(m, st.leaves, st.ctx, st.internal[0])
    case Null => EnabledNull(m, st.leaves, st.ctx)
    case FirstNull =>
      var all := EnabledNull(m, st.leaves, st.ctx);
      if all == [] then [] else [all[0]]
  }

  /** Holds of every reachable interpreter state. */
  ghost predicate Coherent<C>(m: Machine<C>, st: Conf<C>)
    requires m.chart.Linked()
  {
    && LeafList(m.chart, st.leaves)
    && st.snap == SnapshotOf(m, st.leaves, st.prev, st.ctx, st.snap.event, st.snap.changed)
  }

  /** The state after a move: unchanged, but for a popped event, when nothing is enabled. */
  ghost function MoveResult<C>(m: Machine<C>, st: Conf<C>, mv: Move): Conf<C>
    requires WellFormed(m) && LeafList(m.chart, st.leaves)
  {
    var pending := MovePending(m, st, mv);
    if pending == [] then Popped(st, mv)
    else
      PendingUsable(m, st, mv);
      Micro(m, Popped(st, mv), MoveEvent(st, mv), pending)
  }

  /** Mentioning this unfolds `Next`; proofs about runs that do not look inside a move leave it
      folded. */
  ghost predicate Unfold(mv: Move) {
    true
  }

  ghost predicate IsResult<C>(m: Machine<C>, st: Conf<C>, mv: Move, r: Conf<C>)
    requires WellFormed(m) && LeafList(m.chart, st.leaves)
  {
    forall x {:trigger Unfold(x)} :: Unfold(x) && x == mv ==> r == MoveResult(m, st, x)
  }

  ghost function Next<C>(m: Machine<C>, st: Conf<C>, mv: Move): (r: Conf<C>)
    requires WellFormed(m) && LeafList(m.chart, st.leaves)
  {
    assert IsResult(m, st, mv, MoveResult(m, st, mv));
    var r :| IsResult(m, st, mv, r);
    r
  }

  lemma NextIs<C>(m: Machine<C>, st: Conf<C>, mv: Move)
    requires WellFormed(m) && LeafList(m.chart, st.leaves)
    ensures Next(m, st, mv) == MoveResult(m, st, mv)
  {
    assert Unfold(mv);
  }

  // ---------------------------------------------------------------- pending lists are usable

  lemma {:induction false} EnabledUsable<C>(m: Machine<C>, leaves: seq<StateID>, ctx: C, ev: Event)
    requires WellFormed(m) && forall l :: l in leaves ==> m.chart.IsAtomic(l)
    ensures HopsFor(m.chart, leaves, Hops(Enabled(m, leaves, ctx, ev)))
  {
    if leaves != [] {
      var front, leaf := leaves[..|leaves| - 1], leaves[|leaves| - 1];
      EnabledUsable(m, front, ctx, ev);
      assert leaves == front + [leaf];
      if leaf !in front && Resolve(m, leaf, ctx, ev).Some? {
        var s := ResolveSource(m, leaf, ctx, ev);
        var t := Resolve(m, leaf, ctx, ev).value;
        HopsSnoc(Enabled(m, front, ctx, ev), Pending(leaf, t.target, t.actions));
      }
    }
  }

  lemma {:induction false} EnabledNullUsable<C>(m: Machine<C>, leaves: seq<StateID>, ctx: C)
    requires WellFormed(m) && forall l :: l in leaves ==> m.chart.IsAtomic(l)
    ensures HopsFor(m.chart, leaves, Hops(EnabledNull(m, leaves, ctx)))
  {
    if leaves != [] {
      var front, leaf := leaves[..|leaves| - 1], leaves[|leaves| - 1];
      EnabledNullUsable(m, front, ctx);
      assert leaves == front + [leaf];
      if leaf !in front && ResolveNull(m, leaf, ctx).Some? {
        var s := ResolveNullSource(m, leaf, ctx);
        var t := ResolveNull(m, leaf, ctx).value;
        HopsSnoc(EnabledNull(m, front, ctx), Pending(leaf, t.target, t.actions));
      }
    }
  }

  lemma HopsSnoc<C>(ps: seq<Pending<C>>, p: Pending<C>)
    ensures Hops(ps + [p]) == Hops(ps) + [Hop(p.source, p.target)]
  {
    assert (ps + [p])[..|ps|] == ps;
  }

  lemma {:induction false} HopsAt<C>(ps: seq<Pending<C>>)
    ensures |Hops(ps)| == |ps|
    ensures forall i :: 0 <= i < |ps| ==> Hops(ps)[i] == Hop(ps[i].source, ps[i].target)
  {
    if ps != [] {
      HopsAt(ps[..|ps| - 1]);
    }
  }

  lemma PendingUsable<C>(m: Machine<C>, st: Conf<C>, mv: Move)
    requires WellFormed(m) && LeafList(m.chart, st.leaves)
    ensures var hops := Hops(MovePending(m, st, mv));
      && HopsFor(m.chart, st.leaves, hops)
      && LeafList(m.chart, NewLeaves(m.chart, st.leaves, hops))
  {
    var hops := Hops(MovePending(m, st, mv));
    match mv {
      case Step(ev) => EnabledUsable(m, st.leaves, st.ctx, ev);
      case PopInternal => if st.internal != [] { EnabledUsable(m, st.leaves, st.ctx, st.internal[0]); }
      case Null => EnabledNullUsable(m, st.leaves, st.ctx);
      case FirstNull =>
        EnabledNullUsable(m, st.leaves, st.ctx);
        HopsAt(EnabledNull(m, st.leaves, st.ctx));
        HopsAt(MovePending(m, st, mv));
        if hops != [] {
          assert hops == [Hops(EnabledNull(m, st.leaves, st.ctx))[0]];
        }
    }
    NewLeafList(m.chart, st.leaves, hops);
  }

  /** A move with nothing enabled, and one with something. */
  lemma NextCases<C>(m: Machine<C>, st: Conf<C>, mv: Move)
    requires WellFormed(m) && LeafList(m.chart, st.leaves)
    ensures var pending := MovePending(m, st, mv);
      && HopsFor(m.chart, st.leaves, Hops(pending))
      && LeafList(m.chart, NewLeaves(m.chart, st.leaves, Hops(pending)))
      && Next(m, st, mv) ==
           if pending == [] then Popped(st, mv) else Micro(m, Popped(st, mv), MoveEvent(st, mv), pending)
  {
    NextIs(m, st, mv);
    PendingUsable(m, st, mv);
  }

  // ---------------------------------------------------------------- the log

  lemma {:induction false} MarkCounts(ids: seq<StateID>, s: StateID)
    ensures Count(Entries(ids), Entry(s)) == Count(ids, s) && Count(Entries(ids), Exit(s)) == 0
    ensures Count(ExitMarks(ids), Exit(s)) == Count(ids, s) && Count(ExitMarks(ids), Entry(s)) == 0
  {
    if ids != [] {
      var front, x := ids[..|ids| - 1], ids[|ids| - 1];
      MarkCounts(front, s);
      CountSnoc(Entries(front), Entry(x), Entry(s));
      CountSnoc(Entries(front), Entry(x), Exit(s));
      CountSnoc(ExitMarks(front), Exit(x), Exit(s));
      CountSnoc(ExitMarks(front), Exit(x), Entry(s));
    }
  }

  ghost function Net(log: seq<Mark>, s: StateID): int {
    Count(log, Entry(s)) - Count(log, Exit(s))
  }

  lemma NetAfter(log: seq<Mark>, exits: seq<StateID>, entries: seq<StateID>, s: StateID)
    requires Distinct(exits) && Distinct(entries)
    ensures Net(log + ExitMarks(exits) + Entries(entries), s) ==
      Net(log, s) - (if s in exits then 1 else 0) + (if s in entries then 1 else 0)
  {
    MarkCounts(exits, s);
    MarkCounts(entries, s);
    CountDistinct(exits, s);
    CountDistinct(entries, s);
    forall x ensures Count(log + ExitMarks(exits) + Entries(entries), x) ==
      Count(log, x) + Count(ExitMarks(exits), x) + Count(Entries(entries), x)
    {
      CountAppend(log, ExitMarks(exits), x);
      CountAppend(log + ExitMarks(exits), Entries(entries), x);
    }
  }

  // ---------------------------------------------------------------- timers

  /** No two states share a timer ID. */
  ghost predicate TimersApart<C>(m: Machine<C>) {
    forall s, t, name :: name in TimersOf(m, s) && name in TimersOf(m, t) ==> s == t
  }

  /** The `i`-th delayed transition of state `s` has timer ID `id`. */
  ghost predicate HasTimer<C>(m: Machine<C>, s: StateID, i: int, id: string) {
    s in m.rules && 0 <= i < |m.rules[s].afters| && m.rules[s].afters[i].timerID == id
  }

  /** No two delayed transitions of a machine share a timer ID. */
  ghost predicate OwnTimers<C>(m: Machine<C>) {
    forall s, t, i, j, id :: HasTimer(m, s, i, id) && HasTimer(m, t, j, id) ==> s == t && i == j
  }

  lemma OwnTimersApart<C>(m: Machine<C>)
    requires OwnTimers(m)
    ensures TimersApart(m)
  {
    forall s, t, name | name in TimersOf(m, s) && name in TimersOf(m, t) ensures s == t {
      var i :| 0 <= i < |m.rules[s].afters| && m.rules[s].afters[i].timerID == name;
      var j :| 0 <= j < |m.rules[t].afters| && m.rules[t].afters[j].timerID == name;
      assert HasTimer(m, s, i, name) && HasTimer(m, t, j, name);
    }
  }

  lemma {:induction false} AllTimersElements<C>(m: Machine<C>, ids: seq<StateID>, name: string)
    ensures name in AllTimers(m, ids) <==> exists s :: s in ids && name in TimersOf(m, s)
  {
    if ids != [] {
      var front, x := ids[..|ids| - 1], ids[|ids| - 1];
      AllTimersElements(m, front, name);
      assert ids == front + [x] && x in ids;
      if s :| s in front && name in TimersOf(m, s) { assert s in ids; }
      if s :| s in ids && name in TimersOf(m, s) { assert s in front || s == x; }
    }
  }

  /** The registered timers are those of the states in `conf`. */
  ghost predicate TimersScoped<C>(m: Machine<C>, timers: set<string>, conf: set<StateID>) {
    forall name :: name in timers <==> exists s :: s in conf && name in TimersOf(m, s)
  }

  lemma TimersAfter<C>(m: Machine<C>, timers: set<string>, before: set<StateID>,
                       exits: seq<StateID>, entries: seq<StateID>, after: set<StateID>)
    requires TimersApart(m) && TimersScoped(m, timers, before)
    requires forall s :: s in after <==> (s in before && s !in exits) || s in entries
    ensures TimersScoped(m, timers - AllTimers(m, exits) + AllTimers(m, entries), after)
  {
    forall name ensures
      name in timers - AllTimers(m, exits) + AllTimers(m, entries)
      <==> exists s :: s in after && name in TimersOf(m, s)
    {
      AllTimersElements(m, exits, name);
      AllTimersElements(m, entries, name);
      if name in timers && name !in AllTimers(m, exits) {
        var s :| s in before && name in TimersOf(m, s);
        assert s in after;
      }
      if s :| s in after && name in TimersOf(m, s) && s !in entries {
        assert s in before && s !in exits;
      }
    }
  }

  // ---------------------------------------------------------------- invocations

  /** Each state of `conf` holds one handle per invoke function, other states none; handles are
      distinct, and one is cancelled exactly when no state holds it. */
  ghost predicate InvokesScoped<C>(m: Machine<C>, inv: Invocations, conf: set<StateID>) {
    && (forall s :: s in inv.held ==> s in conf)
    && (forall s :: s in conf ==> |HeldBy(inv, s)| == InvokesOf(m, s))
    && HandlesOK(inv)
  }

  ghost predicate Holds(inv: Invocations, s: StateID, h: nat) {
    h in HeldBy(inv, s)
  }

  ghost predicate HandlesMatch(inv: Invocations) {
    && (forall s :: Distinct(HeldBy(inv, s)))
    && (forall s, t, h: nat :: Holds(inv, s, h) && Holds(inv, t, h) ==> s == t)
    && (forall s, h: nat :: Holds(inv, s, h) ==> h < inv.next && h !in inv.cancelled)
    && (forall h: nat :: h < inv.next && h !in inv.cancelled ==> exists s :: Holds(inv, s, h))
    && (forall h: nat :: h in inv.cancelled ==> h < inv.next)
  }

  /** Mentioning this unfolds `HandlesOK`. */
  ghost predicate Open(k: nat) {
    true
  }

  ghost predicate HandlesOK(inv: Invocations) {
    forall k: nat {:trigger Open(k)} :: Open(k) ==> HandlesMatch(inv)
  }

  lemma StopKeepsScope<C>(m: Machine<C>, inv: Invocations, id: StateID, conf: set<StateID>)
    requires InvokesScoped(m, inv, conf)
    ensures InvokesScoped(m, StopInvokes(inv, id), conf - {id})
  {
    assert Open(0);
    StopKeepsMatch(inv, id);
    forall s ensures HeldBy(StopInvokes(inv, id), s) == if s == id then [] else HeldBy(inv, s) {
    }
  }

  /** Stopping cancels the handles that one state holds. */
  lemma StopKeepsMatch(inv: Invocations, id: StateID)
    requires HandlesMatch(inv)
    ensures HandlesMatch(StopInvokes(inv, id))
  {
    var i := StopInvokes(inv, id);
    forall s ensures HeldBy(i, s) == if s == id then [] else HeldBy(inv, s) {
    }
    forall s, h: nat ensures Holds(i, s, h) <==> s != id && Holds(inv, s, h) {
    }
    assert forall h: nat :: h in HeldBy(inv, id) <==> Holds(inv, id, h);
    forall h: nat | h < i.next && h !in i.cancelled ensures exists s :: Holds(i, s, h) {
      var s :| Holds(inv, s, h);
      assert Holds(i, s, h);
    }
  }

  ghost function WithHandle(inv: Invocations, id: StateID): Invocations {
    Invocations(inv.held[id := HeldBy(inv, id) + [inv.next]], inv.next + 1, inv.cancelled)
  }

  /** One more invocation: a fresh handle. */
  lemma AddHandle(inv: Invocations, id: StateID)
    requires HandlesMatch(inv)
    ensures HandlesMatch(WithHandle(inv, id))
  {
    var j := WithHandle(inv, id);
    forall x | x in HeldBy(inv, id) ensures x != inv.next {
      assert Holds(inv, id, x);
    }
    DistinctSnoc(HeldBy(inv, id), inv.next);
    forall s ensures HeldBy(j, s) == if s == id then HeldBy(inv, id) + [inv.next] else HeldBy(inv, s) {
    }
    forall s, h: nat ensures Holds(j, s, h) <==> Holds(inv, s, h) || (s == id && h == inv.next) {
    }
    forall h: nat | h < j.next && h !in j.cancelled ensures exists s :: Holds(j, s, h) {
      if h == inv.next {
        assert Holds(j, id, h);
      } else {
        var s :| Holds(inv, s, h);
        assert Holds(j, s, h);
      }
    }
  }

  lemma AddHandleOK(inv: Invocations, id: StateID)
    requires HandlesOK(inv)
    ensures HandlesOK(WithHandle(inv, id))
  {
    assert Open(0);
    AddHandle(inv, id);
  }

  lemma {:induction false} StartOne<C>(m: Machine<C>, inv: Invocations, id: StateID, n: nat)
    requires HandlesOK(inv) && HeldBy(inv, id) == []
    ensures var i := StartInvokes(inv, id, n);
      && HandlesOK(i) && |HeldBy(i, id)| == n
      && (forall s :: s != id ==> HeldBy(i, s) == HeldBy(inv, s))
      && (forall s :: s in i.held ==> s == id || s in inv.held)
  {
    if n > 0 {
      StartOne(m, inv, id, n - 1);
      var i := StartInvokes(inv, id, n - 1);
      AddHandleOK(i, id);
      assert StartInvokes(inv, id, n) == WithHandle(i, id);
    }
  }

  lemma StartOneScope<C>(m: Machine<C>, inv: Invocations, id: StateID, conf: set<StateID>)
    requires InvokesScoped(m, inv, conf) && id !in conf
    ensures InvokesScoped(m, StartInvokes(inv, id, InvokesOf(m, id)), conf + {id})
  {
    assert id !in inv.held;
    StartOne(m, inv, id, InvokesOf(m, id));
  }

  ghost function Elements(ids: seq<StateID>): set<StateID> {
    set s | s in ids
  }

  lemma ElementsSnoc(ids: seq<StateID>, conf: set<StateID>)
    requires ids != []
    ensures var front, x := ids[..|ids| - 1], ids[|ids| - 1];
      && conf - Elements(ids) == (conf - Elements(front)) - {x}
      && conf + Elements(ids) == (conf + Elements(front)) + {x}
  {
    assert ids == ids[..|ids| - 1] + [ids[|ids| - 1]];
  }

  lemma {:induction false} StopAllScope<C>(m: Machine<C>, inv: Invocations, ids: seq<StateID>, conf: set<StateID>)
    requires InvokesScoped(m, inv, conf)
    ensures InvokesScoped(m, StopAll(inv, ids), conf - Elements(ids))
  {
    if ids == [] {
      assert conf - Elements(ids) == conf;
    } else {
      StopAllScope(m, inv, ids[..|ids| - 1], conf);
      StopKeepsScope(m, StopAll(inv, ids[..|ids| - 1]), ids[|ids| - 1], conf - Elements(ids[..|ids| - 1]));
      ElementsSnoc(ids, conf);
    }
  }

  lemma DistinctLast(ids: seq<StateID>, conf: set<StateID>)
    requires ids != [] && Distinct(ids) && Elements(ids) !! conf
    ensures var front := ids[..|ids| - 1];
      Distinct(front) && Elements(front) !! conf && ids[|ids| - 1] !in conf + Elements(front)
  {
    var front := ids[..|ids| - 1];
    assert forall s :: s in front ==> s in ids;
    assert ids[|ids| - 1] in Elements(ids);
  }

  lemma {:induction false} StartAllScope<C>(m: Machine<C>, inv: Invocations, ids: seq<StateID>, conf: set<StateID>)
    requires InvokesScoped(m, inv, conf) && Distinct(ids) && Elements(ids) !! conf
    ensures InvokesScoped(m, StartAll(m, inv, ids), conf + Elements(ids))
  {
    if ids == [] {
      assert conf + Elements(ids) == conf;
    } else {
      DistinctLast(ids, conf);
      StartAllScope(m, inv, ids[..|ids| - 1], conf);
      StartOneScope(m, StartAll(m, inv, ids[..|ids| - 1]), ids[|ids| - 1], conf + Elements(ids[..|ids| - 1]));
      ElementsSnoc(ids, conf);
    }
  }

  // ---------------------------------------------------------------- the invariant

  /** What a run with clean steps keeps. */
  ghost predicate Good<C>(m: Machine<C>, st: Conf<C>)
    requires m.chart.Linked()
  {
    var conf := Active(m.chart, st.leaves);
    && Coherent(m, st)
    && Legal(m.chart, conf)
    && FirstsIncrease(m.chart, st.leaves)
    && (forall s :: Net(st.log, s) == if s in conf then 1 else 0)
    && TimersScoped(m, st.timers, conf)
    && InvokesScoped(m, st.inv, conf)
  }

  /** The step's effect on the configuration, in terms of the lists that are executed. */
  lemma StepSets(c: Chart, leaves: seq<StateID>, hops: seq<Hop>)
    requires c.Linked() && StepPre(c, leaves, hops)
    ensures var before, after := Active(c, leaves), Active(c, NewLeaves(c, leaves, hops));
      var exits, entries := ExitOrder(c, hops), EntryOrder(c, hops);
      && (forall s :: s in after <==> (s in before && s !in exits) || s in entries)
      && (forall s :: s in exits ==> s in before)
      && (forall s :: s in entries ==> !(s in before && s !in exits))
  {
    ExitOrderSound(c, hops);
    EntryOrderSound(c, leaves, hops);
    forall s ensures
      var before, after := Active(c, leaves), Active(c, NewLeaves(c, leaves, hops));
      var exits, entries := ExitOrder(c, hops), EntryOrder(c, hops);
      && (s in after <==> (s in before && s !in exits) || s in entries)
      && (s in exits ==> s in before)
      && (s in entries ==> !(s in before && s !in exits))
    {
      if s in c.nodes {
        StepBalance(c, leaves, hops, s);
      } else {
        if s in ExitOrder(c, hops) {
          var h :| h in hops && Exits(c, h, s);
          PathUpDistinct(c, h.source, LccaOfHop(c, h));
        }
        if s in EntryOrder(c, hops) {
          var h :| h in hops && Enters(c, h, s);
          var t :| t in LeafTargets(c, h.target) && s in PathUp(c, t, LccaOfHop(c, h));
          PathUpDistinct(c, t, LccaOfHop(c, h));
        }
      }
    }
  }

  lemma StepLog(c: Chart, leaves: seq<StateID>, hops: seq<Hop>, log: seq<Mark>, s: StateID)
    requires c.Linked() && StepPre(c, leaves, hops)
    requires Net(log, s) == if s in Active(c, leaves) then 1 else 0
    ensures Net(log + ExitMarks(ExitOrder(c, hops)) + Entries(EntryOrder(c, hops)), s) ==
      if s in Active(c, NewLeaves(c, leaves, hops)) then 1 else 0
  {
    ExitOrderSound(c, hops);
    EntryOrderSound(c, leaves, hops);
    StepSets(c, leaves, hops);
    NetAfter(log, ExitOrder(c, hops), EntryOrder(c, hops), s);
  }

  lemma StepInvokes<C>(m: Machine<C>, leaves: seq<StateID>, hops: seq<Hop>, inv: Invocations)
    requires m.chart.Linked() && StepPre(m.chart, leaves, hops)
    requires InvokesScoped(m, inv, Active(m.chart, leaves))
    ensures InvokesScoped(m, StartAll(m, StopAll(inv, ExitOrder(m.chart, hops)), EntryOrder(m.chart, hops)),
                          Active(m.chart, NewLeaves(m.chart, leaves, hops)))
  {
    var c := m.chart;
    EntryOrderSound(c, leaves, hops);
    StepSets(c, leaves, hops);
    InvokesAfter(m, inv, Active(c, leaves), ExitOrder(c, hops), EntryOrder(c, hops),
                 Active(c, NewLeaves(c, leaves, hops)));
  }

  lemma InvokesAfter<C>(m: Machine<C>, inv: Invocations, before: set<StateID>, exits: seq<StateID>,
                        entries: seq<StateID>, after: set<StateID>)
    requires InvokesScoped(m, inv, before) && Distinct(entries)
    requires forall s :: s in after <==> (s in before && s !in exits) || s in entries
    requires forall s :: s in entries ==> !(s in before && s !in exits)
    ensures InvokesScoped(m, StartAll(m, StopAll(inv, exits), entries), after)
  {
    StopAllScope(m, inv, exits, before);
    StartAllScope(m, StopAll(inv, exits), entries, before - Elements(exits));
    assert after == (before - Elements(exits)) + Elements(entries);
  }

  lemma StepTimers<C>(m: Machine<C>, leaves: seq<StateID>, hops: seq<Hop>, timers: set<string>)
    requires m.chart.Linked() && StepPre(m.chart, leaves, hops) && TimersApart(m)
    requires TimersScoped(m, timers, Active(m.chart, leaves))
    ensures TimersScoped(m, timers - AllTimers(m, ExitOrder(m.chart, hops))
                              + AllTimers(m, EntryOrder(m.chart, hops)),
                         Active(m.chart, NewLeaves(m.chart, leaves, hops)))
  {
    var c := m.chart;
    StepSets(c, leaves, hops);
    TimersAfter(m, timers, Active(c, leaves), ExitOrder(c, hops), EntryOrder(c, hops),
                Active(c, NewLeaves(c, leaves, hops)));
  }

  /** A joint microstep in order keeps the invariant. */
  lemma MicroGood<C>(m: Machine<C>, st: Conf<C>, ev: Event, pending: seq<Pending<C>>)
    requires WellFormed(m) && TimersApart(m) && Good(m, st)
    requires HopsFor(m.chart, st.leaves, Hops(pending))
    requires JointStep(m.chart, st.leaves, Hops(pending)) && InOrder(m.chart, Hops(pending))
    ensures NewLeaves(m.chart, st.leaves, Hops(pending)) != []
    ensures Good(m, Micro(m, st, ev, pending))
  {
    var c, hops := m.chart, Hops(pending);
    NewLeafList(c, st.leaves, hops);
    StepLegal(c, st.leaves, hops);
    StepOrdered(c, st.leaves, hops);
    StepTimers(m, st.leaves, hops, st.timers);
    StepInvokes(m, st.leaves, hops, st.inv);
    var after := Micro(m, st, ev, pending);
    forall s ensures Net(after.log, s) == if s in Active(c, after.leaves) then 1 else 0 {
      StepLog(c, st.leaves, hops, st.log, s);
    }
  }

  /** The transitions of the move act together, complete what they change and are in order, as those
      of a clean step are. */
  ghost predicate CleanMove<C>(m: Machine<C>, st: Conf<C>, mv: Move)
    requires WellFormed(m)
  {
    var hops := Hops(MovePending(m, st, mv));
    JointStep(m.chart, st.leaves, hops) && InOrder(m.chart, hops)
  }

  lemma CleanStepMove<C>(m: Machine<C>, st: Conf<C>, mv: Move)
    requires WellFormed(m) && Good(m, st)
    ensures CleanStep(m.chart, st.leaves, Hops(MovePending(m, st, mv))) ==> CleanMove(m, st, mv)
  {
    PendingUsable(m, st, mv);
    if CleanStep(m.chart, st.leaves, Hops(MovePending(m, st, mv))) {
      CleanIsJoint(m.chart, st.leaves, Hops(MovePending(m, st, mv)));
    }
  }

  lemma NextCoherent<C>(m: Machine<C>, st: Conf<C>, mv: Move)
    requires WellFormed(m) && Coherent(m, st)
    ensures Coherent(m, Next(m, st, mv))
  {
    NextIs(m, st, mv);
    PendingUsable(m, st, mv);
  }

  lemma NextGood<C>(m: Machine<C>, st: Conf<C>, mv: Move)
    requires WellFormed(m) && TimersApart(m) && Good(m, st) && CleanMove(m, st, mv)
    ensures Good(m, Next(m, st, mv))
  {
    NextIs(m, st, mv);
    PendingUsable(m, st, mv);
    var pending := MovePending(m, st, mv);
    if pending != [] {
      MicroGood(m, Popped(st, mv), MoveEvent(st, mv), pending);
    }
  }

  // ---------------------------------------------------------------- whole runs

  ghost function Run<C>(m: Machine<C>, st: Conf<C>, moves: seq<Move>): (r: Conf<C>)
    requires WellFormed(m) && Coherent(m, st)
    ensures Coherent(m, r)
    decreases |moves|
  {
    if moves == [] then st
    else
      NextCoherent(m, st, moves[0]);
      Run(m, Next(m, st, moves[0]), moves[1..])
  }

  ghost predicate CleanRun<C>(m: Machine<C>, st: Conf<C>, moves: seq<Move>)
    requires WellFormed(m) && Coherent(m, st)
    decreases |moves|
  {
    moves != [] ==>
      && CleanMove(m, st, moves[0])
      && (NextCoherent(m, st, moves[0]); CleanRun(m, Next(m, st, moves[0]), moves[1..]))
  }

  /** Every state reached by clean moves is good. */
  lemma {:induction false} RunGood<C>(m: Machine<C>, st: Conf<C>, moves: seq<Move>)
    requires WellFormed(m) && TimersApart(m) && Good(m, st) && CleanRun(m, st, moves)
    ensures Good(m, Run(m, st, moves))
    decreases |moves|
  {
    if moves != [] {
      NextGood(m, st, moves[0]);
      RunGood(m, Next(m, st, moves[0]), moves[1..]);
    }
  }

  lemma NoParallelClean<C>(m: Machine<C>, st: Conf<C>, mv: Move)
    requires WellFormed(m) && NoParallel(m.chart) && Good(m, st)
    ensures CleanMove(m, st, mv)
    ensures forall l :: l in st.leaves ==> l == st.leaves[0]
  {
    PendingUsable(m, st, mv);
    NoParallelOneLeaf(m.chart, st.leaves, Hops(MovePending(m, st, mv)));
    CleanStepMove(m, st, mv);
  }

  /** A machine without parallel states needs no hypothesis on its steps, and always has one
      active leaf. */
  lemma {:induction false} NoParallelRunGood<C>(m: Machine<C>, st: Conf<C>, moves: seq<Move>)
    requires WellFormed(m) && TimersApart(m) && NoParallel(m.chart) && Good(m, st)
    ensures Good(m, Run(m, st, moves))
    ensures forall l :: l in Run(m, st, moves).leaves ==> l == Run(m, st, moves).leaves[0]
    decreases |moves|
  {
    if moves == [] {
      NoParallelClean(m, st, Null);
    } else {
      NoParallelClean(m, st, moves[0]);
      NextGood(m, st, moves[0]);
      NoParallelRunGood(m, Next(m, st, moves[0]), moves[1..]);
    }
  }

  // ---------------------------------------------------------------- initial states

  lemma EmptyScope<C>(m: Machine<C>)
    ensures InvokesScoped(m, NO_INVOKES, {}) && TimersScoped(m, {}, {})
  {
  }

  /** What entering a list of states from nothing establishes. */
  lemma EnterFromNothing<C>(m: Machine<C>, ids: seq<StateID>, conf: set<StateID>)
    requires Distinct(ids) && forall s :: s in ids <==> s in conf
    ensures TimersScoped(m, AllTimers(m, ids), conf)
    ensures InvokesScoped(m, StartAll(m, NO_INVOKES, ids), conf)
    ensures forall s :: Net(Entries(ids), s) == if s in conf then 1 else 0
  {
    EmptyScope(m);
    StartAllScope(m, NO_INVOKES, ids, {});
    assert {} + Elements(ids) == conf;
    forall name ensures name in AllTimers(m, ids) <==> exists s :: s in conf && name in TimersOf(m, s) {
      AllTimersElements(m, ids, name);
      if s :| s in conf && name in TimersOf(m, s) { assert s in ids; }
    }
    forall s ensures Net(Entries(ids), s) == if s in conf then 1 else 0 {
      MarkCounts(ids, s);
      CountDistinct(ids, s);
    }
  }

  /** The initial state is good exactly when the declared initial state has no parallel proper
      ancestor. */
  lemma StartGood<C>(m: Machine<C>)
    requires WellFormed(m)
    ensures Coherent(m, StartConf(m))
    ensures Good(m, StartConf(m)) <==> forall a :: m.chart.Below(a, m.initial) ==> !m.chart.IsAnd(a)
  {
    StartParts(m);
    InitialLegal(m.chart, m.initial);
  }

  /** A start scopes log, timers and invocations to its configuration, whatever that is. */
  lemma StartParts<C>(m: Machine<C>)
    requires WellFormed(m)
    ensures var st := StartConf(m);
      var conf := Active(m.chart, st.leaves);
      && st.leaves == LeafTargets(m.chart, m.initial)
      && (forall s :: Net(st.log, s) == if s in conf then 1 else 0)
      && TimersScoped(m, st.timers, conf) && InvokesScoped(m, st.inv, conf)
  {
    var leaves := LeafTargets(m.chart, m.initial);
    InitialLegal(m.chart, m.initial);
    InitialEntryOrder(m.chart, leaves);
    ActiveIsDeclared(m.chart, leaves);
    EnterFromNothing(m, Dedup(EntryPaths(m.chart, ROOT, leaves)), Active(m.chart, leaves));
  }

  lemma ActiveIsDeclared(c: Chart, leaves: seq<StateID>)
    requires c.Linked()
    ensures forall s :: s in Active(c, leaves) <==> s != ROOT && IsActive(c, leaves, s)
  {
    assert c.NodeOK(ROOT);
    forall s | s != ROOT && IsActive(c, leaves, s) ensures s in c.nodes {
      var l :| l in leaves && c.Anc(s, l);
      if s != l { BelowRank(c, s, l); }
    }
  }

  /** A restored state is good exactly when the restored leaves are a legal configuration in
      definition order. */
  lemma RestoreGood<C>(m: Machine<C>, leaves: seq<StateID>, ctx: C)
    requires WellFormed(m) && LeafList(m.chart, leaves)
    ensures Coherent(m, RestoreConf(m, leaves, ctx))
    ensures Good(m, RestoreConf(m, leaves, ctx)) <==>
      Legal(m.chart, Active(m.chart, leaves)) && FirstsIncrease(m.chart, leaves)
  {
    RestoreParts(m, leaves, ctx);
  }

  /** A restored state scopes log, timers and invocations to its configuration, whatever that is. */
  lemma RestoreParts<C>(m: Machine<C>, leaves: seq<StateID>, ctx: C)
    requires WellFormed(m) && LeafList(m.chart, leaves)
    ensures var st := RestoreConf(m, leaves, ctx);
      var conf := Active(m.chart, st.leaves);
      && st.leaves == leaves && (forall s :: Net(st.log, s) == if s in conf then 1 else 0)
      && TimersScoped(m, st.timers, conf) && InvokesScoped(m, st.inv, conf)
  {
    var c := m.chart;
    var ids := ActiveInOrder(c, leaves, |c.order|);
    ActiveInOrderElements(c, leaves, |c.order|);
    ActiveIsDeclared(c, leaves);
    forall s ensures s in ids <==> s in Active(c, leaves) {
      assert c.NodeOK(s);
    }
    EnterFromNothing(m, ids, Active(c, leaves));
  }

  /** The main result for a started service: if the initial state is outside parallel states
      and every move is clean, every reachable configuration is legal, its distinct leaves are
      in definition order, and log, timers and invocations match it. */
  lemma ReachableGood<C>(m: Machine<C>, moves: seq<Move>)
    requires WellFormed(m) && TimersApart(m)
    requires forall a :: m.chart.Below(a, m.initial) ==> !m.chart.IsAnd(a)
    requires Coherent(m, StartConf(m)) && CleanRun(m, StartConf(m), moves)
    ensures var st := Run(m, StartConf(m), moves);
      Good(m, st) && Increasing(m.chart, Dedup(st.leaves))
  {
    StartGood(m);
    RunGood(m, StartConf(m), moves);
    DedupIncreases(m.chart, Run(m, StartConf(m), moves).leaves);
  }
}
