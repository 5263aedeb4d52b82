/** The interpreter as a function of its state: one microstep, the initial configuration, and
    the lists of states each exits and enters. */
module Interpreter {
  import opened Seqs
  import opened Charts
  import opened Navigation
  import opened Configurations
  import opened Machines

  // ---------------------------------------------------------------- exit and entry order

  /** The exit paths of all hops, one after the other. */
  ghost function ExitList(c: Chart, hops: seq<Hop>): seq<StateID>
    requires c.Linked()
  {
    if hops == [] then []
    else
      var h := hops[|hops| - 1];
      ExitList(c, hops[..|hops| - 1]) + PathUp(c, h.source, LccaOfHop(c, h))
  }

  /** The entry paths from `l` down to each of the leaves, one after the other. */
  ghost function EntryPaths(c: Chart, l: StateID, ts: seq<StateID>): seq<StateID>
    requires c.Linked()
  {
    if ts == [] then []
    else EntryPaths(c, l, ts[..|ts| - 1]) + Reverse(PathUp(c, ts[|ts| - 1], l))
  }

  ghost function EntryList(c: Chart, hops: seq<Hop>): seq<StateID>
    requires c.Linked()
  {
    if hops == [] then []
    else
      var h := hops[|hops| - 1];
      EntryList(c, hops[..|hops| - 1]) + EntryPaths(c, LccaOfHop(c, h), LeafTargets(c, h.target))
  }

  /** `x` goes behind everything at least as deep as itself. */
  function InsertByDepth(c: Chart, s: seq<StateID>, x: StateID): seq<StateID>
    requires c.Linked()
  {
    if s == [] || DepthOf(c, s[|s| - 1]) >= DepthOf(c, x) then s + [x]
    else InsertByDepth(c, s[..|s| - 1], x) + [s[|s| - 1]]
  }

  /** Stable sort, deepest first. */
  function SortByDepth(c: Chart, s: seq<StateID>): seq<StateID>
    requires c.Linked()
  {
    if s == [] then [] else InsertByDepth(c, SortByDepth(c, s[..|s| - 1]), s[|s| - 1])
  }

  ghost function ExitOrder(c: Chart, hops: seq<Hop>): seq<StateID>
    requires c.Linked()
  {
    SortByDepth(c, Dedup(ExitList(c, hops)))
  }

  ghost function EntryOrder(c: Chart, hops: seq<Hop>): seq<StateID>
    requires c.Linked()
  {
    Dedup(EntryList(c, hops))
  }

  // ---------------------------------------------------------------- done events

  function DoneEvent(id: StateID): Event {
    E("done.state." + id)
  }

  ghost function Finals(c: Chart): set<StateID> {
    set id | id in c.nodes && c.nodes[id].final
  }

  /** Some active leaf at or below `region` is one of `finals`. */
  ghost predicate RegionDone(c: Chart, leaves: seq<StateID>, region: StateID, finals: set<StateID>)
    requires c.Linked()
  {
    exists l :: l in leaves && c.Anc(region, l) && l in finals
  }

  /** Whether the first active leaf strictly below `id` is one of `finals`. */
  ghost predicate FirstUnderFinal(c: Chart, leaves: seq<StateID>, id: StateID, finals: set<StateID>)
    requires c.Linked()
  {
    leaves != [] &&
      if c.Below(id, leaves[0]) then leaves[0] in finals else FirstUnderFinal(c, leaves[1..], id, finals)
  }

  /** The code's notion of a completed state, were `finals` the final states. */
  ghost predicate DoneBy(c: Chart, leaves: seq<StateID>, id: StateID, finals: set<StateID>)
    requires c.Linked()
  {
    c.IsCompound(id) &&
      if c.IsAnd(id) then forall r :: r in c.nodes[id].children ==> RegionDone(c, leaves, r, finals)
      else FirstUnderFinal(c, leaves, id, finals)
  }

  ghost predicate IsDone(c: Chart, leaves: seq<StateID>, id: StateID)
    requires c.Linked()
  {
    DoneBy(c, leaves, id, Finals(c))
  }

  /** The proper ancestors of the entered states, nearest first, state by state. */
  ghost function AncestorList(c: Chart, entered: seq<StateID>): seq<StateID>
    requires c.Linked()
  {
    if entered == [] then []
    else AncestorList(c, entered[..|entered| - 1]) + PathUp(c, c.Par(entered[|entered| - 1]), ROOT)
  }

  ghost function DoneOf(c: Chart, leaves: seq<StateID>, ids: seq<StateID>): seq<Event>
    requires c.Linked()
  {
    if ids == [] then []
    else
      DoneOf(c, leaves, ids[..|ids| - 1])
      + if IsDone(c, leaves, ids[|ids| - 1]) then [DoneEvent(ids[|ids| - 1])] else []
  }

  ghost function DoneEvents(c: Chart, leaves: seq<StateID>, entered: seq<StateID>): seq<Event>
    requires c.Linked()
  {
    DoneOf(c, leaves, Dedup(AncestorList(c, entered)))
  }

  // ---------------------------------------------------------------- actions

  /** The actions in order; the events they raise, in order. */
  function RunActions<C>(acts: seq<Action<C>>, ctx: C, ev: Event): (C, seq<Event>) {
    if acts == [] then (ctx, [])
    else
      var (c1, raised) := RunActions(acts[..|acts| - 1], ctx, ev);
      var (c2, more) := acts[|acts| - 1](c1, ev);
      (c2, raised + more)
  }

  function EntryActions<C>(m: Machine<C>, id: StateID): seq<Action<C>> {
    if id in m.rules then m.rules[id].onEntry else []
  }

  function ExitActions<C>(m: Machine<C>, id: StateID): seq<Action<C>> {
    if id in m.rules then m.rules[id].onExit else []
  }

  function RunEntries<C>(m: Machine<C>, ids: seq<StateID>, ctx: C, ev: Event): (C, seq<Event>) {
    if ids == [] then (ctx, [])
    else
      var (c1, raised) := RunEntries(m, ids[..|ids| - 1], ctx, ev);
      var (c2, more) := RunActions(EntryActions(m, ids[|ids| - 1]), c1, ev);
      (c2, raised + more)
  }

  function RunExits<C>(m: Machine<C>, ids: seq<StateID>, ctx: C, ev: Event): (C, seq<Event>) {
    if ids == [] then (ctx, [])
    else
      var (c1, raised) := RunExits(m, ids[..|ids| - 1], ctx, ev);
      var (c2, more) := RunActions(ExitActions(m, ids[|ids| - 1]), c1, ev);
      (c2, raised + more)
  }

  // ---------------------------------------------------------------- timers and invokes

  function TimersOf<C>(m: Machine<C>, id: StateID): set<string> {
    if id in m.rules then set i | 0 <= i < |m.rules[id].afters| :: m.rules[id].afters[i].timerID else {}
  }

  function AllTimers<C>(m: Machine<C>, ids: seq<StateID>): set<string> {
    if ids == [] then {} else AllTimers(m, ids[..|ids| - 1]) + TimersOf(m, ids[|ids| - 1])
  }

  function InvokesOf<C>(m: Machine<C>, id: StateID): nat {
    if id in m.rules then m.rules[id].invokes else 0
  }

  /** Running invocations: the cancel handles of each state, the next handle to hand out, and
      the handles cancelled so far. */
  datatype Invocations = Invocations(held: map<StateID, seq<nat>>, next: nat, cancelled: set<nat>)

  function HeldBy(inv: Invocations, id: StateID): seq<nat> {
    if id in inv.held then inv.held[id] else []
  }

  function StartInvokes(inv: Invocations, id: StateID, n: nat): Invocations {
    if n == 0 then inv
    else
      var i := StartInvokes(inv, id, n - 1);
      Invocations(i.held[id := HeldBy(i, id) + [i.next]], i.next + 1, i.cancelled)
  }

  function StopInvokes(inv: Invocations, id: StateID): Invocations {
    Invocations(inv.held - {id}, inv.next, inv.cancelled + set h | h in HeldBy(inv, id))
  }

  function StartAll<C>(m: Machine<C>, inv: Invocations, ids: seq<StateID>): Invocations {
    if ids == [] then inv
    else StartInvokes(StartAll(m, inv, ids[..|ids| - 1]), ids[|ids| - 1], InvokesOf(m, ids[|ids| - 1]))
  }

  function StopAll(inv: Invocations, ids: seq<StateID>): Invocations {
    if ids == [] then inv else StopInvokes(StopAll(inv, ids[..|ids| - 1]), ids[|ids| - 1])
  }

  // ---------------------------------------------------------------- states and microsteps

  datatype Mark = Entry(id: StateID) | Exit(id: StateID)

  function Entries(ids: seq<StateID>): seq<Mark> {
    if ids == [] then [] else Entries(ids[..|ids| - 1]) + [Entry(ids[|ids| - 1])]
  }

  function ExitMarks(ids: seq<StateID>): seq<Mark> {
    if ids == [] then [] else ExitMarks(ids[..|ids| - 1]) + [Exit(ids[|ids| - 1])]
  }

  /** The fields that exiting and entering states change. */
  datatype Part<C> = Part(ctx: C, internal: seq<Event>, timers: set<string>, inv: Invocations, log: seq<Mark>)

  function ExitOne<C>(m: Machine<C>, p: Part<C>, id: StateID, ev: Event): Part<C> {
    var (ctx, raised) := RunActions(ExitActions(m, id), p.ctx, ev);
    Part(ctx, p.internal + raised, p.timers - TimersOf(m, id), StopInvokes(p.inv, id), p.log + [Exit(id)])
  }

  function EnterOne<C>(m: Machine<C>, p: Part<C>, id: StateID, ev: Event): Part<C> {
    var (ctx, raised) := RunActions(EntryActions(m, id), p.ctx, ev);
    Part(ctx, p.internal + raised, p.timers + TimersOf(m, id),
         StartInvokes(p.inv, id, InvokesOf(m, id)), p.log + [Entry(id)])
  }

  function ExitEach<C>(m: Machine<C>, p: Part<C>, ids: seq<StateID>, ev: Event): Part<C> {
    if ids == [] then p else ExitOne(m, ExitEach(m, p, ids[..|ids| - 1], ev), ids[|ids| - 1], ev)
  }

  function EnterEach<C>(m: Machine<C>, p: Part<C>, ids: seq<StateID>, ev: Event): Part<C> {
    if ids == [] then p else EnterOne(m, EnterEach(m, p, ids[..|ids| - 1], ev), ids[|ids| - 1], ev)
  }

  /** What exiting a list of states does to each field. */
  function AfterExits<C>(m: Machine<C>, p: Part<C>, ids: seq<StateID>, ev: Event): Part<C> {
    var (ctx, raised) := RunExits(m, ids, p.ctx, ev);
    Part(ctx, p.internal + raised, p.timers - AllTimers(m, ids), StopAll(p.inv, ids), p.log + ExitMarks(ids))
  }

  function AfterEntries<C>(m: Machine<C>, p: Part<C>, ids: seq<StateID>, ev: Event): Part<C> {
    var (ctx, raised) := RunEntries(m, ids, p.ctx, ev);
    Part(ctx, p.internal + raised, p.timers + AllTimers(m, ids), StartAll(m, p.inv, ids), p.log + Entries(ids))
  }

  lemma ExitOneMore<C>(m: Machine<C>, p: Part<C>, ids: seq<StateID>, ev: Event)
    requires ids != []
    ensures ExitOne(m, AfterExits(m, p, ids[..|ids| - 1], ev), ids[|ids| - 1], ev) == AfterExits(m, p, ids, ev)
  {
    var front, x := ids[..|ids| - 1], ids[|ids| - 1];
    var (ctx, raised) := RunExits(m, front, p.ctx, ev);
    var (_, more) := RunActions(ExitActions(m, x), ctx, ev);
    assert (p.internal + raised) + more == p.internal + (raised + more);
    assert p.timers - AllTimers(m, front) - TimersOf(m, x) == p.timers - AllTimers(m, ids);
    assert (p.log + ExitMarks(front)) + [Exit(x)] == p.log + ExitMarks(ids);
  }

  lemma EnterOneMore<C>(m: Machine<C>, p: Part<C>, ids: seq<StateID>, ev: Event)
    requires ids != []
    ensures EnterOne(m, AfterEntries(m, p, ids[..|ids| - 1], ev), ids[|ids| - 1], ev) == AfterEntries(m, p, ids, ev)
  {
    var front, x := ids[..|ids| - 1], ids[|ids| - 1];
    var (ctx, raised) := RunEntries(m, front, p.ctx, ev);
    var (_, more) := RunActions(EntryActions(m, x), ctx, ev);
    assert (p.internal + raised) + more == p.internal + (raised + more);
    assert p.timers + AllTimers(m, front) + TimersOf(m, x) == p.timers + AllTimers(m, ids);
    assert (p.log + Entries(front)) + [Entry(x)] == p.log + Entries(ids);
  }

  /** Exiting states one at a time, field by field. */
  lemma {:induction false} ExitEachParts<C>(m: Machine<C>, p: Part<C>, ids: seq<StateID>, ev: Event)
    ensures ExitEach(m, p, ids, ev) == AfterExits(m, p, ids, ev)
  {
    if ids == [] {
      assert p.internal + [] == p.internal && p.log + [] == p.log && p.timers - {} == p.timers;
    } else {
      ExitEachParts(m, p, ids[..|ids| - 1], ev);
      ExitOneMore(m, p, ids, ev);
    }
  }

  /** Entering states one at a time, field by field. */
  lemma {:induction false} EnterEachParts<C>(m: Machine<C>, p: Part<C>, ids: seq<StateID>, ev: Event)
    ensures EnterEach(m, p, ids, ev) == AfterEntries(m, p, ids, ev)
  {
    if ids == [] {
      assert p.internal + [] == p.internal && p.log + [] == p.log && p.timers + {} == p.timers;
    } else {
      EnterEachParts(m, p, ids[..|ids| - 1], ev);
      EnterOneMore(m, p, ids, ev);
    }
  }

  datatype Snapshot<C> = Snapshot(state: StateID, leaves: seq<StateID>, activeStates: seq<StateID>,
                                  previousState: StateID, context: C, event: Event, changed: bool,
                                  final: bool)

  /** Everything the interpreter owns. `timers` are the IDs under which timers are registered,
      `log` the entries and exits so far, `notified` the snapshots given to subscribers. */
  datatype Conf<C> = Conf(leaves: seq<StateID>, prev: StateID, ctx: C, internal: seq<Event>,
                          timers: set<string>, inv: Invocations, log: seq<Mark>,
                          snap: Snapshot<C>, notified: seq<Snapshot<C>>)

  datatype Pending<!C> = Pending(source: StateID, target: StateID, actions: seq<Action<C>>)

  function Hops<C>(pending: seq<Pending<C>>): seq<Hop> {
    if pending == [] then []
    else
      var p := pending[|pending| - 1];
      Hops(pending[..|pending| - 1]) + [Hop(p.source, p.target)]
  }

  function AllActions<C>(pending: seq<Pending<C>>): seq<Action<C>> {
    if pending == [] then []
    else AllActions(pending[..|pending| - 1]) + pending[|pending| - 1].actions
  }

  ghost predicate AllFinal(c: Chart, leaves: seq<StateID>) {
    leaves != [] && forall l :: l in leaves ==> c.IsFinal(l)
  }

  ghost function SnapshotOf<C>(m: Machine<C>, leaves: seq<StateID>, prev: StateID, ctx: C,
                               ev: Event, changed: bool): Snapshot<C>
    requires m.chart.Linked() && leaves != []
  {
    Snapshot(leaves[0], leaves, ActiveInOrder(m.chart, leaves, |m.chart.order|), prev, ctx, ev,
             changed, AllFinal(m.chart, leaves))
  }

  /** Exit, transition actions, new leaves, entry, raised events, done events, snapshot. */
  ghost function Micro<C>(m: Machine<C>, st: Conf<C>, ev: Event, pending: seq<Pending<C>>): Conf<C>
    requires WellFormed(m) && st.leaves != []
    requires NewLeaves(m.chart, st.leaves, Hops(pending)) != []
  {
    var c := m.chart;
    var hops := Hops(pending);
    var exits := ExitOrder(c, hops);
    var entries := EntryOrder(c, hops);
    var leaves := NewLeaves(c, st.leaves, hops);
    var (ctx1, onExit) := RunExits(m, exits, st.ctx, ev);
    var (ctx2, raised) := RunActions(AllActions(pending), ctx1, ev);
    var (ctx3, onEntry) := RunEntries(m, entries, ctx2, ev);
    var snap := SnapshotOf(m, leaves, st.leaves[0], ctx3, ev, true);
    Conf(leaves, st.leaves[0], ctx3,
         st.internal + onExit + onEntry + raised + DoneEvents(c, leaves, entries),
         st.timers - AllTimers(m, exits) + AllTimers(m, entries),
         StartAll(m, StopAll(st.inv, exits), entries),
         st.log + ExitMarks(exits) + Entries(entries),
         snap, st.notified + [snap])
  }

  function PartOf<C>(st: Conf<C>): Part<C> {
    Part(st.ctx, st.internal, st.timers, st.inv, st.log)
  }

  /** Exit states, run the transition actions, enter states, queue what the actions raised. */
  function Transit<C>(m: Machine<C>, p: Part<C>, ev: Event, acts: seq<Action<C>>,
                      exits: seq<StateID>, entries: seq<StateID>): Part<C>
  {
    var p1 := ExitEach(m, p, exits, ev);
    var (ctx2, raised) := RunActions(acts, p1.ctx, ev);
    var p3 := EnterEach(m, p1.(ctx := ctx2), entries, ev);
    p3.(internal := p3.internal + raised)
  }

  /** Done events and the snapshot for the new leaves, after a transit from `st`. */
  ghost function Published<C>(m: Machine<C>, st: Conf<C>, p: Part<C>, ev: Event, leaves: seq<StateID>,
                              entries: seq<StateID>): Conf<C>
    requires m.chart.Linked() && st.leaves != [] && leaves != []
  {
    var snap := SnapshotOf(m, leaves, st.leaves[0], p.ctx, ev, true);
    Conf(leaves, st.leaves[0], p.ctx, p.internal + DoneEvents(m.chart, leaves, entries),
         p.timers, p.inv, p.log, snap, st.notified + [snap])
  }

  /** A transit, then done events and the snapshot. */
  ghost function Performed<C>(m: Machine<C>, st: Conf<C>, ev: Event, acts: seq<Action<C>>,
                              exits: seq<StateID>, leaves: seq<StateID>, entries: seq<StateID>): Conf<C>
    requires m.chart.Linked() && st.leaves != [] && leaves != []
  {
    Published(m, st, Transit(m, PartOf(st), ev, acts, exits, entries), ev, leaves, entries)
  }

  /** A microstep, in the order in which it happens. */
  lemma MicroInSteps<C>(m: Machine<C>, st: Conf<C>, ev: Event, pending: seq<Pending<C>>)
    requires WellFormed(m) && st.leaves != []
    requires NewLeaves(m.chart, st.leaves, Hops(pending)) != []
    ensures var hops := Hops(pending);
      Micro(m, st, ev, pending) ==
        Performed(m, st, ev, AllActions(pending), ExitOrder(m.chart, hops),
                  NewLeaves(m.chart, st.leaves, hops), EntryOrder(m.chart, hops))
  {
    var hops := Hops(pending);
    var p1 := ExitEach(m, PartOf(st), ExitOrder(m.chart, hops), ev);
    var (ctx2, raised) := RunActions(AllActions(pending), p1.ctx, ev);
    ExitEachParts(m, PartOf(st), ExitOrder(m.chart, hops), ev);
    EnterEachParts(m, p1.(ctx := ctx2), EntryOrder(m.chart, hops), ev);
  }

  /** The enabled transitions of the leaves, at most one per leaf. */
  ghost function Enabled<C>(m: Machine<C>, leaves: seq<StateID>, ctx: C, ev: Event): seq<Pending<C>>
    requires WellFormed(m)
  {
    if leaves == [] then []
    else
      var front := Enabled(m, leaves[..|leaves| - 1], ctx, ev);
      var leaf := leaves[|leaves| - 1];
      var r := Resolve(m, leaf, ctx, ev);
      if leaf in leaves[..|leaves| - 1] || r.None? then front
      else front + [Pending(leaf, r.value.target, r.value.actions)]
  }

  ghost function EnabledNull<C>(m: Machine<C>, leaves: seq<StateID>, ctx: C): seq<Pending<C>>
    requires WellFormed(m)
  {
    if leaves == [] then []
    else
      var front := EnabledNull(m, leaves[..|leaves| - 1], ctx);
      var leaf := leaves[|leaves| - 1];
      var r := ResolveNull(m, leaf, ctx);
      if leaf in leaves[..|leaves| - 1] || r.None? then front
      else front + [Pending(leaf, r.value.target, r.value.actions)]
  }

  const NO_INVOKES := Invocations(map[], 0, {})

  /** The state a service starts in. */
  ghost function StartConf<C>(m: Machine<C>): Conf<C>
    requires WellFormed(m)
  {
    var c := m.chart;
    var leaves := LeafTargets(c, m.initial);
    LeafTargetFirst(c, m.initial);
    var entries := Dedup(EntryPaths(c, ROOT, leaves));
    EnteredConf(m, leaves, entries, RunEntries(m, entries, m.context, INIT))
  }

  /** The state after initial entry, given the context and the events that its actions yield. */
  ghost function EnteredConf<C>(m: Machine<C>, leaves: seq<StateID>, entries: seq<StateID>, r: (C, seq<Event>)): Conf<C>
    requires m.chart.Linked() && leaves != []
  {
    Conf(leaves, ROOT, r.0, r.1 + DoneEvents(m.chart, leaves, entries),
         AllTimers(m, entries), StartAll(m, NO_INVOKES, entries), Entries(entries),
         SnapshotOf(m, leaves, ROOT, r.0, INIT, false), [])
  }

  /** The state a restored service starts in: no entry actions, fresh timers and invokes. The
      log is taken to record the entries that the saved service made. */
  ghost function RestoreConf<C>(m: Machine<C>, leaves: seq<StateID>, ctx: C): Conf<C>
    requires WellFormed(m) && leaves != []
  {
    var active := ActiveInOrder(m.chart, leaves, |m.chart.order|);
    Conf(leaves, ROOT, ctx, [], AllTimers(m, active), StartAll(m, NO_INVOKES, active),
         Entries(active), SnapshotOf(m, leaves, ROOT, ctx, INIT, false), [])
  }
}
