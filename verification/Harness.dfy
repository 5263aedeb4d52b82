/** The test harness: the interpreter without goroutines. Its state is always the one that the
    functions of modules Interpreter and Flushing give for the events it has been sent. */
module Harnesses {
  import opened Seqs
  import opened Charts
  import opened Navigation
  import opened Configurations
  import opened Steps
  import opened Machines
  import opened TimerNames
  import opened Interpreter
  import opened Runs
  import opened Engine
  import opened Flushing
  import opened HarnessTimers
  import opened Services

  datatype StepRecord<C> = StepRecord(event: Event, from: StateID, to: StateID, context: C)

  /** What the harness records of a step that the service publishes as a snapshot. */
  function StepsOf<C>(notified: seq<Snapshot<C>>): seq<StepRecord<C>> {
    if notified == [] then []
    else
      var s := notified[|notified| - 1];
      StepsOf(notified[..|notified| - 1]) + [StepRecord(s.event, s.previousState, s.state, s.context)]
  }

  lemma StepsSnoc<C>(notified: seq<Snapshot<C>>, s: Snapshot<C>)
    ensures StepsOf(notified + [s]) == StepsOf(notified) + [StepRecord(s.event, s.previousState, s.state, s.context)]
  {
    assert (notified + [s])[..|notified|] == notified;
  }

  lemma PublishedParts<C>(m: Machine<C>, st: Conf<C>, p: Part<C>, ev: Event, leaves: seq<StateID>, entries: seq<StateID>)
    requires m.chart.Linked() && st.leaves != [] && leaves != []
    ensures var r := Published(m, st, p, ev, leaves, entries);
      && r.leaves == leaves && r.prev == st.leaves[0] && r.ctx == p.ctx && r.timers == p.timers && r.inv == p.inv
      && r.internal == p.internal + DoneEvents(m.chart, leaves, entries)
      && StepsOf(r.notified) == StepsOf(st.notified) + [StepRecord(ev, st.leaves[0], leaves[0], p.ctx)]
  {
    StepsSnoc(st.notified, SnapshotOf(m, leaves, st.leaves[0], p.ctx, ev, true));
  }

  /** Stepping and flushing each event in turn, and how many of them caused a transition. */
  ghost function TickRun<C>(m: Machine<C>, sent: seq<Event>, events: seq<Event>): nat
    requires WellFormed(m)
    decreases |events|
  {
    if events == [] || HarnessRun(m, sent).None? then 0
    else
      var st := HarnessRun(m, sent).value;
      (if Enabled(m, st.leaves, st.ctx, events[0]) != [] then 1 else 0)
      + TickRun(m, sent + [events[0]], events[1..])
  }

  ghost predicate RightTimer<C>(m: Machine<C>, entered: map<StateID, int>, t: Timer) {
    exists s, i :: HasTimer(m, s, i, t.id) && s in entered
      && t.fireAt == entered[s] + m.rules[s].afters[i].delay && t.event == Event("statecraft.after." + t.id, [])
  }

  /** The timer that a delayed transition starts. */
  function TimerOf<C>(a: After<C>, now: int): Timer {
    Timer(a.timerID, now + a.delay, Event("statecraft.after." + a.timerID, []), false)
  }

  ghost predicate StartedNow<C>(m: Machine<C>, id: StateID, now: int, t: Timer) {
    exists i :: HasTimer(m, id, i, t.id) && t == TimerOf(m.rules[id].afters[i], now)
  }

  /** Entering a state leaves the timers right. */
  lemma EnteredOK<C>(m: Machine<C>, entered: map<StateID, int>, id: StateID, now: int, before: seq<Timer>, after: seq<Timer>)
    requires forall t :: t in before && !t.cancelled ==> RightTimer(m, entered, t)
    requires forall t :: t in after && !t.cancelled ==>
      (t in before && forall i :: !HasTimer(m, id, i, t.id)) || StartedNow(m, id, now, t)
    ensures forall t :: t in after && !t.cancelled ==> RightTimer(m, entered[id := now], t)
  {
    forall t | t in after && !t.cancelled ensures RightTimer(m, entered[id := now], t) {
      if StartedNow(m, id, now, t) {
        var i :| HasTimer(m, id, i, t.id) && t == TimerOf(m.rules[id].afters[i], now);
      } else {
        assert RightTimer(m, entered, t);
        var s, i :| HasTimer(m, s, i, t.id) && s in entered
          && t.fireAt == entered[s] + m.rules[s].afters[i].delay && t.event == Event("statecraft.after." + t.id, []);
        assert s != id;
      }
    }
  }

  /** What can fire is what could before, but for the first `n` delayed transitions of the state,
      whose timers have been started. */
  ghost predicate Started<C>(m: Machine<C>, id: StateID, n: nat, now: int, before: seq<Timer>, after: seq<Timer>)
    requires id in m.rules && n <= |m.rules[id].afters|
  {
    forall t :: t in after && !t.cancelled ==>
      || (t in before && forall k :: 0 <= k < n ==> t.id != m.rules[id].afters[k].timerID)
      || StartedNow(m, id, now, t)
  }

  lemma StartedNext<C>(m: Machine<C>, id: StateID, n: nat, now: int, before: seq<Timer>, mid: seq<Timer>, after: seq<Timer>)
    requires id in m.rules && n < |m.rules[id].afters| && Started(m, id, n, now, before, mid)
    requires forall t :: t in after && !t.cancelled ==>
      (t in mid && t.id != m.rules[id].afters[n].timerID) || StartedNow(m, id, now, t)
    ensures Started(m, id, n + 1, now, before, after)
  {
  }

  lemma AllAfters<C>(m: Machine<C>, id: StateID, now: int, before: seq<Timer>, after: seq<Timer>)
    requires id in m.rules && Started(m, id, |m.rules[id].afters|, now, before, after)
    ensures forall t :: t in after && !t.cancelled ==>
      (t in before && forall i :: !HasTimer(m, id, i, t.id)) || StartedNow(m, id, now, t)
  {
  }

  /** Every timer of the state has been started. */
  lemma AllStarted<C>(m: Machine<C>, id: StateID, now: int, before: seq<Timer>, after: seq<Timer>)
    requires TimersOf(m, id) <= LiveIDsOf(after)
    requires forall t :: t in after && !t.cancelled ==>
      (t in before && forall i :: !HasTimer(m, id, i, t.id)) || StartedNow(m, id, now, t)
    ensures OwnTimers(m) ==> forall i, timerID :: HasTimer(m, id, i, timerID) ==>
      Timer(timerID, now + m.rules[id].afters[i].delay, Event("statecraft.after." + timerID, []), false) in after
  {
    if OwnTimers(m) {
      forall i, timerID | HasTimer(m, id, i, timerID)
        ensures Timer(timerID, now + m.rules[id].afters[i].delay, Event("statecraft.after." + timerID, []), false) in after
      {
        assert timerID in TimersOf(m, id);
        var t :| t in after && IsLive(t) && t.id == timerID;
        assert HasTimer(m, id, i, t.id);
        var k :| HasTimer(m, id, k, t.id) && t == TimerOf(m.rules[id].afters[k], now);
        assert k == i;
      }
    }
  }

  class Harness<C> {
    const machine: Machine<C>
    const scheduler: HarnessScheduler
    var leaves: seq<StateID>
    var prevLeaf: StateID
    var ctx: C
    var internal: seq<Event>
    var steps: seq<StepRecord<C>>
    var inv: Invocations
    ghost var sent: seq<Event>
    /** When each state was last entered. */
    ghost var entered: map<StateID, int>

    /** Every timer that can fire belongs to a state, is due its delay after that state was entered,
        and brings the event of its transition. */
    ghost predicate TimersOK()
      reads this`entered, scheduler
    {
      && scheduler.Valid()
      && forall t {:trigger RightTimer(machine, entered, t)} :: t in scheduler.pending && !t.cancelled ==>
           RightTimer(machine, entered, t)
    }

    ghost predicate Valid()
      reads this`leaves, this`entered, scheduler
    {
      WellFormed(machine) && LeafList(machine.chart, leaves) && TimersOK()
    }

    /** The harness is in interpreter state `st`. A timer that has fired is no longer pending here,
        though its state may still be active. */
    ghost predicate Tracks(st: Conf<C>)
      reads this`leaves, this`prevLeaf, this`ctx, this`internal, this`steps, this`inv, this`entered, scheduler`pending
    {
      && leaves == st.leaves && prevLeaf == st.prev && ctx == st.ctx && internal == st.internal
      && steps == StepsOf(st.notified) && inv == st.inv && scheduler.LiveIDs() <= st.timers
    }

    /** Between calls: settled in the state that the events sent so far lead to. */
    ghost predicate Settled()
      reads this, scheduler
    {
      Valid() && HarnessRun(machine, sent).Some? && Tracks(HarnessRun(machine, sent).value)
    }

    ghost predicate TracksPart(p: Part<C>)
      reads this`ctx, this`internal, this`inv, this`entered, scheduler`pending
    {
      ctx == p.ctx && internal == p.internal && inv == p.inv && scheduler.LiveIDs() <= p.timers
    }

    /** The fields a harness starts with, before anything is entered. */
    constructor Fresh(m: Machine<C>, leaves: seq<StateID>)
      requires WellFormed(m) && LeafList(m.chart, leaves)
      ensures machine == m && fresh(scheduler) && Valid() && this.leaves == leaves && prevLeaf == ROOT
      ensures ctx == m.context && internal == [] && steps == [] && scheduler.LiveIDs() == {}
      ensures inv == NO_INVOKES && sent == []
    {
      machine, this.leaves, prevLeaf, ctx, internal, steps := m, leaves, ROOT, m.context, [], [];
      scheduler := new HarnessScheduler();
      inv, sent, entered := NO_INVOKES, [], map[];
    }

    // -------------------------------------------------------------- lifecycle helpers

    /** Starts the timers of a state. Of the timers that can fire, those of the state are due after
        their delays, with the events of their transitions, and no other has changed. */
    method StartStateTimers(id: StateID)
      requires scheduler.Valid()
      modifies scheduler`pending
      ensures scheduler.Valid() && scheduler.LiveIDs() == old(scheduler.LiveIDs()) + TimersOf(machine, id)
      ensures forall t :: t in scheduler.pending && !t.cancelled ==>
        || (t in old(scheduler.pending) && forall i :: !HasTimer(machine, id, i, t.id))
        || StartedNow(machine, id, scheduler.now, t)
      ensures OwnTimers(machine) ==> forall i, timerID :: HasTimer(machine, id, i, timerID) ==>
        Timer(timerID, scheduler.now + machine.rules[id].afters[i].delay, Event("statecraft.after." + timerID, []), false)
          in scheduler.pending
    {
      if id !in machine.rules {
        assert forall i, timerID :: !HasTimer(machine, id, i, timerID);
        return;
      }
      StartAfters(id);
      AllStarted(machine, id, scheduler.now, old(scheduler.pending), scheduler.pending);
    }

    method StartAfters(id: StateID)
      requires scheduler.Valid() && id in machine.rules
      modifies scheduler`pending
      ensures scheduler.Valid() && scheduler.LiveIDs() == old(scheduler.LiveIDs()) + TimersOf(machine, id)
      ensures forall t :: t in scheduler.pending && !t.cancelled ==>
        || (t in old(scheduler.pending) && forall i :: !HasTimer(machine, id, i, t.id))
        || StartedNow(machine, id, scheduler.now, t)
    {
      var afters := machine.rules[id].afters;
      for i := 0 to |afters|
        invariant scheduler.Valid()
        invariant scheduler.LiveIDs() == old(scheduler.LiveIDs()) + set k | 0 <= k < i :: afters[k].timerID
        invariant Started(machine, id, i, scheduler.now, old(scheduler.pending), scheduler.pending)
      {
        ghost var mid := scheduler.pending;
        StartAfter(id, i);
        StartedNext(machine, id, i, scheduler.now, old(scheduler.pending), mid, scheduler.pending);
      }
      AllAfters(machine, id, scheduler.now, old(scheduler.pending), scheduler.pending);
    }

    /** Starts one timer. */
    method StartAfter(id: StateID, i: nat)
      requires scheduler.Valid() && id in machine.rules && i < |machine.rules[id].afters|
      modifies scheduler`pending
      ensures scheduler.Valid()
      ensures scheduler.LiveIDs() == old(scheduler.LiveIDs()) + {machine.rules[id].afters[i].timerID}
      ensures forall t :: t in scheduler.pending && !t.cancelled ==>
        || (t in old(scheduler.pending) && t.id != machine.rules[id].afters[i].timerID)
        || StartedNow(machine, id, scheduler.now, t)
    {
      var a := machine.rules[id].afters[i];
      scheduler.Start(a.timerID, a.delay, E(AfterEventType(a.timerID)));
      assert HasTimer(machine, id, i, a.timerID) && StartedNow(machine, id, scheduler.now, TimerOf(a, scheduler.now));
    }

    method StopStateTimers(id: StateID)
      requires scheduler.Valid()
      modifies scheduler`pending
      ensures scheduler.Valid() && scheduler.LiveIDs() == old(scheduler.LiveIDs()) - TimersOf(machine, id)
      ensures forall t :: t in scheduler.pending && !t.cancelled ==> t in old(scheduler.pending)
    {
      if id !in machine.rules {
        return;
      }
      var afters := machine.rules[id].afters;
      for i := 0 to |afters|
        invariant scheduler.Valid()
        invariant scheduler.LiveIDs() == old(scheduler.LiveIDs()) - set k | 0 <= k < i :: afters[k].timerID
        invariant forall t :: t in scheduler.pending && !t.cancelled ==> t in old(scheduler.pending)
      {
        scheduler.Cancel(afters[i].timerID);
      }
    }

    /** One fresh cancellable context per invoke function. */
    method StartStateInvokes(id: StateID)
      modifies this`inv
      ensures inv == StartInvokes(old(inv), id, InvokesOf(machine, id))
    {
      for i := 0 to InvokesOf(machine, id)
        invariant inv == StartInvokes(old(inv), id, i)
      {
        inv := Invocations(inv.held[id := HeldBy(inv, id) + [inv.next]], inv.next + 1, inv.cancelled);
      }
    }

    method StopStateInvokes(id: StateID)
      modifies this`inv
      ensures inv == StopInvokes(old(inv), id)
    {
      var cancels := HeldBy(inv, id);
      for i := 0 to |cancels|
        invariant inv == old(inv).(cancelled := old(inv).cancelled + set h | h in cancels[..i])
      {
        assert cancels[..i + 1] == cancels[..i] + [cancels[i]];
        inv := inv.(cancelled := inv.cancelled + {cancels[i]});
      }
      assert cancels[..|cancels|] == cancels;
      inv := inv.(held := inv.held - {id});
    }

    method ExitState(id: StateID, ev: Event, ghost p: Part<C>)
      requires TimersOK() && TracksPart(p)
      modifies this`ctx, this`internal, this`inv, this`entered, scheduler`pending
      ensures TimersOK() && TracksPart(ExitOne(machine, p, id, ev))
    {
      var c, raised, cs, rs := RunActionList(ExitActions(machine, id), ctx, ev);
      ctx, internal := c, internal + raised;
      StopStateTimers(id);
      StopStateInvokes(id);
    }

    method EnterState(id: StateID, ev: Event, ghost p: Part<C>)
      requires TimersOK() && TracksPart(p)
      modifies this`ctx, this`internal, this`inv, this`entered, scheduler`pending
      ensures TimersOK() && TracksPart(EnterOne(machine, p, id, ev))
    {
      var c, raised, cs, rs := RunActionList(EntryActions(machine, id), ctx, ev);
      ctx, internal := c, internal + raised;
      StartStateInvokes(id);
      StartStateTimers(id);
      EnteredOK(machine, entered, id, scheduler.now, old(scheduler.pending), scheduler.pending);
      entered := entered[id := scheduler.now];
    }

    method ExitStates(order: seq<StateID>, ev: Event, ghost p: Part<C>)
      requires TimersOK() && TracksPart(p)
      modifies this`ctx, this`internal, this`inv, this`entered, scheduler`pending
      ensures TimersOK() && TracksPart(ExitEach(machine, p, order, ev))
    {
      for i := 0 to |order|
        invariant TimersOK() && TracksPart(ExitEach(machine, p, order[..i], ev))
      {
        assert order[..i + 1][..i] == order[..i];
        ExitState(order[i], ev, ExitEach(machine, p, order[..i], ev));
      }
      assert order[..|order|] == order;
    }

    method EnterStates(order: seq<StateID>, ev: Event, ghost p: Part<C>)
      requires TimersOK() && TracksPart(p)
      modifies this`ctx, this`internal, this`inv, this`entered, scheduler`pending
      ensures TimersOK() && TracksPart(EnterEach(machine, p, order, ev))
    {
      for i := 0 to |order|
        invariant TimersOK() && TracksPart(EnterEach(machine, p, order[..i], ev))
      {
        assert order[..i + 1][..i] == order[..i];
        EnterState(order[i], ev, EnterEach(machine, p, order[..i], ev));
      }
      assert order[..|order|] == order;
    }

    // -------------------------------------------------------------- microsteps

    method TransitTo(ev: Event, acts: seq<Action<C>>, exitOrder: seq<StateID>, newLeaves: seq<StateID>,
                     entryOrder: seq<StateID>, ghost p: Part<C>)
      requires TimersOK() && leaves != [] && TracksPart(p)
      modifies this`leaves, this`prevLeaf, this`ctx, this`internal, this`inv, this`entered, scheduler`pending
      ensures TimersOK() && leaves == newLeaves && prevLeaf == old(leaves)[0]
      ensures TracksPart(Transit(machine, p, ev, acts, exitOrder, entryOrder))
    {
      var prevLeaves := leaves;
      ExitStates(exitOrder, ev, p);
      ghost var p1 := ExitEach(machine, p, exitOrder, ev);
      var c2, raised, cs, rs := RunActionList(acts, ctx, ev);
      ctx := c2;
      prevLeaf := prevLeaves[0];
      leaves := newLeaves;
      EnterStates(entryOrder, ev, p1.(ctx := c2));
      internal := internal + raised;
    }

    /** Done events, then the record of the step. */
    method Publish(ev: Event, entryOrder: seq<StateID>, ghost st: Conf<C>, ghost p: Part<C>)
      requires WellFormed(machine) && LeafList(machine.chart, leaves) && TracksPart(p)
      requires forall s :: s in entryOrder ==> s in machine.chart.nodes
      requires st.leaves != [] && prevLeaf == st.leaves[0] && steps == StepsOf(st.notified)
      modifies this`internal, this`steps
      ensures Tracks(Published(machine, st, p, ev, leaves, entryOrder))
    {
      var done := RaiseDoneEvents(machine.chart, leaves, entryOrder);
      internal := internal + done;
      PublishedParts(machine, st, p, ev, leaves, entryOrder);
      steps := steps + [StepRecord(ev, prevLeaf, leaves[0], ctx)];
    }

    method Perform(ev: Event, acts: seq<Action<C>>, exitOrder: seq<StateID>, newLeaves: seq<StateID>,
                   entryOrder: seq<StateID>, ghost st: Conf<C>)
      requires Valid() && LeafList(machine.chart, newLeaves) && Tracks(st)
      requires forall s :: s in entryOrder ==> s in machine.chart.nodes
      modifies this`leaves, this`prevLeaf, this`ctx, this`internal, this`steps, this`inv, this`entered, scheduler`pending
      ensures Valid() && Tracks(Performed(machine, st, ev, acts, exitOrder, newLeaves, entryOrder))
    {
      TransitTo(ev, acts, exitOrder, newLeaves, entryOrder, PartOf(st));
      Publish(ev, entryOrder, st, Transit(machine, PartOf(st), ev, acts, exitOrder, entryOrder));
    }

    method ApplyTransitions(ev: Event, pending: seq<Pending<C>>, ghost st: Conf<C>)
      requires Valid() && Tracks(st) && HopsFor(machine.chart, leaves, Hops(pending))
      requires NewLeaves(machine.chart, leaves, Hops(pending)) != []
      modifies this`leaves, this`prevLeaf, this`ctx, this`internal, this`steps, this`inv, this`entered, scheduler`pending
      ensures Valid() && Tracks(Micro(machine, st, ev, pending))
    {
      ghost var hops := Hops(pending);
      NewLeafList(machine.chart, leaves, hops);
      EntryOrderDeclared(machine.chart, hops);
      MicroInSteps(machine, st, ev, pending);
      var infos := InspectAll(machine.chart, leaves, pending);
      var exitOrder := UnifiedExits(machine.chart, infos, hops);
      var newLeaves := ReplaceLeaves(machine.chart, leaves, infos, hops);
      var entryOrder := UnifiedEntries(machine.chart, infos, hops);
      Perform(ev, AllActions(pending), exitOrder, newLeaves, entryOrder, st);
    }

    method Step(ev: Event, ghost st: Conf<C>) returns (fired: bool)
      requires Valid() && Tracks(st)
      modifies this`leaves, this`prevLeaf, this`ctx, this`internal, this`steps, this`inv, this`entered, scheduler`pending
      ensures Valid() && Tracks(Next(machine, st, Move.Step(ev)))
      ensures fired <==> Enabled(machine, st.leaves, st.ctx, ev) != []
    {
      var pending := CollectEnabled(machine, leaves, ctx, ev);
      NextCases(machine, st, Move.Step(ev));
      if |pending| == 0 {
        return false;
      }
      ApplyTransitions(ev, pending, st);
      return true;
    }

    /** The always transition of the first leaf that has one. */
    method FindAlways() returns (pending: seq<Pending<C>>)
      requires Valid()
      ensures pending == var all := EnabledNull(machine, leaves, ctx); if all == [] then [] else [all[0]]
    {
      var covered: set<StateID> := {};
      for i := 0 to |leaves|
        invariant EnabledNull(machine, leaves[..i], ctx) == []
        invariant forall s :: s in covered ==> s in leaves[..i]
      {
        assert leaves[..i + 1][..i] == leaves[..i];
        assert leaves[..i + 1] == leaves[..i] + [leaves[i]];
        if leaves[i] !in covered {
          var r := ResolveAlways(machine, leaves[i], ctx);
          if r.Some? {
            pending := [Pending(leaves[i], r.value.target, r.value.actions)];
            NotSeen(machine, leaves, i, ctx);
            EnabledNullPrefix(machine, leaves, i + 1, ctx);
            return;
          }
          covered := covered + {leaves[i]};
        }
      }
      assert leaves[..|leaves|] == leaves;
      return [];
    }

    method StepAlways(ghost st: Conf<C>) returns (fired: bool)
      requires Valid() && Tracks(st)
      modifies this`leaves, this`prevLeaf, this`ctx, this`internal, this`steps, this`inv, this`entered, scheduler`pending
      ensures fired <==> EnabledNull(machine, st.leaves, st.ctx) != []
      ensures Valid() && Tracks(Next(machine, st, FirstNull))
    {
      var pending := FindAlways();
      NextCases(machine, st, FirstNull);
      if |pending| == 0 {
        return false;
      }
      ApplyTransitions(ALWAYS, pending, st);
      return true;
    }

    /** One iteration of the flush loop. */
    method FlushOnce(ghost st: Conf<C>) returns (settled: bool, ghost st': Conf<C>)
      requires Valid() && Tracks(st)
      modifies this`leaves, this`prevLeaf, this`ctx, this`internal, this`steps, this`inv, this`entered, scheduler`pending
      ensures Valid() && Tracks(st')
      ensures settled ==> st' == st && st.internal == [] && EnabledNull(machine, st.leaves, st.ctx) == []
      ensures !settled && st.internal != [] ==> st' == Next(machine, st, PopInternal)
      ensures !settled && st.internal == [] ==>
        EnabledNull(machine, st.leaves, st.ctx) != [] && st' == Next(machine, st, FirstNull)
    {
      if |internal| > 0 {
        var ev := internal[0];
        internal := internal[1..];
        PopIsStep(machine, st);
        var fired := Step(ev, st.(internal := st.internal[1..]));
        return false, Next(machine, st, PopInternal);
      }
      NothingFirst(machine, st);
      var fired := StepAlways(st);
      return !fired, Next(machine, st, FirstNull);
    }

    /** Settles the machine; false where the code panics. */
    method DoFlush(ghost st: Conf<C>) returns (ok: bool)
      requires Valid() && Tracks(st)
      modifies this`leaves, this`prevLeaf, this`ctx, this`internal, this`steps, this`inv, this`entered, scheduler`pending
      ensures Valid() && (ok <==> Flush(machine, st, MAX_FLUSH_ITER).Some?)
      ensures ok ==> Tracks(Flush(machine, st, MAX_FLUSH_ITER).value)
    {
      ghost var cur := st;
      for i := 0 to MAX_FLUSH_ITER
        invariant Valid() && Tracks(cur)
        invariant Flush(machine, cur, MAX_FLUSH_ITER - i) == Flush(machine, st, MAX_FLUSH_ITER)
      {
        var settled;
        settled, cur := FlushOnce(cur);
        if settled {
          return true;
        }
      }
      return false;
    }

    /** Initial entry: entry actions and timers, then done events. */
    method EnterInitial()
      requires Valid() && leaves == StartConf(machine).leaves && prevLeaf == ROOT && ctx == machine.context
      requires internal == [] && steps == [] && scheduler.LiveIDs() == {} && inv == NO_INVOKES
      modifies this`ctx, this`internal, this`inv, this`entered, scheduler`pending
      ensures Valid() && Tracks(StartConf(machine))
    {
      InitialEntryDeclared(machine.chart, machine.initial);
      var initEntry := UnifiedEntryPaths(machine.chart, ROOT, leaves);
      StartInSteps(machine);
      EnterAll(initEntry);
    }

    /** Entry actions, invokes and timers of the states in order, then their done events. */
    method EnterAll(initEntry: seq<StateID>)
      requires Valid() && forall s :: s in initEntry ==> s in machine.chart.nodes
      requires internal == [] && scheduler.LiveIDs() == {} && inv == NO_INVOKES
      modifies this`ctx, this`internal, this`inv, this`entered, scheduler`pending
      ensures TimersOK()
      ensures var p := EnterEach(machine, Part(old(ctx), [], {}, NO_INVOKES, []), initEntry, INIT);
        && ctx == p.ctx && internal == p.internal + DoneEvents(machine.chart, leaves, initEntry)
        && inv == p.inv && scheduler.LiveIDs() <= p.timers
    {
      EnterStates(initEntry, INIT, Part(ctx, [], {}, NO_INVOKES, []));
      var done := RaiseDoneEvents(machine.chart, leaves, initEntry);
      internal := internal + done;
    }

    // -------------------------------------------------------------- public methods

    /** True when the event caused a transition. `ok` is false where the code panics. */
    method Send(ev: Event) returns (changed: bool, ok: bool)
      requires Settled()
      modifies this, scheduler`pending
      ensures sent == old(sent) + [ev] && (ok <==> HarnessRun(machine, sent).Some?)
      ensures ok ==> Settled()
      ensures var before := HarnessRun(machine, old(sent)).value;
        changed <==> Enabled(machine, before.leaves, before.ctx, ev) != []
    {
      ghost var st := HarnessRun(machine, sent).value;
      changed := Step(ev, st);
      ok := DoFlush(Next(machine, st, Move.Step(ev)));
      sent := sent + [ev];
      assert sent[..|sent| - 1] == old(sent);
    }

    /** Advances the clock and sends what fires, in chronological order. */
    method Tick(d: int) returns (count: nat, ok: bool, ghost fired: seq<Timer>, ghost left: seq<Timer>)
      requires Settled()
      modifies this, scheduler
      ensures Advanced(old(scheduler.pending), old(scheduler.now), d, fired, left, scheduler.now)
      ensures ok <==> HarnessRun(machine, old(sent) + EventsOf(fired)).Some?
      ensures ok ==> sent == old(sent) + EventsOf(fired) && Settled()
      ensures ok ==> count == TickRun(machine, old(sent), EventsOf(fired))
    {
      var events;
      events, fired := scheduler.Advance(d);
      left := scheduler.pending;
      count, ok := SendAll(events);
    }

    /** Sends one event of a list. */
    method SendAt(events: seq<Event>, i: nat, ghost start: seq<Event>) returns (changed: bool, ok: bool)
      requires Settled() && i < |events| && sent == start + events[..i]
      modifies this, scheduler`pending
      ensures ok ==> Settled() && sent == start + events[..i + 1]
      ensures !ok ==> HarnessRun(machine, start + events).None?
      ensures ok ==>
        TickRun(machine, old(sent), events[i..]) == (if changed then 1 else 0) + TickRun(machine, sent, events[i + 1..])
    {
      SendNext(machine, start, events, i);
      changed, ok := Send(events[i]);
    }

    /** Sends the events one after the other, counting those that cause a transition. */
    method SendAll(events: seq<Event>) returns (count: nat, ok: bool)
      requires Settled()
      modifies this, scheduler`pending
      ensures ok <==> HarnessRun(machine, old(sent) + events).Some?
      ensures ok ==> sent == old(sent) + events && Settled()
      ensures ok ==> count == TickRun(machine, old(sent), events)
    {
      count, ok := 0, true;
      assert events[0..] == events && old(sent) + events[..0] == old(sent);
      for i := 0 to |events|
        invariant Settled() && sent == old(sent) + events[..i]
        invariant count + TickRun(machine, sent, events[i..]) == TickRun(machine, old(sent), events)
      {
        var changed;
        changed, ok := SendAt(events, i, old(sent));
        if !ok {
          return;
        }
        if changed {
          count := count + 1;
        }
      }
      ok := true;
      assert events[..|events|] == events;
    }
  }

  /** A harness that has panicked takes no further events. */
  lemma {:induction false} PanicsStay<C>(m: Machine<C>, sent: seq<Event>, more: seq<Event>)
    requires WellFormed(m) && HarnessRun(m, sent).None?
    ensures HarnessRun(m, sent + more).None?
    decreases |more|
  {
    if more == [] {
      assert sent + more == sent;
    } else {
      PanicsStay(m, sent, more[..|more| - 1]);
      assert (sent + more)[..|sent + more| - 1] == sent + more[..|more| - 1];
    }
  }

  /** One more event of a list. */
  lemma SendNext<C>(m: Machine<C>, start: seq<Event>, events: seq<Event>, i: nat)
    requires WellFormed(m) && i < |events| && HarnessRun(m, start + events[..i]).Some?
    ensures start + events[..i] + [events[i]] == start + events[..i + 1]
    ensures var st := HarnessRun(m, start + events[..i]).value;
      TickRun(m, start + events[..i], events[i..]) ==
        (if Enabled(m, st.leaves, st.ctx, events[i]) != [] then 1 else 0)
        + TickRun(m, start + events[..i + 1], events[i + 1..])
    ensures HarnessRun(m, start + events[..i + 1]).None? ==> HarnessRun(m, start + events).None?
  {
    assert events[..i + 1] == events[..i] + [events[i]];
    assert start + events[..i] + [events[i]] == start + events[..i + 1];
    assert events[i..][1..] == events[i + 1..] && events[i..][0] == events[i];
    assert start + events[..i + 1] + events[i + 1..] == start + events;
    if HarnessRun(m, start + events[..i + 1]).None? {
      PanicsStay(m, start + events[..i + 1], events[i + 1..]);
    }
  }

  /** A harness in the machine's initial configuration, settled. */
  method NewHarness<C>(m: Machine<C>) returns (h: Harness<C>, ok: bool)
    requires WellFormed(m)
    ensures fresh(h) && fresh(h.scheduler) && h.machine == m && h.sent == []
    ensures (ok <==> HarnessRun(m, []).Some?) && (ok ==> h.Settled())
  {
    InitialEntryDeclared(m.chart, m.initial);
    h := new Harness.Fresh(m, LeafTargets(m.chart, m.initial));
    h.EnterInitial();
    ok := h.DoFlush(StartConf(m));
  }

  lemma StartInSteps<C>(m: Machine<C>)
    requires WellFormed(m)
    ensures var st := StartConf(m);
      var entries := Dedup(EntryPaths(m.chart, ROOT, st.leaves));
      var p := EnterEach(m, Part(m.context, [], {}, NO_INVOKES, []), entries, INIT);
      && st.prev == ROOT && st.ctx == p.ctx && st.timers == p.timers && st.inv == p.inv && st.notified == []
      && st.internal == p.internal + DoneEvents(m.chart, st.leaves, entries)
  {
    EnteredInSteps(m, Dedup(EntryPaths(m.chart, ROOT, StartConf(m).leaves)));
  }

  lemma EnteredInSteps<C>(m: Machine<C>, entries: seq<StateID>)
    ensures var p := EnterEach(m, Part(m.context, [], {}, NO_INVOKES, []), entries, INIT);
      && RunEntries(m, entries, m.context, INIT) == (p.ctx, p.internal)
      && p.timers == AllTimers(m, entries) && p.inv == StartAll(m, NO_INVOKES, entries)
  {
    EnterEachParts(m, Part(m.context, [], {}, NO_INVOKES, []), entries, INIT);
    var raised := RunEntries(m, entries, m.context, INIT).1;
    assert [] + raised == raised;
  }

  /** Taking a raised event is stepping it with the event off the queue. */
  lemma PopIsStep<C>(m: Machine<C>, st: Conf<C>)
    requires WellFormed(m) && LeafList(m.chart, st.leaves) && st.internal != []
    ensures Next(m, st, PopInternal) == Next(m, st.(internal := st.internal[1..]), Move.Step(st.internal[0]))
  {
    NextIs(m, st, PopInternal);
    NextIs(m, st.(internal := st.internal[1..]), Move.Step(st.internal[0]));
  }

  lemma NothingFirst<C>(m: Machine<C>, st: Conf<C>)
    requires WellFormed(m) && LeafList(m.chart, st.leaves)
    ensures EnabledNull(m, st.leaves, st.ctx) == [] ==> Next(m, st, FirstNull) == st
  {
    NextIs(m, st, FirstNull);
  }

  lemma NotSeen<C>(m: Machine<C>, leaves: seq<StateID>, i: nat, ctx: C)
    requires WellFormed(m) && i < |leaves| && EnabledNull(m, leaves[..i], ctx) == []
    requires ResolveNull(m, leaves[i], ctx).Some?
    ensures var t := ResolveNull(m, leaves[i], ctx).value;
      EnabledNull(m, leaves[..i + 1], ctx) == [Pending(leaves[i], t.target, t.actions)]
  {
    assert leaves[..i + 1][..i] == leaves[..i];
    if leaves[i] in leaves[..i] {
      NoneEnabled(m, leaves[..i], ctx, leaves[i]);
    }
  }

  lemma {:induction false} NoneEnabled<C>(m: Machine<C>, leaves: seq<StateID>, ctx: C, l: StateID)
    requires WellFormed(m) && EnabledNull(m, leaves, ctx) == [] && l in leaves
    ensures ResolveNull(m, l, ctx).None?
  {
    if l in leaves[..|leaves| - 1] {
      NoneEnabled(m, leaves[..|leaves| - 1], ctx, l);
    }
  }

  lemma {:induction false} EnabledNullPrefix<C>(m: Machine<C>, leaves: seq<StateID>, n: nat, ctx: C)
    requires WellFormed(m) && n <= |leaves|
    ensures EnabledNull(m, leaves[..n], ctx) <= EnabledNull(m, leaves, ctx)
    decreases |leaves| - n
  {
    if n == |leaves| {
      assert leaves[..n] == leaves;
    } else {
      EnabledNullPrefix(m, leaves, n + 1, ctx);
      assert leaves[..n + 1][..n] == leaves[..n];
    }
  }
}
