/** The service: the interpreter's mutable state and its methods, each proved to do what the
    functions of module Interpreter say. */
module Services {
  import opened Seqs
  import opened Charts
  import opened Navigation
  import opened Configurations
  import opened Steps
  import opened Machines
  import opened TimerNames
  import opened Interpreter
  import opened Threads
  import opened Orders
  import opened Runs
  import opened Engine
  import opened RunLoop
  import opened Scheduling

  datatype SendResult = Sent | ErrActorStopped | ErrMailboxFull

  datatype RestoreResult<C> = Restored(service: Service<C>) | ErrInvalidCheckpoint

  /** A good state and transitions that keep it good, on a machine whose timers have IDs of their own. */
  ghost predicate Sound<C>(m: Machine<C>, st: Conf<C>, pending: seq<Pending<C>>)
    requires m.chart.Linked()
  {
    && OwnTimers(m) && Good(m, st)
    && JointStep(m.chart, st.leaves, Hops(pending)) && InOrder(m.chart, Hops(pending))
  }

  /** The timer of some delayed transition: its ID, its delay and its event. */
  ghost predicate RightJob<C>(m: Machine<C>, job: Job) {
    exists s, i :: HasTimer(m, s, i, job.id)
      && job.delay == m.rules[s].afters[i].delay && job.event == Event("statecraft.after." + job.id, [])
  }

  class Service<C> {
    const machine: Machine<C>
    const scheduler: Scheduler
    const mailboxSize: nat
    var leaves: seq<StateID>
    var previousLeaf: StateID
    var ctx: C
    var internal: seq<Event>
    var invokes: map<StateID, seq<nat>>
    var nextHandle: nat
    var cancelledHandles: set<nat>
    var snap: Snapshot<C>
    var mailbox: seq<Event>
    var stopRequested: bool
    var status: Status
    ghost var hist: History<C>
    ghost var log: seq<Mark>
    ghost var notified: seq<Snapshot<C>>

    /** Every timer ever started is one of the machine's, with its delay and its event. */
    ghost predicate TimersOK()
      reads scheduler
    {
      && scheduler.Valid()
      && forall e {:trigger RightJob(machine, scheduler.jobs[e])} :: 0 <= e < |scheduler.jobs| ==>
           RightJob(machine, scheduler.jobs[e])
    }

    /** Every delayed transition of an active state has its timer registered, with its delay and the
        event that the transition is declared for. */
    ghost predicate Armed()
      requires Intact()
      reads this`leaves, scheduler
    {
      forall s, i, id :: HasTimer(machine, s, i, id) && IsActive(machine.chart, leaves, s) ==>
        && id in scheduler.entries
        && scheduler.jobs[scheduler.entries[id]] ==
             Job(id, machine.rules[s].afters[i].delay, Event("statecraft.after." + id, []))
    }

    /** What the interpreter's own methods need and keep. */
    ghost predicate Intact()
      reads this`leaves, scheduler
    {
      && WellFormed(machine)
      && TimersOK()
      && LeafList(machine.chart, leaves)
    }

    /** What holds between calls: also, once the loop has ended no timer can fire any more. */
    ghost predicate Valid()
      reads this`leaves, this`status, scheduler
    {
      Intact() && (status != Running ==> forall e :: 0 <= e < |scheduler.cancelled| ==> scheduler.cancelled[e])
    }

    ghost function Inv(): Invocations
      reads this`invokes, this`nextHandle, this`cancelledHandles
    {
      Invocations(invokes, nextHandle, cancelledHandles)
    }

    ghost function View(): Conf<C>
      reads this`leaves, this`previousLeaf, this`ctx, this`internal, this`invokes, this`nextHandle,
        this`cancelledHandles, this`log, this`snap, this`notified, scheduler`entries
    {
      Conf(leaves, previousLeaf, ctx, internal, scheduler.entries.Keys, Inv(), log, snap,
           notified)
    }

    /** The whole service as a state of the step system. */
    ghost function System(): Sys<C>
      reads this, scheduler
    {
      Sys(View(), mailbox, scheduler.outCh, stopRequested, status, hist)
    }

    /** Fields an interpreter step never touches. */
    twostate predicate ChannelsKept()
      reads this, scheduler
    {
      && mailbox == old(mailbox) && scheduler.outCh == old(scheduler.outCh)
      && stopRequested == old(stopRequested) && status == old(status)
      && hist == old(hist)
    }

    lemma ScopedIsArmed()
      requires Intact() && OwnTimers(machine)
      requires TimersScoped(machine, scheduler.entries.Keys, Active(machine.chart, leaves))
      ensures Armed()
    {
      forall s, i, id | HasTimer(machine, s, i, id) && IsActive(machine.chart, leaves, s)
        ensures id in scheduler.entries
        ensures scheduler.jobs[scheduler.entries[id]] ==
          Job(id, machine.rules[s].afters[i].delay, Event("statecraft.after." + id, []))
      {
        assert s in Active(machine.chart, leaves) && id in TimersOf(machine, s);
        assert RightJob(machine, scheduler.jobs[scheduler.entries[id]]);
      }
    }

    // -------------------------------------------------------------- lifecycle helpers

    /** Runs the entry actions of a state in order, each on the context the one before it left. */
    method DoEntry(id: StateID, ev: Event) returns (ghost cs: seq<C>, ghost rs: seq<seq<Event>>)
      modifies this`ctx, this`internal
      ensures var (c, raised) := RunActions(EntryActions(machine, id), old(ctx), ev);
        ctx == c && internal == old(internal) + raised
      ensures id in machine.rules ==>
        && Thread(machine.rules[id].onEntry, ev, cs, rs) && cs[0] == old(ctx) && ctx == cs[|cs| - 1]
        && internal == old(internal) + Concat(rs)
    {
      var c, raised;
      c, raised, cs, rs := RunActionList(EntryActions(machine, id), ctx, ev);
      ctx, internal := c, internal + raised;
    }

    /** The same for its exit actions. */
    method DoExit(id: StateID, ev: Event) returns (ghost cs: seq<C>, ghost rs: seq<seq<Event>>)
      modifies this`ctx, this`internal
      ensures var (c, raised) := RunActions(ExitActions(machine, id), old(ctx), ev);
        ctx == c && internal == old(internal) + raised
      ensures id in machine.rules ==>
        && Thread(machine.rules[id].onExit, ev, cs, rs) && cs[0] == old(ctx) && ctx == cs[|cs| - 1]
        && internal == old(internal) + Concat(rs)
    {
      var c, raised;
      c, raised, cs, rs := RunActionList(ExitActions(machine, id), ctx, ev);
      ctx, internal := c, internal + raised;
    }

    method StartStateTimers(id: StateID)
      requires TimersOK()
      modifies scheduler
      ensures TimersOK() && scheduler.outCh == old(scheduler.outCh)
      ensures scheduler.entries.Keys == old(scheduler.entries.Keys) + TimersOf(machine, id)
    {
      if id !in machine.rules {
        return;
      }
      var afters := machine.rules[id].afters;
      for i := 0 to |afters|
        invariant TimersOK() && scheduler.outCh == old(scheduler.outCh)
        invariant scheduler.entries.Keys ==
          old(scheduler.entries.Keys) + set k | 0 <= k < i :: afters[k].timerID
      {
        assert HasTimer(machine, id, i, afters[i].timerID);
        scheduler.Start(afters[i].timerID, afters[i].delay, E(AfterEventType(afters[i].timerID)));
      }
    }

    method StopStateTimers(id: StateID)
      requires TimersOK()
      modifies scheduler
      ensures TimersOK() && scheduler.outCh == old(scheduler.outCh)
      ensures scheduler.entries.Keys == old(scheduler.entries.Keys) - TimersOf(machine, id)
    {
      if id !in machine.rules {
        return;
      }
      var afters := machine.rules[id].afters;
      for i := 0 to |afters|
        invariant scheduler.Valid() && scheduler.jobs == old(scheduler.jobs) && scheduler.outCh == old(scheduler.outCh)
        invariant scheduler.entries.Keys ==
          old(scheduler.entries.Keys) - set k | 0 <= k < i :: afters[k].timerID
      {
        scheduler.Cancel(afters[i].timerID);
      }
    }

    /** One fresh cancellable context per invoke function. */
    method DoInvokeEntry(id: StateID)
      modifies this`invokes, this`nextHandle
      ensures Inv() == StartInvokes(old(Inv()), id, InvokesOf(machine, id))
    {
      for i := 0 to InvokesOf(machine, id)
        invariant Inv() == StartInvokes(old(Inv()), id, i)
      {
        invokes := invokes[id := (if id in invokes then invokes[id] else []) + [nextHandle]];
        nextHandle := nextHandle + 1;
      }
    }

    method StopStateInvokes(id: StateID)
      modifies this`invokes, this`cancelledHandles
      ensures Inv() == StopInvokes(old(Inv()), id)
    {
      var cancels := if id in invokes then invokes[id] else [];
      for i := 0 to |cancels|
        invariant invokes == old(invokes)
        invariant cancelledHandles == old(cancelledHandles) + set h | h in cancels[..i]
      {
        assert cancels[..i + 1] == cancels[..i] + [cancels[i]];
        cancelledHandles := cancelledHandles + {cancels[i]};
      }
      assert cancels[..|cancels|] == cancels;
      invokes := invokes - {id};
      assert Inv().held == StopInvokes(old(Inv()), id).held;
      assert Inv().cancelled == StopInvokes(old(Inv()), id).cancelled;
    }

    ghost function ThePart(): Part<C>
      reads this`ctx, this`internal, this`invokes, this`nextHandle, this`cancelledHandles, this`log,
        scheduler`entries
    {
      Part(ctx, internal, scheduler.entries.Keys, Inv(), log)
    }

    method ExitState(id: StateID, ev: Event)
      requires TimersOK()
      modifies this`ctx, this`internal, this`invokes, this`cancelledHandles, this`log, scheduler
      ensures TimersOK() && scheduler.outCh == old(scheduler.outCh)
      ensures ThePart() == ExitOne(machine, old(ThePart()), id, ev)
    {
      ghost var cs, rs := DoExit(id, ev);
      StopStateTimers(id);
      StopStateInvokes(id);
      log := log + [Exit(id)];
    }

    method EnterState(id: StateID, ev: Event)
      requires TimersOK()
      modifies this`ctx, this`internal, this`invokes, this`nextHandle, this`log, scheduler
      ensures TimersOK() && scheduler.outCh == old(scheduler.outCh)
      ensures ThePart() == EnterOne(machine, old(ThePart()), id, ev)
    {
      ghost var cs, rs := DoEntry(id, ev);
      StartStateTimers(id);
      DoInvokeEntry(id);
      log := log + [Entry(id)];
    }

    method ExitStates(order: seq<StateID>, ev: Event)
      requires TimersOK()
      modifies this`ctx, this`internal, this`invokes, this`cancelledHandles, this`log, scheduler
      ensures TimersOK() && scheduler.outCh == old(scheduler.outCh)
      ensures ThePart() == ExitEach(machine, old(ThePart()), order, ev)
    {
      for i := 0 to |order|
        invariant TimersOK() && scheduler.outCh == old(scheduler.outCh)
        invariant ThePart() == ExitEach(machine, old(ThePart()), order[..i], ev)
      {
        assert order[..i + 1][..i] == order[..i];
        ExitState(order[i], ev);
      }
      assert order[..|order|] == order;
    }

    method EnterStates(order: seq<StateID>, ev: Event)
      requires TimersOK()
      modifies this`ctx, this`internal, this`invokes, this`nextHandle, this`log, scheduler
      ensures TimersOK() && scheduler.outCh == old(scheduler.outCh)
      ensures ThePart() == EnterEach(machine, old(ThePart()), order, ev)
    {
      for i := 0 to |order|
        invariant TimersOK() && scheduler.outCh == old(scheduler.outCh)
        invariant ThePart() == EnterEach(machine, old(ThePart()), order[..i], ev)
      {
        assert order[..i + 1][..i] == order[..i];
        EnterState(order[i], ev);
      }
      assert order[..|order|] == order;
    }

    // -------------------------------------------------------------- snapshots

    method StoreSnapshot(ev: Event, changed: bool)
      requires WellFormed(machine) && LeafList(machine.chart, leaves)
      modifies this`snap
      ensures snap == SnapshotOf(machine, leaves, previousLeaf, ctx, ev, changed)
      ensures snap.state == leaves[0] && snap.leaves == leaves && snap.previousState == previousLeaf
      ensures snap.context == ctx && snap.event == ev && snap.changed == changed
      ensures snap.final <==> forall i :: 0 <= i < |leaves| ==>
        leaves[i] in machine.chart.nodes && machine.chart.nodes[leaves[i]].final
    {
      var allFinal := |leaves| > 0;
      for i := 0 to |leaves|
        invariant allFinal
        invariant forall j :: 0 <= j < i ==> machine.chart.IsFinal(leaves[j])
      {
        if !machine.chart.IsFinal(leaves[i]) {
          allFinal := false;
          assert leaves[i] in leaves;
          break;
        }
      }
      var active := ConfigurationOf(machine.chart, leaves);
      snap := Snapshot(leaves[0], leaves, active, previousLeaf, ctx, ev, changed, allFinal);
    }

    // -------------------------------------------------------------- microsteps

    /** Exit, act, switch leaves, enter, raise. */
    method TransitTo(ev: Event, acts: seq<Action<C>>, exitOrder: seq<StateID>, newLeaves: seq<StateID>,
                     entryOrder: seq<StateID>)
      requires TimersOK() && leaves != []
      modifies this`leaves, this`previousLeaf, this`ctx, this`internal, this`invokes, this`nextHandle,
        this`cancelledHandles, this`log, scheduler
      ensures TimersOK() && scheduler.outCh == old(scheduler.outCh)
      ensures leaves == newLeaves && previousLeaf == old(leaves)[0]
      ensures ThePart() == Transit(machine, old(ThePart()), ev, acts, exitOrder, entryOrder)
    {
      var prevLeaves := leaves;
      ExitStates(exitOrder, ev);
      var c2, raised, cs, rs := RunActionList(acts, ctx, ev);
      ctx := c2;
      previousLeaf := prevLeaves[0];
      leaves := newLeaves;
      EnterStates(entryOrder, ev);
      internal := internal + raised;
    }

    /** Done events, then the snapshot, which goes to the subscribers. */
    method Publish(ev: Event, entryOrder: seq<StateID>, ghost st: Conf<C>, ghost p: Part<C>)
      requires WellFormed(machine) && LeafList(machine.chart, leaves)
      requires forall s :: s in entryOrder ==> s in machine.chart.nodes
      requires st.leaves != [] && previousLeaf == st.leaves[0] && notified == st.notified && ThePart() == p
      modifies this`internal, this`snap, this`notified
      ensures View() == Published(machine, st, p, ev, leaves, entryOrder)
    {
      var done := RaiseDoneEvents(machine.chart, leaves, entryOrder);
      internal := internal + done;
      StoreSnapshot(ev, true);
      notified := notified + [snap];
    }

    method Perform(ev: Event, acts: seq<Action<C>>, exitOrder: seq<StateID>, newLeaves: seq<StateID>,
                   entryOrder: seq<StateID>, ghost st: Conf<C>)
      requires WellFormed(machine) && TimersOK() && LeafList(machine.chart, newLeaves)
      requires st.leaves != [] && View() == st
      requires forall s :: s in entryOrder ==> s in machine.chart.nodes
      modifies this`leaves, this`previousLeaf, this`ctx, this`internal, this`invokes, this`nextHandle,
        this`cancelledHandles, this`log, this`snap, this`notified, scheduler
      ensures TimersOK() && scheduler.outCh == old(scheduler.outCh) && leaves == newLeaves
      ensures View() == Performed(machine, st, ev, acts, exitOrder, newLeaves, entryOrder)
    {
      TransitTo(ev, acts, exitOrder, newLeaves, entryOrder);
      Publish(ev, entryOrder, st, Transit(machine, PartOf(st), ev, acts, exitOrder, entryOrder));
    }

    /** One microstep, in the order in which the code goes about it. */
    method Apply(ev: Event, pending: seq<Pending<C>>, ghost st: Conf<C>)
      requires Intact() && View() == st && HopsFor(machine.chart, leaves, Hops(pending))
      requires NewLeaves(machine.chart, leaves, Hops(pending)) != []
      modifies this`leaves, this`previousLeaf, this`ctx, this`internal, this`invokes, this`nextHandle,
        this`cancelledHandles, this`log, this`snap, this`notified, scheduler
      ensures Intact() && scheduler.outCh == old(scheduler.outCh)
      ensures View() == Micro(machine, st, ev, pending)
    {
      ghost var hops := Hops(pending);
      NewLeafList(machine.chart, leaves, hops);
      EntryOrderDeclared(machine.chart, hops);
      MicroInSteps(machine, st, ev, pending);
      var infos := InspectAll(machine.chart, leaves, pending);
      var exitOrder := UnifiedExits(machine.chart, infos, hops);
      var newLeaves := ReplaceLeaves(machine.chart, leaves, infos, hops);
      var entryOrder := UnifiedEntries(machine.chart, infos, hops);
      Perform(ev, AllActions(pending), exitOrder, newLeaves, entryOrder, st);
    }

    /** The microstep touches nothing else of the service. */
    method ApplyTransitions(ev: Event, pending: seq<Pending<C>>, ghost st: Conf<C>)
      requires Intact() && View() == st && HopsFor(machine.chart, leaves, Hops(pending))
      requires NewLeaves(machine.chart, leaves, Hops(pending)) != []
      modifies this, scheduler
      ensures Intact() && ChannelsKept()
      ensures View() == Micro(machine, st, ev, pending)
      ensures Sound(machine, st, pending) ==> Armed()
    {
      Apply(ev, pending, st);
      SoundIsArmed(st, ev, pending);
    }

    /** A microstep of transitions that keep a good state good leaves every timer armed. */
    lemma SoundIsArmed(st: Conf<C>, ev: Event, pending: seq<Pending<C>>)
      requires Intact() && LeafList(machine.chart, st.leaves) && HopsFor(machine.chart, st.leaves, Hops(pending))
      requires NewLeaves(machine.chart, st.leaves, Hops(pending)) != [] && View() == Micro(machine, st, ev, pending)
      ensures Sound(machine, st, pending) ==> Armed()
    {
      if Sound(machine, st, pending) {
        OwnTimersApart(machine);
        MicroGood(machine, st, ev, pending);
        ScopedIsArmed();
      }
    }

    /** The enabled transitions of all leaves, then one microstep if there are any. */
    method Step(ev: Event)
      requires Intact()
      modifies this, scheduler
      ensures Intact() && ChannelsKept()
      ensures View() == Next(machine, old(View()), Move.Step(ev))
    {
      var pending := CollectEnabled(machine, leaves, ctx, ev);
      ghost var st := View();
      NextCases(machine, st, Move.Step(ev));
      if |pending| == 0 {
        return;
      }
      ApplyTransitions(ev, pending, st);
    }

    method CollectAlways() returns (pending: seq<Pending<C>>)
      requires Intact()
      ensures pending == EnabledNull(machine, leaves, ctx)
    {
      pending := [];
      var covered: set<StateID> := {};
      for i := 0 to |leaves|
        invariant pending == EnabledNull(machine, leaves[..i], ctx)
        invariant forall s :: s in covered ==> s in leaves[..i]
        invariant forall s :: s in leaves[..i] && s !in covered ==> ResolveNull(machine, s, ctx).None?
      {
        assert leaves[..i + 1][..i] == leaves[..i];
        assert leaves[..i + 1] == leaves[..i] + [leaves[i]];
        if leaves[i] !in covered {
          var r := ResolveAlways(machine, leaves[i], ctx);
          if r.Some? {
            pending := pending + [Pending(leaves[i], r.value.target, r.value.actions)];
            covered := covered + {leaves[i]};
          }
        }
      }
      assert leaves[..|leaves|] == leaves;
    }

    method ApplyAlways(pending: seq<Pending<C>>)
      requires Intact() && pending == EnabledNull(machine, leaves, ctx) && pending != []
      modifies this, scheduler
      ensures Intact() && ChannelsKept()
      ensures View() == Next(machine, old(View()), Null)
    {
      ghost var st := View();
      NextCases(machine, st, Null);
      ApplyTransitions(ALWAYS, pending, st);
    }

    /** Takes the oldest raised event off the queue and steps it. */
    method StepRaised()
      requires Intact() && internal != []
      modifies this, scheduler
      ensures Intact() && ChannelsKept()
      ensures View() == Next(machine, old(View()), PopInternal)
    {
      var ev := internal[0];
      internal := internal[1..];
      NextIs(machine, old(View()), PopInternal);
      NextIs(machine, View(), Move.Step(ev));
      Step(ev);
    }

    /** Always transitions until none is enabled or an event has been raised; gives up after
        `MAX_ALWAYS_ITER` microsteps. */
    method TryAlways() returns (outcome: Outcome)
      requires Intact()
      modifies this, scheduler
      ensures Intact() && ChannelsKept()
      ensures (outcome, View()) == AlwaysRun(machine, old(View()), MAX_ALWAYS_ITER)
    {
      var left := MAX_ALWAYS_ITER;
      while left > 0
        invariant Intact() && ChannelsKept()
        invariant AlwaysRun(machine, View(), left) == AlwaysRun(machine, old(View()), MAX_ALWAYS_ITER)
        decreases left
      {
        var pending := CollectAlways();
        if |pending| == 0 {
          return Quiet;
        }
        ApplyAlways(pending);
        if |internal| > 0 {
          return Raised;
        }
        left := left - 1;
      }
      return Looping;
    }

    /** What leaving the loop runs: every timer and every invocation is cancelled. */
    method Shutdown()
      requires Intact()
      modifies this`invokes, this`cancelledHandles, scheduler
      ensures Intact() && scheduler.outCh == old(scheduler.outCh)
      ensures forall e :: 0 <= e < |scheduler.cancelled| ==> scheduler.cancelled[e]
      ensures View() == Teardown(old(View()))
    {
      scheduler.CancelAll();
      StopAllInvokes();
    }

    /** Cancels every active invocation. */
    method StopAllInvokes()
      modifies this`invokes, this`cancelledHandles
      ensures invokes == map[]
      ensures cancelledHandles == old(cancelledHandles)
        + set s, h | s in old(invokes) && h in old(invokes)[s] :: h
    {
      var left := invokes;
      while left != map[]
        modifies this`cancelledHandles
        invariant left.Keys <= invokes.Keys && forall s :: s in left ==> left[s] == invokes[s]
        invariant cancelledHandles == old(cancelledHandles)
          + set s, h | s in invokes && s !in left && h in invokes[s] :: h
        decreases |left|
      {
        var id :| id in left;
        cancelledHandles := cancelledHandles + set h | h in left[id];
        left := left - {id};
      }
      invokes := map[];
    }

    /** Priority 1: the oldest raised event. */
    method IterateRaised(ghost choice: Choice)
      requires Valid() && status == Running && internal != []
      modifies this, scheduler
      ensures Valid()
      ensures System() == Iterate(machine, old(System()), choice)
    {
      ghost var n := |internal|;
      ghost var ev := internal[0];
      NextAppends(machine, View(), PopInternal);
      StepRaised();
      hist := hist.HandleRaised(ev, internal[n - 1..]);
    }

    /** Priorities 2 and 3: always transitions, and once none is enabled an external event. */
    method IterateQuiet(choice: Choice)
      requires Valid() && status == Running && internal == []
      modifies this, scheduler
      ensures Valid()
      ensures System() == Iterate(machine, old(System()), choice)
    {
      AlwaysRunOutcome(machine, View(), MAX_ALWAYS_ITER);
      ghost var before := System();
      var outcome := TryAlways();
      hist := hist.Raise(internal);
      FinishIteration(outcome, choice, before);
    }

    /** After the always transitions: go on, give up, or take an external event. */
    method FinishIteration(outcome: Outcome, choice: Choice, ghost before: Sys<C>)
      requires Valid() && status == Running && (outcome == Quiet ==> internal == [])
      requires LeafList(machine.chart, before.conf.leaves) && before.conf.internal == []
      requires (outcome, View()) == AlwaysRun(machine, before.conf, MAX_ALWAYS_ITER)
      requires System() == before.(conf := View(), hist := before.hist.Raise(internal))
      modifies this, scheduler
      ensures Valid() && System() == Iterate(machine, before, choice)
    {
      match outcome {
        case Raised =>
        case Looping =>
          Shutdown();
          status := Panicked;
        case Quiet =>
          SelectOne(choice);
      }
    }

    /** One iteration of the event loop; `choice` is what the select statement picks. */
    method Iteration(choice: Choice)
      requires Valid() && status == Running
      modifies this, scheduler
      ensures Valid()
      ensures System() == Iterate(machine, old(System()), choice)
    {
      if |internal| > 0 {
        IterateRaised(choice);
      } else {
        IterateQuiet(choice);
      }
    }

    method TakeFromMailbox()
      requires Valid() && status == Running && internal == [] && mailbox != []
      modifies this, scheduler
      ensures Valid()
      ensures System() == Select(machine, old(System()), TakeMail)
    {
      var ev := mailbox[0];
      ghost var before := View();
      mailbox := mailbox[1..];
      Step(ev);
      hist := hist.StepMail(ev, before, internal);
    }

    method TakeTimerFire()
      requires Valid() && status == Running && internal == [] && scheduler.outCh != []
      modifies this, scheduler
      ensures Valid()
      ensures System() == Select(machine, old(System()), TakeFire)
    {
      ghost var before := View();
      var fire := scheduler.Receive();
      Step(fire.event);
      hist := hist.StepFire(fire, before, internal);
    }

    /** What the loop does with the event, if any, that the select statement picks. */
    method SelectOne(choice: Choice)
      requires Valid() && status == Running && internal == []
      modifies this, scheduler
      ensures Valid()
      ensures System() == Select(machine, old(System()), choice)
    {
      if choice == TakeMail && |mailbox| > 0 {
        TakeFromMailbox();
      } else if choice == TakeFire && |scheduler.outCh| > 0 {
        TakeTimerFire();
      } else if choice == Cancel && stopRequested {
        Shutdown();
        status := Stopped;
      }
    }

    // -------------------------------------------------------------- public methods

    /** Queues an event unless the service has stopped or its mailbox is full. */
    method TrySend(ev: Event) returns (r: SendResult)
      requires Valid()
      modifies this`mailbox, this`hist
      ensures Valid()
      ensures System() == SysStep(machine, old(System()), mailboxSize, Accept(ev))
      ensures r == if status != Running || stopRequested then ErrActorStopped
        else if |old(mailbox)| >= mailboxSize then ErrMailboxFull else Sent
      ensures mailbox == if r == Sent then old(mailbox) + [ev] else old(mailbox)
    {
      if status != Running || stopRequested {
        return ErrActorStopped;
      }
      if |mailbox| >= mailboxSize {
        return ErrMailboxFull;
      }
      mailbox, hist := mailbox + [ev], hist.(accepted := hist.accepted + [ev]);
      return Sent;
    }

    /** Asks the loop to stop; a service that has stopped stays as it is. */
    method Stop()
      requires Valid()
      modifies this`stopRequested
      ensures Valid() && System() == SysStep(machine, old(System()), mailboxSize, RequestStop)
      ensures stopRequested <==> old(stopRequested) || status == Running
    {
      if status == Running {
        stopRequested := true;
      }
    }

    /** The clock runs the callback of the `e`-th timer ever started, perhaps after the loop has
        ended. */
    method TimerCallback(e: nat)
      requires Valid() && e < |scheduler.jobs|
      modifies this`hist, scheduler`outCh
      ensures Valid()
      ensures var job := scheduler.jobs[e];
        System() == if scheduler.cancelled[e] then old(System())
          else SysStep(machine, old(System()), mailboxSize, Fire(TimedFire(job.event, job.id)))
    {
      ghost var fire := TimedFire(scheduler.jobs[e].event, scheduler.jobs[e].id);
      scheduler.Callback(e);
      if scheduler.outCh != old(scheduler.outCh) {
        hist := hist.Offer(fire);
      }
    }

    /** What the environment or one more iteration of the loop does. */
    method Obey(l: Label)
      requires Valid()
      modifies this, scheduler
      ensures Valid() && System() == SysStep(machine, old(System()), mailboxSize, l)
    {
      match l {
        case Loop(choice) =>
          if status == Running {
            Iteration(choice);
          }
        case Accept(ev) =>
          var r := TrySend(ev);
        case Fire(fire) =>
          if status == Running {
            scheduler.Offer(fire);
            if scheduler.outCh != old(scheduler.outCh) {
              hist := hist.Offer(fire);
            }
          }
        case RequestStop =>
          Stop();
      }
    }

    /** The event loop among whatever its environment does, step by step. */
    method Execute(labels: seq<Label>)
      requires Valid()
      modifies this, scheduler
      ensures Valid() && System() == SysRun(machine, old(System()), mailboxSize, labels)
    {
      assert labels[0..] == labels;
      for i := 0 to |labels|
        invariant Valid()
        invariant SysRun(machine, System(), mailboxSize, labels[i..]) ==
          SysRun(machine, old(System()), mailboxSize, labels)
      {
        assert labels[i..][0] == labels[i] && labels[i..][1..] == labels[i + 1..];
        Obey(labels[i]);
      }
    }

    /** While a service that started in a good state runs with clean moves, every delayed transition
        of every active state has its timer registered, with its delay and its event. */
    lemma RunningIsArmed(s: Sys<C>, labels: seq<Label>)
      requires Valid() && OwnTimers(machine) && s.status == Running && Good(machine, s.conf)
      requires CleanRun(machine, s.conf, SysMoves(machine, s, mailboxSize, labels))
      requires System() == SysRun(machine, s, mailboxSize, labels) && status == Running
      ensures Armed()
    {
      OwnTimersApart(machine);
      SysIsRun(machine, s, mailboxSize, labels);
      RunGood(machine, s.conf, SysMoves(machine, s, mailboxSize, labels));
      ScopedIsArmed();
    }

    // -------------------------------------------------------------- starting

    /** The fields a new service starts with, before anything is entered. */
    constructor Fresh(m: Machine<C>, leaves: seq<StateID>, ctx: C, mailboxSize: nat)
      requires WellFormed(m) && LeafList(m.chart, leaves)
      ensures machine == m && this.mailboxSize == mailboxSize && fresh(scheduler) && Valid()
      ensures this.leaves == leaves && previousLeaf == ROOT && this.ctx == ctx && internal == []
      ensures scheduler.entries == map[] && scheduler.outCh == [] && Inv() == NO_INVOKES
      ensures log == [] && notified == [] && mailbox == [] && !stopRequested && status == Running
      ensures hist == History([], [], [], [], [], [], [], [])
    {
      machine, this.leaves, previousLeaf, this.ctx, internal := m, leaves, ROOT, ctx, [];
      scheduler := new Scheduler();
      this.mailboxSize, mailbox, stopRequested, status := mailboxSize, [], false, Running;
      invokes, nextHandle, cancelledHandles := map[], 0, {};
      snap := Snapshot(ROOT, [], [], ROOT, ctx, INIT, false, false);
      log, notified, hist := [], [], History([], [], [], [], [], [], [], []);
    }

    /** Starts the timers of the states in order, without entry actions or invokes. */
    method StartTimers(order: seq<StateID>)
      requires TimersOK()
      modifies scheduler
      ensures TimersOK() && scheduler.outCh == old(scheduler.outCh)
      ensures scheduler.entries.Keys == old(scheduler.entries.Keys) + AllTimers(machine, order)
    {
      for i := 0 to |order|
        invariant TimersOK() && scheduler.outCh == old(scheduler.outCh)
        invariant scheduler.entries.Keys == old(scheduler.entries.Keys) + AllTimers(machine, order[..i])
      {
        assert order[..i + 1][..i] == order[..i];
        StartStateTimers(order[i]);
      }
      assert order[..|order|] == order;
    }

    /** Starts the invokes of the states in order. */
    method InvokeAll(order: seq<StateID>)
      modifies this`invokes, this`nextHandle
      ensures Inv() == StartAll(machine, old(Inv()), order)
    {
      for i := 0 to |order|
        invariant Inv() == StartAll(machine, old(Inv()), order[..i])
      {
        assert order[..i + 1][..i] == order[..i];
        DoInvokeEntry(order[i]);
      }
      assert order[..|order|] == order;
    }

    /** Entry actions and timers, state by state. */
    method EnterWithoutInvokes(order: seq<StateID>, ev: Event)
      requires TimersOK() && internal == [] && log == [] && scheduler.entries == map[]
      modifies this`ctx, this`internal, this`log, scheduler
      ensures TimersOK() && scheduler.outCh == old(scheduler.outCh)
      ensures (ctx, internal) == RunEntries(machine, order, old(ctx), ev)
      ensures scheduler.entries.Keys == AllTimers(machine, order)
      ensures log == Entries(order)
    {
      for i := 0 to |order|
        invariant TimersOK() && scheduler.outCh == old(scheduler.outCh)
        invariant (ctx, internal) == RunEntries(machine, order[..i], old(ctx), ev)
        invariant scheduler.entries.Keys == AllTimers(machine, order[..i])
        invariant log == Entries(order[..i])
      {
        assert order[..i + 1][..i] == order[..i];
        ghost var cs, rs := DoEntry(order[i], ev);
        StartStateTimers(order[i]);
        log := log + [Entry(order[i])];
      }
      assert order[..|order|] == order;
    }

    /** Initial entry: entry actions and timers state by state, done events, the first snapshot,
        and only then the invokes. */
    method EnterInitial(initEntry: seq<StateID>)
      requires Intact() && previousLeaf == ROOT && forall s :: s in initEntry ==> s in machine.chart.nodes
      requires internal == [] && scheduler.entries == map[] && Inv() == NO_INVOKES && log == [] && notified == []
      modifies this`ctx, this`internal, this`invokes, this`nextHandle, this`snap, this`log, scheduler
      ensures Intact() && scheduler.outCh == old(scheduler.outCh)
      ensures View() == EnteredConf(machine, leaves, initEntry, RunEntries(machine, initEntry, old(ctx), INIT))
    {
      EnterPublish(initEntry);
      InvokeAll(initEntry);
    }

    /** Entry into the machine's own initial configuration. */
    method EnterMachine()
      requires Intact() && leaves == LeafTargets(machine.chart, machine.initial) && ctx == machine.context
      requires previousLeaf == ROOT && internal == [] && scheduler.entries == map[]
      requires Inv() == NO_INVOKES && log == [] && notified == []
      modifies this`ctx, this`internal, this`invokes, this`nextHandle, this`snap, this`log, scheduler
      ensures Intact() && scheduler.outCh == old(scheduler.outCh) && View() == StartConf(machine)
    {
      InitialEntryDeclared(machine.chart, machine.initial);
      var initEntry := UnifiedEntryPaths(machine.chart, ROOT, leaves);
      EnterInitial(initEntry);
    }

    /** A fresh service enters the machine. */
    method Begin()
      requires Valid() && leaves == LeafTargets(machine.chart, machine.initial) && ctx == machine.context
      requires previousLeaf == ROOT && internal == [] && scheduler.entries == map[] && scheduler.outCh == []
      requires Inv() == NO_INVOKES && log == [] && notified == []
      requires mailbox == [] && !stopRequested && status == Running
      modifies this`ctx, this`internal, this`invokes, this`nextHandle, this`snap, this`log, this`hist, scheduler
      ensures Valid() && System() == InitialSys(StartConf(machine))
    {
      EnterMachine();
      hist := History([], [], [], [], internal, [], [], []);
    }

    /** Initial entry without the invokes. */
    method EnterPublish(initEntry: seq<StateID>)
      requires Intact() && forall s :: s in initEntry ==> s in machine.chart.nodes
      requires internal == [] && scheduler.entries == map[] && log == []
      modifies this`ctx, this`internal, this`snap, this`log, scheduler
      ensures Intact() && scheduler.outCh == old(scheduler.outCh)
      ensures var r := RunEntries(machine, initEntry, old(ctx), INIT);
        ctx == r.0 && internal == r.1 + DoneEvents(machine.chart, leaves, initEntry)
      ensures scheduler.entries.Keys == AllTimers(machine, initEntry) && log == Entries(initEntry)
      ensures snap == SnapshotOf(machine, leaves, previousLeaf, ctx, INIT, false)
    {
      EnterWithoutInvokes(initEntry, INIT);
      RaiseAndStore(initEntry);
    }

    method RaiseAndStore(initEntry: seq<StateID>)
      requires Intact() && forall s :: s in initEntry ==> s in machine.chart.nodes
      modifies this`internal, this`snap
      ensures internal == old(internal) + DoneEvents(machine.chart, leaves, initEntry)
      ensures snap == SnapshotOf(machine, leaves, previousLeaf, ctx, INIT, false)
    {
      var done := RaiseDoneEvents(machine.chart, leaves, initEntry);
      internal := internal + done;
      StoreSnapshot(INIT, false);
    }

    /** Resuming: timers and invokes of the active configuration, no entry actions. */
    method Resume()
      requires Intact() && previousLeaf == ROOT && internal == []
      requires scheduler.entries == map[] && Inv() == NO_INVOKES && log == [] && notified == []
      modifies this`invokes, this`nextHandle, this`snap, this`log, scheduler
      ensures Intact() && View() == RestoreConf(machine, leaves, ctx)
      ensures scheduler.outCh == old(scheduler.outCh)
    {
      var active := ConfigurationOf(machine.chart, leaves);
      ResumeActive(active);
      log := Entries(active);
    }

    lemma RestoredIsArmed()
      requires Intact() && OwnTimers(machine) && View() == RestoreConf(machine, leaves, ctx)
      ensures Armed()
    {
      RestoreParts(machine, leaves, ctx);
      ScopedIsArmed();
    }

    method ResumeActive(active: seq<StateID>)
      requires Intact() && scheduler.entries == map[]
      modifies this`invokes, this`nextHandle, this`snap, scheduler
      ensures Intact() && scheduler.outCh == old(scheduler.outCh)
      ensures scheduler.entries.Keys == AllTimers(machine, active) && Inv() == StartAll(machine, old(Inv()), active)
      ensures snap == SnapshotOf(machine, leaves, previousLeaf, ctx, INIT, false)
    {
      StartTimers(active);
      StoreSnapshot(INIT, false);
      InvokeAll(active);
    }
  }

  lemma InitialEntryDeclared(c: Chart, d: StateID)
    requires c.Linked() && d in c.nodes
    ensures LeafList(c, LeafTargets(c, d))
    ensures forall s :: s in Dedup(EntryPaths(c, ROOT, LeafTargets(c, d))) ==> s in c.nodes
  {
    var leaves := LeafTargets(c, d);
    LeafTargetFirst(c, d);
    forall t | t in leaves ensures c.IsAtomic(t) {
      LeafTargetsAtomic(c, d, t);
    }
    InitialEntryOrder(c, leaves);
    ActiveIsDeclared(c, leaves);
    forall s | s in Dedup(EntryPaths(c, ROOT, leaves)) ensures s in c.nodes {
      assert s in Active(c, leaves);
    }
  }

  /** A service in the machine's initial configuration. */
  method Start<C>(m: Machine<C>, mailboxSize: nat) returns (svc: Service<C>)
    requires WellFormed(m)
    ensures fresh(svc) && fresh(svc.scheduler) && svc.Valid()
    ensures svc.machine == m && svc.mailboxSize == mailboxSize
    ensures svc.System() == InitialSys(StartConf(m))
    ensures svc.mailbox == [] && svc.scheduler.outCh == [] && !svc.stopRequested && svc.status == Running
    ensures OwnTimers(m) ==> svc.Armed()
  {
    InitialEntryDeclared(m.chart, m.initial);
    svc := new Service.Fresh(m, LeafTargets(m.chart, m.initial), m.context, mailboxSize);
    svc.Begin();
    if OwnTimers(m) {
      StartParts(m);
      svc.ScopedIsArmed();
    }
  }

  /** A service in a given configuration; refused exactly when the leaves are not a non-empty
      list of declared atomic states. */
  method Restore<C>(m: Machine<C>, leaves: seq<StateID>, ctx: C, mailboxSize: nat)
    returns (r: RestoreResult<C>)
    requires WellFormed(m)
    ensures r.Restored? <==> LeafList(m.chart, leaves)
    ensures r.Restored? <==>
      leaves != [] && forall l :: l in leaves ==> l in m.chart.nodes && m.chart.nodes[l].children == []
    ensures r.Restored? ==> fresh(r.service) && fresh(r.service.scheduler) && r.service.Valid()
    ensures r.Restored? ==> r.service.machine == m && r.service.mailboxSize == mailboxSize
    ensures r.Restored? ==> r.service.System() == InitialSys(RestoreConf(m, leaves, ctx))
    ensures r.Restored? ==>
      && r.service.leaves == leaves && r.service.ctx == ctx && r.service.internal == []
      && r.service.mailbox == [] && r.service.scheduler.outCh == [] && r.service.status == Running
    ensures r.Restored? && OwnTimers(m) ==> r.service.Armed()
  {
    if |leaves| == 0 {
      return ErrInvalidCheckpoint;
    }
    for i := 0 to |leaves|
      invariant forall j :: 0 <= j < i ==> m.chart.IsAtomic(leaves[j])
    {
      if !m.chart.Has(leaves[i]) || m.chart.IsCompound(leaves[i]) {
        assert leaves[i] in leaves;
        return ErrInvalidCheckpoint;
      }
    }
    var svc := new Service.Fresh(m, leaves, ctx, mailboxSize);
    svc.Resume();
    if OwnTimers(m) {
      svc.RestoredIsArmed();
    }
    return Restored(svc);
  }

  lemma EntryOrderDeclared(c: Chart, hops: seq<Hop>)
    requires c.Linked()
    ensures forall s :: s in EntryOrder(c, hops) ==> s in c.nodes
  {
    forall s | s in EntryOrder(c, hops) ensures s in c.nodes {
      EntryOrderSound(c, [], hops);
      var h :| h in hops && Enters(c, h, s);
      var t :| t in LeafTargets(c, h.target) && s in PathUp(c, t, LccaOfHop(c, h));
      PathUpDistinct(c, t, LccaOfHop(c, h));
    }
  }
}
