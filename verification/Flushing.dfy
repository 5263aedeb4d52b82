/** The test harness settles the machine in its own way after each event. For machines in which at
    most one leaf at a time has an enabled always transition, every run of the service's event
    loop follows it. */
module Flushing {
  import opened Seqs
  import opened Charts
  import opened Configurations
  import opened Hypotheses
  import opened Machines
  import opened Interpreter
  import opened Orders
  import opened Runs
  import opened RunLoop

  const MAX_FLUSH_ITER: nat := 1000

  // ---------------------------------------------------------------- the harness

  /** Take raised events and apply always transitions, of one leaf at a time, until there is
      nothing to do; None when that takes more than `n` iterations. */
  ghost function Flush<C>(m: Machine<C>, st: Conf<C>, n: nat): (r: Option<Conf<C>>)
    requires WellFormed(m) && LeafList(m.chart, st.leaves)
    ensures r.Some? ==> LeafList(m.chart, r.value.leaves)
    decreases n, |st.internal|
  {
    if n == 0 then None
    else if st.internal != [] then
      NextLeafList(m, st, PopInternal);
      Flush(m, Next(m, st, PopInternal), n - 1)
    else if EnabledNull(m, st.leaves, st.ctx) != [] then
      NextLeafList(m, st, FirstNull);
      Flush(m, Next(m, st, FirstNull), n - 1)
    else Some(st)
  }

  /** The state of a harness after the given events; None once a flush has panicked. */
  ghost function HarnessRun<C>(m: Machine<C>, events: seq<Event>): (r: Option<Conf<C>>)
    requires WellFormed(m)
    ensures r.Some? ==> LeafList(m.chart, r.value.leaves)
  {
    if events == [] then
      StartGood(m);
      Flush(m, StartConf(m), MAX_FLUSH_ITER)
    else
      var before := HarnessRun(m, events[..|events| - 1]);
      if before.None? then None
      else
        NextLeafList(m, before.value, Move.Step(events[|events| - 1]));
        Flush(m, Next(m, before.value, Move.Step(events[|events| - 1])), MAX_FLUSH_ITER)
  }

  // ---------------------------------------------------------------- where the two agree

  /** At most one active leaf has an enabled always transition. */
  ghost predicate OneNull<C>(m: Machine<C>, st: Conf<C>)
    requires WellFormed(m)
  {
    |EnabledNull(m, st.leaves, st.ctx)| <= 1
  }

  lemma OnePending<C>(m: Machine<C>, st: Conf<C>)
    requires WellFormed(m) && OneNull(m, st)
    ensures MovePending(m, st, FirstNull) == MovePending(m, st, Null)
  {
    var all := EnabledNull(m, st.leaves, st.ctx);
    assert all != [] ==> all == [all[0]];
  }

  lemma SamePendingSameStep<C>(m: Machine<C>, st: Conf<C>)
    requires WellFormed(m) && LeafList(m.chart, st.leaves)
    requires MovePending(m, st, FirstNull) == MovePending(m, st, Null)
    ensures Next(m, st, FirstNull) == Next(m, st, Null)
  {
    NextIs(m, st, FirstNull);
    NextIs(m, st, Null);
  }

  /** The harness's always step, of the first leaf, and the service's, of all leaves, are the same
      step exactly when at most one leaf has one. */
  lemma AlwaysStepsAgree<C>(m: Machine<C>, st: Conf<C>)
    requires WellFormed(m) && LeafList(m.chart, st.leaves)
    ensures Next(m, st, FirstNull) == Next(m, st, Null) <==> OneNull(m, st)
  {
    if OneNull(m, st) {
      OnePending(m, st);
      SamePendingSameStep(m, st);
    } else {
      SecondExitMissing(m, st);
    }
  }

  ghost predicate Sourced<C>(all: seq<Pending<C>>, leaves: seq<StateID>) {
    && (forall i :: 0 <= i < |all| ==> all[i].source in leaves)
    && forall i, j :: 0 <= i < j < |all| ==> all[i].source != all[j].source
  }

  lemma SourcedSnoc<C>(all: seq<Pending<C>>, front: seq<StateID>, p: Pending<C>)
    requires Sourced(all, front) && p.source !in front
    ensures Sourced(all + [p], front + [p.source])
  {
  }

  lemma {:induction false} DistinctSources<C>(m: Machine<C>, leaves: seq<StateID>, ctx: C)
    requires WellFormed(m)
    ensures Sourced(EnabledNull(m, leaves, ctx), leaves)
  {
    if leaves != [] {
      var front, leaf := leaves[..|leaves| - 1], leaves[|leaves| - 1];
      DistinctSources(m, front, ctx);
      assert leaves == front + [leaf];
      var r := ResolveNull(m, leaf, ctx);
      if leaf !in front && r.Some? {
        SourcedSnoc(EnabledNull(m, front, ctx), front, Pending(leaf, r.value.target, r.value.actions));
      }
    }
  }

  /** The first of two hops alone does not exit the second's leaf. */
  lemma SecondExit(c: Chart, all: seq<Hop>)
    requires c.Linked() && |all| >= 2 && all[0].source != all[1].source
    requires forall h :: h in all ==> HopOK(c, h)
    ensures all[1].source in ExitOrder(c, all) && all[1].source !in ExitOrder(c, [all[0]])
  {
    var x := all[1].source;
    ExitOrderSound(c, all);
    ExitOrderSound(c, [all[0]]);
    LccaOfHopAbove(c, all[1]);
    ExitsMeaning(c, all[1], x);
    assert all[1] in all && Exits(c, all[1], x);
    LccaOfHopAbove(c, all[0]);
    ExitsMeaning(c, all[0], x);
    AtomicNoneBelow(c, x, all[0].source);
    assert !Exits(c, all[0], x);
  }

  /** The hops of the two always steps. */
  lemma AlwaysHops<C>(m: Machine<C>, st: Conf<C>)
    requires WellFormed(m) && LeafList(m.chart, st.leaves)
    requires |EnabledNull(m, st.leaves, st.ctx)| >= 2
    ensures var two := Hops(MovePending(m, st, Null));
      && |two| >= 2 && Hops(MovePending(m, st, FirstNull)) == [two[0]]
      && two[0].source != two[1].source && forall h :: h in two ==> HopOK(m.chart, h)
  {
    var all := EnabledNull(m, st.leaves, st.ctx);
    PendingUsable(m, st, Null);
    DistinctSources(m, st.leaves, st.ctx);
    HopsAt(all);
    HopsAt([all[0]]);
  }

  lemma SecondExitMissing<C>(m: Machine<C>, st: Conf<C>)
    requires WellFormed(m) && LeafList(m.chart, st.leaves)
    requires |EnabledNull(m, st.leaves, st.ctx)| >= 2
    ensures Next(m, st, FirstNull).log != Next(m, st, Null).log
  {
    AlwaysHops(m, st);
    var two := Hops(MovePending(m, st, Null));
    SecondExit(m.chart, two);
    ExitCount(m, st, FirstNull, two[1].source);
    ExitCount(m, st, Null, two[1].source);
  }

  lemma ExitCount<C>(m: Machine<C>, st: Conf<C>, mv: Move, x: StateID)
    requires WellFormed(m) && LeafList(m.chart, st.leaves) && MovePending(m, st, mv) != []
    ensures Count(Next(m, st, mv).log, Exit(x)) ==
      Count(st.log, Exit(x)) + if x in ExitOrder(m.chart, Hops(MovePending(m, st, mv))) then 1 else 0
  {
    var hops := Hops(MovePending(m, st, mv));
    NextLog(m, st, mv);
    ExitOrderSound(m.chart, hops);
    LogExits(st.log, ExitOrder(m.chart, hops), EntryOrder(m.chart, hops), x);
  }

  lemma NextLog<C>(m: Machine<C>, st: Conf<C>, mv: Move)
    requires WellFormed(m) && LeafList(m.chart, st.leaves) && MovePending(m, st, mv) != []
    ensures var hops := Hops(MovePending(m, st, mv));
      Next(m, st, mv).log == st.log + ExitMarks(ExitOrder(m.chart, hops)) + Entries(EntryOrder(m.chart, hops))
  {
    NextIs(m, st, mv);
    PendingUsable(m, st, mv);
  }

  /** How often the log of a step says that `x` was exited. */
  lemma LogExits(log: seq<Mark>, exits: seq<StateID>, entries: seq<StateID>, x: StateID)
    requires Distinct(exits)
    ensures Count(log + ExitMarks(exits) + Entries(entries), Exit(x)) ==
      Count(log, Exit(x)) + if x in exits then 1 else 0
  {
    MarkCounts(exits, x);
    MarkCounts(entries, x);
    CountDistinct(exits, x);
    CountAppend(log, ExitMarks(exits), Exit(x));
    CountAppend(log + ExitMarks(exits), Entries(entries), Exit(x));
  }

  /** Every state that a flush passes through satisfies `OneNull`. */
  ghost predicate NarrowFlush<C>(m: Machine<C>, st: Conf<C>, n: nat)
    requires WellFormed(m) && LeafList(m.chart, st.leaves)
    decreases n, |st.internal|
  {
    n > 0 ==>
      if st.internal != [] then
        NextLeafList(m, st, PopInternal);
        NarrowFlush(m, Next(m, st, PopInternal), n - 1)
      else
        && OneNull(m, st)
        && (EnabledNull(m, st.leaves, st.ctx) != [] ==>
              (NextLeafList(m, st, FirstNull); NarrowFlush(m, Next(m, st, FirstNull), n - 1)))
  }

  ghost predicate NarrowRun<C>(m: Machine<C>, events: seq<Event>)
    requires WellFormed(m)
  {
    if events == [] then
      StartGood(m);
      NarrowFlush(m, StartConf(m), MAX_FLUSH_ITER)
    else
      var front, ev := events[..|events| - 1], events[|events| - 1];
      && NarrowRun(m, front)
      && (HarnessRun(m, front).Some? ==>
            var before := HarnessRun(m, front).value;
            NextLeafList(m, before, Move.Step(ev));
            NarrowFlush(m, Next(m, before, Move.Step(ev)), MAX_FLUSH_ITER))
  }

  // ---------------------------------------------------------------- the service follows

  /** Within `k` harness iterations, all of them narrow, `st` settles in `target`. */
  ghost predicate OnTheWay<C>(m: Machine<C>, st: Conf<C>, target: Conf<C>, k: nat)
    requires WellFormed(m)
  {
    LeafList(m.chart, st.leaves) && NarrowFlush(m, st, k) && Flush(m, st, k) == Some(target)
  }

  /** The service's run of always transitions follows the flush and cannot give up before it. */
  lemma {:induction false} AlwaysFollows<C>(m: Machine<C>, st: Conf<C>, target: Conf<C>, k: nat, n: nat) returns (k': nat)
    requires WellFormed(m) && OnTheWay(m, st, target, k) && st.internal == [] && k <= n
    ensures var (o, r) := AlwaysRun(m, st, n);
      && o != Looping
      && (o == Quiet ==> r == target && Quiescent(m, r))
      && (o == Raised ==> k' < k && OnTheWay(m, r, target, k'))
    decreases n
  {
    k' := 0;
    if EnabledNull(m, st.leaves, st.ctx) != [] {
      AlwaysStepsAgree(m, st);
      NextLeafList(m, st, Null);
      var st' := Next(m, st, Null);
      if st'.internal != [] {
        k' := k - 1;
      } else {
        k' := AlwaysFollows(m, st', target, k - 1, n - 1);
      }
    }
  }

  /** The harness's result for the events the service has stepped is what the service is heading
      for, and it has not panicked. */
  ghost predicate Heading<C>(m: Machine<C>, s: Sys<C>)
    requires WellFormed(m)
  {
    && s.status != Panicked
    && HarnessRun(m, s.hist.events).Some?
    && (s.status == Running ==>
          exists k: nat :: k <= MAX_FLUSH_ITER && OnTheWay(m, s.conf, HarnessRun(m, s.hist.events).value, k))
  }

  lemma SelectHeads<C>(m: Machine<C>, s: Sys<C>, choice: Choice)
    requires WellFormed(m) && LeafList(m.chart, s.conf.leaves) && Quiescent(m, s.conf) && s.status == Running
    requires HarnessRun(m, s.hist.events) == Some(s.conf)
    requires NarrowRun(m, Select(m, s, choice).hist.events)
    requires HarnessRun(m, Select(m, s, choice).hist.events).Some?
    ensures Heading(m, Select(m, s, choice))
  {
    var r := Select(m, s, choice);
    if r.hist.events == s.hist.events {
      assert OnTheWay(m, s.conf, s.conf, 1);
      assert r.status == Running ==> r.conf == s.conf;
    } else {
      assert r.hist.events[..|r.hist.events| - 1] == s.hist.events;
      assert OnTheWay(m, r.conf, HarnessRun(m, r.hist.events).value, MAX_FLUSH_ITER);
    }
  }

  lemma IterateHeads<C>(m: Machine<C>, s: Sys<C>, choice: Choice)
    requires WellFormed(m) && LeafList(m.chart, s.conf.leaves) && s.status == Running && Heading(m, s)
    requires NarrowRun(m, Iterate(m, s, choice).hist.events)
    requires HarnessRun(m, Iterate(m, s, choice).hist.events).Some?
    ensures Heading(m, Iterate(m, s, choice))
  {
    var target := HarnessRun(m, s.hist.events).value;
    var k: nat :| k <= MAX_FLUSH_ITER && OnTheWay(m, s.conf, target, k);
    if s.conf.internal != [] {
      assert OnTheWay(m, Next(m, s.conf, PopInternal), target, k - 1);
    } else {
      var k' := AlwaysFollows(m, s.conf, target, k, MAX_ALWAYS_ITER);
      var (o, c1) := AlwaysRun(m, s.conf, MAX_ALWAYS_ITER);
      if o == Quiet {
        SelectHeads(m, s.(conf := c1, hist := s.hist.Raise(c1.internal)), choice);
      }
    }
  }

  // ---------------------------------------------------------------- whole runs

  lemma StepEventsGrow<C>(m: Machine<C>, s: Sys<C>, capacity: nat, l: Label)
    requires WellFormed(m) && LeafList(m.chart, s.conf.leaves)
    ensures s.hist.events <= SysStep(m, s, capacity, l).hist.events
  {
  }

  lemma {:induction false} EventsGrow<C>(m: Machine<C>, s: Sys<C>, capacity: nat, labels: seq<Label>)
    requires WellFormed(m) && LeafList(m.chart, s.conf.leaves)
    ensures s.hist.events <= SysRun(m, s, capacity, labels).hist.events
    decreases |labels|
  {
    if labels != [] {
      StepEventsGrow(m, s, capacity, labels[0]);
      EventsGrow(m, SysStep(m, s, capacity, labels[0]), capacity, labels[1..]);
    }
  }

  lemma {:induction false} HarnessPrefix<C>(m: Machine<C>, events: seq<Event>, n: nat)
    requires WellFormed(m) && n <= |events| && HarnessRun(m, events).Some? && NarrowRun(m, events)
    ensures HarnessRun(m, events[..n]).Some? && NarrowRun(m, events[..n])
    decreases |events|
  {
    if n < |events| {
      HarnessPrefix(m, events[..|events| - 1], n);
      assert events[..|events| - 1][..n] == events[..n];
    } else {
      assert events[..n] == events;
    }
  }

  lemma StepHeads<C>(m: Machine<C>, s: Sys<C>, capacity: nat, l: Label)
    requires WellFormed(m) && LeafList(m.chart, s.conf.leaves) && Heading(m, s)
    requires NarrowRun(m, SysStep(m, s, capacity, l).hist.events)
    requires HarnessRun(m, SysStep(m, s, capacity, l).hist.events).Some?
    ensures Heading(m, SysStep(m, s, capacity, l))
  {
    if s.status == Running && l.Loop? {
      IterateHeads(m, s, l.choice);
    }
  }

  lemma {:induction false} RunHeads<C>(m: Machine<C>, s: Sys<C>, capacity: nat, labels: seq<Label>)
    requires WellFormed(m) && LeafList(m.chart, s.conf.leaves) && Heading(m, s)
    requires NarrowRun(m, SysRun(m, s, capacity, labels).hist.events)
    requires HarnessRun(m, SysRun(m, s, capacity, labels).hist.events).Some?
    ensures Heading(m, SysRun(m, s, capacity, labels))
    decreases |labels|
  {
    if labels != [] {
      var s1 := SysStep(m, s, capacity, labels[0]);
      var all := SysRun(m, s, capacity, labels).hist.events;
      EventsGrow(m, s1, capacity, labels[1..]);
      HarnessPrefix(m, all, |s1.hist.events|);
      assert all[..|s1.hist.events|] == s1.hist.events;
      StepHeads(m, s, capacity, labels[0]);
      RunHeads(m, s1, capacity, labels[1..]);
    }
  }

  /** Whatever the environment does and in whatever order, a service whose stepped events do not
      make the harness panic does not panic either, and whenever it has settled it is in the state
      in which the harness settles: leaves, previous leaf, context, published snapshots and all. */
  lemma ServiceFollowsHarness<C>(m: Machine<C>, capacity: nat, labels: seq<Label>)
    requires WellFormed(m) && LeafList(m.chart, StartConf(m).leaves)
    requires var events := SysRun(m, InitialSys(StartConf(m)), capacity, labels).hist.events;
      HarnessRun(m, events).Some? && NarrowRun(m, events)
    ensures var r := SysRun(m, InitialSys(StartConf(m)), capacity, labels);
      && r.status != Panicked
      && (r.status == Running && Quiescent(m, r.conf) ==> HarnessRun(m, r.hist.events) == Some(r.conf))
  {
    var s := InitialSys(StartConf(m));
    var r := SysRun(m, s, capacity, labels);
    EventsGrow(m, s, capacity, labels);
    InitialHeading(m, r.hist.events);
    RunHeads(m, s, capacity, labels);
    if r.status == Running && Quiescent(m, r.conf) {
      var k: nat :| k <= MAX_FLUSH_ITER && OnTheWay(m, r.conf, HarnessRun(m, r.hist.events).value, k);
    }
  }

  lemma InitialHeading<C>(m: Machine<C>, events: seq<Event>)
    requires WellFormed(m) && LeafList(m.chart, StartConf(m).leaves)
    requires HarnessRun(m, events).Some? && NarrowRun(m, events)
    ensures Heading(m, InitialSys(StartConf(m)))
  {
    HarnessPrefix(m, events, 0);
    assert events[..0] == [];
    assert OnTheWay(m, StartConf(m), HarnessRun(m, []).value, MAX_FLUSH_ITER);
  }

  /** Nothing arrives for `n` iterations of the loop. */
  function Idle(n: nat): seq<Label> {
    seq(n, _ => Loop(Cancel))
  }

  lemma IdleIterate<C>(m: Machine<C>, s: Sys<C>, target: Conf<C>, k: nat) returns (k': nat)
    requires WellFormed(m) && s.status == Running && !s.stopRequested
    requires k <= MAX_FLUSH_ITER && OnTheWay(m, s.conf, target, k)
    ensures var r := Iterate(m, s, Cancel);
      && r.status == Running && !r.stopRequested && OnTheWay(m, r.conf, target, k')
      && (k' < k || (r.conf == target && k' == 1))
  {
    if s.conf.internal != [] {
      k' := k - 1;
    } else {
      k' := AlwaysFollows(m, s.conf, target, k, MAX_ALWAYS_ITER);
      if AlwaysRun(m, s.conf, MAX_ALWAYS_ITER).0 == Quiet {
        k' := 1;
      }
    }
  }

  /** Left alone, the service gets where it is heading and stays there. */
  lemma {:induction false} IdleSettles<C>(m: Machine<C>, s: Sys<C>, capacity: nat, target: Conf<C>, k: nat, n: nat)
    requires WellFormed(m) && s.status == Running && !s.stopRequested
    requires k <= MAX_FLUSH_ITER && OnTheWay(m, s.conf, target, k) && (k <= n || s.conf == target)
    ensures var r := SysRun(m, s, capacity, Idle(n));
      r.status == Running && r.conf == target && Quiescent(m, target)
    decreases n
  {
    FlushQuiescent(m, s.conf, k);
    if n > 0 {
      var k' := IdleIterate(m, s, target, k);
      assert Idle(n)[0] == Loop(Cancel) && Idle(n)[1..] == Idle(n - 1);
      IdleSettles(m, Iterate(m, s, Cancel), capacity, target, k', n - 1);
    }
  }

  lemma {:induction false} FlushQuiescent<C>(m: Machine<C>, st: Conf<C>, n: nat)
    requires WellFormed(m) && LeafList(m.chart, st.leaves) && Flush(m, st, n).Some?
    ensures Quiescent(m, Flush(m, st, n).value)
    decreases n
  {
    if st.internal != [] {
      NextLeafList(m, st, PopInternal);
      FlushQuiescent(m, Next(m, st, PopInternal), n - 1);
    } else if EnabledNull(m, st.leaves, st.ctx) != [] {
      NextLeafList(m, st, FirstNull);
      FlushQuiescent(m, Next(m, st, FirstNull), n - 1);
    }
  }

  /** After any run, leaving the service alone for 1000 iterations brings it to the state of the
      harness. */
  lemma ServiceReachesHarness<C>(m: Machine<C>, capacity: nat, labels: seq<Label>)
    requires WellFormed(m) && LeafList(m.chart, StartConf(m).leaves)
    requires var r := SysRun(m, InitialSys(StartConf(m)), capacity, labels);
      && HarnessRun(m, r.hist.events).Some? && NarrowRun(m, r.hist.events)
      && r.status == Running && !r.stopRequested
    ensures var r := SysRun(m, InitialSys(StartConf(m)), capacity, labels);
      var settled := SysRun(m, r, capacity, Idle(MAX_FLUSH_ITER));
      settled.status == Running && Some(settled.conf) == HarnessRun(m, r.hist.events)
  {
    var s := InitialSys(StartConf(m));
    var r := SysRun(m, s, capacity, labels);
    InitialHeading(m, r.hist.events);
    EventsGrow(m, s, capacity, labels);
    RunHeads(m, s, capacity, labels);
    var target := HarnessRun(m, r.hist.events).value;
    var k: nat :| k <= MAX_FLUSH_ITER && OnTheWay(m, r.conf, target, k);
    IdleSettles(m, r, capacity, target, k, MAX_FLUSH_ITER);
  }

  // ---------------------------------------------------------------- machines that qualify

  ghost predicate NoAlways<C>(m: Machine<C>) {
    forall id :: id in m.rules ==> m.rules[id].always == []
  }

  lemma {:induction false} NoAlwaysNone<C>(m: Machine<C>, leaves: seq<StateID>, ctx: C)
    requires WellFormed(m) && NoAlways(m)
    ensures EnabledNull(m, leaves, ctx) == []
  {
    if leaves != [] {
      NoAlwaysNone(m, leaves[..|leaves| - 1], ctx);
      if ResolveNull(m, leaves[|leaves| - 1], ctx).Some? {
        var s := ResolveNullSource(m, leaves[|leaves| - 1], ctx);
      }
    }
  }

  lemma {:induction false} OneLeafOneNull<C>(m: Machine<C>, leaves: seq<StateID>, ctx: C, x: StateID)
    requires WellFormed(m) && forall l :: l in leaves ==> l == x
    ensures |EnabledNull(m, leaves, ctx)| <= 1
  {
    if leaves != [] {
      var front := leaves[..|leaves| - 1];
      forall l | l in front ensures l == x {
        assert l in leaves;
      }
      OneLeafOneNull(m, front, ctx, x);
      if front != [] {
        assert leaves[|leaves| - 1] in leaves;
        assert front[0] in front;
      }
    }
  }

  lemma {:induction false} NoAlwaysNarrow<C>(m: Machine<C>, st: Conf<C>, n: nat)
    requires WellFormed(m) && LeafList(m.chart, st.leaves) && NoAlways(m)
    ensures NarrowFlush(m, st, n)
    decreases n
  {
    NoAlwaysNone(m, st.leaves, st.ctx);
    if n > 0 && st.internal != [] {
      NextLeafList(m, st, PopInternal);
      NoAlwaysNarrow(m, Next(m, st, PopInternal), n - 1);
    }
  }

  lemma {:induction false} NoParallelNarrow<C>(m: Machine<C>, st: Conf<C>, n: nat)
    requires WellFormed(m) && NoParallel(m.chart) && TimersApart(m) && Good(m, st)
    ensures NarrowFlush(m, st, n)
    ensures Flush(m, st, n).Some? ==> Good(m, Flush(m, st, n).value)
    decreases n
  {
    var mv := if st.internal != [] then PopInternal else FirstNull;
    NoParallelClean(m, st, mv);
    OneLeafOneNull(m, st.leaves, st.ctx, st.leaves[0]);
    if n > 0 {
      NextGood(m, st, mv);
      NextLeafList(m, st, mv);
      NoParallelNarrow(m, Next(m, st, mv), n - 1);
    }
  }

  /** Every event sequence is narrow on machines without always transitions and on machines
      without parallel states. */
  lemma {:induction false} NoAlwaysRun<C>(m: Machine<C>, events: seq<Event>)
    requires WellFormed(m) && NoAlways(m)
    ensures NarrowRun(m, events)
    decreases |events|
  {
    if events == [] {
      StartGood(m);
      NoAlwaysNarrow(m, StartConf(m), MAX_FLUSH_ITER);
    } else {
      var front, ev := events[..|events| - 1], events[|events| - 1];
      NoAlwaysRun(m, front);
      if HarnessRun(m, front).Some? {
        var before := HarnessRun(m, front).value;
        NextLeafList(m, before, Move.Step(ev));
        NoAlwaysNarrow(m, Next(m, before, Move.Step(ev)), MAX_FLUSH_ITER);
      }
    }
  }

  lemma {:induction false} NoParallelRun<C>(m: Machine<C>, events: seq<Event>)
    requires WellFormed(m) && NoParallel(m.chart) && TimersApart(m)
    ensures NarrowRun(m, events)
    ensures HarnessRun(m, events).Some? ==> Good(m, HarnessRun(m, events).value)
    decreases |events|
  {
    if events == [] {
      StartGood(m);
      NoParallelNarrow(m, StartConf(m), MAX_FLUSH_ITER);
    } else {
      var front, ev := events[..|events| - 1], events[|events| - 1];
      NoParallelRun(m, front);
      if HarnessRun(m, front).Some? {
        var before := HarnessRun(m, front).value;
        NoParallelClean(m, before, Move.Step(ev));
        NextGood(m, before, Move.Step(ev));
        NoParallelNarrow(m, Next(m, before, Move.Step(ev)), MAX_FLUSH_ITER);
      }
    }
  }
}
