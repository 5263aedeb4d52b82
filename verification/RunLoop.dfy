/** The service's event loop as a step system: raised events first, then always transitions,
    then one external or timer event; and what every run of it keeps. */
module RunLoop {
  import opened Seqs
  import opened Navigation
  import opened Configurations
  import opened Machines
  import opened Interpreter
  import opened Runs
  import opened Scheduling

  const MAX_ALWAYS_ITER: nat := 1000

  datatype Outcome = Quiet | Raised | Looping

  /** Apply enabled always transitions until none is left or an event has been raised, at most
      `n` times. */
  ghost function AlwaysRun<C>(m: Machine<C>, st: Conf<C>, n: nat): (r: (Outcome, Conf<C>))
    requires WellFormed(m) && LeafList(m.chart, st.leaves)
    ensures LeafList(m.chart, r.1.leaves)
    decreases n, |st.internal|
  {
    if n == 0 then (Looping, st)
    else if EnabledNull(m, st.leaves, st.ctx) == [] then (Quiet, st)
    else
      NextLeafList(m, st, Null);
      var st' := Next(m, st, Null);
      if st'.internal != [] then (Raised, st') else AlwaysRun(m, st', n - 1)
  }

  lemma NextLeafList<C>(m: Machine<C>, st: Conf<C>, mv: Move)
    requires WellFormed(m) && LeafList(m.chart, st.leaves)
    ensures LeafList(m.chart, Next(m, st, mv).leaves)
  {
    NextIs(m, st, mv);
    PendingUsable(m, st, mv);
  }

  /** Nothing to do before the next external event. */
  ghost predicate Quiescent<C>(m: Machine<C>, st: Conf<C>)
    requires WellFormed(m)
  {
    st.internal == [] && EnabledNull(m, st.leaves, st.ctx) == []
  }

  /** A move takes at most the oldest raised event off the queue, and appends. */
  lemma NextAppends<C>(m: Machine<C>, st: Conf<C>, mv: Move)
    requires WellFormed(m) && LeafList(m.chart, st.leaves)
    ensures Popped(st, mv).internal <= Next(m, st, mv).internal
  {
    NextIs(m, st, mv);
    PendingUsable(m, st, mv);
  }

  // ---------------------------------------------------------------- the system

  datatype Status = Running | Stopped | Panicked

  /** What the select statement of the loop picks when it gets there. */
  datatype Choice = Cancel | TakeMail | TakeFire

  /** One iteration of the loop, or something the environment does. */
  datatype Label = Loop(choice: Choice) | Accept(ev: Event) | Fire(fire: TimedFire) | RequestStop

  /** What has happened: `accepted` and `stepped` are the mailbox events taken in and stepped,
      `offered` and `received` the same for timer fires, `raised` and `handled` for raised events,
      `events` the mailbox and timer events stepped and `taken` the interpreter states in which
      they were taken. */
  datatype History<C> = History(accepted: seq<Event>, stepped: seq<Event>, offered: seq<TimedFire>,
                                received: seq<TimedFire>, raised: seq<Event>, handled: seq<Event>,
                                events: seq<Event>, taken: seq<Conf<C>>)
  {
    function Raise(more: seq<Event>): History<C> { this.(raised := raised + more) }

    function StepMail(ev: Event, st: Conf<C>, more: seq<Event>): History<C> {
      this.(stepped := stepped + [ev], events := events + [ev], taken := taken + [st], raised := raised + more)
    }

    function StepFire(fire: TimedFire, st: Conf<C>, more: seq<Event>): History<C> {
      this.(received := received + [fire], events := events + [fire.event], taken := taken + [st],
            raised := raised + more)
    }

    function Offer(fire: TimedFire): History<C> { this.(offered := offered + [fire]) }

    function HandleRaised(ev: Event, more: seq<Event>): History<C> {
      this.(handled := handled + [ev], raised := raised + more)
    }
  }

  /** The service with its channels. */
  datatype Sys<C> = Sys(conf: Conf<C>, mailbox: seq<Event>, fires: seq<TimedFire>,
                        stopRequested: bool, status: Status, hist: History<C>)

  /** Leaving the loop cancels every timer and invocation. */
  function Teardown<C>(st: Conf<C>): Conf<C> {
    st.(timers := {}, inv := Invocations(map[], st.inv.next,
                                         st.inv.cancelled + set s, h | s in st.inv.held && h in st.inv.held[s] :: h))
  }

  /** The select statement: a pick that is not ready leaves everything as it is. */
  ghost function Select<C>(m: Machine<C>, s: Sys<C>, choice: Choice): (r: Sys<C>)
    requires WellFormed(m) && LeafList(m.chart, s.conf.leaves) && s.conf.internal == []
    ensures LeafList(m.chart, r.conf.leaves)
  {
    match choice
    case Cancel =>
      if s.stopRequested then s.(conf := Teardown(s.conf), status := Stopped) else s
    case TakeMail =>
      if s.mailbox == [] then s
      else
        NextLeafList(m, s.conf, Move.Step(s.mailbox[0]));
        var c := Next(m, s.conf, Move.Step(s.mailbox[0]));
        s.(conf := c, mailbox := s.mailbox[1..],
           hist := s.hist.StepMail(s.mailbox[0], s.conf, c.internal))
    case TakeFire =>
      if s.fires == [] then s
      else
        NextLeafList(m, s.conf, Move.Step(s.fires[0].event));
        var c := Next(m, s.conf, Move.Step(s.fires[0].event));
        s.(conf := c, fires := s.fires[1..], hist := s.hist.StepFire(s.fires[0], s.conf, c.internal))
  }

  ghost function Iterate<C>(m: Machine<C>, s: Sys<C>, choice: Choice): (r: Sys<C>)
    requires WellFormed(m) && LeafList(m.chart, s.conf.leaves)
    ensures LeafList(m.chart, r.conf.leaves)
  {
    var q := s.conf.internal;
    if q != [] then
      NextLeafList(m, s.conf, PopInternal);
      NextAppends(m, s.conf, PopInternal);
      var c := Next(m, s.conf, PopInternal);
      s.(conf := c, hist := s.hist.HandleRaised(q[0], c.internal[|q| - 1..]))
    else
      var (o, c1) := AlwaysRun(m, s.conf, MAX_ALWAYS_ITER);
      var s1 := s.(conf := c1, hist := s.hist.Raise(c1.internal));
      match o
      case Raised => s1
      case Looping => s1.(conf := Teardown(c1), status := Panicked)
      case Quiet =>
        AlwaysRunOutcome(m, s.conf, MAX_ALWAYS_ITER);
        Select(m, s1, choice)
  }

  ghost function SysStep<C>(m: Machine<C>, s: Sys<C>, capacity: nat, l: Label): (r: Sys<C>)
    requires WellFormed(m) && LeafList(m.chart, s.conf.leaves)
    ensures LeafList(m.chart, r.conf.leaves)
  {
    if s.status != Running then s
    else match l
      case Loop(choice) => Iterate(m, s, choice)
      case Accept(ev) =>
        if s.stopRequested || |s.mailbox| >= capacity then s
        else s.(mailbox := s.mailbox + [ev], hist := s.hist.(accepted := s.hist.accepted + [ev]))
      case Fire(fire) =>
        if |s.fires| >= SCHEDULER_BUF_SIZE then s
        else s.(fires := s.fires + [fire], hist := s.hist.Offer(fire))
      case RequestStop => s.(stopRequested := true)
  }

  ghost function SysRun<C>(m: Machine<C>, s: Sys<C>, capacity: nat, labels: seq<Label>): (r: Sys<C>)
    requires WellFormed(m) && LeafList(m.chart, s.conf.leaves)
    ensures LeafList(m.chart, r.conf.leaves)
    decreases |labels|
  {
    if labels == [] then s
    else SysRun(m, SysStep(m, s, capacity, labels[0]), capacity, labels[1..])
  }

  ghost function InitialSys<C>(conf: Conf<C>): Sys<C> {
    Sys(conf, [], [], false, Running, History([], [], [], [], conf.internal, [], [], []))
  }

  // ---------------------------------------------------------------- run to completion

  /** All three queues are first-in first-out and lose nothing, and external events are taken only
      when there is nothing else to do. */
  ghost predicate RunsToCompletion<C>(m: Machine<C>, s: Sys<C>)
    requires WellFormed(m)
  {
    && s.hist.accepted == s.hist.stepped + s.mailbox
    && s.hist.offered == s.hist.received + s.fires
    && s.hist.raised == s.hist.handled + s.conf.internal
    && forall k :: 0 <= k < |s.hist.taken| ==> Quiescent(m, s.hist.taken[k])
  }

  lemma {:induction false} AlwaysRunOutcome<C>(m: Machine<C>, st: Conf<C>, n: nat)
    requires WellFormed(m) && LeafList(m.chart, st.leaves) && st.internal == []
    ensures var (o, r) := AlwaysRun(m, st, n);
      && (o == Quiet ==> Quiescent(m, r))
      && (o == Looping ==> r.internal == [])
      && (o == Raised ==> r.internal != [])
    decreases n
  {
    if n > 0 && EnabledNull(m, st.leaves, st.ctx) != [] {
      NextLeafList(m, st, Null);
      var st' := Next(m, st, Null);
      if st'.internal == [] {
        AlwaysRunOutcome(m, st', n - 1);
      }
    }
  }

  /** A queue loses nothing when its first element is taken and more is appended. */
  lemma QueueStep<T>(into: seq<T>, done: seq<T>, queue: seq<T>, after: seq<T>)
    requires into == done + queue && queue != [] && queue[1..] <= after
    ensures into + after[|queue| - 1..] == done + [queue[0]] + after
  {
    assert after == queue[1..] + after[|queue| - 1..];
    assert done + queue == done + [queue[0]] + queue[1..];
  }

  lemma IterateMailbox<C>(m: Machine<C>, s: Sys<C>, choice: Choice)
    requires WellFormed(m) && LeafList(m.chart, s.conf.leaves)
    requires s.hist.accepted == s.hist.stepped + s.mailbox
    ensures var r := Iterate(m, s, choice); r.hist.accepted == r.hist.stepped + r.mailbox
  {
    if s.mailbox != [] {
      QueueStep(s.hist.accepted, s.hist.stepped, s.mailbox, s.mailbox[1..]);
      assert s.hist.accepted + [] == s.hist.accepted;
    }
  }

  lemma IterateFires<C>(m: Machine<C>, s: Sys<C>, choice: Choice)
    requires WellFormed(m) && LeafList(m.chart, s.conf.leaves)
    requires s.hist.offered == s.hist.received + s.fires
    ensures var r := Iterate(m, s, choice); r.hist.offered == r.hist.received + r.fires
  {
    if s.fires != [] {
      QueueStep(s.hist.offered, s.hist.received, s.fires, s.fires[1..]);
      assert s.hist.offered + [] == s.hist.offered;
    }
  }

  lemma IterateRaised<C>(m: Machine<C>, s: Sys<C>, choice: Choice)
    requires WellFormed(m) && LeafList(m.chart, s.conf.leaves)
    requires s.hist.raised == s.hist.handled + s.conf.internal
    ensures var r := Iterate(m, s, choice); r.hist.raised == r.hist.handled + r.conf.internal
  {
    if s.conf.internal != [] {
      PoppedRaised(m, s, choice);
    } else {
      AlwaysRaised(m, s, choice);
    }
  }

  /** A raised event is handled. */
  lemma PoppedRaised<C>(m: Machine<C>, s: Sys<C>, choice: Choice)
    requires WellFormed(m) && LeafList(m.chart, s.conf.leaves) && s.conf.internal != []
    requires s.hist.raised == s.hist.handled + s.conf.internal
    ensures var r := Iterate(m, s, choice); r.hist.raised == r.hist.handled + r.conf.internal
  {
    NextAppends(m, s.conf, PopInternal);
    QueueStep(s.hist.raised, s.hist.handled, s.conf.internal, Next(m, s.conf, PopInternal).internal);
  }

  lemma Nothing<T>(into: seq<T>, done: seq<T>)
    requires into == done + []
    ensures into == done && forall more :: into + more == done + more
  {
  }

  /** Always transitions, or an external event, raise more. */
  lemma AlwaysRaised<C>(m: Machine<C>, s: Sys<C>, choice: Choice)
    requires WellFormed(m) && LeafList(m.chart, s.conf.leaves) && s.conf.internal == []
    requires s.hist.raised == s.hist.handled + s.conf.internal
    ensures var r := Iterate(m, s, choice); r.hist.raised == r.hist.handled + r.conf.internal
  {
    AlwaysRunOutcome(m, s.conf, MAX_ALWAYS_ITER);
    Nothing(s.hist.raised, s.hist.handled);
    var c1 := AlwaysRun(m, s.conf, MAX_ALWAYS_ITER).1;
    assert c1.internal == [] ==> s.hist.raised + c1.internal == s.hist.raised;
  }

  lemma IterateTaken<C>(m: Machine<C>, s: Sys<C>, choice: Choice)
    requires WellFormed(m) && LeafList(m.chart, s.conf.leaves)
    ensures var r := Iterate(m, s, choice);
      r.hist.taken == s.hist.taken || (exists c :: r.hist.taken == s.hist.taken + [c] && Quiescent(m, c))
  {
    if s.conf.internal == [] {
      AlwaysRunOutcome(m, s.conf, MAX_ALWAYS_ITER);
      var (o, c1) := AlwaysRun(m, s.conf, MAX_ALWAYS_ITER);
      var r := Iterate(m, s, choice);
      if o == Quiet {
        assert Quiescent(m, c1);
        assert r.hist.taken == s.hist.taken || r.hist.taken == s.hist.taken + [c1];
      } else {
        assert r.hist.taken == s.hist.taken;
      }
    }
  }

  lemma IterateCompletes<C>(m: Machine<C>, s: Sys<C>, choice: Choice)
    requires WellFormed(m) && LeafList(m.chart, s.conf.leaves) && RunsToCompletion(m, s)
    ensures RunsToCompletion(m, Iterate(m, s, choice))
  {
    IterateMailbox(m, s, choice);
    IterateFires(m, s, choice);
    IterateRaised(m, s, choice);
    IterateTaken(m, s, choice);
  }

  /** Every run of the event loop runs to completion. */
  lemma {:induction false} EveryRunCompletes<C>(m: Machine<C>, s: Sys<C>, capacity: nat, labels: seq<Label>)
    requires WellFormed(m) && LeafList(m.chart, s.conf.leaves) && RunsToCompletion(m, s)
    ensures RunsToCompletion(m, SysRun(m, s, capacity, labels))
    decreases |labels|
  {
    if labels != [] {
      if s.status == Running && labels[0].Loop? {
        IterateCompletes(m, s, labels[0].choice);
      }
      EveryRunCompletes(m, SysStep(m, s, capacity, labels[0]), capacity, labels[1..]);
    }
  }

  // ---------------------------------------------------------------- runs are moves

  ghost function AlwaysMoves<C>(m: Machine<C>, st: Conf<C>, n: nat): seq<Move>
    requires WellFormed(m) && LeafList(m.chart, st.leaves)
    decreases n, |st.internal|
  {
    if n == 0 || EnabledNull(m, st.leaves, st.ctx) == [] then []
    else
      NextLeafList(m, st, Null);
      var st' := Next(m, st, Null);
      [Null] + if st'.internal != [] then [] else AlwaysMoves(m, st', n - 1)
  }

  /** The moves one iteration makes. */
  ghost function IterateMoves<C>(m: Machine<C>, s: Sys<C>, choice: Choice): seq<Move>
    requires WellFormed(m) && LeafList(m.chart, s.conf.leaves)
  {
    if s.conf.internal != [] then [PopInternal]
    else
      var o := AlwaysRun(m, s.conf, MAX_ALWAYS_ITER).0;
      AlwaysMoves(m, s.conf, MAX_ALWAYS_ITER)
      + if o == Quiet && choice == TakeMail && s.mailbox != [] then [Move.Step(s.mailbox[0])]
        else if o == Quiet && choice == TakeFire && s.fires != [] then [Move.Step(s.fires[0].event)]
        else []
  }

  ghost function SysMoves<C>(m: Machine<C>, s: Sys<C>, capacity: nat, labels: seq<Label>): seq<Move>
    requires WellFormed(m) && LeafList(m.chart, s.conf.leaves)
    decreases |labels|
  {
    if labels == [] then []
    else
      StepMoves(m, s, labels[0])
      + SysMoves(m, SysStep(m, s, capacity, labels[0]), capacity, labels[1..])
  }

  lemma {:induction false} RunAppend<C>(m: Machine<C>, st: Conf<C>, a: seq<Move>, b: seq<Move>)
    requires WellFormed(m) && Coherent(m, st)
    ensures Run(m, st, a + b) == Run(m, Run(m, st, a), b)
    ensures CleanRun(m, st, a + b) <==> CleanRun(m, st, a) && CleanRun(m, Run(m, st, a), b)
    decreases |a|
  {
    if a == [] {
      assert a + b == b;
    } else {
      NextCoherent(m, st, a[0]);
      assert (a + b)[0] == a[0] && (a + b)[1..] == a[1..] + b;
      RunAppend(m, Next(m, st, a[0]), a[1..], b);
    }
  }

  lemma RunOne<C>(m: Machine<C>, st: Conf<C>, mv: Move)
    requires WellFormed(m) && Coherent(m, st)
    ensures Run(m, st, [mv]) == Next(m, st, mv)
  {
    NextCoherent(m, st, mv);
    assert [mv][1..] == [];
  }

  lemma NullThen<C>(m: Machine<C>, st: Conf<C>, moves: seq<Move>)
    requires WellFormed(m) && Coherent(m, st)
    ensures Coherent(m, Next(m, st, Null))
    ensures Run(m, st, [Null] + moves) == Run(m, Next(m, st, Null), moves)
  {
    NextCoherent(m, st, Null);
    assert ([Null] + moves)[1..] == moves;
  }

  lemma {:induction false} AlwaysRunMoves<C>(m: Machine<C>, st: Conf<C>, n: nat)
    requires WellFormed(m) && Coherent(m, st)
    ensures Run(m, st, AlwaysMoves(m, st, n)) == AlwaysRun(m, st, n).1
    decreases n
  {
    if n > 0 && EnabledNull(m, st.leaves, st.ctx) != [] {
      NextCoherent(m, st, Null);
      var st' := Next(m, st, Null);
      if st'.internal == [] {
        AlwaysRunMoves(m, st', n - 1);
        NullThen(m, st, AlwaysMoves(m, st', n - 1));
      } else {
        NullThen(m, st, []);
      }
    }
  }

  /** Until the loop is left, an iteration is a run of moves. */
  lemma IterateIsRun<C>(m: Machine<C>, s: Sys<C>, choice: Choice)
    requires WellFormed(m) && Coherent(m, s.conf) && s.status == Running
    ensures var r := Iterate(m, s, choice);
      var after := Run(m, s.conf, IterateMoves(m, s, choice));
      r.conf == if r.status == Running then after else Teardown(after)
  {
    if s.conf.internal != [] {
      RunOne(m, s.conf, PopInternal);
    } else {
      var (o, c1) := AlwaysRun(m, s.conf, MAX_ALWAYS_ITER);
      var a := AlwaysMoves(m, s.conf, MAX_ALWAYS_ITER);
      AlwaysRunMoves(m, s.conf, MAX_ALWAYS_ITER);
      assert a + [] == a;
      if o == Quiet && choice == TakeMail && s.mailbox != [] {
        RunOne(m, c1, Move.Step(s.mailbox[0]));
        RunAppend(m, s.conf, a, [Move.Step(s.mailbox[0])]);
      } else if o == Quiet && choice == TakeFire && s.fires != [] {
        RunOne(m, c1, Move.Step(s.fires[0].event));
        RunAppend(m, s.conf, a, [Move.Step(s.fires[0].event)]);
      }
    }
  }

  lemma {:induction false} SysStaysStopped<C>(m: Machine<C>, s: Sys<C>, capacity: nat, labels: seq<Label>)
    requires WellFormed(m) && LeafList(m.chart, s.conf.leaves) && s.status != Running
    ensures SysRun(m, s, capacity, labels) == s && SysMoves(m, s, capacity, labels) == []
    decreases |labels|
  {
    if labels != [] {
      SysStaysStopped(m, s, capacity, labels[1..]);
    }
  }

  /** Whatever the environment does, the interpreter state of the event loop is one that a run of
      moves reaches; leaving the loop only tears timers and invocations down. */
  lemma {:induction false} SysIsRun<C>(m: Machine<C>, s: Sys<C>, capacity: nat, labels: seq<Label>)
    requires WellFormed(m) && Coherent(m, s.conf) && s.status == Running
    ensures var r := SysRun(m, s, capacity, labels);
      var after := Run(m, s.conf, SysMoves(m, s, capacity, labels));
      r.conf == if r.status == Running then after else Teardown(after)
    decreases |labels|
  {
    if labels != [] {
      var s1 := SysStep(m, s, capacity, labels[0]);
      var first := StepMoves(m, s, labels[0]);
      StepIsRun(m, s, capacity, labels[0]);
      RunAppend(m, s.conf, first, SysMoves(m, s1, capacity, labels[1..]));
      if s1.status == Running {
        SysIsRun(m, s1, capacity, labels[1..]);
      } else {
        SysStaysStopped(m, s1, capacity, labels[1..]);
        assert first + [] == first;
      }
    }
  }

  ghost function StepMoves<C>(m: Machine<C>, s: Sys<C>, l: Label): seq<Move>
    requires WellFormed(m) && LeafList(m.chart, s.conf.leaves)
  {
    if s.status == Running && l.Loop? then IterateMoves(m, s, l.choice) else []
  }

  lemma StepIsRun<C>(m: Machine<C>, s: Sys<C>, capacity: nat, l: Label)
    requires WellFormed(m) && Coherent(m, s.conf) && s.status == Running
    ensures var r := SysStep(m, s, capacity, l);
      var after := Run(m, s.conf, StepMoves(m, s, l));
      r.conf == if r.status == Running then after else Teardown(after)
  {
    if l.Loop? {
      IterateIsRun(m, s, l.choice);
    }
  }

  /** Once the loop is left no timer is registered and every invocation ever started has been
      cancelled. */
  lemma TeardownReleases<C>(m: Machine<C>, st: Conf<C>)
    requires HandlesOK(st.inv)
    ensures Teardown(st).timers == {} && Teardown(st).inv.held == map[]
    ensures forall h: nat :: h in Teardown(st).inv.cancelled <==> h < st.inv.next
  {
    assert Open(0);
    forall h: nat ensures h in Teardown(st).inv.cancelled <==> h < st.inv.next {
      if h < st.inv.next && h !in st.inv.cancelled {
        var s :| Holds(st.inv, s, h);
        assert s in st.inv.held && h in st.inv.held[s];
      }
      if s :| s in st.inv.held && h in st.inv.held[s] {
        assert Holds(st.inv, s, h);
      }
    }
  }

  /** The event loop of a service whose initial state lies outside parallel states, when every
      move it makes is clean: while it runs the configuration is legal and log, timers and
      invocations match it. */
  lemma ServiceRunGood<C>(m: Machine<C>, capacity: nat, labels: seq<Label>)
    requires WellFormed(m) && TimersApart(m)
    requires forall a :: m.chart.Below(a, m.initial) ==> !m.chart.IsAnd(a)
    requires Coherent(m, StartConf(m))
    requires CleanRun(m, StartConf(m), SysMoves(m, InitialSys(StartConf(m)), capacity, labels))
    ensures var r := SysRun(m, InitialSys(StartConf(m)), capacity, labels);
      r.status == Running ==> Good(m, r.conf) && Increasing(m.chart, Dedup(r.conf.leaves))
  {
    var s := InitialSys(StartConf(m));
    SysIsRun(m, s, capacity, labels);
    ReachableGood(m, SysMoves(m, s, capacity, labels));
  }
}
