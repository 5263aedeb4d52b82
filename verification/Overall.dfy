/** From a declaration to every run of a service that executes it. */
module Overall {
  import opened Seqs
  import opened Navigation
  import opened Hypotheses
  import opened Machines
  import opened Declarations
  import opened Interpreter
  import opened Runs
  import opened RunLoop
  import opened Forests
  import opened Resolution
  import opened Compiling
  import opened Flushing
  import opened Services
  import opened Harnesses

  /** What a valid declaration compiles to is fit to run. */
  ghost function CompiledFrom<C>(cfg: MachineDecl<C>): (m: Machine<C>)
    requires Valid(cfg)
    ensures WellFormed(m) && TimersApart(m) && Coherent(m, StartConf(m))
  {
    CompiledWellFormed(cfg);
    CompiledTimersApart(cfg);
    StartGood(MachineOf(cfg));
    MachineOf(cfg)
  }

  /** A valid declaration without parallel states: whatever the event loop and its environment do,
      exactly one leaf is active and configuration, log, timers and invocations agree. */
  lemma SequentialServiceGood<C>(cfg: MachineDecl<C>, capacity: nat, labels: seq<Label>)
    requires Valid(cfg) && NoParallel(CompiledFrom(cfg).chart)
    ensures var m := CompiledFrom(cfg);
      var r := SysRun(m, InitialSys(StartConf(m)), capacity, labels);
      r.status == Running ==> Good(m, r.conf) && forall l :: l in r.conf.leaves ==> l == r.conf.leaves[0]
  {
    var m := CompiledFrom(cfg);
    var s := InitialSys(StartConf(m));
    StartGood(m);
    SysIsRun(m, s, capacity, labels);
    NoParallelRunGood(m, StartConf(m), SysMoves(m, s, capacity, labels));
  }

  /** A valid declaration with parallel states: the same as long as every move is clean. */
  lemma CleanServiceGood<C>(cfg: MachineDecl<C>, capacity: nat, labels: seq<Label>)
    requires Valid(cfg)
    requires var m := CompiledFrom(cfg);
      && (forall a :: m.chart.Below(a, m.initial) ==> !m.chart.IsAnd(a))
      && CleanRun(m, StartConf(m), SysMoves(m, InitialSys(StartConf(m)), capacity, labels))
    ensures var m := CompiledFrom(cfg);
      var r := SysRun(m, InitialSys(StartConf(m)), capacity, labels);
      r.status == Running ==> Good(m, r.conf) && Increasing(m.chart, Dedup(r.conf.leaves))
  {
    ServiceRunGood(CompiledFrom(cfg), capacity, labels);
  }

  /** A valid declaration without parallel states or without always transitions: whatever happens,
      the service does not panic on events on which the harness does not, and when it has settled
      it is in the harness's state. */
  lemma DeclaredServiceFollowsHarness<C>(cfg: MachineDecl<C>, capacity: nat, labels: seq<Label>)
    requires Valid(cfg) && (NoParallel(CompiledFrom(cfg).chart) || NoAlways(CompiledFrom(cfg)))
    requires var m := CompiledFrom(cfg);
      HarnessRun(m, SysRun(m, InitialSys(StartConf(m)), capacity, labels).hist.events).Some?
    ensures var m := CompiledFrom(cfg);
      var r := SysRun(m, InitialSys(StartConf(m)), capacity, labels);
      && r.status != Panicked
      && (r.status == Running && Quiescent(m, r.conf) ==> HarnessRun(m, r.hist.events) == Some(r.conf))
  {
    var m := CompiledFrom(cfg);
    var events := SysRun(m, InitialSys(StartConf(m)), capacity, labels).hist.events;
    if NoAlways(m) {
      NoAlwaysRun(m, events);
    } else {
      NoParallelRun(m, events);
    }
    ServiceFollowsHarness(m, capacity, labels);
  }

  // ---------------------------------------------------------------- the imperative code, composed

  /** Compiles a declaration, starts a service on it and lets it run among whatever its environment
      does: refused exactly when the declaration is not valid, and otherwise the objects end in the
      state of the step system that the theorems speak about. */
  method RunDeclared<C>(cfg: MachineDecl<C>, mailboxSize: nat, labels: seq<Label>)
    returns (svc: Option<Service<C>>)
    ensures svc.Some? <==> Valid(cfg)
    ensures svc.Some? ==>
      var m := CompiledFrom(cfg);
      && fresh(svc.value) && svc.value.Valid() && svc.value.machine == m
      && svc.value.System() == SysRun(m, InitialSys(StartConf(m)), mailboxSize, labels)
    ensures svc.Some? && NoParallel(CompiledFrom(cfg).chart) && svc.value.status == Running ==>
      && Good(CompiledFrom(cfg), svc.value.View()) && svc.value.Armed()
      && forall l :: l in svc.value.leaves ==> l == svc.value.leaves[0]
  {
    var compiler := new Compiler<C>();
    var r := compiler.Compile(cfg);
    if r.Failed? {
      return None;
    }
    ghost var fit := CompiledFrom(cfg);
    var s := Services.Start(r.machine, mailboxSize);
    s.Execute(labels);
    if NoParallel(fit.chart) {
      SequentialServiceGood(cfg, mailboxSize, labels);
      if s.status == Running {
        CompiledOwnTimers(cfg);
        s.ScopedIsArmed();
      }
    }
    return Some(s);
  }

  /** A new harness that is sent events one after the other: it panics exactly where the harness's
      run of these events does, and otherwise ends in the state of that run. */
  method SendToNew<C>(m: Machine<C>, events: seq<Event>) returns (h: Harness<C>, ok: bool)
    requires WellFormed(m)
    ensures fresh(h) && h.machine == m && (ok <==> HarnessRun(m, events).Some?)
    ensures ok ==> h.sent == events && h.Settled()
  {
    h, ok := NewHarness(m);
    assert [] + events == events;
    if !ok {
      PanicsStay(m, [], events);
      return;
    }
    var _, sent := h.SendAll(events);
    ok := sent;
  }
}
