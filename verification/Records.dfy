/** What a harness keeps of its events: one record per microstep, each beginning where the one before
    it ended, and how many of the events that timers bring cause a transition. */
module Records {
  import opened Charts
  import opened Navigation
  import opened Machines
  import opened Interpreter
  import opened Runs
  import opened Flushing
  import opened Snapshots
  import opened Harnesses

  /** The snapshots published so far lead from `start` to where the machine is. */
  ghost predicate Traced<C>(m: Machine<C>, start: StateID, st: Conf<C>)
    requires WellFormed(m)
  {
    Coherent(m, st) && Chained(start, st.notified) && st.leaves[0] == LastState(start, st.notified)
  }

  lemma TracedNext<C>(m: Machine<C>, start: StateID, st: Conf<C>, mv: Move)
    requires WellFormed(m) && Traced(m, start, st)
    ensures Traced(m, start, Next(m, st, mv))
  {
    ChainedNext(m, st, mv, start);
    NextCoherent(m, st, mv);
  }

  lemma {:induction false} FlushTraced<C>(m: Machine<C>, start: StateID, st: Conf<C>, n: nat)
    requires WellFormed(m) && Traced(m, start, st)
    ensures Flush(m, st, n).Some? ==> Traced(m, start, Flush(m, st, n).value)
    decreases n
  {
    if n > 0 && !(st.internal == [] && EnabledNull(m, st.leaves, st.ctx) == []) {
      var mv := if st.internal != [] then PopInternal else FirstNull;
      TracedNext(m, start, st, mv);
      FlushTraced(m, start, Next(m, st, mv), n - 1);
    }
  }

  lemma SentTraced<C>(m: Machine<C>, start: StateID, st: Conf<C>, mv: Move)
    requires WellFormed(m) && Traced(m, start, st)
    ensures Traced(m, start, Next(m, st, mv))
    ensures var r := Flush(m, Next(m, st, mv), MAX_FLUSH_ITER); r.Some? ==> Traced(m, start, r.value)
  {
    TracedNext(m, start, st, mv);
    FlushTraced(m, start, Next(m, st, mv), MAX_FLUSH_ITER);
  }

  lemma StartTraced<C>(m: Machine<C>)
    requires WellFormed(m)
    ensures LeafTargets(m.chart, m.initial) != [] && Traced(m, LeafTargets(m.chart, m.initial)[0], StartConf(m))
  {
    StartGood(m);
    StartSnapshot(m);
  }

  lemma {:induction false} HarnessTraced<C>(m: Machine<C>, events: seq<Event>)
    requires WellFormed(m)
    ensures LeafTargets(m.chart, m.initial) != []
    ensures HarnessRun(m, events).Some? ==> Traced(m, LeafTargets(m.chart, m.initial)[0], HarnessRun(m, events).value)
  {
    StartTraced(m);
    var start := LeafTargets(m.chart, m.initial)[0];
    if events == [] {
      FlushTraced(m, start, StartConf(m), MAX_FLUSH_ITER);
    } else {
      var front := events[..|events| - 1];
      HarnessTraced(m, front);
      if HarnessRun(m, front).Some? {
        SentTraced(m, start, HarnessRun(m, front).value, Move.Step(events[|events| - 1]));
      }
    }
  }

  lemma {:induction false} StepsAt<C>(ns: seq<Snapshot<C>>)
    ensures |StepsOf(ns)| == |ns|
    ensures forall k :: 0 <= k < |ns| ==>
      StepsOf(ns)[k] == StepRecord(ns[k].event, ns[k].previousState, ns[k].state, ns[k].context)
  {
    if ns != [] {
      StepsAt(ns[..|ns| - 1]);
    }
  }

  /** The records lead from the first default leaf of the initial state to the state that the
      harness is in, without a gap. */
  lemma RecordsTraced<C>(m: Machine<C>, events: seq<Event>)
    requires WellFormed(m) && HarnessRun(m, events).Some?
    ensures LeafTargets(m.chart, m.initial) != [] && HarnessRun(m, events).value.leaves != []
    ensures var st := HarnessRun(m, events).value;
      var start, steps := LeafTargets(m.chart, m.initial)[0], StepsOf(st.notified);
      && (forall k :: 0 < k < |steps| ==> steps[k].from == steps[k - 1].to)
      && if steps == [] then st.leaves[0] == start
         else steps[0].from == start && steps[|steps| - 1].to == st.leaves[0]
  {
    HarnessTraced(m, events);
    StepsAt(HarnessRun(m, events).value.notified);
  }

  // ---------------------------------------------------------------- events of timers

  /** The `i`-th of the events causes a transition where those before it lead. */
  ghost predicate Fires<C>(m: Machine<C>, sent: seq<Event>, events: seq<Event>, i: nat)
    requires WellFormed(m) && i < |events|
  {
    HarnessRun(m, sent + events[..i]).Some?
      && var st := HarnessRun(m, sent + events[..i]).value; Enabled(m, st.leaves, st.ctx, events[i]) != []
  }

  lemma FiresFirst<C>(m: Machine<C>, sent: seq<Event>, events: seq<Event>, i: nat)
    requires WellFormed(m) && i < |events|
    ensures i > 0 ==> (Fires(m, sent, events, i) <==> Fires(m, sent + [events[0]], events[1..], i - 1))
    ensures i == 0 ==> (Fires(m, sent, events, 0) <==>
      HarnessRun(m, sent).Some?
        && var st := HarnessRun(m, sent).value; Enabled(m, st.leaves, st.ctx, events[0]) != [])
  {
    if i > 0 {
      assert sent + events[..i] == sent + [events[0]] + events[1..][..i - 1];
    } else {
      assert sent + events[..0] == sent;
    }
  }

  lemma NoneFires<C>(m: Machine<C>, sent: seq<Event>, events: seq<Event>, i: nat)
    requires WellFormed(m) && i < |events| && HarnessRun(m, sent).None?
    ensures !Fires(m, sent, events, i)
  {
    PanicsStay(m, sent, events[..i]);
  }

  /** What `Tick` returns is the number of fired timers whose events cause a transition. */
  lemma {:induction false} TickCounts<C>(m: Machine<C>, sent: seq<Event>, events: seq<Event>)
    requires WellFormed(m)
    ensures TickRun(m, sent, events) == |set i: nat | i < |events| && Fires(m, sent, events, i)|
    decreases |events|
  {
    var all := set i: nat | i < |events| && Fires(m, sent, events, i);
    if HarnessRun(m, sent).None? {
      forall i: nat | i < |events| ensures !Fires(m, sent, events, i) { NoneFires(m, sent, events, i); }
      assert all == {};
    } else if events != [] {
      var rest := events[1..];
      var later := set i: nat | i < |rest| && Fires(m, sent + [events[0]], rest, i);
      TickCounts(m, sent + [events[0]], rest);
      forall i: nat | i < |events|
        ensures i > 0 ==> (Fires(m, sent, events, i) <==> Fires(m, sent + [events[0]], rest, i - 1))
      {
        FiresFirst(m, sent, events, i);
      }
      FiresFirst(m, sent, events, 0);
      Shifted(all, later);
    } else {
      assert all == {};
    }
  }

  lemma Shifted(all: set<nat>, later: set<nat>)
    requires forall i: nat :: i in later <==> i + 1 in all
    ensures |all| == |later| + if 0 in all then 1 else 0
    decreases |later|
  {
    if later == {} {
      forall i | i in all ensures i == 0 {
        assert i > 0 ==> i - 1 in later;
      }
      assert all == if 0 in all then {0} else {};
    } else {
      var x :| x in later;
      Shifted(all - {x + 1}, later - {x});
    }
  }
}
