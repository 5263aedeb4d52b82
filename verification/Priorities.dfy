/** In which order the event loop goes about its work, and when it gives up: what is raised first,
    then always transitions, then one event from outside; a stop only when asked for. The numbers
    are those of the code. */
module Priorities {
  import opened Seqs
  import opened Configurations
  import opened Machines
  import opened Interpreter
  import opened Runs
  import opened Scheduling
  import opened RunLoop
  import opened Flushing

  // ---------------------------------------------------------------- whose turn it is

  /** A raised event, else an always transition, else an event from outside. */
  ghost predicate InTurn<C>(m: Machine<C>, st: Conf<C>, mv: Move)
    requires WellFormed(m)
  {
    if st.internal != [] then mv == PopInternal
    else if EnabledNull(m, st.leaves, st.ctx) != [] then mv == Null
    else mv.Step?
  }

  ghost predicate AllInTurn<C>(m: Machine<C>, st: Conf<C>, moves: seq<Move>)
    requires WellFormed(m) && Coherent(m, st)
    decreases |moves|
  {
    moves != [] ==>
      && InTurn(m, st, moves[0])
      && (NextCoherent(m, st, moves[0]); AllInTurn(m, Next(m, st, moves[0]), moves[1..]))
  }

  lemma {:induction false} InTurnAppend<C>(m: Machine<C>, st: Conf<C>, a: seq<Move>, b: seq<Move>)
    requires WellFormed(m) && Coherent(m, st)
    ensures AllInTurn(m, st, a + b) <==> AllInTurn(m, st, a) && AllInTurn(m, Run(m, st, a), b)
    decreases |a|
  {
    if a == [] {
      assert a + b == b;
    } else {
      NextCoherent(m, st, a[0]);
      assert (a + b)[0] == a[0] && (a + b)[1..] == a[1..] + b;
      InTurnAppend(m, Next(m, st, a[0]), a[1..], b);
    }
  }

  lemma OneInTurn<C>(m: Machine<C>, st: Conf<C>, mv: Move)
    requires WellFormed(m) && Coherent(m, st) && InTurn(m, st, mv)
    ensures AllInTurn(m, st, [mv])
  {
    NextCoherent(m, st, mv);
    assert [mv][1..] == [];
  }

  lemma {:induction false} AlwaysInTurn<C>(m: Machine<C>, st: Conf<C>, n: nat)
    requires WellFormed(m) && Coherent(m, st) && st.internal == []
    ensures AllInTurn(m, st, AlwaysMoves(m, st, n))
    decreases n
  {
    if n > 0 && EnabledNull(m, st.leaves, st.ctx) != [] {
      NextCoherent(m, st, Null);
      var st' := Next(m, st, Null);
      if st'.internal == [] {
        AlwaysInTurn(m, st', n - 1);
        assert ([Null] + AlwaysMoves(m, st', n - 1))[1..] == AlwaysMoves(m, st', n - 1);
      } else {
        assert ([Null] + [])[1..] == [];
      }
    }
  }

  lemma IterateInTurn<C>(m: Machine<C>, s: Sys<C>, choice: Choice)
    requires WellFormed(m) && Coherent(m, s.conf)
    ensures AllInTurn(m, s.conf, IterateMoves(m, s, choice))
  {
    if s.conf.internal != [] {
      OneInTurn(m, s.conf, PopInternal);
    } else {
      var a := AlwaysMoves(m, s.conf, MAX_ALWAYS_ITER);
      var (o, c1) := AlwaysRun(m, s.conf, MAX_ALWAYS_ITER);
      AlwaysInTurn(m, s.conf, MAX_ALWAYS_ITER);
      AlwaysRunMoves(m, s.conf, MAX_ALWAYS_ITER);
      AlwaysRunOutcome(m, s.conf, MAX_ALWAYS_ITER);
      assert a + [] == a;
      if o == Quiet && choice == TakeMail && s.mailbox != [] {
        OneInTurn(m, c1, Move.Step(s.mailbox[0]));
        InTurnAppend(m, s.conf, a, [Move.Step(s.mailbox[0])]);
      } else if o == Quiet && choice == TakeFire && s.fires != [] {
        OneInTurn(m, c1, Move.Step(s.fires[0].event));
        InTurnAppend(m, s.conf, a, [Move.Step(s.fires[0].event)]);
      }
    }
  }

  /** In every run of the event loop every move is the one whose turn it is. */
  lemma {:induction false} SysInTurn<C>(m: Machine<C>, s: Sys<C>, capacity: nat, labels: seq<Label>)
    requires WellFormed(m) && Coherent(m, s.conf) && s.status == Running
    ensures AllInTurn(m, s.conf, SysMoves(m, s, capacity, labels))
    decreases |labels|
  {
    if labels != [] {
      var s1, first := SysStep(m, s, capacity, labels[0]), StepMoves(m, s, labels[0]);
      StepIsRun(m, s, capacity, labels[0]);
      if labels[0].Loop? { IterateInTurn(m, s, labels[0].choice); }
      InTurnAppend(m, s.conf, first, SysMoves(m, s1, capacity, labels[1..]));
      if s1.status == Running {
        SysInTurn(m, s1, capacity, labels[1..]);
      } else {
        SysStaysStopped(m, s1, capacity, labels[1..]);
      }
    }
  }

  // ---------------------------------------------------------------- giving up

  /** The state after `k` microsteps of always transitions. */
  ghost function AfterNulls<C>(m: Machine<C>, st: Conf<C>, k: nat): (r: Conf<C>)
    requires WellFormed(m) && LeafList(m.chart, st.leaves)
    ensures LeafList(m.chart, r.leaves)
    decreases k, |st.internal|
  {
    if k == 0 then st
    else
      NextLeafList(m, AfterNulls(m, st, k - 1), Null);
      Next(m, AfterNulls(m, st, k - 1), Null)
  }

  lemma {:induction false} NullsShift<C>(m: Machine<C>, st: Conf<C>, k: nat)
    requires WellFormed(m) && LeafList(m.chart, st.leaves)
    ensures LeafList(m.chart, Next(m, st, Null).leaves)
    ensures AfterNulls(m, Next(m, st, Null), k) == AfterNulls(m, st, k + 1)
  {
    NextLeafList(m, st, Null);
    if k > 0 {
      NullsShift(m, st, k - 1);
    } else {
      assert AfterNulls(m, st, 0) == st;
    }
  }

  /** The run of always transitions, microstep by microstep. */
  lemma {:induction false} AlwaysCount<C>(m: Machine<C>, st: Conf<C>, n: nat) returns (k: nat)
    requires WellFormed(m) && LeafList(m.chart, st.leaves) && st.internal == []
    ensures var (o, r) := AlwaysRun(m, st, n);
      && k <= n && r == AfterNulls(m, st, k)
      && (o == Quiet ==> k < n && EnabledNull(m, r.leaves, r.ctx) == [])
      && (o == Raised ==> k > 0 && r.internal != [])
      && (o == Looping ==> k == n && r.internal == [])
    ensures forall j :: 0 <= j < k ==>
      AfterNulls(m, st, j).internal == [] && EnabledNull(m, AfterNulls(m, st, j).leaves, AfterNulls(m, st, j).ctx) != []
    decreases n
  {
    k := 0;
    if n > 0 && EnabledNull(m, st.leaves, st.ctx) != [] {
      NextLeafList(m, st, Null);
      var st' := Next(m, st, Null);
      assert AfterNulls(m, st, 0) == st;
      NullsShift(m, st, 0);
      if st'.internal != [] {
        k := 1;
      } else {
        k := AlwaysCount(m, st', n - 1);
        NullsShift(m, st, k);
        forall j | 0 <= j < k + 1
          ensures AfterNulls(m, st, j).internal == []
          ensures EnabledNull(m, AfterNulls(m, st, j).leaves, AfterNulls(m, st, j).ctx) != []
        {
          if j > 0 { NullsShift(m, st, j - 1); }
        }
        k := k + 1;
      }
    }
  }

  /** After `j` microsteps another always transition is enabled, and taking it raises nothing. */
  ghost predicate GoesOn<C>(m: Machine<C>, st: Conf<C>, j: nat)
    requires WellFormed(m) && LeafList(m.chart, st.leaves)
  {
    var c := AfterNulls(m, st, j);
    EnabledNull(m, c.leaves, c.ctx) != [] && AfterNulls(m, st, j + 1).internal == []
  }

  /** The service panics exactly when always transitions go on for 1000 microsteps. */
  lemma PanicsExactly<C>(m: Machine<C>, s: Sys<C>, choice: Choice)
    requires WellFormed(m) && LeafList(m.chart, s.conf.leaves) && s.status == Running
    ensures Iterate(m, s, choice).status == Panicked <==>
      s.conf.internal == [] && forall j :: 0 <= j < 1000 ==> GoesOn(m, s.conf, j)
  {
    if s.conf.internal == [] {
      var k := AlwaysCount(m, s.conf, MAX_ALWAYS_ITER);
      var (o, r) := AlwaysRun(m, s.conf, MAX_ALWAYS_ITER);
      AlwaysRunOutcome(m, s.conf, MAX_ALWAYS_ITER);
      if o == Looping {
        forall j | 0 <= j < 1000 ensures GoesOn(m, s.conf, j) {
          assert j + 1 < k ==> AfterNulls(m, s.conf, j + 1).internal == [];
        }
      } else if o == Raised {
        assert !GoesOn(m, s.conf, k - 1);
      } else {
        assert !GoesOn(m, s.conf, k);
      }
    }
  }

  /** The state of a harness after `k` iterations of its flush loop. */
  ghost function AfterFlushes<C>(m: Machine<C>, st: Conf<C>, k: nat): (r: Conf<C>)
    requires WellFormed(m) && LeafList(m.chart, st.leaves)
    ensures LeafList(m.chart, r.leaves)
    decreases k, |st.internal|
  {
    if k == 0 then st
    else
      var p := AfterFlushes(m, st, k - 1);
      var mv := if p.internal != [] then PopInternal else FirstNull;
      NextLeafList(m, p, mv);
      Next(m, p, mv)
  }

  lemma {:induction false} FlushesShift<C>(m: Machine<C>, st: Conf<C>, k: nat)
    requires WellFormed(m) && LeafList(m.chart, st.leaves)
    ensures var st' := Next(m, st, if st.internal != [] then PopInternal else FirstNull);
      LeafList(m.chart, st'.leaves) && AfterFlushes(m, st', k) == AfterFlushes(m, st, k + 1)
  {
    NextLeafList(m, st, if st.internal != [] then PopInternal else FirstNull);
    if k > 0 {
      FlushesShift(m, st, k - 1);
    } else {
      assert AfterFlushes(m, st, 0) == st;
    }
  }

  /** Flushing stops at the first state with nothing to do, within `n` iterations. */
  lemma {:induction false} FlushCount<C>(m: Machine<C>, st: Conf<C>, n: nat) returns (k: nat)
    requires WellFormed(m) && LeafList(m.chart, st.leaves)
    ensures k <= n && forall j :: 0 <= j < k ==> !Quiescent(m, AfterFlushes(m, st, j))
    ensures if k < n then Quiescent(m, AfterFlushes(m, st, k)) && Flush(m, st, n) == Some(AfterFlushes(m, st, k))
      else Flush(m, st, n) == None
    decreases n
  {
    k := 0;
    assert AfterFlushes(m, st, 0) == st;
    if n > 0 && !Quiescent(m, st) {
      var st' := Next(m, st, if st.internal != [] then PopInternal else FirstNull);
      FlushesShift(m, st, 0);
      k := FlushCount(m, st', n - 1);
      FlushesShift(m, st, k);
      forall j | 0 <= j < k + 1 ensures !Quiescent(m, AfterFlushes(m, st, j)) {
        if j > 0 { FlushesShift(m, st, j - 1); }
      }
      k := k + 1;
    }
  }

  /** After one more event the harness is in the first state with nothing to do that it gets to; it
      panics exactly when there is none within 1000 iterations. */
  lemma HarnessSettles<C>(m: Machine<C>, events: seq<Event>, ev: Event, before: Conf<C>)
    requires WellFormed(m) && HarnessRun(m, events) == Some(before)
    ensures var st := Next(m, before, Move.Step(ev));
      var r := HarnessRun(m, events + [ev]);
      && LeafList(m.chart, st.leaves)
      && (r == None <==> forall j :: 0 <= j < 1000 ==> !Quiescent(m, AfterFlushes(m, st, j)))
      && (r != None ==> exists k :: 0 <= k < 1000 && SettlesAt(m, st, k) && r.value == AfterFlushes(m, st, k))
  {
    assert (events + [ev])[..|events|] == events;
    NextLeafList(m, before, Move.Step(ev));
    var st := Next(m, before, Move.Step(ev));
    var k := FlushCount(m, st, 1000);
    assert k < 1000 ==> SettlesAt(m, st, k);
  }

  /** The same for a new harness. */
  lemma NewHarnessSettles<C>(m: Machine<C>)
    requires WellFormed(m)
    ensures var st := StartConf(m);
      var r := HarnessRun(m, []);
      && LeafList(m.chart, st.leaves)
      && (r == None <==> forall j :: 0 <= j < 1000 ==> !Quiescent(m, AfterFlushes(m, st, j)))
      && (r != None ==> exists k :: 0 <= k < 1000 && SettlesAt(m, st, k) && r.value == AfterFlushes(m, st, k))
  {
    StartGood(m);
    var k := FlushCount(m, StartConf(m), 1000);
    assert k < 1000 ==> SettlesAt(m, StartConf(m), k);
  }

  /** `k` iterations are the fewest after which there is nothing to do. */
  ghost predicate SettlesAt<C>(m: Machine<C>, st: Conf<C>, k: nat)
    requires WellFormed(m) && LeafList(m.chart, st.leaves)
  {
    Quiescent(m, AfterFlushes(m, st, k)) && forall j :: 0 <= j < k ==> !Quiescent(m, AfterFlushes(m, st, j))
  }

  // ---------------------------------------------------------------- stopping, and timer fires

  /** A service stops only when asked to, and a running service that is asked to and has nothing
      else to do can stop. */
  lemma {:induction false} StopsWhenAsked<C>(m: Machine<C>, s: Sys<C>, capacity: nat, labels: seq<Label>)
    requires WellFormed(m) && LeafList(m.chart, s.conf.leaves) && s.status == Running && !s.stopRequested
    ensures var r := SysRun(m, s, capacity, labels);
      && (r.stopRequested ==> RequestStop in labels) && (r.status == Stopped ==> r.stopRequested)
      && (r.status == Running && r.stopRequested && Quiescent(m, r.conf) ==>
            SysStep(m, r, capacity, Loop(Cancel)).status == Stopped)
  {
    StopRequests(m, s, capacity, labels);
    var r := SysRun(m, s, capacity, labels);
    if r.status == Running && Quiescent(m, r.conf) {
      QuietStops(m, r);
    }
  }

  lemma QuietStops<C>(m: Machine<C>, r: Sys<C>)
    requires WellFormed(m) && LeafList(m.chart, r.conf.leaves) && Quiescent(m, r.conf)
    ensures AlwaysRun(m, r.conf, MAX_ALWAYS_ITER) == (Quiet, r.conf)
  {
    var k := AlwaysCount(m, r.conf, MAX_ALWAYS_ITER);
    assert AfterNulls(m, r.conf, 0) == r.conf;
  }

  lemma {:induction false} StopRequests<C>(m: Machine<C>, s: Sys<C>, capacity: nat, labels: seq<Label>)
    requires WellFormed(m) && LeafList(m.chart, s.conf.leaves) && (s.status == Stopped ==> s.stopRequested)
    ensures var r := SysRun(m, s, capacity, labels);
      (r.stopRequested ==> s.stopRequested || RequestStop in labels) && (r.status == Stopped ==> r.stopRequested)
    decreases |labels|
  {
    if labels != [] {
      StopRequests(m, SysStep(m, s, capacity, labels[0]), capacity, labels[1..]);
    }
  }

  /** The buffer between timers and loop has room for 64 fires; what finds no room is dropped, and
      only that. */
  lemma FiresKept<C>(m: Machine<C>, s: Sys<C>, capacity: nat, fire: TimedFire)
    requires WellFormed(m) && LeafList(m.chart, s.conf.leaves) && s.status == Running
    ensures var r := SysStep(m, s, capacity, Fire(fire));
      && (|s.fires| < 64 ==> r.fires == s.fires + [fire] && r.hist.offered == s.hist.offered + [fire])
      && (|s.fires| >= 64 ==> r == s)
  {
  }
}
