/** The supervision loop of an actor, as the steps of the loop, of the services it starts and of
    those who ask it to stop, in any order. */
module Supervision {
  import opened Seqs

  datatype Strategy = NoRestart | RestartAlways | RestartN(maxRestarts: int)

  /** A service instance: running, stopped cleanly, or stopped by a panic. */
  datatype Instance = Live | Clean | Crashed

  /** Where the loop is: at its select, inside the current service's Stop, about to start a new
      service, about to store it, past its return, or gone. */
  datatype Place = Selecting | Stopping | Starting | Storing | Leaving | Gone

  /** `services` are all instances ever started, oldest first, and `current` is the one that
      `svcPtr` points to. */
  datatype Ref = Ref(strategy: Strategy, services: seq<Instance>, current: nat, restarts: nat,
                     place: Place, stopClosed: bool, doneClosed: bool)

  /** What can happen; a label that is not possible changes nothing. Crash and CleanStop happen to
      the newest service, RequestStop is a caller's, the others are the loop's own steps. */
  datatype Label = Crash | CleanStop | RequestStop | SeeStop | StopReturns | SeeDone | StartNew | StoreNew | Close

  predicate ShouldRestart(s: Strategy, count: nat) {
    match s
    case NoRestart => false
    case RestartAlways => true
    case RestartN(max) => count < max
  }

  function Newest(r: Ref): Instance
    requires r.services != []
  {
    r.services[|r.services| - 1]
  }

  function EndNewest(r: Ref, i: Instance): Ref
    requires r.services != []
  {
    if Newest(r) == Live then r.(services := r.services[|r.services| - 1 := i]) else r
  }

  function Step(r: Ref, l: Label): Ref
    requires r.services != [] && r.current < |r.services|
  {
    match l
    case Crash => EndNewest(r, Crashed)
    case CleanStop => EndNewest(r, Clean)
    case RequestStop => r.(stopClosed := true)
    case SeeStop => if r.place == Selecting && r.stopClosed then r.(place := Stopping) else r
    case StopReturns =>
      if r.place == Stopping && r.services[r.current] != Live then r.(place := Leaving) else r
    case SeeDone =>
      if r.place != Selecting || r.services[r.current] == Live then r
      else if r.services[r.current] == Crashed && ShouldRestart(r.strategy, r.restarts)
      then r.(place := Starting, restarts := r.restarts + 1)
      else r.(place := Leaving)
    case StartNew => if r.place == Starting then r.(services := r.services + [Live], place := Storing) else r
    case StoreNew => if r.place == Storing then r.(current := |r.services| - 1, place := Selecting) else r
    case Close => if r.place == Leaving then r.(place := Gone, doneClosed := true) else r
  }

  /** A spawned actor: one service, and the loop at its select. */
  function Spawned(s: Strategy): Ref {
    Ref(s, [Live], 0, 0, Selecting, false, false)
  }

  /** The most instances a strategy may start; None if there is no limit. */
  function Limit(s: Strategy): Option<nat> {
    match s
    case NoRestart => Some(1)
    case RestartAlways => None
    case RestartN(max) => Some(1 + if max > 0 then max else 0)
  }

  // ---------------------------------------------------------------- the loop

  /** What happens to the actor from outside the loop. */
  datatype Outside = ServiceCrashes | ServiceStops | StopRequested

  function LabelOf(o: Outside): Label {
    match o
    case ServiceCrashes => Crash
    case ServiceStops => CleanStop
    case StopRequested => RequestStop
  }

  /** Which channel the select statement receives from, what happens while it waits, and what
      happens while the loop then stops the service or starts a new one. */
  datatype Round = Round(waiting: seq<Outside>, receivesStop: bool, meanwhile: seq<Outside>)

  /** The instances before and after so many crashes, and whether the loop has returned. */
  ghost predicate Answered(s: Strategy, before: nat, after: nat, crashes: nat, returned: bool) {
    match s
    case NoRestart => after == before && (returned <==> crashes > 0)
    case RestartAlways => after == before + crashes && !returned
    case RestartN(max) =>
      && before <= after && after - before <= crashes && (returned <==> after - before < crashes)
      && (after > before ==> after - 1 <= max) && (returned ==> after - 1 >= max)
  }

  predicate CrashesOnly(os: seq<Outside>) {
    forall i :: 0 <= i < |os| ==> os[i] == ServiceCrashes
  }

  /** The service crashes, nothing else happens, and the loop sees that it has ended. */
  predicate Crashing(rd: Round) {
    !rd.receivesStop && rd.waiting != [] && CrashesOnly(rd.waiting) && CrashesOnly(rd.meanwhile)
  }

  predicate AllCrashing(rounds: seq<Round>) {
    forall i :: 0 <= i < |rounds| ==> Crashing(rounds[i])
  }

  class Actor {
    const strategy: Strategy
    var services: seq<Instance>
    var current: nat
    var restarts: nat
    var place: Place
    var stopClosed: bool
    var doneClosed: bool
    ghost var trace: seq<Label>

    ghost function View(): Ref
      reads this
    {
      Ref(strategy, services, current, restarts, place, stopClosed, doneClosed)
    }

    /** The actor has gone through the steps of `trace` since it was spawned. */
    ghost predicate Valid()
      reads this
    {
      View() == Run(Spawned(strategy), trace) && Inv(View())
    }

    constructor (s: Strategy)
      ensures Valid() && View() == Spawned(s) && trace == []
    {
      strategy := s;
      services, current, restarts, place, stopClosed, doneClosed := [Live], 0, 0, Selecting, false, false;
      trace := [];
    }

    /** Records that the fields now are what step `l` makes of `before`. */
    ghost method Record(before: Ref, l: Label)
      requires before == Run(Spawned(strategy), trace) && Inv(before) && View() == Step(before, l)
      modifies this`trace
      ensures Valid() && trace == old(trace) + [l]
    {
      StepKeeps(before, l);
      RunSnoc(Spawned(strategy), trace, l);
      trace := trace + [l];
    }

    method Happen(o: Outside)
      requires Valid()
      modifies this
      ensures Valid() && trace == old(trace) + [LabelOf(o)]
      ensures o == ServiceStops ==> services != [] && services[|services| - 1] != Live
      ensures place == old(place) && current == old(current) && |services| == old(|services|)
      ensures doneClosed == old(doneClosed) && restarts == old(restarts)
      ensures stopClosed <==> old(stopClosed) || o == StopRequested
      ensures var last := |services| - 1;
        services == if old(services)[last] != Live || o == StopRequested then old(services)
                    else old(services)[last := if o == ServiceCrashes then Crashed else Clean]
    {
      ghost var before := View();
      var last := |services| - 1;
      match o {
        case ServiceCrashes => if services[last] == Live { services := services[last := Crashed]; }
        case ServiceStops => if services[last] == Live { services := services[last := Clean]; }
        case StopRequested => stopClosed := true;
      }
      Record(before, LabelOf(o));
    }

    method HappenAll(os: seq<Outside>)
      requires Valid()
      modifies this
      ensures Valid() && old(trace) <= trace
      ensures place == old(place) && current == old(current) && |services| == old(|services|)
      ensures doneClosed == old(doneClosed) && restarts == old(restarts)
      ensures stopClosed <==> old(stopClosed) || StopRequested in os
      ensures var last := old(services)[|services| - 1];
        && (last != Live ==> services == old(services))
        && (last != Clean && CrashesOnly(os) ==> services[|services| - 1] == if os == [] then last else Crashed)
    {
      for i := 0 to |os|
        invariant Valid() && old(trace) <= trace
        invariant place == old(place) && current == old(current) && |services| == old(|services|)
        invariant doneClosed == old(doneClosed) && restarts == old(restarts)
        invariant stopClosed <==> old(stopClosed) || StopRequested in os[..i]
        invariant var last := old(services)[|services| - 1];
          && (last != Live ==> services == old(services))
          && (last != Clean && CrashesOnly(os) ==> services[|services| - 1] == if i == 0 then last else Crashed)
      {
        assert os[..i + 1] == os[..i] + [os[i]];
        Happen(os[i]);
      }
      assert os[..|os|] == os;
    }

    /** The loop, for as many rounds as are given. It ends only by closing `doneCh`, and does so when
        it receives a stop request or sees a clean stop. Crashes are answered as the strategy says:
        by one new service each as long as it allows, by returning after that. */
    method Supervise(rounds: seq<Round>)
      requires Valid() && place == Selecting
      modifies this
      ensures Valid() && old(trace) <= trace && (place == Selecting || doneClosed)
      ensures (exists rd :: rd in rounds && rd.receivesStop && (old(stopClosed) || StopRequested in rd.waiting)) ==>
        doneClosed
      ensures old(services[|services| - 1]) == Clean && (exists rd :: rd in rounds && !rd.receivesStop) ==> doneClosed
      ensures !old(stopClosed) && old(services[|services| - 1]) != Clean && AllCrashing(rounds) ==>
        Answered(strategy, old(|services|), |services|, |rounds|, doneClosed)
    {
      for i := 0 to |rounds|
        invariant Valid() && old(trace) <= trace && place == Selecting
        invariant old(stopClosed) ==> stopClosed
        invariant forall k :: 0 <= k < i && rounds[k].receivesStop ==>
          !old(stopClosed) && StopRequested !in rounds[k].waiting
        invariant old(services[|services| - 1]) == Clean ==>
          services == old(services) && forall k :: 0 <= k < i ==> rounds[k].receivesStop
        invariant !old(stopClosed) && old(services[|services| - 1]) != Clean && AllCrashing(rounds) ==>
          && !stopClosed && services[|services| - 1] != Clean
          && |services| == old(|services|) + i && (i > 0 ==> ShouldRestart(strategy, |services| - 2))
      {
        var returned := DoRound(rounds[i]);
        if returned {
          return;
        }
      }
    }

    /** One receive of the select statement and what the loop then does. A channel from which nothing
        can be received keeps it waiting. */
    method DoRound(rd: Round) returns (returned: bool)
      requires Valid() && place == Selecting
      modifies this
      ensures Valid() && old(trace) <= trace && (returned <==> doneClosed) && (!returned ==> place == Selecting)
      ensures old(stopClosed) ==> stopClosed
      ensures rd.receivesStop && (old(stopClosed) || StopRequested in rd.waiting) ==> returned
      ensures old(services[|services| - 1]) == Clean ==>
        if rd.receivesStop then !returned ==> services == old(services) else returned
      ensures Crashing(rd) && !old(stopClosed) && old(services[|services| - 1]) != Clean ==>
        && !stopClosed && services[|services| - 1] != Clean
        && (returned <==> !ShouldRestart(strategy, old(|services|) - 1))
        && |services| == old(|services|) + if returned then 0 else 1
    {
      HappenAll(rd.waiting);
      if rd.receivesStop && stopClosed {
        StopAndLeave(rd.meanwhile);
        return true;
      }
      if !rd.receivesStop && services[current] != Live {
        var leave := services[current] == Clean || !ShouldRestart(strategy, restarts);
        if leave {
          Leave();
          return true;
        }
        Restart(rd.meanwhile);
      }
      return false;
    }

    /** Intentional stop: the current service is stopped, then the loop returns. */
    method StopAndLeave(meanwhile: seq<Outside>)
      requires Valid() && place == Selecting && stopClosed
      modifies this
      ensures Valid() && old(trace) <= trace && doneClosed && stopClosed
    {
      ghost var r0 := View();
      place := Stopping;
      Record(r0, SeeStop);
      HappenAll(meanwhile);
      Happen(ServiceStops);
      ghost var r1 := View();
      place := Leaving;
      Record(r1, StopReturns);
      CloseDone();
    }

    /** The service has ended and is not replaced. */
    method Leave()
      requires Valid() && place == Selecting && services[current] != Live
      requires services[current] == Clean || !ShouldRestart(strategy, restarts)
      modifies this
      ensures Valid() && old(trace) <= trace && doneClosed
      ensures services == old(services) && stopClosed == old(stopClosed)
    {
      ghost var before := View();
      place := Leaving;
      Record(before, SeeDone);
      CloseDone();
    }

    /** The service has crashed and is replaced. */
    method Restart(meanwhile: seq<Outside>)
      requires Valid() && place == Selecting && services[current] == Crashed && ShouldRestart(strategy, restarts)
      modifies this
      ensures Valid() && old(trace) <= trace && place == Selecting
      ensures |services| == old(|services|) + 1 && current == |services| - 1
      ensures stopClosed <==> old(stopClosed) || StopRequested in meanwhile
      ensures CrashesOnly(meanwhile) ==> services[|services| - 1] != Clean
    {
      ghost var r0 := View();
      restarts := restarts + 1;
      place := Starting;
      Record(r0, SeeDone);
      StartService();
      HappenAll(meanwhile);
      StoreService();
    }

    method StartService()
      requires Valid() && place == Starting
      modifies this
      ensures Valid() && trace == old(trace) + [StartNew] && place == Storing
      ensures services == old(services) + [Live] && stopClosed == old(stopClosed)
    {
      ghost var before := View();
      services, place := services + [Live], Storing;
      Record(before, StartNew);
    }

    method StoreService()
      requires Valid() && place == Storing
      modifies this
      ensures Valid() && trace == old(trace) + [StoreNew] && place == Selecting
      ensures services == old(services) && current == |services| - 1 && stopClosed == old(stopClosed)
    {
      ghost var before := View();
      current, place := |services| - 1, Selecting;
      Record(before, StoreNew);
    }

    /** The deferred close. */
    method CloseDone()
      requires Valid() && place == Leaving
      modifies this
      ensures Valid() && trace == old(trace) + [Close] && doneClosed
      ensures services == old(services) && stopClosed == old(stopClosed)
    {
      ghost var before := View();
      doneClosed, place := true, Gone;
      Record(before, Close);
    }
  }

  // ---------------------------------------------------------------- invariant

  ghost predicate Inv(r: Ref) {
    && 0 < |r.services| && r.current < |r.services|
    && |r.services| == 1 + r.restarts - (if r.place == Starting then 1 else 0)
    && r.current == |r.services| - (if r.place == Storing then 2 else 1)
    && (forall i :: 0 <= i < |r.services| - 1 ==> r.services[i] == Crashed)
    && (r.place == Starting ==> Newest(r) == Crashed)
    && (r.place == Leaving || r.place == Gone ==> Newest(r) != Live)
    && (r.doneClosed <==> r.place == Gone)
    && (r.place == Stopping ==> r.stopClosed)
    && (Limit(r.strategy).Some? ==> 1 + r.restarts <= Limit(r.strategy).value)
  }

  lemma StepKeeps(r: Ref, l: Label)
    requires Inv(r)
    ensures Inv(Step(r, l)) && Step(r, l).strategy == r.strategy
  {
  }

  function Run(r: Ref, labels: seq<Label>): Ref
    requires Inv(r)
    decreases |labels|
  {
    if labels == [] then r
    else
      StepKeeps(r, labels[0]);
      Run(Step(r, labels[0]), labels[1..])
  }

  lemma RunFirst(r: Ref, l: Label, rest: seq<Label>)
    requires Inv(r)
    ensures Inv(Step(r, l)) && Run(r, [l] + rest) == Run(Step(r, l), rest)
  {
    StepKeeps(r, l);
    assert ([l] + rest)[1..] == rest;
  }

  lemma {:induction false} RunKeeps(r: Ref, labels: seq<Label>)
    requires Inv(r)
    ensures Inv(Run(r, labels)) && Run(r, labels).strategy == r.strategy
    decreases |labels|
  {
    if labels != [] {
      StepKeeps(r, labels[0]);
      RunKeeps(Step(r, labels[0]), labels[1..]);
    }
  }

  lemma {:induction false} RunAppend(r: Ref, a: seq<Label>, b: seq<Label>)
    requires Inv(r)
    ensures Inv(Run(r, a)) && Run(r, a + b) == Run(Run(r, a), b)
    decreases |a|
  {
    RunKeeps(r, a);
    if a == [] {
      assert a + b == b;
    } else {
      StepKeeps(r, a[0]);
      assert (a + b)[0] == a[0] && (a + b)[1..] == a[1..] + b;
      RunAppend(Step(r, a[0]), a[1..], b);
    }
  }

  lemma RunSnoc(r: Ref, labels: seq<Label>, l: Label)
    requires Inv(r)
    ensures Inv(Run(r, labels)) && Run(r, labels + [l]) == Step(Run(r, labels), l)
  {
    RunAppend(r, labels, [l]);
    RunFirst(Run(r, labels), l, []);
    assert [l] + [] == [l];
  }

  // ---------------------------------------------------------------- what every interleaving keeps

  /** At most one service per actor is live, every replaced one has crashed, and the number of
      instances is within the limit. */
  lemma Supervised(s: Strategy, labels: seq<Label>)
    ensures var r := Run(Spawned(s), labels);
      && (forall i, j :: 0 <= i < j < |r.services| ==> !(r.services[i] == Live && r.services[j] == Live))
      && (forall i :: 0 <= i < |r.services| - 1 ==> r.services[i] == Crashed)
      && (Limit(s).Some? ==> |r.services| <= Limit(s).value)
  {
    RunKeeps(Spawned(s), labels);
  }

  ghost predicate AllEnded(r: Ref) {
    forall i :: 0 <= i < |r.services| ==> r.services[i] != Live
  }

  /** Once `doneCh` is closed no service is live, and whatever happens afterwards none is started
      and none changes. */
  lemma {:induction false} DoneIsFinal(s: Strategy, before: seq<Label>, after: seq<Label>)
    requires Run(Spawned(s), before).doneClosed
    ensures AllEnded(Run(Spawned(s), before))
    ensures Run(Spawned(s), before + after).services == Run(Spawned(s), before).services
    ensures Run(Spawned(s), before + after).doneClosed
  {
    RunKeeps(Spawned(s), before);
    RunAppend(Spawned(s), before, after);
    EndedStays(Run(Spawned(s), before), after);
  }

  /** The loop returns only for a reason: it was asked to stop, the service stopped cleanly, or it
      crashed and the strategy has no further instance for it. */
  lemma {:induction false} EndsForReason(s: Strategy, labels: seq<Label>)
    ensures var r := Run(Spawned(s), labels);
      && r.services != []
      && (r.doneClosed ==>
            || r.stopClosed
            || r.services[|r.services| - 1] == Clean
            || (r.services[|r.services| - 1] == Crashed && s == NoRestart)
            || (r.services[|r.services| - 1] == Crashed && s.RestartN? && |r.services| - 1 >= s.maxRestarts))
  {
    ReasonKept(Spawned(s), labels);
    RunKeeps(Spawned(s), labels);
  }

  ghost predicate HasReason(r: Ref)
    requires r.services != []
  {
    r.place == Leaving || r.place == Gone ==>
      r.stopClosed || Newest(r) == Clean || (Newest(r) == Crashed && !ShouldRestart(r.strategy, r.restarts))
  }

  lemma {:induction false} ReasonKept(r: Ref, labels: seq<Label>)
    requires Inv(r) && HasReason(r)
    ensures Inv(Run(r, labels)) && HasReason(Run(r, labels))
    decreases |labels|
  {
    if labels != [] {
      StepKeeps(r, labels[0]);
      assert HasReason(Step(r, labels[0]));
      ReasonKept(Step(r, labels[0]), labels[1..]);
    }
  }

  /** A clean stop is never answered by a restart. */
  lemma {:induction false} CleanIsFinal(s: Strategy, before: seq<Label>, after: seq<Label>)
    requires Inv(Run(Spawned(s), before)) && Newest(Run(Spawned(s), before)) == Clean
    ensures Run(Spawned(s), before + after).services == Run(Spawned(s), before).services
  {
    RunAppend(Spawned(s), before, after);
    EndedStays(Run(Spawned(s), before), after);
  }

  lemma {:induction false} EndedStays(r: Ref, after: seq<Label>)
    requires Inv(r) && (r.doneClosed || Newest(r) == Clean)
    ensures Run(r, after).services == r.services && (r.doneClosed ==> Run(r, after).doneClosed)
    decreases |after|
  {
    if after != [] {
      StepKeeps(r, after[0]);
      EndedStays(Step(r, after[0]), after[1..]);
    }
  }

  lemma StopFromSelect(r: Ref)
    requires Inv(r) && r.stopClosed && r.place != Starting && r.place != Storing
    ensures Run(r, [SeeStop, CleanStop, StopReturns, Close]).doneClosed
  {
    RunFirst(r, SeeStop, [CleanStop, StopReturns, Close]);
    var r3 := Step(r, SeeStop);
    RunFirst(r3, CleanStop, [StopReturns, Close]);
    var r4 := Step(r3, CleanStop);
    StopReturned(r4);
  }

  lemma StopReturned(r: Ref)
    requires Inv(r) && Newest(r) != Live && r.place in {Stopping, Leaving, Gone}
    ensures Run(r, [StopReturns, Close]).doneClosed
  {
    RunFirst(r, StopReturns, [Close]);
    RunFirst(Step(r, StopReturns), Close, []);
  }

  /** A request to stop is honoured from wherever the loop is: some steps of the loop, with the
      service stopping when told to, close `doneCh`. */
  lemma StopCompletes(r: Ref)
    requires Inv(r) && r.stopClosed
    ensures Run(r, [StartNew, StoreNew] + [SeeStop, CleanStop, StopReturns, Close]).doneClosed
  {
    var rest := [SeeStop, CleanStop, StopReturns, Close];
    RunFirst(r, StartNew, [StoreNew]);
    RunFirst(Step(r, StartNew), StoreNew, []);
    RunAppend(r, [StartNew, StoreNew], rest);
    StopFromSelect(Run(r, [StartNew, StoreNew]));
  }

  /** `n` panics, each answered by the loop. */
  function Panics(n: nat): seq<Label> {
    if n == 0 then [] else Panics(n - 1) + [Crash, SeeDone, StartNew, StoreNew]
  }

  ghost predicate AfterRestarts(r: Ref, s: Strategy, n: nat) {
    r.strategy == s && |r.services| == n + 1 && Newest(r) == Live && r.current == n && r.restarts == n
    && r.place == Selecting
  }

  lemma OneRestart(r: Ref, s: Strategy, n: nat)
    requires Inv(r) && AfterRestarts(r, s, n) && ShouldRestart(s, n)
    ensures AfterRestarts(Run(r, [Crash, SeeDone, StartNew, StoreNew]), s, n + 1)
  {
    RunFirst(r, Crash, [SeeDone, StartNew, StoreNew]);
    var r1 := Step(r, Crash);
    RunFirst(r1, SeeDone, [StartNew, StoreNew]);
    var r2 := Step(r1, SeeDone);
    RunFirst(r2, StartNew, [StoreNew]);
    var r3 := Step(r2, StartNew);
    RunFirst(r3, StoreNew, []);
  }

  /** The limit is attained: as many panics as it allows are each followed by a new live service. */
  lemma {:induction false} LimitReached(s: Strategy, n: nat)
    requires Limit(s).None? || n < Limit(s).value
    ensures AfterRestarts(Run(Spawned(s), Panics(n)), s, n)
  {
    if n > 0 {
      LimitReached(s, n - 1);
      PanicsNext(s, n);
      OneRestart(Run(Spawned(s), Panics(n - 1)), s, n - 1);
    }
  }

  lemma PanicsNext(s: Strategy, n: nat)
    requires n > 0
    ensures Inv(Run(Spawned(s), Panics(n - 1)))
    ensures Run(Spawned(s), Panics(n)) ==
      Run(Run(Spawned(s), Panics(n - 1)), [Crash, SeeDone, StartNew, StoreNew])
  {
    RunAppend(Spawned(s), Panics(n - 1), [Crash, SeeDone, StartNew, StoreNew]);
  }
}
