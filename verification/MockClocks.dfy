/** The test clock. Its timers live in one array: starting a timer appends, and advancing sorts
    the array and compacts it in place, keeping what does not fire. */
module MockClocks {
  import opened Seqs
  import opened Sorting

  /** `fn` stands for the callback. */
  class MockTimer {
    const fireAt: int
    const fn: nat
    var cancelled: bool

    constructor (fireAt: int, fn: nat)
      ensures this.fireAt == fireAt && this.fn == fn && !cancelled
    {
      this.fireAt, this.fn, cancelled := fireAt, fn, false;
    }

    /** False when it had been stopped before. */
    method Stop() returns (r: bool)
      modifies this
      ensures r == !old(cancelled) && cancelled
    {
      if cancelled {
        return false;
      }
      cancelled := true;
      return true;
    }
  }

  function FireTime(): MockTimer -> int {
    (t: MockTimer) => t.fireAt
  }

  ghost predicate Chronological(ts: seq<MockTimer>) {
    SortedBy(ts, FireTime())
  }

  ghost function Fires(live: set<MockTimer>, now: int): MockTimer -> bool {
    (t: MockTimer) => t in live && t.fireAt <= now
  }

  ghost function Stays(live: set<MockTimer>, now: int): MockTimer -> bool {
    (t: MockTimer) => !(t in live && t.fireAt <= now)
  }

  /** Sorted timers split into those that fire and those that stay. */
  ghost predicate SplitInto(ts: seq<MockTimer>, live: set<MockTimer>, now: int, fire: seq<MockTimer>, kept: seq<MockTimer>) {
    fire == Keep(ts, Fires(live, now)) && kept == Keep(ts, Stays(live, now))
  }

  lemma SplitNext(ts: seq<MockTimer>, r: nat, live: set<MockTimer>, now: int, fire: seq<MockTimer>, kept: seq<MockTimer>)
    requires r < |ts| && SplitInto(ts[..r], live, now, fire, kept)
    ensures ts[r] in live && ts[r].fireAt <= now ==> SplitInto(ts[..r + 1], live, now, fire + [ts[r]], kept)
    ensures !(ts[r] in live && ts[r].fireAt <= now) ==> SplitInto(ts[..r + 1], live, now, fire, kept + [ts[r]])
  {
    assert ts[..r + 1][..r] == ts[..r];
  }

  lemma SplitFacts(ts: seq<MockTimer>, live: set<MockTimer>, now: int, fire: seq<MockTimer>, kept: seq<MockTimer>)
    requires Chronological(ts) && SplitInto(ts, live, now, fire, kept)
    ensures multiset(fire) + multiset(kept) == multiset(ts)
    ensures Chronological(fire) && Chronological(kept)
  {
    KeepPartition(ts, Fires(live, now), Stays(live, now));
    KeepSorted(ts, Fires(live, now), FireTime());
    KeepSorted(ts, Stays(live, now), FireTime());
  }

  lemma PartsAmong<T>(a: seq<T>, b: seq<T>, all: seq<T>)
    requires multiset(a) + multiset(b) == multiset(all)
    ensures forall i :: 0 <= i < |a| ==> a[i] in all
    ensures forall i :: 0 <= i < |b| ==> b[i] in all
  {
    forall i | 0 <= i < |a| ensures a[i] in all {
      assert a[i] in multiset(a) && a[i] in multiset(all);
    }
    forall i | 0 <= i < |b| ensures b[i] in all {
      assert b[i] in multiset(b) && b[i] in multiset(all);
    }
  }

  lemma SameLength<T>(a: seq<T>, b: seq<T>)
    requires multiset(a) == multiset(b)
    ensures |a| == |b|
  {
    assert |multiset(a)| == |multiset(b)|;
  }

  /** What a callback does with the clock: call AfterFunc, or stop a timer it knows. */
  datatype Request = Register(d: int, fn: nat) | Halt(timer: MockTimer)

  /** All that is asked for by the callbacks of `fire`, run in order. */
  function AllRequests(fire: seq<MockTimer>, callback: nat -> seq<Request>): seq<Request> {
    if fire == [] then [] else AllRequests(fire[..|fire| - 1], callback) + callback(fire[|fire| - 1].fn)
  }

  /** One new timer for each registration, in order. */
  ghost predicate Registered(ts: seq<MockTimer>, requests: seq<Request>, now: int) {
    if requests == [] then ts == []
    else
      var front, r := requests[..|requests| - 1], requests[|requests| - 1];
      if r.Halt? then Registered(ts, front, now)
      else
        && ts != [] && Registered(ts[..|ts| - 1], front, now)
        && ts[|ts| - 1].fireAt == now + r.d && ts[|ts| - 1].fn == r.fn
  }

  ghost predicate HaltsOnly(requests: seq<Request>, known: set<MockTimer>) {
    forall i :: 0 <= i < |requests| && requests[i].Halt? ==> requests[i].timer in known
  }

  ghost predicate Halts(requests: seq<Request>, t: MockTimer) {
    Halt(t) in requests
  }

  lemma {:induction false} RegisteredAppend(ts: seq<MockTimer>, requests: seq<Request>, us: seq<MockTimer>,
                                            more: seq<Request>, now: int)
    requires Registered(ts, requests, now) && Registered(us, more, now)
    ensures Registered(ts + us, requests + more, now)
  {
    if more == [] {
      assert ts + us == ts && requests + more == requests;
    } else {
      var front, r := more[..|more| - 1], more[|more| - 1];
      assert (requests + more)[..|requests + more| - 1] == requests + front;
      if r.Halt? {
        RegisteredAppend(ts, requests, us, front, now);
      } else {
        RegisteredAppend(ts, requests, us[..|us| - 1], front, now);
        assert (ts + us)[..|ts + us| - 1] == ts + us[..|us| - 1];
      }
    }
  }

  class MockClock {
    var now: int
    var timers: array<MockTimer>
    var count: nat

    ghost predicate Valid()
      reads this`timers, this`count
    {
      count <= timers.Length
    }

    /** The timers in the clock, stopped or not. */
    ghost function Contents(): seq<MockTimer>
      reads this`timers, this`count, timers
      requires Valid()
    {
      timers[..count]
    }

    constructor (start: int)
      ensures Valid() && now == start && Contents() == [] && fresh(timers)
    {
      now, timers, count := start, new MockTimer[0], 0;
    }

    /** Registers a callback for `d` from now. */
    method AfterFunc(d: int, fn: nat) returns (t: MockTimer)
      requires Valid()
      modifies this`timers, this`count, timers
      ensures Valid() && fresh(t) && t.fireAt == now + d && t.fn == fn && !t.cancelled
      ensures Contents() == old(Contents()) + [t] && (timers == old(timers) || fresh(timers))
    {
      t := new MockTimer(now + d, fn);
      if count == timers.Length {
        var grown := new MockTimer[2 * count + 1](_ => t);
        for i := 0 to count
          modifies grown
          invariant grown[..i] == timers[..i]
        {
          grown[i] := timers[i];
        }
        timers := grown;
      }
      timers[count] := t;
      count := count + 1;
    }

    /** Sorts the registered timers where they are. */
    method SortTimers()
      requires Valid()
      modifies timers
      ensures Valid() && Chronological(Contents())
      ensures multiset(Contents()) == multiset(old(Contents()))
    {
      var sorted := SortBy(timers[..count], FireTime());
      SameLength(sorted, timers[..count]);
      for i := 0 to count
        modifies timers
        invariant timers[..i] == sorted[..i]
      {
        timers[i] := sorted[i];
      }
      assert Contents() == sorted;
    }

    /** Moves the clock by `d`. What fires is what is due and not stopped, in chronological order,
        for the caller to run in that order; every other timer stays, stopped ones included. No
        timer is lost or duplicated. */
    method Advance(d: int) returns (fire: seq<MockTimer>)
      requires Valid()
      modifies this`now, this`count, timers
      ensures Valid() && now == old(now) + d
      ensures multiset(fire) + multiset(Contents()) == multiset(old(Contents()))
      ensures forall i :: 0 <= i < |fire| ==> !fire[i].cancelled && fire[i].fireAt <= now
      ensures forall i :: 0 <= i < count ==> timers[i].cancelled || timers[i].fireAt > now
      ensures forall i, j :: 0 <= i < j < |fire| ==> fire[i].fireAt <= fire[j].fireAt
      ensures Chronological(fire) && Chronological(Contents())
    {
      now := now + d;
      SortTimers();
      ghost var sorted := Contents();
      fire := SplitDue(sorted);
    }

    method SplitDue(ghost sorted: seq<MockTimer>) returns (fire: seq<MockTimer>)
      requires Valid() && sorted == Contents() && Chronological(sorted)
      modifies this`count, timers
      ensures Valid() && multiset(fire) + multiset(Contents()) == multiset(sorted)
      ensures forall i :: 0 <= i < |fire| ==> !fire[i].cancelled && fire[i].fireAt <= now
      ensures forall i :: 0 <= i < count ==> timers[i].cancelled || timers[i].fireAt > now
      ensures Chronological(fire) && Chronological(Contents())
    {
      ghost var live := set t | t in sorted && !t.cancelled;
      ghost var kept;
      fire, kept := Compact(sorted, live);
      SplitFacts(sorted, live, now, fire, kept);
    }

    /** One pass: what does not fire moves to the front of the array. */
    method Compact(ghost sorted: seq<MockTimer>, ghost live: set<MockTimer>)
      returns (fire: seq<MockTimer>, ghost kept: seq<MockTimer>)
      requires Valid() && sorted == Contents()
      requires forall i :: 0 <= i < count ==> (sorted[i] in live <==> !sorted[i].cancelled)
      modifies this`count, timers
      ensures Valid() && SplitInto(sorted, live, now, fire, kept) && Contents() == kept
      ensures forall i :: 0 <= i < |fire| ==> !fire[i].cancelled && fire[i].fireAt <= now
      ensures forall i :: 0 <= i < count ==> timers[i].cancelled || timers[i].fireAt > now
    {
      fire, kept := [], [];
      var w := 0;
      for r := 0 to count
        modifies timers
        invariant 0 <= w <= r
        invariant |kept| == w && forall k :: 0 <= k < w ==> timers[k] == kept[k]
        invariant forall k :: r <= k < count ==> timers[k] == sorted[k]
        invariant SplitInto(sorted[..r], live, now, fire, kept)
        invariant forall k :: 0 <= k < |fire| ==> !fire[k].cancelled && fire[k].fireAt <= now
        invariant forall k :: 0 <= k < w ==> kept[k].cancelled || kept[k].fireAt > now
      {
        var t := timers[r];
        SplitNext(sorted, r, live, now, fire, kept);
        if !t.cancelled && t.fireAt <= now {
          fire := fire + [t];
        } else {
          timers[w] := t;
          kept, w := kept + [t], w + 1;
        }
      }
      assert sorted[..count] == sorted;
      count := w;
    }

    /** Does what one callback asks for. */
    method RunCallback(requests: seq<Request>, ghost known: set<MockTimer>) returns (ghost new': seq<MockTimer>)
      requires Valid() && HaltsOnly(requests, known)
      modifies this`timers, this`count, timers, known
      ensures Valid() && Contents() == old(Contents()) + new' && Registered(new', requests, now)
      ensures forall t :: t in known ==> t.cancelled == (old(t.cancelled) || Halts(requests, t))
      ensures timers == old(timers) || fresh(timers)
    {
      new' := [];
      for i := 0 to |requests|
        invariant Valid() && Contents() == old(Contents()) + new' && Registered(new', requests[..i], now)
        invariant forall t :: t in known ==> t.cancelled == (old(t.cancelled) || Halts(requests[..i], t))
        invariant timers == old(timers) || fresh(timers)
      {
        assert requests[..i + 1] == requests[..i] + [requests[i]];
        assert requests[..i + 1][..i] == requests[..i];
        match requests[i] {
          case Register(d, fn) =>
            var t := AfterFunc(d, fn);
            assert (new' + [t])[..|new'|] == new';
            new' := new' + [t];
          case Halt(t) =>
            assert Halts(requests, t);
            var r := t.Stop();
        }
      }
      assert requests[..|requests|] == requests;
    }

    /** Runs the callbacks of what fires, in order. What they register joins the clock for later,
        even if it is due already; what they stop fires nevertheless if it is in `fire`. */
    method RunCallbacks(fire: seq<MockTimer>, callback: nat -> seq<Request>, ghost known: set<MockTimer>)
      returns (ghost new': seq<MockTimer>)
      requires Valid() && forall f :: HaltsOnly(callback(f), known)
      modifies this`timers, this`count, timers, known
      ensures Valid() && Contents() == old(Contents()) + new'
      ensures Registered(new', AllRequests(fire, callback), now)
      ensures forall t :: t in known ==>
        t.cancelled == (old(t.cancelled) || Halts(AllRequests(fire, callback), t))
      ensures timers == old(timers) || fresh(timers)
    {
      new' := [];
      for i := 0 to |fire|
        invariant Valid() && Contents() == old(Contents()) + new'
        invariant Registered(new', AllRequests(fire[..i], callback), now)
        invariant forall t :: t in known ==>
          t.cancelled == (old(t.cancelled) || Halts(AllRequests(fire[..i], callback), t))
        invariant timers == old(timers) || fresh(timers)
      {
        assert fire[..i + 1][..i] == fire[..i];
        ghost var more := RunCallback(callback(fire[i].fn), known);
        RegisteredAppend(new', AllRequests(fire[..i], callback), more, callback(fire[i].fn), now);
        new' := new' + more;
      }
      assert fire[..|fire|] == fire;
    }

    /** Advance with its callbacks: everything due and not stopped before the call is fired exactly
        once, also what a callback stops meanwhile; what callbacks register is not fired by this
        call. `known` are the timers that callbacks may stop. */
    method AdvanceAndRun(d: int, callback: nat -> seq<Request>, ghost known: set<MockTimer>)
      returns (fire: seq<MockTimer>, ghost kept: seq<MockTimer>, ghost new': seq<MockTimer>)
      requires Valid() && forall f :: HaltsOnly(callback(f), known)
      modifies this, timers, known
      ensures Valid() && now == old(now) + d && Contents() == kept + new'
      ensures multiset(fire) + multiset(kept) == multiset(old(Contents()))
      ensures forall i :: 0 <= i < |fire| ==>
        fire[i] in old(set t | t in Contents() && !t.cancelled) && fire[i].fireAt <= now
      ensures forall i :: 0 <= i < |kept| ==>
        kept[i] in old(set t | t in Contents() && t.cancelled) || kept[i].fireAt > now
      ensures Chronological(fire) && Registered(new', AllRequests(fire, callback), now)
      ensures forall t :: t in known ==>
        t.cancelled == (old(t.cancelled) || Halts(AllRequests(fire, callback), t))
      ensures timers == old(timers) || fresh(timers)
    {
      ghost var all := Contents();
      ghost var live := set t | t in all && !t.cancelled;
      fire := Advance(d);
      kept := Contents();
      PartsAmong(fire, kept, all);
      new' := RunCallbacks(fire, callback, known);
    }

    /** Jumps to an absolute time; refuses to go back. */
    method Set(t: int) returns (ok: bool, fire: seq<MockTimer>)
      requires Valid()
      modifies this`now, this`count, timers
      ensures Valid() && ok == (t >= old(now))
      ensures !ok ==> now == old(now) && Contents() == old(Contents()) && fire == []
      ensures ok ==> now == t && multiset(fire) + multiset(Contents()) == multiset(old(Contents()))
      ensures ok ==> Chronological(fire) && forall i :: 0 <= i < |fire| ==> !fire[i].cancelled && fire[i].fireAt <= t
      ensures ok ==> forall i :: 0 <= i < count ==> timers[i].cancelled || timers[i].fireAt > t
    {
      if t < now {
        return false, [];
      }
      fire := Advance(t - now);
      ok := true;
    }
  }
}
