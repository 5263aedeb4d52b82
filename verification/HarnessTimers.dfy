/** The harness's timers: a list that `Advance` sorts and splits. */
module HarnessTimers {
  import opened Seqs
  import opened Sorting
  import opened Machines

  datatype Timer = Timer(id: string, fireAt: int, event: Event, cancelled: bool)

  predicate IsLive(t: Timer) {
    !t.cancelled
  }

  function LiveWithID(id: string): Timer -> bool {
    (t: Timer) => !t.cancelled && t.id == id
  }

  function IsDue(deadline: int): Timer -> bool {
    (t: Timer) => !t.cancelled && t.fireAt <= deadline
  }

  function IsLater(deadline: int): Timer -> bool {
    (t: Timer) => !t.cancelled && t.fireAt > deadline
  }

  function FireTime(): Timer -> int {
    (t: Timer) => t.fireAt
  }

  ghost predicate Chronological(ts: seq<Timer>) {
    SortedBy(ts, FireTime())
  }

  function EventsOf(ts: seq<Timer>): seq<Event> {
    if ts == [] then [] else EventsOf(ts[..|ts| - 1]) + [ts[|ts| - 1].event]
  }

  ghost function LiveIDsOf(ts: seq<Timer>): set<string> {
    set t | t in ts && IsLive(t) :: t.id
  }

  /** At most one live timer per ID. */
  ghost predicate OnePerID(ts: seq<Timer>) {
    forall id :: |Keep(ts, LiveWithID(id))| <= 1
  }

  /** The outcome of advancing by `d`: the live timers due by the new time, each as often as it was
      registered, in chronological order; what is left is the live ones due later. */
  ghost predicate Advanced(ts: seq<Timer>, now: int, d: int, fired: seq<Timer>, left: seq<Timer>, now': int) {
    && now' == now + d
    && Picks(fired, ts, IsDue(now'))
    && Picks(left, ts, IsLater(now'))
    && Chronological(fired) && Chronological(left)
  }

  lemma {:induction false} EventsAt(ts: seq<Timer>)
    ensures |EventsOf(ts)| == |ts| && forall k :: 0 <= k < |ts| ==> EventsOf(ts)[k] == ts[k].event
  {
    if ts != [] {
      EventsAt(ts[..|ts| - 1]);
    }
  }

  /** What advancing means, timer by timer: exactly the live ones due by the new time fire and exactly
      the live later ones are left, both ordered by time. */
  lemma AdvancedMeans(ts: seq<Timer>, now: int, d: int, fired: seq<Timer>, left: seq<Timer>, now': int)
    requires Advanced(ts, now, d, fired, left, now')
    ensures forall t :: t in fired <==> t in ts && !t.cancelled && t.fireAt <= now + d
    ensures forall t :: t in left <==> t in ts && !t.cancelled && t.fireAt > now + d
    ensures forall i, j :: 0 <= i < j < |fired| ==> fired[i].fireAt <= fired[j].fireAt
    ensures forall i, j :: 0 <= i < j < |left| ==> left[i].fireAt <= left[j].fireAt
    ensures |EventsOf(fired)| == |fired| && forall k :: 0 <= k < |fired| ==> EventsOf(fired)[k] == fired[k].event
  {
    EventsAt(fired);
    PicksExactly(fired, ts, IsDue(now'));
    PicksExactly(left, ts, IsLater(now'));
  }

  lemma PicksExactly(kept: seq<Timer>, ts: seq<Timer>, p: Timer -> bool)
    requires Picks(kept, ts, p)
    ensures forall t :: t in kept <==> t in ts && p(t)
  {
    forall t ensures t in kept <==> t in ts && p(t) {
      assert multiset(kept)[t] > 0 <==> t in kept;
      assert multiset(ts)[t] > 0 <==> t in ts;
    }
  }

  // ---------------------------------------------------------------- reordering

  /** Only live timers matter for which ID is taken. */
  lemma OnePerIDReordered(ts: seq<Timer>, us: seq<Timer>)
    requires OnePerID(ts) && multiset(us) <= multiset(ts)
    ensures OnePerID(us)
  {
    forall id ensures |Keep(us, LiveWithID(id))| <= 1 {
      forall x ensures multiset(Keep(us, LiveWithID(id)))[x] <= multiset(Keep(ts, LiveWithID(id)))[x] {
        KeepCounts(us, LiveWithID(id), x);
        KeepCounts(ts, LiveWithID(id), x);
      }
      SmallerMultiset(multiset(Keep(us, LiveWithID(id))), multiset(Keep(ts, LiveWithID(id))));
    }
  }

  lemma SmallerMultiset<T>(a: multiset<T>, b: multiset<T>)
    requires a <= b
    ensures |a| <= |b|
  {
    assert b == a + (b - a);
  }

  // ---------------------------------------------------------------- the harness's scheduler

  class HarnessScheduler {
    var now: int
    var pending: seq<Timer>

    ghost predicate Valid()
      reads this`pending
    {
      OnePerID(pending)
    }

    ghost function LiveIDs(): set<string>
      reads this`pending
    {
      LiveIDsOf(pending)
    }

    constructor ()
      ensures now == 0 && pending == []
    {
      now, pending := 0, [];
    }

    /** The timer's predecessor of the same ID, if any, can no longer fire. */
    method Start(id: string, d: int, ev: Event)
      requires Valid()
      modifies this`pending
      ensures Valid() && LiveIDs() == old(LiveIDs()) + {id}
      ensures pending == Cancelled(old(pending), id) + [Timer(id, now + d, ev, false)]
      ensures forall t :: t in pending && !t.cancelled <==>
        (t in old(pending) && !t.cancelled && t.id != id) || t == Timer(id, now + d, ev, false)
    {
      ghost var was, t := pending, Timer(id, now + d, ev, false);
      StartedTimer(was, id, t);
      Cancel(id);
      pending := pending + [Timer(id, now + d, ev, false)];
      assert pending == Cancelled(was, id) + [t];
    }

    /** Marks every timer of that ID in place. */
    method Cancel(id: string)
      requires Valid()
      modifies this`pending
      ensures Valid() && LiveIDs() == old(LiveIDs()) - {id}
      ensures pending == Cancelled(old(pending), id)
      ensures forall t :: t in pending && !t.cancelled <==>
        t in old(pending) && !t.cancelled && t.id != id
    {
      ghost var was := pending;
      for i := 0 to |pending|
        invariant |pending| == |was|
        invariant forall j :: 0 <= j < |was| ==>
          pending[j] == if j < i && was[j].id == id then was[j].(cancelled := true) else was[j]
      {
        if pending[i].id == id {
          pending := pending[i := pending[i].(cancelled := true)];
        }
      }
      CancelledAt(was, id);
      assert pending == Cancelled(was, id);
      CancelledLive(was, id);
      CancelOnePerID(was, id);
      CancelledIDs(was, id);
    }

    /** Moves time by `d` and returns the events of the timers that fire. `fired` are the timers. */
    method Advance(d: int) returns (events: seq<Event>, ghost fired: seq<Timer>)
      requires Valid()
      modifies this`now, this`pending
      ensures Valid() && Advanced(old(pending), old(now), d, fired, pending, now)
      ensures events == EventsOf(fired) && LiveIDs() <= old(LiveIDs())
      ensures |events| == |fired| && forall k :: 0 <= k < |fired| ==> events[k] == fired[k].event
      ensures forall t :: t in pending ==> t in old(pending)
    {
      now := now + d;
      var sorted := SortBy(pending, FireTime());
      OnePerIDReordered(pending, sorted);
      SameMembers(sorted, pending);
      var remaining;
      events, remaining, fired := Split(sorted, now);
      PicksFewer(remaining, sorted, IsLater(now));
      PicksMembers(remaining, sorted, IsLater(now));
      EventsAt(fired);
      pending := remaining;
    }
  }

  /** One pass over the sorted timers; cancelled ones are dropped. */
  method Split(ts: seq<Timer>, deadline: int)
    returns (events: seq<Event>, remaining: seq<Timer>, ghost fired: seq<Timer>)
    requires Chronological(ts)
    ensures Picks(fired, ts, IsDue(deadline)) && Chronological(fired) && events == EventsOf(fired)
    ensures Picks(remaining, ts, IsLater(deadline)) && Chronological(remaining)
  {
    events, remaining, fired := [], [], [];
    for i := 0 to |ts|
      invariant fired == Keep(ts[..i], IsDue(deadline)) && events == EventsOf(fired)
      invariant remaining == Keep(ts[..i], IsLater(deadline))
    {
      assert ts[..i + 1][..i] == ts[..i];
      var t := ts[i];
      if !t.cancelled && t.fireAt <= deadline {
        events, fired := events + [t.event], fired + [t];
      } else if !t.cancelled {
        remaining := remaining + [t];
      }
    }
    assert ts[..|ts|] == ts;
    KeepPicks(ts, IsDue(deadline));
    KeepPicks(ts, IsLater(deadline));
    KeepSorted(ts, IsDue(deadline), FireTime());
    KeepSorted(ts, IsLater(deadline), FireTime());
  }

  function Cancelled(ts: seq<Timer>, id: string): seq<Timer> {
    if ts == [] then []
    else
      Cancelled(ts[..|ts| - 1], id)
      + [if ts[|ts| - 1].id == id then ts[|ts| - 1].(cancelled := true) else ts[|ts| - 1]]
  }

  lemma {:induction false} CancelledAt(ts: seq<Timer>, id: string)
    ensures |Cancelled(ts, id)| == |ts|
    ensures forall j :: 0 <= j < |ts| ==>
      Cancelled(ts, id)[j] == if ts[j].id == id then ts[j].(cancelled := true) else ts[j]
  {
    if ts != [] {
      CancelledAt(ts[..|ts| - 1], id);
    }
  }

  lemma CancelledLive(ts: seq<Timer>, id: string)
    ensures forall t ::
      t in Cancelled(ts, id) && !t.cancelled <==> t in ts && !t.cancelled && t.id != id
  {
    CancelledAt(ts, id);
    forall t | t in ts && !t.cancelled && t.id != id ensures t in Cancelled(ts, id) {
      var j :| 0 <= j < |ts| && ts[j] == t;
      assert Cancelled(ts, id)[j] == t;
    }
  }

  lemma StartedTimer(ts: seq<Timer>, id: string, t: Timer)
    requires OnePerID(ts) && t.id == id && IsLive(t)
    ensures OnePerID(Cancelled(ts, id) + [t]) && LiveIDsOf(Cancelled(ts, id) + [t]) == LiveIDsOf(ts) + {id}
    ensures forall u ::
      u in Cancelled(ts, id) + [t] && !u.cancelled <==>
      (u in ts && !u.cancelled && u.id != id) || u == t
  {
    CancelOnePerID(ts, id);
    CancelledIDs(ts, id);
    StartOnePerID(Cancelled(ts, id), id, t);
    StartIDs(Cancelled(ts, id), t);
    StartedLive(ts, id, t);
  }

  lemma StartedLive(ts: seq<Timer>, id: string, t: Timer)
    requires t.id == id && !t.cancelled
    ensures forall u ::
      u in Cancelled(ts, id) + [t] && !u.cancelled <==>
      (u in ts && !u.cancelled && u.id != id) || u == t
  {
    CancelledLive(ts, id);
  }

  lemma {:induction false} CancelledKeeps(ts: seq<Timer>, id: string, other: string)
    ensures Keep(Cancelled(ts, id), LiveWithID(other)) == if other == id then [] else Keep(ts, LiveWithID(other))
  {
    if ts != [] {
      var front := ts[..|ts| - 1];
      CancelledKeeps(front, id, other);
      assert Cancelled(ts, id)[..|Cancelled(ts, id)| - 1] == Cancelled(front, id);
    }
  }

  lemma CancelOnePerID(ts: seq<Timer>, id: string)
    requires OnePerID(ts)
    ensures OnePerID(Cancelled(ts, id)) && |Keep(Cancelled(ts, id), LiveWithID(id))| == 0
  {
    forall other ensures |Keep(Cancelled(ts, id), LiveWithID(other))| <= 1 {
      CancelledKeeps(ts, id, other);
    }
    CancelledKeeps(ts, id, id);
  }

  lemma CancelledIDs(ts: seq<Timer>, id: string)
    ensures LiveIDsOf(Cancelled(ts, id)) == LiveIDsOf(ts) - {id}
  {
    CancelledAt(ts, id);
    var us := Cancelled(ts, id);
    forall x | x in LiveIDsOf(ts) && x != id ensures x in LiveIDsOf(us) {
      var t :| t in ts && IsLive(t) && t.id == x;
      var j :| 0 <= j < |ts| && ts[j] == t;
      assert us[j] == t;
    }
  }

  lemma StartIDs(ts: seq<Timer>, t: Timer)
    requires IsLive(t)
    ensures LiveIDsOf(ts + [t]) == LiveIDsOf(ts) + {t.id}
  {
    assert t in ts + [t];
  }

  lemma StartOnePerID(ts: seq<Timer>, id: string, t: Timer)
    requires OnePerID(ts) && |Keep(ts, LiveWithID(id))| == 0 && t.id == id && IsLive(t)
    ensures OnePerID(ts + [t])
  {
    forall other ensures |Keep(ts + [t], LiveWithID(other))| <= 1 {
      KeepSnoc(ts, t, LiveWithID(other));
      assert |Keep(ts, LiveWithID(other))| <= 1;
    }
  }

  /** `kept` holds exactly the timers of `ts` that satisfy `p`, each as often. */
  ghost predicate Picks(kept: seq<Timer>, ts: seq<Timer>, p: Timer -> bool) {
    forall t: Timer :: multiset(kept)[t] == if p(t) then multiset(ts)[t] else 0
  }

  lemma KeepPicks(ts: seq<Timer>, p: Timer -> bool)
    ensures Picks(Keep(ts, p), ts, p)
  {
    forall t: Timer ensures multiset(Keep(ts, p))[t] == if p(t) then multiset(ts)[t] else 0 {
      KeepCounts(ts, p, t);
    }
  }

  lemma PicksMembers(kept: seq<Timer>, ts: seq<Timer>, p: Timer -> bool)
    requires Picks(kept, ts, p)
    ensures forall t :: t in kept ==> t in ts
  {
    forall t | t in kept ensures t in ts {
      assert multiset(kept)[t] > 0;
      assert t in multiset(ts);
    }
  }

  lemma PicksFewer(kept: seq<Timer>, ts: seq<Timer>, p: Timer -> bool)
    requires Picks(kept, ts, p) && OnePerID(ts)
    ensures OnePerID(kept) && LiveIDsOf(kept) <= LiveIDsOf(ts)
  {
    forall t: Timer ensures multiset(kept)[t] <= multiset(ts)[t] {
    }
    OnePerIDReordered(ts, kept);
    PicksMembers(kept, ts, p);
  }

  lemma SameMembers<T>(a: seq<T>, b: seq<T>)
    requires multiset(a) == multiset(b)
    ensures forall x :: x in a <==> x in b
  {
    forall x ensures x in a <==> x in b {
      assert x in multiset(a) <==> x in multiset(b);
    }
  }

  // ---------------------------------------------------------------- advancing in two steps

  /** Advancing by `a` and then by `b >= 0`, with no start or cancel between, does what advancing
      by `a + b` does: same timers, each as often, in an order that is chronological throughout. */
  lemma AdvanceSplits(ts: seq<Timer>, now: int, a: int, b: int, f1: seq<Timer>, left1: seq<Timer>, now1: int,
                      f2: seq<Timer>, left2: seq<Timer>, now2: int)
    requires b >= 0
    requires Advanced(ts, now, a, f1, left1, now1) && Advanced(left1, now1, b, f2, left2, now2)
    ensures Advanced(ts, now, a + b, f1 + f2, left2, now2)
  {
    forall t: Timer ensures
      && multiset(f1 + f2)[t] == (if IsDue(now2)(t) then multiset(ts)[t] else 0)
      && multiset(left2)[t] == if IsLater(now2)(t) then multiset(ts)[t] else 0
    {
      assert multiset(f1)[t] == (if IsDue(now1)(t) then multiset(ts)[t] else 0);
      assert multiset(left1)[t] == (if IsLater(now1)(t) then multiset(ts)[t] else 0);
    }
    forall t | t in f1 ensures t.fireAt <= now + a {
      assert multiset(f1)[t] > 0;
    }
    forall t | t in f2 ensures t.fireAt > now + a {
      assert multiset(f2)[t] > 0;
      assert multiset(left1)[t] > 0;
    }
    ChronologicalAppend(f1, f2, now + a);
  }

  lemma ChronologicalAppend(a: seq<Timer>, b: seq<Timer>, d: int)
    requires Chronological(a) && Chronological(b)
    requires (forall t :: t in a ==> t.fireAt <= d) && (forall t :: t in b ==> t.fireAt > d)
    ensures Chronological(a + b)
  {
    forall i, j | 0 <= i < j < |a + b| ensures (a + b)[i].fireAt <= (a + b)[j].fireAt {
      if i < |a| <= j {
        assert a[i] in a && b[j - |a|] in b;
      }
    }
  }
}
