/** The scheduler: one live entry per timer ID. */
module Scheduling {
  import opened Machines

  datatype TimedFire = TimedFire(event: Event, id: string)

  /** What the clock holds for one entry. */
  datatype Job = Job(id: string, delay: int, event: Event)

  const SCHEDULER_BUF_SIZE: nat := 64

  /** State-scoped timers. An entry is an index into `cancelled` and `jobs`: its flag, and the
      callback given to the clock. */
  class Scheduler {
    var entries: map<string, nat>
    var cancelled: seq<bool>
    var jobs: seq<Job>
    var outCh: seq<TimedFire>

    /** The entries that may still fire are the registered ones, one per ID. */
    ghost predicate Valid()
      reads this
    {
      && |cancelled| == |jobs|
      && |outCh| <= SCHEDULER_BUF_SIZE
      && (forall id :: id in entries ==>
            entries[id] < |jobs| && jobs[entries[id]].id == id && !cancelled[entries[id]])
      && (forall e :: 0 <= e < |jobs| && !cancelled[e] ==>
            jobs[e].id in entries && entries[jobs[e].id] == e)
    }

    constructor ()
      ensures Valid() && entries == map[] && outCh == [] && jobs == []
    {
      entries, cancelled, jobs, outCh := map[], [], [], [];
    }

    /** Registers a timer, cancelling a previous one of the same ID; no other entry changes. */
    method Start(id: string, d: int, ev: Event)
      requires Valid()
      modifies this
      ensures Valid()
      ensures entries == old(entries)[id := |old(jobs)|]
      ensures jobs == old(jobs) + [Job(id, d, ev)]
      ensures |cancelled| == |old(cancelled)| + 1 && !cancelled[|old(cancelled)|]
      ensures forall e :: 0 <= e < |old(cancelled)| ==>
        cancelled[e] == (old(cancelled)[e] || (id in old(entries) && old(entries)[id] == e))
      ensures outCh == old(outCh)
    {
      Cancel(id);
      entries := entries[id := |jobs|];
      cancelled := cancelled + [false];
      jobs := jobs + [Job(id, d, ev)];
    }

    /** Unregisters a timer and marks exactly its entry. */
    method Cancel(id: string)
      requires Valid()
      modifies this
      ensures Valid()
      ensures entries == old(entries) - {id} && jobs == old(jobs) && outCh == old(outCh)
      ensures |cancelled| == |old(cancelled)|
      ensures forall e :: 0 <= e < |cancelled| ==>
        cancelled[e] == (old(cancelled)[e] || (id in old(entries) && old(entries)[id] == e))
    {
      if id in entries {
        var e := entries[id];
        entries := entries - {id};
        cancelled := cancelled[e := true];
      } else {
        assert entries == entries - {id};
      }
    }

    /** Nothing registered, nothing left that could fire. */
    method CancelAll()
      requires Valid()
      modifies this
      ensures Valid() && entries == map[] && jobs == old(jobs) && outCh == old(outCh)
      ensures |cancelled| == |old(cancelled)| && forall e :: 0 <= e < |cancelled| ==> cancelled[e]
    {
      ghost var was := entries;
      var left := entries;
      entries := map[];
      while left != map[]
        invariant entries == map[] && jobs == old(jobs) && outCh == old(outCh)
        invariant |cancelled| == |jobs|
        invariant forall id :: id in left ==> 0 <= left[id] < |jobs| && jobs[left[id]].id == id
        invariant forall e :: 0 <= e < |jobs| && !cancelled[e] ==>
          jobs[e].id in left && left[jobs[e].id] == e
        decreases |left|
      {
        var id :| id in left;
        cancelled := cancelled[left[id] := true];
        left := left - {id};
      }
    }

    /** The clock runs an entry's callback: a cancelled entry does nothing, a full buffer drops
        the event. */
    method Callback(e: nat)
      requires Valid() && e < |jobs|
      modifies this`outCh
      ensures Valid()
      ensures outCh == if !cancelled[e] && |old(outCh)| < SCHEDULER_BUF_SIZE
        then old(outCh) + [TimedFire(jobs[e].event, jobs[e].id)] else old(outCh)
    {
      if cancelled[e] {
        return;
      }
      Offer(TimedFire(jobs[e].event, jobs[e].id));
    }

    /** A non-blocking send: a full buffer drops the event. */
    method Offer(fire: TimedFire)
      requires Valid()
      modifies this`outCh
      ensures Valid()
      ensures outCh == if |old(outCh)| < SCHEDULER_BUF_SIZE then old(outCh) + [fire] else old(outCh)
    {
      if |outCh| < SCHEDULER_BUF_SIZE {
        outCh := outCh + [fire];
      }
    }

    /** The interpreter receives the oldest fired event. */
    method Receive() returns (fire: TimedFire)
      requires Valid() && outCh != []
      modifies this`outCh
      ensures Valid() && fire == old(outCh)[0] && outCh == old(outCh)[1..]
    {
      fire := outCh[0];
      outCh := outCh[1..];
    }
  }
}
