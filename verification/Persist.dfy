/** Saving a service and restoring it: the round trip, and what the restored service does next. */
module Persist {
  import opened Seqs
  import opened Charts
  import opened Configurations
  import opened Machines
  import opened Interpreter
  import opened Runs
  import opened RunLoop
  import opened Services

  type Bytes = string

  datatype Checkpoint = Checkpoint(machineID: string, leaves: seq<StateID>, context: Bytes, savedAt: int)

  /** The encoder; None stands for its errors. */
  datatype Codec<!C> = Codec(encode: C -> Option<Bytes>, decode: Bytes -> Option<C>,
                             write: Checkpoint -> Option<Bytes>, read: Bytes -> Option<Checkpoint>)

  /** What is written can be read back. */
  ghost predicate Faithful<C(!new)>(codec: Codec<C>) {
    && (forall c :: codec.encode(c).Some? ==> codec.decode(codec.encode(c).value) == Some(c))
    && forall cp :: codec.write(cp).Some? ==> codec.read(codec.write(cp).value) == Some(cp)
  }

  /** What is saved of a snapshot at a given time. */
  function Saved<C>(codec: Codec<C>, machineID: string, snap: Snapshot<C>, now: int): Option<Bytes> {
    var ctx := codec.encode(snap.context);
    if ctx.None? then None else codec.write(Checkpoint(machineID, snap.leaves, ctx.value, now))
  }

  /** The encoder takes the context, and the checkpoint with it. */
  ghost predicate Encodable<C>(codec: Codec<C>, cp: Checkpoint, ctx: C) {
    codec.encode(ctx).Some? && codec.write(cp.(context := codec.encode(ctx).value)).Some?
  }

  ghost predicate Acceptable<C>(m: Machine<C>, codec: Codec<C>, cp: Checkpoint) {
    cp.machineID == m.id && LeafList(m.chart, cp.leaves) && codec.decode(cp.context).Some?
  }

  method Save<C>(svc: Service<C>, codec: Codec<C>, now: int) returns (data: Option<Bytes>)
    requires svc.Valid()
    ensures data == Saved(codec, svc.machine.id, svc.snap, now)
  {
    var snap := svc.snap;
    var ctxBytes := codec.encode(snap.context);
    if ctxBytes.None? {
      return None;
    }
    var leaves: seq<StateID> := [];
    for i := 0 to |snap.leaves|
      invariant leaves == snap.leaves[..i]
    {
      leaves := leaves + [snap.leaves[i]];
    }
    assert leaves == snap.leaves;
    return codec.write(Checkpoint(svc.machine.id, leaves, ctxBytes.value, now));
  }

  /** Accepts exactly checkpoints of this machine with a non-empty list of declared atomic leaves
      and a readable context, and starts from them. */
  method RestoreCheckpoint<C>(m: Machine<C>, cp: Checkpoint, codec: Codec<C>, mailboxSize: nat)
    returns (r: RestoreResult<C>)
    requires WellFormed(m)
    ensures r.Restored? <==> Acceptable(m, codec, cp)
    ensures r.Restored? <==>
      && cp.machineID == m.id && cp.leaves != [] && codec.decode(cp.context).Some?
      && forall l :: l in cp.leaves ==> l in m.chart.nodes && m.chart.nodes[l].children == []
    ensures r.Restored? ==> fresh(r.service) && fresh(r.service.scheduler) && r.service.Valid()
    ensures r.Restored? ==> r.service.machine == m && r.service.mailboxSize == mailboxSize
    ensures r.Restored? ==>
      r.service.System() == InitialSys(RestoreConf(m, cp.leaves, codec.decode(cp.context).value))
  {
    if cp.machineID != m.id || |cp.leaves| == 0 {
      return ErrInvalidCheckpoint;
    }
    var leaves: seq<StateID> := [];
    for i := 0 to |cp.leaves|
      invariant leaves == cp.leaves[..i]
    {
      leaves := leaves + [cp.leaves[i]];
    }
    assert leaves == cp.leaves;
    var ctx := codec.decode(cp.context);
    if ctx.None? {
      return ErrInvalidCheckpoint;
    }
    r := Services.Restore(m, leaves, ctx.value, mailboxSize);
  }

  method Restore<C>(m: Machine<C>, data: Bytes, codec: Codec<C>, mailboxSize: nat) returns (r: RestoreResult<C>)
    requires WellFormed(m)
    ensures r.Restored? <==> codec.read(data).Some? && Acceptable(m, codec, codec.read(data).value)
    ensures r.Restored? ==> fresh(r.service) && fresh(r.service.scheduler) && r.service.Valid()
    ensures r.Restored? ==> r.service.machine == m && r.service.mailboxSize == mailboxSize
    ensures r.Restored? ==> var cp := codec.read(data).value;
      r.service.System() == InitialSys(RestoreConf(m, cp.leaves, codec.decode(cp.context).value))
  {
    var cp := codec.read(data);
    if cp.None? {
      return ErrInvalidCheckpoint;
    }
    r := RestoreCheckpoint(m, cp.value, codec, mailboxSize);
  }

  // ---------------------------------------------------------------- round trip

  lemma TeardownCoherent<C>(m: Machine<C>, st: Conf<C>)
    requires WellFormed(m) && Coherent(m, st)
    ensures Coherent(m, Teardown(st))
  {
  }

  /** Whatever a service has been through, whether it still runs or not: it can be saved unless the
      encoder refuses, and what is saved of it is accepted by the same machine and gives back its
      leaves, its context and the time. */
  lemma SaveRestores<C(!new)>(m: Machine<C>, codec: Codec<C>, capacity: nat, labels: seq<Label>, now: int)
    requires WellFormed(m) && Faithful(codec) && Coherent(m, StartConf(m))
    ensures var st := SysRun(m, InitialSys(StartConf(m)), capacity, labels).conf;
      var data := Saved(codec, m.id, st.snap, now);
      && (data.Some? <==> Encodable(codec, Checkpoint(m.id, st.leaves, "", now), st.ctx))
      && (data.Some? ==>
            && codec.read(data.value).Some?
            && var cp := codec.read(data.value).value;
               && Acceptable(m, codec, cp) && cp.savedAt == now
               && cp.leaves == st.leaves && codec.decode(cp.context) == Some(st.ctx))
  {
    var s := InitialSys(StartConf(m));
    SysIsRun(m, s, capacity, labels);
    var after := Run(m, s.conf, SysMoves(m, s, capacity, labels));
    TeardownCoherent(m, after);
    SavedReads(m, codec, SysRun(m, s, capacity, labels).conf, now);
  }

  lemma SavedReads<C(!new)>(m: Machine<C>, codec: Codec<C>, st: Conf<C>, now: int)
    requires WellFormed(m) && Faithful(codec) && Coherent(m, st)
    ensures var data := Saved(codec, m.id, st.snap, now);
      && (data.Some? <==> Encodable(codec, Checkpoint(m.id, st.leaves, "", now), st.ctx))
      && (data.Some? ==>
            && codec.read(data.value).Some?
            && var cp := codec.read(data.value).value;
               && Acceptable(m, codec, cp) && cp.savedAt == now
               && cp.leaves == st.leaves && codec.decode(cp.context) == Some(st.ctx))
  {
  }

  /** A good state restores to a good state: legal configuration, one timer per delayed transition
      and one handle per invoke of every active state. */
  lemma RestoredGood<C>(m: Machine<C>, st: Conf<C>)
    requires WellFormed(m) && Good(m, st)
    ensures Good(m, RestoreConf(m, st.leaves, st.ctx))
  {
    RestoreGood(m, st.leaves, st.ctx);
  }

  // ---------------------------------------------------------------- the restored service's future

  /** What decides the next steps. */
  ghost predicate SameCore<C>(a: Conf<C>, b: Conf<C>) {
    a.leaves == b.leaves && a.ctx == b.ctx && a.internal == b.internal
  }

  ghost predicate SameSys<C>(a: Sys<C>, b: Sys<C>) {
    && SameCore(a.conf, b.conf) && a.mailbox == b.mailbox && a.fires == b.fires
    && a.stopRequested == b.stopRequested && a.status == b.status
  }

  lemma SameMicro<C>(m: Machine<C>, a: Conf<C>, b: Conf<C>, ev: Event, pending: seq<Pending<C>>)
    requires WellFormed(m) && SameCore(a, b) && a.leaves != []
    requires NewLeaves(m.chart, a.leaves, Hops(pending)) != []
    ensures SameCore(Micro(m, a, ev, pending), Micro(m, b, ev, pending))
  {
  }

  lemma SamePending<C>(m: Machine<C>, a: Conf<C>, b: Conf<C>, mv: Move)
    requires WellFormed(m) && SameCore(a, b)
    ensures MovePending(m, a, mv) == MovePending(m, b, mv) && MoveEvent(a, mv) == MoveEvent(b, mv)
    ensures SameCore(Popped(a, mv), Popped(b, mv)) && Popped(a, mv).leaves == a.leaves
  {
  }

  lemma SameNext<C>(m: Machine<C>, a: Conf<C>, b: Conf<C>, mv: Move)
    requires WellFormed(m) && LeafList(m.chart, a.leaves) && SameCore(a, b)
    ensures SameCore(Next(m, a, mv), Next(m, b, mv))
  {
    NextCases(m, a, mv);
    NextCases(m, b, mv);
    SamePending(m, a, b, mv);
    var pending := MovePending(m, a, mv);
    if pending != [] {
      SameMicro(m, Popped(a, mv), Popped(b, mv), MoveEvent(a, mv), pending);
    }
  }

  lemma {:induction false} SameAlways<C>(m: Machine<C>, a: Conf<C>, b: Conf<C>, n: nat)
    requires WellFormed(m) && LeafList(m.chart, a.leaves) && SameCore(a, b)
    ensures AlwaysRun(m, a, n).0 == AlwaysRun(m, b, n).0
    ensures SameCore(AlwaysRun(m, a, n).1, AlwaysRun(m, b, n).1)
    decreases n
  {
    if n > 0 && EnabledNull(m, a.leaves, a.ctx) != [] {
      SameNext(m, a, b, Null);
      NextLeafList(m, a, Null);
      var a', b' := Next(m, a, Null), Next(m, b, Null);
      if a'.internal == [] {
        SameAlways(m, a', b', n - 1);
      }
    }
  }

  lemma SameSelect<C>(m: Machine<C>, a: Sys<C>, b: Sys<C>, choice: Choice)
    requires WellFormed(m) && LeafList(m.chart, a.conf.leaves) && SameSys(a, b) && a.conf.internal == []
    ensures SameSys(Select(m, a, choice), Select(m, b, choice))
  {
    if choice == TakeMail && a.mailbox != [] {
      SameNext(m, a.conf, b.conf, Move.Step(a.mailbox[0]));
    } else if choice == TakeFire && a.fires != [] {
      SameNext(m, a.conf, b.conf, Move.Step(a.fires[0].event));
    }
  }

  lemma SameIterate<C>(m: Machine<C>, a: Sys<C>, b: Sys<C>, choice: Choice)
    requires WellFormed(m) && LeafList(m.chart, a.conf.leaves) && SameSys(a, b)
    ensures SameSys(Iterate(m, a, choice), Iterate(m, b, choice))
  {
    if a.conf.internal != [] {
      SameNext(m, a.conf, b.conf, PopInternal);
    } else {
      SameAlways(m, a.conf, b.conf, MAX_ALWAYS_ITER);
      AlwaysRunOutcome(m, a.conf, MAX_ALWAYS_ITER);
      AlwaysRunOutcome(m, b.conf, MAX_ALWAYS_ITER);
      var (o, a1) := AlwaysRun(m, a.conf, MAX_ALWAYS_ITER);
      var b1 := AlwaysRun(m, b.conf, MAX_ALWAYS_ITER).1;
      if o == Quiet {
        SameSelect(m, a.(conf := a1, hist := a.hist.Raise(a1.internal)),
                   b.(conf := b1, hist := b.hist.Raise(b1.internal)), choice);
      }
    }
  }

  lemma {:induction false} SameRun<C>(m: Machine<C>, a: Sys<C>, b: Sys<C>, capacity: nat, labels: seq<Label>)
    requires WellFormed(m) && LeafList(m.chart, a.conf.leaves) && SameSys(a, b)
    ensures SameSys(SysRun(m, a, capacity, labels), SysRun(m, b, capacity, labels))
    decreases |labels|
  {
    if labels != [] {
      if a.status == Running && labels[0].Loop? {
        SameIterate(m, a, b, labels[0].choice);
      }
      SameRun(m, SysStep(m, a, capacity, labels[0]), SysStep(m, b, capacity, labels[0]), capacity, labels[1..]);
    }
  }

  /** A service saved with nothing queued and restored elsewhere goes through the same leaves and
      contexts, takes the same events and stops at the same points as one that was not, whatever
      the environment does to both. (Without timers and invokes the environment is the callers
      alone; timers are started afresh and would fire at other times.) */
  lemma RestoredFollows<C>(m: Machine<C>, s: Sys<C>, capacity: nat, labels: seq<Label>)
    requires WellFormed(m) && LeafList(m.chart, s.conf.leaves)
    requires s.conf.internal == [] && s.mailbox == [] && s.fires == [] && !s.stopRequested && s.status == Running
    ensures SameSys(SysRun(m, s, capacity, labels),
                    SysRun(m, InitialSys(RestoreConf(m, s.conf.leaves, s.conf.ctx)), capacity, labels))
  {
    SameRun(m, s, InitialSys(RestoreConf(m, s.conf.leaves, s.conf.ctx)), capacity, labels);
  }
}
