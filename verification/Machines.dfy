/** Compiled machines: a state tree with the transitions, timers and actions of each state, and
    how an event is resolved from a leaf upwards. Guards and actions are arbitrary functions. */
module Machines {
  import opened Seqs
  import opened Charts

  /** An event: its type tag and whatever it carries. */
  datatype Event = Event(typ: string, payload: seq<int>)

  function E(typ: string): Event { Event(typ, []) }

  const INIT: Event := E("statecraft.init")
  const ALWAYS: Event := E("statecraft.always")

  type Guard<!C> = (C, Event) -> bool

  /** An action returns the new context and the events it raises. */
  type Action<!C> = (C, Event) -> (C, seq<Event>)

  datatype Transition<!C> = Transition(target: StateID, guard: Option<Guard<C>>, actions: seq<Action<C>>)

  datatype After<!C> = After(delay: int, timerID: string, transition: Transition<C>)

  /** The part of a compiled state beside the tree; `invokes` counts its invoke functions. */
  datatype Rules<!C> = Rules(transitions: map<string, seq<Transition<C>>>, afters: seq<After<C>>,
                             always: seq<Transition<C>>, onEntry: seq<Action<C>>,
                             onExit: seq<Action<C>>, invokes: nat)

  datatype Machine<!C> = Machine(id: string, initial: StateID, context: C, chart: Chart,
                                 rules: map<StateID, Rules<C>>)

  function BucketOf<C>(b: map<string, seq<Transition<C>>>, typ: string): seq<Transition<C>> {
    if typ in b then b[typ] else []
  }

  /** The transitions of a state for one event type, in declaration order. */
  function Bucket<C>(r: Rules<C>, typ: string): seq<Transition<C>> {
    BucketOf(r.transitions, typ)
  }

  ghost predicate TargetsDeclared<C>(c: Chart, ts: seq<Transition<C>>) {
    forall t :: t in ts ==> t.target in c.nodes
  }

  ghost predicate RulesOK<C>(m: Machine<C>, id: StateID) {
    id in m.rules ==>
      && (forall typ :: TargetsDeclared(m.chart, Bucket(m.rules[id], typ)))
      && TargetsDeclared(m.chart, m.rules[id].always)
  }

  /** What the interpreter relies on; compilation establishes it. */
  ghost predicate WellFormed<C>(m: Machine<C>) {
    && m.chart.WF()
    && m.rules.Keys == m.chart.nodes.Keys
    && m.initial in m.chart.nodes
    && forall id :: RulesOK(m, id)
  }

  function FirstEnabled<C>(ts: seq<Transition<C>>, ctx: C, ev: Event): Option<Transition<C>> {
    if ts == [] then None
    else if ts[0].guard.None? || ts[0].guard.value(ctx, ev) then Some(ts[0])
    else FirstEnabled(ts[1..], ctx, ev)
  }

  ghost function Resolve<C>(m: Machine<C>, id: StateID, ctx: C, ev: Event): Option<Transition<C>>
    requires WellFormed(m)
    decreases m.chart.Rank(id)
  {
    assert m.chart.NodeOK(id);
    if id !in m.chart.nodes then None
    else
      var here := FirstEnabled(Bucket(m.rules[id], ev.typ), ctx, ev);
      if here.Some? then here
      else if m.chart.nodes[id].parent.Some? then Resolve(m, m.chart.Par(id), ctx, ev)
      else None
  }

  ghost function ResolveNull<C>(m: Machine<C>, id: StateID, ctx: C): Option<Transition<C>>
    requires WellFormed(m)
    decreases m.chart.Rank(id)
  {
    assert m.chart.NodeOK(id);
    if id !in m.chart.nodes then None
    else
      var here := FirstEnabled(m.rules[id].always, ctx, ALWAYS);
      if here.Some? then here
      else if m.chart.nodes[id].parent.Some? then ResolveNull(m, m.chart.Par(id), ctx)
      else None
  }

  lemma {:induction false} FirstEnabledIn<C>(ts: seq<Transition<C>>, ctx: C, ev: Event)
    ensures var r := FirstEnabled(ts, ctx, ev);
      r.Some? ==> r.value in ts && (r.value.guard.Some? ==> r.value.guard.value(ctx, ev))
    ensures FirstEnabled(ts, ctx, ev).None? ==>
      forall t :: t in ts ==> t.guard.Some? && !t.guard.value(ctx, ev)
  {
    if ts != [] {
      FirstEnabledIn(ts[1..], ctx, ev);
      assert ts == [ts[0]] + ts[1..];
    }
  }

  /** A resolved transition belongs to the leaf or one of its ancestors, and its target is
      declared. */
  lemma {:induction false} ResolveSource<C>(m: Machine<C>, id: StateID, ctx: C, ev: Event) returns (s: StateID)
    requires WellFormed(m) && Resolve(m, id, ctx, ev).Some?
    ensures m.chart.Anc(s, id) && s in m.rules
    ensures Resolve(m, id, ctx, ev).value in Bucket(m.rules[s], ev.typ)
    ensures Resolve(m, id, ctx, ev).value.target in m.chart.nodes
    decreases m.chart.Rank(id)
  {
    assert m.chart.NodeOK(id) && m.chart.NodeOK(ROOT);
    FirstEnabledIn(Bucket(m.rules[id], ev.typ), ctx, ev);
    if FirstEnabled(Bucket(m.rules[id], ev.typ), ctx, ev).Some? {
      s := id;
    } else {
      s := ResolveSource(m, m.chart.Par(id), ctx, ev);
      if s != m.chart.Par(id) { BelowTrans(m.chart, s, m.chart.Par(id), id); }
    }
    assert RulesOK(m, s);
    assert TargetsDeclared(m.chart, Bucket(m.rules[s], ev.typ));
  }

  lemma {:induction false} ResolveNullSource<C>(m: Machine<C>, id: StateID, ctx: C) returns (s: StateID)
    requires WellFormed(m) && ResolveNull(m, id, ctx).Some?
    ensures m.chart.Anc(s, id) && s in m.rules
    ensures ResolveNull(m, id, ctx).value in m.rules[s].always
    ensures ResolveNull(m, id, ctx).value.target in m.chart.nodes
    decreases m.chart.Rank(id)
  {
    assert m.chart.NodeOK(id) && m.chart.NodeOK(ROOT);
    FirstEnabledIn(m.rules[id].always, ctx, ALWAYS);
    if FirstEnabled(m.rules[id].always, ctx, ALWAYS).Some? {
      s := id;
    } else {
      s := ResolveNullSource(m, m.chart.Par(id), ctx);
      if s != m.chart.Par(id) { BelowTrans(m.chart, s, m.chart.Par(id), id); }
    }
    assert RulesOK(m, s);
  }

  method ScanEnabled<C>(ts: seq<Transition<C>>, ctx: C, ev: Event) returns (r: Option<Transition<C>>)
    ensures r == FirstEnabled(ts, ctx, ev)
  {
    assert ts[0..] == ts;
    for i := 0 to |ts|
      invariant FirstEnabled(ts, ctx, ev) == FirstEnabled(ts[i..], ctx, ev)
    {
      if ts[i].guard.None? || ts[i].guard.value(ctx, ev) {
        return Some(ts[i]);
      }
      assert ts[i..][1..] == ts[i + 1..];
    }
    return None;
  }

  method ResolveTransition<C>(m: Machine<C>, stateID: StateID, ctx: C, ev: Event)
    returns (r: Option<Transition<C>>)
    requires WellFormed(m)
    ensures r == Resolve(m, stateID, ctx, ev)
  {
    var s := stateID;
    while s in m.chart.nodes
      invariant Resolve(m, s, ctx, ev) == Resolve(m, stateID, ctx, ev)
      decreases m.chart.Rank(s), if s in m.chart.nodes then 1 else 0
    {
      assert m.chart.NodeOK(s);
      r := ScanEnabled(Bucket(m.rules[s], ev.typ), ctx, ev);
      if r.Some? {
        return;
      }
      if m.chart.nodes[s].parent.None? {
        return None;
      }
      s := m.chart.nodes[s].parent.value;
    }
    return None;
  }

  method ResolveAlways<C>(m: Machine<C>, stateID: StateID, ctx: C) returns (r: Option<Transition<C>>)
    requires WellFormed(m)
    ensures r == ResolveNull(m, stateID, ctx)
  {
    var s := stateID;
    while s in m.chart.nodes
      invariant ResolveNull(m, s, ctx) == ResolveNull(m, stateID, ctx)
      decreases m.chart.Rank(s), if s in m.chart.nodes then 1 else 0
    {
      assert m.chart.NodeOK(s);
      r := ScanEnabled(m.rules[s].always, ctx, ALWAYS);
      if r.Some? {
        return;
      }
      if m.chart.nodes[s].parent.None? {
        return None;
      }
      s := m.chart.nodes[s].parent.value;
    }
    return None;
  }
}
