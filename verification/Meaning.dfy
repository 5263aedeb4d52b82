/** Compilation preserves meaning: resolving an event on the compiled machine gives what walking
    the declaration tree from the leaf to its root gives. */
module Meaning {
  import opened Seqs
  import opened Charts
  import opened Machines
  import opened TimerNames
  import opened Declarations
  import opened Compiling
  import opened Forests

  // ---------------------------------------------------------------- the direct interpreter

  predicate Allows<C>(guard: Option<Guard<C>>, ctx: C, ev: Event) {
    guard.None? || guard.value(ctx, ev)
  }

  /** The first enabled transition declared for the event. */
  function ScanDeclared<C>(ts: seq<TransDecl<C>>, ctx: C, ev: Event): Option<Transition<C>> {
    if ts == [] then None
    else if ts[0].event == ev.typ && Allows(ts[0].guard, ctx, ev) then Some(TransitionOf(ts[0]))
    else ScanDeclared(ts[1..], ctx, ev)
  }

  /** The first enabled delayed transition from the `i`-th on whose timer the event comes from. */
  function ScanAfters<C>(id: StateID, afters: seq<AfterDecl<C>>, i: nat, ctx: C, ev: Event): Option<Transition<C>>
    requires i <= |afters|
    decreases |afters| - i
  {
    if i == |afters| then None
    else if AfterEventType(TimerName(id, i)) == ev.typ && Allows(afters[i].guard, ctx, ev)
    then Some(AfterTransition(afters[i]))
    else ScanAfters(id, afters, i + 1, ctx, ev)
  }

  /** Regular transitions in order, then delayed ones in order. */
  function ScanState<C>(sc: StateDecl<C>, ctx: C, ev: Event): Option<Transition<C>> {
    var regular := ScanDeclared(sc.transitions, ctx, ev);
    if regular.Some? then regular else ScanAfters(sc.id, sc.afters, 0, ctx, ev)
  }

  function ScanAlways<C>(ts: seq<TransDecl<C>>, ctx: C): Option<Transition<C>> {
    if ts == [] then None
    else if Allows(ts[0].guard, ctx, ALWAYS) then Some(TransitionOf(ts[0]))
    else ScanAlways(ts[1..], ctx)
  }

  /** Walk the declarations from `id` up to its root and take what the first state offers. */
  ghost function Walk<C>(f: seq<StateDecl<C>>, id: StateID, scan: StateDecl<C> -> Option<Transition<C>>)
    : Option<Transition<C>>
    decreases f, 0
  {
    if f == [] then None
    else if id in TreeIds(f[|f| - 1]) then WalkTree(f[|f| - 1], id, scan)
    else Walk(f[..|f| - 1], id, scan)
  }

  ghost function WalkTree<C>(sc: StateDecl<C>, id: StateID, scan: StateDecl<C> -> Option<Transition<C>>)
    : Option<Transition<C>>
    decreases sc, 1
  {
    if id == sc.id then scan(sc)
    else
      var below := Walk(sc.children, id, scan);
      if below.Some? then below else scan(sc)
  }

  // ---------------------------------------------------------------- one state

  lemma {:induction false} FirstEnabledAppend<C>(a: seq<Transition<C>>, b: seq<Transition<C>>, ctx: C, ev: Event)
    ensures FirstEnabled(a + b, ctx, ev) ==
      if FirstEnabled(a, ctx, ev).Some? then FirstEnabled(a, ctx, ev) else FirstEnabled(b, ctx, ev)
  {
    if a == [] {
      assert a + b == b;
    } else {
      assert (a + b)[1..] == a[1..] + b;
      FirstEnabledAppend(a[1..], b, ctx, ev);
    }
  }

  lemma {:induction false} ScanDeclaredSnoc<C>(ts: seq<TransDecl<C>>, t: TransDecl<C>, ctx: C, ev: Event)
    ensures ScanDeclared(ts + [t], ctx, ev) ==
      if ScanDeclared(ts, ctx, ev).Some? then ScanDeclared(ts, ctx, ev) else ScanDeclared([t], ctx, ev)
  {
    if ts == [] {
      assert ts + [t] == [t];
    } else {
      assert (ts + [t])[1..] == ts[1..] + [t];
      ScanDeclaredSnoc(ts[1..], t, ctx, ev);
    }
  }

  lemma {:induction false} RegularMeaning<C>(ts: seq<TransDecl<C>>, ctx: C, ev: Event)
    ensures FirstEnabled(BucketOf(RegularBuckets(ts), ev.typ), ctx, ev) == ScanDeclared(ts, ctx, ev)
  {
    if ts != [] {
      var front, t := ts[..|ts| - 1], ts[|ts| - 1];
      RegularMeaning(front, ctx, ev);
      assert ts == front + [t];
      ScanDeclaredSnoc(front, t, ctx, ev);
      assert [t][1..] == [] && [TransitionOf(t)][1..] == [];
      FirstEnabledAppend(BucketOf(RegularBuckets(front), ev.typ), [TransitionOf(t)], ctx, ev);
    }
  }

  /** What one delayed transition adds to the event's bucket. */
  function AfterHit<C>(id: StateID, i: nat, a: AfterDecl<C>, typ: string): seq<Transition<C>> {
    if AfterEventType(TimerName(id, i)) == typ then [AfterTransition(a)] else []
  }

  /** What the delayed transitions from the `i`-th on add to the event's bucket. */
  function AfterBucket<C>(id: StateID, afters: seq<AfterDecl<C>>, i: nat, typ: string): seq<Transition<C>>
    requires i <= |afters|
    decreases |afters| - i
  {
    if i == |afters| then [] else AfterHit(id, i, afters[i], typ) + AfterBucket(id, afters, i + 1, typ)
  }

  lemma {:induction false} AfterBucketSnoc<C>(id: StateID, afters: seq<AfterDecl<C>>, a: AfterDecl<C>, i: nat, typ: string)
    requires i <= |afters|
    ensures AfterBucket(id, afters + [a], i, typ) == AfterBucket(id, afters, i, typ) + AfterHit(id, |afters|, a, typ)
    decreases |afters| - i
  {
    var last := AfterHit(id, |afters|, a, typ);
    if i < |afters| {
      AfterBucketSnoc(id, afters, a, i + 1, typ);
      Assoc(AfterHit(id, i, afters[i], typ), AfterBucket(id, afters, i + 1, typ), last);
    } else {
      assert AfterBucket(id, afters + [a], i + 1, typ) == [];
      assert last + [] == last && [] + last == last;
    }
  }

  lemma {:induction false} AfterBucketsAre<C>(b: map<string, seq<Transition<C>>>, id: StateID,
                                              afters: seq<AfterDecl<C>>, typ: string)
    ensures BucketOf(AfterBuckets(b, id, afters), typ) == BucketOf(b, typ) + AfterBucket(id, afters, 0, typ)
  {
    if afters != [] {
      var front, a := afters[..|afters| - 1], afters[|afters| - 1];
      AfterBucketsAre(b, id, front, typ);
      assert afters == front + [a];
      AfterBucketSnoc(id, front, a, 0, typ);
      AddToBucket(AfterBuckets(b, id, front), AfterEventType(TimerName(id, |front|)), AfterTransition(a), typ);
      Assoc(BucketOf(b, typ), AfterBucket(id, front, 0, typ), AfterHit(id, |front|, a, typ));
    }
  }

  lemma Assoc<T>(a: seq<T>, b: seq<T>, c: seq<T>)
    ensures (a + b) + c == a + (b + c)
  {
  }

  lemma AddToBucket<C>(b: map<string, seq<Transition<C>>>, at: string, t: Transition<C>, typ: string)
    ensures BucketOf(AddTo(b, at, t), typ) == BucketOf(b, typ) + if at == typ then [t] else []
  {
  }

  lemma {:induction false} AfterMeaning<C>(id: StateID, afters: seq<AfterDecl<C>>, i: nat, ctx: C, ev: Event)
    requires i <= |afters|
    ensures FirstEnabled(AfterBucket(id, afters, i, ev.typ), ctx, ev) == ScanAfters(id, afters, i, ctx, ev)
    decreases |afters| - i
  {
    if i < |afters| {
      AfterMeaning(id, afters, i + 1, ctx, ev);
      var rest := AfterBucket(id, afters, i + 1, ev.typ);
      if AfterEventType(TimerName(id, i)) == ev.typ {
        FirstEnabledCons(AfterTransition(afters[i]), rest, ctx, ev);
      } else {
        assert [] + rest == rest;
      }
    }
  }

  lemma FirstEnabledCons<C>(t: Transition<C>, rest: seq<Transition<C>>, ctx: C, ev: Event)
    ensures FirstEnabled([t] + rest, ctx, ev) ==
      if Allows(t.guard, ctx, ev) then Some(t) else FirstEnabled(rest, ctx, ev)
  {
    assert ([t] + rest)[1..] == rest;
  }

  lemma StateMeaning<C>(sc: StateDecl<C>, ctx: C, ev: Event)
    ensures FirstEnabled(Bucket(RulesOf(sc), ev.typ), ctx, ev) == ScanState(sc, ctx, ev)
  {
    RegularMeaning(sc.transitions, ctx, ev);
    AfterBucketsAre(RegularBuckets(sc.transitions), sc.id, sc.afters, ev.typ);
    AfterMeaning(sc.id, sc.afters, 0, ctx, ev);
    FirstEnabledAppend(BucketOf(RegularBuckets(sc.transitions), ev.typ),
                       AfterBucket(sc.id, sc.afters, 0, ev.typ), ctx, ev);
  }

  lemma {:induction false} AlwaysMeaning<C>(ts: seq<TransDecl<C>>, ctx: C)
    ensures FirstEnabled(Alwayses(ts), ctx, ALWAYS) == ScanAlways(ts, ctx)
  {
    AlwaysesAt(ts);
    AlwaysFrom(ts, 0, ctx);
    assert ts[0..] == ts && Alwayses(ts)[0..] == Alwayses(ts);
  }

  lemma {:induction false} AlwaysesAt<C>(ts: seq<TransDecl<C>>)
    ensures |Alwayses(ts)| == |ts|
    ensures forall i :: 0 <= i < |ts| ==> Alwayses(ts)[i] == TransitionOf(ts[i])
  {
    if ts != [] {
      AlwaysesAt(ts[..|ts| - 1]);
    }
  }

  lemma {:induction false} AlwaysFrom<C>(ts: seq<TransDecl<C>>, i: nat, ctx: C)
    requires i <= |ts| == |Alwayses(ts)|
    requires forall k :: 0 <= k < |ts| ==> Alwayses(ts)[k] == TransitionOf(ts[k])
    ensures FirstEnabled(Alwayses(ts)[i..], ctx, ALWAYS) == ScanAlways(ts[i..], ctx)
    decreases |ts| - i
  {
    if i < |ts| {
      assert ts[i..][1..] == ts[i + 1..] && Alwayses(ts)[i..][1..] == Alwayses(ts)[i + 1..];
      AlwaysFrom(ts, i + 1, ctx);
    }
  }

  // ---------------------------------------------------------------- the whole walk

  ghost predicate RulesAgree<C>(m: Machine<C>, rules: map<StateID, Rules<C>>) {
    forall id :: id in rules ==> id in m.rules && m.rules[id] == rules[id]
  }

  lemma RulesParts<C>(m: Machine<C>, f: seq<StateDecl<C>>)
    requires f != [] && RulesAgree(m, ForestRules(f)) && Distinct(Ids(f))
    ensures RulesAgree(m, ForestRules(f[..|f| - 1])) && RulesAgree(m, TreeRules(f[|f| - 1]))
  {
    var front, sc := f[..|f| - 1], f[|f| - 1];
    NodesKeys(front, None);
    TreeNodesKeys(sc, None);
    forall id | id in ForestRules(front) ensures id !in TreeRules(sc) {
      DistinctParts(Ids(front), TreeIds(sc), id);
    }
    RulesUnion(m, ForestRules(front), TreeRules(sc));
  }

  lemma RulesUnion<C>(m: Machine<C>, a: map<StateID, Rules<C>>, b: map<StateID, Rules<C>>)
    requires RulesAgree(m, a + b) && forall id :: id in a ==> id !in b
    ensures RulesAgree(m, a) && RulesAgree(m, b)
  {
    forall id | id in a ensures id in m.rules && m.rules[id] == a[id] {
      assert id in a + b;
    }
    forall id | id in b ensures id in m.rules && m.rules[id] == b[id] {
      assert id in a + b;
    }
  }

  lemma TreeRulesParts<C>(m: Machine<C>, sc: StateDecl<C>)
    requires RulesAgree(m, TreeRules(sc)) && Distinct(TreeIds(sc))
    ensures sc.id in m.rules && m.rules[sc.id] == RulesOf(sc) && RulesAgree(m, ForestRules(sc.children))
    ensures sc.id !in Ids(sc.children)
  {
    NodesKeys(sc.children, None);
    assert sc.id in [sc.id];
    DistinctParts([sc.id], Ids(sc.children), sc.id);
    assert sc.id in TreeRules(sc);
    forall id | id in ForestRules(sc.children) ensures id in m.rules && m.rules[id] == ForestRules(sc.children)[id] {
      assert id in TreeRules(sc);
    }
  }

  /** One of the two ways to resolve: for an event, or (`ev` is None) always transitions. */
  ghost function ResolveAny<C>(m: Machine<C>, id: StateID, ctx: C, ev: Option<Event>): Option<Transition<C>>
    requires WellFormed(m)
  {
    if ev.Some? then Resolve(m, id, ctx, ev.value) else ResolveNull(m, id, ctx)
  }

  function ScanAny<C>(ctx: C, ev: Option<Event>): StateDecl<C> -> Option<Transition<C>> {
    (sc: StateDecl<C>) => if ev.Some? then ScanState(sc, ctx, ev.value) else ScanAlways(sc.always, ctx)
  }

  lemma ResolveHere<C>(m: Machine<C>, sc: StateDecl<C>, parent: Option<StateID>, ctx: C, ev: Option<Event>)
    requires WellFormed(m)
    requires sc.id in m.chart.nodes && m.chart.nodes[sc.id].parent == parent && m.rules[sc.id] == RulesOf(sc)
    ensures ResolveAny(m, sc.id, ctx, ev) ==
      if ScanAny(ctx, ev)(sc).Some? then ScanAny(ctx, ev)(sc)
      else if parent.Some? then ResolveAny(m, parent.value, ctx, ev) else None
  {
    if ev.Some? {
      StateMeaning(sc, ctx, ev.value);
    } else {
      AlwaysMeaning(sc.always, ctx);
    }
  }

  lemma Parts<C>(m: Machine<C>, f: seq<StateDecl<C>>, parent: Option<StateID>, k: nat)
    requires WellFormed(m) && LiesAt(m.chart, f, parent, k) && RulesAgree(m, ForestRules(f)) && f != []
    ensures var front, t := f[..|f| - 1], f[|f| - 1];
      && LiesAt(m.chart, front, parent, k) && RulesAgree(m, ForestRules(front))
      && Slice(m.chart.order, k + |Ids(front)|, TreeIds(t)) && Agrees(m.chart, TreeNodes(t, parent))
      && RulesAgree(m, TreeRules(t))
  {
    SliceDistinct(m.chart.order, k, Ids(f));
    ForestParts(m.chart, f, parent, k);
    RulesParts(m, f);
  }

  /** From inside a forest: what the forest offers, else what its parent offers. */
  lemma {:induction false} ForestMeaning<C>(m: Machine<C>, f: seq<StateDecl<C>>, parent: Option<StateID>, k: nat,
                                            id: StateID, ctx: C, ev: Option<Event>)
    requires WellFormed(m) && LiesAt(m.chart, f, parent, k) && RulesAgree(m, ForestRules(f)) && id in Ids(f)
    ensures ResolveAny(m, id, ctx, ev) ==
      var r := Walk(f, id, ScanAny(ctx, ev));
      if r.Some? then r else if parent.Some? then ResolveAny(m, parent.value, ctx, ev) else None
    decreases f, 0
  {
    Parts(m, f, parent, k);
    if id in TreeIds(f[|f| - 1]) {
      TreeMeaning(m, f[|f| - 1], parent, k + |Ids(f[..|f| - 1])|, id, ctx, ev);
    } else {
      ForestMeaning(m, f[..|f| - 1], parent, k, id, ctx, ev);
    }
  }

  lemma {:induction false} TreeMeaning<C>(m: Machine<C>, sc: StateDecl<C>, parent: Option<StateID>, k: nat,
                                          id: StateID, ctx: C, ev: Option<Event>)
    requires WellFormed(m) && Slice(m.chart.order, k, TreeIds(sc)) && Agrees(m.chart, TreeNodes(sc, parent))
    requires RulesAgree(m, TreeRules(sc)) && id in TreeIds(sc)
    ensures ResolveAny(m, id, ctx, ev) ==
      var r := WalkTree(sc, id, ScanAny(ctx, ev));
      if r.Some? then r else if parent.Some? then ResolveAny(m, parent.value, ctx, ev) else None
    decreases sc, 1
  {
    SliceDistinct(m.chart.order, k, TreeIds(sc));
    TreeParts(m.chart, sc, parent, k);
    TreeRulesParts(m, sc);
    ResolveHere(m, sc, parent, ctx, ev);
    if id != sc.id {
      ForestMeaning(m, sc.children, Some(sc.id), k + 1, id, ctx, ev);
    }
  }

  lemma {:induction false} WalkElsewhere<C>(f: seq<StateDecl<C>>, id: StateID, scan: StateDecl<C> -> Option<Transition<C>>)
    requires id !in Ids(f)
    ensures Walk(f, id, scan).None?
    decreases f
  {
    if f != [] {
      WalkElsewhere(f[..|f| - 1], id, scan);
    }
  }

  /** For every accepted declaration, every state (declared or not), context and event: resolving
      on the compiled machine is walking the declarations. */
  lemma CompilationPreservesMeaning<C>(cfg: MachineDecl<C>, id: StateID, ctx: C, ev: Event)
    requires Valid(cfg)
    ensures WellFormed(MachineOf(cfg))
    ensures Resolve(MachineOf(cfg), id, ctx, ev) ==
      Walk(cfg.states, id, (sc: StateDecl<C>) => ScanState(sc, ctx, ev))
    ensures ResolveNull(MachineOf(cfg), id, ctx) ==
      Walk(cfg.states, id, (sc: StateDecl<C>) => ScanAlways(sc.always, ctx))
  {
    var m := MachineOf(cfg);
    CompiledWellFormed(cfg);
    CompiledLinked(cfg);
    var byEvent := (sc: StateDecl<C>) => ScanState(sc, ctx, ev);
    var byNull := (sc: StateDecl<C>) => ScanAlways(sc.always, ctx);
    if id in Ids(cfg.states) {
      ForestMeaning(m, cfg.states, None, 0, id, ctx, Some(ev));
      ForestMeaning(m, cfg.states, None, 0, id, ctx, None);
      SameScan(cfg.states, id, ScanAny(ctx, Some(ev)), byEvent);
      SameScan(cfg.states, id, ScanAny(ctx, None), byNull);
    } else {
      WalkElsewhere(cfg.states, id, byEvent);
      WalkElsewhere(cfg.states, id, byNull);
    }
  }

  lemma {:induction false} SameScan<C>(f: seq<StateDecl<C>>, id: StateID, s: StateDecl<C> -> Option<Transition<C>>,
                                       t: StateDecl<C> -> Option<Transition<C>>)
    requires forall sc :: s(sc) == t(sc)
    ensures Walk(f, id, s) == Walk(f, id, t)
    decreases f
  {
    if f != [] {
      SameScan(f[..|f| - 1], id, s, t);
      SameScan(f[|f| - 1].children, id, s, t);
    }
  }
}
