/** A timer event moves the machine only while the state that owns the timer is active. */
module TimerEvents {
  import opened Seqs
  import opened Charts
  import opened Navigation
  import opened Configurations
  import opened Machines
  import opened TimerNames
  import opened Declarations
  import opened Interpreter
  import opened Compiling
  import opened Forests
  import opened Runs

  const AFTER_PREFIX: string := "statecraft.after."

  /** No declared event of the forest starts like a timer event. */
  ghost predicate PrefixFree<C>(f: seq<StateDecl<C>>)
    decreases f, 0
  {
    f != [] ==> PrefixFree(f[..|f| - 1]) && PrefixFreeTree(f[|f| - 1])
  }

  ghost predicate PrefixFreeTree<C>(sc: StateDecl<C>)
    decreases sc, 1
  {
    (forall t :: t in sc.transitions ==> !(AFTER_PREFIX <= t.event)) && PrefixFree(sc.children)
  }

  lemma {:induction false} PrefixFreeSource<C>(f: seq<StateDecl<C>>, id: StateID) returns (sc: StateDecl<C>)
    requires id in Ids(f) && PrefixFree(f)
    ensures id in ForestRules(f) && ForestRules(f)[id] == RulesOf(sc) && sc.id == id
    ensures forall t :: t in sc.transitions ==> !(AFTER_PREFIX <= t.event)
    decreases f, 0
  {
    NodesKeys(f[..|f| - 1], None);
    TreeNodesKeys(f[|f| - 1], None);
    if id in TreeIds(f[|f| - 1]) {
      sc := PrefixFreeTreeSource(f[|f| - 1], id);
    } else {
      sc := PrefixFreeSource(f[..|f| - 1], id);
    }
  }

  lemma {:induction false} PrefixFreeTreeSource<C>(t: StateDecl<C>, id: StateID) returns (sc: StateDecl<C>)
    requires id in TreeIds(t) && PrefixFreeTree(t)
    ensures id in TreeRules(t) && TreeRules(t)[id] == RulesOf(sc) && sc.id == id
    ensures forall tr :: tr in sc.transitions ==> !(AFTER_PREFIX <= tr.event)
    decreases t, 1
  {
    NodesKeys(t.children, None);
    if id in Ids(t.children) {
      sc := PrefixFreeSource(t.children, id);
    } else {
      sc := t;
    }
  }

  lemma {:induction false} RegularBucketsTypes<C>(ts: seq<TransDecl<C>>, typ: string)
    requires typ in RegularBuckets(ts)
    ensures exists t :: t in ts && t.event == typ
  {
    var front, t := ts[..|ts| - 1], ts[|ts| - 1];
    assert t in ts && forall u :: u in front ==> u in ts;
    if t.event != typ {
      RegularBucketsTypes(front, typ);
    }
  }

  /** The bucket of a timer's event holds that timer's transition and no other delayed one. */
  lemma {:induction false} AfterBucketOwn<C>(b: map<string, seq<Transition<C>>>, id: StateID, afters: seq<AfterDecl<C>>,
                                             s: StateID, i: nat, t: Transition<C>)
    requires AfterEventType(TimerName(s, i)) !in b
    requires t in BucketOf(AfterBuckets(b, id, afters), AfterEventType(TimerName(s, i)))
    ensures id == s && i < |afters| && t == AfterTransition(afters[i])
  {
    if afters != [] {
      var n := |afters| - 1;
      var typ := AfterEventType(TimerName(s, i));
      if t in BucketOf(AfterBuckets(b, id, afters[..n]), typ) {
        AfterBucketOwn(b, id, afters[..n], s, i, t);
      } else {
        assert AfterEventType(TimerName(id, n)) == typ;
        AfterEventTypeInjective(TimerName(id, n), TimerName(s, i));
        TimerNameInjective(id, n, s, i);
      }
    }
  }

  /** For any leaf, context and timer: what the timer's event resolves to is the timer's own
      delayed transition, and its state is the leaf or an ancestor of it. */
  lemma TimerEventOwn<C>(cfg: MachineDecl<C>, leaf: StateID, ctx: C, s: StateID, i: nat, payload: seq<int>)
    requires Valid(cfg) && PrefixFree(cfg.states) && WellFormed(MachineOf(cfg))
    ensures var m, ev := MachineOf(cfg), Event(AfterEventType(TimerName(s, i)), payload);
      Resolve(m, leaf, ctx, ev).Some? ==>
        && m.chart.Anc(s, leaf) && s in m.rules && i < |m.rules[s].afters|
        && m.rules[s].afters[i].timerID == TimerName(s, i)
        && m.rules[s].afters[i].transition == Resolve(m, leaf, ctx, ev).value
  {
    var m, ev := MachineOf(cfg), Event(AfterEventType(TimerName(s, i)), payload);
    if Resolve(m, leaf, ctx, ev).Some? {
      var owner := ResolveSource(m, leaf, ctx, ev);
      var t := Resolve(m, leaf, ctx, ev).value;
      NodesKeys(cfg.states, None);
      var sc := PrefixFreeSource(cfg.states, owner);
      var regular := RegularBuckets(sc.transitions);
      assert AFTER_PREFIX <= ev.typ;
      if ev.typ in regular {
        RegularBucketsTypes(sc.transitions, ev.typ);
        assert false;
      }
      AfterBucketOwn(regular, owner, sc.afters, s, i, t);
      AftersNamed(s, sc.afters);
    }
  }

  lemma {:induction false} EnabledFrom<C>(m: Machine<C>, leaves: seq<StateID>, ctx: C, ev: Event)
    requires WellFormed(m) && Enabled(m, leaves, ctx, ev) != []
    ensures exists l :: l in leaves && Resolve(m, l, ctx, ev).Some?
  {
    var front, x := leaves[..|leaves| - 1], leaves[|leaves| - 1];
    assert x in leaves && forall l :: l in front ==> l in leaves;
    if x in front || Resolve(m, x, ctx, ev).None? {
      EnabledFrom(m, front, ctx, ev);
    }
  }

  /** If no declared event looks like a timer event, then in every interpreter state a timer's
      event does nothing at all unless the timer's state is active. */
  lemma StaleTimerIgnored<C>(cfg: MachineDecl<C>, st: Conf<C>, s: StateID, i: nat, payload: seq<int>)
    requires Valid(cfg) && PrefixFree(cfg.states) && WellFormed(MachineOf(cfg))
    requires LeafList(MachineOf(cfg).chart, st.leaves)
    requires s !in Active(MachineOf(cfg).chart, st.leaves)
    ensures Next(MachineOf(cfg), st, Move.Step(Event(AfterEventType(TimerName(s, i)), payload))) == st
  {
    var m, ev := MachineOf(cfg), Event(AfterEventType(TimerName(s, i)), payload);
    NextIs(m, st, Move.Step(ev));
    if Enabled(m, st.leaves, st.ctx, ev) != [] {
      EnabledFrom(m, st.leaves, st.ctx, ev);
      var l :| l in st.leaves && Resolve(m, l, st.ctx, ev).Some?;
      TimerEventOwn(cfg, l, st.ctx, s, i, payload);
      assert IsActive(m.chart, st.leaves, s);
    }
  }
}
