/** What a declaration makes of an event: which transition each active leaf takes, in terms of the
    declared transitions alone, and the two events that the interpreter makes itself, those of
    completed states and of timers. */
module Resolution {
  import opened Seqs
  import opened Charts
  import opened Machines
  import opened TimerNames
  import opened Declarations
  import opened Interpreter
  import opened Forests
  import opened Meaning
  import opened Placement
  import opened Runs

  // ---------------------------------------------------------------- one declared state

  /** The declared transition is for the event and its guard, if any, lets it through. */
  ghost predicate Offers<C>(t: TransDecl<C>, ctx: C, ev: Event) {
    t.event == ev.typ && (t.guard == None || t.guard.value(ctx, ev))
  }

  /** The same for a compiled delayed transition. */
  ghost predicate AfterOffers<C>(a: After<C>, ctx: C, ev: Event) {
    ev.typ == "statecraft.after." + a.timerID && (a.transition.guard == None || a.transition.guard.value(ctx, ev))
  }

  lemma {:induction false} ScanDeclaredFirst<C>(ts: seq<TransDecl<C>>, ctx: C, ev: Event, k: nat)
    requires k <= |ts| && forall j :: 0 <= j < k ==> !Offers(ts[j], ctx, ev)
    ensures k < |ts| && Offers(ts[k], ctx, ev) ==>
      ScanDeclared(ts, ctx, ev) == Some(Transition(ts[k].target, ts[k].guard, ts[k].actions))
    ensures k == |ts| ==> ScanDeclared(ts, ctx, ev) == None
  {
    if k > 0 {
      assert forall j :: 0 <= j < k - 1 ==> ts[1..][j] == ts[j + 1];
      ScanDeclaredFirst(ts[1..], ctx, ev, k - 1);
    }
  }

  lemma {:induction false} ScanAlwaysFirst<C>(ts: seq<TransDecl<C>>, ctx: C, k: nat)
    requires k <= |ts| && forall j :: 0 <= j < k ==> ts[j].guard != None && !ts[j].guard.value(ctx, ALWAYS)
    ensures k < |ts| && (ts[k].guard == None || ts[k].guard.value(ctx, ALWAYS)) ==>
      ScanAlways(ts, ctx) == Some(Transition(ts[k].target, ts[k].guard, ts[k].actions))
    ensures k == |ts| ==> ScanAlways(ts, ctx) == None
  {
    if k > 0 {
      assert forall j :: 0 <= j < k - 1 ==> ts[1..][j] == ts[j + 1];
      ScanAlwaysFirst(ts[1..], ctx, k - 1);
    }
  }

  lemma {:induction false} ScanAftersFirst<C>(sc: StateDecl<C>, ctx: C, ev: Event, i: nat, k: nat)
    requires i <= k <= |sc.afters|
    requires forall j :: i <= j < k ==> !AfterOffers(AfterOf(sc.id, j, sc.afters[j]), ctx, ev)
    ensures k < |sc.afters| && AfterOffers(AfterOf(sc.id, k, sc.afters[k]), ctx, ev) ==>
      ScanAfters(sc.id, sc.afters, i, ctx, ev) == Some(AfterOf(sc.id, k, sc.afters[k]).transition)
    ensures k == |sc.afters| ==> ScanAfters(sc.id, sc.afters, i, ctx, ev) == None
    decreases k - i
  {
    if i < k {
      assert !AfterOffers(AfterOf(sc.id, i, sc.afters[i]), ctx, ev);
      ScanAftersFirst(sc, ctx, ev, i + 1, k);
    }
  }

  lemma ResolvesHere<C>(cfg: MachineDecl<C>, sc: StateDecl<C>, p: Option<StateID>, ctx: C, ev: Event)
    requires Valid(cfg) && Occurs(cfg.states, None, sc, p)
    ensures WellFormed(MachineOf(cfg))
    ensures var m, here := MachineOf(cfg), ScanState(sc, ctx, ev);
      Resolve(m, sc.id, ctx, ev) == if here.Some? then here else if p.Some? then Resolve(m, p.value, ctx, ev) else None
    ensures var m, here := MachineOf(cfg), ScanAlways(sc.always, ctx);
      ResolveNull(m, sc.id, ctx) == if here.Some? then here else if p.Some? then ResolveNull(m, p.value, ctx) else None
    ensures sc.id in MachineOf(cfg).rules && MachineOf(cfg).rules[sc.id].afters == Afters(sc.id, sc.afters)
  {
    CompiledAs(cfg, sc, p);
    ResolveHere(MachineOf(cfg), sc, p, ctx, Some(ev));
    ResolveHere(MachineOf(cfg), sc, p, ctx, None);
  }

  /** At a declared state an event leads to the first of its transitions that offers something. */
  lemma FirstOffer<C>(cfg: MachineDecl<C>, sc: StateDecl<C>, p: Option<StateID>, ctx: C, ev: Event, k: nat)
    requires Valid(cfg) && Occurs(cfg.states, None, sc, p)
    requires k < |sc.transitions| && Offers(sc.transitions[k], ctx, ev)
    requires forall j :: 0 <= j < k ==> !Offers(sc.transitions[j], ctx, ev)
    ensures WellFormed(MachineOf(cfg))
    ensures var t := sc.transitions[k];
      Resolve(MachineOf(cfg), sc.id, ctx, ev) == Some(Transition(t.target, t.guard, t.actions))
  {
    ResolvesHere(cfg, sc, p, ctx, ev);
    ScanDeclaredFirst(sc.transitions, ctx, ev, k);
  }

  /** If none of these does, to the first of its delayed transitions that does. */
  lemma FirstAfterOffer<C>(cfg: MachineDecl<C>, sc: StateDecl<C>, p: Option<StateID>, ctx: C, ev: Event, k: nat)
    requires Valid(cfg) && Occurs(cfg.states, None, sc, p)
    requires forall j :: 0 <= j < |sc.transitions| ==> !Offers(sc.transitions[j], ctx, ev)
    requires var m := MachineOf(cfg);
      && WellFormed(m) && sc.id in m.rules
      && k < |m.rules[sc.id].afters| && AfterOffers(m.rules[sc.id].afters[k], ctx, ev)
      && forall j :: 0 <= j < k ==> !AfterOffers(m.rules[sc.id].afters[j], ctx, ev)
    ensures Resolve(MachineOf(cfg), sc.id, ctx, ev) == Some(MachineOf(cfg).rules[sc.id].afters[k].transition)
  {
    ResolvesHere(cfg, sc, p, ctx, ev);
    AftersNamed(sc.id, sc.afters);
    ScanDeclaredFirst(sc.transitions, ctx, ev, |sc.transitions|);
    ScanAftersFirst(sc, ctx, ev, 0, k);
  }

  /** If nothing of it offers anything, the event is up to the parent, and without one is ignored. */
  lemma NoOffer<C>(cfg: MachineDecl<C>, sc: StateDecl<C>, p: Option<StateID>, ctx: C, ev: Event)
    requires Valid(cfg) && Occurs(cfg.states, None, sc, p)
    requires forall j :: 0 <= j < |sc.transitions| ==> !Offers(sc.transitions[j], ctx, ev)
    requires var m := MachineOf(cfg);
      sc.id in m.rules && forall j :: 0 <= j < |m.rules[sc.id].afters| ==> !AfterOffers(m.rules[sc.id].afters[j], ctx, ev)
    ensures WellFormed(MachineOf(cfg))
    ensures Resolve(MachineOf(cfg), sc.id, ctx, ev) == if p.Some? then Resolve(MachineOf(cfg), p.value, ctx, ev) else None
  {
    ResolvesHere(cfg, sc, p, ctx, ev);
    AftersNamed(sc.id, sc.afters);
    ScanDeclaredFirst(sc.transitions, ctx, ev, |sc.transitions|);
    ScanAftersFirst(sc, ctx, ev, 0, |sc.afters|);
  }

  /** Always transitions: the first whose guard lets it through, else up to the parent. */
  lemma FirstAlways<C>(cfg: MachineDecl<C>, sc: StateDecl<C>, p: Option<StateID>, ctx: C, k: nat)
    requires Valid(cfg) && Occurs(cfg.states, None, sc, p) && k <= |sc.always|
    requires forall j :: 0 <= j < k ==>
      sc.always[j].guard != None && !sc.always[j].guard.value(ctx, Event("statecraft.always", []))
    requires k < |sc.always| ==>
      sc.always[k].guard == None || sc.always[k].guard.value(ctx, Event("statecraft.always", []))
    ensures WellFormed(MachineOf(cfg))
    ensures var m := MachineOf(cfg);
      ResolveNull(m, sc.id, ctx) ==
        if k < |sc.always| then Some(Transition(sc.always[k].target, sc.always[k].guard, sc.always[k].actions))
        else if p.Some? then ResolveNull(m, p.value, ctx) else None
  {
    ResolvesHere(cfg, sc, p, ctx, ALWAYS);
    ScanAlwaysFirst(sc.always, ctx, k);
  }

  // ---------------------------------------------------------------- all active leaves

  /** Before the first `s[j]` there is a `y`. */
  ghost predicate Earlier(s: seq<StateID>, y: StateID, x: StateID) {
    exists a :: 0 <= a < |s| && s[a] == y && x !in s[..a + 1]
  }

  lemma EarlierSnoc(s: seq<StateID>, z: StateID, y: StateID, x: StateID)
    requires Earlier(s, y, x) || (y in s && x == z && z !in s)
    ensures Earlier(s + [z], y, x)
  {
    var a :| 0 <= a < |s| && s[a] == y && (x !in s[..a + 1] || (x == z && z !in s));
    assert (s + [z])[..a + 1] == s[..a + 1];
  }

  /** The pending list holds the transition of each active leaf that has one and nothing else, one
      for each leaf, in the order in which the leaves first occur. */
  ghost predicate PendingOf<C>(pending: seq<Pending<C>>, leaves: seq<StateID>, r: StateID -> Option<Transition<C>>) {
    && (forall i :: 0 <= i < |pending| ==>
          && pending[i].source in leaves && r(pending[i].source).Some?
          && pending[i].target == r(pending[i].source).value.target
          && pending[i].actions == r(pending[i].source).value.actions)
    && (forall l :: l in leaves && r(l).Some? ==> exists i :: 0 <= i < |pending| && pending[i].source == l)
    && forall i, j :: 0 <= i < j < |pending| ==> Earlier(leaves, pending[i].source, pending[j].source)
  }

  lemma PendingSnoc<C>(pending: seq<Pending<C>>, leaves: seq<StateID>, l: StateID, r: StateID -> Option<Transition<C>>)
    requires PendingOf(pending, leaves, r)
    ensures var all := if l in leaves || r(l).None? then pending
        else pending + [Pending(l, r(l).value.target, r(l).value.actions)];
      PendingOf(all, leaves + [l], r)
  {
    var all := if l in leaves || r(l).None? then pending
      else pending + [Pending(l, r(l).value.target, r(l).value.actions)];
    forall i, j | 0 <= i < j < |all| ensures Earlier(leaves + [l], all[i].source, all[j].source) {
      EarlierSnoc(leaves, l, all[i].source, all[j].source);
    }
    forall x | x in leaves + [l] && r(x).Some? ensures exists i :: 0 <= i < |all| && all[i].source == x {
      if x in leaves {
        var i :| 0 <= i < |pending| && pending[i].source == x;
        assert all[i].source == x;
      } else {
        assert all[|all| - 1].source == x;
      }
    }
  }

  /** What a step collects, for an event and for always transitions. */
  lemma {:induction false} EnabledExact<C>(m: Machine<C>, leaves: seq<StateID>, ctx: C, ev: Event)
    requires WellFormed(m)
    ensures PendingOf(Enabled(m, leaves, ctx, ev), leaves, l => Resolve(m, l, ctx, ev))
  {
    if leaves != [] {
      var front, l := leaves[..|leaves| - 1], leaves[|leaves| - 1];
      EnabledExact(m, front, ctx, ev);
      assert leaves == front + [l];
      PendingSnoc(Enabled(m, front, ctx, ev), front, l, l => Resolve(m, l, ctx, ev));
    }
  }

  lemma {:induction false} EnabledNullExact<C>(m: Machine<C>, leaves: seq<StateID>, ctx: C)
    requires WellFormed(m)
    ensures PendingOf(EnabledNull(m, leaves, ctx), leaves, l => ResolveNull(m, l, ctx))
  {
    if leaves != [] {
      var front, l := leaves[..|leaves| - 1], leaves[|leaves| - 1];
      EnabledNullExact(m, front, ctx);
      assert leaves == front + [l];
      PendingSnoc(EnabledNull(m, front, ctx), front, l, l => ResolveNull(m, l, ctx));
    }
  }

  // ---------------------------------------------------------------- events handled further up

  /** Nothing declared for the states from `l` up to, not including, `a` offers anything. */
  ghost predicate SilentUpTo<C>(cfg: MachineDecl<C>, a: StateID, l: StateID, ctx: C, ev: Event)
    requires Valid(cfg) && MachineOf(cfg).chart.Linked()
  {
    var c := MachineOf(cfg).chart;
    forall x :: c.Below(a, x) && c.Anc(x, l) ==> Silent(cfg.states, x, ctx, ev)
  }

  /** No transition declared for state `x` of the forest offers anything. */
  ghost predicate Silent<C>(f: seq<StateDecl<C>>, x: StateID, ctx: C, ev: Event)
    decreases f
  {
    forall i :: 0 <= i < |f| ==>
      && (f[i].id == x ==> forall j :: 0 <= j < |f[i].transitions| ==> !Offers(f[i].transitions[j], ctx, ev))
      && Silent(f[i].children, x, ctx, ev)
  }

  lemma {:induction false} SilentState<C>(f: seq<StateDecl<C>>, parent: Option<StateID>, sc: StateDecl<C>,
                                          p: Option<StateID>, ctx: C, ev: Event)
    requires Occurs(f, parent, sc, p) && Silent(f, sc.id, ctx, ev)
    ensures forall j :: 0 <= j < |sc.transitions| ==> !Offers(sc.transitions[j], ctx, ev)
    decreases f
  {
    var i :| 0 <= i < |f| && OccursIn(f[i], parent, sc, p);
    if !(f[i] == sc && parent == p) {
      SilentState(f[i].children, Some(f[i].id), sc, p, ctx, ev);
    }
  }

  /** No delayed transition of a state below `a` is for the event. */
  ghost predicate NoTimerBelow<C>(m: Machine<C>, a: StateID, ev: Event)
    requires m.chart.Linked()
  {
    forall x, i :: m.chart.Below(a, x) && x in m.rules && 0 <= i < |m.rules[x].afters| ==>
      ev.typ != "statecraft.after." + m.rules[x].afters[i].timerID
  }

  /** Then each of them leaves the event to `a`. */
  lemma {:induction false} LeftTo<C>(cfg: MachineDecl<C>, a: StateID, l: StateID, x: StateID, ctx: C, ev: Event)
    requires Valid(cfg) && WellFormed(MachineOf(cfg)) && a != ROOT
    requires MachineOf(cfg).chart.Anc(a, x) && MachineOf(cfg).chart.Anc(x, l)
    requires SilentUpTo(cfg, a, l, ctx, ev) && NoTimerBelow(MachineOf(cfg), a, ev)
    ensures Resolve(MachineOf(cfg), x, ctx, ev) == Resolve(MachineOf(cfg), a, ctx, ev)
    decreases MachineOf(cfg).chart.Rank(x)
  {
    var m := MachineOf(cfg);
    if x != a {
      var sc, p := NothingElseCompiled(cfg, x);
      ShapeCompiled(cfg, sc, p);
      SilentState(cfg.states, None, sc, p, ctx, ev);
      assert forall j :: 0 <= j < |m.rules[x].afters| ==> !AfterOffers(m.rules[x].afters[j], ctx, ev);
      NoOffer(cfg, sc, p, ctx, ev);
      assert m.chart.NodeOK(x) && m.chart.NodeOK(ROOT);
      if x != l { BelowTrans(m.chart, m.chart.Par(x), x, l); }
      LeftTo(cfg, a, l, m.chart.Par(x), ctx, ev);
    }
  }

  /** So the active leaf takes what `a` offers. */
  lemma TakenBelow<C>(cfg: MachineDecl<C>, a: StateID, leaves: seq<StateID>, l: StateID, ctx: C, ev: Event,
                      t: Transition<C>)
    requires Valid(cfg) && WellFormed(MachineOf(cfg)) && a != ROOT && l in leaves && MachineOf(cfg).chart.Anc(a, l)
    requires SilentUpTo(cfg, a, l, ctx, ev) && NoTimerBelow(MachineOf(cfg), a, ev)
    requires Resolve(MachineOf(cfg), a, ctx, ev) == Some(t)
    ensures Pending(l, t.target, t.actions) in Enabled(MachineOf(cfg), leaves, ctx, ev)
  {
    var m := MachineOf(cfg);
    LeftTo(cfg, a, l, l, ctx, ev);
    EnabledExact(m, leaves, ctx, ev);
    var pending := Enabled(m, leaves, ctx, ev);
    var i :| 0 <= i < |pending| && pending[i].source == l;
    assert pending[i] == Pending(l, t.target, t.actions);
  }

  // ---------------------------------------------------------------- completed states

  /** No timer's event looks like the event of a completed state. */
  lemma DoneIsNoTimer(id: string, timerID: string)
    ensures "done.state." + id != "statecraft.after." + timerID
  {
    assert ("done.state." + id)[0] == 'd' && ("statecraft.after." + timerID)[0] == 's';
  }

  /** The transition that waits for the completion of a state: if it is the state's first one for
      that event and has no guard, then handling the event raised by the completion makes every active
      leaf of the state take it from which up to the state no active state handles the event. */
  lemma OnDoneTaken<C>(cfg: MachineDecl<C>, sc: StateDecl<C>, p: Option<StateID>, k: nat, st: Conf<C>, l: StateID)
    requires Valid(cfg) && Occurs(cfg.states, None, sc, p) && WellFormed(MachineOf(cfg))
    requires k < |sc.transitions| && sc.transitions[k].event == "done.state." + sc.id && sc.transitions[k].guard == None
    requires forall j :: 0 <= j < k ==> sc.transitions[j].event != "done.state." + sc.id
    requires SilentUpTo(cfg, sc.id, l, st.ctx, Event("done.state." + sc.id, []))
    requires st.internal != [] && st.internal[0] == Event("done.state." + sc.id, [])
    requires l in st.leaves && MachineOf(cfg).chart.Anc(sc.id, l)
    ensures Pending(l, sc.transitions[k].target, sc.transitions[k].actions) in MovePending(MachineOf(cfg), st, PopInternal)
  {
    var m, ev := MachineOf(cfg), Event("done.state." + sc.id, []);
    FirstOffer(cfg, sc, p, st.ctx, ev, k);
    forall x, i | m.chart.Below(sc.id, x) && x in m.rules && 0 <= i < |m.rules[x].afters|
      ensures ev.typ != "statecraft.after." + m.rules[x].afters[i].timerID
    {
      DoneIsNoTimer(sc.id, m.rules[x].afters[i].timerID);
    }
    assert m.chart.NodeOK(sc.id) && m.chart.NodeOK(ROOT);
    CompiledAs(cfg, sc, p);
    var t := sc.transitions[k];
    TakenBelow(cfg, sc.id, st.leaves, l, st.ctx, ev, Transition(t.target, t.guard, t.actions));
  }

  // ---------------------------------------------------------------- timers

  lemma CompiledOwnTimers<C>(cfg: MachineDecl<C>)
    requires Valid(cfg)
    ensures OwnTimers(MachineOf(cfg))
  {
    var m := MachineOf(cfg);
    forall s, t, i, j, id | HasTimer(m, s, i, id) && HasTimer(m, t, j, id) ensures s == t && i == j {
      TimerIs(cfg, s, i);
      TimerIs(cfg, t, j);
      TimerNameInjective(s, i, t, j);
    }
  }

  lemma TimerIs<C>(cfg: MachineDecl<C>, s: StateID, i: nat)
    requires Valid(cfg) && s in MachineOf(cfg).rules && i < |MachineOf(cfg).rules[s].afters|
    ensures MachineOf(cfg).rules[s].afters[i].timerID == TimerName(s, i)
  {
    CompiledWellFormed(cfg);
    var sc, p := NothingElseCompiled(cfg, s);
    CompiledAs(cfg, sc, p);
    AftersNamed(s, sc.afters);
  }

  /** A timer's event makes an active leaf of its state take the delayed transition, if that is the
      first enabled one: its guard lets it through, the state has no enabled regular transition for
      the event, and no active state between handles it. */
  lemma TimerTaken<C>(cfg: MachineDecl<C>, sc: StateDecl<C>, p: Option<StateID>, i: nat, st: Conf<C>, l: StateID)
    requires Valid(cfg) && Occurs(cfg.states, None, sc, p) && WellFormed(MachineOf(cfg))
    requires sc.id in MachineOf(cfg).rules && i < |MachineOf(cfg).rules[sc.id].afters| == |sc.afters|
    requires var ev := Event("statecraft.after." + MachineOf(cfg).rules[sc.id].afters[i].timerID, []);
      && (sc.afters[i].guard == None || sc.afters[i].guard.value(st.ctx, ev))
      && (forall j :: 0 <= j < |sc.transitions| ==> !Offers(sc.transitions[j], st.ctx, ev))
      && SilentUpTo(cfg, sc.id, l, st.ctx, ev)
    requires l in st.leaves && MachineOf(cfg).chart.Anc(sc.id, l)
    ensures var ev := Event("statecraft.after." + MachineOf(cfg).rules[sc.id].afters[i].timerID, []);
      Pending(l, sc.afters[i].target, sc.afters[i].actions) in MovePending(MachineOf(cfg), st, Move.Step(ev))
  {
    var m := MachineOf(cfg);
    var id := m.rules[sc.id].afters[i].timerID;
    var ev := Event("statecraft.after." + id, []);
    CompiledOwnTimers(cfg);
    DeclaredIsCompiled(cfg, sc, p);
    assert IsAfter(sc, i, m.rules[sc.id].afters[i]);
    TypesDiffer(m, sc.id, i);
    FirstAfterOffer(cfg, sc, p, st.ctx, ev, i);
    assert m.chart.NodeOK(sc.id) && m.chart.NodeOK(ROOT);
    var t := m.rules[sc.id].afters[i].transition;
    TakenBelow(cfg, sc.id, st.leaves, l, st.ctx, ev, t);
  }

  lemma TypesDiffer<C>(m: Machine<C>, s: StateID, i: nat)
    requires OwnTimers(m) && m.chart.Linked() && s in m.rules && i < |m.rules[s].afters|
    ensures var typ := "statecraft.after." + m.rules[s].afters[i].timerID;
      forall t, j :: t in m.rules && 0 <= j < |m.rules[t].afters| && (t != s || j != i) ==>
        typ != "statecraft.after." + m.rules[t].afters[j].timerID
    ensures NoTimerBelow(m, s, Event("statecraft.after." + m.rules[s].afters[i].timerID, []))
  {
    forall t, j | t in m.rules && 0 <= j < |m.rules[t].afters| && (t != s || j != i)
      ensures "statecraft.after." + m.rules[s].afters[i].timerID != "statecraft.after." + m.rules[t].afters[j].timerID
    {
      assert HasTimer(m, s, i, m.rules[s].afters[i].timerID) && HasTimer(m, t, j, m.rules[t].afters[j].timerID);
      if AfterEventType(m.rules[s].afters[i].timerID) == AfterEventType(m.rules[t].afters[j].timerID) {
        AfterEventTypeInjective(m.rules[s].afters[i].timerID, m.rules[t].afters[j].timerID);
      }
      assert AfterEventType(m.rules[s].afters[i].timerID) == "statecraft.after." + m.rules[s].afters[i].timerID;
      assert AfterEventType(m.rules[t].afters[j].timerID) == "statecraft.after." + m.rules[t].afters[j].timerID;
    }
    forall x | m.chart.Below(s, x) ensures x != s {
      BelowRank(m.chart, s, x);
    }
  }
}
