/** The compiler: the shared maps it fills while it walks the declaration tree, and the checks
    it makes on the way. It accepts exactly the valid declarations. */
module Compiling {
  import opened Seqs
  import opened Charts
  import opened Machines
  import opened TimerNames
  import opened Declarations

  datatype CompileResult<!C> = Compiled(machine: Machine<C>) | Failed(error: Error)

  /** The three collections the compiler fills. */
  datatype Output<!C> = Output(nodes: map<StateID, Node>, rules: map<StateID, Rules<C>>, order: seq<StateID>)

  /** With `sc` and its descendants added. */
  function Plus<C>(base: Output<C>, sc: StateDecl<C>, parent: Option<StateID>): Output<C> {
    Output(base.nodes + TreeNodes(sc, parent), base.rules + TreeRules(sc), base.order + TreeIds(sc))
  }

  class Compiler<C> {
    var known: set<StateID>
    var nodes: map<StateID, Node>
    var rules: map<StateID, Rules<C>>
    var order: seq<StateID>

    constructor ()
      ensures known == {} && nodes == map[] && rules == map[] && order == []
    {
      known, nodes, rules, order := {}, map[], map[], [];
    }

    /** Collects all IDs; fails exactly on an empty or repeated one. */
    method CollectStateIDs(states: seq<StateDecl<C>>) returns (err: Option<Error>)
      modifies this`known
      ensures err.None? <==> Fresh(Ids(states), old(known))
      ensures err.None? ==> known == old(known) + set id | id in Ids(states)
      ensures err.Some? ==> err.value in {ErrInvalidMachine, ErrDuplicateState}
      decreases states, 0
    {
      for i := 0 to |states|
        invariant Fresh(Ids(states[..i]), old(known))
        invariant known == old(known) + set id | id in Ids(states[..i])
      {
        assert states[..i + 1][..i] == states[..i];
        IdsPrefix(states, i + 1);
        BadPrefix(Ids(states), Ids(states[..i + 1]), old(known));
        err := CollectTree(states[i], Ids(states[..i]), old(known));
        if err.Some? {
          return;
        }
      }
      assert states[..|states|] == states;
      return None;
    }

    /** One state and its descendants, when the IDs in `before` have been collected. */
    method CollectTree(sc: StateDecl<C>, ghost before: seq<StateID>, ghost start: set<StateID>)
      returns (err: Option<Error>)
      requires Fresh(before, start) && known == start + set id | id in before
      modifies this`known
      ensures err.None? <==> Fresh(before + TreeIds(sc), start)
      ensures err.None? ==> known == start + set id | id in before + TreeIds(sc)
      ensures err.Some? ==> err.value in {ErrInvalidMachine, ErrDuplicateState}
      decreases sc, 1
    {
      if sc.id == "" || sc.id in known {
        BadRoot(before, sc.id, Ids(sc.children), start);
        return Some(if sc.id == "" then ErrInvalidMachine else ErrDuplicateState);
      }
      known := known + {sc.id};
      GoodAppend(before, sc.id, Ids(sc.children), start);
      err := CollectStateIDs(sc.children);
    }

    method AppendToBucket(buckets: map<string, seq<Transition<C>>>, typ: string, t: Transition<C>)
      returns (r: map<string, seq<Transition<C>>>)
      ensures r == AddTo(buckets, typ, t)
    {
      if typ in buckets {
        r := buckets[typ := buckets[typ] + [t]];
      } else {
        assert [] + [t] == [t];
        r := buckets[typ := [t]];
      }
    }

    method CompileTransitions(ts: seq<TransDecl<C>>)
      returns (err: Option<Error>, buckets: map<string, seq<Transition<C>>>)
      ensures err.None? <==> forall i :: 0 <= i < |ts| ==> TargetValid(ts[i].target, known)
      ensures err.None? ==> buckets == RegularBuckets(ts)
      ensures err.Some? ==> err.value in {ErrInvalidMachine, ErrUnknownTarget}
    {
      buckets := map[];
      for i := 0 to |ts|
        invariant forall j :: 0 <= j < i ==> TargetValid(ts[j].target, known)
        invariant buckets == RegularBuckets(ts[..i])
      {
        assert ts[..i + 1][..i] == ts[..i];
        if ts[i].target == "" {
          return Some(ErrInvalidMachine), buckets;
        }
        if ts[i].target !in known {
          return Some(ErrUnknownTarget), buckets;
        }
        buckets := AppendToBucket(buckets, ts[i].event, Transition(ts[i].target, ts[i].guard, ts[i].actions));
      }
      assert ts[..|ts|] == ts;
      return None, buckets;
    }

    /** The checks on one delayed transition. */
    method CheckAfter(a: AfterDecl<C>) returns (err: Option<Error>)
      ensures err.None? <==> a.delay > 0 && TargetValid(a.target, known)
      ensures err.Some? ==> err.value in {ErrInvalidMachine, ErrUnknownTarget}
    {
      if a.delay <= 0 || a.target == "" {
        return Some(ErrInvalidMachine);
      }
      if a.target !in known {
        return Some(ErrUnknownTarget);
      }
      return None;
    }

    method CompileAfters(id: StateID, base: map<string, seq<Transition<C>>>, afters: seq<AfterDecl<C>>)
      returns (err: Option<Error>, buckets: map<string, seq<Transition<C>>>, confs: seq<After<C>>)
      ensures err.None? <==> forall i :: 0 <= i < |afters| ==>
        afters[i].delay > 0 && TargetValid(afters[i].target, known)
      ensures err.None? ==> buckets == AfterBuckets(base, id, afters) && confs == Afters(id, afters)
      ensures err.Some? ==> err.value in {ErrInvalidMachine, ErrUnknownTarget}
    {
      buckets, confs := base, [];
      for i := 0 to |afters|
        invariant forall j :: 0 <= j < i ==> afters[j].delay > 0 && TargetValid(afters[j].target, known)
        invariant buckets == AfterBuckets(base, id, afters[..i]) && confs == Afters(id, afters[..i])
      {
        var a := afters[i];
        err := CheckAfter(a);
        if err.Some? {
          return;
        }
        buckets, confs := AddAfter(id, base, afters, i, buckets, confs);
      }
      assert afters[..|afters|] == afters;
      return None, buckets, confs;
    }

    /** The timer and the transition of one more delayed transition. */
    method AddAfter(id: StateID, ghost base: map<string, seq<Transition<C>>>, afters: seq<AfterDecl<C>>, i: nat,
                    buckets: map<string, seq<Transition<C>>>, confs: seq<After<C>>)
      returns (buckets': map<string, seq<Transition<C>>>, confs': seq<After<C>>)
      requires i < |afters| && buckets == AfterBuckets(base, id, afters[..i]) && confs == Afters(id, afters[..i])
      ensures buckets' == AfterBuckets(base, id, afters[..i + 1]) && confs' == Afters(id, afters[..i + 1])
    {
      var a := afters[i];
      var timerID := TimerName(id, i);
      var ct := Transition(a.target, a.guard, a.actions);
      AftersSnoc(base, id, afters, i);
      confs' := confs + [After(a.delay, timerID, ct)];
      buckets' := AppendToBucket(buckets, AfterEventType(timerID), ct);
    }

    method CompileAlways(id: StateID, ts: seq<TransDecl<C>>)
      returns (err: Option<Error>, always: seq<Transition<C>>)
      ensures err.None? <==> forall i :: 0 <= i < |ts| ==>
        TargetValid(ts[i].target, known) && (ts[i].target == id ==> ts[i].guard.Some?)
      ensures err.None? ==> always == Alwayses(ts)
      ensures err.Some? ==> err.value in {ErrInvalidMachine, ErrUnknownTarget}
    {
      always := [];
      for i := 0 to |ts|
        invariant forall j :: 0 <= j < i ==>
          TargetValid(ts[j].target, known) && (ts[j].target == id ==> ts[j].guard.Some?)
        invariant always == Alwayses(ts[..i])
      {
        assert ts[..i + 1][..i] == ts[..i];
        if ts[i].target == "" {
          return Some(ErrInvalidMachine), always;
        }
        if ts[i].target !in known {
          return Some(ErrUnknownTarget), always;
        }
        if ts[i].target == id && ts[i].guard.None? {
          return Some(ErrInvalidMachine), always;
        }
        always := always + [Transition(ts[i].target, ts[i].guard, ts[i].actions)];
      }
      assert ts[..|ts|] == ts;
      return None, always;
    }

    /** One state without its children. */
    method CompileNode(sc: StateDecl<C>, parent: Option<StateID>)
      returns (err: Option<Error>, node: Node, r: Rules<C>)
      ensures err.None? <==> NodeValid(sc, known)
      ensures err.None? ==>
        node == Node(parent, [], "", sc.parallel, sc.final) && r == RulesOf(sc)
      ensures err.Some? ==> err.value in {ErrInvalidMachine, ErrUnknownTarget}
    {
      node := Node(parent, [], "", sc.parallel, sc.final);
      r := Rules(map[], [], [], sc.onEntry, sc.onExit, sc.invokes);
      var regular, buckets, confs, always;
      err, regular := CompileTransitions(sc.transitions);
      if err.Some? {
        return;
      }
      err, buckets, confs := CompileAfters(sc.id, regular, sc.afters);
      if err.Some? {
        return;
      }
      err, always := CompileAlways(sc.id, sc.always);
      r := Rules(buckets, confs, always, sc.onEntry, sc.onExit, sc.invokes);
    }

    /** A state and its descendants: into the maps, in preorder, and linked to their parents. */
    method CompileTree(sc: StateDecl<C>, parent: Option<StateID>) returns (err: Option<Error>)
      requires Fresh(TreeIds(sc), nodes.Keys)
      modifies this`nodes, this`rules, this`order
      ensures err.None? <==> TreeValid(sc, known)
      ensures err.Some? ==> err.value in {ErrInvalidMachine, ErrUnknownTarget}
      ensures err.None? ==> Written() == Plus(old(Written()), sc, parent)
      decreases sc, |sc.children| + 1
    {
      var node, r;
      err, node, r := CompileNode(sc, parent);
      if err.Some? {
        return;
      }
      nodes := nodes[sc.id := node];
      rules := rules[sc.id := r];
      order := order + [sc.id];
      Begun(sc, parent, old(Written()));
      for i := 0 to |sc.children|
        invariant ForestValid(sc.children[..i], known)
        invariant Written() == Linked(old(Written()), sc, parent, i)
      {
        err := CompileChild(sc, parent, i, old(Written()));
        if err.Some? {
          return;
        }
      }
      assert sc.children[..|sc.children|] == sc.children;
      TreeAssembled(sc, parent, old(Written()));
      err := SetInitial(sc);
    }

    ghost function Written(): Output<C>
      reads this`nodes, this`rules, this`order
    {
      Output(nodes, rules, order)
    }

    /** One child with its descendants, then the link from its parent. */
    method CompileChild(sc: StateDecl<C>, parent: Option<StateID>, i: nat, ghost base: Output<C>)
      returns (err: Option<Error>)
      requires i < |sc.children| && Fresh(TreeIds(sc), base.nodes.Keys)
      requires ForestValid(sc.children[..i], known)
      requires Written() == Linked(base, sc, parent, i)
      modifies this`nodes, this`rules, this`order
      ensures err.None? ==> ForestValid(sc.children[..i + 1], known)
      ensures err.Some? ==> !ForestValid(sc.children, known)
      ensures err.Some? ==> err.value in {ErrInvalidMachine, ErrUnknownTarget}
      ensures err.None? ==> Written() == Linked(base, sc, parent, i + 1)
      decreases sc, i
    {
      var child := sc.children[i];
      LinkedFresh(base, sc, parent, i);
      ValidSnoc(sc.children, i, known);
      ForestValidPrefix(sc.children, i + 1, known);
      err := CompileTree(child, Some(sc.id));
      if err.Some? {
        return;
      }
      LinkChild(base, sc, parent, i);
      Link(sc.id, child.id);
    }

    method Link(id: StateID, child: StateID)
      requires id in nodes
      modifies this`nodes
      ensures Written() == WithChild(old(Written()), id, child)
    {
      nodes := nodes[id := nodes[id].(children := nodes[id].children + [child])];
    }

    /** The checks on children, once they are linked. */
    method SetInitial(sc: StateDecl<C>) returns (err: Option<Error>)
      requires sc.id in nodes && nodes[sc.id].children == RootIds(sc.children)
      requires nodes[sc.id].initial == ""
      modifies this`nodes
      ensures err.None? <==> ShapeValid(sc)
      ensures err.Some? ==> err.value == ErrInvalidMachine
      ensures err.None? ==>
        nodes == old(nodes)[sc.id := old(nodes)[sc.id].(initial := InitialOf(sc))]
    {
      var kids := nodes[sc.id].children;
      RootIdsAt(sc.children);
      if |kids| > 0 {
        if sc.parallel {
          if |kids| < 2 || sc.initialChild != "" {
            return Some(ErrInvalidMachine);
          }
        } else if sc.initialChild != "" {
          var found := false;
          for i := 0 to |kids|
            invariant !found && forall j :: 0 <= j < i ==> kids[j] != sc.initialChild
          {
            if kids[i] == sc.initialChild {
              found := true;
              break;
            }
          }
          if !found {
            return Some(ErrInvalidMachine);
          }
          nodes := nodes[sc.id := nodes[sc.id].(initial := sc.initialChild)];
        } else {
          nodes := nodes[sc.id := nodes[sc.id].(initial := kids[0])];
        }
      }
      return None;
    }

    /** The whole machine, or the first error. */
    method Compile(cfg: MachineDecl<C>) returns (r: CompileResult<C>)
      requires known == {} && nodes == map[] && rules == map[] && order == []
      modifies this
      ensures r.Compiled? <==> Valid(cfg)
      ensures r.Compiled? ==> r.machine == MachineOf(cfg)
      ensures r == Failed(ErrNoInitialState) <==> cfg.id != "" && cfg.states != [] && cfg.initial == ""
      ensures r == Failed(ErrUnknownState) <==>
        && cfg.id != "" && cfg.states != [] && cfg.initial != ""
        && Distinct(Ids(cfg.states)) && "" !in Ids(cfg.states) && cfg.initial !in Ids(cfg.states)
    {
      if cfg.id == "" || |cfg.states| == 0 {
        return Failed(ErrInvalidMachine);
      }
      if cfg.initial == "" {
        return Failed(ErrNoInitialState);
      }
      var err := CollectStateIDs(cfg.states);
      if err.Some? {
        return Failed(err.value);
      }
      assert known == Declared(cfg);
      if cfg.initial !in known {
        return Failed(ErrUnknownState);
      }
      err := CompileForest(cfg.states);
      if err.Some? {
        return Failed(err.value);
      }
      return Compiled(Machine(cfg.id, cfg.initial, cfg.context, Chart(nodes, order), rules));
    }

    /** Each top-level state in turn. */
    method CompileForest(states: seq<StateDecl<C>>) returns (err: Option<Error>)
      requires nodes == map[] && rules == map[] && order == [] && Fresh(Ids(states), {})
      modifies this`nodes, this`rules, this`order
      ensures err.None? <==> ForestValid(states, known)
      ensures err.None? ==> Written() == ForestOutput(states)
      ensures err.Some? ==> err.value in {ErrInvalidMachine, ErrUnknownTarget}
    {
      for i := 0 to |states|
        invariant ForestValid(states[..i], known)
        invariant Written() == ForestOutput(states[..i])
      {
        ForestOutputSnoc(states, i);
        ValidSnoc(states, i, known);
        ForestValidPrefix(states, i + 1, known);
        err := CompileTree(states[i], None);
        if err.Some? {
          return;
        }
      }
      assert states[..|states|] == states;
      return None;
    }
  }

  function ForestOutput<C>(states: seq<StateDecl<C>>): Output<C> {
    Output(Nodes(states, None), ForestRules(states), Ids(states))
  }

  lemma ForestOutputSnoc<C>(states: seq<StateDecl<C>>, i: nat)
    requires i < |states| && Fresh(Ids(states), {})
    ensures ForestOutput(states[..i + 1]) == Plus(ForestOutput(states[..i]), states[i], None)
    ensures Fresh(TreeIds(states[i]), ForestOutput(states[..i]).nodes.Keys)
  {
    assert states[..i + 1][..i] == states[..i];
    RootFresh(states, i, {});
    NodesKeys(states[..i], None);
    assert {} + (set id | id in Ids(states[..i])) == ForestOutput(states[..i]).nodes.Keys;
  }

  lemma AftersSnoc<C>(base: map<string, seq<Transition<C>>>, id: StateID, afters: seq<AfterDecl<C>>, i: nat)
    requires i < |afters|
    ensures Afters(id, afters[..i + 1]) == Afters(id, afters[..i]) + [AfterOf(id, i, afters[i])]
    ensures AfterBuckets(base, id, afters[..i + 1]) ==
      AddTo(AfterBuckets(base, id, afters[..i]), AfterEventType(TimerName(id, i)), AfterTransition(afters[i]))
  {
    assert afters[..i + 1][..i] == afters[..i];
  }

  lemma {:induction false} RootIdsAt<C>(states: seq<StateDecl<C>>)
    ensures |RootIds(states)| == |states|
    ensures forall i :: 0 <= i < |states| ==> RootIds(states)[i] == states[i].id
  {
    if states != [] {
      RootIdsAt(states[..|states| - 1]);
    }
  }

  lemma {:induction false} ForestValidPrefix<C>(states: seq<StateDecl<C>>, n: nat, known: set<StateID>)
    requires n <= |states|
    ensures ForestValid(states, known) ==> ForestValid(states[..n], known)
    decreases |states| - n
  {
    if n == |states| {
      assert states[..n] == states;
    } else {
      ForestValidPrefix(states, n + 1, known);
      assert states[..n + 1][..n] == states[..n];
    }
  }

  lemma ValidSnoc<C>(states: seq<StateDecl<C>>, i: nat, known: set<StateID>)
    requires i < |states|
    ensures ForestValid(states[..i + 1], known) <==>
      ForestValid(states[..i], known) && TreeValid(states[i], known)
  {
    assert states[..i + 1][..i] == states[..i];
  }

  lemma {:induction false} TreeNodesKeys<C>(sc: StateDecl<C>, parent: Option<StateID>)
    ensures TreeNodes(sc, parent).Keys == set id | id in TreeIds(sc)
    ensures TreeRules(sc).Keys == set id | id in TreeIds(sc)
    decreases sc, 1
  {
    NodesKeys(sc.children, Some(sc.id));
  }

  lemma {:induction false} NodesKeys<C>(states: seq<StateDecl<C>>, parent: Option<StateID>)
    ensures Nodes(states, parent).Keys == set id | id in Ids(states)
    ensures ForestRules(states).Keys == set id | id in Ids(states)
    decreases states, 0
  {
    if states != [] {
      NodesKeys(states[..|states| - 1], parent);
      TreeNodesKeys(states[|states| - 1], parent);
    }
  }

  /** Compiling a root meets no ID twice. */
  lemma RootFresh<C>(states: seq<StateDecl<C>>, i: nat, keys: set<StateID>)
    requires i < |states| && Fresh(Ids(states), keys)
    ensures Fresh(TreeIds(states[i]), keys + set id | id in Ids(states[..i]))
  {
    IdsPrefix(states, i + 1);
    assert states[..i + 1][..i] == states[..i];
    FreshTail(Ids(states[..i]), TreeIds(states[i]), keys);
    BadPrefix(Ids(states), Ids(states[..i + 1]), keys);
  }

  lemma FreshTail(a: seq<StateID>, b: seq<StateID>, keys: set<StateID>)
    ensures Fresh(a + b, keys) ==> Fresh(b, keys + set id | id in a)
  {
    var all := a + b;
    assert forall i :: 0 <= i < |a| ==> all[i] == a[i];
    assert forall i :: 0 <= i < |b| ==> all[|a| + i] == b[i] && all[|a| + i] in all;
  }

  lemma ChildFresh<C>(sc: StateDecl<C>, i: nat, keys: set<StateID>)
    requires i < |sc.children| && Fresh(TreeIds(sc), keys)
    ensures Fresh(TreeIds(sc.children[i]), keys + {sc.id} + set id | id in Ids(sc.children[..i]))
    ensures sc.id !in Ids(sc.children[..i])
  {
    FreshTail([sc.id], Ids(sc.children), keys);
    assert (set id | id in [sc.id]) == {sc.id};
    RootFresh(sc.children, i, keys + {sc.id});
    IdsPrefix(sc.children, i);
    assert forall k :: 0 <= k < |Ids(sc.children[..i])| ==>
      Ids(sc.children[..i])[k] == Ids(sc.children)[k] && Ids(sc.children)[k] in Ids(sc.children);
  }

  /** What is there once `sc` is in and its first `i` children are compiled and linked. */
  function Linked<C>(base: Output<C>, sc: StateDecl<C>, parent: Option<StateID>, i: nat): Output<C>
    requires i <= |sc.children|
  {
    var done := sc.children[..i];
    Output(base.nodes + map[sc.id := Node(parent, RootIds(done), "", sc.parallel, sc.final)]
             + Nodes(done, Some(sc.id)),
           base.rules[sc.id := RulesOf(sc)] + ForestRules(done),
           base.order + [sc.id] + Ids(done))
  }

  lemma Begun<C>(sc: StateDecl<C>, parent: Option<StateID>, base: Output<C>)
    ensures Linked(base, sc, parent, 0) ==
      Output(base.nodes[sc.id := Node(parent, [], "", sc.parallel, sc.final)],
             base.rules[sc.id := RulesOf(sc)], base.order + [sc.id])
  {
  }

  lemma LinkMaps<K, V>(base: map<K, V>, n: map<K, V>, t: map<K, V>, k: K, v: V, w: V)
    requires k !in n && k !in t
    ensures (base + map[k := v] + n + t)[k := w] == base + map[k := w] + (n + t)
    ensures (base + map[k := v] + n + t)[k] == v
  {
  }

  lemma MapAssoc<K, V>(a: map<K, V>, b: map<K, V>, c: map<K, V>)
    ensures (a + b) + c == a + (b + c)
  {
  }

  lemma PutFirst<K, V>(a: map<K, V>, k: K, v: V, b: map<K, V>)
    ensures a[k := v] + b == a + (map[k := v] + b)
  {
  }

  lemma InitialMaps<K, V>(base: map<K, V>, n: map<K, V>, k: K, v: V, w: V)
    requires k !in n
    ensures (base + map[k := v] + n)[k := w] == base + (map[k := w] + n)
    ensures (base + map[k := v] + n)[k] == v
  {
  }

  /** A child finds none of its IDs taken. */
  lemma LinkedFresh<C>(base: Output<C>, sc: StateDecl<C>, parent: Option<StateID>, i: nat)
    requires i < |sc.children| && Fresh(TreeIds(sc), base.nodes.Keys)
    ensures Fresh(TreeIds(sc.children[i]), Linked(base, sc, parent, i).nodes.Keys)
  {
    ChildFresh(sc, i, base.nodes.Keys);
    LinkedKeys(base, sc, parent, i);
  }

  lemma LinkedKeys<C>(base: Output<C>, sc: StateDecl<C>, parent: Option<StateID>, i: nat)
    requires i < |sc.children|
    ensures Linked(base, sc, parent, i).nodes.Keys ==
      base.nodes.Keys + {sc.id} + set id | id in Ids(sc.children[..i])
  {
    NodesKeys(sc.children[..i], Some(sc.id));
  }

  function WithChild<C>(o: Output<C>, id: StateID, child: StateID): Output<C>
    requires id in o.nodes
  {
    o.(nodes := o.nodes[id := o.nodes[id].(children := o.nodes[id].children + [child])])
  }

  /** The IDs of a child are new, and its parent's is not among those of the children. */
  lemma ChildApart<C>(sc: StateDecl<C>, i: nat, known: set<StateID>)
    requires i < |sc.children| && Fresh(TreeIds(sc), known)
    ensures sc.id !in Nodes(sc.children[..i], Some(sc.id)) && sc.id !in TreeNodes(sc.children[i], Some(sc.id))
  {
    ChildFresh(sc, i, known);
    NodesKeys(sc.children[..i], Some(sc.id));
    TreeNodesKeys(sc.children[i], Some(sc.id));
  }

  /** Linking one more compiled child. */
  lemma LinkChild<C>(base: Output<C>, sc: StateDecl<C>, parent: Option<StateID>, i: nat)
    requires i < |sc.children| && Fresh(TreeIds(sc), base.nodes.Keys)
    ensures var o := Plus(Linked(base, sc, parent, i), sc.children[i], Some(sc.id));
      sc.id in o.nodes && WithChild(o, sc.id, sc.children[i].id) == Linked(base, sc, parent, i + 1)
  {
    var done, child := sc.children[..i], sc.children[i];
    var node := Node(parent, RootIds(done), "", sc.parallel, sc.final);
    OneMore(sc.children, i, Some(sc.id));
    ChildApart(sc, i, base.nodes.Keys);
    LinkMaps(base.nodes, Nodes(done, Some(sc.id)), TreeNodes(child, Some(sc.id)), sc.id, node,
             node.(children := RootIds(done) + [child.id]));
    MapAssoc(base.rules[sc.id := RulesOf(sc)], ForestRules(done), TreeRules(child));
    SeqAssoc(base.order + [sc.id], Ids(done), TreeIds(child));
  }

  lemma SeqAssoc<T>(a: seq<T>, b: seq<T>, c: seq<T>)
    ensures (a + b) + c == a + (b + c)
  {
  }

  /** What one more tree adds to a forest. */
  lemma OneMore<C>(f: seq<StateDecl<C>>, i: nat, parent: Option<StateID>)
    requires i < |f|
    ensures Nodes(f[..i + 1], parent) == Nodes(f[..i], parent) + TreeNodes(f[i], parent)
    ensures ForestRules(f[..i + 1]) == ForestRules(f[..i]) + TreeRules(f[i])
    ensures Ids(f[..i + 1]) == Ids(f[..i]) + TreeIds(f[i]) && RootIds(f[..i + 1]) == RootIds(f[..i]) + [f[i].id]
  {
    assert f[..i + 1][..i] == f[..i];
  }

  lemma LinkedAll<C>(sc: StateDecl<C>, parent: Option<StateID>, base: Output<C>)
    ensures Linked(base, sc, parent, |sc.children|) ==
      Output(base.nodes + map[sc.id := Node(parent, RootIds(sc.children), "", sc.parallel, sc.final)]
               + Nodes(sc.children, Some(sc.id)),
             base.rules[sc.id := RulesOf(sc)] + ForestRules(sc.children),
             base.order + [sc.id] + Ids(sc.children))
  {
    assert sc.children[..|sc.children|] == sc.children;
  }

  lemma PlusParts<C>(sc: StateDecl<C>, parent: Option<StateID>, base: Output<C>)
    ensures Plus(base, sc, parent) ==
      Output(base.nodes + (map[sc.id := NodeOf(sc, parent)] + Nodes(sc.children, Some(sc.id))),
             base.rules[sc.id := RulesOf(sc)] + ForestRules(sc.children),
             base.order + [sc.id] + Ids(sc.children))
  {
    PutFirst(base.rules, sc.id, RulesOf(sc), ForestRules(sc.children));
    assert base.order + [sc.id] + Ids(sc.children) == base.order + ([sc.id] + Ids(sc.children));
  }

  /** All children linked: only the initial child is missing. */
  lemma TreeAssembled<C>(sc: StateDecl<C>, parent: Option<StateID>, base: Output<C>)
    requires Fresh(TreeIds(sc), base.nodes.Keys)
    ensures var o := Linked(base, sc, parent, |sc.children|);
      && sc.id in o.nodes
      && o.nodes[sc.id] == Node(parent, RootIds(sc.children), "", sc.parallel, sc.final)
      && o.(nodes := o.nodes[sc.id := o.nodes[sc.id].(initial := InitialOf(sc))]) == Plus(base, sc, parent)
  {
    NoSelf(sc, base.nodes.Keys);
    LinkedAll(sc, parent, base);
    PlusParts(sc, parent, base);
    var node := Node(parent, RootIds(sc.children), "", sc.parallel, sc.final);
    InitialMaps(base.nodes, Nodes(sc.children, Some(sc.id)), sc.id, node, NodeOf(sc, parent));
  }

  lemma NoSelf<C>(sc: StateDecl<C>, keys: set<StateID>)
    requires Fresh(TreeIds(sc), keys)
    ensures sc.id !in Nodes(sc.children, Some(sc.id))
  {
    FreshTail([sc.id], Ids(sc.children), keys);
    NodesKeys(sc.children, Some(sc.id));
    assert sc.id in [sc.id];
  }

  /** No repeats, nothing empty, nothing seen before. */
  ghost predicate Fresh(ids: seq<StateID>, known: set<StateID>) {
    Distinct(ids) && forall id :: id in ids ==> id != "" && id !in known
  }

  lemma {:induction false} IdsPrefix<C>(states: seq<StateDecl<C>>, n: nat)
    requires n <= |states|
    ensures Ids(states[..n]) <= Ids(states)
    decreases |states| - n
  {
    if n == |states| {
      assert states[..n] == states;
    } else {
      IdsPrefix(states, n + 1);
      assert states[..n + 1][..n] == states[..n];
    }
  }

  lemma BadPrefix(all: seq<StateID>, prefix: seq<StateID>, known: set<StateID>)
    requires prefix <= all
    ensures Fresh(all, known) ==> Fresh(prefix, known)
  {
    assert forall i :: 0 <= i < |prefix| ==> prefix[i] == all[i] && all[i] in all;
  }

  lemma BadRoot(before: seq<StateID>, id: StateID, below: seq<StateID>, known: set<StateID>)
    requires id == "" || id in known || id in before
    ensures !Fresh(before + ([id] + below), known)
  {
    var all := before + ([id] + below);
    assert all[|before|] == id;
    assert all[|before|] in all;
    if id in before {
      var i :| 0 <= i < |before| && before[i] == id;
      assert all[i] == id;
    }
  }

  lemma GoodAppend(before: seq<StateID>, id: StateID, below: seq<StateID>, known: set<StateID>)
    requires Fresh(before, known) && id != "" && id !in known && id !in before
    ensures Fresh(before + ([id] + below), known) <==>
      Fresh(below, known + (set x | x in before) + {id})
  {
    var all := before + ([id] + below);
    var k := known + (set x | x in before) + {id};
    var n := |before| + 1;
    assert all == before + [id] + below;
    if Fresh(all, known) {
      forall i | 0 <= i < |below| ensures below[i] != "" && below[i] !in k {
        assert all[n + i] == below[i] && all[n + i] in all && all[|before|] == id;
        assert forall j :: 0 <= j < |before| ==> before[j] == all[j] && all[j] != all[n + i];
      }
      forall i, j | 0 <= i < j < |below| ensures below[i] != below[j] {
        assert all[n + i] == below[i] && all[n + j] == below[j];
      }
    }
    if Fresh(below, k) {
      forall i, j | 0 <= i < j < |all| ensures all[i] != all[j] {
        if j >= n {
          assert all[j] == below[j - n] && below[j - n] in below;
          if i < |before| {
            assert all[i] == before[i] && before[i] in before;
          } else if i >= n {
            assert all[i] == below[i - n];
          }
        } else if j == |before| {
          assert all[i] == before[i] && before[i] in before;
        }
      }
    }
  }
}
