/** Machine declarations, which of them are valid, and the machine a declaration denotes. */
module Declarations {
  import opened Seqs
  import opened Charts
  import opened Machines
  import opened TimerNames

  datatype TransDecl<!C> = TransDecl(event: string, target: StateID, guard: Option<Guard<C>>,
                                     actions: seq<Action<C>>)

  datatype AfterDecl<!C> = AfterDecl(delay: int, target: StateID, guard: Option<Guard<C>>,
                                     actions: seq<Action<C>>)

  datatype StateDecl<!C> = StateDecl(id: StateID, final: bool, parallel: bool, initialChild: StateID,
                                     children: seq<StateDecl<C>>, transitions: seq<TransDecl<C>>,
                                     afters: seq<AfterDecl<C>>, always: seq<TransDecl<C>>,
                                     onEntry: seq<Action<C>>, onExit: seq<Action<C>>, invokes: nat)

  datatype MachineDecl<!C> = MachineDecl(id: string, initial: StateID, context: C,
                                         states: seq<StateDecl<C>>)

  datatype Error = ErrInvalidMachine | ErrNoInitialState | ErrDuplicateState | ErrUnknownState
    | ErrUnknownTarget

  // ---------------------------------------------------------------- valid declarations

  /** All state IDs of a forest, in preorder. */
  function Ids<C>(states: seq<StateDecl<C>>): seq<StateID> {
    if states == [] then []
    else Ids(states[..|states| - 1]) + TreeIds(states[|states| - 1])
  }

  function TreeIds<C>(sc: StateDecl<C>): seq<StateID> {
    [sc.id] + Ids(sc.children)
  }

  function RootIds<C>(states: seq<StateDecl<C>>): seq<StateID> {
    if states == [] then [] else RootIds(states[..|states| - 1]) + [states[|states| - 1].id]
  }

  ghost predicate TargetValid(target: StateID, known: set<StateID>) {
    target != "" && target in known
  }

  ghost predicate NodeValid<C>(sc: StateDecl<C>, known: set<StateID>) {
    && (forall i :: 0 <= i < |sc.transitions| ==> TargetValid(sc.transitions[i].target, known))
    && (forall i :: 0 <= i < |sc.afters| ==>
          sc.afters[i].delay > 0 && TargetValid(sc.afters[i].target, known))
    && (forall i :: 0 <= i < |sc.always| ==>
          && TargetValid(sc.always[i].target, known)
          && (sc.always[i].target == sc.id ==> sc.always[i].guard.Some?))
  }

  /** A parallel state with children has at least two and names no initial child; another
      state's named initial child is one of its children. */
  ghost predicate ShapeValid<C>(sc: StateDecl<C>) {
    sc.children != [] ==>
      if sc.parallel then |sc.children| >= 2 && sc.initialChild == ""
      else sc.initialChild == "" || sc.initialChild in RootIds(sc.children)
  }

  ghost predicate TreeValid<C>(sc: StateDecl<C>, known: set<StateID>) {
    NodeValid(sc, known) && ShapeValid(sc) && ForestValid(sc.children, known)
  }

  ghost predicate ForestValid<C>(states: seq<StateDecl<C>>, known: set<StateID>) {
    states != [] ==>
      && ForestValid(states[..|states| - 1], known)
      && TreeValid(states[|states| - 1], known)
  }

  ghost function Declared<C>(cfg: MachineDecl<C>): set<StateID> {
    set id | id in Ids(cfg.states)
  }

  ghost predicate Valid<C>(cfg: MachineDecl<C>) {
    && cfg.id != "" && cfg.states != [] && cfg.initial != ""
    && Distinct(Ids(cfg.states)) && "" !in Ids(cfg.states)
    && cfg.initial in Ids(cfg.states)
    && ForestValid(cfg.states, Declared(cfg))
  }

  // ---------------------------------------------------------------- what a declaration denotes

  function InitialOf<C>(sc: StateDecl<C>): StateID {
    if sc.children == [] || sc.parallel then ""
    else if sc.initialChild != "" then sc.initialChild
    else sc.children[0].id
  }

  function NodeOf<C>(sc: StateDecl<C>, parent: Option<StateID>): Node {
    Node(parent, RootIds(sc.children), InitialOf(sc), sc.parallel, sc.final)
  }

  function TreeNodes<C>(sc: StateDecl<C>, parent: Option<StateID>): map<StateID, Node> {
    map[sc.id := NodeOf(sc, parent)] + Nodes(sc.children, Some(sc.id))
  }

  function Nodes<C>(states: seq<StateDecl<C>>, parent: Option<StateID>): map<StateID, Node> {
    if states == [] then map[]
    else Nodes(states[..|states| - 1], parent) + TreeNodes(states[|states| - 1], parent)
  }

  function TransitionOf<C>(t: TransDecl<C>): Transition<C> {
    Transition(t.target, t.guard, t.actions)
  }

  function AfterTransition<C>(a: AfterDecl<C>): Transition<C> {
    Transition(a.target, a.guard, a.actions)
  }

  /** Put one more transition at the end of its event's bucket. */
  function AddTo<C>(buckets: map<string, seq<Transition<C>>>, typ: string, t: Transition<C>)
    : map<string, seq<Transition<C>>>
  {
    buckets[typ := BucketOf(buckets, typ) + [t]]
  }

  function RegularBuckets<C>(ts: seq<TransDecl<C>>): map<string, seq<Transition<C>>> {
    if ts == [] then map[]
    else AddTo(RegularBuckets(ts[..|ts| - 1]), ts[|ts| - 1].event, TransitionOf(ts[|ts| - 1]))
  }

  /** Delayed transitions follow the regular ones, under their timers' event types. */
  function AfterBuckets<C>(base: map<string, seq<Transition<C>>>, id: StateID, afters: seq<AfterDecl<C>>)
    : map<string, seq<Transition<C>>>
  {
    if afters == [] then base
    else
      var n := |afters| - 1;
      AddTo(AfterBuckets(base, id, afters[..n]), AfterEventType(TimerName(id, n)), AfterTransition(afters[n]))
  }

  function AfterOf<C>(id: StateID, i: nat, a: AfterDecl<C>): After<C> {
    After(a.delay, TimerName(id, i), AfterTransition(a))
  }

  function Afters<C>(id: StateID, afters: seq<AfterDecl<C>>): seq<After<C>> {
    if afters == [] then []
    else Afters(id, afters[..|afters| - 1]) + [AfterOf(id, |afters| - 1, afters[|afters| - 1])]
  }

  function Alwayses<C>(ts: seq<TransDecl<C>>): seq<Transition<C>> {
    if ts == [] then [] else Alwayses(ts[..|ts| - 1]) + [TransitionOf(ts[|ts| - 1])]
  }

  function RulesOf<C>(sc: StateDecl<C>): Rules<C> {
    Rules(AfterBuckets(RegularBuckets(sc.transitions), sc.id, sc.afters), Afters(sc.id, sc.afters),
          Alwayses(sc.always), sc.onEntry, sc.onExit, sc.invokes)
  }

  function TreeRules<C>(sc: StateDecl<C>): map<StateID, Rules<C>> {
    map[sc.id := RulesOf(sc)] + ForestRules(sc.children)
  }

  function ForestRules<C>(states: seq<StateDecl<C>>): map<StateID, Rules<C>> {
    if states == [] then map[]
    else ForestRules(states[..|states| - 1]) + TreeRules(states[|states| - 1])
  }

  function MachineOf<C>(cfg: MachineDecl<C>): Machine<C> {
    Machine(cfg.id, cfg.initial, cfg.context, Chart(Nodes(cfg.states, None), Ids(cfg.states)),
            ForestRules(cfg.states))
  }
}
