# Statecraft, verified

A model of the statechart library in Dafny: the machine compiler, the interpreter that runs
compiled machines, its event loop and timers, the synchronous test harness, persistence and
supervision. `dafny verify dfyconfig.toml` checks everything.

## How it is built

A machine is a state tree (`Charts.Chart`) plus the transitions, timers and actions of each state
(`Machines.Machine`). Guards are arbitrary functions of context and event, actions arbitrary
functions that return a new context and the events they raise; the context is any type. References
between compiled states are IDs, and the implicit root above the top-level states is the empty ID,
which is what the code passes as the LCCA when there is none.

The interpreter is a function on its state (`Interpreter.Micro` is one microstep, `Runs.Next` one
thing the interpreter can do). A microstep is: exit set, sorted stably by depth; transition
actions; leaf list spliced in place; entry set; raised events; done events; snapshot. A state also
carries a log of entries and exits and the list of published snapshots. The imperative code is
modelled by classes and loop methods in the shape of the source (`Services.Service`,
`Harnesses.Harness`, `Scheduling.Scheduler`, `HarnessTimers.HarnessScheduler`,
`MockClocks.MockClock`, `Compiling.Compiler`, `Supervision.Actor`, the tree walks in `Navigation`
and the microstep loops in `Engine`); each method is proved to compute what those functions say,
and the theorems are about the functions. The service with its channels is a step system
(`RunLoop.SysStep`): one iteration of the loop, or the environment sending an event, firing a
timer or asking for a stop. Theorems about `SysRun` hold for every sequence of such steps.

What these functions compute is in turn stated without them, in terms of the machine's nodes and
rules, of the declaration, and of literal events and numbers: which actions run, on which contexts
(`MicroThreads`), in which order states are left and entered (`ExitOrderExact`, `EntryOrderExact`),
which transition of a declared state an event leads to (`FirstOffer`, `OnDoneTaken`, `TimerTaken`),
what a declaration compiles to (`DeclaredIsCompiled`) and which are valid (`ValidExactly`), what
snapshots report (`MoveReports`), which timers are registered (`RunningIsArmed`), and which active
states, timers and handles go together (`ActiveNode`, `StateEffects`).

| files | what they hold |
|---|---|
| Seqs, Sorting, Charts, Navigation, Paths | lists, sorting, state trees, tree walks and what they mean |
| Configurations, Steps, Hypotheses, Exactness | legal configurations, what one step does to them, when it keeps them legal |
| Machines, Interpreter, Orders, Completion, Duplicates | resolution, microsteps, exit and entry order, done events, repeated leaves |
| Threads, Sequencing, Snapshots | what a microstep does, action by action, state by state, and what it publishes |
| Runs, RunLoop, Scheduler, Engine, Service | whole runs, the event loop, timers, the mutable service |
| Invariants, Priorities | what the invariant says of one state; whose turn it is in the loop, and when it gives up |
| Declarations, Compiler, Forests, Meaning, Placement, Resolution, TimerNames, TimerEvents | declarations, the compiler, what compiled machines satisfy |
| HarnessTimers, MockClocks, Flushing, Harness, Records | the test harness, its timers, its records, the test clock, refinement |
| Persist, Supervision, Overall | checkpoints, the actor's supervision loop, end-to-end results |
| Examples, NestedExample, PairExample, ForkExample | declared machines on which hypotheses fail or just hold |

## Where the code needs hypotheses

A state is AND when it is parallel and has children. "Legal" is the notion of section 3.11 of the
W3C SCXML Recommendation (2015): one active top-level state, one active child of every active OR
state, all children of every active AND state.

The code does not keep configurations legal on every machine. Two conditions say when it does, in
terms of what a caller can check on the enabled transitions, however many leaves fire.

`CleanStep` looks at one transition at a time. `CleanStepShapes` puts it in three shapes: every
transition is region-local (no AND state on its exit path), or part of a joint exit of all leaves
of an AND state, or part of a joint restart, in which all leaves of an AND state go back into it by
way of a target at or above it. `CleanStepExact`: a step is clean if and only if its outcome is
legal and balanced and its transitions are apart, which means that of two transitions with
different targets neither starts in what the other may change. Steps whose transitions share one
target are always apart, so for them, single transitions included, cleanness is exactly what a good
outcome needs (`CommonTargetExact`).

`JointStep` looks at all transitions with one LCCA together: every active leaf that they may change
takes one of them, and the default leaves of their targets complete the LCCA. It covers forks, where
the leaves of one parallel state go to those of another by transitions of their own. Every clean
step is one (`CleanIsJoint`). `JointStepExact`: of the steps in which every active leaf that
transitions may change takes one with their LCCA, exactly the joint steps have a legal and balanced
outcome; `OrderExact`: of these, exactly those whose targets come in the order of their sources
(`InOrder`) keep the leaves in definition order. `CleanMove`, which the results about whole runs
assume of each move, means a joint step in order, and so includes every clean step.

The hypotheses fail on real declarations: `OneRegionLeaves` is a valid declaration and an event
that leave a parallel state from one region and end in an illegal configuration. On `RestartIsClean`
only the restart shape applies; `GoodNotApart` and `ForkIsGood` are steps that are joint but not
clean. Machines without parallel states need no hypothesis
(`SequentialServiceGood`). The initial state is legal exactly when the declared initial state has
no AND ancestor (`InitialLegal`).

The harness claims to do what the runtime does. It applies always transitions of one leaf per step
where the runtime applies those of all leaves in one step, and the two steps agree exactly when at
most one leaf has one (`AlwaysStepsAgree`). The refinement theorem is therefore about event
sequences on which this holds throughout, which covers all machines without parallel states and
all machines without always transitions (`NoParallelRun`, `NoAlwaysRun`). `SettleApart` is a valid
declaration on which the two come to rest in different leaves.

The documentation of `OnDone` says that a state completes when all active leaves within it are
final. The code looks at the first active leaf below an OR state and at one final leaf per region
of an AND state. `DoneMeansComplete` shows that this is the documented condition, whichever states
are final, exactly when no AND state is active strictly inside; a completed state always counts as
done (`CompleteIsDone`). `DoneThoughIncomplete` is a valid declaration whose outer state raises its
done event at the start although an active leaf inside it is not final.

A restored service does not get back the previous leaf, the mailbox, raised events not yet
handled, or the time its timers had run; `RestoredFollows` therefore starts from a state with
nothing queued.

## Model

| member | source | states |
|---|---|---|
| Navigation.Depth | model/machine.go:63-69 | number of proper ancestors that are states |
| Navigation.IsDescendantOf | model/machine.go:207-218 | true exactly for proper ancestors that are states, for any two IDs |
| Navigation.LeafTarget | model/machine.go:165-179 | the default descent, first region of parallel states |
| Navigation.LCCA | model/machine.go:223-236 | the first common proper ancestor on the way up from the second state |
| Navigation.LccaDeepest | model/machine.go:220-236 | LCCA is a proper ancestor of both states and every common proper ancestor is it or above it |
| Navigation.LccaSymmetric | model/machine.go:220-236 | LCCA does not depend on the order of its arguments |
| Navigation.LccaUnique | model/machine.go:220-236 | any common proper ancestor below which no other lies is the LCCA |
| Navigation.ExitPath | model/machine.go:241-252 | the states from the leaf up to, not including, the LCCA |
| Navigation.EntryPath | model/machine.go:258-274 | the same for the target's default leaf, outermost first, reversed in place |
| Navigation.PathUpElements | model/machine.go:238-252 | the exit path holds exactly the states at or above the leaf and strictly below the LCCA |
| Paths.ConfigurationSplits | model/machine.go:241-288 | a configuration is that of the LCCA followed by the reversed exit path, or by the entry path |
| Paths.PathsDisjoint | model/machine.go:238-274 | between atomic states exit and entry path share a state only if the states are equal |
| Navigation.LeafTargetFirst | model/machine.go:161-198 | LeafTargets is never empty and starts with LeafTarget |
| Navigation.LeafTargetsAtomic | model/machine.go:181-198 | default leaves are declared, atomic and at or below the target |
| Navigation.LeafTargetsIncreasing | model/machine.go:181-198 | default leaves are distinct and in definition order |
| Navigation.Configuration | model/machine.go:279-288 | the leaf and its ancestors, outermost first |
| Navigation.ConfigurationOf | model/machine.go:293-310 | the active states in definition order, by the fast path and by the filter alike |
| Navigation.SingleLeafConfiguration | model/machine.go:293-296 | the single-leaf fast path gives what the general filter gives |
| Paths.InitialEntryIsConfiguration | runtime/service.go:533-545 | for leaves in definition order the entry list from the root is ConfigurationOf the leaves |
| Machines.ResolveTransition | model/machine.go:112-125 | the first enabled transition for the event from the leaf upwards |
| Machines.ResolveAlways | model/machine.go:129-141 | the first enabled always transition from the leaf upwards |
| Machines.ResolveSource | model/machine.go:106-125 | a resolved transition is declared by the leaf or an ancestor for that event and has a declared target |
| Resolution.FirstOffer | model/machine.go:106-125 | at a declared state an event leads to the first of its transitions of that event whose guard lets it through |
| Resolution.FirstAfterOffer | model/compile.go:178-192 | if none of these does, to the first of its delayed transitions whose timer event it is and whose guard lets it through |
| Resolution.NoOffer | model/machine.go:106-125 | if nothing of the state offers anything, the event is up to its parent, and without one is ignored |
| Resolution.FirstAlways | model/machine.go:129-141 | the first always transition whose guard lets it through, else up to the parent |
| Resolution.EnabledExact | runtime/service.go:353-365 | a step collects the transition of each active leaf that has one and nothing else, one for each leaf, in the order in which leaves first occur |
| Resolution.EnabledNullExact | runtime/service.go:377-391 | the same for always transitions |
| Configurations.Completion | model/machine.go:181-198 | below its target, a default descent activates one child per OR state and all children per AND state |
| Steps.StepLegal | runtime/service.go:406-500 | a joint step takes a legal configuration to a legal one, any number of regions firing |
| Steps.StepBalance | runtime/service.go:431-500 | after a joint step the active states are those before, less the exit set, plus a disjoint entry set |
| Steps.StepOrdered | runtime/service.go:463-479 | in-place splicing of targets that come in the order of their sources keeps first occurrences of leaves in definition order |
| Steps.OrderExact | runtime/service.go:463-479 | a joint step keeps first occurrences in definition order exactly when the targets of each LCCA come in the order of their sources |
| Steps.DedupIncreases | runtime/service.go:463-479 | the leaves without repeats are strictly increasing in definition order |
| Hypotheses.CleanStepShapes | runtime/service.go:418-447 | a step is clean exactly when each transition is region-local, part of a joint exit or part of a joint restart |
| Hypotheses.CleanIsJoint | runtime/service.go:418-447 | the transitions of a clean step act together, complete what they change and come in order |
| Hypotheses.InitialLegal | runtime/service.go:103-127 | the initial configuration is legal exactly when the initial state has no AND ancestor |
| Exactness.CleanStepExact | runtime/service.go:406-500 | any step from a legal configuration is clean exactly when its transitions are apart and its outcome is legal and balanced |
| Exactness.JointStepExact | runtime/service.go:406-500 | when every active leaf that transitions may change takes one with their LCCA, the outcome is legal and balanced exactly when the default leaves of all targets together complete each LCCA |
| Exactness.CommonTargetExact | runtime/service.go:406-500 | when all transitions of a step have one target, legality and balance hold afterwards exactly when the step is clean |
| Examples.OneRegionLeaves | runtime/service.go:420-428 | a valid declaration and one event that leave a parallel state from one region: the next configuration is not legal |
| Examples.RestartIsClean | runtime/service.go:418-479 | a parallel state's transition to itself, taken by every region's leaf, is clean and keeps the invariant, though neither target is clean by itself |
| Examples.GoodNotApart | runtime/service.go:463-479 | a declared step that is not clean, because its transitions are not apart, and keeps the invariant because they act together |
| ForkExample.ForkIsGood | runtime/service.go:418-500 | a declared fork: the leaves of one parallel state go to those of another by separate transitions, none clean, and the invariant is kept |
| Interpreter.MicroInSteps | runtime/service.go:449-513 | a microstep done state by state is the microstep on whole lists: exit events, then entry, transition and done events |
| Threads.MicroThreads | runtime/service.go:449-505 | one thread of contexts runs through the exit actions of the states in exit order, the actions of the transitions in order and the entry actions in entry order; what they raise is queued in the order exits, entries, transitions, done events |
| Threads.StartThreads | runtime/service.go:117-134 | a start runs the entry actions of the initial configuration in definition order from the machine's context and queues what they raise, then the done events |
| Engine.RunActionList | runtime/service.go:454-461 | each action gets the context that the one before it left; what they raise is returned in order |
| Services.Service.DoEntry | runtime/service.go:549-559 | the entry actions declared for the state run in order, the context threaded through them, and what they raise is queued |
| Services.Service.DoExit | runtime/service.go:561-571 | the same for its exit actions |
| Orders.SortByDepthSorts | runtime/service.go:445-447 | the sort is deepest first, a permutation and stable |
| Orders.ExitOrderSound | runtime/service.go:435-447 | the exit order has no repeats, is the union of the exit paths, and exits descendants first |
| Orders.EntryOrderSound | runtime/service.go:481-493 | the entry order has no repeats, is the union of the entry paths, and for joint steps enters ancestors first |
| Orders.InitialEntryOrder | runtime/service.go:533-545 | initial entry lists every active state once, ancestors first |
| Sequencing.ExitOrderExact | runtime/service.go:431-447 | states are left deepest first, equally deep ones in the order of the transitions that leave them |
| Sequencing.EntryOrderExact | runtime/service.go:481-493 | states are entered transition by transition, default leaf by default leaf, from the outside in |
| Sequencing.NewLeavesInPlace | runtime/service.go:463-479 | the new leaves are, in the order of the old ones, the default leaves of each one's target, or the leaf itself |
| Sequencing.DoneOrderExact | runtime/service.go:629-647 | done events are raised entered state by entered state, for each from the inside out |
| Engine.UnifiedExits | runtime/service.go:431-447 | the loop and sort compute the exit order |
| Engine.SortDeepestFirst | runtime/service.go:445-447 | sorting by the depths that Depth returns gives the stable deepest-first order |
| Engine.UnifiedEntries | runtime/service.go:481-493 | the nested loops compute the entry order |
| Engine.ReplaceLeaves | runtime/service.go:463-479 | each leaf with a transition gives way to its targets in place, the others stay |
| Engine.CollectEnabled | runtime/service.go:353-365 | at most one enabled transition per distinct leaf, in leaf order |
| Engine.CompoundIsDone | runtime/service.go:652-678 | the code's completion test, for any list of leaves |
| Engine.RaiseDoneEvents | runtime/service.go:629-647 | the walk that stops at checked ancestors raises what the full walk raises, with the events that `DoneEventsExact` and `DoneOrderExact` give |
| Completion.DoneEventsExact | runtime/service.go:625-647 | one event "done.state." + ID for each completed proper ancestor of an entered state, no other event |
| Completion.DoneExactly | runtime/service.go:652-678 | a parallel state is done when each child has a final active leaf at or below it, another state with children when the first active leaf below it is final |
| Resolution.OnDoneTaken | model/builder.go:226-232 | a state's unguarded first transition for its done event is taken by every active leaf below it from which up to it nothing handles the event |
| Completion.DoneMeansComplete | model/builder.go:216-227 | "done" means all active leaves inside are final, whatever is final, exactly when no AND state is active inside |
| NestedExample.DoneThoughIncomplete | runtime/service.go:671-677 | a valid declaration whose OR state is done, and raises its done event at the start, while an active leaf inside is not final |
| Completion.CompleteIsDone | runtime/service.go:649-678 | a state whose active leaves are all final counts as done |
| Duplicates.AlikeNext | runtime/service.go:352-370 | interpreter states that differ in repeated leaves only make the same step and differ in repeated leaves only afterwards |
| Duplicates.RepeatsHarmless | runtime/service.go:463-479 | dropping repeated leaves changes nothing in any run: context, queue, entries and exits, timers, invokes, active states, final flag |
| Runs.MicroGood | runtime/service.go:406-514 | a clean microstep keeps configuration legal and ordered, and log, timers and invokes scoped to it |
| Runs.RunGood | runtime/service.go:292-339 | every run of clean moves keeps that invariant |
| Runs.NoParallelRunGood | runtime/service.go:292-339 | without parallel states every run keeps it and one leaf is active |
| Runs.StartGood | runtime/service.go:103-136 | a started service satisfies the invariant exactly when the initial state has no AND ancestor |
| Runs.RestoreGood | runtime/service.go:150-202 | a restored service satisfies it exactly when the given leaves are legal and in definition order |
| Runs.ReachableGood | runtime/service.go:92-140 | every state reached from the start by clean moves satisfies it, leaves without repeats in definition order |
| Invariants.ActiveNode | runtime/service.go:406-514 | the invariant, at one active state: its parent is active, of its children all if it is parallel and else exactly one |
| Invariants.ActiveTop | runtime/service.go:406-514 | exactly one state without a parent is active |
| Invariants.StateEffects | runtime/service.go:449-500 | an active state has been entered once more than left, its timers are registered and it holds one handle per invoke function; another has been left as often as entered and has neither |
| Invariants.HandlesApart | runtime/service.go:578-597 | no handle is held twice, and exactly the handles given out and no longer held are cancelled |
| Invariants.HandlesStarted | runtime/service.go:578-587 | starting invocations hands out the next handles, to that state alone |
| RunLoop.EveryRunCompletes | runtime/service.go:303-338 | external events are taken only when nothing is raised and no always transition is enabled; raised events are handled once in order; accepted events are those stepped plus those queued, and so are timer fires |
| Priorities.SysInTurn | runtime/service.go:303-338 | in every run each move is the one whose turn it is: a raised event, else an always transition, else an event from outside |
| Priorities.PanicsExactly | runtime/service.go:375-401 | an iteration panics exactly when always transitions go on for 1000 microsteps that raise nothing |
| Priorities.StopsWhenAsked | runtime/service.go:322-330 | a service stops only when asked to, and can stop when asked to and quiet |
| Priorities.FiresKept | runtime/scheduler.go:38-77 | a timer that fires is queued unless 64 fires are waiting; then it is dropped |
| RunLoop.SysIsRun | runtime/service.go:292-339 | every run of the event loop is a run of interpreter moves, up to teardown |
| RunLoop.TeardownReleases | runtime/service.go:293-301 | after the loop no timer is registered and every invocation ever started is cancelled |
| RunLoop.ServiceRunGood | runtime/service.go:292-339 | while a service runs with clean moves the invariant holds |
| Services.Service.ApplyTransitions | runtime/service.go:406-514 | the mutating microstep changes the service as the microstep function says and nothing else; what that function computes is the subject of Threads, Sequencing, Completion and Snapshots |
| Services.Service.Step | runtime/service.go:352-370 | one event: the enabled transitions of all leaves, in one microstep |
| Services.Service.TryAlways | runtime/service.go:375-401 | always transitions until none is enabled or an event is raised, at most 1000 |
| Services.Service.Iteration | runtime/service.go:303-338 | one iteration of the loop is the iteration of the step system, queues and history included |
| Services.Service.Execute | runtime/service.go:303-338 | the loop among sends, timer fires and stop requests in any order ends in the state of the step system's run |
| Services.Service.TrySend | runtime/service.go:227-239 | accepts exactly while running with room in the mailbox, at the end of the queue |
| Services.Service.Stop | runtime/service.go:258-265 | asks the loop to stop, once |
| Services.Service.TimerCallback | runtime/scheduler.go:64-77 | a cancelled timer's callback does nothing, also after the loop has ended; another offers its event to the loop |
| Services.Service.StartStateTimers | runtime/service.go:608-614 | registers each delayed transition of the state with its own delay and the event "statecraft.after." + timer ID, and no other timer |
| Services.Service.RunningIsArmed | runtime/service.go:608-620 | in every state that clean moves reach, the delayed transitions of the active states, and no others, are registered, each with its delay and event |
| Services.Service.SoundIsArmed | runtime/service.go:449-500 | the same after any microstep of a joint step in order from a state that satisfies the invariant |
| Services.Service.StoreSnapshot | runtime/service.go:682-704 | the snapshot is the interpreter state: first leaf, leaves, active states in order, previous state, context, event, and final exactly when every leaf is a final node |
| Snapshots.ReachableReports | runtime/service.go:682-704 | after any run the snapshot reports the leaves, the active states in definition order, previous state and context, and is final exactly when every active leaf is a final node |
| Snapshots.MoveReports | runtime/service.go:505-513 | a move that takes a transition publishes one snapshot: of its event, changed, the first leaf from before as the previous state; another publishes nothing and changes only the queue |
| Snapshots.StartSnapshot | runtime/service.go:130-136 | a started service has published nothing; its snapshot names the initial event and no change |
| Snapshots.RestoreSnapshot | runtime/service.go:150-202 | a restored service has the given leaves and context, nothing queued, and a snapshot that reports them |
| Snapshots.ReachableChained | runtime/service.go:505-513 | in every run each published snapshot's previous state is the state of the one before it, from the first default leaf to the state that the run ends in |
| Services.Service.DoInvokeEntry | runtime/service.go:578-587 | one fresh cancel handle per invoke function, held by the state |
| Services.Service.Shutdown | runtime/service.go:293-301 | cancels all timers and invocations |
| Services.Start | runtime/service.go:92-140 | a new service, scheduler included, is in the initial state of the step system, queues empty, with the timers of the active states armed |
| Services.Restore | runtime/service.go:150-202 | accepts exactly non-empty lists of declared atomic states and starts a new service in them, with their timers armed and their invokes, without entry actions |
| Scheduling.Scheduler.Start | runtime/scheduler.go:51-78 | replaces only the entry of the same ID, whose predecessor can no longer fire |
| Scheduling.Scheduler.Cancel | runtime/scheduler.go:84-96 | unregisters and flags that entry and no other |
| Scheduling.Scheduler.CancelAll | runtime/scheduler.go:99-109 | nothing stays registered and every entry is flagged |
| Compiling.Compiler.CollectStateIDs | model/compile.go:54-68 | succeeds exactly when no ID is empty, repeated or known |
| Compiling.Compiler.CompileTree | model/compile.go:72-125 | a state with its descendants: succeeds exactly on valid trees and adds exactly its nodes, rules and IDs |
| Compiling.Compiler.Compile | model/compile.go:11-51 | accepts exactly the valid declarations and returns the machine they denote; when the initial state is to blame |
| Forests.CompiledWellFormed | model/compile.go:38-125 | unique IDs, consistent parent and child links, definition order a preorder of all states, declared targets, default children, AND states with two or more regions |
| Forests.CompiledTimersApart | model/compile.go:164-193 | no two states of a compiled machine share a timer ID |
| Placement.ValidExactly | model/compile.go:11-68 | valid are exactly the declarations with a name, an initial state among the declared ones, IDs that are neither empty nor repeated, and every state well declared |
| Meaning.CompilationPreservesMeaning | model/compile.go:144-216 | resolving on the compiled machine is walking the declarations from the state up, regular transitions in order, then delayed ones |
| Placement.DeclaredIsCompiled | model/compile.go:79-125 | every declared state is in the compiled machine with its own fields: parent, children in order, flags, actions, invokes, always transitions, delay, target, guard and actions of each delayed transition; its default child is the declared one, else the first |
| Placement.DefaultsCompiled | model/machine.go:181-198 | the default leaves of a declared state are itself, those of its default child, or those of all its children in order |
| Placement.NothingElseCompiled | model/compile.go:72-90 | every compiled state is a declared one |
| Placement.MachineCompiled | model/compile.go:38-51 | the machine keeps the declared ID, initial state and context |
| TimerNames.TimerNameInjective | model/compile.go:178 | timer IDs determine state and index, whatever characters state IDs contain |
| TimerNames.AfterEventTypeInjective | model/compile.go:222-224 | timer event types determine timer IDs |
| TimerEvents.TimerEventOwn | model/compile.go:178-192 | if no declared event has the prefix, a timer event resolves only to its own delayed transition, from its state or below |
| Resolution.TimerTaken | model/compile.go:178-192 | a timer's event makes every active leaf of its state take the delayed transition when its guard lets it through, nothing below handles the event and no regular transition of the state does |
| Resolution.CompiledOwnTimers | model/compile.go:178 | no two delayed transitions of a compiled machine share a timer ID |
| TimerEvents.StaleTimerIgnored | runtime/service.go:332-336 | then a timer event does nothing unless the timer's state is active |
| HarnessTimers.HarnessScheduler.Start | testkit/harness.go:580-587 | marks older timers of the ID and appends; one live timer per ID |
| HarnessTimers.HarnessScheduler.Cancel | testkit/harness.go:589-595 | marks exactly the timers of that ID |
| HarnessTimers.HarnessScheduler.Advance | testkit/harness.go:599-618 | fires exactly the live timers due, each as often as registered, in chronological order, and keeps exactly the live later ones |
| HarnessTimers.AdvancedMeans | testkit/harness.go:599-618 | timer by timer: what fires is what is live and due by the new time, what is left is live and due later, both ordered by time, one event per fired timer |
| HarnessTimers.AdvanceSplits | testkit/harness.go:597-618 | advancing in two steps, the second not negative, fires what one step fires and leaves what it leaves |
| MockClocks.MockClock.AfterFunc | testkit/clock.go:51-57 | appends one timer due after the given time |
| MockClocks.MockClock.Advance | testkit/clock.go:61-86 | sorting and in-place compaction conserve all timers; what is due and not stopped fires in chronological order |
| MockClocks.MockClock.AdvanceAndRun | testkit/clock.go:82-86 | the callbacks run after the compaction: what they register joins the clock and is not fired by the same call, what they stop fires nevertheless if it was due |
| MockClocks.MockClock.Set | testkit/clock.go:90-99 | refuses exactly to go back, otherwise advances to that time |
| Flushing.AlwaysStepsAgree | testkit/harness.go:306-321 | the harness's and the service's always steps are the same exactly when at most one leaf has one |
| PairExample.SettleApart | testkit/harness.go:304-321 | a valid declaration with two always transitions on which harness and service settle in different leaves |
| Flushing.ServiceFollowsHarness | testkit/harness.go:325-341 | for all interleavings: the service does not panic on events on which the harness does not, and settles in the harness's state |
| Flushing.ServiceReachesHarness | runtime/service.go:303-320 | left alone, the service reaches that state |
| Flushing.NoAlwaysRun | testkit/harness.go:306-321 | without always transitions the steps agree on every event sequence |
| Flushing.NoParallelRun | testkit/harness.go:306-321 | without parallel states they agree on every event sequence, and the harness's states satisfy the invariant |
| Harnesses.Harness.ApplyTransitions | testkit/harness.go:352-445 | the harness's microstep is the interpreter's, its step records are the published snapshots |
| Harnesses.Harness.StepAlways | testkit/harness.go:306-321 | the always transition of the first leaf that has one |
| Harnesses.Harness.DoFlush | testkit/harness.go:325-341 | settles as the flush function says, fails exactly where the code panics |
| Harnesses.Harness.StartStateTimers | testkit/harness.go:481-485 | of the timers that can fire, those of the state are due after their delays, with the events of their transitions, and no other has changed |
| Priorities.NewHarnessSettles | testkit/harness.go:56-73 | a new harness is in the first state with nothing left to do after the start, and panics exactly when there is none within 1000 iterations |
| Priorities.HarnessSettles | testkit/harness.go:325-341 | after an event the harness is in the first state with nothing left to do, and panics exactly when there is none within 1000 iterations |
| Records.RecordsTraced | testkit/harness.go:439-444 | the step records lead without a gap from the initial state to the state that the harness is in |
| Records.TickCounts | testkit/harness.go:107-117 | what Tick returns is the number of fired timers whose events cause a transition |
| Harnesses.Harness.Send | testkit/harness.go:79-83 | the harness stays in the state that the events sent so far lead to; true exactly when a transition was enabled |
| Harnesses.Harness.Tick | testkit/harness.go:107-117 | sends exactly the timers due, in chronological order, counts the transitions, and fails exactly where the code panics |
| Harnesses.NewHarness | testkit/harness.go:56-73 | a new harness starts in the service's initial state, flushed |
| Persist.Save | persist/persist.go:46-72 | writes machine ID, leaves and context of the latest snapshot, and the time |
| Persist.RestoreCheckpoint | persist/persist.go:93-113 | accepts exactly checkpoints of this machine with declared atomic leaves and a readable context |
| Persist.Restore | persist/persist.go:83-89 | the same for encoded checkpoints |
| Persist.SaveRestores | persist/persist.go:46-113 | after any run saving fails only where the encoder does, and what is saved is accepted and gives back leaves, context and time |
| Persist.RestoredGood | runtime/service.go:187-198 | a state that satisfies the invariant restores to one that does |
| Persist.RestoredFollows | runtime/service.go:142-202 | saved with nothing queued, the restored service goes through the same leaves and contexts for ever |
| Supervision.Actor.Supervise | actor/ref.go:127-154 | the loop's fields are those of a run of the step system; it ends only by closing doneCh, does so when it receives a stop request or sees a clean stop, and answers each crash with one new service as long as the strategy allows and by returning after that |
| Supervision.Supervised | actor/ref.go:127-165 | at most one live service, replaced ones have crashed, instances within 1 + max(0, maxRestarts) |
| Supervision.DoneIsFinal | actor/ref.go:127-154 | when doneCh is closed no service is live and none is started afterwards |
| Supervision.CleanIsFinal | actor/ref.go:139-143 | a cleanly stopped service is never replaced |
| Supervision.EndsForReason | actor/ref.go:127-165 | the loop returns only when asked to stop, after a clean stop, or after a crash for which the strategy has no further instance |
| Supervision.StopCompletes | actor/ref.go:105-110 | from wherever the loop is, a stop request can be completed |
| Supervision.LimitReached | actor/ref.go:156-165 | the bound on restarts is attained |
| Overall.CompiledFrom | model/compile.go:11-51 | every valid declaration compiles to a machine that the interpreter can run |
| Overall.SequentialServiceGood | runtime/service.go:292-339 | a declaration without parallel states: in every run one leaf is active and the invariant holds, no hypothesis |
| Overall.CleanServiceGood | runtime/service.go:292-339 | a declaration with parallel states: the same as long as moves are clean |
| Overall.RunDeclared | runtime/service.go:92-140 | compiling a declaration, starting a service on it and running it: refused exactly when invalid, otherwise the service ends in the state of the step system's run, with one active leaf if nothing is parallel and its timers armed |
| Overall.SendToNew | testkit/harness.go:56-83 | a new harness sent any events panics exactly where the harness's run does and otherwise ends in its state |
| Overall.DeclaredServiceFollowsHarness | testkit/harness.go:281-341 | declarations without parallel states or without always transitions: the service follows the harness |

## Left out

- Exactness.JointStepExact: steps whose transitions are neither apart nor take along every active leaf that they may change get no exact condition; regions that swap places while another stays are such a step.
- Services.Service.DoInvokeEntry: the invoke function itself is not run; what it sends later is mail from the environment.
- MockClocks.MockClock.Advance: returns what fires; `AdvanceAndRun` runs the callbacks, which register timers and stop timers that existed before the call, and do nothing else to the clock.
- Harnesses.Harness.Send: invoke functions get their cancel handles but are not run; what one sends before it returns the harness queues at once, while the service routes it through the mailbox.
- Services.Service.TrySend: stands for Send as well; that Send blocks while the mailbox is full is not modelled.
- Services.Service.Stop: the wait for the loop to exit is not modelled; the loop's own exit is a step of the system.
- Persist.SaveRestores: the JSON codec is a parameter assumed to read back what it wrote.
- Persist.RestoredFollows: for the same environment on both sides; timers start afresh, so on machines with timers they would fire at other times.
- Supervision.Actor.Supervise: which channel is received from, and what happens while the loop waits, are parameters; registration of actors and Spawn's clean-up after a refused registration are not modelled.
- Compiling.Compiler.Compile: error messages are reduced to their kind; which of several kinds is reported first is stated for a missing or undeclared initial state only.
- Actions and guards that panic, and invoke functions that call the service before it returns from entering a state.
- Subscribers: the snapshots they are given are recorded, their callbacks are not run.
- Goroutines, wall-clock time and context cancellation are abstracted to steps, integers and flags.
- Times and durations are unbounded integers; Go's 64-bit durations are not wrapped.
- The builder's option handling, guard combinators and the logging action.
- The visualisation packages, the transition listing for them and the demo machines.
