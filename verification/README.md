# PythonNative, modelled and proved

This project models the parts of the PythonNative UI toolkit (and of its `fieldnotes` example) whose
correctness rests on an invariant or on an induction over whole runs, and proves what each of them
is for. Code that computes is modelled by functions and datatypes; code that updates objects in
place is modelled by classes whose methods are proved against a specification.

| files | what is modelled |
|---|---|
| `py_syntax`, `lint_rules`, `lint_precision`, `lint_checker`, `py_runs`, `lint_soundness`, `lint_exactness` | the rules-of-hooks checker PN101 and PN102, its findings call by call, a semantics of the Python it reads, when it is sound, and exactly when |
| `hook_order` | the runtime's hook slots and the dev-mode order guard |
| `state_updates` | state slots under urgent and transition updates, and the queues that flush them |
| `effects` | an effect lane: queueing, aborted renders, flushes, cleanups, unmount |
| `journal` | the undo journal of a render pass, over a heap of objects, containers and dictionaries |
| `list_data` | the keyed list and its bounded change log |
| `animation_nodes`, `animation_graph`, `animation_propagation` | animated nodes, the graph serializer, and how changes reach stateful nodes |
| `bezier` | the cubic Bezier easing solver |
| `animation_groups` | native animation groups, who owns a value, and who hears how an animation ends |
| `query` | the shared query cache |
| `ws_frames`, `ws_peer`, `ws_reader` | WebSocket frames on both ends, a peer that keeps to the protocol, and the client's reassembling read loop |
| `gestures` | the gesture composition compiler |
| `call_plan` | the fast path that binds a component's arguments |
| `sync_merge`, `sync_store` | the example server's merge and its change feed |
| `geo`, `geo_region` | the shortest arc of longitudes that holds a set of places, and the map region that frames them |

Numbers that the program keeps as floats are exact reals here. Arriving bytes, messages of the
renderer core, clock readings and the way tasks end are parameters of the methods they reach.

Some of the promises fail somewhere. The model keeps the code as it is, shows an input, and says exactly when the promise
holds:

- The hooks checker takes three positions as unconditional that Python may skip or repeat: the target of a `for`
  (`ForTargetMissed`), a comparison's operands after the second (`ChainedComparisonMissed`), and the body of a `with` whose
  manager swallows exceptions (`SwallowingWithMissed`). It never looks at parameter and return annotations
  (`AnnotationMissed`). Annotations apart, its promise holds for a module without findings exactly when no component or hook
  body calls a hook in one of the three positions (`SoundExactlyWhen`). This is about hooks that run only when called by
  their own names, each the name of one function: one that is passed on as a value may run or not without a finding
  (`HookPassedMissed`). And PN101 alone promises nothing: a plain function that calls hooks has a PN102 finding, and the
  component that calls it has none (`HelperMissed`).
- A transition begun inside `batch_updates` is flushed in a copy of that context. Once the batch has ended, the render that its
  update needs is never requested (`RenderLost`; `StateUpdates.Component.Flush` says exactly when one is).
- The server promises to ignore a version it already had. A first version is stored again on the next push unless it lists
  distinct attachments in ascending order (`RepeatedPushStoredAgain`; `RepeatedPushKeptExactlyWhen`, `KnownVersionIgnored`).
- A merge loses a tombstone or an upload when the first stored version lists an attachment twice
  (`RepeatedIdLosesTombstone`; `TombstonesKeptExactlyWhen`, `UploadsKeptExactlyWhen`).
- Several equal longitudes get the whole globe instead of a point (`EqualSpanGlobe`; `ShortestExactlyWhen`), and the map region
  then shows the other side of it (`SamePlaceTwiceOutside`; `FramesExactlyWhen` says when a region frames every place).
- `_CallPlan.bind` documents props in the order of the parameters, and leaves them in the order of the call when every
  one is given (`OrderOfCallKept`; `ParameterOrderExactlyWhen`).
- Past a last breakpoint that repeats, a clamped interpolation gives the output before the last
  (`RepeatedBreakpointClampsShort`; `InterpolateClamped`).

## Model

| member | source | states |
|---|---|---|
| `LintChecker.ContainsReturn` | src/pythonnative/lint.py:316-329 | the scope walk with an explicit stack finds a return exactly when the statement has one outside nested functions, lambdas and classes |
| `LintChecker.Checker.Enter` | src/pythonnative/lint.py:498-508 | entering a construct keeps the outermost reason, and leaving the scope ends directness |
| `LintChecker.Checker.CheckHookPlacement` | src/pythonnative/lint.py:691-716 | a hook call is reported exactly when it is outside an owner, under a reason, or after an early return |
| `LintChecker.Checker.VisitBlock` | src/pythonnative/lint.py:510-519 | visiting a block adds the findings its statements have in the context each is reached in, and leaves the context restored but for the early-return flag; `LintPrecision.ExactB` gives the same findings position by position |
| `LintChecker.Checker.VisitFunction` | src/pythonnative/lint.py:537-556 | a component or hook body is checked afresh, another nested body under the reason of its function, and the outer context comes back |
| `LintChecker.Checker.VisitModule` | src/pythonnative/lint.py:510-716 | the stateful visitor reports, in order, exactly what the position of each hook call on the syntax says, and nothing at all exactly when every call stands in a component or hook, unconditionally, and before the first statement that holds a return without being one |
| `LintPrecision.ExactB` | src/pythonnative/lint.py:498-716 | in any context that knows where it stands, a block has exactly one verdict for each hook call in it: outside an owner, under the outermost construct on the way from the owner, after an earlier statement that holds a return, or none |
| `LintPrecision.PreciseExactlyWhen` | src/pythonnative/lint.py:510-716 | a module has no finding exactly when every hook call is in an owner, with no construct that skips, repeats or postpones it on the way, and no earlier statement on that way, other than a `return` itself, that holds a return |
| `LintPrecision.AfterReturnNeedsReturn` | src/pythonnative/lint.py:510-519 | a call is reported as after an early return only in a component or hook whose own scope has a return |
| `LintPrecision.OutermostMeans` | src/pythonnative/lint.py:498-508 | the reason reported is the first construct on the way from the owner to the call |
| `LintPrecision.HookNamesExactly` | src/pythonnative/lint.py:246-248 | hook names are exactly underscores, `use_` and a lowercase letter, followed by anything |
| `LintRules.MutedQuietB` | src/pythonnative/lint.py:608-716 | code without findings, annotations counted, in a context where every hook call is reported contains no hook call |
| `LintSoundness.SilentB` | src/pythonnative/lint.py:608-716 | such code calls no hooks on any run, whatever callbacks it runs |
| `LintSoundness.StaysB` | src/pythonnative/lint.py:473-519 | code without an early return never leaves the function early |
| `LintSoundness.SameB` | src/pythonnative/lint.py:510-519 | a block of an owner without findings, annotations counted, and without a hook in the three positions the checker takes as unconditional calls the same hooks on any two complete runs |
| `LintSoundness.OwnersCleanB` | src/pythonnative/lint.py:537-556 | a module without findings, annotations counted, has only owner bodies without findings, however deep they are nested |
| `LintSoundness.ClosuresQuietB` | src/pythonnative/lint.py:573-592 | and every closure it can hand to someone else is free of hook calls |
| `LintSoundness.CheckerSound` | src/pythonnative/lint.py:498-716 | in a module with neither PN101 nor PN102 findings, annotations counted, and no hook in a `for` target, a later comparison operand or a swallowing `with`, any two complete runs of a component or hook body, with any branches, loop counts, matches, exceptions that a `try` or a manager takes, returns and callbacks, call the same sequence of hooks, as long as hooks run only when called by their own names |
| `LintSoundness.ForTargetMissed` | src/pythonnative/lint.py:614-619 | a hook in the target of a `for` gets no finding, yet one run calls it and another does not |
| `LintSoundness.ChainedComparisonMissed` | src/pythonnative/lint.py:608-716 | so does a hook in the third operand of a chained comparison |
| `LintSoundness.SwallowingWithMissed` | src/pythonnative/lint.py:648-651 | and a hook in the body of a `with`, which is skipped when the manager swallows an exception of an earlier statement |
| `LintSoundness.AnnotationMissed` | src/pythonnative/lint.py:537-541 | and a hook in an annotation of a conditional `def`, because the visitor takes decorators and defaults and no annotations |
| `LintSoundness.HelperMissed` | src/pythonnative/lint.py:691-700 | a plain function that calls a hook has only a PN102 finding; a component that calls it has none, and its runs call different hooks |
| `LintSoundness.HookPassedMissed` | src/pythonnative/lint.py:682-689 | a custom hook passed on as a value gets no finding, and the callee decides whether it runs |
| `LintExactness.PlaysB` | src/pythonnative/lint.py:498-716 | every block that Python's grammar allows has a run that ends, named by the choices it makes |
| `LintExactness.MissedDiffers` | src/pythonnative/lint.py:608-716 | a body without findings that calls a hook in one of the three positions has two complete runs that call different hooks |
| `LintExactness.SoundExactlyWhen` | src/pythonnative/lint.py:498-716 | in a module without findings, annotations counted, the runs of every component and hook body agree in every world it is linked into, whichever way its tests, loops and exceptions turn out, if and only if none of them calls a hook in a `for` target, in a comparison's operand after the second or in a `with` that may swallow, before its block's first `return` |
| `HookOrder.HookState.BeginRender` | src/pythonnative/hooks.py:319-332 | a render starts with every cursor at its first slot and, in dev mode, an empty log |
| `HookOrder.HookState.RecordHook` | src/pythonnative/hooks.py:366-392 | after a matching prefix, a call raises exactly when the log is no longer a prefix of the signature |
| `HookOrder.HookState.FinishRender` | src/pythonnative/hooks.py:344-364 | the first completed render sets the signature; a later one raises exactly when it called too few hooks |
| `HookOrder.HookState.CallHooks` | src/pythonnative/hooks.py:366-392 | a body raises at the first departure, and otherwise each call gets the slot its kind and position name |
| `HookOrder.HookState.Render` | src/pythonnative/hooks.py:319-392 | a dev-mode render raises exactly when its hooks are not those of the first completed one, and then keeps the signature |
| `HookOrder.CleanNeverRaises` | src/pythonnative/hooks.py:344-392 | renders of a body that the checker accepts, as in CheckerSound, record the same kinds, whatever kinds a hook stands for: they never trip the guard, and every call keeps its slot on every render |
| `HookOrder.SlotsDistinct` | src/pythonnative/hooks.py:366-392 | two calls of one render never share a slot |
| `HookOrder.HookLists` | src/pythonnative/hooks.py:279-332 | states and reducers share one list; effects, layout effects, memos, refs and resources have one each |
| `HookOrder.RecordsItself` | src/pythonnative/hooks.py:366-392 | a hook that keeps data, and `use_context`, records its own kind |
| `HookOrder.TransitionParts` | src/pythonnative/hooks.py:1189-1230 | `use_transition` records a state and the memo of its callback, `use_deferred_value` a state and an effect |
| `HookOrder.QueryParts` | src/pythonnative/hooks.py:1302-1319 | `use_query` records what the six hooks its body calls record, in order |
| `HookOrder.SubscriptionParts` | src/pythonnative/hooks.py:1416-1500 | `use_subscription` records a state, two refs and an effect, `use_mutation` a state and two refs |
| `StateUpdates.RunHolds` | src/pythonnative/hooks.py:695-761 | at any moment of any interleaving, replaying the queue would give every update applied in issue order |
| `StateUpdates.CommitReplaysAll` | src/pythonnative/hooks.py:746-761 | once the deferred work commits, the state is the fold of all updates in issue order |
| `StateUpdates.VisibleIsUrgentOnly` | src/pythonnative/hooks.py:702-745 | until then, the visible state is the last committed one with only the urgent updates applied |
| `StateUpdates.ValueSeen` | src/pythonnative/hooks.py:702-761 | a slot's value is what the setters' values and functions make of it one after the other: a deferred update is not seen before a commit, an urgent one is seen at once, and a commit shows every update so far in issue order |
| `StateUpdates.FoldConcat` | src/pythonnative/hooks.py:746-761 | replaying two stretches of updates one after the other is replaying them together |
| `StateUpdates.Component.Set` | src/pythonnative/hooks.py:699-744 | a setter call takes exactly its slot one step and does nothing after unmount; if the visible value changed, an owned component has its render requested, at once or once for the batch it is in, and otherwise nothing is requested |
| `StateUpdates.Component.SetDeferred` | src/pythonnative/hooks.py:702-744 | a transition update only queues, and the slot's flush is scheduled once |
| `StateUpdates.Component.SetUrgent` | src/pythonnative/hooks.py:702-744 | an urgent update shows at once and joins the queue behind deferred ones, and a changed value requests a render, at once or once for the batch |
| `StateUpdates.Component.Flush` | src/pythonnative/scheduler.py:134-176 | every queue is replayed from its base, or dropped after unmount, and no trigger is left; when something visible changed and there is an owner, one render is requested if the flush was scheduled outside any batch, it joins the list of a batch that is still open, and is lost with one that has ended |
| `StateUpdates.RenderLost` | src/pythonnative/scheduler.py:168-176 | a transition inside a batch that ends at once: the update commits later and no render is requested |
| `StateUpdates.Component.RunTriggers` | src/pythonnative/scheduler.py:134-160 | the flush loop commits, or after unmount drops, exactly the slots whose triggers are due |
| `StateUpdates.Component.ScheduleTrigger` | src/pythonnative/scheduler.py:39-46 | a trigger runs now, or waits once for the end of the outermost batch |
| `StateUpdates.Component.LeaveBatch` | src/pythonnative/scheduler.py:50-84 | only the outermost batch runs what was put off, each trigger once, in order of first request |
| `StateUpdates.Component.Defer` | src/pythonnative/scheduler.py:118-122 | a deferred trigger is queued once, and a flush is scheduled that will see the batch it was asked for in |
| `StateUpdates.Component.NotifyStateChanged` | src/pythonnative/hooks.py:611-632 | the component is dirty; without an owner nothing is requested, inside a transition the request is deferred with the other work, and otherwise it is made at once or once per batch |
| `Effects.BalancedConserves` | src/pythonnative/hooks.py:525-558 | on a balanced run every cleanup an effect left has run exactly once, except the one still owed |
| `Effects.LeftOnce` | src/pythonnative/hooks.py:525-548 | a cleanup is left by one effect, in one slot |
| `Effects.EachCleanedOnce` | src/pythonnative/hooks.py:428-456 | once nothing is owed, every cleanup that an effect returned was left and has run exactly once, in its own slot |
| `Effects.CleanedBetween` | src/pythonnative/hooks.py:525-548 | between an effect that left a cleanup and the next effect of its slot, that cleanup runs |
| `Effects.DueOrder` | src/pythonnative/hooks.py:870-883 | the queue holds exactly the calls in new slots or with changed dependencies, once each, in call order |
| `Effects.DueGrown` | src/pythonnative/hooks.py:334-342 | slots that an aborted render added are still due |
| `Effects.EffectLane.UseEffect` | src/pythonnative/hooks.py:870-883 | a call takes the next slot, and queues its effect when the slot is new or its dependencies changed |
| `Effects.EffectLane.AbortRender` | src/pythonnative/hooks.py:334-342 | an aborted render leaves the queue as it was when it began |
| `Effects.EffectLane.Render` | src/pythonnative/hooks.py:319-342 | a completed render queues exactly what is due, an aborted one nothing |
| `Effects.EffectLane.RenderRetrying` | src/pythonnative/hooks.py:319-342 | any number of aborted renders and then a completed one queue each due effect once, in call order |
| `Effects.EffectLane.RunCleanup` | src/pythonnative/hooks.py:550-558 | a slot's cleanup runs if there is one and is then owed no more; an error it raises is reported and goes no further |
| `Effects.EffectLane.Activate` | src/pythonnative/hooks.py:525-548 | an effect runs only in a slot that owes nothing, and its slot then owes a new cleanup exactly when the effect returned one |
| `Effects.EffectLane.Flush` | src/pythonnative/hooks.py:525-548 | every queued effect runs once, in order, although some raise; the first error comes out at the end; each slot then holds the dependencies of the last effect queued for it, and is as it was when none was; the log stays balanced, each cleanup returned being left in its slot and each that failed being reported once |
| `Effects.EffectLane.Commit` | src/pythonnative/hooks.py:525-548 | after a completed render and its flush every call's slot holds that call's dependencies, whether it was due or not |
| `Effects.EffectLane.RenderAgain` | src/pythonnative/hooks.py:499-516 | rendered again after a flush, a call is queued exactly when it has no dependency list, had none the last time, or has a different one |
| `Effects.EffectLane.CleanupAll` | src/pythonnative/hooks.py:428-456 | after an unmount nothing is owed, no effect has run, and every cleanup that an effect ever returned has run exactly once, in its own slot |
| `RenderJournal.UnwindAttr` | src/pythonnative/journal.py:187-192 | running the undo entries backwards leaves each captured attribute with the earliest value saved, and every other one alone |
| `RenderJournal.UnwindEntry` | src/pythonnative/journal.py:161-192 | the same for dictionary entries, absent ones included |
| `RenderJournal.EditSafe` | src/pythonnative/reconciler/core.py:846-848 | editing a container in place cannot lose its old contents once its holders were captured |
| `RenderJournal.WriteSafe` | src/pythonnative/reconciler/vnode.py:187-192 | nor can writing a captured attribute lose its old value |
| `RenderJournal.UnwindRestores` | src/pythonnative/journal.py:187-192 | rolling back a safe state restores every baseline attribute, container contents included, and exactly the baseline entries |
| `RenderJournal.Pass.constructor` | src/pythonnative/journal.py:117-121 | a new journal's baseline is the state there is, and no object counts as captured |
| `RenderJournal.Pass.Snapshot` | src/pythonnative/journal.py:123-148 | all journaled fields of an object are captured in one entry, containers copied, and the object is stamped |
| `RenderJournal.Pass.Attribute` | src/pythonnative/journal.py:150-159 | an attribute is captured before its first write in the pass, and not again |
| `RenderJournal.Pass.Mapping` | src/pythonnative/journal.py:161-175 | a dictionary entry is captured before its first change in the pass, and not again |
| `RenderJournal.Pass.Accept` | src/pythonnative/journal.py:177-185 | the entries are released, what there is becomes the baseline, and objects stamped before are captured again |
| `RenderJournal.Pass.Rollback` | src/pythonnative/journal.py:187-192 | every attribute and entry there was at the last accept has its value from then, dictionaries have no other entries, and the next pass can start from there |
| `RenderJournal.Pass.NewContainer` | src/pythonnative/reconciler/boundaries.py:136-141 | a list, dict or set made during a pass is one nobody holds yet, whose assignment and later edits stay restorable |
| `RenderJournal.Pass.SetField` | src/pythonnative/reconciler/vnode.py:187-192 | a write to a journaled attribute captures the whole object the first time, no other write captures anything; it changes that attribute and no container, and the run stays restorable |
| `RenderJournal.Pass.SetRef` | src/pythonnative/hooks.py:166-169 | a write to a ref captures and changes that attribute alone |
| `RenderJournal.Pass.EditContainer` | src/pythonnative/reconciler/core.py:846-848 | an in-place edit of a captured container keeps the run restorable |
| `RenderJournal.Pass.NewObject` | src/pythonnative/reconciler/vnode.py:194-197 | an object made during a pass is stamped and never captured |
| `RenderJournal.Pass.SetItem` | src/pythonnative/journal.py:236-240 | a journaled dictionary's assignment, with its entry captured first |
| `RenderJournal.Pass.Pop` | src/pythonnative/journal.py:242-249 | a pop returns and removes the entry, or reports a missing key, and stays restorable |
| `RenderJournal.Pass.Clear` | src/pythonnative/journal.py:251-254 | clearing captures every entry first |
| `ListChanges.ApplyConsistent` | src/pythonnative/list_data.py:144-198 | every change keeps keys distinct and in step with the entries |
| `ListChanges.MoveMeans` | src/pythonnative/list_data.py:179-190 | a move puts the key at its final index and keeps the order of the others |
| `ListChanges.ReplayHistory` | src/pythonnative/list_data.py:200-206 | replaying any stretch of the log on the view it starts from gives the view it ends at |
| `ListChanges.Collect` | src/pythonnative/list_data.py:59-83 | the initial list holds the items in order under their keys, at revision one each, or is refused exactly when a key is empty or comes twice |
| `ListChanges.NewListData` | src/pythonnative/list_data.py:59-83 | a list is made with its items at revision zero, or a ValueError is raised exactly for a limit below one or such a key |
| `ListChanges.ListData.Record` | src/pythonnative/list_data.py:121-124 | a change advances the revision and is logged, and the oldest one goes when the log is full |
| `ListChanges.ListData.InsertItem` | src/pythonnative/list_data.py:144-155 | refuses bad indices and empty or known keys and then changes nothing; otherwise the key comes in at the index, its entry has revision 1, nothing else changes, and exactly that insertion is published |
| `ListChanges.ListData.UpdateItem` | src/pythonnative/list_data.py:161-169 | refuses unknown and changed keys; otherwise the entry has the new item at the next revision, no key moves, no other entry changes, and that update is published |
| `ListChanges.ListData.Remove` | src/pythonnative/list_data.py:171-177 | returns the item and takes out its key and entry, the other keys keeping their order, or refuses an unknown key |
| `ListChanges.ListData.MoveItem` | src/pythonnative/list_data.py:179-190 | refuses bad indices and unknown keys, ignores a move to the same place, and otherwise the key is at the index, the others keep their order and every entry stays; the move is published |
| `ListChanges.ListData.Clear` | src/pythonnative/list_data.py:192-198 | the list is empty afterwards; one that was empty before stays as it is, any other publishes a reset |
| `ListChanges.ListData.LeaveBatch` | src/pythonnative/list_data.py:134-142 | only the outermost batch notifies, once, and only if something changed |
| `ListChanges.ListData.ChangesSince` | src/pythonnative/list_data.py:200-206 | returns nothing exactly when the revision is negative, in the future, evicted or before a reset; otherwise replaying the answer on the view as of that revision gives the current view |
| `AnimationNodes.BisectRightCounts` | src/pythonnative/animated.py:814-846 | the bisection splits the breakpoints into those at most the input and those beyond it |
| `AnimationNodes.InterpolateInside` | src/pythonnative/animated.py:814-846 | inside the input range the result lies between the outputs of its segment, and meets them at the breakpoints |
| `AnimationNodes.InterpolateClamped` | src/pythonnative/animated.py:814-846 | outside the range a clamped side gives that end's output: on the left always, on the right exactly when the last two breakpoints differ or their outputs are equal |
| `AnimationNodes.InterpolateOutside` | src/pythonnative/animated.py:814-846 | outside the range an identity side gives the input, and an extending one a point on the line of its last segment |
| `AnimationNodes.RepeatedBreakpointClampsShort` | src/pythonnative/animated.py:814-846 | with breakpoints 0, 100, 100 and outputs 0, 1, 2 the input 150 is clamped to 1 |
| `AnimationNodes.OperationsUndo` | src/pythonnative/animated.py:600-629 | sums and products commute and have their neutral elements, differences and quotients undo them, a sum with the opposite is zero, and dividing by zero gives zero |
| `AnimationNodes.ModuloMeans` | src/pythonnative/animated.py:624-626 | modulo leaves what is left of its first operand after a whole number of the second: smaller in size than the second, on the side of the first |
| `AnimationGraph.ConnectedSymmetric` | src/pythonnative/animation_graph.py:45-54 | being connected through inputs and children does not depend on where one starts |
| `AnimationGraph.OrderedMeans` | src/pythonnative/animation_graph.py:57-92 | in an ordered list every node appears once and after all its inputs |
| `AnimationGraph.Serializer.Discover` | src/pythonnative/animation_graph.py:45-54 | the depth-first walk over the live graph adds the node and everything next to what it adds, each once |
| `AnimationGraph.Serializer.Encode` | src/pythonnative/animation_graph.py:57-92 | a node's definition is appended after those of its inputs, unless it is there |
| `AnimationGraph.Serializer.Serialize` | src/pythonnative/animation_graph.py:39-94 | the message lists exactly the nodes connected to the root, once each, inputs first, with the smallest id and all bindings |
| `AnimationGraph.Serializer.Bindings` | src/pythonnative/animation_graph.py:93-94 | the id is the least of the nodes', and the bindings are those of every node, in discovery order |
| `AnimationGraph.SameGraphFromAnyRoot` | src/pythonnative/animation_graph.py:39-94 | from any two connected roots the id, the definitions and the bindings are the same |
| `AnimationGraph.PassComputesValues` | src/pythonnative/animation_graph.py:57-94 | one left-to-right pass over the list computes for every node the value the recursive definition gives it |
| `AnimationGraph.EvaluateIsCompute` | src/pythonnative/animated.py:809-908 | evaluating a definition on its inputs' values gives the node's value, diff clamps included when they are up to date |
| `AnimationPropagation.MovedTwice` | src/pythonnative/animated.py:904-908 | hearing of the same input twice moves a diff clamp once, and never out of its range |
| `AnimationPropagation.SerializedMoves` | src/pythonnative/animation_graph.py:75-84 | a serialized diff clamp has, for every input, the output that the diff clamp itself would have next |
| `AnimationPropagation.ValueFrame` | src/pythonnative/animated.py:809-874 | a change of one node leaves alone every value not computed from it |
| `AnimationPropagation.TellChildren` | src/pythonnative/animated.py:451-480 | once a changed node is up to date, telling its children reaches every diff clamp that fell behind |
| `AnimationPropagation.LiveGraph.Create` | src/pythonnative/animated.py:857-864 | a new node is adopted by its inputs, and no other value changes |
| `AnimationPropagation.LiveGraph.NewValue` | src/pythonnative/animated.py:655-664 | a settable value starts at its number |
| `AnimationPropagation.LiveGraph.NewOperation` | src/pythonnative/animated.py:853-874 | arithmetic on two nodes or numbers has the value its operation gives on theirs |
| `AnimationPropagation.LiveGraph.NewInterpolation` | src/pythonnative/animated.py:765-807 | refused for fewer than two breakpoints, unequal lengths or decreasing inputs; otherwise it maps its parent's value |
| `AnimationPropagation.LiveGraph.NewDiffClamp` | src/pythonnative/animated.py:889-898 | refused for an empty range; otherwise starts at its parent's value, or at the end of its range that this passes |
| `AnimationPropagation.LiveGraph.Propagate` | src/pythonnative/animated.py:451-480 | depth-first propagation in any order of children leaves no diff clamp behind that only this node owed the news |
| `AnimationPropagation.LiveGraph.SetValue` | src/pythonnative/animated.py:666-695 | after a value is set, every diff clamp in the graph has seen its input's current value; the output of each that no other diff clamp feeds has changed by exactly what its input's value changed by, unless that leaves its range, and is then at the end passed; nothing but diff clamps changed |
| `Bezier.SlopeIsDerivative` | src/pythonnative/animated.py:122-132 | the slope function is the derivative of the component, with the exact remainder |
| `Bezier.ComponentIsCasteljau` | src/pythonnative/animated.py:122-126 | the component is the point of de Casteljau's construction on 0, the control points and 1: the share `t` of the way between neighbours, taken three times over |
| `Bezier.QuotientBound` | src/pythonnative/animated.py:122-132 | with control points in [0, 1] the curve never climbs faster than 3 |
| `Bezier.ComponentLipschitz` | src/pythonnative/animated.py:122-132 | so two parameters give values at most three times as far apart |
| `Bezier.NewtonSolve` | src/pythonnative/animated.py:147-157 | each guess is where the tangent of the curve at the one before reaches the progress, from the progress itself on; the answer is the first guess within 1e-7, and there is none only after a flat slope or eight steps |
| `Bezier.Bisect` | src/pythonnative/animated.py:158-166 | bisection keeps its bracket, stops after 24 of its 40 iterations, and answers within three epsilon |
| `Bezier.SolveT` | src/pythonnative/animated.py:147-166 | for every progress and control points in [0, 1] the solver answers within 3e-7 of the progress |
| `Bezier.Evaluate` | src/pythonnative/animated.py:135-175 | the eased value is exact at the ends and on the diagonal, and elsewhere lies on the curve above a point within 3e-7 |
| `AnimationGroups.JudgeRunning` | src/pythonnative/animated.py:1114-1124 | while a group runs nobody has cancelled it, and it knows which drivers have not reported and whether the others all finished |
| `AnimationGroups.UnsettledMeans` | src/pythonnative/animated.py:1114-1161 | a group is unsettled exactly while it is not cancelled and some driver has not reported |
| `AnimationGroups.FinishedMeans` | src/pythonnative/animated.py:1114-1161 | it ends finished exactly when every driver first reported finished before any cancellation |
| `AnimationGroups.SettlesOnce` | src/pythonnative/animated.py:1140-1147 | a settled group never changes its result |
| `AnimationGroups.OneUnsettledGroup` | src/pythonnative/animated.py:702-706 | a value has at most one unsettled group |
| `AnimationGroups.Animations.Settle` | src/pythonnative/animated.py:1140-1161 | settling releases the value, moves it to the end value if there is one and leaves it otherwise, and tells every waiter once; a second time does nothing |
| `AnimationGroups.Animations.Disconnect` | src/pythonnative/animated.py:1126-1138 | every driver still routed to the group is routed to its remains, or forgotten when the core raises |
| `AnimationGroups.Animations.Cancel` | src/pythonnative/animated.py:1126-1138 | a running group ends unfinished without moving its value; a settled one stays as it ended |
| `AnimationGroups.Animations.Adopt` | src/pythonnative/animated.py:702-706 | the new owner is in place and the previous one, if any, is cancelled |
| `AnimationGroups.Animations.StopAnimation` | src/pythonnative/animated.py:708-710 | the value keeps its number, has no owner, and none of its groups is unsettled |
| `AnimationGroups.Animations.StartNative` | src/pythonnative/animated.py:1222-1252 | every driver gets a fresh id routed to the group; when the core refuses one, no route is left behind |
| `AnimationGroups.Animations.Start` | src/pythonnative/animated.py:1325-1339 | after a start the new group owns the value and every older group of it is settled; a refused start changes no value, group, route or waiter |
| `AnimationGroups.Animations.StopGroup` | src/pythonnative/animated.py:1341-1348 | stopping settles the group, keeps every value's number, and releases a value only if the group still owns it |
| `AnimationGroups.Animations.TargetCompleted` | src/pythonnative/animated.py:1114-1124 | the report settles the group exactly when every driver has reported since it started; the value is then at the final value when all of them finished, and otherwise at the number reported, or where it was when there is none |
| `AnimationGroups.SettledBy` | src/pythonnative/animated.py:1114-1124 | of a group that runs, a completion settles it exactly when all drivers have then reported, and as finished exactly when all have then finished |
| `AnimationGroups.Animations.StoppedCompleted` | src/pythonnative/animated.py:1163-1175 | a cancelled driver's last value counts only while nobody owns the value |
| `AnimationGroups.Animations.Report` | src/pythonnative/animated.py:1109-1112 | a frame report gives its number to the value its own group owns, and moves no other |
| `AnimationGroups.Animations.Message` | src/pythonnative/animated.py:1182-1202 | a completion goes to the driver's group or to what is left of it, and a report moves the value its group owns; a group that settles leaves its value at the final value when it finished, and otherwise at the number reported or where it was; an owned value moves only for its own group's drivers, unknown ids and repeated completions change nothing, and settled results stay |
| `AnimationGroups.SupersededMoves` | src/pythonnative/animated.py:1163-1202 | a message of a group that has ended moves its value exactly when it is a cancelled driver's first completion, carries a number, and nobody owns the value |
| `AnimationGroups.Animations.AddWaiter` | src/pythonnative/animated.py:1093-1107 | a waiter is told at once when the group is settled, and otherwise exactly once when it settles |
| `AnimationGroups.AnimationHandle.Start` | src/pythonnative/animated.py:1325-1339 | afterwards the handle's new run, towards the final value given, is the only unsettled one on its value, its earlier run has ended, and no value has moved |
| `AnimationGroups.AnimationHandle.Stop` | src/pythonnative/animated.py:1341-1348 | the handle's run has ended and its value is free if that run owned it; every other run, value and settled result stays |
| `Query.OneLiveFetch` | src/pythonnative/query.py:90-109 | each key has at most one live fetch |
| `Query.NoStaleResult` | src/pythonnative/query.py:97-109 | a fetch once superseded changes no snapshot and no expiry, however long after and however it ends |
| `Query.EvictMeans` | src/pythonnative/query.py:58-63 | eviction removes only idle entries and never the one asked for, and ends within capacity or with every other entry in use |
| `Query.EvictOldestFirst` | src/pythonnative/query.py:58-63 | an idle entry survives only if everything evicted was used less recently |
| `Query.EvictKeepsOrder` | src/pythonnative/query.py:58-63 | the keys that eviction leaves keep their order of use |
| `Query.QueryClient.GetEntry` | src/pythonnative/query.py:54-64 | finds the entry, or makes one with the initial data that is loading and has no listener, makes it the most recently used, evicts idle ones from the least recently used on, and ends within capacity or with no other entry idle |
| `Query.TouchedMeans` | src/pythonnative/query.py:58-58 | using a key puts it last and neither adds, drops nor repeats another |
| `Query.TouchedAt` | src/pythonnative/query.py:58-58 | a key used moves to the end past the others, which keep their order |
| `Query.QueryClient.Survivors` | src/pythonnative/query.py:60-63 | the eviction loop over a copy of the items keeps what the specification keeps |
| `Query.QueryClient.Fetch` | src/pythonnative/query.py:90-109 | starts a fetch for the current generation exactly when there is a fetcher and none is running; the entry then shows its data as loading, at the next revision, and nothing else changes |
| `Query.QueryClient.Subscribe` | src/pythonnative/query.py:70-88 | the listener is in, stale data has exactly its one live fetch, fresh data starts none, and nothing else changes |
| `Query.QueryClient.Remove` | src/pythonnative/query.py:80-86 | the last unsubscribe supersedes and cancels a running fetch, keeping the data; any other changes exactly the entry's listeners |
| `Query.QueryClient.Retire` | src/pythonnative/query.py:114-118 | a new generation supersedes every fetch the entry had, and the running one is cancelled |
| `Query.QueryClient.Invalidate` | src/pythonnative/query.py:111-120 | earlier fetches are superseded, the data is stale but kept, an entry with listeners is fetched again, and no other entry changes |
| `Query.QueryClient.InvalidateAll` | src/pythonnative/query.py:111-120 | every fetch of every cached entry is superseded, as by one invalidation each, and no other entry changes |
| `Query.QueryClient.SetData` | src/pythonnative/query.py:122-130 | the entry shows the value, not loading and without error, at the next revision; it is fresh, every earlier fetch is superseded, and no other entry changes |
| `Query.QueryClient.TaskEnds` | src/pythonnative/query.py:97-109 | a result of the current generation shows its data and is fresh, a failure shows its error over the data there was, and any other outcome, a cancelled fetch's above all, changes no entry |
| `WsFrames.BigRoundTrip` | src/pythonnative/websocket.py:291-330 | big-endian lengths read back as written |
| `WsFrames.BigEndian` | src/pythonnative/websocket.py:291-330 | the bytes of a length stand most significant first |
| `WsFrames.XorBytes` | src/pythonnative/websocket.py:435-439 | exclusive-or of two equally long big integers is exclusive-or byte by byte |
| `WsFrames.MaskIsBytewise` | src/pythonnative/websocket.py:435-439 | masking through big integers is the bytewise exclusive-or with the mask repeated every four bytes |
| `WsFrames.MaskTwice` | src/pythonnative/websocket.py:435-439 | masking is its own inverse |
| `WsFrames.ClientToServer` | src/pythonnative/websocket.py:291-310 | the server reads a client frame back as sent, for every payload within its limit, and consumes exactly that frame |
| `WsFrames.ServerToClient` | examples/fieldnotes/server.py:132-156 | the client reads a server frame back as sent, within its size limit and the rules for control frames, and consumes exactly that frame |
| `WsFrames.ClientReadMeans` | src/pythonnative/websocket.py:312-330 | a reserved bit or a mask is refused whatever follows; a frame taken has neither, its final bit and opcode are those of the first byte, a control frame is short and final, and the payload has the announced length and comes right after the header |
| `WsPeer.ReadBack` | src/pythonnative/websocket.py:312-330 | every frame of RFC 6455, section 5.2, that a server may send, final or not, is read back as sent, and no byte more |
| `WsPeer.ReadBackByServer` | examples/fieldnotes/server.py:143-157 | the server reads an unmasked frame back as sent |
| `WsPeer.CutOff` | src/pythonnative/websocket.py:312-330 | a frame that breaks off anywhere is a lost connection |
| `WsReader.ReassemblyUnique` | src/pythonnative/websocket.py:332-374 | frames can be reassembled into whole messages and a rest in at most one way |
| `WsReader.Extend` | src/pythonnative/websocket.py:332-374 | an admitted data frame extends the open message or completes it |
| `WsReader.WebSocket.OnCloseFrame` | src/pythonnative/websocket.py:376-390 | a close frame closes with its code, 1005 and none reading as normal, and is echoed |
| `WsReader.WebSocket.Fail` | src/pythonnative/websocket.py:392-397 | a violation tells the peer the code once and closes |
| `WsReader.WebSocket.Finish` | src/pythonnative/websocket.py:399-408 | the first code stays, and one closed marker is queued |
| `WsReader.WebSocket.Admit` | src/pythonnative/websocket.py:345-370 | a data frame is refused exactly for a wrong continuation, a size over the limit, or text that is not UTF-8 |
| `WsReader.WebSocket.OnFrame` | src/pythonnative/websocket.py:332-374 | one frame is answered, collected or the reason to close; `WsReader.StopCodes` names the opcodes and codes |
| `WsReader.WebSocket.ReadLoop` | src/pythonnative/websocket.py:332-374 | a peer that keeps to the protocol, whatever its messages, fragments, pings and pongs, is heard to its close frame or its loss: the queue gets exactly its messages and then one closed marker, every ping gets its pong and the close its echo; of any other stream the queue gets exactly the messages completed before the first violation, and one close frame names the violation |
| `WsReader.HeardExactly` | src/pythonnative/websocket.py:332-374 | of such a peer no frame stops the loop before its end, and what is delivered and sent is what the peer's messages, pings and ending say |
| `WsReader.StopCodes` | src/pythonnative/websocket.py:338-370 | opcodes 9 and 10 never stop the loop and 8 stops it with its code; an unknown opcode, a continuation of nothing, a start inside a message and undecodable text stop it with 1002, too large a message with 1009, and no other data frame stops it |
| `WsReader.DeliveredExactly` | src/pythonnative/websocket.py:332-374 | a peer's messages, fragmented as it likes and with control frames between, are heard exactly |
| `WsReader.ControlFramesIgnored` | src/pythonnative/websocket.py:332-374 | dropping pings and pongs changes no message |
| `WsReader.DeliveredWithinLimit` | src/pythonnative/websocket.py:332-374 | no delivered message exceeds the size limit |
| `Gestures.Serializer.Flatten` | src/pythonnative/gestures.py:684-698 | leaves get depth-first indices, and the pairs added are exactly those the composition tree asks for |
| `Gestures.Serializer.FlattenTop` | src/pythonnative/gestures.py:700-706 | the top-level list is a simultaneous group |
| `Gestures.Serialize` | src/pythonnative/gestures.py:643-748 | each leaf lists, in order, the enabled leaves that share a simultaneous lowest common group with it, and the earlier ones it waits for in an exclusive one |
| `Gestures.SimultaneousSymmetric` | src/pythonnative/gestures.py:745-745 | simultaneity is symmetric |
| `Gestures.WaitsAcyclic` | src/pythonnative/gestures.py:746-746 | waiting only points to earlier leaves, along any chain |
| `Gestures.OneRelation` | src/pythonnative/gestures.py:643-748 | two enabled leaves are simultaneous, waiting or racing according to their lowest common group alone |
| `Gestures.DisableOnlyItself` | src/pythonnative/gestures.py:708-717 | disabling one leaf takes it out of every relation and leaves all the others as they were |
| `CallPlan.BindsOnce` | src/pythonnative/component.py:265-280 | by Python's rules a call binds in at most one way |
| `CallPlan.Plan.constructor` | src/pythonnative/component.py:107-128 | a signature is planned exactly when it has no positional-only and no `**` parameter |
| `CallPlan.Plan.Bind` | src/pythonnative/component.py:130-154 | the fast path succeeds exactly when the call binds by Python's rules, with that binding's props and children, the props in the order of the call or, when one was missing, of the parameters |
| `CallPlan.Plan.GiveKeywords` | src/pythonnative/component.py:130-154 | the keyword loop fails exactly on a repeated or unknown name, and otherwise adds the keywords in their order |
| `CallPlan.Plan.FillDefaults` | src/pythonnative/component.py:130-154 | missing arguments get their defaults, in the order of the parameters, or the fast path fails exactly when one has none |
| `CallPlan.Plan.Arguments` | src/pythonnative/component.py:156-165 | how an element's props and children become positional and keyword arguments |
| `CallPlan.OrderOfCallKept` | src/pythonnative/component.py:130-154 | `f(b=1, a=2)` leaves the props of `def f(a, b)` in the order b, a |
| `CallPlan.ParameterOrderExactlyWhen` | src/pythonnative/component.py:130-154 | the props of a call that binds are in the order of the parameters if and only if some argument is left to its default or the keywords are given in that order |
| `CallPlan.RenderReceivesCall` | src/pythonnative/component.py:282-302 | rendering the element binds the function's parameters exactly as the original call did, defaults filled in |
| `SyncMerge.PairLessTotal` | examples/fieldnotes/server.py:98-98 | stamps are totally ordered by time, then device |
| `SyncMerge.SortedMeans` | examples/fieldnotes/server.py:108-108 | attachments come out in ascending order, none added or lost |
| `SyncMerge.MergeEntry` | examples/fieldnotes/server.py:94-109 | the loop over a dictionary by id computes the merge |
| `SyncMerge.MergeMeans` | examples/fieldnotes/server.py:94-109 | one merge keeps the later stamp's fields and the union of ids, tombstones and uploads; of several stored copies of an attachment the last one speaks |
| `SyncMerge.FinalStamp` | examples/fieldnotes/server.py:94-109 | any run of deliveries ends with the fields of a version with the greatest stamp |
| `SyncMerge.FinalMeans` | examples/fieldnotes/server.py:94-109 | and with every attachment some version had, tombstoned or uploaded exactly when the first version's last copy or any copy in a later one says so |
| `SyncMerge.FinalOfProper` | examples/fieldnotes/server.py:94-109 | when versions list each attachment once, that is exactly when some version says so |
| `SyncMerge.TombstonesKeptExactlyWhen` | examples/fieldnotes/server.py:100-107 | no tombstone of an attachment is lost if and only if the first version's last copy of it, or a later version, carries any that the first version has |
| `SyncMerge.UploadsKeptExactlyWhen` | examples/fieldnotes/server.py:100-107 | and no upload of an attachment is lost under the same condition on uploads |
| `SyncMerge.DeliveryOrderIrrelevant` | examples/fieldnotes/server.py:94-109 | any order and repetition of the same versions ends with the same fields, attachments, tombstones and uploads, when versions with the greatest stamp carry the same fields |
| `SyncMerge.FieldsSettledExactlyWhen` | examples/fieldnotes/server.py:94-109 | every order of delivery ends with the same fields if and only if the versions with the greatest stamp carry the same ones |
| `SyncMerge.SameAttachmentsInOrder` | examples/fieldnotes/server.py:94-109 | once two versions have arrived and metadata is fixed per attachment, any order and repetition of the same versions ends with the same list of attachments, metadata and order included |
| `SyncMerge.RepeatedIdLosesTombstone` | examples/fieldnotes/server.py:100-100 | a stored version that lists an attachment twice can lose its tombstone |
| `SyncMerge.RepeatedPushKeptExactlyWhen` | examples/fieldnotes/server.py:68-109 | pushing the first version again leaves the stored entry as it is if and only if it lists distinct attachments in ascending order |
| `SyncMerge.RepeatedPushStoredAgain` | examples/fieldnotes/server.py:68-109 | a first version that lists a later attachment before an earlier one is changed by being pushed again |
| `SyncMerge.KnownVersionIgnored` | examples/fieldnotes/server.py:68-109 | once two versions have arrived, any of them pushed again changes nothing, unless it came first only and lists an attachment twice |
| `SyncStore.CatchUp` | examples/fieldnotes/server.py:63-87 | a replica of the store from any earlier cursor, overlaid with the changes since, is the store now |
| `SyncStore.OneMoreChange` | examples/fieldnotes/server.py:81-86 | a stored change keeps sequence numbers distinct, at most the cursor, and the feed complete |
| `SyncStore.JournalStore.Merge` | examples/fieldnotes/server.py:68-87 | stores the merge under the next sequence number, or changes nothing exactly when the merge is what was stored |
| `SyncStore.JournalStore.ChangesSince` | examples/fieldnotes/server.py:63-66 | exactly the entries changed after the cursor, oldest change first; overlaid on the store as of that cursor they give the store now |
| `Geo.GapsSum` | examples/fieldnotes/app/geo.py:69-77 | the gaps between different longitudes go once around the globe |
| `Geo.ArcHolds` | examples/fieldnotes/app/geo.py:69-77 | the arc holds every longitude and is shorter than the globe |
| `Geo.NoShorterArc` | examples/fieldnotes/app/geo.py:69-77 | no arc that holds every longitude is shorter |
| `Geo.EqualSpanGlobe` | examples/fieldnotes/app/geo.py:69-77 | several copies of one longitude get a span of 360 |
| `Geo.ShortestExactlyWhen` | examples/fieldnotes/app/geo.py:69-77 | the arc is a shortest one exactly when there is one longitude or two different ones |
| `Geo.CenterHalfway` | examples/fieldnotes/app/geo.py:69-77 | the center is a longitude halfway along the arc |
| `Geo.CenterInRange` | examples/fieldnotes/app/geo.py:69-77 | the center is itself a longitude, in [-180, 180) |
| `Geo.ExtentHolds` | examples/fieldnotes/app/geo.py:69-77 | every longitude is within half the span of the center |
| `GeoRegion.FramesExactlyWhen` | examples/fieldnotes/app/geo.py:45-66 | the region holds every place if and only if the latitudes are within 170 degrees and the longitudes' span within 350, and the padding is at least one or the extent tiny |
| `GeoRegion.FittedRegion` | examples/fieldnotes/app/geo.py:45-66 | the region is centered between the northernmost and the southernmost place and on the arc of longitudes, and its deltas are the padded extents unless one is below 0.02 or beyond 170 and 350 |
| `GeoRegion.LongitudesFramed` | examples/fieldnotes/app/geo.py:61-77 | a longitude delta of at most 350 shows every place exactly when it is at least the span |
| `GeoRegion.SamePlaceTwiceOutside` | examples/fieldnotes/app/geo.py:45-77 | two places at one position, with the default padding, are outside their region |

## Left out

- LintSoundness.CheckerSound: counts the findings that annotations would have had, because the checker does not visit them (`AnnotationMissed`); hooks in annotations that would have had one and still do no harm, as when both branches of an `if` annotate with the same hook, are not told apart. A hook runs only when it is called by its own name, and each such name is one function during the runs compared: hooks passed on, renamed or redefined are outside the worlds a module is linked into (`HookPassedMissed`). An exception may cut the body of a `try` or of a swallowing `with` after any of its statements, not within one; one that leaves the function ends the run, which then is not complete, and `raise` is not told apart from other statements. Type aliases and type parameters (PEP 695) are not part of this model.
- SyncMerge.DeliveryOrderIrrelevant: assumes that each version lists an attachment once, as the clients do; `TombstonesKeptExactlyWhen` and `UploadsKeptExactlyWhen` say what happens otherwise, and `FieldsSettledExactlyWhen` when equal stamps settle the fields.
- Bezier.Evaluate: does not bound the parameter that Newton's method answers with, whose steps may leave [0, 1]; the source bounds only the one that bisection answers with.
- Bezier.NewtonSolve: does not claim that Newton's method converges; when it does not, bisection answers.
- WsReader.WebSocket.OnCloseFrame: the text of a close reason is not part of this model, and only the code of the echoed frame is compared.
- WsReader.WebSocket.ReadLoop: closes that start from `close()`, the heartbeat or a failed send are not modelled, nor is the text of a reason in the last frame.
- Lint rules PN103 and PN104, file discovery and suppression comments.
- `defer_input`, updates that raise while they are applied or replayed, and completion callbacks of a transition.
- Effects that are coroutines, and the order of the layout lane before the passive lane; both lanes run the modelled code.
- Nested or concurrent journals; the contents of a container held by a dictionary entry are restored by reference, as in the code.
- Python objects that the journal reaches are addresses in maps, one class holding the whole heap, so that aliasing of containers is modelled explicitly.
- The thread check of `ListData`, and listeners that edit the list while they are notified.
- Color and angle interpolations, custom easing functions, and the fallback to 0 for nodes whose value is no number.
- Garbage collection of animated nodes, and listeners that change the graph while it propagates.
- Animation groups: messages that arrive while a group's drivers are still being started, and completion callbacks that start or stop animations before the others were told; futures resolve before callbacks, which the order of waiters does not show.
- The query cache's `close()`, listeners that call back into the cache, and the clock, which is a parameter.
- The TLS and HTTP handshake, JSON, and UTF-8 validity, which is an arbitrary predicate on bytes.
- Gesture recognition itself, event routers and the configuration each gesture kind carries.
- Keyed element metadata and the error messages of a call that does not bind.
- The sync server's sockets, live broadcasts, saved files and attachment transfers; a missing attachment key and an explicit empty value are the same, so that adding one by a merge counts as no change.
- The renderer core, the reconciler, the bridge and the native hosts.
