# A2W engine: a Dafny model and its proofs

A2W runs workflows: directed acyclic graphs of nodes joined by port-indexed connections. This project models
the scheduler that runs them, the transformations that rewrite them, the expression language their parameters
use, and the checks that keep nested workflows apart, and proves what these parts promise.

- **What a run means.** `Semantics` defines the outcome of every node by recursion on the graph, with no
  scheduler in sight (`Semantics.Out`). Executors are a function of node, mode, attempt number and input, so flaky
  executors are covered. Hydrated outputs of an earlier run are part of the job.
- **How it runs.** `Schedule` is a step relation: any runnable node may be skipped, started, fail an attempt or
  finish, in any order, under a bound on permits. `Engine` is the engine itself, as classes with the state the
  source keeps (`outputs`, `done`, `remaining`, the event log): edge collapsing, hydration, reachability, the wave
  loop, retries and error policy. `Confluence`, `Traces`, `Resume` and `Waves` hold the theorems about every schedule; the
  contract of `Engine.Engine.RunWithId` ties the imperative engine to both views.
- **Per-item nodes.** `Executors` models Transform, Branch, Switch, Loop and Merge, `NodeParameters` says what they do
  from the JSON of their parameters on; `Additivity` proves the engine invariants for every graph of such nodes, and
  exactly when they fail under the Continue policy.
- **Transformations.** Sequential composition (`Composition`, `CopiedRuns`, `CompositionMeaning`), the two pass-through
  operators (`Operators`, `Detours`, `PassthroughMeaning`), Parallelize (`Optimizer`), the critical path
  (`CriticalPaths`) and the beam search (`BeamSearch`).
- **Expressions.** `Expressions` is the grammar as a function on tokens, `ExpressionParser` and
  `ExpressionLexer` are the parser and lexer as classes that move a position, `ExpressionPrinter` prints with as
  few parentheses as possible, `ExpressionImage` says which trees the parser builds. `Precedence` and `Lexemes` say on
  concrete tokens and characters what binds how tightly and what reads as what.
- **Nesting.** `CycleCheck` is the iterative reference-cycle check; `NestedRuns` lets the engine and the
  sub-workflow executor call each other; `StoredWorkflows` reads requests and references from node parameters and
  sets the check against the runs.
- **Skills.** `Similarity` is the similarity of two task signatures.
- **Concrete inputs.** `FragileWorkflow`, `RepeatedConnection`, `DeepChains` and `CollidingForms` are inputs in which
  the code departs from its documentation.

`dafny verify dfyconfig.toml` checks everything.

## Reading the model

- The validator's verdict, library lookups (JSON pointers, substring search, template rendering, number
  parsing, UTF-8 validation, square root, topological sort) and the verification scores are parameters with the
  properties the code relies on. `Workflows.Valid` is the structural part of what the validator accepts.
- Numbers are exact reals, identifiers are strings compared code point by code point, and a `char` of expression
  source stands for one byte.
- A wave of the engine is run here one node after the other; that every interleaving of starts and finishes ends
  in the same state is what `Confluence` proves of the step relation.
- A run is called clean when every payload that arrives at a node can be handled by it. Without a Continue policy
  the clean runs are exactly those that complete (`Additivity.CompletesIffClean`). Inputs and emissions are
  compared as multisets of payloads, with the port for emissions.

Where the code and its documentation disagree, the model follows the code:

- `crates/a2w-search/src/operators.rs` calls an inserted pass-through functionally a no-op. In every run each node
  comes to the same end and emits the same things, but not always as often: if the connection is declared twice the
  engine collapses the repetition, the detour escapes the collapsing, and what the connection carries arrives
  twice. For the pure executors inserting changes no emission exactly if the connection is declared once, or carries
  nothing, or its target emits nothing (`PassthroughMeaning.InsertIsExact`,
  `RepeatedConnection.RepeatedConnectionDoubles`, `RepeatedConnection.DroppedEitherWay`).
- Removing a pass-through changes no emission exactly if every consumer to which something came both through it and
  around it emits nothing (`PassthroughMeaning.RemoveIsExact`, `RepeatedConnection.RemovingWithBypassLosesOne`); and a
  `set` written out as `{}` rejects items that are no objects, where an absent one passes them
  (`PassthroughMeaning.EmptyPassthroughMeaning`).
- README.md:155-158 of the repository says additivity holds for any valid workflow. It holds for every workflow
  without a Continue policy (`Additivity.CompletingRunsAddUp`). With one, three completing runs add up exactly if at
  no node with that policy one part of the input comes to something while the other part fails
  (`Additivity.AddsUpExactly`); `FragileWorkflow.CompletingIsNotEnough` is a run where this happens. Permutation
  invariance and duplication scaling hold for every workflow of per-item nodes, every policy and every run.
- The critical path is documented as the longest one. Its latency is always maximal, cut off at the counter's
  maximum, and it always leads from a root to a sink; but once a latency sum saturates, ties on node count can be
  lost (`CriticalPaths.SaturationLosesTheCount`). None is lost if the answer's own latency is below the maximum
  (`CriticalPaths.UnsaturatedIsExact`), or if all latencies together do not exceed it
  (`CriticalPaths.SmallTotalFits`).
- The comment on the cycle check says its bound matches the run-time cap on nesting; it is four times that. A
  chain of seven to twenty workflows passes the check and never completes when it is started with an item
  (`StoredWorkflows.StoredChainFails`, `DeepChains.AcceptedButRefused`); up to six workflows the two agree
  (`StoredWorkflows.ShallowRunsFreely`).
- The canonical form by which the search recognises workflows is documented as the same for structurally identical ones.
  It is (`CanonicalForms.CanonicalOrderFree`), but it can also be the same for different ones when identifiers hold its
  separators (`CollidingForms.FormsCollide`). Otherwise the converse holds (`CanonicalForms.FormTellsApart`).
- The grammar comment in `crates/a2w-expr/src/lib.rs` allows one sign before an atom; the parser takes any number.

## Model

| member | source | states |
|---|---|---|
| Semantics.EdgeList | crates/a2w-engine/src/engine.rs:306-323 | the incoming edges of a node are exactly the connections that enter it, each (producer, port) once |
| Semantics.FanInSorted | crates/a2w-engine/src/engine.rs:587-593 | inputs are gathered in increasing order of (producer, port), without repetition |
| Semantics.FanInOrderFree | crates/a2w-engine/src/engine.rs:306-323 | permuting or repeating connections leaves the gathering order unchanged |
| Semantics.ConnectionOrderFree | crates/a2w-engine/src/engine.rs:574-612 | two runs over the same nodes and the same set of connections agree at every node |
| Semantics.FailureBlocksConsumer | crates/a2w-engine/src/engine.rs:550-556 | a node whose producer failed under Stop, or is itself blocked, never gets an outcome unless hydrated |
| Semantics.CompletesMeansUnblocked | crates/a2w-engine/src/engine.rs:544-560 | if no node fails under Stop every node is done or unreachable |
| Semantics.NodeMeans | crates/a2w-engine/src/engine.rs:617-816 | a node whose producers have come to an end is skipped if it is connected and received nothing; otherwise the first successful attempt, or the last of those its policy and mode allow, decides: its items restamped in order, nothing under Continue, a failure otherwise |
| Semantics.BlockedMeans | crates/a2w-engine/src/engine.rs:544-560 | a node that is not hydrated is blocked exactly if a producer of it failed or is blocked, and absent exactly if the trigger does not reach it |
| Schedule.StepIsLocal | crates/a2w-engine/src/engine.rs:617-734 | every step of a schedule touches one node and appends one event, of that node |
| Schedule.StepAgrees | crates/a2w-engine/src/engine.rs:457-561 | every step keeps each node in agreement with its denotation |
| Schedule.ReachedAgrees | crates/a2w-engine/src/engine.rs:457-561 | in every state of every schedule each node agrees with its denotation |
| Schedule.WithinPermits | crates/a2w-engine/src/engine.rs:484-526 | in no state of any schedule are more nodes active than there are permits |
| Schedule.FreePermitIsUsable | crates/a2w-engine/src/engine.rs:520-526 | while a permit is free every runnable node can be started, or skipped if it received nothing |
| Confluence.Confluent | crates/a2w-engine/src/engine.rs:457-561 | every interleaving that can go no further, under any permit bound, has the denoted outputs, failures and finished nodes |
| Confluence.SchedulesAgree | crates/a2w-engine/src/engine.rs:484-526 | any two complete schedules, under any two permit bounds, end with the same outputs, failures and finished nodes |
| Confluence.NeverStuck | crates/a2w-engine/src/engine.rs:472-478 | while nothing has failed and work remains some step is possible, so the no-runnable-nodes error cannot be met |
| Confluence.SchedulesEnd | crates/a2w-engine/src/engine.rs:457-561 | no schedule takes more steps than the work counted at its start |
| Confluence.ReachedLogOk | crates/a2w-engine/src/engine.rs:657-734 | in every schedule a node's events are one lone Finished, or Started, failed attempts up to the maximum and one terminal event, and no node starts before each producer recorded its last event |
| Confluence.FailureBlocksWalk | crates/a2w-engine/src/engine.rs:809-816 | everything on a walk behind a stopped node is blocked, unless hydrated |
| Confluence.NothingDownstreamStarts | crates/a2w-engine/src/engine.rs:550-556 | after a Stop failure nothing downstream of the failed node ever records an event |
| Traces.TracesAreExact | crates/a2w-engine/src/engine.rs:657-804 | in every state of every schedule the events of a node are known to the last field: resumed, unreachable, starved, or started with its input, one numbered failure for each failed attempt where several are allowed, and the closing event of the attempt that decides |
| Traces.TracesAgree | crates/a2w-engine/src/engine.rs:657-804 | two schedules of one job leave the same events of every node that ends in both |
| Traces.LogOpens | crates/a2w-engine/src/engine.rs:345-454 | the log opens with one event for each hydrated node and then one for each unreachable one, in order of declaration |
| Resume.FinalOutputsStamped | crates/a2w-engine/src/engine.rs:687-702 | every output item's source is its node and index, whatever the executor set |
| Resume.FanInIsExact | crates/a2w-engine/src/engine.rs:574-612 | a node's input holds exactly the items its producers emitted on connected ports, each once, and each item's source leads back to it in the outputs |
| Resume.FanInIsOrdered | crates/a2w-engine/src/engine.rs:587-611 | of two items of an input the earlier one comes from the producer that is first code point by code point, or on the smaller port of the same producer, or earlier on the same port |
| Resume.TriggerInputIs | crates/a2w-engine/src/engine.rs:574-586 | the trigger receives the start values in order, on port 0 and without lineage |
| Strings.StrLeMeans | crates/a2w-engine/src/engine.rs:587-593 | a string comes before another exactly if it begins it or has the smaller character where they first differ |
| Workflows.TriggerIsFirst | crates/a2w-engine/src/engine.rs:328-334 | the trigger is the first node declared that is a webhook or schedule trigger |
| Workflows.PortsOf | crates/a2w-ir/src/node.rs:60-92 | branch, loop and approval have two ports, a switch as many as it needs, every other kind one |
| Resume.ResumeEqualsFresh | crates/a2w-engine/src/engine.rs:345-407 | crash in any state of any schedule, hydrate any of the nodes finished so far with the trigger among them, unreachable ones with no output, and the resumed run has the outputs, lineage included, the first run was heading for, besides empty ones for those unreachable nodes |
| Resume.HydratedNeverRuns | crates/a2w-engine/src/engine.rs:345-349 | no schedule of a resumed run starts a hydrated node |
| Resume.ResumeWithoutTrigger | crates/a2w-engine/src/engine.rs:350-356 | a resume that re-runs a pass-through trigger reproduces its output if and only if the first run had no input |
| Waves.WaveIsNextDepth | crates/a2w-engine/src/engine.rs:457-470 | once all nodes up to a depth are done, the runnable nodes are those whose longest walk from the trigger is one longer |
| Waves.LastWaveHasLongestWalk | crates/a2w-engine/src/engine.rs:457-470 | the number of waves is the number of nodes on the longest walk from the trigger |
| Waves.FreshWaves | crates/a2w-engine/src/engine.rs:457-470 | wave by wave a fresh run does the nodes of the next depth |
| Waves.SegmentIsWave | crates/a2w-engine/src/engine.rs:457-561 | what any schedule logs between two moments at rest is one wave, with events of exactly the nodes that ended in between and the complete trace of each |
| Waves.StopIsUnique | crates/a2w-engine/src/engine.rs:544-560 | at most one wave is the first with a failure, and at most one of its nodes the first declared |
| Engine.ReachableFrom | crates/a2w-engine/src/engine.rs:417-437 | the search with an explicit stack returns exactly the nodes a walk from the trigger reaches |
| Engine.IncomingEdges | crates/a2w-engine/src/engine.rs:296-323 | the index holds for every node its collapsed edge list |
| Engine.GatherInput | crates/a2w-engine/src/engine.rs:574-612 | the gathering loop returns the trigger's root items, or the fan-in of the sorted edges |
| Engine.EventLog.Record | crates/a2w-engine/src/event.rs:77-86 | recording appends one event and changes nothing else |
| Engine.Execution.ExecuteWithRetry | crates/a2w-engine/src/engine.rs:745-804 | retries as the policy and mode allow, recording each failed attempt; the reply is the first success or the last error |
| Engine.Execution.RunOneNode | crates/a2w-engine/src/engine.rs:617-734 | runs one admitted node from Started to its terminal event and returns its denoted outcome |
| Engine.Execution.Admit | crates/a2w-engine/src/engine.rs:496-517 | gathers a runnable node's input, and records a no-input skip exactly when it has producers and received nothing |
| Engine.Execution.GatherWave | crates/a2w-engine/src/engine.rs:494-527 | splits the runnable nodes into skips and work in order of declaration, with every input taken from earlier waves |
| Engine.Execution.RunQueue | crates/a2w-engine/src/engine.rs:536-542 | runs the whole wave before anything is committed |
| Engine.Execution.CommitSkipped | crates/a2w-engine/src/engine.rs:529-534 | skipped nodes get empty outputs and are done |
| Engine.Execution.CommitResults | crates/a2w-engine/src/engine.rs:544-560 | commits outcomes in wave order up to the first failure, which it reports, leaving what was committed before it |
| Engine.Execution.Hydrate | crates/a2w-engine/src/engine.rs:345-407 | reuses re-stamped outputs and logs one event for each, or aborts on the first corrupt record, with what was hydrated before it in the log |
| Engine.Execution.MarkUnreached | crates/a2w-engine/src/engine.rs:438-454 | marks and logs exactly the nodes the trigger does not reach, keeping the count of remaining nodes right |
| Engine.Execution.Wave | crates/a2w-engine/src/engine.rs:457-561 | one wave finishes exactly the runnable nodes and logs the complete trace of each and nothing else; it reports the first declared node that fails |
| Engine.Execution.RunAll | crates/a2w-engine/src/engine.rs:457-561 | the loop ends with every node done, or with the first failure of the first wave that has one; what it logged is cut into the waves of the run |
| Engine.Engine.constructor | crates/a2w-engine/src/engine.rs:210-215 | a permit bound of zero is raised to one |
| Engine.Engine.MissingExecutor | crates/a2w-engine/src/engine.rs:290-294 | finds the kind of the first node without an executor, if there is one |
| Engine.Engine.RunWithId | crates/a2w-engine/src/engine.rs:254-569 | refuses in the source's order, without events unless a record is corrupt; otherwise the run is a schedule of the step relation whose log is cut into its waves, succeeds exactly if the denotation completes, and reports its outputs or the first failure of the first wave that has one; a fresh completing run takes one wave per node of the longest walk, each holding the nodes of its depth |
| Engine.RunIsDetermined | crates/a2w-engine/src/engine.rs:544-560 | two runs of one job, under any two permit bounds, report the same outputs or the same failure of the same node |
| Engine.FreshRunWaves | crates/a2w-engine/src/engine.rs:457-470 | the log of a fresh completing run is cut into as many waves as the longest walk has nodes, wave k with the nodes of depth k |
| Executors.FirstMatch | crates/a2w-nodes/src/switch.rs:46-73 | the port of the first case whose value equals the resolved one, if any |
| Executors.ExecuteBranch | crates/a2w-nodes/src/branch.rs:134-144 | succeeds exactly if every item can be handled, and then emits item by item what the condition decides; malformed parameters are a parameter error |
| Executors.ExecuteSwitch | crates/a2w-nodes/src/switch.rs:82-90 | the same for first-match routing with its default port |
| Executors.ExecuteLoop | crates/a2w-nodes/src/loop_node.rs:51-105 | the same for the fan-out on two ports |
| Executors.UnrollItem | crates/a2w-nodes/src/loop_node.rs:55-102 | one item per element and one summary, or the item itself when there is no array |
| Executors.ExecuteTransform | crates/a2w-nodes/src/transform.rs:32-74 | the same for the rendered fields laid over each object item; the error is that of the first item that fails, a parameter error if it is no object and a run-time error if a field cannot be rendered |
| Executors.MergeAnswers | crates/a2w-nodes/src/merge.rs:23-31 | Merge passes every payload on and resets its port |
| Executors.BranchPartitions | crates/a2w-nodes/src/branch.rs:92-144 | Branch loses and repeats nothing: port 0 gets exactly the payloads that satisfy the condition, port 1 the rest |
| Executors.SwitchRoutes | crates/a2w-nodes/src/switch.rs:46-73 | the first matching case wins, and without a match the default port |
| Executors.UnmatchedGoesPast | crates/a2w-nodes/src/switch.rs:46-73 | without a default an unmatched item goes to a port above every case, 0 if there are none |
| Executors.LoopFansOut | crates/a2w-nodes/src/loop_node.rs:54-103 | element by element on port 0, in order and each with its index, then one summary with the count on port 1 |
| Executors.PureIsPerItem | README.md:155-158 | an engine with these executors is per-item at every node, attempt and input |
| NodeParameters.BranchMeans | crates/a2w-nodes/src/branch.rs:62-144 | from the JSON parameters: an item goes to port 0 exactly if the pointer leads to a value that is neither null, false, zero nor empty (`truthy` and the shorthand), is `value` (`eq`), is not `value` (`ne`), or has it as substring, element or key (`contains`); malformed conditions handle nothing |
| NodeParameters.SwitchMeans | crates/a2w-nodes/src/switch.rs:40-73 | from the JSON parameters: an item goes to the port of the first case whose value is the one found, else to `default_port`, else one above the highest case port, or 0 without cases; malformed parameters handle nothing |
| NodeParameters.LoopMeans | crates/a2w-nodes/src/loop_node.rs:40-105 | from the JSON parameters: one object with index, value and parent for each element on port 0, then one with parent and count on port 1; what is no array passes |
| NodeParameters.TransformMeans | crates/a2w-nodes/src/transform.rs:32-74 | from the JSON parameters: each field of `set` is rendered against the item as it came and wins over a field of the same name, all other fields stay; no object, or a field that cannot be rendered, fails the node |
| NodeParameters.OthersPass | crates/a2w-nodes/src/merge.rs:23-31 | merge and the triggers pass each item on, on port 0 |
| Additivity.Additive | README.md:155-158 | a run on a split input is clean if and only if the runs on its parts are, and then every node's multiset of (payload, port) is the sum of theirs |
| Additivity.CompletesIffClean | crates/a2w-engine/src/engine.rs:809-816 | without a Continue policy a run completes if and only if every payload that arrives anywhere can be handled |
| Additivity.CompletingRunsAddUp | README.md:155-158 | without a Continue policy the whole completes if and only if its parts do, and then adds up at every node |
| Additivity.AddsUpUnlessClash | crates/a2w-engine/src/engine.rs:809-816 | in completing runs, a node whose producers add up adds up itself exactly unless it has the Continue policy and one part is handled with something emitted while the other is not handled |
| Additivity.AddsUpExactly | README.md:155-158 | three completing runs add up at every node if and only if no such clash happens at any reached node with the Continue policy |
| Additivity.EmptyInputEmitsNothing | crates/a2w-engine/src/engine.rs:502-516 | every run on no input is clean, completes and emits nothing anywhere, whatever the policies |
| Additivity.PermutationInvariant | README.md:155-158 | reordering the input, of any workflow and whether or not the run completes, brings every node to the same end (outputs, failed, blocked or unreached) with the same emissions |
| Additivity.DuplicationScales | README.md:155-158 | k copies of the input give every node k times its emissions, of any workflow and whether or not the run completes; for k above zero every node comes to the same end |
| FragileWorkflow.CompletingIsNotEnough | README.md:155-158 | a concrete workflow whose three runs complete and whose emissions do not add up |
| Composition.ComposeSequential | crates/a2w-skills/src/compose.rs:50-152 | returns the spliced graph and the observe node with `b_` before it, or the first refusal in the source's order |
| Composition.JoinedNodes | crates/a2w-skills/src/compose.rs:56-122 | the nodes of the splice are those of the left workflow with `a_` before the id and those of the right one but its trigger with `b_`, in order, each with its own kind, params, retry and error policy |
| Composition.JoinedConnections | crates/a2w-skills/src/compose.rs:66-137 | its connections are exactly the copies of the left ones, the copies of the right ones that do not leave the trigger, and one on port 0 from each left node without outgoing connection to each node the right trigger fed |
| Composition.RefusalMeans | crates/a2w-skills/src/compose.rs:73-149 | the refusal is the first that applies: no left terminal, no right trigger, nothing behind it, rejected by the validator |
| Composition.SplicedConnections | crates/a2w-skills/src/compose.rs:123-137 | the connections of the splice are the left ones, the right ones not out of the trigger, and every terminal to every entry |
| Composition.SpliceIsValid | crates/a2w-skills/src/compose.rs:139-149 | splicing two valid workflows gives a valid one, with the left trigger |
| CompositionMeaning.CompositionIsSequencing | crates/a2w-skills/src/compose.rs:35-48 | in every run and under every policy: the splice completes, and is clean, if and only if both parts are; each left node comes to the same end and emits exactly the list it emits alone; if the left part completes each right node comes to the same end and emits the multiset it emits on what the left terminals put on port 0, and if not no right node runs |
| CopiedRuns.LeftRunsAsAlone | crates/a2w-skills/src/compose.rs:154-166 | for arbitrary executors, flaky ones included, that answer a copied node as the original attempt by attempt: every left node of the splice comes to the same end with the same items, renamed, as in a run of the left workflow alone |
| CompositionMeaning.PureSequenced | crates/a2w-skills/src/compose.rs:154-166 | the theorem applies to the pure executors, for which a prefix changes nothing |
| Operators.DecimalInjective | crates/a2w-search/src/operators.rs:179-181 | two counters written in decimal are the same counter |
| Operators.DecimalMeans | crates/a2w-search/src/operators.rs:175-187 | a counter is written in digits, without a leading zero, that read as its value |
| Operators.UniqueId | crates/a2w-search/src/operators.rs:175-187 | the loop ends with an identifier no node has: the base, or the base with the smallest number from 1 that is free |
| Operators.InsertPassthrough | crates/a2w-search/src/operators.rs:72-91 | one candidate per connection, in order: a new Transform without parameters behind the other nodes, named after the two ends, the connection led to it in place, and one more connection on to the target; everything else unchanged |
| Operators.RemovePassthrough | crates/a2w-search/src/operators.rs:105-146 | one candidate, in order of declaration, for each Transform that is not frozen, sets nothing and has connections in and out: without the node, the connections that pass it by in order, then each way through it |
| Operators.Bypasses | crates/a2w-search/src/operators.rs:134-143 | the added connections are each predecessor's port to each successor's target |
| CanonicalForms.CanonicalOrderFree | crates/a2w-search/src/lib.rs:317-333 | declaring the same nodes and connections in another order gives the same canonical form |
| CanonicalForms.FormOfTwo | crates/a2w-search/src/lib.rs:317-333 | the form of two nodes and two connections, written out |
| CanonicalForms.FormSplits | crates/a2w-search/src/lib.rs:317-333 | equal forms always mean the same nodes up to order |
| CanonicalForms.FormTellsApart | crates/a2w-search/src/lib.rs:317-333 | where no connection names an identifier with a separator, two forms are equal if and only if the workflows are the same up to order of declaration |
| CollidingForms.FormsCollide | crates/a2w-search/src/lib.rs:317-333 | with separators in identifiers: two valid workflows with one form, of which one runs a node that the other never reaches |
| Detours.FanInWithDetour | crates/a2w-engine/src/engine.rs:587-611 | what enters a node directly and through the detour is its original fan-in plus the edges that exist both ways |
| Detours.DetourIsInvisible | crates/a2w-search/src/operators.rs:62-64 | in every run rerouting through a node that passes items on changes no other node's end or emissions, nor whether the run completes, when no edge exists both ways |
| Detours.DetourKeepsSupport | crates/a2w-search/src/operators.rs:62-64 | in every run, whatever the policies and with edges both ways or not, each original node comes to the same end and emits the same things, and the run completes, and is clean, as before |
| Detours.ExtraArrives | crates/a2w-engine/src/engine.rs:311-322 | a node whose producers have come to an end, and above which nothing that came both ways was noticed, receives on top exactly what its edges that exist both ways carry |
| Detours.DetourIsExact | crates/a2w-search/src/operators.rs:62-64 | in every run all emissions are kept if every node to which something came both ways emits nothing, and only then when nodes emit something for whatever they handle |
| Detours.InputsAreExact | crates/a2w-search/src/operators.rs:62-64 | in every run all nodes whose producers have come to an end keep their input if and only if nothing comes to one of them both ways |
| PassthroughMeaning.InsertedValid | crates/a2w-search/src/operators.rs:72-91 | inserting on any connection of a valid workflow gives a valid workflow with the same trigger |
| PassthroughMeaning.InsertIsNoOp | crates/a2w-search/src/operators.rs:62-64 | in every run inserting on a connection that is not repeated changes no original node's end or emissions, nor whether the run completes |
| PassthroughMeaning.InsertOnRepeated | crates/a2w-engine/src/engine.rs:311-322 | inserting on a repeated connection delivers what the connection carries to its target once more, in every run in which the target's producers come to an end |
| PassthroughMeaning.InsertIsExact | crates/a2w-search/src/operators.rs:62-64 | in every run inserting changes neither whether it completes nor any node's end or the things it emits, and keeps how often every node emits them if and only if the connection is not repeated, or carries nothing, or its target emits nothing |
| RepeatedConnection.RepeatedConnectionDoubles | crates/a2w-search/src/operators.rs:62-64 | on a concrete workflow with a repeated connection the one item arrives twice after inserting, and emissions change |
| RepeatedConnection.RemovingWithBypassLosesOne | crates/a2w-search/src/operators.rs:92-94 | on a concrete workflow whose removable node is bypassed the item that came twice comes once after removing, and emissions change |
| RepeatedConnection.DroppedEitherWay | crates/a2w-search/src/operators.rs:62-64 | on the same workflow started with an item the target drops, the item arrives twice after inserting and no emission changes |
| PassthroughMeaning.PureInserted | crates/a2w-search/src/operators.rs:77-79 | for the pure executors the inserted node passes every item on |
| PassthroughMeaning.EmptyPassthroughMeaning | crates/a2w-search/src/operators.rs:165-171 | an empty `set` passes every item when absent, and exactly the object items when written as `{}` |
| PassthroughMeaning.RemovedConnections | crates/a2w-search/src/operators.rs:130-143 | after removal a connection is there exactly if it was there or led through the removed node |
| PassthroughMeaning.RemovedValid | crates/a2w-search/src/operators.rs:105-146 | removing a Transform from a valid workflow gives a valid workflow with the same trigger |
| PassthroughMeaning.RemoveIsNoOp | crates/a2w-search/src/operators.rs:92-94 | in every run removing a node that passes on what it receives changes no other node's end or emissions, nor whether the run completes, when no bypass exists |
| PassthroughMeaning.RemoveWithBypass | crates/a2w-search/src/operators.rs:134-143 | a consumer whose producers have come to an end, and above which nothing that came both ways was noticed, loses exactly one copy of what came to it both ways |
| PassthroughMeaning.RemoveIsExact | crates/a2w-search/src/operators.rs:92-94 | in every run removing changes neither whether it completes nor any other node's end or the things it emits, and keeps how often every other node emits them if and only if every node to which something came both ways emits nothing |
| PassthroughMeaning.PureIsProductive | crates/a2w-nodes/src/transform.rs:32-74 | the pure executors emit something for every item they handle |
| PassthroughMeaning.PureRemoved | crates/a2w-search/src/operators.rs:108-114 | every candidate of the operator is such a removal, if a node with `{}` receives only objects |
| PassthroughMeaning.RemoveUndoesInsert | crates/a2w-search/src/operators.rs:92-94 | removing the node just inserted restores the nodes, the connections up to order, and the canonical form |
| CriticalPaths.Choose | crates/a2w-optimizer/src/graph.rs:43-54 | picks the first listed of the incoming neighbours that no other exceeds |
| CriticalPaths.FillTable | crates/a2w-optimizer/src/graph.rs:41-57 | every entry is the saturated best score over the node's incoming neighbours, the first listed of the best |
| CriticalPaths.EntryBoundsPaths | crates/a2w-optimizer/src/graph.rs:32-37 | no path into a node has a higher latency than its entry, nor a higher (latency, count) unless a sum saturates |
| CriticalPaths.ChainIsPath | crates/a2w-optimizer/src/graph.rs:71-79 | the chain of predecessors is a path from a root whose score is the entry |
| CriticalPaths.WalkBack | crates/a2w-optimizer/src/graph.rs:71-79 | the cursor walk ends and returns that chain |
| CriticalPaths.LongestLatencyPath | crates/a2w-optimizer/src/graph.rs:21-80 | the result is a root-to-sink path of maximal latency, lexicographically maximal in (latency, count) unless a sum saturates, and then it ends at the first such node of the sort and comes from the first such neighbour listed at every step; empty for a cyclic or empty graph |
| CriticalPaths.UnsaturatedIsExact | crates/a2w-optimizer/src/graph.rs:55 | the answer's latency is below the counter's maximum if and only if every path's is, and then the answer is lexicographically maximal |
| CriticalPaths.SmallTotalFits | crates/a2w-optimizer/src/graph.rs:55 | no path's sum saturates if all latencies together fit the counter |
| CriticalPaths.WeightMeans | crates/a2w-optimizer/src/graph.rs:55 | the latency of a path is the sum over its nodes |
| CriticalPaths.SaturationLosesTheCount | crates/a2w-optimizer/src/graph.rs:55 | on a concrete valid workflow whose sums saturate a path with the same latency and more nodes is not found |
| Optimizer.SerialIndependentEdges | crates/a2w-optimizer/src/profile.rs:188-228 | lists in declaration order the connections whose target has one producer, no trigger, and does not read its input |
| Optimizer.IncomingEdges | crates/a2w-optimizer/src/optimize.rs:223-232 | the index holds every node's in-edges in declaration order |
| Optimizer.AnalyzeParallelize | crates/a2w-optimizer/src/optimize.rs:86-123 | one list of ops per qualifying edge: drop it, and connect the predecessor's producers; one exactly for each connection that is the only one into its target, leaves no trigger, and whose target does not read its input |
| Optimizer.SuggestionsMean | crates/a2w-optimizer/src/profile.rs:188-228 | there is one suggestion, in order of declaration, for each connection that is the only one into its target, leaves no trigger and whose target does not read its input, and for no other; it drops that connection and connects all producers of its source, port by port |
| Optimizer.Apply | crates/a2w-optimizer/src/optimize.rs:163-198 | applies removals and duplicate-free additions in order |
| Optimizer.AppliedMeans | crates/a2w-optimizer/src/optimize.rs:163-198 | a connection stands afterwards exactly if the last op about it adds it, or none removes one that was there; those never removed stay in front in their order, and what is added behind them is new to the list |
| Optimizer.ChosenAreRewired | crates/a2w-optimizer/src/optimize.rs:89-104 | any list of suggestions, in any order and with repetitions, rewires exactly the chosen dependents |
| Optimizer.StillValid | crates/a2w-optimizer/src/optimize.rs:163-198 | the rewritten workflow is valid and keeps its trigger |
| Optimizer.SameReachable | crates/a2w-optimizer/src/optimize.rs:86-104 | exactly the same nodes are reachable from the trigger |
| Optimizer.ParallelizeIsSafe | crates/a2w-optimizer/src/optimize.rs:86-104 | for every choice of suggestions the result is valid, reaches the same nodes, and each dependent has exactly its predecessor's original in-edges |
| Optimizer.Lengthen | crates/a2w-optimizer/src/optimize.rs:89-91 | every path of the rewritten workflow is a path of the original with nodes left out |
| Optimizer.NeverSlower | crates/a2w-optimizer/src/optimize.rs:106-110 | for all latencies the critical path of the rewritten workflow is not longer, nor unless a sum saturates as long on more nodes |
| BeamSearch.RanksIsTotal | crates/a2w-search/src/lib.rs:282-290 | the ranking is a total preorder and `better` is its strict part |
| BeamSearch.RanksMeans | crates/a2w-search/src/lib.rs:282-290 | higher score first, then fewer nodes, then the form that comes first |
| BeamSearch.Generate | crates/a2w-search/src/lib.rs:186-210 | offers every operator's candidates of every beam member in order |
| BeamSearch.OfferMeans | crates/a2w-search/src/lib.rs:191-208 | candidates are admissible, unseen and pairwise different in form, and no admissible unseen form is passed over |
| BeamSearch.CandidateMeans | crates/a2w-search/src/lib.rs:186-200 | a candidate is what some operator offers for its parent; it is admissible if the validator accepts it and every observed node is still in it |
| BeamSearch.ScoreAll | crates/a2w-search/src/lib.rs:221-229 | returns the entries of the candidates passed in, in order, with their forms added and counted, or stops exactly if one cannot be verified |
| BeamSearch.BatchIsFirst | crates/a2w-search/src/lib.rs:212-218 | a generation scores the candidates whose forms come first, as many as the cap allows or all; without a cap every admissible child of the beam has been seen afterwards |
| BeamSearch.BeamIsBest | crates/a2w-search/src/lib.rs:248-253 | the beam keeps as many as its width and at least one; whatever it leaves out has a lower score, or the same and more nodes, or the same and a form that comes later |
| BeamSearch.Generation | crates/a2w-search/src/lib.rs:183-258 | one round takes the state of the search to the next one: batch, entries, forms, best and beam; it goes on exactly if the batch is not empty and fails exactly if a candidate of it cannot be verified |
| BeamSearch.Evolve | crates/a2w-search/src/lib.rs:159-279 | refuses shared evidence and an unverifiable seed; otherwise the outcome is the state of the search after its last generation, which is the first that is the last allowed, found nothing new or reached a perfect score, with the certificate of the holdout; it fails only if a candidate it got to, or the winner on the holdout, cannot be verified |
| BeamSearch.OutcomeIsExact | crates/a2w-search/src/lib.rs:159-279 | a search has one outcome at most, and none if it meets something it cannot verify |
| BeamSearch.AfterIsSound | crates/a2w-search/src/lib.rs:183-258 | after any number of generations no form was scored twice, everything but the seed was validated and descends from it, the best is the greatest of everything scored, and the beam was scored |
| BeamSearch.OutcomeIsBest | crates/a2w-search/src/lib.rs:261-278 | every workflow scored has a lower score than the winner, or the same and more nodes, or the same and no earlier form; the count is that of the forms seen and within the caps, and fitness is not below the seed's |
| BeamSearch.OutcomeIsTimely | crates/a2w-search/src/lib.rs:183-278 | the search ends early only on a perfect score or when the last beam offered nothing new, and neither was so in any generation before; the overfit gap is the difference of the two certificates |
| BeamSearch.WinnerIsUnique | crates/a2w-search/src/lib.rs:231-246 | the winner is strictly better than every other workflow scored |
| Expressions.Parse | crates/a2w-expr/src/lib.rs:483-578 | a successful parse of an operand consumes at least one token |
| Expressions.ParsePath | crates/a2w-expr/src/lib.rs:639-701 | a path never gives tokens back |
| ExpressionParser.Parser.Top | crates/a2w-expr/src/lib.rs:473-482 | the parser computes the grammar function and leaves the depth at zero |
| ExpressionParser.Parser.Descend | crates/a2w-expr/src/lib.rs:443-455 | one level deeper, refused beyond 64 |
| ExpressionParser.Parser.OrExpr | crates/a2w-expr/src/lib.rs:483-493 | result and position are those of the grammar function, and the depth is restored |
| ExpressionParser.Parser.AndExpr | crates/a2w-expr/src/lib.rs:494-502 | the same one level tighter |
| ExpressionParser.Parser.NotExpr | crates/a2w-expr/src/lib.rs:503-512 | the same for the prefix level |
| ExpressionParser.Parser.CmpExpr | crates/a2w-expr/src/lib.rs:513-530 | the same for the comparison, which does not associate |
| ExpressionParser.Parser.AddExpr | crates/a2w-expr/src/lib.rs:531-544 | the same for sums |
| ExpressionParser.Parser.MulExpr | crates/a2w-expr/src/lib.rs:545-559 | the same for products |
| ExpressionParser.Parser.UnaryExpr | crates/a2w-expr/src/lib.rs:560-578 | the same for signs |
| ExpressionParser.Parser.AtomExpr | crates/a2w-expr/src/lib.rs:579-638 | the same for literals, calls and parentheses |
| ExpressionParser.Parser.ArgList | crates/a2w-expr/src/lib.rs:590-618 | the same for the arguments of a call |
| ExpressionParser.Parser.PathExpr | crates/a2w-expr/src/lib.rs:639-701 | the same for the steps of a path |
| ExpressionPrinter.OperandRoundTrip | crates/a2w-expr/src/lib.rs:483-638 | at every level an operand printed for that level parses back and leaves what follows, exactly if it nests within the depth left |
| ExpressionPrinter.ChainRoundTrip | crates/a2w-expr/src/lib.rs:531-544 | at a left-associative level parsing goes on behind the printed operand as if it had just been read |
| ExpressionPrinter.ParserInvertsPrinter | crates/a2w-expr/src/lib.rs:473-638 | parsing the minimal print gives the tree back exactly when it nests within 64, and the depth error otherwise |
| Precedence.TwoOperators | crates/a2w-expr/src/lib.rs:483-559 | for all two of the thirteen infix operators, on tokens: the tighter one takes the operand between them, of two as tight the left one, and comparisons do not chain |
| Precedence.NothingElseJoins | crates/a2w-expr/src/lib.rs:473-559 | any other token between two operands is a trailing token |
| Precedence.ParenthesesBind | crates/a2w-expr/src/lib.rs:620-632 | parentheses override both orders |
| Precedence.PrefixesBind | crates/a2w-expr/src/lib.rs:503-578 | minus binds tighter than every infix operator; not stands between the comparisons and `&&`, and cannot begin the right operand of anything tighter |
| Precedence.PrefixesNest | crates/a2w-expr/src/lib.rs:443-455 | 63 minus, not or plus signs in a row parse, 64 are too deep; plus leaves no node |
| Precedence.ParenthesesNest | crates/a2w-expr/src/lib.rs:443-455 | the same for parentheses and for calls inside calls |
| Precedence.AtomsParse | crates/a2w-expr/src/lib.rs:579-638 | what each literal token, an empty path and calls of none and two arguments become |
| Precedence.PathsParse | crates/a2w-expr/src/lib.rs:639-701 | a path of a field, an element and a key; an index beyond the range is refused, except the next number, which is cut off |
| Precedence.Refusals | crates/a2w-expr/src/lib.rs:579-701 | which refusal each broken atom, call and path meets |
| ExpressionImage.PrintingIsStable | crates/a2w-expr/src/lib.rs:443-458 | whatever parses has no more nodes than tokens, prints in no more tokens, and its print parses to the same tree |
| ExpressionImage.ImageIsExact | crates/a2w-expr/src/lib.rs:473-482 | the parser builds exactly the well-formed trees that nest within the bound |
| ExpressionLexer.Lexer.SkipWhitespace | crates/a2w-expr/src/lib.rs:145-153 | moves past leading white space and no further |
| ExpressionLexer.Lexer.Next | crates/a2w-expr/src/lib.rs:154-361 | the next token, error or end, and the position behind it, are those of the lexical function |
| ExpressionLexer.LexAll | crates/a2w-expr/src/lib.rs:421-441 | the token list is that of the lexical function, capped at 4096 |
| Lexemes.NextTokenMeans | crates/a2w-expr/src/lib.rs:154-361 | behind the white space, any text: the longest symbol of the table, a string with its escapes and cap, the longest number, the longest word with the three literal words, or an unexpected character |
| Lexemes.StringRead | crates/a2w-expr/src/lib.rs:253-301 | a string literal is read element by element, a backslash taking the next character along; it is refused as soon as 65536 elements are exceeded, and as unterminated at the end of the text |
| Lexemes.LexingMeans | crates/a2w-expr/src/lib.rs:421-441 | the tokens up to the end, or the first error, or a refusal at the 4097th token |
| ExpressionLexer.StringRoundTrip | crates/a2w-expr/src/lib.rs:253-301 | an escaped string reads back up to 65536 bytes and is refused beyond |
| ExpressionLexer.TokensRoundTrip | crates/a2w-expr/src/lib.rs:154-361 | tokens written with a space behind each lex back to themselves, up to the cap on their number, and are refused beyond |
| ExpressionLexer.TextRoundTrip | crates/a2w-expr/src/lib.rs:421-482 | an expression written as text reads back as the same tree exactly within the bounds on tokens and depth, with the matching error otherwise |
| CycleCheck.CheckSubWorkflowCycle | crates/a2w-server/src/handlers.rs:604-667 | the search ends; a cycle verdict carries a genuine closing walk from the new workflow of at most 21 members, a depth verdict a walk of 21 distinct workflows, a store failure a walk to the workflow that could not be looked up, and every reference listed before those taken leads to nothing wrong |
| CycleCheck.RefusalsAreRight | crates/a2w-server/src/handlers.rs:599-603 | the verdict is clean if and only if every reference chain has at most 20 workflows and the store answers for all of them |
| CycleCheck.VerdictIsUnique | crates/a2w-server/src/handlers.rs:604-667 | the references, in the order in which they are listed, and the answers of the store leave one verdict, with one path: the way to the first thing wrong |
| CycleCheck.CleanMeansNoCycle | crates/a2w-server/src/handlers.rs:599-603 | a clean verdict rules out every reachable reference cycle |
| CycleCheck.DescendKeeps | crates/a2w-server/src/handlers.rs:654-664 | following a reference keeps stack, path and explored children in step |
| CycleCheck.AscendKeeps | crates/a2w-server/src/handlers.rs:648-653 | leaving a workflow marks it explored to the depth it was met at |
| CycleCheck.DescendingIsWork | crates/a2w-server/src/handlers.rs:628-666 | although workflows are walked again, the work left strictly decreases |
| NestedRuns.LimitIsInvisible | crates/a2w-nodes/src/sub_workflow.rs:74-80 | a run that nests within six workflows ends under the limit of five as under any larger one |
| NestedRuns.DirectlyFed | crates/a2w-engine/src/engine.rs:574-612 | a node connected to the trigger receives an item in every run that is started with one |
| NestedRuns.FeedsThrough | crates/a2w-engine/src/engine.rs:574-612 | so does a node behind a fed one that must succeed and puts something on the connected port |
| NestedRuns.TooDeepNeverCompletes | crates/a2w-nodes/src/sub_workflow.rs:145-185 | a chain of calls one longer than the limit, each from a sub-workflow node that receives an item, never completes when it is started with at least one item |
| NestedRuns.CheckedChainsFail | crates/a2w-server/src/handlers.rs:599-603 | for every such chain of seven to twenty workflows the cycle check can only answer clean, and the run at the limit of five does not complete |
| DeepChains.AcceptedButRefused | crates/a2w-server/src/handlers.rs:599-603 | for every length from seven to twenty a concrete store whose nodes name the next workflow by id is accepted by the check and does not complete |
| DeepChains.NestsToTheLimit | crates/a2w-nodes/src/sub_workflow.rs:74-80 | on such a chain longer than the limit a run stacks exactly to the limit |
| NestedRuns.SelfCallNeverCompletes | crates/a2w-nodes/src/sub_workflow.rs:74-80 | a workflow that asks for itself from a node that receives an item ends, and fails, for every limit, when it is started with at least one item |
| NestedRuns.Nesting | crates/a2w-nodes/src/sub_workflow.rs:74-80 | the runs stacked on top of a run at some depth are at most the limit less that depth |
| NestedRuns.StartedDecides | crates/a2w-nodes/src/sub_workflow.rs:145-185 | a sub-workflow node ends as the run it starts decides, and fails if it starts none |
| NestedRuns.ReplyMeans | crates/a2w-nodes/src/sub_workflow.rs:73-190 | the depth is looked at first, then the parameters; the run that is started is of the requested workflow, in the same mode, one level deeper, on the explicit trigger input or else the payloads that arrived in order; it fails the node unless it is accepted and completes, and then gives what is made of its outputs |
| NestedRuns.StacksAreWithin | crates/a2w-nodes/src/sub_workflow.rs:141-151 | no stack of runs, each started by the one below before that one stops, is higher than the nesting computed for its lowest run |
| NestedRuns.HighestStack | crates/a2w-nodes/src/sub_workflow.rs:141-151 | and one stack is exactly as high |
| NestedRuns.ChainReaches | crates/a2w-nodes/src/sub_workflow.rs:74-80 | workflows that hand on to each other straight from their triggers stack as far as the chain goes, or exactly to the limit if it is longer |
| StoredWorkflows.ReferencesOf | crates/a2w-validator/src/lib.rs:37-62 | lists each node's references, the name and those of the workflow it carries inline, each once |
| StoredWorkflows.ReferencesInOrder | crates/a2w-validator/src/lib.rs:37-62 | the references come in order of first mention: node by node, and of one node its own name before those of the workflow it carries |
| StoredWorkflows.RequestMeans | crates/a2w-nodes/src/sub_workflow.rs:37-135 | from the JSON parameters: an inline workflow wins over a named one, an explicit trigger input is passed on, and a missing, unknown or malformed one is a parameter error |
| StoredWorkflows.ListedIsReferred | crates/a2w-validator/src/lib.rs:37-62 | listed are exactly the workflows named at any depth of inline workflows |
| StoredWorkflows.RequestStaysInside | crates/a2w-nodes/src/sub_workflow.rs:82-135 | what a node asks for is stored under a listed name, or carried inline with all its own references listed |
| StoredWorkflows.RequestFollowsReference | crates/a2w-nodes/src/sub_workflow.rs:82-135 | where every sub-workflow node names a workflow, a request leads to one that the reference list holds |
| StoredWorkflows.ExploredNests | crates/a2w-server/src/handlers.rs:604-667 | then a run nests no deeper than the chains of references the check explores |
| StoredWorkflows.ShallowRunsFreely | crates/a2w-server/src/handlers.rs:599-603 | so chains of up to six workflows never meet the limit of five |
| StoredWorkflows.StoredChainFails | crates/a2w-server/src/handlers.rs:599-603 | for every stored chain of seven to twenty workflows, with references read from the nodes' parameters, the check can only answer clean and no run started with an item completes |
| NestedRuns.SameOutcomes | crates/a2w-engine/src/engine.rs:643-655 | a run depends on its executors only through what they answer for its own nodes |
| Similarity.CauchySchwarz | crates/a2w-skills/src/signature.rs:102-121 | the square of the dot product is at most the product of the sums of squares |
| Similarity.HistogramCosine | crates/a2w-skills/src/signature.rs:102-121 | the loops compute the cosine, zero when a norm is |
| Similarity.CosineBounded | crates/a2w-skills/src/signature.rs:102-121 | the cosine of two histograms lies between 0 and 1 |
| Similarity.JaccardIsOne | crates/a2w-skills/src/signature.rs:86-99 | token overlap is full exactly for equal sets |
| Similarity.SimilarityIsBounded | crates/a2w-skills/src/signature.rs:60-75 | similarity lies between 0 and 1 and is symmetric |
| Similarity.SelfSimilarity | crates/a2w-skills/src/signature.rs:60-75 | a signature is fully similar to itself exactly unless its histogram lists kinds and counts none |
| Similarity.SimilarityMeans | crates/a2w-skills/src/signature.rs:60-121 | seven tenths of the share of common tokens and three tenths of the cosine of the counts, summed over kinds in any order; the tokens alone where a histogram is empty, and no cosine where one counts nothing |

## Left out

- Parallel execution inside a wave: the engine's methods run a wave one node at a time; the interleavings are those of the step relation, where each step is atomic.
- Evaluation of expressions (`eval`, `call_builtin`, `render`): they would add easy members; templates are a parameter of the Transform model.
- Run identifiers, latencies, call and token counts, backoff sleeps and cancellation: nothing proved depends on them.
- Texts of error messages and parse offsets: errors keep their kind only, so a failure is compared by kind and not by wording.
- The validator's per-kind parameter checks and warnings: its verdict is a parameter that implies the structural conditions.
- HTTP, MCP, LLM, wait, approval and code nodes: the engine theorems cover them as arbitrary executors, the per-item theorems do not.
- The order in which a nested run's terminal outputs are listed: the source walks a hash map, the model takes it from a parameter.
- Nesting through inline sub-workflows: `StoredWorkflows.ExploredNests` and what follows from it are about stores whose nodes name their workflows, since the reference check does not count inline levels.
- Owner checks, credentials and the renaming of inline workflows in `sub_workflow.rs`: access policy.
- `SetTransformField` in `operators.rs` and `adapt` in `compose.rs`: easy members.
- The dead-node suggestion and the gain estimate of `analyze`: informational, without ops.
- The notation of JSON numbers: they are reals, so 1 and 1.0 are equal and a port written 1.0 is read as 1, where the source tells integers from floats.
- Parameter structures written as JSON arrays: the derived deserializer would take the fields by position, the model refuses them.
- Rounding of floating-point numbers, and number syntax beyond which characters a lexeme takes.
- Tokenizing of queries in `signature.rs`: text normalisation.
- Detours.DetourIsInvisible: speaks of multisets of (payload, port), because a new producer identifier can change the order in which a consumer gathers its input.
- CompositionMeaning.CompositionIsSequencing: gives the right-hand nodes multisets only, for the same reason.
- CriticalPaths.LongestLatencyPath: takes the topological order and the lists of incoming neighbours from the graph library as given.
- BeamSearch.Evolve: the disjointness of the two plans is a parameter.
