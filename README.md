# coordination-layer, modelled in Dafny

This project models the deterministic core of the coordination layer. The
core turns a prompt and a set of adapters into an execution plan. It turns
the plan into an execution envelope, runs the envelope as a dry-run trace,
and guards each step with validators, policies and registries. It also
covers the runtime pieces around that pipeline and the tools that work on
the audit trail.

Modules, one per source file:

- `model_layer` pipeline:
  - `Planner` (`model-layer/model_layer/planner/planner.py`) chooses nodes
    for the `single`, `fanout` and `verify` strategies.
  - `EnvelopeBuilder` (`model-layer/model_layer/orchestrator/orchestrator.py`)
    checks a plan and builds the envelope: one step per node, in sorted
    order, with a content-derived envelope id.
  - `Executor` (`model-layer/model_layer/executor/executor.py`) checks the
    envelope id, simulates every step and computes per-group quorum.
  - `Pipeline` links the builder and the executor.
- Earlier planning layer:
  - `Strategies` (`model-layer/planner/strategies.py`).
  - `AutoPlanner` (`model-layer/planner/planner.py`), the automatic strategy
    choice.
  - `StepOrchestrator` (`model-layer/orchestrator/orchestrator.py`), the
    numbered-step envelope.
- Gatekeepers:
  - `PlanValidator` (`model-layer/tools/validate_execution_plan.py`).
  - `AdapterAcceptance` (`model-layer/tools/validate_adapter.py`).
- ct-runtime:
  - `RuntimePolicy`, the first-match policy rules.
  - `Registration`, `AgentRegister` and `CtServer`: agent registration,
    where repeating an accepted request is refused as a replay.
  - `Lifecycle`, a class holding the component registry and its state
    machine.
  - `Observability`, staleness and drift reports.
  - `Readiness`, the readiness verdict.
- Rules and claims:
  - `MatchRules` and `ResolveOutcome` (`rules/`).
  - `ClaimValidator` (`tools/learn/validate/validators.py`).
- Audit tools:
  - `Certgen`, the certificate and its Markdown rendering
    (`certgen/generate.py`).
  - `CaptureExtract`, which turns audit entries into captures
    (`tools/capture/extract_from_audit.py`).
- Shared modules:
  - `Wrappers`.
  - `JsonValues`: JSON-like values with Python truthiness, `dict.get`,
    `int` and hashability.
  - `Digest`: the canonical hash, taken as a parameter.
  - `Text`: ASCII lower-casing, `find` and `strip`.
  - `StringOrder`: `sorted` on strings, and de-duplication.
  - `Seqs`: map over a sequence, and `take`.
  - `Adapters`: adapter descriptors.

Modelling decisions:

- Python exceptions become `Err` values of a `Result`, with one error
  constructor per `raise` in the source.
- Inputs that Python receives as untyped JSON are `Json` values. Each type
  check the source makes (`isinstance`, `dict.get` defaults, truthiness) is
  written out.
- The SHA-256 digest over canonical JSON is a parameter `h: Hasher`.
  Collision freedom (`Digest.Injective`) is a precondition, and only the
  lemmas that need it take it. Where a lemma needs an id to have the
  64-hex-digit shape (`Digest.IsHexDigest`), it assumes that of the one id
  it is about, never of every output.
- Python's seeded `random.Random` is a parameter `draw`. Its only assumed
  property is that every draw lies in the requested range.
- Clocks, files, HTTP and subprocesses also become parameters.
- Where a source function mutates an object in place, the model uses
  imperative Dafny:
  - `Lifecycle.Runtime` is a class whose methods update its registry.
  - The loops of the builder, the executor, the quorum count and the
    certificate collection are methods, each proved equal to the function
    that specifies it.

## Model

| member | source | states |
|---|---|---|
| Planner.SeedOf | model-layer/model_layer/planner/planner.py:42-46 | An absent seed becomes 0. An integer seed of at least 0 is kept. Anything else is an error. |
| Planner.CommonChecks | model-layer/model_layer/planner/planner.py:37-55 | Accepts exactly when the prompt is a string, there are adapters, the seed is valid, the strategy is known and any fanout is an integer in 1..MAX_FANOUT. A non-string prompt is reported first, then the empty adapter list. |
| Planner.FanoutPick | model-layer/model_layer/planner/planner.py:75-77 | Each random pick is one of the pool's adapter ids. |
| Planner.SinglePlan | model-layer/model_layer/planner/planner.py:59-62 | Single succeeds exactly when no quorum is given. Its one node is the adapter at seed modulo the adapter count. |
| Planner.FanoutSelection | model-layer/model_layer/planner/planner.py:74-77 | Exactly `count` picks, the k-th being the k-th draw, each in the pool. |
| Planner.FanoutPlan | model-layer/model_layer/planner/planner.py:63-77 | Fanout succeeds exactly when no quorum is given. It has `fanout` nodes (default: one per adapter), each a known adapter id, and records no quorum. |
| Planner.CyclicPrefix | model-layer/model_layer/planner/planner.py:87-89 | Cycling through the pool for `q` at most the pool size yields the first `q` ids. |
| Planner.VerifyPlan | model-layer/model_layer/planner/planner.py:78-89 | Verify succeeds exactly when the quorum is an integer in 1..adapter count. Its nodes are the first `quorum` adapter ids, and the quorum is recorded. |
| Planner.PlanFor | model-layer/model_layer/planner/planner.py:25-99 | The plan is produced exactly for valid requests. It keeps the strategy and the recorded seed, and the plan id hashes prompt, strategy and seed. A quorum key appears only for verify. The nodes are as each strategy promises. |
| Planner.FanoutNodes | model-layer/model_layer/planner/planner.py:72-77 | The loop appends exactly the n draws, in order. |
| Planner.BuildExecutionPlan | model-layer/model_layer/planner/planner.py:25-99 | The method returns exactly `PlanFor`. |
| Planner.PlanIdIgnoresAdapters | model-layer/model_layer/planner/planner.py:91-92 | The plan id does not depend on the adapters, fanout or quorum. |
| Planner.VerifyIgnoresSeed | model-layer/model_layer/planner/planner.py:86-89 | A verify plan's nodes do not depend on the seed. |
| Planner.FanoutBoundsRejected | model-layer/model_layer/planner/planner.py:51-55 | A fanout below 1 or above MAX_FANOUT is rejected with its own error, for every strategy. |
| Planner.QuorumOnlyForVerify | model-layer/model_layer/planner/planner.py:59-65 | A quorum given with single or fanout is rejected, whatever its value. |
| EnvelopeBuilder.StepJson | model-layer/model_layer/orchestrator/orchestrator.py:53-59 | A step dict carries node, adapter (the node id), mode "dry-run", and `timeout_ms` exactly when the plan has one. It has no id. |
| EnvelopeBuilder.EnvelopeJson | model-layer/model_layer/orchestrator/orchestrator.py:63-67 | The envelope dict has exactly the keys plan_id, steps and envelope_id. |
| EnvelopeBuilder.StructuralChecks | model-layer/model_layer/orchestrator/orchestrator.py:27-38 | Passes exactly for a dict with strategy and nodes, where nodes is a non-empty list of hashable, pairwise distinct values. |
| EnvelopeBuilder.FirstUnknown | model-layer/model_layer/orchestrator/orchestrator.py:43-45 | Finds no node exactly when every node is a known adapter id. Otherwise it finds the first unknown one. |
| EnvelopeBuilder.StepsFor | model-layer/model_layer/orchestrator/orchestrator.py:50-60 | One step per sorted node, in order, carrying the plan's timeout when it is not None. |
| EnvelopeBuilder.EnvelopePlanId | model-layer/model_layer/orchestrator/orchestrator.py:62 | A truthy plan_id is kept. Otherwise the plan's own digest is used. |
| EnvelopeBuilder.EnvelopeFor | model-layer/model_layer/orchestrator/orchestrator.py:26-68 | The envelope is built exactly when the structural checks pass and every node names a known adapter. |
| EnvelopeBuilder.EnvelopeShape | model-layer/model_layer/orchestrator/orchestrator.py:43-67 | One step per node, sorted, a permutation of the plan's nodes, each on a known adapter with the plan's timeout. The envelope id hashes the plan id and the step nodes. |
| EnvelopeBuilder.BuildExecutionEnvelope | model-layer/model_layer/orchestrator/orchestrator.py:26-68 | The method returns exactly `EnvelopeFor`. |
| EnvelopeBuilder.DistinctCounts | model-layer/model_layer/orchestrator/orchestrator.py:37 | `len(set(nodes)) == len(nodes)` holds exactly when no node occurs twice. |
| EnvelopeBuilder.DistinctPermutation | model-layer/model_layer/orchestrator/orchestrator.py:37 | Distinctness survives reordering. |
| EnvelopeBuilder.PermutedNodesAccepted | model-layer/model_layer/orchestrator/orchestrator.py:27-45 | A plan accepted with one node order is accepted with any other. |
| EnvelopeBuilder.SortedNodesPermutation | model-layer/model_layer/orchestrator/orchestrator.py:48 | Sorting makes the node order irrelevant. |
| EnvelopeBuilder.NodeOrderIrrelevant | model-layer/model_layer/orchestrator/orchestrator.py:48-67 | Reordering a plan's nodes leaves the steps unchanged. With a truthy plan id, the envelope id is unchanged too. |
| EnvelopeBuilder.StepNodesOf | model-layer/model_layer/orchestrator/orchestrator.py:66 | The nodes of the built steps are the sorted nodes. |
| EnvelopeBuilder.EnvelopeIdForInjective | model-layer/model_layer/orchestrator/orchestrator.py:66 | With a collision-free digest, equal envelope ids mean equal plan ids and equal node lists. |
| EnvelopeBuilder.EnvelopeIdBindsNodes | model-layer/model_layer/orchestrator/orchestrator.py:62-67 | Two accepted plans with the same envelope id have the same plan id and the same step nodes, in order. |
| Executor.StepId | model-layer/model_layer/executor/executor.py:33 | The step id: a truthy `id` is kept, otherwise the step's own digest is used. |
| Executor.Simulate | model-layer/model_layer/executor/executor.py:21-55 | Fails exactly when the duration or the timeout is not an integer. A step times out exactly when it has a timeout and the duration exceeds it. A timed-out step has no result or payload hash. Otherwise the result hashes id and payload, and the payload hash hashes the payload. |
| Executor.StepOutcome | model-layer/model_layer/executor/executor.py:114-118 | A step is accepted exactly when it simulates and its truthy group is hashable, since filing it into the groups dict needs a hashable key. |
| Executor.RunStepsMeaning | model-layer/model_layer/executor/executor.py:107-118 | The run succeeds exactly when every step does. It keeps one trace per step in order, and otherwise reports the first failing step's error. |
| Executor.RunStepsOk | model-layer/model_layer/executor/executor.py:111-115 | The success half of `RunStepsMeaning`, by induction on the steps. |
| Executor.RunStepsFirstError | model-layer/model_layer/executor/executor.py:111-115 | The failure half of `RunStepsMeaning`, by induction on the steps. |
| Executor.Groups | model-layer/model_layer/executor/executor.py:108-118 | The groups dict has one key per truthy group value, holding that group's traces in order. |
| Executor.GroupKeys | model-layer/model_layer/executor/executor.py:116-118 | A value is a group key exactly when it is truthy and some trace has it. |
| Executor.Count | model-layer/model_layer/executor/executor.py:66-69 | A bucket count is positive exactly when some member has that payload hash, and never exceeds the member count. |
| Executor.CountIsMultiplicity | model-layer/model_layer/executor/executor.py:66-69 | Each bucket holds exactly the number of members whose payload hash it is, the multiplicity of that hash among the members. |
| Executor.QuorumOf | model-layer/model_layer/executor/executor.py:58-72 | One verdict per group: whether some payload hash has a strict majority. |
| Executor.FirstNonObject | model-layer/model_layer/executor/executor.py:98-100 | Finds the first step that is not a dict, or none when all are dicts. |
| Executor.EnvelopeChecks | model-layer/model_layer/executor/executor.py:86-105 | Passes exactly for a dict with envelope_id and a list of dict steps whose hex envelope id, if it has one, matches the recomputed id, and then yields those steps. Each failure is reported in ladder order: not a dict, envelope_id or steps missing, steps not a list, the first non-dict step by index, and the id mismatch. |
| Executor.ExecuteFor | model-layer/model_layer/executor/executor.py:75-128 | Succeeds exactly when the envelope checks pass and every step is accepted. An envelope check failure is the result. The trace keeps the envelope and plan ids and simulates every step in order. Quorum has one entry per truthy group, true exactly when a payload hash has a majority. |
| Executor.EmptyStepsExecute | model-layer/model_layer/executor/executor.py:98-128 | An envelope with an empty steps list and a non-hex id executes to an empty trace with no quorum entries. |
| Executor.CountSnoc | model-layer/model_layer/executor/executor.py:67-69 | Loop step of the count: one more member adds one to its own bucket and leaves every other bucket alone. |
| Executor.CountBuckets | model-layer/model_layer/executor/executor.py:66-69 | The counts dict has one key per payload hash present, holding that hash's count. |
| Executor.MajorityOf | model-layer/model_layer/executor/executor.py:70 | The `any` loop returns exactly whether a bucket exceeds half the members. |
| Executor.ComputeQuorum | model-layer/model_layer/executor/executor.py:58-72 | The method returns exactly `QuorumOf`. |
| Executor.MembersSnoc | model-layer/model_layer/executor/executor.py:118 | Loop step of the grouping: appending a trace extends only its own group's member list. |
| Executor.GroupKeysSnoc | model-layer/model_layer/executor/executor.py:117-118 | Appending a trace adds its group key exactly when the group is truthy. |
| Executor.GroupsSnoc | model-layer/model_layer/executor/executor.py:116-118 | Filing one trace is `setdefault(gid, []).append(s)` for a truthy group, and nothing otherwise. |
| Executor.CheckEnvelope | model-layer/model_layer/executor/executor.py:86-105 | The method returns exactly `EnvelopeChecks`. |
| Executor.RunStepsSnoc | model-layer/model_layer/executor/executor.py:111-115 | Loop step of the run: one more step extends a successful run by that step's trace, or fails with its error. |
| Executor.RunStepsErrStays | model-layer/model_layer/executor/executor.py:111-115 | Once a step fails, later steps do not change the outcome. |
| Executor.RunStepLoop | model-layer/model_layer/executor/executor.py:107-118 | The loop computes `RunSteps` and, on success, exactly `Groups` of the traces. |
| Executor.ExecuteEnvelope | model-layer/model_layer/executor/executor.py:75-128 | The method returns exactly `ExecuteFor`. |
| Executor.TamperedEnvelopeRejected | model-layer/model_layer/executor/executor.py:102-105 | A well-formed envelope whose hex id differs from the recomputed id is rejected as tampered. |
| Executor.OtherIdsNeverChecked | model-layer/model_layer/executor/executor.py:103 | An envelope id that is not 64 lowercase hex digits is never reported as a mismatch. |
| Executor.RunStepsNeverMismatch | model-layer/model_layer/executor/executor.py:107-118 | Running steps never yields the tamper error. |
| Executor.ChangedStepIdsRejected | model-layer/model_layer/executor/executor.py:102-105 | With a collision-free digest, changing the step ids of an envelope that carries a hex id is detected as tampering. Changing the plan id does not affect this. |
| Executor.CountsDisjoint | model-layer/model_layer/executor/executor.py:66-69 | Two different buckets together count at most the members. |
| Executor.MajorityBucketUnique | model-layer/model_layer/executor/executor.py:70 | At most one payload hash can hold a strict majority. |
| Executor.CountAll | model-layer/model_layer/executor/executor.py:66-69 | When all members share a payload hash, its count is the member count. |
| Executor.TimedOutGroupAgrees | model-layer/model_layer/executor/executor.py:37-40 | A non-empty group in which every step timed out (all hashes None) reaches quorum. |
| Executor.TieIsNoMajority | model-layer/model_layer/executor/executor.py:70 | Two members with different payload hashes do not reach quorum. |
| Pipeline.BuilderEnvelopeRejected | model-layer/model_layer/executor/executor.py:102-105 | With a collision-free digest, the executor rejects every envelope the builder produces whose id has the 64-hex-digit shape. The builder hashes the node names, but its steps carry no id, so the executor hashes a list of None. |
| Strategies.SortedIds | model-layer/planner/strategies.py:11 | The adapter ids, sorted, with the same multiplicities. |
| Strategies.SortedIdsPermutation | model-layer/planner/strategies.py:9-12 | The sorted ids do not depend on the order of the adapters. |
| Strategies.PickNodesSorted | model-layer/planner/strategies.py:9-12 | The picked nodes are a prefix of the sorted ids. |
| Strategies.SingleStrategy | model-layer/planner/strategies.py:15-18 | Single has merge policy first_success and picks one node, or none when there are no adapters. |
| Strategies.SingleIsLeast | model-layer/planner/strategies.py:15-18 | Single's node is an adapter id no greater than any other id. |
| Strategies.FanoutStrategy | model-layer/planner/strategies.py:21-26 | Fanout has merge policy rank and picks a prefix of the sorted ids: all of them without a fanout, otherwise `fanout` of them capped at the id count. |
| Strategies.VerifyStrategy | model-layer/planner/strategies.py:29-35 | Verify fails exactly when there are fewer than two adapters. Otherwise its nodes are the two least ids. |
| Strategies.DefaultQuorumSize | model-layer/planner/strategies.py:40-42 | The default size is 3 with at least three ids, otherwise 1. |
| Strategies.QuorumStrategy | model-layer/planner/strategies.py:38-48 | Quorum succeeds exactly when the (default or given) size is odd and within the id count. An even size is reported first. On success the nodes are that many least ids, with merge policy vote. |
| Strategies.StrategiesIgnoreOrder | model-layer/planner/strategies.py:9-48 | None of the four strategies depends on the order of the adapters. |
| AutoPlanner.ChooseStrategy | model-layer/planner/planner.py:34-46 | A hint wins. Otherwise: one adapter gives single; any adapter declaring verify gives verify; three or more give quorum; the rest give fanout. |
| AutoPlanner.Dispatch | model-layer/planner/planner.py:48-58 | An unknown strategy is an error naming it. A fragment produced by dispatch carries the strategy asked for. |
| AutoPlanner.AutoPlanFor | model-layer/planner/planner.py:18-73 | No adapters is an error. Otherwise the plan is produced exactly when the dispatch succeeds. It carries the chosen strategy's nodes and merge policy, the timeout, the prompt's constraints (default {}) and the prompt's digest. |
| AutoPlanner.AutomaticChoiceSucceeds | model-layer/planner/planner.py:34-58 | Without a hint or quorum size, a non-empty adapter list always yields a plan. |
| AutoPlanner.ChoiceIgnoresOrder | model-layer/planner/planner.py:34-46 | The automatic choice does not depend on the order of the adapters. |
| AutoPlanner.DispatchIgnoresOrder | model-layer/planner/planner.py:48-58 | The dispatched fragment does not depend on the order of the adapters. |
| AutoPlanner.AdapterOrderIrrelevant | model-layer/planner/planner.py:26-73 | The whole plan does not depend on the order of the adapters. |
| AutoPlanner.RequestHashBindsPrompt | model-layer/planner/planner.py:12-15 | With a collision-free digest, equal request hashes mean equal prompts. |
| StepOrchestrator.EnvelopeJson | model-layer/orchestrator/orchestrator.py:56-60 | The envelope always carries the constant guarantees: deterministic, no persistence, no execution. |
| StepOrchestrator.Unknown | model-layer/orchestrator/orchestrator.py:21 | The unknown list holds exactly the plan's nodes that are not adapter ids. |
| StepOrchestrator.NodeItems | model-layer/orchestrator/orchestrator.py:20-21 | The items `for n in nodes` walks: a list's items, a string's characters as one-character strings, or a dict's keys (each once). There are none exactly when the value is null, a number or a boolean. |
| StepOrchestrator.NumberedSteps | model-layer/orchestrator/orchestrator.py:31-42 | Step i is numbered i+1 and carries the i-th sorted node and the timeout. |
| StepOrchestrator.OrchestrateFor | model-layer/orchestrator/orchestrator.py:16-67 | The envelope is built exactly when the nodes (default []) are iterable and every item walked is an adapter id: a list by its items, a string by its one-character strings, a dict by its keys. Nodes that are null, a number or a boolean are not iterable, and that error is reported exactly then. |
| StepOrchestrator.UnknownNodesReported | model-layer/orchestrator/orchestrator.py:20-23 | For iterable nodes whose items are all hashable, the only failure is the unknown-node error, listing the unknown items in walking order. |
| StepOrchestrator.OrchestrateShape | model-layer/orchestrator/orchestrator.py:29-65 | One step per node, numbered from 1, each with the plan's timeout (default 5000). The envelope carries the plan's strategy, the execution id and the plan hash. |
| StepOrchestrator.FindAdapter | model-layer/orchestrator/orchestrator.py:33 | `next(...)` returns the first adapter whose id is the node. |
| StepOrchestrator.NumberSteps | model-layer/orchestrator/orchestrator.py:31-42 | The enumerate loop produces exactly `NumberedSteps`. |
| StepOrchestrator.SortedNamesKnown | model-layer/orchestrator/orchestrator.py:26-35 | Every sorted node is a known adapter, so the `no adapter for node` error cannot occur. |
| StepOrchestrator.BuildExecutionEnvelope | model-layer/orchestrator/orchestrator.py:16-67 | The method returns exactly `OrchestrateFor`, whose properties are the lemmas above and below. |
| StepOrchestrator.StepsFollowSortedNodes | model-layer/orchestrator/orchestrator.py:26-42 | The step nodes are sorted and are a permutation of the plan's nodes, duplicates included. |
| StepOrchestrator.StringNodesAreCharacters | model-layer/orchestrator/orchestrator.py:20-35 | A string of nodes whose every character is an adapter id is accepted, and gives one step per character, named by the characters, in sorted order. |
| StepOrchestrator.EmptyStringNodes | model-layer/orchestrator/orchestrator.py:20-35 | The plan `{"nodes": ""}` is accepted and gives no steps. |
| StepOrchestrator.ExecutionIdIgnoresAdapterOrder | model-layer/orchestrator/orchestrator.py:44-49 | The execution id depends on the adapters only through the set of their ids. |
| PlanValidator.RequireField | model-layer/tools/validate_execution_plan.py:23-27 | Passes exactly when the field is present with the required type. Booleans count as int, as with Python's `isinstance`. |
| PlanValidator.ValidateSchema | model-layer/tools/validate_execution_plan.py:30-50 | Passes exactly for a dict whose four fields have their types, whose nodes are strings, whose merge policy and strategy are allowed, and whose timeout is at least 1. A bad merge policy is reported before a bad strategy. |
| PlanValidator.UnknownNames | model-layer/tools/validate_execution_plan.py:73 | The unknown list holds exactly the plan's nodes that were not discovered. |
| PlanValidator.ValidateExecutionPlan | model-layer/tools/validate_execution_plan.py:53-99 | Passes exactly for the plans `ValidPlan` describes: schema, non-empty known nodes, timeout within any maximum, object constraints (null counts as {}), no vote under determinism, one node for single, two or more for verify. Each failure is the first failing rung: the schema error itself, then empty nodes, the unknown nodes listed in plan order, the timeout above the maximum, constraints not an object, vote under determinism, single without exactly one node, verify with fewer than two. |
| PlanValidator.LargerMaximumKeepsAcceptance | model-layer/tools/validate_execution_plan.py:78-79 | Raising the maximum timeout, or removing it, never rejects an accepted plan. |
| PlanValidator.MergePolicyCheckedFirst | model-layer/tools/validate_execution_plan.py:43-47 | A plan with both a bad merge policy and a bad strategy is reported for its merge policy. |
| AdapterAcceptance.Reason | model-layer/tools/validate_adapter.py:46-66 | Every rejection carries its reason string, except a type fault. |
| AdapterAcceptance.TimeoutLimit | model-layer/tools/validate_adapter.py:55 | An explicit maximum wins over the descriptor's `timeout_ms_max`. |
| AdapterAcceptance.HasUnknown | model-layer/tools/validate_adapter.py:61-66 | For a list of strings, reports whether some node was not discovered. Other iterables are walked as Python walks them, and a type fault is the only error. |
| AdapterAcceptance.CheckPlanAcceptance | model-layer/tools/validate_adapter.py:37-68 | Accepts exactly the plans `Acceptable` describes. Each rejection is the first failing rung, in order: a non-dict plan is a type fault, then an unsupported strategy, a non-dict constraints value (type fault), determinism asked of a non-deterministic adapter, a timeout above the limit, no nodes, and an undiscovered node (the last three LimitExceeded). |
| AdapterAcceptance.ExplicitMaximumOverrides | model-layer/tools/validate_adapter.py:55 | With an explicit maximum, the descriptor's own limit plays no part. |
| AdapterAcceptance.AbsentTimeoutIsZero | model-layer/tools/validate_adapter.py:54 | A plan without `timeout_ms` is judged as if it carried 0. |
| AdapterAcceptance.ValidatedPlanAccepted | model-layer/tools/validate_adapter.py:37-68 | A plan the plan validator accepts is accepted by a deterministic adapter that supports its strategy, under the same maximum, provided any constraints value is an object. |
| AdapterAcceptance.NullConstraintsDiverge | model-layer/tools/validate_adapter.py:49 | A plan with `"constraints": null` passes the plan validator but makes the adapter check fail with a type fault. |
| RuntimePolicy.ItemSet | ct-runtime/ct_runtime/policy/runtime_policy.py:93 | `set(v)`: over a list it yields exactly the items, and succeeds exactly when all are hashable. A string yields its one-character strings. A dict yields its keys. Any other value is not iterable and is a fault. |
| RuntimePolicy.IssueNames | ct-runtime/ct_runtime/policy/runtime_policy.py:90-91 | Falsy issues give no names. For a list, the names are exactly the `issue` values (None when absent) of its dict items, and the set can be built exactly when each is hashable. A string or dict gives no names. Any other truthy value is not iterable and is a fault. |
| RuntimePolicy.MatchRule | ct-runtime/ct_runtime/policy/runtime_policy.py:77-102 | A truthy `always` matches. Otherwise a rule matches exactly when its drift, issue or readiness condition holds. A well-formed rule and `when` dict is needed for any answer. |
| RuntimePolicy.FirstMatch | ct-runtime/ct_runtime/policy/runtime_policy.py:115-118 | Finds the first matching rule, all earlier ones having not matched, or none when no rule matches. A fault comes from some rule, all earlier ones having not matched. |
| RuntimePolicy.DecisionFrom | ct-runtime/ct_runtime/policy/runtime_policy.py:124-130 | The decision takes action, reason and id from the rule, the score from the rule or 0 when absent, and the observation's digest. |
| RuntimePolicy.EvaluateFor | ct-runtime/ct_runtime/policy/runtime_policy.py:105-130 | First match wins: when rule i is the first to match, the decision is built from rule i. When rule i faults after all earlier rules did not match, evaluation fails with that fault. With no matching rule, the default ignore rule decides. The decision always carries the observation's digest. |
| RuntimePolicy.Evaluate | ct-runtime/ct_runtime/policy/runtime_policy.py:111-130 | The first-match loop returns exactly `EvaluateFor`. |
| RuntimePolicy.AlwaysStopsTheSearch | ct-runtime/ct_runtime/policy/runtime_policy.py:115-118 | Once an `always` rule is reached, the rules after it play no part. |
| RuntimePolicy.FirstMatchPrefix | ct-runtime/ct_runtime/policy/runtime_policy.py:115-118 | A search that stops within a prefix finds the same rule in the prefix. |
| RuntimePolicy.StopMatchesFirst | ct-runtime/ct_runtime/policy/runtime_policy.py:23-30 | A SUPERVISED_STOP issue matches the first default rule. |
| RuntimePolicy.DefaultStopEscalates | ct-runtime/ct_runtime/policy/runtime_policy.py:23-30 | A SUPERVISED_STOP issue escalates with score 90 under the default rules. |
| RuntimePolicy.IssueRuleMisses | ct-runtime/ct_runtime/policy/runtime_policy.py:89-95 | An issue-only rule whose targets are not among the issue names does not match. |
| RuntimePolicy.StaleMatchesSecond | ct-runtime/ct_runtime/policy/runtime_policy.py:31-37 | A stale issue, without a stop issue, first matches the second default rule. |
| RuntimePolicy.DefaultStaleWarns | ct-runtime/ct_runtime/policy/runtime_policy.py:31-37 | A stale issue, without a stop issue, warns with reason stale_component. |
| RuntimePolicy.QuietMatchesLast | ct-runtime/ct_runtime/policy/runtime_policy.py:38-51 | With no issues and a drift count of 0, only the last default rule matches. |
| RuntimePolicy.DefaultQuietIgnores | ct-runtime/ct_runtime/policy/runtime_policy.py:45-51 | With no issues and a drift count of 0, the decision is IGNORE, no_issues_detected, score 0, rule ignore_default. |
| Registration.TypeChecks | ct-runtime/ct_server/agent_register.py:69-77 | The type ladder passes exactly for string id and role, a list of string capabilities, a 64-character string code hash and an integer timestamp. Each failure names the first failing rung: invalid_types, invalid_capabilities, invalid_code_hash, invalid_timestamp. |
| Registration.FreshnessChecks | ct-runtime/ct_server/agent_register.py:88-103 | Passes exactly when the timestamp lies within the drift window and, for a known agent, is newer than the last one and carries the same code hash. Each failure is reported in order: stale_timestamp, future_timestamp, replay_or_stale, hash_mismatch. |
| AgentRegister.ValidatePayload | ct-runtime/ct_server/agent_register.py:57-105 | Accepts exactly the payloads `Admissible` describes. A non-dict raises, and missing fields are reported first. Then the type ladder's reason, unknown_role, capability_overreach and the freshness reason, each once the earlier rungs pass. |
| AgentRegister.Remember | ct-runtime/ct_server/agent_register.py:136 | Accepting a payload records its agent and leaves every other agent's entry alone. |
| AgentRegister.Registry.constructor | ct-runtime/ct_server/agent_register.py:32-35 | A new registry holds the allowlist and drift, and an empty last-seen table. |
| AgentRegister.Registry.Register | ct-runtime/ct_server/agent_register.py:128-136 | The verdict is `ValidatePayload` on the table before the call. Only an accepted payload updates the table, by `Remember`. |
| AgentRegister.AcceptedRequestReplays | ct-runtime/ct_server/agent_register.py:96-103 | Sending an accepted request again is refused, and inside the clock window it is refused as a replay. |
| AgentRegister.CodeHashPinned | ct-runtime/ct_server/agent_register.py:96-103 | After an agent registers, a registration under another code hash is refused. |
| AgentRegister.OverreachRefused | ct-runtime/ct_server/agent_register.py:83-86 | Claiming a capability the role does not allow is refused as capability_overreach. |
| CtServer.ValidatePayload | ct-runtime/ct_server/ct_server.py:59-122 | Accepts exactly the payloads `Admissible` describes. It raises exactly when the outer payload, or the inner payload once the outer checks pass, is not a dict. Then in order: missing_fields, timestamp_not_int, missing_inner_fields, the type ladder's reason, unknown_role and the freshness reason. |
| CtServer.Remember | ct-runtime/ct_server/ct_server.py:164-165 | Accepting records the inner node id and leaves every other entry alone. |
| CtServer.Registry.constructor | ct-runtime/ct_server/ct_server.py:34-37 | A new registry holds the allowlist and drift, and an empty last-seen table. |
| CtServer.Registry.Register | ct-runtime/ct_server/ct_server.py:156-165 | The verdict is `ValidatePayload` on the table before the call. Only an accepted payload updates the table, keyed by the inner node id. |
| CtServer.AcceptedRequestReplays | ct-runtime/ct_server/ct_server.py:112-120 | Sending an accepted request again is refused, and inside the clock window it is refused as a replay. |
| CtServer.CredentialsNeverInspected | ct-runtime/ct_server/ct_server.py:65-70 | The outer signature, public key and nonce only have to be present: their values never change the verdict. |
| CtServer.CapabilitiesUnchecked | ct-runtime/ct_server/ct_server.py:96-103 | Only the allowlist's role names matter. The capability ceiling is disabled. |
| Lifecycle.EntryOf | ct-runtime/mad_os/runtime/lifecycle.py:49-50 | An unseen component reads as not running, with no result and no timestamp. A seen one reads as its entry. |
| Lifecycle.StartStep | ct-runtime/mad_os/runtime/lifecycle.py:53-89 | An unknown component is an error and changes nothing. Only the named component's entry can change, and a successful start returns the entry it stores. A failure leaves the table unchanged. |
| Lifecycle.StopStep | ct-runtime/mad_os/runtime/lifecycle.py:92-118 | An unknown component is an error. A component that is not running is returned unchanged and nothing changes. Stopping a running one records not running, the time, and as result the handler's outcome when truthy, else "stopped" (a missing or raising handler gives "stopped"). Only its entry changes, and the entry returned is the one stored. |
| Lifecycle.RestartStep | ct-runtime/mad_os/runtime/lifecycle.py:121-123 | Restarting an unknown component is an error. |
| Lifecycle.Runtime.constructor | ct-runtime/mad_os/runtime/lifecycle.py:24-30 | A fresh runtime has the manifest and no component entries. |
| Lifecycle.Runtime.Status | ct-runtime/mad_os/runtime/lifecycle.py:126-128 | An unseen component reads as the default entry. A seen one reads as its stored entry. |
| Lifecycle.Runtime.Start | ct-runtime/mad_os/runtime/lifecycle.py:53-89 | Returns `StartStep`'s result, with the mode defaulting to the readiness, and the table becomes `StartStep`'s table. |
| Lifecycle.Runtime.Stop | ct-runtime/mad_os/runtime/lifecycle.py:92-118 | Returns `StopStep`'s result, and the table becomes `StopStep`'s table. |
| Lifecycle.Runtime.Restart | ct-runtime/mad_os/runtime/lifecycle.py:121-123 | Returns `RestartStep`'s result, stopping and then starting, and the table becomes `RestartStep`'s table. |
| Lifecycle.StartIdempotent | ct-runtime/mad_os/runtime/lifecycle.py:70-72 | Starting a running component again returns the same entry and changes nothing. |
| Lifecycle.StopIdempotent | ct-runtime/mad_os/runtime/lifecycle.py:100-101 | Stopping twice is stopping once. |
| Lifecycle.StartRecordsHandler | ct-runtime/mad_os/runtime/lifecycle.py:74-89 | Without a handler for the mode, a start records a stopped entry with no result. With a working handler, it records a running entry with the handler's result. |
| Lifecycle.RestartRunsHandler | ct-runtime/mad_os/runtime/lifecycle.py:121-123 | Restarting under a mode with a working handler leaves the component running with that handler's result and the start time. |
| Observability.IsStale | ct-runtime/mad_os/runtime/observability.py:48-57 | As intended: only a running component can be stale. It is stale when its timestamp is falsy, truthy but not a string, unparseable, or, after `Z` becomes `+00:00`, older than the threshold. |
| Observability.ReplaceZ | ct-runtime/mad_os/runtime/observability.py:51 | `replace("Z", "+00:00")` leaves no `Z` behind, and leaves a string without one unchanged. |
| Observability.IsStaleAsWritten | ct-runtime/mad_os/runtime/observability.py:48-57 | As written: only a running component can be stale. A timestamp with a UTC offset always makes it stale. Without one, the result is that of `IsStale`. |
| Observability.ZuluStampAlwaysStaleAsWritten | ct-runtime/mad_os/runtime/observability.py:48-57 | As written, a running component whose timestamp ends in `Z`, as every lifecycle timestamp does, is stale whatever its age. |
| Observability.Report | ct-runtime/mad_os/runtime/observability.py:40-68 | The report expects running exactly when the readiness mode has a handler. Drift means expected and actual disagree, and stale is `IsStale`. |
| Observability.IssuesOf | ct-runtime/mad_os/runtime/observability.py:70-73 | A report contributes one issue for drift and one for staleness, each naming the component. When present, the drift issue comes first and carries the expected and actual running flags, and the stale issue comes last and carries the timestamp. |
| Observability.ReportsKeys | ct-runtime/mad_os/runtime/observability.py:39-68 | Every manifest component has a report, and nothing else does. |
| Observability.IssuesNamed | ct-runtime/mad_os/runtime/observability.py:70-73 | Every issue names a component of the manifest. |
| Observability.GatherFor | ct-runtime/mad_os/runtime/observability.py:28-81 | The payload holds the reports and the issues, and `drift_count` is the number of issues. |
| Observability.GatherObservability | ct-runtime/mad_os/runtime/observability.py:36-81 | The loop over the manifest returns exactly `GatherFor`. |
| Observability.GatherStep | ct-runtime/mad_os/runtime/observability.py:39-73 | Loop step of the gathering: one more manifest entry adds its report and appends its issues. |
| Observability.DriftCountCountsStale | ct-runtime/mad_os/runtime/observability.py:79 | `drift_count` counts drifting components plus stale ones, not drifting components alone. |
| Observability.StoppedComponentNeverStale | ct-runtime/mad_os/runtime/observability.py:48-59 | A stopped component is never stale, and it drifts exactly when its mode has a handler. |
| Observability.ReportsAt | ct-runtime/mad_os/runtime/observability.py:61-68 | The report stored under a name is that of its last occurrence in the manifest. |
| Observability.IssuesOrder | ct-runtime/mad_os/runtime/observability.py:70-73 | The issue list splits at any manifest position k into the issues of the entries before k, then entry k's own issues, then those of the entries after k. |
| Observability.IssuesAppend | ct-runtime/mad_os/runtime/observability.py:70-73 | The issues of two manifest parts are the first part's issues followed by the second part's. |
| Readiness.Name | ct-runtime/ct_runtime/ops/readiness_emitter.py:58-79 | The verdict's name is READY, DEGRADED or HALT. |
| Readiness.DetermineState | ct-runtime/ct_runtime/ops/readiness_emitter.py:58-79 | HALT exactly when a probe fails. READY exactly when all pass and the lock is present. DEGRADED exactly when all pass and the lock is absent. |
| Readiness.LockIgnoredOnHalt | ct-runtime/ct_runtime/ops/readiness_emitter.py:71-72 | When a probe fails, the lock plays no part. |
| Readiness.VerdictMonotone | ct-runtime/ct_runtime/ops/readiness_emitter.py:66-79 | Passing more probes, or gaining the lock, never worsens the verdict (HALT < DEGRADED < READY). |
| MatchRules.MatchesFor | rules/match_rules.py:22-30 | There are never more matches than rules. |
| MatchRules.MatchesMembers | rules/match_rules.py:24-30 | Every applicable rule contributes its match (regulation, code and title), and every match comes from an applicable rule. |
| MatchRules.MatchesAppend | rules/match_rules.py:24-30 | The matches of two rule lists are the first list's matches followed by the second's, so matches keep rule order. |
| MatchRules.MatchesOne | rules/match_rules.py:24-30 | A single rule contributes exactly its one match when it applies, and nothing otherwise. |
| MatchRules.DescriptionOf | rules/match_rules.py:21 | A missing or falsy description reads as the empty string. A truthy string description comes out lower-cased. A truthy non-string description cannot be read. |
| MatchRules.Annotate | rules/match_rules.py:20-32 | Annotation succeeds exactly when the observation is a dict whose description can be read. The result keeps every other field and sets `regulation_matches` to the matches of the rules for the lower-cased description. |
| MatchRules.MatchObservations | rules/match_rules.py:20-32 | The loop succeeds exactly when every observation can be annotated, and then each array slot holds its annotation. |
| MatchRules.AnnotateAll | rules/match_rules.py:20-32 | All observations are annotated, one each and in order, exactly when each can be. |
| MatchRules.ReportFor | rules/match_rules.py:20-34 | The script succeeds exactly when the report is a dict and its observations (default []) are a list whose every item can be annotated, `""` or `{}`. A list present in the report is replaced by its annotations, item by item, and every other field is kept. Otherwise the report comes back unchanged. |
| MatchRules.MatchReport | rules/match_rules.py:20-34 | The script on one report, with the in-place loop over an array copy of the observations, returns exactly `ReportFor`. |
| MatchRules.UppercaseKeywordNeverMatches | rules/match_rules.py:21-25 | Keywords are not lower-cased, so one with an upper-case letter never matches. |
| MatchRules.NoDescriptionMatchesEmptyKeywordOnly | rules/match_rules.py:21-25 | An observation without a description matches exactly the rules that list the empty keyword. |
| ResolveOutcome.MatchCodes | rules/resolve_outcome.py:11 | The codes read are exactly the `code` fields of the matches, and every match has one. |
| ResolveOutcome.ObservationCodes | rules/resolve_outcome.py:11 | The codes can be read exactly when every observation's matches can. The code set is then exactly the union of each observation's match codes: each of those codes is in it, and each of its codes comes from some observation. |
| ResolveOutcome.Resolve | rules/resolve_outcome.py:11-16 | The result keeps the report and sets `summary.overall_result` to UNSATISFACTORY exactly when C1 or C2 occurs, and SATISFACTORY otherwise. A readable report always resolves. |
| ResolveOutcome.NoObservationsSatisfactory | rules/resolve_outcome.py:11-16 | A report without observations or a summary is marked SATISFACTORY. |
| ResolveOutcome.MatchedC1IsUnsatisfactory | rules/resolve_outcome.py:11-16 | After matching, an observation to which a C1 rule applies makes the report UNSATISFACTORY. |
| ClaimValidator.FirstKnown | tools/learn/validate/validators.py:10-12 | Finds the first known regulation number the claim contains, all earlier ones being absent, or none when it contains none. |
| ClaimValidator.Validate | tools/learn/validate/validators.py:8-19 | Confirmed exactly when the claim contains a known number, and then it names the first known number, in list order, that the claim contains. Needs review exactly when it contains none but mentions RCD and 30mA, case-insensitively. Otherwise rejected. |
| ClaimValidator.SimpleValidate | tools/learn/validate/validators.py:8-19 | The loop over the known numbers returns exactly `Validate`. |
| ClaimValidator.ContainsIgnoresCase | tools/learn/validate/validators.py:10-16 | A needle without letters occurs in a string exactly when it occurs in its lower-cased form. |
| ClaimValidator.VerdictIgnoresCase | tools/learn/validate/validators.py:8-19 | The verdict depends on the claim only up to case. |
| ClaimValidator.SameFirstKnown | tools/learn/validate/validators.py:10-12 | Claims that contain the same known numbers confirm the same one. |
| ClaimValidator.NoWordBoundaries | tools/learn/validate/validators.py:10-12 | A longer number embedding a known one is confirmed as that one ("1411.3.39" confirms 411.3.3). |
| StringOrder.Insert | model-layer/planner/strategies.py:11 | Inserting adds exactly one occurrence of the element. |
| StringOrder.InsertSorted | model-layer/planner/strategies.py:11 | Inserting into an ordered list keeps it ordered. |
| StringOrder.Sort | model-layer/model_layer/orchestrator/orchestrator.py:48 | `sorted` returns a permutation of its input. |
| StringOrder.SortSorted | model-layer/model_layer/orchestrator/orchestrator.py:48 | `sorted` returns an ordered list. |
| StringOrder.SortedUnique | model-layer/model_layer/orchestrator/orchestrator.py:48 | Two ordered permutations of each other are equal, so `sorted` has one answer. |
| StringOrder.SortPermutationInvariant | model-layer/model_layer/orchestrator/orchestrator.py:48 | `sorted` ignores the order of its input. |
| StringOrder.Dedup | model-layer/orchestrator/orchestrator.py:47 | Dropping repeats keeps exactly the same elements. |
| StringOrder.DedupStrictlySorted | model-layer/orchestrator/orchestrator.py:47 | Dropping repeats from an ordered list leaves it strictly ordered. |
| StringOrder.SortedDistinct | model-layer/orchestrator/orchestrator.py:47 | `sorted(set(s))` holds exactly the elements of `s`. |
| StringOrder.StrictlySortedUnique | model-layer/orchestrator/orchestrator.py:47 | Two strictly ordered lists with the same elements are equal. |
| StringOrder.SortedDistinctSetInvariant | model-layer/orchestrator/orchestrator.py:47 | `sorted(set(s))` depends only on which strings occur. |
| Seqs.MapPermutation | model-layer/planner/strategies.py:11 | Mapping a permutation gives a permutation of the images. |
| Seqs.Take | model-layer/planner/strategies.py:12 | Python's `s[:n]` is a prefix whose length follows Python's slice rules for negative and oversized `n`. |
| Text.Lower | tools/learn/validate/validators.py:15 | `str.lower()` keeps the length and lower-cases each letter. |
| Text.FindFrom | tools/capture/extract_from_audit.py:46-47 | Finds the first occurrence at or after the start, or reports that there is none. |
| Text.Find | tools/capture/extract_from_audit.py:46-47 | Finds the first occurrence exactly when the needle occurs. |
| Text.Strip | tools/capture/extract_from_audit.py:47 | The stripped string is a slice of the original with only white space before and after it, and it neither starts nor ends with white space. |
| Certgen.Truthies | certgen/generate.py:87-89 | Keeps exactly the truthy values of the key, each from some match, never more than the matches. |
| Certgen.TruthiesSnoc | certgen/generate.py:87-89 | The kept values follow match order: one more match appends its value when truthy, and nothing otherwise. |
| Certgen.Project | certgen/generate.py:84-90 | A projection exists exactly when the regulation matches (default []) are a list of dicts. It keeps the description and location, and its codes, regulations and titles are the truthy values of those keys over the matches. |
| Certgen.ProjectOneMatch | certgen/generate.py:84-90 | An observation with a single match carrying regulation, code and title projects to exactly those one-element lists, as in the sample report whose codes are ["C2"]. |
| Certgen.ProjectAll | certgen/generate.py:82-92 | One projection per observation, in order. The result exists exactly when every observation projects. |
| Certgen.MetadataFor | certgen/generate.py:69-72 | The metadata (default {}) is copied and ends up with an id. A dict or list that already holds `"id"` is kept as it is. A dict without it gets `cert-<stamp>`. A list without it fails, since a list cannot take a string index, and so does any value without `.copy()`. |
| Certgen.DocId | certgen/generate.py:103 | `cert["metadata"].get("id")` gives the id (None when absent) exactly when the metadata is a dict. A list has no `.get`. |
| Certgen.ListMetadataWithId | certgen/generate.py:67-109 | A report whose only field is the metadata list `["id"]` builds a certificate with that list as metadata and no observations when reviews are not asked for. Asking for reviews fails on the list. |
| Certgen.ReviewsFor | certgen/generate.py:104-107 | Keeps exactly the entries whose truthy `document_id` equals the truthy document id, and none when the document id is falsy. |
| Certgen.ReviewsForAppend | certgen/generate.py:104-107 | The kept entries follow log order: the entries of a log are those of its first part followed by those of the rest. |
| Certgen.ReviewsOf | certgen/generate.py:99-107 | Without `include_review` there are no reviews. With it, the reviews exist exactly when every log line is a dict, and then they are exactly the log entries that refer to the document. |
| Certgen.CertificateFor | certgen/generate.py:67-109 | The certificate exists exactly when the metadata can be copied and given an id, the observations are a list of dicts that all project, the summary is a dict or list, and, when reviews are asked for, the metadata is a dict and every log line is a dict. Its metadata holds `"id"`, its observations are the projections in order, its reviews are `ReviewsOf` the metadata id, and generator, rules version, time, installation, test results and summary pass through. |
| Certgen.BuildCertificate | certgen/generate.py:67-109 | The method returns exactly `CertificateFor`, whose properties are stated there. |
| Certgen.ProjectObservations | certgen/generate.py:82-92 | The observation loop returns exactly `ProjectAll`. |
| Certgen.CollectReviews | certgen/generate.py:104-107 | The audit loop returns exactly the included reviews, `ReviewsOf`. |
| Certgen.ProjectAllSnoc | certgen/generate.py:83-91 | Loop step of the observation loop: one more projectable observation appends its projection. |
| Certgen.ProjectAllFails | certgen/generate.py:83-91 | One unprojectable observation makes the whole build fail. |
| Certgen.ReviewsForSnoc | certgen/generate.py:104-107 | Loop step of the audit loop: one more audit entry is appended exactly when it refers to the document. |
| Certgen.NatStr | certgen/generate.py:126 | A number renders as its decimal digits: the digits denote the number, with no leading zero. |
| Certgen.ObsBlock | certgen/generate.py:126-133 | An observation renders as its numbered heading followed by plain lines. |
| Certgen.Blocks | certgen/generate.py:125-133 | One block per observation, numbered consecutively. The section renders exactly when every block does. |
| Certgen.ObsSectionHasNoReviews | certgen/generate.py:124-133 | The observation section never contains the reviews heading. |
| Certgen.FlattenHeadings | certgen/generate.py:125-133 | The headings of the flattened blocks are the blocks' first lines, in order. |
| Certgen.ObservationNumbering | certgen/generate.py:125-126 | The k-th heading of the section is observation k's, numbered from 1. |
| Certgen.ReviewLine | certgen/generate.py:144 | A review line is a plain list item. |
| Certgen.ReviewLines | certgen/generate.py:143-144 | One review line per review, line i rendering review i. |
| Certgen.ReviewLinesSnoc | certgen/generate.py:143-144 | Rendering one more review appends its line after the others. |
| Certgen.ReviewSection | certgen/generate.py:141-145 | The reviews section is empty without reviews. Otherwise it is the heading, one line per review, then a blank line. |
| Certgen.MarkdownLines | certgen/generate.py:112-147 | Renders exactly when the metadata, installation and summary are dicts, every observation renders and every review is a dict. |
| Certgen.ReviewsHeadingIffReviews | certgen/generate.py:141-145 | The reviews heading appears in the Markdown exactly when the certificate has reviews. |
| Certgen.RenderObservations | certgen/generate.py:125-133 | The observation loop returns exactly the observation section. |
| Certgen.RenderReviews | certgen/generate.py:141-145 | The review loop succeeds exactly when every review is a dict, and then returns the reviews section. |
| Certgen.ToMarkdown | certgen/generate.py:112-147 | The method returns exactly `MarkdownFor`. |
| CaptureExtract.Or | tools/capture/extract_from_audit.py:40-42 | Python's `a or b`: `a` when truthy, else `b`. |
| CaptureExtract.SplitFix | tools/capture/extract_from_audit.py:47 | The split yields text exactly when the comment contains the lower-case marker. |
| CaptureExtract.CaselessFix | tools/capture/extract_from_audit.py:46-47 | Yields text exactly when the lower-cased comment contains the marker. |
| CaptureExtract.CaptureOf | tools/capture/extract_from_audit.py:41-58 | The capture takes `document_id`, else `document`, else None. The actor defaults to reviewer. It carries the fix, the prompt hash and the source review-extract. |
| CaptureExtract.ClassifyAsWritten | tools/capture/extract_from_audit.py:36-49 | The entry step as the extractor is written. An entry that is not a dict raises. |
| CaptureExtract.Classify | tools/capture/extract_from_audit.py:36-49 | The entry step with the marker found case-insensitively. An entry that is not a dict raises. |
| CaptureExtract.NoDecisionSkipped | tools/capture/extract_from_audit.py:38 | An entry without a truthy decision is never captured, under either rule. |
| CaptureExtract.RejectCaptured | tools/capture/extract_from_audit.py:44-45 | A rejection is always captured. Its fix is the comment, or the stock text when the comment is empty. |
| CaptureExtract.CorrectionCaptured | tools/capture/extract_from_audit.py:46-49 | Any other decision with a string comment is captured exactly when the comment, lower-cased and stripped, starts with the marker. The fix is the stripped text after the marker. |
| CaptureExtract.CorrectionAsWritten | tools/capture/extract_from_audit.py:46-49 | As written, the same entries are skipped, but a correction without the lower-case marker raises. |
| CaptureExtract.LowercaseAgrees | tools/capture/extract_from_audit.py:46-47 | On a comment without capitals, the as-written and corrected rules agree. |
| CaptureExtract.FixesAgree | tools/capture/extract_from_audit.py:46-47 | On lower-case text, the two ways of finding the marker agree. |
| CaptureExtract.CapitalisedCorrectionRaises | tools/capture/extract_from_audit.py:46-47 | The comment "Correction: fix" on an approval raises as written, but is captured with fix "fix" by the corrected rule. |
| CaptureExtract.ExtractFor | tools/capture/extract_from_audit.py:35-63 | The corrected extractor's run, each entry through `Classify`: at most one capture per entry, each with source review-extract. |
| CaptureExtract.Extract | tools/capture/extract_from_audit.py:35-63 | The loop's run for any entry step: it never hands over more captures than there are entries. |
| CaptureExtract.ExtractAsWrittenFor | tools/capture/extract_from_audit.py:35-63 | The extractor as written, each entry through `ClassifyAsWritten`: at most one capture per entry, each with source review-extract. |
| CaptureExtract.CapturesFromEntries | tools/capture/extract_from_audit.py:36-58 | For either entry step, every capture handed over is emitted by some entry of the log. |
| CaptureExtract.RaiseEndsRun | tools/capture/extract_from_audit.py:36-49 | For either entry step, an entry that raises ends the run, and nothing after it is captured. |
| CaptureExtract.NoRaiseHandsOverAll | tools/capture/extract_from_audit.py:35-63 | When no entry raises, every capture the entries emit is handed over, in log order. |
| CaptureExtract.RunUpToFirstRaise | tools/capture/extract_from_audit.py:35-63 | The run hands over exactly the captures emitted before the first raising entry, in order, and reports whether an entry raised. |
| CaptureExtract.CapitalisedRunsDiffer | tools/capture/extract_from_audit.py:46-63 | On the one-entry log "Correction: fix", the extractor as written raises and hands over nothing, while the corrected one hands over one capture with fix "fix". |
| CaptureExtract.ExtractCaptures | tools/capture/extract_from_audit.py:35-63 | The loop over the entries, for whichever entry step it is given, returns exactly `Extract` with that step: `ExtractAsWrittenFor` with `ClassifyAsWritten`, `ExtractFor` with `Classify`. |

## Left out

- SHA-256 over canonical `json.dumps` output is not computed. Every digest
  comes from the `Hasher` parameter. The lemmas that need collision
  freedom assume it, and the one that needs a 64-hex-digit id assumes that
  shape for that id only.
- Python's Mersenne-Twister `random.Random` is not modelled. The fanout
  draws come from the `draw` parameter, and the only assumed property is
  that each draw is in range.
- Executor.Simulate: a string duration or timeout such as `"5"` is an
  error here, while Python's `int()` would accept it. The same holds for a
  string threshold in RuntimePolicy.MatchRule. Fields are taken as typed
  values.
- NaN, floats, huge integers and deeply nested payloads are not modelled.
  `Json` has no float constructor. ct_server's inner `ts` may be a float in
  the source, and the model accepts only integers there.
- Python's `1 == True` is not modelled. Booleans and integers are distinct
  values here, for example in the builder's duplicate-node check.
- Object identity, aliasing and mutation during serialisation mean nothing
  for immutable values. The executor's copying of payloads is therefore
  not modelled.
- Planner: the adapters are a typed sequence. `build_execution_plan`
  raises `ValueError` when `adapters` is not a list, and the typed model
  cannot express that error path.
- The `Adapter` and `MatchRules.Rule` descriptors are typed. So the model
  leaves out the `KeyError` on a missing `adapter_id`, `applies_if`,
  `regulation`, `code` or `title`, keywords that are not strings, and the
  `.get('capabilities', {})` defaults. The top-level report in Certgen is
  a dict, so `.get` on a report that is not a dict is not modelled there.
  ResolveOutcome.Resolve and MatchRules.ReportFor do model that error.
- Text.Lower and Text.Strip work on ASCII only, without Unicode case
  mapping or Unicode whitespace.
- The planning layer's `_adapter_map` is folded into the membership test
  on adapter names.
- Determinism for identical inputs holds because every operation is a
  function of its inputs, so it has no lemma of its own.
- Registration: the HTTP handler, the server loop, the allowlist file and
  its loader, the `registrations.log` and `accepted.jsonl` appends, and the
  import-time environment check are not modelled. The clock, the drift
  bound, the role allowlist and the last-seen table are parameters.
- RuntimePolicy: YAML rule loading and `write_audit_event` are not
  modelled. The rules are a parameter.
- Lifecycle: the state file, its atomic write and fsync are not modelled,
  and the registry lives in the `Runtime` object. Handlers are given as
  their outcome, a result or an exception, so their side effects are not
  modelled. The timestamp is a parameter.
- Observability: reading the state and manifest files, the wall clock and
  ISO timestamp parsing are not modelled. The age of a timestamp comes
  from the `Age` parameter in whole seconds. Only the `+HH:MM` and `-HH:MM`
  offset spellings count as a time zone in `Zoned`. The reports use the
  corrected staleness test (see Findings).
- StepOrchestrator.NodeItems: a dict of nodes is walked in sorted key
  order, because `Json` objects do not record insertion order. This
  affects only the order of the unknown-node list; the steps are sorted
  anyway.
- Readiness: the network, docker and disk probes and `emit_readiness` are
  not modelled. The probe results are booleans.
- Certgen: `datetime.utcnow`, `detect_rules_version` and `read_audit` are
  not modelled. The generated id, the timestamp, the rules version and the
  parsed audit entries are inputs. Python's `str()` on values is the
  `Show` parameter.
- CaptureExtract: `iter_audit` file parsing and the per-capture subprocess
  call to `add_capture.py` are not modelled. The parsed audit entries are
  the input, and the captures are the output.
- The command-line tools, file wrappers, HTTP services, GPU and docker
  probes, stress and breaker harnesses, and schema validation through
  `jsonschema` are outside the core.

## Findings

| source | as written | input that shows it | evidently intended | confidence | as-written member | corrected member |
|---|---|---|---|---|---|---|
| tools/capture/extract_from_audit.py:46-47 | The correction test lower-cases the stripped comment, but the text after the marker is taken by splitting the original comment on the lower-case `correction:`. A capitalised marker passes the test, the split finds nothing, and indexing its second part raises `IndexError`, which ends the whole extraction. | an audit entry with decision `approve` and comment `Correction: fix` | the marker is found without regard to case, and the stripped text after it, `fix`, becomes the suggested fix | not executed | CaptureExtract.ClassifyAsWritten | CaptureExtract.Classify |
| ct-runtime/mad_os/runtime/observability.py:51-55 | The timestamp's `Z` is turned into `+00:00`, so `fromisoformat` returns an aware datetime, and subtracting it from the naive `datetime.utcnow()` raises `TypeError`. The handler marks the component stale. Every timestamp the lifecycle writes ends in `Z` (ct-runtime/mad_os/runtime/lifecycle.py:46), so every running component is reported stale, whatever its age. | a running component whose `ts` is `2024-01-01T00:00:00Z`, checked a second later | the age since the timestamp, read as UTC, is compared with the threshold | not executed | Observability.ZuluStampAlwaysStaleAsWritten | Observability.IsStale |
