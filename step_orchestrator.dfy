/** `build_execution_envelope` of the earlier orchestrator: numbers one
    dry-run step per plan node in sorted order and derives `execution_id`
    from the plan and the set of adapter ids. */
module StepOrchestrator {
  import opened Wrappers
  import opened JsonValues
  import opened Digest
  import opened Seqs
  import opened StringOrder
  import opened Adapters

  const DEFAULT_TIMEOUT_MS: int := 5000

  datatype OrchError =
    | NodesNotIterable         // TypeError from `for n in nodes`: null, a number or a boolean
    | UnhashableNode           // TypeError from `n not in adapter_ids`
    | UnknownNodes(nodes: seq<Json>)

  /** Step `step` (counting from 1); `adapter` is the node itself and `mode`
      is always `"dry-run"`. */
  datatype NumberedStep = NumberedStep(step: nat, node: string, timeoutMs: Json)

  datatype StepEnvelope = StepEnvelope(
    version: string,
    executionId: string,
    strategy: Json,
    steps: seq<NumberedStep>,
    planHash: string)

  function StepJson(s: NumberedStep): Json
  {
    JObj(map["step" := JInt(s.step), "adapter" := JStr(s.node), "node" := JStr(s.node),
             "mode" := JStr("dry-run"), "timeout_ms" := s.timeoutMs])
  }

  /** The envelope dict; `guarantees` is a constant. */
  function EnvelopeJson(e: StepEnvelope): (r: Json)
    ensures r.JObj? && "guarantees" in r.fields
    ensures r.fields["guarantees"] == JObj(map["deterministic" := JBool(true),
                                               "no_persistence" := JBool(true),
                                               "no_execution" := JBool(true)])
  {
    JObj(map[
      "orchestrator_version" := JStr(e.version),
      "execution_id" := JStr(e.executionId),
      "strategy" := e.strategy,
      "steps" := JArr(Map(StepJson, e.steps)),
      "guarantees" := JObj(map["deterministic" := JBool(true), "no_persistence" := JBool(true),
                               "no_execution" := JBool(true)]),
      "_explain" := JObj(map["reason" := JStr("deterministic mapping of plan nodes to steps (sorted nodes)"),
                             "plan_hash" := JStr(e.planHash)])])
  }

  predicate Known(n: Json, ids: seq<string>)
  {
    n.JStr? && n.s in ids
  }

  /** `[n for n in nodes if n not in adapter_ids]`. */
  function Unknown(nodes: seq<Json>, ids: seq<string>): (r: seq<Json>)
    ensures forall n :: n in r <==> n in nodes && !Known(n, ids)
  {
    if nodes == [] then []
    else (if Known(nodes[0], ids) then [] else [nodes[0]]) + Unknown(nodes[1..], ids)
  }

  /** What `for n in nodes` walks: a list's items, a string's characters as
      one-character strings, a dict's keys (taken here in sorted order), or
      `None` when the value is not iterable. */
  function NodeItems(nodes: Json): (r: Option<seq<Json>>)
    ensures r.Some? <==> nodes.JArr? || nodes.JStr? || nodes.JObj?
    ensures nodes.JArr? ==> r == Some(nodes.items)
    ensures nodes.JStr? ==> r.Some? && |r.value| == |nodes.s|
                            && forall i :: 0 <= i < |nodes.s| ==> r.value[i] == JStr([nodes.s[i]])
    ensures nodes.JObj? ==> r.Some? && |r.value| == |nodes.fields|
                            && forall n :: n in r.value <==> n.JStr? && n.s in nodes.fields
  {
    match nodes
    case JArr(items) => Some(items)
    case JStr(str) => Some(seq(|str|, i requires 0 <= i < |str| => JStr([str[i]])))
    case JObj(m) =>
      var keys := SortedSet(m.Keys);
      assert forall n :: n in Strs(keys) <==> n.JStr? && n.s in keys;
      Some(Strs(keys))
    case _ => None
  }

  function NodeName(n: Json): string
  {
    if n.JStr? then n.s else ""
  }

  /** The numbered steps for the sorted node names. */
  function NumberedSteps(sorted: seq<string>, timeout: Json): (r: seq<NumberedStep>)
    ensures |r| == |sorted|
    ensures forall i :: 0 <= i < |sorted| ==> r[i] == NumberedStep(i + 1, sorted[i], timeout)
  {
    seq(|sorted|, i requires 0 <= i < |sorted| => NumberedStep(i + 1, sorted[i], timeout))
  }

  /** `_canonical_hash({"plan": plan, "adapters": sorted(adapter_ids)})`. */
  function ExecutionId(h: Hasher, plan: map<string, Json>, adapters: seq<Adapter>): string
  {
    h(JObj(map["plan" := JObj(plan), "adapters" := JArr(Strs(SortedDistinct(Ids(adapters))))]))
  }

  /** The envelope the orchestrator returns, or the error it raises. */
  function OrchestrateFor(h: Hasher, plan: map<string, Json>, adapters: seq<Adapter>, version: string)
    : (r: Result<StepEnvelope, OrchError>)
    ensures r.Ok? <==>
      NodeItems(Get(plan, "nodes", JArr([]))).Some?
      && forall n <- NodeItems(Get(plan, "nodes", JArr([]))).value :: Known(n, Ids(adapters))
    ensures r == Err(NodesNotIterable) <==> NodeItems(Get(plan, "nodes", JArr([]))).None?
  {
    match NodeItems(Get(plan, "nodes", JArr([])))
    case None => Err(NodesNotIterable)
    case Some(nodes) =>
      if exists n <- nodes :: !Hashable(n) then Err(UnhashableNode)
      else
        var unknown := Unknown(nodes, Ids(adapters));
        if unknown != [] then
          assert unknown[0] in unknown;
          Err(UnknownNodes(unknown))
        else
          Ok(StepEnvelope(version, ExecutionId(h, plan, adapters), Get(plan, "strategy", JNull),
                          NumberedSteps(Sort(Map(NodeName, nodes)), Get(plan, "timeout_ms", JInt(DEFAULT_TIMEOUT_MS))),
                          h(JObj(plan))))
  }

  /** A node list of hashable values fails only on unknown nodes, and the
      error lists them in plan order. */
  lemma UnknownNodesReported(h: Hasher, plan: map<string, Json>, adapters: seq<Adapter>, version: string)
    requires OrchestrateFor(h, plan, adapters, version).Err?
    requires NodeItems(Get(plan, "nodes", JArr([]))).Some?
    requires forall n <- NodeItems(Get(plan, "nodes", JArr([]))).value :: Hashable(n)
    ensures OrchestrateFor(h, plan, adapters, version)
         == Err(UnknownNodes(Unknown(NodeItems(Get(plan, "nodes", JArr([]))).value, Ids(adapters))))
  {
  }

  /** An accepted plan gives steps numbered 1, 2, ... one per node, each
      with the plan's timeout (5000 by default), and carries the plan's
      strategy, the execution id and the plan hash. */
  lemma OrchestrateShape(h: Hasher, plan: map<string, Json>, adapters: seq<Adapter>, version: string)
    requires OrchestrateFor(h, plan, adapters, version).Ok?
    ensures
      var r := OrchestrateFor(h, plan, adapters, version).value;
      var nodes := NodeItems(Get(plan, "nodes", JArr([]))).value;
      && |r.steps| == |nodes|
      && (forall i :: 0 <= i < |nodes| ==> r.steps[i].step == i + 1)
      && (forall s <- r.steps :: s.timeoutMs == Get(plan, "timeout_ms", JInt(DEFAULT_TIMEOUT_MS)))
      && r.strategy == Get(plan, "strategy", JNull)
      && r.executionId == ExecutionId(h, plan, adapters)
      && r.planHash == h(JObj(plan))
  {
    var nodes := NodeItems(Get(plan, "nodes", JArr([]))).value;
    var timeout := Get(plan, "timeout_ms", JInt(DEFAULT_TIMEOUT_MS));
    var sorted := Sort(Map(NodeName, nodes));
    assert |sorted| == |nodes| by {
      SortSorted(Map(NodeName, nodes));
      assert |multiset(sorted)| == |multiset(Map(NodeName, nodes))|;
    }
    assert OrchestrateFor(h, plan, adapters, version).value.steps == NumberedSteps(sorted, timeout);
  }

  /** `next(a for a in adapters if a['adapter_id'] == node)`: the first
      adapter with that id. */
  method FindAdapter(adapters: seq<Adapter>, node: string) returns (a: Adapter)
    requires node in Ids(adapters)
    ensures a.id == node
    ensures exists k :: 0 <= k < |adapters| && adapters[k] == a && forall j :: 0 <= j < k ==> adapters[j].id != node
  {
    var i := 0;
    while adapters[i].id != node
      invariant 0 <= i < |adapters|
      invariant forall j :: 0 <= j < i ==> adapters[j].id != node
      invariant exists k :: i <= k < |adapters| && adapters[k].id == node
      decreases |adapters| - i
    {
      i := i + 1;
    }
    a := adapters[i];
  }

  /** The enumerate loop: step `i + 1` for the `i`-th sorted node, on the
      adapter the search finds for it. */
  method NumberSteps(adapters: seq<Adapter>, ordered: seq<string>, timeout: Json) returns (steps: seq<NumberedStep>)
    requires forall n <- ordered :: n in Ids(adapters)
    ensures steps == NumberedSteps(ordered, timeout)
  {
    steps := [];
    var i := 0;
    while i < |ordered|
      invariant 0 <= i <= |ordered|
      invariant steps == NumberedSteps(ordered[..i], timeout)
    {
      var adapter := FindAdapter(adapters, ordered[i]);
      steps := steps + [NumberedStep(i + 1, adapter.id, timeout)];
      i := i + 1;
    }
    assert ordered[..i] == ordered;
  }

  lemma SortedNamesKnown(nodes: seq<Json>, ids: seq<string>)
    requires forall n <- nodes :: Known(n, ids)
    ensures forall n <- Sort(Map(NodeName, nodes)) :: n in ids
  {
    forall n <- Sort(Map(NodeName, nodes)) ensures n in ids {
      assert n in multiset(Map(NodeName, nodes));
      var k :| 0 <= k < |nodes| && NodeName(nodes[k]) == n;
      assert Known(nodes[k], ids);
    }
  }

  /** The orchestrator: the unknown-node check, then the numbering loop. */
  method BuildExecutionEnvelope(h: Hasher, plan: map<string, Json>, adapters: seq<Adapter>, version: string)
    returns (r: Result<StepEnvelope, OrchError>)
    ensures r == OrchestrateFor(h, plan, adapters, version)
  {
    var items := NodeItems(Get(plan, "nodes", JArr([])));
    if items.None? {
      return Err(NodesNotIterable);
    }
    var nodes := items.value;
    if exists n <- nodes :: !Hashable(n) {
      return Err(UnhashableNode);
    }
    var unknown := Unknown(nodes, Ids(adapters));
    if unknown != [] {
      return Err(UnknownNodes(unknown));
    }
    SortedNamesKnown(nodes, Ids(adapters));
    var ordered := Sort(Map(NodeName, nodes));
    var steps := NumberSteps(adapters, ordered, Get(plan, "timeout_ms", JInt(DEFAULT_TIMEOUT_MS)));
    r := Ok(StepEnvelope(version, ExecutionId(h, plan, adapters), Get(plan, "strategy", JNull), steps, h(JObj(plan))));
  }

  /** The steps follow the sorted node names, duplicates included. */
  lemma StepsFollowSortedNodes(h: Hasher, plan: map<string, Json>, adapters: seq<Adapter>, version: string)
    requires OrchestrateFor(h, plan, adapters, version).Ok?
    ensures
      var steps := OrchestrateFor(h, plan, adapters, version).value.steps;
      var names := Map(NodeName, NodeItems(Get(plan, "nodes", JArr([]))).value);
      && Sorted(Map(StepNodeOf, steps))
      && multiset(Map(StepNodeOf, steps)) == multiset(names)
  {
    var names := Map(NodeName, NodeItems(Get(plan, "nodes", JArr([]))).value);
    SortSorted(names);
    var steps := OrchestrateFor(h, plan, adapters, version).value.steps;
    assert Map(StepNodeOf, steps) == Sort(names);
  }

  function StepNodeOf(s: NumberedStep): string { s.node }

  /** A string of nodes is walked character by character: it is accepted
      when every character is an adapter id, and then gives one step per
      character, in sorted order. */
  lemma {:induction false} StringNodesAreCharacters(h: Hasher, plan: map<string, Json>, adapters: seq<Adapter>,
                                                   version: string, nodes: string)
    requires Get(plan, "nodes", JArr([])) == JStr(nodes)
    requires forall i :: 0 <= i < |nodes| ==> [nodes[i]] in Ids(adapters)
    ensures OrchestrateFor(h, plan, adapters, version).Ok?
    ensures
      var steps := OrchestrateFor(h, plan, adapters, version).value.steps;
      && |steps| == |nodes|
      && multiset(Map(StepNodeOf, steps)) == multiset(seq(|nodes|, i requires 0 <= i < |nodes| => [nodes[i]]))
  {
    var items := NodeItems(JStr(nodes)).value;
    forall n <- items ensures Known(n, Ids(adapters)) {
      var i :| 0 <= i < |items| && items[i] == n;
    }
    OrchestrateShape(h, plan, adapters, version);
    StepsFollowSortedNodes(h, plan, adapters, version);
    assert Map(NodeName, items) == seq(|nodes|, i requires 0 <= i < |nodes| => [nodes[i]]);
  }

  /** `{"nodes": ""}` is an accepted plan with no steps. */
  lemma EmptyStringNodes(h: Hasher, adapters: seq<Adapter>, version: string)
    ensures var r := OrchestrateFor(h, map["nodes" := JStr("")], adapters, version);
            r.Ok? && r.value.steps == []
  {
    StringNodesAreCharacters(h, map["nodes" := JStr("")], adapters, version, "");
  }

  /** The execution id depends on the adapters only through the set of
      their ids: order and repetition do not matter. */
  lemma ExecutionIdIgnoresAdapterOrder(h: Hasher, plan: map<string, Json>, a: seq<Adapter>, b: seq<Adapter>)
    requires forall id :: id in Ids(a) <==> id in Ids(b)
    ensures ExecutionId(h, plan, a) == ExecutionId(h, plan, b)
  {
    SortedDistinctSetInvariant(Ids(a), Ids(b));
  }
}
