/** `build_execution_envelope` of the `model_layer` package: turns a plan
    into a dry-run envelope with one step per node, in sorted node order,
    and binds the plan id and the node list into `envelope_id`. */
module EnvelopeBuilder {
  import opened Wrappers
  import opened JsonValues
  import opened Digest
  import opened Seqs
  import opened StringOrder
  import opened Adapters

  datatype BuildError =
    | PlanNotObject            // TypeError
    | MissingStrategyOrNodes
    | NodesNotList             // TypeError
    | EmptyNodes
    | UnhashableNode           // TypeError raised by `set(...)`
    | DuplicateNodes
    | UnknownNode(node: Json)

  /** A dry-run step: `adapter` is always the node itself and `mode` is
      always `"dry-run"`; `timeout_ms` is carried when the plan has one. */
  datatype BuiltStep = BuiltStep(node: string, timeoutMs: Option<Json>)

  datatype Envelope = Envelope(planId: Json, steps: seq<BuiltStep>, envelopeId: string)

  function StepJson(s: BuiltStep): (r: Json)
    ensures r.JObj? && {"node", "adapter", "mode"} <= r.fields.Keys && "id" !in r.fields
    ensures r.fields["node"] == JStr(s.node) && r.fields["adapter"] == JStr(s.node)
    ensures r.fields["mode"] == JStr("dry-run")
    ensures "timeout_ms" in r.fields <==> s.timeoutMs.Some?
    ensures s.timeoutMs.Some? ==> r.fields["timeout_ms"] == s.timeoutMs.value
  {
    var base := map["node" := JStr(s.node), "adapter" := JStr(s.node), "mode" := JStr("dry-run")];
    match s.timeoutMs
    case None => JObj(base)
    case Some(t) => JObj(base["timeout_ms" := t])
  }

  function EnvelopeJson(e: Envelope): (r: Json)
    ensures r.JObj? && r.fields.Keys == {"plan_id", "steps", "envelope_id"}
    ensures r.fields["plan_id"] == e.planId && r.fields["envelope_id"] == JStr(e.envelopeId)
    ensures r.fields["steps"] == JArr(Map(StepJson, e.steps))
  {
    JObj(map["plan_id" := e.planId, "steps" := JArr(Map(StepJson, e.steps)), "envelope_id" := JStr(e.envelopeId)])
  }

  predicate Distinct(s: seq<Json>)
  {
    forall i, j :: 0 <= i < j < |s| ==> s[i] != s[j]
  }

  /** A node the adapter map `{a["adapter_id"]: a}` has a key for. */
  predicate Known(n: Json, ids: seq<string>)
  {
    n.JStr? && n.s in ids
  }

  /** The structural checks on the plan (orchestrator.py lines 27-38), in
      their order; on success, the node list. */
  function StructuralChecks(plan: Json): (r: Result<seq<Json>, BuildError>)
    ensures r.Ok? <==>
      && plan.JObj? && "strategy" in plan.fields && "nodes" in plan.fields
      && plan.fields["nodes"].JArr? && plan.fields["nodes"].items != []
      && (forall n <- plan.fields["nodes"].items :: Hashable(n))
      && Distinct(plan.fields["nodes"].items)
    ensures r.Ok? ==> r.value == plan.fields["nodes"].items
  {
    if !plan.JObj? then Err(PlanNotObject)
    else if "strategy" !in plan.fields || "nodes" !in plan.fields then Err(MissingStrategyOrNodes)
    else if !plan.fields["nodes"].JArr? then Err(NodesNotList)
    else
      var nodes := plan.fields["nodes"].items;
      if nodes == [] then Err(EmptyNodes)
      else if exists n <- nodes :: !Hashable(n) then Err(UnhashableNode)
      else if !Distinct(nodes) then Err(DuplicateNodes)
      else Ok(nodes)
  }

  /** The index of the first node the adapters do not know, if any. */
  function FirstUnknown(nodes: seq<Json>, ids: seq<string>, from: nat): (r: Option<nat>)
    requires from <= |nodes|
    ensures r.None? <==> forall i :: from <= i < |nodes| ==> Known(nodes[i], ids)
    ensures r.Some? ==>
      && from <= r.value < |nodes| && !Known(nodes[r.value], ids)
      && forall i :: from <= i < r.value ==> Known(nodes[i], ids)
    decreases |nodes| - from
  {
    if from == |nodes| then None
    else if !Known(nodes[from], ids) then Some(from)
    else FirstUnknown(nodes, ids, from + 1)
  }

  function NodeName(n: Json): string
  {
    if n.JStr? then n.s else ""
  }

  /** The steps for the sorted node names. */
  function StepsFor(sorted: seq<string>, timeout: Json): (r: seq<BuiltStep>)
    ensures |r| == |sorted|
    ensures forall i :: 0 <= i < |sorted| ==>
      r[i].node == sorted[i] && (r[i].timeoutMs.Some? <==> timeout != JNull)
      && (timeout != JNull ==> r[i].timeoutMs == Some(timeout))
  {
    seq(|sorted|, i requires 0 <= i < |sorted| =>
      BuiltStep(sorted[i], if timeout != JNull then Some(timeout) else None))
  }

  /** `plan.get("plan_id") or _id_for(plan)`. */
  function EnvelopePlanId(h: Hasher, plan: map<string, Json>): (r: Json)
    ensures Truthy(Get(plan, "plan_id", JNull)) ==> r == plan["plan_id"]
    ensures !Truthy(Get(plan, "plan_id", JNull)) ==> r == JStr(h(JObj(plan)))
  {
    var given := Get(plan, "plan_id", JNull);
    if Truthy(given) then given else JStr(h(JObj(plan)))
  }

  /** The digest binding the plan id to the step nodes. */
  function EnvelopeIdFor(h: Hasher, planId: Json, sorted: seq<string>): string
  {
    h(JObj(map["plan_id" := planId, "steps" := JArr(Strs(sorted))]))
  }

  /** The sorted node names of a validated node list. */
  function SortedNodes(nodes: seq<Json>): seq<string>
  {
    Sort(Map(NodeName, nodes))
  }

  /** The envelope `build_execution_envelope` returns, or the error it raises. */
  function EnvelopeFor(h: Hasher, plan: Json, adapters: seq<Adapter>): (r: Result<Envelope, BuildError>)
    ensures r.Ok? <==>
      StructuralChecks(plan).Ok? && forall n <- plan.fields["nodes"].items :: Known(n, Ids(adapters))
  {
    match StructuralChecks(plan)
    case Err(e) => Err(e)
    case Ok(nodes) =>
      match FirstUnknown(nodes, Ids(adapters), 0)
      case Some(i) => Err(UnknownNode(nodes[i]))
      case None =>
        var sorted := SortedNodes(nodes);
        var planId := EnvelopePlanId(h, plan.fields);
        Ok(Envelope(planId, StepsFor(sorted, Get(plan.fields, "timeout_ms", JNull)), EnvelopeIdFor(h, planId, sorted)))
  }

  /** An accepted plan gives one step per node, in sorted order, each on a
      known adapter and with the plan's timeout when it has one; the plan id
      and the envelope id are bound as `orchestrator.py` builds them. */
  lemma EnvelopeShape(h: Hasher, plan: Json, adapters: seq<Adapter>)
    requires EnvelopeFor(h, plan, adapters).Ok?
    ensures
      var e := EnvelopeFor(h, plan, adapters).value;
      var nodes := plan.fields["nodes"].items;
      && |e.steps| == |nodes|
      && Map(StepNode, e.steps) == SortedNodes(nodes)
      && Sorted(Map(StepNode, e.steps))
      && multiset(Map(StepNode, e.steps)) == multiset(Map(NodeName, nodes))
      && e.planId == EnvelopePlanId(h, plan.fields)
      && e.envelopeId == EnvelopeIdFor(h, e.planId, Map(StepNode, e.steps))
      && forall s <- e.steps ::
           s.node in Ids(adapters)
           && s.timeoutMs == (if Get(plan.fields, "timeout_ms", JNull) != JNull
                              then Some(plan.fields["timeout_ms"]) else None)
  {
    var nodes := plan.fields["nodes"].items;
    var sorted := SortedNodes(nodes);
    SortSorted(Map(NodeName, nodes));
    var e := EnvelopeFor(h, plan, adapters).value;
    assert Map(StepNode, e.steps) == sorted;
    forall s <- e.steps ensures s.node in Ids(adapters) {
      assert s.node in multiset(sorted);
      var k :| 0 <= k < |nodes| && NodeName(nodes[k]) == s.node;
      assert Known(nodes[k], Ids(adapters));
    }
  }

  function StepNode(s: BuiltStep): string { s.node }

  /** `build_execution_envelope`: the checks, the node-validation loop and the
      step-building loop. */
  method BuildExecutionEnvelope(h: Hasher, plan: Json, adapters: seq<Adapter>)
    returns (r: Result<Envelope, BuildError>)
    ensures r == EnvelopeFor(h, plan, adapters)
  {
    var checked := StructuralChecks(plan);
    if checked.Err? {
      return Err(checked.error);
    }
    var nodes := checked.value;
    var ids := Ids(adapters);
    var i := 0;
    while i < |nodes|
      invariant 0 <= i <= |nodes|
      invariant forall k :: 0 <= k < i ==> Known(nodes[k], ids)
    {
      if !(nodes[i].JStr? && nodes[i].s in ids) {
        return Err(UnknownNode(nodes[i]));
      }
      i := i + 1;
    }
    var sorted := SortedNodes(nodes);
    var timeout := Get(plan.fields, "timeout_ms", JNull);
    var steps: seq<BuiltStep> := [];
    var j := 0;
    while j < |sorted|
      invariant 0 <= j <= |sorted|
      invariant steps == StepsFor(sorted[..j], timeout)
    {
      steps := steps + [BuiltStep(sorted[j], if timeout != JNull then Some(timeout) else None)];
      j := j + 1;
    }
    assert sorted[..j] == sorted;
    var planId := EnvelopePlanId(h, plan.fields);
    r := Ok(Envelope(planId, steps, EnvelopeIdFor(h, planId, sorted)));
  }

  lemma {:induction false} DistinctCounts(s: seq<Json>)
    ensures Distinct(s) <==> forall x :: multiset(s)[x] <= 1
  {
    if s != [] {
      var rest := s[1..];
      DistinctCounts(rest);
      assert s == [s[0]] + rest;
      assert multiset(s) == multiset{s[0]} + multiset(rest);
      if Distinct(s) {
        assert forall i :: 0 <= i < |rest| ==> rest[i] != s[0] by {
          forall i | 0 <= i < |rest| ensures rest[i] != s[0] {
            assert rest[i] == s[i + 1];
          }
        }
        assert s[0] !in multiset(rest);
        assert Distinct(rest) by {
          forall i, j | 0 <= i < j < |rest| ensures rest[i] != rest[j] {
            assert rest[i] == s[i + 1] && rest[j] == s[j + 1];
          }
        }
      }
      if forall x :: multiset(s)[x] <= 1 {
        assert multiset(s)[s[0]] <= 1;
        assert s[0] !in rest;
        assert forall x :: multiset(rest)[x] <= multiset(s)[x];
        forall i, j | 0 <= i < j < |s| ensures s[i] != s[j] {
          if i == 0 {
            assert s[j] == rest[j - 1];
          } else {
            assert s[i] == rest[i - 1] && s[j] == rest[j - 1];
          }
        }
      }
    }
  }

  lemma DistinctPermutation(a: seq<Json>, b: seq<Json>)
    requires Distinct(a) && multiset(a) == multiset(b)
    ensures Distinct(b)
  {
    DistinctCounts(a);
    DistinctCounts(b);
  }

  /** Reordering `plan.nodes` is invisible in the steps: the same plan with
      its nodes permuted is accepted and yields the same steps. When the
      plan carries a truthy `plan_id`, the whole envelope, id included, is
      the same. */
  lemma NodeOrderIrrelevant(h: Hasher, plan: map<string, Json>, nodes2: seq<Json>, adapters: seq<Adapter>)
    requires "nodes" in plan && plan["nodes"].JArr?
    requires multiset(nodes2) == multiset(plan["nodes"].items)
    requires EnvelopeFor(h, JObj(plan), adapters).Ok?
    ensures EnvelopeFor(h, JObj(plan["nodes" := JArr(nodes2)]), adapters).Ok?
    ensures EnvelopeFor(h, JObj(plan["nodes" := JArr(nodes2)]), adapters).value.steps
         == EnvelopeFor(h, JObj(plan), adapters).value.steps
    ensures Truthy(Get(plan, "plan_id", JNull)) ==>
      EnvelopeFor(h, JObj(plan["nodes" := JArr(nodes2)]), adapters)
      == EnvelopeFor(h, JObj(plan), adapters)
  {
    var plan2 := plan["nodes" := JArr(nodes2)];
    PermutedNodesAccepted(h, plan, nodes2, adapters);
    SortedNodesPermutation(plan["nodes"].items, nodes2);
    assert Get(plan2, "timeout_ms", JNull) == Get(plan, "timeout_ms", JNull);
    assert Get(plan2, "plan_id", JNull) == Get(plan, "plan_id", JNull);
  }

  lemma PermutedNodesAccepted(h: Hasher, plan: map<string, Json>, nodes2: seq<Json>, adapters: seq<Adapter>)
    requires "nodes" in plan && plan["nodes"].JArr?
    requires multiset(nodes2) == multiset(plan["nodes"].items)
    requires EnvelopeFor(h, JObj(plan), adapters).Ok?
    ensures EnvelopeFor(h, JObj(plan["nodes" := JArr(nodes2)]), adapters).Ok?
  {
    var nodes := plan["nodes"].items;
    var plan2 := plan["nodes" := JArr(nodes2)];
    DistinctPermutation(nodes, nodes2);
    assert forall n <- nodes2 :: n in multiset(nodes);
    assert StructuralChecks(JObj(plan2)).Ok?;
    forall i | 0 <= i < |nodes2| ensures Known(nodes2[i], Ids(adapters)) {
      assert nodes2[i] in multiset(nodes);
    }
  }

  lemma SortedNodesPermutation(nodes: seq<Json>, nodes2: seq<Json>)
    requires multiset(nodes2) == multiset(nodes)
    ensures SortedNodes(nodes2) == SortedNodes(nodes)
  {
    MapPermutation(NodeName, nodes, nodes2);
    SortPermutationInvariant(Map(NodeName, nodes), Map(NodeName, nodes2));
  }

  lemma StepNodesOf(sorted: seq<string>, timeout: Json)
    ensures Map(StepNode, StepsFor(sorted, timeout)) == sorted
  {
  }

  lemma {:induction false} StrsInjective(a: seq<string>, b: seq<string>)
    requires Strs(a) == Strs(b)
    ensures a == b
  {
    assert |a| == |b|;
    forall i | 0 <= i < |a| ensures a[i] == b[i] {
      assert Strs(a)[i] == Strs(b)[i];
    }
  }

  lemma EnvelopeIdForInjective(h: Hasher, p1: Json, s1: seq<string>, p2: Json, s2: seq<string>)
    requires Injective(h) && EnvelopeIdFor(h, p1, s1) == EnvelopeIdFor(h, p2, s2)
    ensures p1 == p2 && s1 == s2
  {
    var j1 := JObj(map["plan_id" := p1, "steps" := JArr(Strs(s1))]);
    var j2 := JObj(map["plan_id" := p2, "steps" := JArr(Strs(s2))]);
    assert h(j1) == h(j2);
    assert j1.fields["steps"] == j2.fields["steps"] && j1.fields["plan_id"] == j2.fields["plan_id"];
    StrsInjective(s1, s2);
  }

  /** With a collision-free digest, the envelope id pins down the plan id
      and the step nodes in order. */
  lemma EnvelopeIdBindsNodes(h: Hasher, p1: Json, p2: Json, adapters1: seq<Adapter>, adapters2: seq<Adapter>)
    requires Injective(h)
    requires EnvelopeFor(h, p1, adapters1).Ok? && EnvelopeFor(h, p2, adapters2).Ok?
    requires EnvelopeFor(h, p1, adapters1).value.envelopeId == EnvelopeFor(h, p2, adapters2).value.envelopeId
    ensures EnvelopeFor(h, p1, adapters1).value.planId == EnvelopeFor(h, p2, adapters2).value.planId
    ensures Map(StepNode, EnvelopeFor(h, p1, adapters1).value.steps)
         == Map(StepNode, EnvelopeFor(h, p2, adapters2).value.steps)
  {
    var s1 := SortedNodes(p1.fields["nodes"].items);
    var s2 := SortedNodes(p2.fields["nodes"].items);
    StepNodesOf(s1, Get(p1.fields, "timeout_ms", JNull));
    StepNodesOf(s2, Get(p2.fields, "timeout_ms", JNull));
    EnvelopeIdForInjective(h, EnvelopeFor(h, p1, adapters1).value.planId, s1,
                              EnvelopeFor(h, p2, adapters2).value.planId, s2);
  }
}
