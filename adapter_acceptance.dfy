/** `check_plan_acceptance`: whether one adapter accepts an execution plan.
    Rejections carry the reason strings `unsupported_strategy`,
    `determinism_unsupported` and `limit_exceeded`; a plan whose shape makes
    the Python code raise (`AttributeError`, `TypeError`) is reported as a
    `TypeFault`. */
module AdapterAcceptance {
  import opened Wrappers
  import opened JsonValues
  import opened Adapters
  import PlanValidator

  datatype AcceptError = UnsupportedStrategy | DeterminismUnsupported | LimitExceeded | TypeFault

  /** The reason string a rejection carries. */
  function Reason(e: AcceptError): (r: Option<string>)
    ensures r.None? <==> e == TypeFault
  {
    match e
    case UnsupportedStrategy => Some("unsupported_strategy")
    case DeterminismUnsupported => Some("determinism_unsupported")
    case LimitExceeded => Some("limit_exceeded")
    case TypeFault => None
  }

  /** `plan.get('strategy') in caps['supported_strategies']`: only a string
      can equal one of the listed names. */
  predicate StrategySupported(a: Adapter, plan: map<string, Json>)
  {
    var s := Get(plan, "strategy", JNull);
    s.JStr? && s.s in a.supportedStrategies
  }

  /** The bound in force: an explicit maximum, else the descriptor's. */
  function TimeoutLimit(a: Adapter, maxTimeout: Option<int>): (r: Option<int>)
    ensures maxTimeout.Some? ==> r == maxTimeout
    ensures maxTimeout.None? ==> r == a.timeoutMsMax
  {
    if maxTimeout.Some? then maxTimeout else a.timeoutMsMax
  }

  /** Whether a truthy `nodes` value holds an element outside `discovered`,
      iterating it as Python does: a list by its items, a string by its
      characters, a dict by its keys; an unhashable list item, or an integer
      or `True`, raises. */
  function HasUnknown(nodes: Json, discovered: seq<string>): (r: Result<bool, AcceptError>)
    requires Truthy(nodes)
    ensures r.Err? ==> r.error == TypeFault
    ensures nodes.JArr? && (forall n <- nodes.items :: n.JStr?) ==>
              r == Ok(exists n <- nodes.items :: n.s !in discovered)
  {
    match nodes
    case JArr(items) =>
      if exists n <- items :: !Hashable(n) then Err(TypeFault)
      else Ok(exists n <- items :: !(n.JStr? && n.s in discovered))
    case JStr(s) => Ok(exists i | 0 <= i < |s| :: [s[i]] !in discovered)
    case JObj(m) => Ok(exists k | k in m.Keys :: k !in discovered)
    case _ => Err(TypeFault)
  }

  function ConstraintsOf(plan: map<string, Json>): Json
  {
    Get(plan, "constraints", JObj(map[]))
  }

  function NodesOf(plan: map<string, Json>): Json
  {
    Get(plan, "nodes", JArr([]))
  }

  function TimeoutOf(plan: map<string, Json>): Json
  {
    Get(plan, "timeout_ms", JInt(0))
  }

  /** The determinism rung passes: the constraints are an object, and a
      deterministic plan needs a deterministic adapter. */
  predicate DeterminismOk(a: Adapter, plan: map<string, Json>)
  {
    ConstraintsOf(plan).JObj?
    && (Truthy(Get(ConstraintsOf(plan).fields, "deterministic", JBool(false))) ==> a.deterministic)
  }

  /** The timeout rung passes: no limit, or an integer timeout within it. */
  predicate TimeoutOk(a: Adapter, plan: map<string, Json>, maxTimeout: Option<int>)
  {
    TimeoutLimit(a, maxTimeout).Some? ==>
      IntOf(TimeoutOf(plan)).Some? && IntOf(TimeoutOf(plan)).value <= TimeoutLimit(a, maxTimeout).value
  }

  /** The plans an adapter accepts, stated as one condition. */
  predicate Acceptable(a: Adapter, plan: Json, discovered: seq<string>, maxTimeout: Option<int>)
  {
    && plan.JObj?
    && StrategySupported(a, plan.fields)
    && DeterminismOk(a, plan.fields)
    && TimeoutOk(a, plan.fields, maxTimeout)
    && Truthy(NodesOf(plan.fields))
    && HasUnknown(NodesOf(plan.fields), discovered) == Ok(false)
  }

  /** `check_plan_acceptance`: the rungs in source order, each failing with
      its own reason once the earlier ones pass. */
  function CheckPlanAcceptance(a: Adapter, plan: Json, discovered: seq<string>, maxTimeout: Option<int>): (r: Outcome<AcceptError>)
    ensures r.Pass? <==> Acceptable(a, plan, discovered, maxTimeout)
    ensures !plan.JObj? ==> r == Fail(TypeFault)
    ensures plan.JObj? && !StrategySupported(a, plan.fields) ==> r == Fail(UnsupportedStrategy)
    ensures plan.JObj? && StrategySupported(a, plan.fields) && !ConstraintsOf(plan.fields).JObj? ==>
      r == Fail(TypeFault)
    ensures plan.JObj? && StrategySupported(a, plan.fields) && ConstraintsOf(plan.fields).JObj?
            && Truthy(Get(ConstraintsOf(plan.fields).fields, "deterministic", JBool(false))) && !a.deterministic ==>
      r == Fail(DeterminismUnsupported)
    ensures plan.JObj? && StrategySupported(a, plan.fields) && DeterminismOk(a, plan.fields)
            && TimeoutLimit(a, maxTimeout).Some? && IntOf(TimeoutOf(plan.fields)).Some?
            && IntOf(TimeoutOf(plan.fields)).value > TimeoutLimit(a, maxTimeout).value ==>
      r == Fail(LimitExceeded)
    ensures plan.JObj? && StrategySupported(a, plan.fields) && DeterminismOk(a, plan.fields)
            && TimeoutOk(a, plan.fields, maxTimeout) && !Truthy(NodesOf(plan.fields)) ==>
      r == Fail(LimitExceeded)
    ensures plan.JObj? && StrategySupported(a, plan.fields) && DeterminismOk(a, plan.fields)
            && TimeoutOk(a, plan.fields, maxTimeout) && Truthy(NodesOf(plan.fields))
            && HasUnknown(NodesOf(plan.fields), discovered) == Ok(true) ==>
      r == Fail(LimitExceeded)
  {
    if !plan.JObj? then Fail(TypeFault)
    else if !StrategySupported(a, plan.fields) then Fail(UnsupportedStrategy)
    else
      var constraints := ConstraintsOf(plan.fields);
      if !constraints.JObj? then Fail(TypeFault)
      else if Truthy(Get(constraints.fields, "deterministic", JBool(false))) && !a.deterministic then
        Fail(DeterminismUnsupported)
      else
        var timeout := TimeoutOf(plan.fields);
        var limit := TimeoutLimit(a, maxTimeout);
        if limit.Some? && IntOf(timeout).None? then Fail(TypeFault)
        else if limit.Some? && IntOf(timeout).value > limit.value then Fail(LimitExceeded)
        else
          var nodes := NodesOf(plan.fields);
          if !Truthy(nodes) then Fail(LimitExceeded)
          else if HasUnknown(nodes, discovered).Err? then Fail(TypeFault)
          else if HasUnknown(nodes, discovered).value then Fail(LimitExceeded)
          else Pass
  }

  /** An explicit maximum overrides the descriptor's `timeout_ms_max`: the
      descriptor's limit then plays no part. */
  lemma ExplicitMaximumOverrides(a: Adapter, limit: Option<int>, plan: Json, discovered: seq<string>, m: int)
    ensures CheckPlanAcceptance(a, plan, discovered, Some(m))
         == CheckPlanAcceptance(a.(timeoutMsMax := limit), plan, discovered, Some(m))
  {
  }

  /** A plan without `timeout_ms` is judged as if it carried 0. */
  lemma AbsentTimeoutIsZero(a: Adapter, plan: map<string, Json>, discovered: seq<string>, maxTimeout: Option<int>)
    requires "timeout_ms" !in plan
    ensures CheckPlanAcceptance(a, JObj(plan), discovered, maxTimeout)
         == CheckPlanAcceptance(a, JObj(plan["timeout_ms" := JInt(0)]), discovered, maxTimeout)
  {
    assert Get(plan["timeout_ms" := JInt(0)], "timeout_ms", JInt(0)) == Get(plan, "timeout_ms", JInt(0));
    assert forall k | k != "timeout_ms" :: Get(plan["timeout_ms" := JInt(0)], k, JNull) == Get(plan, k, JNull);
    assert forall k, d | k != "timeout_ms" :: Get(plan["timeout_ms" := JInt(0)], k, d) == Get(plan, k, d);
  }

  /** A plan the execution-plan validator accepts is also accepted by an
      adapter that supports its strategy and is deterministic, under the same
      maximum, provided its `constraints`, when present, is an object. */
  lemma ValidatedPlanAccepted(a: Adapter, plan: Json, discovered: seq<string>, m: int)
    requires PlanValidator.ValidateExecutionPlan(plan, discovered, Some(m)).Pass?
    requires PlanValidator.Strategy(plan) in a.supportedStrategies
    requires a.deterministic
    requires "constraints" in plan.fields ==> plan.fields["constraints"].JObj?
    ensures CheckPlanAcceptance(a, plan, discovered, Some(m)) == Pass
  {
    var nodes := PlanValidator.Nodes(plan);
    assert Get(plan.fields, "nodes", JArr([])) == JArr(nodes);
    assert nodes[0] in nodes;
  }

  /** The two checks read `constraints` differently: `"constraints": null`
      counts as `{}` for the validator (`or {}`) but makes the adapter check
      call `.get` on `None`. */
  lemma NullConstraintsDiverge()
    ensures var plan := JObj(map[
              "strategy" := JStr("single"), "nodes" := JArr([JStr("n1")]),
              "timeout_ms" := JInt(100), "merge_policy" := JStr("first_success"),
              "constraints" := JNull]);
            && PlanValidator.ValidateExecutionPlan(plan, ["n1"], Some(60000)) == Pass
            && CheckPlanAcceptance(Adapter("n1", ["single"], true, None), plan, ["n1"], Some(60000)) == Fail(TypeFault)
  {
    var plan := JObj(map[
      "strategy" := JStr("single"), "nodes" := JArr([JStr("n1")]),
      "timeout_ms" := JInt(100), "merge_policy" := JStr("first_success"),
      "constraints" := JNull]);
    assert PlanValidator.Nodes(plan) == [JStr("n1")];
    assert PlanValidator.UnknownNames(PlanValidator.Nodes(plan), ["n1"]) == [];
  }
}
