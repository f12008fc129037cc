/** `validate_plan_schema` and `validate_execution_plan`: a ladder of guards
    over an execution plan; the first failing guard names the error, and a
    plan that passes them all is accepted unchanged. */
module PlanValidator {
  import opened Wrappers
  import opened JsonValues

  const ALLOWED_STRATEGIES: set<string> := {"single", "fanout", "verify", "fallback"}
  const ALLOWED_MERGE_POLICIES: set<string> := {"first_success", "vote", "rank"}
  const DEFAULT_MAX_TIMEOUT_MS: int := 60000

  datatype PlanInvalid =
    | NotObject
    | MissingField(field: string)
    | WrongType(field: string)
    | NonStringNode
    | UnsupportedMergePolicy
    | UnsupportedStrategy
    | TimeoutBelowOne
    | EmptyNodes
    | UnknownNodes(nodes: seq<string>)
    | TimeoutAboveMax
    | ConstraintsNotObject
    | VoteWhenDeterministic
    | SingleNeedsOne
    | VerifyNeedsTwo

  datatype FieldType = StrType | ListType | IntType

  predicate HasType(j: Json, t: FieldType)
  {
    match t
    case StrType => j.JStr?
    case ListType => j.JArr?
    case IntType => IntOf(j).Some?
  }

  /** `_require_field`. */
  function RequireField(plan: map<string, Json>, field: string, t: FieldType): (r: Outcome<PlanInvalid>)
    ensures r.Pass? <==> field in plan && HasType(plan[field], t)
  {
    if field !in plan then Fail(MissingField(field))
    else if !HasType(plan[field], t) then Fail(WrongType(field))
    else Pass
  }

  /** A plan whose required fields all have their types. */
  predicate WellTyped(plan: Json)
  {
    && plan.JObj?
    && "strategy" in plan.fields && plan.fields["strategy"].JStr?
    && "nodes" in plan.fields && plan.fields["nodes"].JArr?
    && "timeout_ms" in plan.fields && IntOf(plan.fields["timeout_ms"]).Some?
    && "merge_policy" in plan.fields && plan.fields["merge_policy"].JStr?
  }

  function Strategy(plan: Json): string
    requires WellTyped(plan)
  {
    plan.fields["strategy"].s
  }

  function MergePolicy(plan: Json): string
    requires WellTyped(plan)
  {
    plan.fields["merge_policy"].s
  }

  function Timeout(plan: Json): int
    requires WellTyped(plan)
  {
    IntOf(plan.fields["timeout_ms"]).value
  }

  function Nodes(plan: Json): seq<Json>
    requires WellTyped(plan)
  {
    plan.fields["nodes"].items
  }

  /** `validate_plan_schema`. */
  function ValidateSchema(plan: Json): (r: Outcome<PlanInvalid>)
    ensures r.Pass? <==>
      && WellTyped(plan)
      && (forall n <- Nodes(plan) :: n.JStr?)
      && MergePolicy(plan) in ALLOWED_MERGE_POLICIES
      && Strategy(plan) in ALLOWED_STRATEGIES
      && Timeout(plan) >= 1
    ensures WellTyped(plan) && (forall n <- Nodes(plan) :: n.JStr?) && MergePolicy(plan) !in ALLOWED_MERGE_POLICIES
            ==> r == Fail(UnsupportedMergePolicy)
  {
    if !plan.JObj? then Fail(NotObject)
    else if RequireField(plan.fields, "strategy", StrType).Fail? then RequireField(plan.fields, "strategy", StrType)
    else if RequireField(plan.fields, "nodes", ListType).Fail? then RequireField(plan.fields, "nodes", ListType)
    else if RequireField(plan.fields, "timeout_ms", IntType).Fail? then RequireField(plan.fields, "timeout_ms", IntType)
    else if RequireField(plan.fields, "merge_policy", StrType).Fail? then RequireField(plan.fields, "merge_policy", StrType)
    else if exists n <- Nodes(plan) :: !n.JStr? then Fail(NonStringNode)
    else if MergePolicy(plan) !in ALLOWED_MERGE_POLICIES then Fail(UnsupportedMergePolicy)
    else if Strategy(plan) !in ALLOWED_STRATEGIES then Fail(UnsupportedStrategy)
    else if Timeout(plan) < 1 then Fail(TimeoutBelowOne)
    else Pass
  }

  function NameOf(n: Json): string
  {
    if n.JStr? then n.s else ""
  }

  /** `[n for n in nodes if n not in discovered_set]`. */
  function UnknownNames(nodes: seq<Json>, discovered: seq<string>): (r: seq<string>)
    ensures forall x :: x in r <==> exists n <- nodes :: NameOf(n) == x && x !in discovered
  {
    if nodes == [] then []
    else
      var rest := UnknownNames(nodes[1..], discovered);
      assert forall n <- nodes[1..] :: n in nodes;
      assert forall n <- nodes :: n == nodes[0] || n in nodes[1..];
      (if NameOf(nodes[0]) in discovered then [] else [NameOf(nodes[0])]) + rest
  }

  /** `plan.get("constraints") or {}`. */
  function Constraints(plan: map<string, Json>): Json
  {
    var c := Get(plan, "constraints", JNull);
    if Truthy(c) then c else JObj(map[])
  }

  predicate Deterministic(constraints: Json)
    requires constraints.JObj?
  {
    Truthy(Get(constraints.fields, "deterministic", JBool(false)))
  }

  /** Every node is discovered. */
  predicate NodesKnown(plan: Json, discovered: seq<string>)
    requires WellTyped(plan)
  {
    forall n <- Nodes(plan) :: NameOf(n) in discovered
  }

  predicate WithinMax(plan: Json, maxTimeout: Option<int>)
    requires WellTyped(plan)
  {
    maxTimeout.Some? ==> Timeout(plan) <= maxTimeout.value
  }

  /** `constraints.deterministic` together with the `vote` merge policy. */
  predicate VoteDeterministic(plan: Json)
    requires WellTyped(plan) && Constraints(plan.fields).JObj?
  {
    Deterministic(Constraints(plan.fields)) && MergePolicy(plan) == "vote"
  }

  /** The plans the validator accepts, stated as one condition. */
  predicate ValidPlan(plan: Json, discovered: seq<string>, maxTimeout: Option<int>)
  {
    && WellTyped(plan)
    && (forall n <- Nodes(plan) :: n.JStr?)
    && MergePolicy(plan) in ALLOWED_MERGE_POLICIES
    && Strategy(plan) in ALLOWED_STRATEGIES
    && Timeout(plan) >= 1
    && Nodes(plan) != []
    && (forall n <- Nodes(plan) :: n.s in discovered)
    && (maxTimeout.Some? ==> Timeout(plan) <= maxTimeout.value)
    && Constraints(plan.fields).JObj?
    && !(Deterministic(Constraints(plan.fields)) && MergePolicy(plan) == "vote")
    && (Strategy(plan) == "single" ==> |Nodes(plan)| == 1)
    && (Strategy(plan) == "verify" ==> |Nodes(plan)| >= 2)
  }

  /** `validate_execution_plan`; the maximum timeout defaults to 60000 at the
      call site, and `None` disables the upper bound. */
  function ValidateExecutionPlan(plan: Json, discovered: seq<string>, maxTimeout: Option<int>): (r: Outcome<PlanInvalid>)
    ensures r.Pass? <==> ValidPlan(plan, discovered, maxTimeout)
    ensures ValidateSchema(plan).Fail? ==> r == ValidateSchema(plan)
    ensures ValidateSchema(plan).Pass? && Nodes(plan) == [] ==> r == Fail(EmptyNodes)
    ensures ValidateSchema(plan).Pass? && Nodes(plan) != [] && !NodesKnown(plan, discovered)
            ==> r == Fail(UnknownNodes(UnknownNames(Nodes(plan), discovered)))
    ensures ValidateSchema(plan).Pass? && Nodes(plan) != [] && NodesKnown(plan, discovered)
            && !WithinMax(plan, maxTimeout)
            ==> r == Fail(TimeoutAboveMax)
    ensures ValidateSchema(plan).Pass? && Nodes(plan) != [] && NodesKnown(plan, discovered)
            && WithinMax(plan, maxTimeout) && !Constraints(plan.fields).JObj?
            ==> r == Fail(ConstraintsNotObject)
    ensures ValidateSchema(plan).Pass? && Nodes(plan) != [] && NodesKnown(plan, discovered)
            && WithinMax(plan, maxTimeout) && Constraints(plan.fields).JObj? && VoteDeterministic(plan)
            ==> r == Fail(VoteWhenDeterministic)
    ensures ValidateSchema(plan).Pass? && Nodes(plan) != [] && NodesKnown(plan, discovered)
            && WithinMax(plan, maxTimeout) && Constraints(plan.fields).JObj? && !VoteDeterministic(plan)
            && Strategy(plan) == "single" && |Nodes(plan)| != 1
            ==> r == Fail(SingleNeedsOne)
    ensures ValidateSchema(plan).Pass? && Nodes(plan) != [] && NodesKnown(plan, discovered)
            && WithinMax(plan, maxTimeout) && Constraints(plan.fields).JObj? && !VoteDeterministic(plan)
            && Strategy(plan) == "verify" && |Nodes(plan)| < 2
            ==> r == Fail(VerifyNeedsTwo)
  {
    if ValidateSchema(plan).Fail? then ValidateSchema(plan)
    else
      var nodes := Nodes(plan);
      var unknown := UnknownNames(nodes, discovered);
      if nodes == [] then Fail(EmptyNodes)
      else if unknown != [] then
        assert unknown[0] in unknown;
        Fail(UnknownNodes(unknown))
      else if maxTimeout.Some? && Timeout(plan) > maxTimeout.value then Fail(TimeoutAboveMax)
      else
        var constraints := Constraints(plan.fields);
        if !constraints.JObj? then Fail(ConstraintsNotObject)
        else if Deterministic(constraints) && MergePolicy(plan) == "vote" then Fail(VoteWhenDeterministic)
        else if Strategy(plan) == "single" && |nodes| != 1 then Fail(SingleNeedsOne)
        else if Strategy(plan) == "verify" && |nodes| < 2 then Fail(VerifyNeedsTwo)
        else Pass
  }

  /** Raising the maximum never turns an accepted plan into a rejected one,
      and with no maximum only the other checks remain. */
  lemma LargerMaximumKeepsAcceptance(plan: Json, discovered: seq<string>, m1: int, m2: int)
    requires m1 <= m2
    requires ValidateExecutionPlan(plan, discovered, Some(m1)).Pass?
    ensures ValidateExecutionPlan(plan, discovered, Some(m2)).Pass?
    ensures ValidateExecutionPlan(plan, discovered, None).Pass?
  {
  }

  /** The merge policy is checked before the strategy: a plan with both
      wrong is reported for its merge policy. */
  lemma MergePolicyCheckedFirst(plan: Json, discovered: seq<string>, maxTimeout: Option<int>)
    requires WellTyped(plan) && forall n <- Nodes(plan) :: n.JStr?
    requires MergePolicy(plan) !in ALLOWED_MERGE_POLICIES && Strategy(plan) !in ALLOWED_STRATEGIES
    ensures ValidateExecutionPlan(plan, discovered, maxTimeout) == Fail(UnsupportedMergePolicy)
  {
  }
}
