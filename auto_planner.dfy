/** `build_execution_plan` of the earlier planner: chooses a strategy from
    the adapters unless a hint names one, dispatches to the strategy helper
    and wraps its fragment into a plan. */
module AutoPlanner {
  import opened Wrappers
  import opened JsonValues
  import opened Digest
  import opened Adapters
  import opened Strategies

  datatype AutoPlanError =
    | NoAdapters
    | UnsupportedStrategy(name: string)
    | StrategyFailed(cause: StrategyError)

  /** The plan dict; `requestHash` and `reason` form its `_explain` part. */
  datatype AutoPlan = AutoPlan(
    strategy: string,
    nodes: seq<string>,
    timeoutMs: int,
    mergePolicy: string,
    constraints: Json,
    requestHash: string,
    reason: string)

  const DEFAULT_TIMEOUT_MS: int := 5000

  predicate SupportsVerify(a: Adapter)
  {
    "verify" in a.supportedStrategies
  }

  /** The automatic choice, or the hint when there is one. */
  function ChooseStrategy(adapters: seq<Adapter>, hint: Option<string>): (r: string)
    ensures hint.Some? ==> r == hint.value
    ensures hint.None? && |adapters| == 1 ==> r == "single"
    ensures hint.None? && |adapters| != 1 && (exists a <- adapters :: SupportsVerify(a)) ==> r == "verify"
    ensures hint.None? && |adapters| != 1 && (forall a <- adapters :: !SupportsVerify(a)) ==>
      r == (if |adapters| >= 3 then "quorum" else "fanout")
  {
    if hint.Some? then hint.value
    else if |adapters| == 1 then "single"
    else if exists a <- adapters :: SupportsVerify(a) then "verify"
    else if |adapters| >= 3 then "quorum"
    else "fanout"
  }

  /** The strategy dispatch. */
  function Dispatch(strategy: string, adapters: seq<Adapter>, fanout: Option<int>, quorumSize: Option<int>)
    : (r: Result<Fragment, AutoPlanError>)
    ensures strategy !in {"single", "fanout", "verify", "quorum"} ==> r == Err(UnsupportedStrategy(strategy))
    ensures r.Ok? ==> r.value.strategy == strategy
  {
    if strategy == "single" then Ok(SingleStrategy(adapters))
    else if strategy == "fanout" then Ok(FanoutStrategy(adapters, fanout))
    else if strategy == "verify" then
      match VerifyStrategy(adapters)
      case Err(e) => Err(StrategyFailed(e))
      case Ok(f) => Ok(f)
    else if strategy == "quorum" then
      match QuorumStrategy(adapters, quorumSize)
      case Err(e) => Err(StrategyFailed(e))
      case Ok(f) => Ok(f)
    else Err(UnsupportedStrategy(strategy))
  }

  /** `_canonical_request_hash`: the digest of the validated prompt. */
  function RequestHash(h: Hasher, prompt: map<string, Json>): string
  {
    h(JObj(prompt))
  }

  /** The plan the automatic planner returns, or the error it raises. */
  function AutoPlanFor(h: Hasher, prompt: map<string, Json>, adapters: seq<Adapter>, hint: Option<string>,
                       fanout: Option<int>, quorumSize: Option<int>, timeoutMs: int): (r: Result<AutoPlan, AutoPlanError>)
    ensures adapters == [] ==> r == Err(NoAdapters)
    ensures r.Ok? ==>
      var f := Dispatch(ChooseStrategy(adapters, hint), adapters, fanout, quorumSize);
      && f.Ok?
      && r.value.strategy == f.value.strategy == ChooseStrategy(adapters, hint)
      && r.value.nodes == f.value.nodes && r.value.mergePolicy == f.value.mergePolicy
      && r.value.timeoutMs == timeoutMs
      && r.value.constraints == Get(prompt, "constraints", JObj(map[]))
      && r.value.requestHash == RequestHash(h, prompt)
    ensures adapters != [] ==> (r.Ok? <==> Dispatch(ChooseStrategy(adapters, hint), adapters, fanout, quorumSize).Ok?)
  {
    if adapters == [] then Err(NoAdapters)
    else
      var strategy := ChooseStrategy(adapters, hint);
      match Dispatch(strategy, adapters, fanout, quorumSize)
      case Err(e) => Err(e)
      case Ok(f) =>
        Ok(AutoPlan(f.strategy, f.nodes, timeoutMs, f.mergePolicy,
                    Get(prompt, "constraints", JObj(map[])), RequestHash(h, prompt),
                    "selected strategy " + f.strategy + " deterministically"))
  }

  /** Without a hint the automatic choice always succeeds on a non-empty
      adapter list: verify is only chosen with two or more adapters, and
      quorum only with at least three, where its default size of 3 fits. */
  lemma AutomaticChoiceSucceeds(h: Hasher, prompt: map<string, Json>, adapters: seq<Adapter>,
                                fanout: Option<int>, timeoutMs: int)
    requires adapters != []
    ensures AutoPlanFor(h, prompt, adapters, None, fanout, None, timeoutMs).Ok?
  {
  }

  lemma ChoiceIgnoresOrder(a: seq<Adapter>, b: seq<Adapter>, hint: Option<string>)
    requires multiset(a) == multiset(b)
    ensures ChooseStrategy(a, hint) == ChooseStrategy(b, hint)
  {
    assert |a| == |multiset(a)| == |multiset(b)| == |b|;
    if exists x <- a :: SupportsVerify(x) {
      var x :| x in a && SupportsVerify(x);
      assert x in multiset(b);
    }
    if exists x <- b :: SupportsVerify(x) {
      var x :| x in b && SupportsVerify(x);
      assert x in multiset(a);
    }
  }

  /** The plan does not depend on the order of the adapters. */
  lemma AdapterOrderIrrelevant(h: Hasher, prompt: map<string, Json>, a: seq<Adapter>, b: seq<Adapter>,
                               hint: Option<string>, fanout: Option<int>, quorumSize: Option<int>, timeoutMs: int)
    requires multiset(a) == multiset(b)
    ensures AutoPlanFor(h, prompt, a, hint, fanout, quorumSize, timeoutMs)
         == AutoPlanFor(h, prompt, b, hint, fanout, quorumSize, timeoutMs)
  {
    ChoiceIgnoresOrder(a, b, hint);
    DispatchIgnoresOrder(ChooseStrategy(a, hint), a, b, fanout, quorumSize);
    assert a == [] <==> b == [] by {
      assert |a| == |multiset(a)| == |multiset(b)| == |b|;
    }
  }

  lemma DispatchIgnoresOrder(s: string, a: seq<Adapter>, b: seq<Adapter>, fanout: Option<int>, quorumSize: Option<int>)
    requires multiset(a) == multiset(b)
    ensures Dispatch(s, a, fanout, quorumSize) == Dispatch(s, b, fanout, quorumSize)
  {
    StrategiesIgnoreOrder(a, b, fanout, quorumSize);
  }

  /** Two prompts give the same request hash when they are equal; with a
      collision-free digest, only then. */
  lemma RequestHashBindsPrompt(h: Hasher, p1: map<string, Json>, p2: map<string, Json>)
    requires Injective(h) && RequestHash(h, p1) == RequestHash(h, p2)
    ensures p1 == p2
  {
    assert JObj(p1) == JObj(p2);
  }
}
