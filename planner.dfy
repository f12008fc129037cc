/** `build_execution_plan` of the `model_layer` package: checks the request
    strictly and chooses an ordered list of adapter ids for one of the
    strategies `single`, `fanout` and `verify`. The seeded random generator of
    the fanout branch is a parameter `draw(seed, i, n)`: the index the
    generator yields on its `i`-th call with bound `n`. */
module Planner {
  import opened Wrappers
  import opened JsonValues
  import opened Digest
  import opened Adapters

  const MAX_FANOUT: int := 1000

  type Draw = (nat, nat, nat) -> nat

  /** `rng.randrange(n)` always lands in `0 .. n-1`. */
  ghost predicate DrawInRange(draw: Draw)
  {
    forall seed, i, n {:trigger draw(seed, i, n)} :: 0 < n ==> draw(seed, i, n) < n
  }

  datatype PlanError =
    | PromptNotString      // TypeError
    | NoAdapters
    | SeedInvalid
    | UnsupportedStrategy
    | FanoutBelowOne
    | FanoutAboveMax
    | QuorumWithSingle
    | QuorumWithFanout
    | QuorumMissing
    | QuorumNotPositive
    | QuorumAboveAdapters

  /** The plan dict; `seed` and `quorum` are recorded as given (a boolean
      stays a boolean), an absent seed as 0. */
  datatype Plan = Plan(
    planId: string,
    strategy: string,
    nodes: seq<string>,
    seed: Json,
    quorum: Option<Json>)

  /** The request the planner accepts, stated independently of the order of
      its checks. Absent arguments are `JNull`. */
  predicate ValidRequest(prompt: Json, adapters: seq<Adapter>, strategy: string,
                         fanout: Json, quorum: Json, seed: Json)
  {
    && prompt.JStr?
    && adapters != []
    && (seed == JNull || (IntOf(seed).Some? && IntOf(seed).value >= 0))
    && strategy in {"single", "fanout", "verify"}
    && (fanout == JNull || (IntOf(fanout).Some? && 1 <= IntOf(fanout).value <= MAX_FANOUT))
    && (strategy != "verify" ==> quorum == JNull)
    && (strategy == "verify" ==> IntOf(quorum).Some? && 1 <= IntOf(quorum).value <= |adapters|)
  }

  /** The seed's value: an absent seed becomes 0. */
  function SeedOf(seed: Json): (r: Result<nat, PlanError>)
    ensures r.Ok? <==> seed == JNull || (IntOf(seed).Some? && IntOf(seed).value >= 0)
    ensures seed == JNull ==> r == Ok(0)
    ensures IntOf(seed).Some? && IntOf(seed).value >= 0 ==> r == Ok(IntOf(seed).value)
  {
    if seed == JNull then Ok(0)
    else if IntOf(seed).None? || IntOf(seed).value < 0 then Err(SeedInvalid)
    else Ok(IntOf(seed).value)
  }

  /** The seed as the plan records it. */
  function RecordedSeed(seed: Json): Json
  {
    if seed == JNull then JInt(0) else seed
  }

  /** The fanout count, when a fanout is given. */
  function FanoutOf(fanout: Json): int
  {
    if IntOf(fanout).Some? then IntOf(fanout).value else 0
  }

  /** The checks shared by every strategy (planner.py lines 37-55), in their
      order; on success, the seed to use. */
  function CommonChecks(prompt: Json, adapters: seq<Adapter>, strategy: string,
                        fanout: Json, seed: Json): (r: Result<nat, PlanError>)
    ensures r.Ok? <==>
      && prompt.JStr? && adapters != []
      && SeedOf(seed).Ok?
      && strategy in {"single", "fanout", "verify"}
      && (fanout == JNull || (IntOf(fanout).Some? && 1 <= IntOf(fanout).value <= MAX_FANOUT))
    ensures r.Ok? ==> r == SeedOf(seed)
    ensures !prompt.JStr? ==> r == Err(PromptNotString)
    ensures prompt.JStr? && adapters == [] ==> r == Err(NoAdapters)
  {
    if !prompt.JStr? then Err(PromptNotString)
    else if adapters == [] then Err(NoAdapters)
    else if SeedOf(seed).Err? then Err(SeedInvalid)
    else if strategy !in {"single", "fanout", "verify"} then Err(UnsupportedStrategy)
    else if fanout != JNull && (IntOf(fanout).None? || IntOf(fanout).value < 1) then Err(FanoutBelowOne)
    else if fanout != JNull && IntOf(fanout).value > MAX_FANOUT then Err(FanoutAboveMax)
    else SeedOf(seed)
  }

  /** The `i`-th fanout pick: an adapter id drawn with the seeded generator. */
  function FanoutPick(draw: Draw, pool: seq<string>, seed: nat, i: nat): (r: string)
    requires pool != [] && DrawInRange(draw)
    ensures r in pool
  {
    pool[draw(seed, i, |pool|)]
  }

  /** The digest of `{prompt, strategy, seed}`. */
  function PlanIdFor(h: Hasher, prompt: string, strategy: string, seed: Json): string
  {
    h(JObj(map["prompt" := JStr(prompt), "strategy" := JStr(strategy), "seed" := seed]))
  }

  /** The single branch: the adapter at `seed mod N`, in caller order. */
  function SinglePlan(planId: string, adapters: seq<Adapter>, quorum: Json, s: nat, seed: Json)
    : (r: Result<Plan, PlanError>)
    requires adapters != []
    ensures r.Ok? <==> quorum == JNull
    ensures r.Ok? ==> r.value == Plan(planId, "single", [adapters[s % |adapters|].id], seed, None)
  {
    if quorum != JNull then Err(QuorumWithSingle)
    else Ok(Plan(planId, "single", [adapters[s % |adapters|].id], seed, None))
  }

  /** The fanout nodes: `count` draws from the id pool. */
  function FanoutSelection(draw: Draw, pool: seq<string>, s: nat, count: nat): (r: seq<string>)
    requires pool != [] && DrawInRange(draw)
    ensures |r| == count
    ensures forall k :: 0 <= k < count ==> r[k] == FanoutPick(draw, pool, s, k) && r[k] in pool
  {
    seq(count, i requires 0 <= i < count => FanoutPick(draw, pool, s, i))
  }

  /** The fanout branch: `fanout` draws, or N when fanout is absent. */
  function FanoutPlan(draw: Draw, planId: string, adapters: seq<Adapter>, fanout: Json, quorum: Json,
                      s: nat, seed: Json): (r: Result<Plan, PlanError>)
    requires adapters != [] && DrawInRange(draw)
    requires fanout == JNull || 1 <= FanoutOf(fanout) <= MAX_FANOUT
    ensures r.Ok? <==> quorum == JNull
    ensures r.Ok? ==>
      && r.value.strategy == "fanout" && r.value.planId == planId
      && r.value.seed == seed && r.value.quorum == None
      && |r.value.nodes| == (if fanout == JNull then |adapters| else FanoutOf(fanout))
      && forall k :: 0 <= k < |r.value.nodes| ==> r.value.nodes[k] in Ids(adapters)
  {
    if quorum != JNull then Err(QuorumWithFanout)
    else
      var n := |adapters|;
      var count := if fanout != JNull then FanoutOf(fanout) else n;
      // the source's `n < 1` check and its `min(n, MAX_FANOUT)` are kept,
      // although the bounds checked earlier mean neither changes the outcome
      if count < 1 then Err(FanoutBelowOne)
      else
        var count' := if count > n then Min(count, MAX_FANOUT) else count;
        Ok(Plan(planId, "fanout", FanoutSelection(draw, Ids(adapters), s, count'), seed, None))
  }

  /** `[pool[i % len(pool)] for i in range(q)]`: with `q` at most the pool
      size this is the first `q` entries. */
  function CyclicPrefix(pool: seq<string>, q: nat): (r: seq<string>)
    requires 0 < |pool| && q <= |pool|
    ensures r == pool[..q]
  {
    var r := seq(q, i requires 0 <= i < q => pool[i % |pool|]);
    CyclicIndices(r, pool, q);
    r
  }

  lemma CyclicIndices(r: seq<string>, pool: seq<string>, q: nat)
    requires 0 < |pool| && q <= |pool| && |r| == q
    requires forall i :: 0 <= i < q ==> r[i] == pool[i % |pool|]
    ensures r == pool[..q]
  {
    forall i | 0 <= i < q ensures r[i] == pool[i] {
      ModBelow(i, |pool|);
    }
  }

  lemma ModBelow(i: nat, n: nat)
    requires i < n
    ensures i % n == i
  {
  }

  /** The verify branch: the first `quorum` ids in caller order. */
  function VerifyPlan(planId: string, adapters: seq<Adapter>, quorum: Json, seed: Json): (r: Result<Plan, PlanError>)
    requires adapters != []
    ensures r.Ok? <==> IntOf(quorum).Some? && 1 <= IntOf(quorum).value <= |adapters|
    ensures r.Ok? ==> r.value == Plan(planId, "verify", Ids(adapters)[..IntOf(quorum).value], seed, Some(quorum))
  {
    if quorum == JNull then Err(QuorumMissing)
    else if IntOf(quorum).None? || IntOf(quorum).value < 1 then Err(QuorumNotPositive)
    else if IntOf(quorum).value > |adapters| then Err(QuorumAboveAdapters)
    else Ok(Plan(planId, "verify", CyclicPrefix(Ids(adapters), IntOf(quorum).value), seed, Some(quorum)))
  }

  /** The plan `build_execution_plan` returns, or the error it raises. */
  function PlanFor(h: Hasher, draw: Draw, prompt: Json, adapters: seq<Adapter>,
                   strategy: string, fanout: Json, quorum: Json, seed: Json): (r: Result<Plan, PlanError>)
    requires DrawInRange(draw)
    ensures r.Ok? <==> ValidRequest(prompt, adapters, strategy, fanout, quorum, seed)
    ensures r.Ok? ==>
      && r.value.strategy == strategy
      && r.value.seed == RecordedSeed(seed)
      && r.value.planId == PlanIdFor(h, prompt.s, strategy, RecordedSeed(seed))
      && (r.value.quorum.Some? <==> quorum != JNull)
      && (r.value.quorum.Some? ==> strategy == "verify" && r.value.quorum == Some(quorum))
    ensures r.Ok? && strategy == "single" ==>
      r.value.nodes == [adapters[SeedOf(seed).value % |adapters|].id]
    ensures r.Ok? && strategy == "fanout" ==>
      && |r.value.nodes| == (if fanout == JNull then |adapters| else FanoutOf(fanout))
      && forall k :: 0 <= k < |r.value.nodes| ==> r.value.nodes[k] in Ids(adapters)
    ensures r.Ok? && strategy == "verify" ==> r.value.nodes == Ids(adapters)[..IntOf(quorum).value]
  {
    match CommonChecks(prompt, adapters, strategy, fanout, seed)
    case Err(e) => Err(e)
    case Ok(s) =>
      var planId := PlanIdFor(h, prompt.s, strategy, RecordedSeed(seed));
      if strategy == "single" then SinglePlan(planId, adapters, quorum, s, RecordedSeed(seed))
      else if strategy == "fanout" then FanoutPlan(draw, planId, adapters, fanout, quorum, s, RecordedSeed(seed))
      else VerifyPlan(planId, adapters, quorum, RecordedSeed(seed))
  }

  function Min(a: int, b: int): int
  {
    if a <= b then a else b
  }

  /** The fanout loop: one generator draw per node. */
  method FanoutNodes(draw: Draw, pool: seq<string>, seed: nat, n: nat) returns (nodes: seq<string>)
    requires pool != [] && DrawInRange(draw)
    ensures |nodes| == n
    ensures forall k :: 0 <= k < n ==> nodes[k] == FanoutPick(draw, pool, seed, k)
  {
    nodes := [];
    var i := 0;
    while i < n
      invariant 0 <= i <= n
      invariant |nodes| == i
      invariant forall k :: 0 <= k < i ==> nodes[k] == FanoutPick(draw, pool, seed, k)
    {
      nodes := nodes + [pool[draw(seed, i, |pool|)]];
      i := i + 1;
    }
  }

  /** `build_execution_plan` itself: the checks, then the strategy's selection. */
  method BuildExecutionPlan(h: Hasher, draw: Draw, prompt: Json, adapters: seq<Adapter>,
                            strategy: string, fanout: Json, quorum: Json, seed: Json)
    returns (r: Result<Plan, PlanError>)
    requires DrawInRange(draw)
    ensures r == PlanFor(h, draw, prompt, adapters, strategy, fanout, quorum, seed)
  {
    var checked := CommonChecks(prompt, adapters, strategy, fanout, seed);
    if checked.Err? {
      return Err(checked.error);
    }
    var s := checked.value;
    var recorded := RecordedSeed(seed);
    var planId := PlanIdFor(h, prompt.s, strategy, recorded);
    var pool := Ids(adapters);
    if strategy == "fanout" && quorum == JNull {
      var count := if fanout != JNull then FanoutOf(fanout) else |adapters|;
      var nodes := FanoutNodes(draw, pool, s, count);
      assert nodes == FanoutSelection(draw, pool, s, count);
      return Ok(Plan(planId, strategy, nodes, recorded, None));
    }
    r := PlanFor(h, draw, prompt, adapters, strategy, fanout, quorum, seed);
  }

  /** The plan id depends only on prompt, strategy and seed: the adapters,
      fanout and quorum do not enter it. */
  lemma PlanIdIgnoresAdapters(h: Hasher, draw: Draw, prompt: Json, a1: seq<Adapter>, a2: seq<Adapter>,
                              strategy: string, f1: Json, f2: Json, q1: Json, q2: Json, seed: Json)
    requires DrawInRange(draw)
    requires PlanFor(h, draw, prompt, a1, strategy, f1, q1, seed).Ok?
    requires PlanFor(h, draw, prompt, a2, strategy, f2, q2, seed).Ok?
    ensures PlanFor(h, draw, prompt, a1, strategy, f1, q1, seed).value.planId
         == PlanFor(h, draw, prompt, a2, strategy, f2, q2, seed).value.planId
  {
  }

  /** A verify plan does not depend on the seed: two seeds give the same nodes. */
  lemma VerifyIgnoresSeed(h: Hasher, draw: Draw, prompt: Json, adapters: seq<Adapter>,
                          fanout: Json, quorum: Json, s1: Json, s2: Json)
    requires DrawInRange(draw)
    requires PlanFor(h, draw, prompt, adapters, "verify", fanout, quorum, s1).Ok?
    requires PlanFor(h, draw, prompt, adapters, "verify", fanout, quorum, s2).Ok?
    ensures PlanFor(h, draw, prompt, adapters, "verify", fanout, quorum, s1).value.nodes
         == PlanFor(h, draw, prompt, adapters, "verify", fanout, quorum, s2).value.nodes
  {
  }

  /** Fanout and quorum bounds are rejected with their own errors once the
      earlier checks pass. */
  lemma FanoutBoundsRejected(h: Hasher, draw: Draw, prompt: string, adapters: seq<Adapter>,
                             strategy: string, quorum: Json, seed: nat, fanout: int)
    requires DrawInRange(draw)
    requires adapters != [] && strategy in {"single", "fanout", "verify"}
    ensures fanout < 1 ==>
      PlanFor(h, draw, JStr(prompt), adapters, strategy, JInt(fanout), quorum, JInt(seed)) == Err(FanoutBelowOne)
    ensures fanout > MAX_FANOUT ==>
      PlanFor(h, draw, JStr(prompt), adapters, strategy, JInt(fanout), quorum, JInt(seed)) == Err(FanoutAboveMax)
  {
  }

  /** Any quorum given to single or fanout is rejected, whatever its value. */
  lemma QuorumOnlyForVerify(h: Hasher, draw: Draw, prompt: string, adapters: seq<Adapter>,
                            strategy: string, fanout: Json, quorum: Json, seed: Json)
    requires DrawInRange(draw)
    requires CommonChecks(JStr(prompt), adapters, strategy, fanout, seed).Ok?
    requires strategy != "verify" && quorum != JNull
    ensures PlanFor(h, draw, JStr(prompt), adapters, strategy, fanout, quorum, seed)
         == Err(if strategy == "single" then QuorumWithSingle else QuorumWithFanout)
  {
  }
}
