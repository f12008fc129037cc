/** `execute_envelope` of the `model_layer` package: checks the envelope,
    re-derives `envelope_id` when it has the shape of a SHA-256 digest,
    simulates every step (ok or timed out) and computes a strict-majority
    quorum per step group. */
module Executor {
  import opened Wrappers
  import opened JsonValues
  import opened Digest
  import opened Seqs

  datatype ExecError =
    | EnvelopeNotObject          // TypeError
    | MissingIdOrSteps
    | StepsNotList               // TypeError
    | StepNotObject(index: nat)  // TypeError
    | EnvelopeIdMismatch
    | DurationNotInt             // `int(simulate_duration_ms)` raises
    | TimeoutNotInt              // `int(timeout_ms)` raises
    | UnhashableGroup            // TypeError from `groups.setdefault`

  /** One trace step; `status` is `"timed_out"` when `timedOut`, else `"ok"`. */
  datatype StepTrace = StepTrace(
    id: Json,
    timedOut: bool,
    durationMs: int,
    result: Option<string>,
    payloadHash: Option<string>,
    group: Json)

  datatype Trace = Trace(envelopeId: Json, planId: Json, steps: seq<StepTrace>, quorum: map<Json, bool>)

  /** `step.get("id") or _id_for(step)`. */
  function StepId(h: Hasher, step: map<string, Json>): (r: Json)
    ensures Truthy(Get(step, "id", JNull)) ==> r == step["id"]
    ensures !Truthy(Get(step, "id", JNull)) ==> r == JStr(h(JObj(step)))
  {
    var given := Get(step, "id", JNull);
    if Truthy(given) then given else JStr(h(JObj(step)))
  }

  /** `_simulate_step`: the step times out exactly when it has a timeout and
      the simulated duration (default 0) is strictly greater. */
  function Simulate(h: Hasher, step: map<string, Json>): (r: Result<StepTrace, ExecError>)
    ensures r.Ok? <==>
      && IntOf(Get(step, "simulate_duration_ms", JInt(0))).Some?
      && (Get(step, "timeout_ms", JNull) == JNull || IntOf(step["timeout_ms"]).Some?)
    ensures IntOf(Get(step, "simulate_duration_ms", JInt(0))).None? ==> r == Err(DurationNotInt)
    ensures r.Ok? ==>
      var t := r.value;
      var payload := Get(step, "payload", JNull);
      && t.id == StepId(h, step)
      && t.durationMs == IntOf(Get(step, "simulate_duration_ms", JInt(0))).value
      && (t.timedOut <==> Get(step, "timeout_ms", JNull) != JNull && t.durationMs > IntOf(step["timeout_ms"]).value)
      && (t.timedOut ==> t.result == None && t.payloadHash == None)
      && (!t.timedOut ==>
            t.result == Some(h(JObj(map["id" := t.id, "payload" := payload])))
            && t.payloadHash == Some(h(payload)))
      && t.group == Get(step, "group", JNull)
  {
    var sid := StepId(h, step);
    match IntOf(Get(step, "simulate_duration_ms", JInt(0)))
    case None => Err(DurationNotInt)
    case Some(duration) =>
      var timeout := Get(step, "timeout_ms", JNull);
      if timeout != JNull && IntOf(timeout).None? then Err(TimeoutNotInt)
      else
        var payload := Get(step, "payload", JNull);
        var group := Get(step, "group", JNull);
        if timeout != JNull && duration > IntOf(timeout).value then
          Ok(StepTrace(sid, true, duration, None, None, group))
        else
          Ok(StepTrace(sid, false, duration, Some(h(JObj(map["id" := sid, "payload" := payload]))), Some(h(payload)), group))
  }

  /** One iteration of the execution loop: simulate, then file the step
      under its group when the group is truthy. */
  function StepOutcome(h: Hasher, step: map<string, Json>): (r: Result<StepTrace, ExecError>)
    ensures r.Ok? <==> Simulate(h, step).Ok? && (Truthy(Simulate(h, step).value.group) ==> Hashable(Simulate(h, step).value.group))
    ensures r.Ok? ==> r == Simulate(h, step)
  {
    match Simulate(h, step)
    case Err(e) => Err(e)
    case Ok(t) => if Truthy(t.group) && !Hashable(t.group) then Err(UnhashableGroup) else Ok(t)
  }

  /** The execution loop over all steps, as a function. */
  function RunSteps(h: Hasher, steps: seq<map<string, Json>>): (r: Result<seq<StepTrace>, ExecError>)
    ensures r.Ok? ==> |r.value| == |steps|
  {
    if steps == [] then Ok([])
    else
      match RunSteps(h, steps[..|steps| - 1])
      case Err(e) => Err(e)
      case Ok(ts) =>
        match StepOutcome(h, steps[|steps| - 1])
        case Err(e) => Err(e)
        case Ok(t) => Ok(ts + [t])
  }

  /** The run succeeds exactly when every step does, produces one trace step
      per envelope step in order, and otherwise fails with the error of the
      first failing step. */
  lemma RunStepsMeaning(h: Hasher, steps: seq<map<string, Json>>)
    ensures RunSteps(h, steps).Ok? <==> forall i :: 0 <= i < |steps| ==> StepOutcome(h, steps[i]).Ok?
    ensures RunSteps(h, steps).Ok? ==>
      forall i :: 0 <= i < |steps| ==> RunSteps(h, steps).value[i] == StepOutcome(h, steps[i]).value
    ensures RunSteps(h, steps).Err? ==>
      exists i :: 0 <= i < |steps| && StepOutcome(h, steps[i]).Err?
                  && RunSteps(h, steps) == Err(StepOutcome(h, steps[i]).error)
                  && (forall k :: 0 <= k < i ==> StepOutcome(h, steps[k]).Ok?)
  {
    RunStepsOk(h, steps);
    RunStepsFirstError(h, steps);
  }

  lemma {:induction false} RunStepsOk(h: Hasher, steps: seq<map<string, Json>>)
    ensures RunSteps(h, steps).Ok? <==> forall i :: 0 <= i < |steps| ==> StepOutcome(h, steps[i]).Ok?
    ensures RunSteps(h, steps).Ok? ==>
      forall i :: 0 <= i < |steps| ==> RunSteps(h, steps).value[i] == StepOutcome(h, steps[i]).value
  {
    if steps != [] {
      var init := steps[..|steps| - 1];
      RunStepsOk(h, init);
      assert forall i :: 0 <= i < |init| ==> init[i] == steps[i];
    }
  }

  lemma {:induction false} RunStepsFirstError(h: Hasher, steps: seq<map<string, Json>>)
    ensures RunSteps(h, steps).Err? ==>
      exists i :: 0 <= i < |steps| && StepOutcome(h, steps[i]).Err?
                  && RunSteps(h, steps) == Err(StepOutcome(h, steps[i]).error)
                  && (forall k :: 0 <= k < i ==> StepOutcome(h, steps[k]).Ok?)
  {
    if steps != [] {
      var init := steps[..|steps| - 1];
      if RunSteps(h, init).Err? {
        RunStepsFirstError(h, init);
        var i :| 0 <= i < |init| && StepOutcome(h, init[i]).Err?
                  && RunSteps(h, init) == Err(StepOutcome(h, init[i]).error)
                  && (forall k :: 0 <= k < i ==> StepOutcome(h, init[k]).Ok?);
        assert init[i] == steps[i];
        assert forall k :: 0 <= k < i ==> init[k] == steps[k];
      } else {
        RunStepsOk(h, init);
        assert forall k :: 0 <= k < |init| ==> init[k] == steps[k];
      }
    }
  }

  /** The members of group `g`, in step order. */
  function Members(ts: seq<StepTrace>, g: Json): (r: seq<StepTrace>)
    ensures |r| <= |ts|
  {
    if ts == [] then []
    else
      var last := ts[|ts| - 1];
      Members(ts[..|ts| - 1], g) + (if last.group == g then [last] else [])
  }

  /** The groups dict: one entry per truthy group that occurs. */
  function Groups(ts: seq<StepTrace>): (r: map<Json, seq<StepTrace>>)
    ensures r.Keys == GroupKeys(ts)
    ensures forall g <- r :: r[g] == Members(ts, g)
  {
    map g | g in GroupKeys(ts) :: Members(ts, g)
  }

  function GroupKeys(ts: seq<StepTrace>): (r: set<Json>)
    ensures forall g :: g in r <==> Truthy(g) && exists t <- ts :: t.group == g
  {
    set t <- ts | Truthy(t.group) :: t.group
  }

  function PayloadHash(t: StepTrace): Option<string>
  {
    t.payloadHash
  }

  /** How many members carry payload hash `v`. */
  function Count(members: seq<StepTrace>, v: Option<string>): (r: nat)
    ensures r <= |members|
    ensures r > 0 <==> exists m <- members :: m.payloadHash == v
  {
    if members == [] then 0
    else
      var init, last := members[..|members| - 1], members[|members| - 1];
      assert members == init + [last];
      Count(init, v) + (if last.payloadHash == v then 1 else 0)
  }

  /** The count of a bucket is the multiplicity of its hash among the
      members' payload hashes, so every member is counted exactly once. */
  lemma {:induction false} CountIsMultiplicity(members: seq<StepTrace>, v: Option<string>)
    ensures Count(members, v) == multiset(Map(PayloadHash, members))[v]
  {
    if members != [] {
      var init, last := members[..|members| - 1], members[|members| - 1];
      assert members == init + [last];
      CountIsMultiplicity(init, v);
      MapAppend(PayloadHash, init, [last]);
    }
  }

  /** Some payload-hash bucket holds more than half of the members. */
  predicate HasMajority(members: seq<StepTrace>)
  {
    exists m <- members :: Count(members, m.payloadHash) > |members| / 2
  }

  function QuorumOf(groups: map<Json, seq<StepTrace>>): (r: map<Json, bool>)
    ensures r.Keys == groups.Keys
    ensures forall g <- groups :: r[g] == HasMajority(groups[g])
  {
    map g | g in groups :: HasMajority(groups[g])
  }

  function FieldsOf(j: Json): map<string, Json>
  {
    if j.JObj? then j.fields else map[]
  }

  function RawId(step: map<string, Json>): Json
  {
    Get(step, "id", JNull)
  }

  /** The digest `execute_envelope` expects: plan id and raw step ids. */
  function ExpectedEnvelopeId(h: Hasher, planId: Json, steps: seq<map<string, Json>>): string
  {
    h(JObj(map["plan_id" := planId, "steps" := JArr(Map(RawId, steps))]))
  }

  /** The integrity check fires only for a digest-shaped envelope id. */
  predicate Tampered(h: Hasher, envelopeId: Json, planId: Json, steps: seq<map<string, Json>>)
  {
    envelopeId.JStr? && IsHexDigest(envelopeId.s) && envelopeId.s != ExpectedEnvelopeId(h, planId, steps)
  }

  function FirstNonObject(items: seq<Json>, from: nat): (r: Option<nat>)
    requires from <= |items|
    ensures r.None? <==> forall i :: from <= i < |items| ==> items[i].JObj?
    ensures r.Some? ==> from <= r.value < |items| && !items[r.value].JObj?
                        && forall i :: from <= i < r.value ==> items[i].JObj?
    decreases |items| - from
  {
    if from == |items| then None
    else if !items[from].JObj? then Some(from)
    else FirstNonObject(items, from + 1)
  }

  /** A dict holding `envelope_id` and a list of dict `steps`. */
  predicate WellFormed(env: Json)
  {
    && env.JObj? && "envelope_id" in env.fields && "steps" in env.fields
    && env.fields["steps"].JArr?
    && forall s <- env.fields["steps"].items :: s.JObj?
  }

  function StepsOf(env: Json): seq<map<string, Json>>
    requires WellFormed(env)
  {
    Map(FieldsOf, env.fields["steps"].items)
  }

  /** The envelope checks before any step runs: an envelope passes exactly
      when it is well formed and not tampered, and each failure carries the
      error of the first check it fails. */
  function EnvelopeChecks(h: Hasher, env: Json): (r: Result<seq<map<string, Json>>, ExecError>)
    ensures r.Ok? <==>
      WellFormed(env) && !Tampered(h, env.fields["envelope_id"], Get(env.fields, "plan_id", JNull), StepsOf(env))
    ensures r.Ok? ==> r.value == StepsOf(env)
    ensures !env.JObj? ==> r == Err(EnvelopeNotObject)
    ensures env.JObj? && ("envelope_id" !in env.fields || "steps" !in env.fields) ==> r == Err(MissingIdOrSteps)
    ensures env.JObj? && "envelope_id" in env.fields && "steps" in env.fields && !env.fields["steps"].JArr? ==>
      r == Err(StepsNotList)
    ensures env.JObj? && "envelope_id" in env.fields && "steps" in env.fields && env.fields["steps"].JArr? ==>
      forall i :: (0 <= i < |env.fields["steps"].items| && !env.fields["steps"].items[i].JObj?
                   && forall k :: 0 <= k < i ==> env.fields["steps"].items[k].JObj?) ==> r == Err(StepNotObject(i))
    ensures WellFormed(env) && Tampered(h, env.fields["envelope_id"], Get(env.fields, "plan_id", JNull), StepsOf(env)) ==>
      r == Err(EnvelopeIdMismatch)
  {
    if !env.JObj? then Err(EnvelopeNotObject)
    else if "envelope_id" !in env.fields || "steps" !in env.fields then Err(MissingIdOrSteps)
    else if !env.fields["steps"].JArr? then Err(StepsNotList)
    else
      var items := env.fields["steps"].items;
      match FirstNonObject(items, 0)
      case Some(i) => Err(StepNotObject(i))
      case None =>
        var steps := Map(FieldsOf, items);
        if Tampered(h, env.fields["envelope_id"], Get(env.fields, "plan_id", JNull), steps) then Err(EnvelopeIdMismatch)
        else Ok(steps)
  }

  /** The trace `execute_envelope` returns, or the error it raises. */
  function ExecuteFor(h: Hasher, env: Json): (r: Result<Trace, ExecError>)
    ensures r.Ok? <==>
      && EnvelopeChecks(h, env).Ok?
      && forall i :: 0 <= i < |EnvelopeChecks(h, env).value| ==> StepOutcome(h, EnvelopeChecks(h, env).value[i]).Ok?
    ensures EnvelopeChecks(h, env).Err? ==> r == Err(EnvelopeChecks(h, env).error)
    ensures r.Ok? ==>
      var steps := EnvelopeChecks(h, env).value;
      && r.value.envelopeId == env.fields["envelope_id"]
      && r.value.planId == Get(env.fields, "plan_id", JNull)
      && |r.value.steps| == |steps|
      && (forall i :: 0 <= i < |steps| ==> Simulate(h, steps[i]) == Ok(r.value.steps[i]))
      && (forall g :: g in r.value.quorum <==> Truthy(g) && exists t <- r.value.steps :: t.group == g)
      && (forall g <- r.value.quorum :: r.value.quorum[g] == HasMajority(Members(r.value.steps, g)))
  {
    match EnvelopeChecks(h, env)
    case Err(e) => Err(e)
    case Ok(steps) =>
      RunStepsMeaning(h, steps);
      match RunSteps(h, steps)
      case Err(e) => Err(e)
      case Ok(ts) =>
        var groups := Groups(ts);
        Ok(Trace(env.fields["envelope_id"], Get(env.fields, "plan_id", JNull), ts,
                 if groups == map[] then map[] else QuorumOf(groups)))
  }

  function HashesOf(members: seq<StepTrace>): set<Option<string>>
  {
    set m <- members :: m.payloadHash
  }

  lemma CountSnoc(members: seq<StepTrace>, i: nat, v: Option<string>)
    requires i < |members|
    ensures Count(members[..i + 1], v) == Count(members[..i], v) + (if members[i].payloadHash == v then 1 else 0)
  {
    assert members[..i + 1][..i] == members[..i];
  }

  /** The counting loop of `_compute_quorum`: one bucket per payload hash. */
  method CountBuckets(members: seq<StepTrace>) returns (counts: map<Option<string>, nat>)
    ensures counts.Keys == HashesOf(members)
    ensures forall v <- counts :: counts[v] == Count(members, v)
  {
    counts := map[];
    var i := 0;
    while i < |members|
      invariant 0 <= i <= |members|
      invariant counts.Keys == HashesOf(members[..i])
      invariant forall v <- counts :: counts[v] == Count(members[..i], v)
    {
      var r := members[i].payloadHash;
      forall v ensures Count(members[..i + 1], v) == Count(members[..i], v) + (if r == v then 1 else 0) {
        CountSnoc(members, i, v);
      }
      assert members[..i + 1] == members[..i] + [members[i]];
      counts := counts[r := (if r in counts then counts[r] else 0) + 1];
      i := i + 1;
    }
    assert members[..i] == members;
  }

  /** `any(c > len(members) // 2 for c in counts.values())`. */
  method MajorityOf(members: seq<StepTrace>) returns (majority: bool)
    ensures majority == HasMajority(members)
  {
    var counts := CountBuckets(members);
    majority := false;
    var rest := counts.Keys;
    while rest != {}
      invariant rest <= counts.Keys
      invariant majority <==> exists v <- counts.Keys - rest :: counts[v] > |members| / 2
      decreases rest
    {
      var v :| v in rest;
      if counts[v] > |members| / 2 {
        majority := true;
      }
      rest := rest - {v};
    }
    if majority {
      var v :| v in counts.Keys && counts[v] > |members| / 2;
      var m :| m in members && m.payloadHash == v;
    }
  }

  /** `_compute_quorum`: one majority verdict per group. */
  method ComputeQuorum(groups: map<Json, seq<StepTrace>>) returns (quorum: map<Json, bool>)
    ensures quorum == QuorumOf(groups)
  {
    quorum := map[];
    var remaining := groups.Keys;
    while remaining != {}
      invariant remaining <= groups.Keys
      invariant quorum.Keys == groups.Keys - remaining
      invariant forall g <- quorum :: quorum[g] == HasMajority(groups[g])
      decreases remaining
    {
      var g :| g in remaining;
      var majority := MajorityOf(groups[g]);
      quorum := quorum[g := majority];
      remaining := remaining - {g};
    }
  }

  lemma MembersSnoc(ts: seq<StepTrace>, t: StepTrace, g: Json)
    ensures Members(ts + [t], g) == Members(ts, g) + (if t.group == g then [t] else [])
  {
    assert (ts + [t])[..|ts|] == ts;
  }

  lemma GroupKeysSnoc(ts: seq<StepTrace>, t: StepTrace)
    ensures GroupKeys(ts + [t]) == GroupKeys(ts) + (if Truthy(t.group) then {t.group} else {})
  {
    var ts' := ts + [t];
    forall g ensures g in GroupKeys(ts') <==> g in GroupKeys(ts) || (Truthy(t.group) && g == t.group) {
      if g in GroupKeys(ts') {
        var u :| u in ts' && u.group == g;
        if u != t {
          assert u in ts;
        }
      }
      if g in GroupKeys(ts) {
        var u :| u in ts && u.group == g;
        assert u in ts';
      }
      if Truthy(t.group) && g == t.group {
        assert t in ts';
      }
    }
  }

  lemma {:induction false} MembersAbsent(ts: seq<StepTrace>, g: Json)
    requires forall t <- ts :: t.group != g
    ensures Members(ts, g) == []
  {
    if ts != [] {
      MembersAbsent(ts[..|ts| - 1], g);
    }
  }

  /** Filing one more step into the groups dict (`setdefault(...).append`). */
  lemma GroupsSnoc(ts: seq<StepTrace>, t: StepTrace)
    ensures Groups(ts + [t]) ==
      if Truthy(t.group) then Groups(ts)[t.group := (if t.group in Groups(ts) then Groups(ts)[t.group] else []) + [t]]
      else Groups(ts)
  {
    if Truthy(t.group) {
      GroupsSnocGrouped(ts, t);
    } else {
      GroupsSnocUngrouped(ts, t);
    }
  }

  lemma GroupsSnocGrouped(ts: seq<StepTrace>, t: StepTrace)
    requires Truthy(t.group)
    ensures Groups(ts + [t]) ==
      Groups(ts)[t.group := (if t.group in Groups(ts) then Groups(ts)[t.group] else []) + [t]]
  {
    var G, G' := Groups(ts), Groups(ts + [t]);
    GroupKeysSnoc(ts, t);
    var R := G[t.group := (if t.group in G then G[t.group] else []) + [t]];
    assert G'.Keys == R.Keys;
    forall g | g in G' ensures G'[g] == R[g] {
      MembersSnoc(ts, t, g);
      if g == t.group && g !in G {
        MembersAbsent(ts, g);
      }
    }
  }

  lemma GroupsSnocUngrouped(ts: seq<StepTrace>, t: StepTrace)
    requires !Truthy(t.group)
    ensures Groups(ts + [t]) == Groups(ts)
  {
    var G, G' := Groups(ts), Groups(ts + [t]);
    GroupKeysSnoc(ts, t);
    assert G'.Keys == G.Keys;
    forall g | g in G' ensures G'[g] == G[g] {
      MembersSnoc(ts, t, g);
    }
  }

  /** The checks of `execute_envelope` before the step loop, with the loop
      that rejects the first non-dict step. */
  method CheckEnvelope(h: Hasher, env: Json) returns (r: Result<seq<map<string, Json>>, ExecError>)
    ensures r == EnvelopeChecks(h, env)
  {
    if !env.JObj? {
      return Err(EnvelopeNotObject);
    }
    if "envelope_id" !in env.fields || "steps" !in env.fields {
      return Err(MissingIdOrSteps);
    }
    if !env.fields["steps"].JArr? {
      return Err(StepsNotList);
    }
    var items := env.fields["steps"].items;
    var idx := 0;
    while idx < |items|
      invariant 0 <= idx <= |items|
      invariant forall k :: 0 <= k < idx ==> items[k].JObj?
    {
      if !items[idx].JObj? {
        return Err(StepNotObject(idx));
      }
      idx := idx + 1;
    }
    var steps := Map(FieldsOf, items);
    if Tampered(h, env.fields["envelope_id"], Get(env.fields, "plan_id", JNull), steps) {
      return Err(EnvelopeIdMismatch);
    }
    r := Ok(steps);
  }

  lemma RunStepsSnoc(h: Hasher, steps: seq<map<string, Json>>, i: nat)
    requires i < |steps| && RunSteps(h, steps[..i]).Ok?
    ensures RunSteps(h, steps[..i + 1]) ==
      match StepOutcome(h, steps[i])
      case Err(e) => Err(e)
      case Ok(t) => Ok(RunSteps(h, steps[..i]).value + [t])
  {
    var p := steps[..i + 1];
    assert p[..|p| - 1] == steps[..i];
    assert p[|p| - 1] == steps[i];
  }

  /** Once a prefix of the steps fails, the whole run fails the same way. */
  lemma {:induction false} RunStepsErrStays(h: Hasher, steps: seq<map<string, Json>>, i: nat, j: nat)
    requires i <= j <= |steps| && RunSteps(h, steps[..i]).Err?
    ensures RunSteps(h, steps[..j]) == RunSteps(h, steps[..i])
    decreases j - i
  {
    if i < j {
      RunStepsErrStays(h, steps, i, j - 1);
      var p := steps[..j];
      assert p[..|p| - 1] == steps[..j - 1];
    }
  }

  /** The step loop of `execute_envelope`: simulate each step in order,
      append it to the trace and file it under its truthy group. */
  method RunStepLoop(h: Hasher, steps: seq<map<string, Json>>)
    returns (r: Result<seq<StepTrace>, ExecError>, groups: map<Json, seq<StepTrace>>)
    ensures r == RunSteps(h, steps)
    ensures r.Ok? ==> groups == Groups(r.value)
  {
    var traces: seq<StepTrace> := [];
    groups := map[];
    var i := 0;
    while i < |steps|
      invariant 0 <= i <= |steps|
      invariant RunSteps(h, steps[..i]) == Ok(traces)
      invariant groups == Groups(traces)
    {
      RunStepsSnoc(h, steps, i);
      var s := Simulate(h, steps[i]);
      if s.Err? {
        RunStepsErrStays(h, steps, i + 1, |steps|);
        assert steps[..|steps|] == steps;
        return Err(s.error), groups;
      }
      var t := s.value;
      GroupsSnoc(traces, t);
      if Truthy(t.group) {
        if !Hashable(t.group) {
          RunStepsErrStays(h, steps, i + 1, |steps|);
          assert steps[..|steps|] == steps;
          return Err(UnhashableGroup), groups;
        }
        groups := groups[t.group := (if t.group in groups then groups[t.group] else []) + [t]];
      }
      traces := traces + [t];
      i := i + 1;
    }
    assert steps[..i] == steps;
    r := Ok(traces);
  }

  /** `execute_envelope`. */
  method ExecuteEnvelope(h: Hasher, env: Json) returns (r: Result<Trace, ExecError>)
    ensures r == ExecuteFor(h, env)
  {
    var checked := CheckEnvelope(h, env);
    if checked.Err? {
      return Err(checked.error);
    }
    var run, groups := RunStepLoop(h, checked.value);
    if run.Err? {
      return Err(run.error);
    }
    var quorum: map<Json, bool> := map[];
    if groups != map[] {
      quorum := ComputeQuorum(groups);
    }
    r := Ok(Trace(env.fields["envelope_id"], Get(env.fields, "plan_id", JNull), run.value, quorum));
  }

  /** A digest-shaped envelope id that differs from the recomputed digest is
      rejected once the structure checks pass. */
  lemma TamperedEnvelopeRejected(h: Hasher, env: Json)
    requires env.JObj? && "envelope_id" in env.fields && "steps" in env.fields
    requires env.fields["steps"].JArr? && forall s <- env.fields["steps"].items :: s.JObj?
    requires Tampered(h, env.fields["envelope_id"], Get(env.fields, "plan_id", JNull),
                      Map(FieldsOf, env.fields["steps"].items))
    ensures ExecuteFor(h, env) == Err(EnvelopeIdMismatch)
  {
    assert FirstNonObject(env.fields["steps"].items, 0).None?;
  }

  /** An envelope with an empty step list executes: the loop runs zero
      times and the trace has no steps and an empty quorum. */
  lemma EmptyStepsExecute(h: Hasher, envelopeId: Json, planId: Json)
    requires !(envelopeId.JStr? && IsHexDigest(envelopeId.s))
    ensures var env := JObj(map["envelope_id" := envelopeId, "plan_id" := planId, "steps" := JArr([])]);
      ExecuteFor(h, env) == Ok(Trace(envelopeId, planId, [], map[]))
  {
    var env := JObj(map["envelope_id" := envelopeId, "plan_id" := planId, "steps" := JArr([])]);
    assert StepsOf(env) == [];
    assert Groups([]) == map[];
  }

  /** Ids of any other shape (short synthetic ids, non-strings) are never checked. */
  lemma OtherIdsNeverChecked(h: Hasher, env: Json)
    requires env.JObj? && "envelope_id" in env.fields
    requires !(env.fields["envelope_id"].JStr? && IsHexDigest(env.fields["envelope_id"].s))
    ensures ExecuteFor(h, env) != Err(EnvelopeIdMismatch)
  {
    if EnvelopeChecks(h, env).Ok? {
      RunStepsNeverMismatch(h, EnvelopeChecks(h, env).value);
    }
  }

  lemma RunStepsNeverMismatch(h: Hasher, steps: seq<map<string, Json>>)
    ensures RunSteps(h, steps) != Err(EnvelopeIdMismatch)
  {
    RunStepsMeaning(h, steps);
  }

  /** With a collision-free digest, an envelope whose id matched its steps is
      rejected after any change to the plan id or to the list of raw step
      ids under the same envelope id: reordering, dropping, adding or
      renaming steps. */
  lemma {:induction false} ChangedStepIdsRejected(h: Hasher, env: Json, steps2: seq<Json>, planId2: Json)
    requires Injective(h)
    requires env.JObj? && "envelope_id" in env.fields && "steps" in env.fields
    requires env.fields["steps"].JArr? && env.fields["envelope_id"].JStr?
    requires IsHexDigest(env.fields["envelope_id"].s)
    requires env.fields["envelope_id"].s
          == ExpectedEnvelopeId(h, Get(env.fields, "plan_id", JNull), Map(FieldsOf, env.fields["steps"].items))
    requires forall s <- steps2 :: s.JObj?
    requires Map(RawId, Map(FieldsOf, steps2)) != Map(RawId, Map(FieldsOf, env.fields["steps"].items))
             || planId2 != Get(env.fields, "plan_id", JNull)
    ensures ExecuteFor(h, JObj(env.fields["steps" := JArr(steps2)]["plan_id" := planId2])) == Err(EnvelopeIdMismatch)
  {
    var env2 := JObj(env.fields["steps" := JArr(steps2)]["plan_id" := planId2]);
    var old_ := JObj(map["plan_id" := Get(env.fields, "plan_id", JNull),
                         "steps" := JArr(Map(RawId, Map(FieldsOf, env.fields["steps"].items)))]);
    var new_ := JObj(map["plan_id" := planId2, "steps" := JArr(Map(RawId, Map(FieldsOf, steps2)))]);
    if planId2 != Get(env.fields, "plan_id", JNull) {
      assert old_.fields["plan_id"] != new_.fields["plan_id"];
    } else {
      assert old_.fields["steps"] != new_.fields["steps"];
    }
    assert h(old_) != h(new_);
    assert env2.fields["envelope_id"] == env.fields["envelope_id"];
    TamperedEnvelopeRejected(h, env2);
  }

  lemma {:induction false} CountsDisjoint(members: seq<StepTrace>, v1: Option<string>, v2: Option<string>)
    requires v1 != v2
    ensures Count(members, v1) + Count(members, v2) <= |members|
  {
    if members != [] {
      CountsDisjoint(members[..|members| - 1], v1, v2);
    }
  }

  /** At most one bucket can hold a strict majority. */
  lemma MajorityBucketUnique(members: seq<StepTrace>, v1: Option<string>, v2: Option<string>)
    requires Count(members, v1) > |members| / 2 && Count(members, v2) > |members| / 2
    ensures v1 == v2
  {
    if v1 != v2 {
      CountsDisjoint(members, v1, v2);
    }
  }

  lemma {:induction false} CountAll(members: seq<StepTrace>, v: Option<string>)
    requires forall m <- members :: m.payloadHash == v
    ensures Count(members, v) == |members|
  {
    if members != [] {
      CountAll(members[..|members| - 1], v);
    }
  }

  /** Timed-out steps all fall into the null bucket, so a non-empty group of
      timed-out steps reaches quorum. */
  lemma TimedOutGroupAgrees(members: seq<StepTrace>)
    requires members != [] && forall m <- members :: m.payloadHash == None
    ensures HasMajority(members)
  {
    CountAll(members, None);
    assert members[0] in members;
  }

  /** Two members that disagree are a tie, not a majority. */
  lemma TieIsNoMajority(a: StepTrace, b: StepTrace)
    requires a.payloadHash != b.payloadHash
    ensures !HasMajority([a, b])
  {
    CountsDisjoint([a, b], a.payloadHash, b.payloadHash);
    assert [a, b][..1] == [a];
    assert Count([a, b], a.payloadHash) >= 1 && Count([a, b], b.payloadHash) >= 1;
  }
}
