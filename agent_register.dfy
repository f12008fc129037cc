/** The agent registration endpoint (`POST /agent/register`): a flat payload
    is checked against the allowlist, the clock and the last-seen table, and
    an accepted registration records its timestamp and code hash. */
module AgentRegister {
  import opened Wrappers
  import opened JsonValues
  import opened Registration

  const REQUIRED: set<string> := {"agent_id", "role", "capabilities", "code_hash", "ts"}

  /** The type ladder over a payload that has every required field. */
  function Types(p: map<string, Json>): Outcome<string>
    requires REQUIRED <= p.Keys
  {
    TypeChecks(p["agent_id"], p["role"], p["capabilities"], p["code_hash"], p["ts"])
  }

  /** The clock and replay rules over a payload that passed the type ladder. */
  function Timing(now: int, maxDrift: int, last: map<string, Seen>, p: map<string, Json>): Outcome<string>
    requires REQUIRED <= p.Keys && Types(p).Pass?
  {
    FreshnessChecks(now, maxDrift, last, p["agent_id"].s, IntOf(p["ts"]).value, p["code_hash"].s)
  }

  /** The payloads `validate_payload` accepts, stated as one condition. */
  predicate Admissible(roles: Allowlist, maxDrift: int, now: int, last: map<string, Seen>, payload: Json)
  {
    && payload.JObj?
    && REQUIRED <= payload.fields.Keys
    && TypeChecks(payload.fields["agent_id"], payload.fields["role"], payload.fields["capabilities"],
                  payload.fields["code_hash"], payload.fields["ts"]).Pass?
    && payload.fields["role"].s in roles
    && CapabilitiesAllowed(payload.fields["capabilities"].items, roles[payload.fields["role"].s])
    && FreshnessChecks(now, maxDrift, last, payload.fields["agent_id"].s,
                       IntOf(payload.fields["ts"]).value, payload.fields["code_hash"].s).Pass?
  }

  /** `validate_payload`. */
  function ValidatePayload(roles: Allowlist, maxDrift: int, now: int, last: map<string, Seen>, payload: Json)
    : (r: Check)
    ensures r == Accepted <==> Admissible(roles, maxDrift, now, last, payload)
    ensures r == Raised <==> !payload.JObj?
    ensures payload.JObj? && !(REQUIRED <= payload.fields.Keys) ==> r == Denied("missing_fields")
    ensures payload.JObj? && REQUIRED <= payload.fields.Keys && Types(payload.fields).Fail? ==>
      r == Denied(Types(payload.fields).error)
    ensures payload.JObj? && REQUIRED <= payload.fields.Keys && Types(payload.fields).Pass?
            && payload.fields["role"].s !in roles ==>
      r == Denied("unknown_role")
    ensures payload.JObj? && REQUIRED <= payload.fields.Keys && Types(payload.fields).Pass?
            && payload.fields["role"].s in roles
            && !CapabilitiesAllowed(payload.fields["capabilities"].items, roles[payload.fields["role"].s]) ==>
      r == Denied("capability_overreach")
    ensures payload.JObj? && REQUIRED <= payload.fields.Keys && Types(payload.fields).Pass?
            && payload.fields["role"].s in roles
            && CapabilitiesAllowed(payload.fields["capabilities"].items, roles[payload.fields["role"].s])
            && Timing(now, maxDrift, last, payload.fields).Fail? ==>
      r == Denied(Timing(now, maxDrift, last, payload.fields).error)
  {
    if !payload.JObj? then Raised
    else
      var p := payload.fields;
      if !(REQUIRED <= p.Keys) then Denied("missing_fields")
      else
        var types := TypeChecks(p["agent_id"], p["role"], p["capabilities"], p["code_hash"], p["ts"]);
        if types.Fail? then Denied(types.error)
        else if p["role"].s !in roles then Denied("unknown_role")
        else if !CapabilitiesAllowed(p["capabilities"].items, roles[p["role"].s]) then Denied("capability_overreach")
        else
          var timing := FreshnessChecks(now, maxDrift, last, p["agent_id"].s, IntOf(p["ts"]).value, p["code_hash"].s);
          if timing.Fail? then Denied(timing.error) else Accepted
  }

  /** The table after accepting `payload`: only its agent's entry is set. */
  function Remember(last: map<string, Seen>, payload: Json): (r: map<string, Seen>)
    requires payload.JObj? && REQUIRED <= payload.fields.Keys
    requires payload.fields["agent_id"].JStr? && payload.fields["code_hash"].JStr?
    requires IntOf(payload.fields["ts"]).Some?
    ensures r.Keys == last.Keys + {payload.fields["agent_id"].s}
    ensures forall a <- last | a != payload.fields["agent_id"].s :: r[a] == last[a]
  {
    last[payload.fields["agent_id"].s := Seen(IntOf(payload.fields["ts"]).value, payload.fields["code_hash"].s)]
  }

  /** The server's in-memory state: the allowlist read at start-up and the
      last-seen table. */
  class Registry {
    const roles: Allowlist
    const maxDrift: int
    var last: map<string, Seen>

    constructor (roles: Allowlist, maxDrift: int)
      ensures this.roles == roles && this.maxDrift == maxDrift && last == map[]
    {
      this.roles := roles;
      this.maxDrift := maxDrift;
      last := map[];
    }

    /** The acceptance path of `do_POST`: validate, then on acceptance
        update `LAST` and nothing else. */
    method Register(payload: Json, now: int) returns (c: Check)
      modifies this
      ensures c == ValidatePayload(roles, maxDrift, now, old(last), payload)
      ensures c == Accepted ==> last == Remember(old(last), payload)
      ensures c != Accepted ==> last == old(last)
    {
      c := ValidatePayload(roles, maxDrift, now, last, payload);
      if c == Accepted {
        last := Remember(last, payload);
      }
    }
  }

  /** Sending an accepted request again is refused: inside the clock window
      as a replay, outside it for its timestamp. */
  lemma AcceptedRequestReplays(roles: Allowlist, maxDrift: int, now: int, now2: int, last: map<string, Seen>, payload: Json)
    requires ValidatePayload(roles, maxDrift, now, last, payload) == Accepted
    ensures ValidatePayload(roles, maxDrift, now2, Remember(last, payload), payload) != Accepted
    ensures now2 - maxDrift <= IntOf(payload.fields["ts"]).value <= now2 + maxDrift ==>
      ValidatePayload(roles, maxDrift, now2, Remember(last, payload), payload) == Denied("replay_or_stale")
  {
  }

  /** Once an agent is registered, a later registration under another code
      hash is refused, whatever its timestamp. */
  lemma CodeHashPinned(roles: Allowlist, maxDrift: int, now: int, now2: int, last: map<string, Seen>,
                       payload: Json, payload2: Json)
    requires ValidatePayload(roles, maxDrift, now, last, payload) == Accepted
    requires payload2.JObj? && REQUIRED <= payload2.fields.Keys
    requires payload2.fields["agent_id"] == payload.fields["agent_id"]
    requires payload2.fields["code_hash"] != payload.fields["code_hash"]
    ensures ValidatePayload(roles, maxDrift, now2, Remember(last, payload), payload2) != Accepted
  {
  }

  /** A role's allowlist is the ceiling: claiming a capability it does not
      list is refused before the clock is consulted. */
  lemma OverreachRefused(roles: Allowlist, maxDrift: int, now: int, last: map<string, Seen>, payload: Json, c: Json)
    requires payload.JObj? && REQUIRED <= payload.fields.Keys
    requires TypeChecks(payload.fields["agent_id"], payload.fields["role"], payload.fields["capabilities"],
                        payload.fields["code_hash"], payload.fields["ts"]).Pass?
    requires payload.fields["role"].s in roles
    requires c in payload.fields["capabilities"].items && c.s !in roles[payload.fields["role"].s]
    ensures ValidatePayload(roles, maxDrift, now, last, payload) == Denied("capability_overreach")
  {
  }
}
