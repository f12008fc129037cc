/** The rules the two agent-registration endpoints share: the type ladder
    over the identity fields and the clock/replay rules over the last-seen
    table. The clock, the allowlist and the table are parameters. */
module Registration {
  import opened Wrappers
  import opened JsonValues

  /** `(True, None)`, `(False, reason)`, or an exception raised by a payload
      that is not an object (`.keys()` on a list, say). */
  datatype Check = Accepted | Denied(reason: string) | Raised

  /** An entry of the last-seen table `LAST`. */
  datatype Seen = Seen(ts: int, codeHash: string)

  /** The allowlist's roles, each with the capabilities it may claim. */
  type Allowlist = map<string, seq<string>>

  /** The type ladder; the first failing check names the reason. */
  function TypeChecks(agentId: Json, role: Json, caps: Json, codeHash: Json, ts: Json): (r: Outcome<string>)
    ensures r.Pass? <==>
      && agentId.JStr? && role.JStr?
      && caps.JArr? && (forall c <- caps.items :: c.JStr?)
      && codeHash.JStr? && |codeHash.s| == 64
      && IntOf(ts).Some?
    ensures r.Fail? ==> r.error in {"invalid_types", "invalid_capabilities", "invalid_code_hash", "invalid_timestamp"}
    ensures !agentId.JStr? || !role.JStr? ==> r == Fail("invalid_types")
    ensures agentId.JStr? && role.JStr? && !(caps.JArr? && forall c <- caps.items :: c.JStr?) ==>
      r == Fail("invalid_capabilities")
    ensures agentId.JStr? && role.JStr? && caps.JArr? && (forall c <- caps.items :: c.JStr?)
            && !(codeHash.JStr? && |codeHash.s| == 64) ==>
      r == Fail("invalid_code_hash")
    ensures agentId.JStr? && role.JStr? && caps.JArr? && (forall c <- caps.items :: c.JStr?)
            && codeHash.JStr? && |codeHash.s| == 64 && IntOf(ts).None? ==>
      r == Fail("invalid_timestamp")
  {
    if !agentId.JStr? || !role.JStr? then Fail("invalid_types")
    else if !caps.JArr? || exists c <- caps.items :: !c.JStr? then Fail("invalid_capabilities")
    else if !codeHash.JStr? || |codeHash.s| != 64 then Fail("invalid_code_hash")
    else if IntOf(ts).None? then Fail("invalid_timestamp")
    else Pass
  }

  /** The clock window, then replay and hash pinning against the table. */
  function FreshnessChecks(now: int, maxDrift: int, last: map<string, Seen>, agentId: string, ts: int, codeHash: string)
    : (r: Outcome<string>)
    ensures r.Pass? <==>
      && now - maxDrift <= ts <= now + maxDrift
      && (agentId in last ==> ts > last[agentId].ts && last[agentId].codeHash == codeHash)
    ensures ts < now - maxDrift ==> r == Fail("stale_timestamp")
    ensures now - maxDrift <= ts && ts > now + maxDrift ==> r == Fail("future_timestamp")
    ensures now - maxDrift <= ts <= now + maxDrift && agentId in last && ts <= last[agentId].ts
            ==> r == Fail("replay_or_stale")
    ensures now - maxDrift <= ts <= now + maxDrift && agentId in last && ts > last[agentId].ts
            && last[agentId].codeHash != codeHash
            ==> r == Fail("hash_mismatch")
  {
    if ts < now - maxDrift then Fail("stale_timestamp")
    else if ts > now + maxDrift then Fail("future_timestamp")
    else if agentId in last && ts <= last[agentId].ts then Fail("replay_or_stale")
    else if agentId in last && last[agentId].codeHash != codeHash then Fail("hash_mismatch")
    else Pass
  }

  /** `set(capabilities).issubset(allowed)`. */
  predicate CapabilitiesAllowed(caps: seq<Json>, allowed: seq<string>)
  {
    forall c <- caps :: c.JStr? && c.s in allowed
  }

}
