/** The node registration endpoint (`POST /node/register`): an outer
    envelope carrying a node's identity fields and an inner payload that is
    checked like an agent registration, without the capability ceiling. */
module CtServer {
  import opened Wrappers
  import opened JsonValues
  import opened Registration

  const REQUIRED: set<string> := {"node_id", "pubkey", "timestamp", "signature", "nonce", "payload"}
  const REQUIRED_INNER: set<string> := {"node_id", "pubkey", "role", "capabilities", "code_hash", "ts"}

  /** The outer envelope has every field and an integer `timestamp`. */
  predicate OuterOk(payload: Json)
  {
    payload.JObj? && REQUIRED <= payload.fields.Keys && IntOf(payload.fields["timestamp"]).Some?
  }

  /** The outer envelope passed, and the inner payload is a dict with every field. */
  predicate InnerPresent(payload: Json)
  {
    OuterOk(payload) && payload.fields["payload"].JObj? && REQUIRED_INNER <= payload.fields["payload"].fields.Keys
  }

  /** The type ladder over the inner payload. */
  function Types(payload: Json): Outcome<string>
    requires InnerPresent(payload)
  {
    var inner := payload.fields["payload"].fields;
    TypeChecks(inner["node_id"], inner["role"], inner["capabilities"], inner["code_hash"], inner["ts"])
  }

  /** The clock and replay rules, keyed by the inner `node_id`. */
  function Timing(now: int, maxDrift: int, last: map<string, Seen>, payload: Json): Outcome<string>
    requires InnerPresent(payload) && Types(payload).Pass?
  {
    var inner := payload.fields["payload"].fields;
    FreshnessChecks(now, maxDrift, last, inner["node_id"].s, IntOf(inner["ts"]).value, inner["code_hash"].s)
  }

  /** The payloads `validate_payload` accepts, stated as one condition. */
  predicate Admissible(roles: Allowlist, maxDrift: int, now: int, last: map<string, Seen>, payload: Json)
  {
    && payload.JObj?
    && REQUIRED <= payload.fields.Keys
    && IntOf(payload.fields["timestamp"]).Some?
    && payload.fields["payload"].JObj?
    && var inner := payload.fields["payload"].fields;
    && REQUIRED_INNER <= inner.Keys
    && TypeChecks(inner["node_id"], inner["role"], inner["capabilities"], inner["code_hash"], inner["ts"]).Pass?
    && inner["role"].s in roles
    && FreshnessChecks(now, maxDrift, last, inner["node_id"].s, IntOf(inner["ts"]).value, inner["code_hash"].s).Pass?
  }

  /** `validate_payload`; the outer `signature`, `pubkey` and `nonce` are
      required but never read. */
  function ValidatePayload(roles: Allowlist, maxDrift: int, now: int, last: map<string, Seen>, payload: Json)
    : (r: Check)
    ensures r == Accepted <==> Admissible(roles, maxDrift, now, last, payload)
    ensures r == Raised <==> !payload.JObj? || (OuterOk(payload) && !payload.fields["payload"].JObj?)
    ensures payload.JObj? && !(REQUIRED <= payload.fields.Keys) ==> r == Denied("missing_fields")
    ensures payload.JObj? && REQUIRED <= payload.fields.Keys && IntOf(payload.fields["timestamp"]).None? ==>
      r == Denied("timestamp_not_int")
    ensures OuterOk(payload) && payload.fields["payload"].JObj?
            && !(REQUIRED_INNER <= payload.fields["payload"].fields.Keys) ==>
      r == Denied("missing_inner_fields")
    ensures InnerPresent(payload) && Types(payload).Fail? ==> r == Denied(Types(payload).error)
    ensures InnerPresent(payload) && Types(payload).Pass? && payload.fields["payload"].fields["role"].s !in roles ==>
      r == Denied("unknown_role")
    ensures InnerPresent(payload) && Types(payload).Pass? && payload.fields["payload"].fields["role"].s in roles
            && Timing(now, maxDrift, last, payload).Fail? ==>
      r == Denied(Timing(now, maxDrift, last, payload).error)
  {
    if !payload.JObj? then Raised
    else
      var p := payload.fields;
      if !(REQUIRED <= p.Keys) then Denied("missing_fields")
      else if IntOf(p["timestamp"]).None? then Denied("timestamp_not_int")
      else if !p["payload"].JObj? then Raised
      else
        var inner := p["payload"].fields;
        if !(REQUIRED_INNER <= inner.Keys) then Denied("missing_inner_fields")
        else
          var types := TypeChecks(inner["node_id"], inner["role"], inner["capabilities"], inner["code_hash"], inner["ts"]);
          if types.Fail? then Denied(types.error)
          else if inner["role"].s !in roles then Denied("unknown_role")
          else
            var timing := FreshnessChecks(now, maxDrift, last, inner["node_id"].s, IntOf(inner["ts"]).value,
                                          inner["code_hash"].s);
            if timing.Fail? then Denied(timing.error) else Accepted
  }

  /** A payload whose inner identity fields can be recorded. */
  predicate Recordable(payload: Json)
  {
    && payload.JObj? && "payload" in payload.fields && payload.fields["payload"].JObj?
    && var inner := payload.fields["payload"].fields;
    && REQUIRED_INNER <= inner.Keys
    && inner["node_id"].JStr? && inner["code_hash"].JStr? && IntOf(inner["ts"]).Some?
  }

  /** The table after accepting `payload`, keyed by the inner `node_id`. */
  function Remember(last: map<string, Seen>, payload: Json): (r: map<string, Seen>)
    requires Recordable(payload)
    ensures r.Keys == last.Keys + {payload.fields["payload"].fields["node_id"].s}
    ensures forall a <- last | a != payload.fields["payload"].fields["node_id"].s :: r[a] == last[a]
  {
    var inner := payload.fields["payload"].fields;
    last[inner["node_id"].s := Seen(IntOf(inner["ts"]).value, inner["code_hash"].s)]
  }

  /** The server's in-memory state: the allowlist read at start-up and the
      last-seen table. */
  class Registry {
    const roles: Allowlist
    const maxDrift: int
    var last: map<string, Seen>

    constructor (roles: Allowlist, maxDrift: int)
      ensures this.roles == roles && this.maxDrift == maxDrift && last == map[]
    {
      this.roles := roles;
      this.maxDrift := maxDrift;
      last := map[];
    }

    /** The acceptance path of `do_POST`: validate, then on acceptance
        update `LAST` under the inner `node_id` and nothing else. */
    method Register(payload: Json, now: int) returns (c: Check)
      modifies this
      ensures c == ValidatePayload(roles, maxDrift, now, old(last), payload)
      ensures c == Accepted ==> Recordable(payload) && last == Remember(old(last), payload)
      ensures c != Accepted ==> last == old(last)
    {
      c := ValidatePayload(roles, maxDrift, now, last, payload);
      if c == Accepted {
        last := Remember(last, payload);
      }
    }
  }

  /** Sending an accepted request again is refused: inside the clock window
      as a replay. */
  lemma AcceptedRequestReplays(roles: Allowlist, maxDrift: int, now: int, now2: int, last: map<string, Seen>, payload: Json)
    requires ValidatePayload(roles, maxDrift, now, last, payload) == Accepted
    ensures Recordable(payload)
    ensures ValidatePayload(roles, maxDrift, now2, Remember(last, payload), payload) != Accepted
    ensures now2 - maxDrift <= IntOf(payload.fields["payload"].fields["ts"]).value <= now2 + maxDrift ==>
      ValidatePayload(roles, maxDrift, now2, Remember(last, payload), payload) == Denied("replay_or_stale")
  {
  }

  /** The outer `signature`, `pubkey` and `nonce` only have to be present:
      their values never change the verdict. */
  lemma CredentialsNeverInspected(roles: Allowlist, maxDrift: int, now: int, last: map<string, Seen>,
                                  outer: map<string, Json>, sig: Json, key: Json, nonce: Json)
    requires REQUIRED <= outer.Keys
    ensures ValidatePayload(roles, maxDrift, now, last, JObj(outer))
         == ValidatePayload(roles, maxDrift, now, last, JObj(outer["signature" := sig]["pubkey" := key]["nonce" := nonce]))
  {
    var outer2 := outer["signature" := sig]["pubkey" := key]["nonce" := nonce];
    assert outer2.Keys == outer.Keys;
    assert outer2["timestamp"] == outer["timestamp"] && outer2["payload"] == outer["payload"];
  }

  /** There is no capability ceiling: only the allowlist's role names
      matter, not the capabilities it lists for them. */
  lemma CapabilitiesUnchecked(roles: Allowlist, roles2: Allowlist, maxDrift: int, now: int, last: map<string, Seen>,
                              payload: Json)
    requires roles.Keys == roles2.Keys
    ensures ValidatePayload(roles, maxDrift, now, last, payload) == ValidatePayload(roles2, maxDrift, now, last, payload)
  {
  }
}
