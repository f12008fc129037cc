/** The read-only runtime policy engine: an ordered rule list, first match
    wins, and the selected rule's fields become the decision. Each Python
    exception `_match_rule` can raise on a malformed rule or observation is a
    named `PolicyFault`. */
module RuntimePolicy {
  import opened Wrappers
  import opened JsonValues
  import opened Digest

  datatype PolicyFault =
    | RuleNotObject
    | WhenNotObject
    | ThresholdNotInt
    | DriftNotComparable
    | IssuesNotIterable
    | IssueNameUnhashable
    | TargetsNotIterable

  datatype Decision = Decision(action: Json, reason: Json, score: Json, ruleId: Json, observHash: string)

  function RuleJson(id: string, action: string, reason: string, score: int, when: map<string, Json>): Json
  {
    JObj(map["id" := JStr(id), "action" := JStr(action), "reason" := JStr(reason),
             "score" := JInt(score), "when" := JObj(when)])
  }

  const ESCALATE_ON_STOP: Json :=
    RuleJson("escalate_on_stop", "ESCALATE", "supervised_stop_detected", 90,
             map["issue_in" := JArr([JStr("SUPERVISED_STOP")])])
  const WARN_ON_STALE: Json :=
    RuleJson("warn_on_stale", "WARN", "stale_component", 50,
             map["issue_in" := JArr([JStr("SUPERVISED_STALE"), JStr("STALE")])])
  const WARN_ON_DRIFT: Json :=
    RuleJson("warn_on_drift", "WARN", "component_drift", 40, map["drift_count_gte" := JInt(1)])
  const IGNORE_DEFAULT: Json :=
    RuleJson("ignore_default", "IGNORE", "no_issues_detected", 0, map["always" := JBool(true)])

  /** `DEFAULT_RULES`, used when no rules file is present. */
  const DEFAULT_RULES: seq<Json> := [ESCALATE_ON_STOP, WARN_ON_STALE, WARN_ON_DRIFT, IGNORE_DEFAULT]

  /** The set of hashable items an iteration over `v` yields, or a fault:
      a list's items, a string's one-character strings, a dict's keys. */
  function ItemSet(v: Json): (r: Result<set<Json>, PolicyFault>)
    ensures v.JArr? ==> (r.Ok? <==> forall x <- v.items :: Hashable(x))
    ensures v.JArr? && r.Ok? ==> r.value == set x | x in v.items
    ensures v.JStr? ==> r.Ok? && forall x :: x in r.value <==> exists c <- v.s :: x == JStr([c])
    ensures v.JObj? ==> r.Ok? && forall x :: x in r.value <==> x.JStr? && x.s in v.fields
    ensures !(v.JArr? || v.JStr? || v.JObj?) ==> r == Err(TargetsNotIterable)
    ensures r.Ok? ==> forall x <- r.value :: Hashable(x)
  {
    match v
    case JArr(items) =>
      if exists x <- items :: !Hashable(x) then Err(TargetsNotIterable)
      else Ok(set x | x in items)
    case JStr(s) => Ok(set i | 0 <= i < |s| :: JStr([s[i]]))
    case JObj(m) => Ok(set k | k in m.Keys :: JStr(k))
    case _ => Err(TargetsNotIterable)
  }

  /** `{i.get("issue") for i in (observation.get("issues", []) or []) if isinstance(i, dict)}`. */
  function IssueNames(obs: map<string, Json>): (r: Result<set<Json>, PolicyFault>)
    ensures !Truthy(Get(obs, "issues", JArr([]))) ==> r == Ok({})
    ensures var issues := Get(obs, "issues", JArr([]));
      issues.JArr? ==> (r.Ok? <==> forall i <- issues.items :: i.JObj? ==> Hashable(Get(i.fields, "issue", JNull)))
    ensures var issues := Get(obs, "issues", JArr([]));
      issues.JArr? && r.Ok? ==>
        forall x :: x in r.value <==> exists i <- issues.items :: i.JObj? && Get(i.fields, "issue", JNull) == x
    ensures var issues := Get(obs, "issues", JArr([]));
      issues.JStr? || issues.JObj? ==> r == Ok({})
    ensures var issues := Get(obs, "issues", JArr([]));
      Truthy(issues) && !(issues.JArr? || issues.JStr? || issues.JObj?) ==> r == Err(IssuesNotIterable)
    ensures r.Ok? ==> forall x <- r.value :: Hashable(x)
  {
    var issues := Get(obs, "issues", JArr([]));
    if !Truthy(issues) then Ok({})
    else match issues
      case JArr(items) =>
        if exists i <- items :: i.JObj? && !Hashable(Get(i.fields, "issue", JNull)) then Err(IssueNameUnhashable)
        else Ok(set i | i in items && i.JObj? :: Get(i.fields, "issue", JNull))
      case JStr(_) => Ok({})
      case JObj(_) => Ok({})
      case _ => Err(IssuesNotIterable)
  }

  /** The rule's `drift_count_gte` condition, when it can be decided. */
  predicate DriftHolds(obs: map<string, Json>, when: map<string, Json>)
  {
    && "drift_count_gte" in when
    && Get(obs, "drift_count", JNull) != JNull
    && IntOf(when["drift_count_gte"]).Some?
    && IntOf(Get(obs, "drift_count", JNull)).Some?
    && IntOf(Get(obs, "drift_count", JNull)).value >= IntOf(when["drift_count_gte"]).value
  }

  /** The rule's `issue_in` condition: some dict issue's name is a target. */
  predicate IssueHolds(obs: map<string, Json>, when: map<string, Json>)
  {
    && "issue_in" in when
    && IssueNames(obs).Ok?
    && ItemSet(when["issue_in"]).Ok?
    && exists x :: x in IssueNames(obs).value && x in ItemSet(when["issue_in"]).value
  }

  /** The rule's `readiness_is` condition. */
  predicate ReadinessHolds(obs: map<string, Json>, when: map<string, Json>)
  {
    "readiness_is" in when && Get(obs, "readiness", JNull) == when["readiness_is"]
  }

  function WhenOf(rule: map<string, Json>): Json
  {
    Get(rule, "when", JObj(map[]))
  }

  /** `_match_rule`: the conditions are tried in the order always, drift,
      issues, readiness; the first that holds decides. */
  function MatchRule(obs: map<string, Json>, rule: Json): (r: Result<bool, PolicyFault>)
    ensures r.Ok? ==> rule.JObj? && WhenOf(rule.fields).JObj?
    ensures rule.JObj? && WhenOf(rule.fields).JObj? && Truthy(Get(WhenOf(rule.fields).fields, "always", JNull))
            ==> r == Ok(true)
    ensures r.Ok? ==>
      var when := WhenOf(rule.fields).fields;
      (r.value <==> Truthy(Get(when, "always", JNull)) || DriftHolds(obs, when)
                    || IssueHolds(obs, when) || ReadinessHolds(obs, when))
  {
    if !rule.JObj? then Err(RuleNotObject)
    else if !WhenOf(rule.fields).JObj? then Err(WhenNotObject)
    else
      var when := WhenOf(rule.fields).fields;
      var dc := Get(obs, "drift_count", JNull);
      if Truthy(Get(when, "always", JNull)) then Ok(true)
      else if "drift_count_gte" in when && dc != JNull && IntOf(when["drift_count_gte"]).None? then
        Err(ThresholdNotInt)
      else if "drift_count_gte" in when && dc != JNull && IntOf(dc).None? then
        Err(DriftNotComparable)
      else if DriftHolds(obs, when) then Ok(true)
      else if IssueNames(obs).Err? then Err(IssueNames(obs).error)
      else if "issue_in" in when && ItemSet(when["issue_in"]).Err? then Err(ItemSet(when["issue_in"]).error)
      else if IssueHolds(obs, when) then Ok(true)
      else Ok(ReadinessHolds(obs, when))
  }

  /** The index of the first rule at or after `from` that matches, or the
      first fault met on the way. */
  function FirstMatch(obs: map<string, Json>, rules: seq<Json>, from: nat): (r: Result<Option<nat>, PolicyFault>)
    requires from <= |rules|
    ensures r.Ok? && r.value.Some? ==>
      && from <= r.value.value < |rules|
      && MatchRule(obs, rules[r.value.value]) == Ok(true)
      && forall j | from <= j < r.value.value :: MatchRule(obs, rules[j]) == Ok(false)
    ensures r.Ok? && r.value.None? ==> forall j | from <= j < |rules| :: MatchRule(obs, rules[j]) == Ok(false)
    ensures r.Err? ==>
      exists k | from <= k < |rules| :: MatchRule(obs, rules[k]) == Err(r.error)
                                     && forall j | from <= j < k :: MatchRule(obs, rules[j]) == Ok(false)
    decreases |rules| - from
  {
    if from == |rules| then Ok(None)
    else match MatchRule(obs, rules[from])
      case Err(e) => Err(e)
      case Ok(true) => Ok(Some(from))
      case Ok(false) => FirstMatch(obs, rules, from + 1)
  }

  /** The decision a selected rule yields: its action, reason, score
      (default 0) and id, with the digest of the observation. */
  function DecisionFrom(h: Hasher, obs: map<string, Json>, rule: map<string, Json>): (d: Decision)
    ensures d.action == Get(rule, "action", JNull) && d.reason == Get(rule, "reason", JNull)
    ensures d.score == (if "score" in rule then rule["score"] else JInt(0))
    ensures d.ruleId == Get(rule, "id", JNull) && d.observHash == h(JObj(obs))
  {
    Decision(Get(rule, "action", JNull), Get(rule, "reason", JNull), Get(rule, "score", JInt(0)),
             Get(rule, "id", JNull), h(JObj(obs)))
  }

  /** `evaluate` over a given rule list (the rules file, or `DEFAULT_RULES`):
      the first rule that matches decides; a fault met before any match is
      raised; without a match the last default rule decides. */
  function EvaluateFor(h: Hasher, obs: map<string, Json>, rules: seq<Json>): (r: Result<Decision, PolicyFault>)
    ensures r.Ok? ==> r.value.observHash == h(JObj(obs))
    ensures forall i | 0 <= i < |rules| ::
      MatchRule(obs, rules[i]) == Ok(true) && (forall j | 0 <= j < i :: MatchRule(obs, rules[j]) == Ok(false)) ==>
        r == Ok(DecisionFrom(h, obs, rules[i].fields))
    ensures forall i | 0 <= i < |rules| ::
      MatchRule(obs, rules[i]).Err? && (forall j | 0 <= j < i :: MatchRule(obs, rules[j]) == Ok(false)) ==>
        r == Err(MatchRule(obs, rules[i]).error)
    ensures (forall j | 0 <= j < |rules| :: MatchRule(obs, rules[j]) == Ok(false)) ==>
      r == Ok(DecisionFrom(h, obs, IGNORE_DEFAULT.fields))
  {
    match FirstMatch(obs, rules, 0)
    case Err(e) => Err(e)
    case Ok(None) => Ok(DecisionFrom(h, obs, DEFAULT_RULES[|DEFAULT_RULES| - 1].fields))
    case Ok(Some(i)) => Ok(DecisionFrom(h, obs, rules[i].fields))
  }

  /** `evaluate`: the first-match loop. */
  method Evaluate(h: Hasher, obs: map<string, Json>, rules: seq<Json>) returns (r: Result<Decision, PolicyFault>)
    ensures r == EvaluateFor(h, obs, rules)
  {
    var i := 0;
    while i < |rules|
      invariant i <= |rules|
      invariant FirstMatch(obs, rules, 0) == FirstMatch(obs, rules, i)
    {
      var m := MatchRule(obs, rules[i]);
      if m.Err? {
        return Err(m.error);
      }
      if m.value {
        return Ok(DecisionFrom(h, obs, rules[i].fields));
      }
      i := i + 1;
    }
    return Ok(DecisionFrom(h, obs, IGNORE_DEFAULT.fields));
  }

  /** A rule with `always: true` selects itself when it is reached: no rule
      after it is ever consulted. */
  lemma AlwaysStopsTheSearch(h: Hasher, obs: map<string, Json>, rules: seq<Json>, k: nat)
    requires k < |rules| && rules[k].JObj? && WhenOf(rules[k].fields).JObj?
    requires Truthy(Get(WhenOf(rules[k].fields).fields, "always", JNull))
    requires forall j | 0 <= j < k :: MatchRule(obs, rules[j]) == Ok(false)
    ensures EvaluateFor(h, obs, rules) == EvaluateFor(h, obs, rules[..k + 1])
  {
    assert MatchRule(obs, rules[k]) == Ok(true);
    FirstMatchPrefix(obs, rules, k + 1, 0);
  }

  lemma {:induction false} FirstMatchPrefix(obs: map<string, Json>, rules: seq<Json>, n: nat, from: nat)
    requires from <= n <= |rules|
    requires exists j | from <= j < n :: MatchRule(obs, rules[j]) != Ok(false)
    ensures FirstMatch(obs, rules, from) == FirstMatch(obs, rules[..n], from)
    decreases n - from
  {
    assert rules[..n][from] == rules[from];
    if MatchRule(obs, rules[from]) == Ok(false) {
      FirstMatchPrefix(obs, rules, n, from + 1);
    }
  }

  /** The fields of a rule built by `RuleJson`, as `evaluate` reads them. */
  lemma RuleFields(id: string, action: string, reason: string, score: int, when: map<string, Json>)
    ensures
      var f := RuleJson(id, action, reason, score, when).fields;
      && Get(f, "action", JNull) == JStr(action)
      && Get(f, "reason", JNull) == JStr(reason)
      && Get(f, "score", JInt(0)) == JInt(score)
      && Get(f, "id", JNull) == JStr(id)
  {
  }

  /** An observation reporting a `SUPERVISED_STOP` issue escalates with score 90. */
  lemma DefaultStopEscalates(h: Hasher, obs: map<string, Json>)
    requires IssueNames(obs).Ok? && JStr("SUPERVISED_STOP") in IssueNames(obs).value
    ensures EvaluateFor(h, obs, DEFAULT_RULES).Ok?
    ensures EvaluateFor(h, obs, DEFAULT_RULES).value.action == JStr("ESCALATE")
    ensures EvaluateFor(h, obs, DEFAULT_RULES).value.score == JInt(90)
  {
    StopMatchesFirst(obs);
    RuleFields("escalate_on_stop", "ESCALATE", "supervised_stop_detected", 90,
               map["issue_in" := JArr([JStr("SUPERVISED_STOP")])]);
  }

  /** A stop issue: the first default rule matches. */
  lemma StopMatchesFirst(obs: map<string, Json>)
    requires IssueNames(obs).Ok? && JStr("SUPERVISED_STOP") in IssueNames(obs).value
    ensures FirstMatch(obs, DEFAULT_RULES, 0) == Ok(Some(0))
  {
    var when := ESCALATE_ON_STOP.fields["when"].fields;
    assert JStr("SUPERVISED_STOP") in ItemSet(when["issue_in"]).value;
    assert IssueHolds(obs, when);
    assert MatchRule(obs, DEFAULT_RULES[0]) == Ok(true);
  }

  /** A rule whose only condition is `issue_in` does not match when no
      issue name is one of its targets. */
  lemma IssueRuleMisses(obs: map<string, Json>, rule: Json, targets: seq<Json>)
    requires rule.JObj? && WhenOf(rule.fields) == JObj(map["issue_in" := JArr(targets)])
    requires forall x <- targets :: Hashable(x)
    requires IssueNames(obs).Ok? && forall x <- targets :: x !in IssueNames(obs).value
    ensures MatchRule(obs, rule) == Ok(false)
  {
    var when := WhenOf(rule.fields).fields;
    assert ItemSet(when["issue_in"]).value == set x | x in targets;
    assert !IssueHolds(obs, when);
  }

  /** A stale component (and no stop) warns with reason `stale_component`. */
  lemma DefaultStaleWarns(h: Hasher, obs: map<string, Json>)
    requires IssueNames(obs).Ok? && JStr("SUPERVISED_STALE") in IssueNames(obs).value
    requires JStr("SUPERVISED_STOP") !in IssueNames(obs).value
    ensures EvaluateFor(h, obs, DEFAULT_RULES).Ok?
    ensures EvaluateFor(h, obs, DEFAULT_RULES).value.action == JStr("WARN")
    ensures EvaluateFor(h, obs, DEFAULT_RULES).value.reason == JStr("stale_component")
  {
    StaleMatchesSecond(obs);
    RuleFields("warn_on_stale", "WARN", "stale_component", 50,
               map["issue_in" := JArr([JStr("SUPERVISED_STALE"), JStr("STALE")])]);
  }

  /** A stale component (and no stop): the second default rule is the first to match. */
  lemma StaleMatchesSecond(obs: map<string, Json>)
    requires IssueNames(obs).Ok? && JStr("SUPERVISED_STALE") in IssueNames(obs).value
    requires JStr("SUPERVISED_STOP") !in IssueNames(obs).value
    ensures FirstMatch(obs, DEFAULT_RULES, 0) == Ok(Some(1))
  {
    IssueRuleMisses(obs, ESCALATE_ON_STOP, [JStr("SUPERVISED_STOP")]);
    var w1 := WARN_ON_STALE.fields["when"].fields;
    assert JStr("SUPERVISED_STALE") in ItemSet(w1["issue_in"]).value;
    assert IssueHolds(obs, w1);
    assert MatchRule(obs, DEFAULT_RULES[1]) == Ok(true);
    assert FirstMatch(obs, DEFAULT_RULES, 1) == Ok(Some(1));
  }

  /** With no issues and no drift, only the last default rule matches. */
  lemma QuietMatchesLast(obs: map<string, Json>)
    requires !Truthy(Get(obs, "issues", JArr([])))
    requires Get(obs, "drift_count", JNull) == JInt(0)
    ensures FirstMatch(obs, DEFAULT_RULES, 0) == Ok(Some(3))
  {
    assert IssueNames(obs) == Ok({});
    IssueRuleMisses(obs, ESCALATE_ON_STOP, [JStr("SUPERVISED_STOP")]);
    IssueRuleMisses(obs, WARN_ON_STALE, [JStr("SUPERVISED_STALE"), JStr("STALE")]);
    assert !DriftHolds(obs, WARN_ON_DRIFT.fields["when"].fields);
    assert MatchRule(obs, DEFAULT_RULES[2]) == Ok(false);
    assert MatchRule(obs, DEFAULT_RULES[3]) == Ok(true);
    assert FirstMatch(obs, DEFAULT_RULES, 3) == Ok(Some(3));
    assert FirstMatch(obs, DEFAULT_RULES, 2) == Ok(Some(3));
    assert FirstMatch(obs, DEFAULT_RULES, 1) == Ok(Some(3));
  }

  /** No issues and no drift: the default rule ignores the observation. */
  lemma DefaultQuietIgnores(h: Hasher, obs: map<string, Json>)
    requires !Truthy(Get(obs, "issues", JArr([])))
    requires Get(obs, "drift_count", JNull) == JInt(0)
    ensures EvaluateFor(h, obs, DEFAULT_RULES)
         == Ok(Decision(JStr("IGNORE"), JStr("no_issues_detected"), JInt(0), JStr("ignore_default"), h(JObj(obs))))
  {
    QuietMatchesLast(obs);
    RuleFields("ignore_default", "IGNORE", "no_issues_detected", 0, map["always" := JBool(true)]);
  }
}
