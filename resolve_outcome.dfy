/** The outcome resolver: a report whose regulation matches include a C1 or
    C2 code is UNSATISFACTORY, any other SATISFACTORY; only
    `summary.overall_result` is written. */
module ResolveOutcome {
  import opened Wrappers
  import opened JsonValues
  import MatchRules

  /** The codes of one observation's matches, or `None` when reading them
      raises (a match without `code`, or with an unhashable one). */
  function MatchCodes(ms: seq<map<string, Json>>): (r: Option<set<Json>>)
    ensures r.Some? ==> forall m <- ms :: "code" in m && m["code"] in r.value
    ensures r.Some? ==> forall c <- r.value :: exists m <- ms :: "code" in m && m["code"] == c
  {
    if ms == [] then Some({})
    else
      var m := ms[0];
      assert forall x <- ms :: x == m || x in ms[1..];
      if "code" !in m || !Hashable(m["code"]) then None
      else match MatchCodes(ms[1..])
        case None => None
        case Some(rest) => Some({m["code"]} + rest)
  }

  function MatchesOf(o: map<string, Json>): Option<seq<map<string, Json>>>
  {
    DictItems(Get(o, "regulation_matches", JArr([])))
  }

  /** `{m["code"] for o in observations for m in o.get("regulation_matches", [])}`. */
  function ObservationCodes(os: seq<map<string, Json>>): (r: Option<set<Json>>)
    ensures r.Some? ==> forall o <- os ::
      && MatchesOf(o).Some?
      && MatchCodes(MatchesOf(o).value).Some?
      && MatchCodes(MatchesOf(o).value).value <= r.value
    ensures r.Some? ==> forall c <- r.value :: exists o <- os ::
      MatchesOf(o).Some? && MatchCodes(MatchesOf(o).value).Some? && c in MatchCodes(MatchesOf(o).value).value
    ensures r.Some? <==> forall o <- os :: MatchesOf(o).Some? && MatchCodes(MatchesOf(o).value).Some?
  {
    if os == [] then Some({})
    else
      var o := os[0];
      assert forall x <- os :: x == o || x in os[1..];
      match MatchesOf(o)
        case None => None
        case Some(ms) =>
          match (MatchCodes(ms), ObservationCodes(os[1..]))
          case (Some(c), Some(rest)) => Some(c + rest)
          case _ => None
  }

  /** The codes of the whole report. */
  function CodesOf(t: map<string, Json>): Option<set<Json>>
  {
    match DictItems(Get(t, "observations", JArr([])))
    case None => None
    case Some(os) => ObservationCodes(os)
  }

  predicate Unsatisfactory(codes: set<Json>)
  {
    JStr("C1") in codes || JStr("C2") in codes
  }

  /** The resolved report, or `None` when the script raises (an unreadable
      code, or a `summary` that is not a dict). */
  function Resolve(t: Json): (r: Option<Json>)
    ensures r.Some? ==> t.JObj? && CodesOf(t.fields).Some? && r.value.JObj?
    ensures r.Some? ==>
      var summary := Get(t.fields, "summary", JObj(map[]));
      && summary.JObj?
      && r.value.fields == t.fields["summary" := JObj(summary.fields["overall_result" :=
           JStr(if Unsatisfactory(CodesOf(t.fields).value) then "UNSATISFACTORY" else "SATISFACTORY")])]
    ensures t.JObj? && CodesOf(t.fields).Some? && Get(t.fields, "summary", JObj(map[])).JObj? ==> r.Some?
  {
    if !t.JObj? then None
    else match CodesOf(t.fields)
      case None => None
      case Some(codes) =>
        var summary := Get(t.fields, "summary", JObj(map[]));
        if !summary.JObj? then None
        else
          var verdict := if Unsatisfactory(codes) then "UNSATISFACTORY" else "SATISFACTORY";
          Some(JObj(t.fields["summary" := JObj(summary.fields["overall_result" := JStr(verdict)])]))
  }

  /** A report without observations is SATISFACTORY. */
  lemma NoObservationsSatisfactory(t: map<string, Json>)
    requires "observations" !in t && "summary" !in t
    ensures Resolve(JObj(t)) == Some(JObj(t["summary" := JObj(map["overall_result" := JStr("SATISFACTORY")])]))
  {
    assert CodesOf(t) == Some({});
  }

  /** Matching then resolving: when a rule coded C1 applies to an
      observation's description, the report comes out UNSATISFACTORY. */
  lemma MatchedC1IsUnsatisfactory(rules: seq<MatchRules.Rule>, t: map<string, Json>, obs: seq<Json>,
                                  annotated: seq<Json>, i: nat, r: MatchRules.Rule)
    requires |annotated| == |obs| && i < |obs|
    requires forall j | 0 <= j < |obs| :: MatchRules.Annotate(rules, obs[j]) == Some(annotated[j])
    requires r in rules && r.code == JStr("C1")
    requires obs[i].JObj? && MatchRules.DescriptionOf(obs[i].fields).Some?
    requires MatchRules.Applies(r, MatchRules.DescriptionOf(obs[i].fields).value)
    requires Resolve(JObj(t["observations" := JArr(annotated)])).Some?
    ensures Resolve(JObj(t["observations" := JArr(annotated)])).value.fields["summary"].fields["overall_result"]
         == JStr("UNSATISFACTORY")
  {
    var t2 := t["observations" := JArr(annotated)];
    var codes := CodesOf(t2).value;
    var desc := MatchRules.DescriptionOf(obs[i].fields).value;
    var ms := MatchRules.MatchesFor(rules, desc);
    var os := DictItems(JArr(annotated)).value;
    assert os[i] == annotated[i].fields && os[i] in os;
    assert os[i]["regulation_matches"] == JArr(ms);
    MatchRules.MatchesMembers(rules, desc);
    assert MatchRules.MatchJson(r) in ms;
    var k :| 0 <= k < |ms| && ms[k] == MatchRules.MatchJson(r);
    var mds := MatchesOf(os[i]).value;
    assert mds[k] == MatchRules.MatchJson(r).fields && mds[k] in mds;
    assert JStr("C1") in MatchCodes(mds).value;
    assert JStr("C1") in codes;
  }
}
