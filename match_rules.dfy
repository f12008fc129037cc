/** The keyword rule matcher: every observation of a report gets the list of
    regulations whose keywords occur in its lower-cased description. The
    observations list is updated in place. */
module MatchRules {
  import opened Wrappers
  import opened JsonValues
  import opened Text

  /** A rule of the rules file: the fields copied into a match, and the
      `applies_if` keywords. */
  datatype Rule = Rule(regulation: Json, code: Json, title: Json, appliesIf: seq<string>)

  /** `any(k in desc for k in r["applies_if"])`. */
  predicate Applies(r: Rule, desc: string)
  {
    exists k <- r.appliesIf :: Contains(desc, k)
  }

  /** The match record: regulation, code and title only. */
  function MatchJson(r: Rule): Json
  {
    JObj(map["regulation" := r.regulation, "code" := r.code, "title" := r.title])
  }

  /** The matches for one description, in rule order. */
  function MatchesFor(rules: seq<Rule>, desc: string): (m: seq<Json>)
    ensures |m| <= |rules|
  {
    if rules == [] then []
    else (if Applies(rules[0], desc) then [MatchJson(rules[0])] else []) + MatchesFor(rules[1..], desc)
  }

  /** Every applicable rule contributes its match, and every match comes
      from an applicable rule. */
  lemma {:induction false} MatchesMembers(rules: seq<Rule>, desc: string)
    ensures forall r <- rules :: Applies(r, desc) ==> MatchJson(r) in MatchesFor(rules, desc)
    ensures forall x <- MatchesFor(rules, desc) :: exists r <- rules :: Applies(r, desc) && x == MatchJson(r)
  {
    if rules != [] {
      MatchesMembers(rules[1..], desc);
      assert forall r <- rules :: r == rules[0] || r in rules[1..];
      assert forall r <- rules[1..] :: r in rules;
    }
  }

  /** The first rule's match, if any, comes before the rest's. */
  lemma MatchesCons(r: Rule, rest: seq<Rule>, desc: string)
    ensures MatchesFor([r] + rest, desc) == (if Applies(r, desc) then [MatchJson(r)] else []) + MatchesFor(rest, desc)
  {
    assert ([r] + rest)[1..] == rest;
  }

  /** The matches of a rule list are those of its first part followed by
      those of the rest. With `MatchesOne` this pins the matches down as
      the applicable rules, each once, in rule order. */
  lemma {:induction false} MatchesAppend(a: seq<Rule>, b: seq<Rule>, desc: string)
    ensures MatchesFor(a + b, desc) == MatchesFor(a, desc) + MatchesFor(b, desc)
  {
    if a == [] {
      assert a + b == b;
    } else {
      assert a == [a[0]] + a[1..];
      assert a + b == [a[0]] + (a[1..] + b);
      MatchesCons(a[0], a[1..] + b, desc);
      MatchesCons(a[0], a[1..], desc);
      MatchesAppend(a[1..], b, desc);
    }
  }

  /** A single rule contributes one match exactly when it applies. */
  lemma MatchesOne(r: Rule, desc: string)
    ensures MatchesFor([r], desc) == (if Applies(r, desc) then [MatchJson(r)] else [])
  {
    assert [r][1..] == [];
  }

  /** `(obs.get("description", "") or "").lower()`; `None` when a truthy
      description is not a string (`.lower()` raises). */
  function DescriptionOf(obs: map<string, Json>): (r: Option<string>)
    ensures !Truthy(Get(obs, "description", JNull)) ==> r == Some([])
    ensures var d := Get(obs, "description", JNull); Truthy(d) && d.JStr? ==> r == Some(Lower(d.s))
    ensures var d := Get(obs, "description", JNull); Truthy(d) && !d.JStr? ==> r == None
    ensures r.Some? ==> forall i :: 0 <= i < |r.value| ==> !IsUpper(r.value[i])
  {
    var d := Get(obs, "description", JStr(""));
    if !Truthy(d) then Some([])
    else if d.JStr? then Some(Lower(d.s))
    else None
  }

  /** One observation with its `regulation_matches` set; `None` when the
      script would raise on it. */
  function Annotate(rules: seq<Rule>, obs: Json): (r: Option<Json>)
    ensures r.Some? <==> obs.JObj? && DescriptionOf(obs.fields).Some?
    ensures r.Some? ==> r.value.JObj?
    ensures r.Some? ==>
      && "regulation_matches" in r.value.fields
      && r.value.fields["regulation_matches"] == JArr(MatchesFor(rules, DescriptionOf(obs.fields).value))
    ensures r.Some? ==> r.value.fields.Keys == obs.fields.Keys + {"regulation_matches"}
    ensures r.Some? ==> forall k <- obs.fields | k != "regulation_matches" :: r.value.fields[k] == obs.fields[k]
  {
    if !obs.JObj? then None
    else match DescriptionOf(obs.fields)
      case None => None
      case Some(desc) => Some(JObj(obs.fields["regulation_matches" := JArr(MatchesFor(rules, desc))]))
  }

  /** The matching loop over `tacqo["observations"]`, in place. When an
      observation makes the script raise, `ok` is false (nothing is
      printed, so the array's contents no longer matter). */
  method MatchObservations(rules: seq<Rule>, observations: array<Json>) returns (ok: bool)
    modifies observations
    ensures ok <==> forall i | 0 <= i < observations.Length :: Annotate(rules, old(observations[i])).Some?
    ensures ok ==> forall i | 0 <= i < observations.Length ::
                     observations[i] == Annotate(rules, old(observations[i])).value
  {
    var i := 0;
    while i < observations.Length
      invariant i <= observations.Length
      invariant forall j | 0 <= j < i :: Annotate(rules, old(observations[j])).Some?
      invariant forall j | 0 <= j < i :: observations[j] == Annotate(rules, old(observations[j])).value
      invariant forall j | i <= j < observations.Length :: observations[j] == old(observations[j])
    {
      var annotated := Annotate(rules, observations[i]);
      if annotated.None? {
        return false;
      }
      observations[i] := annotated.value;
      i := i + 1;
    }
    return true;
  }

  /** Every observation annotated, in order; `None` when one of them cannot be. */
  function AnnotateAll(rules: seq<Rule>, items: seq<Json>): (r: Option<seq<Json>>)
    ensures r.Some? <==> forall i | 0 <= i < |items| :: Annotate(rules, items[i]).Some?
    ensures r.Some? ==> |r.value| == |items|
                        && forall i | 0 <= i < |items| :: r.value[i] == Annotate(rules, items[i]).value
  {
    if forall i | 0 <= i < |items| :: Annotate(rules, items[i]).Some? then
      Some(seq(|items|, i requires 0 <= i < |items| => Annotate(rules, items[i]).value))
    else None
  }

  /** The printed report, or `None` when the script raises: the report is not
      a dict, its observations are not iterable (null, a number, a boolean),
      they are a non-empty string or dict (whose items have no `.get`), or an
      observation cannot be annotated. An absent, empty or `""` observations
      value leaves the report as it was. */
  function ReportFor(rules: seq<Rule>, tacqo: Json): (r: Option<Json>)
    ensures r.Some? <==>
      tacqo.JObj?
      && var o := Get(tacqo.fields, "observations", JArr([]));
         || (o.JArr? && forall x <- o.items :: Annotate(rules, x).Some?)
         || o == JStr("") || o == JObj(map[])
    ensures r.Some? && "observations" in tacqo.fields && tacqo.fields["observations"].JArr? ==>
      var items := tacqo.fields["observations"].items;
      && r.value.JObj? && r.value.fields.Keys == tacqo.fields.Keys
      && (forall k <- tacqo.fields | k != "observations" :: r.value.fields[k] == tacqo.fields[k])
      && r.value.fields["observations"].JArr?
      && |r.value.fields["observations"].items| == |items|
      && forall i | 0 <= i < |items| :: r.value.fields["observations"].items[i] == Annotate(rules, items[i]).value
    ensures r.Some? && !("observations" in tacqo.fields && tacqo.fields["observations"].JArr?) ==> r == Some(tacqo)
  {
    if !tacqo.JObj? then None
    else
      var o := Get(tacqo.fields, "observations", JArr([]));
      if o.JArr? then
        match AnnotateAll(rules, o.items)
        case None =>
          assert exists i | 0 <= i < |o.items| :: Annotate(rules, o.items[i]).None?;
          None
        case Some(annotated) =>
          assert forall x <- o.items :: Annotate(rules, x).Some?;
          if "observations" in tacqo.fields then Some(JObj(tacqo.fields["observations" := JArr(annotated)]))
          else Some(tacqo)
      else if o == JStr("") || o == JObj(map[]) then Some(tacqo)
      else None
  }

  /** The script on one report: the observations list is copied into an
      array, annotated in place by the matching loop, and put back. */
  method MatchReport(rules: seq<Rule>, tacqo: Json) returns (r: Option<Json>)
    ensures r == ReportFor(rules, tacqo)
  {
    if !tacqo.JObj? {
      return None;
    }
    var o := Get(tacqo.fields, "observations", JArr([]));
    if !o.JArr? {
      if o == JStr("") || o == JObj(map[]) {
        return Some(tacqo);
      }
      return None;
    }
    var observations := new Json[|o.items|](i requires 0 <= i < |o.items| => o.items[i]);
    assert observations[..] == o.items;
    var ok := MatchObservations(rules, observations);
    if !ok {
      assert AnnotateAll(rules, o.items).None?;
      return None;
    }
    assert forall i | 0 <= i < |o.items| :: observations[i] == Annotate(rules, o.items[i]).value;
    assert AnnotateAll(rules, o.items).value == observations[..];
    if "observations" in tacqo.fields {
      r := Some(JObj(tacqo.fields["observations" := JArr(observations[..])]));
    } else {
      r := Some(tacqo);
    }
  }

  /** Keywords are not lower-cased: one holding an upper-case letter never
      matches, since the description it is searched in has none. */
  lemma UppercaseKeywordNeverMatches(obs: map<string, Json>, k: string, j: nat)
    requires DescriptionOf(obs).Some?
    requires j < |k| && IsUpper(k[j])
    ensures !Contains(DescriptionOf(obs).value, k)
  {
    var desc := DescriptionOf(obs).value;
    forall i | 0 <= i <= |desc| - |k|
      ensures !OccursAt(desc, k, i)
    {
      assert !IsUpper(desc[i + j]);
    }
  }

  /** An observation without a description matches only rules with an
      empty keyword. */
  lemma NoDescriptionMatchesEmptyKeywordOnly(rules: seq<Rule>, obs: map<string, Json>, r: Rule)
    requires !Truthy(Get(obs, "description", JNull))
    ensures Applies(r, DescriptionOf(obs).value) <==> [] in r.appliesIf
  {
    if [] in r.appliesIf {
      assert OccursAt([], [], 0);
    }
    if Applies(r, []) {
      var k :| k in r.appliesIf && Contains([], k);
      assert |k| == 0;
    }
  }
}
