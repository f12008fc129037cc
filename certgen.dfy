/** The certificate generator: `build_certificate` projects a report into a
    certificate (metadata with an id, projected observations, optional
    review entries) and `to_markdown` renders it. The clock, the rules
    version read from the governance file, the parsed audit log and
    Python's `str()` of a value are inputs. */
module Certgen {
  import opened Wrappers
  import opened JsonValues

  /** Python's `str(x)`, as an f-string field renders a value. */
  type Show = Json -> string

  datatype ObsProjection = ObsProjection(
    description: Json, location: Json, codes: seq<Json>, regulations: seq<Json>, titles: seq<Json>)

  datatype Certificate = Certificate(
    metadata: Json,
    generator: string,
    rulesVersion: string,
    generatedAt: string,
    installation: Json,
    observations: seq<ObsProjection>,
    testResults: Json,
    summary: Json,
    reviews: seq<Json>)

  /** `[m.get(key) for m in ms if m.get(key)]`. */
  function Truthies(ms: seq<map<string, Json>>, key: string): (r: seq<Json>)
    ensures |r| <= |ms|
    ensures forall x <- r :: Truthy(x)
    ensures forall m <- ms :: Truthy(Get(m, key, JNull)) ==> Get(m, key, JNull) in r
    ensures forall x <- r :: exists m <- ms :: Get(m, key, JNull) == x
  {
    if ms == [] then []
    else
      var v := Get(ms[0], key, JNull);
      assert forall m <- ms :: m == ms[0] || m in ms[1..];
      (if Truthy(v) then [v] else []) + Truthies(ms[1..], key)
  }

  /** The kept values are in the order of `ms`: appending a report appends
      its value when that value is truthy, and nothing otherwise. */
  lemma {:induction false} TruthiesSnoc(ms: seq<map<string, Json>>, m: map<string, Json>, key: string)
    ensures var v := Get(m, key, JNull);
            Truthies(ms + [m], key) == Truthies(ms, key) + (if Truthy(v) then [v] else [])
  {
    if ms == [] {
      TruthiesCons([m], key);
      assert [m][1..] == [];
    } else {
      TruthiesCons(ms + [m], key);
      TruthiesCons(ms, key);
      assert (ms + [m])[0] == ms[0];
      assert (ms + [m])[1..] == ms[1..] + [m];
      TruthiesSnoc(ms[1..], m, key);
    }
  }

  /** One step of `Truthies`: the first report's value, then the rest's. */
  lemma TruthiesCons(ms: seq<map<string, Json>>, key: string)
    requires ms != []
    ensures var v := Get(ms[0], key, JNull);
            Truthies(ms, key) == (if Truthy(v) then [v] else []) + Truthies(ms[1..], key)
  {
  }

  /** One observation's projection, or `None` when its matches are not a
      list of dicts. */
  function Project(o: map<string, Json>): (r: Option<ObsProjection>)
    ensures r.Some? <==> DictItems(Get(o, "regulation_matches", JArr([]))).Some?
    ensures r.Some? ==> (r.value.description == Get(o, "description", JNull)
                         && r.value.location == Get(o, "location", JNull))
    ensures r.Some? ==> var ms := DictItems(Get(o, "regulation_matches", JArr([]))).value;
                        && r.value.codes == Truthies(ms, "code")
                        && r.value.regulations == Truthies(ms, "regulation")
                        && r.value.titles == Truthies(ms, "title")
  {
    match DictItems(Get(o, "regulation_matches", JArr([])))
    case None => None
    case Some(ms) =>
      Some(ObsProjection(Get(o, "description", JNull), Get(o, "location", JNull),
                         Truthies(ms, "code"), Truthies(ms, "regulation"), Truthies(ms, "title")))
  }

  /** An observation with a single match keeps that match's code, regulation
      and title. */
  lemma ProjectOneMatch(description: Json, location: Json, regulation: string, code: string, title: string)
    requires regulation != [] && code != [] && title != []
    ensures var m := map["regulation" := JStr(regulation), "code" := JStr(code), "title" := JStr(title)];
            var o := map["description" := description, "location" := location,
                         "regulation_matches" := JArr([JObj(m)])];
            Project(o) == Some(ObsProjection(description, location, [JStr(code)], [JStr(regulation)], [JStr(title)]))
  {
    var m := map["regulation" := JStr(regulation), "code" := JStr(code), "title" := JStr(title)];
    var o := map["description" := description, "location" := location,
                 "regulation_matches" := JArr([JObj(m)])];
    var d := DictItems(Get(o, "regulation_matches", JArr([])));
    assert d.Some? && |d.value| == 1 && d.value[0] == m;
    assert d.value == [m];
    assert [m][1..] == [];
    assert Truthies([m], "code") == [JStr(code)];
    assert Truthies([m], "regulation") == [JStr(regulation)];
    assert Truthies([m], "title") == [JStr(title)];
  }

  /** All observations' projections, one per observation and in order. */
  function ProjectAll(os: seq<map<string, Json>>): (r: Option<seq<ObsProjection>>)
    ensures r.Some? <==> forall i | 0 <= i < |os| :: Project(os[i]).Some?
    ensures r.Some? ==> |r.value| == |os| && forall i | 0 <= i < |os| :: r.value[i] == Project(os[i]).value
  {
    if forall i | 0 <= i < |os| :: Project(os[i]).Some? then
      Some(seq(|os|, i requires 0 <= i < |os| => Project(os[i]).value))
    else None
  }

  /** `"id" in md` for the values that have `.copy()`: a dict's key or a
      list's item. */
  predicate HasId(md: Json)
  {
    (md.JObj? && "id" in md.fields) || (md.JArr? && JStr("id") in md.items)
  }

  /** `tacqo.get("metadata", {}).copy()` with an id ensured, or `None` when
      the value has no `.copy()` or is a list without `"id"` (assigning a
      string index to a list raises). */
  function MetadataFor(tacqo: map<string, Json>, stamp: string): (r: Option<Json>)
    ensures var md := Get(tacqo, "metadata", JObj(map[]));
            r.Some? <==> md.JObj? || (md.JArr? && JStr("id") in md.items)
    ensures r.Some? ==> HasId(r.value)
    ensures var md := Get(tacqo, "metadata", JObj(map[]));
            HasId(md) ==> r == Some(md)
    ensures var md := Get(tacqo, "metadata", JObj(map[]));
            md.JObj? && "id" !in md.fields ==> r == Some(JObj(md.fields["id" := JStr("cert-" + stamp)]))
  {
    var md := Get(tacqo, "metadata", JObj(map[]));
    if HasId(md) then Some(md)
    else if md.JObj? then Some(JObj(md.fields["id" := JStr("cert-" + stamp)]))
    else None
  }

  /** `cert["metadata"].get("id")`, or `None` when the metadata is a list. */
  function DocId(md: Json): (r: Option<Json>)
    ensures r.Some? <==> md.JObj?
    ensures md.JObj? ==> r == Some(Get(md.fields, "id", JNull))
  {
    if md.JObj? then Some(Get(md.fields, "id", JNull)) else None
  }

  /** A report whose metadata is a list holding `"id"` keeps that list, and
      builds a certificate when no reviews are asked for; asking for reviews
      then fails on the list's missing `.get`. */
  lemma ListMetadataWithId(tacqo: map<string, Json>, audit: seq<Json>, generator: string,
                           rulesVersion: string, stamp: string, generatedAt: string)
    requires tacqo == map["metadata" := JArr([JStr("id")])]
    ensures var c := CertificateFor(tacqo, false, audit, generator, rulesVersion, stamp, generatedAt);
            c.Some? && c.value.metadata == JArr([JStr("id")]) && c.value.observations == []
    ensures CertificateFor(tacqo, true, audit, generator, rulesVersion, stamp, generatedAt).None?
  {
    assert JStr("id") in [JStr("id")];
    assert DictItems(JArr([])) == Some([]);
  }

  /** An audit entry refers to the document: both ids truthy and equal. */
  predicate RefersTo(e: map<string, Json>, docId: Json)
  {
    Truthy(Get(e, "document_id", JNull)) && Truthy(docId) && Get(e, "document_id", JNull) == docId
  }

  /** The review entries kept for a document, in log order. */
  function ReviewsFor(entries: seq<map<string, Json>>, docId: Json): (r: seq<Json>)
    ensures forall x <- r :: x.JObj? && RefersTo(x.fields, docId) && x.fields in entries
    ensures forall e <- entries :: RefersTo(e, docId) ==> JObj(e) in r
    ensures !Truthy(docId) ==> r == []
  {
    if entries == [] then []
    else
      var init := entries[..|entries| - 1];
      var e := entries[|entries| - 1];
      assert forall x <- entries :: x == e || x in init;
      ReviewsFor(init, docId) + (if RefersTo(e, docId) then [JObj(e)] else [])
  }

  /** The kept entries are in log order: the entries of a longer log are
      those of its first part followed by those of the rest. */
  lemma {:induction false} ReviewsForAppend(a: seq<map<string, Json>>, b: seq<map<string, Json>>, docId: Json)
    ensures ReviewsFor(a + b, docId) == ReviewsFor(a, docId) + ReviewsFor(b, docId)
    decreases |b|
  {
    if b == [] {
      assert a + b == a;
    } else {
      var init := b[..|b| - 1];
      assert (a + b)[..|a + b| - 1] == a + init;
      assert (a + b)[|a + b| - 1] == b[|b| - 1];
      ReviewsForAppend(a, init, docId);
    }
  }

  /** The review entries for an included review, or `None` when a log line
      is not a dict. */
  function ReviewsOf(includeReview: bool, audit: seq<Json>, docId: Json): (r: Option<seq<Json>>)
    ensures !includeReview ==> r == Some([])
    ensures includeReview ==> (r.Some? <==> forall e <- audit :: e.JObj?)
    ensures includeReview && r.Some? ==> forall x <- r.value :: x in audit && RefersTo(x.fields, docId)
    ensures includeReview && r.Some? ==> forall e <- audit :: RefersTo(e.fields, docId) ==> e in r.value
  {
    if !includeReview then Some([])
    else if exists e <- audit :: !e.JObj? then None
    else Some(ReviewsFor(DictItems(JArr(audit)).value, docId))
  }

  /** `build_certificate`, or `None` when the report's shape makes it raise. */
  function CertificateFor(tacqo: map<string, Json>, includeReview: bool, audit: seq<Json>, generator: string,
                          rulesVersion: string, stamp: string, generatedAt: string): (r: Option<Certificate>)
    ensures r.Some? ==> MetadataFor(tacqo, stamp) == Some(r.value.metadata) && HasId(r.value.metadata)
    ensures r.Some? ==> r.value.summary == Get(tacqo, "summary", JObj(map[]))
    ensures r.Some? ==> r.value.installation == Get(tacqo, "installation", JObj(map[]))
    ensures r.Some? && !includeReview ==> r.value.reviews == []
    ensures r.Some? ==> forall x <- r.value.reviews :: x.JObj?
    ensures r.Some? <==>
      && MetadataFor(tacqo, stamp).Some?
      && DictItems(Get(tacqo, "observations", JArr([]))).Some?
      && ProjectAll(DictItems(Get(tacqo, "observations", JArr([]))).value).Some?
      && (Get(tacqo, "summary", JObj(map[])).JObj? || Get(tacqo, "summary", JObj(map[])).JArr?)
      && (includeReview ==> Get(tacqo, "metadata", JObj(map[])).JObj? && forall e <- audit :: e.JObj?)
    ensures r.Some? ==> Some(r.value.observations) == ProjectAll(DictItems(Get(tacqo, "observations", JArr([]))).value)
    ensures r.Some? && includeReview ==>
              Some(r.value.reviews) == ReviewsOf(true, audit, DocId(r.value.metadata).value)
    ensures r.Some? ==> r.value.testResults == Get(tacqo, "test_results", JObj(map[]))
    ensures r.Some? ==> r.value.generator == generator && r.value.rulesVersion == rulesVersion
                        && r.value.generatedAt == generatedAt
  {
    match MetadataFor(tacqo, stamp)
    case None => None
    case Some(metadata) =>
      match DictItems(Get(tacqo, "observations", JArr([])))
      case None => None
      case Some(os) =>
        match ProjectAll(os)
        case None => None
        case Some(projected) =>
          var summary := Get(tacqo, "summary", JObj(map[]));
          if !summary.JObj? && !summary.JArr? then None
          else if includeReview && DocId(metadata).None? then None
          else match ReviewsOf(includeReview, audit, if includeReview then DocId(metadata).value else JNull)
            case None => None
            case Some(reviews) =>
              Some(Certificate(metadata, generator, rulesVersion, generatedAt,
                               Get(tacqo, "installation", JObj(map[])), projected,
                               Get(tacqo, "test_results", JObj(map[])), summary, reviews))
  }

  /** `build_certificate` with its two loops: over the observations and
      over the audit log. */
  method BuildCertificate(tacqo: map<string, Json>, includeReview: bool, audit: seq<Json>, generator: string,
                          rulesVersion: string, stamp: string, generatedAt: string) returns (r: Option<Certificate>)
    ensures r == CertificateFor(tacqo, includeReview, audit, generator, rulesVersion, stamp, generatedAt)
  {
    var metadata := MetadataFor(tacqo, stamp);
    if metadata.None? {
      return None;
    }
    var os := DictItems(Get(tacqo, "observations", JArr([])));
    if os.None? {
      return None;
    }
    var projected := ProjectObservations(os.value);
    if projected.None? {
      return None;
    }
    var summary := Get(tacqo, "summary", JObj(map[]));
    if !summary.JObj? && !summary.JArr? {
      return None;
    }
    var reviews: Option<seq<Json>> := Some([]);
    if includeReview {
      var docId := DocId(metadata.value);
      if docId.None? {
        return None;
      }
      reviews := CollectReviews(audit, docId.value);
      if reviews.None? {
        return None;
      }
    }
    r := Some(Certificate(metadata.value, generator, rulesVersion, generatedAt,
                          Get(tacqo, "installation", JObj(map[])), projected.value,
                          Get(tacqo, "test_results", JObj(map[])), summary, reviews.value));
  }

  /** The observation loop: one projection per observation, or `None` at
      the first whose matches are not a list of dicts. */
  method ProjectObservations(os: seq<map<string, Json>>) returns (r: Option<seq<ObsProjection>>)
    ensures r == ProjectAll(os)
  {
    var projected: seq<ObsProjection> := [];
    var i := 0;
    while i < |os|
      invariant i <= |os|
      invariant ProjectAll(os[..i]) == Some(projected)
    {
      var p := Project(os[i]);
      if p.None? {
        ProjectAllFails(os, i);
        return None;
      }
      ProjectAllSnoc(os, i);
      projected := projected + [p.value];
      i := i + 1;
    }
    assert os[..i] == os;
    r := Some(projected);
  }

  /** The audit loop: the entries referring to the document, or `None` at
      the first log line that is not a dict. */
  method CollectReviews(audit: seq<Json>, docId: Json) returns (r: Option<seq<Json>>)
    ensures r == ReviewsOf(true, audit, docId)
  {
    var reviews: seq<Json> := [];
    var j := 0;
    while j < |audit|
      invariant j <= |audit|
      invariant forall k :: 0 <= k < j ==> audit[k].JObj?
      invariant reviews == ReviewsFor(DictItems(JArr(audit[..j])).value, docId)
    {
      if !audit[j].JObj? {
        return None;
      }
      ReviewsForSnoc(audit, j, docId);
      if RefersTo(audit[j].fields, docId) {
        reviews := reviews + [audit[j]];
      }
      j := j + 1;
    }
    assert audit[..j] == audit;
    r := Some(reviews);
  }

  lemma ProjectAllSnoc(os: seq<map<string, Json>>, i: nat)
    requires i < |os| && ProjectAll(os[..i]).Some? && Project(os[i]).Some?
    ensures ProjectAll(os[..i + 1]) == Some(ProjectAll(os[..i]).value + [Project(os[i]).value])
  {
    var a := ProjectAll(os[..i + 1]);
    assert a.Some?;
    assert a.value == ProjectAll(os[..i]).value + [Project(os[i]).value];
  }

  lemma ProjectAllFails(os: seq<map<string, Json>>, i: nat)
    requires i < |os| && Project(os[i]).None?
    ensures ProjectAll(os) == None
  {
  }

  lemma ReviewsForSnoc(audit: seq<Json>, j: nat, docId: Json)
    requires j < |audit| && forall k :: 0 <= k <= j ==> audit[k].JObj?
    ensures ReviewsFor(DictItems(JArr(audit[..j + 1])).value, docId)
         == ReviewsFor(DictItems(JArr(audit[..j])).value, docId)
            + (if RefersTo(audit[j].fields, docId) then [audit[j]] else [])
  {
    assert forall e <- audit[..j] :: e in audit[..j + 1];
    var a := DictItems(JArr(audit[..j])).value;
    var b := DictItems(JArr(audit[..j + 1])).value;
    assert b[..|b| - 1] == a;
  }

  /** The decimal digits of `n`. */
  function NatStr(n: nat): (s: string)
    ensures |s| >= 1 && forall c <- s :: '0' <= c <= '9'
    ensures DecimalValue(s) == n
    ensures s[0] == '0' ==> n == 0
  {
    var d := "0123456789"[n % 10];
    assert d as int - '0' as int == n % 10;
    if n < 10 then
      assert [d][..0] == [];
      [d]
    else
      var s := NatStr(n / 10) + [d];
      assert s[..|s| - 1] == NatStr(n / 10);
      s
  }

  /** The number a string of decimal digits denotes. */
  function DecimalValue(s: string): int
  {
    if s == [] then 0 else 10 * DecimalValue(s[..|s| - 1]) + (s[|s| - 1] as int - '0' as int)
  }

  /** `sep.join(parts)`. */
  function Join(sep: string, parts: seq<string>): string
  {
    if parts == [] then ""
    else if |parts| == 1 then parts[0]
    else parts[0] + sep + Join(sep, parts[1..])
  }

  /** The strings of a list `str.join` accepts, or `None` when an item is
      not a string. */
  function StringsOf(xs: seq<Json>): (r: Option<seq<string>>)
    ensures r.Some? <==> forall x <- xs :: x.JStr?
    ensures r.Some? ==> |r.value| == |xs|
  {
    if forall x <- xs :: x.JStr? then Some(seq(|xs|, i requires 0 <= i < |xs| => xs[i].s)) else None
  }

  /** An observation heading line, `### <n>. <description>`. */
  predicate IsHeading(line: string)
  {
    |line| >= 4 && line[..4] == "### "
  }

  function Heading(n: nat, o: ObsProjection, show: Show): (line: string)
    ensures IsHeading(line)
  {
    "### " + NatStr(n) + ". " + show(o.description)
  }

  /** A `- <name>: <items>` line for a non-empty list, none for an empty one. */
  function ListLine(name: string, xs: seq<Json>): (r: Option<seq<string>>)
    ensures r.Some? ==> forall l <- r.value :: |l| >= 1 && l[0] == '-'
  {
    if xs == [] then Some([])
    else match StringsOf(xs)
      case None => None
      case Some(ss) => Some(["- " + name + ": " + Join(", ", ss)])
  }

  /** The lines of observation number `n`: its heading, then location,
      codes and regulations when present, then a blank line. */
  function ObsBlock(n: nat, o: ObsProjection, show: Show): (r: Option<seq<string>>)
    ensures r.Some? ==> WellBlock(r.value) && r.value[0] == Heading(n, o, show)
  {
    var location := if Truthy(o.location) then ["- Location: " + show(o.location)] else [];
    match (ListLine("Codes", o.codes), ListLine("Regulations", o.regulations))
    case (Some(c), Some(g)) =>
      var rest := location + c + g + [""];
      assert forall l <- rest :: Plain(l);
      assert [Heading(n, o, show)] + rest == [Heading(n, o, show)] + rest;
      Some([Heading(n, o, show)] + rest)
    case _ => None
  }

  /** A line that is neither a heading nor the reviews heading: empty or a list item. */
  predicate Plain(line: string)
  {
    line == [] || line[0] == '-'
  }

  predicate PlainLines(lines: seq<string>)
  {
    forall i | 0 <= i < |lines| :: Plain(lines[i])
  }

  /** A rendered observation: its heading, then plain lines. */
  predicate WellBlock(block: seq<string>)
  {
    |block| >= 1 && IsHeading(block[0]) && PlainLines(block[1..])
  }

  /** The block of the k-th observation, numbered `start + k`. */
  function BlockAt(obs: seq<ObsProjection>, k: nat, start: nat, show: Show): Option<seq<string>>
    requires k < |obs|
  {
    ObsBlock(start + k, obs[k], show)
  }

  /** Each observation's block, numbered from `start`, or `None` when one
      of them cannot be rendered. */
  function Blocks(obs: seq<ObsProjection>, start: nat, show: Show): (r: Option<seq<seq<string>>>)
    ensures r.Some? <==> forall k | 0 <= k < |obs| :: BlockAt(obs, k, start, show).Some?
    ensures r.Some? ==> |r.value| == |obs| && forall k | 0 <= k < |obs| :: Some(r.value[k]) == BlockAt(obs, k, start, show)
  {
    if forall k | 0 <= k < |obs| :: BlockAt(obs, k, start, show).Some? then
      Some(seq(|obs|, k requires 0 <= k < |obs| => BlockAt(obs, k, start, show).value))
    else None
  }

  /** The blocks' lines, one block after another. */
  function Flatten(blocks: seq<seq<string>>): seq<string>
  {
    if blocks == [] then [] else Flatten(blocks[..|blocks| - 1]) + blocks[|blocks| - 1]
  }

  /** The observation section, numbering from `start`. */
  function ObsSection(obs: seq<ObsProjection>, start: nat, show: Show): Option<seq<string>>
  {
    match Blocks(obs, start, show)
    case None => None
    case Some(blocks) => Some(Flatten(blocks))
  }

  const REVIEWS := "## Reviews"

  /** No line of `lines` is the reviews heading. */
  predicate NoReviewsLine(lines: seq<string>)
  {
    forall i | 0 <= i < |lines| :: lines[i] != REVIEWS
  }

  lemma HeadingNotReviews(line: string)
    requires IsHeading(line)
    ensures line != REVIEWS
  {
    assert line[2] == line[..4][2] == '#';
  }

  /** A line that differs from the reviews heading in one of its first characters. */
  lemma PrefixNotReviews(prefix: string, rest: string, i: nat)
    requires i < |prefix| && i < |REVIEWS| && prefix[i] != REVIEWS[i]
    ensures prefix + rest != REVIEWS
  {
    assert (prefix + rest)[i] == prefix[i];
  }

  lemma PlainNotHeading(line: string)
    requires Plain(line)
    ensures !IsHeading(line)
  {
    if |line| >= 4 {
      assert line[0] == line[..4][0];
    }
  }

  lemma PlainNotReviews(line: string)
    requires Plain(line)
    ensures line != REVIEWS
  {
    if line != [] {
      assert REVIEWS[0] == '#';
    }
  }

  lemma NoReviewsLineAppend(a: seq<string>, b: seq<string>)
    requires NoReviewsLine(a) && NoReviewsLine(b)
    ensures NoReviewsLine(a + b)
  {
    forall i | 0 <= i < |a + b|
      ensures (a + b)[i] != REVIEWS
    {
      if i >= |a| {
        assert (a + b)[i] == b[i - |a|];
      }
    }
  }

  lemma BlockHasNoReviews(block: seq<string>)
    requires WellBlock(block)
    ensures NoReviewsLine(block)
  {
    HeadingNotReviews(block[0]);
    forall i | 1 <= i < |block|
      ensures block[i] != REVIEWS
    {
      assert block[i] == block[1..][i - 1];
      PlainNotReviews(block[i]);
    }
  }

  lemma {:induction false} FlattenHasNoReviews(blocks: seq<seq<string>>)
    requires forall k | 0 <= k < |blocks| :: WellBlock(blocks[k])
    ensures NoReviewsLine(Flatten(blocks))
  {
    if blocks != [] {
      FlattenHasNoReviews(blocks[..|blocks| - 1]);
      BlockHasNoReviews(blocks[|blocks| - 1]);
      NoReviewsLineAppend(Flatten(blocks[..|blocks| - 1]), blocks[|blocks| - 1]);
    }
  }

  /** The observation section never contains the reviews heading. */
  lemma ObsSectionHasNoReviews(obs: seq<ObsProjection>, start: nat, show: Show)
    requires ObsSection(obs, start, show).Some?
    ensures NoReviewsLine(ObsSection(obs, start, show).value)
  {
    var blocks := Blocks(obs, start, show).value;
    forall k | 0 <= k < |obs|
      ensures WellBlock(blocks[k])
    {
      assert Some(blocks[k]) == BlockAt(obs, k, start, show);
    }
    FlattenHasNoReviews(blocks);
  }

  /** The heading lines, in order. */
  function Headings(lines: seq<string>): seq<string>
  {
    if lines == [] then []
    else Headings(lines[..|lines| - 1]) + (if IsHeading(lines[|lines| - 1]) then [lines[|lines| - 1]] else [])
  }

  lemma {:induction false} HeadingsAppend(a: seq<string>, b: seq<string>)
    ensures Headings(a + b) == Headings(a) + Headings(b)
    decreases |b|
  {
    if b != [] {
      assert (a + b)[..|a + b| - 1] == a + b[..|b| - 1];
      assert (a + b)[|a + b| - 1] == b[|b| - 1];
      HeadingsAppend(a, b[..|b| - 1]);
    } else {
      assert a + b == a;
    }
  }

  lemma {:induction false} RestNoHeadings(lines: seq<string>)
    requires PlainLines(lines)
    ensures Headings(lines) == []
  {
    if lines != [] {
      PlainNotHeading(lines[|lines| - 1]);
      RestNoHeadings(lines[..|lines| - 1]);
    }
  }

  lemma BlockHeadings(block: seq<string>)
    requires WellBlock(block)
    ensures Headings(block) == [block[0]]
  {
    assert block == [block[0]] + block[1..];
    RestNoHeadings(block[1..]);
    HeadingsAppend([block[0]], block[1..]);
    assert Headings([block[0]]) == Headings([]) + [block[0]];
  }

  /** The headings of flattened blocks are the blocks' first lines, in order. */
  lemma {:induction false} FlattenHeadings(blocks: seq<seq<string>>)
    requires forall k | 0 <= k < |blocks| :: WellBlock(blocks[k])
    ensures |Headings(Flatten(blocks))| == |blocks|
    ensures forall k | 0 <= k < |blocks| :: 0 < |blocks[k]| && Headings(Flatten(blocks))[k] == blocks[k][0]
  {
    if blocks != [] {
      var init := blocks[..|blocks| - 1];
      var last := blocks[|blocks| - 1];
      FlattenHeadings(init);
      BlockHeadings(last);
      HeadingsAppend(Flatten(init), last);
      var h := Headings(Flatten(blocks));
      assert h == Headings(Flatten(init)) + [last[0]];
      forall k | 0 <= k < |blocks|
        ensures h[k] == blocks[k][0]
      {
        if k < |init| {
          assert h[k] == Headings(Flatten(init))[k];
          assert init[k] == blocks[k];
        }
      }
    }
  }

  /** The observations are numbered consecutively from `start`: the k-th
      heading of the section is observation k's, numbered `start + k`. */
  lemma ObservationNumbering(obs: seq<ObsProjection>, start: nat, show: Show)
    requires ObsSection(obs, start, show).Some?
    ensures var h := Headings(ObsSection(obs, start, show).value);
      |h| == |obs| && forall k | 0 <= k < |obs| :: h[k] == Heading(start + k, obs[k], show)
  {
    var blocks := Blocks(obs, start, show).value;
    forall k | 0 <= k < |obs|
      ensures WellBlock(blocks[k]) && blocks[k][0] == Heading(start + k, obs[k], show)
    {
      assert Some(blocks[k]) == BlockAt(obs, k, start, show);
    }
    FlattenHeadings(blocks);
  }

  /** `- <ts> — <actor> — <decision> — <comment>` for one review entry. */
  function ReviewLine(f: map<string, Json>, show: Show): (line: string)
    ensures Plain(line)
  {
    "- " + show(Get(f, "ts", JNull)) + " \U{2014} " + show(Get(f, "actor", JNull)) + " \U{2014} "
    + show(Get(f, "decision", JNull)) + " \U{2014} " + show(Get(f, "comment", JNull))
  }

  /** One line per review entry, in order. */
  function ReviewLines(reviews: seq<Json>, show: Show): (r: seq<string>)
    requires forall x <- reviews :: x.JObj?
    ensures |r| == |reviews| && PlainLines(r)
    ensures forall i | 0 <= i < |reviews| :: r[i] == ReviewLine(reviews[i].fields, show)
  {
    seq(|reviews|, i requires 0 <= i < |reviews| => ReviewLine(reviews[i].fields, show))
  }

  /** Rendering one more review appends its line after the others. */
  lemma ReviewLinesSnoc(reviews: seq<Json>, x: Json, show: Show)
    requires forall y <- reviews :: y.JObj?
    requires x.JObj?
    ensures ReviewLines(reviews + [x], show) == ReviewLines(reviews, show) + [ReviewLine(x.fields, show)]
  {
  }

  lemma PlainLinesHaveNoReviews(lines: seq<string>)
    requires PlainLines(lines)
    ensures NoReviewsLine(lines)
  {
    forall i | 0 <= i < |lines|
      ensures lines[i] != REVIEWS
    {
      PlainNotReviews(lines[i]);
    }
  }

  /** The title, installation and observations heading of the certificate. */
  function Preamble(cert: Certificate, inst: map<string, Json>, show: Show): (r: seq<string>)
    requires cert.metadata.JObj?
    ensures NoReviewsLine(r)
  {
    var id := show(Get(cert.metadata.fields, "id", JNull));
    var address := show(Get(inst, "address", JStr("")));
    var client := show(Get(inst, "client", JStr("")));
    PrefixNotReviews("# Certificate \U{2014} ", id, 1);
    PrefixNotReviews("**Generated:** ", cert.generatedAt, 0);
    PrefixNotReviews("**Rules:** ", cert.rulesVersion, 0);
    PrefixNotReviews("- Address: ", address, 0);
    PrefixNotReviews("- Client: ", client, 0);
    [ "# Certificate \U{2014} " + id,
      "",
      "**Generated:** " + cert.generatedAt,
      "**Rules:** " + cert.rulesVersion,
      "",
      "## Installation",
      "- Address: " + address,
      "- Client: " + client,
      "",
      "## Observations"]
  }

  /** The summary section; the notes line only when notes are truthy. */
  function SummaryLines(summary: map<string, Json>, show: Show): (r: seq<string>)
    ensures NoReviewsLine(r)
  {
    var overall := show(Get(summary, "overall_result", JStr("")));
    var notes := Get(summary, "notes", JNull);
    PrefixNotReviews("- Overall result: ", overall, 0);
    PrefixNotReviews("- Notes: ", show(notes), 0);
    ["## Summary", "- Overall result: " + overall]
      + (if Truthy(notes) then ["- Notes: " + show(notes)] else []) + [""]
  }

  /** The reviews section, present only when there are reviews. */
  function ReviewSection(reviews: seq<Json>, show: Show): (r: seq<string>)
    requires forall x <- reviews :: x.JObj?
    ensures reviews == [] ==> r == []
    ensures reviews != [] ==> |r| == |reviews| + 2 && r[0] == REVIEWS
  {
    if reviews != [] then [REVIEWS] + ReviewLines(reviews, show) + [""] else []
  }

  /** The Markdown certificate's lines, or `None` when `to_markdown` raises
      (metadata, an installation or a summary that is not a dict, a code or
      regulation that is not a string, a review entry that is not a dict). */
  function MarkdownLines(cert: Certificate, show: Show): (r: Option<seq<string>>)
    ensures r.Some? <==> (var inst := if Truthy(cert.installation) then cert.installation else JObj(map[]);
      cert.metadata.JObj? && inst.JObj? && cert.summary.JObj? && ObsSection(cert.observations, 1, show).Some?
      && forall x <- cert.reviews :: x.JObj?)
  {
    var inst := if Truthy(cert.installation) then cert.installation else JObj(map[]);
    if !cert.metadata.JObj? || !inst.JObj? || !cert.summary.JObj? || exists x <- cert.reviews :: !x.JObj? then None
    else match ObsSection(cert.observations, 1, show)
      case None => None
      case Some(obsLines) =>
        Some(Preamble(cert, inst.fields, show) + obsLines
          + SummaryLines(cert.summary.fields, show) + ReviewSection(cert.reviews, show))
  }

  /** The reviews heading appears exactly when the certificate has reviews. */
  lemma ReviewsHeadingIffReviews(cert: Certificate, show: Show)
    requires MarkdownLines(cert, show).Some?
    ensures REVIEWS in MarkdownLines(cert, show).value <==> cert.reviews != []
  {
    var inst := if Truthy(cert.installation) then cert.installation else JObj(map[]);
    var obsLines := ObsSection(cert.observations, 1, show).value;
    ObsSectionHasNoReviews(cert.observations, 1, show);
    var front := Preamble(cert, inst.fields, show) + obsLines + SummaryLines(cert.summary.fields, show);
    NoReviewsLineAppend(Preamble(cert, inst.fields, show), obsLines);
    NoReviewsLineAppend(Preamble(cert, inst.fields, show) + obsLines, SummaryLines(cert.summary.fields, show));
    var lines := MarkdownLines(cert, show).value;
    assert lines == front + ReviewSection(cert.reviews, show);
    if cert.reviews != [] {
      assert lines[|front|] == REVIEWS;
    } else {
      assert lines == front;
    }
  }

  /** `to_markdown`, as text. */
  function MarkdownFor(cert: Certificate, show: Show): Option<string>
  {
    match MarkdownLines(cert, show)
    case None => None
    case Some(lines) => Some(Join("\n", lines))
  }

  /** The observation loop of `to_markdown`. */
  method RenderObservations(obs: seq<ObsProjection>, show: Show) returns (lines: Option<seq<string>>)
    ensures lines == ObsSection(obs, 1, show)
  {
    var md: seq<string> := [];
    ghost var blocks: seq<seq<string>> := [];
    var i := 0;
    while i < |obs|
      invariant i <= |obs| && |blocks| == i
      invariant forall k | 0 <= k < i :: BlockAt(obs, k, 1, show) == Some(blocks[k])
      invariant md == Flatten(blocks)
    {
      var b := BlockAt(obs, i, 1, show);
      if b.None? {
        BlocksFail(obs, i, show);
        return None;
      }
      RenderStep(obs, blocks, show, b.value);
      blocks := blocks + [b.value];
      md := md + b.value;
      i := i + 1;
    }
    BlocksAll(obs, blocks, show);
    return Some(md);
  }

  lemma RenderStep(obs: seq<ObsProjection>, blocks: seq<seq<string>>, show: Show, b: seq<string>)
    requires |blocks| < |obs| && forall k | 0 <= k < |blocks| :: BlockAt(obs, k, 1, show) == Some(blocks[k])
    requires BlockAt(obs, |blocks|, 1, show) == Some(b)
    ensures forall k | 0 <= k < |blocks| + 1 :: BlockAt(obs, k, 1, show) == Some((blocks + [b])[k])
    ensures Flatten(blocks + [b]) == Flatten(blocks) + b
  {
    assert (blocks + [b])[..|blocks|] == blocks;
  }

  lemma BlocksFail(obs: seq<ObsProjection>, i: nat, show: Show)
    requires i < |obs| && BlockAt(obs, i, 1, show).None?
    ensures ObsSection(obs, 1, show) == None
  {
  }

  lemma BlocksAll(obs: seq<ObsProjection>, blocks: seq<seq<string>>, show: Show)
    requires |blocks| == |obs| && forall k | 0 <= k < |obs| :: BlockAt(obs, k, 1, show) == Some(blocks[k])
    ensures ObsSection(obs, 1, show) == Some(Flatten(blocks))
  {
    assert Blocks(obs, 1, show).value == blocks;
  }

  /** The review loop of `to_markdown`. */
  method RenderReviews(reviews: seq<Json>, show: Show) returns (lines: Option<seq<string>>)
    ensures lines.Some? <==> forall x <- reviews :: x.JObj?
    ensures lines.Some? ==> lines.value == ReviewSection(reviews, show)
  {
    if reviews == [] {
      return Some([]);
    }
    var md := [REVIEWS];
    var j := 0;
    while j < |reviews|
      invariant j <= |reviews|
      invariant forall x <- reviews[..j] :: x.JObj?
      invariant md == [REVIEWS] + ReviewLines(reviews[..j], show)
    {
      var e := reviews[j];
      if !e.JObj? {
        assert e in reviews;
        return None;
      }
      assert reviews[..j + 1] == reviews[..j] + [e];
      ReviewLinesSnoc(reviews[..j], e, show);
      md := md + [ReviewLine(e.fields, show)];
      j := j + 1;
    }
    assert reviews[..j] == reviews;
    return Some(md + [""]);
  }

  /** `to_markdown`. */
  method ToMarkdown(cert: Certificate, show: Show) returns (r: Option<string>)
    ensures r == MarkdownFor(cert, show)
  {
    if !cert.metadata.JObj? {
      return None;
    }
    var inst := if Truthy(cert.installation) then cert.installation else JObj(map[]);
    if !inst.JObj? {
      return None;
    }
    var obsLines := RenderObservations(cert.observations, show);
    if obsLines.None? || !cert.summary.JObj? {
      return None;
    }
    var reviewLines := RenderReviews(cert.reviews, show);
    if reviewLines.None? {
      return None;
    }
    var md := Preamble(cert, inst.fields, show) + obsLines.value
      + SummaryLines(cert.summary.fields, show) + reviewLines.value;
    r := Some(Join("\n", md));
  }
}
