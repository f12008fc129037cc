/** The per-component drift and staleness classification of
    `gather_observability`. The lifecycle state, the readiness, the clock and
    the parsing of ISO timestamps are inputs: `Age` gives the whole seconds
    elapsed since the instant an ISO timestamp denotes (read as UTC when it
    carries no offset), or `None` when it does not parse. */
module Observability {
  import opened Wrappers
  import opened JsonValues
  import opened Lifecycle

  type Age = string -> Option<int>

  const DEFAULT_STALE_SECONDS: int := 300

  datatype ComponentReport = ComponentReport(
    expectedRunning: bool, actualRunning: bool, lastResult: Json, ts: Json, stale: bool, drift: bool)

  datatype Issue =
    | Drift(component: string, expected: bool, observed: bool)
    | Stale(component: string, ts: Json)

  datatype Payload = Payload(
    readiness: string, components: map<string, ComponentReport>, issues: seq<Issue>, driftCount: nat, ts: string)

  /** The manifest in its iteration order: component names with their modes. */
  type Manifest = seq<(string, Modes)>

  /** `ts.replace("Z", "+00:00")`: every `Z` becomes a UTC offset. */
  function ReplaceZ(s: string): (r: string)
    ensures forall c <- r :: c != 'Z'
    ensures 'Z' !in s ==> r == s
  {
    if s == [] then []
    else
      var c := s[|s| - 1];
      ReplaceZ(s[..|s| - 1]) + (if c == 'Z' then "+00:00" else [c])
  }

  /** A timestamp that ends in a `+HH:MM` or `-HH:MM` offset, which
      `datetime.fromisoformat` reads as an aware datetime. */
  predicate Zoned(s: string)
  {
    |s| >= 6 && (s[|s| - 6] == '+' || s[|s| - 6] == '-') && s[|s| - 3] == ':'
  }

  /** The staleness test as written: the parsed time is subtracted from the
      naive `datetime.utcnow()`, so a timestamp with an offset raises a
      `TypeError`, which the handler turns into stale. */
  function IsStaleAsWritten(running: bool, ts: Json, age: Age, threshold: int): (r: bool)
    ensures !running ==> !r
    ensures running && ts.JStr? && ts.s != [] && Zoned(ReplaceZ(ts.s)) ==> r
    ensures running && ts.JStr? && ts.s != [] && !Zoned(ReplaceZ(ts.s))
            ==> r == IsStale(running, ts, age, threshold)
  {
    if running && Truthy(ts) then
      if !ts.JStr? then true
      else if Zoned(ReplaceZ(ts.s)) then true
      else match age(ReplaceZ(ts.s))
        case None => true
        case Some(a) => a > threshold
    else running
  }

  /** Every timestamp the lifecycle writes ends in `Z`: as written, a running
      component is stale whatever its age. */
  lemma ZuluStampAlwaysStaleAsWritten(stamp: string, age: Age, threshold: int)
    ensures IsStaleAsWritten(true, JStr(stamp + "Z"), age, threshold)
  {
    var s := stamp + "Z";
    assert s[..|s| - 1] == stamp;
    assert ReplaceZ(s) == ReplaceZ(stamp) + "+00:00";
    var t := ReplaceZ(s);
    assert t[|t| - 6] == '+' && t[|t| - 3] == ':';
  }

  /** Whether a component's entry is stale, as intended: only a running
      component can be, and it is when its `ts` is missing, unparsable, or
      older than the threshold. */
  function IsStale(running: bool, ts: Json, age: Age, threshold: int): (r: bool)
    ensures !running ==> !r
    ensures running && !Truthy(ts) ==> r
    ensures running && Truthy(ts) && !ts.JStr? ==> r
    ensures running && ts.JStr? && ts.s != [] && age(ReplaceZ(ts.s)).None? ==> r
    ensures running && ts.JStr? && ts.s != [] && age(ReplaceZ(ts.s)).Some?
            ==> (r <==> age(ReplaceZ(ts.s)).value > threshold)
  {
    if running && Truthy(ts) then
      if !ts.JStr? then true
      else match age(ReplaceZ(ts.s))
        case None => true
        case Some(a) => a > threshold
    else running
  }

  /** One component's report. */
  function Report(modes: Modes, entry: Entry, readiness: string, age: Age, threshold: int): (r: ComponentReport)
    ensures r.expectedRunning <==> HandlerFor(modes, readiness).Some?
    ensures r.actualRunning == entry.running
    ensures r.drift <==> r.expectedRunning != r.actualRunning
    ensures r.stale == IsStale(entry.running, entry.ts, age, threshold)
    ensures r.lastResult == entry.lastResult && r.ts == entry.ts
  {
    var expected := HandlerFor(modes, readiness).Some?;
    ComponentReport(expected, entry.running, entry.lastResult, entry.ts,
                    IsStale(entry.running, entry.ts, age, threshold), expected != entry.running)
  }

  /** The issues one report contributes: a drift issue exactly when it
      drifts, a stale issue exactly when it is stale, drift first. */
  function IssuesOf(name: string, r: ComponentReport): (out: seq<Issue>)
    ensures |out| == (if r.drift then 1 else 0) + (if r.stale then 1 else 0)
    ensures r.drift ==> out[0] == Drift(name, r.expectedRunning, r.actualRunning)
    ensures r.stale ==> out[|out| - 1] == Stale(name, r.ts)
    ensures forall i <- out :: i.component == name
  {
    (if r.drift then [Drift(name, r.expectedRunning, r.actualRunning)] else [])
    + (if r.stale then [Stale(name, r.ts)] else [])
  }

  function ReportFor(m: (string, Modes), state: map<string, Entry>, readiness: string, age: Age, threshold: int)
    : ComponentReport
  {
    Report(m.1, EntryOf(state, m.0), readiness, age, threshold)
  }

  /** The reports for a manifest prefix, keyed by component name. */
  function Reports(manifest: Manifest, state: map<string, Entry>, readiness: string, age: Age, threshold: int)
    : map<string, ComponentReport>
  {
    if manifest == [] then map[]
    else
      var last := manifest[|manifest| - 1];
      Reports(manifest[..|manifest| - 1], state, readiness, age, threshold)[last.0 := ReportFor(last, state, readiness, age, threshold)]
  }

  /** Every component of the manifest has a report, and nothing else does. */
  lemma {:induction false} ReportsKeys(manifest: Manifest, state: map<string, Entry>, readiness: string, age: Age,
                                       threshold: int)
    ensures Reports(manifest, state, readiness, age, threshold).Keys == set m <- manifest :: m.0
  {
    if manifest != [] {
      var last := manifest[|manifest| - 1];
      ReportsKeys(manifest[..|manifest| - 1], state, readiness, age, threshold);
      assert forall m <- manifest :: m in manifest[..|manifest| - 1] || m == last;
    }
  }

  /** The issue list for a manifest prefix, in manifest order. */
  function Issues(manifest: Manifest, state: map<string, Entry>, readiness: string, age: Age, threshold: int)
    : seq<Issue>
  {
    if manifest == [] then []
    else
      var last := manifest[|manifest| - 1];
      Issues(manifest[..|manifest| - 1], state, readiness, age, threshold)
      + IssuesOf(last.0, ReportFor(last, state, readiness, age, threshold))
  }

  /** Every issue names a component of the manifest. */
  lemma {:induction false} IssuesNamed(manifest: Manifest, state: map<string, Entry>, readiness: string, age: Age,
                                       threshold: int)
    ensures forall i <- Issues(manifest, state, readiness, age, threshold) :: exists m <- manifest :: m.0 == i.component
  {
    if manifest != [] {
      IssuesNamed(manifest[..|manifest| - 1], state, readiness, age, threshold);
      assert forall m <- manifest[..|manifest| - 1] :: m in manifest;
    }
  }

  /** The payload, given the readiness and the time of the snapshot. */
  function GatherFor(manifest: Manifest, state: map<string, Entry>, readiness: string, age: Age, threshold: int,
                     now: string): (p: Payload)
    ensures p.driftCount == |p.issues|
    ensures p.components == Reports(manifest, state, readiness, age, threshold)
    ensures p.issues == Issues(manifest, state, readiness, age, threshold)
  {
    var issues := Issues(manifest, state, readiness, age, threshold);
    Payload(readiness, Reports(manifest, state, readiness, age, threshold), issues, |issues|, now)
  }

  /** `gather_observability`: the loop over the manifest. */
  method GatherObservability(manifest: Manifest, state: map<string, Entry>, readiness: string, age: Age,
                             threshold: int, now: string) returns (p: Payload)
    ensures p == GatherFor(manifest, state, readiness, age, threshold, now)
  {
    var components: map<string, ComponentReport> := map[];
    var issues: seq<Issue> := [];
    var i := 0;
    while i < |manifest|
      invariant i <= |manifest|
      invariant components == Reports(manifest[..i], state, readiness, age, threshold)
      invariant issues == Issues(manifest[..i], state, readiness, age, threshold)
    {
      var name := manifest[i].0;
      var report := ReportFor(manifest[i], state, readiness, age, threshold);
      GatherStep(manifest, i, state, readiness, age, threshold);
      components := components[name := report];
      issues := issues + IssuesOf(name, report);
      i := i + 1;
    }
    assert manifest[..i] == manifest;
    p := Payload(readiness, components, issues, |issues|, now);
  }

  lemma GatherStep(manifest: Manifest, i: nat, state: map<string, Entry>, readiness: string, age: Age, threshold: int)
    requires i < |manifest|
    ensures Reports(manifest[..i + 1], state, readiness, age, threshold)
         == Reports(manifest[..i], state, readiness, age, threshold)[manifest[i].0 := ReportFor(manifest[i], state, readiness, age, threshold)]
    ensures Issues(manifest[..i + 1], state, readiness, age, threshold)
         == Issues(manifest[..i], state, readiness, age, threshold) + IssuesOf(manifest[i].0, ReportFor(manifest[i], state, readiness, age, threshold))
  {
    assert manifest[..i + 1][..i] == manifest[..i];
  }

  /** The number of drifting plus the number of stale components in a prefix. */
  function CountIssues(manifest: Manifest, state: map<string, Entry>, readiness: string, age: Age, threshold: int): nat
  {
    if manifest == [] then 0
    else
      var r := ReportFor(manifest[|manifest| - 1], state, readiness, age, threshold);
      CountIssues(manifest[..|manifest| - 1], state, readiness, age, threshold)
        + (if r.drift then 1 else 0) + (if r.stale then 1 else 0)
  }

  /** `drift_count` counts stale components as well as drifting ones. */
  lemma {:induction false} DriftCountCountsStale(manifest: Manifest, state: map<string, Entry>, readiness: string,
                                                 age: Age, threshold: int, now: string)
    ensures GatherFor(manifest, state, readiness, age, threshold, now).driftCount
         == CountIssues(manifest, state, readiness, age, threshold)
  {
    if manifest != [] {
      DriftCountCountsStale(manifest[..|manifest| - 1], state, readiness, age, threshold, now);
    }
  }

  /** A component that is not running is never reported stale, and it
      drifts exactly when its mode has a handler. */
  lemma StoppedComponentNeverStale(manifest: Manifest, state: map<string, Entry>, readiness: string, age: Age,
                                   threshold: int, now: string, k: nat)
    requires k < |manifest| && forall j | k < j < |manifest| :: manifest[j].0 != manifest[k].0
    requires !EntryOf(state, manifest[k].0).running
    ensures manifest[k].0 in GatherFor(manifest, state, readiness, age, threshold, now).components
    ensures var r := GatherFor(manifest, state, readiness, age, threshold, now).components[manifest[k].0];
            !r.stale && (r.drift <==> HandlerFor(manifest[k].1, readiness).Some?)
  {
    ReportsAt(manifest, state, readiness, age, threshold, k);
  }

  /** The report stored under a name is that of its last occurrence. */
  lemma {:induction false} ReportsAt(manifest: Manifest, state: map<string, Entry>, readiness: string, age: Age,
                                     threshold: int, k: nat)
    requires k < |manifest| && forall j | k < j < |manifest| :: manifest[j].0 != manifest[k].0
    ensures manifest[k].0 in Reports(manifest, state, readiness, age, threshold)
    ensures Reports(manifest, state, readiness, age, threshold)[manifest[k].0]
         == ReportFor(manifest[k], state, readiness, age, threshold)
  {
    if k < |manifest| - 1 {
      var init := manifest[..|manifest| - 1];
      assert init[k] == manifest[k];
      ReportsAt(init, state, readiness, age, threshold, k);
    }
  }

  /** The issue list of a concatenation is the concatenation of the lists. */
  lemma {:induction false} IssuesAppend(a: Manifest, b: Manifest, state: map<string, Entry>, readiness: string,
                                        age: Age, threshold: int)
    ensures Issues(a + b, state, readiness, age, threshold)
         == Issues(a, state, readiness, age, threshold) + Issues(b, state, readiness, age, threshold)
  {
    if b == [] {
      assert a + b == a;
    } else {
      var init := b[..|b| - 1];
      assert (a + b)[..|a + b| - 1] == a + init;
      assert (a + b)[|a + b| - 1] == b[|b| - 1];
      IssuesAppend(a, init, state, readiness, age, threshold);
    }
  }

  /** A component's issues appear together, at the position of the
      component in the manifest: after those of every earlier component and
      before those of every later one (and, by `IssuesOf`, drift before
      stale). */
  lemma IssuesOrder(manifest: Manifest, k: nat, state: map<string, Entry>, readiness: string, age: Age,
                    threshold: int)
    requires k < |manifest|
    ensures Issues(manifest, state, readiness, age, threshold)
         == Issues(manifest[..k], state, readiness, age, threshold)
            + IssuesOf(manifest[k].0, ReportFor(manifest[k], state, readiness, age, threshold))
            + Issues(manifest[k + 1..], state, readiness, age, threshold)
  {
    assert manifest == manifest[..k] + [manifest[k]] + manifest[k + 1..];
    IssuesAppend(manifest[..k] + [manifest[k]], manifest[k + 1..], state, readiness, age, threshold);
    IssuesAppend(manifest[..k], [manifest[k]], state, readiness, age, threshold);
    assert [manifest[k]][..0] == [];
  }
}
