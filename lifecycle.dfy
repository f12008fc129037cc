/** The runtime lifecycle manager: idempotent start, stop and restart of
    manifest components over the persisted `components` map. Reading and
    atomically writing the state file is the class's field; the clock and
    the readiness probe are parameters; a component handler is modelled by
    its outcome, a value or an exception. */
module Lifecycle {
  import opened Wrappers
  import opened JsonValues

  /** A component's entry: `{running, last_result, ts}`. */
  datatype Entry = Entry(running: bool, lastResult: Json, ts: Json)

  /** The entry `_get_component_entry` supplies for an unseen component. */
  const DEFAULT_ENTRY: Entry := Entry(false, JNull, JNull)

  /** A handler's outcome when called: `Some(value)`, or `None` when it raises. */
  datatype Handler = Handler(outcome: Option<Json>)

  /** A manifest entry: mode (or `"stop"`) to handler, `None` for no handler. */
  type Modes = map<string, Option<Handler>>

  datatype LifecycleError = UnknownComponent | HandlerRaised

  datatype Transition = Transition(result: Result<Entry, LifecycleError>, components: map<string, Entry>)

  /** `_get_component_entry` (without the write-back, which only persists
      when the caller writes the state). */
  function EntryOf(components: map<string, Entry>, name: string): (e: Entry)
    ensures name !in components ==> e == DEFAULT_ENTRY
    ensures name in components ==> e == components[name]
  {
    if name in components then components[name] else DEFAULT_ENTRY
  }

  /** `modes.get(key)`, with a missing key read as no handler. */
  function HandlerFor(modes: Modes, key: string): Option<Handler>
  {
    if key in modes then modes[key] else None
  }

  /** `start(name, mode)` as a state transition; `mode` has already been
      resolved (`None` means the current readiness). */
  function StartStep(manifest: map<string, Modes>, components: map<string, Entry>, name: string, mode: string, now: string)
    : (t: Transition)
    ensures name !in manifest ==> t == Transition(Err(UnknownComponent), components)
    ensures t.components.Keys <= components.Keys + {name}
    ensures forall other <- components | other != name :: other in t.components && t.components[other] == components[other]
    ensures t.result.Ok? ==> EntryOf(t.components, name) == t.result.value
    ensures t.result.Err? ==> t.components == components
  {
    if name !in manifest then Transition(Err(UnknownComponent), components)
    else
      var entry := EntryOf(components, name);
      if entry.running then Transition(Ok(entry), components)
      else match HandlerFor(manifest[name], mode)
        case None =>
          var e := Entry(false, JNull, JStr(now));
          Transition(Ok(e), components[name := e])
        case Some(fn) =>
          if fn.outcome.None? then Transition(Err(HandlerRaised), components)
          else
            var e := Entry(true, fn.outcome.value, JStr(now));
            Transition(Ok(e), components[name := e])
  }

  /** What the stop handler hands back: its value, or `None` when there is
      no handler or it raises. */
  function StopOutcome(modes: Modes): Json
  {
    match HandlerFor(modes, "stop")
    case None => JNull
    case Some(fn) => if fn.outcome.Some? then fn.outcome.value else JNull
  }

  /** `stop(name)` as a state transition; a raising stop handler counts as
      having returned `None`. */
  function StopStep(manifest: map<string, Modes>, components: map<string, Entry>, name: string, now: string)
    : (t: Transition)
    ensures name !in manifest ==> t == Transition(Err(UnknownComponent), components)
    ensures name in manifest ==> t.result.Ok? && !t.result.value.running
    ensures name in manifest && !EntryOf(components, name).running ==>
      t == Transition(Ok(EntryOf(components, name)), components)
    ensures name in manifest && EntryOf(components, name).running && Truthy(StopOutcome(manifest[name])) ==>
      t.result == Ok(Entry(false, StopOutcome(manifest[name]), JStr(now)))
    ensures name in manifest && EntryOf(components, name).running && !Truthy(StopOutcome(manifest[name])) ==>
      t.result == Ok(Entry(false, JStr("stopped"), JStr(now)))
    ensures t.components.Keys <= components.Keys + {name}
    ensures forall other <- components | other != name :: other in t.components && t.components[other] == components[other]
    ensures t.result.Ok? ==> EntryOf(t.components, name) == t.result.value
  {
    if name !in manifest then Transition(Err(UnknownComponent), components)
    else
      var entry := EntryOf(components, name);
      if !entry.running then Transition(Ok(entry), components)
      else
        var result := StopOutcome(manifest[name]);
        var e := Entry(false, if Truthy(result) then result else JStr("stopped"), JStr(now));
        Transition(Ok(e), components[name := e])
  }

  /** `restart`: stop, then start, each reading the clock once. */
  function RestartStep(manifest: map<string, Modes>, components: map<string, Entry>, name: string, mode: string,
                       stopAt: string, startAt: string): (t: Transition)
    ensures name !in manifest ==> t.result == Err(UnknownComponent)
  {
    StartStep(manifest, StopStep(manifest, components, name, stopAt).components, name, mode, startAt)
  }

  /** The lifecycle manager over one state file. */
  class Runtime {
    const manifest: map<string, Modes>
    var components: map<string, Entry>

    constructor (manifest: map<string, Modes>)
      ensures this.manifest == manifest && components == map[]
    {
      this.manifest := manifest;
      components := map[];
    }

    /** `status(name)`: the entry, or the default for an unseen component;
        the manifest is not consulted. */
    function Status(name: string): (e: Entry)
      reads this
      ensures name !in components ==> e == DEFAULT_ENTRY
      ensures name in components ==> e == components[name]
    {
      EntryOf(components, name)
    }

    method Start(name: string, mode: Option<string>, readiness: string, now: string)
      returns (r: Result<Entry, LifecycleError>)
      modifies this
      ensures var t := StartStep(manifest, old(components), name, if mode.Some? then mode.value else readiness, now);
              r == t.result && components == t.components
    {
      var m := if mode.Some? then mode.value else readiness;
      if name !in manifest {
        return Err(UnknownComponent);
      }
      var entry := EntryOf(components, name);
      if entry.running {
        return Ok(entry);
      }
      var fn := HandlerFor(manifest[name], m);
      if fn.None? {
        var e := Entry(false, JNull, JStr(now));
        components := components[name := e];
        return Ok(e);
      }
      if fn.value.outcome.None? {
        return Err(HandlerRaised);
      }
      var e := Entry(true, fn.value.outcome.value, JStr(now));
      components := components[name := e];
      r := Ok(e);
    }

    method Stop(name: string, now: string) returns (r: Result<Entry, LifecycleError>)
      modifies this
      ensures var t := StopStep(manifest, old(components), name, now);
              r == t.result && components == t.components
    {
      if name !in manifest {
        return Err(UnknownComponent);
      }
      var entry := EntryOf(components, name);
      if !entry.running {
        return Ok(entry);
      }
      var result := JNull;
      var fn := HandlerFor(manifest[name], "stop");
      if fn.Some? && fn.value.outcome.Some? {
        result := fn.value.outcome.value;
      }
      var e := Entry(false, if Truthy(result) then result else JStr("stopped"), JStr(now));
      components := components[name := e];
      r := Ok(e);
    }

    method Restart(name: string, mode: Option<string>, readiness: string, stopAt: string, startAt: string)
      returns (r: Result<Entry, LifecycleError>)
      modifies this
      ensures var t := RestartStep(manifest, old(components), name, if mode.Some? then mode.value else readiness,
                                   stopAt, startAt);
              r == t.result && components == t.components
    {
      var _ := Stop(name, stopAt);
      r := Start(name, mode, readiness, startAt);
    }
  }

  /** Starting a running component is a no-op that returns its entry, and
      the handler is not called again. */
  lemma StartIdempotent(manifest: map<string, Modes>, components: map<string, Entry>, name: string,
                        mode: string, mode2: string, now: string, now2: string)
    requires StartStep(manifest, components, name, mode, now).result.Ok?
    requires StartStep(manifest, components, name, mode, now).result.value.running
    ensures var t := StartStep(manifest, components, name, mode, now);
            StartStep(manifest, t.components, name, mode2, now2) == Transition(t.result, t.components)
  {
  }

  /** Stopping twice is stopping once. */
  lemma StopIdempotent(manifest: map<string, Modes>, components: map<string, Entry>, name: string, now: string, now2: string)
    requires name in manifest
    ensures var t := StopStep(manifest, components, name, now);
            StopStep(manifest, t.components, name, now2) == t
  {
  }

  /** Starting with a handler for the mode leaves the component running with
      the handler's result; without one it stays stopped with no result. */
  lemma StartRecordsHandler(manifest: map<string, Modes>, components: map<string, Entry>, name: string,
                            mode: string, now: string)
    requires name in manifest && !EntryOf(components, name).running
    ensures HandlerFor(manifest[name], mode).None? ==>
      StartStep(manifest, components, name, mode, now).result == Ok(Entry(false, JNull, JStr(now)))
    ensures HandlerFor(manifest[name], mode).Some? && HandlerFor(manifest[name], mode).value.outcome.Some? ==>
      StartStep(manifest, components, name, mode, now).result
        == Ok(Entry(true, HandlerFor(manifest[name], mode).value.outcome.value, JStr(now)))
  {
  }

  /** Restarting a running component whose mode has a working handler leaves
      it running with that handler's fresh result. */
  lemma RestartRunsHandler(manifest: map<string, Modes>, components: map<string, Entry>, name: string,
                           mode: string, stopAt: string, startAt: string)
    requires name in manifest
    requires HandlerFor(manifest[name], mode).Some? && HandlerFor(manifest[name], mode).value.outcome.Some?
    ensures RestartStep(manifest, components, name, mode, stopAt, startAt).result
         == Ok(Entry(true, HandlerFor(manifest[name], mode).value.outcome.value, JStr(startAt)))
  {
    var s := StopStep(manifest, components, name, stopAt);
    assert !EntryOf(s.components, name).running;
  }
}
