/** How the three `model_layer` stages fit together as written. */
module Pipeline {
  import opened Wrappers
  import opened JsonValues
  import opened Digest
  import opened Seqs
  import opened Adapters
  import opened EnvelopeBuilder
  import opened Executor

  /** Builder steps carry no `id`, so the executor recomputes the envelope
      digest over a list of nulls, while the builder digested the node names.
      With a collision-free digest, every envelope the builder produces whose
      id has the SHA-256 hex shape is therefore rejected as tampered. */
  lemma BuilderEnvelopeRejected(h: Hasher, plan: Json, adapters: seq<Adapter>)
    requires Injective(h)
    requires EnvelopeFor(h, plan, adapters).Ok?
    requires IsHexDigest(EnvelopeFor(h, plan, adapters).value.envelopeId)
    ensures ExecuteFor(h, EnvelopeJson(EnvelopeFor(h, plan, adapters).value)) == Err(EnvelopeIdMismatch)
  {
    var e := EnvelopeFor(h, plan, adapters).value;
    EnvelopeShape(h, plan, adapters);
    var env := EnvelopeJson(e);
    var items := Map(StepJson, e.steps);
    var steps := Map(FieldsOf, items);
    assert |steps| > 0;
    assert RawId(steps[0]) == JNull;
    var sorted := Map(StepNode, e.steps);
    var built := JObj(map["plan_id" := e.planId, "steps" := JArr(Strs(sorted))]);
    var expected := JObj(map["plan_id" := e.planId, "steps" := JArr(Map(RawId, steps))]);
    assert built.fields["steps"].items[0] != expected.fields["steps"].items[0];
    assert h(built) != h(expected);
    TamperedEnvelopeRejected(h, env);
  }
}
