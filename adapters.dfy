/** Adapter descriptors as the registry supplies them: an id, the strategies
    the adapter declares under `capabilities.supported_strategies`, its
    `capabilities.deterministic` flag and its `limits.timeout_ms_max`. */
module Adapters {
  import opened Wrappers
  import opened Seqs

  datatype Adapter = Adapter(
    id: string,
    supportedStrategies: seq<string>,
    deterministic: bool,
    timeoutMsMax: Option<int>)

  function IdOf(a: Adapter): string { a.id }

  /** `[a["adapter_id"] for a in adapters]`. */
  function Ids(adapters: seq<Adapter>): (r: seq<string>)
    ensures |r| == |adapters|
    ensures forall i :: 0 <= i < |adapters| ==> r[i] == adapters[i].id
  {
    Map(IdOf, adapters)
  }

  /** Reordering the descriptors reorders their ids the same way. */
  lemma IdsPermutation(a: seq<Adapter>, b: seq<Adapter>)
    requires multiset(a) == multiset(b)
    ensures multiset(Ids(a)) == multiset(Ids(b))
  {
    MapPermutation(IdOf, a, b);
  }
}
