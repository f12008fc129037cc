/** The strategy helpers of the automatic planner: each selects a prefix of
    the adapter ids in sorted order and names a merge policy. */
module Strategies {
  import opened Wrappers
  import opened Seqs
  import opened StringOrder
  import opened Adapters

  datatype Fragment = Fragment(strategy: string, nodes: seq<string>, mergePolicy: string)

  datatype StrategyError =
    | VerifyNeedsTwo
    | QuorumSizeEven
    | QuorumSizeTooLarge

  /** `sorted([a['adapter_id'] for a in adapters])`. */
  function SortedIds(adapters: seq<Adapter>): (r: seq<string>)
    ensures |r| == |adapters| && Sorted(r)
    ensures multiset(r) == multiset(Ids(adapters))
  {
    SortSorted(Ids(adapters));
    Sort(Ids(adapters))
  }

  /** Sorting makes the ids independent of the order the adapters arrive in. */
  lemma SortedIdsPermutation(a: seq<Adapter>, b: seq<Adapter>)
    requires multiset(a) == multiset(b)
    ensures SortedIds(a) == SortedIds(b)
  {
    IdsPermutation(a, b);
    SortPermutationInvariant(Ids(a), Ids(b));
  }

  /** `_pick_nodes_sorted`: the first `n` sorted ids. */
  function PickNodesSorted(adapters: seq<Adapter>, n: int): (r: seq<string>)
    ensures r <= SortedIds(adapters)
  {
    Take(SortedIds(adapters), n)
  }

  /** `single_strategy`: the lexicographically least id alone. */
  function SingleStrategy(adapters: seq<Adapter>): (r: Fragment)
    ensures r.strategy == "single" && r.mergePolicy == "first_success"
    ensures |r.nodes| == if adapters == [] then 0 else 1
    ensures r.nodes <= SortedIds(adapters)
  {
    Fragment("single", PickNodesSorted(adapters, 1), "first_success")
  }

  /** The single node is an adapter id no greater than any other. */
  lemma SingleIsLeast(adapters: seq<Adapter>)
    requires adapters != []
    ensures SingleStrategy(adapters).nodes[0] in Ids(adapters)
    ensures forall id <- Ids(adapters) :: LessEq(SingleStrategy(adapters).nodes[0], id)
  {
    var ids := SortedIds(adapters);
    assert ids[0] in multiset(Ids(adapters));
    forall id <- Ids(adapters) ensures LessEq(ids[0], id) {
      assert id in multiset(ids);
      var k :| 0 <= k < |ids| && ids[k] == id;
      if k == 0 {
        LessEqReflexive(id);
      }
    }
  }

  /** `fanout_strategy`: `fanout` ids, all of them when fanout is absent or
      larger than the pool (a negative fanout slices from the end, as
      Python's `ids[:fanout]` does). */
  function FanoutStrategy(adapters: seq<Adapter>, fanout: Option<int>): (r: Fragment)
    ensures r.strategy == "fanout" && r.mergePolicy == "rank"
    ensures r.nodes <= SortedIds(adapters)
    ensures fanout.None? ==> |r.nodes| == |adapters|
    ensures fanout.Some? && fanout.value >= 0 ==>
      |r.nodes| == if fanout.value <= |adapters| then fanout.value else |adapters|
  {
    var ids := SortedIds(adapters);
    var n := if fanout.None? || fanout.value > |ids| then |ids| else fanout.value;
    Fragment("fanout", Take(ids, n), "rank")
  }

  /** `verify_strategy`: the two least ids, or an error with fewer than two. */
  function VerifyStrategy(adapters: seq<Adapter>): (r: Result<Fragment, StrategyError>)
    ensures r.Err? <==> |adapters| < 2
    ensures r.Ok? ==> r.value == Fragment("verify", SortedIds(adapters)[..2], "first_success")
  {
    var ids := SortedIds(adapters);
    if |ids| < 2 then Err(VerifyNeedsTwo)
    else Ok(Fragment("verify", Take(ids, 2), "first_success"))
  }

  /** The default quorum size: 3 with at least three ids, otherwise 1. */
  function DefaultQuorumSize(n: nat): (r: int)
    ensures r == (if n >= 3 then 3 else 1)
  {
    if n == 0 then 1 else if n == 1 then 1 else if n >= 3 then 3 else 1
  }

  /** `quorum_strategy`: an odd number of least ids, no more than there are. */
  function QuorumStrategy(adapters: seq<Adapter>, size: Option<int>): (r: Result<Fragment, StrategyError>)
    ensures
      var k := if size.Some? then size.value else DefaultQuorumSize(|adapters|);
      && (r.Ok? <==> k % 2 == 1 && k <= |adapters|)
      && (k % 2 == 0 ==> r == Err(QuorumSizeEven))
      && (r.Ok? ==> r.value.strategy == "quorum" && r.value.mergePolicy == "vote"
                    && r.value.nodes <= SortedIds(adapters)
                    && (k >= 0 ==> |r.value.nodes| == k))
  {
    var ids := SortedIds(adapters);
    var k := if size.Some? then size.value else DefaultQuorumSize(|ids|);
    if k % 2 == 0 then Err(QuorumSizeEven)
    else if k > |ids| then Err(QuorumSizeTooLarge)
    else Ok(Fragment("quorum", Take(ids, k), "vote"))
  }

  /** None of the strategies depends on the order of the adapters. */
  lemma StrategiesIgnoreOrder(a: seq<Adapter>, b: seq<Adapter>, fanout: Option<int>, size: Option<int>)
    requires multiset(a) == multiset(b)
    ensures SingleStrategy(a) == SingleStrategy(b)
    ensures FanoutStrategy(a, fanout) == FanoutStrategy(b, fanout)
    ensures VerifyStrategy(a) == VerifyStrategy(b)
    ensures QuorumStrategy(a, size) == QuorumStrategy(b, size)
  {
    SortedIdsPermutation(a, b);
    assert |a| == |SortedIds(a)| == |SortedIds(b)| == |b|;
  }
}
