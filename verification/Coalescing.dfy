// Joining requests for consecutive blocks into one request.

module Coalescing {
  import opened Sorting

  type BlockId = (nat, nat)

  datatype DataRequest = DataRequest(pieceIndex: nat, blockIndex: nat, blocksCount: nat)

  /** The blocks a request asks for. */
  function Covered(r: DataRequest): seq<BlockId> {
    seq(r.blocksCount, k requires 0 <= k => (r.pieceIndex, r.blockIndex + k))
  }

  function Expand(requests: seq<DataRequest>): seq<BlockId> {
    if |requests| == 0 then []
    else Expand(requests[..|requests| - 1]) + Covered(requests[|requests| - 1])
  }

  function Single(b: BlockId): DataRequest {
    DataRequest(b.0, b.1, 1)
  }

  function Singles(picks: seq<BlockId>): seq<DataRequest> {
    seq(|picks|, k requires 0 <= k < |picks| => Single(picks[k]))
  }

  predicate Extends(r: DataRequest, s: DataRequest) {
    r.pieceIndex == s.pieceIndex && r.blockIndex + r.blocksCount == s.blockIndex
  }

  /** No request could be extended by another one: they are ordered, with gaps between them. */
  predicate Apart(r: DataRequest, s: DataRequest) {
    r.pieceIndex < s.pieceIndex || (r.pieceIndex == s.pieceIndex && r.blockIndex + r.blocksCount < s.blockIndex)
  }

  predicate Maximal(requests: seq<DataRequest>) {
    && (forall k | 0 <= k < |requests| :: requests[k].blocksCount >= 1)
    && forall i, j | 0 <= i < j < |requests| :: Apart(requests[i], requests[j])
  }

  function BlockKey(b: BlockId): Key {
    (b.0, b.1)
  }

  predicate Increasing(picks: seq<BlockId>) {
    forall i, j | 0 <= i < j < |picks| ::
      picks[i].0 < picks[j].0 || (picks[i].0 == picks[j].0 && picks[i].1 < picks[j].1)
  }

  lemma ExpandPlus(merged: seq<DataRequest>, req: DataRequest)
    ensures Expand(merged + [req]) == Expand(merged) + Covered(req)
  {
    assert (merged + [req])[..|merged|] == merged;
  }

  /** The merging loop over the sorted single-block requests. */
  method Merge(picks: seq<BlockId>) returns (merged: seq<DataRequest>)
    requires |picks| < 0x1_0000
    ensures Expand(merged) == picks
    ensures Increasing(picks) ==> Maximal(merged)
    ensures forall r | r in merged :: 1 <= r.blocksCount < 0x1_0000
  {
    var messages := Singles(picks);
    merged := [];
    var it := 0;
    while it < |messages|
      invariant it <= |messages|
      invariant Expand(merged) == picks[..it]
      invariant forall r | r in merged :: 1 <= r.blocksCount < 0x1_0000
      invariant Increasing(picks) ==> Maximal(merged)
      invariant Increasing(picks) && it < |picks| ==>
                  forall k | 0 <= k < |merged| :: Apart(merged[k], messages[it])
    {
      var req := messages[it];
      var next := it + 1;
      ghost var first := picks[it];
      while next < |messages| && Extends(req, messages[next])
        invariant it < next <= |messages|
        invariant req == DataRequest(first.0, first.1, next - it)
        invariant forall k | it <= k < next :: picks[k] == (first.0, first.1 + (k - it))
      {
        req := req.(blocksCount := req.blocksCount + 1);
        next := next + 1;
      }
      ExpandPlus(merged, req);
      assert Covered(req) == picks[it..next];
      assert picks[..next] == picks[..it] + picks[it..next];
      hide Expand, Covered;
      if Increasing(picks) && next < |picks| {
        assert picks[next - 1] == (first.0, first.1 + (next - 1 - it));
        assert Apart(req, messages[next]);
        forall k | 0 <= k < |merged|
          ensures Apart(merged[k], messages[next])
        {
          assert Apart(merged[k], messages[it]);
        }
      }
      merged := merged + [req];
      it := next;
    }
    assert picks[..it] == picks;
  }

  /** What a peer is finally asked: sorted, merged, and exactly the blocks chosen. */
  predicate Asks(requests: seq<DataRequest>, picks: seq<BlockId>) {
    && multiset(Expand(requests)) == multiset(picks)
    && (Distinct(picks) ==> Maximal(requests))
    && forall r | r in requests :: 1 <= r.blocksCount < 0x1_0000
  }

  method Coalesce(picks: seq<BlockId>) returns (requests: seq<DataRequest>)
    requires |picks| < 0x1_0000
    ensures Asks(requests, picks)
  {
    var sorted := SortBy(picks, BlockKey);
    PermutationKeeps(sorted, picks);
    if Distinct(picks) {
      forall i, j | 0 <= i < j < |sorted|
        ensures sorted[i].0 < sorted[j].0 || (sorted[i].0 == sorted[j].0 && sorted[i].1 < sorted[j].1)
      {
        assert sorted[i] != sorted[j];
        assert LessOrEqual(BlockKey(sorted[i]), BlockKey(sorted[j]));
      }
    }
    requests := Merge(sorted);
  }
}
