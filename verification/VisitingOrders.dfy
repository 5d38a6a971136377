// The orders in which ChooseBlocks may visit the pieces: there always is one, and any piece can come first among
// those it ties with.

module VisitingOrders {
  import opened Sorting
  import opened DownloadProgress
  import opened Selection

  predicate Descending(order: seq<nat>, keys: seq<int>) {
    && (forall k | 0 <= k < |order| :: order[k] < |keys|)
    && forall k, l | 0 <= k < l < |order| :: keys[order[k]] >= keys[order[l]]
  }

  /** Puts x in front of the first number whose key is not greater. */
  function Placed(order: seq<nat>, keys: seq<int>, x: nat): (longer: seq<nat>)
    requires Descending(order, keys) && x < |keys|
    ensures |longer| == |order| + 1
  {
    if order == [] || keys[x] >= keys[order[0]] then [x] + order else [order[0]] + Placed(order[1..], keys, x)
  }

  lemma {:induction false} PlacedMembers(order: seq<nat>, keys: seq<int>, x: nat)
    requires Descending(order, keys) && x < |keys|
    ensures forall i :: i in Placed(order, keys, x) <==> i in order || i == x
    ensures Distinct(order) && x !in order ==> Distinct(Placed(order, keys, x))
  {
    if order != [] && keys[x] < keys[order[0]] {
      PlacedMembers(order[1..], keys, x);
      assert order == [order[0]] + order[1..];
      if Distinct(order) && x !in order {
        InFrontDistinct(order[0], Placed(order[1..], keys, x));
      }
    } else if Distinct(order) && x !in order {
      InFrontDistinct(x, order);
    }
  }

  lemma InFrontDistinct(x: nat, order: seq<nat>)
    requires Distinct(order) && x !in order
    ensures Distinct([x] + order)
  {
  }

  lemma {:induction false} PlacedDescends(order: seq<nat>, keys: seq<int>, x: nat)
    requires Descending(order, keys) && x < |keys|
    ensures Descending(Placed(order, keys, x), keys)
  {
    if order != [] && keys[x] < keys[order[0]] {
      var rest := Placed(order[1..], keys, x);
      PlacedDescends(order[1..], keys, x);
      PlacedMembers(order[1..], keys, x);
      forall k | 0 <= k < |rest|
        ensures keys[order[0]] >= keys[rest[k]]
      {
        assert rest[k] in rest;
      }
    }
  }

  /** The pieces of one status with a number below n, highest keys first. */
  function Visited(pieces: seq<PieceProgress>, keys: seq<int>, status: DownloadStatus, n: nat): (order: seq<nat>)
    requires n <= |pieces| == |keys|
    ensures Descending(order, keys)
  {
    if n == 0 then []
    else
      var before := Visited(pieces, keys, status, n - 1);
      PlacedDescends(before, keys, n - 1);
      if pieces[n - 1].status == status then Placed(before, keys, n - 1) else before
  }

  lemma {:induction false} VisitedMembers(pieces: seq<PieceProgress>, keys: seq<int>, status: DownloadStatus, n: nat)
    requires n <= |pieces| == |keys|
    ensures forall i: nat :: i in Visited(pieces, keys, status, n) <==> i < n && pieces[i].status == status
    ensures Distinct(Visited(pieces, keys, status, n))
  {
    if n > 0 {
      VisitedMembers(pieces, keys, status, n - 1);
      PlacedMembers(Visited(pieces, keys, status, n - 1), keys, n - 1);
    }
  }

  lemma VisitedIsOrder(pieces: seq<PieceProgress>, keys: seq<int>, status: DownloadStatus)
    requires |pieces| == |keys|
    ensures IsOrder(Visited(pieces, keys, status, |pieces|), pieces, status)
  {
    var order := Visited(pieces, keys, status, |pieces|);
    VisitedMembers(pieces, keys, status, |pieces|);
    forall k | 0 <= k < |order|
      ensures order[k] < |pieces| && pieces[order[k]].status == status
    {
      assert order[k] in order;
    }
  }

  function BytesOf(pieces: seq<PieceProgress>): seq<int> {
    seq(|pieces|, i requires 0 <= i < |pieces| => pieces[i].bytesDownloaded)
  }

  /** The counters doubled, and one more for the favoured piece. */
  function Favouring(rarity: seq<nat>, first: nat): seq<int> {
    seq(|rarity|, i requires 0 <= i < |rarity| => 2 * rarity[i] + if i == first then 1 else 0)
  }

  /** ChooseBlocks always has an order to follow, and whichever empty piece one likes may come first among the
      pieces of its counter. */
  lemma OrdersExist(pieces: seq<PieceProgress>, rarity: seq<nat>, first: nat)
    returns (down: seq<nat>, empty: seq<nat>)
    requires |rarity| == |pieces|
    ensures ValidOrders(pieces, rarity, down, empty)
    ensures forall k, l | 0 <= k < l < |empty| && empty[l] == first :: rarity[empty[k]] > rarity[first]
  {
    down := Visited(pieces, BytesOf(pieces), Downloading, |pieces|);
    VisitedIsOrder(pieces, BytesOf(pieces), Downloading);
    var keys := Favouring(rarity, first);
    empty := Visited(pieces, keys, Empty, |pieces|);
    VisitedIsOrder(pieces, keys, Empty);
    forall k, l | 0 <= k < l < |down|
      ensures pieces[down[k]].bytesDownloaded >= pieces[down[l]].bytesDownloaded
    {
      assert BytesOf(pieces)[down[k]] >= BytesOf(pieces)[down[l]];
    }
    forall k, l | 0 <= k < l < |empty|
      ensures rarity[empty[k]] >= rarity[empty[l]]
      ensures empty[l] == first ==> rarity[empty[k]] > rarity[first]
    {
      assert keys[empty[k]] >= keys[empty[l]] && empty[k] != empty[l];
    }
  }
}
