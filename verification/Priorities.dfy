// Which blocks a peer is asked for when not all that it has fit its window: those of the pieces that come first
// in the visiting order, started pieces before unbegun ones, and within a piece the lower block numbers.

module Priorities {
  import opened FileSplitter
  import opened Sorting
  import opened Coalescing
  import opened DownloadProgress
  import opened Selection
  import opened RarityTrackerChooser
  import opened Agreement
  import opened Shares
  import opened WindowSafety

  /** The place of a piece in an order without repetitions. */
  function Place(order: seq<nat>, i: nat): (k: nat)
    requires i in order
    ensures k < |order| && order[k] == i
  {
    var n := |order| - 1;
    if order[n] == i then n else Place(order[..n], i)
  }

  /** x is visited before y. */
  predicate Before(order: seq<nat>, x: BlockId, y: BlockId) {
    && x.0 in order && y.0 in order
    && (Place(order, x.0) < Place(order, y.0) || (x.0 == y.0 && x.1 < y.1))
  }

  predicate InOrder(order: seq<nat>, blocks: seq<BlockId>) {
    && (forall k | 0 <= k < |blocks| :: blocks[k].0 in order)
    && forall k, l | 0 <= k < l < |blocks| :: Before(order, blocks[k], blocks[l])
  }

  lemma PlaceIs(order: seq<nat>, k: nat)
    requires Distinct(order) && k < |order|
    ensures Place(order, order[k]) == k
  {
  }

  lemma PlaceInFront(front: seq<nat>, back: seq<nat>, i: nat)
    requires Distinct(front + back)
    ensures i in front ==> i in front + back && Place(front + back, i) == Place(front, i)
    ensures i in back ==> i in front + back && Place(front + back, i) == |front| + Place(back, i)
  {
    if i in front {
      PlaceIs(front + back, Place(front, i));
    }
    if i in back {
      assert (front + back)[|front| + Place(back, i)] == i;
      PlaceIs(front + back, |front| + Place(back, i));
    }
  }

  /** Lists for the two halves of an order, one after the other. */
  lemma InOrderJoined(front: seq<nat>, back: seq<nat>, xs: seq<BlockId>, ys: seq<BlockId>)
    requires Distinct(front + back) && InOrder(front, xs) && InOrder(back, ys)
    ensures InOrder(front + back, xs + ys)
  {
    hide Place;
    var all := xs + ys;
    forall k | 0 <= k < |all|
      ensures all[k].0 in front + back
    {
      PlaceInFront(front, back, all[k].0);
    }
    forall k, l | 0 <= k < l < |all|
      ensures Before(front + back, all[k], all[l])
    {
      PlaceInFront(front, back, all[k].0);
      PlaceInFront(front, back, all[l].0);
      if l < |xs| {
        assert Before(front, xs[k], xs[l]);
      } else if k >= |xs| {
        assert Before(back, ys[k - |xs|], ys[l - |xs|]);
      }
    }
  }

  lemma EmptyBlocksInOrder(p: PieceProgress, i: nat, offset: nat, size: nat)
    requires WellCut(p, offset, size)
    ensures InOrder([i], EmptyBlocks(p, i))
  {
    var n := |p.blocks|;
    assert p.blocks[..n] == p.blocks;
    BlocksStatusedLocated(p, offset, size, n);
    BlocksStatusedAscending(p, offset, size, n);
    var empty, all := BlocksStatused(p.blocks, Empty), EmptyBlocks(p, i);
    forall k | 0 <= k < |empty|
      ensures empty[k].offset == all[k].1 * BLOCK_SIZE
    {
      assert Located(p, n, empty[k]);
      var j := empty[k].offset / BLOCK_SIZE;
      assert p.blocks[j].(status := Empty) == FreshBlock(size, j);
    }
    forall k, l | 0 <= k < l < |all|
      ensures Before([i], all[k], all[l])
    {
      assert empty[k].offset < empty[l].offset;
    }
  }

  lemma {:induction false} CandidatesInOrder(p: Progress, order: seq<nat>, field: Bitfield)
    requires Laid(p) && OrderIn(order, p.pieces) && Distinct(order)
    ensures InOrder(order, Candidates(p.pieces, order, field))
  {
    if |order| > 0 {
      var n := |order| - 1;
      var i := order[n];
      hide EmptyBlocks, InOrder;
      CandidatesInOrder(p, order[..n], field);
      EmptyBlocksInOrder(p.pieces[i], i, PieceStart(p.fileSize, i), PieceLength(p.fileSize, i));
      NothingInOrder([i]);
      assert order[..n] + [i] == order;
      InOrderJoined(order[..n], [i], Candidates(p.pieces, order[..n], field),
                    if HasBit(field, i) then EmptyBlocks(p.pieces[i], i) else []);
    }
  }

  lemma NothingInOrder(order: seq<nat>)
    ensures InOrder(order, [])
  {
  }

  lemma BeforeIsStrict(order: seq<nat>, x: BlockId, y: BlockId)
    ensures Before(order, x, y) ==> !Before(order, y, x)
  {
  }

  /** Of a list in order, the first n hold whatever comes before one of them. */
  lemma EarlierIsTaken(order: seq<nat>, blocks: seq<BlockId>, n: nat, x: BlockId, y: BlockId)
    requires InOrder(order, blocks) && x in blocks && y in Take(blocks, n) && Before(order, x, y)
    ensures x in Take(blocks, n)
  {
    hide Place;
    var k :| 0 <= k < |blocks| && blocks[k] == x;
    var l :| 0 <= l < |Take(blocks, n)| && Take(blocks, n)[l] == y;
    assert l < k ==> Before(order, y, x);
    BeforeIsStrict(order, x, y);
    assert Take(blocks, n)[k] == x;
  }

  /** An Empty block, as the progress p has it, of a piece in the order that the peer has. */
  predicate Offered(p: Progress, order: seq<nat>, field: Bitfield, b: BlockId) {
    b.0 in order && HasBit(field, b.0) && Exists(p.pieces, b) && StatusAt(p.pieces, b) == Empty
  }

  /** What a peer is asked for: as many of its offered blocks as fit, and with any of them all that are visited
      earlier, where the started pieces come before the unbegun ones. */
  lemma PicksByPriority(t: Turn, snapshot: Progress, field: Bitfield, down: seq<nat>, empty: seq<nat>, slots: nat,
                        x: BlockId, y: BlockId)
    requires Laid(t.prog) && Laid(snapshot) && Distinct(down + empty)
    requires OrderIn(down, t.prog.pieces) && OrderIn(empty, snapshot.pieces)
    requires y in Picks(t, snapshot.pieces, field, down, empty, slots)
    requires Offered(t.prog, down, field, x) || Offered(snapshot, empty, field, x)
    requires Before(down + empty, x, y)
    ensures x in Picks(t, snapshot.pieces, field, down, empty, slots)
  {
    var started, unbegun := Candidates(t.prog.pieces, down, field), Candidates(snapshot.pieces, empty, field);
    HalvesDistinct(down, empty);
    CandidatesInOrder(t.prog, down, field);
    CandidatesInOrder(snapshot, empty, field);
    InOrderJoined(down, empty, started, unbegun);
    if Offered(t.prog, down, field, x) {
      CandidatesComplete(t.prog, down, field, x);
    } else {
      CandidatesComplete(snapshot, empty, field, x);
    }
    hide InOrder, Candidates, Before, Take, Laid;
    assert x in started + unbegun;
    EarlierIsTaken(down + empty, started + unbegun, slots, x, y);
  }

  lemma OrdersDistinct(pieces: seq<PieceProgress>, down: seq<nat>, empty: seq<nat>)
    requires IsOrder(down, pieces, Downloading) && IsOrder(empty, pieces, Empty)
    ensures Distinct(down + empty)
  {
    var all := down + empty;
    forall k, l | 0 <= k < l < |all|
      ensures all[k] != all[l]
    {
      if k < |down| <= l {
        DownNotEmpty(pieces, down, empty, all[k]);
        assert all[k] in down && all[l] in empty;
      }
    }
  }

  lemma HigherIsBefore(pieces: seq<PieceProgress>, rarity: seq<nat>, down: seq<nat>, empty: seq<nat>, x: BlockId, y: BlockId)
    requires ValidOrders(pieces, rarity, down, empty) && Distinct(down + empty)
    requires x.0 in down + empty && y.0 in empty
    requires x.0 in down || rarity[x.0] > rarity[y.0]
    ensures Before(down + empty, x, y)
  {
    PlaceInFront(down, empty, x.0);
    PlaceInFront(down, empty, y.0);
  }

  /** In the order of ChooseBlocks: no block of an unbegun piece is asked for while the peer has an Empty block of a
      started piece, or of an unbegun one with a higher counter, that is not. */
  lemma HighestCounterFirst(t: Turn, snapshot: Progress, rarity: seq<nat>, field: Bitfield, down: seq<nat>,
                            empty: seq<nat>, slots: nat, x: BlockId, y: BlockId)
    requires Laid(t.prog) && Laid(snapshot) && |t.prog.pieces| == |snapshot.pieces|
    requires ValidOrders(snapshot.pieces, rarity, down, empty)
    requires y in Picks(t, snapshot.pieces, field, down, empty, slots) && y.0 in empty
    requires Offered(t.prog, down, field, x)
             || (Offered(snapshot, empty, field, x) && rarity[x.0] > rarity[y.0])
    ensures x in Picks(t, snapshot.pieces, field, down, empty, slots)
  {
    hide Picks, Laid, HasBit, Place;
    OrdersDistinct(snapshot.pieces, down, empty);
    HigherIsBefore(snapshot.pieces, rarity, down, empty, x, y);
    PicksByPriority(t, snapshot, field, down, empty, slots, x, y);
  }

  lemma HalvesDistinct(front: seq<nat>, back: seq<nat>)
    requires Distinct(front + back)
    ensures Distinct(front) && Distinct(back)
  {
    forall k, l | 0 <= k < l < |front|
      ensures front[k] != front[l]
    {
      assert (front + back)[k] != (front + back)[l];
    }
    forall k, l | 0 <= k < l < |back|
      ensures back[k] != back[l]
    {
      assert (front + back)[|front| + k] != (front + back)[|front| + l];
    }
  }
}
