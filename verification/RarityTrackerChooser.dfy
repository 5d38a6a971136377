// The object that decides which blocks to ask which peer for.

module RarityTrackerChooser {
  import opened Wrappers
  import opened Bytes
  import opened FileSplitter
  import opened Sorting
  import opened Coalescing
  import opened DownloadProgress
  import opened Selection

  datatype ResultMessages = ResultMessages(to: PeerId, messages: seq<DataRequest>)

  predicate TrackersInRange(requests: seq<RequestTracker>, pieces: seq<PieceProgress>) {
    forall k | 0 <= k < |requests| ::
      requests[k].pieceIndex < |pieces| && requests[k].blockIndex < |pieces[requests[k].pieceIndex].blocks|
  }

  /** Bitfields long enough to be read for every piece, counters for every piece,
      and requests only for blocks that exist. */
  ghost predicate ChooserOk(c: Chooser, pieces: seq<PieceProgress>) {
    && c.pieceCount == |pieces| == |c.rarity|
    && (forall p | p in c.bitfields :: |c.bitfields[p]| * 8 >= c.pieceCount)
    && forall p | p in c.active :: TrackersInRange(c.active[p], pieces)
  }

  /** Repainting statuses moves no block. */
  lemma RepaintKeepsShape(p: Progress, blocks: set<BlockId>, status: DownloadStatus)
    requires Laid(p)
    ensures Laid(WithBlocks(p, blocks, status))
    ensures |WithBlocks(p, blocks, status).pieces| == |p.pieces|
    ensures WithBlocks(p, blocks, status).fileSize == p.fileSize
    ensures forall i | 0 <= i < |p.pieces| :: |WithBlocks(p, blocks, status).pieces[i].blocks| == |p.pieces[i].blocks|
  {
    var p' := WithBlocks(p, blocks, status);
    forall i | 0 <= i < |p'.pieces|
      ensures PieceLength(p.fileSize, i) > 0
              && WellCut(p'.pieces[i], PieceStart(p.fileSize, i), PieceLength(p.fileSize, i))
    {
      assert WellCut(p.pieces[i], PieceStart(p.fileSize, i), PieceLength(p.fileSize, i));
      forall j | 0 <= j < |p'.pieces[i].blocks|
        ensures p'.pieces[i].blocks[j].(status := Empty) == FreshBlock(PieceLength(p.fileSize, i), j)
      {
        assert p.pieces[i].blocks[j].(status := Empty) == FreshBlock(PieceLength(p.fileSize, i), j);
      }
    }
  }

  predicate BlocksExist(picks: seq<BlockId>, pieces: seq<PieceProgress>) {
    forall b | b in picks :: b.0 < |pieces| && b.1 < |pieces[b.0].blocks|
  }

  lemma OkAfterAsking(c: Chooser, p: Progress, peer: PeerId, picks: seq<BlockId>, now: int)
    requires Laid(p) && ChooserOk(c, p.pieces) && BlocksExist(picks, p.pieces)
    ensures Laid(WithBlocks(p, ToSet(picks), Downloading))
    ensures ChooserOk(c.(active := Appended(c.active, peer, picks, now)),
                      WithBlocks(p, ToSet(picks), Downloading).pieces)
  {
    RepaintKeepsShape(p, ToSet(picks), Downloading);
    var requests := RequestsOf(c.active, peer) + Track(picks, now);
    forall k | 0 <= k < |requests|
      ensures requests[k].pieceIndex < |p.pieces|
              && requests[k].blockIndex < |p.pieces[requests[k].pieceIndex].blocks|
    {
      if k >= |RequestsOf(c.active, peer)| {
        assert picks[k - |RequestsOf(c.active, peer)|] in picks;
      }
    }
  }

  // ----- copies of pieces

  function Select(pieces: seq<PieceProgress>, order: seq<nat>): seq<PieceProgress>
    requires OrderIn(order, pieces)
  {
    seq(|order|, k requires 0 <= k < |order| => pieces[order[k]])
  }

  function IndexOf(fileSize: nat, p: PieceProgress): nat {
    if fileSize == 0 then 0 else
      PieceSizeBounds(fileSize);
      DivisionBounds(p.offset, PieceSize(fileSize));
      p.offset / PieceSize(fileSize)
  }

  /** getPieceIndex recovers a piece's number from a copy of it. */
  lemma IndexOfCopy(p: Progress, i: nat)
    requires Laid(p) && i < |p.pieces|
    ensures p.fileSize > 0 && IndexOf(p.fileSize, p.pieces[i]) == i
  {
    PieceLengths(p.fileSize, i);
    assert WellCut(p.pieces[i], PieceStart(p.fileSize, i), PieceLength(p.fileSize, i));
    PieceIndexOfByte(p.fileSize, i, PieceStart(p.fileSize, i));
  }

  lemma {:induction false} StatusedMembers(p: Progress, status: DownloadStatus, n: nat)
    requires Laid(p) && n <= |p.pieces|
    ensures Distinct(Statused(p.pieces[..n], status))
    ensures forall q | q in Statused(p.pieces[..n], status) ::
              var i := IndexOf(p.fileSize, q); i < n && p.pieces[i] == q && q.status == status
    ensures forall i | 0 <= i < n && p.pieces[i].status == status :: p.pieces[i] in Statused(p.pieces[..n], status)
  {
    if n > 0 {
      assert p.pieces[..n][..n - 1] == p.pieces[..n - 1];
      StatusedMembers(p, status, n - 1);
      IndexOfCopy(p, n - 1);
    }
  }

  function Order(fileSize: nat, copies: seq<PieceProgress>): seq<nat> {
    seq(|copies|, k requires 0 <= k < |copies| => IndexOf(fileSize, copies[k]))
  }

  /** A sorted list of copies is a visiting order over the pieces it was copied from. */
  lemma OrderOfCopies(p: Progress, status: DownloadStatus, copies: seq<PieceProgress>)
    requires Laid(p) && multiset(copies) == multiset(Statused(p.pieces, status))
    ensures IsOrder(Order(p.fileSize, copies), p.pieces, status)
    ensures copies == Select(p.pieces, Order(p.fileSize, copies))
  {
    var n := |p.pieces|;
    assert p.pieces[..n] == p.pieces;
    StatusedMembers(p, status, n);
    PermutationKeeps(copies, Statused(p.pieces, status));
    var order := Order(p.fileSize, copies);
    forall k | 0 <= k < |copies|
      ensures order[k] < n && p.pieces[order[k]] == copies[k] && copies[k].status == status
    {
      assert copies[k] in copies;
    }
    forall i | 0 <= i < n && p.pieces[i].status == status
      ensures i in order
    {
      assert p.pieces[i] in copies;
      var k :| 0 <= k < |copies| && copies[k] == p.pieces[i];
      IndexOfCopy(p, i);
      assert order[k] == i;
    }
    forall k, l | 0 <= k < l < |order|
      ensures order[k] != order[l]
    {
      assert copies[k] != copies[l];
    }
  }

  lemma CandidatesPrefix(pieces: seq<PieceProgress>, order: seq<nat>, field: Bitfield, k: nat)
    requires OrderIn(order, pieces) && k < |order|
    ensures Candidates(pieces, order[..k + 1], field)
            == Candidates(pieces, order[..k], field)
               + (if HasBit(field, order[k]) then EmptyBlocks(pieces[order[k]], order[k]) else [])
  {
    assert order[..k + 1][..k] == order[..k];
  }

  /** The i-th entry of getBlocksStatused is a block of the piece, at the place its offset names. */
  predicate Located(p: PieceProgress, n: nat, b: BlockInfo) {
    var j := b.offset / BLOCK_SIZE;
    j < n <= |p.blocks| && b == p.blocks[j] && b.status == Empty
  }

  /** getBlockIndex undoes the offset of a block. */
  lemma BlockIndexOf(j: nat)
    ensures j * BLOCK_SIZE / BLOCK_SIZE == j
  {
  }

  lemma {:induction false} BlocksStatusedLocated(p: PieceProgress, offset: nat, size: nat, n: nat)
    requires WellCut(p, offset, size) && n <= |p.blocks|
    ensures forall k | 0 <= k < |BlocksStatused(p.blocks[..n], Empty)| ::
              Located(p, n, BlocksStatused(p.blocks[..n], Empty)[k])
  {
    if n > 0 {
      assert p.blocks[..n][..n - 1] == p.blocks[..n - 1];
      BlocksStatusedLocated(p, offset, size, n - 1);
      assert p.blocks[n - 1].(status := Empty) == FreshBlock(size, n - 1);
      BlockIndexOf(n - 1);
      var rest := BlocksStatused(p.blocks[..n - 1], Empty);
      forall k | 0 <= k < |rest|
        ensures Located(p, n, rest[k])
      {
        assert Located(p, n - 1, rest[k]);
      }
    }
  }

  predicate Ascending(blocks: seq<BlockInfo>) {
    forall k, l | 0 <= k < l < |blocks| :: blocks[k].offset < blocks[l].offset
  }

  lemma {:induction false} BlocksStatusedAscending(p: PieceProgress, offset: nat, size: nat, n: nat)
    requires WellCut(p, offset, size) && n <= |p.blocks|
    ensures Ascending(BlocksStatused(p.blocks[..n], Empty))
  {
    if n > 0 {
      assert p.blocks[..n][..n - 1] == p.blocks[..n - 1];
      BlocksStatusedAscending(p, offset, size, n - 1);
      BlocksStatusedLocated(p, offset, size, n - 1);
      assert p.blocks[n - 1].(status := Empty) == FreshBlock(size, n - 1);
      var rest := BlocksStatused(p.blocks[..n - 1], Empty);
      forall k | 0 <= k < |rest|
        ensures rest[k].offset < p.blocks[n - 1].offset
      {
        assert Located(p, n - 1, rest[k]);
        DivisionBounds(rest[k].offset, BLOCK_SIZE);
      }
    }
  }

  lemma {:induction false} BlocksStatusedComplete(blocks: seq<BlockInfo>, j: nat)
    requires j < |blocks| && blocks[j].status == Empty
    ensures exists k | 0 <= k < |BlocksStatused(blocks, Empty)| :: BlocksStatused(blocks, Empty)[k] == blocks[j]
  {
    var n := |blocks| - 1;
    var rest := BlocksStatused(blocks[..n], Empty);
    if j < n {
      BlocksStatusedComplete(blocks[..n], j);
      var k :| 0 <= k < |rest| && rest[k] == blocks[..n][j];
      assert BlocksStatused(blocks, Empty)[k] == blocks[j];
    } else {
      assert BlocksStatused(blocks, Empty)[|rest|] == blocks[j];
    }
  }

  lemma EmptyBlocksSound(p: PieceProgress, i: nat, offset: nat, size: nat)
    requires WellCut(p, offset, size)
    ensures forall k | 0 <= k < |EmptyBlocks(p, i)| ::
              var b := EmptyBlocks(p, i)[k]; b.0 == i && b.1 < |p.blocks| && p.blocks[b.1].status == Empty
    ensures Distinct(EmptyBlocks(p, i))
  {
    var n := |p.blocks|;
    assert p.blocks[..n] == p.blocks;
    BlocksStatusedLocated(p, offset, size, n);
    BlocksStatusedAscending(p, offset, size, n);
    var empty, all := BlocksStatused(p.blocks, Empty), EmptyBlocks(p, i);
    forall k | 0 <= k < |empty|
      ensures empty[k].offset == all[k].1 * BLOCK_SIZE && Located(p, n, empty[k])
    {
      var j := empty[k].offset / BLOCK_SIZE;
      assert p.blocks[j].(status := Empty) == FreshBlock(size, j);
    }
    forall k, l | 0 <= k < l < |all|
      ensures all[k] != all[l]
    {
      assert empty[k].offset < empty[l].offset;
    }
  }

  /** The candidates in one piece are its Empty blocks, each once. */
  lemma EmptyBlocksMembers(p: PieceProgress, i: nat, offset: nat, size: nat)
    requires WellCut(p, offset, size)
    ensures forall b: BlockId :: b in EmptyBlocks(p, i) <==>
                                 b.0 == i && b.1 < |p.blocks| && p.blocks[b.1].status == Empty
    ensures Distinct(EmptyBlocks(p, i))
  {
    EmptyBlocksSound(p, i, offset, size);
    forall b: BlockId | b.0 == i && b.1 < |p.blocks| && p.blocks[b.1].status == Empty
      ensures b in EmptyBlocks(p, i)
    {
      BlocksStatusedComplete(p.blocks, b.1);
      var empty := BlocksStatused(p.blocks, Empty);
      var k :| 0 <= k < |empty| && empty[k] == p.blocks[b.1];
      assert p.blocks[b.1].(status := Empty) == FreshBlock(size, b.1);
      assert EmptyBlocks(p, i)[k] == b;
    }
  }

  lemma ToSetEmpty()
    ensures ToSet([]) == {}
  {
  }

  lemma ToSetConcat(xs: seq<BlockId>, ys: seq<BlockId>)
    ensures ToSet(xs + ys) == ToSet(xs) + ToSet(ys)
  {
  }

  class RarityTrackerChooser {
    const pieceCount: nat
    const progress: DownloadProgress
    var activeRequests: map<PeerId, seq<RequestTracker>>
    var peerWindows: map<PeerId, nat>
    var peerResponseTimes: map<PeerId, seq<int>>
    var rarity: seq<nat>
    var peersBitfields: map<PeerId, Bitfield>

    function View(): Chooser
      reads this
    {
      Chooser(pieceCount, activeRequests, peerWindows, peerResponseTimes, rarity, peersBitfields)
    }

    ghost predicate Valid()
      reads this, progress
    {
      Laid(progress.View()) && ChooserOk(View(), progress.pieces)
    }

    constructor (progress: DownloadProgress)
      requires Laid(progress.View())
      ensures Valid() && this.progress == progress
      ensures View() == Chooser(|progress.pieces|, map[], map[], map[], seq(|progress.pieces|, _ => 0), map[])
    {
      this.pieceCount := |progress.pieces|;
      this.progress := progress;
      activeRequests, peerWindows, peerResponseTimes := map[], map[], map[];
      rarity := seq(|progress.pieces|, _ => 0);
      peersBitfields := map[];
    }

    // ----- rarity

    method AddPeerRarity(field: Bitfield)
      requires |rarity| == pieceCount <= |field| * 8
      modifies this`rarity
      ensures rarity == Added(old(rarity), field)
    {
      for i := 0 to pieceCount
        invariant |rarity| == pieceCount
        invariant forall k | 0 <= k < i :: rarity[k] == Added(old(rarity), field)[k]
        invariant forall k | i <= k < pieceCount :: rarity[k] == old(rarity)[k]
      {
        rarity := rarity[i := (rarity[i] + if field[i / 8][i % 8] then 1 else 0) % 256];
      }
    }

    method RemovePeerRarity(peer: PeerId)
      requires peer in peersBitfields && |rarity| == pieceCount <= |peersBitfields[peer]| * 8
      modifies this`rarity
      ensures rarity == Removed(old(rarity), peersBitfields[peer])
    {
      for i := 0 to pieceCount
        invariant |rarity| == pieceCount
        invariant forall k | 0 <= k < i :: rarity[k] == Removed(old(rarity), peersBitfields[peer])[k]
        invariant forall k | i <= k < pieceCount :: rarity[k] == old(rarity)[k]
      {
        rarity := rarity[i := (rarity[i] + 256 - if peersBitfields[peer][i / 8][i % 8] then 1 else 0) % 256];
      }
    }

    /** Counts again from scratch, in whatever order the peers are kept. */
    method ReCalculateRarity()
      requires Valid()
      modifies this`rarity
      ensures Valid() && |rarity| == pieceCount
      ensures forall i | 0 <= i < pieceCount :: rarity[i] == |Holders(peersBitfields, i)| % 256
    {
      CountedNobody(peersBitfields);
      hide CountedHolders, Laid, HasBit, Added, Holders;
      rarity := seq(pieceCount, _ => 0);
      var peers := peersBitfields.Keys;
      ghost var counted: set<PeerId> := {};
      while peers != {}
        invariant Valid() && peers + counted == peersBitfields.Keys && peers !! counted
        invariant forall i | 0 <= i < pieceCount :: rarity[i] == |CountedHolders(peersBitfields, counted, i)| % 256
        decreases peers
      {
        var p :| p in peers;
        ghost var before := rarity;
        AddPeerRarity(peersBitfields[p]);
        RecountStep(before, peersBitfields, counted, p);
        peers, counted := peers - {p}, counted + {p};
      }
      forall i | 0 <= i < pieceCount
        ensures CountedHolders(peersBitfields, counted, i) == Holders(peersBitfields, i)
      {
        CountedAll(peersBitfields, i);
      }
    }

    static lemma RecountStep(before: seq<nat>, fields: map<PeerId, Bitfield>, counted: set<PeerId>, p: PeerId)
      requires p in fields && p !in counted
      requires forall i | 0 <= i < |before| :: before[i] == |CountedHolders(fields, counted, i)| % 256
      ensures |Added(before, fields[p])| == |before|
      ensures forall i | 0 <= i < |before| ::
                Added(before, fields[p])[i] == |CountedHolders(fields, counted + {p}, i)| % 256
    {
      forall i | 0 <= i < |before|
        ensures Added(before, fields[p])[i] == |CountedHolders(fields, counted + {p}, i)| % 256
      {
        CountedOneMore(fields, counted, p, i);
        Mod256(|CountedHolders(fields, counted, i)|, Bit(fields[p], i));
      }
    }

    static lemma CountedNobody(fields: map<PeerId, Bitfield>)
      ensures forall i: nat :: CountedHolders(fields, {}, i) == {}
    {
    }

    static lemma CountedAll(fields: map<PeerId, Bitfield>, i: nat)
      ensures CountedHolders(fields, fields.Keys, i) == Holders(fields, i)
    {
    }

    static function CountedHolders(fields: map<PeerId, Bitfield>, counted: set<PeerId>, i: nat): set<PeerId> {
      set p | p in counted && p in fields && HasBit(fields[p], i)
    }

    static lemma CountedOneMore(fields: map<PeerId, Bitfield>, counted: set<PeerId>, p: PeerId, i: nat)
      requires p in fields && p !in counted
      ensures |CountedHolders(fields, counted + {p}, i)| == |CountedHolders(fields, counted, i)| + Bit(fields[p], i)
    {
      var before, after := CountedHolders(fields, counted, i), CountedHolders(fields, counted + {p}, i);
      if HasBit(fields[p], i) {
        assert after == before + {p};
      } else {
        assert after == before;
      }
    }

    method UpdatePeerBitfield(peer: PeerId, field: Bitfield)
      requires Valid() && |field| * 8 >= pieceCount
      modifies this`rarity, this`peersBitfields
      ensures Valid() && View() == AfterBitfield(old(View()), peer, field)
    {
      if peer in peersBitfields {
        RemovePeerRarity(peer);
      }
      peersBitfields := peersBitfields[peer := field];
      AddPeerRarity(field);
    }

    method AddPeer(peer: PeerId)
      requires Valid()
      modifies this
      ensures Valid() && View() == AfterAddPeer(old(View()), peer)
    {
      peersBitfields := peersBitfields[peer := EmptyBitfield(pieceCount)];
      activeRequests := activeRequests[peer := []];
      peerWindows := peerWindows[peer := INITIAL_WINDOW];
      peerResponseTimes := peerResponseTimes[peer := []];
    }

    method RemovePeer(peer: PeerId)
      requires Valid()
      modifies this
      ensures Valid() && View() == AfterRemovePeer(old(View()), peer)
    {
      if peer in peersBitfields {
        RemovePeerRarity(peer);
        peersBitfields := peersBitfields - {peer};
      }
      activeRequests := activeRequests - {peer};
      peerWindows := peerWindows - {peer};
    }

    predicate HasPiece(peer: PeerId, piece: nat)
      requires peer in peersBitfields && piece < |peersBitfields[peer]| * 8
      reads this
    {
      peersBitfields[peer][piece / 8][piece % 8]
    }

    /** gotPiece and lostPiece; an unknown peer makes hasPiece throw. */
    method SetOwnership(peer: PeerId, piece: nat, has: bool) returns (r: Result<()>)
      requires Valid() && piece < pieceCount
      modifies this`rarity, this`peersBitfields
      ensures r.Success? <==> peer in old(peersBitfields)
      ensures r.Failure? ==> View() == old(View())
      ensures Valid()
      ensures r.Success? ==> View() == AfterOwnership(old(View()), peer, piece, has)
    {
      if peer !in peersBitfields {
        return Failure("out of range");
      }
      if HasPiece(peer, piece) != has {
        rarity := rarity[piece := (rarity[piece] + if has then 1 else 255) % 256];
        peersBitfields := peersBitfields[peer := WithBit(peersBitfields[peer], piece, has)];
      }
      return Success(());
    }

    // ----- windows

    method AdjustPeerWindow(peer: PeerId, success: bool)
      modifies this`peerWindows
      ensures peerWindows == old(peerWindows)[peer :=
                AdjustedWindow(if peer in old(peerWindows) then old(peerWindows)[peer] else 0, success)]
    {
      var window := if peer in peerWindows then peerWindows[peer] else 0;
      if success {
        window := Min(window + 1, MAX_WINDOW);
      } else {
        window := Max(window - 1, MIN_WINDOW);
      }
      peerWindows := peerWindows[peer := window];
    }

    method UpdateBlockReceived(peer: PeerId, piece: nat, block: nat, now: int)
      requires Valid()
      modifies this
      ensures Valid() && View() == AfterReceived(old(View()), peer, piece, block, now)
    {
      OkAfterReceived(View(), peer, piece, block, now, progress.pieces);
      hide ChooserOk, Laid, Improves, AdjustedWindow;
      if peer in activeRequests {
        var requests := activeRequests[peer];
        var k := FirstMatch(requests, (piece, block));
        if k < |requests| {
          var responseTime := Millis(now - requests[k].requestTime);
          var times := if peer in peerResponseTimes then peerResponseTimes[peer] else [];
          times := [responseTime] + times;
          if |times| > MAXIMUM_REQUESTS {
            times := times[..|times| - 1];
          }
          peerResponseTimes := peerResponseTimes[peer := times];
          if |times| >= MINIMUM_REQUESTS {
            AdjustPeerWindow(peer, Improves(times));
          }
          activeRequests := activeRequests[peer := requests[k := requests[k].(received := true)]];
        }
      }
    }

    static lemma OkAfterReceived(c: Chooser, peer: PeerId, piece: nat, block: nat, now: int, pieces: seq<PieceProgress>)
      requires ChooserOk(c, pieces)
      ensures ChooserOk(AfterReceived(c, peer, piece, block, now), pieces)
    {
    }

    // ----- timeouts

    method PurgePeer(requests: seq<RequestTracker>, now: int) returns (kept: seq<RequestTracker>)
      requires Laid(progress.View()) && TrackersInRange(requests, progress.pieces)
      modifies progress`pieces, progress`completed
      ensures kept == Kept(requests, now)
      ensures progress.View() == WithBlocks(old(progress.View()), ExpiredIn(requests, now), Empty)
    {
      hide WithBlocks, ExpiredIn, Laid, AfterBlockStatus;
      kept := [];
      ghost var before := progress.View();
      WithNoBlocks(before, Empty);
      ExpiredNone(now);
      assert requests[..0] == [];
      for k := 0 to |requests|
        invariant kept == Kept(requests[..k], now)
        invariant progress.View() == WithBlocks(before, ExpiredIn(requests[..k], now), Empty)
      {
        assert requests[..k + 1][..k] == requests[..k];
        ghost var soFar := ExpiredIn(requests[..k], now);
        ExpiredStep(requests, k, now);
        var it := requests[k];
        if it.received {
        } else if Millis(now - it.requestTime) > REQUEST_TIMEOUT_MS {
          RepaintKeepsShape(before, soFar, Empty);
          WithOneBlock(progress.View(), it.pieceIndex, it.blockIndex, Empty);
          WithBlocksTwice(before, soFar, {(it.pieceIndex, it.blockIndex)}, Empty);
          var _ := progress.UpdateBlockStatus(it.pieceIndex, it.blockIndex, Empty);
        } else {
          kept := kept + [it];
        }
      }
      assert requests[..|requests|] == requests;
    }

    static lemma ExpiredNone(now: int)
      ensures ExpiredIn([], now) == {}
    {
    }

    static lemma ExpiredStep(requests: seq<RequestTracker>, k: nat, now: int)
      requires k < |requests|
      ensures !TimedOut(requests[k], now) ==> ExpiredIn(requests[..k + 1], now) == ExpiredIn(requests[..k], now)
      ensures TimedOut(requests[k], now) ==>
                ExpiredIn(requests[..k + 1], now) == ExpiredIn(requests[..k], now) + {BlockOfTracker(requests[k])}
    {
      var all, before := ExpiredIn(requests[..k + 1], now), ExpiredIn(requests[..k], now);
      forall b | b in all
        ensures b in before || (TimedOut(requests[k], now) && b == BlockOfTracker(requests[k]))
      {
        var l :| 0 <= l < k + 1 && TimedOut(requests[..k + 1][l], now) && b == BlockOfTracker(requests[..k + 1][l]);
        if l < k {
          assert requests[..k][l] == requests[l];
        }
      }
      forall b | b in before
        ensures b in all
      {
        var l :| 0 <= l < k && TimedOut(requests[..k][l], now) && b == BlockOfTracker(requests[..k][l]);
        assert requests[..k + 1][l] == requests[l];
      }
      if TimedOut(requests[k], now) {
        assert requests[..k + 1][k] == requests[k];
      }
    }

    static lemma ExpiredAtNobody(active: map<PeerId, seq<RequestTracker>>, now: int)
      ensures ExpiredAt(active, {}, now) == {}
    {
    }

    static lemma ExpiredAtOneMore(active: map<PeerId, seq<RequestTracker>>, peers: set<PeerId>, p: PeerId, now: int)
      requires p in active
      ensures ExpiredAt(active, peers + {p}, now) == ExpiredAt(active, peers, now) + ExpiredIn(active[p], now)
    {
    }

    method HandleTimeouts(now: int)
      requires Valid()
      modifies this`activeRequests, progress`pieces, progress`completed
      ensures Valid()
      ensures var t := AfterTimeouts(old(progress.View()), old(View()), now);
              progress.View() == t.prog && activeRequests == t.active
    {
      hide WithBlocks, ExpiredIn, ExpiredAt;
      var peers := activeRequests.Keys;
      ghost var before, requests := progress.View(), activeRequests;
      ghost var handled: set<PeerId> := {};
      WithNoBlocks(before, Empty);
      ExpiredAtNobody(requests, now);
      while peers != {}
        invariant activeRequests.Keys == requests.Keys == peers + handled && peers !! handled
        invariant progress.View() == WithBlocks(before, ExpiredAt(requests, handled, now), Empty)
        invariant forall p | p in peers :: activeRequests[p] == requests[p]
        invariant forall p | p in handled :: activeRequests[p] == Kept(requests[p], now)
        decreases peers
      {
        var p :| p in peers;
        RepaintKeepsShape(before, ExpiredAt(requests, handled, now), Empty);
        assert TrackersInRange(requests[p], progress.pieces);
        var kept := PurgePeer(activeRequests[p], now);
        activeRequests := activeRequests[p := kept];
        WithBlocksTwice(before, ExpiredAt(requests, handled, now), ExpiredIn(requests[p], now), Empty);
        ExpiredAtOneMore(requests, handled, p, now);
        peers, handled := peers - {p}, handled + {p};
      }
      assert activeRequests == Purged(requests, now);
      RepaintKeepsShape(before, ExpiredAt(requests, requests.Keys, now), Empty);
      forall p | p in activeRequests
        ensures TrackersInRange(activeRequests[p], progress.pieces)
      {
        KeptInRange(requests[p], now, progress.pieces);
      }
    }

    static lemma {:induction false} KeptInRange(requests: seq<RequestTracker>, now: int, pieces: seq<PieceProgress>)
      requires TrackersInRange(requests, pieces)
      ensures TrackersInRange(Kept(requests, now), pieces)
    {
      if |requests| > 0 {
        KeptInRange(requests[..|requests| - 1], now, pieces);
      }
    }

    // ----- filling one peer's window

    /** Asks for the Empty blocks of one copied piece until the slots are used up. */
    method RequestBlocks(peer: PeerId, now: int, copy: PieceProgress, i: nat, slots: nat)
      returns (copy': PieceProgress, picked: seq<BlockId>)
      requires Laid(progress.View()) && peer in activeRequests
      requires i < |progress.pieces| && PieceLength(progress.fileSize, i) > 0
      requires WellCut(copy, PieceStart(progress.fileSize, i), PieceLength(progress.fileSize, i))
      modifies this`activeRequests, progress`pieces, progress`completed
      ensures picked == Take(EmptyBlocks(copy, i), slots)
      ensures copy' == RepaintPiece(copy, i, ToSet(picked), Downloading)
      ensures progress.View() == WithBlocks(old(progress.View()), ToSet(picked), Downloading)
      ensures activeRequests == Appended(old(activeRequests), peer, picked, now) && peer in activeRequests
    {
      hide WithBlocks, AfterBlockStatus, RepaintPiece, PieceWithBlockStatus, ToSet;
      ghost var before, all := progress.View(), EmptyBlocks(copy, i);
      EmptyBlocksMembers(copy, i, PieceStart(progress.fileSize, i), PieceLength(progress.fileSize, i));
      assert WellCut(before.pieces[i], PieceStart(progress.fileSize, i), PieceLength(progress.fileSize, i));
      var missing := GetBlocksStatused(copy, Empty);
      picked := [];
      copy' := copy;
      WithNoBlocks(before, Downloading);
      ToSetEmpty();
      RepaintElsewhere(copy, i, {}, Downloading);
      AppendedNothing(activeRequests, peer, now);
      while |picked| < |missing| && |picked| < slots
        invariant |picked| <= |missing| && |picked| <= slots
        invariant picked == all[..|picked|]
        invariant copy' == RepaintPiece(copy, i, ToSet(picked), Downloading)
        invariant progress.View() == WithBlocks(before, ToSet(picked), Downloading)
        invariant peer in activeRequests && |copy'.blocks| == |copy.blocks|
        invariant activeRequests == Appended(old(activeRequests), peer, picked, now)
      {
        var b := missing[|picked|].offset / BLOCK_SIZE;
        assert all[|picked|] == (i, b) && (i, b) in all;
        OneMore(before, copy, i, b, picked, now);
        RepaintKeepsShape(before, ToSet(picked), Downloading);
        AppendedTwice(old(activeRequests), peer, picked, [(i, b)], now);
        copy' := PieceWithBlockStatus(copy', b, Downloading);
        var _ := progress.UpdateBlockStatus(i, b, Downloading);
        activeRequests := activeRequests[peer := activeRequests[peer] + [RequestTracker(now, i, b, false)]];
        picked := picked + [(i, b)];
      }
    }

    static lemma OneMore(p: Progress, copy: PieceProgress, i: nat, b: nat, picked: seq<BlockId>, now: int)
      requires i < |p.pieces| && b < |copy.blocks| == |p.pieces[i].blocks|
      ensures |RepaintPiece(copy, i, ToSet(picked + [(i, b)]), Downloading).blocks| == |copy.blocks|
      ensures PieceWithBlockStatus(RepaintPiece(copy, i, ToSet(picked), Downloading), b, Downloading)
              == RepaintPiece(copy, i, ToSet(picked + [(i, b)]), Downloading)
      ensures AfterBlockStatus(WithBlocks(p, ToSet(picked), Downloading), i, b, Downloading)
              == WithBlocks(p, ToSet(picked + [(i, b)]), Downloading)
      ensures Track([(i, b)], now) == [RequestTracker(now, i, b, false)]
    {
      var s := ToSet(picked);
      assert ToSet(picked + [(i, b)]) == s + {(i, b)};
      RepaintPieceOne(copy, i, s, b);
      WithOneBlock(WithBlocks(p, s, Downloading), i, b, Downloading);
      WithBlocksTwice(p, s, {(i, b)}, Downloading);
    }

    /** Skips a piece the peer does not have. */
    method FillPiece(peer: PeerId, now: int, copy: PieceProgress, slots: nat, ghost source: Progress, ghost i: nat)
      returns (copy': PieceProgress, picked: seq<BlockId>)
      requires Valid() && peer in activeRequests && peer in peersBitfields
      requires Laid(source) && source.fileSize == progress.fileSize && i < |source.pieces| && copy == source.pieces[i]
      modifies this`activeRequests, progress`pieces, progress`completed
      ensures Valid() && peer in activeRequests
      ensures picked == Take(if HasBit(peersBitfields[peer], i) then EmptyBlocks(copy, i) else [], slots)
      ensures copy' == RepaintPiece(copy, i, ToSet(picked), Downloading)
      ensures progress.View() == WithBlocks(old(progress.View()), ToSet(picked), Downloading)
      ensures activeRequests == Appended(old(activeRequests), peer, picked, now)
      ensures forall b | b in picked :: b.0 == i
    {
      IndexOfCopy(source, i);
      SamePlaces(source, progress.View(), i);
      var index := progress.GetPieceIndex(copy.offset);
      if HasPiece(peer, index) {
        ghost var c, p := View(), progress.View();
        copy', picked := RequestBlocks(peer, now, copy, index, slots);
        PickedInRange(source, i, copy, picked, slots);
        OkAfterAsking(c, p, peer, picked, now);
      } else {
        copy', picked := copy, [];
        ToSetEmpty();
        RepaintElsewhere(copy, i, {}, Downloading);
        WithNoBlocks(progress.View(), Downloading);
        AppendedNothing(activeRequests, peer, now);
      }
    }

    /** The state after the first k copies of a pass that started from `before` and `base`. */
    static ghost predicate Filled(before: Progress, base: map<PeerId, seq<RequestTracker>>, prog: Progress,
                                  active: map<PeerId, seq<RequestTracker>>, source: Progress, order: seq<nat>,
                                  field: Bitfield, peer: PeerId, now: int, slots: nat,
                                  copies': seq<PieceProgress>, picks: seq<BlockId>, k: nat)
    {
      && OrderIn(order, source.pieces) && k <= |order|
      && picks == Take(Candidates(source.pieces, order[..k], field), slots)
      && Within(picks, order[..k])
      && prog == WithBlocks(before, ToSet(picks), Downloading)
      && active == Appended(base, peer, picks, now)
      && copies' == RepaintCopies(Select(source.pieces, order), order, ToSet(picks))
    }

    static lemma FilledNothing(before: Progress, base: map<PeerId, seq<RequestTracker>>, source: Progress,
                               order: seq<nat>, field: Bitfield, peer: PeerId, now: int, slots: nat)
      requires OrderIn(order, source.pieces) && peer in base
      ensures Filled(before, base, before, base, source, order, field, peer, now, slots,
                     Select(source.pieces, order), [], 0)
    {
      WithNoBlocks(before, Downloading);
      ToSetEmpty();
      AppendedNothing(base, peer, now);
      CopiesUntouched(Select(source.pieces, order), order);
    }

    static lemma FilledStep(before: Progress, base: map<PeerId, seq<RequestTracker>>, prog: Progress,
                            active: map<PeerId, seq<RequestTracker>>, source: Progress, order: seq<nat>,
                            field: Bitfield, peer: PeerId, now: int, slots: nat,
                            copies': seq<PieceProgress>, picks: seq<BlockId>, k: nat, picked: seq<BlockId>)
      requires k < |order| && Distinct(order)
      requires Filled(before, base, prog, active, source, order, field, peer, now, slots, copies', picks, k)
      requires picked == Take(if HasBit(field, order[k]) then EmptyBlocks(source.pieces[order[k]], order[k]) else [],
                              slots - |picks|)
      requires forall b | b in picked :: b.0 == order[k]
      ensures k < |copies'|
      ensures Filled(before, base, WithBlocks(prog, ToSet(picked), Downloading), Appended(active, peer, picked, now),
                     source, order, field, peer, now, slots,
                     copies'[k := RepaintPiece(copies'[k], order[k], ToSet(picked), Downloading)],
                     picks + picked, k + 1)
    {
      var copies := Select(source.pieces, order);
      hide WithBlocks, Appended, RepaintPiece, Candidates, EmptyBlocks, ToSet;
      PicksStep(source.pieces, order, field, k, picks, picked, slots);
      AppendedTwice(base, peer, picks, picked, now);
      WithBlocksTwice(before, ToSet(picks), ToSet(picked), Downloading);
      CopiesStep(copies, copies', order, k, picks, picked);
    }

    /** A pass that stops because its slots are used up has missed nothing. */
    static lemma FilledAll(before: Progress, base: map<PeerId, seq<RequestTracker>>, prog: Progress,
                           active: map<PeerId, seq<RequestTracker>>, source: Progress, order: seq<nat>,
                           field: Bitfield, peer: PeerId, now: int, slots: nat,
                           copies': seq<PieceProgress>, picks: seq<BlockId>, k: nat)
      requires Filled(before, base, prog, active, source, order, field, peer, now, slots, copies', picks, k)
      requires k == |order| || |picks| == slots
      ensures Filled(before, base, prog, active, source, order, field, peer, now, slots, copies', picks, |order|)
    {
      hide WithBlocks, Appended, RepaintPiece, Candidates, EmptyBlocks, ToSet;
      TakeFull(source.pieces, order, field, k, slots);
      assert order[..|order|] == order;
    }

    /** The body of the pass for copy number k. */
    method FillNext(peer: PeerId, now: int, copies: seq<PieceProgress>, sofar: seq<BlockId>, k: nat, slots: nat,
                    ghost before: Progress, ghost base: map<PeerId, seq<RequestTracker>>,
                    ghost source: Progress, ghost order: seq<nat>)
      returns (copies': seq<PieceProgress>, picks: seq<BlockId>)
      requires Valid() && peer in activeRequests && peer in peersBitfields
      requires Laid(source) && source.fileSize == progress.fileSize
      requires Distinct(order) && OrderIn(order, source.pieces) && k < |order| && |sofar| <= slots
      requires Filled(before, base, progress.View(), activeRequests, source, order, peersBitfields[peer], peer, now,
                      slots, copies, sofar, k)
      modifies this`activeRequests, progress`pieces, progress`completed
      ensures Valid() && peer in activeRequests
      ensures |picks| <= slots
      ensures Filled(before, base, progress.View(), activeRequests, source, order, peersBitfields[peer], peer, now,
                     slots, copies', picks, k + 1)
    {
      ghost var prog, active, field := progress.View(), activeRequests, peersBitfields[peer];
      FilledCopy(before, base, prog, active, source, order, field, peer, now, slots, copies, sofar, k);
      hide Filled, ChooserOk, Laid, WithBlocks, Appended, RepaintPiece, EmptyBlocks, ToSet, HasBit, Distinct;
      var copy', picked := FillPiece(peer, now, copies[k], slots - |sofar|, source, order[k]);
      FilledStep(before, base, prog, active, source, order, field, peer, now, slots, copies, sofar, k, picked);
      copies' := copies[k := copy'];
      picks := sofar + picked;
      assert progress.View() == WithBlocks(prog, ToSet(picked), Downloading);
    }

    /** One pass over copied pieces, in order, until the slots are used up. */
    method FillFrom(peer: PeerId, now: int, copies: seq<PieceProgress>, slots: nat,
                    ghost source: Progress, ghost order: seq<nat>)
      returns (copies': seq<PieceProgress>, picks: seq<BlockId>)
      requires Valid() && peer in activeRequests && peer in peersBitfields
      requires Laid(source) && source.fileSize == progress.fileSize
      requires Distinct(order) && OrderIn(order, source.pieces) && copies == Select(source.pieces, order)
      modifies this`activeRequests, progress`pieces, progress`completed
      ensures Valid() && peer in activeRequests
      ensures Filled(old(progress.View()), old(activeRequests), progress.View(), activeRequests, source, order,
                     peersBitfields[peer], peer, now, slots, copies', picks, |order|)
    {
      ghost var before, base, field := progress.View(), activeRequests, peersBitfields[peer];
      FilledNothing(before, base, source, order, field, peer, now, slots);
      assert |copies| == |order|;
      hide *;
      picks, copies' := [], copies;
      var k := 0;
      while k < |copies| && |picks| < slots
        invariant k <= |copies| && |picks| <= slots
        invariant Valid() && peer in activeRequests
        invariant Filled(before, base, progress.View(), activeRequests, source, order, field, peer, now, slots,
                         copies', picks, k)
      {
        copies', picks := FillNext(peer, now, copies', picks, k, slots, before, base, source, order);
        k := k + 1;
      }
      FilledAll(before, base, progress.View(), activeRequests, source, order, field, peer, now, slots,
                copies', picks, k);
    }

    static lemma FilledCopy(before: Progress, base: map<PeerId, seq<RequestTracker>>, prog: Progress,
                            active: map<PeerId, seq<RequestTracker>>, source: Progress, order: seq<nat>,
                            field: Bitfield, peer: PeerId, now: int, slots: nat,
                            copies': seq<PieceProgress>, picks: seq<BlockId>, k: nat)
      requires k < |order| && Distinct(order)
      requires Filled(before, base, prog, active, source, order, field, peer, now, slots, copies', picks, k)
      ensures |copies'| == |order| && copies'[k] == source.pieces[order[k]]
    {
      CopyUntouched(Select(source.pieces, order), copies', order, k, picks);
    }

    /** Fills the free slots of one peer: started pieces first, then empty ones. */
    method FillSlots(peer: PeerId, now: int, downloading: seq<PieceProgress>, emptyPieces: seq<PieceProgress>,
                     slots: nat, ghost t: Turn, ghost snapshot: Progress, ghost down: seq<nat>, ghost empty: seq<nat>)
      returns (downloading': seq<PieceProgress>, picks: seq<BlockId>)
      requires Valid() && peer in activeRequests && peer in peersBitfields
      requires Laid(snapshot) && snapshot.fileSize == progress.fileSize
      requires IsOrder(down, snapshot.pieces, Downloading) && IsOrder(empty, snapshot.pieces, Empty)
      requires |snapshot.pieces| == |progress.pieces|
      requires downloading == Select(progress.pieces, down) && emptyPieces == Select(snapshot.pieces, empty)
      requires t.prog == progress.View()
      requires activeRequests == if peer in t.active then t.active else t.active[peer := []]
      modifies this`activeRequests, progress`pieces, progress`completed
      ensures Valid()
      ensures |progress.pieces| == |snapshot.pieces|
      ensures picks == Picks(t, snapshot.pieces, peersBitfields[peer], down, empty, slots)
      ensures progress.View() == WithBlocks(t.prog, ToSet(picks), Downloading)
      ensures activeRequests == Appended(t.active, peer, picks, now)
      ensures downloading' == Select(progress.pieces, down)
    {
      ghost var base, field := activeRequests, peersBitfields[peer];
      downloading', picks := FillFrom(peer, now, downloading, slots, t.prog, down);
      ghost var first, middle, asked := picks, progress.View(), activeRequests;
      FilledLength(t.prog, base, middle, asked, t.prog, down, field, peer, now, slots, downloading', first, |down|);
      hide Filled, ChooserOk, Laid;
      var copies', more := FillFrom(peer, now, emptyPieces, slots - |picks|, snapshot, empty);
      picks := picks + more;
      BothPasses(t, base, middle, asked, progress.View(), activeRequests, snapshot, field, down, empty, peer, now,
                 slots, first, more, downloading', copies');
    }

    static lemma FilledLength(before: Progress, base: map<PeerId, seq<RequestTracker>>, prog: Progress,
                              active: map<PeerId, seq<RequestTracker>>, source: Progress, order: seq<nat>,
                              field: Bitfield, peer: PeerId, now: int, slots: nat,
                              copies': seq<PieceProgress>, picks: seq<BlockId>, k: nat)
      requires Filled(before, base, prog, active, source, order, field, peer, now, slots, copies', picks, k)
      ensures |picks| <= slots && |prog.pieces| == |before.pieces|
    {
    }

    /** getPeerWindow, the first use of a peer's request list, and the free part of the window. */
    method OpenWindow(peer: PeerId) returns (available: nat)
      requires Valid()
      modifies this`activeRequests, this`peerWindows
      ensures Valid() && peer in activeRequests
      ensures activeRequests == if peer in old(activeRequests) then old(activeRequests) else old(activeRequests)[peer := []]
      ensures peerWindows == old(peerWindows)[peer := WindowOf(old(peerWindows), peer)]
      ensures available == Slots(Turn(progress.View(), old(activeRequests), old(peerWindows), []), peer)
    {
      if peer !in peerWindows {
        peerWindows := peerWindows[peer := INITIAL_WINDOW];
      }
      var currentWindow := peerWindows[peer];
      if peer !in activeRequests {
        activeRequests := activeRequests[peer := []];
      }
      available := (currentWindow - |activeRequests[peer]|) % 0x1_0000;
    }

    /** One peer's turn; a peer without a bitfield has its window opened before anything is thrown. */
    method FillPeer(peer: PeerId, now: int, downloading: seq<PieceProgress>, emptyPieces: seq<PieceProgress>,
                    ghost snapshot: Progress, ghost down: seq<nat>, ghost empty: seq<nat>)
      returns (downloading': seq<PieceProgress>, picks: seq<BlockId>, thrown: bool)
      requires Valid()
      requires Laid(snapshot) && snapshot.fileSize == progress.fileSize
      requires IsOrder(down, snapshot.pieces, Downloading) && IsOrder(empty, snapshot.pieces, Empty)
      requires |snapshot.pieces| == |progress.pieces|
      requires downloading == Select(progress.pieces, down) && emptyPieces == Select(snapshot.pieces, empty)
      modifies this`activeRequests, this`peerWindows, progress`pieces, progress`completed
      ensures Valid() && |progress.pieces| == |snapshot.pieces| && OrderIn(down, progress.pieces)
      ensures |picks| < 0x1_0000
      ensures var t := Turn(old(progress.View()), old(activeRequests), old(peerWindows), []);
              && picks == Picks(t, snapshot.pieces, FieldOf(peersBitfields, peer), down, empty, Slots(t, peer))
              && thrown == Throws(t, peersBitfields, down, empty, peer)
              && progress.View() == WithBlocks(t.prog, ToSet(picks), Downloading)
              && activeRequests == Appended(t.active, peer, picks, now)
              && peerWindows == t.windows[peer := WindowOf(t.windows, peer)]
      ensures downloading' == Select(progress.pieces, down)
    {
      ghost var t := Turn(progress.View(), activeRequests, peerWindows, []);
      downloading', thrown := downloading, false;
      var available := OpenWindow(peer);
      NothingAsked(t, activeRequests, snapshot.pieces, FieldOf(peersBitfields, peer), down, empty, peer, now);
      PicksLength(t, snapshot.pieces, FieldOf(peersBitfields, peer), down, empty, peer);
      NothingToOffer(t, snapshot.pieces, down, empty, available);
      assert (|downloading| > 0 || |emptyPieces| > 0) == (down != [] || empty != []);
      hide Picks, Appended, WithBlocks, ToSet, ChooserOk, Laid, IsOrder, Select, Slots, WindowOf;
      if available == 0 {
        picks := [];
      } else if peer !in peersBitfields {
        picks := [];
        thrown := |downloading| > 0 || |emptyPieces| > 0;
      } else {
        downloading', picks := FillSlots(peer, now, downloading, emptyPieces, available, t, snapshot, down, empty);
      }
    }

    static lemma {:induction false} NoFieldNoCandidates(pieces: seq<PieceProgress>, order: seq<nat>)
      requires OrderIn(order, pieces)
      ensures Candidates(pieces, order, []) == []
    {
      if |order| > 0 {
        NoFieldNoCandidates(pieces, order[..|order| - 1]);
      }
    }

    static lemma NothingToOffer(t: Turn, snapshot: seq<PieceProgress>, down: seq<nat>, empty: seq<nat>, slots: nat)
      requires OrderIn(down, t.prog.pieces) && OrderIn(empty, snapshot)
      ensures Picks(t, snapshot, [], down, empty, slots) == []
    {
      NoFieldNoCandidates(t.prog.pieces, down);
      NoFieldNoCandidates(snapshot, empty);
    }

    static lemma PicksLength(t: Turn, snapshot: seq<PieceProgress>, field: Bitfield, down: seq<nat>, empty: seq<nat>,
                             peer: PeerId)
      requires OrderIn(down, t.prog.pieces) && OrderIn(empty, snapshot)
      ensures |Picks(t, snapshot, field, down, empty, Slots(t, peer))| < 0x1_0000
    {
    }

    static lemma NothingAsked(t: Turn, base: map<PeerId, seq<RequestTracker>>, snapshot: seq<PieceProgress>,
                              field: Bitfield, down: seq<nat>, empty: seq<nat>, peer: PeerId, now: int)
      requires OrderIn(down, t.prog.pieces) && OrderIn(empty, snapshot)
      requires base == if peer in t.active then t.active else t.active[peer := []]
      ensures Picks(t, snapshot, field, down, empty, 0) == []
      ensures WithBlocks(t.prog, ToSet([]), Downloading) == t.prog
      ensures Appended(t.active, peer, [], now) == base
    {
      ToSetEmpty();
      WithNoBlocks(t.prog, Downloading);
      AppendedNothing(base, peer, now);
    }

    static lemma BothPasses(t: Turn, base: map<PeerId, seq<RequestTracker>>,
                            middle: Progress, asked: map<PeerId, seq<RequestTracker>>,
                            prog: Progress, active: map<PeerId, seq<RequestTracker>>,
                            snapshot: Progress, field: Bitfield, down: seq<nat>, empty: seq<nat>,
                            peer: PeerId, now: int, slots: nat,
                            first: seq<BlockId>, rest: seq<BlockId>,
                            downloading: seq<PieceProgress>, copies: seq<PieceProgress>)
      requires IsOrder(down, snapshot.pieces, Downloading) && IsOrder(empty, snapshot.pieces, Empty)
      requires |t.prog.pieces| == |snapshot.pieces| && |first| <= slots
      requires base == if peer in t.active then t.active else t.active[peer := []]
      requires Filled(t.prog, base, middle, asked, t.prog, down, field, peer, now, slots, downloading, first, |down|)
      requires Filled(middle, asked, prog, active, snapshot, empty, field, peer, now, slots - |first|, copies, rest,
                      |empty|)
      ensures first + rest == Picks(t, snapshot.pieces, field, down, empty, slots)
      ensures prog == WithBlocks(t.prog, ToSet(first + rest), Downloading)
      ensures active == Appended(t.active, peer, first + rest, now)
      ensures downloading == Select(prog.pieces, down)
    {
      assert down[..|down|] == down && empty[..|empty|] == empty;
      hide IsOrder, Candidates, Take, ToSet, WithBlocks, Appended, RepaintPiece;
      TakeConcat(Candidates(t.prog.pieces, down, field), Candidates(snapshot.pieces, empty, field), slots);
      ToSetConcat(first, rest);
      WithBlocksTwice(t.prog, ToSet(first), ToSet(rest), Downloading);
      AppendedTwice(base, peer, first, rest, now);
      AppendedToNew(t.active, base, peer, first + rest, now);
      SecondPassLeavesCopies(t.prog, snapshot, middle, prog, down, empty, first, rest, downloading);
    }

    static lemma SecondPassLeavesCopies(source: Progress, snapshot: Progress, middle: Progress, prog: Progress,
                                        down: seq<nat>, empty: seq<nat>, first: seq<BlockId>, rest: seq<BlockId>,
                                        downloading: seq<PieceProgress>)
      requires IsOrder(down, snapshot.pieces, Downloading) && IsOrder(empty, snapshot.pieces, Empty)
      requires |source.pieces| == |snapshot.pieces| && Within(rest, empty)
      requires downloading == RepaintCopies(Select(source.pieces, down), down, ToSet(first))
      requires middle == WithBlocks(source, ToSet(first), Downloading)
      requires prog == WithBlocks(middle, ToSet(rest), Downloading)
      ensures |prog.pieces| == |snapshot.pieces|
      ensures downloading == Select(prog.pieces, down)
    {
      hide RepaintPiece;
      forall k | 0 <= k < |down|
        ensures downloading[k] == prog.pieces[down[k]]
      {
        assert down[k] !in empty by {
          assert snapshot.pieces[down[k]].status == Downloading;
        }
        RepaintElsewhere(middle.pieces[down[k]], down[k], ToSet(rest), Downloading);
      }
    }

    static lemma AppendedToNew(active: map<PeerId, seq<RequestTracker>>, base: map<PeerId, seq<RequestTracker>>,
                               peer: PeerId, picks: seq<BlockId>, now: int)
      requires base == if peer in active then active else active[peer := []]
      ensures Appended(base, peer, picks, now) == Appended(active, peer, picks, now)
    {
    }

    static function RepaintCopies(copies: seq<PieceProgress>, order: seq<nat>, blocks: set<BlockId>): seq<PieceProgress>
      requires |copies| == |order|
    {
      seq(|copies|, l requires 0 <= l < |copies| => RepaintPiece(copies[l], order[l], blocks, Downloading))
    }

    static predicate Within(picks: seq<BlockId>, order: seq<nat>) {
      forall b | b in picks :: b.0 in order
    }

    static lemma CopiesUntouched(copies: seq<PieceProgress>, order: seq<nat>)
      requires |copies| == |order|
      ensures copies == RepaintCopies(copies, order, ToSet([]))
      ensures Within([], order[..0])
    {
      forall l | 0 <= l < |copies|
        ensures copies[l] == RepaintPiece(copies[l], order[l], ToSet([]), Downloading)
      {
        RepaintElsewhere(copies[l], order[l], ToSet([]), Downloading);
      }
    }

    static lemma CopyUntouched(copies: seq<PieceProgress>, copies': seq<PieceProgress>, order: seq<nat>, k: nat,
                               picks: seq<BlockId>)
      requires k < |order| == |copies| && Distinct(order) && Within(picks, order[..k])
      requires copies' == RepaintCopies(copies, order, ToSet(picks))
      ensures |copies'| == |copies| && copies'[k] == copies[k]
    {
      assert order[k] !in order[..k];
      RepaintElsewhere(copies[k], order[k], ToSet(picks), Downloading);
    }

    static lemma CopiesStep(copies: seq<PieceProgress>, copies': seq<PieceProgress>, order: seq<nat>, k: nat,
                            picks: seq<BlockId>, picked: seq<BlockId>)
      requires k < |copies| == |order| && Distinct(order)
      requires copies' == RepaintCopies(copies, order, ToSet(picks))
      requires forall b | b in picked :: b.0 == order[k]
      ensures |copies'| == |copies|
      ensures RepaintCopies(copies, order, ToSet(picks + picked))
              == copies'[k := RepaintPiece(copies'[k], order[k], ToSet(picked), Downloading)]
    {
      ToSetConcat(picks, picked);
      forall l | 0 <= l < |copies|
        ensures RepaintPiece(copies[l], order[l], ToSet(picks + picked), Downloading)
                == if l == k then RepaintPiece(copies'[k], order[k], ToSet(picked), Downloading) else copies'[l]
      {
        RepaintPieceTwice(copies[l], order[l], ToSet(picks), ToSet(picked), Downloading);
        if l != k {
          RepaintElsewhere(copies'[l], order[l], ToSet(picked), Downloading);
        }
      }
    }

    static lemma PicksStep(pieces: seq<PieceProgress>, order: seq<nat>, field: Bitfield, k: nat,
                           picks: seq<BlockId>, picked: seq<BlockId>, slots: nat)
      requires OrderIn(order, pieces) && k < |order|
      requires picks == Take(Candidates(pieces, order[..k], field), slots)
      requires picked == Take(if HasBit(field, order[k]) then EmptyBlocks(pieces[order[k]], order[k]) else [],
                              slots - |picks|)
      requires Within(picks, order[..k])
      requires forall b | b in picked :: b.0 == order[k]
      ensures |picks + picked| <= slots
      ensures picks + picked == Take(Candidates(pieces, order[..k + 1], field), slots)
      ensures Within(picks + picked, order[..k + 1])
      ensures ToSet(picks + picked) == ToSet(picks) + ToSet(picked)
    {
      CandidatesPrefix(pieces, order, field, k);
      TakeConcat(Candidates(pieces, order[..k], field),
                 if HasBit(field, order[k]) then EmptyBlocks(pieces[order[k]], order[k]) else [], slots);
      ToSetConcat(picks, picked);
      assert order[..k + 1] == order[..k] + [order[k]];
    }

    /** Two snapshots of one download have the same pieces in the same places. */
    static lemma SamePlaces(p: Progress, q: Progress, i: nat)
      requires Laid(p) && Laid(q) && p.fileSize == q.fileSize && i < |p.pieces|
      ensures |p.pieces| == |q.pieces| && |p.pieces[i].blocks| == |q.pieces[i].blocks|
      ensures PieceLength(p.fileSize, i) > 0
      ensures WellCut(p.pieces[i], PieceStart(p.fileSize, i), PieceLength(p.fileSize, i))
      ensures WellCut(q.pieces[i], PieceStart(p.fileSize, i), PieceLength(p.fileSize, i))
    {
    }

    static lemma PickedInRange(source: Progress, i: nat, copy: PieceProgress, picked: seq<BlockId>, n: nat)
      requires Laid(source) && i < |source.pieces| && copy == source.pieces[i]
      requires picked == Take(EmptyBlocks(copy, i), n)
      ensures forall b | b in picked :: b.0 == i && b.1 < |copy.blocks|
    {
      EmptyBlocksMembers(copy, i, PieceStart(source.fileSize, i), PieceLength(source.fileSize, i));
      assert forall b | b in picked :: b in EmptyBlocks(copy, i);
    }

    /** Once the slots are used up the remaining pieces add nothing. */
    static lemma {:induction false} TakeFull(pieces: seq<PieceProgress>, order: seq<nat>, field: Bitfield, k: nat, n: nat)
      requires OrderIn(order, pieces) && k <= |order|
      requires k == |order| || |Take(Candidates(pieces, order[..k], field), n)| == n
      ensures Take(Candidates(pieces, order, field), n) == Take(Candidates(pieces, order[..k], field), n)
      decreases |order| - k
    {
      if k == |order| {
        assert order[..k] == order;
      } else {
        CandidatesPrefix(pieces, order, field, k);
        TakeFull(pieces, order, field, k + 1, n);
      }
    }

    // ----- choosing blocks

    function BytesKey(p: PieceProgress): Key {
      (0 - p.bytesDownloaded, 0)
    }

    /** Copies of the started pieces, those with most bytes first. */
    method StartedPieces() returns (copies: seq<PieceProgress>, ghost down: seq<nat>)
      requires Valid()
      ensures IsOrder(down, progress.pieces, Downloading) && copies == Select(progress.pieces, down)
      ensures forall k, l | 0 <= k < l < |down| ::
                progress.pieces[down[k]].bytesDownloaded >= progress.pieces[down[l]].bytesDownloaded
    {
      var started := progress.GetPiecesStatused(Downloading);
      copies := SortBy(started, p => BytesKey(p));
      OrderOfCopies(progress.View(), Downloading, copies);
      down := Order(progress.fileSize, copies);
      forall k, l | 0 <= k < l < |down|
        ensures progress.pieces[down[k]].bytesDownloaded >= progress.pieces[down[l]].bytesDownloaded
      {
        assert LessOrEqual(BytesKey(copies[k]), BytesKey(copies[l]));
      }
    }

    /** Pairs each copy with its rarity and a random number. */
    method Decorate(emptyPieces: seq<PieceProgress>) returns (decorated: seq<(Key, PieceProgress)>)
      requires forall k | 0 <= k < |emptyPieces| :: IndexOf(progress.fileSize, emptyPieces[k]) < |rarity|
      ensures Undecorated(decorated) == emptyPieces
      ensures forall d | d in decorated ::
                var i := IndexOf(progress.fileSize, d.1); i < |rarity| && d.0.0 + rarity[i] == 0
    {
      decorated := [];
      for i := 0 to |emptyPieces|
        invariant Undecorated(decorated) == emptyPieces[..i]
        invariant forall d | d in decorated ::
                    var i := IndexOf(progress.fileSize, d.1); i < |rarity| && d.0.0 + rarity[i] == 0
      {
        var random: int := *;
        var held: int := rarity[IndexOf(progress.fileSize, emptyPieces[i])];
        var key: Key := (0 - held, random);
        assert Undecorated(decorated + [(key, emptyPieces[i])]) == Undecorated(decorated) + [emptyPieces[i]];
        decorated := decorated + [(key, emptyPieces[i])];
      }
    }

    /** Copies of the empty pieces, those with the highest counters first, ties broken at random. */
    method EmptyPieces() returns (copies: seq<PieceProgress>, ghost empty: seq<nat>)
      requires Valid()
      ensures IsOrder(empty, progress.pieces, Empty) && copies == Select(progress.pieces, empty)
      ensures forall k, l | 0 <= k < l < |empty| :: rarity[empty[k]] >= rarity[empty[l]]
    {
      var emptyPieces := progress.GetPiecesStatused(Empty);
      var n := |progress.pieces|;
      assert progress.pieces[..n] == progress.pieces;
      StatusedMembers(progress.View(), Empty, n);
      forall k | 0 <= k < |emptyPieces|
        ensures IndexOf(progress.fileSize, emptyPieces[k]) < |rarity|
      {
        assert emptyPieces[k] in emptyPieces;
      }
      var decorated := Decorate(emptyPieces);
      var sorted := SortBy(decorated, (d: (Key, PieceProgress)) => d.0);
      copies := Undecorated(sorted);
      UndecoratedPermutation(sorted, decorated);
      OrderOfCopies(progress.View(), Empty, copies);
      empty := Order(progress.fileSize, copies);
      SortedByRarity(sorted, decorated, progress.fileSize, rarity);
    }

    static lemma SortedByRarity(sorted: seq<(Key, PieceProgress)>, decorated: seq<(Key, PieceProgress)>,
                                fileSize: nat, rarity: seq<nat>)
      requires multiset(sorted) == multiset(decorated)
      requires SortedBy(sorted, (d: (Key, PieceProgress)) => d.0)
      requires forall d | d in decorated ::
                 var i := IndexOf(fileSize, d.1); i < |rarity| && d.0.0 + rarity[i] == 0
      ensures var order := Order(fileSize, Undecorated(sorted));
              && (forall k | 0 <= k < |order| :: order[k] < |rarity|)
              && forall k, l | 0 <= k < l < |order| :: rarity[order[k]] >= rarity[order[l]]
    {
      forall k | 0 <= k < |sorted|
        ensures sorted[k] in decorated
      {
        assert sorted[k] in multiset(sorted);
      }
      forall k, l | 0 <= k < l < |sorted|
        ensures sorted[k].0.0 <= sorted[l].0.0
      {
        assert LessOrEqual(sorted[k].0, sorted[l].0);
      }
    }

    static function Undecorated(decorated: seq<(Key, PieceProgress)>): seq<PieceProgress> {
      seq(|decorated|, k requires 0 <= k < |decorated| => decorated[k].1)
    }

    static function Without<T>(xs: seq<T>, k: nat): seq<T>
      requires k < |xs|
    {
      xs[..k] + xs[k + 1..]
    }

    static lemma WithoutOne<T>(xs: seq<T>, k: nat)
      requires k < |xs|
      ensures multiset(xs) == multiset(Without(xs, k)) + multiset{xs[k]}
      ensures multiset(Without(xs, k)) == multiset(xs) - multiset{xs[k]}
    {
      assert xs == xs[..k] + [xs[k]] + xs[k + 1..];
    }

    static lemma UndecoratedWithout(xs: seq<(Key, PieceProgress)>, k: nat)
      requires k < |xs|
      ensures Undecorated(Without(xs, k)) == Without(Undecorated(xs), k)
    {
    }

    static lemma {:induction false} UndecoratedPermutation(xs: seq<(Key, PieceProgress)>, ys: seq<(Key, PieceProgress)>)
      requires multiset(xs) == multiset(ys)
      ensures multiset(Undecorated(xs)) == multiset(Undecorated(ys))
      decreases |xs|
    {
      assert |multiset(xs)| == |xs| && |multiset(ys)| == |ys|;
      if |xs| > 0 {
        assert xs[0] in multiset(ys);
        var k :| 0 <= k < |ys| && ys[k] == xs[0];
        WithoutOne(xs, 0);
        WithoutOne(ys, k);
        hide Without, Undecorated;
        UndecoratedPermutation(Without(xs, 0), Without(ys, k));
        UndecoratedWithout(xs, 0);
        UndecoratedWithout(ys, k);
        UndecoratedAt(xs, 0);
        UndecoratedAt(ys, k);
        WithoutOne(Undecorated(xs), 0);
        WithoutOne(Undecorated(ys), k);
      }
    }

    static lemma UndecoratedAt(xs: seq<(Key, PieceProgress)>, k: nat)
      requires k < |xs|
      ensures |Undecorated(xs)| == |xs| && Undecorated(xs)[k] == xs[k].1
    {
    }

    /** What was asked of whom: the chosen blocks, as maximal runs. */
    static predicate Answers(result: seq<ResultMessages>, batches: seq<Batch>) {
      && |result| == |batches|
      && forall k | 0 <= k < |result| ::
           result[k].to == batches[k].to && Asks(result[k].messages, batches[k].picks)
    }

    static ghost predicate SmallBatches(batches: seq<Batch>) {
      forall k | 0 <= k < |batches| :: |batches[k].picks| < 0x1_0000
    }

    /** The state after the turns of the first k peers, the last of which may have thrown. */
    static ghost predicate Through(start: Turn, snapshot: seq<PieceProgress>, fields: map<PeerId, Bitfield>, now: int,
                                   down: seq<nat>, empty: seq<nat>, peers: seq<PeerId>, k: nat, t: Turn, thrown: bool)
    {
      && OrderIn(down, start.prog.pieces) && OrderIn(empty, snapshot) && k <= |peers| && (thrown ==> k > 0)
      && OrderIn(down, t.prog.pieces)
      && t == PeerTurns(start, snapshot, fields, now, down, empty, peers[..k])
      && Finished(start, snapshot, fields, now, down, empty, peers[..k]) == if thrown then k - 1 else k
    }

    static lemma ThroughNobody(start: Turn, snapshot: seq<PieceProgress>, fields: map<PeerId, Bitfield>, now: int,
                               down: seq<nat>, empty: seq<nat>, peers: seq<PeerId>)
      requires IsOrder(down, snapshot, Downloading) && IsOrder(empty, snapshot, Empty) && start.prog.pieces == snapshot
      ensures OrderIn(down, snapshot) && OrderIn(empty, snapshot) && SmallBatches([])
      ensures Through(start, snapshot, fields, now, down, empty, peers, 0, start, false)
    {
      NoTurns(start, snapshot, fields, now, down, empty, peers);
    }

    static lemma ThroughOneMore(start: Turn, snapshot: seq<PieceProgress>, fields: map<PeerId, Bitfield>, now: int,
                                down: seq<nat>, empty: seq<nat>, peers: seq<PeerId>, k: nat, t: Turn,
                                picks: seq<BlockId>, thrown: bool, t': Turn)
      requires Through(start, snapshot, fields, now, down, empty, peers, k, t, false) && k < |peers|
      requires picks == Picks(t.(batches := []), snapshot, FieldOf(fields, peers[k]), down, empty,
                              Slots(t.(batches := []), peers[k]))
      requires thrown == Throws(t.(batches := []), fields, down, empty, peers[k])
      requires t' == Turn(WithBlocks(t.prog, ToSet(picks), Downloading), Appended(t.active, peers[k], picks, now),
                          t.windows[peers[k] := WindowOf(t.windows, peers[k])],
                          if picks == [] then t.batches else t.batches + [Batch(peers[k], picks)])
      ensures Through(start, snapshot, fields, now, down, empty, peers, k + 1, t', thrown)
    {
      hide Picks, Slots, WithBlocks, ToSet, Appended, WindowOf, FieldOf, Throws, Finished, PeerTurns, PeerTurn;
      OneMoreTurn(start, snapshot, fields, now, down, empty, peers, k);
      TurnTaken(t, snapshot, fields, now, down, empty, peers[k], picks, t');
      ThrowsAlike(t, fields, down, empty, peers[k]);
    }

    static lemma ThroughAll(start: Turn, snapshot: seq<PieceProgress>, fields: map<PeerId, Bitfield>, now: int,
                            down: seq<nat>, empty: seq<nat>, peers: seq<PeerId>, k: nat, t: Turn, thrown: bool)
      requires Through(start, snapshot, fields, now, down, empty, peers, k, t, thrown) && (k == |peers| || thrown)
      ensures var n := Finished(start, snapshot, fields, now, down, empty, peers);
        && thrown == (n < |peers|)
        && t == PeerTurns(start, snapshot, fields, now, down, empty, peers[..Min(n + 1, |peers|)])
    {
      hide PeerTurns, Finished, OrderIn;
      assert peers[..|peers|] == peers;
      if thrown {
        StopsAtFirst(start, snapshot, fields, now, down, empty, peers, k);
      }
    }

    /** The body of the loop over the peers. */
    method TakeTurn(peers: seq<PeerId>, k: nat, now: int, downloading: seq<PieceProgress>,
                    emptyPieces: seq<PieceProgress>, batches: seq<Batch>,
                    ghost start: Turn, ghost snapshot: Progress, ghost down: seq<nat>, ghost empty: seq<nat>)
      returns (downloading': seq<PieceProgress>, batches': seq<Batch>, thrown: bool)
      requires Valid() && k < |peers| && SmallBatches(batches)
      requires Laid(snapshot) && snapshot.fileSize == progress.fileSize && |snapshot.pieces| == |progress.pieces|
      requires IsOrder(down, snapshot.pieces, Downloading) && IsOrder(empty, snapshot.pieces, Empty)
      requires OrderIn(down, progress.pieces)
      requires downloading == Select(progress.pieces, down) && emptyPieces == Select(snapshot.pieces, empty)
      requires Through(start, snapshot.pieces, peersBitfields, now, down, empty, peers, k,
                       Turn(progress.View(), activeRequests, peerWindows, batches), false)
      modifies this`activeRequests, this`peerWindows, progress`pieces, progress`completed
      ensures Valid() && SmallBatches(batches')
      ensures |progress.pieces| == |snapshot.pieces| && OrderIn(down, progress.pieces)
      ensures downloading' == Select(progress.pieces, down)
      ensures Through(start, snapshot.pieces, peersBitfields, now, down, empty, peers, k + 1,
                      Turn(progress.View(), activeRequests, peerWindows, batches'), thrown)
    {
      hide Through, SmallBatches, Laid, ChooserOk, IsOrder, Select, Picks, Slots, WindowOf, WithBlocks, Appended, ToSet,
           FieldOf, Throws, OrderIn;
      ghost var t := Turn(progress.View(), activeRequests, peerWindows, batches);
      var picks;
      downloading', picks, thrown := FillPeer(peers[k], now, downloading, emptyPieces, snapshot, down, empty);
      SmallStill(batches, Batch(peers[k], picks));
      batches' := if picks == [] then batches else batches + [Batch(peers[k], picks)];
      ThroughOneMore(start, snapshot.pieces, peersBitfields, now, down, empty, peers, k, t, picks, thrown,
                     Turn(progress.View(), activeRequests, peerWindows, batches'));
    }

    /** Goes from peer to peer, until one of them makes hasPiece throw. */
    method FillAll(peers: seq<PeerId>, now: int, started: seq<PieceProgress>, emptyPieces: seq<PieceProgress>,
                   ghost snapshot: Progress, ghost down: seq<nat>, ghost empty: seq<nat>)
      returns (batches: seq<Batch>, thrown: bool)
      requires Valid() && snapshot == progress.View()
      requires IsOrder(down, snapshot.pieces, Downloading) && IsOrder(empty, snapshot.pieces, Empty)
      requires started == Select(snapshot.pieces, down) && emptyPieces == Select(snapshot.pieces, empty)
      modifies this`activeRequests, this`peerWindows, progress`pieces, progress`completed
      ensures Valid() && SmallBatches(batches)
      ensures var start := Turn(snapshot, old(activeRequests), old(peerWindows), []);
        var n := Finished(start, snapshot.pieces, peersBitfields, now, down, empty, peers);
        && thrown == (n < |peers|)
        && Turn(progress.View(), activeRequests, peerWindows, batches)
           == PeerTurns(start, snapshot.pieces, peersBitfields, now, down, empty, peers[..Min(n + 1, |peers|)])
    {
      ghost var start := Turn(snapshot, activeRequests, peerWindows, []);
      var downloading := started;
      batches, thrown := [], false;
      ThroughNobody(start, snapshot.pieces, peersBitfields, now, down, empty, peers);
      hide *;
      var k := 0;
      while k < |peers| && !thrown
        invariant k <= |peers|
        invariant Valid() && SmallBatches(batches)
        invariant |progress.pieces| == |snapshot.pieces| && OrderIn(down, progress.pieces)
        invariant downloading == Select(progress.pieces, down)
        invariant Through(start, snapshot.pieces, peersBitfields, now, down, empty, peers, k,
                          Turn(progress.View(), activeRequests, peerWindows, batches), thrown)
      {
        downloading, batches, thrown :=
          TakeTurn(peers, k, now, downloading, emptyPieces, batches, start, snapshot, down, empty);
        k := k + 1;
      }
      ThroughAll(start, snapshot.pieces, peersBitfields, now, down, empty, peers, k,
                 Turn(progress.View(), activeRequests, peerWindows, batches), thrown);
    }

    static lemma SmallStill(batches: seq<Batch>, batch: Batch)
      requires SmallBatches(batches) && |batch.picks| < 0x1_0000
      ensures SmallBatches(batches + [batch])
    {
    }

    static lemma ThrowsAlike(t: Turn, fields: map<PeerId, Bitfield>, down: seq<nat>, empty: seq<nat>, peer: PeerId)
      ensures Throws(t.(batches := []), fields, down, empty, peer) == Throws(t, fields, down, empty, peer)
    {
    }

    static lemma {:induction false} StopsAtFirst(start: Turn, snapshot: seq<PieceProgress>, fields: map<PeerId, Bitfield>,
                                                 now: int, down: seq<nat>, empty: seq<nat>, peers: seq<PeerId>, k: nat)
      requires OrderIn(down, start.prog.pieces) && OrderIn(empty, snapshot) && k <= |peers|
      requires Finished(start, snapshot, fields, now, down, empty, peers[..k]) < k
      ensures Finished(start, snapshot, fields, now, down, empty, peers)
           == Finished(start, snapshot, fields, now, down, empty, peers[..k])
    {
      if k == |peers| {
        assert peers[..k] == peers;
      } else {
        assert peers[..|peers| - 1][..k] == peers[..k];
        StopsAtFirst(start, snapshot, fields, now, down, empty, peers[..|peers| - 1], k);
      }
    }

    /** What FillPeer leaves behind is the peer's turn. */
    static lemma TurnTaken(t: Turn, snapshot: seq<PieceProgress>, fields: map<PeerId, Bitfield>, now: int,
                           down: seq<nat>, empty: seq<nat>, peer: PeerId, picks: seq<BlockId>, t': Turn)
      requires OrderIn(down, t.prog.pieces) && OrderIn(empty, snapshot)
      requires picks == Picks(t.(batches := []), snapshot, FieldOf(fields, peer), down, empty,
                              Slots(t.(batches := []), peer))
      requires t' == Turn(WithBlocks(t.prog, ToSet(picks), Downloading), Appended(t.active, peer, picks, now),
                          t.windows[peer := WindowOf(t.windows, peer)],
                          if picks == [] then t.batches else t.batches + [Batch(peer, picks)])
      ensures t' == PeerTurn(t, snapshot, fields, now, down, empty, peer)
    {
      TurnsIgnoreBatches(t, peer);
      hide Picks, Slots, WithBlocks, ToSet, Appended, WindowOf;
    }

    static lemma NoTurns(start: Turn, snapshot: seq<PieceProgress>, fields: map<PeerId, Bitfield>, now: int,
                         down: seq<nat>, empty: seq<nat>, peers: seq<PeerId>)
      requires OrderIn(down, start.prog.pieces) && OrderIn(empty, snapshot)
      ensures PeerTurns(start, snapshot, fields, now, down, empty, peers[..0]) == start
      ensures Finished(start, snapshot, fields, now, down, empty, peers[..0]) == 0
    {
    }

    static lemma OneMoreTurn(start: Turn, snapshot: seq<PieceProgress>, fields: map<PeerId, Bitfield>, now: int,
                             down: seq<nat>, empty: seq<nat>, peers: seq<PeerId>, k: int)
      requires OrderIn(down, start.prog.pieces) && OrderIn(empty, snapshot) && 0 <= k < |peers|
      ensures PeerTurns(start, snapshot, fields, now, down, empty, peers[..k + 1])
           == PeerTurn(PeerTurns(start, snapshot, fields, now, down, empty, peers[..k]), snapshot, fields, now, down, empty,
                       peers[k])
      ensures Finished(start, snapshot, fields, now, down, empty, peers[..k]) == k ==>
                Finished(start, snapshot, fields, now, down, empty, peers[..k + 1])
                == if Throws(PeerTurns(start, snapshot, fields, now, down, empty, peers[..k]), fields, down, empty, peers[k])
                   then k else k + 1
    {
      assert peers[..k + 1][..k] == peers[..k];
    }

    static lemma TurnsIgnoreBatches(t: Turn, peer: PeerId)
      ensures Slots(t.(batches := []), peer) == Slots(t, peer)
      ensures forall snapshot, field, down, empty, slots | OrderIn(down, t.prog.pieces) && OrderIn(empty, snapshot) ::
                Picks(t.(batches := []), snapshot, field, down, empty, slots) == Picks(t, snapshot, field, down, empty, slots)
    {
    }

    method SortedPieces()
      returns (started: seq<PieceProgress>, emptyPieces: seq<PieceProgress>, ghost down: seq<nat>, ghost empty: seq<nat>)
      requires Valid()
      ensures ValidOrders(progress.pieces, rarity, down, empty)
      ensures IsOrder(down, progress.pieces, Downloading) && IsOrder(empty, progress.pieces, Empty)
      ensures OrderIn(down, progress.pieces) && OrderIn(empty, progress.pieces)
      ensures started == Select(progress.pieces, down) && emptyPieces == Select(progress.pieces, empty)
    {
      started, down := StartedPieces();
      emptyPieces, empty := EmptyPieces();
    }

    /** The orders are whatever the sorts produced; every other part of the outcome is determined. A call that
        throws has lost the requests of the peers it had been through, but keeps waiting for them. */
    method ChooseBlocks(peers: seq<PeerId>, now: int)
      returns (r: Result<seq<ResultMessages>>, ghost down: seq<nat>, ghost empty: seq<nat>)
      requires Valid()
      modifies this`activeRequests, this`peerWindows, progress`pieces, progress`completed
      ensures Valid()
      ensures ValidOrders(AfterTimeouts(old(progress.View()), old(View()), now).prog.pieces, rarity, down, empty)
      ensures |AfterTimeouts(old(progress.View()), old(View()), now).prog.pieces| == |old(progress.pieces)|
      ensures r.Success? <==> Returns(old(progress.View()), old(View()), now, peers, down, empty)
      ensures var reached := Reached(old(progress.View()), old(View()), now, peers, down, empty);
              var t := Chosen(old(progress.View()), old(View()), now, reached, down, empty);
              && progress.View() == t.prog
              && View() == old(View()).(active := t.active, windows := t.windows)
              && (r.Success? ==> reached == peers && Answers(r.value, t.batches))
    {
      hide Laid, ChooserOk, Answers, PeerTurns, Finished, Select, SmallBatches, AfterTimeouts, Chosen, Reached, Returns,
           IsOrder, ValidOrders, OrderIn;
      ghost var p, c := progress.View(), View();
      ghost var start := AfterTimeouts(p, c, now);
      StartingTurn(p, c, now);
      HandleTimeouts(now);
      var started, emptyPieces;
      started, emptyPieces, down, empty := SortedPieces();
      SameOrders(start.prog.pieces, p.pieces, down, empty);
      var batches, thrown := FillAll(peers, now, started, emptyPieces, progress.View(), down, empty);
      OutcomeOfTurns(p, c, start, now, peers, down, empty, Turn(progress.View(), activeRequests, peerWindows, batches));
      if thrown {
        return Failure("out of range"), down, empty;
      }
      var result := CoalesceAll(batches);
      r := Success(result);
    }

    static lemma StartingTurn(p: Progress, c: Chooser, now: int)
      requires Laid(p)
      ensures var start := AfterTimeouts(p, c, now);
              start.windows == c.windows && start.batches == [] && |start.prog.pieces| == |p.pieces|
    {
    }

    static lemma SameOrders(pieces: seq<PieceProgress>, others: seq<PieceProgress>, down: seq<nat>, empty: seq<nat>)
      requires OrderIn(down, pieces) && OrderIn(empty, pieces) && |pieces| == |others|
      ensures OrderIn(down, others) && OrderIn(empty, others)
    {
    }

    static lemma OutcomeOfTurns(p: Progress, c: Chooser, start: Turn, now: int, peers: seq<PeerId>,
                                down: seq<nat>, empty: seq<nat>, t: Turn)
      requires start == AfterTimeouts(p, c, now)
      requires OrderIn(down, p.pieces) && OrderIn(empty, p.pieces)
      requires var n := Finished(start, start.prog.pieces, c.bitfields, now, down, empty, peers);
        t == PeerTurns(start, start.prog.pieces, c.bitfields, now, down, empty, peers[..Min(n + 1, |peers|)])
      ensures t == Chosen(p, c, now, Reached(p, c, now, peers, down, empty), down, empty)
      ensures Returns(p, c, now, peers, down, empty)
              <==> Finished(start, start.prog.pieces, c.bitfields, now, down, empty, peers) == |peers|
      ensures Returns(p, c, now, peers, down, empty) ==> Reached(p, c, now, peers, down, empty) == peers
    {
      hide PeerTurns, Finished, AfterTimeouts;
      assert peers[..|peers|] == peers;
    }

    static method CoalesceAll(batches: seq<Batch>) returns (result: seq<ResultMessages>)
      requires SmallBatches(batches)
      ensures Answers(result, batches)
    {
      result := [];
      for k := 0 to |batches|
        invariant Answers(result, batches[..k])
      {
        var messages := Coalesce(batches[k].picks);
        result := result + [ResultMessages(batches[k].to, messages)];
      }
      assert batches[..|batches|] == batches;
    }
  }
}
