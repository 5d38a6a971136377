// What goes wrong when two peers are asked for one block, and exactly when.

module SeveralPeers {
  import opened FileSplitter
  import opened Sorting
  import opened Coalescing
  import opened DownloadProgress
  import opened ByteAccounting
  import opened Selection
  import opened RarityTrackerChooser
  import opened Agreement
  import opened Shares

  /** Taking blocks back loses what was held of them. */
  lemma {:induction false} HeldAfterTaking(p: Progress, blocks: set<BlockId>, status: DownloadStatus)
    requires Laid(p) && (status == Empty || status == Downloading)
    requires forall b | b in blocks :: Exists(p.pieces, b)
    ensures HeldBytes(WithBlocks(p, blocks, status).pieces) <= HeldBytes(p.pieces)
    ensures HeldBytes(WithBlocks(p, blocks, status).pieces) == HeldBytes(p.pieces)
            <==> forall b | b in blocks :: !IsHeld(StatusAt(p.pieces, b))
    decreases |blocks|
  {
    hide WithBlocks, Laid;
    if blocks == {} {
      WithNoBlocks(p, status);
    } else {
      var b :| b in blocks;
      var rest := blocks - {b};
      assert rest < blocks && rest + {b} == blocks;
      HeldAfterTaking(p, rest, status);
      var q := WithBlocks(p, rest, status);
      RepaintKeepsShape(p, rest, status);
      StatusAfterRepaint(p, rest, status, b);
      WithBlocksTwice(p, rest, {b}, status);
      HeldAfterTakingOne(q, b, status);
    }
  }

  lemma HeldAfterTakingOne(p: Progress, b: BlockId, status: DownloadStatus)
    requires Laid(p) && Exists(p.pieces, b) && (status == Empty || status == Downloading)
    ensures HeldBytes(WithBlocks(p, {b}, status).pieces) <= HeldBytes(p.pieces)
    ensures HeldBytes(WithBlocks(p, {b}, status).pieces) == HeldBytes(p.pieces) <==> !IsHeld(StatusAt(p.pieces, b))
  {
    var q := p.pieces[b.0];
    WithOneBlock(p, b.0, b.1, status);
    BlocksFillPiece(q, PieceStart(p.fileSize, b.0), PieceLength(p.fileSize, b.0));
    HeldAfterUpdate(q.blocks, b.1, q.blocks[b.1].(status := status));
    HeldBytesAfterUpdate(p.pieces, b.0, PieceWithBlockStatus(q, b.1, status));
  }

  /** No request that times out names a block that is held by now. */
  ghost predicate NoneOverdue(prog: Progress, active: Requests, now: int) {
    forall p, r, b | Awaited(active, p, r, b) && TimedOut(r, now) && Exists(prog.pieces, b) ::
      !IsHeld(StatusAt(prog.pieces, b))
  }

  /** Timeouts keep the byte counter right exactly when no request that times out names a held block. */
  lemma TimeoutsConserve(prog: Progress, c: Chooser, now: int)
    requires Laid(prog) && Conserved(prog) && ChooserOk(c, prog.pieces)
    ensures Conserved(AfterTimeouts(prog, c, now).prog)
            <==> NoneOverdue(prog, c.active, now)
    ensures HeldBytes(AfterTimeouts(prog, c, now).prog.pieces) <= AfterTimeouts(prog, c, now).prog.total
  {
    var expired := ExpiredAt(c.active, c.active.Keys, now);
    forall b | b in expired
      ensures Exists(prog.pieces, b)
    {
      ExpiredMembers(c.active, now, b);
    }
    HeldAfterTaking(prog, expired, Empty);
    forall p, r, b | Awaited(c.active, p, r, b) && TimedOut(r, now)
      ensures b in expired
    {
      ExpiredMembers(c.active, now, b);
    }
    forall b | b in expired
      ensures exists p, r :: Awaited(c.active, p, r, b) && TimedOut(r, now)
    {
      ExpiredMembers(c.active, now, b);
    }
  }

  /** The counter never falls behind in a call of ChooseBlocks. It ends above the held bytes exactly when a request
      that times out in it names a held block. */
  lemma CountedAfterChoose(prog: Progress, c: Chooser, now: int, peers: seq<PeerId>, down: seq<nat>, empty: seq<nat>)
    requires Laid(prog) && Conserved(prog) && ChooserOk(c, prog.pieces)
    requires ValidOrders(AfterTimeouts(prog, c, now).prog.pieces, c.rarity, down, empty)
    ensures |AfterTimeouts(prog, c, now).prog.pieces| == |prog.pieces|
    ensures var p := Chosen(prog, c, now, peers, down, empty).prog;
      && HeldBytes(p.pieces) <= p.total
      && (HeldBytes(p.pieces) < p.total <==> !NoneOverdue(prog, c.active, now))
  {
    hide WithBlocks, Laid, PeerTurns, NoneOverdue, ExpiredAt, Painted, AfterTimeouts, IsOrder, OrderIn, HeldBytes;
    PaintedStart(prog, c, now);
    ChosenIsPainted(prog, c, now, peers, down, empty);
    TimeoutsConserve(prog, c, now);
    HeldByAsking(AfterTimeouts(prog, c, now), Chosen(prog, c, now, peers, down, empty));
  }

  /** A whole call of ChooseBlocks keeps the books exactly when no request that times out in it names a held
      block, however many peers are listed and whatever they are asked for. */
  lemma BooksAfterChoose(prog: Progress, c: Chooser, now: int, peers: seq<PeerId>, down: seq<nat>, empty: seq<nat>)
    requires Books(prog) && ChooserOk(c, prog.pieces)
    requires ValidOrders(AfterTimeouts(prog, c, now).prog.pieces, c.rarity, down, empty)
    ensures |AfterTimeouts(prog, c, now).prog.pieces| == |prog.pieces|
    ensures Books(Chosen(prog, c, now, peers, down, empty).prog) <==> NoneOverdue(prog, c.active, now)
  {
    hide WithBlocks, Laid, PeerTurns, NoneOverdue, PieceOk, ExpiredAt, Painted, AfterTimeouts, IsOrder, OrderIn, HeldBytes;
    var start := AfterTimeouts(prog, c, now);
    ChosenIsPainted(prog, c, now, peers, down, empty);
    var t := Chosen(prog, c, now, peers, down, empty);
    CountedAfterChoose(prog, c, now, peers, down, empty);
    if NoneOverdue(prog, c.active, now) {
      BooksAfterTimeouts(prog, c, now);
      BooksAfterPainting(start, t);
    }
  }

  lemma ChosenIsPainted(prog: Progress, c: Chooser, now: int, peers: seq<PeerId>, down: seq<nat>, empty: seq<nat>)
    requires Laid(prog) && ValidOrders(AfterTimeouts(prog, c, now).prog.pieces, c.rarity, down, empty)
    ensures OrderIn(down, prog.pieces) && OrderIn(empty, prog.pieces)
    ensures Painted(AfterTimeouts(prog, c, now), Chosen(prog, c, now, peers, down, empty))
  {
    hide WithBlocks, Laid, PeerTurns, ExpiredAt, Painted;
    PaintedStart(prog, c, now);
    PaintedTurns(AfterTimeouts(prog, c, now), c.bitfields, now, down, empty, peers);
  }

  /** After a call every piece of which a block was asked for is Downloading, and no other piece's status has moved;
      a request that timed out leaves the status of its piece alone. */
  lemma AskedPiecesAreStarted(prog: Progress, c: Chooser, now: int, peers: seq<PeerId>, down: seq<nat>, empty: seq<nat>,
                              i: nat)
    requires Laid(prog) && ValidOrders(AfterTimeouts(prog, c, now).prog.pieces, c.rarity, down, empty)
    requires i < |prog.pieces|
    ensures OrderIn(down, prog.pieces) && OrderIn(empty, prog.pieces)
    ensures var t := Chosen(prog, c, now, peers, down, empty);
      && |t.prog.pieces| == |prog.pieces|
      && t.prog.pieces[i].status == if exists j: nat :: (i, j) in AllPicks(t.batches) then Downloading
                                    else prog.pieces[i].status
  {
    ChosenIsPainted(prog, c, now, peers, down, empty);
    hide PeerTurns, Laid, AllPicks, ExpiredAt, ValidOrders, Chosen;
    var start := AfterTimeouts(prog, c, now);
    var t := Chosen(prog, c, now, peers, down, empty);
    PieceRepainted(prog, ExpiredAt(c.active, c.active.Keys, now), Empty, i);
    PieceRepainted(start.prog, AllPicks(t.batches), Downloading, i);
    forall j: nat | (i, j) in AllPicks(t.batches)
      ensures j < |start.prog.pieces[i].blocks|
    {
      assert Exists(start.prog.pieces, (i, j));
    }
  }

  lemma PieceRepainted(p: Progress, blocks: set<BlockId>, status: DownloadStatus, i: nat)
    requires i < |p.pieces|
    ensures |WithBlocks(p, blocks, status).pieces| == |p.pieces|
    ensures WithBlocks(p, blocks, status).pieces[i].status
      == if status == Downloading && exists j: nat :: j < |p.pieces[i].blocks| && (i, j) in blocks then Downloading
         else p.pieces[i].status
  {
  }

  lemma BooksAfterPainting(start: Turn, t: Turn)
    requires Painted(start, t) && Books(start.prog)
    ensures Books(t.prog)
  {
    hide WithBlocks, AllPicks, Laid;
    BooksWithBlocks(start.prog, AllPicks(t.batches), Downloading);
  }

  lemma HeldByAsking(start: Turn, t: Turn)
    requires Painted(start, t)
    ensures HeldBytes(t.prog.pieces) == HeldBytes(start.prog.pieces) && t.prog.total == start.prog.total
  {
    HeldAfterTaking(start.prog, AllPicks(t.batches), Downloading);
  }

  lemma BooksAfterTimeouts(prog: Progress, c: Chooser, now: int)
    requires Books(prog) && ChooserOk(c, prog.pieces) && NoneOverdue(prog, c.active, now)
    ensures Books(AfterTimeouts(prog, c, now).prog)
  {
    var expired := ExpiredAt(c.active, c.active.Keys, now);
    forall b | b in expired
      ensures Exists(prog.pieces, b) && !IsHeld(StatusAt(prog.pieces, b))
    {
      ExpiredMembers(c.active, now, b);
    }
    BooksWithBlocks(prog, expired, Empty);
  }

  /** Two peers that both have the only, still empty, one-block piece are both asked for its block:
      the copies of empty pieces are not updated between the peers. */
  lemma EmptyPieceAskedTwice(prog: Progress, c: Chooser, now: int, p: PeerId, q: PeerId)
    requires Laid(prog) && |prog.pieces| == 1 && |prog.pieces[0].blocks| == 1
    requires prog.pieces[0].status == Empty && prog.pieces[0].blocks[0].status == Empty
    requires c.active == map[] && c.windows == map[] && p != q
    requires p in c.bitfields && HasBit(c.bitfields[p], 0) && q in c.bitfields && HasBit(c.bitfields[q], 0)
    ensures Agree(c.active, prog.pieces)
    ensures var t := Chosen(prog, c, now, [p, q], [], [0]);
            && t.batches == [Batch(p, [(0, 0)]), Batch(q, [(0, 0)])]
            && t.active == map[p := [RequestTracker(now, 0, 0, false)], q := [RequestTracker(now, 0, 0, false)]]
            && !Agree(t.active, t.prog.pieces)
  {
    var start := AfterTimeouts(prog, c, now);
    assert ExpiredAt(c.active, c.active.Keys, now) == {};
    WithNoBlocks(prog, Empty);
    assert start == Turn(prog, map[], map[], []);
    NothingAskedYet(prog);
    hide PeerTurns, Laid, Agree, HasBit, WithBlocks;
    BothAsked(start, prog, c.bitfields, now, p, q);
  }

  /** Seen before the call: the block is in the shares of both peers. */
  lemma SharesMeet(prog: Progress, c: Chooser, now: int, p: PeerId, q: PeerId)
    requires Laid(prog) && |prog.pieces| == 1 && |prog.pieces[0].blocks| == 1 && |c.rarity| == 1
    requires prog.pieces[0].status == Empty && prog.pieces[0].blocks[0].status == Empty
    requires c.active == map[] && c.windows == map[] && p != q
    requires p in c.bitfields && HasBit(c.bitfields[p], 0) && q in c.bitfields && HasBit(c.bitfields[q], 0)
    ensures var start := AfterTimeouts(prog, c, now);
      OrderIn([0], start.prog.pieces) && !UnbegunApart(SharesFor(start, c.bitfields, [], [0], [p, q]))
  {
    var start := AfterTimeouts(prog, c, now);
    assert ExpiredAt(c.active, c.active.Keys, now) == {};
    WithNoBlocks(prog, Empty);
    assert ValidOrders(start.prog.pieces, c.rarity, [], [0]);
    hide ValidOrders, SharesFor, Chosen, HasBit, Laid;
    EmptyPieceAskedTwice(prog, c, now, p, q);
    AgreesBeforehand(prog, c, now, [p, q], [], [0]);
  }

  lemma NothingAskedYet(prog: Progress)
    requires |prog.pieces| == 1 && |prog.pieces[0].blocks| == 1
    requires prog.pieces[0].status == Empty && prog.pieces[0].blocks[0].status == Empty
    ensures Agree(map[], prog.pieces)
  {
  }

  lemma BothAsked(start: Turn, prog: Progress, fields: map<PeerId, Bitfield>, now: int, p: PeerId, q: PeerId)
    requires start == Turn(prog, map[], map[], [])
    requires Laid(prog) && |prog.pieces| == 1 && |prog.pieces[0].blocks| == 1
    requires prog.pieces[0].blocks[0].status == Empty && p != q
    requires p in fields && HasBit(fields[p], 0) && q in fields && HasBit(fields[q], 0)
    ensures var t := PeerTurns(start, prog.pieces, fields, now, [], [0], [p, q]);
            && t.batches == [Batch(p, [(0, 0)]), Batch(q, [(0, 0)])]
            && t.active == map[p := [RequestTracker(now, 0, 0, false)], q := [RequestTracker(now, 0, 0, false)]]
            && !Agree(t.active, t.prog.pieces)
  {
    hide PeerTurn, Laid, HasBit;
    var t1 := PeerTurn(start, prog.pieces, fields, now, [], [0], p);
    OneTurn(start, prog, fields, now, p);
    var t2 := PeerTurn(t1, prog.pieces, fields, now, [], [0], q);
    OneTurn(t1, prog, fields, now, q);
    assert [p, q][..1] == [p] && [p][..0] == [];
    assert PeerTurns(start, prog.pieces, fields, now, [], [0], [p])
        == PeerTurn(PeerTurns(start, prog.pieces, fields, now, [], [0], [p][..0]), prog.pieces, fields, now, [], [0], p);
    assert PeerTurns(start, prog.pieces, fields, now, [], [0], [p, q])
        == PeerTurn(PeerTurns(start, prog.pieces, fields, now, [], [0], [p, q][..1]), prog.pieces, fields, now, [], [0], q);
    SameNameTwice(t2.active, t2.prog.pieces, p, q);
  }

  lemma SameNameTwice(active: Requests, pieces: seq<PieceProgress>, p: PeerId, q: PeerId)
    requires p != q && p in active && q in active && |active[p]| == |active[q]| == 1
    requires BlockOfTracker(active[p][0]) == BlockOfTracker(active[q][0])
    ensures !Agree(active, pieces)
  {
    assert active[p][0] in active[p] && active[q][0] in active[q];
  }

  lemma OneTurn(t: Turn, prog: Progress, fields: map<PeerId, Bitfield>, now: int, p: PeerId)
    requires Laid(prog) && |prog.pieces| == 1 && |prog.pieces[0].blocks| == 1
    requires prog.pieces[0].blocks[0].status == Empty
    requires p !in t.active && p !in t.windows && p in fields && HasBit(fields[p], 0)
    ensures var t' := PeerTurn(t, prog.pieces, fields, now, [], [0], p);
            && t'.batches == t.batches + [Batch(p, [(0, 0)])]
            && t'.active == t.active[p := [RequestTracker(now, 0, 0, false)]]
            && t'.windows.Keys == t.windows.Keys + {p}
  {
    OnlyCandidate(prog, fields[p]);
    assert Slots(t, p) == INITIAL_WINDOW;
    assert Candidates(t.prog.pieces, [], fields[p]) + [(0, 0)] == [(0, 0)];
    assert Picks(t, prog.pieces, fields[p], [], [0], INITIAL_WINDOW) == [(0, 0)];
    assert [] + Track([(0, 0)], now) == [RequestTracker(now, 0, 0, false)];
  }

  lemma RepeatedIsNotDistinct(s: seq<BlockId>, x: BlockId)
    requires forall k | 0 <= k < |s| :: s[k] == x
    ensures |s| > 1 ==> !Distinct(s)
  {
    if |s| > 1 {
      assert s[0] == s[1];
    }
  }

  lemma OnlyCandidate(prog: Progress, field: Bitfield)
    requires Laid(prog) && |prog.pieces| == 1 && |prog.pieces[0].blocks| == 1 && HasBit(field, 0)
    requires prog.pieces[0].blocks[0].status == Empty
    ensures Candidates(prog.pieces, [0], field) == [(0, 0)]
  {
    var p := prog.pieces[0];
    EmptyBlocksMembers(p, 0, PieceStart(prog.fileSize, 0), PieceLength(prog.fileSize, 0));
    var all := EmptyBlocks(p, 0);
    assert (0, 0) in all;
    assert forall k | 0 <= k < |all| :: all[k] in all && all[k] == (0, 0);
    RepeatedIsNotDistinct(all, (0, 0));
    assert all == [(0, 0)];
    assert [0][..0] == [];
  }
}
