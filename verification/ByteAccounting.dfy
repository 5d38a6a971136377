// The byte counter is the number of bytes held, and a download is complete when it says so.

module ByteAccounting {
  import opened Bytes
  import opened FileSplitter
  import opened DownloadProgress

  // ----- sums over blocks

  function HeldSize(b: BlockInfo): nat {
    if IsHeld(b.status) then b.size else 0
  }

  lemma {:induction false} HeldAfterUpdate(blocks: seq<BlockInfo>, j: nat, b: BlockInfo)
    requires j < |blocks|
    ensures HeldIn(blocks[j := b]) == HeldIn(blocks) - HeldSize(blocks[j]) + HeldSize(b)
  {
    var n := |blocks| - 1;
    if j == n {
      assert blocks[j := b][..n] == blocks[..n];
    } else {
      assert blocks[j := b][..n] == blocks[..n][j := b];
      HeldAfterUpdate(blocks[..n], j, b);
    }
  }

  lemma {:induction false} HeldAtMostSize(blocks: seq<BlockInfo>)
    requires forall j | 0 <= j < |blocks| :: blocks[j].size > 0
    ensures HeldIn(blocks) <= SizeOf(blocks)
    ensures HeldIn(blocks) == SizeOf(blocks) <==> AllHeld(blocks)
    ensures HeldIn(blocks) == 0 <==> NoneHeld(blocks)
  {
    if |blocks| > 0 {
      HeldAtMostSize(blocks[..|blocks| - 1]);
      assert forall j | 0 <= j < |blocks| - 1 :: blocks[..|blocks| - 1][j] == blocks[j];
    }
  }

  lemma {:induction false} HeldWithAll(blocks: seq<BlockInfo>, status: DownloadStatus)
    ensures HeldIn(WithAllBlocks(blocks, status)) == if IsHeld(status) then SizeOf(blocks) else 0
    ensures SizeOf(WithAllBlocks(blocks, status)) == SizeOf(blocks)
  {
    if |blocks| > 0 {
      var n := |blocks| - 1;
      assert WithAllBlocks(blocks, status)[..n] == WithAllBlocks(blocks[..n], status);
      HeldWithAll(blocks[..n], status);
    }
  }

  // ----- sums over pieces

  lemma {:induction false} HeldBytesAfterUpdate(pieces: seq<PieceProgress>, i: nat, p: PieceProgress)
    requires i < |pieces|
    ensures HeldBytes(pieces[i := p]) == HeldBytes(pieces) - HeldIn(pieces[i].blocks) + HeldIn(p.blocks)
  {
    var n := |pieces| - 1;
    if i == n {
      assert pieces[i := p][..n] == pieces[..n];
    } else {
      assert pieces[i := p][..n] == pieces[..n][i := p];
      HeldBytesAfterUpdate(pieces[..n], i, p);
    }
  }

  lemma {:induction false} SizeOfBlocks(p: PieceProgress, offset: nat, size: nat, n: nat)
    requires WellCut(p, offset, size) && n <= |p.blocks|
    ensures SizeOf(p.blocks[..n]) == Min(size, n * BLOCK_SIZE)
  {
    if n > 0 {
      SizeOfBlocks(p, offset, size, n - 1);
      assert p.blocks[..n][..n - 1] == p.blocks[..n - 1];
      assert p.blocks[n - 1].(status := Empty) == FreshBlock(size, n - 1);
    }
  }

  /** The blocks of a piece add up to the piece. */
  lemma BlocksFillPiece(p: PieceProgress, offset: nat, size: nat)
    requires WellCut(p, offset, size)
    ensures SizeOf(p.blocks) == size
    ensures forall j | 0 <= j < |p.blocks| :: 0 < p.blocks[j].size <= BLOCK_SIZE
    ensures forall j | 0 <= j < |p.blocks| ::
              p.blocks[j].offset == j * BLOCK_SIZE && p.blocks[j].size == BlockLength(size, j)
  {
    SizeOfBlocks(p, offset, size, |p.blocks|);
    assert p.blocks[..|p.blocks|] == p.blocks;
    forall j | 0 <= j < |p.blocks|
      ensures p.blocks[j].offset == j * BLOCK_SIZE && 0 < p.blocks[j].size == BlockLength(size, j)
    {
      assert p.blocks[j].(status := Empty) == FreshBlock(size, j);
    }
  }

  /** The block that is marked as the last one is the one that ends with the piece. */
  lemma LastBlockMarked(p: PieceProgress, offset: nat, size: nat, j: nat)
    requires WellCut(p, offset, size) && j < |p.blocks|
    ensures p.blocks[j].isLastBlock <==> p.blocks[j].offset + p.blocks[j].size == size
  {
    assert p.blocks[j].(status := Empty) == FreshBlock(size, j);
  }

  /** updateBlockStatus: the block has the status; the piece is Downloading if the block is, and Downloaded if the
      block is and no other block is missing. */
  lemma BlockStatusOutcome(p: PieceProgress, block: nat, status: DownloadStatus)
    requires block < |p.blocks|
    ensures var q := PieceWithBlockStatus(p, block, status);
      && |q.blocks| == |p.blocks| && q.blocks[block].status == status
      && (forall j | 0 <= j < |p.blocks| && j != block :: q.blocks[j] == p.blocks[j])
      && (status == Downloading ==> q.status == Downloading)
      && (status == Downloaded && (forall j | 0 <= j < |p.blocks| && j != block :: p.blocks[j].status == Downloaded) ==>
            q.status == Downloaded)
      && (q.status != p.status ==>
            status == Downloading
            || (status == Downloaded && forall j | 0 <= j < |p.blocks| && j != block :: p.blocks[j].status == Downloaded))
  {
    var q := WithBlock(p, block, status);
    assert forall j | 0 <= j < |p.blocks| && j != block :: q.blocks[j] == p.blocks[j];
  }

  /** A piece ends where the next one starts, or with the file. */
  lemma NextStart(fileSize: nat, n: nat)
    requires n < PieceCount(fileSize)
    ensures Min(fileSize, PieceStart(fileSize, n)) == PieceStart(fileSize, n)
    ensures Min(fileSize, PieceStart(fileSize, n + 1)) == PieceStart(fileSize, n) + PieceLength(fileSize, n)
  {
    PieceLengths(fileSize, n);
    StartsInside(fileSize, n);
    StartsInside(fileSize, n + 1);
  }

  /** What is held never exceeds the file, and fills it exactly when every block is held. */
  lemma {:induction false} HeldUpTo(p: Progress, n: nat)
    requires Laid(p) && n <= |p.pieces|
    ensures HeldBytes(p.pieces[..n]) <= Min(p.fileSize, PieceStart(p.fileSize, n))
    ensures HeldBytes(p.pieces[..n]) == Min(p.fileSize, PieceStart(p.fileSize, n))
            <==> forall i | 0 <= i < n :: AllHeld(p.pieces[i].blocks)
  {
    if n > 0 {
      var q := p.pieces[n - 1];
      HeldUpTo(p, n - 1);
      assert p.pieces[..n][..n - 1] == p.pieces[..n - 1];
      BlocksFillPiece(q, PieceStart(p.fileSize, n - 1), PieceLength(p.fileSize, n - 1));
      HeldAtMostSize(q.blocks);
      NextStart(p.fileSize, n - 1);
      hide AllHeld, PieceStart, PieceLength, HeldIn, SizeOf, Laid;
    }
  }

  lemma HeldAtMostFile(p: Progress)
    requires Laid(p)
    ensures HeldBytes(p.pieces) <= p.fileSize
    ensures HeldBytes(p.pieces) == p.fileSize <==> forall i | 0 <= i < |p.pieces| :: AllHeld(p.pieces[i].blocks)
  {
    var n := |p.pieces|;
    HeldUpTo(p, n);
    assert p.pieces[..n] == p.pieces;
    StartsInside(p.fileSize, n);
  }

  // ----- the invariant of the books

  /** A piece is Downloaded or Verified exactly when all its blocks are held;
      before that none of them is Verified, or the last block could not complete it. */
  predicate PieceOk(p: PieceProgress) {
    && (IsHeld(p.status) <==> AllHeld(p.blocks))
    && (!IsHeld(p.status) ==> forall j | 0 <= j < |p.blocks| :: p.blocks[j].status != Verified)
  }

  predicate Conserved(p: Progress) {
    p.total == HeldBytes(p.pieces)
  }

  predicate Books(p: Progress) {
    && Laid(p)
    && Conserved(p)
    && forall i | 0 <= i < |p.pieces| :: PieceOk(p.pieces[i])
  }

  predicate AllComplete(p: Progress) {
    forall i | 0 <= i < |p.pieces| :: IsHeld(p.pieces[i].status)
  }

  /** progress() reaches 1 exactly when every piece is complete; an empty file never reports it. */
  lemma CompletionCharacterised(p: Progress)
    requires Books(p)
    ensures p.total <= p.fileSize
    ensures ProgressIsOne(p) <==> p.fileSize > 0 && AllComplete(p)
  {
    HeldAtMostFile(p);
    assert forall i | 0 <= i < |p.pieces| :: PieceOk(p.pieces[i]);
  }

  // ----- one piece, one operation

  lemma BlockKeepsPlace(p: PieceProgress, offset: nat, size: nat, block: nat, status: DownloadStatus)
    requires WellCut(p, offset, size) && block < |p.blocks|
    ensures WellCut(WithBlock(p, block, status), offset, size)
  {
    var p' := WithBlock(p, block, status);
    forall j | 0 <= j < |p'.blocks|
      ensures p'.blocks[j].(status := Empty) == FreshBlock(size, j)
    {
      assert p.blocks[j].(status := Empty) == FreshBlock(size, j);
    }
  }

  lemma StatusKeepsPlaces(p: PieceProgress, offset: nat, size: nat, status: DownloadStatus)
    requires WellCut(p, offset, size)
    ensures WellCut(PieceWithStatus(p, status), offset, size)
  {
    var p' := PieceWithStatus(p, status);
    forall j | 0 <= j < |p'.blocks|
      ensures p'.blocks[j].(status := Empty) == FreshBlock(size, j)
    {
      assert p.blocks[j].(status := Empty) == FreshBlock(size, j);
    }
  }

  lemma PieceOkAfterBlock(p: PieceProgress, block: nat)
    requires PieceOk(p) && block < |p.blocks|
    ensures PieceOk(PieceAfterBlock(p, block))
  {
    var p' := WithBlock(p, block, Downloaded);
    if AllHeld(p'.blocks) {
      if !IsHeld(p.status) {
        assert forall j | 0 <= j < |p.blocks| :: p'.blocks[j].status == Downloaded;
      } else {
        assert forall j | 0 <= j < |p.blocks| :: IsHeld(p'.blocks[j].status);
      }
    } else {
      var j :| 0 <= j < |p.blocks| && !IsHeld(p'.blocks[j].status);
      assert !IsHeld(p.blocks[j].status);
    }
  }

  lemma PieceOkWithBlockStatus(p: PieceProgress, block: nat, status: DownloadStatus)
    requires PieceOk(p) && block < |p.blocks|
    requires status == Empty || status == Downloading
    requires !IsHeld(p.blocks[block].status)
    ensures PieceOk(PieceWithBlockStatus(p, block, status))
  {
    var p' := PieceWithBlockStatus(p, block, status);
    assert !IsHeld(p'.blocks[block].status);
    assert forall j | 0 <= j < |p.blocks| && j != block :: p'.blocks[j] == p.blocks[j];
  }

  lemma PieceOkWithStatus(p: PieceProgress, status: DownloadStatus)
    requires status != Downloading && |p.blocks| > 0
    ensures PieceOk(PieceWithStatus(p, status))
  {
    assert PieceWithStatus(p, status).blocks[0].status == status;
  }

  /** setStatus reports the exact change of the held bytes, except that it takes a piece's own
      status on trust: an Empty piece must hold nothing and a complete one everything. */
  lemma StatusDeltaExact(p: PieceProgress, offset: nat, size: nat, status: DownloadStatus)
    requires WellCut(p, offset, size)
    ensures StatusDelta(p, status) == HeldIn(PieceWithStatus(p, status).blocks) - HeldIn(p.blocks)
            <==> && (status == Empty && p.status == Empty ==> NoneHeld(p.blocks))
                 && (IsHeld(status) && IsHeld(p.status) ==> AllHeld(p.blocks))
  {
    HeldWithAll(p.blocks, status);
    BlocksFillPiece(p, offset, size);
    HeldAtMostSize(p.blocks);
  }

  // ----- the operations on the whole download

  lemma LaidAfter(p: Progress, i: nat, q: PieceProgress, p': Progress)
    requires Laid(p) && i < |p.pieces|
    requires p'.pieces == p.pieces[i := q] && p'.fileSize == p.fileSize
    requires WellCut(q, PieceStart(p.fileSize, i), PieceLength(p.fileSize, i))
    ensures Laid(p')
  {
  }

  lemma PiecesOkAfter(p: Progress, i: nat, q: PieceProgress, p': Progress)
    requires Books(p) && i < |p.pieces| && PieceOk(q)
    requires Laid(p') && p'.pieces == p.pieces[i := q] && Conserved(p')
    ensures Books(p')
  {
    hide PieceOk, Laid, Conserved;
  }

  /** What is held fits the file, so the counter does not wrap around. */
  lemma ConservedAfterPiece(p: Progress, i: nat, q: PieceProgress, delta: int, p': Progress)
    requires Conserved(p) && Laid(p') && i < |p.pieces|
    requires delta == HeldIn(q.blocks) - HeldIn(p.pieces[i].blocks)
    requires p'.pieces == p.pieces[i := q] && p'.total == (p.total + delta) % TWO64
    ensures Conserved(p') && p'.total == p.total + delta
  {
    HeldBytesAfterUpdate(p.pieces, i, q);
    HeldAtMostFile(p');
    assert p'.fileSize < TWO64;
    hide HeldBytes, HeldIn, Laid, AllHeld;
  }

  /** A piece changed, and the counter with it. */
  lemma BooksAfterPiece(p: Progress, i: nat, q: PieceProgress, delta: int, p': Progress)
    requires Books(p) && i < |p.pieces| && PieceOk(q)
    requires WellCut(q, PieceStart(p.fileSize, i), PieceLength(p.fileSize, i))
    requires delta == HeldIn(q.blocks) - HeldIn(p.pieces[i].blocks)
    requires p'.pieces == p.pieces[i := q] && p'.fileSize == p.fileSize && p'.total == (p.total + delta) % TWO64
    ensures Books(p') && p'.total == p.total + delta
  {
    hide Laid, Conserved, HeldIn, WellCut, PieceOk, PieceStart, PieceLength;
    LaidAfter(p, i, q, p');
    ConservedAfterPiece(p, i, q, delta, p');
    PiecesOkAfter(p, i, q, p');
  }

  /** An arriving block is counted once, whatever its status was. */
  lemma BooksAfterBlock(p: Progress, piece: nat, block: nat)
    requires Books(p) && piece < |p.pieces| && block < |p.pieces[piece].blocks|
    ensures Books(AfterBlock(p, piece, block))
    ensures var b := p.pieces[piece].blocks[block];
            AfterBlock(p, piece, block).total == p.total + if IsHeld(b.status) then 0 else b.size
  {
    var q := p.pieces[piece];
    var q' := PieceAfterBlock(q, block);
    BlockKeepsPlace(q, PieceStart(p.fileSize, piece), PieceLength(p.fileSize, piece), block, Downloaded);
    PieceOkAfterBlock(q, block);
    HeldAfterUpdate(q.blocks, block, q.blocks[block].(status := Downloaded));
    hide PieceOk, HeldIn, Laid;
    BooksAfterPiece(p, piece, q', if IsHeld(q.blocks[block].status) then 0 else q.blocks[block].size,
                    AfterBlock(p, piece, block));
  }

  lemma BooksAfterPieceStatus(p: Progress, piece: nat, status: DownloadStatus)
    requires Books(p) && piece < |p.pieces|
    requires status != Downloading
    requires status == Empty && p.pieces[piece].status == Empty ==> NoneHeld(p.pieces[piece].blocks)
    ensures Books(AfterPieceStatus(p, piece, status))
    ensures AfterPieceStatus(p, piece, status).total == p.total + StatusDelta(p.pieces[piece], status)
  {
    var q := p.pieces[piece];
    var q' := PieceWithStatus(q, status);
    var p' := AfterPieceStatus(p, piece, status);
    StatusDeltaExact(q, PieceStart(p.fileSize, piece), PieceLength(p.fileSize, piece), status);
    StatusKeepsPlaces(q, PieceStart(p.fileSize, piece), PieceLength(p.fileSize, piece), status);
    PieceOkWithStatus(q, status);
    hide PieceOk, HeldIn, Laid, WellCut, PieceWithStatus, StatusDelta;
    BooksAfterPiece(p, piece, q', StatusDelta(q, status), p');
  }

  /** Against the sizes of its blocks, done() counts too little for every piece whose status claims more than it holds. */
  lemma {:induction false} DoneCounts(p: Progress, n: nat)
    requires Laid(p) && n <= |p.pieces|
    ensures HeldBytes(AllWithStatus(p.pieces[..n], Verified)) >= HeldBytes(p.pieces[..n]) + DoneDelta(p.pieces[..n])
    ensures HeldBytes(AllWithStatus(p.pieces[..n], Verified)) == HeldBytes(p.pieces[..n]) + DoneDelta(p.pieces[..n])
            <==> forall i | 0 <= i < n && IsHeld(p.pieces[i].status) :: AllHeld(p.pieces[i].blocks)
    ensures DoneDelta(p.pieces[..n]) >= 0
  {
    hide AllHeld, PieceStart, PieceLength, HeldIn, SizeOf, WellCut;
    if n > 0 {
      DoneCounts(p, n - 1);
      assert p.pieces[..n][..n - 1] == p.pieces[..n - 1];
      assert AllWithStatus(p.pieces[..n], Verified)[..n - 1] == AllWithStatus(p.pieces[..n - 1], Verified);
      DoneCountsPiece(p.pieces[n - 1], PieceStart(p.fileSize, n - 1), PieceLength(p.fileSize, n - 1));
    }
  }

  lemma DoneCountsPiece(q: PieceProgress, offset: nat, size: nat)
    requires WellCut(q, offset, size)
    ensures HeldIn(PieceWithStatus(q, Verified).blocks) >= HeldIn(q.blocks) + StatusDelta(q, Verified)
    ensures HeldIn(PieceWithStatus(q, Verified).blocks) == HeldIn(q.blocks) + StatusDelta(q, Verified)
            <==> (IsHeld(q.status) ==> AllHeld(q.blocks))
    ensures StatusDelta(q, Verified) >= 0
  {
    BlocksFillPiece(q, offset, size);
    HeldAtMostSize(q.blocks);
    HeldWithAll(q.blocks, Verified);
    hide HeldIn, SizeOf, WellCut, AllHeld, NoneHeld;
  }

  lemma LaidAfterDone(p: Progress)
    requires Laid(p)
    ensures Laid(AfterDone(p))
  {
    forall i | 0 <= i < |p.pieces|
      ensures WellCut(AfterDone(p).pieces[i], PieceStart(p.fileSize, i), PieceLength(p.fileSize, i))
    {
      StatusKeepsPlaces(p.pieces[i], PieceStart(p.fileSize, i), PieceLength(p.fileSize, i), Verified);
    }
  }

  lemma DoneIsComplete(p: Progress)
    requires Laid(p)
    ensures AllComplete(AfterDone(p))
    ensures forall i | 0 <= i < |p.pieces| :: PieceOk(AfterDone(p).pieces[i]) && AllHeld(AfterDone(p).pieces[i].blocks)
  {
    forall i | 0 <= i < |p.pieces|
      ensures PieceOk(AfterDone(p).pieces[i])
    {
      assert WellCut(p.pieces[i], PieceStart(p.fileSize, i), PieceLength(p.fileSize, i));
      PieceOkWithStatus(p.pieces[i], Verified);
    }
  }

  /** done() takes the piece statuses on trust: it ends with right books, and the whole file counted,
      exactly when no piece claimed to be complete before it was. */
  lemma BooksAfterDone(p: Progress)
    requires Laid(p) && Conserved(p)
    ensures Books(AfterDone(p))
            <==> forall i | 0 <= i < |p.pieces| && IsHeld(p.pieces[i].status) :: AllHeld(p.pieces[i].blocks)
    ensures Books(AfterDone(p)) <==> AfterDone(p).total == p.fileSize
  {
    var q := AfterDone(p);
    DoneCounts(p, |p.pieces|);
    assert p.pieces[..|p.pieces|] == p.pieces;
    LaidAfterDone(p);
    DoneIsComplete(p);
    HeldAtMostFile(q);
    hide Laid, AllHeld, HeldBytes, DoneDelta, PieceOk, AllWithStatus;
  }

  /** updateBlockStatus never touches the counter: it keeps the books of a laid-out download
      exactly when it does not change whether the block is held. */
  lemma BlockStatusConserves(p: Progress, piece: nat, block: nat, status: DownloadStatus)
    requires Laid(p) && Conserved(p) && piece < |p.pieces| && block < |p.pieces[piece].blocks|
    ensures Conserved(AfterBlockStatus(p, piece, block, status))
            <==> IsHeld(status) == IsHeld(p.pieces[piece].blocks[block].status)
  {
    var q := p.pieces[piece];
    BlocksFillPiece(q, PieceStart(p.fileSize, piece), PieceLength(p.fileSize, piece));
    HeldAfterUpdate(q.blocks, block, q.blocks[block].(status := status));
    HeldBytesAfterUpdate(p.pieces, piece, PieceWithBlockStatus(q, block, status));
  }

  lemma BooksAfterBlockStatus(p: Progress, piece: nat, block: nat, status: DownloadStatus)
    requires Books(p) && piece < |p.pieces| && block < |p.pieces[piece].blocks|
    requires status == Empty || status == Downloading
    requires !IsHeld(p.pieces[piece].blocks[block].status)
    ensures Books(AfterBlockStatus(p, piece, block, status))
  {
    var q := p.pieces[piece];
    BlockStatusConserves(p, piece, block, status);
    BlockKeepsPlace(q, PieceStart(p.fileSize, piece), PieceLength(p.fileSize, piece), block, status);
    PieceOkWithBlockStatus(q, block, status);
    LaidAfter(p, piece, PieceWithBlockStatus(q, block, status), AfterBlockStatus(p, piece, block, status));
  }
}
