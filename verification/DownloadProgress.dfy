// The state of one download: the status of every block and piece, and the byte counter.
//
// PieceProgress and BlockInfo live by value inside vectors, and the getters hand out
// copies of them, so they are datatypes here; DownloadProgress is the object they are kept in.

module DownloadProgress {
  import opened Wrappers
  import opened Bytes
  import opened FileSplitter

  type Hash = seq<byte>

  datatype DownloadStatus = Empty | Downloading | Downloaded | Verified

  datatype BlockInfo = BlockInfo(offset: nat, size: nat, isLastBlock: bool, status: DownloadStatus)

  datatype PieceProgress = PieceProgress(
    status: DownloadStatus,
    offset: nat,
    blocks: seq<BlockInfo>,
    size: nat,
    bytesDownloaded: nat,
    lastAccess: nat,
    hash: Hash)

  /** The part of the object that the download itself changes. */
  datatype Progress = Progress(pieces: seq<PieceProgress>, total: nat, fileSize: nat, completed: bool)

  const TWO64: nat := 0x1_0000_0000_0000_0000

  predicate IsHeld(s: DownloadStatus) {
    s == Downloaded || s == Verified
  }

  // ----- what is counted

  function HeldIn(blocks: seq<BlockInfo>): nat {
    if |blocks| == 0 then 0
    else
      var b := blocks[|blocks| - 1];
      HeldIn(blocks[..|blocks| - 1]) + (if IsHeld(b.status) then b.size else 0)
  }

  function SizeOf(blocks: seq<BlockInfo>): nat {
    if |blocks| == 0 then 0 else SizeOf(blocks[..|blocks| - 1]) + blocks[|blocks| - 1].size
  }

  function HeldBytes(pieces: seq<PieceProgress>): nat {
    if |pieces| == 0 then 0
    else HeldBytes(pieces[..|pieces| - 1]) + HeldIn(pieces[|pieces| - 1].blocks)
  }

  predicate AllHeld(blocks: seq<BlockInfo>) {
    forall j | 0 <= j < |blocks| :: IsHeld(blocks[j].status)
  }

  predicate NoneHeld(blocks: seq<BlockInfo>) {
    forall j | 0 <= j < |blocks| :: !IsHeld(blocks[j].status)
  }

  // ----- one piece

  predicate AllBlocksDownloaded(blocks: seq<BlockInfo>) {
    forall j | 0 <= j < |blocks| :: blocks[j].status == Downloaded
  }

  function WithBlock(p: PieceProgress, block: nat, status: DownloadStatus): PieceProgress
    requires block < |p.blocks|
  {
    p.(blocks := p.blocks[block := p.blocks[block].(status := status)])
  }

  /** PieceProgress::downloadedBlock. */
  function PieceAfterBlock(p: PieceProgress, block: nat): PieceProgress
    requires block < |p.blocks|
  {
    var p' := WithBlock(p, block, Downloaded);
    if AllBlocksDownloaded(p'.blocks) then p'.(status := Downloaded) else p'
  }

  /** PieceProgress::updateBlockStatus. */
  function PieceWithBlockStatus(p: PieceProgress, block: nat, status: DownloadStatus): PieceProgress
    requires block < |p.blocks|
  {
    var p' := WithBlock(p, block, status);
    if status == Downloaded && AllBlocksDownloaded(p'.blocks) then p'.(status := Downloaded)
    else if status == Downloading then p'.(status := Downloading)
    else p'
  }

  function WithAllBlocks(blocks: seq<BlockInfo>, status: DownloadStatus): seq<BlockInfo> {
    seq(|blocks|, j requires 0 <= j < |blocks| => blocks[j].(status := status))
  }

  /** PieceProgress::setStatus, the new piece. */
  function PieceWithStatus(p: PieceProgress, status: DownloadStatus): PieceProgress {
    if status == Downloading then p.(status := status)
    else p.(status := status, blocks := WithAllBlocks(p.blocks, status))
  }

  predicate Removes(p: PieceProgress, status: DownloadStatus) {
    status == Empty && p.status != Empty
  }

  predicate Adds(p: PieceProgress, status: DownloadStatus) {
    IsHeld(status) && !IsHeld(p.status)
  }

  /** PieceProgress::setStatus, the returned change of the byte counter. */
  function StatusDelta(p: PieceProgress, status: DownloadStatus): int {
    if Removes(p, status) then 0 - HeldIn(p.blocks)
    else if Adds(p, status) then SizeOf(p.blocks) - HeldIn(p.blocks)
    else 0
  }

  method SetStatus(p: PieceProgress, status: DownloadStatus) returns (p': PieceProgress, sizeChanged: int)
    ensures p' == PieceWithStatus(p, status)
    ensures sizeChanged == StatusDelta(p, status)
  {
    sizeChanged := 0;
    var toRemove := status == Empty && p.status != Empty;
    var toAdd := (status == Verified || status == Downloaded) && (p.status == Empty || p.status == Downloading);
    p' := p.(status := status);
    if status != Downloading {
      var blocks := p.blocks;
      for i := 0 to |blocks|
        invariant |blocks| == |p.blocks|
        invariant forall j | 0 <= j < i :: blocks[j] == p.blocks[j].(status := status)
        invariant forall j | i <= j < |blocks| :: blocks[j] == p.blocks[j]
        invariant sizeChanged == if toRemove then 0 - HeldIn(p.blocks[..i])
                                 else if toAdd then SizeOf(p.blocks[..i]) - HeldIn(p.blocks[..i])
                                 else 0
      {
        assert p.blocks[..i + 1][..i] == p.blocks[..i];
        if toRemove && (blocks[i].status == Downloaded || blocks[i].status == Verified) {
          sizeChanged := sizeChanged - blocks[i].size;
        }
        if toAdd && (blocks[i].status == Empty || blocks[i].status == Downloading) {
          sizeChanged := sizeChanged + blocks[i].size;
        }
        blocks := blocks[i := blocks[i].(status := status)];
      }
      assert p.blocks[..|blocks|] == p.blocks;
      assert blocks == WithAllBlocks(p.blocks, status);
      p' := p'.(blocks := blocks);
    }
  }

  method HasAllBlocksDownloaded(p: PieceProgress) returns (all: bool)
    ensures all == AllBlocksDownloaded(p.blocks)
  {
    for i := 0 to |p.blocks|
      invariant forall j | 0 <= j < i :: p.blocks[j].status == Downloaded
    {
      if p.blocks[i].status != Downloaded {
        return false;
      }
    }
    return true;
  }

  function BlocksStatused(blocks: seq<BlockInfo>, status: DownloadStatus): seq<BlockInfo> {
    if |blocks| == 0 then []
    else
      var rest := BlocksStatused(blocks[..|blocks| - 1], status);
      if blocks[|blocks| - 1].status == status then rest + [blocks[|blocks| - 1]] else rest
  }

  method GetBlocksStatused(p: PieceProgress, status: DownloadStatus) returns (result: seq<BlockInfo>)
    ensures result == BlocksStatused(p.blocks, status)
  {
    result := [];
    for i := 0 to |p.blocks|
      invariant result == BlocksStatused(p.blocks[..i], status)
    {
      assert p.blocks[..i + 1][..i] == p.blocks[..i];
      if p.blocks[i].status == status {
        result := result + [p.blocks[i]];
      }
    }
    assert p.blocks[..|p.blocks|] == p.blocks;
  }

  // ----- the fresh state cut by the constructors

  function FreshBlock(size: nat, j: nat): BlockInfo
    requires j < BlockCount(size)
  {
    BlockInfo(j * BLOCK_SIZE, BlockLength(size, j), j + 1 == BlockCount(size), Empty)
  }

  function FreshPiece(offset: nat, size: nat, hash: Hash, now: nat): PieceProgress {
    PieceProgress(Empty, offset,
                  seq(BlockCount(size), j requires 0 <= j < BlockCount(size) => FreshBlock(size, j)),
                  size, 0, now, hash)
  }

  /** The blocks of a piece keep the places the constructor gave them; only statuses move. */
  predicate WellCut(p: PieceProgress, offset: nat, size: nat) {
    && p.offset == offset
    && p.size == size
    && |p.blocks| == BlockCount(size)
    && forall j | 0 <= j < |p.blocks| :: p.blocks[j].(status := Empty) == FreshBlock(size, j)
  }

  predicate Laid(p: Progress) {
    && p.fileSize < TWO64
    && |p.pieces| == PieceCount(p.fileSize)
    && forall i | 0 <= i < |p.pieces| ::
         PieceLength(p.fileSize, i) > 0
         && WellCut(p.pieces[i], PieceStart(p.fileSize, i), PieceLength(p.fileSize, i))
  }

  method NewPiece(offset: nat, size: nat, hash: Hash, now: nat) returns (p: PieceProgress)
    ensures p == FreshPiece(offset, size, hash, now)
  {
    var blocks: seq<BlockInfo> := [];
    var temp := size;
    while temp > 0
      invariant temp <= size && |blocks| <= BlockCount(size)
      invariant temp == Max(0, size - |blocks| * BLOCK_SIZE)
      invariant forall j | 0 <= j < |blocks| :: blocks[j] == FreshBlock(size, j)
    {
      var length := if BLOCK_SIZE < temp then BLOCK_SIZE else temp;
      var offset := size - temp;
      temp := temp - length;
      blocks := blocks + [BlockInfo(offset, length, temp == 0, Empty)];
    }
    p := PieceProgress(Empty, offset, blocks, size, 0, now, hash);
    assert |blocks| == BlockCount(size);
    assert blocks == FreshPiece(offset, size, hash, now).blocks;
  }

  // ----- progress as a whole

  /** progress() >= 1. The quotient is a NaN for an empty file without bytes. */
  predicate ProgressIsOne(p: Progress) {
    if p.fileSize == 0 then p.total > 0 else p.total >= p.fileSize
  }

  function AfterBlock(p: Progress, piece: nat, block: nat): Progress
    requires piece < |p.pieces| && block < |p.pieces[piece].blocks|
  {
    var b := p.pieces[piece].blocks[block];
    p.(pieces := p.pieces[piece := PieceAfterBlock(p.pieces[piece], block)],
       total := (p.total + if IsHeld(b.status) then 0 else b.size) % TWO64)
  }

  function MarkCompleted(p: Progress): Progress {
    if ProgressIsOne(p) then p.(completed := true) else p
  }

  function AfterPieceStatus(p: Progress, piece: nat, status: DownloadStatus): Progress
    requires piece < |p.pieces|
  {
    MarkCompleted(p.(pieces := p.pieces[piece := PieceWithStatus(p.pieces[piece], status)],
                     total := (p.total + StatusDelta(p.pieces[piece], status)) % TWO64))
  }

  function AfterBlockStatus(p: Progress, piece: nat, block: nat, status: DownloadStatus): Progress
    requires piece < |p.pieces| && block < |p.pieces[piece].blocks|
  {
    MarkCompleted(p.(pieces := p.pieces[piece := PieceWithBlockStatus(p.pieces[piece], block, status)]))
  }

  class DownloadProgress {
    var fileName: seq<byte>
    var creator: seq<byte>
    var fileHash: Hash
    var completed: bool
    var totalDownloadBytes: nat
    var fileSize: nat
    var startTime: nat
    var lastTime: nat
    var pieces: seq<PieceProgress>
    var signalingAddress: seq<byte>

    function View(): Progress
      reads this
    {
      Progress(pieces, totalDownloadBytes, fileSize, completed)
    }

    constructor (fileName: seq<byte>, creator: seq<byte>, fileHash: Hash, fileSize: nat,
                 partsHashes: seq<Hash>, signalingAddress: seq<byte>, now: nat)
      requires |partsHashes| >= PieceCount(fileSize)
      ensures View().total == 0 && !View().completed && View().fileSize == fileSize
      ensures this.fileHash == fileHash
      ensures |View().pieces| == PieceCount(fileSize)
      ensures forall i | 0 <= i < PieceCount(fileSize) ::
                PieceLength(fileSize, i) > 0
                && View().pieces[i] == FreshPiece(PieceStart(fileSize, i), PieceLength(fileSize, i), partsHashes[i], now)
    {
      this.fileName := fileName;
      this.creator := creator;
      this.startTime := now;
      this.lastTime := now;
      this.fileSize := fileSize;
      this.totalDownloadBytes := 0;
      this.completed := false;
      this.fileHash := fileHash;
      this.signalingAddress := signalingAddress;
      this.pieces := [];
      new;
      var temp := fileSize;
      var pieceSize := PieceSize(temp);
      var i := 0;
      while temp > 0
        invariant View().total == 0 && !View().completed && View().fileSize == fileSize && this.fileHash == fileHash
        invariant pieceSize == PieceSize(fileSize)
        invariant |pieces| == i <= PieceCount(fileSize)
        invariant temp == if i < PieceCount(fileSize) then fileSize - PieceStart(fileSize, i) else 0
        invariant forall k | 0 <= k < i ::
                    PieceLength(fileSize, k) > 0
                    && pieces[k] == FreshPiece(PieceStart(fileSize, k), PieceLength(fileSize, k), partsHashes[k], now)
      {
        PieceLengths(fileSize, i);
        var piece := NewPiece(fileSize - temp, if temp > pieceSize then pieceSize else temp, partsHashes[i], now);
        temp := temp - piece.size;
        pieces := pieces + [piece];
        i := i + 1;
      }
      if i < PieceCount(fileSize) {
        StartsInside(fileSize, i);
      }
    }

    /** Marks a block as arrived; true when its piece is now complete and unverified. */
    method DownloadedBlock(piece: nat, block: nat) returns (r: Result<bool>)
      requires totalDownloadBytes < TWO64
      modifies this`pieces, this`totalDownloadBytes
      ensures r.Success? <==> piece < |old(pieces)| && block < |old(pieces)[piece].blocks|
      ensures r.Failure? ==> View() == old(View())
      ensures r.Success? ==> View() == AfterBlock(old(View()), piece, block)
      ensures r.Success? ==> r.value == (View().pieces[piece].status == Downloaded)
      ensures totalDownloadBytes < TWO64
    {
      if piece >= |pieces| {
        return Failure("No piece");
      }
      var p := pieces[piece];
      if block >= |p.blocks| {
        return Failure("No block");
      }
      var alreadyDownloaded := p.blocks[block].status == Downloaded || p.blocks[block].status == Verified;
      p := WithBlock(p, block, Downloaded);
      var all := HasAllBlocksDownloaded(p);
      if all {
        p := p.(status := Downloaded);
      }
      pieces := pieces[piece := p];
      totalDownloadBytes := (totalDownloadBytes + if alreadyDownloaded then 0 else p.blocks[block].size) % TWO64;
      return Success(pieces[piece].status == Downloaded);
    }

    method UpdatePieceStatus(piece: nat, status: DownloadStatus) returns (r: Result<()>)
      modifies this`pieces, this`totalDownloadBytes, this`completed
      ensures r.Success? <==> piece < |old(pieces)|
      ensures r.Failure? ==> View() == old(View())
      ensures r.Success? ==> View() == AfterPieceStatus(old(View()), piece, status)
    {
      if piece >= |pieces| {
        return Failure("No piece");
      }
      var p, sizeChanged := SetStatus(pieces[piece], status);
      pieces := pieces[piece := p];
      totalDownloadBytes := (totalDownloadBytes + sizeChanged) % TWO64;
      if ProgressIsOne(View()) {
        completed := true;
      }
      return Success(());
    }

    method UpdateBlockStatus(piece: nat, block: nat, status: DownloadStatus) returns (r: Result<()>)
      modifies this`pieces, this`completed
      ensures r.Success? <==> piece < |old(pieces)| && block < |old(pieces)[piece].blocks|
      ensures r.Failure? ==> View() == old(View())
      ensures r.Success? ==> View() == AfterBlockStatus(old(View()), piece, block, status)
    {
      if piece >= |pieces| {
        return Failure("No piece");
      }
      if block >= |pieces[piece].blocks| {
        return Failure("No block");
      }
      var p := WithBlock(pieces[piece], block, status);
      if status == Downloaded {
        var all := HasAllBlocksDownloaded(p);
        if all {
          p := p.(status := Downloaded);
        }
      }
      if status == Downloading {
        p := p.(status := Downloading);
      }
      pieces := pieces[piece := p];
      if ProgressIsOne(View()) {
        completed := true;
      }
      return Success(());
    }

    /** Used for a seed: every piece is verified, whatever was there before. */
    method Done()
      requires totalDownloadBytes < TWO64
      modifies this`pieces, this`totalDownloadBytes, this`completed
      ensures View() == AfterDone(old(View()))
      ensures totalDownloadBytes < TWO64
    {
      hide StatusDelta, PieceWithStatus, DoneDelta;
      var before := pieces;
      NothingDoneYet(before, totalDownloadBytes);
      for i := 0 to |before|
        invariant |pieces| == |before|
        invariant forall k | 0 <= k < i :: pieces[k] == PieceWithStatus(before[k], Verified)
        invariant forall k | i <= k < |before| :: pieces[k] == before[k]
        invariant totalDownloadBytes == (old(totalDownloadBytes) + DoneDelta(before[..i])) % TWO64
      {
        var p, delta := SetStatus(pieces[i], Verified);
        pieces := pieces[i := p];
        OneMoreDone(before, i, old(totalDownloadBytes));
        totalDownloadBytes := (totalDownloadBytes + delta) % TWO64;
      }
      assert before[..|before|] == before;
      assert pieces == AllWithStatus(before, Verified);
      completed := true;
    }

    method GetPiecesStatused(status: DownloadStatus) returns (result: seq<PieceProgress>)
      ensures result == Statused(pieces, status)
    {
      result := [];
      for i := 0 to |pieces|
        invariant result == Statused(pieces[..i], status)
      {
        assert pieces[..i + 1][..i] == pieces[..i];
        if pieces[i].status == status {
          result := result + [pieces[i]];
        }
      }
      assert pieces[..|pieces|] == pieces;
    }

    function GetPieceIndex(offset: nat): nat
      requires fileSize > 0
      reads this
    {
      PieceSizeBounds(fileSize);
      offset / PieceSize(fileSize)
    }
  }

  function DoneDelta(pieces: seq<PieceProgress>): int {
    if |pieces| == 0 then 0
    else DoneDelta(pieces[..|pieces| - 1]) + StatusDelta(pieces[|pieces| - 1], Verified)
  }

  lemma NothingDoneYet(pieces: seq<PieceProgress>, total: nat)
    requires total < TWO64
    ensures total == (total + DoneDelta(pieces[..0])) % TWO64
  {
  }

  lemma OneMoreDone(pieces: seq<PieceProgress>, i: nat, total: nat)
    requires i < |pieces|
    ensures ((total + DoneDelta(pieces[..i])) % TWO64 + StatusDelta(pieces[i], Verified)) % TWO64
         == (total + DoneDelta(pieces[..i + 1])) % TWO64
  {
    assert pieces[..i + 1][..i] == pieces[..i];
  }

  function AllWithStatus(pieces: seq<PieceProgress>, status: DownloadStatus): seq<PieceProgress> {
    seq(|pieces|, k requires 0 <= k < |pieces| => PieceWithStatus(pieces[k], status))
  }

  function AfterDone(p: Progress): Progress {
    p.(pieces := AllWithStatus(p.pieces, Verified),
       total := (p.total + DoneDelta(p.pieces)) % TWO64,
       completed := true)
  }

  function Statused(pieces: seq<PieceProgress>, status: DownloadStatus): seq<PieceProgress> {
    if |pieces| == 0 then []
    else
      var rest := Statused(pieces[..|pieces| - 1], status);
      if pieces[|pieces| - 1].status == status then rest + [pieces[|pieces| - 1]] else rest
  }
}
