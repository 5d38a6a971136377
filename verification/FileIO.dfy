// The downloaded file on disk, and the operations that keep it and its progress in step.

module FileIO {
  import opened Wrappers
  import opened Bytes
  import opened FileSplitter
  import opened DownloadProgress

  /** The file on disk together with what is known about it. */
  datatype Disk = Disk(file: seq<byte>, prog: Progress)

  type HashFunction = seq<byte> -> Hash

  function BlockOffset(fileSize: nat, piece: nat, block: nat): nat {
    PieceStart(fileSize, piece) + block * BLOCK_SIZE
  }

  /** FileUtils::verifyPiece. */
  predicate Verifies(hash: HashFunction, file: seq<byte>, offset: nat, size: nat, expected: Hash) {
    hash(ReadChunk(file, offset, size)) == expected
  }

  predicate InRange(p: Progress, piece: nat, block: nat) {
    piece < |p.pieces| && block < |p.pieces[piece].blocks|
  }

  /** FileIO::saveBlock: write, account, and settle the piece once it is complete. */
  function AfterSave(hash: HashFunction, d: Disk, piece: nat, block: nat, data: seq<byte>): Disk
    requires InRange(d.prog, piece, block)
  {
    var file := WriteChunk(d.file, BlockOffset(d.prog.fileSize, piece, block), data);
    var prog := AfterBlock(d.prog, piece, block);
    var p := prog.pieces[piece];
    if p.status == Downloaded then
      var good := Verifies(hash, file, PieceStart(d.prog.fileSize, piece), p.size, p.hash);
      Disk(file, AfterPieceStatus(prog, piece, if good then Verified else Empty))
    else
      Disk(file, prog)
  }

  /** The value saveBlock returns: this block completed its piece and the piece is good. */
  predicate SaveVerified(hash: HashFunction, d: Disk, piece: nat, block: nat, data: seq<byte>)
    requires InRange(d.prog, piece, block)
  {
    && AfterBlock(d.prog, piece, block).pieces[piece].status == Downloaded
    && AfterSave(hash, d, piece, block, data).prog.pieces[piece].status == Verified
  }

  /** A save answers true exactly when the block is Verified afterwards; the piece then is, and has its hash. */
  lemma SaveAnswers(hash: HashFunction, d: Disk, piece: nat, block: nat, data: seq<byte>)
    requires InRange(d.prog, piece, block)
    ensures var d' := AfterSave(hash, d, piece, block, data);
      && InRange(d'.prog, piece, block)
      && var p := d'.prog.pieces[piece];
         && SaveVerified(hash, d, piece, block, data) == (p.blocks[block].status == Verified)
         && (p.blocks[block].status == Verified ==>
               && p.status == Verified
               && hash(ReadChunk(d'.file, PieceStart(d.prog.fileSize, piece), p.size)) == p.hash)
  {
    hide WriteChunk, ReadChunk, PieceStart, BlockOffset;
  }

  /** The block completes its piece: the piece was complete before, or all its other blocks are Downloaded. */
  predicate Completes(p: PieceProgress, block: nat) {
    p.status == Downloaded || forall j | 0 <= j < |p.blocks| && j != block :: p.blocks[j].status == Downloaded
  }

  /** A save writes the bytes at the place of the block and moves its piece alone: a block that does not complete it
      is Downloaded; one that does makes all of it Verified if it now has its hash, and Empty otherwise. */
  lemma SaveOutcome(hash: HashFunction, d: Disk, piece: nat, block: nat, data: seq<byte>)
    requires InRange(d.prog, piece, block)
    ensures var d' := AfterSave(hash, d, piece, block, data);
      && d'.file == WriteChunk(d.file, piece * PieceSize(d.prog.fileSize) + block * 12_288, data)
      && |d'.prog.pieces| == |d.prog.pieces| && |d'.prog.pieces[piece].blocks| == |d.prog.pieces[piece].blocks|
      && (forall i | 0 <= i < |d.prog.pieces| && i != piece :: d'.prog.pieces[i] == d.prog.pieces[i])
      && var p, q := d.prog.pieces[piece], d'.prog.pieces[piece];
         if Completes(p, block) then
           var status := if hash(ReadChunk(d'.file, piece * PieceSize(d.prog.fileSize), p.size)) == p.hash
                         then Verified else Empty;
           q.status == status && forall j | 0 <= j < |q.blocks| :: q.blocks[j].status == status
         else
           && q.status == p.status && q.blocks[block].status == Downloaded
           && forall j | 0 <= j < |q.blocks| && j != block :: q.blocks[j] == p.blocks[j]
  {
    hide WriteChunk, ReadChunk, PieceSize, StatusDelta;
    var p := d.prog.pieces[piece];
    AllOthersDownloaded(p, block);
  }

  lemma AllOthersDownloaded(p: PieceProgress, block: nat)
    requires block < |p.blocks|
    ensures PieceAfterBlock(p, block).status == Downloaded <==> Completes(p, block)
  {
    var blocks := WithBlock(p, block, Downloaded).blocks;
    assert forall j | 0 <= j < |blocks| && j != block :: blocks[j] == p.blocks[j];
    if AllBlocksDownloaded(blocks) {
      assert forall j | 0 <= j < |blocks| && j != block :: p.blocks[j].status == blocks[j].status;
    }
  }

  predicate IsDamaged(hash: HashFunction, d: Disk, i: nat)
    requires i < |d.prog.pieces|
  {
    var p := d.prog.pieces[i];
    !Verifies(hash, d.file, p.offset, p.size, p.hash)
  }

  /** FileIO::getDamagedPieces on the first n pieces; the result holds 16-bit numbers. */
  function DamagedUpTo(hash: HashFunction, d: Disk, n: nat): (damaged: seq<nat>)
    requires n <= |d.prog.pieces|
    ensures forall k | 0 <= k < |damaged| :: damaged[k] < n
  {
    if n == 0 then []
    else
      var rest := DamagedUpTo(hash, d, n - 1);
      if IsDamaged(hash, d, n - 1) then rest + [(n - 1) % 0x1_0000] else rest
  }

  /** Up to 65536 pieces the list names exactly the damaged ones. */
  lemma {:induction false} DamagedExact(hash: HashFunction, d: Disk, n: nat, i: nat)
    requires n <= |d.prog.pieces| <= 0x1_0000 && i < |d.prog.pieces|
    ensures i in DamagedUpTo(hash, d, n) <==> i < n && IsDamaged(hash, d, i)
  {
    if n > 0 {
      DamagedExact(hash, d, n - 1, i);
    }
  }

  function WithStatuses(p: Progress, numbers: seq<nat>, status: DownloadStatus): Progress
    requires forall k | 0 <= k < |numbers| :: numbers[k] < |p.pieces|
    ensures |WithStatuses(p, numbers, status).pieces| == |p.pieces|
  {
    if |numbers| == 0 then p
    else
      AfterPieceStatus(WithStatuses(p, numbers[..|numbers| - 1], status), numbers[|numbers| - 1], status)
  }

  function UpTo(n: nat): seq<nat> {
    seq(n, i => i)
  }

  predicate FileVerifies(hash: HashFunction, d: Disk, fileHash: Hash) {
    Verifies(hash, d.file, 0, d.prog.fileSize, fileHash)
  }

  /** FileIO::verifyFile: a file that fails sends its damaged pieces back to Empty. */
  function AfterVerifyFile(hash: HashFunction, d: Disk, fileHash: Hash): (d': Disk)
    ensures |d'.prog.pieces| == |d.prog.pieces|
  {
    if FileVerifies(hash, d, fileHash) then d
    else d.(prog := WithStatuses(d.prog, DamagedUpTo(hash, d, |d.prog.pieces|), Empty))
  }

  lemma {:induction false} EmptiedAt(p: Progress, numbers: seq<nat>, i: nat)
    requires forall k | 0 <= k < |numbers| :: numbers[k] < |p.pieces|
    requires i < |p.pieces|
    ensures WithStatuses(p, numbers, Empty).pieces[i] ==
            if i in numbers then PieceWithStatus(p.pieces[i], Empty) else p.pieces[i]
  {
    if |numbers| > 0 {
      EmptiedAt(p, numbers[..|numbers| - 1], i);
      EmptiedTwice(p.pieces[i]);
    }
  }

  lemma EmptiedTwice(p: PieceProgress)
    ensures PieceWithStatus(PieceWithStatus(p, Empty), Empty) == PieceWithStatus(p, Empty)
  {
    assert PieceWithStatus(PieceWithStatus(p, Empty), Empty).blocks == PieceWithStatus(p, Empty).blocks;
  }

  /** A check that fails starts every damaged piece all over again, and leaves the others and the file alone. */
  lemma FailedCheck(hash: HashFunction, d: Disk, fileHash: Hash, i: nat)
    requires hash(ReadChunk(d.file, 0, d.prog.fileSize)) != fileHash
    requires |d.prog.pieces| <= 0x1_0000 && i < |d.prog.pieces|
    ensures AfterVerifyFile(hash, d, fileHash).file == d.file
    ensures var p, p' := d.prog.pieces[i], AfterVerifyFile(hash, d, fileHash).prog.pieces[i];
      if hash(ReadChunk(d.file, p.offset, p.size)) == p.hash then p' == p
      else && p'.status == Empty && |p'.blocks| == |p.blocks|
           && forall j | 0 <= j < |p.blocks| :: p'.blocks[j] == p.blocks[j].(status := Empty)
  {
    DamagedExact(hash, d, |d.prog.pieces|, i);
    EmptiedAt(d.prog, DamagedUpTo(hash, d, |d.prog.pieces|), i);
  }

  function AfterChangeAll(d: Disk, status: DownloadStatus): Disk {
    d.(prog := WithStatuses(d.prog, UpTo(|d.prog.pieces|), status))
  }

  /** FileUtils::createFilePlaceHolder fills the file with the character '0'. */
  method CreatePlaceHolder(size: nat) returns (file: seq<byte>)
    ensures file == seq(size, i => 0x30)
  {
    var bufferSize := 4 * 1024;
    var buffer: seq<byte> := seq(bufferSize, i => 0x30);
    file := [];
    while |file| < size
      invariant |file| <= size
      invariant forall i | 0 <= i < |file| :: file[i] == 0x30
    {
      file := file + buffer[..Min(bufferSize, size - |file|)];
    }
  }

  class FileIO {
    const hash: HashFunction
    const progress: DownloadProgress
    const pieceSize: nat
    var file: seq<byte>

    predicate Valid()
      reads this, progress
    {
      pieceSize == PieceSize(progress.fileSize) && progress.totalDownloadBytes < TWO64
    }

    function View(): Disk
      reads this, progress
    {
      Disk(file, progress.View())
    }

    /** A seed counts everything as verified from the start. */
    constructor (hash: HashFunction, progress: DownloadProgress, isSeed: bool)
      requires progress.totalDownloadBytes < TWO64
      modifies progress`pieces, progress`totalDownloadBytes, progress`completed
      ensures Valid() && this.hash == hash && this.progress == progress
      ensures View() == Disk(seq(progress.fileSize, i => 0x30),
                             if isSeed then AfterDone(old(progress.View())) else old(progress.View()))
    {
      this.hash := hash;
      this.progress := progress;
      this.pieceSize := PieceSize(progress.fileSize);
      this.file := [];
      new;
      file := CreatePlaceHolder(progress.fileSize);
      if isSeed {
        progress.Done();
      }
    }

    /** The block number is passed on in 16 bits. */
    function GetOffset(piece: nat, block: nat): nat
      reads this
    {
      pieceSize * piece + block % 0x1_0000 * BLOCK_SIZE
    }

    method LoadBlock(piece: nat, block: nat) returns (data: seq<byte>)
      requires Valid()
      ensures data == ReadChunk(file, BlockOffset(progress.fileSize, piece, block % 0x1_0000), BLOCK_SIZE)
    {
      data := ReadChunk(file, GetOffset(piece, block), BLOCK_SIZE);
    }

    /** The bytes are written before the indices are checked; block numbers are 16 bits wide. */
    method SaveBlock(piece: nat, block: nat, data: seq<byte>) returns (r: Result<bool>)
      requires Valid() && block < 0x1_0000
      modifies this`file, progress`pieces, progress`totalDownloadBytes, progress`completed
      ensures Valid()
      ensures r.Success? <==> InRange(old(View()).prog, piece, block)
      ensures r.Failure? ==>
                View() == old(View()).(file := WriteChunk(old(file), BlockOffset(progress.fileSize, piece, block), data))
      ensures r.Success? ==> View() == AfterSave(hash, old(View()), piece, block, data)
      ensures r.Success? ==> r.value == SaveVerified(hash, old(View()), piece, block, data)
      ensures r.Success? ==> InRange(View().prog, piece, block)
      ensures r.Success? ==> r.value == (progress.pieces[piece].blocks[block].status == Verified)
      ensures r.Success? && r.value ==>
                && progress.pieces[piece].status == Verified
                && hash(ReadChunk(file, PieceStart(progress.fileSize, piece), progress.pieces[piece].size))
                   == progress.pieces[piece].hash
    {
      if InRange(View().prog, piece, block) {
        SaveAnswers(hash, View(), piece, block, data);
      }
      file := WriteChunk(file, GetOffset(piece, block), data);
      var full := progress.DownloadedBlock(piece, block);
      if full.Failure? {
        return Failure(full.error);
      }
      if full.value {
        var p := progress.pieces[piece];
        var isGood := Verifies(hash, file, GetOffset(piece, 0), p.size, p.hash);
        var _ := progress.UpdatePieceStatus(piece, if isGood then Verified else Empty);
        return Success(isGood);
      }
      return Success(false);
    }

    method GetDamagedPieces() returns (damaged: seq<nat>)
      ensures damaged == DamagedUpTo(hash, View(), |View().prog.pieces|)
    {
      damaged := [];
      for i := 0 to |progress.pieces|
        invariant damaged == DamagedUpTo(hash, View(), i)
      {
        var p := progress.pieces[i];
        if !Verifies(hash, file, p.offset, p.size, p.hash) {
          damaged := damaged + [i % 0x1_0000];
        }
      }
    }

    method VerifyFile() returns (good: bool)
      requires Valid()
      modifies progress`pieces, progress`totalDownloadBytes, progress`completed
      ensures Valid()
      ensures good == FileVerifies(hash, old(View()), progress.fileHash)
      ensures View() == AfterVerifyFile(hash, old(View()), progress.fileHash)
      ensures |progress.pieces| == |old(progress.pieces)|
      ensures !good && |progress.pieces| <= 0x1_0000 ==>
        forall i | 0 <= i < |progress.pieces| ::
          var p, p' := old(progress.pieces)[i], progress.pieces[i];
          if hash(ReadChunk(file, p.offset, p.size)) == p.hash then p' == p
          else p'.status == Empty && forall j | 0 <= j < |p'.blocks| :: p'.blocks[j].status == Empty
    {
      if Verifies(hash, file, 0, progress.fileSize, progress.fileHash) {
        return true;
      }
      var damaged := GetDamagedPieces();
      ghost var before := View();
      for k := 0 to |damaged|
        invariant Valid()
        invariant View() == before.(prog := WithStatuses(before.prog, damaged[..k], Empty))
      {
        assert damaged[..k + 1][..k] == damaged[..k];
        var _ := progress.UpdatePieceStatus(damaged[k], Empty);
      }
      assert damaged[..|damaged|] == damaged;
      if |before.prog.pieces| <= 0x1_0000 {
        forall i | 0 <= i < |before.prog.pieces| {
          FailedCheck(hash, before, progress.fileHash, i);
        }
      }
      return false;
    }

    method ChangeAllStatus(status: DownloadStatus)
      requires Valid()
      modifies progress`pieces, progress`totalDownloadBytes, progress`completed
      ensures Valid()
      ensures View() == AfterChangeAll(old(View()), status)
    {
      ghost var before := View();
      var n := |progress.pieces|;
      for i := 0 to n
        invariant Valid()
        invariant View() == before.(prog := WithStatuses(before.prog, UpTo(n)[..i], status))
      {
        assert UpTo(n)[..i + 1][..i] == UpTo(n)[..i];
        var _ := progress.UpdatePieceStatus(i, status);
      }
      assert UpTo(n)[..n] == UpTo(n);
    }
  }
}
