// What the bytes on disk are worth: verified pieces stay verified, and honest sources converge.

module Contents {
  import opened Bytes
  import opened FileSplitter
  import opened Coalescing
  import opened DownloadProgress
  import opened FileIO
  import opened Selection
  import opened RarityTrackerChooser
  import opened Engine
  import opened Agreement
  import opened DownloadRuns

  // ----- steps that write nothing only give up

  /** Nothing new is held or verified, and the recorded hashes stay. */
  ghost predicate GivesUp(p: Progress, q: Progress) {
    && SameShape(p, q)
    && (forall i | 0 <= i < |p.pieces| ::
          && q.pieces[i].hash == p.pieces[i].hash
          && (q.pieces[i].status == p.pieces[i].status || !IsHeld(q.pieces[i].status))
          && q.pieces[i].offset == p.pieces[i].offset && q.pieces[i].size == p.pieces[i].size)
    && forall b: BlockId | Exists(p.pieces, b) && IsHeld(StatusAt(q.pieces, b)) :: IsHeld(StatusAt(p.pieces, b))
  }

  lemma GivesUpRepaint(p: Progress, blocks: set<BlockId>, status: DownloadStatus)
    requires status == Empty || status == Downloading
    ensures GivesUp(p, WithBlocks(p, blocks, status))
  {
  }

  lemma GivesUpTwice(p: Progress, q: Progress, r: Progress)
    requires GivesUp(p, q) && GivesUp(q, r)
    ensures GivesUp(p, r)
  {
    forall b: BlockId | Exists(p.pieces, b) && IsHeld(StatusAt(r.pieces, b))
      ensures IsHeld(StatusAt(p.pieces, b))
    {
      assert Exists(q.pieces, b);
    }
  }

  lemma GivesUpEmpty(p: Progress, i: nat)
    requires i < |p.pieces|
    ensures GivesUp(p, AfterPieceStatus(p, i, Empty))
  {
  }

  lemma {:induction false} GivesUpWithStatuses(p: Progress, numbers: seq<nat>)
    requires forall k | 0 <= k < |numbers| :: numbers[k] < |p.pieces|
    ensures GivesUp(p, WithStatuses(p, numbers, Empty))
  {
    if |numbers| > 0 {
      var n := |numbers| - 1;
      GivesUpWithStatuses(p, numbers[..n]);
      GivesUpEmpty(WithStatuses(p, numbers[..n], Empty), numbers[n]);
      GivesUpTwice(p, WithStatuses(p, numbers[..n], Empty), WithStatuses(p, numbers, Empty));
    }
  }

  lemma {:induction false} GivesUpTurns(t: Turn, snapshot: seq<PieceProgress>, fields: map<PeerId, Bitfield>, now: int,
                                        down: seq<nat>, empty: seq<nat>, peers: seq<PeerId>)
    requires OrderIn(down, t.prog.pieces) && OrderIn(empty, snapshot)
    ensures GivesUp(t.prog, PeerTurns(t, snapshot, fields, now, down, empty, peers).prog)
  {
    if |peers| > 0 {
      var n := |peers| - 1;
      var u := PeerTurns(t, snapshot, fields, now, down, empty, peers[..n]);
      GivesUpTurns(t, snapshot, fields, now, down, empty, peers[..n]);
      GivesUpRepaint(u.prog, ToSet(Picks(u, snapshot, FieldOf(fields, peers[n]), down, empty, Slots(u, peers[n]))),
                     Downloading);
      GivesUpTwice(t.prog, u.prog, PeerTurns(t, snapshot, fields, now, down, empty, peers).prog);
    }
  }

  lemma GivesUpChoose(prog: Progress, c: Chooser, now: int, peers: seq<PeerId>, down: seq<nat>, empty: seq<nat>)
    requires OrderIn(down, prog.pieces) && OrderIn(empty, prog.pieces)
    ensures GivesUp(prog, Chosen(prog, c, now, peers, down, empty).prog)
  {
    var start := AfterTimeouts(prog, c, now);
    GivesUpRepaint(prog, ExpiredAt(c.active, c.active.Keys, now), Empty);
    GivesUpTurns(start, start.prog.pieces, c.bitfields, now, down, empty, peers);
    GivesUpTwice(prog, start.prog, Chosen(prog, c, now, peers, down, empty).prog);
  }

  // ----- verified pieces

  function PieceEnd(fileSize: nat, i: nat): int {
    PieceStart(fileSize, i) + PieceLength(fileSize, i)
  }

  ghost predicate VerifiedIntact(hash: HashFunction, d: Disk) {
    && |d.file| >= d.prog.fileSize
    && forall i | 0 <= i < |d.prog.pieces| && d.prog.pieces[i].status == Verified ::
         Verifies(hash, d.file, PieceStart(d.prog.fileSize, i), d.prog.pieces[i].size, d.prog.pieces[i].hash)
  }

  /** A write of n bytes at a block of piece i can reach no other piece. */
  predicate StaysInPiece(fileSize: nat, i: nat, j: nat, n: nat) {
    BlockOffset(fileSize, i, j) + n <= PieceEnd(fileSize, i) || i + 1 == PieceCount(fileSize)
  }

  /** A delivery leaves the bytes of all other pieces as they were. */
  ghost predicate KeepsOtherPieces(file: seq<byte>, fileSize: nat, i: nat, j: nat, data: seq<byte>) {
    var file' := WriteChunk(file, BlockOffset(fileSize, i, j), data);
    forall x: nat | x < fileSize && !(PieceStart(fileSize, i) <= x < PieceEnd(fileSize, i)) ::
      x < |file| && x < |file'| && file'[x] == file[x]
  }

  /** Exactly the deliveries short enough keep the other pieces whatever their bytes are. */
  lemma SpillExact(file: seq<byte>, fileSize: nat, i: nat, j: nat, n: nat)
    requires |file| >= fileSize && i < PieceCount(fileSize) && j * BLOCK_SIZE < PieceLength(fileSize, i)
    ensures StaysInPiece(fileSize, i, j, n)
            <==> forall data: seq<byte> | |data| == n :: KeepsOtherPieces(file, fileSize, i, j, data)
  {
    var offset := BlockOffset(fileSize, i, j);
    PieceLengths(fileSize, i);
    if StaysInPiece(fileSize, i, j, n) {
      forall data: seq<byte> | |data| == n
        ensures KeepsOtherPieces(file, fileSize, i, j, data)
      {
        forall x: nat | x < fileSize && !(PieceStart(fileSize, i) <= x < PieceEnd(fileSize, i))
          ensures x < |WriteChunk(file, offset, data)| && WriteChunk(file, offset, data)[x] == file[x]
        {
          WriteChunkAt(file, offset, data, x);
        }
      }
    } else {
      var x := PieceEnd(fileSize, i);
      StartsInside(fileSize, i + 1);
      var other: byte := if file[x] == 0 then 1 else 0;
      var data: seq<byte> := seq(n, k => other);
      WriteChunkAt(file, offset, data, x);
      assert !KeepsOtherPieces(file, fileSize, i, j, data);
    }
  }

  lemma ReadUnchanged(file: seq<byte>, file': seq<byte>, offset: nat, size: nat)
    requires offset + size <= |file| && offset + size <= |file'|
    requires forall x | offset <= x < offset + size :: file'[x] == file[x]
    ensures ReadChunk(file', offset, size) == ReadChunk(file, offset, size)
  {
    assert file'[offset..offset + size] == file[offset..offset + size];
  }

  /** The delivery brings the bytes of piece k that are there already. */
  ghost predicate KeepsPiece(d: Disk, b: BlockId, data: seq<byte>, k: nat) {
    var offset := BlockOffset(d.prog.fileSize, b.0, b.1);
    forall x | PieceStart(d.prog.fileSize, k) <= x < PieceEnd(d.prog.fileSize, k) && offset <= x < offset + |data| ::
      x < |d.file| && d.file[x] == data[x - offset]
  }

  /** The delivery changes no byte of a Verified piece that it does not complete, and so check, anew. */
  ghost predicate Harmless(d: Disk, b: BlockId, data: seq<byte>)
    requires InRange(d.prog, b.0, b.1)
  {
    forall k | 0 <= k < |d.prog.pieces| && AfterBlock(d.prog, b.0, b.1).pieces[k].status == Verified ::
      KeepsPiece(d, b, data, k)
  }

  function FileAfter(d: Disk, b: BlockId, data: seq<byte>): seq<byte> {
    WriteChunk(d.file, BlockOffset(d.prog.fileSize, b.0, b.1), data)
  }

  function PieceBytes(file: seq<byte>, p: Progress, k: nat): seq<byte>
    requires k < |p.pieces|
  {
    ReadChunk(file, PieceStart(p.fileSize, k), p.pieces[k].size)
  }

  lemma FileGrows(d: Disk, b: BlockId, data: seq<byte>)
    ensures |FileAfter(d, b, data)| >= |d.file|
  {
  }

  /** The bytes of a piece after a write. */
  lemma PieceAfterWrite(d: Disk, b: BlockId, data: seq<byte>, k: nat, x: nat)
    requires Laid(d.prog) && |d.file| >= d.prog.fileSize && k < |d.prog.pieces|
    requires PieceStart(d.prog.fileSize, k) <= x < PieceEnd(d.prog.fileSize, k)
    ensures x < |d.file| <= |FileAfter(d, b, data)|
    ensures var offset := BlockOffset(d.prog.fileSize, b.0, b.1);
      FileAfter(d, b, data)[x] == if offset <= x < offset + |data| then data[x - offset] else d.file[x]
  {
    PieceLengths(d.prog.fileSize, k);
    WriteChunkAt(d.file, BlockOffset(d.prog.fileSize, b.0, b.1), data, x);
  }

  lemma PieceInFile(p: Progress, k: nat)
    requires Laid(p) && k < |p.pieces|
    ensures PieceStart(p.fileSize, k) + p.pieces[k].size == PieceEnd(p.fileSize, k) <= p.fileSize
  {
    PieceLengths(p.fileSize, k);
    assert WellCut(p.pieces[k], PieceStart(p.fileSize, k), PieceLength(p.fileSize, k));
  }

  /** Bringing a piece's own bytes, and only that, leaves the piece as it is. */
  lemma PieceKept(d: Disk, b: BlockId, data: seq<byte>, k: nat)
    requires Laid(d.prog) && |d.file| >= d.prog.fileSize && k < |d.prog.pieces|
    ensures KeepsPiece(d, b, data, k) <==> PieceBytes(FileAfter(d, b, data), d.prog, k) == PieceBytes(d.file, d.prog, k)
  {
    hide FileAfter, Laid, PieceStart, PieceEnd, ReadChunk, BlockOffset;
    var start, end := PieceStart(d.prog.fileSize, k), PieceEnd(d.prog.fileSize, k);
    var offset, file := BlockOffset(d.prog.fileSize, b.0, b.1), FileAfter(d, b, data);
    PieceInFile(d.prog, k);
    FileGrows(d, b, data);
    forall x | start <= x < end
      ensures file[x] == if offset <= x < offset + |data| then data[x - offset] else d.file[x]
    {
      PieceAfterWrite(d, b, data, k, x);
    }
    if KeepsPiece(d, b, data, k) {
      ReadUnchanged(d.file, file, start, d.prog.pieces[k].size);
    }
    if PieceBytes(file, d.prog, k) == PieceBytes(d.file, d.prog, k) {
      forall x | start <= x < end && offset <= x < offset + |data|
        ensures x < |d.file| && d.file[x] == data[x - offset]
      {
        BytesAgree(d.file, file, start, d.prog.pieces[k].size, x);
      }
      assert KeepsPiece(d, b, data, k);
    }
  }

  lemma BytesAgree(file: seq<byte>, file': seq<byte>, offset: nat, size: nat, x: nat)
    requires ReadChunk(file, offset, size) == ReadChunk(file', offset, size)
    requires offset <= x < offset + size <= |file| <= |file'|
    ensures file[x] == file'[x]
  {
    assert ReadChunk(file, offset, size)[x - offset] == file[x];
    assert ReadChunk(file', offset, size)[x - offset] == file'[x];
  }

  /** Which pieces are Verified after a save: those that stay so, and the completed one if it is good. */
  lemma VerifiedAfterSave(hash: HashFunction, d: Disk, b: BlockId, data: seq<byte>, k: nat)
    requires Laid(d.prog) && InRange(d.prog, b.0, b.1) && k < |d.prog.pieces|
    ensures var d' := AfterSave(hash, d, b.0, b.1, data);
      && d'.file == FileAfter(d, b, data) && |d'.prog.pieces| == |d.prog.pieces|
      && d'.prog.pieces[k].size == d.prog.pieces[k].size && d'.prog.pieces[k].hash == d.prog.pieces[k].hash
      && (AfterBlock(d.prog, b.0, b.1).pieces[k].status == Verified ==>
            d.prog.pieces[k].status == Verified && d'.prog.pieces[k].status == Verified)
      && (d'.prog.pieces[k].status == Verified ==>
            AfterBlock(d.prog, b.0, b.1).pieces[k].status == Verified
            || Verifies(hash, d'.file, PieceStart(d.prog.fileSize, k), d.prog.pieces[k].size, d.prog.pieces[k].hash))
  {
  }

  lemma IntactAfterSave(hash: HashFunction, d: Disk, b: BlockId, data: seq<byte>)
    requires Laid(d.prog) && VerifiedIntact(hash, d) && InRange(d.prog, b.0, b.1) && Harmless(d, b, data)
    ensures VerifiedIntact(hash, AfterSave(hash, d, b.0, b.1, data))
  {
    var d' := AfterSave(hash, d, b.0, b.1, data);
    LaidAfterSave(hash, d, b.0, b.1, data);
    VerifiedAfterSave(hash, d, b, data, b.0);
    FileGrows(d, b, data);
    hide AfterSave, AfterBlock, KeepsPiece, FileAfter, ReadChunk, Laid;
    forall k | 0 <= k < |d'.prog.pieces| && d'.prog.pieces[k].status == Verified
      ensures Verifies(hash, d'.file, PieceStart(d'.prog.fileSize, k), d'.prog.pieces[k].size, d'.prog.pieces[k].hash)
    {
      VerifiedAfterSave(hash, d, b, data, k);
      if AfterBlock(d.prog, b.0, b.1).pieces[k].status == Verified {
        PieceKept(d, b, data, k);
      }
    }
  }

  /** No piece has other bytes of the same hash in the two files. */
  ghost predicate NoCollision(hash: HashFunction, p: Progress, file: seq<byte>, file': seq<byte>) {
    forall k | 0 <= k < |p.pieces| && hash(PieceBytes(file', p, k)) == hash(PieceBytes(file, p, k)) ::
      PieceBytes(file', p, k) == PieceBytes(file, p, k)
  }

  /** As long as the hash tells the two contents apart, nothing less than harmlessness will do. */
  lemma IntactExactly(hash: HashFunction, d: Disk, b: BlockId, data: seq<byte>)
    requires Laid(d.prog) && VerifiedIntact(hash, d) && InRange(d.prog, b.0, b.1)
    requires NoCollision(hash, d.prog, d.file, FileAfter(d, b, data))
    ensures VerifiedIntact(hash, AfterSave(hash, d, b.0, b.1, data)) <==> Harmless(d, b, data)
  {
    if Harmless(d, b, data) {
      IntactAfterSave(hash, d, b, data);
    }
    if VerifiedIntact(hash, AfterSave(hash, d, b.0, b.1, data)) {
      LaidAfterSave(hash, d, b.0, b.1, data);
      hide AfterSave, AfterBlock, ReadChunk, FileAfter, KeepsPiece;
      forall k | 0 <= k < |d.prog.pieces| && AfterBlock(d.prog, b.0, b.1).pieces[k].status == Verified
        ensures KeepsPiece(d, b, data, k)
      {
        VerifiedAfterSave(hash, d, b, data, k);
        PieceKept(d, b, data, k);
      }
    }
  }

  lemma IntactAfterGivingUp(hash: HashFunction, d: Disk, d': Disk)
    requires VerifiedIntact(hash, d) && GivesUp(d.prog, d'.prog) && d'.file == d.file
    ensures VerifiedIntact(hash, d')
  {
  }

  // ----- the whole-file check

  lemma {:induction false} AllVerified(p: Progress, n: nat)
    requires n <= |p.pieces|
    ensures var q := WithStatuses(p, UpTo(n), Verified);
      && q.fileSize == p.fileSize
      && (forall i | 0 <= i < |p.pieces| :: q.pieces[i].size == p.pieces[i].size && q.pieces[i].hash == p.pieces[i].hash)
      && forall i | 0 <= i < n :: q.pieces[i].status == Verified
  {
    if n > 0 {
      assert UpTo(n)[..n - 1] == UpTo(n - 1);
      AllVerified(p, n - 1);
    }
  }

  ghost predicate NothingDamaged(hash: HashFunction, d: Disk) {
    forall i | 0 <= i < |d.prog.pieces| :: !IsDamaged(hash, d, i)
  }

  lemma IsDamagedAt(hash: HashFunction, d: Disk, i: nat)
    requires Laid(d.prog) && i < |d.prog.pieces|
    ensures IsDamaged(hash, d, i)
            <==> !Verifies(hash, d.file, PieceStart(d.prog.fileSize, i), d.prog.pieces[i].size, d.prog.pieces[i].hash)
  {
    assert WellCut(d.prog.pieces[i], PieceStart(d.prog.fileSize, i), PieceLength(d.prog.fileSize, i));
  }

  /** The final check trusts the hash of the file: it declares every piece verified, rightly so exactly when none
      is damaged. */
  lemma IntactAfterRecheck(env: Env, d: Disk)
    requires Laid(d.prog) && VerifiedIntact(env.hash, d)
    ensures VerifiedIntact(env.hash, AfterRecheck(env, d))
            <==> (ProgressIsOne(d.prog) && FileVerifies(env.hash, d, env.fileHash) ==> NothingDamaged(env.hash, d))
  {
    var n := |d.prog.pieces|;
    if ProgressIsOne(d.prog) && FileVerifies(env.hash, d, env.fileHash) {
      AllVerified(d.prog, n);
      hide Laid, WithStatuses, IsDamaged, Verifies;
      forall i | 0 <= i < n
        ensures IsDamaged(env.hash, d, i) <==>
                !Verifies(env.hash, d.file, PieceStart(d.prog.fileSize, i), d.prog.pieces[i].size, d.prog.pieces[i].hash)
      {
        IsDamagedAt(env.hash, d, i);
      }
    } else {
      GivesUpWithStatuses(d.prog, DamagedUpTo(env.hash, d, n));
      IntactAfterGivingUp(env.hash, d, AfterVerifyFile(env.hash, d, env.fileHash));
    }
  }

  // ----- runs

  /** Deliveries change no byte of a Verified piece, and a file that passes the final check has no damaged piece. */
  ghost predicate Careful(env: Env, s: State, e: Event) {
    match e
    case Deliver(_, i, j, data, _) => InRange(s.disk.prog, i, j) && Harmless(s.disk, (i, j), data)
    case Recheck =>
      ProgressIsOne(s.disk.prog) && FileVerifies(env.hash, s.disk, env.fileHash) ==> NothingDamaged(env.hash, s.disk)
    case _ => true
  }

  lemma IntactStep(env: Env, s: State, e: Event)
    requires WellFormed(s) && Enabled(s, e) && VerifiedIntact(env.hash, s.disk) && Careful(env, s, e)
    ensures VerifiedIntact(env.hash, Step(env, s, e).disk)
  {
    match e {
      case Choose(peers, now, down, empty) =>
        GivesUpChoose(s.disk.prog, s.chooser, now, peers, down, empty);
        IntactAfterGivingUp(env.hash, s.disk, Step(env, s, e).disk);
      case Deliver(from, i, j, data, at) =>
        IntactAfterSave(env.hash, s.disk, (i, j), data);
      case Recheck =>
        IntactAfterRecheck(env, s.disk);
      case AddPeer(_) =>
      case RemovePeer(_) =>
      case NewBitfield(_, _) =>
      case Ownership(_, _, _) =>
    }
  }

  lemma {:induction false} IntactRun(env: Env, s: State, events: seq<Event>)
    requires WellFormed(s) && IsRun(env, s, events) && VerifiedIntact(env.hash, s.disk)
    requires Throughout(env, s, events, (s, e) => Careful(env, s, e))
    ensures Always(env, s, events, (s: State) => VerifiedIntact(env.hash, s.disk))
    decreases |events|
  {
    if |events| > 0 {
      StepKeepsShape(env, s, events[0]);
      IntactStep(env, s, events[0]);
      hide VerifiedIntact, Careful;
      IntactRun(env, Step(env, s, events[0]), events[1..]);
    }
  }

  /** From a fresh download, whatever bytes arrive and however far they spill: as long as they change no byte of a
      Verified piece, every piece marked Verified hashes to its recorded value, in every state. */
  lemma VerifiedIntegrity(env: Env, s: State, events: seq<Event>)
    requires Fresh(s) && IsRun(env, s, events) && Throughout(env, s, events, (s, e) => Careful(env, s, e))
    ensures Always(env, s, events, (s: State) => VerifiedIntact(env.hash, s.disk))
  {
    IntactRun(env, s, events);
  }

  // ----- a discipline that does not look at the bytes

  /** A delivery stays in its piece, and that piece is not verified yet. */
  ghost predicate Bounded(env: Env, s: State, e: Event) {
    match e
    case Deliver(_, i, j, data, _) =>
      && i < |s.disk.prog.pieces|
      && s.disk.prog.pieces[i].status != Verified
      && StaysInPiece(s.disk.prog.fileSize, i, j, |data|)
    case Recheck =>
      ProgressIsOne(s.disk.prog) && FileVerifies(env.hash, s.disk, env.fileHash) ==> NothingDamaged(env.hash, s.disk)
    case _ => true
  }

  lemma OutOfReach(d: Disk, b: BlockId, data: seq<byte>, k: nat)
    requires Laid(d.prog) && b.0 < |d.prog.pieces| && k < |d.prog.pieces| && k != b.0
    requires StaysInPiece(d.prog.fileSize, b.0, b.1, |data|)
    ensures KeepsPiece(d, b, data, k)
  {
    var fs := d.prog.fileSize;
    if k < b.0 {
      PiecesInOrder(fs, k, b.0);
    } else {
      PiecesInOrder(fs, b.0, k);
    }
    hide PieceStart, PieceEnd, Laid;
  }

  lemma PiecesInOrder(fileSize: nat, i: nat, j: nat)
    requires i < j
    ensures PieceEnd(fileSize, i) <= PieceStart(fileSize, j)
  {
    PieceStarts(fileSize, i, j);
  }

  lemma BoundedIsCareful(env: Env, s: State, e: Event)
    requires WellFormed(s) && Enabled(s, e) && Bounded(env, s, e)
    ensures Careful(env, s, e)
  {
    hide Laid, ChooserOk, KeepsPiece, StaysInPiece;
    if e.Deliver? {
      var p, b := s.disk.prog, (e.piece, e.block);
      forall k | 0 <= k < |p.pieces| && AfterBlock(p, b.0, b.1).pieces[k].status == Verified
        ensures KeepsPiece(s.disk, b, e.data, k)
      {
        OutOfReach(s.disk, b, e.data, k);
      }
    }
  }

  /** Arbitrary bytes are harmless if they are few enough and meant for an unverified piece. */
  lemma BoundedIntegrity(env: Env, s: State, events: seq<Event>)
    requires Fresh(s) && IsRun(env, s, events) && Throughout(env, s, events, (s, e) => Bounded(env, s, e))
    ensures Always(env, s, events, (s: State) => VerifiedIntact(env.hash, s.disk))
  {
    forall s, e | WellFormed(s) && Enabled(s, e) && Bounded(env, s, e)
      ensures Careful(env, s, e)
    {
      BoundedIsCareful(env, s, e);
    }
    hide Bounded, Careful;
    ThroughoutWeaker(env, s, events, (s, e) => Bounded(env, s, e), (s, e) => Careful(env, s, e));
    VerifiedIntegrity(env, s, events);
  }
}

module HonestSource {
  import opened Bytes
  import opened FileSplitter
  import opened Coalescing
  import opened DownloadProgress
  import opened ByteAccounting
  import opened FileIO
  import opened RarityTrackerChooser
  import opened Engine
  import opened Agreement
  import opened DownloadRuns
  import opened Contents

  /** The file agrees with the original on a range. */
  ghost predicate Matches(file: seq<byte>, original: seq<byte>, from: int, to: int) {
    |file| == |original| && forall x | 0 <= from <= x < to && x < |file| :: file[x] == original[x]
  }

  /** The hashes recorded by the publisher are those of the original. */
  ghost predicate Recorded(env: Env, p: Progress, original: seq<byte>) {
    && |original| == p.fileSize
    && env.fileHash == env.hash(original)
    && forall i | 0 <= i < |p.pieces| ::
         p.pieces[i].hash == env.hash(ReadChunk(original, PieceStart(p.fileSize, i), p.pieces[i].size))
  }

  function BlockEnd(fileSize: nat, b: BlockId): int {
    Min(BlockOffset(fileSize, b.0, b.1) + BLOCK_SIZE, PieceEnd(fileSize, b.0))
  }

  ghost predicate BlockMatches(d: Disk, original: seq<byte>, b: BlockId) {
    Matches(d.file, original, BlockOffset(d.prog.fileSize, b.0, b.1), BlockEnd(d.prog.fileSize, b))
  }

  /** Every held block, and every verified piece, has the bytes of the original. */
  ghost predicate Faithful(d: Disk, original: seq<byte>) {
    && |d.file| == |original| == d.prog.fileSize
    && (forall b: BlockId | Exists(d.prog.pieces, b) && IsHeld(StatusAt(d.prog.pieces, b)) :: BlockMatches(d, original, b))
    && (forall i | 0 <= i < |d.prog.pieces| :: d.prog.pieces[i].status != Downloaded)
    && forall i | 0 <= i < |d.prog.pieces| && d.prog.pieces[i].status == Verified ::
         Matches(d.file, original, PieceStart(d.prog.fileSize, i), PieceEnd(d.prog.fileSize, i))
  }

  /** What loadBlock returns at a peer that has the whole file: up to BLOCK_SIZE bytes, past the end of
      the piece if need be. */
  function Served(original: seq<byte>, fileSize: nat, b: BlockId): seq<byte> {
    ReadChunk(original, BlockOffset(fileSize, b.0, b.1), BLOCK_SIZE)
  }

  /** An honest delivery turns wrong bytes into right ones, never the reverse. */
  lemma HonestWrite(file: seq<byte>, original: seq<byte>, fileSize: nat, b: BlockId, x: nat)
    requires |file| == |original| == fileSize && x < fileSize
    ensures var file' := WriteChunk(file, BlockOffset(fileSize, b.0, b.1), Served(original, fileSize, b));
            && |file'| == |file|
            && (file[x] == original[x] ==> file'[x] == original[x])
            && (BlockOffset(fileSize, b.0, b.1) <= x < BlockOffset(fileSize, b.0, b.1) + BLOCK_SIZE ==>
                  file'[x] == original[x])
  {
    WriteChunkAt(file, BlockOffset(fileSize, b.0, b.1), Served(original, fileSize, b), x);
  }

  lemma MatchesAfterWrite(file: seq<byte>, original: seq<byte>, fileSize: nat, b: BlockId, from: int, to: int)
    requires |file| == |original| == fileSize && Matches(file, original, from, to)
    ensures Matches(WriteChunk(file, BlockOffset(fileSize, b.0, b.1), Served(original, fileSize, b)), original, from, to)
  {
    var file' := WriteChunk(file, BlockOffset(fileSize, b.0, b.1), Served(original, fileSize, b));
    if |file| > 0 {
      HonestWrite(file, original, fileSize, b, 0);
    }
    forall x | 0 <= from <= x < to && x < |file'|
      ensures file'[x] == original[x]
    {
      HonestWrite(file, original, fileSize, b, x);
    }
  }

  lemma DeliveredMatches(file: seq<byte>, original: seq<byte>, fileSize: nat, b: BlockId, to: int)
    requires |file| == |original| == fileSize
    requires to <= BlockOffset(fileSize, b.0, b.1) + BLOCK_SIZE
    ensures Matches(WriteChunk(file, BlockOffset(fileSize, b.0, b.1), Served(original, fileSize, b)), original,
                    BlockOffset(fileSize, b.0, b.1), to)
  {
    var offset := BlockOffset(fileSize, b.0, b.1);
    var file' := WriteChunk(file, offset, Served(original, fileSize, b));
    if |file| > 0 {
      HonestWrite(file, original, fileSize, b, 0);
    }
    forall x | offset <= x < to && x < |file'|
      ensures file'[x] == original[x]
    {
      HonestWrite(file, original, fileSize, b, x);
    }
  }

  /** The blocks of a piece cover it. */
  lemma PieceMatches(d: Disk, original: seq<byte>, i: nat)
    requires Laid(d.prog) && i < |d.prog.pieces| && |d.file| == |original|
    requires forall j | 0 <= j < |d.prog.pieces[i].blocks| :: BlockMatches(d, original, (i, j))
    ensures Matches(d.file, original, PieceStart(d.prog.fileSize, i), PieceEnd(d.prog.fileSize, i))
  {
    var fs := d.prog.fileSize;
    assert WellCut(d.prog.pieces[i], PieceStart(fs, i), PieceLength(fs, i));
    forall x | PieceStart(fs, i) <= x < PieceEnd(fs, i) && x < |d.file|
      ensures d.file[x] == original[x]
    {
      var y := x - PieceStart(fs, i);
      BlockOfByte(PieceLength(fs, i), y);
      assert BlockMatches(d, original, (i, y / BLOCK_SIZE));
    }
  }

  lemma MatchingPieceVerifies(env: Env, d: Disk, original: seq<byte>, i: nat)
    requires Laid(d.prog) && Recorded(env, d.prog, original) && i < |d.prog.pieces|
    requires Matches(d.file, original, PieceStart(d.prog.fileSize, i), PieceEnd(d.prog.fileSize, i))
    ensures Verifies(env.hash, d.file, PieceStart(d.prog.fileSize, i), d.prog.pieces[i].size, d.prog.pieces[i].hash)
  {
    var fs := d.prog.fileSize;
    assert WellCut(d.prog.pieces[i], PieceStart(fs, i), PieceLength(fs, i));
    PieceLengths(fs, i);
    ReadUnchanged(original, d.file, PieceStart(fs, i), PieceLength(fs, i));
  }

  /** Once every block is held, the file is the original. */
  lemma AllHeldIsOriginal(d: Disk, original: seq<byte>)
    requires Laid(d.prog) && Faithful(d, original)
    requires forall b: BlockId | Exists(d.prog.pieces, b) :: IsHeld(StatusAt(d.prog.pieces, b))
    ensures d.file == original
  {
    var fs := d.prog.fileSize;
    forall x | 0 <= x < fs
      ensures d.file[x] == original[x]
    {
      BlocksTile(fs, x);
      var b := BlockOf(fs, x);
      assert WellCut(d.prog.pieces[b.0], PieceStart(fs, b.0), PieceLength(fs, b.0));
      assert Exists(d.prog.pieces, b) && BlockMatches(d, original, b);
    }
  }

  // ----- a delivery

  ghost predicate DeliveredFaithfully(d: Disk, original: seq<byte>, b: BlockId, d': Disk) {
    && d'.file == WriteChunk(d.file, BlockOffset(d.prog.fileSize, b.0, b.1), Served(original, d.prog.fileSize, b))
    && d'.prog.fileSize == d.prog.fileSize
    && SameShape(d.prog, d'.prog)
  }

  lemma BlockMatchesAfter(d: Disk, original: seq<byte>, b: BlockId, d': Disk, b': BlockId)
    requires Laid(d.prog) && Faithful(d, original) && DeliveredFaithfully(d, original, b, d')
    requires Exists(d.prog.pieces, b')
    requires b' == b || IsHeld(StatusAt(d.prog.pieces, b'))
    ensures BlockMatches(d', original, b')
  {
    var fs := d.prog.fileSize;
    if b' == b {
      DeliveredMatches(d.file, original, fs, b, BlockEnd(fs, b));
    } else {
      assert BlockMatches(d, original, b');
      MatchesAfterWrite(d.file, original, fs, b, BlockOffset(fs, b'.0, b'.1), BlockEnd(fs, b'));
    }
  }

  /** A piece completed by an honest delivery verifies. */
  lemma CompletedPieceVerifies(env: Env, d: Disk, original: seq<byte>, b: BlockId)
    requires Laid(d.prog) && Faithful(d, original) && Recorded(env, d.prog, original) && InRange(d.prog, b.0, b.1)
    requires AfterBlock(d.prog, b.0, b.1).pieces[b.0].status == Downloaded
    ensures SaveVerified(env.hash, d, b.0, b.1, Served(original, d.prog.fileSize, b))
    ensures Matches(AfterSave(env.hash, d, b.0, b.1, Served(original, d.prog.fileSize, b)).file, original,
                    PieceStart(d.prog.fileSize, b.0), PieceEnd(d.prog.fileSize, b.0))
  {
    var fs := d.prog.fileSize;
    var file := WriteChunk(d.file, BlockOffset(fs, b.0, b.1), Served(original, fs, b));
    var prog := AfterBlock(d.prog, b.0, b.1);
    var d' := Disk(file, prog);
    var q := d.prog.pieces[b.0];
    BlockKeepsPlace(q, PieceStart(fs, b.0), PieceLength(fs, b.0), b.1, Downloaded);
    LaidAfter(d.prog, b.0, PieceAfterBlock(q, b.1), prog);
    LaidShape(d.prog, prog);
    if fs > 0 {
      HonestWrite(d.file, original, fs, b, 0);
    }
    forall j | 0 <= j < |prog.pieces[b.0].blocks|
      ensures BlockMatches(d', original, (b.0, j))
    {
      assert prog.pieces[b.0].blocks[j].status == Downloaded;
      BlockMatchesAfter(d, original, b, d', (b.0, j));
    }
    PieceMatches(d', original, b.0);
    MatchingPieceVerifies(env, d', original, b.0);
  }

  lemma FaithfulAfterSave(env: Env, d: Disk, original: seq<byte>, b: BlockId)
    requires Laid(d.prog) && Faithful(d, original) && Recorded(env, d.prog, original) && InRange(d.prog, b.0, b.1)
    ensures var d' := AfterSave(env.hash, d, b.0, b.1, Served(original, d.prog.fileSize, b));
            Faithful(d', original) && Recorded(env, d'.prog, original)
  {
    var fs := d.prog.fileSize;
    var data := Served(original, fs, b);
    var d' := AfterSave(env.hash, d, b.0, b.1, data);
    LaidAfterSave(env.hash, d, b.0, b.1, data);
    LaidShape(d.prog, d'.prog);
    if fs > 0 {
      HonestWrite(d.file, original, fs, b, 0);
    }
    var completed := AfterBlock(d.prog, b.0, b.1).pieces[b.0].status == Downloaded;
    if completed {
      CompletedPieceVerifies(env, d, original, b);
      var blocks := AfterBlock(d.prog, b.0, b.1).pieces[b.0].blocks;
      assert forall j | 0 <= j < |blocks| :: blocks[j].status == Downloaded;
    }
    forall b': BlockId | Exists(d'.prog.pieces, b') && IsHeld(StatusAt(d'.prog.pieces, b'))
      ensures BlockMatches(d', original, b')
    {
      BlockMatchesAfter(d, original, b, d', b');
    }
    forall i | 0 <= i < |d'.prog.pieces| && d'.prog.pieces[i].status == Verified
      ensures Matches(d'.file, original, PieceStart(fs, i), PieceEnd(fs, i))
    {
      if i != b.0 || !completed {
        MatchesAfterWrite(d.file, original, fs, b, PieceStart(fs, i), PieceEnd(fs, i));
      }
    }
  }

  lemma FaithfulAfterGivingUp(env: Env, d: Disk, d': Disk, original: seq<byte>)
    requires Faithful(d, original) && Recorded(env, d.prog, original)
    requires GivesUp(d.prog, d'.prog) && d'.file == d.file
    ensures Faithful(d', original) && Recorded(env, d'.prog, original)
  {
    forall b: BlockId | Exists(d'.prog.pieces, b) && IsHeld(StatusAt(d'.prog.pieces, b))
      ensures BlockMatches(d', original, b)
    {
      assert BlockMatches(d, original, b);
    }
  }

  // ----- the whole-file check

  lemma {:induction false} VerifiedWithStatuses(p: Progress, numbers: seq<nat>)
    requires forall k | 0 <= k < |numbers| :: numbers[k] < |p.pieces|
    requires forall i | 0 <= i < |p.pieces| :: p.pieces[i].status != Downloaded
    ensures var q := WithStatuses(p, numbers, Verified);
            && SameShape(p, q)
            && (forall i | 0 <= i < |p.pieces| :: q.pieces[i].status != Downloaded && q.pieces[i].hash == p.pieces[i].hash)
  {
    if |numbers| > 0 {
      VerifiedWithStatuses(p, numbers[..|numbers| - 1]);
    }
  }

  /** A file that passes the final check must be the original, or the hash has a collision; one that fails only
      gives pieces up. */
  lemma FaithfulAfterRecheck(env: Env, d: Disk, original: seq<byte>)
    requires Laid(d.prog) && Faithful(d, original) && Recorded(env, d.prog, original)
    requires ProgressIsOne(d.prog) && FileVerifies(env.hash, d, env.fileHash) ==> d.file == original
    ensures Faithful(AfterRecheck(env, d), original) && Recorded(env, AfterRecheck(env, d).prog, original)
  {
    var d' := AfterRecheck(env, d);
    LaidAfterRecheck(env, d);
    if ProgressIsOne(d.prog) && FileVerifies(env.hash, d, env.fileHash) {
      VerifiedWithStatuses(d.prog, UpTo(|d.prog.pieces|));
      assert d' == AfterChangeAll(d, Verified);
      hide Faithful, WithStatuses, AfterRecheck;
      OriginalIsFaithful(d', original);
      RecordedSame(env, d.prog, d'.prog, original);
    } else {
      GivesUpWithStatuses(d.prog, DamagedUpTo(env.hash, d, |d.prog.pieces|));
      hide Faithful, WithStatuses;
      FaithfulAfterGivingUp(env, d, AfterVerifyFile(env.hash, d, env.fileHash), original);
    }
  }

  lemma OriginalIsFaithful(d: Disk, original: seq<byte>)
    requires d.file == original && |original| == d.prog.fileSize
    requires forall i | 0 <= i < |d.prog.pieces| :: d.prog.pieces[i].status != Downloaded
    ensures Faithful(d, original)
  {
  }

  lemma RecordedSame(env: Env, p: Progress, q: Progress, original: seq<byte>)
    requires Laid(p) && Laid(q) && Recorded(env, p, original) && q.fileSize == p.fileSize
    requires |p.pieces| == |q.pieces| && forall i | 0 <= i < |p.pieces| :: q.pieces[i].hash == p.pieces[i].hash
    ensures Recorded(env, q, original)
  {
    forall i | 0 <= i < |p.pieces|
      ensures p.pieces[i].size == q.pieces[i].size
    {
      assert WellCut(p.pieces[i], PieceStart(p.fileSize, i), PieceLength(p.fileSize, i));
      assert WellCut(q.pieces[i], PieceStart(p.fileSize, i), PieceLength(p.fileSize, i));
    }
  }

  // ----- runs

  /** All deliveries are honest, and a file that passes the final check is the original. */
  ghost predicate Honest(env: Env, original: seq<byte>, s: State, e: Event) {
    match e
    case Deliver(_, i, j, data, _) => data == Served(original, s.disk.prog.fileSize, (i, j))
    case Recheck => ProgressIsOne(s.disk.prog) && FileVerifies(env.hash, s.disk, env.fileHash) ==> s.disk.file == original
    case _ => true
  }

  lemma FaithfulStep(env: Env, s: State, e: Event, original: seq<byte>)
    requires WellFormed(s) && Enabled(s, e) && Honest(env, original, s, e)
    requires Faithful(s.disk, original) && Recorded(env, s.disk.prog, original)
    ensures Faithful(Step(env, s, e).disk, original) && Recorded(env, Step(env, s, e).disk.prog, original)
  {
    match e {
      case Choose(peers, now, down, empty) =>
        GivesUpChoose(s.disk.prog, s.chooser, now, peers, down, empty);
        FaithfulAfterGivingUp(env, s.disk, Step(env, s, e).disk, original);
      case Deliver(from, i, j, data, at) =>
        FaithfulAfterSave(env, s.disk, original, (i, j));
      case Recheck =>
        FaithfulAfterRecheck(env, s.disk, original);
      case AddPeer(_) =>
      case RemovePeer(_) =>
      case NewBitfield(_, _) =>
      case Ownership(_, _, _) =>
    }
  }

  /** Any number of peers, any timeouts, any order of deliveries, even undisciplined ones. */
  lemma {:induction false} FaithfulRun(env: Env, s: State, events: seq<Event>, original: seq<byte>)
    requires WellFormed(s) && IsRun(env, s, events)
    requires Throughout(env, s, events, (s, e) => Honest(env, original, s, e))
    requires Faithful(s.disk, original) && Recorded(env, s.disk.prog, original)
    ensures Faithful(Run(env, s, events).disk, original) && Recorded(env, Run(env, s, events).disk.prog, original)
    decreases |events|
  {
    if |events| > 0 {
      StepKeepsShape(env, s, events[0]);
      FaithfulStep(env, s, events[0], original);
      FaithfulRun(env, Step(env, s, events[0]), events[1..], original);
    }
  }

  // ----- honest deliveries do no harm

  /** What holders of the file send never changes a byte of a verified piece, wherever it spills. */
  lemma HonestIsHarmless(d: Disk, original: seq<byte>, b: BlockId)
    requires Laid(d.prog) && Faithful(d, original) && InRange(d.prog, b.0, b.1)
    ensures Harmless(d, b, Served(original, d.prog.fileSize, b))
  {
    var fs := d.prog.fileSize;
    var data := Served(original, fs, b);
    forall k | 0 <= k < |d.prog.pieces| && AfterBlock(d.prog, b.0, b.1).pieces[k].status == Verified
      ensures KeepsPiece(d, b, data, k)
    {
      PieceLengths(fs, k);
      assert d.prog.pieces[k].status == Verified;
      assert Matches(d.file, original, PieceStart(fs, k), PieceEnd(fs, k));
    }
  }

  lemma OriginalHasNoDamage(env: Env, d: Disk, original: seq<byte>)
    requires Laid(d.prog) && Recorded(env, d.prog, original) && d.file == original
    ensures NothingDamaged(env.hash, d)
  {
    forall i | 0 <= i < |d.prog.pieces|
      ensures !IsDamaged(env.hash, d, i)
    {
      MatchingPieceVerifies(env, d, original, i);
      IsDamagedAt(env.hash, d, i);
    }
  }

  /** A run of honest deliveries is careful: a whole download from holders of the file, with all its spilling blocks
      and repeated answers, is one of the runs whose verified pieces stay intact. */
  lemma {:induction false} HonestRunIsCareful(env: Env, s: State, events: seq<Event>, original: seq<byte>)
    requires WellFormed(s) && IsRun(env, s, events)
    requires Throughout(env, s, events, (s, e) => Honest(env, original, s, e))
    requires Faithful(s.disk, original) && Recorded(env, s.disk.prog, original)
    ensures Throughout(env, s, events, (s, e) => Careful(env, s, e))
    decreases |events|
  {
    if |events| > 0 {
      HonestStepIsCareful(env, s, events[0], original);
      StepKeepsShape(env, s, events[0]);
      FaithfulStep(env, s, events[0], original);
      hide Faithful, Recorded, Honest, Careful;
      HonestRunIsCareful(env, Step(env, s, events[0]), events[1..], original);
    }
  }

  lemma HonestStepIsCareful(env: Env, s: State, e: Event, original: seq<byte>)
    requires WellFormed(s) && Enabled(s, e) && Honest(env, original, s, e)
    requires Faithful(s.disk, original) && Recorded(env, s.disk.prog, original)
    ensures Careful(env, s, e)
  {
    hide Faithful, Recorded, Harmless, NothingDamaged, Laid, ChooserOk, Served;
    match e {
      case Deliver(from, i, j, data, at) =>
        HonestIsHarmless(s.disk, original, (i, j));
      case Recheck =>
        if ProgressIsOne(s.disk.prog) && FileVerifies(env.hash, s.disk, env.fileHash) {
          OriginalHasNoDamage(env, s.disk, original);
        }
      case _ =>
    }
  }

  /** An honest delivery never takes anything back: it counts its block if that was not held, and nothing else. */
  lemma HonestDeliveryGrows(env: Env, d: Disk, original: seq<byte>, b: BlockId)
    requires Books(d.prog) && Faithful(d, original) && Recorded(env, d.prog, original) && InRange(d.prog, b.0, b.1)
    ensures var d' := AfterSave(env.hash, d, b.0, b.1, Served(original, d.prog.fileSize, b));
      && Books(d'.prog) && b.1 < |d'.prog.pieces[b.0].blocks| && IsHeld(d'.prog.pieces[b.0].blocks[b.1].status)
      && d'.prog.total == d.prog.total + if IsHeld(StatusAt(d.prog.pieces, b)) then 0 else d.prog.pieces[b.0].blocks[b.1].size
  {
    var prog := AfterBlock(d.prog, b.0, b.1);
    var data := Served(original, d.prog.fileSize, b);
    BooksAfterBlock(d.prog, b.0, b.1);
    if prog.pieces[b.0].status == Downloaded {
      CompletedPieceVerifies(env, d, original, b);
      BooksAfterPieceStatus(prog, b.0, Verified);
    }
  }

  lemma FaithfulIsIntact(env: Env, d: Disk, original: seq<byte>)
    requires Laid(d.prog) && Faithful(d, original) && Recorded(env, d.prog, original)
    ensures VerifiedIntact(env.hash, d)
  {
    forall i | 0 <= i < |d.prog.pieces| && d.prog.pieces[i].status == Verified
      ensures Verifies(env.hash, d.file, PieceStart(d.prog.fileSize, i), d.prog.pieces[i].size, d.prog.pieces[i].hash)
    {
      MatchingPieceVerifies(env, d, original, i);
    }
  }

  /** The last block of every piece but the last is answered with bytes of the next piece, unless the piece size
      is a multiple of the block size. */
  lemma LastBlockSpills(original: seq<byte>, i: nat)
    requires i + 1 < PieceCount(|original|)
    ensures PieceLength(|original|, i) > 0
    ensures var j := BlockCount(PieceLength(|original|, i)) - 1;
      StaysInPiece(|original|, i, j, |Served(original, |original|, (i, j))|) <==> PieceSize(|original|) % BLOCK_SIZE == 0
  {
    var fs := |original|;
    PieceLengths(fs, i);
    StartsInside(fs, i + 1);
    var size := PieceSize(fs);
    LastBlockEnds(size);
    hide BlockCount, PieceSize;
    assert PieceStart(fs, i + 1) == PieceStart(fs, i) + size < fs;
  }

  lemma LastBlockEnds(size: nat)
    requires size > 0
    ensures var j := BlockCount(size) - 1;
      && 0 <= j && j * BLOCK_SIZE < size <= j * BLOCK_SIZE + BLOCK_SIZE
      && (size == j * BLOCK_SIZE + BLOCK_SIZE <==> size % BLOCK_SIZE == 0)
  {
  }

  /** For example block 21 of piece 0, whenever pieces have 256 KiB. */
  lemma Block21Spills(original: seq<byte>)
    requires 2 * MIN_PIECE_SIZE < |original| <= KB * MIN_PIECE_SIZE
    ensures PieceCount(|original|) > 1 && BlockCount(PieceLength(|original|, 0)) == 22
    ensures |Served(original, |original|, (0, 21))| == BLOCK_SIZE
    ensures !StaysInPiece(|original|, 0, 21, BLOCK_SIZE)
  {
    StartsInside(|original|, 1);
    LastBlockSpills(original, 0);
  }

  // ----- convergence

  /** Deliveries are honest; nothing else is asked of them. */
  ghost predicate HonestDelivery(original: seq<byte>, s: State, e: Event) {
    e.Deliver? ==> e.data == Served(original, s.disk.prog.fileSize, (e.piece, e.block))
  }

  /** With right books and the right bytes, a counter at the file size means the file is there. */
  lemma OriginalAtOne(env: Env, d: Disk, original: seq<byte>)
    requires Books(d.prog) && Faithful(d, original) && Recorded(env, d.prog, original) && ProgressIsOne(d.prog)
    ensures d.file == original && FileVerifies(env.hash, d, env.fileHash)
  {
    EverythingHeldAtOne(d.prog);
    AllHeldIsOriginal(d, original);
    assert ReadChunk(d.file, 0, |d.file|) == original;
  }

  lemma {:induction false} ConvergingRun(env: Env, s: State, events: seq<Event>, original: seq<byte>)
    requires WellFormed(s) && Books(s.disk.prog) && IsRun(env, s, events)
    requires Throughout(env, s, events, Timely)
    requires Throughout(env, s, events, (s, e) => HonestDelivery(original, s, e))
    requires Faithful(s.disk, original) && Recorded(env, s.disk.prog, original)
    ensures var s' := Run(env, s, events);
            Books(s'.disk.prog) && Faithful(s'.disk, original) && Recorded(env, s'.disk.prog, original)
    decreases |events|
  {
    if |events| > 0 {
      var e := events[0];
      if e.Recheck? && ProgressIsOne(s.disk.prog) {
        OriginalAtOne(env, s.disk, original);
      }
      StepKeepsShape(env, s, e);
      FaithfulStep(env, s, e, original);
      BooksStep(env, s, e);
      AreBooksKept(Step(env, s, e));
      hide Books, Faithful, Recorded, Timely;
      ConvergingRun(env, Step(env, s, e), events[1..], original);
    }
  }

  /** Downloading from any number of sources that hold the file, all of which may be asked for the same blocks:
      after any timely run the verified pieces are right, and if the counter has reached the file size the file on
      disk is the original and passes the final check. */
  lemma Convergence(env: Env, s: State, events: seq<Event>, original: seq<byte>)
    requires Fresh(s) && IsRun(env, s, events) && Recorded(env, s.disk.prog, original)
    requires Throughout(env, s, events, Timely)
    requires Throughout(env, s, events, (s, e) => HonestDelivery(original, s, e))
    ensures var d := Run(env, s, events).disk;
            && Faithful(d, original)
            && VerifiedIntact(env.hash, d)
            && (ProgressIsOne(d.prog) ==> d.file == original && FileVerifies(env.hash, d, env.fileHash))
  {
    FreshIsSound(s);
    ConvergingRun(env, s, events, original);
    var d := Run(env, s, events).disk;
    FaithfulIsIntact(env, d, original);
    if ProgressIsOne(d.prog) {
      OriginalAtOne(env, d, original);
    }
  }
}
