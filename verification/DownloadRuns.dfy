// Safety over whole runs of a download: when the books balance, and when statuses agree with requests.

module DownloadRuns {
  import opened Bytes
  import opened FileSplitter
  import opened Sorting
  import opened Coalescing
  import opened DownloadProgress
  import opened ByteAccounting
  import opened FileIO
  import opened Selection
  import opened RarityTrackerChooser
  import opened Engine
  import opened Agreement
  import opened Shares
  import opened SeveralPeers

  // ----- a delivered block

  function Answered(requests: seq<RequestTracker>, b: BlockId): seq<RequestTracker> {
    var k := FirstMatch(requests, b);
    if k < |requests| then requests[k := requests[k].(received := true)] else requests
  }

  lemma AnsweredNames(requests: seq<RequestTracker>, b: BlockId)
    ensures NamesOf(Answered(requests, b)) == NamesOf(requests)
  {
  }

  /** The response marks the one request it answers, and no other. */
  lemma AnsweredMembers(requests: seq<RequestTracker>, b: BlockId)
    requires Distinct(NamesOf(requests))
    ensures forall r | r in Answered(requests, b) :: if BlockOfTracker(r) == b then r.received else r in requests
    ensures forall r | r in requests && BlockOfTracker(r) != b :: r in Answered(requests, b)
  {
    var k, answered := FirstMatch(requests, b), Answered(requests, b);
    forall r: RequestTracker | r in answered
      ensures if BlockOfTracker(r) == b then r.received else r in requests
    {
      var l :| 0 <= l < |answered| && answered[l] == r;
      assert requests[l] in requests && BlockOfTracker(requests[l]) == BlockOfTracker(r);
      if BlockOfTracker(r) == b {
        DistinctNames(requests, k, l);
      }
    }
    forall r: RequestTracker | r in requests && BlockOfTracker(r) != b
      ensures r in answered
    {
      var l :| 0 <= l < |requests| && requests[l] == r;
      assert answered[l] == r;
    }
  }

  /** The request lists before and after a response. */
  ghost predicate OneAnswered(before: Requests, after: Requests, peer: PeerId, b: BlockId) {
    && after.Keys == before.Keys
    && forall p | p in before :: after[p] == if p == peer then Answered(before[p], b) else before[p]
  }

  lemma ReceivedAnswersOne(c: Chooser, peer: PeerId, b: BlockId, at: int)
    ensures OneAnswered(c.active, AfterReceived(c, peer, b.0, b.1, at).active, peer, b)
  {
  }

  lemma NameWitness(requests: seq<RequestTracker>, after: seq<RequestTracker>, r: RequestTracker) returns (s: RequestTracker)
    requires NamesOf(after) == NamesOf(requests) && r in after
    ensures s in requests && BlockOfTracker(s) == BlockOfTracker(r)
  {
    var k :| 0 <= k < |after| && after[k] == r;
    assert |after| == |NamesOf(after)| && |requests| == |NamesOf(requests)|;
    assert NamesOf(after)[k] == NamesOf(requests)[k];
    s := requests[k];
  }

  lemma OneAnsweredNames(before: Requests, after: Requests, peer: PeerId, b: BlockId)
    requires NamesDistinct(before) && OneAnswered(before, after, peer, b)
    ensures NamesDistinct(after)
    ensures forall p | p in after :: NamesOf(after[p]) == NamesOf(before[p])
  {
    forall p | p in after
      ensures NamesOf(after[p]) == NamesOf(before[p])
    {
      AnsweredNames(before[p], b);
    }
    hide Answered, NamesOf;
    forall p, q, r, s | p in after && q in after && p != q && r in after[p] && s in after[q]
      ensures BlockOfTracker(r) != BlockOfTracker(s)
    {
      var r' := NameWitness(before[p], after[p], r);
      var s' := NameWitness(before[q], after[q], s);
    }
  }

  /** The requests still waiting are the old ones, except for the answered block. */
  lemma OneAnsweredAwaited(before: Requests, after: Requests, peer: PeerId, b: BlockId)
    requires NamesDistinct(before) && OneAnswered(before, after, peer, b)
    requires NobodyElseWaits(before, peer, b)
    ensures forall p, r, b' :: Awaited(after, p, r, b') <==> Awaited(before, p, r, b') && b' != b
  {
    hide Answered;
    if peer in before {
      AnsweredMembers(before[peer], b);
    }
    forall p, r, b'
      ensures Awaited(after, p, r, b') <==> Awaited(before, p, r, b') && b' != b
    {
    }
  }

  /** Saving a block ends the wait for it and for no other block. */
  lemma StatusesAfterSave(hash: HashFunction, d: Disk, b: BlockId, data: seq<byte>, b': BlockId)
    requires Books(d.prog) && InRange(d.prog, b.0, b.1)
    requires Exists(d.prog.pieces, b')
    ensures var pieces := AfterSave(hash, d, b.0, b.1, data).prog.pieces;
            && Exists(pieces, b')
            && (StatusAt(pieces, b') == Downloading <==> b' != b && StatusAt(d.prog.pieces, b') == Downloading)
  {
    var prog := AfterBlock(d.prog, b.0, b.1);
    BooksAfterBlock(d.prog, b.0, b.1);
    LaidAfterSave(hash, d, b.0, b.1, data);
    LaidShape(d.prog, AfterSave(hash, d, b.0, b.1, data).prog);
    var p := prog.pieces[b.0];
    assert PieceOk(p);
    if p.status == Downloaded && b'.0 == b.0 && b' != b {
      assert IsHeld(p.blocks[b'.1].status);
      assert p.blocks[b'.1] == d.prog.pieces[b.0].blocks[b'.1];
    }
  }

  ghost predicate NobodyElseWaits(active: Requests, from: PeerId, b: BlockId) {
    forall p, r | Awaited(active, p, r, b) :: p == from
  }

  /** Agreement carries over when a block stops being awaited and Downloading at the same time. */
  lemma AgreeAfterAnswer(before: Requests, after: Requests, old_pieces: seq<PieceProgress>, pieces: seq<PieceProgress>,
                         from: PeerId, b: BlockId)
    requires Agree(before, old_pieces) && OneAnswered(before, after, from, b)
    requires NobodyElseWaits(before, from, b)
    requires forall b': BlockId :: Exists(pieces, b') <==> Exists(old_pieces, b')
    requires forall b': BlockId | Exists(old_pieces, b') ::
               StatusAt(pieces, b') == Downloading <==> b' != b && StatusAt(old_pieces, b') == Downloading
    ensures Agree(after, pieces)
  {
    OneAnsweredNames(before, after, from, b);
    OneAnsweredAwaited(before, after, from, b);
    hide OneAnswered, Exists;
    forall p, r | p in after && r in after[p]
      ensures Exists(pieces, BlockOfTracker(r))
      ensures !r.received ==> StatusAt(pieces, BlockOfTracker(r)) == Downloading
    {
      var r' := NameWitness(before[p], after[p], r);
      if !r.received {
        assert Awaited(after, p, r, BlockOfTracker(r));
        assert Awaited(before, p, r, BlockOfTracker(r));
      }
    }
    forall b': BlockId | Exists(pieces, b') && StatusAt(pieces, b') == Downloading
      ensures exists p, r :: Awaited(after, p, r, b')
    {
      var p, r :| Awaited(before, p, r, b');
      assert Awaited(after, p, r, b');
    }
  }

  /** Who waits for a block that came from somebody else waits for a block that is not Downloading any more. */
  lemma WaitsInVain(before: Requests, after: Requests, pieces: seq<PieceProgress>, from: PeerId, b: BlockId)
    requires OneAnswered(before, after, from, b) && Agree(after, pieces)
    requires Exists(pieces, b) && StatusAt(pieces, b) != Downloading
    ensures NobodyElseWaits(before, from, b)
  {
    forall p, r | Awaited(before, p, r, b)
      ensures p == from
    {
      WaitsOn(before, after, from, b, p, r);
    }
  }

  lemma WaitsOn(before: Requests, after: Requests, from: PeerId, b: BlockId, p: PeerId, r: RequestTracker)
    requires OneAnswered(before, after, from, b) && Awaited(before, p, r, b)
    ensures p == from || Awaited(after, p, r, b)
  {
  }

  /** A delivery keeps the agreement exactly when the block is not awaited from another peer. */
  lemma AgreeAfterDeliver(hash: HashFunction, s: State, from: PeerId, b: BlockId, data: seq<byte>, at: int)
    requires Books(s.disk.prog) && Agree(s.chooser.active, s.disk.prog.pieces) && InRange(s.disk.prog, b.0, b.1)
    ensures Agree(AfterReceived(s.chooser, from, b.0, b.1, at).active,
                  AfterSave(hash, s.disk, b.0, b.1, data).prog.pieces)
            <==> NobodyElseWaits(s.chooser.active, from, b)
  {
    var after := AfterSave(hash, s.disk, b.0, b.1, data).prog;
    ReceivedAnswersOne(s.chooser, from, b, at);
    LaidAfterSave(hash, s.disk, b.0, b.1, data);
    LaidShape(s.disk.prog, after);
    hide AfterReceived, AfterSave, Agree, OneAnswered, Books, NobodyElseWaits;
    forall b': BlockId
      ensures Exists(after.pieces, b') <==> Exists(s.disk.prog.pieces, b')
      ensures Exists(s.disk.prog.pieces, b') ==>
                (StatusAt(after.pieces, b') == Downloading
                 <==> b' != b && StatusAt(s.disk.prog.pieces, b') == Downloading)
    {
      if Exists(s.disk.prog.pieces, b') {
        StatusesAfterSave(hash, s.disk, b, data, b');
      }
    }
    var active := AfterReceived(s.chooser, from, b.0, b.1, at).active;
    if NobodyElseWaits(s.chooser.active, from, b) {
      AgreeAfterAnswer(s.chooser.active, active, s.disk.prog.pieces, after.pieces, from, b);
    }
    if Agree(active, after.pieces) {
      WaitsInVain(s.chooser.active, active, after.pieces, from, b);
    }
  }

  lemma BooksAfterSave(hash: HashFunction, d: Disk, b: BlockId, data: seq<byte>)
    requires Books(d.prog) && InRange(d.prog, b.0, b.1)
    ensures Books(AfterSave(hash, d, b.0, b.1, data).prog)
  {
    var prog := AfterBlock(d.prog, b.0, b.1);
    BooksAfterBlock(d.prog, b.0, b.1);
    if prog.pieces[b.0].status == Downloaded {
      BooksAfterPieceStatus(prog, b.0, Verified);
      BooksAfterPieceStatus(prog, b.0, Empty);
    }
  }

  // ----- the whole-file check

  predicate EmptyHoldNothing(pieces: seq<PieceProgress>) {
    forall i | 0 <= i < |pieces| && pieces[i].status == Empty :: NoneHeld(pieces[i].blocks)
  }

  ghost predicate NoneDownloading(pieces: seq<PieceProgress>) {
    forall b: BlockId | Exists(pieces, b) :: StatusAt(pieces, b) != Downloading
  }

  lemma {:induction false} BooksWithStatuses(p: Progress, numbers: seq<nat>, status: DownloadStatus)
    requires Books(p) && EmptyHoldNothing(p.pieces) && NoneDownloading(p.pieces) && status != Downloading
    requires forall k | 0 <= k < |numbers| :: numbers[k] < |p.pieces|
    ensures Books(WithStatuses(p, numbers, status))
    ensures EmptyHoldNothing(WithStatuses(p, numbers, status).pieces)
    ensures NoneDownloading(WithStatuses(p, numbers, status).pieces)
  {
    hide Books, EmptyHoldNothing, NoneDownloading, AfterPieceStatus;
    if |numbers| > 0 {
      var n := |numbers| - 1;
      BooksWithStatuses(p, numbers[..n], status);
      var q := WithStatuses(p, numbers[..n], status);
      if q.pieces[numbers[n]].status == Empty {
        EmptyHoldsNothing(q, numbers[n]);
      }
      BooksAfterPieceStatus(q, numbers[n], status);
      IdleAfterPieceStatus(q, numbers[n], status);
    }
  }

  lemma EmptyHoldsNothing(p: Progress, n: nat)
    requires EmptyHoldNothing(p.pieces) && n < |p.pieces| && p.pieces[n].status == Empty
    ensures NoneHeld(p.pieces[n].blocks)
  {
  }

  lemma IdleAfterPieceStatus(p: Progress, n: nat, status: DownloadStatus)
    requires EmptyHoldNothing(p.pieces) && NoneDownloading(p.pieces) && status != Downloading && n < |p.pieces|
    ensures EmptyHoldNothing(AfterPieceStatus(p, n, status).pieces)
    ensures NoneDownloading(AfterPieceStatus(p, n, status).pieces)
  {
    var pieces := AfterPieceStatus(p, n, status).pieces;
    assert pieces[n].blocks == WithAllBlocks(p.pieces[n].blocks, status);
    forall b: BlockId | Exists(pieces, b)
      ensures StatusAt(pieces, b) != Downloading
    {
      if b.0 != n {
        assert StatusAt(p.pieces, b) != Downloading;
      }
    }
  }

  /** When the counter reaches the file size every block is held. */
  lemma EverythingHeldAtOne(p: Progress)
    requires Books(p) && ProgressIsOne(p)
    ensures forall b: BlockId | Exists(p.pieces, b) :: IsHeld(StatusAt(p.pieces, b))
    ensures EmptyHoldNothing(p.pieces) && NoneDownloading(p.pieces)
  {
    CompletionCharacterised(p);
    forall b: BlockId | Exists(p.pieces, b)
      ensures IsHeld(StatusAt(p.pieces, b))
    {
      assert PieceOk(p.pieces[b.0]) && IsHeld(p.pieces[b.0].status);
    }
    forall i | 0 <= i < |p.pieces|
      ensures p.pieces[i].status != Empty
    {
      assert IsHeld(p.pieces[i].status);
    }
  }

  lemma NothingAwaitedAtOne(p: Progress, active: Requests)
    requires Books(p) && Agree(active, p.pieces) && ProgressIsOne(p)
    ensures forall q, r | q in active && r in active[q] :: r.received
  {
    EverythingHeldAtOne(p);
  }

  lemma BooksAreLaid(p: Progress)
    requires Books(p)
    ensures Laid(p)
  {
  }

  lemma AgreeWhenIdle(active: Requests, p: Progress, q: Progress)
    requires Agree(active, p.pieces) && SameShape(p, q) && NoneDownloading(q.pieces)
    requires forall x, r | x in active && r in active[x] :: r.received
    ensures Agree(active, q.pieces)
  {
  }

  lemma BooksAfterRecheck(env: Env, d: Disk)
    requires Books(d.prog)
    ensures Books(AfterRecheck(env, d).prog)
    ensures ProgressIsOne(d.prog) ==> NoneDownloading(AfterRecheck(env, d).prog.pieces)
  {
    if ProgressIsOne(d.prog) {
      EverythingHeldAtOne(d.prog);
      hide Books, NoneDownloading, EmptyHoldNothing, WithStatuses;
      BooksWithStatuses(d.prog, UpTo(|d.prog.pieces|), Verified);
      BooksWithStatuses(d.prog, DamagedUpTo(env.hash, d, |d.prog.pieces|), Empty);
    }
  }

  /** The bytes of the first n pieces whose contents do not have their hash. */
  function DamagedBytes(hash: HashFunction, d: Disk, n: nat): nat
    requires n <= |d.prog.pieces|
  {
    if n == 0 then 0
    else
      var p := d.prog.pieces[n - 1];
      DamagedBytes(hash, d, n - 1) + if hash(ReadChunk(d.file, p.offset, p.size)) != p.hash then p.size else 0
  }

  /** A whole piece, before and after it is started over. */
  lemma StartedOverHolds(p: PieceProgress, p': PieceProgress, offset: nat, size: nat)
    requires WellCut(p, offset, size)
    ensures AllHeld(p.blocks) ==> HeldIn(p.blocks) == p.size
    ensures |p'.blocks| == |p.blocks|
            && (forall j | 0 <= j < |p.blocks| :: p'.blocks[j] == p.blocks[j].(status := Empty))
            ==> HeldIn(p'.blocks) == 0
  {
    BlocksFillPiece(p, offset, size);
    HeldAtMostSize(p.blocks);
    if |p'.blocks| == |p.blocks| && forall j | 0 <= j < |p.blocks| :: p'.blocks[j] == p.blocks[j].(status := Empty) {
      HeldAtMostSize(p'.blocks);
    }
  }

  lemma HeldAtOne(p: Progress, i: nat)
    requires Books(p) && ProgressIsOne(p) && i < |p.pieces|
    ensures AllHeld(p.pieces[i].blocks)
    ensures WellCut(p.pieces[i], PieceStart(p.fileSize, i), PieceLength(p.fileSize, i))
  {
    CompletionCharacterised(p);
    assert PieceOk(p.pieces[i]);
  }

  lemma PieceFalls(hash: HashFunction, d: Disk, fileHash: Hash, i: nat)
    requires Books(d.prog) && ProgressIsOne(d.prog) && !FileVerifies(hash, d, fileHash)
    requires i < |d.prog.pieces| <= 0x1_0000
    ensures var p := d.prog.pieces[i];
      HeldIn(AfterVerifyFile(hash, d, fileHash).prog.pieces[i].blocks)
        == HeldIn(p.blocks) - if hash(ReadChunk(d.file, p.offset, p.size)) != p.hash then p.size else 0
  {
    hide AfterVerifyFile, Books, HeldIn, AllHeld, WellCut, PieceStart, PieceLength, ProgressIsOne;
    FailedCheck(hash, d, fileHash, i);
    HeldAtOne(d.prog, i);
    StartedOverHolds(d.prog.pieces[i], AfterVerifyFile(hash, d, fileHash).prog.pieces[i],
                     PieceStart(d.prog.fileSize, i), PieceLength(d.prog.fileSize, i));
  }

  lemma {:induction false} CounterFalls(hash: HashFunction, d: Disk, fileHash: Hash, n: nat)
    requires Books(d.prog) && ProgressIsOne(d.prog) && !FileVerifies(hash, d, fileHash)
    requires n <= |d.prog.pieces| <= 0x1_0000
    ensures HeldBytes(AfterVerifyFile(hash, d, fileHash).prog.pieces[..n])
      == HeldBytes(d.prog.pieces[..n]) - DamagedBytes(hash, d, n)
  {
    hide AfterVerifyFile, Books, HeldIn, ProgressIsOne, FileVerifies;
    if n > 0 {
      CounterFalls(hash, d, fileHash, n - 1);
      PieceFalls(hash, d, fileHash, n - 1);
      var pieces, pieces' := d.prog.pieces, AfterVerifyFile(hash, d, fileHash).prog.pieces;
      assert pieces[..n][..n - 1] == pieces[..n - 1];
      assert pieces'[..n][..n - 1] == pieces'[..n - 1];
    }
  }

  lemma {:induction false} DamagedBytesPositive(hash: HashFunction, d: Disk, n: nat, i: nat)
    requires Laid(d.prog) && i < n <= |d.prog.pieces|
    requires hash(ReadChunk(d.file, d.prog.pieces[i].offset, d.prog.pieces[i].size)) != d.prog.pieces[i].hash
    ensures DamagedBytes(hash, d, n) > 0
  {
    if i < n - 1 {
      DamagedBytesPositive(hash, d, n - 1, i);
    } else {
      assert WellCut(d.prog.pieces[i], PieceStart(d.prog.fileSize, i), PieceLength(d.prog.fileSize, i));
    }
  }

  /** At progress 1, when the file does not have its hash: each piece without its own hash is Empty with all
      its blocks, the others and the file stay, the counter falls by the damaged bytes, and with a damaged
      piece the download is not complete any more. */
  lemma FailedRecheck(env: Env, s: State, i: nat)
    requires WellFormed(s) && Books(s.disk.prog) && ProgressIsOne(s.disk.prog)
    requires env.hash(ReadChunk(s.disk.file, 0, s.disk.prog.fileSize)) != env.fileHash
    requires i < |s.disk.prog.pieces| <= 0x1_0000
    ensures var d, d' := s.disk, Step(env, s, Recheck).disk;
      && d'.file == d.file
      && Step(env, s, Recheck).chooser == s.chooser
      && |d'.prog.pieces| == |d.prog.pieces|
      && var p, p' := d.prog.pieces[i], d'.prog.pieces[i];
         && (env.hash(ReadChunk(d.file, p.offset, p.size)) == p.hash ==> p' == p)
         && (env.hash(ReadChunk(d.file, p.offset, p.size)) != p.hash ==>
               && p'.status == Empty
               && (forall j | 0 <= j < |p'.blocks| :: p'.blocks[j].status == Empty)
               && d'.prog.total < d'.prog.fileSize)
         && d'.prog.total == d.prog.total - DamagedBytes(env.hash, d, |d.prog.pieces|)
  {
    var d := s.disk;
    var d' := AfterVerifyFile(env.hash, d, env.fileHash);
    BooksAfterRecheck(env, d);
    FailedCheck(env.hash, d, env.fileHash, i);
    CounterFalls(env.hash, d, env.fileHash, |d.prog.pieces|);
    HeldAtMostFile(d.prog);
    LaidAfterRecheck(env, d);
    if env.hash(ReadChunk(d.file, d.prog.pieces[i].offset, d.prog.pieces[i].size)) != d.prog.pieces[i].hash {
      DamagedBytesPositive(env.hash, d, |d.prog.pieces|, i);
    }
    hide AfterVerifyFile, HeldBytes, DamagedBytes, Laid, WellFormed, NoneDownloading, PieceOk, AllHeld;
    assert d.prog.pieces[..|d.prog.pieces|] == d.prog.pieces;
    assert d'.prog.pieces[..|d'.prog.pieces|] == d'.prog.pieces;
  }

  lemma SoundAfterRecheck(env: Env, d: Disk, active: Requests)
    requires Books(d.prog) && Agree(active, d.prog.pieces)
    ensures Books(AfterRecheck(env, d).prog) && Agree(active, AfterRecheck(env, d).prog.pieces)
  {
    BooksAfterRecheck(env, d);
    if ProgressIsOne(d.prog) {
      NothingAwaitedAtOne(d.prog, active);
      hide Books, NoneDownloading, Agree, AfterRecheck;
      BooksAreLaid(d.prog);
      LaidAfterRecheck(env, d);
      LaidShape(d.prog, AfterRecheck(env, d).prog);
      AgreeWhenIdle(active, d.prog, AfterRecheck(env, d).prog);
    }
  }

  // ----- runs

  /** Every event of the run satisfies `ok` in the state it meets. */
  ghost predicate Throughout(env: Env, s: State, events: seq<Event>, ok: (State, Event) -> bool)
    requires WellFormed(s) && IsRun(env, s, events)
    decreases |events|
  {
    |events| > 0 ==>
      && ok(s, events[0])
      && (StepKeepsShape(env, s, events[0]);
          Throughout(env, Step(env, s, events[0]), events[1..], ok))
  }

  /** Every state of the run, the first and the last included, satisfies `good`. */
  ghost predicate Always(env: Env, s: State, events: seq<Event>, good: State -> bool)
    requires WellFormed(s) && IsRun(env, s, events)
    decreases |events|
  {
    && good(s)
    && (|events| > 0 ==>
          (StepKeepsShape(env, s, events[0]);
           Always(env, Step(env, s, events[0]), events[1..], good)))
  }

  lemma {:induction false} AlwaysAtTheEnd(env: Env, s: State, events: seq<Event>, good: State -> bool)
    requires WellFormed(s) && IsRun(env, s, events) && Always(env, s, events, good)
    ensures good(Run(env, s, events))
    decreases |events|
  {
    if |events| > 0 {
      StepKeepsShape(env, s, events[0]);
      AlwaysAtTheEnd(env, Step(env, s, events[0]), events[1..], good);
    }
  }

  lemma {:induction false} ThroughoutWeaker(env: Env, s: State, events: seq<Event>, ok: (State, Event) -> bool,
                                            weaker: (State, Event) -> bool)
    requires WellFormed(s) && IsRun(env, s, events) && Throughout(env, s, events, ok)
    requires forall s, e | WellFormed(s) && Enabled(s, e) && ok(s, e) :: weaker(s, e)
    ensures Throughout(env, s, events, weaker)
    decreases |events|
  {
    hide Enabled, WellFormed;
    if |events| > 0 {
      StepKeepsShape(env, s, events[0]);
      ThroughoutWeaker(env, Step(env, s, events[0]), events[1..], ok, weaker);
    }
  }

  lemma NoEvents(env: Env, s: State)
    requires WellFormed(s)
    ensures IsRun(env, s, []) && Run(env, s, []) == s
  {
  }

  /** A run that starts with one more event. */
  lemma RunStep(env: Env, s: State, e: Event, events: seq<Event>)
    requires WellFormed(s) && Enabled(s, e) && WellFormed(Step(env, s, e)) && IsRun(env, Step(env, s, e), events)
    ensures IsRun(env, s, [e] + events)
    ensures Run(env, s, [e] + events) == Run(env, Step(env, s, e), events)
  {
    assert ([e] + events)[1..] == events;
  }

  // ----- the books, with any number of peers

  ghost predicate BooksKept(s: State) {
    Books(s.disk.prog)
  }

  /** No call of ChooseBlocks gives up a request for a block that has come from elsewhere. */
  ghost predicate Timely(s: State, e: Event) {
    e.Choose? ==> NoneOverdue(s.disk.prog, s.chooser.active, e.now)
  }

  lemma BooksStep(env: Env, s: State, e: Event)
    requires WellFormed(s) && Books(s.disk.prog) && Enabled(s, e)
    ensures BooksKept(Step(env, s, e)) <==> Timely(s, e)
  {
    hide Books, Laid, ChooserOk, NoneOverdue;
    match e {
      case Choose(peers, now, down, empty) =>
        BooksAfterChoose(s.disk.prog, s.chooser, now, peers, down, empty);
      case Deliver(from, piece, block, data, at) =>
        BooksAfterSave(env.hash, s.disk, (piece, block), data);
      case Recheck =>
        BooksAfterRecheck(env, s.disk);
      case AddPeer(_) =>
      case RemovePeer(_) =>
      case NewBitfield(_, _) =>
      case Ownership(_, _, _) =>
    }
  }

  /** The books are right in every state of a run exactly when all its calls of ChooseBlocks are timely. */
  lemma {:induction false} BooksRun(env: Env, s: State, events: seq<Event>)
    requires WellFormed(s) && Books(s.disk.prog) && IsRun(env, s, events)
    ensures Always(env, s, events, BooksKept) <==> Throughout(env, s, events, Timely)
    decreases |events|
  {
    if |events| > 0 {
      var s' := Step(env, s, events[0]);
      StepKeepsShape(env, s, events[0]);
      BooksStep(env, s, events[0]);
      hide Timely, BooksKept;
      if BooksKept(s') {
        AreBooksKept(s');
        BooksRun(env, s', events[1..]);
      }
    }
  }

  lemma AreBooksKept(s: State)
    requires BooksKept(s)
    ensures Books(s.disk.prog)
  {
  }

  // ----- statuses and requests

  /** The counter equals the bytes held, pieces are complete exactly when all their blocks are
      held, and a block is Downloading exactly when one request waits for it. */
  ghost predicate Sound(s: State) {
    WellFormed(s) && Books(s.disk.prog) && Agree(s.chooser.active, s.disk.prog.pieces)
  }

  ghost predicate NothingAwaitedFrom(active: Requests, p: PeerId) {
    forall r | r in RequestsOf(active, p) :: r.received
  }

  /** The discipline that agreement needs, every clause of which can be checked before the call: no block of an
      unbegun piece falls into the shares of two listed peers, a block comes from the peer it was asked of, and a
      peer is dropped or registered anew only while nothing is awaited from it. */
  ghost predicate Disciplined(s: State, e: Event) {
    match e
    case Choose(peers, now, down, empty) =>
      var start := AfterTimeouts(s.disk.prog, s.chooser, now);
      && OrderIn(down, start.prog.pieces) && OrderIn(empty, start.prog.pieces)
      && UnbegunApart(SharesFor(start, s.chooser.bitfields, down, empty, peers))
    case Deliver(from, piece, block, _, _) => NobodyElseWaits(s.chooser.active, from, (piece, block))
    case AddPeer(p) => NothingAwaitedFrom(s.chooser.active, p)
    case RemovePeer(p) => NothingAwaitedFrom(s.chooser.active, p)
    case _ => true
  }

  /** Forgetting a peer's requests keeps the agreement exactly when none of them is open. */
  lemma AgreeWithout(active: Requests, active': Requests, p: PeerId, pieces: seq<PieceProgress>)
    requires Agree(active, pieces)
    requires active' == active - {p} || active' == active[p := []]
    ensures Agree(active', pieces) <==> NothingAwaitedFrom(active, p)
  {
    if NothingAwaitedFrom(active, p) {
      forall b: BlockId | Exists(pieces, b) && StatusAt(pieces, b) == Downloading
        ensures exists q, r :: Awaited(active', q, r, b)
      {
        var q, r :| Awaited(active, q, r, b);
        assert Awaited(active', q, r, b);
      }
    }
    if Agree(active', pieces) {
      forall r | r in RequestsOf(active, p)
        ensures r.received
      {
        StillAwaited(active, active', p, pieces, r);
      }
    }
  }

  lemma StillAwaited(active: Requests, active': Requests, p: PeerId, pieces: seq<PieceProgress>, r: RequestTracker)
    requires Agree(active, pieces) && Agree(active', pieces) && r in RequestsOf(active, p)
    requires active' == active - {p} || active' == active[p := []]
    ensures r.received
  {
    var b := BlockOfTracker(r);
    if !r.received {
      assert Awaited(active, p, r, b);
      var q, r' :| Awaited(active', q, r', b);
      ExactlyOneRequest(active, pieces, b);
    }
  }

  lemma SoundIsTimely(s: State, e: Event)
    requires Sound(s)
    ensures Timely(s, e)
  {
  }

  /** In a sound state the discipline is exactly what the next state needs to be sound. */
  lemma SoundStep(env: Env, s: State, e: Event)
    requires Sound(s) && Enabled(s, e)
    ensures Sound(Step(env, s, e)) <==> Disciplined(s, e)
  {
    StepKeepsShape(env, s, e);
    SoundIsTimely(s, e);
    BooksStep(env, s, e);
    hide Laid, ChooserOk, Agree, Books, Timely, UnbegunApart, SharesFor, NobodyElseWaits, NothingAwaitedFrom;
    match e {
      case Choose(peers, now, down, empty) =>
        AgreesBeforehand(s.disk.prog, s.chooser, now, peers, down, empty);
      case Deliver(from, piece, block, data, at) =>
        AgreeAfterDeliver(env.hash, s, from, (piece, block), data, at);
      case Recheck =>
        SoundAfterRecheck(env, s.disk, s.chooser.active);
      case AddPeer(p) =>
        AgreeWithout(s.chooser.active, s.chooser.active[p := []], p, s.disk.prog.pieces);
      case RemovePeer(p) =>
        AgreeWithout(s.chooser.active, s.chooser.active - {p}, p, s.disk.prog.pieces);
      case NewBitfield(_, _) =>
      case Ownership(_, _, _) =>
    }
  }

  /** Every state of a run is sound exactly when every event of it is disciplined. */
  lemma {:induction false} SoundRun(env: Env, s: State, events: seq<Event>)
    requires Sound(s) && IsRun(env, s, events)
    ensures Always(env, s, events, Sound) <==> Throughout(env, s, events, Disciplined)
    decreases |events|
  {
    if |events| > 0 {
      var s' := Step(env, s, events[0]);
      StepKeepsShape(env, s, events[0]);
      SoundStep(env, s, events[0]);
      hide Sound, Disciplined;
      if Sound(s') {
        SoundRun(env, s', events[1..]);
      }
    }
  }

  /** A disciplined run is timely. */
  lemma {:induction false} DisciplinedIsTimely(env: Env, s: State, events: seq<Event>)
    requires Sound(s) && IsRun(env, s, events) && Throughout(env, s, events, Disciplined)
    ensures Throughout(env, s, events, Timely)
    decreases |events|
  {
    if |events| > 0 {
      SoundIsTimely(s, events[0]);
      StepKeepsShape(env, s, events[0]);
      SoundStep(env, s, events[0]);
      hide Sound, Disciplined, Timely;
      DisciplinedIsTimely(env, Step(env, s, events[0]), events[1..]);
    }
  }

  lemma {:induction false} NothingHeldYet(pieces: seq<PieceProgress>)
    requires forall i | 0 <= i < |pieces| ::
               forall j | 0 <= j < |pieces[i].blocks| :: pieces[i].blocks[j].status == Empty
    ensures HeldBytes(pieces) == 0
  {
    if |pieces| > 0 {
      NothingHeldYet(pieces[..|pieces| - 1]);
      NoBlockHeldYet(pieces[|pieces| - 1].blocks);
    }
  }

  lemma {:induction false} NoBlockHeldYet(blocks: seq<BlockInfo>)
    requires forall j | 0 <= j < |blocks| :: blocks[j].status == Empty
    ensures HeldIn(blocks) == 0
  {
    if |blocks| > 0 {
      NoBlockHeldYet(blocks[..|blocks| - 1]);
    }
  }

  lemma FreshIsSound(s: State)
    requires Fresh(s)
    ensures Sound(s)
  {
    var p := s.disk.prog;
    NothingHeldYet(p.pieces);
    forall i | 0 <= i < |p.pieces|
      ensures PieceOk(p.pieces[i])
    {
      assert WellCut(p.pieces[i], PieceStart(p.fileSize, i), PieceLength(p.fileSize, i));
      assert !IsHeld(p.pieces[i].blocks[0].status);
    }
  }

  /** From a fresh download, with any number of peers, any bytes, and blocks asked of several peers at once: in a
      run whose calls of ChooseBlocks are timely the counter is the sum of the held blocks in every state and never
      exceeds the file, and it reaches the file size exactly when all pieces are complete. */
  lemma SwarmDownload(env: Env, s: State, events: seq<Event>)
    requires Fresh(s) && IsRun(env, s, events)
    ensures Always(env, s, events, BooksKept) <==> Throughout(env, s, events, Timely)
    ensures Throughout(env, s, events, Timely) ==>
              var p := Run(env, s, events).disk.prog;
              && p.total == HeldBytes(p.pieces) <= p.fileSize
              && (ProgressIsOne(p) <==> p.fileSize > 0 && AllComplete(p))
  {
    FreshIsSound(s);
    BooksRun(env, s, events);
    if Throughout(env, s, events, Timely) {
      AlwaysAtTheEnd(env, s, events, BooksKept);
      AreBooksKept(Run(env, s, events));
      CompletionCharacterised(Run(env, s, events).disk.prog);
    }
  }

  /** From a fresh download no block is ever stuck or awaited twice exactly in the disciplined runs, and these are
      timely. */
  lemma DisciplinedDownload(env: Env, s: State, events: seq<Event>)
    requires Fresh(s) && IsRun(env, s, events)
    ensures Always(env, s, events, Sound) <==> Throughout(env, s, events, Disciplined)
    ensures Throughout(env, s, events, Disciplined) ==> Throughout(env, s, events, Timely)
  {
    FreshIsSound(s);
    SoundRun(env, s, events);
    if Throughout(env, s, events, Disciplined) {
      DisciplinedIsTimely(env, s, events);
    }
  }

  // ----- a single source of blocks

  /** One requestable peer that is never removed or added again; others may come and go. */
  predicate SingleSource(p: PeerId, e: Event) {
    match e
    case Choose(peers, _, _, _) => peers == [] || peers == [p]
    case Deliver(from, _, _, _, _) => from == p
    case AddPeer(q) => q != p
    case RemovePeer(q) => q != p
    case _ => true
  }

  ghost predicate OnlyFrom(active: Requests, p: PeerId) {
    forall q | q in active && q != p :: active[q] == []
  }

  lemma OneShare(start: Turn, fields: map<PeerId, Bitfield>, down: seq<nat>, empty: seq<nat>, peers: seq<PeerId>)
    requires OrderIn(down, start.prog.pieces) && OrderIn(empty, start.prog.pieces) && |peers| <= 1
    ensures UnbegunApart(SharesFor(start, fields, down, empty, peers))
  {
  }

  lemma SingleSourceDisciplined(s: State, p: PeerId, e: Event)
    requires WellFormed(s) && Enabled(s, e) && OnlyFrom(s.chooser.active, p) && SingleSource(p, e)
    ensures Disciplined(s, e)
  {
    hide UnbegunApart, SharesFor;
    if e.Choose? {
      OneShare(AfterTimeouts(s.disk.prog, s.chooser, e.now), s.chooser.bitfields, e.down, e.empty, e.peers);
    }
  }

  lemma OnlyFromAfterChoose(prog: Progress, c: Chooser, now: int, peers: seq<PeerId>, down: seq<nat>, empty: seq<nat>,
                            p: PeerId)
    requires OrderIn(down, prog.pieces) && OrderIn(empty, prog.pieces)
    requires OnlyFrom(c.active, p) && (peers == [] || peers == [p])
    ensures OnlyFrom(Chosen(prog, c, now, peers, down, empty).active, p)
  {
    var start := AfterTimeouts(prog, c, now);
    assert OnlyFrom(start.active, p);
    if peers == [p] {
      OneTurnOnly(start, start.prog.pieces, c.bitfields, now, down, empty, p);
    }
  }

  lemma SingleSourceStep(env: Env, s: State, p: PeerId, e: Event)
    requires WellFormed(s) && Enabled(s, e) && OnlyFrom(s.chooser.active, p) && SingleSource(p, e)
    ensures OnlyFrom(Step(env, s, e).chooser.active, p)
  {
    match e {
      case Choose(peers, now, down, empty) =>
        OnlyFromAfterChoose(s.disk.prog, s.chooser, now, peers, down, empty, p);
      case Deliver(from, piece, block, data, at) =>
        ReceivedAnswersOne(s.chooser, from, (piece, block), at);
        hide AfterReceived;
      case _ =>
        hide AfterReceived, Chosen;
    }
  }

  lemma {:induction false} SingleSourceRun(env: Env, s: State, p: PeerId, events: seq<Event>)
    requires WellFormed(s) && IsRun(env, s, events) && OnlyFrom(s.chooser.active, p)
    requires forall e | e in events :: SingleSource(p, e)
    ensures Throughout(env, s, events, Disciplined)
    decreases |events|
  {
    if |events| > 0 {
      SingleSourceDisciplined(s, p, events[0]);
      SingleSourceStep(env, s, p, events[0]);
      StepKeepsShape(env, s, events[0]);
      SingleSourceRun(env, Step(env, s, events[0]), p, events[1..]);
    }
  }

  /** With one requestable peer the discipline takes care of itself. */
  lemma SingleSourceDownload(env: Env, s: State, p: PeerId, events: seq<Event>)
    requires Fresh(s) && IsRun(env, s, [AddPeer(p)] + events)
    requires forall e | e in events :: SingleSource(p, e)
    ensures Always(env, s, [AddPeer(p)] + events, Sound)
  {
    var all := [AddPeer(p)] + events;
    assert all[0] == AddPeer(p) && all[1..] == events;
    FreshIsSound(s);
    StepKeepsShape(env, s, AddPeer(p));
    SoundStep(env, s, AddPeer(p));
    SingleSourceRun(env, Step(env, s, AddPeer(p)), p, events);
    SoundRun(env, Step(env, s, AddPeer(p)), events);
  }
}
