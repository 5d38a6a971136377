// The completed flag of a download: it is set exactly when the counter has stood at the file size in some
// state of the run, and stays set when the final check sends pieces back.

module CompletedFlag {
  import opened Bytes
  import opened DownloadProgress
  import opened ByteAccounting
  import opened FileIO
  import opened Selection
  import opened RarityTrackerChooser
  import opened Coalescing
  import opened Engine
  import opened Agreement
  import opened SeveralPeers
  import opened DownloadRuns

  ghost predicate Unfinished(s: State) {
    !ProgressIsOne(s.disk.prog)
  }

  /** A counter at the file size shows in the flag. */
  predicate Flagged(p: Progress) {
    ProgressIsOne(p) ==> p.completed
  }

  /** The flag after a step is the old one, or set because the counter is at the file size. */
  predicate FlagMoves(p: Progress, p': Progress) {
    p'.completed <==> p.completed || ProgressIsOne(p')
  }

  /** A block that brings the counter to the file size completes its piece. */
  lemma FlagAfterSave(hash: HashFunction, d: Disk, b: BlockId, data: seq<byte>)
    requires Books(d.prog) && Flagged(d.prog) && InRange(d.prog, b.0, b.1)
    ensures FlagMoves(d.prog, AfterSave(hash, d, b.0, b.1, data).prog)
  {
    var prog := AfterBlock(d.prog, b.0, b.1);
    BooksAfterBlock(d.prog, b.0, b.1);
    if prog.pieces[b.0].status != Downloaded && ProgressIsOne(prog) {
      CompletionCharacterised(prog);
      assert IsHeld(prog.pieces[b.0].status);
      assert PieceOk(d.prog.pieces[b.0]);
      assert IsHeld(d.prog.pieces[b.0].blocks[b.1].status);
      assert prog.total == d.prog.total;
    }
  }

  lemma {:induction false} FlagStays(p: Progress, numbers: seq<nat>, status: DownloadStatus)
    requires forall k | 0 <= k < |numbers| :: numbers[k] < |p.pieces|
    ensures p.completed ==> WithStatuses(p, numbers, status).completed
  {
    hide PieceWithStatus, StatusDelta;
    if |numbers| > 0 {
      FlagStays(p, numbers[..|numbers| - 1], status);
    }
  }

  lemma FlagAfterRecheck(env: Env, d: Disk)
    requires Flagged(d.prog)
    ensures FlagMoves(d.prog, AfterRecheck(env, d).prog)
  {
    if ProgressIsOne(d.prog) {
      FlagStays(d.prog, UpTo(|d.prog.pieces|), Verified);
      FlagStays(d.prog, DamagedUpTo(env.hash, d, |d.prog.pieces|), Empty);
    }
  }

  lemma FlagWithBlocks(p: Progress, q: Progress, blocks: set<BlockId>, status: DownloadStatus)
    requires Flagged(p) && q == WithBlocks(p, blocks, status)
    ensures Flagged(q) && q.completed == p.completed && ProgressIsOne(q) == ProgressIsOne(p)
  {
  }

  lemma FlagAfterChoose(prog: Progress, c: Chooser, now: int, peers: seq<PeerId>, down: seq<nat>, empty: seq<nat>)
    requires Laid(prog) && Flagged(prog)
    requires ValidOrders(AfterTimeouts(prog, c, now).prog.pieces, c.rarity, down, empty)
    ensures OrderIn(down, prog.pieces) && OrderIn(empty, prog.pieces)
    ensures FlagMoves(prog, Chosen(prog, c, now, peers, down, empty).prog)
  {
    hide WithBlocks, PeerTurns, Laid;
    ChosenIsPainted(prog, c, now, peers, down, empty);
    var start := AfterTimeouts(prog, c, now);
    var t := Chosen(prog, c, now, peers, down, empty);
    FlagWithBlocks(prog, start.prog, ExpiredAt(c.active, c.active.Keys, now), Empty);
    FlagWithBlocks(start.prog, t.prog, AllPicks(t.batches), Downloading);
  }

  lemma FlagStep(env: Env, s: State, e: Event)
    requires WellFormed(s) && Enabled(s, e) && Books(s.disk.prog) && Flagged(s.disk.prog)
    ensures FlagMoves(s.disk.prog, Step(env, s, e).disk.prog)
  {
    hide Books, Laid, ChooserOk;
    match e {
      case Choose(peers, now, down, empty) =>
        FlagAfterChoose(s.disk.prog, s.chooser, now, peers, down, empty);
      case Deliver(from, piece, block, data, at) =>
        FlagAfterSave(env.hash, s.disk, (piece, block), data);
      case Recheck =>
        FlagAfterRecheck(env, s.disk);
      case AddPeer(_) =>
      case RemovePeer(_) =>
      case NewBitfield(_, _) =>
      case Ownership(_, _, _) =>
    }
  }

  lemma FlaggedAfter(p: Progress, p': Progress)
    requires FlagMoves(p, p')
    ensures Flagged(p')
  {
  }

  /** After a timely run the flag is set exactly when it was set before or some state had the whole file. */
  lemma {:induction false} CompletedRun(env: Env, s: State, events: seq<Event>)
    requires WellFormed(s) && IsRun(env, s, events) && Throughout(env, s, events, Timely)
    requires Books(s.disk.prog) && Flagged(s.disk.prog)
    ensures Run(env, s, events).disk.prog.completed <==> s.disk.prog.completed || !Always(env, s, events, Unfinished)
    decreases |events|
  {
    if |events| > 0 {
      var s' := Step(env, s, events[0]);
      StepKeepsShape(env, s, events[0]);
      BooksStep(env, s, events[0]);
      FlagStep(env, s, events[0]);
      FlaggedAfter(s.disk.prog, s'.disk.prog);
      AreBooksKept(s');
      CompletedRun(env, s', events[1..]);
    }
  }

  /** A download from nothing: the flag says that the counter has reached the file size, now or before. */
  lemma CompletedDownload(env: Env, s: State, events: seq<Event>)
    requires Fresh(s) && IsRun(env, s, events) && Throughout(env, s, events, Timely)
    ensures Run(env, s, events).disk.prog.completed <==> !Always(env, s, events, Unfinished)
  {
    hide IsRun, Throughout, Run, Always;
    FreshIsSound(s);
    CompletedRun(env, s, events);
  }
}
