// One download as a sequential machine: the disk, the progress and the block chooser,
// and the handlers that move them.

module Engine {
  import opened Bytes
  import opened FileSplitter
  import opened Coalescing
  import opened DownloadProgress
  import opened ByteAccounting
  import opened FileIO
  import opened Selection
  import opened RarityTrackerChooser

  /** What does not change during a download. */
  datatype Env = Env(hash: HashFunction, fileHash: Hash)

  datatype State = State(disk: Disk, chooser: Chooser)

  datatype Event =
    | Choose(peers: seq<PeerId>, now: int, down: seq<nat>, empty: seq<nat>)
    | Deliver(from: PeerId, piece: nat, block: nat, data: seq<byte>, at: int)
    | Recheck
    | AddPeer(peer: PeerId)
    | RemovePeer(peer: PeerId)
    | NewBitfield(peer: PeerId, field: Bitfield)
    | Ownership(peer: PeerId, index: nat, has: bool)

  /** What each handler demands of its caller. */
  ghost predicate Enabled(s: State, e: Event) {
    match e
    case Choose(peers, now, down, empty) =>
      ValidOrders(AfterTimeouts(s.disk.prog, s.chooser, now).prog.pieces, s.chooser.rarity, down, empty)
    case Deliver(_, piece, block, _, _) => InRange(s.disk.prog, piece, block)
    case NewBitfield(_, field) => |field| * 8 >= s.chooser.pieceCount
    case Ownership(peer, i, _) =>
      peer in s.chooser.bitfields && i < s.chooser.pieceCount
    case _ => true
  }

  ghost predicate WellFormed(s: State) {
    Laid(s.disk.prog) && ChooserOk(s.chooser, s.disk.prog.pieces)
  }

  /** The body of downloadFile once the counter has reached the file size. */
  function AfterRecheck(env: Env, d: Disk): Disk {
    if !ProgressIsOne(d.prog) then d
    else if FileVerifies(env.hash, d, env.fileHash) then AfterChangeAll(d, Verified)
    else AfterVerifyFile(env.hash, d, env.fileHash)
  }

  ghost function Step(env: Env, s: State, e: Event): State
    requires WellFormed(s) && Enabled(s, e)
  {
    match e
    case Choose(peers, now, down, empty) =>
      var t := Chosen(s.disk.prog, s.chooser, now, peers, down, empty);
      State(s.disk.(prog := t.prog), s.chooser.(active := t.active, windows := t.windows))
    case Deliver(from, piece, block, data, at) =>
      State(AfterSave(env.hash, s.disk, piece, block, data), AfterReceived(s.chooser, from, piece, block, at))
    case Recheck => s.(disk := AfterRecheck(env, s.disk))
    case AddPeer(p) => s.(chooser := AfterAddPeer(s.chooser, p))
    case RemovePeer(p) => s.(chooser := AfterRemovePeer(s.chooser, p))
    case NewBitfield(p, field) => s.(chooser := AfterBitfield(s.chooser, p, field))
    case Ownership(p, i, has) => s.(chooser := AfterOwnership(s.chooser, p, i, has))
  }

  // ----- every handler keeps the shape of the state

  ghost predicate SameShape(p: Progress, q: Progress) {
    && p.fileSize == q.fileSize
    && |p.pieces| == |q.pieces|
    && forall i | 0 <= i < |p.pieces| :: |p.pieces[i].blocks| == |q.pieces[i].blocks|
  }

  lemma LaidShape(p: Progress, q: Progress)
    requires Laid(p) && Laid(q) && p.fileSize == q.fileSize
    ensures SameShape(p, q)
  {
    forall i | 0 <= i < |p.pieces|
      ensures |p.pieces[i].blocks| == |q.pieces[i].blocks|
    {
      assert WellCut(p.pieces[i], PieceStart(p.fileSize, i), PieceLength(p.fileSize, i));
      assert WellCut(q.pieces[i], PieceStart(p.fileSize, i), PieceLength(p.fileSize, i));
    }
  }

  lemma OkForShape(c: Chooser, p: Progress, q: Progress)
    requires ChooserOk(c, p.pieces) && SameShape(p, q)
    ensures ChooserOk(c, q.pieces)
  {
  }

  lemma LaidAfterPieceStatus(p: Progress, i: nat, status: DownloadStatus)
    requires Laid(p) && i < |p.pieces|
    ensures Laid(AfterPieceStatus(p, i, status))
    ensures AfterPieceStatus(p, i, status).fileSize == p.fileSize
  {
    StatusKeepsPlaces(p.pieces[i], PieceStart(p.fileSize, i), PieceLength(p.fileSize, i), status);
    LaidAfter(p, i, PieceWithStatus(p.pieces[i], status), AfterPieceStatus(p, i, status));
  }

  lemma LaidAfterSave(hash: HashFunction, d: Disk, piece: nat, block: nat, data: seq<byte>)
    requires Laid(d.prog) && InRange(d.prog, piece, block)
    ensures Laid(AfterSave(hash, d, piece, block, data).prog)
    ensures AfterSave(hash, d, piece, block, data).prog.fileSize == d.prog.fileSize
  {
    var q := d.prog.pieces[piece];
    var p := AfterBlock(d.prog, piece, block);
    BlockKeepsPlace(q, PieceStart(d.prog.fileSize, piece), PieceLength(d.prog.fileSize, piece), block, Downloaded);
    LaidAfter(d.prog, piece, PieceAfterBlock(q, block), p);
    LaidAfterPieceStatus(p, piece, Verified);
    LaidAfterPieceStatus(p, piece, Empty);
  }

  lemma {:induction false} LaidWithStatuses(p: Progress, numbers: seq<nat>, status: DownloadStatus)
    requires Laid(p)
    requires forall k | 0 <= k < |numbers| :: numbers[k] < |p.pieces|
    ensures Laid(WithStatuses(p, numbers, status))
    ensures WithStatuses(p, numbers, status).fileSize == p.fileSize
  {
    if |numbers| > 0 {
      LaidWithStatuses(p, numbers[..|numbers| - 1], status);
      LaidAfterPieceStatus(WithStatuses(p, numbers[..|numbers| - 1], status), numbers[|numbers| - 1], status);
    }
  }

  lemma LaidAfterRecheck(env: Env, d: Disk)
    requires Laid(d.prog)
    ensures Laid(AfterRecheck(env, d).prog) && AfterRecheck(env, d).prog.fileSize == d.prog.fileSize
  {
    LaidWithStatuses(d.prog, UpTo(|d.prog.pieces|), Verified);
    LaidWithStatuses(d.prog, DamagedUpTo(env.hash, d, |d.prog.pieces|), Empty);
  }

  lemma CandidatesExist(p: Progress, order: seq<nat>, field: Bitfield)
    requires Laid(p) && OrderIn(order, p.pieces)
    ensures BlocksExist(Candidates(p.pieces, order, field), p.pieces)
  {
    if |order| > 0 {
      var i := order[|order| - 1];
      CandidatesExist(p, order[..|order| - 1], field);
      EmptyBlocksMembers(p.pieces[i], i, PieceStart(p.fileSize, i), PieceLength(p.fileSize, i));
    }
  }

  /** Everything a peer is asked for exists. */
  lemma PicksExist(t: Turn, snapshot: Progress, field: Bitfield, down: seq<nat>, empty: seq<nat>, slots: nat)
    requires Laid(t.prog) && Laid(snapshot) && SameShape(t.prog, snapshot)
    requires OrderIn(down, t.prog.pieces) && OrderIn(empty, snapshot.pieces)
    ensures BlocksExist(Picks(t, snapshot.pieces, field, down, empty, slots), t.prog.pieces)
  {
    CandidatesExist(t.prog, down, field);
    CandidatesExist(snapshot, empty, field);
  }

  ghost predicate TurnOk(t: Turn, snapshot: Progress) {
    && Laid(t.prog) && t.prog.fileSize == snapshot.fileSize
    && forall p | p in t.active :: TrackersInRange(t.active[p], t.prog.pieces)
  }

  lemma TurnOkStep(t: Turn, snapshot: Progress, fields: map<PeerId, Bitfield>, now: int,
                   down: seq<nat>, empty: seq<nat>, peer: PeerId)
    requires TurnOk(t, snapshot) && Laid(snapshot)
    requires OrderIn(down, t.prog.pieces) && OrderIn(empty, snapshot.pieces)
    ensures TurnOk(PeerTurn(t, snapshot.pieces, fields, now, down, empty, peer), snapshot)
  {
    var picks := Picks(t, snapshot.pieces, FieldOf(fields, peer), down, empty, Slots(t, peer));
    LaidShape(t.prog, snapshot);
    PicksExist(t, snapshot, FieldOf(fields, peer), down, empty, Slots(t, peer));
    var c := Chooser(|t.prog.pieces|, t.active, t.windows, map[], seq(|t.prog.pieces|, _ => 0), map[]);
    OkAfterAsking(c, t.prog, peer, picks, now);
    RepaintKeepsShape(t.prog, ToSet(picks), Downloading);
  }

  lemma {:induction false} TurnsOk(t: Turn, snapshot: Progress, fields: map<PeerId, Bitfield>, now: int,
                                   down: seq<nat>, empty: seq<nat>, peers: seq<PeerId>)
    requires TurnOk(t, snapshot) && Laid(snapshot)
    requires OrderIn(down, t.prog.pieces) && OrderIn(empty, snapshot.pieces)
    ensures TurnOk(PeerTurns(t, snapshot.pieces, fields, now, down, empty, peers), snapshot)
  {
    if |peers| > 0 {
      TurnsOk(t, snapshot, fields, now, down, empty, peers[..|peers| - 1]);
      TurnOkStep(PeerTurns(t, snapshot.pieces, fields, now, down, empty, peers[..|peers| - 1]),
                 snapshot, fields, now, down, empty, peers[|peers| - 1]);
    }
  }

  lemma TimeoutsOk(prog: Progress, c: Chooser, now: int)
    requires Laid(prog) && ChooserOk(c, prog.pieces)
    ensures TurnOk(AfterTimeouts(prog, c, now), AfterTimeouts(prog, c, now).prog)
    ensures SameShape(prog, AfterTimeouts(prog, c, now).prog)
  {
    var t := AfterTimeouts(prog, c, now);
    RepaintKeepsShape(prog, ExpiredAt(c.active, c.active.Keys, now), Empty);
    forall p | p in t.active
      ensures TrackersInRange(t.active[p], t.prog.pieces)
    {
      RarityTrackerChooser.KeptInRange(c.active[p], now, t.prog.pieces);
    }
  }

  lemma WellFormedAfterChoose(s: State, peers: seq<PeerId>, now: int, down: seq<nat>, empty: seq<nat>)
    requires WellFormed(s) && Enabled(s, Choose(peers, now, down, empty))
    ensures var t := Chosen(s.disk.prog, s.chooser, now, peers, down, empty);
            && Laid(t.prog) && t.prog.fileSize == s.disk.prog.fileSize
            && ChooserOk(s.chooser.(active := t.active, windows := t.windows), t.prog.pieces)
  {
    var start := AfterTimeouts(s.disk.prog, s.chooser, now);
    TimeoutsOk(s.disk.prog, s.chooser, now);
    TurnsOk(start, start.prog, s.chooser.bitfields, now, down, empty, peers);
  }

  /** No handler moves, adds or drops a piece or block, or loses track of one. */
  lemma StepKeepsShape(env: Env, s: State, e: Event)
    requires WellFormed(s) && Enabled(s, e)
    ensures WellFormed(Step(env, s, e))
    ensures Step(env, s, e).disk.prog.fileSize == s.disk.prog.fileSize
    ensures SameShape(s.disk.prog, Step(env, s, e).disk.prog)
  {
    var p := s.disk.prog;
    match e {
      case Choose(peers, now, down, empty) =>
        WellFormedAfterChoose(s, peers, now, down, empty);
        LaidShape(p, Step(env, s, e).disk.prog);
      case Deliver(from, piece, block, data, at) =>
        LaidAfterSave(env.hash, s.disk, piece, block, data);
        LaidShape(p, Step(env, s, e).disk.prog);
        RarityTrackerChooser.OkAfterReceived(s.chooser, from, piece, block, at, p.pieces);
        OkForShape(Step(env, s, e).chooser, p, Step(env, s, e).disk.prog);
      case Recheck =>
        LaidAfterRecheck(env, s.disk);
        LaidShape(p, Step(env, s, e).disk.prog);
        OkForShape(s.chooser, p, Step(env, s, e).disk.prog);
      case AddPeer(_) =>
      case RemovePeer(_) =>
      case NewBitfield(_, _) =>
      case Ownership(_, _, _) =>
    }
  }

  // ----- and every handler moves statuses alone

  /** The same pieces and blocks, up to their statuses and time stamps. */
  ghost predicate SameRecords(p: Progress, q: Progress) {
    && |p.pieces| == |q.pieces|
    && forall i | 0 <= i < |p.pieces| :: SamePiece(p.pieces[i], q.pieces[i])
  }

  ghost predicate SamePiece(p: PieceProgress, q: PieceProgress) {
    && q.(status := p.status, blocks := p.blocks, lastAccess := p.lastAccess) == p
    && |q.blocks| == |p.blocks|
    && forall j | 0 <= j < |p.blocks| :: q.blocks[j].(status := p.blocks[j].status) == p.blocks[j]
  }

  lemma SameRecordsTwice(p: Progress, q: Progress, r: Progress)
    requires SameRecords(p, q) && SameRecords(q, r)
    ensures SameRecords(p, r)
  {
    forall i | 0 <= i < |p.pieces|
      ensures SamePiece(p.pieces[i], r.pieces[i])
    {
      assert SamePiece(p.pieces[i], q.pieces[i]) && SamePiece(q.pieces[i], r.pieces[i]);
    }
  }

  lemma RecordsAfterSave(hash: HashFunction, d: Disk, piece: nat, block: nat, data: seq<byte>)
    requires InRange(d.prog, piece, block)
    ensures SameRecords(d.prog, AfterSave(hash, d, piece, block, data).prog)
  {
    hide Verifies, WriteChunk, StatusDelta;
  }

  lemma {:induction false} RecordsWithStatuses(p: Progress, numbers: seq<nat>, status: DownloadStatus)
    requires forall k | 0 <= k < |numbers| :: numbers[k] < |p.pieces|
    ensures SameRecords(p, WithStatuses(p, numbers, status))
  {
    if |numbers| > 0 {
      var n := |numbers| - 1;
      var q := WithStatuses(p, numbers[..n], status);
      RecordsWithStatuses(p, numbers[..n], status);
      assert SameRecords(q, AfterPieceStatus(q, numbers[n], status));
      SameRecordsTwice(p, q, WithStatuses(p, numbers, status));
    }
  }

  lemma RecordsWithBlocks(p: Progress, blocks: set<BlockId>, status: DownloadStatus)
    ensures SameRecords(p, WithBlocks(p, blocks, status))
  {
  }

  lemma {:induction false} RecordsTurns(t: Turn, snapshot: seq<PieceProgress>, fields: map<PeerId, Bitfield>, now: int,
                                        down: seq<nat>, empty: seq<nat>, peers: seq<PeerId>)
    requires OrderIn(down, t.prog.pieces) && OrderIn(empty, snapshot)
    ensures SameRecords(t.prog, PeerTurns(t, snapshot, fields, now, down, empty, peers).prog)
  {
    hide SameRecords, WithBlocks, Picks, Slots;
    if |peers| == 0 {
      RecordsSame(t.prog);
    } else {
      var n := |peers| - 1;
      var u := PeerTurns(t, snapshot, fields, now, down, empty, peers[..n]);
      RecordsTurns(t, snapshot, fields, now, down, empty, peers[..n]);
      RecordsWithBlocks(u.prog, ToSet(Picks(u, snapshot, FieldOf(fields, peers[n]), down, empty, Slots(u, peers[n]))),
                        Downloading);
      SameRecordsTwice(t.prog, u.prog, PeerTurns(t, snapshot, fields, now, down, empty, peers).prog);
    }
  }

  lemma RecordsSame(p: Progress)
    ensures SameRecords(p, p)
  {
  }

  lemma RecordsAfterChoose(prog: Progress, c: Chooser, now: int, peers: seq<PeerId>, down: seq<nat>, empty: seq<nat>)
    requires OrderIn(down, prog.pieces) && OrderIn(empty, prog.pieces)
    ensures SameRecords(prog, Chosen(prog, c, now, peers, down, empty).prog)
  {
    hide SameRecords, PeerTurns;
    var start := AfterTimeouts(prog, c, now);
    RecordsWithBlocks(prog, ExpiredAt(c.active, c.active.Keys, now), Empty);
    RecordsTurns(start, start.prog.pieces, c.bitfields, now, down, empty, peers);
    SameRecordsTwice(prog, start.prog, Chosen(prog, c, now, peers, down, empty).prog);
  }

  /** No handler touches a hash, a recorded number of bytes, an offset or a size. */
  lemma StepKeepsRecords(env: Env, s: State, e: Event)
    requires WellFormed(s) && Enabled(s, e)
    ensures SameRecords(s.disk.prog, Step(env, s, e).disk.prog)
  {
    hide SameRecords, Laid, ChooserOk, AfterSave, WithStatuses, Chosen;
    RecordsSame(s.disk.prog);
    match e {
      case Choose(peers, now, down, empty) =>
        TimeoutsOk(s.disk.prog, s.chooser, now);
        RecordsAfterChoose(s.disk.prog, s.chooser, now, peers, down, empty);
      case Deliver(from, piece, block, data, at) =>
        RecordsAfterSave(env.hash, s.disk, piece, block, data);
      case Recheck =>
        RecordsWithStatuses(s.disk.prog, UpTo(|s.disk.prog.pieces|), Verified);
        RecordsWithStatuses(s.disk.prog, DamagedUpTo(env.hash, s.disk, |s.disk.prog.pieces|), Empty);
      case AddPeer(_) =>
      case RemovePeer(_) =>
      case NewBitfield(_, _) =>
      case Ownership(_, _, _) =>
    }
  }

  // ----- runs

  /** A run is a list of events, each of which the machine accepts where it stands. */
  ghost predicate IsRun(env: Env, s: State, events: seq<Event>)
    requires WellFormed(s)
    decreases |events|
  {
    |events| > 0 ==>
      && Enabled(s, events[0])
      && (StepKeepsShape(env, s, events[0]);
          IsRun(env, Step(env, s, events[0]), events[1..]))
  }

  ghost function Run(env: Env, s: State, events: seq<Event>): (s': State)
    requires WellFormed(s) && IsRun(env, s, events)
    ensures WellFormed(s')
    decreases |events|
  {
    if |events| == 0 then s
    else
      StepKeepsShape(env, s, events[0]);
      Run(env, Step(env, s, events[0]), events[1..])
  }

  /** A download as TorrentFileHandler finds it: nothing held, nobody known. */
  ghost predicate Fresh(s: State) {
    && WellFormed(s)
    && s.disk.prog.total == 0 && !s.disk.prog.completed
    && |s.disk.file| == s.disk.prog.fileSize
    && (forall i | 0 <= i < |s.disk.prog.pieces| ::
          s.disk.prog.pieces[i].status == Empty
          && forall j | 0 <= j < |s.disk.prog.pieces[i].blocks| :: s.disk.prog.pieces[i].blocks[j].status == Empty)
    && s.chooser == Chooser(|s.disk.prog.pieces|, map[], map[], map[], seq(|s.disk.prog.pieces|, _ => 0), map[])
  }

  /** What the constructors build: the pieces of the cut, nothing of them held. */
  lemma NewDownloadIsFresh(p: Progress, hashes: seq<Hash>, now: nat, c: Chooser, file: seq<byte>)
    requires p.fileSize < TWO64 && p.total == 0 && !p.completed && |p.pieces| == PieceCount(p.fileSize) <= |hashes|
    requires forall i | 0 <= i < |p.pieces| ::
               PieceLength(p.fileSize, i) > 0
               && p.pieces[i] == FreshPiece(PieceStart(p.fileSize, i), PieceLength(p.fileSize, i), hashes[i], now)
    requires |file| == p.fileSize
    requires c == Chooser(|p.pieces|, map[], map[], map[], seq(|p.pieces|, _ => 0), map[])
    ensures Fresh(State(Disk(file, p), c))
    ensures forall i | 0 <= i < |p.pieces| ::
              p.pieces[i].hash == hashes[i] && p.pieces[i].bytesDownloaded == 0 && p.pieces[i].lastAccess == now
  {
    hide PieceStart, PieceLength, PieceCount, BlockLength;
  }
}
