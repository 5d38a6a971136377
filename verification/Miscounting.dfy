// A run of five events after which the byte counter is wrong: a block asked of two peers comes from one of them,
// and the request to the other one times out.

module Miscounting {
  import opened Bytes
  import opened FileSplitter
  import opened DownloadProgress
  import opened ByteAccounting
  import opened Selection
  import opened Engine
  import opened Agreement
  import opened SeveralPeers
  import opened DownloadRuns

  /** A fresh download of a file of one block. */
  ghost predicate OneBlock(s: State) {
    Fresh(s) && |s.disk.prog.pieces| == 1 && |s.disk.prog.pieces[0].blocks| == 1
  }

  /** The byte counter is above the bytes that are held. */
  ghost predicate CountsTooMuch(s: State) {
    s.disk.prog.total > HeldBytes(s.disk.prog.pieces)
  }

  ghost predicate Claims(c: Chooser, p: PeerId) {
    p in c.bitfields && HasBit(c.bitfields[p], 0)
  }

  ghost predicate Accepts(env: Env, s: State, e: Event) {
    WellFormed(s) && Enabled(s, e) && WellFormed(Step(env, s, e))
  }

  lemma FiveInARow<T>(a: T, b: T, c: T, d: T, e: T)
    ensures [a] + ([b] + ([c] + ([d] + ([e] + [])))) == [a, b, c, d, e]
  {
  }

  lemma RunOfFive(env: Env, s: State, a: Event, b: Event, c: Event, d: Event, e: Event)
    requires Accepts(env, s, a) && Accepts(env, Step(env, s, a), b)
    requires var s2 := Step(env, Step(env, s, a), b);
      && Accepts(env, s2, c) && Accepts(env, Step(env, s2, c), d) && Accepts(env, Step(env, Step(env, s2, c), d), e)
    ensures IsRun(env, s, [a, b, c, d, e])
    ensures Run(env, s, [a, b, c, d, e])
         == Step(env, Step(env, Step(env, Step(env, Step(env, s, a), b), c), d), e)
  {
    hide Enabled, WellFormed, Step;
    FiveInARow(a, b, c, d, e);
    var s2 := Step(env, Step(env, s, a), b);
    var s3 := Step(env, s2, c);
    RunStep(env, Step(env, s3, d), e, []);
    RunStep(env, s3, d, [e] + []);
    RunStep(env, s2, c, [d] + ([e] + []));
    RunStep(env, Step(env, s, a), b, [c] + ([d] + ([e] + [])));
    RunStep(env, s, a, [b] + ([c] + ([d] + ([e] + []))));
  }

  /** Both peers tell what they have. */
  lemma AfterTelling(env: Env, s: State, p: PeerId, q: PeerId, field: Bitfield)
    requires OneBlock(s) && p != q && HasBit(field, 0)
    ensures Enabled(s, NewBitfield(p, field))
    ensures var s1 := Step(env, s, NewBitfield(p, field));
      && WellFormed(s1) && Enabled(s1, NewBitfield(q, field))
      && var s2 := Step(env, s1, NewBitfield(q, field));
      && WellFormed(s2) && s2.disk == s.disk && s2.chooser.active == map[] && s2.chooser.windows == map[]
      && |s2.chooser.rarity| == 1 && Claims(s2.chooser, p) && Claims(s2.chooser, q)
  {
    StepKeepsShape(env, s, NewBitfield(p, field));
    StepKeepsShape(env, Step(env, s, NewBitfield(p, field)), NewBitfield(q, field));
  }

  /** Both are asked for the block. */
  lemma AfterAsking(env: Env, s: State, p: PeerId, q: PeerId, sent: int)
    requires WellFormed(s) && Books(s.disk.prog) && |s.disk.prog.pieces| == 1 && |s.disk.prog.pieces[0].blocks| == 1
    requires s.disk.prog.pieces[0].status == Empty && s.disk.prog.pieces[0].blocks[0].status == Empty
    requires s.chooser.active == map[] && s.chooser.windows == map[] && p != q
    requires Claims(s.chooser, p) && Claims(s.chooser, q)
    ensures Enabled(s, Choose([p, q], sent, [], [0]))
    ensures var s' := Step(env, s, Choose([p, q], sent, [], [0]));
      && WellFormed(s') && Books(s'.disk.prog) && s'.disk.file == s.disk.file && SameShape(s.disk.prog, s'.disk.prog)
      && s'.disk.prog.pieces[0].hash == s.disk.prog.pieces[0].hash
      && s'.disk.prog.pieces[0].blocks[0].status == Downloading
      && s'.chooser.active == map[p := [RequestTracker(sent, 0, 0, false)], q := [RequestTracker(sent, 0, 0, false)]]
  {
    hide Books, Laid, HasBit, AfterTimeouts, NoneOverdue, Agree, SameShape;
    var c, prog := s.chooser, s.disk.prog;
    NothingToTimeOut(prog, c, sent);
    EmptyPieceAskedTwice(prog, c, sent, p, q);
    BooksAfterChoose(prog, c, sent, [p, q], [], [0]);
    ChosenIsPainted(prog, c, sent, [p, q], [], [0]);
    BlockIsPainted(AfterTimeouts(prog, c, sent), Chosen(prog, c, sent, [p, q], [], [0]));
    StepKeepsShape(env, s, Choose([p, q], sent, [], [0]));
  }

  lemma NothingToTimeOut(prog: Progress, c: Chooser, now: int)
    requires c.active == map[] && |prog.pieces| == |c.rarity| == 1 && prog.pieces[0].status == Empty
    ensures AfterTimeouts(prog, c, now).prog == prog && NoneOverdue(prog, c.active, now)
    ensures ValidOrders(prog.pieces, c.rarity, [], [0])
  {
    assert ExpiredAt(c.active, c.active.Keys, now) == {};
    WithNoBlocks(prog, Empty);
  }

  lemma BlockIsPainted(start: Turn, t: Turn)
    requires Painted(start, t) && |t.batches| == 2 && t.batches[0].picks == [(0, 0)] && Exists(start.prog.pieces, (0, 0))
    ensures Exists(t.prog.pieces, (0, 0)) && t.prog.pieces[0].blocks[0].status == Downloading
    ensures t.prog.pieces[0].hash == start.prog.pieces[0].hash
  {
    InAllPicks(t.batches, (0, 0));
    assert (0, 0) in t.batches[0].picks;
    StatusAfterRepaint(start.prog, AllPicks(t.batches), Downloading, (0, 0));
  }

  /** The first peer delivers, and the piece verifies. */
  lemma AfterDelivery(env: Env, s: State, p: PeerId, q: PeerId, sent: int, data: seq<byte>, at: int)
    requires WellFormed(s) && Books(s.disk.prog) && |s.disk.prog.pieces| == 1 && |s.disk.prog.pieces[0].blocks| == 1
    requires p != q && |data| == |s.disk.file| == s.disk.prog.fileSize
    requires env.hash(data) == s.disk.prog.pieces[0].hash
    requires s.chooser.active == map[p := [RequestTracker(sent, 0, 0, false)], q := [RequestTracker(sent, 0, 0, false)]]
    ensures Enabled(s, Deliver(p, 0, 0, data, at))
    ensures var s' := Step(env, s, Deliver(p, 0, 0, data, at));
      && WellFormed(s') && Books(s'.disk.prog) && SameShape(s.disk.prog, s'.disk.prog)
      && s'.disk.prog.pieces[0].status == Verified && s'.disk.prog.pieces[0].blocks[0].status == Verified
      && q in s'.chooser.active && s'.chooser.active[q] == [RequestTracker(sent, 0, 0, false)]
  {
    var prog := AfterBlock(s.disk.prog, 0, 0);
    var file := WriteChunk(s.disk.file, 0, data);
    assert WellCut(s.disk.prog.pieces[0], PieceStart(s.disk.prog.fileSize, 0), PieceLength(s.disk.prog.fileSize, 0));
    PieceLengths(s.disk.prog.fileSize, 0);
    assert file == data && ReadChunk(file, 0, |data|) == data;
    assert prog.pieces[0].status == Downloaded;
    BooksAfterSave(env.hash, s.disk, (0, 0), data);
    StepKeepsShape(env, s, Deliver(p, 0, 0, data, at));
  }

  /** The other request times out, and takes the block away without telling the counter. */
  lemma AfterTimeout(env: Env, s: State, q: PeerId, sent: int, late: int)
    requires WellFormed(s) && Books(s.disk.prog) && |s.disk.prog.pieces| == 1 && |s.disk.prog.pieces[0].blocks| == 1
    requires s.disk.prog.pieces[0].status == Verified && s.disk.prog.pieces[0].blocks[0].status == Verified
    requires q in s.chooser.active && s.chooser.active[q] == [RequestTracker(sent, 0, 0, false)]
    requires Millis(late - sent) > REQUEST_TIMEOUT_MS
    ensures Enabled(s, Choose([], late, [], []))
    ensures WellFormed(Step(env, s, Choose([], late, [], []))) && CountsTooMuch(Step(env, s, Choose([], late, [], [])))
  {
    hide Laid, NoneOverdue, AfterTimeouts, ValidOrders, HeldBytes, PieceOk;
    OverdueForHeld(s.disk.prog, s.chooser.active, q, sent, late);
    NothingToAsk(s.disk.prog, s.chooser, late);
    CountedAfterChoose(s.disk.prog, s.chooser, late, [], [], []);
    StepKeepsShape(env, s, Choose([], late, [], []));
  }

  lemma OverdueForHeld(prog: Progress, active: Requests, q: PeerId, sent: int, late: int)
    requires |prog.pieces| == 1 && |prog.pieces[0].blocks| == 1 && prog.pieces[0].blocks[0].status == Verified
    requires q in active && active[q] == [RequestTracker(sent, 0, 0, false)]
    requires Millis(late - sent) > REQUEST_TIMEOUT_MS
    ensures !NoneOverdue(prog, active, late)
  {
    var r := RequestTracker(sent, 0, 0, false);
    assert active[q][0] == r && r in active[q];
    assert Awaited(active, q, r, (0, 0)) && TimedOut(r, late) && Exists(prog.pieces, (0, 0));
  }

  lemma NothingToAsk(prog: Progress, c: Chooser, now: int)
    requires |prog.pieces| == |c.rarity| == 1 && prog.pieces[0].status == Verified
    ensures ValidOrders(AfterTimeouts(prog, c, now).prog.pieces, c.rarity, [], [])
  {
  }

  /** Two holders of a file of one block, the right bytes, and one answer that never comes: the run is accepted from
      the fresh download on, its last call is not timely, and it ends with a counter that is too high. */
  lemma LateCopyMiscounts(env: Env, s: State, p: PeerId, q: PeerId, field: Bitfield, data: seq<byte>,
                          sent: int, at: int, late: int)
    requires OneBlock(s) && p != q && HasBit(field, 0)
    requires |data| == s.disk.prog.fileSize && env.hash(data) == s.disk.prog.pieces[0].hash
    requires Millis(late - sent) > REQUEST_TIMEOUT_MS
    ensures var events := [NewBitfield(p, field), NewBitfield(q, field), Choose([p, q], sent, [], [0]),
                           Deliver(p, 0, 0, data, at), Choose([], late, [], [])];
      IsRun(env, s, events) && CountsTooMuch(Run(env, s, events))
  {
    var tellP, tellQ := NewBitfield(p, field), NewBitfield(q, field);
    var ask, deliver, giveUp := Choose([p, q], sent, [], [0]), Deliver(p, 0, 0, data, at), Choose([], late, [], []);
    AfterTelling(env, s, p, q, field);
    var s1 := Step(env, s, tellP);
    var s2 := Step(env, s1, tellQ);
    FreshIsSound(s);
    AfterAsking(env, s2, p, q, sent);
    var s3 := Step(env, s2, ask);
    AfterDelivery(env, s3, p, q, sent, data, at);
    var s4 := Step(env, s3, deliver);
    AfterTimeout(env, s4, q, sent, late);
    hide Enabled, WellFormed, Step, CountsTooMuch;
    RunOfFive(env, s, tellP, tellQ, ask, deliver, giveUp);
  }
}
