// A download from one holder of the file can always be brought to its end.

module Completion {
  import opened Bytes
  import opened FileSplitter
  import opened Coalescing
  import opened DownloadProgress
  import opened ByteAccounting
  import opened FileIO
  import opened Selection
  import opened RarityTrackerChooser
  import opened Engine
  import opened Agreement
  import opened SeveralPeers
  import opened DownloadRuns
  import opened WindowSafety
  import opened Contents
  import opened HonestSource
  import opened VisitingOrders

  ghost predicate HasEverything(s: State, p: PeerId) {
    forall i | 0 <= i < |s.disk.prog.pieces| :: HasBit(FieldOf(s.chooser.bitfields, p), i)
  }

  /** A download in good order whose requests all go to a peer that has every piece. */
  ghost predicate OnTrack(env: Env, s: State, p: PeerId, original: seq<byte>) {
    && Sound(s) && WindowsOk(s.chooser) && OnlyFrom(s.chooser.active, p) && HasEverything(s, p)
    && Faithful(s.disk, original) && Recorded(env, s.disk.prog, original) && s.disk.prog.fileSize > 0
  }

  /** At the given time the peer is asked, or it answers with what it has of the original. */
  predicate Exchange(p: PeerId, original: seq<byte>, now: int, e: Event) {
    match e
    case Choose(peers, at, _, _) => peers == [p] && at == now
    case Deliver(from, i, j, data, at) => from == p && at == now && data == Served(original, |original|, (i, j))
    case _ => false
  }

  lemma ExchangeKeepsTrack(env: Env, s: State, p: PeerId, original: seq<byte>, now: int, e: Event)
    requires OnTrack(env, s, p, original) && Enabled(s, e) && Exchange(p, original, now, e) && NotOverfilling(s, e)
    ensures WellFormed(Step(env, s, e)) && OnTrack(env, Step(env, s, e), p, original)
    ensures Step(env, s, e).disk.prog.fileSize == s.disk.prog.fileSize
  {
    hide WindowsOk, OnlyFrom, Books, Agree, Faithful, Recorded, Disciplined, NotOverfilling, HasBit, Served, Laid, ChooserOk;
    StepKeepsShape(env, s, e);
    SingleSourceDisciplined(s, p, e);
    SoundStep(env, s, e);
    SingleSourceStep(env, s, p, e);
    WindowsStep(env, s, e);
    FaithfulSize(s.disk, original);
    FaithfulStep(env, s, e, original);
    SamePeers(env, s, e);
  }

  lemma FaithfulSize(d: Disk, original: seq<byte>)
    requires Faithful(d, original)
    ensures |original| == d.prog.fileSize
  {
  }

  lemma SamePeers(env: Env, s: State, e: Event)
    requires WellFormed(s) && Enabled(s, e) && (e.Choose? || e.Deliver?)
    ensures Step(env, s, e).chooser.bitfields == s.chooser.bitfields
  {
    hide Chosen, AfterSave, Improves, AdjustedWindow;
  }

  /** As long as a block is missing the peer can be asked, and then owes an answer. */
  lemma CanAsk(env: Env, s: State, p: PeerId, original: seq<byte>, now: int) returns (ask: Event, b: BlockId)
    requires OnTrack(env, s, p, original) && !ProgressIsOne(s.disk.prog)
    ensures WellFormed(s) && Enabled(s, ask) && Exchange(p, original, now, ask)
    ensures WellFormed(Step(env, s, ask)) && OnTrack(env, Step(env, s, ask), p, original)
    ensures Step(env, s, ask).disk.prog.total == s.disk.prog.total
    ensures Step(env, s, ask).disk.prog.fileSize == s.disk.prog.fileSize
    ensures exists r :: Awaited(Step(env, s, ask).chooser.active, p, r, b)
  {
    hide OnTrack, Enabled, Step, Exchange, OnlyFrom, Quiet;
    ask := AskEvent(env, s, p, original, now);
    ExchangeKeepsTrack(env, s, p, original, now, ask);
    AskIsOwed(env, s, p, original, now, ask);
    TrackIsSingle(env, Step(env, s, ask), p, original);
    b := OwedBlock(Step(env, s, ask).chooser.active, p);
  }

  lemma TrackIsSingle(env: Env, s: State, p: PeerId, original: seq<byte>)
    requires OnTrack(env, s, p, original)
    ensures OnlyFrom(s.chooser.active, p)
  {
  }

  lemma AskEvent(env: Env, s: State, p: PeerId, original: seq<byte>, now: int) returns (ask: Event)
    requires OnTrack(env, s, p, original)
    ensures ask.Choose? && ask.peers == [p] && ask.now == now
    ensures Enabled(s, ask) && Exchange(p, original, now, ask) && NotOverfilling(s, ask)
  {
    hide Books, Agree, OnlyFrom, HasBit, Faithful, Recorded, WindowsOk, ValidOrders, AfterTimeouts, Laid;
    TimeoutsOk(s.disk.prog, s.chooser, now);
    var down, empty := OrdersExist(AfterTimeouts(s.disk.prog, s.chooser, now).prog.pieces, s.chooser.rarity, 0);
    ask := Choose([p], now, down, empty);
  }

  lemma AskIsOwed(env: Env, s: State, p: PeerId, original: seq<byte>, now: int, ask: Event)
    requires OnTrack(env, s, p, original) && !ProgressIsOne(s.disk.prog)
    requires ask.Choose? && ask.peers == [p] && ask.now == now && Enabled(s, ask)
    ensures WellFormed(s) && Step(env, s, ask).disk.prog.total == s.disk.prog.total
    ensures !Quiet(Step(env, s, ask).chooser.active)
  {
    hide Agree, OnlyFrom, HasBit, Faithful, Recorded, WindowsOk, ValidOrders, AfterTimeouts, Laid, Quiet, PieceOk,
         HeldBytes, AllComplete;
    CompletionCharacterised(s.disk.prog);
    NeverStalls(s.disk.prog, s.chooser, now, [p], p, ask.down, ask.empty);
    AskingCountsNothing(s.disk.prog, s.chooser, now, [p], ask.down, ask.empty);
  }

  lemma AskingCountsNothing(prog: Progress, c: Chooser, now: int, peers: seq<PeerId>, down: seq<nat>, empty: seq<nat>)
    requires Laid(prog) && ValidOrders(AfterTimeouts(prog, c, now).prog.pieces, c.rarity, down, empty)
    ensures OrderIn(down, prog.pieces) && OrderIn(empty, prog.pieces)
    ensures Chosen(prog, c, now, peers, down, empty).prog.total == prog.total
  {
    hide ValidOrders, Painted, Laid, PeerTurns;
    ChosenIsPainted(prog, c, now, peers, down, empty);
    HeldByAsking(AfterTimeouts(prog, c, now), Chosen(prog, c, now, peers, down, empty));
  }

  lemma OwedBlock(active: Requests, p: PeerId) returns (b: BlockId)
    requires !Quiet(active) && OnlyFrom(active, p)
    ensures exists r :: Awaited(active, p, r, b)
  {
    var q, r, b' :| Awaited(active, q, r, b');
    b := b';
    assert q == p;
  }

  /** The first answer to an open request is no repeated one. */
  lemma OpenIsNotAnswered(c: Chooser, pieces: seq<PieceProgress>, p: PeerId, b: BlockId)
    requires Agree(c.active, pieces) && exists r :: Awaited(c.active, p, r, b)
    ensures !AnswersTwice(c, p, b)
  {
    var r :| Awaited(c.active, p, r, b);
    var requests := c.active[p];
    var l :| 0 <= l < |requests| && requests[l] == r;
    var k := FirstMatch(requests, b);
    DistinctNames(requests, k, l);
  }

  /** The answer that is owed can be given, and the counter grows by a block. */
  lemma CanAnswer(env: Env, s: State, p: PeerId, original: seq<byte>, now: int, b: BlockId)
    requires OnTrack(env, s, p, original) && exists r :: Awaited(s.chooser.active, p, r, b)
    ensures var answer := Deliver(p, b.0, b.1, Served(original, |original|, b), now);
      && Enabled(s, answer) && Exchange(p, original, now, answer)
      && WellFormed(Step(env, s, answer)) && OnTrack(env, Step(env, s, answer), p, original)
      && Step(env, s, answer).disk.prog.total > s.disk.prog.total
      && Step(env, s, answer).disk.prog.fileSize == s.disk.prog.fileSize
  {
    hide WindowsOk, OnlyFrom, Faithful, Recorded, HasBit, Served, HasEverything, Sound;
    var answer := Deliver(p, b.0, b.1, Served(original, |original|, b), now);
    FaithfulSize(s.disk, original);
    OwedIsUnheld(s, p, b, now);
    ExchangeKeepsTrack(env, s, p, original, now, answer);
    HonestDeliveryGrows(env, s.disk, original, b);
  }

  lemma OwedIsUnheld(s: State, p: PeerId, b: BlockId, now: int)
    requires Sound(s) && exists r :: Awaited(s.chooser.active, p, r, b)
    ensures InRange(s.disk.prog, b.0, b.1) && Books(s.disk.prog) && WellFormed(s)
    ensures StatusAt(s.disk.prog.pieces, b) == Downloading && s.disk.prog.pieces[b.0].blocks[b.1].size > 0
    ensures NotOverfilling(s, Deliver(p, b.0, b.1, [], now)) && !AnswersTwice(s.chooser, p, b)
  {
    var prog := s.disk.prog;
    var r :| Awaited(s.chooser.active, p, r, b);
    BlocksFillPiece(prog.pieces[b.0], PieceStart(prog.fileSize, b.0), PieceLength(prog.fileSize, b.0));
    OpenIsNotAnswered(s.chooser, prog.pieces, p, b);
  }

  lemma TrackIsCounted(env: Env, s: State, p: PeerId, original: seq<byte>)
    requires OnTrack(env, s, p, original)
    ensures WellFormed(s) && s.disk.prog.total <= s.disk.prog.fileSize
  {
    CompletionCharacterised(s.disk.prog);
  }

  lemma RunOfTwo(env: Env, s: State, d: Event, e: Event, rest: seq<Event>)
    requires WellFormed(s) && Enabled(s, d) && WellFormed(Step(env, s, d)) && Enabled(Step(env, s, d), e)
    requires WellFormed(Step(env, Step(env, s, d), e)) && IsRun(env, Step(env, Step(env, s, d), e), rest)
    ensures IsRun(env, s, [d] + ([e] + rest))
    ensures Run(env, s, [d] + ([e] + rest)) == Run(env, Step(env, Step(env, s, d), e), rest)
  {
    hide Step, Enabled, WellFormed;
    RunStep(env, Step(env, s, d), e, rest);
    RunStep(env, s, d, [e] + rest);
  }

  /** From every state on track, at any time, some exchange with the peer ends with the counter at the file size. */
  lemma {:induction false} CanFinish(env: Env, s: State, p: PeerId, original: seq<byte>, now: int)
    returns (events: seq<Event>)
    requires OnTrack(env, s, p, original)
    ensures IsRun(env, s, events) && forall e | e in events :: Exchange(p, original, now, e)
    ensures OnTrack(env, Run(env, s, events), p, original) && ProgressIsOne(Run(env, s, events).disk.prog)
    decreases s.disk.prog.fileSize - s.disk.prog.total
  {
    hide OnTrack, Step, Enabled, Exchange, Served, IsRun, Run;
    TrackIsCounted(env, s, p, original);
    if ProgressIsOne(s.disk.prog) {
      events := [];
      NoEvents(env, s);
    } else {
      var ask, b := CanAsk(env, s, p, original, now);
      var s1 := Step(env, s, ask);
      CanAnswer(env, s1, p, original, now, b);
      var answer := Deliver(p, b.0, b.1, Served(original, |original|, b), now);
      var rest := CanFinish(env, Step(env, s1, answer), p, original, now);
      RunOfTwo(env, s, ask, answer, rest);
      events := [ask] + ([answer] + rest);
    }
  }

  function FullField(pieceCount: nat): Bitfield {
    seq(pieceCount / 8 + 1, _ => [true, true, true, true, true, true, true, true])
  }

  /** The peer registers and tells that it has everything. */
  lemma FreshIsOnTrack(env: Env, s: State, p: PeerId, original: seq<byte>)
    requires Fresh(s) && Recorded(env, s.disk.prog, original) && s.disk.prog.fileSize > 0
    ensures Enabled(s, AddPeer(p))
    ensures var s1 := Step(env, s, AddPeer(p)); var tell := NewBitfield(p, FullField(|s.disk.prog.pieces|));
      && WellFormed(s1) && Enabled(s1, tell) && s1.disk == s.disk
      && WellFormed(Step(env, s1, tell)) && OnTrack(env, Step(env, s1, tell), p, original)
      && Step(env, s1, tell).disk == s.disk
  {
    hide Sound, WindowsOk, OnlyFrom, HasBit, Faithful, ChooserOk, Laid, FullField, AfterAddPeer, AfterBitfield,
         Disciplined, NotOverfilling;
    var tell := NewBitfield(p, FullField(|s.disk.prog.pieces|));
    var s1 := Step(env, s, AddPeer(p));
    FreshIsSound(s);
    StepKeepsShape(env, s, AddPeer(p));
    JoiningIsDisciplined(s, p);
    SoundStep(env, s, AddPeer(p));
    TellingIsDisciplined(s1, tell);
    StepKeepsShape(env, s1, tell);
    SoundStep(env, s1, tell);
    FreshIsFaithful(s, original);
    AfterTelling(s.chooser, p, |s.disk.prog.pieces|);
  }

  lemma JoiningIsDisciplined(s: State, p: PeerId)
    requires Fresh(s)
    ensures Enabled(s, AddPeer(p)) && Disciplined(s, AddPeer(p))
  {
  }

  lemma TellingIsDisciplined(s: State, tell: Event)
    requires WellFormed(s) && tell.NewBitfield? && tell.field == FullField(|s.disk.prog.pieces|)
    ensures Enabled(s, tell) && Disciplined(s, tell)
  {
  }

  lemma FreshIsFaithful(s: State, original: seq<byte>)
    requires Fresh(s) && |original| == s.disk.prog.fileSize
    ensures Faithful(s.disk, original)
  {
  }

  lemma AfterTelling(c: Chooser, p: PeerId, pieceCount: nat)
    requires c.active == map[] && c.windows == map[]
    ensures var c' := AfterBitfield(AfterAddPeer(c, p), p, FullField(pieceCount));
      && WindowsOk(c') && OnlyFrom(c'.active, p)
      && forall i | 0 <= i < pieceCount :: HasBit(FieldOf(c'.bitfields, p), i)
  {
    hide Added, WithoutRarity, EmptyBitfield;
    var c' := AfterBitfield(AfterAddPeer(c, p), p, FullField(pieceCount));
    assert c'.active == map[p := []] && c'.windows == map[p := INITIAL_WINDOW];
  }

  /** From a fresh download one peer that has the file is enough: it can be asked and can answer so that the check of
      the whole file is passed and the program has the original, every piece verified. */
  lemma FreshCanFinish(env: Env, s: State, p: PeerId, original: seq<byte>, now: int) returns (events: seq<Event>)
    requires Fresh(s) && Recorded(env, s.disk.prog, original) && s.disk.prog.fileSize > 0
    ensures IsRun(env, s, events)
    ensures forall e | e in events ::
              e == AddPeer(p) || e == NewBitfield(p, FullField(|s.disk.prog.pieces|)) || e == Recheck
              || Exchange(p, original, now, e)
    ensures var d := Run(env, s, events).disk;
      d.file == original && forall i | 0 <= i < |d.prog.pieces| :: d.prog.pieces[i].status == Verified
  {
    hide OnTrack, Step, Enabled, Exchange, IsRun, Run, FullField, Recorded;
    var tell := NewBitfield(p, FullField(|s.disk.prog.pieces|));
    FreshIsOnTrack(env, s, p, original);
    var s1 := Step(env, s, AddPeer(p));
    var s2 := Step(env, s1, tell);
    var exchange := CanFinish(env, s2, p, original, now);
    FinishedByCheck(env, s2, exchange, p, original);
    RunOfTwo(env, s, AddPeer(p), tell, exchange + [Recheck]);
    events := [AddPeer(p)] + ([tell] + (exchange + [Recheck]));
  }

  lemma {:induction false} RunThenCheck(env: Env, s: State, events: seq<Event>)
    requires WellFormed(s) && IsRun(env, s, events)
    ensures IsRun(env, s, events + [Recheck])
    ensures Run(env, s, events + [Recheck]) == Step(env, Run(env, s, events), Recheck)
    decreases |events|
  {
    if events == [] {
      StepKeepsShape(env, s, Recheck);
      assert [] + [Recheck] == [Recheck];
    } else {
      StepKeepsShape(env, s, events[0]);
      RunThenCheck(env, Step(env, s, events[0]), events[1..]);
      assert (events + [Recheck])[1..] == events[1..] + [Recheck];
    }
  }

  lemma FinishedByCheck(env: Env, s: State, events: seq<Event>, p: PeerId, original: seq<byte>)
    requires WellFormed(s) && IsRun(env, s, events)
    requires OnTrack(env, Run(env, s, events), p, original) && ProgressIsOne(Run(env, s, events).disk.prog)
    ensures IsRun(env, s, events + [Recheck])
    ensures var d := Run(env, s, events + [Recheck]).disk;
      d.file == original && forall i | 0 <= i < |d.prog.pieces| :: d.prog.pieces[i].status == Verified
  {
    var s' := Run(env, s, events);
    RunThenCheck(env, s, events);
    OriginalAtOne(env, s'.disk, original);
    AllVerified(s'.disk.prog, |s'.disk.prog.pieces|);
  }
}
