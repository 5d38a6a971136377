// A run from a fresh download after which more requests are open at a peer than its window allows: the peer keeps
// answering the same request.

module Overfilling {
  import opened Bytes
  import opened FileSplitter
  import opened DownloadProgress
  import opened ByteAccounting
  import opened FileIO
  import opened Selection
  import opened RarityTrackerChooser
  import opened Engine
  import opened DownloadRuns
  import opened WindowSafety

  /** A fresh download of a file of one piece with four blocks. */
  ghost predicate FourBlocks(s: State) {
    Fresh(s) && |s.disk.prog.pieces| == 1 && |s.disk.prog.pieces[0].blocks| == 4
  }

  /** The requests for the four blocks, the first of them answered or not. */
  function FourRequests(answered: bool): seq<RequestTracker> {
    [RequestTracker(0, 0, 0, answered), RequestTracker(0, 0, 1, false),
     RequestTracker(0, 0, 2, false), RequestTracker(0, 0, 3, false)]
  }

  function Zeros(n: nat): (times: seq<int>)
    ensures |times| == n
  {
    seq(n, _ => 0)
  }

  /** The first request has been answered n times, each time at once. */
  ghost predicate AnsweredTimes(s: State, p: PeerId, n: nat) {
    && WellFormed(s) && InRange(s.disk.prog, 0, 0)
    && p in s.chooser.active && s.chooser.active[p] == FourRequests(n > 0)
    && p in s.chooser.times && s.chooser.times[p] == Zeros(n)
    && p in s.chooser.windows && s.chooser.windows[p] == if n < 5 then 10 else 14 - n
  }

  // ----- the request

  lemma {:induction false} AllStatused(blocks: seq<BlockInfo>)
    requires forall j | 0 <= j < |blocks| :: blocks[j].status == Empty
    ensures BlocksStatused(blocks, Empty) == blocks
  {
    if |blocks| > 0 {
      AllStatused(blocks[..|blocks| - 1]);
    }
  }

  /** All four blocks are candidates, in order. */
  lemma FourCandidates(prog: Progress, field: Bitfield)
    requires Laid(prog) && |prog.pieces| == 1 && |prog.pieces[0].blocks| == 4 && HasBit(field, 0)
    requires forall j | 0 <= j < 4 :: prog.pieces[0].blocks[j].status == Empty
    ensures Candidates(prog.pieces, [0], field) == [(0, 0), (0, 1), (0, 2), (0, 3)]
  {
    var p := prog.pieces[0];
    AllStatused(p.blocks);
    BlocksFillPiece(p, PieceStart(prog.fileSize, 0), PieceLength(prog.fileSize, 0));
    assert forall j | 0 <= j < 4 :: p.blocks[j].offset / BLOCK_SIZE == j;
    assert EmptyBlocks(p, 0) == [(0, 0), (0, 1), (0, 2), (0, 3)];
    assert [0][..0] == [];
    assert Candidates(prog.pieces, [0], field) == Candidates(prog.pieces, [0][..0], field) + EmptyBlocks(p, 0);
  }

  lemma TurnForFour(t: Turn, fields: map<PeerId, Bitfield>, p: PeerId)
    requires Laid(t.prog) && |t.prog.pieces| == 1 && |t.prog.pieces[0].blocks| == 4
    requires forall j | 0 <= j < 4 :: t.prog.pieces[0].blocks[j].status == Empty
    requires p in t.active && t.active[p] == [] && p in t.windows && t.windows[p] == INITIAL_WINDOW
    requires p in fields && HasBit(fields[p], 0)
    ensures var t' := PeerTurn(t, t.prog.pieces, fields, 0, [], [0], p);
      && t'.active == t.active[p := FourRequests(false)] && t'.windows == t.windows
  {
    FourCandidates(t.prog, fields[p]);
    var picks := [(0, 0), (0, 1), (0, 2), (0, 3)];
    assert Slots(t, p) == INITIAL_WINDOW;
    assert Candidates(t.prog.pieces, [], fields[p]) + picks == picks;
    assert Picks(t, t.prog.pieces, fields[p], [], [0], INITIAL_WINDOW) == picks;
    assert [] + Track(picks, 0) == FourRequests(false);
  }

  /** The peer joins and tells what it has. */
  lemma AfterJoining(env: Env, s: State, p: PeerId, field: Bitfield)
    requires FourBlocks(s) && HasBit(field, 0)
    ensures Enabled(s, AddPeer(p))
    ensures var s1 := Step(env, s, AddPeer(p));
      && WellFormed(s1) && Enabled(s1, NewBitfield(p, field))
      && var s2 := Step(env, s1, NewBitfield(p, field));
      && WellFormed(s2) && s2.disk == s.disk && |s2.chooser.rarity| == 1
      && s2.chooser.active == map[p := []] && s2.chooser.windows == map[p := INITIAL_WINDOW]
      && s2.chooser.times == map[p := []]
      && p in s2.chooser.bitfields && s2.chooser.bitfields[p] == field
  {
    StepKeepsShape(env, s, AddPeer(p));
    StepKeepsShape(env, Step(env, s, AddPeer(p)), NewBitfield(p, field));
  }

  /** It is asked for all four blocks. */
  lemma AfterAsking(env: Env, s: State, p: PeerId)
    requires WellFormed(s) && |s.disk.prog.pieces| == |s.chooser.rarity| == 1
    requires |s.disk.prog.pieces[0].blocks| == 4 && s.disk.prog.pieces[0].status == Empty
    requires forall j | 0 <= j < 4 :: s.disk.prog.pieces[0].blocks[j].status == Empty
    requires s.chooser.active == map[p := []] && s.chooser.windows == map[p := INITIAL_WINDOW]
    requires s.chooser.times == map[p := []] && p in s.chooser.bitfields && HasBit(s.chooser.bitfields[p], 0)
    ensures Enabled(s, Choose([p], 0, [], [0]))
    ensures AnsweredTimes(Step(env, s, Choose([p], 0, [], [0])), p, 0)
  {
    hide Laid, ChooserOk, HasBit, PeerTurn;
    var c, prog := s.chooser, s.disk.prog;
    var start := AfterTimeouts(prog, c, 0);
    NothingToGiveUp(prog, c, p);
    OneTurnOnly(start, prog.pieces, c.bitfields, 0, [], [0], p);
    TurnForFour(start, c.bitfields, p);
    StepKeepsShape(env, s, Choose([p], 0, [], [0]));
  }

  lemma NothingToGiveUp(prog: Progress, c: Chooser, p: PeerId)
    requires c.active == map[p := []] && |prog.pieces| == |c.rarity| == 1 && prog.pieces[0].status == Empty
    ensures AfterTimeouts(prog, c, 0) == Turn(prog, c.active, c.windows, [])
    ensures ValidOrders(prog.pieces, c.rarity, [], [0])
  {
    assert ExpiredAt(c.active, c.active.Keys, 0) == {};
    assert Purged(c.active, 0) == c.active;
    WithNoBlocks(prog, Empty);
  }

  // ----- the answers

  lemma {:induction false} SumOfZeros(n: nat)
    ensures Sum(Zeros(n)) == 0
  {
    if n > 0 {
      assert Zeros(n)[..n - 1] == Zeros(n - 1);
      SumOfZeros(n - 1);
    }
  }

  /** One more response time of zero makes no trend. */
  lemma NoFaster(n: nat)
    requires n < 12
    ensures PushTime(Zeros(n), 0) == Zeros(n + 1) && !Improves(Zeros(n + 1))
  {
    SumOfZeros(n + 1);
    SumOfZeros(n);
    assert Zeros(n + 1)[1..] == Zeros(n);
  }

  lemma AfterAnswer(env: Env, s: State, p: PeerId, data: seq<byte>, n: nat)
    requires AnsweredTimes(s, p, n) && n < 12
    ensures Enabled(s, Deliver(p, 0, 0, data, 0))
    ensures AnsweredTimes(Step(env, s, Deliver(p, 0, 0, data, 0)), p, n + 1)
  {
    hide Laid, ChooserOk, AfterSave, Improves, PushTime, Zeros;
    NoFaster(n);
    assert FirstMatch(FourRequests(n > 0), (0, 0)) == 0;
    assert FourRequests(n > 0)[0 := FourRequests(n > 0)[0].(received := true)] == FourRequests(true);
    assert Millis(0 - FourRequests(n > 0)[0].requestTime) == 0;
    StepKeepsShape(env, s, Deliver(p, 0, 0, data, 0));
  }

  lemma IsAccepted(s: State, p: PeerId, n: nat)
    requires AnsweredTimes(s, p, n)
    ensures WellFormed(s)
  {
  }

  function Answers(p: PeerId, data: seq<byte>, n: nat): seq<Event> {
    if n == 0 then [] else [Deliver(p, 0, 0, data, 0)] + Answers(p, data, n - 1)
  }

  lemma {:induction false} AfterAnswers(env: Env, s: State, p: PeerId, data: seq<byte>, m: nat, n: nat)
    requires AnsweredTimes(s, p, m) && m + n <= 12
    ensures IsRun(env, s, Answers(p, data, n)) && AnsweredTimes(Run(env, s, Answers(p, data, n)), p, m + n)
    decreases n
  {
    hide AnsweredTimes, Step, Enabled, IsRun, Run, Laid, ChooserOk;
    IsAccepted(s, p, m);
    if n > 0 {
      var e := Deliver(p, 0, 0, data, 0);
      AfterAnswer(env, s, p, data, m);
      IsAccepted(Step(env, s, e), p, m + 1);
      AfterAnswers(env, Step(env, s, e), p, data, m + 1, n - 1);
      RunStep(env, s, e, Answers(p, data, n - 1));
    } else {
      NoEvents(env, s);
    }
  }

  lemma ThreeWaiting()
    ensures Waiting(FourRequests(true)) == 3
  {
    var requests := FourRequests(true);
    assert requests[..3][..2] == requests[..2] && requests[..2][..1] == requests[..1];
    assert Waiting(requests[..1]) == 0 && Waiting(requests[..2]) == 1 && Waiting(requests[..3]) == 2;
  }

  /** After eleven answers to one request the window is full, and the twelfth shrinks it below the three requests that
      are still waited for. */
  lemma RepeatedAnswersOverfill(env: Env, s: State, p: PeerId, field: Bitfield, data: seq<byte>)
    requires FourBlocks(s) && HasBit(field, 0)
    ensures var join := [AddPeer(p), NewBitfield(p, field), Choose([p], 0, [], [0])];
      && IsRun(env, s, join + Answers(p, data, 12))
      && var c := Run(env, s, join + Answers(p, data, 12)).chooser;
      p in c.active && p in c.windows && Waiting(c.active[p]) == 3 > c.windows[p] == 2
  {
    var tell, ask := NewBitfield(p, field), Choose([p], 0, [], [0]);
    AfterJoining(env, s, p, field);
    var s1 := Step(env, s, AddPeer(p));
    var s2 := Step(env, s1, tell);
    AfterAsking(env, s2, p);
    var s3 := Step(env, s2, ask);
    var answers := Answers(p, data, 12);
    AfterAnswers(env, s3, p, data, 0, 12);
    ThreeWaiting();
    ThreeInFront(AddPeer(p), tell, ask, answers);
    hide Step, Enabled, WellFormed, Answers, Waiting, FourRequests, Zeros, HasBit, IsRun, Run, Fresh;
    RunStep(env, s2, ask, answers);
    RunStep(env, s1, tell, [ask] + answers);
    RunStep(env, s, AddPeer(p), [tell] + ([ask] + answers));
  }

  lemma ThreeInFront<T>(a: T, b: T, c: T, rest: seq<T>)
    ensures [a] + ([b] + ([c] + rest)) == [a, b, c] + rest
  {
  }
}
