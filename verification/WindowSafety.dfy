// The request windows: bounded, never overfilled, and never leaving a download stalled.

module WindowSafety {
  import opened FileSplitter
  import opened Coalescing
  import opened DownloadProgress
  import opened ByteAccounting
  import opened Selection
  import opened RarityTrackerChooser
  import opened Engine
  import opened Agreement
  import opened DownloadRuns

  function Waiting(requests: seq<RequestTracker>): nat {
    if |requests| == 0 then 0
    else Waiting(requests[..|requests| - 1]) + if requests[|requests| - 1].received then 0 else 1
  }

  /** Windows stay between 2 and 40, and no peer is awaited for more blocks than its window. */
  ghost predicate WindowsOk(c: Chooser) {
    && (forall p | p in c.windows :: MIN_WINDOW <= c.windows[p] <= MAX_WINDOW)
    && forall p | p in c.active :: p in c.windows && Waiting(c.active[p]) <= c.windows[p]
  }

  ghost predicate WindowOkAt(c: Chooser, p: PeerId) {
    && (p in c.windows ==> MIN_WINDOW <= c.windows[p] <= MAX_WINDOW)
    && (p in c.active ==> p in c.windows && Waiting(c.active[p]) <= c.windows[p])
  }

  lemma WindowsOkEverywhere(c: Chooser)
    ensures WindowsOk(c) <==> forall p :: WindowOkAt(c, p)
  {
    if forall p :: WindowOkAt(c, p) {
      forall p | p in c.windows
        ensures MIN_WINDOW <= c.windows[p] <= MAX_WINDOW
      {
        assert WindowOkAt(c, p);
      }
      forall p | p in c.active
        ensures p in c.windows && Waiting(c.active[p]) <= c.windows[p]
      {
        assert WindowOkAt(c, p);
      }
    }
  }

  /** The same while ChooseBlocks runs, when received requests have been purged. */
  ghost predicate TurnWindowsOk(t: Turn) {
    && (forall p | p in t.windows :: MIN_WINDOW <= t.windows[p] <= MAX_WINDOW)
    && forall p | p in t.active :: p in t.windows && |t.active[p]| <= t.windows[p]
  }

  lemma {:induction false} KeptAreWaiting(requests: seq<RequestTracker>, now: int)
    ensures |Kept(requests, now)| <= Waiting(requests)
  {
    if |requests| > 0 {
      KeptAreWaiting(requests[..|requests| - 1], now);
    }
  }

  lemma {:induction false} WaitingAtMostAll(requests: seq<RequestTracker>)
    ensures Waiting(requests) <= |requests|
  {
    if |requests| > 0 {
      WaitingAtMostAll(requests[..|requests| - 1]);
    }
  }

  /** The 16-bit subtraction of the outstanding requests from the window never wraps, and the
      peer's turn fills the window at most. */
  lemma SlotsNeverWrap(t: Turn, snapshot: seq<PieceProgress>, fields: map<PeerId, Bitfield>, now: int,
                       down: seq<nat>, empty: seq<nat>, peer: PeerId)
    requires TurnWindowsOk(t) && OrderIn(down, t.prog.pieces) && OrderIn(empty, snapshot)
    ensures |RequestsOf(t.active, peer)| <= WindowOf(t.windows, peer) <= MAX_WINDOW
    ensures Slots(t, peer) == WindowOf(t.windows, peer) - |RequestsOf(t.active, peer)|
    ensures TurnWindowsOk(PeerTurn(t, snapshot, fields, now, down, empty, peer))
  {
  }

  lemma {:induction false} TurnsKeepWindows(t: Turn, snapshot: seq<PieceProgress>, fields: map<PeerId, Bitfield>, now: int,
                                            down: seq<nat>, empty: seq<nat>, peers: seq<PeerId>)
    requires TurnWindowsOk(t) && OrderIn(down, t.prog.pieces) && OrderIn(empty, snapshot)
    ensures TurnWindowsOk(PeerTurns(t, snapshot, fields, now, down, empty, peers))
  {
    if |peers| > 0 {
      TurnsKeepWindows(t, snapshot, fields, now, down, empty, peers[..|peers| - 1]);
      SlotsNeverWrap(PeerTurns(t, snapshot, fields, now, down, empty, peers[..|peers| - 1]), snapshot, fields, now,
                     down, empty, peers[|peers| - 1]);
    }
  }

  lemma TimeoutsKeepWindows(prog: Progress, c: Chooser, now: int)
    requires WindowsOk(c)
    ensures TurnWindowsOk(AfterTimeouts(prog, c, now))
  {
    forall p | p in c.active
      ensures |Kept(c.active[p], now)| <= c.windows[p]
    {
      KeptAreWaiting(c.active[p], now);
    }
  }

  lemma ChooseKeepsWindows(prog: Progress, c: Chooser, now: int, peers: seq<PeerId>, down: seq<nat>, empty: seq<nat>)
    requires WindowsOk(c) && OrderIn(down, prog.pieces) && OrderIn(empty, prog.pieces)
    ensures var t := Chosen(prog, c, now, peers, down, empty);
            WindowsOk(c.(active := t.active, windows := t.windows))
  {
    var start := AfterTimeouts(prog, c, now);
    TimeoutsKeepWindows(prog, c, now);
    TurnsKeepWindows(start, start.prog.pieces, c.bitfields, now, down, empty, peers);
    var t := Chosen(prog, c, now, peers, down, empty);
    forall p | p in t.active
      ensures Waiting(t.active[p]) <= |t.active[p]|
    {
      WaitingAtMostAll(t.active[p]);
    }
  }

  lemma {:induction false} WaitingAfterMark(requests: seq<RequestTracker>, k: nat)
    requires k < |requests|
    ensures Waiting(requests[k := requests[k].(received := true)])
            == Waiting(requests) - if requests[k].received then 0 else 1
  {
    var n := |requests| - 1;
    var marked := requests[k := requests[k].(received := true)];
    if k < n {
      assert marked[..n] == requests[..n][k := requests[..n][k].(received := true)];
      WaitingAfterMark(requests[..n], k);
    } else {
      assert marked[..n] == requests[..n];
    }
  }

  // ----- responses

  /** The response finds a request, and that request had been answered before. */
  predicate AnswersTwice(c: Chooser, peer: PeerId, b: BlockId) {
    var requests := RequestsOf(c.active, peer);
    var k := FirstMatch(requests, b);
    k < |requests| && requests[k].received
  }

  predicate Shrinks(c: Chooser, peer: PeerId, b: BlockId, at: int) {
    var requests := RequestsOf(c.active, peer);
    var k := FirstMatch(requests, b);
    && k < |requests|
    && var times := PushTime(if peer in c.times then c.times[peer] else [], Millis(at - requests[k].requestTime));
    |times| >= MINIMUM_REQUESTS && !Improves(times)
  }

  predicate Overfills(c: Chooser, peer: PeerId, b: BlockId, at: int) {
    && AnswersTwice(c, peer, b)
    && Shrinks(c, peer, b, at)
    && peer in c.windows
    && Waiting(RequestsOf(c.active, peer)) == c.windows[peer] > MIN_WINDOW
  }

  /** A window against the requests still waiting in it, when one more answer may shrink it. */
  lemma AnswerAndWindow(window: nat, waiting: nat, again: bool, enough: bool, faster: bool)
    requires MIN_WINDOW <= window <= MAX_WINDOW && waiting <= window && (again || waiting > 0)
    ensures var window' := if enough then AdjustedWindow(window, faster) else window;
      var waiting' := if again then waiting else waiting - 1;
      && MIN_WINDOW <= window' <= MAX_WINDOW
      && (waiting' <= window' <==> !(again && enough && !faster && waiting == window > MIN_WINDOW))
  {
  }

  function TimesAfter(c: Chooser, peer: PeerId, sent: int, at: int): seq<int> {
    PushTime(if peer in c.times then c.times[peer] else [], Millis(at - sent))
  }

  /** What a matched answer does to its peer. */
  lemma StateAfterMatch(c: Chooser, peer: PeerId, b: BlockId, at: int, k: nat)
    requires peer in c.active && peer in c.windows
    requires k == FirstMatch(c.active[peer], b) && k < |c.active[peer]|
    ensures var c' := AfterReceived(c, peer, b.0, b.1, at);
      var requests := c.active[peer];
      var times := TimesAfter(c, peer, requests[k].requestTime, at);
      && peer in c'.active && c'.active[peer] == requests[k := requests[k].(received := true)]
      && peer in c'.windows
      && c'.windows[peer] == if |times| >= MINIMUM_REQUESTS then AdjustedWindow(c.windows[peer], Improves(times))
                             else c.windows[peer]
  {
    hide Improves, Millis, PushTime, FirstMatch, AdjustedWindow;
  }

  lemma OverfillsAtMatch(c: Chooser, peer: PeerId, b: BlockId, at: int, k: nat)
    requires peer in c.active && peer in c.windows
    requires k == FirstMatch(c.active[peer], b) && k < |c.active[peer]|
    ensures var requests := c.active[peer];
      var times := TimesAfter(c, peer, requests[k].requestTime, at);
      Overfills(c, peer, b, at) <==>
        requests[k].received && |times| >= MINIMUM_REQUESTS && !Improves(times)
        && Waiting(requests) == c.windows[peer] > MIN_WINDOW
  {
    hide Improves, Millis, PushTime, FirstMatch, Waiting;
  }

  lemma MatchedAtPeer(c: Chooser, peer: PeerId, b: BlockId, at: int, k: nat)
    requires WindowOkAt(c, peer) && peer in c.active
    requires k == FirstMatch(c.active[peer], b) && k < |c.active[peer]|
    ensures WindowOkAt(AfterReceived(c, peer, b.0, b.1, at), peer) <==> !Overfills(c, peer, b, at)
  {
    var requests := c.active[peer];
    var times := TimesAfter(c, peer, requests[k].requestTime, at);
    WaitingAfterMark(requests, k);
    hide FirstMatch, AfterReceived, Overfills, Waiting, Improves, TimesAfter;
    StateAfterMatch(c, peer, b, at, k);
    OverfillsAtMatch(c, peer, b, at, k);
    AnswerAndWindow(c.windows[peer], Waiting(requests), requests[k].received, |times| >= MINIMUM_REQUESTS,
                    Improves(times));
    hide AdjustedWindow;
  }

  lemma ReceivedAtPeer(c: Chooser, peer: PeerId, b: BlockId, at: int)
    requires WindowOkAt(c, peer)
    ensures WindowOkAt(AfterReceived(c, peer, b.0, b.1, at), peer) <==> !Overfills(c, peer, b, at)
  {
    hide Improves, Millis, Waiting, PushTime, FirstMatch, AdjustedWindow, Shrinks;
    if peer in c.active && FirstMatch(c.active[peer], b) < |c.active[peer]| {
      MatchedAtPeer(c, peer, b, at, FirstMatch(c.active[peer], b));
    }
  }

  lemma ReceivedElsewhere(c: Chooser, peer: PeerId, b: BlockId, at: int, p: PeerId)
    requires p != peer
    ensures WindowOkAt(AfterReceived(c, peer, b.0, b.1, at), p) <==> WindowOkAt(c, p)
  {
    hide Improves, Millis, Waiting, PushTime, FirstMatch, AdjustedWindow;
  }

  /** A response overfills a window exactly when it repeats an answered one, does not speed the peer
      up, and meets a window that is full and not yet minimal. */
  lemma ReceivedKeepsWindows(c: Chooser, peer: PeerId, b: BlockId, at: int)
    requires WindowsOk(c)
    ensures WindowsOk(AfterReceived(c, peer, b.0, b.1, at)) <==> !Overfills(c, peer, b, at)
  {
    hide WindowsOk, WindowOkAt, Overfills, AfterReceived;
    WindowsOkEverywhere(c);
    WindowsOkEverywhere(AfterReceived(c, peer, b.0, b.1, at));
    ReceivedAtPeer(c, peer, b, at);
    forall p | p != peer
      ensures WindowOkAt(AfterReceived(c, peer, b.0, b.1, at), p) <==> WindowOkAt(c, p)
    {
      ReceivedElsewhere(c, peer, b, at, p);
    }
  }

  // ----- runs

  ghost predicate WindowsKept(s: State) {
    WindowsOk(s.chooser)
  }

  ghost predicate NotOverfilling(s: State, e: Event) {
    e.Deliver? ==> !Overfills(s.chooser, e.from, (e.piece, e.block), e.at)
  }

  lemma WindowsStep(env: Env, s: State, e: Event)
    requires WellFormed(s) && Enabled(s, e) && WindowsOk(s.chooser)
    ensures WindowsKept(Step(env, s, e)) <==> NotOverfilling(s, e)
  {
    match e {
      case Choose(peers, now, down, empty) =>
        ChooseKeepsWindows(s.disk.prog, s.chooser, now, peers, down, empty);
      case Deliver(from, piece, block, data, at) =>
        ReceivedKeepsWindows(s.chooser, from, (piece, block), at);
      case Recheck =>
      case AddPeer(_) =>
      case RemovePeer(_) =>
      case NewBitfield(_, _) =>
      case Ownership(_, _, _) =>
    }
  }

  /** Over any run, with any peers and any bytes: every state has its windows kept exactly when no response
      overfills one. */
  lemma {:induction false} WindowsRun(env: Env, s: State, events: seq<Event>)
    requires WellFormed(s) && IsRun(env, s, events) && WindowsOk(s.chooser)
    ensures Always(env, s, events, WindowsKept) <==> Throughout(env, s, events, NotOverfilling)
    decreases |events|
  {
    if |events| > 0 {
      var s' := Step(env, s, events[0]);
      StepKeepsShape(env, s, events[0]);
      WindowsStep(env, s, events[0]);
      hide NotOverfilling, WindowsOk;
      if WindowsKept(s') {
        WindowsRun(env, s', events[1..]);
      }
    }
  }

  /** Every response answers a request that was still open, or none at all. */
  ghost predicate FirstAnswers(s: State, e: Event) {
    e.Deliver? ==> !AnswersTwice(s.chooser, e.from, (e.piece, e.block))
  }

  /** Responses that answer nothing twice always keep the windows. */
  lemma FirstAnswersRun(env: Env, s: State, events: seq<Event>)
    requires WellFormed(s) && IsRun(env, s, events) && WindowsOk(s.chooser)
    requires Throughout(env, s, events, FirstAnswers)
    ensures Always(env, s, events, WindowsKept)
  {
    forall s, e | WellFormed(s) && Enabled(s, e) && FirstAnswers(s, e)
      ensures NotOverfilling(s, e)
    {
    }
    hide FirstAnswers, NotOverfilling;
    ThroughoutWeaker(env, s, events, FirstAnswers, NotOverfilling);
    WindowsRun(env, s, events);
  }

  // ----- when a call leaves nothing to wait for

  ghost predicate Quiet(active: Requests) {
    forall q, r, b :: !Awaited(active, q, r, b)
  }

  /** The peer has no piece with a block that is still Empty. */
  ghost predicate OffersNothing(prog: Progress, field: Bitfield) {
    forall b: BlockId | Exists(prog.pieces, b) && StatusAt(prog.pieces, b) == Empty :: !HasBit(field, b.0)
  }

  lemma {:induction false} CandidatesComplete(p: Progress, order: seq<nat>, field: Bitfield, b: BlockId)
    requires Laid(p) && OrderIn(order, p.pieces) && b.0 in order && HasBit(field, b.0)
    requires Exists(p.pieces, b) && StatusAt(p.pieces, b) == Empty
    ensures b in Candidates(p.pieces, order, field)
  {
    var n := |order| - 1;
    if b.0 == order[n] {
      EmptyBlocksMembers(p.pieces[b.0], b.0, PieceStart(p.fileSize, b.0), PieceLength(p.fileSize, b.0));
    } else {
      CandidatesComplete(p, order[..n], field, b);
    }
  }

  /** With right books an Empty block belongs to a piece that ChooseBlocks visits. */
  lemma EmptyIsCandidate(prog: Progress, b: BlockId, down: seq<nat>, empty: seq<nat>, field: Bitfield)
    requires Books(prog) && IsOrder(down, prog.pieces, Downloading) && IsOrder(empty, prog.pieces, Empty)
    requires Exists(prog.pieces, b) && StatusAt(prog.pieces, b) == Empty && HasBit(field, b.0)
    ensures b in Candidates(prog.pieces, down, field) + Candidates(prog.pieces, empty, field)
  {
    assert PieceOk(prog.pieces[b.0]);
    if prog.pieces[b.0].status == Downloading {
      CandidatesComplete(prog, down, field, b);
    } else {
      CandidatesComplete(prog, empty, field, b);
    }
  }

  lemma SomeMember(picks: seq<BlockId>)
    ensures picks != [] <==> exists b :: b in picks
  {
    if picks != [] {
      assert picks[0] in picks;
    }
  }

  lemma NoCandidatesExactly(prog: Progress, down: seq<nat>, empty: seq<nat>, field: Bitfield)
    requires Books(prog) && IsOrder(down, prog.pieces, Downloading) && IsOrder(empty, prog.pieces, Empty)
    ensures OrderIn(down, prog.pieces) && OrderIn(empty, prog.pieces)
    ensures Candidates(prog.pieces, down, field) + Candidates(prog.pieces, empty, field) == [] <==> OffersNothing(prog, field)
  {
    var all := Candidates(prog.pieces, down, field) + Candidates(prog.pieces, empty, field);
    CandidatesMembers(prog, down, field);
    CandidatesMembers(prog, empty, field);
    SomeMember(all);
    hide Candidates, PieceOk, HasBit, IsOrder;
    forall b: BlockId | Exists(prog.pieces, b) && StatusAt(prog.pieces, b) == Empty && HasBit(field, b.0)
      ensures b in all
    {
      EmptyIsCandidate(prog, b, down, empty, field);
    }
    if b :| b in all {
      assert b in Candidates(prog.pieces, down, field) || b in Candidates(prog.pieces, empty, field);
    }
  }

  /** With nothing awaited every peer has free slots. */
  lemma QuietHasSlots(t: Turn, p: PeerId)
    requires Quiet(t.active) && AllWaiting(t.active) && TurnWindowsOk(t)
    ensures Slots(t, p) > 0
  {
    if RequestsOf(t.active, p) != [] {
      var r := t.active[p][0];
      assert r in t.active[p];
      assert Awaited(t.active, p, r, BlockOfTracker(r));
    }
  }

  /** Asking leaves nothing awaited exactly when nothing was and nothing is asked for. */
  lemma QuietAfterAsking(active: Requests, p: PeerId, picks: seq<BlockId>, now: int)
    requires AllWaiting(active)
    ensures Quiet(Appended(active, p, picks, now)) <==> Quiet(active) && picks == []
    ensures AllWaiting(Appended(active, p, picks, now))
  {
    var active' := Appended(active, p, picks, now);
    AwaitedAfterAsking(active, p, picks, now);
    SomeMember(picks);
    hide Appended;
    if Quiet(active') {
      forall q, r, b
        ensures !Awaited(active, q, r, b)
      {
        assert !Awaited(active', q, r, b);
      }
    }
    if Quiet(active) && picks == [] {
      forall q, r, b
        ensures !Awaited(active', q, r, b)
      {
        assert !Awaited(active, q, r, b);
      }
    }
  }

  lemma QuietTurn(start: Turn, t: Turn, fields: map<PeerId, Bitfield>, now: int, down: seq<nat>, empty: seq<nat>, p: PeerId)
    requires Books(start.prog) && TurnWindowsOk(t) && AllWaiting(t.active)
    requires IsOrder(down, start.prog.pieces, Downloading) && IsOrder(empty, start.prog.pieces, Empty)
    requires |t.prog.pieces| == |start.prog.pieces| && (Quiet(t.active) ==> t.prog == start.prog)
    ensures var t' := PeerTurn(t, start.prog.pieces, fields, now, down, empty, p);
      && AllWaiting(t'.active)
      && (Quiet(t'.active) <==> Quiet(t.active) && OffersNothing(start.prog, FieldOf(fields, p)))
      && (Quiet(t'.active) ==> t'.prog == start.prog)
  {
    assert OrderIn(down, t.prog.pieces);
    var field := FieldOf(fields, p);
    var picks := Picks(t, start.prog.pieces, field, down, empty, Slots(t, p));
    NoCandidatesExactly(start.prog, down, empty, field);
    QuietAfterAsking(t.active, p, picks, now);
    ToSetEmpty();
    WithNoBlocks(t.prog, Downloading);
    if Quiet(t.active) {
      QuietHasSlots(t, p);
    }
    hide Quiet, Books, IsOrder, AllWaiting, OffersNothing, Candidates, Slots, Appended, WithBlocks, ToSet, TurnWindowsOk, HasBit;
  }

  lemma {:induction false} QuietTurns(start: Turn, fields: map<PeerId, Bitfield>, now: int,
                                      down: seq<nat>, empty: seq<nat>, peers: seq<PeerId>)
    requires Books(start.prog) && TurnWindowsOk(start) && AllWaiting(start.active)
    requires IsOrder(down, start.prog.pieces, Downloading) && IsOrder(empty, start.prog.pieces, Empty)
    ensures var t := PeerTurns(start, start.prog.pieces, fields, now, down, empty, peers);
      && AllWaiting(t.active)
      && (Quiet(t.active) <==> Quiet(start.active) && forall p | p in peers :: OffersNothing(start.prog, FieldOf(fields, p)))
      && (Quiet(t.active) ==> t.prog == start.prog)
  {
    hide Quiet, Books, AllWaiting, OffersNothing, TurnWindowsOk, PeerTurn, HasBit;
    if |peers| > 0 {
      var n := |peers| - 1;
      QuietTurns(start, fields, now, down, empty, peers[..n]);
      TurnsKeepWindows(start, start.prog.pieces, fields, now, down, empty, peers[..n]);
      QuietTurn(start, PeerTurns(start, start.prog.pieces, fields, now, down, empty, peers[..n]), fields, now, down, empty,
                peers[n]);
      assert forall p :: p in peers <==> p in peers[..n] || p == peers[n];
    }
  }

  /** After the timeouts nothing is awaited exactly when everything awaited before has timed out. */
  lemma QuietAfterTimeouts(prog: Progress, c: Chooser, now: int)
    ensures Quiet(AfterTimeouts(prog, c, now).active)
            <==> forall q, r, b :: Awaited(c.active, q, r, b) ==> TimedOut(r, now)
  {
    var active := Purged(c.active, now);
    forall q, r, b
      ensures Awaited(active, q, r, b) <==> Awaited(c.active, q, r, b) && !TimedOut(r, now)
    {
      if q in c.active {
        KeptMembers(c.active[q], now);
      }
    }
  }

  /** When all that was awaited has timed out, the blocks that are Empty afterwards are those not held before. */
  lemma EmptyAfterTimeouts(prog: Progress, c: Chooser, now: int, b: BlockId)
    requires Agree(c.active, prog.pieces) && Quiet(AfterTimeouts(prog, c, now).active)
    ensures Exists(AfterTimeouts(prog, c, now).prog.pieces, b) <==> Exists(prog.pieces, b)
    ensures Exists(prog.pieces, b) ==>
              (StatusAt(AfterTimeouts(prog, c, now).prog.pieces, b) == Empty <==> !IsHeld(StatusAt(prog.pieces, b)))
  {
    var start := AfterTimeouts(prog, c, now);
    var expired := ExpiredAt(c.active, c.active.Keys, now);
    AgreeAfterTimeouts(prog, c, now);
    ExistsAfterRepaint(prog, expired, Empty, b);
    if Exists(prog.pieces, b) {
      StatusAfterRepaint(prog, expired, Empty, b);
      assert StatusAt(start.prog.pieces, b) != Downloading;
    }
  }

  lemma OffersAfterTimeouts(prog: Progress, c: Chooser, now: int, field: Bitfield)
    requires Agree(c.active, prog.pieces) && Quiet(AfterTimeouts(prog, c, now).active)
    ensures OffersNothing(AfterTimeouts(prog, c, now).prog, field) <==> NothingMissing(prog, field)
  {
    forall b: BlockId
      ensures Exists(AfterTimeouts(prog, c, now).prog.pieces, b) <==> Exists(prog.pieces, b)
      ensures Exists(prog.pieces, b) ==>
                (StatusAt(AfterTimeouts(prog, c, now).prog.pieces, b) == Empty <==> !IsHeld(StatusAt(prog.pieces, b)))
    {
      EmptyAfterTimeouts(prog, c, now, b);
    }
    hide AfterTimeouts, Agree, Quiet, HasBit;
  }

  /** The peer has no piece of which a block is missing. */
  ghost predicate NothingMissing(prog: Progress, field: Bitfield) {
    forall b: BlockId | Exists(prog.pieces, b) && !IsHeld(StatusAt(prog.pieces, b)) :: !HasBit(field, b.0)
  }

  /** A call leaves nothing to wait for exactly when all requests open before it have timed out and no listed peer
      has a piece of which a block is missing. Otherwise the download goes on. */
  lemma StallsExactly(prog: Progress, c: Chooser, now: int, peers: seq<PeerId>, down: seq<nat>, empty: seq<nat>)
    requires Books(prog) && Agree(c.active, prog.pieces) && WindowsOk(c)
    requires ValidOrders(AfterTimeouts(prog, c, now).prog.pieces, c.rarity, down, empty)
    ensures |AfterTimeouts(prog, c, now).prog.pieces| == |prog.pieces|
    ensures Quiet(Chosen(prog, c, now, peers, down, empty).active)
            <==> && (forall q, r, b :: Awaited(c.active, q, r, b) ==> TimedOut(r, now))
                 && forall p | p in peers :: NothingMissing(prog, FieldOf(c.bitfields, p))
  {
    hide Agree, WindowsOk, TurnWindowsOk, OffersNothing, NothingMissing, PeerTurns, HasBit, WithBlocks, Painted, Quiet,
         Conserved, PieceOk, Laid;
    var start := AfterTimeouts(prog, c, now);
    PaintedStart(prog, c, now);
    AgreeAfterTimeouts(prog, c, now);
    BooksWithBlocks(prog, ExpiredAt(c.active, c.active.Keys, now), Empty);
    TimeoutsKeepWindows(prog, c, now);
    QuietTurns(start, c.bitfields, now, down, empty, peers);
    QuietAfterTimeouts(prog, c, now);
    if Quiet(start.active) {
      forall p | p in peers
        ensures OffersNothing(start.prog, FieldOf(c.bitfields, p)) <==> NothingMissing(prog, FieldOf(c.bitfields, p))
      {
        OffersAfterTimeouts(prog, c, now, FieldOf(c.bitfields, p));
      }
    }
  }

  /** In particular, while a listed peer has every piece, some block is awaited after the call unless the whole file
      is held. */
  lemma NeverStalls(prog: Progress, c: Chooser, now: int, peers: seq<PeerId>, p: PeerId, down: seq<nat>, empty: seq<nat>)
    requires Books(prog) && Agree(c.active, prog.pieces) && WindowsOk(c)
    requires ValidOrders(AfterTimeouts(prog, c, now).prog.pieces, c.rarity, down, empty)
    requires p in peers && forall i | 0 <= i < |prog.pieces| :: HasBit(FieldOf(c.bitfields, p), i)
    ensures |AfterTimeouts(prog, c, now).prog.pieces| == |prog.pieces|
    ensures AllComplete(prog) || !Quiet(Chosen(prog, c, now, peers, down, empty).active)
  {
    StallsExactly(prog, c, now, peers, down, empty);
    hide AfterTimeouts, ValidOrders, Agree, WindowsOk, Quiet;
    if NothingMissing(prog, FieldOf(c.bitfields, p)) {
      AllHeldComplete(prog);
    }
  }

  lemma AllHeldComplete(p: Progress)
    requires Books(p) && forall b: BlockId | Exists(p.pieces, b) :: IsHeld(StatusAt(p.pieces, b))
    ensures AllComplete(p)
  {
    forall i | 0 <= i < |p.pieces|
      ensures IsHeld(p.pieces[i].status)
    {
      assert PieceOk(p.pieces[i]);
      forall j | 0 <= j < |p.pieces[i].blocks|
        ensures IsHeld(p.pieces[i].blocks[j].status)
      {
        assert IsHeld(StatusAt(p.pieces, (i, j)));
      }
    }
  }
}
