// Block statuses, requests in flight and the byte counter never drift apart.

module Agreement {
  import opened FileSplitter
  import opened Sorting
  import opened Coalescing
  import opened DownloadProgress
  import opened ByteAccounting
  import opened Selection
  import opened RarityTrackerChooser

  type Requests = map<PeerId, seq<RequestTracker>>

  predicate Exists(pieces: seq<PieceProgress>, b: BlockId) {
    b.0 < |pieces| && b.1 < |pieces[b.0].blocks|
  }

  function StatusAt(pieces: seq<PieceProgress>, b: BlockId): DownloadStatus
    requires Exists(pieces, b)
  {
    pieces[b.0].blocks[b.1].status
  }

  function NamesOf(requests: seq<RequestTracker>): seq<BlockId> {
    seq(|requests|, k requires 0 <= k < |requests| => BlockOfTracker(requests[k]))
  }

  /** A request still waited for, and the block it names. */
  ghost predicate Awaited(active: Requests, p: PeerId, r: RequestTracker, b: BlockId) {
    p in active && r in active[p] && !r.received && BlockOfTracker(r) == b
  }

  /** No two requests, of one peer or of two, name the same block. */
  ghost predicate NamesDistinct(active: Requests) {
    && (forall p | p in active :: Distinct(NamesOf(active[p])))
    && forall p, q, r, s | p in active && q in active && p != q && r in active[p] && s in active[q] ::
         BlockOfTracker(r) != BlockOfTracker(s)
  }

  ghost predicate AwaitedAreDownloading(active: Requests, pieces: seq<PieceProgress>) {
    forall p, r | p in active && r in active[p] ::
      Exists(pieces, BlockOfTracker(r))
      && (!r.received ==> StatusAt(pieces, BlockOfTracker(r)) == Downloading)
  }

  ghost predicate DownloadingAreAwaited(active: Requests, pieces: seq<PieceProgress>) {
    forall b: BlockId | Exists(pieces, b) && StatusAt(pieces, b) == Downloading ::
      exists p, r :: Awaited(active, p, r, b)
  }

  /** A block is Downloading exactly when one request, and only one, waits for it. */
  ghost predicate Agree(active: Requests, pieces: seq<PieceProgress>) {
    && NamesDistinct(active)
    && AwaitedAreDownloading(active, pieces)
    && DownloadingAreAwaited(active, pieces)
  }

  lemma DistinctNames(requests: seq<RequestTracker>, k: nat, l: nat)
    requires Distinct(NamesOf(requests)) && k < |requests| && l < |requests|
    requires BlockOfTracker(requests[k]) == BlockOfTracker(requests[l])
    ensures k == l
  {
    assert NamesOf(requests)[k] == NamesOf(requests)[l];
  }

  /** Agreement, said with counting: the request that waits for a Downloading block is the only
      one that names it, and nobody waits for a block of any other status. */
  lemma ExactlyOneRequest(active: Requests, pieces: seq<PieceProgress>, b: BlockId)
    requires Agree(active, pieces) && Exists(pieces, b)
    ensures StatusAt(pieces, b) == Downloading <==> exists p, r :: Awaited(active, p, r, b)
    ensures forall p, r, q, s | Awaited(active, p, r, b) && q in active && s in active[q] && BlockOfTracker(s) == b ::
              p == q && r == s
  {
    forall p, r, q, s | Awaited(active, p, r, b) && q in active && s in active[q] && BlockOfTracker(s) == b
      ensures p == q && r == s
    {
      if p == q {
        var k :| 0 <= k < |active[p]| && active[p][k] == r;
        var l :| 0 <= l < |active[p]| && active[p][l] == s;
        DistinctNames(active[p], k, l);
      }
    }
  }

  // ----- repainting a set of blocks

  lemma StatusAfterRepaint(p: Progress, blocks: set<BlockId>, status: DownloadStatus, b: BlockId)
    requires Exists(p.pieces, b)
    ensures Exists(WithBlocks(p, blocks, status).pieces, b)
    ensures StatusAt(WithBlocks(p, blocks, status).pieces, b) == if b in blocks then status else StatusAt(p.pieces, b)
  {
  }

  lemma ExistsAfterRepaint(p: Progress, blocks: set<BlockId>, status: DownloadStatus, b: BlockId)
    ensures Exists(WithBlocks(p, blocks, status).pieces, b) <==> Exists(p.pieces, b)
  {
  }

  /** Giving unheld blocks another unheld status leaves the books alone. */
  lemma {:induction false} BooksWithBlocks(p: Progress, blocks: set<BlockId>, status: DownloadStatus)
    requires Books(p) && (status == Empty || status == Downloading)
    requires forall b | b in blocks :: Exists(p.pieces, b) && !IsHeld(StatusAt(p.pieces, b))
    ensures Books(WithBlocks(p, blocks, status))
    decreases |blocks|
  {
    hide Books, WithBlocks, AfterBlockStatus;
    if blocks == {} {
      WithNoBlocks(p, status);
    } else {
      var b :| b in blocks;
      var rest := blocks - {b};
      assert rest < blocks;
      BooksWithBlocks(p, rest, status);
      StatusAfterRepaint(p, rest, status, b);
      var q := WithBlocks(p, rest, status);
      BooksAfterBlockStatus(q, b.0, b.1, status);
      WithOneBlock(q, b.0, b.1, status);
      WithBlocksTwice(p, rest, {b}, status);
      assert rest + {b} == blocks;
    }
  }

  // ----- timeouts

  lemma {:induction false} KeptMembers(requests: seq<RequestTracker>, now: int)
    ensures forall r :: r in Kept(requests, now) <==> r in requests && !r.received && !TimedOut(r, now)
  {
    if |requests| > 0 {
      var n := |requests| - 1;
      KeptMembers(requests[..n], now);
      assert requests == requests[..n] + [requests[n]];
    }
  }

  lemma {:induction false} KeptDistinct(requests: seq<RequestTracker>, now: int)
    requires Distinct(NamesOf(requests))
    ensures Distinct(NamesOf(Kept(requests, now)))
  {
    if |requests| > 0 {
      var n := |requests| - 1;
      var rest := Kept(requests[..n], now);
      assert NamesOf(requests[..n]) == NamesOf(requests)[..n];
      KeptDistinct(requests[..n], now);
      KeptMembers(requests[..n], now);
      forall k | 0 <= k < |rest|
        ensures BlockOfTracker(rest[k]) != BlockOfTracker(requests[n])
      {
        assert rest[k] in rest;
        var l :| 0 <= l < n && requests[l] == rest[k];
        assert NamesOf(requests)[l] != NamesOf(requests)[n];
      }
      assert NamesOf(rest + [requests[n]]) == NamesOf(rest) + [BlockOfTracker(requests[n])];
    }
  }

  lemma ExpiredMembers(active: Requests, now: int, b: BlockId)
    ensures b in ExpiredAt(active, active.Keys, now)
            <==> exists p, r :: Awaited(active, p, r, b) && TimedOut(r, now)
  {
    if b in ExpiredAt(active, active.Keys, now) {
      var p :| p in active && b in ExpiredIn(active[p], now);
      var k :| 0 <= k < |active[p]| && TimedOut(active[p][k], now) && b == BlockOfTracker(active[p][k]);
      assert Awaited(active, p, active[p][k], b);
    }
    if exists p, r :: Awaited(active, p, r, b) && TimedOut(r, now) {
      var p, r :| Awaited(active, p, r, b) && TimedOut(r, now);
      var k :| 0 <= k < |active[p]| && active[p][k] == r;
      assert b in ExpiredIn(active[p], now);
    }
  }

  lemma PurgedDistinct(active: Requests, now: int)
    requires NamesDistinct(active)
    ensures NamesDistinct(Purged(active, now))
  {
    forall p | p in active
      ensures Distinct(NamesOf(Kept(active[p], now)))
      ensures forall r :: r in Kept(active[p], now) ==> r in active[p]
    {
      KeptDistinct(active[p], now);
      KeptMembers(active[p], now);
    }
  }

  /** A timeout frees exactly the blocks it gives up waiting for, and none that is held. */
  lemma AgreeAfterTimeouts(prog: Progress, c: Chooser, now: int)
    requires Agree(c.active, prog.pieces)
    ensures var t := AfterTimeouts(prog, c, now);
            Agree(t.active, t.prog.pieces)
    ensures forall b | b in ExpiredAt(c.active, c.active.Keys, now) ::
              Exists(prog.pieces, b) && StatusAt(prog.pieces, b) == Downloading
    ensures forall p, r | p in Purged(c.active, now) && r in Purged(c.active, now)[p] :: !r.received
  {
    var expired := ExpiredAt(c.active, c.active.Keys, now);
    var active := Purged(c.active, now);
    var pieces := WithBlocks(prog, expired, Empty).pieces;
    PurgedDistinct(c.active, now);
    forall b | b in expired
      ensures Exists(prog.pieces, b) && StatusAt(prog.pieces, b) == Downloading
    {
      ExpiredMembers(c.active, now, b);
    }
    forall p, r | p in active && r in active[p]
      ensures Exists(pieces, BlockOfTracker(r)) && !r.received
      ensures StatusAt(pieces, BlockOfTracker(r)) == Downloading
    {
      KeptMembers(c.active[p], now);
      var b := BlockOfTracker(r);
      assert Awaited(c.active, p, r, b);
      StatusAfterRepaint(prog, expired, Empty, b);
      ExpiredMembers(c.active, now, b);
      ExactlyOneRequest(c.active, prog.pieces, b);
    }
    forall b: BlockId | Exists(pieces, b) && StatusAt(pieces, b) == Downloading
      ensures exists p, r :: Awaited(active, p, r, b)
    {
      ExistsAfterRepaint(prog, expired, Empty, b);
      StatusAfterRepaint(prog, expired, Empty, b);
      var p, r :| Awaited(c.active, p, r, b);
      ExpiredMembers(c.active, now, b);
      KeptMembers(c.active[p], now);
      assert Awaited(active, p, r, b);
    }
  }

  // ----- one peer's turn

  function AllPicks(batches: seq<Batch>): set<BlockId> {
    if |batches| == 0 then {} else AllPicks(batches[..|batches| - 1]) + ToSet(batches[|batches| - 1].picks)
  }

  lemma {:induction false} CandidatesMembers(p: Progress, order: seq<nat>, field: Bitfield)
    requires Laid(p) && OrderIn(order, p.pieces)
    ensures forall b | b in Candidates(p.pieces, order, field) ::
              b.0 in order && HasBit(field, b.0) && Exists(p.pieces, b) && StatusAt(p.pieces, b) == Empty
    ensures Distinct(order) ==> Distinct(Candidates(p.pieces, order, field))
  {
    if |order| > 0 {
      var n := |order| - 1;
      var i := order[n];
      CandidatesMembers(p, order[..n], field);
      EmptyBlocksMembers(p.pieces[i], i, PieceStart(p.fileSize, i), PieceLength(p.fileSize, i));
      var rest := Candidates(p.pieces, order[..n], field);
      var here := if HasBit(field, i) then EmptyBlocks(p.pieces[i], i) else [];
      forall b: BlockId | b in rest + here
        ensures b.0 in order && HasBit(field, b.0) && Exists(p.pieces, b) && StatusAt(p.pieces, b) == Empty
      {
        assert b in rest || b in here;
      }
      if Distinct(order) {
        DistinctConcat(rest, here, i, order[..n]);
      }
    }
  }

  lemma DistinctConcat(xs: seq<BlockId>, ys: seq<BlockId>, i: nat, order: seq<nat>)
    requires Distinct(xs) && Distinct(ys)
    requires (forall b | b in xs :: b.0 in order) && (forall b | b in ys :: b.0 !in order)
    ensures Distinct(xs + ys)
  {
    forall k, l | 0 <= k < l < |xs + ys|
      ensures (xs + ys)[k] != (xs + ys)[l]
    {
      if k < |xs| <= l {
        assert xs[k] in xs && ys[l - |xs|] in ys;
      }
    }
  }

  /** What a peer is asked for was Empty when the call began, and is named once. */
  lemma PicksMembers(start: Progress, t: Turn, taken: set<BlockId>, field: Bitfield,
                     down: seq<nat>, empty: seq<nat>, slots: nat)
    requires Laid(start) && Laid(t.prog) && |start.pieces| == |t.prog.pieces|
    requires t.prog == WithBlocks(start, taken, Downloading)
    requires IsOrder(down, start.pieces, Downloading) && IsOrder(empty, start.pieces, Empty)
    ensures var picks := Picks(t, start.pieces, field, down, empty, slots);
            && Distinct(picks)
            && (forall b | b in picks :: Exists(start.pieces, b) && StatusAt(start.pieces, b) == Empty)
            && (forall b | b in picks && b.0 in down :: b !in taken)
            && (forall b | b in picks :: b.0 in down || (b.0 in empty && HasBit(field, b.0)))
  {
    var first, second := Candidates(t.prog.pieces, down, field), Candidates(start.pieces, empty, field);
    CandidatesMembers(t.prog, down, field);
    CandidatesMembers(start, empty, field);
    forall i | i in empty
      ensures i !in down
    {
      assert start.pieces[i].status == Empty;
    }
    DistinctConcat(first, second, 0, down);
    forall b | b in first
      ensures Exists(start.pieces, b) && StatusAt(start.pieces, b) == Empty && b !in taken
    {
      ExistsAfterRepaint(start, taken, Downloading, b);
      StatusAfterRepaint(start, taken, Downloading, b);
    }
    var all := first + second;
    forall b | b in Take(all, slots)
      ensures b in first || b in second
    {
      assert b in all;
    }
    assert forall b | b in second :: b.0 in empty;
  }

  /** After asking, a peer waits for what it waited for before and for the new blocks. */
  lemma AwaitedAfterAsking(active: Requests, peer: PeerId, picks: seq<BlockId>, now: int)
    ensures var active' := Appended(active, peer, picks, now);
            && (forall p, r | p in active' && r in active'[p] ::
                  (p in active && r in active[p]) || (p == peer && !r.received && BlockOfTracker(r) in picks))
            && (forall p, r | p in active && r in active[p] :: p in active' && r in active'[p])
            && (forall b | b in picks :: exists r :: Awaited(active', peer, r, b))
  {
    var active' := Appended(active, peer, picks, now);
    forall b | b in picks
      ensures exists r :: Awaited(active', peer, r, b)
    {
      var k :| 0 <= k < |picks| && picks[k] == b;
      assert Track(picks, now)[k] in active'[peer];
      assert Awaited(active', peer, Track(picks, now)[k], b);
    }
  }

  lemma NewNamesDistinct(mine: seq<RequestTracker>, picks: seq<BlockId>, now: int)
    requires Distinct(NamesOf(mine)) && Distinct(picks)
    requires forall r | r in mine :: BlockOfTracker(r) !in picks
    ensures Distinct(NamesOf(mine + Track(picks, now)))
  {
    assert NamesOf(mine + Track(picks, now)) == NamesOf(mine) + picks;
    forall k, l | 0 <= k < |mine| && 0 <= l < |picks|
      ensures NamesOf(mine)[k] != picks[l]
    {
      assert mine[k] in mine && picks[l] in picks;
    }
  }

  lemma DistinctAfterAsking(active: Requests, peer: PeerId, picks: seq<BlockId>, now: int)
    requires NamesDistinct(active) && Distinct(picks)
    requires forall p, r | p in active && r in active[p] :: BlockOfTracker(r) !in picks
    ensures NamesDistinct(Appended(active, peer, picks, now))
  {
    AwaitedAfterAsking(active, peer, picks, now);
    NewNamesDistinct(RequestsOf(active, peer), picks, now);
    hide NamesOf, Distinct, Track;
  }

  lemma AgreeAfterAsking(active: Requests, prog: Progress, peer: PeerId, picks: seq<BlockId>, now: int)
    requires Agree(active, prog.pieces)
    requires forall p, r | p in active && r in active[p] :: !r.received
    requires Distinct(picks)
    requires forall b | b in picks :: Exists(prog.pieces, b) && StatusAt(prog.pieces, b) == Empty
    ensures Agree(Appended(active, peer, picks, now), WithBlocks(prog, ToSet(picks), Downloading).pieces)
    ensures var active' := Appended(active, peer, picks, now);
            forall p, r | p in active' && r in active'[p] :: !r.received
  {
    hide Appended, WithBlocks, ToSet;
    var active' := Appended(active, peer, picks, now);
    var pieces := WithBlocks(prog, ToSet(picks), Downloading).pieces;
    AwaitedAfterAsking(active, peer, picks, now);
    DistinctAfterAsking(active, peer, picks, now);
    forall p: PeerId, r: RequestTracker | p in active' && r in active'[p]
      ensures Exists(pieces, BlockOfTracker(r)) && StatusAt(pieces, BlockOfTracker(r)) == Downloading
    {
      StatusAfterRepaint(prog, ToSet(picks), Downloading, BlockOfTracker(r));
    }
    forall b: BlockId | Exists(pieces, b) && StatusAt(pieces, b) == Downloading
      ensures exists p, r :: Awaited(active', p, r, b)
    {
      ExistsAfterRepaint(prog, ToSet(picks), Downloading, b);
      StatusAfterRepaint(prog, ToSet(picks), Downloading, b);
      if b !in picks {
        var p, r :| Awaited(active, p, r, b);
        assert Awaited(active', p, r, b);
      }
    }
  }

  // ----- a whole call of ChooseBlocks

  /** No block is asked of two peers in one call. */
  ghost predicate AskedOnce(batches: seq<Batch>) {
    forall k, l, b | 0 <= k < l < |batches| && b in batches[k].picks :: b !in batches[l].picks
  }

  ghost predicate NoneTaken(picks: seq<BlockId>, batches: seq<Batch>) {
    forall b | b in picks :: b !in AllPicks(batches)
  }

  lemma {:induction false} InAllPicks(batches: seq<Batch>, b: BlockId)
    ensures b in AllPicks(batches) <==> exists k | 0 <= k < |batches| :: b in batches[k].picks
  {
    if |batches| > 0 {
      var n := |batches| - 1;
      InAllPicks(batches[..n], b);
      if b in AllPicks(batches[..n]) {
        var k :| 0 <= k < n && b in batches[..n][k].picks;
        assert b in batches[k].picks;
      }
      if exists k | 0 <= k < |batches| :: b in batches[k].picks {
        var k :| 0 <= k < |batches| && b in batches[k].picks;
        if k < n {
          assert b in batches[..n][k].picks;
        }
      }
    }
  }

  lemma AskedOnceStep(batches: seq<Batch>, batch: Batch)
    ensures AllPicks(batches + [batch]) == AllPicks(batches) + ToSet(batch.picks)
    ensures AskedOnce(batches + [batch]) <==> AskedOnce(batches) && NoneTaken(batch.picks, batches)
  {
    var longer := batches + [batch];
    assert longer[..|batches|] == batches;
    if AskedOnce(longer) {
      forall k, l, b | 0 <= k < l < |batches| && b in batches[k].picks
        ensures b !in batches[l].picks
      {
        assert b in longer[k].picks && b !in longer[l].picks;
      }
      forall b | b in batch.picks
        ensures b !in AllPicks(batches)
      {
        InAllPicks(batches, b);
        assert longer[|batches|].picks == batch.picks;
        forall k | 0 <= k < |batches|
          ensures b !in batches[k].picks
        {
          assert longer[k].picks == batches[k].picks;
        }
      }
    }
    if AskedOnce(batches) && NoneTaken(batch.picks, batches) {
      forall k, l, b | 0 <= k < l < |longer| && b in longer[k].picks
        ensures b !in longer[l].picks
      {
        InAllPicks(batches, b);
      }
    }
  }

  ghost predicate WereEmpty(prog: Progress, blocks: set<BlockId>) {
    forall b | b in blocks :: Exists(prog.pieces, b) && StatusAt(prog.pieces, b) == Empty
  }

  ghost predicate AllWaiting(active: Requests) {
    forall p, r | p in active && r in active[p] :: !r.received
  }

  ghost predicate AllAwaited(active: Requests, blocks: set<BlockId>) {
    forall b | b in blocks :: exists p, r :: Awaited(active, p, r, b)
  }

  ghost predicate StartedOnce(batches: seq<Batch>, down: seq<nat>) {
    forall k, l, b | 0 <= k < l < |batches| && b in batches[k].picks && b.0 in down :: b !in batches[l].picks
  }

  /** After the turns of the first peers of a call that started from `start`: the blocks asked for were
      Empty and are Downloading now. */
  ghost predicate Painted(start: Turn, t: Turn) {
    && Laid(start.prog) && Laid(t.prog) && t.prog.fileSize == start.prog.fileSize
    && t.prog == WithBlocks(start.prog, AllPicks(t.batches), Downloading)
    && WereEmpty(start.prog, AllPicks(t.batches))
  }

  /** The same, when statuses and requests agreed at the start. */
  ghost predicate Asking(start: Turn, t: Turn, down: seq<nat>) {
    && Painted(start, t)
    && AllWaiting(t.active)
    && AllAwaited(t.active, AllPicks(t.batches))
    && StartedOnce(t.batches, down)
    && (Agree(t.active, t.prog.pieces) <==> AskedOnce(t.batches))
    && (NamesDistinct(t.active) ==> AskedOnce(t.batches))
  }

  /** Distinct names stay distinct when trackers are taken away again, and the new ones named other blocks. */
  lemma DistinctBeforeAsking(active: Requests, peer: PeerId, picks: seq<BlockId>, now: int)
    requires NamesDistinct(Appended(active, peer, picks, now))
    ensures NamesDistinct(active)
    ensures forall p, r | p in active && r in active[p] :: BlockOfTracker(r) !in picks
  {
    var active' := Appended(active, peer, picks, now);
    var mine := RequestsOf(active, peer);
    AwaitedAfterAsking(active, peer, picks, now);
    assert NamesOf(active'[peer]) == NamesOf(mine) + picks;
    forall p | p in active
      ensures Distinct(NamesOf(active[p]))
    {
      assert Distinct(NamesOf(active'[p]));
      if p == peer {
        assert NamesOf(mine) == NamesOf(active'[peer])[..|mine|];
      }
    }
    forall p, r | p in active && r in active[p]
      ensures BlockOfTracker(r) !in picks
    {
      NewNamesDiffer(active, peer, picks, now, p, r);
    }
  }

  lemma NewNamesDiffer(active: Requests, peer: PeerId, picks: seq<BlockId>, now: int, p: PeerId, r: RequestTracker)
    requires NamesDistinct(Appended(active, peer, picks, now))
    requires p in active && r in active[p]
    ensures BlockOfTracker(r) !in picks
  {
    var active' := Appended(active, peer, picks, now);
    var mine := RequestsOf(active, peer);
    assert NamesOf(active'[peer]) == NamesOf(mine) + picks;
    if p == peer {
      var k :| 0 <= k < |mine| && mine[k] == r;
      forall l | 0 <= l < |picks|
        ensures picks[l] != BlockOfTracker(r)
      {
        assert NamesOf(active'[peer])[k] == BlockOfTracker(r);
        assert NamesOf(active'[peer])[|mine| + l] == picks[l];
      }
    } else {
      assert r in active'[p];
      forall l | 0 <= l < |picks|
        ensures picks[l] != BlockOfTracker(r)
      {
        assert Track(picks, now)[l] in active'[peer];
        assert BlockOfTracker(Track(picks, now)[l]) == picks[l];
      }
    }
  }

  /** One more peer: the pieces of the invariant that do not mention agreement. */
  lemma AskingBasics(start: Turn, t: Turn, fields: map<PeerId, Bitfield>, now: int,
                     down: seq<nat>, empty: seq<nat>, peer: PeerId, picks: seq<BlockId>)
    requires Painted(start, t)
    requires IsOrder(down, start.prog.pieces, Downloading) && IsOrder(empty, start.prog.pieces, Empty)
    requires picks == Picks(t, start.prog.pieces, FieldOf(fields, peer), down, empty, Slots(t, peer))
    ensures Distinct(picks)
    ensures forall b | b in picks :: Exists(start.prog.pieces, b) && StatusAt(start.prog.pieces, b) == Empty
    ensures forall b | b in picks && b.0 in down :: b !in AllPicks(t.batches)
    ensures forall b | b in picks :: b.0 in down || (b.0 in empty && HasBit(FieldOf(fields, peer), b.0))
    ensures Laid(WithBlocks(t.prog, ToSet(picks), Downloading))
    ensures WithBlocks(t.prog, ToSet(picks), Downloading)
            == WithBlocks(start.prog, AllPicks(t.batches) + ToSet(picks), Downloading)
  {
    PicksMembers(start.prog, t, AllPicks(t.batches), FieldOf(fields, peer), down, empty, Slots(t, peer));
    RepaintKeepsShape(t.prog, ToSet(picks), Downloading);
    WithBlocksTwice(start.prog, AllPicks(t.batches), ToSet(picks), Downloading);
  }

  /** Agreement survives the turn exactly when nothing already asked for is asked again. */
  lemma AgreeAfterTurn(start: Turn, t: Turn, now: int, down: seq<nat>, peer: PeerId, picks: seq<BlockId>)
    requires Asking(start, t, down) && Distinct(picks)
    requires forall b | b in picks :: Exists(start.prog.pieces, b) && StatusAt(start.prog.pieces, b) == Empty
    ensures var active := Appended(t.active, peer, picks, now);
            var prog := WithBlocks(t.prog, ToSet(picks), Downloading);
            var untaken := NoneTaken(picks, t.batches);
            && (Agree(active, prog.pieces) <==> AskedOnce(t.batches) && untaken)
            && (NamesDistinct(active) ==> AskedOnce(t.batches) && untaken)
  {
    if AskedOnce(t.batches) && NoneTaken(picks, t.batches) {
      forall b | b in picks
        ensures Exists(t.prog.pieces, b) && StatusAt(t.prog.pieces, b) == Empty
      {
        StatusAfterRepaint(start.prog, AllPicks(t.batches), Downloading, b);
      }
      AgreeAfterAsking(t.active, t.prog, peer, picks, now);
    }
    if NamesDistinct(Appended(t.active, peer, picks, now)) {
      DistinctBeforeAsking(t.active, peer, picks, now);
      forall b | b in picks
        ensures b !in AllPicks(t.batches)
      {
        assert forall p, r :: !Awaited(t.active, p, r, b);
      }
    }
  }

  lemma AwaitedAfterTurn(start: Turn, t: Turn, now: int, down: seq<nat>, peer: PeerId, picks: seq<BlockId>)
    requires Asking(start, t, down)
    ensures var active := Appended(t.active, peer, picks, now);
            AllWaiting(active) && AllAwaited(active, AllPicks(t.batches) + ToSet(picks))
  {
    var active := Appended(t.active, peer, picks, now);
    AwaitedAfterAsking(t.active, peer, picks, now);
    forall b | b in AllPicks(t.batches) + ToSet(picks)
      ensures exists p, r :: Awaited(active, p, r, b)
    {
      if b in AllPicks(t.batches) {
        var p, r :| Awaited(t.active, p, r, b);
        assert Awaited(active, p, r, b);
      }
    }
  }

  lemma PicksAfterTurn(batches: seq<Batch>, peer: PeerId, picks: seq<BlockId>)
    ensures AllPicks(if picks == [] then batches else batches + [Batch(peer, picks)]) == AllPicks(batches) + ToSet(picks)
  {
    if picks == [] {
      ToSetEmpty();
    } else {
      AskedOnceStep(batches, Batch(peer, picks));
    }
  }

  /** The batches after a turn; a peer that is asked for nothing gets none. */
  lemma BatchesAfterTurn(batches: seq<Batch>, peer: PeerId, picks: seq<BlockId>, down: seq<nat>)
    requires StartedOnce(batches, down)
    requires forall b | b in picks && b.0 in down :: b !in AllPicks(batches)
    ensures var batches' := if picks == [] then batches else batches + [Batch(peer, picks)];
            && AllPicks(batches') == AllPicks(batches) + ToSet(picks)
            && StartedOnce(batches', down)
            && (AskedOnce(batches') <==> AskedOnce(batches) && NoneTaken(picks, batches))
  {
    if picks == [] {
      ToSetEmpty();
    } else {
      AskedOnceStep(batches, Batch(peer, picks));
      var batches' := batches + [Batch(peer, picks)];
      forall k, l, b | 0 <= k < l < |batches'| && b in batches'[k].picks && b.0 in down
        ensures b !in batches'[l].picks
      {
        InAllPicks(batches, b);
      }
    }
  }

  lemma AskingStep(start: Turn, t: Turn, fields: map<PeerId, Bitfield>, now: int,
                   down: seq<nat>, empty: seq<nat>, peer: PeerId)
    requires Asking(start, t, down)
    requires IsOrder(down, start.prog.pieces, Downloading) && IsOrder(empty, start.prog.pieces, Empty)
    ensures Asking(start, PeerTurn(t, start.prog.pieces, fields, now, down, empty, peer), down)
  {
    var picks := Picks(t, start.prog.pieces, FieldOf(fields, peer), down, empty, Slots(t, peer));
    AskingBasics(start, t, fields, now, down, empty, peer, picks);
    AgreeAfterTurn(start, t, now, down, peer, picks);
    AwaitedAfterTurn(start, t, now, down, peer, picks);
    BatchesAfterTurn(t.batches, peer, picks, down);
    WereEmptyUnion(start.prog, AllPicks(t.batches), picks);
    hide Picks, Appended, WithBlocks, Agree, AllPicks, NamesDistinct, Laid, WereEmpty, AllWaiting, AllAwaited, StartedOnce,
         AskedOnce, NoneTaken, ToSet, IsOrder, Slots, FieldOf;
  }

  lemma WereEmptyUnion(prog: Progress, blocks: set<BlockId>, picks: seq<BlockId>)
    requires WereEmpty(prog, blocks)
    requires forall b | b in picks :: Exists(prog.pieces, b) && StatusAt(prog.pieces, b) == Empty
    ensures WereEmpty(prog, blocks + ToSet(picks))
  {
  }

  lemma {:induction false} AskingTurns(start: Turn, fields: map<PeerId, Bitfield>, now: int,
                                       down: seq<nat>, empty: seq<nat>, peers: seq<PeerId>)
    requires Asking(start, start, down)
    requires IsOrder(down, start.prog.pieces, Downloading) && IsOrder(empty, start.prog.pieces, Empty)
    ensures Asking(start, PeerTurns(start, start.prog.pieces, fields, now, down, empty, peers), down)
  {
    if |peers| > 0 {
      var n := |peers| - 1;
      AskingTurns(start, fields, now, down, empty, peers[..n]);
      AskingStep(start, PeerTurns(start, start.prog.pieces, fields, now, down, empty, peers[..n]),
                 fields, now, down, empty, peers[n]);
    }
  }

  lemma PaintedStart(prog: Progress, c: Chooser, now: int)
    requires Laid(prog)
    ensures var start := AfterTimeouts(prog, c, now);
            Painted(start, start) && start.batches == [] && |start.prog.pieces| == |prog.pieces|
  {
    var start := AfterTimeouts(prog, c, now);
    RepaintKeepsShape(prog, ExpiredAt(c.active, c.active.Keys, now), Empty);
    WithNoBlocks(start.prog, Downloading);
  }

  lemma PaintedStep(start: Turn, t: Turn, fields: map<PeerId, Bitfield>, now: int,
                    down: seq<nat>, empty: seq<nat>, peer: PeerId)
    requires Painted(start, t)
    requires IsOrder(down, start.prog.pieces, Downloading) && IsOrder(empty, start.prog.pieces, Empty)
    ensures Painted(start, PeerTurn(t, start.prog.pieces, fields, now, down, empty, peer))
  {
    var picks := Picks(t, start.prog.pieces, FieldOf(fields, peer), down, empty, Slots(t, peer));
    AskingBasics(start, t, fields, now, down, empty, peer, picks);
    PicksAfterTurn(t.batches, peer, picks);
    WereEmptyUnion(start.prog, AllPicks(t.batches), picks);
    hide Picks, Appended, WithBlocks, AllPicks, Laid, WereEmpty, AskedOnce, NoneTaken, ToSet, IsOrder, Slots, FieldOf;
  }

  lemma {:induction false} PaintedTurns(start: Turn, fields: map<PeerId, Bitfield>, now: int,
                                        down: seq<nat>, empty: seq<nat>, peers: seq<PeerId>)
    requires Painted(start, start)
    requires IsOrder(down, start.prog.pieces, Downloading) && IsOrder(empty, start.prog.pieces, Empty)
    ensures Painted(start, PeerTurns(start, start.prog.pieces, fields, now, down, empty, peers))
  {
    if |peers| > 0 {
      var n := |peers| - 1;
      PaintedTurns(start, fields, now, down, empty, peers[..n]);
      PaintedStep(start, PeerTurns(start, start.prog.pieces, fields, now, down, empty, peers[..n]),
                  fields, now, down, empty, peers[n]);
    }
  }

  lemma AskingStart(prog: Progress, c: Chooser, now: int, down: seq<nat>)
    requires Laid(prog) && Agree(c.active, prog.pieces)
    ensures var start := AfterTimeouts(prog, c, now);
            Asking(start, start, down)
  {
    var start := AfterTimeouts(prog, c, now);
    AgreeAfterTimeouts(prog, c, now);
    RepaintKeepsShape(prog, ExpiredAt(c.active, c.active.Keys, now), Empty);
    WithNoBlocks(start.prog, Downloading);
  }

  /** ChooseBlocks keeps statuses and requests in agreement exactly when no block was asked of two
      peers; and only blocks of pieces that were Empty before the call can be. */
  lemma ChooseAgrees(prog: Progress, c: Chooser, now: int, peers: seq<PeerId>, down: seq<nat>, empty: seq<nat>)
    requires Laid(prog) && Agree(c.active, prog.pieces)
    requires ValidOrders(AfterTimeouts(prog, c, now).prog.pieces, c.rarity, down, empty)
    ensures |AfterTimeouts(prog, c, now).prog.pieces| == |prog.pieces|
    ensures var t := Chosen(prog, c, now, peers, down, empty);
            && (Agree(t.active, t.prog.pieces) <==> AskedOnce(t.batches))
            && (forall k, l, b | 0 <= k < l < |t.batches| && b in t.batches[k].picks && b in t.batches[l].picks ::
                  b.0 < |prog.pieces| && prog.pieces[b.0].status == Empty)
            && Asking(AfterTimeouts(prog, c, now), t, down)
  {
    var start := AfterTimeouts(prog, c, now);
    AskingStart(prog, c, now, down);
    AskingTurns(start, c.bitfields, now, down, empty, peers);
    StartedAskedOnce(prog, c, now, peers, down, empty);
  }

  lemma {:induction false} StartedOnceTurns(start: Turn, fields: map<PeerId, Bitfield>, now: int,
                                            down: seq<nat>, empty: seq<nat>, peers: seq<PeerId>)
    requires Painted(start, start) && start.batches == []
    requires IsOrder(down, start.prog.pieces, Downloading) && IsOrder(empty, start.prog.pieces, Empty)
    ensures StartedOnce(PeerTurns(start, start.prog.pieces, fields, now, down, empty, peers).batches, down)
  {
    hide Painted, Picks, HasBit, AllPicks, ToSet, Slots, FieldOf, NoneTaken, AskedOnce, WithBlocks;
    if |peers| > 0 {
      var n := |peers| - 1;
      var t := PeerTurns(start, start.prog.pieces, fields, now, down, empty, peers[..n]);
      var picks := Picks(t, start.prog.pieces, FieldOf(fields, peers[n]), down, empty, Slots(t, peers[n]));
      PaintedTurns(start, fields, now, down, empty, peers[..n]);
      StartedOnceTurns(start, fields, now, down, empty, peers[..n]);
      AskingBasics(start, t, fields, now, down, empty, peers[n], picks);
      hide StartedOnce;
      BatchesAfterTurn(t.batches, peers[n], picks, down);
    }
  }

  /** Within one call no block of a piece that had been started before it is asked of two peers, whatever state the
      requests were in. */
  lemma StartedAskedOnce(prog: Progress, c: Chooser, now: int, peers: seq<PeerId>, down: seq<nat>, empty: seq<nat>)
    requires Laid(prog) && ValidOrders(AfterTimeouts(prog, c, now).prog.pieces, c.rarity, down, empty)
    ensures |AfterTimeouts(prog, c, now).prog.pieces| == |prog.pieces|
    ensures var t := Chosen(prog, c, now, peers, down, empty);
            forall k, l, b | 0 <= k < l < |t.batches| && b in t.batches[k].picks && b in t.batches[l].picks ::
              b.0 < |prog.pieces| && prog.pieces[b.0].status == Empty
  {
    var start := AfterTimeouts(prog, c, now);
    PaintedStart(prog, c, now);
    StartedOnceTurns(start, c.bitfields, now, down, empty, peers);
    var t := Chosen(prog, c, now, peers, down, empty);
    forall k, l, b | 0 <= k < l < |t.batches| && b in t.batches[k].picks && b in t.batches[l].picks
      ensures b.0 < |prog.pieces| && prog.pieces[b.0].status == Empty
    {
      InAllPicks(t.batches, b);
      assert b.0 !in down;
      PickedFrom(start, c.bitfields, now, down, empty, peers, b);
    }
  }

  lemma {:induction false} PickedFrom(start: Turn, fields: map<PeerId, Bitfield>, now: int,
                                      down: seq<nat>, empty: seq<nat>, peers: seq<PeerId>, b: BlockId)
    requires Painted(start, start) && start.batches == []
    requires IsOrder(down, start.prog.pieces, Downloading) && IsOrder(empty, start.prog.pieces, Empty)
    requires b in AllPicks(PeerTurns(start, start.prog.pieces, fields, now, down, empty, peers).batches)
    ensures b.0 in down || b.0 in empty
    ensures b.0 in down || exists a | 0 <= a < |peers| :: HasBit(FieldOf(fields, peers[a]), b.0)
  {
    hide Painted, Picks, HasBit, AllPicks, ToSet, Slots, FieldOf, NoneTaken, AskedOnce, WithBlocks;
    if |peers| > 0 {
      var n := |peers| - 1;
      var t := PeerTurns(start, start.prog.pieces, fields, now, down, empty, peers[..n]);
      var picks := Picks(t, start.prog.pieces, FieldOf(fields, peers[n]), down, empty, Slots(t, peers[n]));
      PaintedTurns(start, fields, now, down, empty, peers[..n]);
      AskingBasics(start, t, fields, now, down, empty, peers[n], picks);
      PicksAfterTurn(t.batches, peers[n], picks);
      if b !in picks {
        PickedFrom(start, fields, now, down, empty, peers[..n], b);
        if b.0 !in down {
          var a :| 0 <= a < n && HasBit(FieldOf(fields, peers[..n][a]), b.0);
          assert HasBit(FieldOf(fields, peers[a]), b.0);
        }
      } else if b.0 !in down {
        assert HasBit(FieldOf(fields, peers[n]), b.0);
      }
    } else {
      NoPicks(start.batches);
    }
  }

  lemma NoPicks(batches: seq<Batch>)
    ensures batches == [] ==> AllPicks(batches) == {}
  {
  }
}
