// Who is asked for what in one call, worked out from the state before the call. Started pieces are shared out
// between the peers; pieces that were Empty are offered to each peer anew, and only they can be asked for twice.

module Shares {
  import opened Sorting
  import opened Coalescing
  import opened DownloadProgress
  import opened Selection
  import opened RarityTrackerChooser
  import opened Agreement

  /** One peer's share: blocks of started pieces, and blocks of pieces nobody had begun. */
  datatype Share = Share(started: seq<BlockId>, unbegun: seq<BlockId>)

  function StartedIn(shares: seq<Share>): set<BlockId> {
    if |shares| == 0 then {} else StartedIn(shares[..|shares| - 1]) + ToSet(shares[|shares| - 1].started)
  }

  function UnbegunIn(shares: seq<Share>): set<BlockId> {
    if |shares| == 0 then {} else UnbegunIn(shares[..|shares| - 1]) + ToSet(shares[|shares| - 1].unbegun)
  }

  /** The number of blocks in the shares of one peer; more than one share if it is listed again. */
  function SharesOf(shares: seq<Share>, peers: seq<PeerId>, p: PeerId): nat
    requires |shares| == |peers|
  {
    if |shares| == 0 then 0
    else
      var last := |shares| - 1;
      SharesOf(shares[..last], peers[..last], p)
      + if peers[last] == p then |shares[last].started| + |shares[last].unbegun| else 0
  }

  function SlotsLeft(start: Turn, peer: PeerId, asked: nat): nat {
    (WindowOf(start.windows, peer) - (|RequestsOf(start.active, peer)| + asked)) % 0x1_0000
  }

  /** A peer's share when `taken` are the blocks of started pieces that the peers before it got. */
  function ShareOf(start: Turn, field: Bitfield, down: seq<nat>, empty: seq<nat>, taken: set<BlockId>, slots: nat): Share
    requires OrderIn(down, start.prog.pieces) && OrderIn(empty, start.prog.pieces)
  {
    var started := Take(Candidates(Repaint(start.prog.pieces, taken, Downloading), down, field), slots);
    Share(started, Take(Candidates(start.prog.pieces, empty, field), slots - |started|))
  }

  function NextShare(start: Turn, fields: map<PeerId, Bitfield>, down: seq<nat>, empty: seq<nat>,
                     before: seq<Share>, peers: seq<PeerId>, peer: PeerId): Share
    requires OrderIn(down, start.prog.pieces) && OrderIn(empty, start.prog.pieces) && |before| == |peers|
  {
    ShareOf(start, FieldOf(fields, peer), down, empty, StartedIn(before),
            SlotsLeft(start, peer, SharesOf(before, peers, peer)))
  }

  function SharesFor(start: Turn, fields: map<PeerId, Bitfield>, down: seq<nat>, empty: seq<nat>, peers: seq<PeerId>):
    (shares: seq<Share>)
    requires OrderIn(down, start.prog.pieces) && OrderIn(empty, start.prog.pieces)
    ensures |shares| == |peers|
  {
    if |peers| == 0 then []
    else
      var last := |peers| - 1;
      var before := SharesFor(start, fields, down, empty, peers[..last]);
      before + [NextShare(start, fields, down, empty, before, peers[..last], peers[last])]
  }

  /** No block of an unbegun piece falls to two of the peers. */
  ghost predicate UnbegunApart(shares: seq<Share>) {
    forall k, l, b | 0 <= k < l < |shares| && b in shares[k].unbegun :: b !in shares[l].unbegun
  }

  lemma {:induction false} InUnbegun(shares: seq<Share>, b: BlockId)
    ensures b in UnbegunIn(shares) <==> exists k | 0 <= k < |shares| :: b in shares[k].unbegun
  {
    if |shares| > 0 {
      var n := |shares| - 1;
      InUnbegun(shares[..n], b);
      if b in UnbegunIn(shares[..n]) {
        var k :| 0 <= k < n && b in shares[..n][k].unbegun;
        assert b in shares[k].unbegun;
      }
      if exists k | 0 <= k < |shares| :: b in shares[k].unbegun {
        var k :| 0 <= k < |shares| && b in shares[k].unbegun;
        if k < n {
          assert b in shares[..n][k].unbegun;
        }
      }
    }
  }

  lemma UnbegunApartStep(shares: seq<Share>, share: Share)
    ensures UnbegunApart(shares + [share]) <==> UnbegunApart(shares) && forall b | b in share.unbegun :: b !in UnbegunIn(shares)
  {
    var longer := shares + [share];
    if UnbegunApart(longer) {
      forall k, l, b | 0 <= k < l < |shares| && b in shares[k].unbegun
        ensures b !in shares[l].unbegun
      {
        assert b in longer[k].unbegun && b !in longer[l].unbegun;
      }
      forall b | b in share.unbegun
        ensures b !in UnbegunIn(shares)
      {
        InUnbegun(shares, b);
        assert longer[|shares|] == share;
        forall k | 0 <= k < |shares|
          ensures b !in shares[k].unbegun
        {
          assert longer[k] == shares[k];
        }
      }
    }
    if UnbegunApart(shares) && forall b | b in share.unbegun :: b !in UnbegunIn(shares) {
      forall k, l, b | 0 <= k < l < |longer| && b in longer[k].unbegun
        ensures b !in longer[l].unbegun
      {
        InUnbegun(shares, b);
      }
    }
  }

  // ----- the candidates in a piece depend on the blocks of that piece alone

  lemma {:induction false} CandidatesAlike(pieces: seq<PieceProgress>, s: set<BlockId>, t: set<BlockId>,
                                           order: seq<nat>, field: Bitfield)
    requires OrderIn(order, pieces)
    requires forall b: BlockId | b.0 in order :: b in s <==> b in t
    ensures Candidates(Repaint(pieces, s, Downloading), order, field)
         == Candidates(Repaint(pieces, t, Downloading), order, field)
  {
    if |order| > 0 {
      var n := |order| - 1;
      var i := order[n];
      assert i in order && forall k | k in order[..n] :: k in order;
      CandidatesAlike(pieces, s, t, order[..n], field);
      assert RepaintPiece(pieces[i], i, s, Downloading).blocks == RepaintPiece(pieces[i], i, t, Downloading).blocks;
    }
  }

  // ----- the turns hand out the shares

  /** The windows are those of the start, and the requests those of the start and the shares. */
  ghost predicate SlotsShared(start: Turn, t: Turn, peers: seq<PeerId>, shares: seq<Share>)
    requires |shares| == |peers|
  {
    forall p :: WindowOf(t.windows, p) == WindowOf(start.windows, p)
             && |RequestsOf(t.active, p)| == |RequestsOf(start.active, p)| + SharesOf(shares, peers, p)
  }

  ghost predicate PicksShared(batches: seq<Batch>, down: seq<nat>, empty: seq<nat>, shares: seq<Share>) {
    && AllPicks(batches) == StartedIn(shares) + UnbegunIn(shares)
    && (forall b | b in StartedIn(shares) :: b.0 in down)
    && (forall b | b in UnbegunIn(shares) :: b.0 in empty)
    && (AskedOnce(batches) <==> UnbegunApart(shares))
  }

  /** What the shares of the first peers say about the state after their turns. */
  ghost predicate Shared(start: Turn, t: Turn, peers: seq<PeerId>, down: seq<nat>, empty: seq<nat>, shares: seq<Share>) {
    |shares| == |peers| && SlotsShared(start, t, peers, shares) && PicksShared(t.batches, down, empty, shares)
  }

  lemma {:induction false} CandidatesWithin(pieces: seq<PieceProgress>, order: seq<nat>, field: Bitfield)
    requires OrderIn(order, pieces)
    ensures forall b | b in Candidates(pieces, order, field) :: b.0 in order && HasBit(field, b.0)
  {
    if |order| > 0 {
      var n := |order| - 1;
      CandidatesWithin(pieces, order[..n], field);
      var rest := Candidates(pieces, order[..n], field);
      var here := if HasBit(field, order[n]) then EmptyBlocks(pieces[order[n]], order[n]) else [];
      forall b: BlockId | b in rest + here
        ensures b.0 in order && HasBit(field, b.0)
      {
        assert b in rest || b in here;
      }
    }
  }

  lemma ShareWithin(start: Turn, field: Bitfield, down: seq<nat>, empty: seq<nat>, taken: set<BlockId>, slots: nat)
    requires OrderIn(down, start.prog.pieces) && OrderIn(empty, start.prog.pieces)
    ensures var share := ShareOf(start, field, down, empty, taken, slots);
      && (forall b | b in share.started :: b.0 in down)
      && forall b | b in share.unbegun :: b.0 in empty && HasBit(field, b.0)
  {
    var pieces := Repaint(start.prog.pieces, taken, Downloading);
    CandidatesWithin(pieces, down, field);
    CandidatesWithin(start.prog.pieces, empty, field);
    var share := ShareOf(start, field, down, empty, taken, slots);
    assert forall b | b in share.started :: b in Candidates(pieces, down, field);
    assert forall b | b in share.unbegun :: b in Candidates(start.prog.pieces, empty, field);
  }

  lemma DownNotEmpty(pieces: seq<PieceProgress>, down: seq<nat>, empty: seq<nat>, i: nat)
    requires IsOrder(down, pieces, Downloading) && IsOrder(empty, pieces, Empty)
    ensures !(i in down && i in empty)
  {
    if i in empty {
      assert pieces[i].status == Empty;
    }
  }

  lemma SlotsAreLeft(start: Turn, t: Turn, peers: seq<PeerId>, shares: seq<Share>, peer: PeerId)
    requires |shares| == |peers| && SlotsShared(start, t, peers, shares)
    ensures Slots(t, peer) == SlotsLeft(start, peer, SharesOf(shares, peers, peer))
  {
    hide WindowOf, RequestsOf, SharesOf;
  }

  /** A peer is asked for its share. */
  lemma PicksAreShare(start: Turn, t: Turn, shares: seq<Share>, field: Bitfield,
                      down: seq<nat>, empty: seq<nat>, slots: nat)
    requires t.prog == WithBlocks(start.prog, AllPicks(t.batches), Downloading)
    requires PicksShared(t.batches, down, empty, shares)
    requires IsOrder(down, start.prog.pieces, Downloading) && IsOrder(empty, start.prog.pieces, Empty)
    ensures var share := ShareOf(start, field, down, empty, StartedIn(shares), slots);
      OrderIn(down, t.prog.pieces)
      && Picks(t, start.prog.pieces, field, down, empty, slots) == share.started + share.unbegun
  {
    forall b: BlockId | b.0 in down
      ensures b in AllPicks(t.batches) <==> b in StartedIn(shares)
    {
      DownNotEmpty(start.prog.pieces, down, empty, b.0);
    }
    CandidatesAlike(start.prog.pieces, AllPicks(t.batches), StartedIn(shares), down, field);
    assert t.prog.pieces == Repaint(start.prog.pieces, AllPicks(t.batches), Downloading);
    hide WithBlocks, Repaint, Candidates, StartedIn, AllPicks, Take, PicksShared, IsOrder;
    TakeConcat(Candidates(t.prog.pieces, down, field), Candidates(start.prog.pieces, empty, field), slots);
  }

  lemma RequestsAfterTurn(t: Turn, now: int, peer: PeerId, picks: seq<BlockId>, p: PeerId)
    ensures |RequestsOf(Appended(t.active, peer, picks, now), p)|
         == |RequestsOf(t.active, p)| + if p == peer then |picks| else 0
    ensures WindowOf(t.windows[peer := WindowOf(t.windows, peer)], p) == WindowOf(t.windows, p)
  {
  }

  lemma SharesAfter(shares: seq<Share>, share: Share)
    ensures StartedIn(shares + [share]) == StartedIn(shares) + ToSet(share.started)
    ensures UnbegunIn(shares + [share]) == UnbegunIn(shares) + ToSet(share.unbegun)
  {
    assert (shares + [share])[..|shares|] == shares;
  }

  lemma SharesOfAfter(shares: seq<Share>, share: Share, peers: seq<PeerId>, peer: PeerId, p: PeerId)
    requires |shares| == |peers|
    ensures SharesOf(shares + [share], peers + [peer], p)
         == SharesOf(shares, peers, p) + if p == peer then |share.started| + |share.unbegun| else 0
  {
    assert (shares + [share])[..|shares|] == shares && (peers + [peer])[..|peers|] == peers;
  }

  lemma SlotsStep(start: Turn, t: Turn, now: int, peers: seq<PeerId>, shares: seq<Share>, peer: PeerId, share: Share,
                  t': Turn)
    requires |shares| == |peers| && SlotsShared(start, t, peers, shares)
    requires t'.active == Appended(t.active, peer, share.started + share.unbegun, now)
    requires t'.windows == t.windows[peer := WindowOf(t.windows, peer)]
    ensures SlotsShared(start, t', peers + [peer], shares + [share])
  {
    hide WindowOf, RequestsOf, SharesOf, Appended;
    forall p
      ensures WindowOf(t'.windows, p) == WindowOf(start.windows, p)
      ensures |RequestsOf(t'.active, p)| == |RequestsOf(start.active, p)| + SharesOf(shares + [share], peers + [peer], p)
    {
      RequestsAfterTurn(t, now, peer, share.started + share.unbegun, p);
      SharesOfAfter(shares, share, peers, peer, p);
    }
  }

  /** The turn asks again for a block only if the share's unbegun blocks meet those of earlier shares. */
  lemma TakenAgain(pieces: seq<PieceProgress>, batches: seq<Batch>, shares: seq<Share>, down: seq<nat>, empty: seq<nat>,
                   share: Share)
    requires PicksShared(batches, down, empty, shares)
    requires IsOrder(down, pieces, Downloading) && IsOrder(empty, pieces, Empty)
    requires forall b | b in share.started :: b.0 in down && b !in AllPicks(batches)
    requires forall b | b in share.unbegun :: b.0 in empty
    ensures NoneTaken(share.started + share.unbegun, batches) <==> forall b | b in share.unbegun :: b !in UnbegunIn(shares)
  {
    hide IsOrder, AllPicks, StartedIn, UnbegunIn, UnbegunApart, AskedOnce;
    var picks := share.started + share.unbegun;
    assert forall b :: b in picks <==> b in share.started || b in share.unbegun;
    forall b | b in share.unbegun
      ensures b in AllPicks(batches) <==> b in UnbegunIn(shares)
    {
      DownNotEmpty(pieces, down, empty, b.0);
    }
  }

  lemma StartedNotTaken(pieces: seq<PieceProgress>, taken: set<BlockId>, down: seq<nat>, empty: seq<nat>, share: Share)
    requires IsOrder(down, pieces, Downloading) && IsOrder(empty, pieces, Empty)
    requires forall b | b in share.started :: b.0 in down && b !in taken
    requires forall b | b in share.unbegun :: b.0 in empty
    ensures forall b | b in share.started + share.unbegun && b.0 in down :: b !in taken
  {
    hide IsOrder;
    forall b | b in share.started + share.unbegun && b.0 in down
      ensures b !in taken
    {
      if b in share.unbegun {
        DownNotEmpty(pieces, down, empty, b.0);
      }
    }
  }

  lemma PicksSharedStep(pieces: seq<PieceProgress>, batches: seq<Batch>, shares: seq<Share>,
                        down: seq<nat>, empty: seq<nat>, share: Share, peer: PeerId)
    requires PicksShared(batches, down, empty, shares) && StartedOnce(batches, down)
    requires IsOrder(down, pieces, Downloading) && IsOrder(empty, pieces, Empty)
    requires forall b | b in share.started :: b.0 in down && b !in AllPicks(batches)
    requires forall b | b in share.unbegun :: b.0 in empty
    ensures var picks := share.started + share.unbegun;
      PicksShared(if picks == [] then batches else batches + [Batch(peer, picks)], down, empty, shares + [share])
  {
    hide IsOrder, AllPicks, StartedIn, UnbegunIn, UnbegunApart, AskedOnce, NoneTaken, StartedOnce, ToSet;
    var picks := share.started + share.unbegun;
    StartedNotTaken(pieces, AllPicks(batches), down, empty, share);
    TakenAgain(pieces, batches, shares, down, empty, share);
    BatchesAfterTurn(batches, peer, picks, down);
    SharesAfter(shares, share);
    UnbegunApartStep(shares, share);
    ToSetConcat(share.started, share.unbegun);
  }

  lemma SharedStep(start: Turn, t: Turn, fields: map<PeerId, Bitfield>, now: int, down: seq<nat>, empty: seq<nat>,
                   peers: seq<PeerId>, shares: seq<Share>, peer: PeerId)
    requires Asking(start, t, down) && Shared(start, t, peers, down, empty, shares)
    requires IsOrder(down, start.prog.pieces, Downloading) && IsOrder(empty, start.prog.pieces, Empty)
    ensures Shared(start, PeerTurn(t, start.prog.pieces, fields, now, down, empty, peer), peers + [peer], down, empty,
                   shares + [NextShare(start, fields, down, empty, shares, peers, peer)])
  {
    var field, slots := FieldOf(fields, peer), Slots(t, peer);
    var share := NextShare(start, fields, down, empty, shares, peers, peer);
    SlotsAreLeft(start, t, peers, shares, peer);
    PicksAreShare(start, t, shares, field, down, empty, slots);
    ShareWithin(start, field, down, empty, StartedIn(shares), slots);
    AskingBasics(start, t, fields, now, down, empty, peer, share.started + share.unbegun);
    hide Picks, Appended, WithBlocks, Agree, AllPicks, NamesDistinct, Laid, WereEmpty, AllWaiting, AllAwaited,
         StartedOnce, AskedOnce, NoneTaken, ToSet, IsOrder, Slots, FieldOf, SlotsLeft, ShareOf, StartedIn, UnbegunIn,
         UnbegunApart, SharesOf, WindowOf, RequestsOf, HasBit, SlotsShared, PicksShared;
    forall b | b in share.started
      ensures b.0 in down && b !in AllPicks(t.batches)
    {
      assert b in share.started + share.unbegun;
    }
    SlotsStep(start, t, now, peers, shares, peer, share, PeerTurn(t, start.prog.pieces, fields, now, down, empty, peer));
    PicksSharedStep(start.prog.pieces, t.batches, shares, down, empty, share, peer);
  }

  lemma LastShare(start: Turn, fields: map<PeerId, Bitfield>, down: seq<nat>, empty: seq<nat>, peers: seq<PeerId>)
    requires OrderIn(down, start.prog.pieces) && OrderIn(empty, start.prog.pieces) && |peers| > 0
    ensures var before, n := SharesFor(start, fields, down, empty, peers[..|peers| - 1]), |peers| - 1;
      SharesFor(start, fields, down, empty, peers)
      == before + [NextShare(start, fields, down, empty, before, peers[..n], peers[n])]
  {
  }

  lemma LastTurn(start: Turn, fields: map<PeerId, Bitfield>, now: int, down: seq<nat>, empty: seq<nat>, peers: seq<PeerId>)
    requires OrderIn(down, start.prog.pieces) && OrderIn(empty, start.prog.pieces) && |peers| > 0
    ensures var n := |peers| - 1;
      PeerTurns(start, start.prog.pieces, fields, now, down, empty, peers)
      == PeerTurn(PeerTurns(start, start.prog.pieces, fields, now, down, empty, peers[..n]), start.prog.pieces, fields, now,
                  down, empty, peers[n])
  {
  }

  lemma NothingShared(start: Turn, down: seq<nat>, empty: seq<nat>)
    requires start.batches == []
    ensures Shared(start, start, [], down, empty, [])
  {
  }

  lemma SplitLast(peers: seq<PeerId>)
    requires |peers| > 0
    ensures peers[..|peers| - 1] + [peers[|peers| - 1]] == peers
  {
  }

  lemma LastShared(start: Turn, fields: map<PeerId, Bitfield>, now: int, down: seq<nat>, empty: seq<nat>,
                   peers: seq<PeerId>, t: Turn, shares: seq<Share>)
    requires |peers| > 0
    requires IsOrder(down, start.prog.pieces, Downloading) && IsOrder(empty, start.prog.pieces, Empty)
    requires t == PeerTurns(start, start.prog.pieces, fields, now, down, empty, peers[..|peers| - 1])
    requires shares == SharesFor(start, fields, down, empty, peers[..|peers| - 1])
    requires Asking(start, t, down) && Shared(start, t, peers[..|peers| - 1], down, empty, shares)
    ensures Shared(start, PeerTurns(start, start.prog.pieces, fields, now, down, empty, peers), peers, down, empty,
                   SharesFor(start, fields, down, empty, peers))
  {
    var before, last := peers[..|peers| - 1], peers[|peers| - 1];
    LastShare(start, fields, down, empty, peers);
    LastTurn(start, fields, now, down, empty, peers);
    SplitLast(peers);
    hide *;
    SharedStep(start, t, fields, now, down, empty, before, shares, last);
  }

  lemma {:induction false} TurnsShareOut(start: Turn, fields: map<PeerId, Bitfield>, now: int,
                                         down: seq<nat>, empty: seq<nat>, peers: seq<PeerId>)
    requires Asking(start, start, down) && start.batches == []
    requires IsOrder(down, start.prog.pieces, Downloading) && IsOrder(empty, start.prog.pieces, Empty)
    ensures Shared(start, PeerTurns(start, start.prog.pieces, fields, now, down, empty, peers), peers, down, empty,
                   SharesFor(start, fields, down, empty, peers))
  {
    if |peers| == 0 {
      NothingShared(start, down, empty);
    } else {
      assert OrderIn(down, start.prog.pieces) && OrderIn(empty, start.prog.pieces);
      hide *;
      var before := peers[..|peers| - 1];
      AskingTurns(start, fields, now, down, empty, before);
      TurnsShareOut(start, fields, now, down, empty, before);
      LastShared(start, fields, now, down, empty, peers,
                 PeerTurns(start, start.prog.pieces, fields, now, down, empty, before),
                 SharesFor(start, fields, down, empty, before));
    }
  }

  /** Known before the call: it keeps statuses and requests in agreement exactly when no block of an unbegun
      piece falls into the shares of two peers. */
  lemma AgreesBeforehand(prog: Progress, c: Chooser, now: int, peers: seq<PeerId>, down: seq<nat>, empty: seq<nat>)
    requires Laid(prog) && Agree(c.active, prog.pieces)
    requires ValidOrders(AfterTimeouts(prog, c, now).prog.pieces, c.rarity, down, empty)
    ensures |AfterTimeouts(prog, c, now).prog.pieces| == |prog.pieces|
    ensures var t := Chosen(prog, c, now, peers, down, empty);
      Agree(t.active, t.prog.pieces)
      <==> UnbegunApart(SharesFor(AfterTimeouts(prog, c, now), c.bitfields, down, empty, peers))
  {
    var start := AfterTimeouts(prog, c, now);
    AskingStart(prog, c, now, down);
    ChooseAgrees(prog, c, now, peers, down, empty);
    TurnsShareOut(start, c.bitfields, now, down, empty, peers);
  }

  // ----- peers listed once, and peers that share no unbegun piece

  lemma {:induction false} SharesOfNobody(shares: seq<Share>, peers: seq<PeerId>, p: PeerId)
    requires |shares| == |peers| && p !in peers
    ensures SharesOf(shares, peers, p) == 0
  {
    if |shares| > 0 {
      SharesOfNobody(shares[..|shares| - 1], peers[..|peers| - 1], p);
    }
  }

  /** Each share depends on the peers before it only. */
  lemma {:induction false} ShareAt(start: Turn, fields: map<PeerId, Bitfield>, down: seq<nat>, empty: seq<nat>,
                                   peers: seq<PeerId>, k: nat)
    requires OrderIn(down, start.prog.pieces) && OrderIn(empty, start.prog.pieces) && k < |peers|
    ensures SharesFor(start, fields, down, empty, peers)[k]
         == NextShare(start, fields, down, empty, SharesFor(start, fields, down, empty, peers[..k]), peers[..k], peers[k])
  {
    hide NextShare, OrderIn;
    var n := |peers| - 1;
    LastShare(start, fields, down, empty, peers);
    if k < n {
      hide SharesFor;
      ShareAt(start, fields, down, empty, peers[..n], k);
      assert peers[..n][..k] == peers[..k];
    }
  }

  lemma NotBefore(peers: seq<PeerId>, k: nat)
    requires Distinct(peers) && k < |peers|
    ensures peers[k] !in peers[..k]
  {
  }

  lemma NothingAskedBefore(start: Turn, peer: PeerId)
    ensures SlotsLeft(start, peer, 0) == Slots(start, peer)
  {
  }

  /** With different peers each share of unbegun pieces is a prefix of what the peer has to offer, as long as the
      slots its share of the started pieces leaves. */
  lemma UnbegunShareOf(start: Turn, fields: map<PeerId, Bitfield>, down: seq<nat>, empty: seq<nat>, peers: seq<PeerId>,
                       k: nat)
    requires OrderIn(down, start.prog.pieces) && OrderIn(empty, start.prog.pieces)
    requires Distinct(peers) && k < |peers|
    ensures var share := SharesFor(start, fields, down, empty, peers)[k];
      && |share.started| <= Slots(start, peers[k])
      && share.unbegun == Take(Candidates(start.prog.pieces, empty, FieldOf(fields, peers[k])),
                             Slots(start, peers[k]) - |share.started|)
  {
    hide SharesFor, Candidates, SharesOf, SlotsLeft, Slots, OrderIn;
    ShareAt(start, fields, down, empty, peers, k);
    NotBefore(peers, k);
    SharesOfNobody(SharesFor(start, fields, down, empty, peers[..k]), peers[..k], peers[k]);
    NothingAskedBefore(start, peers[k]);
  }

  /** No Empty piece is held by two of the peers. */
  ghost predicate NoSharedEmptyPiece(pieces: seq<PieceProgress>, fields: map<PeerId, Bitfield>, peers: seq<PeerId>) {
    forall a, b, i | 0 <= a < b < |peers| && 0 <= i < |pieces| && pieces[i].status == Empty
                     && HasBit(FieldOf(fields, peers[a]), i) :: !HasBit(FieldOf(fields, peers[b]), i)
  }

  lemma UnbegunBelongs(start: Turn, fields: map<PeerId, Bitfield>, down: seq<nat>, empty: seq<nat>, peers: seq<PeerId>,
                     k: nat, b: BlockId)
    requires OrderIn(down, start.prog.pieces) && OrderIn(empty, start.prog.pieces) && k < |peers|
    requires b in SharesFor(start, fields, down, empty, peers)[k].unbegun
    ensures b.0 in empty && HasBit(FieldOf(fields, peers[k]), b.0)
  {
    ShareAt(start, fields, down, empty, peers, k);
    var before := SharesFor(start, fields, down, empty, peers[..k]);
    ShareWithin(start, FieldOf(fields, peers[k]), down, empty, StartedIn(before),
                SlotsLeft(start, peers[k], SharesOf(before, peers[..k], peers[k])));
    hide ShareOf, SharesFor, SlotsLeft, StartedIn, SharesOf;
  }

  /** Peers without a common unbegun piece always keep the agreement. */
  lemma SeparatePeersApart(start: Turn, fields: map<PeerId, Bitfield>, down: seq<nat>, empty: seq<nat>, peers: seq<PeerId>)
    requires OrderIn(down, start.prog.pieces) && IsOrder(empty, start.prog.pieces, Empty)
    requires NoSharedEmptyPiece(start.prog.pieces, fields, peers)
    ensures UnbegunApart(SharesFor(start, fields, down, empty, peers))
  {
    var shares := SharesFor(start, fields, down, empty, peers);
    forall k: int, l: int, b: BlockId | 0 <= k < l < |shares| && b in shares[k].unbegun
      ensures b !in shares[l].unbegun
    {
      UnbegunBelongs(start, fields, down, empty, peers, k, b);
      assert start.prog.pieces[b.0].status == Empty;
      assert !HasBit(FieldOf(fields, peers[l]), b.0);
      if b in shares[l].unbegun {
        UnbegunBelongs(start, fields, down, empty, peers, l, b);
      }
    }
  }
}
