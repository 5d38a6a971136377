// The incrementally kept rarity counters against a count from scratch.

module RarityIndex {
  import opened DownloadProgress
  import opened Selection
  import opened Engine
  import opened DownloadRuns
  import opened VisitingOrders

  /** Each counter is the number of peers that hold the piece, modulo 256. */
  ghost predicate RarityOk(c: Chooser) {
    && |c.rarity| == c.pieceCount
    && forall i | 0 <= i < c.pieceCount :: c.rarity[i] == |Holders(c.bitfields, i)| % 256
  }

  /** Replacing one peer's bitfield moves the number of holders by the difference of its bit. */
  lemma HoldersAfterUpdate(fields: map<PeerId, Bitfield>, peer: PeerId, field: Bitfield, i: nat)
    ensures |Holders(fields[peer := field], i)|
            == |Holders(fields, i)| - (if peer in fields then Bit(fields[peer], i) else 0) + Bit(field, i)
  {
    HoldersAfterRemoval(fields, peer, i);
    var rest := Holders(fields - {peer}, i);
    assert peer !in rest;
    if HasBit(field, i) {
      assert Holders(fields[peer := field], i) == rest + {peer};
    } else {
      assert Holders(fields[peer := field], i) == rest;
    }
  }

  lemma HoldersAfterRemoval(fields: map<PeerId, Bitfield>, peer: PeerId, i: nat)
    ensures |Holders(fields - {peer}, i)| == |Holders(fields, i)| - if peer in fields then Bit(fields[peer], i) else 0
  {
    var rest := Holders(fields - {peer}, i);
    if peer in fields && HasBit(fields[peer], i) {
      assert Holders(fields, i) == rest + {peer};
    } else {
      assert Holders(fields, i) == rest;
    }
  }

  lemma WithoutRarityAt(c: Chooser, peer: PeerId, i: nat)
    requires RarityOk(c) && i < c.pieceCount
    ensures |WithoutRarity(c, peer)| == c.pieceCount
    ensures WithoutRarity(c, peer)[i]
      == (|Holders(c.bitfields, i)| - if peer in c.bitfields then Bit(c.bitfields[peer], i) else 0) % 256
  {
    var n := |Holders(c.bitfields, i)|;
    hide Holders, HasBit;
    if peer in c.bitfields {
      var gone := Bit(c.bitfields[peer], i);
      Mod256(n, 256 - gone);
      Mod256(n - gone, 0);
    }
  }

  lemma RarityAfterBitfield(c: Chooser, peer: PeerId, field: Bitfield)
    requires RarityOk(c)
    ensures RarityOk(AfterBitfield(c, peer, field))
  {
    forall i | 0 <= i < c.pieceCount
      ensures AfterBitfield(c, peer, field).rarity[i] == |Holders(c.bitfields[peer := field], i)| % 256
    {
      HoldersAfterUpdate(c.bitfields, peer, field, i);
      var n, gone := |Holders(c.bitfields, i)|, if peer in c.bitfields then Bit(c.bitfields[peer], i) else 0;
      hide Holders, HasBit;
      WithoutRarityAt(c, peer, i);
      Mod256(n - gone, Bit(field, i));
    }
  }

  lemma RarityAfterRemovePeer(c: Chooser, peer: PeerId)
    requires RarityOk(c)
    ensures RarityOk(AfterRemovePeer(c, peer))
  {
    hide Bit, Holders;
    forall i | 0 <= i < c.pieceCount
      ensures AfterRemovePeer(c, peer).rarity[i] == |Holders(c.bitfields - {peer}, i)| % 256
    {
      HoldersAfterRemoval(c.bitfields, peer, i);
      WithoutRarityAt(c, peer, i);
    }
  }

  lemma RarityAfterOwnership(c: Chooser, peer: PeerId, piece: nat, has: bool)
    requires RarityOk(c) && peer in c.bitfields && piece < c.pieceCount && piece / 8 < |c.bitfields[peer]|
    ensures RarityOk(AfterOwnership(c, peer, piece, has))
  {
    var field := WithBit(c.bitfields[peer], piece, has);
    if HasBit(c.bitfields[peer], piece) != has {
      forall i | 0 <= i < c.pieceCount
        ensures AfterOwnership(c, peer, piece, has).rarity[i] == |Holders(c.bitfields[peer := field], i)| % 256
      {
        HoldersAfterUpdate(c.bitfields, peer, field, i);
        WithBitAt(c.bitfields[peer], piece, has, i);
      }
    }
  }

  predicate NothingClaimed(c: Chooser, peer: PeerId) {
    peer in c.bitfields ==> forall i | 0 <= i < c.pieceCount :: !HasBit(c.bitfields[peer], i)
  }

  lemma EmptyBitfieldHasNothing(n: nat, i: nat)
    ensures !HasBit(EmptyBitfield(n), i)
  {
  }

  /** addPeer forgets a known peer's pieces without counting them out: the counters stay right
      exactly for peers that claimed nothing. */
  lemma RarityAfterAddPeer(c: Chooser, peer: PeerId)
    requires RarityOk(c)
    ensures RarityOk(AfterAddPeer(c, peer)) <==> NothingClaimed(c, peer)
  {
    var c' := AfterAddPeer(c, peer);
    forall i | 0 <= i < c.pieceCount
      ensures c'.rarity[i] == |Holders(c'.bitfields, i)| % 256
              <==> !(peer in c.bitfields && HasBit(c.bitfields[peer], i))
    {
      HoldersAfterUpdate(c.bitfields, peer, EmptyBitfield(c.pieceCount), i);
      EmptyBitfieldHasNothing(c.pieceCount, i);
    }
  }

  ghost predicate RarityKept(s: State) {
    RarityOk(s.chooser)
  }

  ghost predicate NewPeersOnly(s: State, e: Event) {
    e.AddPeer? ==> NothingClaimed(s.chooser, e.peer)
  }

  lemma RarityStep(env: Env, s: State, e: Event)
    requires WellFormed(s) && Enabled(s, e) && RarityOk(s.chooser)
    ensures RarityKept(Step(env, s, e)) <==> NewPeersOnly(s, e)
  {
    match e {
      case Choose(_, _, _, _) =>
        hide Chosen, AfterTimeouts;
      case Deliver(_, _, _, _, _) =>
      case Recheck =>
      case AddPeer(p) => RarityAfterAddPeer(s.chooser, p);
      case RemovePeer(p) => RarityAfterRemovePeer(s.chooser, p);
      case NewBitfield(p, field) => RarityAfterBitfield(s.chooser, p, field);
      case Ownership(p, i, has) => RarityAfterOwnership(s.chooser, p, i, has);
    }
  }

  /** Over any run: the counters are right in every state exactly when no known holder is registered again. */
  lemma {:induction false} RarityRun(env: Env, s: State, events: seq<Event>)
    requires WellFormed(s) && IsRun(env, s, events) && RarityOk(s.chooser)
    ensures Always(env, s, events, RarityKept) <==> Throughout(env, s, events, NewPeersOnly)
    decreases |events|
  {
    if |events| > 0 {
      var s' := Step(env, s, events[0]);
      StepKeepsShape(env, s, events[0]);
      RarityStep(env, s, events[0]);
      hide NewPeersOnly, RarityOk;
      if RarityKept(s') {
        RarityRun(env, s', events[1..]);
      }
    }
  }

  // ----- what each call changes, besides the counters

  /** A peer that is added has a window of ten, no requests, no response times and no piece. */
  lemma PeerAdded(c: Chooser, peer: PeerId, i: nat)
    ensures var c' := AfterAddPeer(c, peer);
      && peer in c'.windows && c'.windows[peer] == 10
      && peer in c'.active && c'.active[peer] == [] && peer in c'.times && c'.times[peer] == []
      && peer in c'.bitfields && !HasBit(c'.bitfields[peer], i)
      && c'.rarity == c.rarity
  {
    EmptyBitfieldHasNothing(c.pieceCount, i);
  }

  /** Of a peer that is removed only the response times are left. */
  lemma PeerRemoved(c: Chooser, peer: PeerId)
    ensures var c' := AfterRemovePeer(c, peer);
      peer !in c'.windows && peer !in c'.active && peer !in c'.bitfields && c'.times == c.times
  {
  }

  lemma OthersStay(c: Chooser, peer: PeerId, p: PeerId)
    requires p != peer
    ensures SameFor(c, AfterAddPeer(c, peer), p) && SameFor(c, AfterRemovePeer(c, peer), p)
    ensures forall field :: SameFor(c, AfterBitfield(c, peer, field), p)
  {
  }

  ghost predicate SameFor(c: Chooser, c': Chooser, p: PeerId) {
    && (p in c'.windows <==> p in c.windows) && (p in c.windows ==> c'.windows[p] == c.windows[p])
    && (p in c'.active <==> p in c.active) && (p in c.active ==> c'.active[p] == c.active[p])
    && (p in c'.times <==> p in c.times) && (p in c.times ==> c'.times[p] == c.times[p])
    && (p in c'.bitfields <==> p in c.bitfields) && (p in c.bitfields ==> c'.bitfields[p] == c.bitfields[p])
  }

  /** A message about one piece changes what is believed of that piece, and nothing else. */
  lemma OwnershipSet(c: Chooser, peer: PeerId, piece: nat, has: bool, i: nat)
    requires peer in c.bitfields && piece < |c.rarity| && piece / 8 < |c.bitfields[peer]|
    ensures var c' := AfterOwnership(c, peer, piece, has);
      && c'.bitfields.Keys == c.bitfields.Keys
      && HasBit(c'.bitfields[peer], i) == (if i == piece then has else HasBit(c.bitfields[peer], i))
      && c'.windows == c.windows && c'.active == c.active && c'.times == c.times
      && forall p | p in c.bitfields && p != peer :: c'.bitfields[p] == c.bitfields[p]
  {
    WithBitAt(c.bitfields[peer], piece, has, i);
  }

  // ----- the order of the empty pieces

  /** The comments call the order rarest first; it is that only when all empty pieces have equal counters. */
  lemma RarestFirstExactly(pieces: seq<PieceProgress>, rarity: seq<nat>, down: seq<nat>, empty: seq<nat>)
    requires ValidOrders(pieces, rarity, down, empty)
    ensures (forall k, l | 0 <= k < l < |empty| :: rarity[empty[k]] <= rarity[empty[l]])
            <==> forall i, j | 0 <= i < |pieces| && 0 <= j < |pieces| && pieces[i].status == pieces[j].status == Empty ::
                   rarity[i] == rarity[j]
  {
    if forall k, l | 0 <= k < l < |empty| :: rarity[empty[k]] <= rarity[empty[l]] {
      forall i, j | 0 <= i < |pieces| && 0 <= j < |pieces| && pieces[i].status == pieces[j].status == Empty
        ensures rarity[i] == rarity[j]
      {
        var k :| 0 <= k < |empty| && empty[k] == i;
        var l :| 0 <= l < |empty| && empty[l] == j;
        assert k == l || k < l || l < k;
      }
    }
    forall k | 0 <= k < |empty|
      ensures empty[k] < |pieces| && pieces[empty[k]].status == Empty
    {
    }
  }

  function HoldersOf(c: Chooser, i: nat): nat {
    |Holders(c.bitfields, i)|
  }

  ghost predicate MostHeldAlong(c: Chooser, order: seq<nat>) {
    forall k, l | 0 <= k < l < |order| :: HoldersOf(c, order[k]) >= HoldersOf(c, order[l])
  }

  /** Of two empty pieces with different numbers of holders the counters tell the one with more. */
  ghost predicate CountersTell(c: Chooser, pieces: seq<PieceProgress>) {
    forall i, j | 0 <= i < |pieces| && 0 <= j < |pieces| && pieces[i].status == pieces[j].status == Empty
                  && HoldersOf(c, i) < HoldersOf(c, j) ::
      HoldersOf(c, i) % 256 < HoldersOf(c, j) % 256
  }

  /** Nor does it put the pieces held by most peers first, since the counters have eight bits: the call is sure to do
      so exactly when the holders of its empty pieces compare as they do modulo 256. */
  lemma MostHeldFirst(c: Chooser, pieces: seq<PieceProgress>)
    requires RarityOk(c) && c.pieceCount == |pieces|
    ensures (forall down, empty | ValidOrders(pieces, c.rarity, down, empty) :: MostHeldAlong(c, empty))
            <==> CountersTell(c, pieces)
  {
    hide ValidOrders, MostHeldAlong, CountersTell, HoldersOf;
    if CountersTell(c, pieces) {
      forall down, empty | ValidOrders(pieces, c.rarity, down, empty)
        ensures MostHeldAlong(c, empty)
      {
        ToldApart(c, pieces, down, empty);
      }
    }
    if forall down, empty | ValidOrders(pieces, c.rarity, down, empty) :: MostHeldAlong(c, empty) {
      AlwaysTold(c, pieces);
    }
  }

  lemma ToldApart(c: Chooser, pieces: seq<PieceProgress>, down: seq<nat>, empty: seq<nat>)
    requires RarityOk(c) && c.pieceCount == |pieces| && CountersTell(c, pieces)
    requires ValidOrders(pieces, c.rarity, down, empty)
    ensures MostHeldAlong(c, empty)
  {
    forall k, l | 0 <= k < l < |empty|
      ensures HoldersOf(c, empty[k]) >= HoldersOf(c, empty[l])
    {
      assert c.rarity[empty[k]] >= c.rarity[empty[l]];
    }
  }

  /** Two pieces that the counters do not tell apart can be visited either way. */
  lemma AlwaysTold(c: Chooser, pieces: seq<PieceProgress>)
    requires RarityOk(c) && c.pieceCount == |pieces|
    requires forall down, empty | ValidOrders(pieces, c.rarity, down, empty) :: MostHeldAlong(c, empty)
    ensures CountersTell(c, pieces)
  {
    forall i, j | 0 <= i < |pieces| && 0 <= j < |pieces| && pieces[i].status == pieces[j].status == Empty
                  && HoldersOf(c, i) < HoldersOf(c, j)
      ensures HoldersOf(c, i) % 256 < HoldersOf(c, j) % 256
    {
      var down, empty := OrdersExist(pieces, c.rarity, i);
      assert MostHeldAlong(c, empty);
      var k :| 0 <= k < |empty| && empty[k] == i;
      var l :| 0 <= l < |empty| && empty[l] == j;
      assert l < k;
    }
  }

  lemma HoldersAmongPeers(c: Chooser, i: nat)
    ensures HoldersOf(c, i) <= |c.bitfields|
  {
    SubsetSize(Holders(c.bitfields, i), c.bitfields.Keys);
  }

  lemma {:induction false} SubsetSize<T>(small: set<T>, large: set<T>)
    requires small <= large
    ensures |small| <= |large|
  {
    if small != {} {
      var x :| x in small;
      SubsetSize(small - {x}, large - {x});
    }
  }

  /** So it does with at most 255 peers. */
  lemma FewPeersMostHeldFirst(c: Chooser, pieces: seq<PieceProgress>, down: seq<nat>, empty: seq<nat>)
    requires RarityOk(c) && c.pieceCount == |pieces| && ValidOrders(pieces, c.rarity, down, empty)
    requires |c.bitfields| < 256
    ensures MostHeldAlong(c, empty)
  {
    forall i: nat
      ensures HoldersOf(c, i) % 256 == HoldersOf(c, i)
    {
      HoldersAmongPeers(c, i);
    }
    assert CountersTell(c, pieces);
    MostHeldFirst(c, pieces);
  }

  /** From 256 holders on they need not: a piece that only one peer has comes before a piece that 256 peers have. */
  lemma HoldersWrapAround(c: Chooser, pieces: seq<PieceProgress>, down: seq<nat>, empty: seq<nat>, i: nat, j: nat)
    requires RarityOk(c) && c.pieceCount == |pieces| && ValidOrders(pieces, c.rarity, down, empty)
    requires i < |pieces| && j < |pieces| && pieces[i].status == pieces[j].status == Empty
    requires HoldersOf(c, i) == 256 && HoldersOf(c, j) == 1
    ensures exists k, l | 0 <= k < l < |empty| :: empty[k] == j && empty[l] == i
  {
    var k :| 0 <= k < |empty| && empty[k] == j;
    var l :| 0 <= l < |empty| && empty[l] == i;
    assert c.rarity[i] == 0 && c.rarity[j] == 1;
  }
}
