// What RarityTrackerChooser does to its state, call by call, as functions of the old state.

module Selection {
  import opened Bytes
  import opened FileSplitter
  import opened Sorting
  import opened Coalescing
  import opened DownloadProgress

  // Peers are only ever compared, so any numbering of them will do.
  type PeerId = nat

  const MIN_WINDOW: nat := 2
  const MAX_WINDOW: nat := 40
  const INITIAL_WINDOW: nat := 10
  const REQUEST_TIMEOUT_MS: int := 5000
  const MAXIMUM_REQUESTS: nat := 12
  const MINIMUM_REQUESTS: nat := 5

  datatype RequestTracker = RequestTracker(requestTime: int, pieceIndex: nat, blockIndex: nat, received: bool)

  // std::bitset<8>; bit k of the number is element k.
  type Bitset = b: seq<bool> | |b| == 8 witness seq(8, _ => false)
  type Bitfield = seq<Bitset>

  datatype Chooser = Chooser(
    pieceCount: nat,
    active: map<PeerId, seq<RequestTracker>>,
    windows: map<PeerId, nat>,
    times: map<PeerId, seq<int>>,
    rarity: seq<nat>,
    bitfields: map<PeerId, Bitfield>)

  // ----- bitfields and rarity

  predicate HasBit(field: Bitfield, i: nat) {
    i / 8 < |field| && field[i / 8][i % 8]
  }

  function WithBit(field: Bitfield, i: nat, value: bool): Bitfield
    requires i / 8 < |field|
  {
    field[i / 8 := field[i / 8][i % 8 := value]]
  }

  lemma WithBitAt(field: Bitfield, i: nat, value: bool, j: nat)
    requires i / 8 < |field|
    ensures HasBit(WithBit(field, i, value), j) == if i == j then value else HasBit(field, j)
  {
  }

  function Bit(field: Bitfield, i: nat): nat {
    if HasBit(field, i) then 1 else 0
  }

  // The counters are 8 bits wide.
  function Added(rarity: seq<nat>, field: Bitfield): seq<nat> {
    seq(|rarity|, i requires 0 <= i < |rarity| => (rarity[i] + Bit(field, i)) % 256)
  }

  function Removed(rarity: seq<nat>, field: Bitfield): seq<nat> {
    seq(|rarity|, i requires 0 <= i < |rarity| => (rarity[i] + 256 - Bit(field, i)) % 256)
  }

  /** The peers whose bitfield has bit i. */
  function Holders(fields: map<PeerId, Bitfield>, i: nat): set<PeerId> {
    set p | p in fields && HasBit(fields[p], i)
  }

  lemma Mod256(x: int, y: int)
    ensures (x % 256 + y) % 256 == (x + y) % 256
    ensures (x + 256) % 256 == x % 256
  {
  }

  function WithoutRarity(c: Chooser, peer: PeerId): seq<nat> {
    if peer in c.bitfields then Removed(c.rarity, c.bitfields[peer]) else c.rarity
  }

  function AfterBitfield(c: Chooser, peer: PeerId, field: Bitfield): Chooser {
    c.(rarity := Added(WithoutRarity(c, peer), field), bitfields := c.bitfields[peer := field])
  }

  function EmptyBitfield(pieceCount: nat): Bitfield {
    seq(pieceCount / 8 + 1, _ => [false, false, false, false, false, false, false, false])
  }

  /** addPeer overwrites whatever was known of the peer, but leaves the counters alone. */
  function AfterAddPeer(c: Chooser, peer: PeerId): Chooser {
    c.(bitfields := c.bitfields[peer := EmptyBitfield(c.pieceCount)],
       active := c.active[peer := []],
       windows := c.windows[peer := INITIAL_WINDOW],
       times := c.times[peer := []])
  }

  function AfterRemovePeer(c: Chooser, peer: PeerId): Chooser {
    c.(rarity := WithoutRarity(c, peer),
       bitfields := c.bitfields - {peer},
       active := c.active - {peer},
       windows := c.windows - {peer})
  }

  function AfterOwnership(c: Chooser, peer: PeerId, piece: nat, has: bool): Chooser
    requires peer in c.bitfields && piece < |c.rarity| && piece / 8 < |c.bitfields[peer]|
  {
    if HasBit(c.bitfields[peer], piece) == has then c
    else c.(rarity := c.rarity[piece := (c.rarity[piece] + if has then 1 else 255) % 256],
            bitfields := c.bitfields[peer := WithBit(c.bitfields[peer], piece, has)])
  }

  // ----- time

  // Clock readings are nanoseconds; duration_cast truncates toward zero.
  function Millis(nanos: int): int {
    if nanos >= 0 then nanos / 1_000_000 else -((-nanos) / 1_000_000)
  }

  predicate TimedOut(r: RequestTracker, now: int) {
    !r.received && Millis(now - r.requestTime) > REQUEST_TIMEOUT_MS
  }

  function BlockOfTracker(r: RequestTracker): BlockId {
    (r.pieceIndex, r.blockIndex)
  }

  // ----- timeouts

  function Kept(requests: seq<RequestTracker>, now: int): seq<RequestTracker> {
    if |requests| == 0 then []
    else
      var rest := Kept(requests[..|requests| - 1], now);
      var last := requests[|requests| - 1];
      if last.received || TimedOut(last, now) then rest else rest + [last]
  }

  ghost function ExpiredIn(requests: seq<RequestTracker>, now: int): set<BlockId> {
    set k | 0 <= k < |requests| && TimedOut(requests[k], now) :: BlockOfTracker(requests[k])
  }

  ghost function ExpiredAt(active: map<PeerId, seq<RequestTracker>>, peers: set<PeerId>, now: int): set<BlockId> {
    set p, b | p in peers && p in active && b in ExpiredIn(active[p], now) :: b
  }

  function Purged(active: map<PeerId, seq<RequestTracker>>, now: int): map<PeerId, seq<RequestTracker>> {
    map p | p in active :: Kept(active[p], now)
  }

  // ----- giving many blocks one status

  predicate Touched(i: nat, n: nat, blocks: set<BlockId>) {
    exists j: nat | j < n :: (i, j) in blocks
  }

  /** Piece number i after updateBlockStatus on each of its blocks in the set. */
  function RepaintPiece(p: PieceProgress, i: nat, blocks: set<BlockId>, status: DownloadStatus): PieceProgress {
    p.(blocks := seq(|p.blocks|, j requires 0 <= j < |p.blocks| =>
                   if (i, j) in blocks then p.blocks[j].(status := status) else p.blocks[j]),
       status := if status == Downloading && Touched(i, |p.blocks|, blocks) then Downloading else p.status)
  }

  function Repaint(pieces: seq<PieceProgress>, blocks: set<BlockId>, status: DownloadStatus): seq<PieceProgress> {
    seq(|pieces|, i requires 0 <= i < |pieces| => RepaintPiece(pieces[i], i, blocks, status))
  }

  function WithBlocks(p: Progress, blocks: set<BlockId>, status: DownloadStatus): Progress {
    p.(pieces := Repaint(p.pieces, blocks, status),
       completed := p.completed || (blocks != {} && ProgressIsOne(p)))
  }

  lemma RepaintPieceTwice(p: PieceProgress, i: nat, s: set<BlockId>, t: set<BlockId>, status: DownloadStatus)
    ensures RepaintPiece(RepaintPiece(p, i, s, status), i, t, status) == RepaintPiece(p, i, s + t, status)
  {
    var q := RepaintPiece(RepaintPiece(p, i, s, status), i, t, status);
    var r := RepaintPiece(p, i, s + t, status);
    assert Touched(i, |p.blocks|, s + t) <==> Touched(i, |p.blocks|, s) || Touched(i, |p.blocks|, t) by {
      assert forall j: nat :: (i, j) in s + t <==> (i, j) in s || (i, j) in t;
    }
    assert q.blocks == r.blocks;
  }

  lemma RepaintPieceOne(p: PieceProgress, i: nat, s: set<BlockId>, j: nat)
    requires j < |p.blocks|
    ensures PieceWithBlockStatus(RepaintPiece(p, i, s, Downloading), j, Downloading)
            == RepaintPiece(p, i, s + {(i, j)}, Downloading)
  {
    var q := PieceWithBlockStatus(RepaintPiece(p, i, s, Downloading), j, Downloading);
    var r := RepaintPiece(p, i, s + {(i, j)}, Downloading);
    assert (i, j) in s + {(i, j)};
    assert q.blocks == r.blocks;
  }

  lemma RepaintElsewhere(p: PieceProgress, i: nat, s: set<BlockId>, status: DownloadStatus)
    requires forall b | b in s :: b.0 != i
    ensures RepaintPiece(p, i, s, status) == p
  {
    assert RepaintPiece(p, i, s, status).blocks == p.blocks;
  }

  lemma WithBlocksTwice(p: Progress, s: set<BlockId>, t: set<BlockId>, status: DownloadStatus)
    ensures WithBlocks(WithBlocks(p, s, status), t, status) == WithBlocks(p, s + t, status)
  {
    forall i | 0 <= i < |p.pieces|
      ensures Repaint(Repaint(p.pieces, s, status), t, status)[i] == Repaint(p.pieces, s + t, status)[i]
    {
      RepaintPieceTwice(p.pieces[i], i, s, t, status);
    }
    assert Repaint(Repaint(p.pieces, s, status), t, status) == Repaint(p.pieces, s + t, status);
  }

  lemma WithNoBlocks(p: Progress, status: DownloadStatus)
    ensures WithBlocks(p, {}, status) == p
  {
    forall i | 0 <= i < |p.pieces|
      ensures Repaint(p.pieces, {}, status)[i] == p.pieces[i]
    {
      assert RepaintPiece(p.pieces[i], i, {}, status).blocks == p.pieces[i].blocks;
    }
    assert Repaint(p.pieces, {}, status) == p.pieces;
  }

  lemma WithOneBlock(p: Progress, i: nat, j: nat, status: DownloadStatus)
    requires status == Empty || status == Downloading
    requires i < |p.pieces| && j < |p.pieces[i].blocks|
    ensures WithBlocks(p, {(i, j)}, status) == AfterBlockStatus(p, i, j, status)
  {
    var q := WithBlocks(p, {(i, j)}, status);
    var r := AfterBlockStatus(p, i, j, status);
    forall k | 0 <= k < |p.pieces|
      ensures q.pieces[k] == r.pieces[k]
    {
      assert q.pieces[k].blocks == r.pieces[k].blocks;
      assert Touched(i, |p.pieces[i].blocks|, {(i, j)}) by {
        assert (i, j) in {(i, j)};
      }
    }
    assert q.pieces == r.pieces;
  }

  // ----- choosing blocks for one peer

  /** The blocks of a copy of piece i that its own statuses call Empty. */
  function EmptyBlocks(p: PieceProgress, i: nat): seq<BlockId> {
    var empty := BlocksStatused(p.blocks, Empty);
    seq(|empty|, k requires 0 <= k < |empty| => (i, empty[k].offset / BLOCK_SIZE))
  }

  /** Everything a peer with this bitfield could be asked for, piece after piece. */
  function Candidates(pieces: seq<PieceProgress>, order: seq<nat>, field: Bitfield): seq<BlockId>
    requires forall k | 0 <= k < |order| :: order[k] < |pieces|
  {
    if |order| == 0 then []
    else
      var i := order[|order| - 1];
      Candidates(pieces, order[..|order| - 1], field) + (if HasBit(field, i) then EmptyBlocks(pieces[i], i) else [])
  }

  function Take<T>(xs: seq<T>, n: nat): seq<T> {
    if |xs| <= n then xs else xs[..n]
  }

  lemma TakeConcat<T>(xs: seq<T>, ys: seq<T>, n: nat)
    ensures Take(xs + ys, n) == Take(xs, n) + Take(ys, n - |Take(xs, n)|)
  {
  }

  function ToSet(picks: seq<BlockId>): (blocks: set<BlockId>)
    ensures forall b :: b in blocks <==> b in picks
  {
    set b | b in picks
  }

  function Track(picks: seq<BlockId>, now: int): seq<RequestTracker> {
    seq(|picks|, k requires 0 <= k < |picks| => RequestTracker(now, picks[k].0, picks[k].1, false))
  }

  /** The requests in flight after a peer has been asked for more. */
  function Appended(active: map<PeerId, seq<RequestTracker>>, peer: PeerId, picks: seq<BlockId>, now: int):
    map<PeerId, seq<RequestTracker>>
  {
    active[peer := RequestsOf(active, peer) + Track(picks, now)]
  }

  lemma AppendedNothing(active: map<PeerId, seq<RequestTracker>>, peer: PeerId, now: int)
    requires peer in active
    ensures Appended(active, peer, [], now) == active
  {
    assert active[peer] + Track([], now) == active[peer];
  }

  lemma AppendedTwice(active: map<PeerId, seq<RequestTracker>>, peer: PeerId, xs: seq<BlockId>, ys: seq<BlockId>, now: int)
    ensures Appended(Appended(active, peer, xs, now), peer, ys, now) == Appended(active, peer, xs + ys, now)
  {
    assert Track(xs + ys, now) == Track(xs, now) + Track(ys, now);
    assert RequestsOf(active, peer) + Track(xs + ys, now) == RequestsOf(active, peer) + Track(xs, now) + Track(ys, now);
  }

  datatype Batch = Batch(to: PeerId, picks: seq<BlockId>)

  /** The state while ChooseBlocks goes from peer to peer. */
  datatype Turn = Turn(
    prog: Progress,
    active: map<PeerId, seq<RequestTracker>>,
    windows: map<PeerId, nat>,
    batches: seq<Batch>)

  function WindowOf(windows: map<PeerId, nat>, peer: PeerId): nat {
    if peer in windows then windows[peer] else INITIAL_WINDOW
  }

  function RequestsOf(active: map<PeerId, seq<RequestTracker>>, peer: PeerId): seq<RequestTracker> {
    if peer in active then active[peer] else []
  }

  /** The free part of the window, computed in 16 unsigned bits. */
  function Slots(t: Turn, peer: PeerId): nat {
    (WindowOf(t.windows, peer) - |RequestsOf(t.active, peer)|) % 0x1_0000
  }

  predicate OrderIn(order: seq<nat>, pieces: seq<PieceProgress>) {
    forall k | 0 <= k < |order| :: order[k] < |pieces|
  }

  /** Started pieces are read as they are now, empty ones as they were before the first peer. */
  function Picks(t: Turn, snapshot: seq<PieceProgress>, field: Bitfield, down: seq<nat>, empty: seq<nat>,
                 slots: nat): seq<BlockId>
    requires OrderIn(down, t.prog.pieces) && OrderIn(empty, snapshot)
  {
    Take(Candidates(t.prog.pieces, down, field) + Candidates(snapshot, empty, field), slots)
  }

  function FieldOf(fields: map<PeerId, Bitfield>, peer: PeerId): Bitfield {
    if peer in fields then fields[peer] else []
  }

  function PeerTurn(t: Turn, snapshot: seq<PieceProgress>, fields: map<PeerId, Bitfield>, now: int,
                    down: seq<nat>, empty: seq<nat>, peer: PeerId): (t': Turn)
    requires OrderIn(down, t.prog.pieces) && OrderIn(empty, snapshot)
    ensures |t'.prog.pieces| == |t.prog.pieces|
  {
    var picks := Picks(t, snapshot, FieldOf(fields, peer), down, empty, Slots(t, peer));
    Turn(WithBlocks(t.prog, ToSet(picks), Downloading),
         Appended(t.active, peer, picks, now),
         t.windows[peer := WindowOf(t.windows, peer)],
         if picks == [] then t.batches else t.batches + [Batch(peer, picks)])
  }

  function PeerTurns(t: Turn, snapshot: seq<PieceProgress>, fields: map<PeerId, Bitfield>, now: int,
                     down: seq<nat>, empty: seq<nat>, peers: seq<PeerId>): (t': Turn)
    requires OrderIn(down, t.prog.pieces) && OrderIn(empty, snapshot)
    ensures |t'.prog.pieces| == |t.prog.pieces|
  {
    if |peers| == 0 then t
    else
      PeerTurn(PeerTurns(t, snapshot, fields, now, down, empty, peers[..|peers| - 1]),
               snapshot, fields, now, down, empty, peers[|peers| - 1])
  }

  lemma OneTurnOnly(t: Turn, snapshot: seq<PieceProgress>, fields: map<PeerId, Bitfield>, now: int,
                    down: seq<nat>, empty: seq<nat>, peer: PeerId)
    requires OrderIn(down, t.prog.pieces) && OrderIn(empty, snapshot)
    ensures PeerTurns(t, snapshot, fields, now, down, empty, [peer]) == PeerTurn(t, snapshot, fields, now, down, empty, peer)
  {
    assert [peer][..0] == [];
    assert PeerTurns(t, snapshot, fields, now, down, empty, [peer][..0]) == t;
  }

  /** hasPiece throws for a peer without a bitfield, once there is a piece to look at and room to ask for it. */
  predicate Throws(t: Turn, fields: map<PeerId, Bitfield>, down: seq<nat>, empty: seq<nat>, peer: PeerId) {
    peer !in fields && Slots(t, peer) > 0 && (down != [] || empty != [])
  }

  /** The number of peers that ChooseBlocks is done with before the first one it throws at. */
  function Finished(t: Turn, snapshot: seq<PieceProgress>, fields: map<PeerId, Bitfield>, now: int,
                    down: seq<nat>, empty: seq<nat>, peers: seq<PeerId>): (n: nat)
    requires OrderIn(down, t.prog.pieces) && OrderIn(empty, snapshot)
    ensures n <= |peers|
  {
    if |peers| == 0 then 0
    else
      var last := |peers| - 1;
      var n := Finished(t, snapshot, fields, now, down, empty, peers[..last]);
      var t' := PeerTurns(t, snapshot, fields, now, down, empty, peers[..last]);
      if n == last && !Throws(t', fields, down, empty, peers[last]) then |peers| else n
  }

  ghost function AfterTimeouts(prog: Progress, c: Chooser, now: int): Turn {
    Turn(WithBlocks(prog, ExpiredAt(c.active, c.active.Keys, now), Empty), Purged(c.active, now), c.windows, [])
  }

  /** The requests a turn adds: one for each block that is picked, sent now and not answered, behind the old ones. */
  lemma RequestsOfTurn(t: Turn, snapshot: seq<PieceProgress>, fields: map<PeerId, Bitfield>, now: int,
                       down: seq<nat>, empty: seq<nat>, peer: PeerId, k: nat)
    requires OrderIn(down, t.prog.pieces) && OrderIn(empty, snapshot)
    ensures var picks := Picks(t, snapshot, FieldOf(fields, peer), down, empty, Slots(t, peer));
      var before, after := RequestsOf(t.active, peer),
                           RequestsOf(PeerTurn(t, snapshot, fields, now, down, empty, peer).active, peer);
      && |after| == |before| + |picks| && after[..|before|] == before
      && (k < |picks| ==> var r := after[|before| + k];
            (r.pieceIndex, r.blockIndex) == picks[k] && r.requestTime == now && !r.received)
  {
    hide Picks, Slots, WithBlocks;
  }

  /** A turn touches no other peer's requests, and gives a peer without a window one of ten. */
  lemma OthersInTurn(t: Turn, snapshot: seq<PieceProgress>, fields: map<PeerId, Bitfield>, now: int,
                     down: seq<nat>, empty: seq<nat>, peer: PeerId, p: PeerId)
    requires OrderIn(down, t.prog.pieces) && OrderIn(empty, snapshot)
    ensures var t' := PeerTurn(t, snapshot, fields, now, down, empty, peer);
      && peer in t'.windows && t'.windows[peer] == (if peer in t.windows then t.windows[peer] else 10)
      && (p != peer ==>
            && (p in t'.active <==> p in t.active) && (p in t.active ==> t'.active[p] == t.active[p])
            && (p in t'.windows <==> p in t.windows) && (p in t.windows ==> t'.windows[p] == t.windows[p]))
  {
    hide Picks, Slots, WithBlocks;
  }

  /** A call for one peer throws exactly when the peer has no bitfield, its window has room, and there is a piece
      to look at. */
  lemma OnePeerThrows(t: Turn, snapshot: seq<PieceProgress>, fields: map<PeerId, Bitfield>, now: int,
                      down: seq<nat>, empty: seq<nat>, peer: PeerId)
    requires OrderIn(down, t.prog.pieces) && OrderIn(empty, snapshot)
    ensures Finished(t, snapshot, fields, now, down, empty, [peer]) == 1
      <==> peer in fields || Slots(t, peer) == 0 || (down == [] && empty == [])
  {
    hide Slots;
    assert [peer][..0] == [];
    assert PeerTurns(t, snapshot, fields, now, down, empty, [peer][..0]) == t;
    assert Finished(t, snapshot, fields, now, down, empty, [peer][..0]) == 0;
  }

  // ----- choosing blocks

  predicate IsOrder(order: seq<nat>, pieces: seq<PieceProgress>, status: DownloadStatus) {
    && Distinct(order)
    && OrderIn(order, pieces)
    && (forall k | 0 <= k < |order| :: pieces[order[k]].status == status)
    && forall i | 0 <= i < |pieces| && pieces[i].status == status :: i in order
  }

  /** Started pieces with most bytes first, empty pieces with the highest counters first. */
  ghost predicate ValidOrders(pieces: seq<PieceProgress>, rarity: seq<nat>, down: seq<nat>, empty: seq<nat>) {
    && |rarity| == |pieces|
    && IsOrder(down, pieces, Downloading)
    && IsOrder(empty, pieces, Empty)
    && (forall k, l | 0 <= k < l < |down| ::
          pieces[down[k]].bytesDownloaded >= pieces[down[l]].bytesDownloaded)
    && forall k, l | 0 <= k < l < |empty| :: rarity[empty[k]] >= rarity[empty[l]]
  }

  ghost function Chosen(prog: Progress, c: Chooser, now: int, peers: seq<PeerId>,
                        down: seq<nat>, empty: seq<nat>): Turn
    requires OrderIn(down, prog.pieces) && OrderIn(empty, prog.pieces)
  {
    var t := AfterTimeouts(prog, c, now);
    PeerTurns(t, t.prog.pieces, c.bitfields, now, down, empty, peers)
  }

  /** ChooseBlocks returns: it reaches no peer without a bitfield while there is something to ask for. */
  ghost predicate Returns(prog: Progress, c: Chooser, now: int, peers: seq<PeerId>, down: seq<nat>, empty: seq<nat>)
    requires OrderIn(down, prog.pieces) && OrderIn(empty, prog.pieces)
  {
    var t := AfterTimeouts(prog, c, now);
    Finished(t, t.prog.pieces, c.bitfields, now, down, empty, peers) == |peers|
  }

  /** The peers whose turn begins: all of them, or those up to the one at which the call throws. */
  ghost function Reached(prog: Progress, c: Chooser, now: int, peers: seq<PeerId>,
                         down: seq<nat>, empty: seq<nat>): seq<PeerId>
    requires OrderIn(down, prog.pieces) && OrderIn(empty, prog.pieces)
  {
    var t := AfterTimeouts(prog, c, now);
    peers[..Min(Finished(t, t.prog.pieces, c.bitfields, now, down, empty, peers) + 1, |peers|)]
  }

  lemma {:induction false} KnownPeersFinish(t: Turn, snapshot: seq<PieceProgress>, fields: map<PeerId, Bitfield>, now: int,
                                            down: seq<nat>, empty: seq<nat>, peers: seq<PeerId>)
    requires OrderIn(down, t.prog.pieces) && OrderIn(empty, snapshot)
    requires forall p | p in peers :: p in fields
    ensures Finished(t, snapshot, fields, now, down, empty, peers) == |peers|
  {
    if |peers| > 0 {
      KnownPeersFinish(t, snapshot, fields, now, down, empty, peers[..|peers| - 1]);
    }
  }

  /** A call for peers with bitfields never throws. */
  lemma KnownPeersReturn(prog: Progress, c: Chooser, now: int, peers: seq<PeerId>, down: seq<nat>, empty: seq<nat>)
    requires OrderIn(down, prog.pieces) && OrderIn(empty, prog.pieces)
    requires forall p | p in peers :: p in c.bitfields
    ensures Returns(prog, c, now, peers, down, empty) && Reached(prog, c, now, peers, down, empty) == peers
  {
    var t := AfterTimeouts(prog, c, now);
    KnownPeersFinish(t, t.prog.pieces, c.bitfields, now, down, empty, peers);
  }

  // ----- a block has arrived

  function FirstMatch(requests: seq<RequestTracker>, b: BlockId): (k: nat)
    ensures k <= |requests|
    ensures k < |requests| ==> BlockOfTracker(requests[k]) == b
    ensures forall i | 0 <= i < k :: BlockOfTracker(requests[i]) != b
  {
    if |requests| == 0 || BlockOfTracker(requests[0]) == b then 0 else 1 + FirstMatch(requests[1..], b)
  }

  function Sum(xs: seq<int>): int {
    if |xs| == 0 then 0 else Sum(xs[..|xs| - 1]) + xs[|xs| - 1]
  }

  /** The mean with the newest time is below the mean without it, cleared of fractions. */
  predicate Improves(times: seq<int>) {
    |times| > 1 && Sum(times) * (|times| - 1) < Sum(times[1..]) * |times|
  }

  function AdjustedWindow(window: nat, success: bool): nat {
    if success then Min(window + 1, MAX_WINDOW) else Max(window - 1, MIN_WINDOW)
  }

  function PushTime(times: seq<int>, time: int): seq<int> {
    var longer := [time] + times;
    if |longer| > MAXIMUM_REQUESTS then longer[..|longer| - 1] else longer
  }

  function AfterReceived(c: Chooser, peer: PeerId, piece: nat, block: nat, now: int): Chooser {
    if peer !in c.active then c
    else
      var requests := c.active[peer];
      var k := FirstMatch(requests, (piece, block));
      if k == |requests| then c
      else
        var known := if peer in c.times then c.times[peer] else [];
        var times := PushTime(known, Millis(now - requests[k].requestTime));
        c.(active := c.active[peer := requests[k := requests[k].(received := true)]],
           times := c.times[peer := times],
           windows := if |times| < MINIMUM_REQUESTS then c.windows
                      else c.windows[peer := AdjustedWindow(if peer in c.windows then c.windows[peer] else 0,
                                                            Improves(times))])
  }

  lemma {:induction false} SumSplits(xs: seq<int>, ys: seq<int>)
    ensures Sum(xs + ys) == Sum(xs) + Sum(ys)
  {
    if |ys| == 0 {
      assert xs + ys == xs;
    } else {
      assert (xs + ys)[..|xs + ys| - 1] == xs + ys[..|ys| - 1];
      SumSplits(xs, ys[..|ys| - 1]);
    }
  }

  lemma SumOfFirst(xs: seq<int>)
    requires |xs| > 0
    ensures Sum(xs) == xs[0] + Sum(xs[1..])
  {
    SumSplits([xs[0]], xs[1..]);
    assert [xs[0]] + xs[1..] == xs;
    assert [xs[0]][..0] == [];
  }

  /** One time against the others, added up. */
  lemma {:induction false} SumCompared(xs: seq<int>, time: int)
    ensures |xs| > 0 && (forall j | 0 <= j < |xs| :: time < xs[j]) ==> |xs| * time < Sum(xs)
    ensures (forall j | 0 <= j < |xs| :: xs[j] <= time) ==> Sum(xs) <= |xs| * time
  {
    if |xs| > 0 {
      SumCompared(xs[1..], time);
      SumOfFirst(xs);
      assert |xs| * time == (|xs| - 1) * time + time;
    }
  }

  lemma MeansCompared(n: nat, newest: int, others: int)
    ensures (newest + others) * (n - 1) < others * n <==> (n - 1) * newest < others
  {
    assert (newest + others) * (n - 1) == (n - 1) * newest + others * n - others;
  }

  lemma FasterExactly(times: seq<int>)
    requires |times| > 1
    ensures Improves(times) <==> (|times| - 1) * times[0] < Sum(times[1..])
  {
    SumOfFirst(times);
    MeansCompared(|times|, times[0], Sum(times[1..]));
  }

  /** A response from a peer with a window, known by the request it answers: the queue holds the last twelve
      times, newest first; from the fifth on the window moves by one, up to 40 if the newest time is below
      the mean of the other queued ones and down to 2 otherwise. */
  lemma WindowAfterResponse(c: Chooser, peer: PeerId, piece: nat, block: nat, now: int, k: nat)
    requires peer in c.active && peer in c.windows && k < |c.active[peer]|
    requires c.active[peer][k].pieceIndex == piece && c.active[peer][k].blockIndex == block
    requires forall i | 0 <= i < k :: !(c.active[peer][i].pieceIndex == piece && c.active[peer][i].blockIndex == block)
    ensures var c' := AfterReceived(c, peer, piece, block, now);
      && peer in c'.times && peer in c'.windows
      && var known, times := if peer in c.times then c.times[peer] else [], c'.times[peer];
         && |times| == Min(|known| + 1, Max(|known|, 12))
         && times[0] == Millis(now - c.active[peer][k].requestTime)
         && times[1..] == known[..|times| - 1]
         && (|times| < 5 ==> c'.windows[peer] == c.windows[peer])
         && (|times| >= 5 && (|times| - 1) * times[0] < Sum(times[1..]) ==>
               c'.windows[peer] == Min(c.windows[peer] + 1, 40))
         && (|times| >= 5 && (|times| - 1) * times[0] >= Sum(times[1..]) ==>
               c'.windows[peer] == if c.windows[peer] > 3 then c.windows[peer] - 1 else 2)
  {
    var requests := c.active[peer];
    assert FirstMatch(requests, (piece, block)) == k by {
      var m := FirstMatch(requests, (piece, block));
      assert BlockOfTracker(requests[k]) == (piece, block);
    }
    var known := if peer in c.times then c.times[peer] else [];
    var times := PushTime(known, Millis(now - requests[k].requestTime));
    assert times[1..] == known[..|times| - 1];
    if |times| >= MINIMUM_REQUESTS {
      FasterExactly(times);
    }
    hide Improves, Sum, Millis, FirstMatch;
  }

  /** A response changes nothing but what is kept about its peer. */
  lemma OthersUntouched(c: Chooser, peer: PeerId, piece: nat, block: nat, now: int, p: PeerId)
    requires p != peer
    ensures var c' := AfterReceived(c, peer, piece, block, now);
      && c'.rarity == c.rarity && c'.bitfields == c.bitfields && c'.pieceCount == c.pieceCount
      && (p in c'.active <==> p in c.active) && (p in c.active ==> c'.active[p] == c.active[p])
      && (p in c'.windows <==> p in c.windows) && (p in c.windows ==> c'.windows[p] == c.windows[p])
      && (p in c'.times <==> p in c.times) && (p in c.times ==> c'.times[p] == c.times[p])
  {
    hide Improves, Sum, Millis, FirstMatch, PushTime, AdjustedWindow;
  }

  /** A response faster than every queued one widens the window, and one slower than all of them narrows it. */
  lemma FasterWidens(c: Chooser, peer: PeerId, piece: nat, block: nat, now: int, k: nat)
    requires peer in c.active && peer in c.windows && peer in c.times && k < |c.active[peer]|
    requires c.active[peer][k].pieceIndex == piece && c.active[peer][k].blockIndex == block
    requires forall i | 0 <= i < k :: !(c.active[peer][i].pieceIndex == piece && c.active[peer][i].blockIndex == block)
    requires 4 <= |c.times[peer]|
    ensures var c' := AfterReceived(c, peer, piece, block, now);
      var known, time := c.times[peer], Millis(now - c.active[peer][k].requestTime);
      && peer in c'.windows
      && ((forall j | 0 <= j < |known| :: time < known[j]) && c.windows[peer] < 40 ==>
            c'.windows[peer] == c.windows[peer] + 1)
      && ((forall j | 0 <= j < |known| :: known[j] <= time) && c.windows[peer] > 2 ==>
            c'.windows[peer] == c.windows[peer] - 1)
  {
    hide AfterReceived, Millis, Sum;
    WindowAfterResponse(c, peer, piece, block, now, k);
    var times := AfterReceived(c, peer, piece, block, now).times[peer];
    SumCompared(times[1..], times[0]);
  }

  // ----- time-outs, in clock units

  /** duration_cast keeps the whole milliseconds and the sign. */
  lemma WholeMillis(nanos: int)
    ensures nanos >= 0 ==> Millis(nanos) * 1_000_000 <= nanos < (Millis(nanos) + 1) * 1_000_000
    ensures Millis(-nanos) == -Millis(nanos)
  {
  }

  lemma {:induction false} KeptSplits(xs: seq<RequestTracker>, ys: seq<RequestTracker>, now: int)
    ensures Kept(xs + ys, now) == Kept(xs, now) + Kept(ys, now)
  {
    if |ys| == 0 {
      assert xs + ys == xs;
    } else {
      assert (xs + ys)[..|xs + ys| - 1] == xs + ys[..|ys| - 1];
      KeptSplits(xs, ys[..|ys| - 1], now);
    }
  }

  lemma KeptAlone(r: RequestTracker, now: int)
    ensures Kept([r], now) == if !r.received && now - r.requestTime < 5_001_000_000 then [r] else []
  {
    assert [r][..0] == [];
    assert Kept([r][..0], now) == [];
  }

  /** A purge keeps, in their order, the requests without an answer that are younger than 5.001 seconds:
      the comparison is made in whole milliseconds. */
  lemma {:induction false} KeptExactly(requests: seq<RequestTracker>, now: int, r: RequestTracker)
    ensures r in Kept(requests, now) <==> r in requests && !r.received && now - r.requestTime < 5_001_000_000
  {
    if |requests| > 0 {
      var n := |requests| - 1;
      KeptExactly(requests[..n], now, r);
      KeptAlone(requests[n], now);
      KeptSplits(requests[..n], [requests[n]], now);
      assert requests[..n] + [requests[n]] == requests;
    }
  }
}
