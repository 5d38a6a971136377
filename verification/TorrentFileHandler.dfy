// The handlers of one torrent, each run as one atomic step.

module TorrentFileHandler {
  import opened Wrappers
  import opened Bytes
  import opened FileSplitter
  import opened Coalescing
  import opened DownloadProgress
  import opened FileIO
  import opened Selection
  import opened RarityTrackerChooser
  import opened Engine
  import opened HonestSource

  datatype BlockResponse = BlockResponse(pieceIndex: nat, blockIndex: nat, block: seq<byte>)

  function BlockOfResponse(r: BlockResponse): BlockId {
    (r.pieceIndex, r.blockIndex)
  }

  function LoadedBlock(d: Disk, b: BlockId): seq<byte> {
    ReadChunk(d.file, BlockOffset(d.prog.fileSize, b.0, b.1), BLOCK_SIZE)
  }

  function Response(d: Disk, b: BlockId): BlockResponse {
    BlockResponse(b.0, b.1, LoadedBlock(d, b))
  }

  function Responses(d: Disk, blocks: seq<BlockId>): seq<BlockResponse> {
    seq(|blocks|, k requires 0 <= k < |blocks| => Response(d, blocks[k]))
  }

  function AfterAdds(s: State, peers: seq<PeerId>): State {
    if |peers| == 0 then s
    else
      var t := AfterAdds(s, peers[..|peers| - 1]);
      t.(chooser := AfterAddPeer(t.chooser, peers[|peers| - 1]))
  }

  /** The engine's choosing step for the peers the call reaches, and the answers that ask for its blocks. */
  ghost predicate Chooses(r: Result<seq<ResultMessages>>, s: State, s': State, env: Env, requestable: seq<PeerId>, now: int,
                       down: seq<nat>, empty: seq<nat>)
    requires WellFormed(s)
  {
    && ValidOrders(AfterTimeouts(s.disk.prog, s.chooser, now).prog.pieces, s.chooser.rarity, down, empty)
    && OrderIn(down, s.disk.prog.pieces) && OrderIn(empty, s.disk.prog.pieces)
    && var reached := Reached(s.disk.prog, s.chooser, now, requestable, down, empty);
    && s' == Step(env, s, Choose(reached, now, down, empty))
    && (r.Success? <==> Returns(s.disk.prog, s.chooser, now, requestable, down, empty))
    && (r.Success? ==>
          && reached == requestable
          && RarityTrackerChooser.Answers(r.value, Chosen(s.disk.prog, s.chooser, now, reached, down, empty).batches))
  }

  lemma OrdersFit(prog: Progress, c: Chooser, now: int)
    requires Laid(prog) && ChooserOk(c, prog.pieces)
    ensures |AfterTimeouts(prog, c, now).prog.pieces| == |prog.pieces|
  {
    TimeoutsOk(prog, c, now);
  }

  class TorrentFileHandler {
    const fileIO: FileIO
    const pieceChooser: RarityTrackerChooser
    var isSeed: bool

    ghost predicate Valid()
      reads this, fileIO, pieceChooser, fileIO.progress
    {
      pieceChooser.progress == fileIO.progress && fileIO.Valid() && pieceChooser.Valid()
    }

    function View(): State
      reads this, fileIO, pieceChooser, fileIO.progress
    {
      State(fileIO.View(), pieceChooser.View())
    }

    function TheEnv(): Env
      reads this, fileIO, fileIO.progress
    {
      Env(fileIO.hash, fileIO.progress.fileHash)
    }

    constructor (fileIO: FileIO)
      requires fileIO.Valid() && Laid(fileIO.progress.View())
      ensures Valid() && this.fileIO == fileIO
      ensures View().disk == fileIO.View()
      ensures View().chooser
           == Chooser(|fileIO.progress.pieces|, map[], map[], map[], seq(|fileIO.progress.pieces|, _ => 0), map[])
      ensures isSeed == ProgressIsOne(fileIO.progress.View())
    {
      this.fileIO := fileIO;
      this.pieceChooser := new RarityTrackerChooser(fileIO.progress);
      this.isSeed := ProgressIsOne(fileIO.progress.View());
    }

    /** Serves a request for consecutive blocks; block numbers are 16 bits wide. */
    method HandleDataRequest(request: DataRequest) returns (responses: seq<BlockResponse>)
      requires Valid() && request.blockIndex + request.blocksCount < 0x1_0000
      ensures responses == Responses(View().disk, Covered(request))
    {
      responses := [];
      for i := request.blockIndex to request.blockIndex + request.blocksCount
        invariant responses == Responses(View().disk, Covered(request)[..i - request.blockIndex])
      {
        var block := fileIO.LoadBlock(request.pieceIndex, i);
        responses := responses + [BlockResponse(request.pieceIndex, i, block)];
      }
    }

    method HandleResponse(from: PeerId, piece: nat, block: nat, data: seq<byte>, at: int) returns (r: Result<bool>)
      requires Valid() && block < 0x1_0000
      modifies fileIO`file, fileIO.progress`pieces, fileIO.progress`totalDownloadBytes, fileIO.progress`completed, pieceChooser
      ensures Valid()
      ensures r.Success? <==> InRange(old(View()).disk.prog, piece, block)
      ensures r.Success? ==>
                && Enabled(old(View()), Deliver(from, piece, block, data, at))
                && View() == Step(TheEnv(), old(View()), Deliver(from, piece, block, data, at))
                && r.value == SaveVerified(fileIO.hash, old(View()).disk, piece, block, data)
      ensures r.Failure? ==>
                && View().chooser == old(View()).chooser
                && View().disk == old(View()).disk.(file :=
                     WriteChunk(old(fileIO.file), BlockOffset(fileIO.progress.fileSize, piece, block), data))
    {
      ghost var before := View();
      r := fileIO.SaveBlock(piece, block, data);
      if r.Failure? {
        return;
      }
      StepKeepsShape(TheEnv(), before, Deliver(from, piece, block, data, at));
      LaidAfterSave(fileIO.hash, before.disk, piece, block, data);
      LaidShape(before.disk.prog, View().disk.prog);
      OkForShape(before.chooser, before.disk.prog, View().disk.prog);
      pieceChooser.UpdateBlockReceived(from, piece, block, at);
    }

    /** The head of the loop in downloadFile, with what follows the loop when it is left. */
    method FinishIfComplete() returns (finished: bool)
      requires Valid()
      modifies this`isSeed, fileIO.progress`pieces, fileIO.progress`totalDownloadBytes, fileIO.progress`completed
      ensures Valid() && TheEnv() == old(TheEnv())
      ensures finished <==> ProgressIsOne(old(View()).disk.prog)
                            && FileVerifies(fileIO.hash, old(View()).disk, TheEnv().fileHash)
      ensures isSeed == (old(isSeed) || finished)
      ensures View() == Step(TheEnv(), old(View()), Recheck)
    {
      ghost var before := View();
      LaidAfterRecheck(TheEnv(), before.disk);
      LaidShape(before.disk.prog, AfterRecheck(TheEnv(), before.disk).prog);
      OkForShape(before.chooser, before.disk.prog, AfterRecheck(TheEnv(), before.disk).prog);
      finished := false;
      if ProgressIsOne(fileIO.progress.View()) {
        finished := fileIO.VerifyFile();
        if finished {
          isSeed := true;
          fileIO.ChangeAllStatus(Verified);
        }
      }
      assert View().disk == AfterRecheck(TheEnv(), before.disk);
    }

    method RegisterPeers(newPeers: seq<PeerId>)
      requires Valid()
      modifies pieceChooser
      ensures Valid() && View() == AfterAdds(old(View()), newPeers)
      ensures forall p | p in newPeers || p in old(pieceChooser.peersBitfields) :: p in pieceChooser.peersBitfields
    {
      for k := 0 to |newPeers|
        invariant Valid()
        invariant View() == AfterAdds(old(View()), newPeers[..k])
        invariant forall p | p in newPeers[..k] || p in old(pieceChooser.peersBitfields) ::
                    p in pieceChooser.peersBitfields
      {
        assert newPeers[..k + 1][..k] == newPeers[..k];
        pieceChooser.AddPeer(newPeers[k]);
      }
      assert newPeers[..|newPeers|] == newPeers;
    }

    method AskPeers(requestable: seq<PeerId>, now: int)
      returns (r: Result<seq<ResultMessages>>, ghost down: seq<nat>, ghost empty: seq<nat>)
      requires Valid()
      modifies fileIO.progress`pieces, fileIO.progress`completed, pieceChooser
      ensures Valid() && TheEnv() == old(TheEnv())
      ensures Chooses(r, old(View()), View(), TheEnv(), requestable, now, down, empty)
    {
      OrdersFit(View().disk.prog, View().chooser, now);
      hide AfterTimeouts, Chosen, ValidOrders, Laid, ChooserOk, Returns, Reached;
      r, down, empty := pieceChooser.ChooseBlocks(requestable, now);
    }

    /** One round of downloadFile: check a complete file, register new peers, ask for blocks. */
    method DownloadRound(newPeers: seq<PeerId>, requestable: seq<PeerId>, now: int)
      returns (finished: bool, r: Result<seq<ResultMessages>>, ghost down: seq<nat>, ghost empty: seq<nat>)
      requires Valid()
      modifies this`isSeed, fileIO.progress`pieces, fileIO.progress`totalDownloadBytes, fileIO.progress`completed, pieceChooser
      ensures Valid() && TheEnv() == old(TheEnv())
      ensures isSeed == (old(isSeed) || finished)
      ensures finished ==> View() == Step(TheEnv(), old(View()), Recheck)
      ensures !finished ==>
                var s := AfterAdds(Step(TheEnv(), old(View()), Recheck), newPeers);
                WellFormed(s) && Chooses(r, s, View(), TheEnv(), requestable, now, down, empty)
    {
      r, down, empty := Success([]), [], [];
      finished := FinishIfComplete();
      if !finished {
        hide Step, Enabled, WellFormed, Chooses;
        RegisterPeers(newPeers);
        IsWellFormed();
        r, down, empty := AskPeers(requestable, now);
      }
    }

    lemma IsWellFormed()
      requires Valid()
      ensures WellFormed(View())
    {
    }
  }

  // ----- serving what was chosen

  function ServeAll(d: Disk, requests: seq<DataRequest>): seq<BlockResponse> {
    if |requests| == 0 then []
    else ServeAll(d, requests[..|requests| - 1]) + Responses(d, Covered(requests[|requests| - 1]))
  }

  function BlocksOf(responses: seq<BlockResponse>): seq<BlockId> {
    seq(|responses|, k requires 0 <= k < |responses| => BlockOfResponse(responses[k]))
  }

  lemma {:induction false} ServedBlocks(d: Disk, requests: seq<DataRequest>)
    ensures BlocksOf(ServeAll(d, requests)) == Expand(requests)
    ensures forall r | r in ServeAll(d, requests) :: r == Response(d, BlockOfResponse(r))
  {
    if |requests| > 0 {
      var n := |requests| - 1;
      ServedBlocks(d, requests[..n]);
      var last := Responses(d, Covered(requests[n]));
      assert BlocksOf(last) == Covered(requests[n]);
      assert BlocksOf(ServeAll(d, requests[..n]) + last) == BlocksOf(ServeAll(d, requests[..n])) + BlocksOf(last);
    }
  }

  /** Merging requests loses nothing and repeats nothing: a peer that serves the merged requests sends
      one response for each block that was chosen, with the bytes of its own file at that place. */
  lemma ServesExactlyTheChoice(d: Disk, requests: seq<DataRequest>, picks: seq<BlockId>)
    requires Asks(requests, picks)
    ensures multiset(BlocksOf(ServeAll(d, requests))) == multiset(picks)
    ensures forall r | r in ServeAll(d, requests) :: r.block == LoadedBlock(d, BlockOfResponse(r))
  {
    ServedBlocks(d, requests);
  }

  /** A peer that has the whole file serves honestly. */
  lemma FullPeerIsHonest(d: Disk, original: seq<byte>, b: BlockId)
    requires d.file == original
    ensures LoadedBlock(d, b) == Served(original, d.prog.fileSize, b)
  {
  }
}
