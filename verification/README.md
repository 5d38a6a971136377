# A model of the torrent client and its signaling server

This project models, in Dafny, the parts of the file-sharing system whose correctness rests on
arithmetic, indexes and protocols, and proves what they promise.

**The download engine.** One download is a sequential machine (`Engine`): the file on disk and the
progress (`FileIO`, `DownloadProgress`), and the block chooser (`RarityTrackerChooser`). Its steps are
the handlers: choosing blocks with its timeouts, saving a delivered block, verifying pieces, checking the
whole file, and the peers' comings and goings. Each handler is a method on a class, proved equal to a
function of the old state; the theorems are about runs of these functions, most of them of the form: every
state of a run is good if and only if every event of it meets a condition that can be checked before the
event. Their centre: when the byte counter is the number of bytes held (`ByteAccounting`, `SeveralPeers`,
`DownloadRuns`), when statuses agree with open requests (`Agreement`, `Shares`, `DownloadRuns`), when windows
are kept (`WindowSafety`), when rarity counters equal a recount (`RarityIndex`), when verified pieces stay
intact (`Contents`), that a download from holders of the file has the file when its counter says so
(`HonestSource`, `Publishing`), that one holder is enough to bring it there (`Completion`), which blocks come first
when not all fit a window (`Priorities`), and what the completed flag says (`CompletedFlag`).

The functions that methods are proved equal to are tied down in turn by laws that do not name them: sizes, offsets,
codes and limits in plain numbers, and what a caller sees of a reply, a failed check or a response.

Two conditions on runs are kept apart. A run is *timely* if no call of ChooseBlocks gives up a request for a
block that has come from elsewhere; this is what the counter and convergence need, with any number of peers.
A run is *disciplined* if no block is asked of two peers, none comes from a peer it was not asked of, and none is
forgotten with its peer; this is what the agreement of statuses and requests needs, and such a run is timely too.

**SHA-256.** `Fips180` states the standard FIPS 180-4; `Sha256` is the streaming object with its buffer
and counters. Any partition of a message gives the standard's digest below 2^29 bytes, and exactly there
the padding agrees. `Sha256Example` follows the standard's worked example round by round.

**AES-128.** `Fips197` states the standard FIPS 197; `AesTables` holds the lookup tables, `AesField` proves
them to be products of GF(2^8) and the affine image of the field inverse, `Aes` proves that decryption
undoes encryption and that the code computes the standard's cipher up to transposition (the code fills its
matrix row by row, the standard column by column), and `AesHandler` is the in-place code with both
chaining loops. `Fips197Example` follows the standard's worked example. `KeyWrapping` applies it to the password-protected key of the metadata file.

**Bytes and wires.** `ProgressFile` saves and restores a download, `BitTorrentMessages` carries a bitfield
from one peer's pieces to the other peer's chooser, `TCPSocket` is the demultiplexer with its buffer.

**The signaling server.** `IceMessagesHandler` is the table of connection requests waiting for an answer.

Where the source computes step by step, the model has a method with loops on a class with fields;
`PieceProgress`, `BlockInfo`, messages and metadata are datatypes because the source stores, copies and
returns them by value. C++ exceptions are `Result` values. Threads are serialised: each handler call is one
step. Clocks, random numbers and the order of unordered containers are parameters or arbitrary choices.

Where code and comments differ, the code is followed. What came out false of the code is stated with the
exact condition under which it holds, and where an input that violates it is not plain to see, with that input:

- Publisher and downloader cut a file alike only below 4 GiB, because the publisher narrows the bytes left
  to 32 bits (`FileSplitter.CutsAgree`).
- The length word of the hash has 32 bits (`Sha256.PadsAgree`).
- Several peers can be asked for the same block, because the copies of empty pieces are not updated between
  peers (`Shares.AgreesBeforehand`; the input is in `SeveralPeers.EmptyPieceAskedTwice`).
- The byte counter can end up too high: the second request for a block times out after the block has come
  (`DownloadRuns.BooksRun`; the run is in `Miscounting.LateCopyMiscounts`).
- Repeated responses can push a peer past its window (`WindowSafety.ReceivedKeepsWindows`; the run is in
  `Overfilling.RepeatedAnswersOverfill`).
- `addPeer` on a known peer leaves its old bits in the counters (`RarityIndex.RarityAfterAddPeer`).
- `updateBlockStatus` does not touch the byte counter (`ByteAccounting.BlockStatusConserves`), and `done`
  trusts the statuses of the pieces (`ByteAccounting.BooksAfterDone`).
- `loadBlock` reads past the end of a piece (`HonestSource.LastBlockSpills`, `HonestSource.Block21Spills`), and
  such bytes damage the next piece unless they are right (`Contents.SpillExact`, `Contents.IntactExactly`).
- The final check declares every piece verified on the strength of the file's hash alone
  (`Contents.IntactAfterRecheck`).
- The progress file loses names of 256 bytes and more (`ProgressFile.ReadUndoesWrite`).
- The update of a single piece in the progress file goes to the wrong place unless the creator's name has four
  bytes (`ProgressFile.UpdatePlaceExact`), and swaps status and time stamp (`ProgressFile.UpdateExact`); those of the
  counter and of the last access are right (`ProgressFile.CounterPatch`, `ProgressFile.TimePatch`).
- An empty file never reports progress 1, since the quotient is not a number
  (`ByteAccounting.CompletionCharacterised`).
- The comments call the order of empty pieces rarest first; the comparison puts the highest counters first
  (`RarityIndex.RarestFirstExactly`). These are the pieces held by most peers only as far as the counters, which have
  eight bits, tell them apart (`RarityIndex.MostHeldFirst`; with 256 holders they need not,
  `RarityIndex.HoldersWrapAround`).

## Model

| member | source | states |
|---|---|---|
| FileSplitter.PieceSizeMonotone | Peer/Utils/FileUtils/FileUtils.cpp:209-220 | a larger file is never cut into smaller pieces |
| FileSplitter.PiecesBySize | Peer/Utils/FileUtils/FileUtils.cpp:209-220 | up to 256 KiB a file is one piece; up to 256 MiB every piece but the last has 256 KiB; up to 4 GiB there are 1024 pieces of one size and the bytes left over, fewer than 1024, are one more; above that every piece but the last has 4 MiB |
| FileSplitter.PieceLengths | Peer/Utils/DowndloadProgress/DownloadProgress.cpp:253-262 | every piece is non-empty, at most 4 MiB and inside the file; all but the last are full and each ends where the next starts |
| FileSplitter.PieceIndexOfByte | Peer/Utils/DowndloadProgress/DownloadProgress.cpp:237-239 | getPieceIndex of any byte of a piece is that piece |
| FileSplitter.BlocksTile | Peer/Utils/DowndloadProgress/DownloadProgress.cpp:264-281 | each byte of the file lies in the block that getPieceIndex and getBlockIndex name ... |
| FileSplitter.BlockIsUnique | Peer/Utils/DowndloadProgress/DownloadProgress.cpp:391-393 | ... and in no other: pieces and blocks tile the file without gap or overlap |
| FileSplitter.AtMost1025Pieces | Peer/Utils/MetaDataFile/MetaDataFile.h:16-16 | a file under 2^32 bytes has at most 1025 pieces, so the 16-bit parts count never truncates |
| FileSplitter.CutsAgree | Peer/Utils/MetaDataFile/MetaDataFile.cpp:37-43 | publisher and downloader cut the same ranges if and only if the file is under 2^32 bytes |
| Bytes.WriteChunkAt | Peer/Utils/FileUtils/FileUtils.cpp:56-79 | a write changes exactly the bytes it covers |
| Bytes.WriteChunkWhole | Peer/Utils/FileUtils/FileUtils.cpp:56-79 | the length of the file after a write and each of its bytes: the data, the old byte, or zero in a gap behind the old end |
| Bytes.ReadChunkAt | Peer/Utils/FileUtils/FileUtils.cpp:31-54 | what is read is as long as asked for, or as the file allows, and is the bytes from the offset on |
| Bytes.ReadAfterWrite | Peer/Utils/FileUtils/FileUtils.cpp:31-79 | what is written at an offset is what is read back there |
| Bytes.DecodeEncode | Peer/Utils/SerializeDeserializeUtils.h:41-45 | a number copied to bytes is read back, for every width that holds it |
| Bytes.EncodeAt | Peer/Utils/SerializeDeserializeUtils.h:41-45 | byte i of an encoded number is its digit i in base 256, so the least significant byte comes first |
| Bytes.EncodeSplit | Peer/Utils/SerializeDeserializeUtils.h:41-45 | the low bytes of a number are written before the high ones, as numbers of their own |
| DownloadProgress.NewPiece | Peer/Utils/DowndloadProgress/DownloadProgress.cpp:264-281 | the constructor's loop cuts exactly the fresh blocks of a piece |
| DownloadProgress.DownloadProgress.constructor | Peer/Utils/DowndloadProgress/DownloadProgress.cpp:242-262 | init cuts the file into PieceCount fresh pieces with the first of the recorded hashes and counts nothing yet |
| DownloadProgress.SetStatus | Peer/Utils/DowndloadProgress/DownloadProgress.cpp:336-357 | the new piece and the counted difference of the status change, as a sum over its blocks |
| DownloadProgress.HasAllBlocksDownloaded | Peer/Utils/DowndloadProgress/DownloadProgress.cpp:326-334 | true if and only if every block is Downloaded |
| DownloadProgress.GetBlocksStatused | Peer/Utils/DowndloadProgress/DownloadProgress.cpp:381-389 | the blocks with a status, in order |
| DownloadProgress.DownloadProgress.DownloadedBlock | Peer/Utils/DowndloadProgress/DownloadProgress.cpp:162-173 | the whole new state after a block arrived, out-of-range numbers fail and change nothing |
| DownloadProgress.DownloadProgress.UpdatePieceStatus | Peer/Utils/DowndloadProgress/DownloadProgress.cpp:175-189 | the whole new state after a piece changed status, including the counter and the completed flag |
| DownloadProgress.DownloadProgress.UpdateBlockStatus | Peer/Utils/DowndloadProgress/DownloadProgress.cpp:191-205 | the whole new state after a block changed status; the counter stays |
| DownloadProgress.DownloadProgress.Done | Peer/Utils/DowndloadProgress/DownloadProgress.cpp:207-212 | the whole new state: every piece Verified, the counter moved by the sum of the differences, the completed flag set |
| DownloadProgress.DownloadProgress.GetPiecesStatused | Peer/Utils/DowndloadProgress/DownloadProgress.cpp:215-226 | the pieces with a status, in order |
| ByteAccounting.BlocksFillPiece | Peer/Utils/DowndloadProgress/DownloadProgress.cpp:264-281 | the blocks of a piece add up to the piece, each at its place and of the size the cut gives it |
| ByteAccounting.LastBlockMarked | Peer/Utils/DowndloadProgress/DownloadProgress.cpp:264-281 | the block marked as the last is the one that ends with the piece |
| ByteAccounting.HeldAtMostFile | Peer/Utils/DowndloadProgress/DownloadProgress.cpp:162-189 | held bytes never exceed the file, and equal it if and only if every block is held |
| ByteAccounting.CompletionCharacterised | Peer/Utils/DowndloadProgress/DownloadProgress.cpp:157-160 | with right books progress reaches 1 if and only if the file is non-empty and every piece is Downloaded or Verified |
| ByteAccounting.StatusDeltaExact | Peer/Utils/DowndloadProgress/DownloadProgress.cpp:336-357 | setStatus reports the exact change of held bytes if and only if an Empty piece holds nothing and a held one everything |
| ByteAccounting.BooksAfterBlock | Peer/Utils/DowndloadProgress/DownloadProgress.cpp:162-173 | an arriving block keeps the counter equal to the held bytes, whatever its status was before, and moves it by the block's size without wrap-around |
| ByteAccounting.BooksAfterPieceStatus | Peer/Utils/DowndloadProgress/DownloadProgress.cpp:175-189 | a piece status change other than to Downloading keeps the books and moves the counter without wrap-around |
| ByteAccounting.BlockStatusConserves | Peer/Utils/DowndloadProgress/DownloadProgress.cpp:191-205 | updateBlockStatus keeps the counter right if and only if it does not change whether the block is held |
| ByteAccounting.BlockStatusOutcome | Peer/Utils/DowndloadProgress/DownloadProgress.cpp:359-379 | updateBlockStatus moves that block alone; the piece becomes Downloading with its block, and Downloaded with the last missing one |
| ByteAccounting.BooksAfterBlockStatus | Peer/Utils/DowndloadProgress/DownloadProgress.cpp:191-205 | setting an unheld block to Empty or Downloading keeps the books |
| ByteAccounting.BooksAfterDone | Peer/Utils/DowndloadProgress/DownloadProgress.cpp:207-212 | done() ends with right books, and the whole file counted, if and only if no piece claimed to be complete before it was |
| FileIO.CreatePlaceHolder | Peer/Utils/FileUtils/FileUtils.cpp:81-106 | the placeholder has the size of the file and holds the filler character throughout |
| FileIO.FileIO.constructor | Peer/Torrent/FileIO/FileIO.cpp:121-130 | a new download starts with a placeholder file of the full size; for a seed done() is applied to the progress |
| FileIO.FileIO.LoadBlock | Peer/Torrent/FileIO/FileIO.cpp:169-173 | up to BLOCK_SIZE bytes from the block's offset on, even past the end of the piece; the block number is narrowed to 16 bits on the way |
| FileIO.FileIO.SaveBlock | Peer/Torrent/FileIO/FileIO.cpp:150-162 | the new file and progress: write, count, and verify the piece the block completes; the result is true if and only if the block is Verified afterwards, and then the piece has its hash |
| FileIO.SaveOutcome | Peer/Torrent/FileIO/FileIO.cpp:150-162 | the bytes are written at the place of the block and only its piece moves: a block that does not complete it is Downloaded, one that does makes all of it Verified if it now has its hash and Empty otherwise |
| FileIO.SaveAnswers | Peer/Torrent/FileIO/FileIO.cpp:150-162 | the answer is true if and only if the block is Verified afterwards |
| FileIO.DamagedExact | Peer/Torrent/FileIO/FileIO.cpp:220-231 | up to 65536 pieces the damaged list names exactly the pieces whose hash does not match |
| FileIO.FileIO.GetDamagedPieces | Peer/Torrent/FileIO/FileIO.cpp:220-231 | the loop's list, with piece numbers narrowed to 16 bits |
| FileIO.FileIO.VerifyFile | Peer/Torrent/FileIO/FileIO.cpp:175-184 | true if and only if the whole file has its hash; otherwise, up to 65536 pieces, every piece without its own hash ends Empty with all its blocks Empty, and every other piece is as before |
| FileIO.FailedCheck | Peer/Torrent/FileIO/FileIO.cpp:175-184 | the same of the state after a failed check: the file and the pieces that have their hashes stay, the others are started over |
| FileIO.FileIO.ChangeAllStatus | Peer/Torrent/FileIO/FileIO.cpp:186-190 | every piece gets the status, one after the other |
| Sorting.SortBy | Peer/Torrent/PieceManagement/RarityTrackerChooser.cpp:274-280 | a sorted permutation of the input |
| Coalescing.Merge | Peer/Torrent/PieceManagement/RarityTrackerChooser.cpp:282-300 | the merged requests expand to exactly the sorted blocks, and no two of them could be joined if the blocks are distinct |
| Coalescing.Coalesce | Peer/Torrent/PieceManagement/RarityTrackerChooser.cpp:273-301 | the final requests cover exactly the multiset of the chosen blocks, maximal when they are distinct, with counts that fit 16 bits |
| RarityTrackerChooser.RarityTrackerChooser.constructor | Peer/Torrent/PieceManagement/RarityTrackerChooser.cpp:44-52 | no peers, no requests, all counters zero |
| RarityTrackerChooser.RarityTrackerChooser.AddPeerRarity | Peer/Torrent/PieceManagement/RarityTrackerChooser.cpp:8-12 | each 8-bit counter grows by the peer's bit |
| RarityTrackerChooser.RarityTrackerChooser.RemovePeerRarity | Peer/Torrent/PieceManagement/RarityTrackerChooser.cpp:14-18 | each 8-bit counter shrinks by the peer's bit |
| RarityTrackerChooser.RarityTrackerChooser.ReCalculateRarity | Peer/Torrent/PieceManagement/RarityTrackerChooser.cpp:20-26 | afterwards each counter is the number of holders modulo 256 |
| RarityTrackerChooser.RarityTrackerChooser.UpdatePeerBitfield | Peer/Torrent/PieceManagement/RarityTrackerChooser.cpp:55-61 | the old bitfield is taken out of the counters and the new one put in |
| RarityTrackerChooser.RarityTrackerChooser.AddPeer | Peer/Torrent/PieceManagement/RarityTrackerChooser.cpp:73-79 | the peer starts over with an empty bitfield, no requests and the initial window; the counters stay |
| RarityTrackerChooser.RarityTrackerChooser.RemovePeer | Peer/Torrent/PieceManagement/RarityTrackerChooser.cpp:63-71 | bitfield, counters, requests and window of the peer are gone |
| RarityTrackerChooser.RarityTrackerChooser.SetOwnership | Peer/Torrent/PieceManagement/RarityTrackerChooser.cpp:105-121 | gotPiece and lostPiece: bit and counter change together, and only if the bit differs; unknown peers fail |
| RarityTrackerChooser.RarityTrackerChooser.AdjustPeerWindow | Peer/Torrent/PieceManagement/RarityTrackerChooser.cpp:35-42 | one up or one down, kept between 2 and 40 |
| RarityTrackerChooser.RarityTrackerChooser.UpdateBlockReceived | Peer/Torrent/PieceManagement/RarityTrackerChooser.cpp:305-337 | the first request for the block is marked, the response time queued and the window adjusted; nothing else changes |
| Selection.WindowAfterResponse | Peer/Torrent/PieceManagement/RarityTrackerChooser.cpp:305-337 | the queue holds the last twelve times, newest first; from the fifth on the window grows by one, up to 40, if and only if the newest time is below the mean of the other queued ones, and otherwise falls by one, down to 2 |
| Selection.WholeMillis | Peer/Torrent/PieceManagement/RarityTrackerChooser.cpp:313-314 | a response time is the whole milliseconds since the request, truncated toward zero |
| Selection.FasterWidens | Peer/Torrent/PieceManagement/RarityTrackerChooser.cpp:305-337 | so a response faster than every queued one widens a window below 40, and one at least as slow as all of them narrows a window above 2 |
| Selection.OthersUntouched | Peer/Torrent/PieceManagement/RarityTrackerChooser.cpp:305-337 | a response changes no counter, no bitfield and nothing about another peer |
| RarityTrackerChooser.RarityTrackerChooser.PurgePeer | Peer/Torrent/PieceManagement/RarityTrackerChooser.cpp:128-143 | one peer's requests: received and timed-out ones are gone, the blocks of the latter become Empty |
| Selection.KeptExactly | Peer/Torrent/PieceManagement/RarityTrackerChooser.cpp:128-144 | a purge keeps a request if and only if it is unanswered and less than 5.001 seconds old, since whole milliseconds are compared |
| Selection.KeptSplits | Peer/Torrent/PieceManagement/RarityTrackerChooser.cpp:128-144 | and keeps them in their order |
| RarityTrackerChooser.RarityTrackerChooser.HandleTimeouts | Peer/Torrent/PieceManagement/RarityTrackerChooser.cpp:127-144 | the same for all peers, in whatever order |
| RarityTrackerChooser.RarityTrackerChooser.StartedPieces | Peer/Torrent/PieceManagement/RarityTrackerChooser.cpp:147-154 | the started pieces, most bytes first, as an order of piece numbers |
| RarityTrackerChooser.RarityTrackerChooser.EmptyPieces | Peer/Torrent/PieceManagement/RarityTrackerChooser.cpp:148-186 | the empty pieces, those with the highest 8-bit counters first |
| VisitingOrders.OrdersExist | Peer/Torrent/PieceManagement/RarityTrackerChooser.cpp:146-186 | there always is an order to visit the pieces in, and any empty piece may come first among those with its counter |
| RarityTrackerChooser.RarityTrackerChooser.OpenWindow | Peer/Torrent/PieceManagement/RarityTrackerChooser.cpp:191-197 | the free slots of the peer's window, in 16-bit arithmetic |
| RarityTrackerChooser.RarityTrackerChooser.FillPeer | Peer/Torrent/PieceManagement/RarityTrackerChooser.cpp:188-271 | the peer is asked for the first candidates that fit its window, started pieces before empty ones; for a peer without a bitfield hasPiece throws exactly when there is a free slot and a piece to look at, and then only its window has been opened |
| Selection.RequestsOfTurn | Peer/Torrent/PieceManagement/RarityTrackerChooser.cpp:188-267 | a turn adds one request for each picked block, sent now and unanswered, behind the peer's old ones |
| Selection.OthersInTurn | Peer/Torrent/PieceManagement/RarityTrackerChooser.cpp:28-33 | a turn touches no other peer, and gives a peer without a window one of ten |
| Selection.OnePeerThrows | Peer/Torrent/PieceManagement/RarityTrackerChooser.cpp:105-107 | a call for one peer throws if and only if the peer has no bitfield, its window has room, and there is a started or an unbegun piece |
| Priorities.PicksByPriority | Peer/Torrent/PieceManagement/RarityTrackerChooser.cpp:201-267 | with a block of one piece the peer is asked for all its Empty blocks that are visited earlier: in pieces before it, and of lower number in that piece; started pieces come first |
| Priorities.HighestCounterFirst | Peer/Torrent/PieceManagement/RarityTrackerChooser.cpp:147-267 | so no block of an unbegun piece is asked for while the peer has an Empty block, not asked for, of a started piece or of an unbegun one with a higher counter |
| RarityTrackerChooser.RarityTrackerChooser.FillAll | Peer/Torrent/PieceManagement/RarityTrackerChooser.cpp:187-272 | the turns of the peers, one after the other, up to the first one that throws |
| RarityTrackerChooser.RarityTrackerChooser.ChooseBlocks | Peer/Torrent/PieceManagement/RarityTrackerChooser.cpp:123-303 | the whole call for any list of peers: timeouts, valid orders, the turns of the peers it reaches, and coalesced requests for exactly the chosen blocks; it throws if and only if it has to look at a peer without a bitfield, and the state then is that after the turns it had taken |
| RarityTrackerChooser.RarityTrackerChooser.CoalesceAll | Peer/Torrent/PieceManagement/RarityTrackerChooser.cpp:274-301 | every batch becomes one answer with coalesced requests |
| Selection.KnownPeersReturn | Peer/Torrent/PieceManagement/RarityTrackerChooser.cpp:105-107 | a call for peers with bitfields reaches all of them and never throws |
| Engine.StepKeepsShape | Peer/Torrent/TorrentFileHandler/TorrentFileHandler.cpp:268-345 | every handler keeps the cut of the file and the shape of the chooser's state |
| Engine.StepKeepsRecords | Peer/Utils/DowndloadProgress/DownloadProgress.cpp:162-226 | no handler touches a hash, a recorded number of bytes, an offset or a size |
| Engine.NewDownloadIsFresh | Peer/Utils/DowndloadProgress/DownloadProgress.cpp:242-281 | what the constructors build is a download of which nothing is held and nobody is known, with the recorded hashes in order |
| Agreement.AgreeAfterTimeouts | Peer/Torrent/PieceManagement/RarityTrackerChooser.cpp:127-144 | purging keeps statuses and requests in agreement, and only blocks that were Downloading are emptied: a timeout never empties a held block |
| Agreement.ExactlyOneRequest | Peer/Torrent/PieceManagement/RarityTrackerChooser.cpp:188-267 | in an agreeing state a block is Downloading if and only if exactly one unreceived request names it |
| Agreement.StartedAskedOnce | Peer/Torrent/PieceManagement/RarityTrackerChooser.cpp:199-234 | within one call no block of a piece that was started before it is asked of two peers, whatever state the requests were in |
| Shares.AgreesBeforehand | Peer/Torrent/PieceManagement/RarityTrackerChooser.cpp:187-272 | known before the call: it keeps statuses and requests in agreement if and only if no block of an unbegun piece falls into the shares of two peers, the shares being worked out from bitfields, windows and requests at the start |
| Shares.UnbegunShareOf | Peer/Torrent/PieceManagement/RarityTrackerChooser.cpp:191-267 | with different peers each share of unbegun pieces is a prefix of what that peer alone has to offer, as long as the slots that its started blocks leave |
| Shares.SeparatePeersApart | Peer/Torrent/PieceManagement/RarityTrackerChooser.cpp:237-266 | peers that have no unbegun piece in common always pass that condition |
| SeveralPeers.CountedAfterChoose | Peer/Torrent/PieceManagement/RarityTrackerChooser.cpp:123-303 | the counter never falls below the held bytes in a call, and ends above them if and only if a request that times out in it names a held block |
| SeveralPeers.BooksAfterChoose | Peer/Torrent/PieceManagement/RarityTrackerChooser.cpp:123-303 | a whole call, with any number of peers and whatever they are asked for, keeps the byte counter right if and only if no request that times out in it names a held block |
| SeveralPeers.AskedPiecesAreStarted | Peer/Torrent/PieceManagement/RarityTrackerChooser.cpp:123-267 | after a call a piece is Downloading if one of its blocks was asked for, and has its old status otherwise, whatever timed out |
| SeveralPeers.TimeoutsConserve | Peer/Torrent/PieceManagement/RarityTrackerChooser.cpp:127-144 | the timeouts alone keep the counter right if and only if no timed-out request names a held block |
| SeveralPeers.EmptyPieceAskedTwice | Peer/Torrent/PieceManagement/RarityTrackerChooser.cpp:237-266 | a concrete call in which two peers are asked for the same block, after which statuses and requests disagree |
| SeveralPeers.SharesMeet | Peer/Torrent/PieceManagement/RarityTrackerChooser.cpp:237-266 | the shares of that call, worked out beforehand, both hold the block |
| Miscounting.LateCopyMiscounts | Peer/Torrent/PieceManagement/RarityTrackerChooser.cpp:123-303 | a run of five events from a fresh download after which the counter is above the held bytes: two peers are asked for one block, one delivers it, and the request to the other times out |
| DownloadRuns.AgreeAfterDeliver | Peer/Torrent/TorrentFileHandler/TorrentFileHandler.cpp:268-275 | a delivered block keeps the agreement if and only if nobody but its sender is waited for with it |
| DownloadRuns.AgreeWithout | Peer/Torrent/PieceManagement/RarityTrackerChooser.cpp:63-79 | dropping or re-adding a peer keeps the agreement if and only if nothing is awaited from it |
| DownloadRuns.BooksAfterSave | Peer/Torrent/FileIO/FileIO.cpp:150-162 | saving a block keeps the books, whether the piece verifies or is emptied again |
| DownloadRuns.BooksAfterRecheck | Peer/Torrent/TorrentFileHandler/TorrentFileHandler.cpp:302-312 | the check of the whole file at progress 1 keeps the books, whatever it finds damaged |
| DownloadRuns.FailedRecheck | Peer/Torrent/TorrentFileHandler/TorrentFileHandler.cpp:294-345 | when a complete file fails its check, every piece without its hash is Empty with all its blocks, all else stays, the counter falls by exactly the bytes of these pieces, and the download is no longer complete if there is one |
| DownloadRuns.SoundAfterRecheck | Peer/Torrent/TorrentFileHandler/TorrentFileHandler.cpp:302-312 | and keeps the agreement |
| DownloadRuns.BooksRun | Peer/Torrent/TorrentFileHandler/TorrentFileHandler.cpp:268-345 | in any run with any peers and any bytes the books are right in every state if and only if no call of ChooseBlocks gives up a request for a block that is held by then |
| DownloadRuns.SwarmDownload | Peer/Torrent/TorrentFileHandler/TorrentFileHandler.cpp:294-345 | the same from a fresh download; then the counter is the sum of the held blocks, at most the file size, and reaches it if and only if all pieces are complete |
| CompletedFlag.CompletedRun | Peer/Utils/DowndloadProgress/DownloadProgress.cpp:162-212 | over a timely run with right books the completed flag is set at the end if and only if it was set before or the counter stood at the file size in some state |
| CompletedFlag.CompletedDownload | Peer/Utils/DowndloadProgress/DownloadProgress.cpp:162-212 | so from a fresh download it says that the file has been complete, now or before |
| DownloadRuns.SoundRun | Peer/Torrent/TorrentFileHandler/TorrentFileHandler.cpp:268-345 | books and agreement hold in every state of a run if and only if every event is disciplined: shares of unbegun pieces apart, blocks from the peer they were asked of, peers dropped only when nothing is awaited from them |
| DownloadRuns.DisciplinedDownload | Peer/Torrent/TorrentFileHandler/TorrentFileHandler.cpp:294-345 | the same from a fresh download; and disciplined runs are among those with right books |
| DownloadRuns.SingleSourceDownload | Peer/Torrent/TorrentFileHandler/TorrentFileHandler.cpp:294-345 | with a single source that is never removed the discipline holds by itself: every state of every such run has right books, and no block is stuck or awaited twice |
| WindowSafety.SlotsNeverWrap | Peer/Torrent/PieceManagement/RarityTrackerChooser.cpp:191-199 | with windows kept, the free slots are the true difference and never wrap around |
| WindowSafety.ReceivedKeepsWindows | Peer/Torrent/PieceManagement/RarityTrackerChooser.cpp:305-337 | a response keeps every peer within its window if and only if it does not repeat an answered request while shrinking a full window |
| WindowSafety.ChooseKeepsWindows | Peer/Torrent/PieceManagement/RarityTrackerChooser.cpp:123-303 | a call of ChooseBlocks keeps windows between 2 and 40 and requests within them |
| WindowSafety.WindowsRun | Peer/Torrent/PieceManagement/RarityTrackerChooser.cpp:123-337 | in any run windows stay between 2 and 40 and requests within them, in every state, if and only if no response shrinks a full window while repeating an answer |
| WindowSafety.FirstAnswersRun | Peer/Torrent/PieceManagement/RarityTrackerChooser.cpp:123-337 | so they do in every run in which responses hit unanswered requests |
| Overfilling.RepeatedAnswersOverfill | Peer/Torrent/PieceManagement/RarityTrackerChooser.cpp:305-337 | a run from a fresh download in which one request is answered twelve times, and which ends with three requests open in a window of two |
| WindowSafety.StallsExactly | Peer/Torrent/PieceManagement/RarityTrackerChooser.cpp:123-272 | a call for any list of peers leaves nothing to wait for if and only if all requests open before it have timed out and no listed peer has a piece of which a block is missing |
| WindowSafety.NeverStalls | Peer/Torrent/PieceManagement/RarityTrackerChooser.cpp:188-267 | so while a listed peer has every piece, a block is awaited from somebody after the call unless everything is held |
| Contents.SpillExact | Peer/Torrent/FileIO/FileIO.cpp:169-173 | a delivered block leaves all other pieces' bytes alone, for every file content, if and only if it stays within its piece |
| Contents.IntactExactly | Peer/Torrent/FileIO/FileIO.cpp:150-162 | a saved block keeps every Verified piece true to its hash if and only if it changes no byte of a Verified piece that it does not complete anew, as long as the hash tells the two contents apart |
| Contents.IntactAfterRecheck | Peer/Torrent/TorrentFileHandler/TorrentFileHandler.cpp:302-341 | the final check keeps them so if and only if a file it passes has no damaged piece |
| Contents.VerifiedIntegrity | Peer/Torrent/FileIO/FileIO.cpp:150-162 | whatever bytes arrive and however far they spill, as long as they change no byte of a Verified piece: every Verified piece has file bytes that hash to its recorded hash, in every state of the run |
| Contents.BoundedIntegrity | Peer/Torrent/FileIO/FileIO.cpp:150-162 | so arbitrary bytes do no harm if they stay in their piece and that piece is not Verified |
| HonestSource.LastBlockSpills | Peer/Torrent/FileIO/FileIO.cpp:169-173 | the answer for the last block of any piece but the last stays in its piece if and only if the piece size is a multiple of the block size |
| HonestSource.Block21Spills | Peer/Torrent/FileIO/FileIO.cpp:169-173 | so between 512 KiB and 256 MiB the answer for block 21 of piece 0 always spills |
| HonestSource.HonestIsHarmless | Peer/Torrent/FileIO/FileIO.cpp:169-173 | bytes from holders of the file change no byte of a Verified piece, wherever they spill |
| HonestSource.HonestRunIsCareful | Peer/Torrent/FileIO/FileIO.cpp:150-184 | every run of honest deliveries is one of those whose Verified pieces stay intact |
| HonestSource.CompletedPieceVerifies | Peer/Torrent/FileIO/FileIO.cpp:150-162 | a piece filled with blocks from holders of the file verifies |
| HonestSource.AllHeldIsOriginal | Peer/Torrent/FileIO/FileIO.cpp:150-184 | when every block is held the file is the original |
| HonestSource.FaithfulRun | Peer/Torrent/FileIO/FileIO.cpp:150-173 | over any run of honest deliveries, with spilling blocks, short last blocks, repeated answers and a counter that may be wrong, every held block has the bytes of the original; of the final check it is only asked that a file that passes is the original |
| HonestSource.HonestDeliveryGrows | Peer/Torrent/FileIO/FileIO.cpp:150-162 | an honest delivery adds its block to the counter if it was not held and takes nothing back |
| HonestSource.Convergence | Peer/Torrent/TorrentFileHandler/TorrentFileHandler.cpp:294-345 | from a fresh download, with any number of holders of the file and any timely run: Verified pieces are right, and if progress has reached 1 the file equals the original and passes the final check |
| Completion.CanFinish | Peer/Torrent/TorrentFileHandler/TorrentFileHandler.cpp:294-345 | from every state in good order whose requests all go to one peer that has every piece, at any time, some exchange of requests and honest answers brings progress to 1 |
| Completion.FreshCanFinish | Peer/Torrent/TorrentFileHandler/TorrentFileHandler.cpp:294-345 | from a fresh download of a non-empty file one holder is enough: some run ends with the original on disk and every piece Verified |
| RarityIndex.RarityAfterBitfield | Peer/Torrent/PieceManagement/RarityTrackerChooser.cpp:55-61 | a new bitfield keeps every counter equal to the number of holders modulo 256 |
| RarityIndex.RarityAfterRemovePeer | Peer/Torrent/PieceManagement/RarityTrackerChooser.cpp:63-71 | so does removing a peer |
| RarityIndex.RarityAfterOwnership | Peer/Torrent/PieceManagement/RarityTrackerChooser.cpp:109-121 | so do gotPiece and lostPiece |
| RarityIndex.RarityAfterAddPeer | Peer/Torrent/PieceManagement/RarityTrackerChooser.cpp:73-79 | addPeer does so if and only if the peer claimed nothing before |
| RarityIndex.PeerAdded | Peer/Torrent/PieceManagement/RarityTrackerChooser.cpp:73-79 | a peer that is added has a window of ten, no requests, no response times and no piece |
| RarityIndex.PeerRemoved | Peer/Torrent/PieceManagement/RarityTrackerChooser.cpp:63-71 | of a peer that is removed only the response times are left |
| RarityIndex.OthersStay | Peer/Torrent/PieceManagement/RarityTrackerChooser.cpp:55-79 | adding, removing and describing a peer changes nothing about another one |
| RarityIndex.OwnershipSet | Peer/Torrent/PieceManagement/RarityTrackerChooser.cpp:109-121 | gotPiece and lostPiece change what is believed of that piece of that peer, and nothing else but its counter |
| RarityIndex.RarityRun | Peer/Torrent/PieceManagement/RarityTrackerChooser.cpp:8-121 | in any run the counters equal a recount in every state if and only if no peer that claimed a piece is added again |
| RarityIndex.RarestFirstExactly | Peer/Torrent/PieceManagement/RarityTrackerChooser.cpp:156-186 | the order of the empty pieces is rarest first if and only if all their counters are equal |
| RarityIndex.MostHeldFirst | Peer/Torrent/PieceManagement/RarityTrackerChooser.cpp:156-186 | the call is sure to visit the pieces held by most peers first, whatever its sort makes of ties, if and only if the holders of its empty pieces compare as they do modulo 256 |
| RarityIndex.FewPeersMostHeldFirst | Peer/Torrent/PieceManagement/RarityTrackerChooser.cpp:156-186 | so it is with at most 255 peers |
| RarityIndex.HoldersWrapAround | Peer/Torrent/PieceManagement/RarityTrackerChooser.cpp:156-186 | a piece that one peer has is visited before a piece that 256 peers have |
| TorrentFileHandler.TorrentFileHandler.constructor | Peer/Torrent/TorrentFileHandler/TorrentFileHandler.cpp:12-40 | the handler starts with a fresh chooser and is a seed if progress is already 1 |
| TorrentFileHandler.TorrentFileHandler.HandleDataRequest | Peer/Torrent/TorrentFileHandler/TorrentFileHandler.cpp:58-69 | one response for each block the request covers, with the loaded bytes |
| TorrentFileHandler.TorrentFileHandler.HandleResponse | Peer/Torrent/TorrentFileHandler/TorrentFileHandler.cpp:268-291 | the block is saved and its request marked; true if the piece is now verified; for a block that does not exist the call fails with the bytes written and nothing else changed |
| TorrentFileHandler.TorrentFileHandler.FinishIfComplete | Peer/Torrent/TorrentFileHandler/TorrentFileHandler.cpp:303-312 | the check at progress 1 and, if the file is right, the change to a seed |
| TorrentFileHandler.TorrentFileHandler.RegisterPeers | Peer/Torrent/TorrentFileHandler/TorrentFileHandler.cpp:313-320 | new peers are added in order and known afterwards |
| TorrentFileHandler.TorrentFileHandler.AskPeers | Peer/Torrent/TorrentFileHandler/TorrentFileHandler.cpp:321-332 | the engine's choosing step for the peers the call reaches, with answers that ask for exactly the chosen blocks unless it throws |
| TorrentFileHandler.TorrentFileHandler.DownloadRound | Peer/Torrent/TorrentFileHandler/TorrentFileHandler.cpp:302-345 | one turn of the download loop is the engine's steps in this order, for any list of requestable peers |
| TorrentFileHandler.ServesExactlyTheChoice | Peer/Torrent/TorrentFileHandler/TorrentFileHandler.cpp:58-69 | serving coalesced requests emits one response for each chosen block and no other |
| TorrentFileHandler.FullPeerIsHonest | Peer/Torrent/TorrentFileHandler/TorrentFileHandler.cpp:58-69 | a peer that holds the whole file serves the bytes of the original |
| Sha256.F1 | Peer/Encryptions/SHA256/sha256.h:78-78 | the shift form of the rotations is the big sigma 0 of FIPS 180-4 |
| Sha256.F2 | Peer/Encryptions/SHA256/sha256.h:79-79 | likewise big sigma 1 |
| Sha256.F3 | Peer/Encryptions/SHA256/sha256.h:80-80 | likewise small sigma 0 |
| Sha256.F4 | Peer/Encryptions/SHA256/sha256.h:81-81 | likewise small sigma 1 |
| Fips180.ChBits | Peer/Encryptions/SHA256/sha256.h:76-76 | where x is set the choice is y, elsewhere z |
| Fips180.MajBits | Peer/Encryptions/SHA256/sha256.h:77-77 | the majority is set where two of its arguments are, and clear where two of them are |
| Fips180.WordValue | Peer/Encryptions/SHA256/sha256.h:89-92 | a word of a block is the big-endian number of its four bytes |
| Fips180.BytesValue | Peer/Encryptions/SHA256/sha256.h:82-88 | the four bytes of a word write it, most significant first |
| Fips180.BytesOfRead | Peer/Encryptions/SHA256/sha256.h:82-92 | the bytes of a word that was read are those it was read from ... |
| Fips180.ReadOfBytes | Peer/Encryptions/SHA256/sha256.h:82-92 | ... and the word read from its bytes is the word |
| Sha256.ConstantsAreCubeRoots | Peer/Encryptions/SHA256/sha256.cpp:6-24 | each of the 64 table entries is the first 32 bits of the fractional part of the cube root of its prime (section 4.2.2) |
| Sha256.InitialValueIsSquareRoots | Peer/Encryptions/SHA256/sha256.cpp:62-73 | the initial hash value is the fractions of the square roots of the first eight primes (section 5.3.3) |
| Fips180.PaddedMessage | Peer/Encryptions/SHA256/sha256.cpp:97-112 | a message is followed by a 1 bit, fewer than 64 bytes of zeros and its length in bits as eight bytes, most significant first, to a multiple of 64 bytes |
| Sha256.PadsAgree | Peer/Encryptions/SHA256/sha256.cpp:97-112 | the padding with a 32-bit length word is the padding of section 5.1.1 if and only if the message is under 2^29 bytes |
| Sha256.DigestsAgree | Peer/Encryptions/SHA256/sha256.cpp:97-112 | under 2^29 bytes the digest is that of section 6.2 |
| Sha256.SHA256.Schedule | Peer/Encryptions/SHA256/sha256.cpp:35-40 | the message schedule of section 6.2.2 |
| Sha256.SHA256.RunRounds | Peer/Encryptions/SHA256/sha256.cpp:44-55 | the 64 rounds of section 6.2.2, whose choice and majority are fixed bit by bit |
| Sha256.SHA256.CompressBlock | Peer/Encryptions/SHA256/sha256.cpp:34-58 | one block is compressed into the hash value |
| Sha256.SHA256.Transform | Peer/Encryptions/SHA256/sha256.cpp:26-60 | the hash value after the given number of blocks |
| Sha256.SHA256.Init | Peer/Encryptions/SHA256/sha256.cpp:62-73 | the initial hash value and an empty buffer |
| Sha256.SHA256.Update | Peer/Encryptions/SHA256/sha256.cpp:75-95 | the object keeps hashing the concatenation of all bytes fed: fewer than 64 in the buffer, the rest in the hash value, for every message length the source's int counters allow |
| Sha256.SHA256.Final | Peer/Encryptions/SHA256/sha256.cpp:97-112 | the digest of all bytes fed, with the code's padding |
| Sha256.ToHashSha256 | Peer/Encryptions/SHA256/sha256.cpp:132-146 | the digest of the input, the standard's for inputs under 2^29 bytes |
| Sha256.HashInParts | Peer/Encryptions/SHA256/sha256.cpp:62-112 | for every partition of a message into updates the digest is that of the whole message |
| Sha256Example.DigestOfExample | Peer/Encryptions/SHA256/sha256.cpp:132-146 | the digest of "abc" is the one the standard prints, with its message schedule and the variables after each of the 64 rounds |
| AesField.Product2 | Peer/Encryptions/AES/AESHandler.cpp:5-23 | table entry = product with 2 in GF(2^8), section 4.2 of FIPS 197 |
| AesField.Product3 | Peer/Encryptions/AES/AESHandler.cpp:25-42 | product with 3 |
| AesField.Product9 | Peer/Encryptions/AES/AESHandler.cpp:44-61 | product with 9 |
| AesField.Product11 | Peer/Encryptions/AES/AESHandler.cpp:63-86 | product with 11 |
| AesField.Product13 | Peer/Encryptions/AES/AESHandler.cpp:88-112 | product with 13 |
| AesField.Product14 | Peer/Encryptions/AES/AESHandler.cpp:114-138 | product with 14 |
| AesField.SBoxIsSubstitute | Peer/Encryptions/AES/AESHandler.cpp:253-274 | the S-box table is the affine image of the field inverse (section 5.1.1) |
| AesField.InverseInverts | Peer/Encryptions/AES/AESHandler.cpp:253-274 | the 254th power is the multiplicative inverse |
| AesTables.SBoxInverse | Peer/Encryptions/AES/AESHandler.cpp:276-297 | the inverse table undoes the S-box |
| AesField.UnmixMix | Peer/Encryptions/AES/AESHandler.cpp:328-356 | the inverse column mixing undoes the column mixing |
| AesHandler.RconIsPower | Peer/Encryptions/AES/AESHandler.cpp:239-251 | the round constants are the powers of x |
| AesHandler.Rotate | Peer/Encryptions/AES/AESHandler.cpp:299-305 | a word turned in place by any number of places |
| AesHandler.SubWordInPlace | Peer/Encryptions/AES/AESHandler.cpp:307-311 | every byte replaced by the S-box |
| AesHandler.SubBytesInPlace | Peer/Encryptions/AES/AESHandler.cpp:313-320 | every byte of the matrix replaced, the rest of the vector untouched |
| AesHandler.ShiftRowsInPlace | Peer/Encryptions/AES/AESHandler.cpp:322-326 | row r turned by r places, to the left or to the right |
| AesHandler.MixColumnsInPlace | Peer/Encryptions/AES/AESHandler.cpp:328-341 | every column mixed through the tables |
| AesHandler.MixColumnsInvInPlace | Peer/Encryptions/AES/AESHandler.cpp:343-356 | every column unmixed through the tables |
| AesHandler.XorInto | Peer/Encryptions/AES/AESHandler.cpp:358-368 | sixteen bytes added in place |
| AesHandler.AESHandler.KeyExpansion | Peer/Encryptions/AES/AESHandler.cpp:381-414 | the eleven keys are the round keys of the recurrence of section 5.2, the first one the key itself |
| AesHandler.AESHandler.EncryptMat | Peer/Encryptions/AES/AESHandler.cpp:416-427 | the matrix is replaced by its encryption, the rest of the vector untouched |
| AesHandler.AESHandler.DecryptMat | Peer/Encryptions/AES/AESHandler.cpp:429-440 | the matrix is replaced by its decryption, the rest of the vector untouched |
| AesHandler.AESHandler.Encrypt | Peer/Encryptions/AES/AESHandler.cpp:160-180 | the vector becomes the encrypted bytes in either mode, or the call fails and leaves it alone |
| AesHandler.AESHandler.EncryptBlocks | Peer/Encryptions/AES/AESHandler.cpp:168-178 | forward chaining: each block is added to the encrypted one before it |
| AesHandler.AESHandler.Decrypt | Peer/Encryptions/AES/AESHandler.cpp:182-197 | the vector becomes the decrypted bytes, or the call fails |
| AesHandler.AESHandler.DecryptBlocks | Peer/Encryptions/AES/AESHandler.cpp:186-193 | the backward in-place loop always adds a block that is still encrypted |
| AesHandler.AESHandler.constructor | Peer/Encryptions/AES/AESHandler.cpp:150-158 | a handler holds the expansion of its key |
| Aes.BlockUndone | Peer/Encryptions/AES/AESHandler.cpp:416-440 | decryptMat undoes encryptMat for any eleven round keys |
| Aes.BlockIsCipher | Peer/Encryptions/AES/AESHandler.cpp:416-427 | encryptMat is the cipher of section 5.1 on the transposed block with transposed round keys |
| Aes.ExpandedBlockIsCipher | Peer/Encryptions/AES/AESHandler.cpp:381-440 | the same for the expansion of any key, with decryption |
| Fips197Example.CipherOfExample | Peer/Encryptions/AES/AESHandler.cpp:381-427 | the cipher and the key expansion give the round keys, the states and the ciphertext that the standard prints for its example |
| Aes.ModeUndone | Peer/Encryptions/AES/AESHandler.cpp:168-193 | undoing a whole sequence of blocks, chained or not, for any initialisation vector |
| Aes.PaddingUndone | Peer/Encryptions/AES/AESHandler.cpp:370-379 | removing the padding of section 6.3 of RFC 5652 gives back the data |
| Aes.PaddingCounts | Peer/Encryptions/AES/AESHandler.cpp:370-379 | between one and sixteen bytes are added, each of them the number of all |
| Aes.DecryptEncrypt | Peer/Encryptions/AES/AESHandler.cpp:160-197 | decrypting what was encrypted gives back the data, CBC and ECB, padded or block-aligned |
| MetaDataFile.HashParts | Peer/Utils/MetaDataFile/MetaDataFile.cpp:36-43 | the hashes of exactly the parts of the publisher's cut |
| MetaDataFile.ProtectKey | Peer/Utils/MetaDataFile/MetaDataFile.cpp:46-63 | with a password the key is wrapped under it and the salt kept, without one it is stored as it is |
| MetaDataFile.CreateMetaData | Peer/Utils/MetaDataFile/MetaDataFile.cpp:15-70 | all fields of the metadata from the file, the password and the random values |
| MetaDataFile.PublishedPiecesVerify | Peer/Utils/MetaDataFile/MetaDataFile.cpp:36-44 | under 2^32 bytes every piece the downloader cuts has the recorded hash |
| KeyWrapping.KeysFromHash | Peer/Utils/MetaDataFile/MetaDataFile.cpp:47-58 | the wrapping keys are the expansion of the first sixteen bytes of the standard's hash of the password followed by the salt |
| KeyWrapping.WrapKey | Peer/Utils/MetaDataFile/MetaDataFile.cpp:47-58 | the key encrypted under the first half of the hash of password and salt |
| KeyWrapping.DecryptAesKey | Peer/Utils/MetaDataFile/MetaDataFile.cpp:212-221 | the stored key decrypted under the same key |
| KeyWrapping.UnwrapUndoesWrap | Peer/Utils/MetaDataFile/MetaDataFile.cpp:47-58 | the password gives back the wrapped key, for every salt and key |
| Publishing.MetaDataIsRecorded | Peer/Utils/MetaDataFile/MetaDataFile.cpp:36-44 | a download started from the metadata of a file under 2^32 bytes has the hashes of that file |
| Publishing.PublishedFileArrives | Peer/Torrent/TorrentFileHandler/TorrentFileHandler.cpp:294-345 | a published file downloaded from any number of its holders in a timely run arrives unchanged |
| Publishing.HashBytes | Peer/Encryptions/SHA256/sha256.cpp:132-146 | the hash of a file's bytes, the standard's under 2^29 bytes |
| Publishing.ArrivesWithSha256 | Peer/Torrent/TorrentFileHandler/TorrentFileHandler.cpp:294-345 | with this hash the arrived file has the digest of FIPS 180-4 that the publisher recorded |
| ProgressFile.SerializePiece | Peer/Utils/DowndloadProgress/DownloadProgress.cpp:395-417 | the record of a piece: 64 bytes and 11 for each block |
| ProgressFile.Serialize | Peer/Utils/DowndloadProgress/DownloadProgress.cpp:61-97 | the bytes of the whole progress file; the fields of fixed size stand at bytes 0, 1, 9, 17, 25 and 33 |
| ProgressFile.RecordLayout | Peer/Utils/DowndloadProgress/DownloadProgress.cpp:61-97 | flag, counter, file size, start, last access and file hash fill the first 65 bytes in this order |
| ProgressFile.NamesLayout | Peer/Utils/DowndloadProgress/DownloadProgress.cpp:61-97 | then file name and creator, each behind its length modulo 256, the address, the number of pieces and the pieces |
| ProgressFile.PieceLayout | Peer/Utils/DowndloadProgress/DownloadProgress.cpp:395-417 | the fields of a piece stand at bytes 0, 8, 12, 16, 24, 28 and 60 of its record, and the blocks from byte 64 on |
| ProgressFile.BlockLayout | Peer/Utils/DowndloadProgress/DownloadProgress.cpp:283-290 | block j has eleven bytes: offset, size, the mark of the last one, and the status |
| ProgressFile.StatusBytes | Peer/Utils/DowndloadProgress/DownloadProgress.h:9-14 | the statuses are the numbers 0 to 3 in four bytes |
| ProgressFile.CounterPatch | Peer/Torrent/FileIO/FileIO.cpp:204-210 | writing the counter into the file at byte 1 gives the file that would be written anew with it |
| ProgressFile.TimePatch | Peer/Torrent/FileIO/FileIO.cpp:211-217 | so does writing the time of the last access at byte 25 |
| ProgressFile.RecordAt | Peer/Utils/DowndloadProgress/DownloadProgress.cpp:90-97 | the record of piece i stands behind the records before it |
| ProgressFile.UpdatePlaceExact | Peer/Utils/DowndloadProgress/DownloadProgress.cpp:3-10 | the update of a piece is written into its record, behind offset and size, if and only if the creator's name has four bytes, for every piece of a cut file |
| ProgressFile.UpdateExact | Peer/Utils/DowndloadProgress/DownloadProgress.cpp:419-453 | even there it gives the record of the piece if and only if the time stamp is 2^32 + 1 times the code of the status, since the two are written in the other order |
| ProgressFile.DeserializeBlock | Peer/Utils/DowndloadProgress/DownloadProgress.cpp:292-307 | one block and the offset behind it |
| ProgressFile.DeserializePiece | Peer/Utils/DowndloadProgress/DownloadProgress.cpp:455-501 | one piece and the offset behind it |
| ProgressFile.Deserialize | Peer/Utils/DowndloadProgress/DownloadProgress.cpp:99-144 | every field of the object is what the bytes say |
| ProgressFile.TakesPiece | Peer/Utils/DowndloadProgress/DownloadProgress.cpp:395-501 | a written piece is read back, whatever follows |
| ProgressFile.ReadUndoesWrite | Peer/Utils/DowndloadProgress/DownloadProgress.cpp:61-144 | reading undoes writing, with any bytes behind, if and only if both names are under 256 bytes |
| BitTorrentMessages.SerializeBase | Peer/NetworkUnit/ServerComm/BitTorrentMessages.h:94-101 | header and base part, with the size of all that follows |
| BitTorrentMessages.Serialize | Peer/NetworkUnit/ServerComm/BitTorrentMessages.h:207-215 | a serialised request, block or bitfield is one frame around its payload |
| BitTorrentMessages.PayloadLayout | Peer/NetworkUnit/ServerComm/BitTorrentMessages.h:94-101 | file id, hash and vector fill bytes 0, 32 and 64 to 80; then piece at 80, block at 84, and count, data or bitfield to the end; the codes are 121, 123 and 112 |
| BitTorrentMessages.DeserializeField | Peer/NetworkUnit/ServerComm/BitTorrentMessages.h:439-465 | the bitfield, or the error for empty, short or missing data |
| BitTorrentMessages.BitsRestored | Peer/NetworkUnit/ServerComm/BitTorrentMessages.h:430-437 | eight bits written as a number come back |
| BitTorrentMessages.BitsInByte | Peer/NetworkUnit/ServerComm/BitTorrentMessages.h:430-437 | element k of a bitset is the bit of weight 2^k |
| BitTorrentMessages.RequestRestored | Peer/NetworkUnit/ServerComm/BitTorrentMessages.h:207-229 | a data request is read back |
| BitTorrentMessages.BlockRestored | Peer/NetworkUnit/ServerComm/BitTorrentMessages.h:394-415 | a block response is read back |
| BitTorrentMessages.FieldRestored | Peer/NetworkUnit/ServerComm/BitTorrentMessages.h:430-465 | a bitfield is read back if and only if it is not empty |
| BitTorrentMessages.GetBitField | Peer/Utils/DowndloadProgress/DownloadProgress.cpp:146-155 | bit i is set if and only if piece i is Verified; the bits past the last piece are clear |
| BitTorrentMessages.BitfieldEndToEnd | Peer/NetworkUnit/ServerComm/BitTorrentMessages.h:430-465 | packed, framed, read from the stream and given to the chooser, hasPiece(peer, i) is true if and only if the sender's piece i is Verified |
| TCPSocket.SerializeHeader | Peer/NetworkUnit/ServerComm/Messages.h:121-128 | code and size, least significant byte first |
| TCPSocket.FrameLayout | Peer/NetworkUnit/ServerComm/Messages.h:121-128 | a frame is the code, four bytes of size, least significant first, and the data |
| TCPSocket.PrefixIsShort | Peer/NetworkUnit/ServerComm/TCPSocket/TCPSocket.cpp:51-74 | as long as less than the whole frame has arrived nothing is read |
| TCPSocket.ReadFramed | Peer/NetworkUnit/ServerComm/TCPSocket/TCPSocket.cpp:51-74 | the first frame of a stream is read back, and only it is consumed |
| TCPSocket.TCPSocket.FindRelevant | Peer/NetworkUnit/ServerComm/TCPSocket/TCPSocket.cpp:42-44 | the first buffered message with a relevant code |
| TCPSocket.TCPSocket.ReadMessage | Peer/NetworkUnit/ServerComm/TCPSocket/TCPSocket.cpp:51-74 | one message off the wire, or the error for a short read or a closed connection |
| TCPSocket.TCPSocket.Receive | Peer/NetworkUnit/ServerComm/TCPSocket/TCPSocket.cpp:34-82 | result, buffer and wire after the call, for every buffer, every stream of bytes and an open or closed connection |
| TCPSocket.FirstMatchIsRemoved | Peer/NetworkUnit/ServerComm/TCPSocket/TCPSocket.cpp:34-82 | buffer and wire act as one list: the first relevant message is delivered and the others keep their order; if there is none the call waits, or fails if the connection is closed |
| IceMessagesHandler.IceMessagesHandler.constructor | Server/Communication/IceMessagesHandler.h:29-29 | an empty table |
| IceMessagesHandler.IceMessagesHandler.HandleRequest | Server/Communication/IceMessagesHandler.cpp:17-33 | the new table and the reply: a refusal goes to the requester and changes nothing; any other reply goes to the requested user with requester, candidates and a number that is now pending for the two |
| IceMessagesHandler.RefusedExactly | Server/Communication/IceMessagesHandler.cpp:17-26 | a request is refused if and only if one between the two users, in whichever direction, is pending that is less than ten seconds old |
| IceMessagesHandler.ReplyNamesThePending | Server/Communication/IceMessagesHandler.cpp:27-33 | otherwise the number in the message is pending from then on with this pair and time, an answer to it reaches the requester, and no other entry changes |
| IceMessagesHandler.IceMessagesHandler.HandleAuthorized | Server/Communication/IceMessagesHandler.cpp:35-43 | the answer goes to the requester, or to the zero ID for an unknown number, and the entry is gone |
| IceMessagesHandler.IceMessagesHandler.HandleAlreadyConnected | Server/Communication/IceMessagesHandler.cpp:45-53 | likewise |
| IceMessagesHandler.IceMessagesHandler.HandleFullCapacity | Server/Communication/IceMessagesHandler.cpp:55-62 | likewise |
| IceMessagesHandler.UnknownIdChangesNothing | Server/Communication/IceMessagesHandler.cpp:35-43 | an answer leaves the table as it is if and only if its number is not pending |
| IceMessagesHandler.SpacedRun | Server/Communication/IceMessagesHandler.cpp:17-33 | in every run with a clock that does not go back, entries of one pair are at least ten seconds apart |
| IceMessagesHandler.PendingUntilAnswered | Server/Communication/IceMessagesHandler.cpp:17-62 | a request stays pending until its first answer and is gone afterwards, while fewer than 65536 requests are accepted |
| IceMessagesHandler.AnsweredOnce | Server/Communication/IceMessagesHandler.cpp:17-62 | so the first answer to the number that the requested user was sent reaches the requester, and later ones nobody |
| IceMessagesHandler.NumberUsedAgain | Server/Communication/IceMessagesHandler.cpp:30-31 | with 65536 accepted requests the same number is sent out again and the first requester is lost |

## Left out

- Threads, mutexes, condition variables and sleeps: every handler call is one atomic step, and the file, the
  progress and the chooser are moved by one handler at a time.
- Sockets, the ICE library, process control, the command line and directories: files are byte strings and a
  connection is the string of bytes that has arrived.
- The tie between pieces of equal rarity, broken by `rand()`: any order that respects the rarity is allowed.
- Time stamps: `lastAccess` and `_lastTime` are stored and restored by the progress file but not moved by the
  steps of the engine; `lastRequestTimes` is written and never read.
- `bytesDownloaded` of a piece is never updated by the source, so the order of started pieces is any order that
  respects the recorded values.
- Peer identities of the engine are numbers, since they are only compared; the server's identities are byte strings.
- DownloadRuns.SwarmDownload: that calls are timely is a condition on the run; the source does not enforce it, and
  `Miscounting.LateCopyMiscounts` is a run that breaks it.
- DownloadRuns.DisciplinedDownload: the same holds of the discipline, each clause of which is necessary.
- Completion.CanFinish: says that the download can be brought to its end, not that it will be; that peers do answer
  is not part of the model. An empty file is excluded, since it never reports progress 1.
- TorrentFileHandler.TorrentFileHandler.HandleDataRequest: a request whose block numbers pass 65535 makes the 16-bit
  loop counter of the source start again and is excluded.
- RarityTrackerChooser.RarityTrackerChooser.ChooseBlocks: an exception leaves the source's detached thread and ends
  the program; here the call fails and the state it leaves is stated.
- FileIO.FileIO.SaveBlock: block numbers are 16-bit parameters in the source, so larger ones are excluded.
- ProgressFile.Deserialize: data that ends early or holds no valid status is undefined in the source and
  excluded here.
- BitTorrentMessages.RequestRestored: payloads that hold the base part but end inside the fixed-size body are read
  out of range by the source and excluded from the reader here.
- TCPSocket.TCPSocket.Receive: a call that finds nothing relevant waits for more bytes in the source; here it
  returns that it is waiting. A short read is one that asks for more than has arrived.
- Sha256.SHA256.Update: messages of 2^31 bytes and more overflow the `int` counters of the source and are excluded.
- AesHandler.AESHandler.Decrypt: vectors of 2^31 bytes and more overflow the `int` index and are excluded, as is
  removing padding from an empty vector.
- MetaDataFile.CreateMetaData: files of 2^47 bytes and more, whose size the bit field would truncate.
- Contents.VerifiedIntegrity: the hash function is arbitrary there; `Publishing.ArrivesWithSha256` puts in SHA-256.
- The progress file on disk while a download runs: what the writes of `updatePieceStateToFile` do to its bytes is
  stated, but no step of the engine writes it.
- Serialising the metadata file: the port is written from the wrong bytes and does not survive.
- `getTopNRarest`, `CancelDataRequest`, `UpdateHash`, `verifyHash`, `savePiece` and `loadPiece`: unused, or doing
  something else than their names say.
- `PeerManager`, `PeersConnectionManager`, the tracker and republishing: network plumbing with weak invariants.
- The other message types: the same few fixed-size fields as the ones modelled.
