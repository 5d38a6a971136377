// The progress file: the bytes a download's state is saved as, and the reader that restores it.

module ProgressFile {
  import opened Wrappers
  import opened Bytes
  import opened DownloadProgress
  import opened FileSplitter

  /** The whole state of a DownloadProgress object. */
  datatype Record = Record(
    completed: bool,
    total: nat,
    fileSize: nat,
    startTime: nat,
    lastTime: nat,
    fileHash: Hash,
    fileName: seq<byte>,
    creator: seq<byte>,
    signalingAddress: seq<byte>,
    pieces: seq<PieceProgress>)

  const HASH_SIZE := 32
  const ADDRESS_SIZE := 6

  // ----- what the fields of the C++ objects can hold

  predicate BlockFits(b: BlockInfo) {
    b.offset < 0x1_0000_0000 && b.size < 0x1_0000
  }

  predicate PieceFits(p: PieceProgress) {
    && p.offset < TWO64 && p.size < 0x1_0000_0000 && p.bytesDownloaded < 0x1_0000_0000 && p.lastAccess < TWO64
    && |p.hash| == HASH_SIZE
    && |p.blocks| < 0x1_0000_0000
    && forall j :: 0 <= j < |p.blocks| ==> BlockFits(p.blocks[j])
  }

  predicate RecordFits(r: Record) {
    && r.total < TWO64 && r.fileSize < TWO64 && r.startTime < TWO64 && r.lastTime < TWO64
    && |r.fileHash| == HASH_SIZE && |r.signalingAddress| == ADDRESS_SIZE
    && |r.pieces| < 0x1_0000_0000
    && forall i :: 0 <= i < |r.pieces| ==> PieceFits(r.pieces[i])
  }

  // ----- writing

  function StatusCode(s: DownloadStatus): nat {
    match s
    case Empty => 0
    case Downloading => 1
    case Downloaded => 2
    case Verified => 3
  }

  function BoolCode(b: bool): seq<byte> {
    if b then [1] else [0]
  }

  function EncodeBlock(b: BlockInfo): (s: seq<byte>)
    ensures |s| == 11
  {
    Encode(b.offset, 4) + Encode(b.size, 2) + BoolCode(b.isLastBlock) + Encode(StatusCode(b.status), 4)
  }

  function EncodeBlocks(blocks: seq<BlockInfo>): (s: seq<byte>)
    ensures |s| == 11 * |blocks|
  {
    if blocks == [] then [] else EncodeBlock(blocks[0]) + EncodeBlocks(blocks[1..])
  }

  /** The record of a piece: 64 bytes, and 11 for every block. */
  function EncodePiece(p: PieceProgress): (s: seq<byte>)
    ensures |s| == 32 + |p.hash| + 11 * |p.blocks|
  {
    Encode(p.offset, 8) + Encode(p.size, 4) + Encode(p.bytesDownloaded, 4) + Encode(p.lastAccess, 8)
    + Encode(StatusCode(p.status), 4) + p.hash + Encode(|p.blocks|, 4) + EncodeBlocks(p.blocks)
  }

  function EncodePieces(pieces: seq<PieceProgress>): seq<byte> {
    if pieces == [] then [] else EncodePiece(pieces[0]) + EncodePieces(pieces[1..])
  }

  /** A length byte, which wraps around for long names, and the name. */
  function EncodeName(name: seq<byte>): (s: seq<byte>)
    ensures |s| == 1 + |name|
  {
    Encode(|name| % 256, 1) + name
  }

  function EncodeHead(r: Record): seq<byte> {
    BoolCode(r.completed) + Encode(r.total, 8) + Encode(r.fileSize, 8) + Encode(r.startTime, 8)
    + Encode(r.lastTime, 8) + r.fileHash
  }

  function EncodeRecord(r: Record): seq<byte> {
    EncodeHead(r) + EncodeName(r.fileName) + EncodeName(r.creator) + r.signalingAddress
    + Encode(|r.pieces|, 4) + EncodePieces(r.pieces)
  }

  // ----- where the fields stand

  /** What stands behind the first 65 bytes. */
  function EncodeTail(r: Record): seq<byte> {
    EncodeName(r.fileName) + EncodeName(r.creator) + r.signalingAddress + Encode(|r.pieces|, 4) + EncodePieces(r.pieces)
  }

  lemma HeadAndTail(r: Record)
    ensures EncodeRecord(r) == EncodeHead(r) + EncodeTail(r)
  {
    hide Encode, EncodeName, EncodePieces, EncodeHead;
  }

  lemma HeadLayout(r: Record)
    requires |r.fileHash| == HASH_SIZE
    ensures var head := EncodeHead(r);
      && |head| == 65 && head[0] == (if r.completed then 1 else 0)
      && head[1..9] == Encode(r.total, 8) && head[9..17] == Encode(r.fileSize, 8)
      && head[17..25] == Encode(r.startTime, 8) && head[25..33] == Encode(r.lastTime, 8)
      && head[33..65] == r.fileHash
  {
    hide Encode;
  }

  lemma FrontSlices(data: seq<byte>, front: seq<byte>, back: seq<byte>)
    requires data == front + back
    ensures forall i, j | 0 <= i <= j <= |front| :: data[i..j] == front[i..j]
  {
  }

  /** The fields of fixed size. */
  lemma RecordLayout(r: Record)
    requires |r.fileHash| == HASH_SIZE
    ensures var data := EncodeRecord(r);
      && |data| >= 65 && data[0] == (if r.completed then 1 else 0)
      && data[1..9] == Encode(r.total, 8) && data[9..17] == Encode(r.fileSize, 8)
      && data[17..25] == Encode(r.startTime, 8) && data[25..33] == Encode(r.lastTime, 8)
      && data[33..65] == r.fileHash
  {
    hide Encode, EncodeHead, EncodeTail, EncodeRecord;
    HeadLayout(r);
    HeadAndTail(r);
    FrontSlices(EncodeRecord(r), EncodeHead(r), EncodeTail(r));
  }

  lemma SlicesInARow(data: seq<byte>, at: nat, x: seq<byte>, y: seq<byte>)
    requires at <= |data| && data[at..] == x + y
    ensures at + |x| <= |data| && data[at..at + |x|] == x && data[at + |x|..] == y
  {
    assert data[at..at + |x|] == data[at..][..|x|];
    assert data[at + |x|..] == data[at..][|x|..];
  }

  /** The two names, each behind its length, the address, the number of pieces, and the pieces. */
  lemma NamesLayout(r: Record)
    requires |r.fileHash| == HASH_SIZE && |r.signalingAddress| == ADDRESS_SIZE
    ensures var data, f, c := EncodeRecord(r), |r.fileName|, |r.creator|;
      && |data| >= 77 + f + c
      && data[65..66 + f] == [f % 256] + r.fileName && data[66 + f..67 + f + c] == [c % 256] + r.creator
      && data[67 + f + c..73 + f + c] == r.signalingAddress
      && data[73 + f + c..77 + f + c] == Encode(|r.pieces|, 4)
      && data[77 + f + c..] == EncodePieces(r.pieces)
  {
    hide EncodeHead, Encode, EncodePieces, EncodeName;
    HeadLayout(r);
    NameLayout(r.fileName);
    NameLayout(r.creator);
    var data, f, c := EncodeRecord(r), |r.fileName|, |r.creator|;
    var b3 := Encode(|r.pieces|, 4) + EncodePieces(r.pieces);
    var b2 := r.signalingAddress + b3;
    var b1 := EncodeName(r.creator) + b2;
    assert data == EncodeHead(r) + (EncodeName(r.fileName) + b1);
    assert data[0..] == data;
    SlicesInARow(data, 0, EncodeHead(r), EncodeName(r.fileName) + b1);
    SlicesInARow(data, 65, EncodeName(r.fileName), b1);
    SlicesInARow(data, 66 + f, EncodeName(r.creator), b2);
    SlicesInARow(data, 67 + f + c, r.signalingAddress, b3);
    SlicesInARow(data, 73 + f + c, Encode(|r.pieces|, 4), EncodePieces(r.pieces));
  }

  lemma NameLayout(name: seq<byte>)
    ensures EncodeName(name) == [|name| % 256] + name
  {
  }

  /** A status is four bytes, of which the first says which. */
  lemma StatusBytes(s: DownloadStatus)
    ensures Encode(StatusCode(s), 4)
      == [match s { case Empty => 0 case Downloading => 1 case Downloaded => 2 case Verified => 3 }, 0, 0, 0]
  {
    EncodeShort(StatusCode(s));
    hide Encode;
  }

  /** The record of a piece, field by field. */
  lemma PieceLayout(p: PieceProgress)
    requires |p.hash| == HASH_SIZE
    ensures var data := EncodePiece(p);
      && data[..8] == Encode(p.offset, 8) && data[8..12] == Encode(p.size, 4)
      && data[12..16] == Encode(p.bytesDownloaded, 4) && data[16..24] == Encode(p.lastAccess, 8)
      && data[24..28] == Encode(StatusCode(p.status), 4) && data[28..60] == p.hash
      && data[60..64] == Encode(|p.blocks|, 4) && data[64..] == EncodeBlocks(p.blocks)
  {
    hide Encode, EncodeBlocks, StatusCode;
  }

  /** Block j of a piece: its offset, its size, whether it is the last one, and its status. */
  lemma {:induction false} BlockLayout(blocks: seq<BlockInfo>, j: nat)
    requires j < |blocks|
    ensures var data := EncodeBlocks(blocks)[11 * j..11 * j + 11];
      && data[..4] == Encode(blocks[j].offset, 4) && data[4..6] == Encode(blocks[j].size, 2)
      && data[6] == (if blocks[j].isLastBlock then 1 else 0)
      && data[7..] == Encode(StatusCode(blocks[j].status), 4)
  {
    hide Encode, StatusCode;
    if j == 0 {
      assert EncodeBlocks(blocks)[0..11] == EncodeBlock(blocks[0]);
    } else {
      BlockLayout(blocks[1..], j - 1);
      assert EncodeBlocks(blocks)[11 * j..11 * j + 11] == EncodeBlocks(blocks[1..])[11 * (j - 1)..11 * (j - 1) + 11];
    }
  }

  // ----- the two numbers that are patched in place

  lemma Patched(front: seq<byte>, was: seq<byte>, back: seq<byte>, data: seq<byte>)
    requires |was| == |data|
    ensures WriteChunk(front + was + back, |front|, data) == front + data + back
  {
    if data != [] {
      var w := WriteChunk(front + was + back, |front|, data);
      forall x | 0 <= x < |w|
        ensures w[x] == (front + data + back)[x]
      {
        WriteChunkWhole(front + was + back, |front|, data, x);
      }
      WriteChunkWhole(front + was + back, |front|, data, 0);
    }
  }

  lemma PatchedInHead(first: seq<byte>, was: seq<byte>, second: seq<byte>, tail: seq<byte>, data: seq<byte>)
    requires |was| == |data|
    ensures WriteChunk(first + was + second + tail, |first|, data) == first + data + second + tail
  {
    Patched(first, was, second + tail, data);
    hide WriteChunk;
    assert first + was + second + tail == first + was + (second + tail);
    assert first + data + second + tail == first + data + (second + tail);
  }

  lemma CounterInHead(r: Record)
    ensures EncodeHead(r) == BoolCode(r.completed) + Encode(r.total, 8)
      + (Encode(r.fileSize, 8) + Encode(r.startTime, 8) + Encode(r.lastTime, 8) + r.fileHash)
  {
    hide Encode;
  }

  lemma TimeInHead(r: Record)
    ensures EncodeHead(r) == (BoolCode(r.completed) + Encode(r.total, 8) + Encode(r.fileSize, 8) + Encode(r.startTime, 8))
      + Encode(r.lastTime, 8) + r.fileHash
  {
    hide Encode;
  }

  /** Writing the counter at byte 1 gives the file that would be written anew with it... */
  lemma CounterPatch(r: Record, total: nat)
    ensures WriteChunk(EncodeRecord(r), 1, Encode(total, 8)) == EncodeRecord(r.(total := total))
  {
    hide Encode, WriteChunk, EncodeRecord, EncodeHead;
    var r' := r.(total := total);
    HeadAndTail(r);
    HeadAndTail(r');
    CounterInHead(r);
    CounterInHead(r');
    PatchedInHead(BoolCode(r.completed), Encode(r.total, 8),
                  Encode(r.fileSize, 8) + Encode(r.startTime, 8) + Encode(r.lastTime, 8) + r.fileHash, EncodeTail(r),
                  Encode(total, 8));
  }

  /** ...and so does writing the time of the last access at byte 25. */
  lemma TimePatch(r: Record, lastTime: nat)
    ensures WriteChunk(EncodeRecord(r), 25, Encode(lastTime, 8)) == EncodeRecord(r.(lastTime := lastTime))
  {
    hide Encode, WriteChunk, EncodeRecord, EncodeHead;
    var r' := r.(lastTime := lastTime);
    HeadAndTail(r);
    HeadAndTail(r');
    TimeInHead(r);
    TimeInHead(r');
    PatchedInHead(BoolCode(r.completed) + Encode(r.total, 8) + Encode(r.fileSize, 8) + Encode(r.startTime, 8),
                  Encode(r.lastTime, 8), r.fileHash, EncodeTail(r), Encode(lastTime, 8));
  }

  // ----- the record of a piece that is patched in place

  /** serializeForFileUpdate: the record from its third field on, with status and time in the other order. */
  function EncodeUpdate(p: PieceProgress): seq<byte> {
    Encode(p.bytesDownloaded, 4) + Encode(StatusCode(p.status), 4) + Encode(p.lastAccess, 8)
    + p.hash + Encode(|p.blocks|, 4) + EncodeBlocks(p.blocks)
  }

  /** getPieceOffsetInProgressFile. */
  function UpdateOffset(r: Record, i: nat): nat
    requires |r.pieces| > 0
  {
    81 + i * (64 + 11 * |r.pieces[0].blocks|) + 12 + |r.fileName|
  }

  /** Where the record of piece i begins. */
  function RecordOffset(r: Record, i: nat): nat
    requires i <= |r.pieces|
  {
    77 + |r.fileName| + |r.creator| + |EncodePieces(r.pieces[..i])|
  }

  lemma {:induction false} RecordsJoined(pieces: seq<PieceProgress>, others: seq<PieceProgress>)
    ensures EncodePieces(pieces + others) == EncodePieces(pieces) + EncodePieces(others)
  {
    hide EncodePiece;
    if pieces == [] {
      assert pieces + others == others;
    } else {
      assert (pieces + others)[1..] == pieces[1..] + others;
      RecordsJoined(pieces[1..], others);
    }
  }

  lemma RecordAmongOthers(pieces: seq<PieceProgress>, i: nat)
    requires i < |pieces|
    ensures EncodePieces(pieces) == EncodePieces(pieces[..i]) + (EncodePiece(pieces[i]) + EncodePieces(pieces[i + 1..]))
  {
    hide EncodePiece;
    RecordsJoined(pieces[..i], pieces[i..]);
    assert pieces[..i] + pieces[i..] == pieces;
    assert pieces[i..][1..] == pieces[i + 1..];
  }

  /** Piece i is found where its record begins. */
  lemma RecordAt(r: Record, i: nat)
    requires |r.fileHash| == HASH_SIZE && |r.signalingAddress| == ADDRESS_SIZE && i < |r.pieces|
    ensures RecordOffset(r, i) + |EncodePiece(r.pieces[i])| <= |EncodeRecord(r)|
    ensures EncodeRecord(r)[RecordOffset(r, i)..RecordOffset(r, i) + |EncodePiece(r.pieces[i])|] == EncodePiece(r.pieces[i])
  {
    hide EncodeRecord, EncodePiece, EncodePieces;
    NamesLayout(r);
    RecordAmongOthers(r.pieces, i);
    var front, here, back := EncodePieces(r.pieces[..i]), EncodePiece(r.pieces[i]), EncodePieces(r.pieces[i + 1..]);
    SlicesInARow(EncodeRecord(r), 77 + |r.fileName| + |r.creator|, front, here + back);
    SlicesInARow(EncodeRecord(r), RecordOffset(r, i), here, back);
  }

  lemma {:induction false} EqualRecords(pieces: seq<PieceProgress>, count: nat)
    requires forall k | 0 <= k < |pieces| :: |pieces[k].hash| == HASH_SIZE && |pieces[k].blocks| == count
    ensures |EncodePieces(pieces)| == |pieces| * (64 + 11 * count)
  {
    hide EncodePiece;
    if pieces != [] {
      EqualRecords(pieces[1..], count);
      RecordSize(pieces[0]);
      assert |pieces| * (64 + 11 * count) == (|pieces| - 1) * (64 + 11 * count) + (64 + 11 * count);
    }
  }

  lemma RecordSize(p: PieceProgress)
    ensures |EncodePiece(p)| == 32 + |p.hash| + 11 * |p.blocks|
  {
  }

  /** The pieces before any piece of a cut file have as many blocks as the first. */
  lemma FullPiecesAlike(p: Progress, i: nat, k: nat)
    requires Laid(p) && k < i < |p.pieces|
    ensures |p.pieces[k].blocks| == |p.pieces[0].blocks|
  {
    PieceLengths(p.fileSize, k);
    PieceLengths(p.fileSize, 0);
    assert WellCut(p.pieces[k], PieceStart(p.fileSize, k), PieceLength(p.fileSize, k));
    assert WellCut(p.pieces[0], PieceStart(p.fileSize, 0), PieceLength(p.fileSize, 0));
  }

  /** The update of a piece is written at the third field of its record exactly if the creator's name has four bytes. */
  lemma UpdatePlaceExact(r: Record, i: nat)
    requires Laid(Progress(r.pieces, r.total, r.fileSize, r.completed)) && i < |r.pieces|
    requires forall k | 0 <= k < |r.pieces| :: |r.pieces[k].hash| == HASH_SIZE
    ensures UpdateOffset(r, i) == RecordOffset(r, i) + 12 <==> |r.creator| == 4
  {
    forall k | 0 <= k < i
      ensures |r.pieces[k].blocks| == |r.pieces[0].blocks|
    {
      FullPiecesAlike(Progress(r.pieces, r.total, r.fileSize, r.completed), i, k);
    }
    hide EncodePieces, Laid;
    EqualRecords(r.pieces[..i], |r.pieces[0].blocks|);
  }

  lemma EightBytes(n: nat)
    ensures Encode(n, 8) == Encode(n % 0x1_0000_0000, 4) + Encode(n / 0x1_0000_0000, 4)
  {
    Powers();
    EncodeSplit(n / 0x1_0000_0000, n % 0x1_0000_0000, 4, 4);
  }

  lemma EqualCodes(m: nat, n: nat)
    requires m < 0x1_0000_0000 && n < 0x1_0000_0000
    ensures Encode(m, 4) == Encode(n, 4) <==> m == n
  {
    Powers();
    DecodeEncode(m, 4);
    DecodeEncode(n, 4);
  }

  /** Four bytes before eight are the same as behind them when all three groups of four agree. */
  lemma TurnedAround(x: seq<byte>, y: seq<byte>, z: seq<byte>)
    requires |x| == |y| == |z| == 4
    ensures x + (y + z) == (y + z) + x <==> x == y == z
  {
    var l, r := x + (y + z), (y + z) + x;
    assert l[..4] == x && l[4..8] == y && l[8..12] == z;
    assert r[..4] == y && r[4..8] == z && r[8..12] == x;
    if x == y == z {
      assert l == r;
    }
  }

  /** Status and time in the wrong order are the right bytes only for times that are made of the status. */
  lemma StatusAndTime(status: DownloadStatus, time: nat)
    requires time < TWO64
    ensures Encode(StatusCode(status), 4) + Encode(time, 8) == Encode(time, 8) + Encode(StatusCode(status), 4)
      <==> time == StatusCode(status) * 0x1_0000_0001
  {
    hide Encode;
    var low, high := time % 0x1_0000_0000, time / 0x1_0000_0000;
    EightBytes(time);
    TurnedAround(Encode(StatusCode(status), 4), Encode(low, 4), Encode(high, 4));
    EqualCodes(StatusCode(status), low);
    EqualCodes(low, high);
  }

  lemma SameEnds(front: seq<byte>, x: seq<byte>, y: seq<byte>, back: seq<byte>)
    requires |x| == |y|
    ensures front + x + back == front + y + back <==> x == y
  {
    var l, r := front + x + back, front + y + back;
    assert l[|front|..|front| + |x|] == x && r[|front|..|front| + |x|] == y;
  }

  lemma RecordInParts(p: PieceProgress)
    ensures EncodePiece(p) == (Encode(p.offset, 8) + Encode(p.size, 4)) + Encode(p.bytesDownloaded, 4)
      + (Encode(p.lastAccess, 8) + Encode(StatusCode(p.status), 4))
      + (p.hash + Encode(|p.blocks|, 4) + EncodeBlocks(p.blocks))
  {
    hide Encode, EncodeBlocks, StatusCode;
  }

  lemma UpdateInParts(p: PieceProgress)
    ensures EncodeUpdate(p) == Encode(p.bytesDownloaded, 4) + (Encode(StatusCode(p.status), 4) + Encode(p.lastAccess, 8))
      + (p.hash + Encode(|p.blocks|, 4) + EncodeBlocks(p.blocks))
  {
    hide Encode, EncodeBlocks, StatusCode;
  }

  lemma WholeTailPatched(front: seq<byte>, was: seq<byte>, data: seq<byte>)
    requires |was| == |data|
    ensures WriteChunk(front + was, |front|, data) == front + data
  {
    Patched(front, was, [], data);
    assert front + was + [] == front + was && front + data + [] == front + data;
  }

  /** Even at the right place the update gives the record of the piece as it is now only if the time stamp is the code
      of the status, written twice over: never for a time stamp below 2^32 other than zero. */
  lemma UpdateExact(p: PieceProgress, q: PieceProgress)
    requires q.offset == p.offset && q.size == p.size && |q.blocks| == |p.blocks| && |q.hash| == |p.hash|
    requires q.lastAccess < TWO64
    ensures WriteChunk(EncodePiece(p), 12, EncodeUpdate(q)) == EncodePiece(q)
      <==> q.lastAccess == StatusCode(q.status) * 0x1_0000_0001
  {
    hide Encode, EncodeBlocks, StatusCode, WriteChunk, EncodePiece, EncodeUpdate;
    RecordInParts(p);
    RecordInParts(q);
    UpdateInParts(q);
    var front := Encode(p.offset, 8) + Encode(p.size, 4);
    var was := Encode(p.bytesDownloaded, 4) + (Encode(p.lastAccess, 8) + Encode(StatusCode(p.status), 4))
               + (p.hash + Encode(|p.blocks|, 4) + EncodeBlocks(p.blocks));
    assert EncodePiece(p) == front + was;
    WholeTailPatched(front, was, EncodeUpdate(q));
    SwappedFields(front, q);
    StatusAndTime(q.status, q.lastAccess);
  }

  lemma SwappedFields(front: seq<byte>, q: PieceProgress)
    requires front == Encode(q.offset, 8) + Encode(q.size, 4)
    ensures front + EncodeUpdate(q) == EncodePiece(q)
      <==> Encode(StatusCode(q.status), 4) + Encode(q.lastAccess, 8) == Encode(q.lastAccess, 8) + Encode(StatusCode(q.status), 4)
  {
    hide Encode, EncodeBlocks, StatusCode, EncodePiece, EncodeUpdate;
    RecordInParts(q);
    UpdateInParts(q);
    var x := Encode(StatusCode(q.status), 4) + Encode(q.lastAccess, 8);
    var y := Encode(q.lastAccess, 8) + Encode(StatusCode(q.status), 4);
    var back := q.hash + Encode(|q.blocks|, 4) + EncodeBlocks(q.blocks);
    SameEnds(front + Encode(q.bytesDownloaded, 4), x, y, back);
    assert front + EncodeUpdate(q) == front + Encode(q.bytesDownloaded, 4) + x + back;
  }

  // ----- reading: a value and the bytes after it, None where the C++ code reads past the end

  datatype Parsed<+T> = Parsed(value: T, rest: seq<byte>)

  function TakeBytes(data: seq<byte>, n: nat): Option<Parsed<seq<byte>>> {
    if |data| < n then None else Some(Parsed(data[..n], data[n..]))
  }

  function TakeNat(data: seq<byte>, width: nat): Option<Parsed<nat>> {
    if |data| < width then None else Some(Parsed(Decode(data[..width]), data[width..]))
  }

  function TakeBool(data: seq<byte>): Option<Parsed<bool>> {
    if |data| < 1 then None else Some(Parsed(data[0] != 0, data[1..]))
  }

  /** Other codes are no DownloadStatus. */
  function TakeStatus(data: seq<byte>): Option<Parsed<DownloadStatus>> {
    match TakeNat(data, 4)
    case None => None
    case Some(code) =>
      if code.value == 0 then Some(Parsed(Empty, code.rest))
      else if code.value == 1 then Some(Parsed(Downloading, code.rest))
      else if code.value == 2 then Some(Parsed(Downloaded, code.rest))
      else if code.value == 3 then Some(Parsed(Verified, code.rest))
      else None
  }

  function TakeBlock(data: seq<byte>): Option<Parsed<BlockInfo>> {
    var offset := TakeNat(data, 4);
    if offset.None? then None else
    var size := TakeNat(offset.value.rest, 2);
    if size.None? then None else
    var isLast := TakeBool(size.value.rest);
    if isLast.None? then None else
    var status := TakeStatus(isLast.value.rest);
    if status.None? then None else
    Some(Parsed(BlockInfo(offset.value.value, size.value.value, isLast.value.value, status.value.value),
                status.value.rest))
  }

  function TakeBlocks(data: seq<byte>, n: nat): Option<Parsed<seq<BlockInfo>>>
    decreases n
  {
    if n == 0 then Some(Parsed([], data)) else
    var first := TakeBlock(data);
    if first.None? then None else
    var others := TakeBlocks(first.value.rest, n - 1);
    if others.None? then None else
    Some(Parsed([first.value.value] + others.value.value, others.value.rest))
  }

  function TakePiece(data: seq<byte>): Option<Parsed<PieceProgress>> {
    var offset := TakeNat(data, 8);
    if offset.None? then None else
    var size := TakeNat(offset.value.rest, 4);
    if size.None? then None else
    var bytesDownloaded := TakeNat(size.value.rest, 4);
    if bytesDownloaded.None? then None else
    var lastAccess := TakeNat(bytesDownloaded.value.rest, 8);
    if lastAccess.None? then None else
    var status := TakeStatus(lastAccess.value.rest);
    if status.None? then None else
    var hash := TakeBytes(status.value.rest, HASH_SIZE);
    if hash.None? then None else
    var count := TakeNat(hash.value.rest, 4);
    if count.None? then None else
    var blocks := TakeBlocks(count.value.rest, count.value.value);
    if blocks.None? then None else
    Some(Parsed(PieceProgress(status.value.value, offset.value.value, blocks.value.value, size.value.value,
                              bytesDownloaded.value.value, lastAccess.value.value, hash.value.value),
                blocks.value.rest))
  }

  function TakePieces(data: seq<byte>, n: nat): Option<Parsed<seq<PieceProgress>>>
    decreases n
  {
    if n == 0 then Some(Parsed([], data)) else
    var first := TakePiece(data);
    if first.None? then None else
    var others := TakePieces(first.value.rest, n - 1);
    if others.None? then None else
    Some(Parsed([first.value.value] + others.value.value, others.value.rest))
  }

  function TakeName(data: seq<byte>): Option<Parsed<seq<byte>>> {
    var size := TakeNat(data, 1);
    if size.None? then None else TakeBytes(size.value.rest, size.value.value)
  }

  /** The fields before the names; the others are left empty. */
  function TakeHead(data: seq<byte>): Option<Parsed<Record>> {
    var completed := TakeBool(data);
    if completed.None? then None else
    var total := TakeNat(completed.value.rest, 8);
    if total.None? then None else
    var fileSize := TakeNat(total.value.rest, 8);
    if fileSize.None? then None else
    var startTime := TakeNat(fileSize.value.rest, 8);
    if startTime.None? then None else
    var lastTime := TakeNat(startTime.value.rest, 8);
    if lastTime.None? then None else
    var fileHash := TakeBytes(lastTime.value.rest, HASH_SIZE);
    if fileHash.None? then None else
    Some(Parsed(Record(completed.value.value, total.value.value, fileSize.value.value, startTime.value.value,
                       lastTime.value.value, fileHash.value.value, [], [], [], []), fileHash.value.rest))
  }

  /** Bytes after the last piece are ignored. */
  function ReadRecord(data: seq<byte>): Option<Record> {
    var head := TakeHead(data);
    if head.None? then None else
    var fileName := TakeName(head.value.rest);
    if fileName.None? then None else
    var creator := TakeName(fileName.value.rest);
    if creator.None? then None else
    var address := TakeBytes(creator.value.rest, ADDRESS_SIZE);
    if address.None? then None else
    var count := TakeNat(address.value.rest, 4);
    if count.None? then None else
    var pieces := TakePieces(count.value.rest, count.value.value);
    if pieces.None? then None else
    Some(head.value.value.(fileName := fileName.value.value, creator := creator.value.value,
                           signalingAddress := address.value.value, pieces := pieces.value.value))
  }

  // ----- what was written is read back

  lemma TakesBytes(s: seq<byte>, rest: seq<byte>)
    ensures TakeBytes(s + rest, |s|) == Some(Parsed(s, rest))
  {
    assert (s + rest)[..|s|] == s;
    assert (s + rest)[|s|..] == rest;
  }

  lemma TakesNat(n: nat, width: nat, rest: seq<byte>)
    requires n < Pow256(width)
    ensures TakeNat(Encode(n, width) + rest, width) == Some(Parsed(n, rest))
  {
    TakesBytes(Encode(n, width), rest);
    DecodeEncode(n, width);
  }

  lemma TakesBool(b: bool, rest: seq<byte>)
    ensures TakeBool(BoolCode(b) + rest) == Some(Parsed(b, rest))
  {
  }

  lemma TakesStatus(s: DownloadStatus, rest: seq<byte>)
    ensures TakeStatus(Encode(StatusCode(s), 4) + rest) == Some(Parsed(s, rest))
  {
    Powers();
    TakesNat(StatusCode(s), 4, rest);
  }

  lemma TakesBlock(b: BlockInfo, rest: seq<byte>)
    requires BlockFits(b)
    ensures TakeBlock(EncodeBlock(b) + rest) == Some(Parsed(b, rest))
  {
    hide Encode, TakeNat, TakeBool, TakeStatus;
    Powers();
    var r3 := Encode(StatusCode(b.status), 4) + rest;
    var r2 := BoolCode(b.isLastBlock) + r3;
    var r1 := Encode(b.size, 2) + r2;
    assert EncodeBlock(b) + rest == Encode(b.offset, 4) + r1;
    TakesNat(b.offset, 4, r1);
    TakesNat(b.size, 2, r2);
    TakesBool(b.isLastBlock, r3);
    TakesStatus(b.status, rest);
  }

  lemma {:induction false} TakesBlocks(blocks: seq<BlockInfo>, rest: seq<byte>)
    requires forall j :: 0 <= j < |blocks| ==> BlockFits(blocks[j])
    ensures TakeBlocks(EncodeBlocks(blocks) + rest, |blocks|) == Some(Parsed(blocks, rest))
  {
    hide EncodeBlock, TakeBlock;
    if blocks == [] {
      assert EncodeBlocks(blocks) + rest == rest;
    } else {
      assert EncodeBlocks(blocks) + rest == EncodeBlock(blocks[0]) + (EncodeBlocks(blocks[1..]) + rest);
      TakesBlock(blocks[0], EncodeBlocks(blocks[1..]) + rest);
      TakesBlocks(blocks[1..], rest);
      assert blocks == [blocks[0]] + blocks[1..];
    }
  }

  lemma TakesPiece(p: PieceProgress, rest: seq<byte>)
    requires PieceFits(p)
    ensures TakePiece(EncodePiece(p) + rest) == Some(Parsed(p, rest))
  {
    hide Encode, TakeNat, TakeBytes, TakeStatus, TakeBlocks, EncodeBlocks;
    Powers();
    var r7 := EncodeBlocks(p.blocks) + rest;
    var r6 := Encode(|p.blocks|, 4) + r7;
    var r5 := p.hash + r6;
    var r4 := Encode(StatusCode(p.status), 4) + r5;
    var r3 := Encode(p.lastAccess, 8) + r4;
    var r2 := Encode(p.bytesDownloaded, 4) + r3;
    var r1 := Encode(p.size, 4) + r2;
    assert EncodePiece(p) + rest == Encode(p.offset, 8) + r1;
    TakesNat(p.offset, 8, r1);
    TakesNat(p.size, 4, r2);
    TakesNat(p.bytesDownloaded, 4, r3);
    TakesNat(p.lastAccess, 8, r4);
    TakesStatus(p.status, r5);
    TakesBytes(p.hash, r6);
    TakesNat(|p.blocks|, 4, r7);
    TakesBlocks(p.blocks, rest);
  }

  lemma {:induction false} TakesPieces(pieces: seq<PieceProgress>, rest: seq<byte>)
    requires forall i :: 0 <= i < |pieces| ==> PieceFits(pieces[i])
    ensures TakePieces(EncodePieces(pieces) + rest, |pieces|) == Some(Parsed(pieces, rest))
  {
    hide EncodePiece, TakePiece, PieceFits;
    if pieces == [] {
      assert EncodePieces(pieces) + rest == rest;
    } else {
      assert EncodePieces(pieces) + rest == EncodePiece(pieces[0]) + (EncodePieces(pieces[1..]) + rest);
      TakesPiece(pieces[0], EncodePieces(pieces[1..]) + rest);
      TakesPieces(pieces[1..], rest);
      assert pieces == [pieces[0]] + pieces[1..];
    }
  }

  lemma TakesName(name: seq<byte>, rest: seq<byte>)
    requires |name| < 256
    ensures TakeName(EncodeName(name) + rest) == Some(Parsed(name, rest))
  {
    hide Encode, TakeNat, TakeBytes;
    Powers();
    assert EncodeName(name) + rest == Encode(|name|, 1) + (name + rest);
    TakesNat(|name|, 1, name + rest);
    TakesBytes(name, rest);
  }

  lemma TakesHead(r: Record, rest: seq<byte>)
    requires RecordFits(r)
    ensures TakeHead(EncodeHead(r) + rest)
      == Some(Parsed(r.(fileName := [], creator := [], signalingAddress := [], pieces := []), rest))
  {
    hide Encode, TakeNat, TakeBytes, TakeBool, PieceFits;
    Powers();
    var r5 := r.fileHash + rest;
    var r4 := Encode(r.lastTime, 8) + r5;
    var r3 := Encode(r.startTime, 8) + r4;
    var r2 := Encode(r.fileSize, 8) + r3;
    var r1 := Encode(r.total, 8) + r2;
    assert EncodeHead(r) + rest == BoolCode(r.completed) + r1;
    TakesBool(r.completed, r1);
    TakesNat(r.total, 8, r2);
    TakesNat(r.fileSize, 8, r3);
    TakesNat(r.startTime, 8, r4);
    TakesNat(r.lastTime, 8, r5);
    TakesBytes(r.fileHash, rest);
  }

  lemma ShortNamesAreRead(r: Record, rest: seq<byte>)
    requires RecordFits(r) && |r.fileName| < 256 && |r.creator| < 256
    ensures ReadRecord(EncodeRecord(r) + rest) == Some(r)
  {
    hide Encode, TakeNat, TakeBytes, TakeHead, TakeName, TakePieces, EncodeHead, EncodeName, EncodePieces, PieceFits;
    Powers();
    var r5 := EncodePieces(r.pieces) + rest;
    var r4 := Encode(|r.pieces|, 4) + r5;
    var r3 := r.signalingAddress + r4;
    var r2 := EncodeName(r.creator) + r3;
    var r1 := EncodeName(r.fileName) + r2;
    assert EncodeRecord(r) + rest == EncodeHead(r) + r1;
    TakesHead(r, r1);
    TakesName(r.fileName, r2);
    TakesName(r.creator, r3);
    TakesBytes(r.signalingAddress, r4);
    TakesNat(|r.pieces|, 4, r5);
    TakesPieces(r.pieces, rest);
  }

  lemma NamesReadAreShort(data: seq<byte>)
    ensures TakeName(data).Some? ==> |TakeName(data).value.value| < 256
  {
    Powers();
  }

  /** Reading undoes writing, whatever follows, exactly when both names are under 256 bytes. */
  lemma ReadUndoesWrite(r: Record, rest: seq<byte>)
    requires RecordFits(r)
    ensures ReadRecord(EncodeRecord(r) + rest) == Some(r) <==> |r.fileName| < 256 && |r.creator| < 256
  {
    hide TakeNat, TakeBytes, TakeHead, TakeName, TakePieces, EncodeRecord;
    if |r.fileName| < 256 && |r.creator| < 256 {
      ShortNamesAreRead(r, rest);
    } else {
      var data := EncodeRecord(r) + rest;
      var head := TakeHead(data);
      if head.Some? {
        NamesReadAreShort(head.value.rest);
        var fileName := TakeName(head.value.rest);
        if fileName.Some? {
          NamesReadAreShort(fileName.value.rest);
        }
      }
    }
  }

  // ----- the loops of the code

  lemma {:induction false} EncodeBlocksPlus(blocks: seq<BlockInfo>, b: BlockInfo)
    ensures EncodeBlocks(blocks + [b]) == EncodeBlocks(blocks) + EncodeBlock(b)
  {
    hide EncodeBlock;
    if blocks == [] {
      assert blocks + [b] == [b];
    } else {
      assert (blocks + [b])[1..] == blocks[1..] + [b];
      EncodeBlocksPlus(blocks[1..], b);
    }
  }

  lemma {:induction false} EncodePiecesPlus(pieces: seq<PieceProgress>, p: PieceProgress)
    ensures EncodePieces(pieces + [p]) == EncodePieces(pieces) + EncodePiece(p)
  {
    hide EncodePiece;
    if pieces == [] {
      assert pieces + [p] == [p];
    } else {
      assert (pieces + [p])[1..] == pieces[1..] + [p];
      EncodePiecesPlus(pieces[1..], p);
    }
  }

  ghost function RecordOf(d: DownloadProgress): Record
    reads d
  {
    Record(d.completed, d.totalDownloadBytes, d.fileSize, d.startTime, d.lastTime, d.fileHash, d.fileName, d.creator,
           d.signalingAddress, d.pieces)
  }

  method SerializePiece(p: PieceProgress) returns (data: seq<byte>)
    ensures data == EncodePiece(p)
  {
    hide Encode, EncodeBlock;
    data := Encode(p.offset, 8);
    data := data + Encode(p.size, 4);
    data := data + Encode(p.bytesDownloaded, 4);
    data := data + Encode(p.lastAccess, 8);
    data := data + Encode(StatusCode(p.status), 4);
    data := data + p.hash;
    data := data + Encode(|p.blocks|, 4);
    ghost var front := data;
    for i := 0 to |p.blocks|
      invariant data == front + EncodeBlocks(p.blocks[..i])
    {
      assert p.blocks[..i + 1] == p.blocks[..i] + [p.blocks[i]];
      EncodeBlocksPlus(p.blocks[..i], p.blocks[i]);
      data := data + EncodeBlock(p.blocks[i]);
    }
    assert p.blocks[..|p.blocks|] == p.blocks;
  }

  method Serialize(d: DownloadProgress) returns (data: seq<byte>)
    ensures data == EncodeRecord(RecordOf(d))
    ensures |d.fileHash| == HASH_SIZE ==>
      && |data| >= 65 && data[0] == (if d.completed then 1 else 0)
      && data[1..9] == Encode(d.totalDownloadBytes, 8) && data[9..17] == Encode(d.fileSize, 8)
      && data[17..25] == Encode(d.startTime, 8) && data[25..33] == Encode(d.lastTime, 8)
      && data[33..65] == d.fileHash
  {
    hide Encode, EncodePiece;
    if |d.fileHash| == HASH_SIZE {
      RecordLayout(RecordOf(d));
    }
    data := BoolCode(d.completed);
    data := data + Encode(d.totalDownloadBytes, 8);
    data := data + Encode(d.fileSize, 8);
    data := data + Encode(d.startTime, 8);
    data := data + Encode(d.lastTime, 8);
    data := data + d.fileHash;
    data := data + EncodeName(d.fileName);
    data := data + EncodeName(d.creator);
    data := data + d.signalingAddress;
    data := data + Encode(|d.pieces|, 4);
    ghost var front := data;
    for i := 0 to |d.pieces|
      invariant data == front + EncodePieces(d.pieces[..i])
    {
      var pieceData := SerializePiece(d.pieces[i]);
      assert d.pieces[..i + 1] == d.pieces[..i] + [d.pieces[i]];
      EncodePiecesPlus(d.pieces[..i], d.pieces[i]);
      data := data + pieceData;
    }
    assert d.pieces[..|d.pieces|] == d.pieces;
  }

  /** A fixed-width number at an offset, which moves behind it. */
  method ReadNat(data: seq<byte>, start: nat, width: nat) returns (n: nat, offset: nat)
    requires start + width <= |data|
    ensures offset == start + width
    ensures TakeNat(data[start..], width) == Some(Parsed(n, data[offset..]))
  {
    hide Decode;
    n := Decode(data[start..start + width]);
    offset := start + width;
    assert data[start..][..width] == data[start..offset];
    assert data[start..][width..] == data[offset..];
  }

  method ReadBytes(data: seq<byte>, start: nat, n: nat) returns (s: seq<byte>, offset: nat)
    requires start + n <= |data|
    ensures offset == start + n
    ensures TakeBytes(data[start..], n) == Some(Parsed(s, data[offset..]))
  {
    s := data[start..start + n];
    offset := start + n;
    assert data[start..][..n] == s;
    assert data[start..][n..] == data[offset..];
  }

  method ReadStatus(data: seq<byte>, start: nat) returns (status: DownloadStatus, offset: nat)
    requires start <= |data| && TakeStatus(data[start..]).Some?
    ensures offset <= |data|
    ensures TakeStatus(data[start..]) == Some(Parsed(status, data[offset..]))
  {
    hide Decode;
    var code;
    code, offset := ReadNat(data, start, 4);
    status := if code == 0 then Empty else if code == 1 then Downloading else if code == 2 then Downloaded else Verified;
  }

  method DeserializeBlock(data: seq<byte>, start: nat) returns (block: BlockInfo, offset: nat)
    requires start <= |data| && TakeBlock(data[start..]).Some?
    ensures offset <= |data|
    ensures TakeBlock(data[start..]) == Some(Parsed(block, data[offset..]))
  {
    hide Decode, TakeStatus;
    var blockOffset, size, flag, status;
    blockOffset, offset := ReadNat(data, start, 4);
    size, offset := ReadNat(data, offset, 2);
    flag, offset := ReadBytes(data, offset, 1);
    assert TakeBool(data[offset - 1..]) == Some(Parsed(flag[0] != 0, data[offset..]));
    status, offset := ReadStatus(data, offset);
    block := BlockInfo(blockOffset, size, flag[0] != 0, status);
  }

  method DeserializeBlocks(data: seq<byte>, start: nat, count: nat) returns (blocks: seq<BlockInfo>, offset: nat)
    requires start <= |data| && TakeBlocks(data[start..], count).Some?
    ensures offset <= |data|
    ensures TakeBlocks(data[start..], count) == Some(Parsed(blocks, data[offset..]))
  {
    hide TakeBlock;
    ghost var whole := TakeBlocks(data[start..], count).value;
    blocks, offset := [], start;
    for i := 0 to count
      invariant offset <= |data| && TakeBlocks(data[offset..], count - i).Some?
      invariant whole.value == blocks + TakeBlocks(data[offset..], count - i).value.value
      invariant whole.rest == TakeBlocks(data[offset..], count - i).value.rest
    {
      var block;
      block, offset := DeserializeBlock(data, offset);
      blocks := blocks + [block];
    }
    assert blocks + [] == blocks;
  }

  method DeserializePiece(data: seq<byte>, start: nat) returns (piece: PieceProgress, offset: nat)
    requires start <= |data| && TakePiece(data[start..]).Some?
    ensures offset <= |data|
    ensures TakePiece(data[start..]) == Some(Parsed(piece, data[offset..]))
  {
    hide Decode, TakeStatus, TakeBlocks;
    var pieceOffset, size, bytesDownloaded, lastAccess, status, hash, count, blocks;
    pieceOffset, offset := ReadNat(data, start, 8);
    size, offset := ReadNat(data, offset, 4);
    bytesDownloaded, offset := ReadNat(data, offset, 4);
    lastAccess, offset := ReadNat(data, offset, 8);
    status, offset := ReadStatus(data, offset);
    hash, offset := ReadBytes(data, offset, HASH_SIZE);
    count, offset := ReadNat(data, offset, 4);
    blocks, offset := DeserializeBlocks(data, offset, count);
    piece := PieceProgress(status, pieceOffset, blocks, size, bytesDownloaded, lastAccess, hash);
  }

  method ReadName(data: seq<byte>, start: nat) returns (name: seq<byte>, offset: nat)
    requires start <= |data| && TakeName(data[start..]).Some?
    ensures offset <= |data|
    ensures TakeName(data[start..]) == Some(Parsed(name, data[offset..]))
  {
    hide Decode;
    var size;
    size, offset := ReadNat(data, start, 1);
    name, offset := ReadBytes(data, offset, size);
  }

  method ReadHead(data: seq<byte>) returns (head: Record, offset: nat)
    requires TakeHead(data).Some?
    ensures offset <= |data|
    ensures TakeHead(data) == Some(Parsed(head, data[offset..]))
  {
    hide Decode;
    var flag, total, fileSize, startTime, lastTime, fileHash;
    assert data[0..] == data;
    flag, offset := ReadBytes(data, 0, 1);
    assert TakeBool(data) == Some(Parsed(flag[0] != 0, data[offset..]));
    total, offset := ReadNat(data, offset, 8);
    fileSize, offset := ReadNat(data, offset, 8);
    startTime, offset := ReadNat(data, offset, 8);
    lastTime, offset := ReadNat(data, offset, 8);
    fileHash, offset := ReadBytes(data, offset, HASH_SIZE);
    head := Record(flag[0] != 0, total, fileSize, startTime, lastTime, fileHash, [], [], [], []);
  }

  method DeserializePieces(data: seq<byte>, start: nat, count: nat) returns (pieces: seq<PieceProgress>, offset: nat)
    requires start <= |data| && TakePieces(data[start..], count).Some?
    ensures offset <= |data|
    ensures TakePieces(data[start..], count) == Some(Parsed(pieces, data[offset..]))
  {
    hide TakePiece;
    ghost var whole := TakePieces(data[start..], count).value;
    pieces, offset := [], start;
    for i := 0 to count
      invariant offset <= |data| && TakePieces(data[offset..], count - i).Some?
      invariant whole.value == pieces + TakePieces(data[offset..], count - i).value.value
      invariant whole.rest == TakePieces(data[offset..], count - i).value.rest
    {
      var piece;
      piece, offset := DeserializePiece(data, offset);
      pieces := pieces + [piece];
    }
    assert pieces + [] == pieces;
  }

  /** Every field is overwritten with what the data holds. */
  method Deserialize(d: DownloadProgress, data: seq<byte>)
    requires ReadRecord(data).Some?
    modifies d
    ensures Some(RecordOf(d)) == ReadRecord(data)
  {
    hide Decode, TakeHead, TakePieces, TakeName;
    var head, offset := ReadHead(data);
    d.completed, d.totalDownloadBytes, d.fileSize := head.completed, head.total, head.fileSize;
    d.startTime, d.lastTime, d.fileHash := head.startTime, head.lastTime, head.fileHash;
    d.fileName, offset := ReadName(data, offset);
    d.creator, offset := ReadName(data, offset);
    d.signalingAddress, offset := ReadBytes(data, offset, ADDRESS_SIZE);
    var count;
    count, offset := ReadNat(data, offset, 4);
    d.pieces, offset := DeserializePieces(data, offset, count);
  }
}
