// How a file is cut into pieces, and a piece into blocks.

module FileSplitter {
  import opened Bytes

  const KB: nat := 1024
  const MIN_PIECE_SIZE: nat := 256 * KB
  const MAX_PIECE_SIZE: nat := 4 * KB * KB
  const BLOCK_SIZE: nat := 12 * KB

  function PieceSize(fileSize: nat): nat {
    if fileSize <= MIN_PIECE_SIZE then fileSize
    else if fileSize <= KB * MIN_PIECE_SIZE then MIN_PIECE_SIZE
    else if fileSize <= MAX_PIECE_SIZE * KB then fileSize / KB
    else MAX_PIECE_SIZE
  }

  lemma PieceSizeBounds(fileSize: nat)
    ensures PieceSize(fileSize) <= MAX_PIECE_SIZE
    ensures PieceSize(fileSize) <= fileSize
    ensures fileSize > 0 ==> PieceSize(fileSize) > 0
  {
  }

  lemma PieceSizeMonotone(small: nat, large: nat)
    requires small <= large
    ensures PieceSize(small) <= PieceSize(large)
  {
  }

  function PieceCount(fileSize: nat): nat {
    if fileSize == 0 then 0 else (fileSize - 1) / PieceSize(fileSize) + 1
  }

  function PieceStart(fileSize: nat, i: nat): nat {
    i * PieceSize(fileSize)
  }

  function PieceLength(fileSize: nat, i: nat): int {
    Min(PieceSize(fileSize), fileSize - PieceStart(fileSize, i))
  }

  function BlockCount(size: nat): nat {
    (size + BLOCK_SIZE - 1) / BLOCK_SIZE
  }

  function BlockLength(size: nat, j: nat): int {
    Min(BLOCK_SIZE, size - j * BLOCK_SIZE)
  }

  // ----- arithmetic of the cuts

  lemma DivisionBounds(x: nat, d: nat)
    requires d > 0
    ensures 0 <= x / d && x / d * d <= x < x / d * d + d
  {
  }

  lemma PieceStarts(fileSize: nat, i: nat, j: nat)
    requires i < j
    ensures PieceStart(fileSize, i) + PieceSize(fileSize) <= PieceStart(fileSize, j)
  {
    MulMonotone(i + 1, j, PieceSize(fileSize));
  }

  /** The pieces before number PieceCount, and only those, start inside the file. */
  lemma StartsInside(fileSize: nat, i: nat)
    ensures i < PieceCount(fileSize) <==> PieceStart(fileSize, i) < fileSize
  {
    if fileSize > 0 {
      PieceSizeBounds(fileSize);
      var d := PieceSize(fileSize);
      var q := (fileSize - 1) / d;
      assert q * d <= fileSize - 1 < q * d + d;
      if i <= q {
        MulMonotone(i, q, d);
      } else {
        MulMonotone(q + 1, i, d);
      }
    }
  }

  lemma PieceLengths(fileSize: nat, i: nat)
    requires i < PieceCount(fileSize)
    ensures 0 < PieceLength(fileSize, i) <= MAX_PIECE_SIZE
    ensures PieceStart(fileSize, i) + PieceLength(fileSize, i) <= fileSize
    ensures i + 1 < PieceCount(fileSize) ==> PieceLength(fileSize, i) == PieceSize(fileSize)
    ensures i + 1 < PieceCount(fileSize) ==>
              PieceStart(fileSize, i) + PieceLength(fileSize, i) == PieceStart(fileSize, i + 1)
    ensures i + 1 == PieceCount(fileSize) ==>
              PieceStart(fileSize, i) + PieceLength(fileSize, i) == fileSize
  {
    StartsInside(fileSize, i);
    StartsInside(fileSize, i + 1);
    PieceSizeBounds(fileSize);
    assert PieceStart(fileSize, i + 1) == PieceStart(fileSize, i) + PieceSize(fileSize);
  }

  /** How a file is cut. Up to 256 KiB it is one piece; up to 256 MiB every piece but the last has 256 KiB;
      up to 4 GiB there are 1024 pieces of one size and fewer than 1024 bytes behind them, which are a piece
      of their own; above that every piece but the last has 4 MiB. */
  lemma PiecesBySize(fileSize: nat, i: nat)
    ensures 0 < fileSize <= 262_144 ==> PieceCount(fileSize) == 1 && PieceLength(fileSize, 0) == fileSize
    ensures 262_144 < fileSize <= 268_435_456 && i + 1 < PieceCount(fileSize) ==> PieceLength(fileSize, i) == 262_144
    ensures 268_435_456 < fileSize <= 4_294_967_296 ==>
      && PieceStart(fileSize, 1024) <= fileSize < PieceStart(fileSize, 1024) + 1024
      && PieceCount(fileSize) == if fileSize % 1024 == 0 then 1024 else 1025
    ensures 4_294_967_296 < fileSize ==> PieceCount(fileSize) > 1024
    ensures 4_294_967_296 < fileSize && i + 1 < PieceCount(fileSize) ==> PieceLength(fileSize, i) == 4_194_304
  {
    if i + 1 < PieceCount(fileSize) {
      PieceLengths(fileSize, i);
    }
    StartsInside(fileSize, 1);
    StartsInside(fileSize, 1023);
    StartsInside(fileSize, 1024);
    StartsInside(fileSize, 1025);
  }

  /** getPieceIndex undoes the offset of every byte of a piece. */
  lemma PieceIndexOfByte(fileSize: nat, i: nat, x: nat)
    requires i < PieceCount(fileSize)
    requires PieceStart(fileSize, i) <= x < PieceStart(fileSize, i) + PieceLength(fileSize, i)
    ensures PieceSize(fileSize) > 0 && x / PieceSize(fileSize) == i
  {
    PieceSizeBounds(fileSize);
    DivisionUnique(x, PieceSize(fileSize), i);
  }

  predicate InBlock(fileSize: nat, i: nat, j: nat, x: nat) {
    && i < PieceCount(fileSize)
    && PieceLength(fileSize, i) > 0
    && j < BlockCount(PieceLength(fileSize, i))
    && var start := PieceStart(fileSize, i) + j * BLOCK_SIZE;
    start <= x < start + BlockLength(PieceLength(fileSize, i), j)
  }

  /** The block getPieceIndex and getBlockIndex name for a byte of the file. */
  function BlockOf(fileSize: nat, x: nat): (nat, nat)
    requires x < fileSize
  {
    PieceSizeBounds(fileSize);
    DivisionBounds(x, PieceSize(fileSize));
    var i := x / PieceSize(fileSize);
    (i, (x - PieceStart(fileSize, i)) / BLOCK_SIZE)
  }

  /** Pieces and blocks tile the file: each byte lies in the block the index functions name... */
  lemma BlocksTile(fileSize: nat, x: nat)
    requires x < fileSize
    ensures InBlock(fileSize, BlockOf(fileSize, x).0, BlockOf(fileSize, x).1, x)
  {
    PieceSizeBounds(fileSize);
    var d := PieceSize(fileSize);
    DivisionBounds(x, d);
    var i := x / d;
    StartsInside(fileSize, i);
    assert PieceStart(fileSize, i) <= x < PieceStart(fileSize, i) + PieceLength(fileSize, i);
    BlockOfByte(PieceLength(fileSize, i), x - PieceStart(fileSize, i));
  }

  lemma BlockOfByte(size: nat, x: nat)
    requires x < size
    ensures x / BLOCK_SIZE < BlockCount(size)
    ensures x / BLOCK_SIZE * BLOCK_SIZE <= x < x / BLOCK_SIZE * BLOCK_SIZE + BlockLength(size, x / BLOCK_SIZE)
  {
  }

  /** ...and in no other, and no block reaches past the end of the file. */
  lemma BlockIsUnique(fileSize: nat, i: nat, j: nat, x: nat)
    requires InBlock(fileSize, i, j, x)
    ensures x < fileSize && BlockOf(fileSize, x) == (i, j)
  {
    PieceLengths(fileSize, i);
    PieceIndexOfByte(fileSize, i, x);
  }

  // ----- the two loops that cut a file

  /** The cut of DownloadProgress::init, in 64-bit arithmetic. */
  function ProgressCut(fileSize: nat): seq<(nat, int)> {
    seq(PieceCount(fileSize), i requires 0 <= i => (PieceStart(fileSize, i), PieceLength(fileSize, i)))
  }

  /** The cut of MetaDataFile::createMetaData, which narrows the bytes left to 32 bits. */
  function MetaDataCut(fileSize: nat): seq<(nat, int)> {
    seq(PieceCount(fileSize), i requires 0 <= i =>
      (PieceStart(fileSize, i),
       Min(PieceSize(fileSize), (fileSize - PieceStart(fileSize, i)) % 0x1_0000_0000)))
  }

  /** The 16-bit part count of the metadata never truncates. */
  lemma AtMost1025Pieces(fileSize: nat)
    requires fileSize < 0x1_0000_0000
    ensures PieceCount(fileSize) <= 1025
  {
    var d := PieceSize(fileSize);
    if MIN_PIECE_SIZE < fileSize {
      assert fileSize <= 1025 * d;
      StartsInside(fileSize, 1025);
    } else if fileSize > 0 {
      StartsInside(fileSize, 1);
    }
  }

  /** The publisher and the downloader agree on the pieces exactly for files under 4 GiB. */
  lemma CutsAgree(fileSize: nat)
    ensures MetaDataCut(fileSize) == ProgressCut(fileSize) <==> fileSize < 0x1_0000_0000
  {
    var m, p := MetaDataCut(fileSize), ProgressCut(fileSize);
    if fileSize < 0x1_0000_0000 {
      forall i | 0 <= i < |m|
        ensures m[i] == p[i]
      {
        StartsInside(fileSize, i);
      }
    } else {
      // The piece that starts 2^32 + (fileSize mod 2^22) bytes before the end loses its length.
      var r := fileSize % MAX_PIECE_SIZE;
      var i := fileSize / MAX_PIECE_SIZE - 1024;
      assert PieceSize(fileSize) == MAX_PIECE_SIZE;
      assert PieceStart(fileSize, i) == fileSize - r - 0x1_0000_0000;
      StartsInside(fileSize, i);
      assert m[i].1 == r && p[i].1 == MAX_PIECE_SIZE;
    }
  }
}
