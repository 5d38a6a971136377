// The messages between peers as bytes, and a bitfield's way from the pieces of one peer to what another
// peer's chooser believes.

module BitTorrentMessages {
  import opened Wrappers
  import opened Bytes
  import opened Coalescing
  import opened DownloadProgress
  import opened Selection
  import opened TCPSocket

  const DATA_REQUEST: byte := 121
  const BLOCK_RESPONSE: byte := 123
  const BIT_FIELD: byte := 112

  const ID_SIZE := 32
  const VECTOR_SIZE := 16
  const BASE_SIZE := 80

  datatype Base = Base(fileId: seq<byte>, hash: seq<byte>, initVector: seq<byte>)

  predicate BaseFits(b: Base) {
    |b.fileId| == ID_SIZE && |b.hash| == ID_SIZE && |b.initVector| == VECTOR_SIZE
  }

  datatype TorrentMessage =
    | Request(base: Base, request: DataRequest)
    | Block(base: Base, piece: nat, block: nat, data: seq<byte>)
    | Field(base: Base, field: Bitfield)

  /** The widths of the C++ fields. */
  predicate Fits(m: TorrentMessage) {
    && BaseFits(m.base)
    && match m
       case Request(_, r) => r.pieceIndex < 0x1_0000_0000 && r.blockIndex < 0x1_0000 && r.blocksCount < 0x1_0000
       case Block(_, piece, block, _) => piece < 0x1_0000_0000 && block < 0x1_0000
       case Field(_, _) => true
  }

  // ----- bitsets and bytes

  function BitValue(b: bool, value: nat): nat {
    if b then value else 0
  }

  function Nibble(b0: bool, b1: bool, b2: bool, b3: bool): (n: nat)
    ensures n < 16
  {
    BitValue(b0, 1) + BitValue(b1, 2) + BitValue(b2, 4) + BitValue(b3, 8)
  }

  /** bitset::to_ulong. */
  function ByteOf(b: Bitset): byte {
    Nibble(b[0], b[1], b[2], b[3]) + 16 * Nibble(b[4], b[5], b[6], b[7])
  }

  function BitsetOf(n: byte): Bitset {
    [n % 2 == 1, n / 2 % 2 == 1, n / 4 % 2 == 1, n / 8 % 2 == 1,
     n / 16 % 2 == 1, n / 32 % 2 == 1, n / 64 % 2 == 1, n / 128 % 2 == 1]
  }

  lemma NibbleBits(b0: bool, b1: bool, b2: bool, b3: bool)
    ensures var n := Nibble(b0, b1, b2, b3);
      (n % 2 == 1) == b0 && (n / 2 % 2 == 1) == b1 && (n / 4 % 2 == 1) == b2 && (n / 8 % 2 == 1) == b3
  {
  }

  lemma EvenAdded(x: nat, k: nat)
    ensures (x + 2 * k) % 2 == x % 2
  {
  }

  lemma LowNibble(n: nat, low: nat, high: nat)
    requires n == low + 16 * high
    ensures n % 2 == low % 2 && n / 2 % 2 == low / 2 % 2 && n / 4 % 2 == low / 4 % 2 && n / 8 % 2 == low / 8 % 2
  {
    EvenAdded(low, 8 * high);
    EvenAdded(low / 2, 4 * high);
    EvenAdded(low / 4, 2 * high);
    EvenAdded(low / 8, high);
  }

  lemma HighNibble(n: nat, low: nat, high: nat)
    requires n == low + 16 * high && low < 16
    ensures n / 16 == high && n / 32 == high / 2 && n / 64 == high / 4 && n / 128 == high / 8
  {
  }

  lemma BitsRestored(b: Bitset)
    ensures BitsetOf(ByteOf(b)) == b
  {
    hide Nibble;
    var low, high := Nibble(b[0], b[1], b[2], b[3]), Nibble(b[4], b[5], b[6], b[7]);
    NibbleBits(b[0], b[1], b[2], b[3]);
    NibbleBits(b[4], b[5], b[6], b[7]);
    LowNibble(ByteOf(b), low, high);
    HighNibble(ByteOf(b), low, high);
  }

  /** Element k of the bitset is the bit of weight 2^k. */
  lemma BitsInByte(b: Bitset)
    ensures (ByteOf(b) % 2 == 1 <==> b[0]) && (ByteOf(b) / 2 % 2 == 1 <==> b[1])
    ensures (ByteOf(b) / 4 % 2 == 1 <==> b[2]) && (ByteOf(b) / 8 % 2 == 1 <==> b[3])
    ensures (ByteOf(b) / 16 % 2 == 1 <==> b[4]) && (ByteOf(b) / 32 % 2 == 1 <==> b[5])
    ensures (ByteOf(b) / 64 % 2 == 1 <==> b[6]) && (ByteOf(b) / 128 == 1 <==> b[7])
  {
    BitsRestored(b);
    hide ByteOf;
  }

  // ----- writing

  function EncodeBase(b: Base): seq<byte> {
    b.fileId + b.hash + b.initVector
  }

  function EncodeField(field: Bitfield): (s: seq<byte>)
    ensures |s| == |field|
  {
    seq(|field|, i requires 0 <= i < |field| => ByteOf(field[i]))
  }

  function Code(m: TorrentMessage): byte {
    match m
    case Request(_, _) => DATA_REQUEST
    case Block(_, _, _, _) => BLOCK_RESPONSE
    case Field(_, _) => BIT_FIELD
  }

  /** What follows the base part. */
  function EncodeBody(m: TorrentMessage): seq<byte> {
    match m
    case Request(_, r) => Encode(r.pieceIndex, 4) + (Encode(r.blockIndex, 2) + Encode(r.blocksCount, 2))
    case Block(_, piece, block, data) => Encode(piece, 4) + (Encode(block, 2) + data)
    case Field(_, field) => EncodeField(field)
  }

  function Payload(m: TorrentMessage): seq<byte> {
    EncodeBase(m.base) + EncodeBody(m)
  }

  method SerializeBase(code: byte, base: Base, previousSize: nat) returns (serialized: seq<byte>)
    requires previousSize + BASE_SIZE < 0x1_0000_0000
    ensures serialized == Header(code, previousSize + BASE_SIZE) + EncodeBase(base)
  {
    serialized := SerializeHeader(code, previousSize + BASE_SIZE);
    serialized := serialized + base.fileId;
    serialized := serialized + base.hash;
    serialized := serialized + base.initVector;
  }

  /** A serialised message is one frame around its payload. */
  method Serialize(m: TorrentMessage) returns (serialized: seq<byte>)
    requires BaseFits(m.base) && |EncodeBody(m)| + BASE_SIZE < 0x1_0000_0000
    ensures serialized == Frame(MessageBaseReceived(Code(m), Payload(m)))
  {
    hide Encode, ByteOf, Header;
    match m {
      case Request(base, r) =>
        serialized := SerializeBase(DATA_REQUEST, base, 8);
        serialized := serialized + Encode(r.pieceIndex, 4);
        serialized := serialized + Encode(r.blockIndex, 2);
        serialized := serialized + Encode(r.blocksCount, 2);
      case Block(base, piece, block, data) =>
        serialized := SerializeBase(BLOCK_RESPONSE, base, 6 + |data|);
        serialized := serialized + Encode(piece, 4);
        serialized := serialized + Encode(block, 2);
        serialized := serialized + data;
      case Field(base, field) =>
        serialized := SerializeBase(BIT_FIELD, base, |field|);
        ghost var front := serialized;
        for i := 0 to |field|
          invariant serialized == front + EncodeField(field)[..i]
        {
          serialized := serialized + [ByteOf(field[i])];
        }
        assert EncodeField(field)[..|field|] == EncodeField(field);
    }
  }

  // ----- reading; the readers of fixed-size bodies do not check that the bytes are there

  function ReadBase(data: seq<byte>): Result<Base> {
    if |data| < BASE_SIZE then Failure("Insufficient data size for deserialization")
    else Success(Base(data[..32], data[32..64], data[64..80]))
  }

  function ReadRequest(data: seq<byte>): Result<TorrentMessage>
    requires |data| >= BASE_SIZE ==> |data| >= BASE_SIZE + 8
  {
    match ReadBase(data)
    case Failure(error) => Failure(error)
    case Success(base) =>
      Success(Request(base, DataRequest(Decode(data[80..84]), Decode(data[84..86]), Decode(data[86..88]))))
  }

  function ReadBlock(data: seq<byte>): Result<TorrentMessage>
    requires |data| >= BASE_SIZE ==> |data| >= BASE_SIZE + 6
  {
    match ReadBase(data)
    case Failure(error) => Failure(error)
    case Success(base) => Success(Block(base, Decode(data[80..84]), Decode(data[84..86]), data[86..]))
  }

  function ReadField(data: seq<byte>): Result<TorrentMessage> {
    if data == [] then Failure("Input data is empty")
    else match ReadBase(data)
         case Failure(error) => Failure(error)
         case Success(base) =>
           if BASE_SIZE >= |data| then Failure("Invalid offset returned by TorrentMessageBase::deserialize")
           else Success(Field(base, DecodeField(data[BASE_SIZE..])))
  }

  function DecodeField(s: seq<byte>): (field: Bitfield)
    ensures |field| == |s|
  {
    seq(|s|, i requires 0 <= i < |s| => BitsetOf(s[i]))
  }

  /** FileBitField::deserialize with its loop. */
  method DeserializeField(data: seq<byte>) returns (r: Result<TorrentMessage>)
    ensures r == ReadField(data)
  {
    hide BitsetOf;
    if data == [] {
      return Failure("Input data is empty");
    }
    var base := ReadBase(data);
    match base {
      case Failure(error) =>
        return Failure(error);
      case Success(b) =>
        if BASE_SIZE >= |data| {
          return Failure("Invalid offset returned by TorrentMessageBase::deserialize");
        }
        var field: Bitfield := [];
        for i := 0 to |data| - BASE_SIZE
          invariant |field| == i
          invariant forall k :: 0 <= k < i ==> field[k] == BitsetOf(data[BASE_SIZE + k])
        {
          field := field + [BitsetOf(data[BASE_SIZE + i])];
        }
        assert field == DecodeField(data[BASE_SIZE..]);
        return Success(Field(b, field));
    }
  }

  // ----- what was written is read back

  lemma BaseRestored(b: Base, body: seq<byte>)
    requires BaseFits(b)
    ensures ReadBase(EncodeBase(b) + body) == Success(b)
    ensures (EncodeBase(b) + body)[BASE_SIZE..] == body
  {
    var data := EncodeBase(b) + body;
    assert data[..32] == b.fileId;
    assert data[32..64] == b.hash;
    assert data[64..80] == b.initVector;
  }

  lemma SlicesOfBody(data: seq<byte>, x: seq<byte>, y: seq<byte>, z: seq<byte>)
    requires |data| >= BASE_SIZE && data[BASE_SIZE..] == x + (y + z) && |x| == 4 && |y| == 2
    ensures data[80..84] == x && data[84..86] == y && data[86..] == z
  {
    var body := data[BASE_SIZE..];
    assert data[80..84] == body[..4];
    assert data[84..86] == body[4..6];
    assert data[86..] == body[6..];
  }

  lemma BaseLayout(b: Base, body: seq<byte>)
    requires BaseFits(b)
    ensures var data := EncodeBase(b) + body;
      && |data| == 80 + |body| && data[..32] == b.fileId && data[32..64] == b.hash && data[64..80] == b.initVector
      && data[80..] == body
  {
  }

  /** What stands where: the base part first, then the numbers, then data to the end. */
  lemma PayloadLayout(m: TorrentMessage)
    requires BaseFits(m.base)
    ensures |Payload(m)| >= 80 && Payload(m)[..32] == m.base.fileId && Payload(m)[32..64] == m.base.hash
    ensures Payload(m)[64..80] == m.base.initVector
    ensures m.Request? ==> Code(m) == 121 && |Payload(m)| == 88
                           && Payload(m)[80..84] == Encode(m.request.pieceIndex, 4)
                           && Payload(m)[84..86] == Encode(m.request.blockIndex, 2)
                           && Payload(m)[86..] == Encode(m.request.blocksCount, 2)
    ensures m.Block? ==> Code(m) == 123 && |Payload(m)| == 86 + |m.data|
                         && Payload(m)[80..84] == Encode(m.piece, 4)
                         && Payload(m)[84..86] == Encode(m.block, 2)
                         && Payload(m)[86..] == m.data
    ensures m.Field? ==> Code(m) == 112 && |Payload(m)| == 80 + |m.field|
                         && forall i :: 0 <= i < |m.field| ==> Payload(m)[80..][i] == ByteOf(m.field[i])
  {
    hide Encode, ByteOf, EncodeBase;
    BaseLayout(m.base, EncodeBody(m));
    match m {
      case Request(_, r) =>
        SlicesOfBody(Payload(m), Encode(r.pieceIndex, 4), Encode(r.blockIndex, 2), Encode(r.blocksCount, 2));
      case Block(_, piece, block, data) =>
        SlicesOfBody(Payload(m), Encode(piece, 4), Encode(block, 2), data);
      case Field(_, field) =>
    }
  }

  lemma RequestRestored(m: TorrentMessage)
    requires m.Request? && Fits(m)
    ensures |Payload(m)| == BASE_SIZE + 8 && ReadRequest(Payload(m)) == Success(m)
  {
    hide Encode, Decode, EncodeBase, ReadBase;
    var r := m.request;
    BaseRestored(m.base, EncodeBody(m));
    PayloadLength(m);
    SlicesOfBody(Payload(m), Encode(r.pieceIndex, 4), Encode(r.blockIndex, 2), Encode(r.blocksCount, 2));
    assert Payload(m)[86..88] == Payload(m)[86..];
    Powers();
    DecodeEncode(r.pieceIndex, 4);
    DecodeEncode(r.blockIndex, 2);
    DecodeEncode(r.blocksCount, 2);
  }

  lemma BlockRestored(m: TorrentMessage)
    requires m.Block? && Fits(m)
    ensures |Payload(m)| == BASE_SIZE + 6 + |m.data| && ReadBlock(Payload(m)) == Success(m)
  {
    hide Encode, Decode, EncodeBase, ReadBase;
    BaseRestored(m.base, EncodeBody(m));
    PayloadLength(m);
    SlicesOfBody(Payload(m), Encode(m.piece, 4), Encode(m.block, 2), m.data);
    Powers();
    DecodeEncode(m.piece, 4);
    DecodeEncode(m.block, 2);
  }

  lemma FieldBytesRestored(field: Bitfield)
    ensures DecodeField(EncodeField(field)) == field
  {
    hide ByteOf, BitsetOf;
    forall i | 0 <= i < |field|
      ensures DecodeField(EncodeField(field))[i] == field[i]
    {
      BitsRestored(field[i]);
    }
  }

  /** An empty bitfield is rejected by its reader; every other one comes back. */
  lemma FieldRestored(m: TorrentMessage)
    requires m.Field? && Fits(m)
    ensures ReadField(Payload(m)) == Success(m) <==> m.field != []
  {
    hide EncodeBase, ReadBase, EncodeField, DecodeField;
    BaseRestored(m.base, EncodeBody(m));
    PayloadLength(m);
    FieldBytesRestored(m.field);
  }

  // ----- a bitfield from one peer's pieces to the other peer's chooser

  predicate BitOf(pieces: seq<PieceProgress>, i: nat) {
    i < |pieces| && pieces[i].status == Verified
  }

  /** Bit i of the bitfield says whether piece i is verified; the bits after the last piece are clear. */
  predicate IsBitfieldOf(field: Bitfield, pieces: seq<PieceProgress>) {
    && |field| == (|pieces| + 7) / 8
    && forall i :: 0 <= i < 8 * |field| ==> field[i / 8][i % 8] == BitOf(pieces, i)
  }

  method GetBitField(d: DownloadProgress) returns (bitField: Bitfield)
    ensures IsBitfieldOf(bitField, d.pieces)
  {
    bitField := [];
    for i := 0 to |d.pieces|
      invariant |bitField| == (i + 7) / 8
      invariant forall k :: 0 <= k < 8 * |bitField| ==> bitField[k / 8][k % 8] == (k < i && BitOf(d.pieces, k))
    {
      if i % 8 == 0 {
        bitField := bitField + [[false, false, false, false, false, false, false, false]];
      }
      var last := |bitField| - 1;
      bitField := bitField[last := bitField[last][i % 8 := d.pieces[i].status == Verified]];
    }
  }

  /** The chooser of the receiving peer ends up knowing exactly which pieces the sender has verified. */
  lemma BitfieldEndToEnd(pieces: seq<PieceProgress>, field: Bitfield, base: Base, c: Chooser, peer: PeerId,
                         rest: seq<byte>, i: nat)
    requires IsBitfieldOf(field, pieces) && BaseFits(base) && |field| + BASE_SIZE < 0x1_0000_0000
    requires |pieces| > 0 && i < |pieces|
    ensures var sent := Frame(MessageBaseReceived(BIT_FIELD, Payload(Field(base, field)))) + rest;
      && ReadFrame(sent).Read?
      && var received := ReadField(ReadFrame(sent).message.data);
      && received.Success? && received.value.Field?
      && HasBit(AfterBitfield(c, peer, received.value.field).bitfields[peer], i) == (pieces[i].status == Verified)
  {
    hide Payload, ReadFrame, Frame, ReadField;
    var m := Field(base, field);
    FieldRestored(m);
    PayloadLength(m);
    ReadFramed(MessageBaseReceived(BIT_FIELD, Payload(m)), rest);
    assert field[i / 8][i % 8] == BitOf(pieces, i);
  }

  lemma PayloadLength(m: TorrentMessage)
    requires BaseFits(m.base)
    ensures |Payload(m)| == BASE_SIZE + |EncodeBody(m)|
  {
  }
}
