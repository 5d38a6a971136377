// The AES object: tables applied in place to sixteen bytes of a vector, the key expansion, and the loops
// over the blocks of a vector, forwards for encryption and backwards for decryption.

module AesHandler {
  import opened Aes
  import opened AesField
  import opened AesTables
  import opened Fips197
  import opened Wrappers

  const BLOCK := 16
  const WORD := 4
  const ROUNDS := 10

  ghost predicate UnchangedOutside(before: seq<bv8>, after: seq<bv8>, at: nat, len: nat) {
    && |before| == |after|
    && forall k :: 0 <= k < |before| && !(at <= k < at + len) ==> after[k] == before[k]
  }

  function Rcon(round: nat): (r: bv8)
    requires 1 <= round <= ROUNDS
  {
    match round
    case 1 => 0x01 case 2 => 0x02 case 3 => 0x04 case 4 => 0x08 case 5 => 0x10
    case 6 => 0x20 case 7 => 0x40 case 8 => 0x80 case 9 => 0x1b case _ => 0x36
  }

  /** The table holds the powers of x. */
  lemma {:induction false} RconIsPower(round: nat)
    requires 1 <= round <= ROUNDS
    ensures Rcon(round) == RconByte(round)
  {
    if round > 1 {
      RconIsPower(round - 1);
    }
  }

  // ----- in place on a word or a matrix inside an array of bytes

  lemma TurnedAt(s: seq<bv8>, places: int)
    requires |s| == WORD && -4 < places < 4
    ensures Turned(WordAt(s, 0), places)
      == Word(s[(0 + places + 4) % 4], s[(1 + places + 4) % 4], s[(2 + places + 4) % 4], s[(3 + places + 4) % 4])
  {
    var q := (places + 4) % 4;
    if q == 0 {
      assert places % 4 == 0;
    } else if q == 1 {
      assert places % 4 == 1;
    } else if q == 2 {
      assert places % 4 == 2;
    } else {
      assert places % 4 == 3;
    }
  }

  /** rotate: a word turned by a number of places, to the left if positive. */
  method Rotate(data: array<bv8>, at: nat, places: int)
    requires at + WORD <= data.Length && -4 < places < 4
    modifies data
    ensures UnchangedOutside(old(data[..]), data[..], at, WORD)
    ensures WordAt(data[..], at) == Turned(old(WordAt(data[..], at)), places)
  {
    ghost var word := data[at..at + WORD];
    var temp := new bv8[WORD];
    for i := 0 to WORD
      invariant data[..] == old(data[..])
      invariant forall k :: 0 <= k < i ==> temp[k] == word[(k + places + 4) % 4]
    {
      temp[i] := data[at + (i + places + 4) % 4];
    }
    ghost var turned := temp[..];
    for i := 0 to WORD
      invariant UnchangedOutside(old(data[..]), data[..], at, WORD)
      invariant temp[..] == turned
      invariant data[at..at + i] == turned[..i]
    {
      data[at + i] := temp[i];
    }
    TurnedAt(word, places);
    assert data[at..at + WORD] == turned;
    assert WordAt(data[..], at) == WordAt(data[at..at + WORD], 0);
  }

  method SubWordInPlace(word: array<bv8>)
    requires word.Length == WORD
    modifies word
    ensures forall k :: 0 <= k < WORD ==> word[k] == SBox(old(word[k]))
  {
    hide SBox;
    for i := 0 to WORD
      invariant forall k :: 0 <= k < i ==> word[k] == SBox(old(word[k]))
      invariant forall k :: i <= k < WORD ==> word[k] == old(word[k])
    {
      word[i] := SBox(word[i]);
    }
  }

  method SubBytesInPlace(data: array<bv8>, at: nat, isEnc: bool)
    requires at + BLOCK <= data.Length
    modifies data
    ensures UnchangedOutside(old(data[..]), data[..], at, BLOCK)
    ensures MatrixAt(data[..], at) == SubMatrix(old(MatrixAt(data[..], at)), isEnc)
  {
    hide SBox, SBoxInv;
    for i := 0 to 4
      invariant UnchangedOutside(old(data[..]), data[..], at, BLOCK)
      invariant forall k :: at <= k < at + 4 * i ==> data[k] == if isEnc then SBox(old(data[k])) else SBoxInv(old(data[k]))
      invariant forall k :: at + 4 * i <= k < at + BLOCK ==> data[k] == old(data[k])
    {
      for j := 0 to 4
        invariant UnchangedOutside(old(data[..]), data[..], at, BLOCK)
        invariant forall k :: at <= k < at + 4 * i + j ==>
          data[k] == if isEnc then SBox(old(data[k])) else SBoxInv(old(data[k]))
        invariant forall k :: at + 4 * i + j <= k < at + BLOCK ==> data[k] == old(data[k])
      {
        var x := data[at + 4 * i + j];
        data[at + 4 * i + j] := if isEnc then SBox(x) else SBoxInv(x);
      }
    }
  }

  /** The first n rows turned. */
  function ShiftedUpTo(m: Block, isEnc: bool, n: nat): Block {
    var s := ShiftMatrix(m, isEnc);
    Block(if n > 0 then s.w0 else m.w0, if n > 1 then s.w1 else m.w1,
          if n > 2 then s.w2 else m.w2, if n > 3 then s.w3 else m.w3)
  }

  lemma NextRowShifted(m: Block, isEnc: bool, n: int, before: seq<bv8>, after: seq<bv8>, at: nat)
    requires at + BLOCK <= |before| && 0 <= n < 4
    requires MatrixAt(before, at) == ShiftedUpTo(m, isEnc, n)
    requires UnchangedOutside(before, after, at + 4 * n, WORD)
    requires WordAt(after, at + 4 * n) == Turned(WordAt(before, at + 4 * n), if isEnc then n else -n)
    ensures MatrixAt(after, at) == ShiftedUpTo(m, isEnc, n + 1)
  {
    hide Turned;
    if n == 0 {
    } else if n == 1 {
    } else if n == 2 {
    } else {
    }
  }

  method ShiftRowsInPlace(data: array<bv8>, at: nat, isEnc: bool)
    requires at + BLOCK <= data.Length
    modifies data
    ensures UnchangedOutside(old(data[..]), data[..], at, BLOCK)
    ensures MatrixAt(data[..], at) == ShiftMatrix(old(MatrixAt(data[..], at)), isEnc)
  {
    hide Turned, MatrixAt, WordAt;
    ghost var m := MatrixAt(data[..], at);
    for i := 0 to 4
      invariant UnchangedOutside(old(data[..]), data[..], at, BLOCK)
      invariant MatrixAt(data[..], at) == ShiftedUpTo(m, isEnc, i)
    {
      ghost var before := data[..];
      Rotate(data, at + 4 * i, if isEnc then i else -i);
      NextRowShifted(m, isEnc, i, before, data[..], at);
    }
  }

  function Column(m: Block, col: nat): Word {
    match col
    case 0 => Transpose(m).w0
    case 1 => Transpose(m).w1
    case 2 => Transpose(m).w2
    case _ => Transpose(m).w3
  }

  function WithColumn(m: Block, col: nat, c: Word): Block {
    var t := Transpose(m);
    Transpose(match col
              case 0 => t.(w0 := c)
              case 1 => t.(w1 := c)
              case 2 => t.(w2 := c)
              case _ => t.(w3 := c))
  }

  function MixedColumnOf(m: Block, isEnc: bool, col: nat): Word {
    if isEnc then MixedByTable(Column(m, col)) else UnmixedByTable(Column(m, col))
  }

  /** The columns before n mixed. */
  function MixedUpTo(m: Block, isEnc: bool, n: nat): Block {
    if n == 0 then m else WithColumn(MixedUpTo(m, isEnc, n - 1), n - 1, MixedColumnOf(m, isEnc, n - 1))
  }

  lemma AllMixed(m: Block, isEnc: bool)
    ensures MixedUpTo(m, isEnc, 4) == if isEnc then MixMatrix(m) else UnmixMatrix(m)
  {
    hide MixedByTable, UnmixedByTable;
    assert MixedUpTo(m, isEnc, 1) == WithColumn(m, 0, MixedColumnOf(m, isEnc, 0));
    assert MixedUpTo(m, isEnc, 2) == WithColumn(MixedUpTo(m, isEnc, 1), 1, MixedColumnOf(m, isEnc, 1));
    assert MixedUpTo(m, isEnc, 3) == WithColumn(MixedUpTo(m, isEnc, 2), 2, MixedColumnOf(m, isEnc, 2));
    assert MixedUpTo(m, isEnc, 4) == WithColumn(MixedUpTo(m, isEnc, 3), 3, MixedColumnOf(m, isEnc, 3));
  }

  lemma {:induction false} LaterColumns(m: Block, isEnc: bool, n: nat, col: nat)
    requires n <= col < 4
    ensures Column(MixedUpTo(m, isEnc, n), col) == Column(m, col)
  {
    hide MixedByTable, UnmixedByTable;
    if n > 0 {
      LaterColumns(m, isEnc, n - 1, col);
    }
  }

  method SetColumn(data: array<bv8>, at: nat, col: nat, c: Word)
    requires at + BLOCK <= data.Length && col < 4
    modifies data
    ensures UnchangedOutside(old(data[..]), data[..], at, BLOCK)
    ensures MatrixAt(data[..], at) == WithColumn(old(MatrixAt(data[..], at)), col, c)
  {
    data[at + col] := c.b0;
    data[at + 4 + col] := c.b1;
    data[at + 8 + col] := c.b2;
    data[at + 12 + col] := c.b3;
    if col == 0 {
    } else if col == 1 {
    } else if col == 2 {
    } else {
    }
  }

  lemma ColumnBytes(s: seq<bv8>, at: nat, col: nat)
    requires at + BLOCK <= |s| && col < 4
    ensures Column(MatrixAt(s, at), col) == Word(s[at + col], s[at + 4 + col], s[at + 8 + col], s[at + 12 + col])
  {
    if col == 0 {
    } else if col == 1 {
    } else if col == 2 {
    } else {
    }
  }

  method MixColumnsInPlace(data: array<bv8>, at: nat)
    requires at + BLOCK <= data.Length
    modifies data
    ensures UnchangedOutside(old(data[..]), data[..], at, BLOCK)
    ensures MatrixAt(data[..], at) == MixMatrix(old(MatrixAt(data[..], at)))
  {
    hide Mul2, Mul3, Xor4, WithColumn, Column, MatrixAt;
    ghost var m := MatrixAt(data[..], at);
    for col := 0 to 4
      invariant UnchangedOutside(old(data[..]), data[..], at, BLOCK)
      invariant MatrixAt(data[..], at) == MixedUpTo(m, true, col)
    {
      LaterColumns(m, true, col, col);
      ColumnBytes(data[..], at, col);
      var s0, s1, s2, s3 := data[at + col], data[at + 4 + col], data[at + 8 + col], data[at + 12 + col];
      SetColumn(data, at, col, Word(Xor4(Mul2(s0), Mul3(s1), s2, s3), Xor4(s0, Mul2(s1), Mul3(s2), s3),
                                    Xor4(s0, s1, Mul2(s2), Mul3(s3)), Xor4(Mul3(s0), s1, s2, Mul2(s3))));
    }
    AllMixed(m, true);
  }

  method MixColumnsInvInPlace(data: array<bv8>, at: nat)
    requires at + BLOCK <= data.Length
    modifies data
    ensures UnchangedOutside(old(data[..]), data[..], at, BLOCK)
    ensures MatrixAt(data[..], at) == UnmixMatrix(old(MatrixAt(data[..], at)))
  {
    hide Mul9, Mul11, Mul13, Mul14, Xor4, WithColumn, Column, MatrixAt;
    ghost var m := MatrixAt(data[..], at);
    for col := 0 to 4
      invariant UnchangedOutside(old(data[..]), data[..], at, BLOCK)
      invariant MatrixAt(data[..], at) == MixedUpTo(m, false, col)
    {
      LaterColumns(m, false, col, col);
      ColumnBytes(data[..], at, col);
      var s0, s1, s2, s3 := data[at + col], data[at + 4 + col], data[at + 8 + col], data[at + 12 + col];
      SetColumn(data, at, col, Word(Xor4(Mul14(s0), Mul11(s1), Mul13(s2), Mul9(s3)),
                                    Xor4(Mul9(s0), Mul14(s1), Mul11(s2), Mul13(s3)),
                                    Xor4(Mul13(s0), Mul9(s1), Mul14(s2), Mul11(s3)),
                                    Xor4(Mul11(s0), Mul13(s1), Mul9(s2), Mul14(s3))));
    }
    AllMixed(m, false);
  }

  /** addRoundKey and xorEqual: sixteen bytes are added to sixteen bytes. */
  method XorInto(data: array<bv8>, at: nat, other: seq<bv8>)
    requires at + BLOCK <= data.Length && |other| == BLOCK
    modifies data
    ensures UnchangedOutside(old(data[..]), data[..], at, BLOCK)
    ensures MatrixAt(data[..], at) == AddRoundKey(old(MatrixAt(data[..], at)), MatrixAt(other, 0))
  {
    hide Xor;
    for i := 0 to BLOCK
      invariant UnchangedOutside(old(data[..]), data[..], at, BLOCK)
      invariant forall k :: at <= k < at + i ==> data[k] == Xor(old(data[k]), other[k - at])
      invariant forall k :: at + i <= k < at + BLOCK ==> data[k] == old(data[k])
    {
      data[at + i] := Xor(data[at + i], other[i]);
    }
  }

  // ----- the object

  /** A growing vector of bytes. */
  class ByteVector {
    var bytes: array<bv8>

    constructor (contents: seq<bv8>)
      ensures bytes[..] == contents && fresh(bytes)
    {
      bytes := new bv8[|contents|](k requires 0 <= k < |contents| => contents[k]);
    }

    /** The vector with other contents; insertion at the end and resizing both come to this. */
    method Become(contents: seq<bv8>)
      modifies this
      ensures bytes[..] == contents && fresh(bytes)
    {
      bytes := new bv8[|contents|](k requires 0 <= k < |contents| => contents[k]);
    }
  }

  class AESHandler {
    const keys: array<seq<bv8>>

    ghost predicate Valid()
      reads keys
    {
      && keys.Length == ROUNDS + 1
      && forall r :: 0 <= r <= ROUNDS ==> |keys[r]| == BLOCK
    }

    /** The round keys as matrices. */
    ghost function RoundKeys(): (ks: seq<Block>)
      requires Valid()
      reads keys
      ensures |ks| == 11
    {
      seq(11, r requires 0 <= r < 11 reads keys requires Valid() => MatrixAt(keys[r], 0))
    }

    constructor (key: seq<bv8>)
      requires |key| == BLOCK
      ensures Valid() && fresh(keys)
      ensures RoundKeys() == Expansion(MatrixAt(key, 0))
    {
      keys := new seq<bv8>[ROUNDS + 1](_ => []);
      new;
      KeyExpansion(key);
    }

    method KeyExpansion(key: seq<bv8>)
      requires keys.Length == ROUNDS + 1 && |key| == BLOCK
      modifies keys
      ensures Valid() && RoundKeys() == Expansion(MatrixAt(key, 0)) && keys[0] == key
    {
      hide NextRoundKey, RoundKey, KeyWord, MatrixAt;
      keys[0] := key;
      FirstRoundKey(key);
      for round := 1 to ROUNDS + 1
        invariant forall r :: 0 <= r < round ==> |keys[r]| == BLOCK
        invariant forall r :: 0 <= r < round ==> MatrixAt(keys[r], 0) == RoundKey(MatrixAt(key, 0), r)
        invariant keys[0] == key
      {
        var newKey := NextKey(keys[round - 1], round);
        RoundKeyStep(MatrixAt(key, 0), round);
        keys[round] := newKey;
      }
    }

    method AddRoundKeyInPlace(data: array<bv8>, at: nat, round: nat)
      requires Valid() && at + BLOCK <= data.Length && round <= ROUNDS
      modifies data
      ensures UnchangedOutside(old(data[..]), data[..], at, BLOCK)
      ensures MatrixAt(data[..], at) == AddRoundKey(old(MatrixAt(data[..], at)), RoundKeys()[round])
    {
      XorInto(data, at, keys[round]);
    }

    method EncryptMat(data: array<bv8>, at: nat)
      requires Valid() && at + BLOCK <= data.Length
      modifies data
      ensures UnchangedOutside(old(data[..]), data[..], at, BLOCK)
      ensures MatrixAt(data[..], at) == EncryptBlock(old(MatrixAt(data[..], at)), RoundKeys())
    {
      hide MatrixAt, AddRoundKey, SubMatrix, ShiftMatrix, MixMatrix, RoundKeys;
      ghost var m, ks := MatrixAt(data[..], at), RoundKeys();
      AddRoundKeyInPlace(data, at, 0);
      for i := 1 to ROUNDS
        invariant Valid() && RoundKeys() == ks
        invariant UnchangedOutside(old(data[..]), data[..], at, BLOCK)
        invariant MatrixAt(data[..], at) == EncryptRounds(m, ks, i - 1)
      {
        SubBytesInPlace(data, at, true);
        ShiftRowsInPlace(data, at, true);
        MixColumnsInPlace(data, at);
        AddRoundKeyInPlace(data, at, i);
      }
      SubBytesInPlace(data, at, true);
      ShiftRowsInPlace(data, at, true);
      AddRoundKeyInPlace(data, at, ROUNDS);
    }

    method DecryptMat(data: array<bv8>, at: nat)
      requires Valid() && at + BLOCK <= data.Length
      modifies data
      ensures UnchangedOutside(old(data[..]), data[..], at, BLOCK)
      ensures MatrixAt(data[..], at) == DecryptBlock(old(MatrixAt(data[..], at)), RoundKeys())
    {
      hide MatrixAt, AddRoundKey, SubMatrix, ShiftMatrix, UnmixMatrix, RoundKeys;
      ghost var m, ks := MatrixAt(data[..], at), RoundKeys();
      AddRoundKeyInPlace(data, at, ROUNDS);
      ShiftRowsInPlace(data, at, false);
      SubBytesInPlace(data, at, false);
      for i := ROUNDS - 1 downto 0
        invariant Valid() && RoundKeys() == ks
        invariant UnchangedOutside(old(data[..]), data[..], at, BLOCK)
        invariant MatrixAt(data[..], at) == DecryptRounds(m, ks, i)
      {
        AddRoundKeyInPlace(data, at, i + 1);
        MixColumnsInvInPlace(data, at);
        ShiftRowsInPlace(data, at, false);
        SubBytesInPlace(data, at, false);
      }
      AddRoundKeyInPlace(data, at, 0);
    }

    /** padData, then the blocks from the first to the last. The initialisation vector is given. */
    method Encrypt(data: ByteVector, iv: Block, toPad: bool, cbc: bool) returns (r: Result<Block>)
      requires Valid()
      modifies data, data.bytes
      ensures Valid() && RoundKeys() == old(RoundKeys())
      ensures var e := Encrypted(old(data.bytes[..]), RoundKeys(), iv, toPad, cbc);
        match e
        case Success(cipher) => r == Success(iv) && data.bytes[..] == cipher
        case Failure(error) => r == Failure(error) && data.bytes[..] == old(data.bytes[..])
    {
      hide RoundKeys, MatrixAt, CipherBlocks, Joined, Cut, Padded;
      ghost var ks := RoundKeys();
      if !toPad && data.bytes.Length % BLOCK != 0 {
        return Failure("Vector size must be padded or 16 bytes multiplication");
      }
      if toPad {
        data.Become(Padded(data.bytes[..]));
      }
      EncryptBlocks(data.bytes, iv, cbc, ks);
      r := Success(iv);
    }

    method EncryptBlocks(bytes: array<bv8>, iv: Block, cbc: bool, ghost ks: seq<Block>)
      requires Valid() && bytes.Length % BLOCK == 0 && ks == RoundKeys()
      modifies bytes
      ensures Valid() && RoundKeys() == ks
      ensures bytes[..] == Joined(CipherBlocks(Cut(old(bytes[..])), ks, iv, cbc))
    {
      hide RoundKeys, MatrixAt, CipherBlocks, Joined, Cut, EncryptBlock, AddRoundKey, BytesOf;
      ghost var start := bytes[..];
      ghost var bs := Cut(start);
      ghost var cs := CipherBlocks(bs, ks, iv, cbc);
      var lastMat := iv;
      for b := 0 to bytes.Length / BLOCK
        invariant Valid() && RoundKeys() == ks
        invariant forall k :: BLOCK * b <= k < |start| ==> bytes[k] == start[k]
        invariant forall k :: 0 <= k < b ==> MatrixAt(bytes[..], BLOCK * k) == cs[k]
        invariant lastMat == if b == 0 then iv else cs[b - 1]
      {
        var i := BLOCK * b;
        ghost var before := bytes[..];
        SameMatrix(start, before, i);
        CutAt(start, b);
        if cbc {
          MatrixOfBytes(lastMat);
          XorInto(bytes, i, BytesOf(lastMat));
        }
        EncryptMat(bytes, i);
        CipherBlocksAt(bs, ks, iv, cbc, b);
        lastMat := MatrixAt(bytes[..], i);
        OthersKept(before, bytes[..], b);
      }
      FromBlocks(bytes[..], cs);
    }

    /** The blocks from the last to the first, so that the block before is still encrypted, then dePadData. */
    method Decrypt(data: ByteVector, iv: Option<Block>, isPadded: bool) returns (r: Result<()>)
      requires Valid()
      requires data.bytes.Length < 0x8000_0000
      requires isPadded ==> data.bytes.Length > 0
      modifies data, data.bytes
      ensures Valid() && RoundKeys() == old(RoundKeys())
      ensures var d := Decrypted(old(data.bytes[..]), RoundKeys(), iv, isPadded);
        match d
        case Success(plain) => r == Success(()) && data.bytes[..] == plain
        case Failure(error) => r == Failure(error)
    {
      hide RoundKeys, MatrixAt, PlainBlocks, Joined, Cut;
      ghost var ks := RoundKeys();
      if data.bytes.Length % BLOCK != 0 {
        return Failure("Vector size must be 16 bytes multiplication");
      }
      DecryptBlocks(data.bytes, iv, ks);
      if isPadded {
        var padding := data.bytes[data.bytes.Length - 1] as nat;
        if padding > data.bytes.Length {
          return Failure("length_error");
        }
        data.Become(data.bytes[..data.bytes.Length - padding]);
      }
      r := Success(());
    }

    method DecryptBlocks(bytes: array<bv8>, iv: Option<Block>, ghost ks: seq<Block>)
      requires Valid() && bytes.Length % BLOCK == 0 && ks == RoundKeys()
      modifies bytes
      ensures Valid() && RoundKeys() == ks
      ensures bytes[..] == Joined(PlainBlocks(Cut(old(bytes[..])), ks, iv))
    {
      hide RoundKeys, MatrixAt, Joined, Cut, DecryptBlock, AddRoundKey, BytesOf;
      ghost var start := bytes[..];
      ghost var cs := Cut(start);
      for b := bytes.Length / BLOCK downto 0
        invariant Valid() && RoundKeys() == ks
        invariant forall k :: 0 <= k < BLOCK * b ==> bytes[k] == start[k]
        invariant forall k :: b <= k < |cs| ==> MatrixAt(bytes[..], BLOCK * k) == PlainBlock(cs, ks, iv, k)
      {
        var i := BLOCK * b;
        ghost var before := bytes[..];
        SameMatrix(start, before, i);
        CutAt(start, b);
        DecryptMat(bytes, i);
        if iv.Some? {
          if i >= BLOCK {
            SameMatrix(start, bytes[..], i - BLOCK);
            CutAt(start, b - 1);
            MatrixOfSlice(bytes[..], i - BLOCK);
            XorInto(bytes, i, bytes[i - BLOCK..i]);
          } else {
            MatrixOfBytes(iv.value);
            XorInto(bytes, i, BytesOf(iv.value));
          }
        }
        OthersKept(before, bytes[..], b);
      }
      FromBlocks(bytes[..], PlainBlocks(cs, ks, iv));
    }
  }

  // ----- facts about blocks inside a vector

  lemma SameMatrix(s: seq<bv8>, t: seq<bv8>, at: nat)
    requires at + BLOCK <= |s| == |t|
    requires forall k :: at <= k < at + BLOCK ==> s[k] == t[k]
    ensures MatrixAt(s, at) == MatrixAt(t, at)
  {
  }

  lemma CutAt(s: seq<bv8>, b: nat)
    requires |s| % BLOCK == 0 && b < |s| / BLOCK
    ensures Cut(s)[b] == MatrixAt(s, BLOCK * b)
  {
  }

  lemma MatrixOfBytes(m: Block)
    ensures MatrixAt(BytesOf(m), 0) == m
  {
  }

  lemma MatrixOfSlice(s: seq<bv8>, at: nat)
    requires at + BLOCK <= |s|
    ensures MatrixAt(s[at..at + BLOCK], 0) == MatrixAt(s, at)
  {
  }

  lemma OthersKept(before: seq<bv8>, after: seq<bv8>, b: nat)
    requires BLOCK * b + BLOCK <= |before| && |before| % BLOCK == 0
    requires UnchangedOutside(before, after, BLOCK * b, BLOCK)
    ensures forall k :: 0 <= k < |before| / BLOCK && k != b ==> MatrixAt(after, BLOCK * k) == MatrixAt(before, BLOCK * k)
  {
    hide MatrixAt;
    forall k | 0 <= k < |before| / BLOCK && k != b
      ensures MatrixAt(after, BLOCK * k) == MatrixAt(before, BLOCK * k)
    {
      SameMatrix(after, before, BLOCK * k);
    }
  }

  lemma FromBlocks(s: seq<bv8>, bs: seq<Block>)
    requires |s| == BLOCK * |bs|
    requires forall k :: 0 <= k < |bs| ==> MatrixAt(s, BLOCK * k) == bs[k]
    ensures s == Joined(bs)
  {
    hide MatrixAt, Joined;
    assert Cut(s) == bs;
    JoinedCut(s);
  }

  lemma FirstRoundKey(key: seq<bv8>)
    requires |key| == BLOCK
    ensures RoundKey(MatrixAt(key, 0), 0) == MatrixAt(key, 0)
  {
  }

  /** The key of a round from the key before it. */
  function NextRoundKey(k: Block, round: nat): Block
    requires 1 <= round
  {
    var w0 := XorWord(k.w0, XorWord(SubWord(RotWord(k.w3)), Word(RconByte(round), 0, 0, 0)));
    var w1 := XorWord(w0, k.w1);
    var w2 := XorWord(w1, k.w2);
    Block(w0, w1, w2, XorWord(w2, k.w3))
  }

  lemma XorWordCommutes(x: Word, y: Word)
    ensures XorWord(x, y) == XorWord(y, x)
  {
    hide Xor;
    XorCommutes(x.b0, y.b0);
    XorCommutes(x.b1, y.b1);
    XorCommutes(x.b2, y.b2);
    XorCommutes(x.b3, y.b3);
  }

  lemma RoundKeyStep(key: Block, round: nat)
    requires round >= 1
    ensures RoundKey(key, round) == NextRoundKey(RoundKey(key, round - 1), round)
  {
    hide XorWord, SubWord, RotWord, RconByte;
    var i := 4 * round;
    assert KeyWord(key, i) == XorWord(KeyWord(key, i - 4),
      XorWord(SubWord(RotWord(KeyWord(key, i - 1))), Word(RconByte(round), 0, 0, 0)));
    assert KeyWord(key, i + 1) == XorWord(KeyWord(key, i - 3), KeyWord(key, i));
    assert KeyWord(key, i + 2) == XorWord(KeyWord(key, i - 2), KeyWord(key, i + 1));
    assert KeyWord(key, i + 3) == XorWord(KeyWord(key, i - 1), KeyWord(key, i + 2));
    XorWordCommutes(KeyWord(key, i - 3), KeyWord(key, i));
    XorWordCommutes(KeyWord(key, i - 2), KeyWord(key, i + 1));
    XorWordCommutes(KeyWord(key, i - 1), KeyWord(key, i + 2));
  }

  lemma SubWordIsTable(w: Word)
    ensures SubWord(w) == Word(SBox(w.b0), SBox(w.b1), SBox(w.b2), SBox(w.b3))
  {
    hide SBox, Substitute;
    SBoxIsSubstitute(w.b0);
    SBoxIsSubstitute(w.b1);
    SBoxIsSubstitute(w.b2);
    SBoxIsSubstitute(w.b3);
  }

  lemma XorZero(x: bv8)
    ensures Xor(x, 0) == x
  {
  }

  lemma RconWord(w: Word, round: nat)
    requires 1 <= round <= ROUNDS
    ensures XorWord(SubWord(RotWord(w)), Word(RconByte(round), 0, 0, 0))
      == Word(Xor(SBox(w.b1), Rcon(round)), SBox(w.b2), SBox(w.b3), SBox(w.b0))
  {
    hide Xor, SBox, Substitute, Rcon, RconByte;
    SubWordIsTable(RotWord(w));
    RconIsPower(round);
    XorZero(SBox(w.b2));
    XorZero(SBox(w.b3));
    XorZero(SBox(w.b0));
  }

  /** The word that is added to the first word of the key before. */
  method ScheduleCore(prevKey: seq<bv8>, round: nat) returns (temp: array<bv8>)
    requires |prevKey| == BLOCK && 1 <= round <= ROUNDS
    ensures fresh(temp) && temp.Length == WORD
    ensures WordAt(temp[..], 0)
      == XorWord(SubWord(RotWord(WordAt(prevKey, 12))), Word(RconByte(round), 0, 0, 0))
  {
    hide Xor, SBox, Rcon, RconByte, XorWord, SubWord;
    temp := new bv8[WORD];
    for i := 0 to WORD
      invariant forall k :: 0 <= k < i ==> temp[k] == prevKey[BLOCK - WORD + k]
    {
      temp[i] := prevKey[BLOCK - WORD + i];
    }
    Rotate(temp, 0, 1);
    assert WordAt(temp[..], 0) == RotWord(WordAt(prevKey, 12));
    SubWordInPlace(temp);
    temp[0] := Xor(temp[0], Rcon(round));
    RconWord(WordAt(prevKey, 12), round);
  }

  lemma KeyBytesAreWords(prevKey: seq<bv8>, word: seq<bv8>, key: seq<bv8>)
    requires |prevKey| == |key| == BLOCK && |word| == WORD
    requires forall k :: 0 <= k < WORD ==> key[k] == Xor(prevKey[k], word[k])
    requires forall k :: WORD <= k < BLOCK ==> key[k] == Xor(key[k - WORD], prevKey[k])
    ensures WordAt(key, 0) == XorWord(WordAt(prevKey, 0), WordAt(word, 0))
    ensures WordAt(key, 4) == XorWord(WordAt(key, 0), WordAt(prevKey, 4))
    ensures WordAt(key, 8) == XorWord(WordAt(key, 4), WordAt(prevKey, 8))
    ensures WordAt(key, 12) == XorWord(WordAt(key, 8), WordAt(prevKey, 12))
  {
    hide Xor;
  }

  lemma KeyFromWords(prevKey: seq<bv8>, key: seq<bv8>, core: Word, round: nat)
    requires |prevKey| == |key| == BLOCK && 1 <= round
    requires core == XorWord(SubWord(RotWord(WordAt(prevKey, 12))), Word(RconByte(round), 0, 0, 0))
    requires WordAt(key, 0) == XorWord(WordAt(prevKey, 0), core)
    requires WordAt(key, 4) == XorWord(WordAt(key, 0), WordAt(prevKey, 4))
    requires WordAt(key, 8) == XorWord(WordAt(key, 4), WordAt(prevKey, 8))
    requires WordAt(key, 12) == XorWord(WordAt(key, 8), WordAt(prevKey, 12))
    ensures MatrixAt(key, 0) == NextRoundKey(MatrixAt(prevKey, 0), round)
  {
    hide XorWord, SubWord, RotWord, RconByte;
  }

  method NextKey(prevKey: seq<bv8>, round: nat) returns (key: seq<bv8>)
    requires |prevKey| == BLOCK && 1 <= round <= ROUNDS
    ensures |key| == BLOCK && MatrixAt(key, 0) == NextRoundKey(MatrixAt(prevKey, 0), round)
  {
    hide Xor, RconByte, SubWord, RotWord, MatrixAt, NextRoundKey, XorWord;
    var newKey := new bv8[BLOCK];
    var temp := ScheduleCore(prevKey, round);
    ghost var word := temp[..];
    for i := 0 to WORD
      invariant temp[..] == word
      invariant forall k :: 0 <= k < i ==> newKey[k] == Xor(prevKey[k], word[k])
    {
      newKey[i] := Xor(prevKey[i], temp[i]);
    }
    for i := WORD to BLOCK
      invariant forall k :: 0 <= k < WORD ==> newKey[k] == Xor(prevKey[k], word[k])
      invariant forall k :: WORD <= k < i ==> newKey[k] == Xor(newKey[k - WORD], prevKey[k])
    {
      newKey[i] := Xor(newKey[i - WORD], prevKey[i]);
    }
    key := newKey[..];
    KeyBytesAreWords(prevKey, word, key);
    KeyFromWords(prevKey, key, WordAt(word, 0), round);
  }
}
