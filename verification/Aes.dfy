// What the AES code computes, on values: a block is a matrix of four rows filled row by row, where the
// standard fills its state column by column. Decryption undoes encryption, the block cipher is the
// standard's up to transposition, and the modes with padding are undone as well.

module Aes {
  import opened AesField
  import opened AesTables
  import opened Bytes
  import opened Fips197
  import opened Wrappers

  // ----- the steps of a round on a matrix of rows

  function Transpose(m: Block): Block {
    Block(Word(m.w0.b0, m.w1.b0, m.w2.b0, m.w3.b0), Word(m.w0.b1, m.w1.b1, m.w2.b1, m.w3.b1),
          Word(m.w0.b2, m.w1.b2, m.w2.b2, m.w3.b2), Word(m.w0.b3, m.w1.b3, m.w2.b3, m.w3.b3))
  }

  function SubRow(w: Word, isEnc: bool): Word {
    if isEnc then Word(SBox(w.b0), SBox(w.b1), SBox(w.b2), SBox(w.b3))
    else Word(SBoxInv(w.b0), SBoxInv(w.b1), SBoxInv(w.b2), SBoxInv(w.b3))
  }

  function SubMatrix(m: Block, isEnc: bool): Block {
    Block(SubRow(m.w0, isEnc), SubRow(m.w1, isEnc), SubRow(m.w2, isEnc), SubRow(m.w3, isEnc))
  }

  /** A row turned to the left by a number of places, to the right if negative. */
  function Turned(w: Word, places: int): Word {
    match places % 4
    case 0 => w
    case 1 => RotWord(w)
    case 2 => RotWord(RotWord(w))
    case _ => RotWord(RotWord(RotWord(w)))
  }

  /** Every row turned by its number: to the left when encrypting, to the right when decrypting. */
  function ShiftMatrix(m: Block, isEnc: bool): Block {
    var s := if isEnc then 1 else -1;
    Block(Turned(m.w0, 0), Turned(m.w1, s), Turned(m.w2, 2 * s), Turned(m.w3, 3 * s))
  }

  function MixedByTable(s: Word): Word {
    Word(Xor4(Mul2(s.b0), Mul3(s.b1), s.b2, s.b3),
         Xor4(s.b0, Mul2(s.b1), Mul3(s.b2), s.b3),
         Xor4(s.b0, s.b1, Mul2(s.b2), Mul3(s.b3)),
         Xor4(Mul3(s.b0), s.b1, s.b2, Mul2(s.b3)))
  }

  function UnmixedByTable(s: Word): Word {
    Word(Xor4(Mul14(s.b0), Mul11(s.b1), Mul13(s.b2), Mul9(s.b3)),
         Xor4(Mul9(s.b0), Mul14(s.b1), Mul11(s.b2), Mul13(s.b3)),
         Xor4(Mul13(s.b0), Mul9(s.b1), Mul14(s.b2), Mul11(s.b3)),
         Xor4(Mul11(s.b0), Mul13(s.b1), Mul9(s.b2), Mul14(s.b3)))
  }

  function MixMatrix(m: Block): Block {
    var t := Transpose(m);
    Transpose(Block(MixedByTable(t.w0), MixedByTable(t.w1), MixedByTable(t.w2), MixedByTable(t.w3)))
  }

  function UnmixMatrix(m: Block): Block {
    var t := Transpose(m);
    Transpose(Block(UnmixedByTable(t.w0), UnmixedByTable(t.w1), UnmixedByTable(t.w2), UnmixedByTable(t.w3)))
  }

  // ----- encryption and decryption of one block

  function EncryptRounds(m: Block, keys: seq<Block>, n: nat): Block
    requires n < |keys|
  {
    if n == 0 then AddRoundKey(m, keys[0])
    else AddRoundKey(MixMatrix(ShiftMatrix(SubMatrix(EncryptRounds(m, keys, n - 1), true), true)), keys[n])
  }

  function EncryptBlock(m: Block, keys: seq<Block>): Block
    requires |keys| == 11
  {
    AddRoundKey(ShiftMatrix(SubMatrix(EncryptRounds(m, keys, 9), true), true), keys[10])
  }

  /** The matrix when the round keys from the last down to n + 1 have been used. */
  function DecryptRounds(m: Block, keys: seq<Block>, n: nat): Block
    requires |keys| == 11 && n <= 9
    decreases 9 - n
  {
    if n == 9 then SubMatrix(ShiftMatrix(AddRoundKey(m, keys[10]), false), false)
    else SubMatrix(ShiftMatrix(UnmixMatrix(AddRoundKey(DecryptRounds(m, keys, n + 1), keys[n + 1])), false), false)
  }

  function DecryptBlock(m: Block, keys: seq<Block>): Block
    requires |keys| == 11
  {
    AddRoundKey(DecryptRounds(m, keys, 0), keys[0])
  }

  // ----- every step is undone

  lemma SubUndone(m: Block)
    ensures SubMatrix(SubMatrix(m, true), false) == m
  {
    hide SBox, SBoxInv;
    SubRowUndone(m.w0);
    SubRowUndone(m.w1);
    SubRowUndone(m.w2);
    SubRowUndone(m.w3);
  }

  lemma SubRowUndone(w: Word)
    ensures SubRow(SubRow(w, true), false) == w
  {
    hide SBox, SBoxInv;
    SBoxInverse(w.b0);
    SBoxInverse(w.b1);
    SBoxInverse(w.b2);
    SBoxInverse(w.b3);
  }

  lemma ShiftUndone(m: Block)
    ensures ShiftMatrix(ShiftMatrix(m, true), false) == m
  {
  }

  lemma XorUndone(x: bv8, y: bv8)
    ensures Xor(Xor(x, y), y) == x
  {
  }

  lemma XorWordUndone(x: Word, y: Word)
    ensures XorWord(XorWord(x, y), y) == x
  {
    hide Xor;
    XorUndone(x.b0, y.b0);
    XorUndone(x.b1, y.b1);
    XorUndone(x.b2, y.b2);
    XorUndone(x.b3, y.b3);
  }

  lemma AddUndone(m: Block, k: Block)
    ensures AddRoundKey(AddRoundKey(m, k), k) == m
  {
    hide XorWord;
    XorWordUndone(m.w0, k.w0);
    XorWordUndone(m.w1, k.w1);
    XorWordUndone(m.w2, k.w2);
    XorWordUndone(m.w3, k.w3);
  }

  lemma TableMixes(s: Word)
    ensures MixedByTable(s) == MixColumn(s)
  {
    hide Mul2, Mul3, GMul, Xor4;
    Product2(s.b0); Product2(s.b1); Product2(s.b2); Product2(s.b3);
    Product3(s.b0); Product3(s.b1); Product3(s.b2); Product3(s.b3);
  }

  lemma TableUnmixes(s: Word)
    ensures UnmixedByTable(s) == InvMixColumn(s)
  {
    hide Mul9, Mul11, Mul13, Mul14, GMul, Xor4;
    Product9(s.b0); Product9(s.b1); Product9(s.b2); Product9(s.b3);
    Product11(s.b0); Product11(s.b1); Product11(s.b2); Product11(s.b3);
    Product13(s.b0); Product13(s.b1); Product13(s.b2); Product13(s.b3);
    Product14(s.b0); Product14(s.b1); Product14(s.b2); Product14(s.b3);
  }

  lemma TableMixUndone(s: Word)
    ensures UnmixedByTable(MixedByTable(s)) == s
  {
    hide MixedByTable, UnmixedByTable, MixColumn, InvMixColumn;
    TableMixes(s);
    TableUnmixes(MixColumn(s));
    UnmixMix(s);
  }

  lemma MixUndone(m: Block)
    ensures UnmixMatrix(MixMatrix(m)) == m
  {
    hide MixedByTable, UnmixedByTable;
    var t := Transpose(m);
    TableMixUndone(t.w0);
    TableMixUndone(t.w1);
    TableMixUndone(t.w2);
    TableMixUndone(t.w3);
  }

  /** Halfway through decryption the matrix is what it was at that point of the encryption. */
  lemma {:induction false} RoundsUndone(m: Block, keys: seq<Block>, n: nat)
    requires |keys| == 11 && n <= 9
    ensures DecryptRounds(EncryptBlock(m, keys), keys, n) == EncryptRounds(m, keys, n)
    decreases 9 - n
  {
    hide AddRoundKey, SubMatrix, ShiftMatrix, MixMatrix, UnmixMatrix;
    if n == 9 {
      var s := SubMatrix(EncryptRounds(m, keys, 9), true);
      AddUndone(ShiftMatrix(s, true), keys[10]);
      ShiftUndone(s);
      SubUndone(EncryptRounds(m, keys, 9));
    } else {
      RoundsUndone(m, keys, n + 1);
      var s := SubMatrix(EncryptRounds(m, keys, n), true);
      AddUndone(MixMatrix(ShiftMatrix(s, true)), keys[n + 1]);
      MixUndone(ShiftMatrix(s, true));
      ShiftUndone(s);
      SubUndone(EncryptRounds(m, keys, n));
    }
  }

  /** Decryption undoes encryption for any eleven round keys. */
  lemma BlockUndone(m: Block, keys: seq<Block>)
    requires |keys| == 11
    ensures DecryptBlock(EncryptBlock(m, keys), keys) == m
  {
    hide AddRoundKey, EncryptBlock;
    RoundsUndone(m, keys, 0);
    AddUndone(m, keys[0]);
  }

  // ----- the standard's cipher, up to transposition

  lemma SubTransposed(m: Block)
    ensures Transpose(SubMatrix(m, true)) == SubBytes(Transpose(m))
  {
    hide SBox, Substitute;
    RowSubstituted(m.w0);
    RowSubstituted(m.w1);
    RowSubstituted(m.w2);
    RowSubstituted(m.w3);
  }

  lemma RowSubstituted(w: Word)
    ensures SubRow(w, true) == SubWord(w)
  {
    hide SBox, Substitute;
    SBoxIsSubstitute(w.b0);
    SBoxIsSubstitute(w.b1);
    SBoxIsSubstitute(w.b2);
    SBoxIsSubstitute(w.b3);
  }

  lemma ShiftTransposed(m: Block)
    ensures Transpose(ShiftMatrix(m, true)) == ShiftRows(Transpose(m))
  {
  }

  lemma MixTransposed(m: Block)
    ensures Transpose(MixMatrix(m)) == MixColumns(Transpose(m))
  {
    hide MixedByTable, MixColumn;
    var t := Transpose(m);
    TableMixes(t.w0);
    TableMixes(t.w1);
    TableMixes(t.w2);
    TableMixes(t.w3);
  }

  lemma AddTransposed(m: Block, k: Block)
    ensures Transpose(AddRoundKey(m, k)) == AddRoundKey(Transpose(m), Transpose(k))
  {
    hide Xor;
  }

  function TransposeAll(keys: seq<Block>): (r: seq<Block>)
    ensures |r| == |keys|
  {
    seq(|keys|, i requires 0 <= i < |keys| => Transpose(keys[i]))
  }

  lemma {:induction false} RoundsTransposed(m: Block, keys: seq<Block>, n: nat)
    requires n < |keys|
    ensures Transpose(EncryptRounds(m, keys, n)) == FullRounds(Transpose(m), TransposeAll(keys), n)
  {
    hide AddRoundKey, SubMatrix, ShiftMatrix, MixMatrix, SubBytes, ShiftRows, MixColumns, Transpose;
    if n == 0 {
      AddTransposed(m, keys[0]);
    } else {
      RoundsTransposed(m, keys, n - 1);
      var s := EncryptRounds(m, keys, n - 1);
      SubTransposed(s);
      ShiftTransposed(SubMatrix(s, true));
      MixTransposed(ShiftMatrix(SubMatrix(s, true), true));
      AddTransposed(MixMatrix(ShiftMatrix(SubMatrix(s, true), true)), keys[n]);
    }
  }

  /** The transposed result is the cipher of section 5.1 on the transposed block and round keys. */
  lemma BlockIsCipher(m: Block, keys: seq<Block>)
    requires |keys| == 11
    ensures Transpose(EncryptBlock(m, keys)) == Cipher(Transpose(m), TransposeAll(keys))
  {
    hide AddRoundKey, SubMatrix, ShiftMatrix, SubBytes, ShiftRows, Transpose, EncryptRounds, FullRounds;
    RoundsTransposed(m, keys, 9);
    var s := EncryptRounds(m, keys, 9);
    SubTransposed(s);
    ShiftTransposed(SubMatrix(s, true));
    AddTransposed(ShiftMatrix(SubMatrix(s, true), true), keys[10]);
  }

  /** With the expansion of a key, it is AES-128 for that key with every round key transposed. */
  lemma ExpandedBlockIsCipher(m: Block, key: Block)
    ensures Transpose(EncryptBlock(m, Expansion(key))) == Cipher(Transpose(m), TransposeAll(Expansion(key)))
    ensures DecryptBlock(EncryptBlock(m, Expansion(key)), Expansion(key)) == m
  {
    hide EncryptBlock, DecryptBlock, Cipher, Expansion, TransposeAll;
    BlockIsCipher(m, Expansion(key));
    BlockUndone(m, Expansion(key));
  }

  // ----- byte strings as sequences of blocks

  function WordAt(s: seq<bv8>, at: nat): Word
    requires at + 4 <= |s|
  {
    Word(s[at], s[at + 1], s[at + 2], s[at + 3])
  }

  function MatrixAt(s: seq<bv8>, at: nat): Block
    requires at + 16 <= |s|
  {
    Block(WordAt(s, at), WordAt(s, at + 4), WordAt(s, at + 8), WordAt(s, at + 12))
  }

  function Cut(s: seq<bv8>): (bs: seq<Block>)
    requires |s| % 16 == 0
    ensures |bs| == |s| / 16
  {
    seq(|s| / 16, k requires 0 <= k < |s| / 16 => MatrixAt(s, 16 * k))
  }

  function BytesOf(b: Block): (s: seq<bv8>)
    ensures |s| == 16 && MatrixAt(s, 0) == b
  {
    [b.w0.b0, b.w0.b1, b.w0.b2, b.w0.b3, b.w1.b0, b.w1.b1, b.w1.b2, b.w1.b3,
     b.w2.b0, b.w2.b1, b.w2.b2, b.w2.b3, b.w3.b0, b.w3.b1, b.w3.b2, b.w3.b3]
  }

  function Joined(bs: seq<Block>): (s: seq<bv8>)
    ensures |s| == 16 * |bs|
  {
    if bs == [] then [] else Joined(bs[..|bs| - 1]) + BytesOf(bs[|bs| - 1])
  }

  lemma {:induction false} JoinedAt(bs: seq<Block>, k: nat)
    requires k < |bs|
    ensures MatrixAt(Joined(bs), 16 * k) == bs[k]
  {
    var n := |bs| - 1;
    if k < n {
      JoinedAt(bs[..n], k);
      assert MatrixAt(Joined(bs), 16 * k) == MatrixAt(Joined(bs[..n]), 16 * k);
    }
  }

  lemma CutJoined(bs: seq<Block>)
    ensures Cut(Joined(bs)) == bs
  {
    forall k | 0 <= k < |bs|
      ensures Cut(Joined(bs))[k] == bs[k]
    {
      JoinedAt(bs, k);
    }
  }

  lemma MatrixFixesBytes(s: seq<bv8>, at: nat)
    requires at + 16 <= |s|
    ensures BytesOf(MatrixAt(s, at)) == s[at..at + 16]
  {
  }

  lemma CutButLast(s: seq<bv8>)
    requires |s| % 16 == 0 && |s| > 0
    ensures Cut(s)[..|s| / 16 - 1] == Cut(s[..|s| - 16])
    ensures Cut(s)[|s| / 16 - 1] == MatrixAt(s, |s| - 16)
  {
    var n := |s| - 16;
    forall k | 0 <= k < n / 16
      ensures Cut(s)[k] == Cut(s[..n])[k]
    {
      assert MatrixAt(s, 16 * k) == MatrixAt(s[..n], 16 * k);
    }
  }

  lemma JoinedSplit(bs: seq<Block>)
    requires bs != []
    ensures Joined(bs) == Joined(bs[..|bs| - 1]) + BytesOf(bs[|bs| - 1])
  {
  }

  lemma LastSixteen(s: seq<bv8>)
    requires |s| >= 16
    ensures s == s[..|s| - 16] + s[|s| - 16..|s| - 16 + 16]
  {
  }

  lemma {:induction false} JoinedCut(s: seq<bv8>)
    requires |s| % 16 == 0
    ensures Joined(Cut(s)) == s
  {
    if s != [] {
      hide Joined, MatrixAt, BytesOf, Cut;
      var n := |s| - 16;
      JoinedCut(s[..n]);
      CutButLast(s);
      MatrixFixesBytes(s, n);
      JoinedSplit(Cut(s));
      LastSixteen(s);
    }
  }

  // ----- the modes of operation

  function XorBlock(x: Block, y: Block): Block {
    AddRoundKey(x, y)
  }

  /** In CBC mode each block is first added to the encrypted block before it, the first one to the IV. */
  function CipherBlocks(bs: seq<Block>, keys: seq<Block>, iv: Block, cbc: bool): (cs: seq<Block>)
    requires |keys| == 11
    ensures |cs| == |bs|
  {
    if bs == [] then []
    else
      var front := CipherBlocks(bs[..|bs| - 1], keys, iv, cbc);
      var last := bs[|bs| - 1];
      var before := if front == [] then iv else front[|front| - 1];
      front + [EncryptBlock(if cbc then XorBlock(last, before) else last, keys)]
  }

  function PlainBlock(cs: seq<Block>, keys: seq<Block>, iv: Option<Block>, k: nat): Block
    requires |keys| == 11 && k < |cs|
  {
    var plain := DecryptBlock(cs[k], keys);
    match iv
    case None => plain
    case Some(first) => XorBlock(plain, if k == 0 then first else cs[k - 1])
  }

  function PlainBlocks(cs: seq<Block>, keys: seq<Block>, iv: Option<Block>): (bs: seq<Block>)
    requires |keys| == 11
    ensures |bs| == |cs|
  {
    seq(|cs|, k requires 0 <= k < |cs| => PlainBlock(cs, keys, iv, k))
  }

  lemma {:induction false} CipherBlocksAt(bs: seq<Block>, keys: seq<Block>, iv: Block, cbc: bool, k: nat)
    requires |keys| == 11 && k < |bs|
    ensures var cs := CipherBlocks(bs, keys, iv, cbc);
      cs[k] == EncryptBlock(if cbc then XorBlock(bs[k], if k == 0 then iv else cs[k - 1]) else bs[k], keys)
  {
    hide EncryptBlock, XorBlock;
    var n := |bs| - 1;
    if k < n {
      CipherBlocksAt(bs[..n], keys, iv, cbc, k);
    }
  }

  lemma ModeUndone(bs: seq<Block>, keys: seq<Block>, iv: Block, cbc: bool)
    requires |keys| == 11
    ensures PlainBlocks(CipherBlocks(bs, keys, iv, cbc), keys, if cbc then Some(iv) else None) == bs
  {
    hide EncryptBlock, DecryptBlock, AddRoundKey, CipherBlocks;
    var cs := CipherBlocks(bs, keys, iv, cbc);
    forall k | 0 <= k < |bs|
      ensures PlainBlock(cs, keys, if cbc then Some(iv) else None, k) == bs[k]
    {
      CipherBlocksAt(bs, keys, iv, cbc, k);
      var before := if k == 0 then iv else cs[k - 1];
      BlockUndone(XorBlock(bs[k], before), keys);
      BlockUndone(bs[k], keys);
      AddUndone(bs[k], before);
    }
  }

  // ----- padding

  function Padded(data: seq<bv8>): (padded: seq<bv8>)
    ensures |padded| % 16 == 0
  {
    var padding := 16 - |data| % 16;
    data + Repeated(padding as bv8, padding)
  }

  /** The last byte says how many bytes to drop; more than there are cannot be dropped. */
  function Depadded(data: seq<bv8>): Result<seq<bv8>>
    requires data != []
  {
    var padding := data[|data| - 1] as nat;
    if padding <= |data| then Success(data[..|data| - padding]) else Failure("length_error")
  }

  /** Between one and sixteen bytes are added, each of them the number of all. */
  lemma PaddingCounts(data: seq<bv8>)
    ensures var p, n := Padded(data), |data|;
      && p[..n] == data && 1 <= |p| - n <= 16 && |p| % 16 == 0
      && forall i :: n <= i < |p| ==> p[i] as nat == |p| - n
  {
    var padding := 16 - |data| % 16;
    assert (padding as bv8) as nat == padding;
  }

  lemma PaddingUndone(data: seq<bv8>)
    ensures Depadded(Padded(data)) == Success(data)
  {
    var padding := 16 - |data| % 16;
    assert (padding as bv8) as nat == padding;
    assert Padded(data)[..|data|] == data;
  }

  // ----- whole byte strings

  function Encrypted(data: seq<bv8>, keys: seq<Block>, iv: Block, toPad: bool, cbc: bool): Result<seq<bv8>>
    requires |keys| == 11
  {
    if !toPad && |data| % 16 != 0 then Failure("Vector size must be padded or 16 bytes multiplication")
    else Success(Joined(CipherBlocks(Cut(if toPad then Padded(data) else data), keys, iv, cbc)))
  }

  function Decrypted(data: seq<bv8>, keys: seq<Block>, iv: Option<Block>, isPadded: bool): Result<seq<bv8>>
    requires |keys| == 11
    requires isPadded ==> data != []
  {
    if |data| % 16 != 0 then Failure("Vector size must be 16 bytes multiplication")
    else
      var plain := Joined(PlainBlocks(Cut(data), keys, iv));
      if isPadded then Depadded(plain) else Success(plain)
  }

  /** Decrypting what was encrypted gives back the data, in both modes, padded or not. */
  lemma DecryptEncrypt(data: seq<bv8>, keys: seq<Block>, iv: Block, toPad: bool, cbc: bool)
    requires |keys| == 11
    requires toPad || |data| % 16 == 0
    ensures var e := Encrypted(data, keys, iv, toPad, cbc);
      && e.Success?
      && (toPad ==> e.value != [])
      && Decrypted(e.value, keys, if cbc then Some(iv) else None, toPad) == Success(data)
  {
    hide Cut, Joined, CipherBlocks, PlainBlocks, Depadded, Padded;
    var padded := if toPad then Padded(data) else data;
    var cs := CipherBlocks(Cut(padded), keys, iv, cbc);
    CutJoined(cs);
    ModeUndone(Cut(padded), keys, iv, cbc);
    JoinedCut(padded);
    if toPad {
      PaddingUndone(data);
      PaddedIsLonger(data);
    }
  }

  lemma PaddedIsLonger(data: seq<bv8>)
    ensures |Padded(data)| > |data|
  {
  }
}
