// The block cipher AES-128 as the standard FIPS 197 defines it.

module Fips197 {
  // ----- section 4.1: addition in GF(2^8)

  function Xor(x: bv8, y: bv8): bv8 {
    x ^ y
  }

  function Xor4(a: bv8, b: bv8, c: bv8, d: bv8): bv8 {
    Xor(Xor(a, b), Xor(c, d))
  }

  // ----- section 4.2: multiplication in GF(2^8)

  function XTime(x: bv8): bv8 {
    (x << 1) ^ (if x & 0x80 != 0 then 0x1b else 0)
  }

  function Term(x: bv8, y: bv8): bv8 {
    if y & 1 != 0 then x else 0
  }

  /** x times the polynomial of the low four bits of y. */
  function LowTerms(x: bv8, y: bv8): bv8 {
    Term(x, y) ^ Term(XTime(x), y >> 1) ^ Term(XTime(XTime(x)), y >> 2) ^ Term(XTime(XTime(XTime(x))), y >> 3)
  }

  function XTime4(x: bv8): bv8 {
    XTime(XTime(XTime(XTime(x))))
  }

  function GMul(x: bv8, y: bv8): bv8 {
    LowTerms(x, y) ^ LowTerms(XTime4(x), y >> 4)
  }

  /** The multiplicative inverse, as the power x^254; zero stays zero (section 4.4). */
  function Inverse(x: bv8): bv8 {
    var x2 := GMul(x, x);
    var x4 := GMul(x2, x2);
    var x8 := GMul(x4, x4);
    var x16 := GMul(x8, x8);
    var x32 := GMul(x16, x16);
    var x64 := GMul(x32, x32);
    var x128 := GMul(x64, x64);
    GMul(GMul(GMul(x2, x4), GMul(x8, x16)), GMul(GMul(x32, x64), x128))
  }

  // ----- section 5.1.1: the S-box

  function Affine(b: bv8): bv8 {
    b ^ b.RotateLeft(1) ^ b.RotateLeft(2) ^ b.RotateLeft(3) ^ b.RotateLeft(4) ^ 0x63
  }

  function Substitute(x: bv8): bv8 {
    Affine(Inverse(x))
  }

  // ----- section 3.4: words of four bytes, and the state as an array of its four columns

  datatype Word = Word(b0: bv8, b1: bv8, b2: bv8, b3: bv8)

  datatype Block = Block(w0: Word, w1: Word, w2: Word, w3: Word)

  function XorWord(x: Word, y: Word): Word {
    Word(Xor(x.b0, y.b0), Xor(x.b1, y.b1), Xor(x.b2, y.b2), Xor(x.b3, y.b3))
  }

  // ----- section 5.1: the cipher

  function SubWord(w: Word): Word {
    Word(Substitute(w.b0), Substitute(w.b1), Substitute(w.b2), Substitute(w.b3))
  }

  function SubBytes(s: Block): Block {
    Block(SubWord(s.w0), SubWord(s.w1), SubWord(s.w2), SubWord(s.w3))
  }

  function ShiftRows(s: Block): Block {
    Block(Word(s.w0.b0, s.w1.b1, s.w2.b2, s.w3.b3), Word(s.w1.b0, s.w2.b1, s.w3.b2, s.w0.b3),
          Word(s.w2.b0, s.w3.b1, s.w0.b2, s.w1.b3), Word(s.w3.b0, s.w0.b1, s.w1.b2, s.w2.b3))
  }

  function MixColumn(s: Word): Word {
    Word(Xor4(GMul(s.b0, 2), GMul(s.b1, 3), s.b2, s.b3),
         Xor4(s.b0, GMul(s.b1, 2), GMul(s.b2, 3), s.b3),
         Xor4(s.b0, s.b1, GMul(s.b2, 2), GMul(s.b3, 3)),
         Xor4(GMul(s.b0, 3), s.b1, s.b2, GMul(s.b3, 2)))
  }

  function MixColumns(s: Block): Block {
    Block(MixColumn(s.w0), MixColumn(s.w1), MixColumn(s.w2), MixColumn(s.w3))
  }

  function AddRoundKey(s: Block, k: Block): Block {
    Block(XorWord(s.w0, k.w0), XorWord(s.w1, k.w1), XorWord(s.w2, k.w2), XorWord(s.w3, k.w3))
  }

  /** The state after the first n of the nine full rounds. */
  function FullRounds(s: Block, keys: seq<Block>, n: nat): Block
    requires n < |keys|
  {
    if n == 0 then AddRoundKey(s, keys[0])
    else AddRoundKey(MixColumns(ShiftRows(SubBytes(FullRounds(s, keys, n - 1)))), keys[n])
  }

  function Cipher(s: Block, keys: seq<Block>): Block
    requires |keys| == 11
  {
    AddRoundKey(ShiftRows(SubBytes(FullRounds(s, keys, 9))), keys[10])
  }

  // ----- section 5.2: the key expansion

  function RotWord(w: Word): Word {
    Word(w.b1, w.b2, w.b3, w.b0)
  }

  /** The power of x that is the first byte of the round constant. */
  function RconByte(round: nat): bv8
    requires round > 0
  {
    if round == 1 then 1 else XTime(RconByte(round - 1))
  }

  function KeyWord(key: Block, i: nat): Word {
    if i == 0 then key.w0 else if i == 1 then key.w1 else if i == 2 then key.w2 else if i == 3 then key.w3
    else
      var temp := KeyWord(key, i - 1);
      XorWord(KeyWord(key, i - 4),
              if i % 4 == 0 then XorWord(SubWord(RotWord(temp)), Word(RconByte(i / 4), 0, 0, 0)) else temp)
  }

  function RoundKey(key: Block, round: nat): Block {
    Block(KeyWord(key, 4 * round), KeyWord(key, 4 * round + 1),
          KeyWord(key, 4 * round + 2), KeyWord(key, 4 * round + 3))
  }

  function Expansion(key: Block): (keys: seq<Block>)
    ensures |keys| == 11
  {
    seq(11, r requires 0 <= r < 11 => RoundKey(key, r))
  }

  // ----- section 5.3.3: the inverse of mixing a column

  function InvMixColumn(s: Word): Word {
    Word(Xor4(GMul(s.b0, 14), GMul(s.b1, 11), GMul(s.b2, 13), GMul(s.b3, 9)),
         Xor4(GMul(s.b0, 9), GMul(s.b1, 14), GMul(s.b2, 11), GMul(s.b3, 13)),
         Xor4(GMul(s.b0, 13), GMul(s.b1, 9), GMul(s.b2, 14), GMul(s.b3, 11)),
         Xor4(GMul(s.b0, 11), GMul(s.b1, 13), GMul(s.b2, 9), GMul(s.b3, 14)))
  }
}
