// The secure hash algorithm SHA-256 as the standard FIPS 180-4 defines it.

module Fips180 {
  import Bytes

  type word = bv32

  // ----- section 4.1.2: functions

  function Ch(x: word, y: word, z: word): word {
    (x & y) ^ (!x & z)
  }

  function Maj(x: word, y: word, z: word): word {
    (x & y) ^ (x & z) ^ (y & z)
  }

  function BigSigma0(x: word): word {
    x.RotateRight(2) ^ x.RotateRight(13) ^ x.RotateRight(22)
  }

  function BigSigma1(x: word): word {
    x.RotateRight(6) ^ x.RotateRight(11) ^ x.RotateRight(25)
  }

  function SmallSigma0(x: word): word {
    x.RotateRight(7) ^ x.RotateRight(18) ^ (x >> 3)
  }

  function SmallSigma1(x: word): word {
    x.RotateRight(17) ^ x.RotateRight(19) ^ (x >> 10)
  }

  // ----- section 4.2.2: constants, the fractions of the cube roots of the first 64 primes

  function Pick<T>(i: nat, a: T, b: T, c: T, d: T, e: T, f: T, g: T, h: T): T {
    match i
    case 0 => a case 1 => b case 2 => c case 3 => d case 4 => e case 5 => f case 6 => g case _ => h
  }

  /** The table of round constants. */
  function K(t: nat): word
    requires t < 64
  {
    match t / 8
    case 0 => Pick(t % 8, 0x428a2f98, 0x71374491, 0xb5c0fbcf, 0xe9b5dba5, 0x3956c25b, 0x59f111f1, 0x923f82a4, 0xab1c5ed5)
    case 1 => Pick(t % 8, 0xd807aa98, 0x12835b01, 0x243185be, 0x550c7dc3, 0x72be5d74, 0x80deb1fe, 0x9bdc06a7, 0xc19bf174)
    case 2 => Pick(t % 8, 0xe49b69c1, 0xefbe4786, 0x0fc19dc6, 0x240ca1cc, 0x2de92c6f, 0x4a7484aa, 0x5cb0a9dc, 0x76f988da)
    case 3 => Pick(t % 8, 0x983e5152, 0xa831c66d, 0xb00327c8, 0xbf597fc7, 0xc6e00bf3, 0xd5a79147, 0x06ca6351, 0x14292967)
    case 4 => Pick(t % 8, 0x27b70a85, 0x2e1b2138, 0x4d2c6dfc, 0x53380d13, 0x650a7354, 0x766a0abb, 0x81c2c92e, 0x92722c85)
    case 5 => Pick(t % 8, 0xa2bfe8a1, 0xa81a664b, 0xc24b8b70, 0xc76c51a3, 0xd192e819, 0xd6990624, 0xf40e3585, 0x106aa070)
    case 6 => Pick(t % 8, 0x19a4c116, 0x1e376c08, 0x2748774c, 0x34b0bcb5, 0x391c0cb3, 0x4ed8aa4a, 0x5b9cca4f, 0x682e6ff3)
    case _ => Pick(t % 8, 0x748f82ee, 0x78a5636f, 0x84c87814, 0x8cc70208, 0x90befffa, 0xa4506ceb, 0xbef9a3f7, 0xc67178f2)
  }

  /** The first 64 primes. */
  function Prime(t: nat): (r: nat)
    requires t < 64
  {
    match t / 8
    case 0 => Pick(t % 8, 2, 3, 5, 7, 11, 13, 17, 19)
    case 1 => Pick(t % 8, 23, 29, 31, 37, 41, 43, 47, 53)
    case 2 => Pick(t % 8, 59, 61, 67, 71, 73, 79, 83, 89)
    case 3 => Pick(t % 8, 97, 101, 103, 107, 109, 113, 127, 131)
    case 4 => Pick(t % 8, 137, 139, 149, 151, 157, 163, 167, 173)
    case 5 => Pick(t % 8, 179, 181, 191, 193, 197, 199, 211, 223)
    case 6 => Pick(t % 8, 227, 229, 233, 239, 241, 251, 257, 263)
    case _ => Pick(t % 8, 269, 271, 277, 281, 283, 293, 307, 311)
  }

  function Cube(n: nat): nat {
    n * n * n
  }

  /** k is the first 32 bits of the fractional part of the cube root of p. */
  predicate IsCubeRootFraction(k: nat, p: nat, root: nat) {
    && k < 0x1_0000_0000
    && Cube(root) <= p < Cube(root + 1)
    && Cube(root * 0x1_0000_0000 + k) <= p * Cube(0x1_0000_0000) < Cube(root * 0x1_0000_0000 + k + 1)
  }

  function Square(n: nat): nat {
    n * n
  }

  /** k is the first 32 bits of the fractional part of the square root of p (section 5.3.3). */
  predicate IsSquareRootFraction(k: nat, p: nat, root: nat) {
    && k < 0x1_0000_0000
    && Square(root) <= p < Square(root + 1)
    && Square(root * 0x1_0000_0000 + k) <= p * Square(0x1_0000_0000) < Square(root * 0x1_0000_0000 + k + 1)
  }

  // ----- section 5.1.1: padding

  function LowByte(n: int): bv8 {
    (n % 256) as bv8
  }

  /** Byte number i, counted from the right, of the base-256 digits of n. */
  function Digit(n: nat, i: nat): bv8 {
    LowByte(n / Bytes.Pow256(i))
  }

  /** The number of zero bytes: the smallest that makes the padded message a multiple of 64 bytes. */
  function ZeroCount(length: nat): (r: nat)
    ensures r < 64 && (length + 1 + r + 8) % 64 == 0
  {
    (119 - length % 64) % 64
  }

  /** The length of the message in bits, as a 64-bit big-endian number. */
  function LengthField(length: nat): seq<bv8> {
    seq(8, i requires 0 <= i < 8 => Digit(8 * length, 7 - i))
  }

  function Pad(message: seq<bv8>): (padded: seq<bv8>)
    ensures |padded| % 64 == 0
  {
    message + [0x80] + Bytes.Repeated(0, ZeroCount(|message|)) + LengthField(|message|)
  }

  // ----- section 6.2.2: computation

  datatype Vars = Vars(a: word, b: word, c: word, d: word, e: word, f: word, g: word, h: word)

  // section 5.3.3
  const H0: Vars := Vars(0x6a09e667, 0xbb67ae85, 0x3c6ef372, 0xa54ff53a, 0x510e527f, 0x9b05688c, 0x1f83d9ab, 0x5be0cd19)

  function WordAt(block: seq<bv8>, t: nat): word
    requires |block| == 64 && t < 16
  {
    block[4 * t + 3] as bv32 | (block[4 * t + 2] as bv32 << 8) | (block[4 * t + 1] as bv32 << 16)
    | (block[4 * t] as bv32 << 24)
  }

  /** Addition modulo 2^32. */
  function Plus(x: word, y: word): word {
    x + y
  }

  function NextWord(w2: word, w7: word, w15: word, w16: word): word {
    Plus(Plus(Plus(SmallSigma1(w2), w7), SmallSigma0(w15)), w16)
  }

  /** The message schedule. */
  function W(block: seq<bv8>, t: nat): word
    requires |block| == 64 && t < 64
  {
    if t < 16 then WordAt(block, t)
    else NextWord(W(block, t - 2), W(block, t - 7), W(block, t - 15), W(block, t - 16))
  }

  function T1(v: Vars, k: word, w: word): word {
    Plus(Plus(Plus(Plus(v.h, BigSigma1(v.e)), Ch(v.e, v.f, v.g)), k), w)
  }

  function T2(v: Vars): word {
    Plus(BigSigma0(v.a), Maj(v.a, v.b, v.c))
  }

  function Round(v: Vars, k: word, w: word): Vars {
    var t1, t2 := T1(v, k, w), T2(v);
    Vars(Plus(t1, t2), v.a, v.b, v.c, Plus(v.d, t1), v.e, v.f, v.g)
  }

  function Rounds(v: Vars, block: seq<bv8>, n: nat): Vars
    requires |block| == 64 && n <= 64
  {
    if n == 0 then v else Round(Rounds(v, block, n - 1), K(n - 1), W(block, n - 1))
  }

  function Add(x: Vars, y: Vars): Vars {
    Vars(Plus(x.a, y.a), Plus(x.b, y.b), Plus(x.c, y.c), Plus(x.d, y.d),
         Plus(x.e, y.e), Plus(x.f, y.f), Plus(x.g, y.g), Plus(x.h, y.h))
  }

  function Compress(h: Vars, block: seq<bv8>): Vars
    requires |block| == 64
  {
    Add(h, Rounds(h, block, 64))
  }

  /** The hash value after the first n blocks. */
  function HashBlocks(h: Vars, message: seq<bv8>, n: nat): Vars
    requires 64 * n <= |message|
  {
    if n == 0 then h else Compress(HashBlocks(h, message, n - 1), message[64 * (n - 1)..64 * n])
  }

  function WordBytes(x: word): (s: seq<bv8>)
    ensures |s| == 4
  {
    [(x >> 24) as bv8, ((x >> 16) & 0xff) as bv8, ((x >> 8) & 0xff) as bv8, (x & 0xff) as bv8]
  }

  function DigestBytes(h: Vars): (digest: seq<bv8>)
    ensures |digest| == 32
  {
    WordBytes(h.a) + WordBytes(h.b) + WordBytes(h.c) + WordBytes(h.d)
    + WordBytes(h.e) + WordBytes(h.f) + WordBytes(h.g) + WordBytes(h.h)
  }

  function Sha256(message: seq<bv8>): (digest: seq<bv8>)
    ensures |digest| == 32
  {
    var padded := Pad(message);
    DigestBytes(HashBlocks(H0, padded, |padded| / 64))
  }

  // ----- what the functions compute, bit by bit and byte by byte

  /** Where x is set the choice is y, elsewhere z. */
  lemma ChBits(x: word, y: word, z: word)
    ensures (Ch(x, y, z) ^ y) & x == 0
    ensures (Ch(x, y, z) ^ z) & !x == 0
  {
  }

  predicate SetWhereBoth(x: word, y: word, r: word) {
    x & y & !r == 0
  }

  predicate ClearWhereNeither(x: word, y: word, r: word) {
    r & !x & !y == 0
  }

  lemma MajSet(x: word, y: word, z: word)
    ensures SetWhereBoth(x, y, Maj(x, y, z))
  {
  }

  lemma MajClear(x: word, y: word, z: word)
    ensures ClearWhereNeither(x, y, Maj(x, y, z))
  {
  }

  lemma MajTurns(x: word, y: word, z: word)
    ensures Maj(x, y, z) == Maj(y, z, x)
  {
  }

  /** The majority has the bits that two of the three have. */
  lemma MajBits(x: word, y: word, z: word)
    ensures SetWhereBoth(x, y, Maj(x, y, z)) && SetWhereBoth(y, z, Maj(x, y, z)) && SetWhereBoth(z, x, Maj(x, y, z))
    ensures ClearWhereNeither(x, y, Maj(x, y, z)) && ClearWhereNeither(y, z, Maj(x, y, z))
            && ClearWhereNeither(z, x, Maj(x, y, z))
  {
    hide Maj, SetWhereBoth, ClearWhereNeither;
    MajSet(x, y, z);
    MajSet(y, z, x);
    MajSet(z, x, y);
    MajClear(x, y, z);
    MajClear(y, z, x);
    MajClear(z, x, y);
    MajTurns(x, y, z);
    MajTurns(y, z, x);
  }

  lemma FourBytes(b3: bv8, b2: bv8, b1: bv8, b0: bv8)
    ensures (b0 as bv32 | (b1 as bv32 << 8) | (b2 as bv32 << 16) | (b3 as bv32 << 24)) as int
         == 0x100_0000 * b3 as int + 0x1_0000 * b2 as int + 0x100 * b1 as int + b0 as int
  {
  }

  /** A word of a block is the number its four bytes write, most significant first. */
  lemma WordValue(block: seq<bv8>, t: nat)
    requires |block| == 64 && t < 16
    ensures WordAt(block, t) as int == 0x100_0000 * block[4 * t] as int + 0x1_0000 * block[4 * t + 1] as int
                                       + 0x100 * block[4 * t + 2] as int + block[4 * t + 3] as int
  {
    FourBytes(block[4 * t], block[4 * t + 1], block[4 * t + 2], block[4 * t + 3]);
  }

  /** The four bytes of a word write it, most significant first. */
  lemma BytesValue(x: word)
    ensures var s := WordBytes(x);
      x as int == 0x100_0000 * s[0] as int + 0x1_0000 * s[1] as int + 0x100 * s[2] as int + s[3] as int
  {
    BytesOfWord(x);
    var s := WordBytes(x);
    hide WordBytes;
    FourBytes(s[0], s[1], s[2], s[3]);
  }

  lemma BytesOfWord(x: word)
    ensures var s := WordBytes(x);
      x == s[3] as bv32 | (s[2] as bv32 << 8) | (s[1] as bv32 << 16) | (s[0] as bv32 << 24)
  {
  }

  lemma WordOfBytes(b3: bv8, b2: bv8, b1: bv8, b0: bv8)
    ensures WordBytes(b0 as bv32 | (b1 as bv32 << 8) | (b2 as bv32 << 16) | (b3 as bv32 << 24)) == [b3, b2, b1, b0]
  {
  }

  /** The bytes of a word that was read are the bytes it was read from... */
  lemma BytesOfRead(block: seq<bv8>, t: nat)
    requires |block| == 64 && t < 16
    ensures WordBytes(WordAt(block, t)) == block[4 * t..4 * t + 4]
  {
    hide WordBytes;
    WordOfBytes(block[4 * t], block[4 * t + 1], block[4 * t + 2], block[4 * t + 3]);
    assert block[4 * t..4 * t + 4] == [block[4 * t], block[4 * t + 1], block[4 * t + 2], block[4 * t + 3]];
  }

  /** ...and the word read from its bytes is the word. */
  lemma ReadOfBytes(block: seq<bv8>, t: nat, x: word)
    requires |block| == 64 && t < 16 && block[4 * t..4 * t + 4] == WordBytes(x)
    ensures WordAt(block, t) == x
  {
    hide WordBytes;
    BytesOfWord(x);
    var s := WordBytes(x);
    assert s[0] == block[4 * t] && s[1] == block[4 * t + 1] && s[2] == block[4 * t + 2] && s[3] == block[4 * t + 3];
  }

  lemma DigitIs(n: nat, i: nat, p: nat)
    requires p > 0 && Bytes.Pow256(i) == p
    ensures Digit(n, i) == (n / p % 256) as bv8
  {
  }

  lemma LengthBytes(length: nat)
    ensures LengthField(length) == [
      (8 * length / 0x100_0000_0000_0000 % 256) as bv8, (8 * length / 0x1_0000_0000_0000 % 256) as bv8,
      (8 * length / 0x100_0000_0000 % 256) as bv8, (8 * length / 0x1_0000_0000 % 256) as bv8,
      (8 * length / 0x100_0000 % 256) as bv8, (8 * length / 0x1_0000 % 256) as bv8,
      (8 * length / 0x100 % 256) as bv8, (8 * length / 1 % 256) as bv8]
  {
    hide Digit;
    Bytes.Powers();
    var n := 8 * length;
    DigitIs(n, 7, 0x100_0000_0000_0000);
    DigitIs(n, 6, 0x1_0000_0000_0000);
    DigitIs(n, 5, 0x100_0000_0000);
    DigitIs(n, 4, 0x1_0000_0000);
    DigitIs(n, 3, 0x100_0000);
    DigitIs(n, 2, 0x1_0000);
    DigitIs(n, 1, 0x100);
    DigitIs(n, 0, 1);
  }

  /** A message is followed by a 1 bit, by fewer than 64 bytes of zeros, and by eight bytes that write its length in
      bits, most significant first; the whole is a multiple of 64 bytes long. */
  lemma PaddedMessage(message: seq<bv8>)
    ensures var p, n := Pad(message), |message|;
      && |p| % 64 == 0 && n + 9 <= |p| < n + 9 + 64
      && p[..n] == message && p[n] == 0x80
      && (forall i :: n < i < |p| - 8 ==> p[i] == 0)
      && p[|p| - 8..] == [
           (8 * n / 0x100_0000_0000_0000 % 256) as bv8, (8 * n / 0x1_0000_0000_0000 % 256) as bv8,
           (8 * n / 0x100_0000_0000 % 256) as bv8, (8 * n / 0x1_0000_0000 % 256) as bv8,
           (8 * n / 0x100_0000 % 256) as bv8, (8 * n / 0x1_0000 % 256) as bv8,
           (8 * n / 0x100 % 256) as bv8, (8 * n / 1 % 256) as bv8]
  {
    hide LengthField;
    LengthBytes(|message|);
    var p := Pad(message);
    assert p[|p| - 8..] == LengthField(|message|);
  }

  // ----- facts about the definition

  lemma {:induction false} HashBlocksPrefix(h: Vars, m: seq<bv8>, rest: seq<bv8>, n: nat)
    requires 64 * n <= |m|
    ensures HashBlocks(h, m + rest, n) == HashBlocks(h, m, n)
  {
    hide Compress;
    if n > 0 {
      HashBlocksPrefix(h, m, rest, n - 1);
      assert (m + rest)[64 * (n - 1)..64 * n] == m[64 * (n - 1)..64 * n];
    }
  }

  lemma LaterBlock(m: seq<bv8>, k: nat, n: nat)
    requires n > 0 && 64 * (k + n) <= |m|
    ensures m[64 * k..][64 * (n - 1)..64 * n] == m[64 * (k + n - 1)..64 * (k + n)]
  {
  }

  /** Hashing in two stages. */
  lemma {:induction false} HashBlocksSplit(h: Vars, m: seq<bv8>, k: nat, n: nat)
    requires 64 * (k + n) <= |m|
    ensures HashBlocks(h, m, k + n) == HashBlocks(HashBlocks(h, m, k), m[64 * k..], n)
  {
    hide Compress;
    if n > 0 {
      HashBlocksSplit(h, m, k, n - 1);
      LaterBlock(m, k, n);
    }
  }
}
