// The streaming hash object: its compression function, its one-block buffer and its counters,
// and the proof that it computes the digest of FIPS 180-4.

module Sha256 {
  import opened Bytes
  import opened Fips180

  const BLOCK_SIZE := 64
  const TWO_TO_THE_32 := 0x1_0000_0000

  // ----- the round functions, written with shifts as in the header

  function Ch32(x: word, y: word, z: word): (r: word)
    ensures r == Ch(x, y, z)
  {
    (x & y) ^ (!x & z)
  }

  function F1(x: word): (r: word)
    ensures r == BigSigma0(x)
  {
    ((x >> 2) | (x << 30)) ^ ((x >> 13) | (x << 19)) ^ ((x >> 22) | (x << 10))
  }

  function F2(x: word): (r: word)
    ensures r == BigSigma1(x)
  {
    ((x >> 6) | (x << 26)) ^ ((x >> 11) | (x << 21)) ^ ((x >> 25) | (x << 7))
  }

  function F3(x: word): (r: word)
    ensures r == SmallSigma0(x)
  {
    ((x >> 7) | (x << 25)) ^ ((x >> 18) | (x << 14)) ^ (x >> 3)
  }

  function F4(x: word): (r: word)
    ensures r == SmallSigma1(x)
  {
    ((x >> 17) | (x << 15)) ^ ((x >> 19) | (x << 13)) ^ (x >> 10)
  }

  // ----- the constants

  /** The integer part of the cube root of the t-th prime. */
  function CubeRoot(t: nat): nat {
    if t < 4 then 1 else if t < 9 then 2 else if t < 18 then 3 else if t < 30 then 4 else if t < 47 then 5 else 6
  }

  predicate Rooted(t: nat)
    requires t < 64
  {
    IsCubeRootFraction(K(t) as nat, Prime(t), CubeRoot(t))
  }

  lemma Rooted0()
    ensures Rooted(0) && Rooted(1) && Rooted(2) && Rooted(3)
  {
  }

  lemma Rooted4()
    ensures Rooted(4) && Rooted(5) && Rooted(6) && Rooted(7)
  {
  }

  lemma Rooted8()
    ensures Rooted(8) && Rooted(9) && Rooted(10) && Rooted(11)
  {
  }

  lemma Rooted12()
    ensures Rooted(12) && Rooted(13) && Rooted(14) && Rooted(15)
  {
  }

  lemma Rooted16()
    ensures Rooted(16) && Rooted(17) && Rooted(18) && Rooted(19)
  {
  }

  lemma Rooted20()
    ensures Rooted(20) && Rooted(21) && Rooted(22) && Rooted(23)
  {
  }

  lemma Rooted24()
    ensures Rooted(24) && Rooted(25) && Rooted(26) && Rooted(27)
  {
  }

  lemma Rooted28()
    ensures Rooted(28) && Rooted(29) && Rooted(30) && Rooted(31)
  {
  }

  lemma Rooted32()
    ensures Rooted(32) && Rooted(33) && Rooted(34) && Rooted(35)
  {
  }

  lemma Rooted36()
    ensures Rooted(36) && Rooted(37) && Rooted(38) && Rooted(39)
  {
  }

  lemma Rooted40()
    ensures Rooted(40) && Rooted(41) && Rooted(42) && Rooted(43)
  {
  }

  lemma Rooted44()
    ensures Rooted(44) && Rooted(45) && Rooted(46) && Rooted(47)
  {
  }

  lemma Rooted48()
    ensures Rooted(48) && Rooted(49) && Rooted(50) && Rooted(51)
  {
  }

  lemma Rooted52()
    ensures Rooted(52) && Rooted(53) && Rooted(54) && Rooted(55)
  {
  }

  lemma Rooted56()
    ensures Rooted(56) && Rooted(57) && Rooted(58) && Rooted(59)
  {
  }

  lemma Rooted60()
    ensures Rooted(60) && Rooted(61) && Rooted(62) && Rooted(63)
  {
  }

  lemma RootedLow(t: nat)
    requires t < 32
    ensures Rooted(t)
  {
    hide Rooted;
    Rooted0(); Rooted4(); Rooted8(); Rooted12();
    Rooted16(); Rooted20(); Rooted24(); Rooted28();
  }

  lemma RootedHigh(t: nat)
    requires 32 <= t < 64
    ensures Rooted(t)
  {
    hide Rooted;
    Rooted32(); Rooted36(); Rooted40(); Rooted44();
    Rooted48(); Rooted52(); Rooted56(); Rooted60();
  }

  /** Every entry of the table is the fraction of the cube root of its prime. */
  lemma ConstantsAreCubeRoots(t: nat)
    requires t < 64
    ensures Rooted(t)
  {
    hide Rooted;
    if t < 32 {
      RootedLow(t);
    } else {
      RootedHigh(t);
    }
  }

  /** The initial hash value holds the fractions of the square roots of the first eight primes. */
  lemma InitialValueIsSquareRoots()
    ensures IsSquareRootFraction(H0.a as nat, Prime(0), 1) && IsSquareRootFraction(H0.b as nat, Prime(1), 1)
    ensures IsSquareRootFraction(H0.c as nat, Prime(2), 2) && IsSquareRootFraction(H0.d as nat, Prime(3), 2)
    ensures IsSquareRootFraction(H0.e as nat, Prime(4), 3) && IsSquareRootFraction(H0.f as nat, Prime(5), 3)
    ensures IsSquareRootFraction(H0.g as nat, Prime(6), 4) && IsSquareRootFraction(H0.h as nat, Prime(7), 4)
  {
  }

  // ----- padding as the code does it

  /** The four bytes stored for a 32-bit number, most significant first. */
  function Unpack32(n: nat): (s: seq<bv8>)
    ensures |s| == 4
  {
    [LowByte(n / 0x100_0000), LowByte(n / 0x1_0000), LowByte(n / 0x100), LowByte(n)]
  }

  /** What the code appends: a length word of 32 bits only. */
  function CodePad(message: seq<bv8>): (padded: seq<bv8>)
    ensures |padded| % 64 == 0
  {
    message + [0x80] + Repeated<bv8>(0, ZeroCount(|message|) + 4) + Unpack32(8 * |message| % TWO_TO_THE_32)
  }

  function CodeDigest(message: seq<bv8>): (digest: seq<bv8>)
    ensures |digest| == 32
  {
    var padded := CodePad(message);
    DigestBytes(HashBlocks(H0, padded, |padded| / 64))
  }

  lemma ZeroByte(n: nat)
    ensures LowByte(n) == 0 <==> n % 256 == 0
  {
  }

  lemma LowBytes(n: nat)
    ensures Unpack32(n % TWO_TO_THE_32) == [Digit(n, 3), Digit(n, 2), Digit(n, 1), Digit(n, 0)]
  {
    hide LowByte;
    Powers();
    var q, m := n / TWO_TO_THE_32, n % TWO_TO_THE_32;
    SameLowByte(m / 0x100_0000, q);
    SameLowByte(m / 0x1_0000, 0x100 * q);
    SameLowByte(m / 0x100, 0x1_0000 * q);
    SameLowByte(m, 0x100_0000 * q);
    assert n / 0x100_0000 == m / 0x100_0000 + 256 * q;
    assert n / 0x1_0000 == m / 0x1_0000 + 256 * (0x100 * q);
    assert n / 0x100 == m / 0x100 + 256 * (0x1_0000 * q);
  }

  lemma SameLowByte(n: nat, k: nat)
    ensures LowByte(n + 256 * k) == LowByte(n)
  {
    assert (n + 256 * k) % 256 == n % 256;
  }

  lemma HighBytes(n: nat)
    requires n < 0x1_0000_0000_0000_0000
    ensures Digit(n, 7) == 0 && Digit(n, 6) == 0 && Digit(n, 5) == 0 && Digit(n, 4) == 0 <==> n < TWO_TO_THE_32
  {
    hide LowByte;
    Powers();
    ZeroByte(n / Pow256(7));
    ZeroByte(n / Pow256(6));
    ZeroByte(n / Pow256(5));
    ZeroByte(n / Pow256(4));
  }

  lemma PadsEndAlike(zeros: nat, high: seq<bv8>, low: seq<bv8>)
    requires |high| == 4
    ensures Repeated<bv8>(0, zeros + 4) + low == Repeated<bv8>(0, zeros) + (high + low)
      <==> high[0] == 0 && high[1] == 0 && high[2] == 0 && high[3] == 0
  {
    var code, standard := Repeated<bv8>(0, zeros + 4) + low, Repeated<bv8>(0, zeros) + (high + low);
    assert forall i :: 0 <= i < 4 ==> standard[zeros + i] == high[i] && code[zeros + i] == 0;
    if high[0] == 0 && high[1] == 0 && high[2] == 0 && high[3] == 0 {
      assert forall i :: 0 <= i < |code| ==> code[i] == standard[i];
    }
  }

  lemma Tails(message: seq<bv8>, x: seq<bv8>, y: seq<bv8>)
    ensures message + [0x80] + x == message + [0x80] + y <==> x == y
  {
    var front := message + [0x80];
    assert (front + x)[|front|..] == x;
    assert (front + y)[|front|..] == y;
  }

  /** The 32-bit length word is the standard's length field exactly for messages under 2^29 bytes. */
  lemma PadsAgree(message: seq<bv8>)
    requires |message| < 0x2000_0000_0000_0000
    ensures CodePad(message) == Pad(message) <==> |message| < 0x2000_0000
  {
    var n := 8 * |message|;
    var zeros := ZeroCount(|message|);
    var high := [Digit(n, 7), Digit(n, 6), Digit(n, 5), Digit(n, 4)];
    var low := Unpack32(n % TWO_TO_THE_32);
    HighBytes(n);
    LowBytes(n);
    LengthFieldSplit(|message|);
    PadsEndAlike(zeros, high, low);
    Tails(message, Repeated<bv8>(0, zeros + 4) + low, Repeated<bv8>(0, zeros) + (high + low));
    Regroup(message + [0x80], Repeated<bv8>(0, zeros + 4), low);
    Regroup(message + [0x80], Repeated<bv8>(0, zeros), high + low);
  }

  lemma Regroup(x: seq<bv8>, y: seq<bv8>, z: seq<bv8>)
    ensures x + y + z == x + (y + z)
  {
  }

  lemma LengthFieldSplit(length: nat)
    ensures LengthField(length)
      == [Digit(8 * length, 7), Digit(8 * length, 6), Digit(8 * length, 5), Digit(8 * length, 4)]
         + [Digit(8 * length, 3), Digit(8 * length, 2), Digit(8 * length, 1), Digit(8 * length, 0)]
  {
    hide Digit;
  }

  lemma DigestsAgree(message: seq<bv8>)
    requires |message| < 0x2000_0000
    ensures CodeDigest(message) == Fips180.Sha256(message)
  {
    PadsAgree(message);
  }

  // ----- facts the buffer needs

  lemma FilledBlock(fed: seq<bv8>, message: seq<bv8>, k: nat)
    requires 64 * k <= |fed| < 64 * (k + 1) <= |fed| + |message|
    ensures (fed + message)[64 * k..64 * (k + 1)] == fed[64 * k..] + message[..64 * (k + 1) - |fed|]
    ensures (fed + message)[64 * (k + 1)..] == message[64 * (k + 1) - |fed|..]
  {
  }

  /** Hashing the filled buffer and then the rest is hashing everything fed so far. */
  lemma Absorbed(fed: seq<bv8>, message: seq<bv8>, cut: nat, buffer: seq<bv8>, k: nat, n: nat)
    requires 64 * k <= |fed| < 64 * (k + 1) <= |fed| + |message| && cut == 64 * (k + 1) - |fed|
    requires 64 <= |buffer| && buffer[..64] == fed[64 * k..] + message[..cut]
    requires 64 * (k + 1 + n) <= |fed| + |message|
    ensures HashBlocks(HashBlocks(HashBlocks(H0, fed, k), buffer, 1), message[cut..], n)
      == HashBlocks(H0, fed + message, k + 1 + n)
  {
    hide HashBlocks, Compress;
    HashBlocksPrefix(H0, fed, message, k);
    HashBlocksSplit(H0, fed + message, k + 1, n);
    FilledBlock(fed, message, k);
    OneBlock(HashBlocks(H0, fed, k), buffer);
    NextBlock(H0, fed + message, k);
  }

  lemma NextBlock(h: Vars, m: seq<bv8>, k: nat)
    requires 64 * (k + 1) <= |m|
    ensures HashBlocks(h, m, k + 1) == Compress(HashBlocks(h, m, k), m[64 * k..64 * (k + 1)])
  {
    hide Compress;
  }

  lemma Leftover(fed: seq<bv8>, message: seq<bv8>, k: nat, n: nat)
    requires |fed| <= 64 * (k + 1) && 64 * (k + 1 + n) <= |fed| + |message|
    ensures (fed + message)[64 * (k + 1 + n)..] == message[64 * (k + 1) - |fed|..][64 * n..]
  {
  }

  lemma CountedModulo(a: nat, b: nat)
    ensures (a % TWO_TO_THE_32 + b) % TWO_TO_THE_32 == (a + b) % TWO_TO_THE_32
  {
  }

  /** Bytes copied over a part of a buffer. */
  function Overwritten(s: seq<bv8>, offset: nat, bytes: seq<bv8>): (r: seq<bv8>)
    requires offset + |bytes| <= |s|
    ensures |r| == |s|
  {
    s[..offset] + bytes + s[offset + |bytes|..]
  }

  /** The state of the object after the bytes fed: the first 64 * hashed of them are in the hash value. */
  ghost predicate Streams(fed: seq<bv8>, hashed: nat, len: nat, totLen: nat, buffer: seq<bv8>, state: Vars) {
    && |buffer| == 2 * BLOCK_SIZE
    && len < BLOCK_SIZE
    && |fed| == 64 * hashed + len
    && totLen == 64 * hashed % TWO_TO_THE_32
    && buffer[..len] == fed[64 * hashed..]
    && state == HashBlocks(H0, fed, hashed)
  }

  lemma StreamsWithinBuffer(fed: seq<bv8>, hashed: nat, len: nat, totLen: nat, buffer: seq<bv8>, state: Vars,
                            message: seq<bv8>, after: seq<bv8>)
    requires Streams(fed, hashed, len, totLen, buffer, state)
    requires len + |message| < BLOCK_SIZE
    requires |buffer| == 2 * BLOCK_SIZE && after == Overwritten(buffer, len, message)
    ensures Streams(fed + message, hashed, len + |message|, totLen, after, state)
  {
    hide HashBlocks;
    HashBlocksPrefix(H0, fed, message, hashed);
    assert (fed + message)[64 * hashed..] == fed[64 * hashed..] + message;
  }

  lemma StreamsPastBuffer(fed: seq<bv8>, hashed: nat, len: nat, totLen: nat, buffer: seq<bv8>, state: Vars,
                          message: seq<bv8>, filled: seq<bv8>, n: nat, after: seq<bv8>)
    requires Streams(fed, hashed, len, totLen, buffer, state)
    requires len + |message| >= BLOCK_SIZE && n == (|message| - (BLOCK_SIZE - len)) / BLOCK_SIZE
    requires |buffer| == 2 * BLOCK_SIZE && filled == Overwritten(buffer, len, message[..BLOCK_SIZE - len])
    requires after == Overwritten(filled, 0, message[BLOCK_SIZE - len..][64 * n..])
    ensures Streams(fed + message, hashed + 1 + n, (|message| - (BLOCK_SIZE - len)) % BLOCK_SIZE,
                    (totLen + 64 * (n + 1)) % TWO_TO_THE_32, after,
                    HashBlocks(HashBlocks(state, filled, 1), message[BLOCK_SIZE - len..], n))
  {
    hide HashBlocks;
    assert filled[..64] == fed[64 * hashed..] + message[..BLOCK_SIZE - len];
    Absorbed(fed, message, BLOCK_SIZE - len, filled, hashed, n);
    Leftover(fed, message, hashed, n);
    CountedModulo(64 * hashed, 64 * (n + 1));
  }

  lemma OneBlock(h: Vars, buffer: seq<bv8>)
    requires 64 <= |buffer|
    ensures HashBlocks(h, buffer, 1) == Compress(h, buffer[..64])
  {
    hide Compress;
    assert HashBlocks(h, buffer, 0) == h;
    assert buffer[64 * (1 - 1)..64 * 1] == buffer[..64];
  }

  /** Hashing the padded buffer finishes the padded message. */
  lemma Finished(fed: seq<bv8>, buffer: seq<bv8>, k: nat, n: nat)
    requires 64 * k <= |fed| && 64 * n <= |buffer|
    requires |CodePad(fed)| == 64 * (k + n)
    requires buffer[..64 * n] == CodePad(fed)[64 * k..]
    ensures DigestBytes(HashBlocks(HashBlocks(H0, fed, k), buffer, n)) == CodeDigest(fed)
  {
    hide HashBlocks, DigestBytes;
    PadExtends(fed);
    FinishedBlocks(fed, CodePad(fed), buffer, k, n);
  }

  lemma PadExtends(fed: seq<bv8>)
    ensures fed <= CodePad(fed)
  {
  }

  lemma FinishedBlocks(fed: seq<bv8>, padded: seq<bv8>, buffer: seq<bv8>, k: nat, n: nat)
    requires 64 * k <= |fed| && 64 * n <= |buffer|
    requires fed <= padded && |padded| == 64 * (k + n) && buffer[..64 * n] == padded[64 * k..]
    ensures HashBlocks(HashBlocks(H0, fed, k), buffer, n) == HashBlocks(H0, padded, k + n)
  {
    hide HashBlocks;
    assert padded == fed + padded[|fed|..];
    HashBlocksPrefix(H0, fed, padded[|fed|..], k);
    HashBlocksSplit(H0, padded, k, n);
    assert buffer == buffer[..64 * n] + buffer[64 * n..];
    HashBlocksPrefix(HashBlocks(H0, fed, k), buffer[..64 * n], buffer[64 * n..], n);
  }

  lemma MarkedAndCleared(start: seq<bv8>, len: nat, zeros: nat)
    requires len + 1 + zeros <= |start|
    ensures Overwritten(start, len, Repeated<bv8>(0, 1 + zeros))[len := 0x80]
      == start[..len] + [0x80] + Repeated<bv8>(0, zeros) + start[len + 1 + zeros..]
  {
  }

  lemma LengthStored(front: seq<bv8>, zeros: nat, low: seq<bv8>, rest: seq<bv8>)
    requires |low| == 4
    ensures Overwritten(front + Repeated<bv8>(0, zeros + 4) + rest, |front| + zeros, low)
      == front + Repeated<bv8>(0, zeros) + low + rest
  {
  }

  /** The buffer after Final's three writes. */
  lemma BufferAfterPadding(start: seq<bv8>, len: nat, zeros: nat, low: seq<bv8>)
    requires |low| == 4 && len + zeros + 5 <= |start|
    ensures Overwritten(Overwritten(start, len, Repeated<bv8>(0, zeros + 5))[len := 0x80], len + 1 + zeros, low)
      == start[..len] + [0x80] + Repeated<bv8>(0, zeros) + low + start[len + zeros + 5..]
  {
    MarkedAndCleared(start, len, zeros + 4);
    LengthStored(start[..len] + [0x80], zeros, low, start[len + zeros + 5..]);
  }

  lemma PaddedTail(fed: seq<bv8>, front: seq<bv8>, tail: seq<bv8>)
    requires fed == front + tail
    ensures CodePad(fed) == front + (tail + [0x80] + Repeated<bv8>(0, ZeroCount(|fed|) + 4)
                                     + Unpack32(8 * |fed| % TWO_TO_THE_32))
  {
    hide Unpack32, Repeated;
  }

  /** The bytes Final leaves in the buffer are the padded message from its last unhashed byte on. */
  lemma PaddedBlock(fed: seq<bv8>, hashed: nat, len: nat, start: seq<bv8>, n: nat, end: seq<bv8>)
    requires |fed| == 64 * hashed + len && len < 64 && |start| == 128
    requires n == 1 + (if 55 < len then 1 else 0)
    requires start[..len] == fed[64 * hashed..]
    requires end == Overwritten(Overwritten(start, len, Repeated<bv8>(0, 64 * n - len))[len := 0x80], 64 * n - 4,
                                Unpack32(8 * |fed| % TWO_TO_THE_32))
    ensures |CodePad(fed)| == 64 * (hashed + n)
    ensures end[..64 * n] == CodePad(fed)[64 * hashed..]
  {
    hide Unpack32, Repeated, Overwritten, CodePad;
    var zeros := 64 * n - len - 5;
    assert ZeroCount(|fed|) + 4 == zeros;
    BufferAfterPadding(start, len, zeros, Unpack32(8 * |fed| % TWO_TO_THE_32));
    PaddedTail(fed, fed[..64 * hashed], start[..len]);
  }

  lemma LengthInBits(hashed: nat, len: nat)
    ensures (64 * hashed % TWO_TO_THE_32 + len) * 8 % TWO_TO_THE_32 == 8 * (64 * hashed + len) % TWO_TO_THE_32
  {
    var q, m := 64 * hashed / TWO_TO_THE_32, 64 * hashed % TWO_TO_THE_32;
    assert 8 * (64 * hashed + len) == (m + len) * 8 + TWO_TO_THE_32 * (8 * q);
  }

  // ----- the object

  ghost function VarsOf(a: array<word>): Vars
    requires a.Length == 8
    reads a
  {
    Vars(a[0], a[1], a[2], a[3], a[4], a[5], a[6], a[7])
  }

  class SHA256 {
    var totLen: nat
    var len: nat
    const block: array<bv8>
    const h: array<word>

    // all bytes given to Update since Init, and the number of 64-byte blocks already hashed
    ghost var fed: seq<bv8>
    ghost var hashed: nat

    ghost predicate Valid()
      reads this, block, h
    {
      && block.Length == 2 * BLOCK_SIZE
      && h.Length == 8
      && len < BLOCK_SIZE
      && Streams(fed, hashed, len, totLen, block[..], VarsOf(h))
    }

    constructor ()
      ensures block.Length == 2 * BLOCK_SIZE && h.Length == 8
      ensures fresh(block) && fresh(h)
    {
      totLen, len, fed, hashed := 0, 0, [], 0;
      block := new bv8[2 * BLOCK_SIZE];
      h := new word[8];
    }

    /** The message schedule of one block. */
    method Schedule(sub: seq<bv8>, w: array<word>)
      requires |sub| == 64 && w.Length == 64
      modifies w
      ensures forall t :: 0 <= t < 64 ==> w[t] == W(sub, t)
    {
      hide WordAt, Plus, F3, F4, SmallSigma0, SmallSigma1;
      for j := 0 to 16
        invariant forall t :: 0 <= t < j ==> w[t] == W(sub, t)
      {
        w[j] := WordAt(sub, j);
      }
      for j := 16 to 64
        invariant forall t :: 0 <= t < j ==> w[t] == W(sub, t)
      {
        w[j] := Plus(Plus(Plus(F4(w[j - 2]), w[j - 7]), F3(w[j - 15])), w[j - 16]);
      }
    }

    method RunRounds(ghost sub: seq<bv8>, w: array<word>, wv: array<word>)
      requires |sub| == 64 && w.Length == 64 && wv.Length == 8 && w != wv
      requires forall t :: 0 <= t < 64 ==> w[t] == W(sub, t)
      modifies wv
      ensures VarsOf(wv) == Rounds(old(VarsOf(wv)), sub, 64)
    {
      hide Plus, W, K, F1, F2, Ch32, BigSigma0, BigSigma1, Ch, Maj;
      for j := 0 to 64
        invariant VarsOf(wv) == Rounds(old(VarsOf(wv)), sub, j)
      {
        ghost var v := VarsOf(wv);
        var t1 := Plus(Plus(Plus(Plus(wv[7], F2(wv[4])), Ch32(wv[4], wv[5], wv[6])), K(j)), w[j]);
        var t2 := Plus(F1(wv[0]), Maj(wv[0], wv[1], wv[2]));
        wv[7] := wv[6];
        wv[6] := wv[5];
        wv[5] := wv[4];
        wv[4] := Plus(wv[3], t1);
        wv[3] := wv[2];
        wv[2] := wv[1];
        wv[1] := wv[0];
        wv[0] := Plus(t1, t2);
        assert VarsOf(wv) == Round(v, K(j), W(sub, j));
      }
    }

    method AddInto(wv: array<word>)
      requires h.Length == 8 && wv.Length == 8 && h != wv
      modifies h
      ensures VarsOf(h) == Add(old(VarsOf(h)), VarsOf(wv))
    {
      hide Plus;
      for j := 0 to 8
        invariant forall k :: 0 <= k < j ==> h[k] == Plus(old(h[k]), wv[k])
        invariant forall k :: j <= k < 8 ==> h[k] == old(h[k])
      {
        h[j] := Plus(h[j], wv[j]);
      }
    }

    method CompressBlock(sub: seq<bv8>, w: array<word>, wv: array<word>)
      requires |sub| == 64 && w.Length == 64 && wv.Length == 8 && h.Length == 8
      requires h != w && h != wv && w != wv
      modifies h, w, wv
      ensures VarsOf(h) == Compress(old(VarsOf(h)), sub)
    {
      hide Rounds, Add, W;
      Schedule(sub, w);
      ghost var words := w[..];
      for j := 0 to 8
        invariant forall k :: 0 <= k < j ==> wv[k] == h[k]
        invariant h[..] == old(h[..]) && w[..] == words
      {
        wv[j] := h[j];
      }
      assert VarsOf(h) == old(VarsOf(h)) == VarsOf(wv);
      assert forall t :: 0 <= t < 64 ==> words[t] == W(sub, t);
      RunRounds(sub, w, wv);
      AddInto(wv);
    }

    method Transform(message: seq<bv8>, blockNb: nat)
      requires h.Length == 8 && 64 * blockNb <= |message|
      modifies h
      ensures VarsOf(h) == HashBlocks(old(VarsOf(h)), message, blockNb)
    {
      hide Compress, VarsOf;
      var w := new word[64];
      var wv := new word[8];
      for i := 0 to blockNb
        invariant VarsOf(h) == HashBlocks(old(VarsOf(h)), message, i)
      {
        CompressBlock(message[64 * i..64 * (i + 1)], w, wv);
      }
    }

    method Init()
      requires block.Length == 2 * BLOCK_SIZE && h.Length == 8
      modifies this, h
      ensures Valid() && fed == []
    {
      h[0] := 0x6a09e667;
      h[1] := 0xbb67ae85;
      h[2] := 0x3c6ef372;
      h[3] := 0xa54ff53a;
      h[4] := 0x510e527f;
      h[5] := 0x9b05688c;
      h[6] := 0x1f83d9ab;
      h[7] := 0x5be0cd19;
      len := 0;
      totLen := 0;
      fed, hashed := [], 0;
    }

    /** Copies bytes into the block buffer from an offset on. */
    method CopyInto(offset: nat, bytes: seq<bv8>)
      requires offset + |bytes| <= block.Length
      modifies block
      ensures block[..] == Overwritten(old(block[..]), offset, bytes)
    {
      for k := 0 to |bytes|
        invariant block[..] == old(block[..offset]) + bytes[..k] + old(block[offset + k..])
      {
        block[offset + k] := bytes[k];
      }
    }

    method Update(message: seq<bv8>)
      requires Valid() && |message| < 0x8000_0000
      modifies this, block, h
      ensures Valid() && fed == old(fed) + message
    {
      hide HashBlocks, VarsOf, Streams, Overwritten;
      ghost var buffer, state := block[..], VarsOf(h);
      var tmpLen := BLOCK_SIZE - len;
      var remLen := if |message| < tmpLen then |message| else tmpLen;
      CopyInto(len, message[..remLen]);
      fed := fed + message;
      if len + |message| < BLOCK_SIZE {
        assert message[..remLen] == message;
        StreamsWithinBuffer(old(fed), hashed, len, totLen, buffer, state, message, block[..]);
        len := len + |message|;
        return;
      }
      ghost var filled := block[..];
      var newLen := |message| - remLen;
      var blockNb := newLen / BLOCK_SIZE;
      var shifted := message[remLen..];
      Transform(block[..], 1);
      Transform(shifted, blockNb);
      remLen := newLen % BLOCK_SIZE;
      assert 64 * blockNb + remLen == |shifted|;
      CopyInto(0, shifted[64 * blockNb..]);
      StreamsPastBuffer(old(fed), hashed, len, totLen, buffer, state, message, filled, blockNb, block[..]);
      len := remLen;
      totLen := (totLen + 64 * (blockNb + 1)) % TWO_TO_THE_32;
      hashed := hashed + 1 + blockNb;
    }

    method Final(digest: array<bv8>)
      requires Valid() && digest.Length == 32 && digest != block
      modifies block, h, digest
      ensures digest[..] == CodeDigest(fed)
    {
      hide CodePad, CodeDigest, HashBlocks, Unpack32, DigestBytes, Overwritten;
      var blockNb := 1 + (if BLOCK_SIZE - 9 < len % BLOCK_SIZE then 1 else 0);
      var lenB := (totLen + len) * 8 % TWO_TO_THE_32;
      LengthInBits(hashed, len);
      var pmLen := 64 * blockNb;
      CopyInto(len, Repeated<bv8>(0, pmLen - len));
      block[len] := 0x80;
      CopyInto(pmLen - 4, Unpack32(lenB));
      PaddedBlock(fed, hashed, len, old(block[..]), blockNb, block[..]);
      Transform(block[..], blockNb);
      Finished(fed, block[..], hashed, blockNb);
      WriteDigest(digest);
    }

    method WriteDigest(digest: array<bv8>)
      requires h.Length == 8 && digest.Length == 32
      modifies digest
      ensures digest[..] == DigestBytes(VarsOf(h))
    {
      hide WordBytes;
      for i := 0 to 8
        invariant forall k :: 0 <= k < i ==> digest[4 * k..4 * k + 4] == WordBytes(h[k])
      {
        var bytes := WordBytes(h[i]);
        digest[4 * i] := bytes[0];
        digest[4 * i + 1] := bytes[1];
        digest[4 * i + 2] := bytes[2];
        digest[4 * i + 3] := bytes[3];
      }
    }
  }

  /** One message at once. */
  method ToHashSha256(input: seq<bv8>) returns (output: seq<bv8>)
    requires |input| < 0x8000_0000
    ensures output == CodeDigest(input)
    ensures |input| < 0x2000_0000 ==> output == Fips180.Sha256(input)
  {
    var digest := new bv8[32];
    var ctx := new SHA256();
    ctx.Init();
    ctx.Update(input);
    assert ctx.fed == input;
    ctx.Final(digest);
    output := digest[..];
    if |input| < 0x2000_0000 {
      DigestsAgree(input);
    }
  }

  function Concatenated(parts: seq<seq<bv8>>): seq<bv8> {
    if parts == [] then [] else Concatenated(parts[..|parts| - 1]) + parts[|parts| - 1]
  }

  /** However a message is cut into calls of Update, the digest is that of the whole message. */
  method HashInParts(parts: seq<seq<bv8>>) returns (output: seq<bv8>)
    requires forall i :: 0 <= i < |parts| ==> |parts[i]| < 0x8000_0000
    ensures output == CodeDigest(Concatenated(parts))
    ensures |Concatenated(parts)| < 0x2000_0000 ==> output == Fips180.Sha256(Concatenated(parts))
  {
    hide CodeDigest;
    var digest := new bv8[32];
    var ctx := new SHA256();
    ctx.Init();
    for i := 0 to |parts|
      invariant ctx.Valid() && ctx.fed == Concatenated(parts[..i])
      invariant fresh(ctx) && fresh(ctx.block) && fresh(ctx.h) && ctx.block != digest
    {
      ctx.Update(parts[i]);
      assert parts[..i + 1][..i] == parts[..i];
    }
    assert parts[..|parts|] == parts;
    ctx.Final(digest);
    output := digest[..];
    if |Concatenated(parts)| < 0x2000_0000 {
      DigestsAgree(Concatenated(parts));
    }
  }
}
