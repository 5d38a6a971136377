// Byte strings, and files seen as byte strings.

module Wrappers {
  datatype Option<+T> = None | Some(value: T)

  /** The outcome of a call that the C++ code may leave by throwing. */
  datatype Result<+T> = Success(value: T) | Failure(error: string)
}

module Bytes {
  type byte = b: int | 0 <= b < 256

  function Min(a: int, b: int): int {
    if a < b then a else b
  }

  function Max(a: int, b: int): int {
    if a > b then a else b
  }

  lemma MulMonotone(a: int, b: int, d: nat)
    ensures a <= b ==> a * d <= b * d
  {
  }

  lemma DivisionUnique(x: nat, d: nat, q: nat)
    requires d > 0 && q * d <= x < q * d + d
    ensures x / d == q
  {
    MulMonotone(x / d + 1, q, d);
    MulMonotone(q + 1, x / d, d);
  }

  function Repeated<T>(x: T, n: nat): (s: seq<T>)
    ensures |s| == n
  {
    seq(n, _ => x)
  }

  /** FileUtils::readFileChunk: at most `size` bytes, fewer at the end of the file. */
  function ReadChunk(file: seq<byte>, offset: nat, size: nat): seq<byte> {
    if offset >= |file| then [] else file[offset..Min(offset + size, |file|)]
  }

  /** FileUtils::writeChunkToFile: overwrite in place; a gap behind the old end is filled with zeros. */
  function WriteChunk(file: seq<byte>, offset: nat, data: seq<byte>): seq<byte> {
    if data == [] then file
    else if offset >= |file| then file + Repeated(0, offset - |file|) + data
    else if offset + |data| >= |file| then file[..offset] + data
    else file[..offset] + data + file[offset + |data|..]
  }

  /** A write changes exactly the bytes it covers. */
  lemma WriteChunkAt(file: seq<byte>, offset: nat, data: seq<byte>, x: nat)
    requires x < |file|
    ensures |WriteChunk(file, offset, data)| >= |file|
    ensures WriteChunk(file, offset, data)[x] ==
            if offset <= x < offset + |data| then data[x - offset] else file[x]
  {
  }

  /** The file after a write, byte by byte: it grows if need be, and a gap behind its old end is zero. */
  lemma WriteChunkWhole(file: seq<byte>, offset: nat, data: seq<byte>, x: nat)
    ensures |WriteChunk(file, offset, data)| == if data == [] then |file| else Max(|file|, offset + |data|)
    ensures x < |WriteChunk(file, offset, data)| ==>
      WriteChunk(file, offset, data)[x] == if offset <= x < offset + |data| then data[x - offset]
                                           else if x < |file| then file[x] else 0
  {
  }

  /** The bytes from the offset on, as many as asked for or as there are. */
  lemma ReadChunkAt(file: seq<byte>, offset: nat, size: nat, k: nat)
    ensures |ReadChunk(file, offset, size)| == Max(0, Min(size, |file| - offset))
    ensures k < |ReadChunk(file, offset, size)| ==> ReadChunk(file, offset, size)[k] == file[offset + k]
  {
  }

  /** What is written is what is read back. */
  lemma ReadAfterWrite(file: seq<byte>, offset: nat, data: seq<byte>)
    ensures ReadChunk(WriteChunk(file, offset, data), offset, |data|) == data
  {
    hide WriteChunk, ReadChunk;
    var w := WriteChunk(file, offset, data);
    WriteChunkWhole(file, offset, data, 0);
    ReadChunkAt(w, offset, |data|, 0);
    forall k | 0 <= k < |data|
      ensures ReadChunk(w, offset, |data|)[k] == data[k]
    {
      WriteChunkWhole(file, offset, data, offset + k);
      ReadChunkAt(w, offset, |data|, k);
    }
  }

  // Fixed-width integers, least significant byte first, as memcpy lays them
  // out on the little-endian machines the program runs on.

  function Pow256(width: nat): (p: nat)
    ensures p > 0
  {
    if width == 0 then 1 else 256 * Pow256(width - 1)
  }

  lemma Powers()
    ensures Pow256(0) == 1 && Pow256(1) == 0x100 && Pow256(2) == 0x1_0000 && Pow256(3) == 0x100_0000
    ensures Pow256(4) == 0x1_0000_0000 && Pow256(5) == 0x100_0000_0000
    ensures Pow256(6) == 0x1_0000_0000_0000 && Pow256(7) == 0x100_0000_0000_0000
    ensures Pow256(8) == 0x1_0000_0000_0000_0000
  {
    assert Pow256(2) == 256 * Pow256(1);
    assert Pow256(3) == 256 * Pow256(2);
    assert Pow256(4) == 256 * Pow256(3);
    assert Pow256(5) == 256 * Pow256(4);
    assert Pow256(6) == 256 * Pow256(5);
    assert Pow256(7) == 256 * Pow256(6);
  }

  function Encode(n: nat, width: nat): (s: seq<byte>)
    ensures |s| == width
  {
    if width == 0 then [] else [n % 256] + Encode(n / 256, width - 1)
  }

  lemma DivideTwice(n: nat, p: nat)
    requires p > 0
    ensures n / 256 / p == n / (256 * p)
  {
    var q, r := n / 256, n % 256;
    assert n == q * 256 + r;
    assert q == q / p * p + q % p;
    assert q / p * p * 256 == q / p * (256 * p);
    DivisionUnique(n, 256 * p, q / p);
  }

  /** Byte number i of an encoded number is its digit number i in base 256. */
  lemma {:induction false} EncodeAt(n: nat, width: nat, i: nat)
    requires i < width
    ensures Encode(n, width)[i] == n / Pow256(i) % 256
  {
    if i > 0 {
      EncodeAt(n / 256, width - 1, i - 1);
      DivideTwice(n, Pow256(i - 1));
    }
  }

  lemma LowDigit(q: nat, low: nat)
    ensures (256 * q + low) % 256 == low % 256 && (256 * q + low) / 256 == q + low / 256
  {
  }

  /** The low digits of a number are written first. */
  lemma {:induction false} EncodeSplit(high: nat, low: nat, n: nat, m: nat)
    requires low < Pow256(n)
    ensures Encode(high * Pow256(n) + low, n + m) == Encode(low, n) + Encode(high, m)
  {
    if n > 0 {
      var q := high * Pow256(n - 1);
      assert high * Pow256(n) == 256 * q;
      LowDigit(q, low);
      EncodeSplit(high, low / 256, n - 1, m);
      EncodeStep(256 * q + low, n + m);
      EncodeStep(low, n);
      hide Encode, Pow256;
    }
  }

  lemma EncodeStep(n: nat, width: nat)
    requires width > 0
    ensures Encode(n, width) == [n % 256] + Encode(n / 256, width - 1)
  {
  }

  /** Two and four bytes, written out. */
  lemma EncodeShort(n: nat)
    ensures Encode(n, 2) == [n % 256, n / 256 % 256]
    ensures Encode(n, 4) == [n % 256, n / 256 % 256, n / 65536 % 256, n / 16777216 % 256]
  {
    Powers();
    EncodeAt(n, 2, 0);
    EncodeAt(n, 2, 1);
    EncodeAt(n, 4, 0);
    EncodeAt(n, 4, 1);
    EncodeAt(n, 4, 2);
    EncodeAt(n, 4, 3);
    hide Encode;
  }

  function Decode(s: seq<byte>): (n: nat)
    ensures n < Pow256(|s|)
  {
    if s == [] then 0 else s[0] + 256 * Decode(s[1..])
  }

  lemma {:induction false} DecodeEncode(n: nat, width: nat)
    requires n < Pow256(width)
    ensures Decode(Encode(n, width)) == n
  {
    if width > 0 {
      var s := Encode(n, width);
      assert s[1..] == Encode(n / 256, width - 1);
      DecodeEncode(n / 256, width - 1);
    }
  }
}
