// The metadata a publisher writes about a file: the hashes of its pieces, and the AES key of the file,
// wrapped under the password if there is one.

module KeyWrapping {
  import opened Aes
  import opened AesHandler
  import opened Fips197
  import opened Sha256
  import opened Wrappers

  /** The key that wraps: the first half of the hash of password and salt. */
  function WrappingKeys(password: seq<bv8>, salt: seq<bv8>): (keys: seq<Block>)
    ensures |keys| == 11
  {
    Expansion(MatrixAt(CodeDigest(password + salt)[..16], 0))
  }

  /** The wrapping keys are the key expansion of the first sixteen bytes of the standard's hash of the password
      followed by the salt. */
  lemma KeysFromHash(password: seq<bv8>, salt: seq<bv8>, r: nat)
    requires |password| + |salt| < 0x2000_0000 && r < 11
    ensures exists key :: BytesOf(key) == Fips180.Sha256(password + salt)[..16]
                          && WrappingKeys(password, salt)[r] == RoundKey(key, r)
  {
    hide CodeDigest, Fips180.Sha256, RoundKey;
    DigestsAgree(password + salt);
    var half := CodeDigest(password + salt)[..16];
    MatrixFixesBytes(half, 0);
    assert half[0..16] == half;
  }

  function Wrapped(password: seq<bv8>, salt: seq<bv8>, key: seq<bv8>): seq<bv8>
    requires |key| == 16
  {
    Joined(CipherBlocks(Cut(key), WrappingKeys(password, salt), MatrixAt(key, 0), false))
  }

  function Unwrapped(password: seq<bv8>, salt: seq<bv8>, wrapped: seq<bv8>): seq<bv8>
    requires |wrapped| == 16
  {
    Joined(PlainBlocks(Cut(wrapped), WrappingKeys(password, salt), None))
  }

  /** Without chaining the initialisation vector does not matter. */
  lemma {:induction false} EcbIgnoresVector(bs: seq<Block>, keys: seq<Block>, iv: Block, other: Block)
    requires |keys| == 11
    ensures CipherBlocks(bs, keys, iv, false) == CipherBlocks(bs, keys, other, false)
  {
    hide EncryptBlock;
    if bs != [] {
      EcbIgnoresVector(bs[..|bs| - 1], keys, iv, other);
    }
  }

  lemma WrappedSize(password: seq<bv8>, salt: seq<bv8>, key: seq<bv8>)
    requires |key| == 16
    ensures |Wrapped(password, salt, key)| == |Unwrapped(password, salt, key)| == 16
  {
  }

  /** The password gives back the key that was wrapped under it, for every salt. */
  lemma UnwrapUndoesWrap(password: seq<bv8>, salt: seq<bv8>, key: seq<bv8>)
    requires |key| == 16
    ensures |Wrapped(password, salt, key)| == 16
    ensures Unwrapped(password, salt, Wrapped(password, salt, key)) == key
  {
    hide WrappingKeys, Joined, Cut, CipherBlocks, PlainBlocks;
    WrappedSize(password, salt, key);
    DecryptEncrypt(key, WrappingKeys(password, salt), MatrixAt(key, 0), false, false);
  }

  /** createMetaData's part about the key; salt, key and vector come from rand(). */
  method WrapKey(password: seq<bv8>, salt: seq<bv8>, key: seq<bv8>, iv: Block) returns (encryptedAesKey: seq<bv8>)
    requires |salt| == |key| == 16 && |password| + 16 < 0x8000_0000
    ensures encryptedAesKey == Wrapped(password, salt, key)
  {
    hide CodeDigest, Expansion, Joined, Cut, CipherBlocks;
    var aesKey := new ByteVector(key);
    var hashPass := ToHashSha256(password + salt);
    var aes := new AESHandler(hashPass[..16]);
    var r := aes.Encrypt(aesKey, iv, false, false);
    EcbIgnoresVector(Cut(key), aes.RoundKeys(), iv, MatrixAt(key, 0));
    encryptedAesKey := aesKey.bytes[..];
  }

  method DecryptAesKey(password: seq<bv8>, salt: seq<bv8>, encryptedAesKey: seq<bv8>) returns (key: seq<bv8>)
    requires |salt| == |encryptedAesKey| == 16 && |password| + 16 < 0x8000_0000
    ensures key == Unwrapped(password, salt, encryptedAesKey)
  {
    hide CodeDigest, Expansion, Joined, Cut, PlainBlocks;
    var hashPass := ToHashSha256(password + salt);
    var aes := new AESHandler(hashPass[..16]);
    var result := new ByteVector(encryptedAesKey);
    var r := aes.Decrypt(result, None, false);
    key := result.bytes[..];
  }
}

module MetaDataFile {
  import opened Bytes
  import opened DownloadProgress
  import opened FileIO
  import opened FileSplitter
  import Fips197
  import KeyWrapping

  /** The bytes of range i of the cut that createMetaData makes. */
  function PartOf(file: seq<byte>, i: nat): seq<byte>
    requires i < PieceCount(|file|)
  {
    var c := MetaDataCut(|file|)[i];
    ReadChunk(file, c.0, if c.1 < 0 then 0 else c.1)
  }

  function PartsHashes(hash: HashFunction, file: seq<byte>): (hashes: seq<Hash>)
    ensures |hashes| == PieceCount(|file|)
  {
    seq(PieceCount(|file|), i requires 0 <= i < PieceCount(|file|) => hash(PartOf(file, i)))
  }

  datatype MetaData = MetaData(
    fileName: seq<byte>,
    creator: seq<byte>,
    fileSize: nat,
    fileHash: Hash,
    partsHashes: seq<Hash>,
    signalingAddress: seq<byte>,
    hasPassword: bool,
    salt: seq<bv8>,
    encryptedAesKey: seq<bv8>)

  /** Without a password the key is stored as it is, and the salt stays unset. */
  method ProtectKey(password: seq<bv8>, randomSalt: seq<bv8>, randomKey: seq<bv8>, randomVector: Fips197.Block)
    returns (hasPassword: bool, salt: seq<bv8>, encryptedAesKey: seq<bv8>)
    requires |randomSalt| == |randomKey| == 16 && |password| + 16 < 0x8000_0000
    ensures hasPassword == (password != [])
    ensures hasPassword ==> salt == randomSalt && encryptedAesKey == KeyWrapping.Wrapped(password, salt, randomKey)
    ensures !hasPassword ==> encryptedAesKey == randomKey
  {
    hide KeyWrapping.Wrapped;
    if password != [] {
      hasPassword, salt := true, randomSalt;
      encryptedAesKey := KeyWrapping.WrapKey(password, randomSalt, randomKey, randomVector);
    } else {
      hasPassword, salt, encryptedAesKey := false, [], randomKey;
    }
  }

  /** The part the loop of createMetaData takes at its n-th step. */
  lemma NextPart(file: seq<byte>, n: nat)
    requires n < PieceCount(|file|)
    ensures var start := PieceStart(|file|, n);
      var size := Min(PieceSize(|file|), (|file| - start) % 0x1_0000_0000);
      && 0 <= size && start + size <= |file|
      && PartOf(file, n) == file[start..start + size]
  {
    StartsInside(|file|, n);
    var start := PieceStart(|file|, n);
    NarrowedIsSmaller(|file| - start);
    assert MetaDataCut(|file|)[n].0 == start;
    hide PieceStart, PieceSize, PieceCount;
  }

  lemma NarrowedIsSmaller(n: nat)
    ensures n % 0x1_0000_0000 <= n
  {
  }

  method HashParts(hash: HashFunction, file: seq<byte>) returns (partsHashes: seq<Hash>)
    ensures partsHashes == PartsHashes(hash, file)
  {
    hide PieceSize, PieceCount, PartOf, MetaDataCut;
    PieceSizeBounds(|file|);
    var pieceSize := PieceSize(|file|);
    partsHashes := [];
    var i := 0;
    while i < |file|
      invariant i == PieceStart(|file|, |partsHashes|) && |partsHashes| <= PieceCount(|file|)
      invariant partsHashes == PartsHashes(hash, file)[..|partsHashes|]
      decreases |file| - i
    {
      ghost var n := |partsHashes|;
      StartsInside(|file|, n);
      NextPart(file, n);
      var currentPieceSize := Min(pieceSize, (|file| - i) % 0x1_0000_0000);
      partsHashes := partsHashes + [hash(file[i..i + currentPieceSize])];
      i := i + pieceSize;
      assert PieceStart(|file|, n + 1) == PieceStart(|file|, n) + pieceSize;
    }
    StartsInside(|file|, |partsHashes|);
  }

  /** The file size is a 47-bit field; salt, keys and vector come from rand(). */
  method CreateMetaData(hash: HashFunction, fileName: seq<byte>, file: seq<byte>, password: seq<bv8>,
                        signalingAddress: seq<byte>, creator: seq<byte>,
                        randomSalt: seq<bv8>, randomKey: seq<bv8>, randomVector: Fips197.Block)
    returns (m: MetaData)
    requires |file| < 0x8000_0000_0000
    requires |randomSalt| == |randomKey| == 16 && |password| + 16 < 0x8000_0000
    ensures m.fileName == fileName && m.creator == creator && m.signalingAddress == signalingAddress
    ensures m.fileSize == |file| && m.fileHash == hash(file) && m.partsHashes == PartsHashes(hash, file)
    ensures m.hasPassword == (password != [])
    ensures m.hasPassword ==>
      m.salt == randomSalt && m.encryptedAesKey == KeyWrapping.Wrapped(password, randomSalt, randomKey)
    ensures !m.hasPassword ==> m.encryptedAesKey == randomKey
  {
    hide KeyWrapping.Wrapped, PartsHashes;
    var partsHashes := HashParts(hash, file);
    var hasPassword, salt, storedKey := ProtectKey(password, randomSalt, randomKey, randomVector);
    m := MetaData(fileName, creator, |file|, hash(file), partsHashes, signalingAddress, hasPassword, salt, storedKey);
  }

  lemma SameRange(fileSize: nat, i: nat)
    requires fileSize < 0x1_0000_0000 && i < PieceCount(fileSize)
    ensures MetaDataCut(fileSize)[i] == (PieceStart(fileSize, i), PieceLength(fileSize, i))
  {
    hide PieceStart, PieceLength, PieceCount, PieceSize;
    CutsAgree(fileSize);
    assert ProgressCut(fileSize)[i] == (PieceStart(fileSize, i), PieceLength(fileSize, i));
  }

  /** Against the original file, every piece cut by the downloader has the hash the publisher recorded. */
  lemma PublishedPiecesVerify(hash: HashFunction, file: seq<byte>, i: nat)
    requires |file| < 0x1_0000_0000 && i < PieceCount(|file|)
    ensures PieceLength(|file|, i) > 0
    ensures Verifies(hash, file, PieceStart(|file|, i), PieceLength(|file|, i), PartsHashes(hash, file)[i])
  {
    hide PieceStart, PieceLength, PieceCount, PieceSize, MetaDataCut;
    SameRange(|file|, i);
    PieceLengths(|file|, i);
    assert PartOf(file, i) == ReadChunk(file, PieceStart(|file|, i), PieceLength(|file|, i));
  }
}
