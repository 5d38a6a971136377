// From the publisher's metadata to a finished download.

module Publishing {
  import opened Bytes
  import opened FileSplitter
  import opened DownloadProgress
  import opened FileIO
  import opened Engine
  import opened DownloadRuns
  import opened HonestSource
  import opened MetaDataFile
  import opened Sha256

  /** The download was started from the metadata made of the original. */
  ghost predicate StartedFrom(env: Env, p: Progress, original: seq<byte>) {
    && p.fileSize == |original| && |p.pieces| == PieceCount(|original|)
    && env.fileHash == env.hash(original)
    && forall i | 0 <= i < |p.pieces| :: p.pieces[i].hash == PartsHashes(env.hash, original)[i]
  }

  /** Under 4 GiB the hashes in the metadata are those the downloader's own cut calls for. */
  lemma MetaDataIsRecorded(env: Env, p: Progress, original: seq<byte>)
    requires Laid(p) && StartedFrom(env, p, original) && |original| < 0x1_0000_0000
    ensures Recorded(env, p, original)
  {
    hide PieceStart, PieceLength, PieceCount, PartsHashes;
    forall i | 0 <= i < |p.pieces|
      ensures p.pieces[i].hash == env.hash(ReadChunk(original, PieceStart(p.fileSize, i), p.pieces[i].size))
    {
      PublishedPiecesVerify(env.hash, original, i);
    }
  }

  /** A file under 4 GiB, published and then downloaded from any number of peers that hold it, arrives unchanged. */
  lemma PublishedFileArrives(env: Env, s: State, events: seq<Event>, original: seq<byte>)
    requires Fresh(s) && IsRun(env, s, events) && StartedFrom(env, s.disk.prog, original)
    requires |original| < 0x1_0000_0000
    requires Throughout(env, s, events, Timely)
    requires Throughout(env, s, events, (s, e) => HonestDelivery(original, s, e))
    ensures var d := Run(env, s, events).disk;
      ProgressIsOne(d.prog) ==> d.file == original && FileVerifies(env.hash, d, env.fileHash)
  {
    MetaDataIsRecorded(env, s.disk.prog, original);
    Convergence(env, s, events, original);
  }

  // ----- the hash function of the program

  function Bits(s: seq<byte>): seq<bv8> {
    seq(|s|, i requires 0 <= i < |s| => s[i] as bv8)
  }

  function Octets(s: seq<bv8>): seq<byte> {
    seq(|s|, i requires 0 <= i < |s| => s[i] as int)
  }

  /** What toHashSha256 computes for the bytes of a file or a piece. */
  function Sha256Of(bytes: seq<byte>): Hash {
    Octets(CodeDigest(Bits(bytes)))
  }

  method HashBytes(bytes: seq<byte>) returns (hash: Hash)
    requires |bytes| < 0x8000_0000
    ensures hash == Sha256Of(bytes)
    ensures |bytes| < 0x2000_0000 ==> hash == Octets(Fips180.Sha256(Bits(bytes)))
  {
    hide CodeDigest;
    var digest := ToHashSha256(Bits(bytes));
    hash := Octets(digest);
  }

  ghost predicate HashesWithSha256(env: Env) {
    forall bytes :: env.hash(bytes) == Sha256Of(bytes)
  }

  /** With the program's own hash function: a file of less than 2^29 bytes that has arrived has the digest of
      FIPS 180-4 that the publisher recorded. */
  lemma ArrivesWithSha256(env: Env, s: State, events: seq<Event>, original: seq<byte>)
    requires Fresh(s) && IsRun(env, s, events) && StartedFrom(env, s.disk.prog, original)
    requires HashesWithSha256(env) && |original| < 0x2000_0000
    requires Throughout(env, s, events, Timely)
    requires Throughout(env, s, events, (s, e) => HonestDelivery(original, s, e))
    ensures var d := Run(env, s, events).disk;
      ProgressIsOne(d.prog) ==> d.file == original && env.fileHash == Octets(Fips180.Sha256(Bits(d.file)))
  {
    PublishedFileArrives(env, s, events, original);
    DigestsAgree(Bits(original));
  }
}
