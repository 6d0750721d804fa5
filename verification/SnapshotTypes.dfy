/**
 Snapshot chunks and records, and the cryptographic primitives they are built on.
 */
module SnapshotTypes {
  import opened Prelude
  import Delta

  /**
   SHA-256 as a hex digest, zlib and AES-GCM, as uninterpreted functions. Nothing is
   assumed of the hash beyond the shape of its output; in particular it is not injective.
   */
  datatype Crypto = Crypto(
    sha256: Bytes -> string,
    compress: Bytes -> Bytes,
    decompress: Bytes -> Option<Bytes>,
    encrypt: (Bytes, Bytes, Bytes) -> Bytes,
    decrypt: (Bytes, Bytes, Bytes) -> Option<Bytes>)
  {
    ghost predicate Valid() {
      && (forall x :: |sha256(x)| == 64 && IsAscii(sha256(x)))
      && (forall x :: decompress(compress(x)) == Some(x))
      && (forall k, n, x :: |encrypt(k, n, x)| >= 16 && decrypt(k, n, encrypt(k, n, x)) == Some(x))
    }

    /** Two different inputs with one digest. */
    ghost predicate Collision(x: Bytes, y: Bytes) {
      x != y && sha256(x) == sha256(y)
    }
  }

  predicate IsAscii(s: string) {
    forall i :: 0 <= i < |s| ==> s[i] as int < 128
  }

  function Ascii(s: string): (r: Bytes)
    requires IsAscii(s)
    ensures |r| == |s|
    ensures forall i :: 0 <= i < |s| ==> r[i] as int == s[i] as int
  {
    if s == [] then [] else [s[0] as int as Byte] + Ascii(s[1..])
  }

  datatype Compression = Uncompressed | Zlib
  datatype Encryption = Plain | AesGcm
  datatype SnapshotType = Full | Incremental
  datatype Policy = KeepAll | KeepLastN | KeepWithinDays | KeepLastNWithinDays

  /** A retention-parameter dictionary, in insertion order. Its `repr` is the dictionary itself. */
  datatype Value = IntV(i: int) | FloatV(r: real) | BoolV(b: bool) | OtherV(repr: string)
  type Params = seq<(string, Value)>

  function Lookup(p: Params, key: string): Option<Value> {
    if p == [] then None else if p[0].0 == key then Some(p[0].1) else Lookup(p[1..], key)
  }

  /** Nested `params.get(k1, params.get(k2, ...))`. */
  function FirstOf(p: Params, keys: seq<string>): Option<Value> {
    if keys == [] then None
    else match Lookup(p, keys[0]) case Some(v) => Some(v) case None => FirstOf(p, keys[1..])
  }

  /** The retention count, or `None` where the code raises. */
  function RetentionCount(p: Params): (n: Option<nat>)
    ensures n.Some? ==> n.value >= 1
  {
    match FirstOf(p, ["count", "n", "keep", "keep_last_n", "retain"])
    case None => Some(1)
    case Some(IntV(i)) => if i >= 1 then Some(i) else None
    case Some(_) => None
  }

  function RetentionDays(p: Params): (d: Option<real>)
    ensures d.Some? ==> d.value >= 0.0
  {
    match FirstOf(p, ["days", "within_days", "retention_days"])
    case None => Some(30.0)
    case Some(IntV(i)) => if i >= 0 then Some(i as real) else None
    case Some(FloatV(r)) => if r >= 0.0 then Some(r) else None
    case Some(_) => None
  }

  predicate UsesDays(policy: Policy) { policy == KeepWithinDays || policy == KeepLastNWithinDays }
  predicate UsesCount(policy: Policy) { policy == KeepLastN || policy == KeepLastNWithinDays }

  predicate ValidRetention(policy: Policy, p: Params) {
    (UsesDays(policy) ==> RetentionDays(p).Some?) && (UsesCount(policy) ==> RetentionCount(p).Some?)
  }

  const SECONDS_PER_DAY := 86400.0

  function ExpiresAt(policy: Policy, p: Params, createdAt: real): Option<real>
    requires ValidRetention(policy, p)
  {
    if UsesDays(policy) then Some(createdAt + RetentionDays(p).value * SECONDS_PER_DAY) else None
  }

  datatype Chunk = Chunk(
    tenantId: string,
    snapshotId: string,
    sequence: int,
    data: Bytes,
    contentHash: string,
    compressedSize: int,
    originalSize: int,
    compression: Compression,
    encryption: Encryption,
    nonce: Bytes,
    authTag: Bytes)

  datatype Record = Record(
    snapshotId: string,
    tenantId: string,
    snapshotType: SnapshotType,
    parent: Option<string>,
    base: Option<string>,
    contentHash: string,
    totalSize: int,
    chunkCount: int,
    chunks: seq<Chunk>,
    policy: Policy,
    params: Params,
    createdAt: real,
    expiresAt: Option<real>,
    lineageDepth: int,
    isVerified: bool,
    verificationHash: string)

  datatype SnapshotError =
    | BlankTenant | BadChunkSize | BadRetention | BadKey
    | WrongTenant | NotTheParent | NeedsBase
    | BadSequence | NotAuthentic | NotCompressed | SizeMismatch | HashMismatch
    | DeltaFailed(error: Delta.DeltaError)

  type Key = Option<Bytes>

  // ------------------------------------------------------------------ chunks

  predicate ValidKey(key: Key) { key.Some? && |key.value| == 32 }

  function MakeChunk(c: Crypto, tenant: string, snapshotId: string, sequence: nat, data: Bytes,
                     compression: Compression, encryption: Encryption, key: Key, nonce: Bytes)
    : Result<Chunk, SnapshotError>
  {
    if IsBlank(tenant) then Err(BlankTenant)
    else
      var packed := if compression == Zlib then c.compress(data) else data;
      var digest := c.sha256(data);
      if encryption == Plain then
        Ok(Chunk(tenant, snapshotId, sequence, packed, digest, |packed|, |data|, compression, Plain, [], []))
      else if !ValidKey(key) then Err(BadKey)
      else
        var sealed := c.encrypt(key.value, nonce, packed);
        var cut := if |sealed| >= 16 then |sealed| - 16 else 0;
        Ok(Chunk(tenant, snapshotId, sequence, sealed[..cut], digest, |packed|, |data|,
                 compression, AesGcm, nonce, sealed[cut..]))
  }

  function Decrypt(c: Crypto, chunk: Chunk, key: Key): Result<Bytes, SnapshotError> {
    if chunk.encryption == Plain then Ok(chunk.data)
    else if !ValidKey(key) then Err(BadKey)
    else if |chunk.nonce| != 12 || |chunk.authTag| != 16 then Err(NotAuthentic)
    else match c.decrypt(key.value, chunk.nonce, chunk.data + chunk.authTag)
      case None => Err(NotAuthentic)
      case Some(x) => Ok(x)
  }

  function Decompress(c: Crypto, packed: Bytes, chunk: Chunk): Result<Bytes, SnapshotError> {
    var out := if chunk.compression == Zlib then c.decompress(packed) else Some(packed);
    match out
    case None => Err(NotCompressed)
    case Some(data) => if |data| != chunk.originalSize then Err(SizeMismatch) else Ok(data)
  }

  /** `decrypt_and_decompress`: the compressed size is only checked on encrypted chunks. */
  function DecodeChunk(c: Crypto, chunk: Chunk, key: Key): Result<Bytes, SnapshotError> {
    match Decrypt(c, chunk, key)
    case Err(e) => Err(e)
    case Ok(packed) =>
      match Decompress(c, packed, chunk)
      case Err(e) => Err(e)
      case Ok(data) =>
        if chunk.encryption == AesGcm && |packed| != chunk.compressedSize then Err(SizeMismatch)
        else if c.sha256(data) != chunk.contentHash then Err(HashMismatch)
        else Ok(data)
  }

  /** `SnapshotChunk.verify_integrity`: checks the compressed size on every chunk. */
  predicate ChunkIntact(c: Crypto, chunk: Chunk, key: Key) {
    match Decrypt(c, chunk, key)
    case Err(_) => false
    case Ok(packed) =>
      |packed| == chunk.compressedSize &&
      match Decompress(c, packed, chunk)
      case Err(_) => false
      case Ok(data) => c.sha256(data) == chunk.contentHash
  }

  /** The chunk holds one piece of data: hashed, measured, compressed if asked to, and sealed under the key and
      nonce if encrypted. */
  ghost predicate IsSealed(c: Crypto, chunk: Chunk, piece: Bytes, compression: Compression, encryption: Encryption,
                           key: Key, nonce: Bytes)
  {
    var packed := match compression case Zlib => c.compress(piece) case Uncompressed => piece;
    && chunk.contentHash == c.sha256(piece)
    && chunk.originalSize == |piece| && chunk.compressedSize == |packed|
    && chunk.compression == compression && chunk.encryption == encryption
    && match encryption
       case Plain => chunk.data == packed && chunk.nonce == [] && chunk.authTag == []
       case AesGcm =>
         && ValidKey(key) && chunk.nonce == nonce && |chunk.authTag| == 16
         && chunk.data + chunk.authTag == c.encrypt(key.value, nonce, packed)
  }

  /** A created chunk is sealed as asked, decodes to its data under the key, verifies, and if it is encrypted
      decodes under no missing key and no key of a wrong length. */
  lemma ChunkRoundTrip(c: Crypto, tenant: string, id: string, sequence: nat, data: Bytes,
                       compression: Compression, encryption: Encryption, key: Key, nonce: Bytes)
    requires c.Valid() && |nonce| == 12
    ensures var r := MakeChunk(c, tenant, id, sequence, data, compression, encryption, key, nonce);
            && (r.Ok? <==> !IsBlank(tenant) && (encryption == AesGcm ==> ValidKey(key)))
            && (r.Ok? ==>
                  && r.value.tenantId == tenant && r.value.snapshotId == id && r.value.sequence == sequence
                  && IsSealed(c, r.value, data, compression, encryption, key, nonce)
                  && DecodeChunk(c, r.value, key) == Ok(data) && ChunkIntact(c, r.value, key)
                  && (encryption == AesGcm ==> forall k: Key :: !ValidKey(k) ==> DecodeChunk(c, r.value, k) == Err(BadKey)))
  {
    if encryption == AesGcm && ValidKey(key) {
      var packed := if compression == Zlib then c.compress(data) else data;
      var sealed := c.encrypt(key.value, nonce, packed);
      assert sealed[..|sealed| - 16] + sealed[|sealed| - 16..] == sealed;
    }
  }

  /** What a passing chunk has been checked for. */
  lemma ChunkIntactExactly(c: Crypto, chunk: Chunk, key: Key)
    ensures ChunkIntact(c, chunk, key) <==>
      exists packed, data ::
        && Opens(c, chunk, key, packed) && Unpacks(c, chunk, packed, data)
        && |packed| == chunk.compressedSize && |data| == chunk.originalSize && c.sha256(data) == chunk.contentHash
  {
    if ChunkIntact(c, chunk, key) {
      var packed := Decrypt(c, chunk, key).value;
      assert Opens(c, chunk, key, packed) && Unpacks(c, chunk, packed, Decompress(c, packed, chunk).value);
    }
  }

  /** Decoding checks the same, except the compressed size of plain chunks. */
  lemma DecodesExactly(c: Crypto, chunk: Chunk, key: Key, data: Bytes)
    ensures DecodeChunk(c, chunk, key) == Ok(data) <==>
      exists packed ::
        && Opens(c, chunk, key, packed) && Unpacks(c, chunk, packed, data)
        && (chunk.encryption == AesGcm ==> |packed| == chunk.compressedSize)
        && |data| == chunk.originalSize && c.sha256(data) == chunk.contentHash
  {
    if DecodeChunk(c, chunk, key) == Ok(data) {
      var packed := Decrypt(c, chunk, key).value;
      assert Opens(c, chunk, key, packed) && Unpacks(c, chunk, packed, data);
    }
  }

  /** The chunk's bytes open to `packed`: as they are, or authenticated under a key of 32 bytes. */
  ghost predicate Opens(c: Crypto, chunk: Chunk, key: Key, packed: Bytes) {
    match chunk.encryption
    case Plain => packed == chunk.data
    case AesGcm =>
      && key.Some? && |key.value| == 32 && |chunk.nonce| == 12 && |chunk.authTag| == 16
      && c.decrypt(key.value, chunk.nonce, chunk.data + chunk.authTag) == Some(packed)
  }

  ghost predicate Unpacks(c: Crypto, chunk: Chunk, packed: Bytes, data: Bytes) {
    match chunk.compression
    case Uncompressed => data == packed
    case Zlib => c.decompress(packed) == Some(data)
  }

  // ---------------------------------------------------------- chunk sequences

  predicate InSequence(chunks: seq<Chunk>) {
    forall i :: 0 <= i < |chunks| ==> chunks[i].sequence == i
  }

  function Concat(parts: seq<Bytes>): Bytes {
    if parts == [] then [] else parts[0] + Concat(parts[1..])
  }

  function DecodeEach(c: Crypto, chunks: seq<Chunk>, key: Key): (r: Result<seq<Bytes>, SnapshotError>)
    ensures r.Ok? ==> |r.value| == |chunks|
    ensures r.Ok? ==> forall i :: 0 <= i < |chunks| ==> DecodeChunk(c, chunks[i], key) == Ok(r.value[i])
    ensures r.Err? ==> exists i :: 0 <= i < |chunks| && DecodeChunk(c, chunks[i], key) == Err(r.error)
  {
    if chunks == [] then Ok([])
    else match DecodeChunk(c, chunks[0], key)
      case Err(e) => Err(e)
      case Ok(x) =>
        match DecodeEach(c, chunks[1..], key)
        case Err(e) =>
          ghost var i :| 0 <= i < |chunks[1..]| && DecodeChunk(c, chunks[1..][i], key) == Err(e);
          assert chunks[1..][i] == chunks[i + 1];
          Err(e)
        case Ok(rest) => Ok([x] + rest)
  }

  function DecodeChunks(c: Crypto, chunks: seq<Chunk>, key: Key): Result<Bytes, SnapshotError> {
    if !InSequence(chunks) then Err(BadSequence)
    else match DecodeEach(c, chunks, key) case Err(e) => Err(e) case Ok(parts) => Ok(Concat(parts))
  }

  /** Chunks decode together exactly when they are numbered in order and each decodes, and then to the concatenation. */
  lemma DecodeChunksExactly(c: Crypto, chunks: seq<Chunk>, key: Key, x: Bytes)
    ensures DecodeChunks(c, chunks, key) == Ok(x) <==>
      && (forall i :: 0 <= i < |chunks| ==> chunks[i].sequence == i)
      && exists parts: seq<Bytes> ::
           && |parts| == |chunks| && Concat(parts) == x
           && forall i :: 0 <= i < |chunks| ==> DecodeChunk(c, chunks[i], key) == Ok(parts[i])
  {
    var each := DecodeEach(c, chunks, key);
    forall parts: seq<Bytes> | |parts| == |chunks| && forall i :: 0 <= i < |chunks| ==> DecodeChunk(c, chunks[i], key) == Ok(parts[i])
      ensures each == Ok(parts)
    {
      assert each.Ok? && each.value == parts;
    }
  }

  /** The ASCII bytes of all chunk hashes; `None` where encoding raises. */
  function JoinHashes(chunks: seq<Chunk>): Option<Bytes> {
    if chunks == [] then Some([])
    else if !IsAscii(chunks[0].contentHash) then None
    else match JoinHashes(chunks[1..])
      case None => None
      case Some(rest) => Some(Ascii(chunks[0].contentHash) + rest)
  }

  function ChainHash(c: Crypto, chunks: seq<Chunk>): Option<string> {
    match JoinHashes(chunks) case None => None case Some(x) => Some(c.sha256(x))
  }

  /** The payload cut into consecutive pieces of `size` bytes, the last one possibly shorter. */
  function Pieces(payload: Bytes, size: nat): (p: seq<Bytes>)
    requires size >= 1
    decreases |payload|
  {
    if payload == [] then []
    else if |payload| <= size then [payload]
    else [payload[..size]] + Pieces(payload[size..], size)
  }

  lemma {:induction false} PiecesCover(payload: Bytes, size: nat)
    requires size >= 1
    ensures Concat(Pieces(payload, size)) == payload
    ensures size * (|Pieces(payload, size)| - 1) < |payload| <= size * |Pieces(payload, size)|
    decreases |payload|
  {
    if payload == [] {
    } else if |payload| <= size {
      assert [payload][1..] == [];
    } else {
      PiecesCover(payload[size..], size);
      var rest := Pieces(payload[size..], size);
      assert ([payload[..size]] + rest)[1..] == rest;
      assert payload == payload[..size] + payload[size..];
      assert size * (|rest| + 1) == size * |rest| + size && size * |rest| == size * (|rest| - 1) + size;
    }
  }

  /** Piece `i` is the slice of `size` bytes at `i * size`. */
  lemma {:induction false} PieceIsSlice(payload: Bytes, size: nat, i: nat)
    requires size >= 1 && i < |Pieces(payload, size)|
    ensures Pieces(payload, size)[i] == PySlice(payload, i * size, i * size + size)
    decreases i
  {
    if i > 0 {
      PieceIsSlice(payload[size..], size, i - 1);
      NextSlice(payload, size, i);
    }
  }

  lemma NextSlice(payload: Bytes, size: nat, i: nat)
    requires i > 0 && size <= |payload|
    ensures PySlice(payload[size..], (i - 1) * size, (i - 1) * size + size) == PySlice(payload, i * size, i * size + size)
  {
    NextProduct(i, size);
    ShiftedSlice(payload, size, (i - 1) * size, size);
  }

  lemma NextProduct(i: nat, size: nat)
    requires i > 0
    ensures i * size == (i - 1) * size + size && (i - 1) * size >= 0
  {
  }

  lemma ShiftedSlice(x: Bytes, lo: nat, at: nat, n: nat)
    requires lo <= |x|
    ensures PySlice(x[lo..], at, at + n) == PySlice(x, at + lo, at + lo + n)
  {
  }

  /** The chunk loop of both constructors: cut, compress, hash and maybe encrypt each piece. */
  method ChunkPayload(c: Crypto, tenant: string, payload: Bytes, size: nat, key: Key, nonces: nat -> Bytes)
    returns (r: Result<seq<Chunk>, SnapshotError>)
    requires size >= 1 && !IsBlank(tenant)
    ensures r.Ok? <==> payload == [] || key.None? || ValidKey(key)
    ensures r.Err? ==> r.error == BadKey
    ensures r.Ok? ==> ChunksOf(c, tenant, "pending", Pieces(payload, size), key, nonces, r.value)
  {
    var chunks: seq<Chunk> := [];
    var at := 0;
    ghost var whole := Pieces(payload, size);
    while at < |payload|
      invariant 0 <= at && |chunks| <= |whole|
      invariant at < |payload| ==> Pieces(payload[at..], size) == whole[|chunks|..] && payload[at..] != []
      invariant at >= |payload| ==> |chunks| == |whole|
      invariant at > 0 ==> key.None? || ValidKey(key)
      invariant payload == [] ==> at == 0
      invariant ChunksOf(c, tenant, "pending", whole[..|chunks|], key, nonces, chunks)
      decreases |payload| - at
    {
      var end := if at + size <= |payload| then at + size else |payload|;
      ghost var rest := payload[at..];
      assert payload[at..end] == Pieces(rest, size)[0] == whole[|chunks|];
      assert end < |payload| ==> rest[size..] == payload[end..];
      assert Pieces(rest, size)[1..] == whole[|chunks| + 1..];
      var made := MakeChunk(c, tenant, "pending", |chunks|, payload[at..end], Zlib,
                            if key.Some? then AesGcm else Plain, key, nonces(|chunks|));
      match made {
        case Err(e) => return Err(e);
        case Ok(chunk) =>
          chunks := chunks + [chunk];
      }
      at := at + size;
    }
    assert whole[..|chunks|] == whole;
    r := Ok(chunks);
  }

  ghost predicate ChunksOf(c: Crypto, tenant: string, id: string, pieces: seq<Bytes>, key: Key,
                           nonces: nat -> Bytes, chunks: seq<Chunk>)
  {
    && |chunks| == |pieces|
    && forall i: nat :: i < |chunks| ==>
         MakeChunk(c, tenant, id, i, pieces[i], Zlib, if key.Some? then AesGcm else Plain, key, nonces(i))
         == Ok(chunks[i])
  }
}
