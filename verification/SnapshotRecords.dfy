/**
 Creating, reconstructing and verifying snapshot records.
 */
module SnapshotRecords {
  import opened Prelude
  import opened SnapshotTypes
  import Delta

  // ---------------------------------------------------------------- creation

  predicate InScope(s: Record) {
    forall i :: 0 <= i < |s.chunks| ==>
      s.chunks[i].tenantId == s.tenantId && s.chunks[i].snapshotId == s.snapshotId
  }

  /** The record stores exactly `body` in its chunks: the metadata agrees with the chunks,
      every chunk is intact and decoding them all yields `body`. */
  ghost predicate Stores(c: Crypto, s: Record, key: Key, body: Bytes) {
    && s.chunkCount == |s.chunks|
    && InSequence(s.chunks) && InScope(s)
    && s.totalSize == |body|
    && ChainHash(c, s.chunks) == Some(s.contentHash)
    && (forall i :: 0 <= i < |s.chunks| ==> ChunkIntact(c, s.chunks[i], key))
    && DecodeChunks(c, s.chunks, key) == Ok(body)
  }

  function SnapshotId(tenant: string, hash: string, stamp: string): string {
    "snap-" + tenant + "-" + (if |hash| <= 16 then hash else hash[..16]) + "-" + stamp
  }

  lemma IdIsNotBlank(tenant: string, hash: string, stamp: string)
    ensures !IsBlank(SnapshotId(tenant, hash, stamp))
  {
    assert SnapshotId(tenant, hash, stamp)[0] == 's';
  }

  /** Every chunk of the record is one piece of the body, compressed, and encrypted if there is a key. */
  ghost predicate Sealed(c: Crypto, s: Record, body: Bytes, size: nat, key: Key, nonces: nat -> Bytes)
    requires size >= 1
  {
    && |s.chunks| == |Pieces(body, size)|
    && forall i: nat :: i < |s.chunks| ==> SealedAt(c, s, body, size, key, nonces, i)
  }

  ghost predicate SealedAt(c: Crypto, s: Record, body: Bytes, size: nat, key: Key, nonces: nat -> Bytes, i: nat)
    requires size >= 1 && i < |s.chunks| && |s.chunks| == |Pieces(body, size)|
  {
    IsSealed(c, s.chunks[i], Pieces(body, size)[i], Zlib, if key.Some? then AesGcm else Plain, key, nonces(i))
  }

  /** The policy, parameters and times of a new record are what the caller asked for. */
  ghost predicate Keeps(s: Record, policy: Policy, params: Params, createdAt: real)
    requires ValidRetention(policy, params)
  {
    && s.policy == policy && s.params == params && s.createdAt == createdAt
    && s.expiresAt == ExpiresAt(policy, params, createdAt)
  }

  lemma ChunksSealed(c: Crypto, tenant: string, id: string, body: Bytes, size: nat, key: Key, nonces: nat -> Bytes, s: Record)
    requires c.Valid() && (forall i: nat :: |nonces(i)| == 12) && size >= 1
    requires ChunksOf(c, tenant, id, Pieces(body, size), key, nonces, s.chunks)
    ensures Sealed(c, s, body, size, key, nonces)
  {
    var encryption := if key.Some? then AesGcm else Plain;
    forall i: nat | i < |s.chunks|
      ensures SealedAt(c, s, body, size, key, nonces, i)
    {
      ChunkRoundTrip(c, tenant, id, i, Pieces(body, size)[i], Zlib, encryption, key, nonces(i));
    }
  }

  /** A record that was made with a key reveals nothing without one: decoding its chunks fails. */
  lemma SealedNeedsKey(c: Crypto, s: Record, body: Bytes, size: nat, key: Key, nonces: nat -> Bytes, k: Key)
    requires size >= 1 && Sealed(c, s, body, size, key, nonces) && InSequence(s.chunks) && key.Some? && body != [] && !ValidKey(k)
    ensures DecodeChunks(c, s.chunks, k) == Err(BadKey)
  {
    PiecesCover(body, size);
    assert SealedAt(c, s, body, size, key, nonces, 0);
  }

  /** What both constructors do with the bytes to store: chunk them, hash the chain, derive the
      id from it and re-scope the chunks. `stamp` is the clock reading in the id. */
  method Store(c: Crypto, tenant: string, body: Bytes, size: int, key: Key, nonces: nat -> Bytes, stamp: string,
               policy: Policy, params: Params, createdAt: real)
    returns (r: Result<Record, SnapshotError>)
    requires c.Valid() && forall i: nat :: |nonces(i)| == 12
    requires !IsBlank(tenant) && size >= 1 && ValidRetention(policy, params)
    ensures r.Ok? <==> body == [] || key.None? || ValidKey(key)
    ensures r.Ok? ==>
      var s := r.value;
      && Stores(c, s, key, body)
      && s.tenantId == tenant && s.snapshotId == SnapshotId(tenant, s.contentHash, stamp)
      && s.snapshotType == Full && s.parent == None && s.base == None && s.lineageDepth == 0
      && Keeps(s, policy, params, createdAt) && Sealed(c, s, body, size, key, nonces)
      && !s.isVerified && s.verificationHash == ""
      && size * (s.chunkCount - 1) < |body| <= size * s.chunkCount
  {
    var made := ChunkPayload(c, tenant, body, size, key, nonces);
    if made.Err? {
      return Err(made.error);
    }
    HashesJoin(c, tenant, body, size, key, nonces, made.value);
    var hash := ChainHash(c, made.value).value;
    var id := SnapshotId(tenant, hash, stamp);
    var chunks := seq(|made.value|, i requires 0 <= i < |made.value| => made.value[i].(snapshotId := id));
    PiecesCover(body, size);
    r := Ok(Record(id, tenant, Full, None, None, hash, |body|, |chunks|, chunks, policy, params, createdAt,
                   ExpiresAt(policy, params, createdAt), 0, false, ""));
    Assembled(c, tenant, body, size, key, nonces, made.value, r.value);
  }

  lemma HashesJoin(c: Crypto, tenant: string, body: Bytes, size: nat, key: Key, nonces: nat -> Bytes, chunks: seq<Chunk>)
    requires c.Valid() && (forall i: nat :: |nonces(i)| == 12) && size >= 1
    requires ChunksOf(c, tenant, "pending", Pieces(body, size), key, nonces, chunks)
    ensures ChainHash(c, chunks).Some?
  {
    ChunksIntact(c, tenant, "pending", Pieces(body, size), key, nonces, chunks);
    JoinHashesAscii(c, chunks, key);
  }

  /** Re-scoping the chunks to the final id leaves a record that stores the body. */
  lemma Assembled(c: Crypto, tenant: string, body: Bytes, size: nat, key: Key, nonces: nat -> Bytes, made: seq<Chunk>, s: Record)
    requires c.Valid() && (forall i: nat :: |nonces(i)| == 12) && size >= 1
    requires ChunksOf(c, tenant, "pending", Pieces(body, size), key, nonces, made)
    requires |s.chunks| == |made| && forall i :: 0 <= i < |made| ==> s.chunks[i] == made[i].(snapshotId := s.snapshotId)
    requires s.tenantId == tenant && s.chunkCount == |made| && s.totalSize == |body| && ChainHash(c, made) == Some(s.contentHash)
    ensures Stores(c, s, key, body) && Sealed(c, s, body, size, key, nonces)
  {
    var pieces := Pieces(body, size);
    Rescoped(c, made, s.chunks, s.snapshotId);
    RescopedChunks(c, tenant, s.snapshotId, pieces, key, nonces, made, s.chunks);
    ChunksIntact(c, tenant, s.snapshotId, pieces, key, nonces, s.chunks);
    PiecesCover(body, size);
    ChunksSealed(c, tenant, s.snapshotId, body, size, key, nonces, s);
  }

  lemma ChunksIntact(c: Crypto, tenant: string, id: string, pieces: seq<Bytes>, key: Key, nonces: nat -> Bytes,
                     chunks: seq<Chunk>)
    requires c.Valid() && forall i: nat :: |nonces(i)| == 12
    requires ChunksOf(c, tenant, id, pieces, key, nonces, chunks)
    ensures forall i :: 0 <= i < |chunks| ==>
      ChunkIntact(c, chunks[i], key) && chunks[i].sequence == i &&
      chunks[i].tenantId == tenant && chunks[i].snapshotId == id
    ensures DecodeChunks(c, chunks, key) == Ok(Concat(pieces))
  {
    var encryption := if key.Some? then AesGcm else Plain;
    forall i: nat | i < |chunks|
      ensures ChunkIntact(c, chunks[i], key) && DecodeChunk(c, chunks[i], key) == Ok(pieces[i])
      ensures chunks[i].sequence == i && chunks[i].tenantId == tenant && chunks[i].snapshotId == id
    {
      ChunkRoundTrip(c, tenant, id, i, pieces[i], Zlib, encryption, key, nonces(i));
      assert MakeChunk(c, tenant, id, i, pieces[i], Zlib, encryption, key, nonces(i)) == Ok(chunks[i]);
    }
    var each := DecodeEach(c, chunks, key);
    assert each.Ok? && each.value == pieces;
  }

  /** Intact chunks carry a digest of their data, so the hash chain is always defined. */
  lemma {:induction false} JoinHashesAscii(c: Crypto, chunks: seq<Chunk>, key: Key)
    requires c.Valid() && forall i :: 0 <= i < |chunks| ==> ChunkIntact(c, chunks[i], key)
    ensures JoinHashes(chunks).Some?
  {
    if chunks != [] {
      assert ChunkIntact(c, chunks[0], key);
      assert forall i :: 0 <= i < |chunks[1..]| ==> chunks[1..][i] == chunks[i + 1];
      JoinHashesAscii(c, chunks[1..], key);
    }
  }

  lemma RescopedChunks(c: Crypto, tenant: string, id: string, pieces: seq<Bytes>, key: Key, nonces: nat -> Bytes,
                       before: seq<Chunk>, after: seq<Chunk>)
    requires ChunksOf(c, tenant, "pending", pieces, key, nonces, before) && |before| == |after|
    requires forall i :: 0 <= i < |before| ==> after[i] == before[i].(snapshotId := id)
    ensures ChunksOf(c, tenant, id, pieces, key, nonces, after)
  {
    var encryption := if key.Some? then AesGcm else Plain;
    forall i: nat | i < |after|
      ensures MakeChunk(c, tenant, id, i, pieces[i], Zlib, encryption, key, nonces(i)) == Ok(after[i])
    {
      assert MakeChunk(c, tenant, "pending", i, pieces[i], Zlib, encryption, key, nonces(i)) == Ok(before[i]);
    }
  }

  lemma {:induction false} Rescoped(c: Crypto, before: seq<Chunk>, after: seq<Chunk>, id: string)
    requires |before| == |after|
    requires forall i :: 0 <= i < |before| ==> after[i] == before[i].(snapshotId := id)
    ensures JoinHashes(after) == JoinHashes(before)
  {
    if before != [] {
      Rescoped(c, before[1..], after[1..], id);
    }
  }

  method CreateFull(c: Crypto, tenant: string, payload: Bytes, policy: Policy, params: Params, key: Key, size: int,
                    nonces: nat -> Bytes, stamp: string, createdAt: real)
    returns (r: Result<Record, SnapshotError>)
    requires c.Valid() && forall i: nat :: |nonces(i)| == 12
    ensures r.Ok? <==>
      !IsBlank(tenant) && size >= 1 && ValidRetention(policy, params) && (payload == [] || key.None? || ValidKey(key))
    ensures r.Ok? ==> IsFullOf(c, r.value, tenant, payload, key)
    ensures r.Ok? ==> size * (r.value.chunkCount - 1) < |payload| <= size * r.value.chunkCount
    ensures r.Ok? ==> r.value.snapshotId == SnapshotId(tenant, r.value.contentHash, stamp)
    ensures r.Ok? ==> Keeps(r.value, policy, params, createdAt) && Sealed(c, r.value, payload, size, key, nonces)
  {
    if IsBlank(tenant) {
      return Err(BlankTenant);
    }
    if size < 1 {
      return Err(BadChunkSize);
    }
    if !ValidRetention(policy, params) {
      return Err(BadRetention);
    }
    r := Store(c, tenant, payload, size, key, nonces, stamp, policy, params, createdAt);
  }

  ghost predicate IsFullOf(c: Crypto, s: Record, tenant: string, payload: Bytes, key: Key) {
    && Stores(c, s, key, payload)
    && s.tenantId == tenant && s.snapshotType == Full
    && s.parent == None && s.base == None && s.lineageDepth == 0
    && !s.isVerified && s.verificationHash == ""
  }

  /** `s` is the incremental snapshot of `payload` on top of `parent`, whose data is `baseData`. */
  ghost predicate IsIncrementalOf(c: Crypto, s: Record, parent: Record, baseData: Bytes, payload: Bytes, key: Key) {
    && (exists d :: Stores(c, s, key, d) && Delta.IsDelta(baseData, payload, d))
    && s.tenantId == parent.tenantId && s.snapshotType == Incremental
    && s.parent == Some(parent.snapshotId)
    && s.base == Some(BaseIdFor(parent))
    && s.lineageDepth == parent.lineageDepth + 1
    && !s.isVerified && s.verificationHash == ""
  }

  /** `base_snapshot.base_snapshot_id or base_snapshot.snapshot_id` */
  function BaseIdFor(parent: Record): string {
    if parent.base.Some? && parent.base.value != "" then parent.base.value else parent.snapshotId
  }

  /** The chunks of an incremental seal the delta. */
  ghost predicate SealsDelta(c: Crypto, s: Record, baseData: Bytes, payload: Bytes, size: nat, key: Key, nonces: nat -> Bytes)
    requires size >= 1
  {
    exists d :: Delta.IsDelta(baseData, payload, d) && Sealed(c, s, d, size, key, nonces)
  }

  lemma SealedDelta(c: Crypto, stored: Record, s: Record, baseData: Bytes, payload: Bytes, d: Bytes, size: nat, key: Key,
                    nonces: nat -> Bytes)
    requires size >= 1 && Sealed(c, stored, d, size, key, nonces) && s.chunks == stored.chunks
    requires Delta.IsDelta(baseData, payload, d)
    ensures SealsDelta(c, s, baseData, payload, size, key, nonces)
  {
    forall i: nat | i < |s.chunks|
      ensures SealedAt(c, s, d, size, key, nonces, i)
    {
      assert SealedAt(c, stored, d, size, key, nonces, i);
    }
  }

  /** The data that the delta starts from: what the caller supplies, or the reconstructed parent. */
  function BaseDataFor(c: Crypto, parent: Record, key: Key, baseData: Option<Bytes>): Result<Bytes, SnapshotError> {
    if baseData.Some? then Ok(baseData.value) else Reconstruct(c, parent, key, None)
  }

  method CreateIncremental(c: Crypto, tenant: string, payload: Bytes, parent: Record, policy: Policy, params: Params,
                           key: Key, size: int, baseData: Option<Bytes>, nonces: nat -> Bytes, stamp: string,
                           createdAt: real)
    returns (r: Result<Record, SnapshotError>)
    requires c.Valid() && forall i: nat :: |nonces(i)| == 12
    ensures var start := BaseDataFor(c, parent, key, baseData); r.Ok? <==>
      && !IsBlank(tenant) && parent.tenantId == tenant && size >= 1 && ValidRetention(policy, params)
      && start.Ok? && |start.value| < Delta.LIMIT && |payload| < Delta.LIMIT
      && (key.None? || ValidKey(key))
    ensures r.Ok? && baseData.Some? ==> IsDeltaRecord(c, r.value, parent, baseData.value, payload, size, key, nonces)
    ensures r.Ok? && baseData.None? ==>
      IsDeltaRecord(c, r.value, parent, Reconstruct(c, parent, key, None).value, payload, size, key, nonces)
    ensures r.Ok? ==> Keeps(r.value, policy, params, createdAt)
    ensures r.Ok? ==> r.value.snapshotId == SnapshotId(tenant, r.value.contentHash, stamp) && !IsBlank(r.value.snapshotId)
  {
    if IsBlank(tenant) {
      return Err(BlankTenant);
    }
    if parent.tenantId != tenant {
      return Err(WrongTenant);
    }
    if size < 1 {
      return Err(BadChunkSize);
    }
    if !ValidRetention(policy, params) {
      return Err(BadRetention);
    }
    var start := BaseDataFor(c, parent, key, baseData);
    if start.Err? {
      return Err(start.error);
    }
    r := DeltaRecord(c, tenant, payload, parent, policy, params, key, size, start.value, nonces, stamp, createdAt);
  }

  /** `s` is the incremental of `payload` on `parent`, and its chunks seal the delta. */
  ghost predicate IsDeltaRecord(c: Crypto, s: Record, parent: Record, baseData: Bytes, payload: Bytes, size: nat, key: Key,
                                nonces: nat -> Bytes)
    requires size >= 1
  {
    IsIncrementalOf(c, s, parent, baseData, payload, key) && SealsDelta(c, s, baseData, payload, size, key, nonces)
  }

  /** The second half of the constructor: delta, chunks and record. */
  method DeltaRecord(c: Crypto, tenant: string, payload: Bytes, parent: Record, policy: Policy, params: Params,
                     key: Key, size: int, baseData: Bytes, nonces: nat -> Bytes, stamp: string, createdAt: real)
    returns (r: Result<Record, SnapshotError>)
    requires c.Valid() && forall i: nat :: |nonces(i)| == 12
    requires !IsBlank(tenant) && parent.tenantId == tenant && size >= 1 && ValidRetention(policy, params)
    ensures r.Ok? <==> |baseData| < Delta.LIMIT && |payload| < Delta.LIMIT && (key.None? || ValidKey(key))
    ensures r.Ok? ==> IsDeltaRecord(c, r.value, parent, baseData, payload, size, key, nonces)
    ensures r.Ok? ==> Keeps(r.value, policy, params, createdAt)
    ensures r.Ok? ==> r.value.snapshotId == SnapshotId(tenant, r.value.contentHash, stamp) && !IsBlank(r.value.snapshotId)
  {
    var d := Delta.ComputeDelta(baseData, payload);
    if d.Err? {
      return Err(DeltaFailed(d.error));
    }
    assert d.value != [];
    var stored := Store(c, tenant, d.value, size, key, nonces, stamp, policy, params, createdAt);
    if stored.Err? {
      return stored;
    }
    var s := stored.value.(snapshotType := Incremental, parent := Some(parent.snapshotId),
                           base := Some(BaseIdFor(parent)), lineageDepth := parent.lineageDepth + 1);
    AsDeltaRecord(c, stored.value, s, parent, baseData, payload, d.value, size, key, nonces);
    IdIsNotBlank(tenant, s.contentHash, stamp);
    return Ok(s);
  }

  lemma AsDeltaRecord(c: Crypto, stored: Record, s: Record, parent: Record, baseData: Bytes, payload: Bytes, d: Bytes, size: nat,
                      key: Key, nonces: nat -> Bytes)
    requires size >= 1 && Stores(c, stored, key, d) && Sealed(c, stored, d, size, key, nonces)
    requires stored.tenantId == parent.tenantId && !stored.isVerified && stored.verificationHash == ""
    requires Delta.IsDelta(baseData, payload, d)
    requires s == stored.(snapshotType := Incremental, parent := Some(parent.snapshotId),
                          base := Some(BaseIdFor(parent)), lineageDepth := parent.lineageDepth + 1)
    ensures IsDeltaRecord(c, s, parent, baseData, payload, size, key, nonces)
  {
    assert Stores(c, s, key, d);
    SealedDelta(c, stored, s, baseData, payload, d, size, key, nonces);
  }

  // ---------------------------------------------------------- reconstruction

  function Apply(baseData: Bytes, d: Bytes): Result<Bytes, SnapshotError> {
    match Delta.ApplyDelta(baseData, d) case Ok(x) => Ok(x) case Err(e) => Err(DeltaFailed(e))
  }

  function DecodeAndApply(c: Crypto, s: Record, key: Key, baseData: Bytes): Result<Bytes, SnapshotError> {
    match DecodeChunks(c, s.chunks, key) case Err(e) => Err(e) case Ok(d) => Apply(baseData, d)
  }

  function ReconstructAlone(c: Crypto, s: Record, key: Key): Result<Bytes, SnapshotError> {
    if s.snapshotType == Full then DecodeChunks(c, s.chunks, key) else Err(NeedsBase)
  }

  /** Works on a full parent only: the parent is reconstructed without a base of its own. */
  function ReconstructWithBase(c: Crypto, s: Record, parent: Record, key: Key): Result<Bytes, SnapshotError> {
    if s.snapshotType != Incremental then ReconstructAlone(c, s, key)
    else if parent.tenantId != s.tenantId then Err(WrongTenant)
    else if Some(parent.snapshotId) != s.parent then Err(NotTheParent)
    else match ReconstructAlone(c, parent, key)
      case Err(e) => Err(e)
      case Ok(baseData) => DecodeAndApply(c, s, key, baseData)
  }

  function Reconstruct(c: Crypto, s: Record, key: Key, parent: Option<Record>): Result<Bytes, SnapshotError> {
    if s.snapshotType == Full then DecodeChunks(c, s.chunks, key)
    else if parent.Some? then ReconstructWithBase(c, s, parent.value, key)
    else Err(NeedsBase)
  }

  lemma ReconstructFull(c: Crypto, s: Record, tenant: string, payload: Bytes, key: Key, parent: Option<Record>)
    requires IsFullOf(c, s, tenant, payload, key)
    ensures Reconstruct(c, s, key, parent) == Ok(payload)
  {
  }

  /** An incremental applied to the data it was built from yields its payload. */
  lemma IncrementalApplies(c: Crypto, s: Record, parent: Record, baseData: Bytes, payload: Bytes, key: Key)
    requires IsIncrementalOf(c, s, parent, baseData, payload, key)
    ensures DecodeAndApply(c, s, key, baseData) == Ok(payload)
  {
    var d :| Stores(c, s, key, d) && Delta.IsDelta(baseData, payload, d);
    Delta.RoundTrip(baseData, payload, d);
  }

  /** An incremental on a full parent reconstructs from that parent; on an incremental parent it never does. */
  lemma ReconstructIncremental(c: Crypto, s: Record, parent: Record, baseData: Bytes, payload: Bytes, key: Key)
    requires IsIncrementalOf(c, s, parent, baseData, payload, key)
    requires parent.snapshotType == Full ==> Stores(c, parent, key, baseData)
    ensures Reconstruct(c, s, key, Some(parent)) ==
            if parent.snapshotType == Full then Ok(payload) else Err(NeedsBase)
  {
    IncrementalApplies(c, s, parent, baseData, payload, key);
  }

  /** When and to what an incremental reconstructs from a supplied record: only from its own parent, of its own
      tenant, which must be a full snapshot. */
  lemma ReconstructsExactly(c: Crypto, s: Record, parent: Record, key: Key, x: Bytes)
    requires s.snapshotType == Incremental
    ensures Reconstruct(c, s, key, Some(parent)) == Ok(x) <==>
      && parent.tenantId == s.tenantId && s.parent == Some(parent.snapshotId) && parent.snapshotType == Full
      && exists b, d ::
           DecodeChunks(c, parent.chunks, key) == Ok(b) && DecodeChunks(c, s.chunks, key) == Ok(d) && Delta.ApplyDelta(b, d) == Ok(x)
    ensures Reconstruct(c, s, key, None).Err?
  {
  }

  // ------------------------------------------------------------ verification

  datatype Reason =
    | ChunkCountMismatch | SequencesInvalid | ScopeMismatch | TotalSizeInvalid | DepthInvalid
    | ContentHashMismatch | ChunkCorrupt | NoVerificationHash | TotalSizeMismatch
    | VerificationHashMismatch | ReconstructionFailed(error: SnapshotError)

  /** `Raised` where the hash chain cannot be encoded, which is outside the guarded part. */
  datatype Verdict = Intact | Corrupt(reason: Reason) | Raised

  /** The bytes that `verify_integrity` and `mark_verified` hash. */
  function Materialise(c: Crypto, s: Record, key: Key, parent: Option<Record>, baseData: Option<Bytes>)
    : Result<Bytes, SnapshotError>
  {
    if s.snapshotType == Full then DecodeChunks(c, s.chunks, key)
    else if baseData.Some? then DecodeAndApply(c, s, key, baseData.value)
    else if parent.Some? then ReconstructWithBase(c, s, parent.value, key)
    else DecodeChunks(c, s.chunks, key)
  }

  function VerifyIntegrity(c: Crypto, s: Record, key: Key, parent: Option<Record>, baseData: Option<Bytes>): Verdict {
    if s.chunkCount != |s.chunks| then Corrupt(ChunkCountMismatch)
    else if !InSequence(s.chunks) then Corrupt(SequencesInvalid)
    else if !InScope(s) then Corrupt(ScopeMismatch)
    else if s.totalSize < 0 then Corrupt(TotalSizeInvalid)
    else if s.lineageDepth < 0 then Corrupt(DepthInvalid)
    else match ChainHash(c, s.chunks)
      case None => Raised
      case Some(hash) =>
        if hash != s.contentHash then Corrupt(ContentHashMismatch)
        else if exists i :: 0 <= i < |s.chunks| && !ChunkIntact(c, s.chunks[i], key) then Corrupt(ChunkCorrupt)
        else if s.isVerified && s.verificationHash == "" then Corrupt(NoVerificationHash)
        else VerifyData(c, s, key, parent, baseData)
  }

  function VerifyData(c: Crypto, s: Record, key: Key, parent: Option<Record>, baseData: Option<Bytes>): Verdict {
    match DecodeChunks(c, s.chunks, key)
    case Err(e) => Corrupt(ReconstructionFailed(e))
    case Ok(body) =>
      if |body| != s.totalSize then Corrupt(TotalSizeMismatch)
      else match Materialise(c, s, key, parent, baseData)
        case Err(e) => Corrupt(ReconstructionFailed(e))
        case Ok(data) =>
          if s.verificationHash != "" && c.sha256(data) != s.verificationHash
          then Corrupt(VerificationHashMismatch)
          else Intact
  }

  /** A record is intact exactly when it stores some body, that body materialises on the given
      base, and the materialised data has the recorded hash where there is one. */
  lemma IntactExactly(c: Crypto, s: Record, key: Key, parent: Option<Record>, baseData: Option<Bytes>)
    ensures VerifyIntegrity(c, s, key, parent, baseData) == Intact <==>
      && (exists body :: Stores(c, s, key, body))
      && s.lineageDepth >= 0
      && (s.isVerified ==> s.verificationHash != "")
      && Materialise(c, s, key, parent, baseData).Ok?
      && (s.verificationHash != "" ==>
            c.sha256(Materialise(c, s, key, parent, baseData).value) == s.verificationHash)
  {
    if VerifyIntegrity(c, s, key, parent, baseData) == Intact {
      assert Stores(c, s, key, DecodeChunks(c, s.chunks, key).value);
    }
  }

  /** A fresh full snapshot verifies, whatever base is supplied. */
  lemma FreshFullIntact(c: Crypto, s: Record, tenant: string, payload: Bytes, key: Key,
                        parent: Option<Record>, baseData: Option<Bytes>)
    requires IsFullOf(c, s, tenant, payload, key)
    ensures VerifyIntegrity(c, s, key, parent, baseData) == Intact
  {
    IntactExactly(c, s, key, parent, baseData);
  }

  /** A fresh incremental verifies on the data it was built from, and also on no base at all. */
  lemma FreshIncrementalIntact(c: Crypto, s: Record, parent: Record, baseData: Bytes, payload: Bytes, key: Key)
    requires IsIncrementalOf(c, s, parent, baseData, payload, key)
    ensures VerifyIntegrity(c, s, key, None, Some(baseData)) == Intact <==> parent.lineageDepth >= -1
    ensures VerifyIntegrity(c, s, key, None, None) == Intact <==> parent.lineageDepth >= -1
  {
    FreshOnBase(c, s, parent, baseData, payload, key);
    FreshBare(c, s, parent, baseData, payload, key);
  }

  lemma FreshOnBase(c: Crypto, s: Record, parent: Record, baseData: Bytes, payload: Bytes, key: Key)
    requires IsIncrementalOf(c, s, parent, baseData, payload, key)
    ensures VerifyIntegrity(c, s, key, None, Some(baseData)) == Intact <==> parent.lineageDepth >= -1
  {
    IncrementalApplies(c, s, parent, baseData, payload, key);
    IntactExactly(c, s, key, None, Some(baseData));
  }

  lemma FreshBare(c: Crypto, s: Record, parent: Record, baseData: Bytes, payload: Bytes, key: Key)
    requires IsIncrementalOf(c, s, parent, baseData, payload, key)
    ensures VerifyIntegrity(c, s, key, None, None) == Intact <==> parent.lineageDepth >= -1
  {
    IntactExactly(c, s, key, None, None);
  }

  function MarkVerified(c: Crypto, s: Record, key: Key, parent: Option<Record>, baseData: Option<Bytes>)
    : Result<Record, SnapshotError>
  {
    match Materialise(c, s, key, parent, baseData)
    case Err(e) => Err(e)
    case Ok(data) => Ok(s.(isVerified := true, verificationHash := c.sha256(data)))
  }

  lemma MarkedStores(c: Crypto, s: Record, s': Record, key: Key, body: Bytes)
    requires s' == s.(isVerified := s'.isVerified, verificationHash := s'.verificationHash)
    ensures Stores(c, s', key, body) <==> Stores(c, s, key, body)
  {
  }

  /** Marking an intact snapshot keeps it intact under the same key and base. */
  lemma MarkVerifiedStable(c: Crypto, s: Record, key: Key, parent: Option<Record>, baseData: Option<Bytes>)
    requires c.Valid() && VerifyIntegrity(c, s, key, parent, baseData) == Intact
    ensures var m := MarkVerified(c, s, key, parent, baseData);
            m.Ok? && VerifyIntegrity(c, m.value, key, parent, baseData) == Intact
  {
    IntactExactly(c, s, key, parent, baseData);
    var body :| Stores(c, s, key, body);
    var m := MarkVerified(c, s, key, parent, baseData).value;
    MarkedStores(c, s, m, key, body);
    SameMaterial(c, s, m, key, parent, baseData);
    IntactExactly(c, m, key, parent, baseData);
  }

  lemma SameMaterial(c: Crypto, s: Record, s': Record, key: Key, parent: Option<Record>, baseData: Option<Bytes>)
    requires s' == s.(isVerified := s'.isVerified, verificationHash := s'.verificationHash)
    ensures Materialise(c, s', key, parent, baseData) == Materialise(c, s, key, parent, baseData)
  {
  }

  /** An incremental marked with its base data and then verified without a base passes exactly
      when its delta and its materialised data share a digest. */
  lemma MarkedThenVerifiedBare(c: Crypto, s: Record, key: Key, baseData: Bytes, delta: Bytes)
    requires c.Valid() && s.snapshotType == Incremental && s.lineageDepth >= 0 && Stores(c, s, key, delta)
    requires Apply(baseData, delta).Ok?
    ensures var m := MarkVerified(c, s, key, None, Some(baseData));
            && m.Ok?
            && (VerifyIntegrity(c, m.value, key, None, None) == Intact <==>
                  c.sha256(delta) == c.sha256(Apply(baseData, delta).value))
  {
    var m := MarkVerified(c, s, key, None, Some(baseData)).value;
    MarkedStores(c, s, m, key, delta);
    IntactExactly(c, m, key, None, None);
  }

  // --------------------------------------------------------- content binding

  lemma IntactDecodes(c: Crypto, chunk: Chunk, key: Key)
    requires c.Valid() && ChunkIntact(c, chunk, key)
    ensures DecodeChunk(c, chunk, key).Ok?
    ensures chunk.contentHash == c.sha256(DecodeChunk(c, chunk, key).value)
    ensures |chunk.contentHash| == 64 && IsAscii(chunk.contentHash)
  {
  }

  ghost predicate AllIntact(c: Crypto, chunks: seq<Chunk>, key: Key) {
    forall i :: 0 <= i < |chunks| ==> ChunkIntact(c, chunks[i], key)
  }

  /** Chunk hashes have one fixed length, so the chain preimage determines them all. */
  lemma {:induction false} ChainDetermines(c: Crypto, a: seq<Chunk>, ka: Key, b: seq<Chunk>, kb: Key)
    requires c.Valid() && AllIntact(c, a, ka) && AllIntact(c, b, kb)
    requires JoinHashes(a).Some? && JoinHashes(a) == JoinHashes(b)
    ensures |a| == |b| && forall i :: 0 <= i < |a| ==> a[i].contentHash == b[i].contentHash
  {
    if a != [] { IntactDecodes(c, a[0], ka); }
    if b != [] { IntactDecodes(c, b[0], kb); }
    if a != [] && b != [] {
      var x, y := Ascii(a[0].contentHash), Ascii(b[0].contentHash);
      var ra, rb := JoinHashes(a[1..]).value, JoinHashes(b[1..]).value;
      assert x == (x + ra)[..64] == (y + rb)[..64] == y;
      assert ra == (x + ra)[64..] == (y + rb)[64..] == rb;
      AsciiInjective(a[0].contentHash, b[0].contentHash);
      TailIntact(c, a, ka);
      TailIntact(c, b, kb);
      ChainDetermines(c, a[1..], ka, b[1..], kb);
      assert forall i :: 1 <= i < |a| ==> a[i] == a[1..][i - 1] && b[i] == b[1..][i - 1];
    }
  }

  lemma TailIntact(c: Crypto, a: seq<Chunk>, key: Key)
    requires a != [] && AllIntact(c, a, key)
    ensures AllIntact(c, a[1..], key)
  {
    assert forall i :: 0 <= i < |a[1..]| ==> a[1..][i] == a[i + 1];
  }

  lemma AsciiInjective(s: string, t: string)
    requires IsAscii(s) && IsAscii(t) && Ascii(s) == Ascii(t)
    ensures s == t
  {
    assert |s| == |Ascii(s)| == |t|;
    forall i | 0 <= i < |s|
      ensures s[i] == t[i]
    {
      assert Ascii(s)[i] as int == s[i] as int && Ascii(t)[i] as int == t[i] as int;
    }
  }

  /** A pair of hash inputs read off two chunk lists. */
  function ExtractCollision(c: Crypto, a: seq<Chunk>, ka: Key, b: seq<Chunk>, kb: Key): (Bytes, Bytes) {
    match (JoinHashes(a), JoinHashes(b))
    case (Some(x), Some(y)) =>
      if x != y then (x, y)
      else
        (match (DecodeEach(c, a, ka), DecodeEach(c, b, kb))
         case (Ok(p), Ok(q)) =>
           if |p| != |q| then ([], [])
           else (match FirstDifference(p, q) case Some(i) => (p[i], q[i]) case None => ([], []))
         case _ => ([], []))
    case _ => ([], [])
  }

  /**
   Content addressing binds: two records that verify, under any keys and bases, and share a
   content hash decode to the same bytes, unless `ExtractCollision` hands over a collision.
   */
  lemma ContentBinds(c: Crypto, s: Record, ks: Key, ps: Option<Record>, ds: Option<Bytes>,
                     t: Record, kt: Key, pt: Option<Record>, dt: Option<Bytes>)
    requires c.Valid() && s.contentHash == t.contentHash
    requires VerifyIntegrity(c, s, ks, ps, ds) == Intact
    requires VerifyIntegrity(c, t, kt, pt, dt) == Intact
    ensures DecodeChunks(c, s.chunks, ks).Ok?
    ensures || DecodeChunks(c, s.chunks, ks) == DecodeChunks(c, t.chunks, kt)
            || var (x, y) := ExtractCollision(c, s.chunks, ks, t.chunks, kt); c.Collision(x, y)
  {
    IntactExactly(c, s, ks, ps, ds);
    IntactExactly(c, t, kt, pt, dt);
    assert AllIntact(c, s.chunks, ks) && AllIntact(c, t.chunks, kt);
    var x, y := JoinHashes(s.chunks).value, JoinHashes(t.chunks).value;
    if x == y {
      ChainDetermines(c, s.chunks, ks, t.chunks, kt);
      var p, q := DecodeEach(c, s.chunks, ks).value, DecodeEach(c, t.chunks, kt).value;
      match FirstDifference(p, q)
      case None =>
      case Some(i) =>
        IntactDecodes(c, s.chunks[i], ks);
        IntactDecodes(c, t.chunks[i], kt);
        assert c.Collision(p[i], q[i]);
    }
  }
}
