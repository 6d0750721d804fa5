/**
 Capturing and reconstructing snapshots through their lineage.
 */
module SnapshotService {
  import opened Prelude
  import opened SnapshotTypes
  import opened SnapshotRecords
  import opened Lineage
  import opened SnapshotRepository
  import Retention
  import RetentionLaws

  datatype ServiceError =
    | SnapshotFailed(error: SnapshotError)
    | RepositoryFailed(cause: RepositoryError)
    | NotFound | NoLineage | NoFullBase | VerificationFailed

  type Progress = Result<Option<Bytes>, ServiceError>

  function Lifted(r: Result<Bytes, SnapshotError>): Progress {
    match r case Ok(x) => Ok(Some(x)) case Err(e) => Err(SnapshotFailed(e))
  }

  /** One round of `_reconstruct_lineage`. */
  function ReplayStep(c: Crypto, previous: Option<Bytes>, s: Record, key: Key): Progress {
    if s.snapshotType == Full then Lifted(DecodeChunks(c, s.chunks, key))
    else if previous.None? then Err(NoFullBase)
    else Lifted(DecodeAndApply(c, s, key, previous.value))
  }

  function Replay(c: Crypto, chain: seq<Record>, key: Key): Progress {
    if chain == [] then Ok(None)
    else match Replay(c, chain[..|chain| - 1], key)
      case Err(e) => Err(e)
      case Ok(previous) => ReplayStep(c, previous, chain[|chain| - 1], key)
  }

  /** One round of `_verify_lineage`: the replayed data is what the next record is checked on. */
  function VerifyStep(c: Crypto, rootId: string, previous: Option<Bytes>, s: Record, key: Key): Progress {
    if s.snapshotType == Full then
      if VerifyIntegrity(c, s, key, None, None) != Intact then Err(VerificationFailed)
      else Lifted(DecodeChunks(c, s.chunks, key))
    else if previous.None? || s.base != Some(rootId) then Err(VerificationFailed)
    else if VerifyIntegrity(c, s, key, None, previous) != Intact then Err(VerificationFailed)
    else Lifted(DecodeAndApply(c, s, key, previous.value))
  }

  function VerifyChain(c: Crypto, rootId: string, chain: seq<Record>, key: Key): Progress {
    if chain == [] then Ok(None)
    else match VerifyChain(c, rootId, chain[..|chain| - 1], key)
      case Err(e) => Err(e)
      case Ok(previous) => VerifyStep(c, rootId, previous, chain[|chain| - 1], key)
  }

  lemma ReplaySnoc(c: Crypto, front: seq<Record>, s: Record, key: Key)
    ensures Replay(c, front + [s], key) ==
            if Replay(c, front, key).Err? then Replay(c, front, key) else ReplayStep(c, Replay(c, front, key).value, s, key)
  {
    assert (front + [s])[..|front|] == front;
  }

  lemma VerifySnoc(c: Crypto, rootId: string, front: seq<Record>, s: Record, key: Key)
    ensures VerifyChain(c, rootId, front + [s], key) ==
            if VerifyChain(c, rootId, front, key).Err? then VerifyChain(c, rootId, front, key)
            else VerifyStep(c, rootId, VerifyChain(c, rootId, front, key).value, s, key)
  {
    assert (front + [s])[..|front|] == front;
  }

  /** The loop of `_reconstruct_lineage`. */
  method ReplayAll(c: Crypto, chain: seq<Record>, key: Key) returns (progress: Progress)
    ensures progress == Replay(c, chain, key)
  {
    progress := Ok(None);
    for k := 0 to |chain|
      invariant progress == Replay(c, chain[..k], key)
    {
      ReplaySnoc(c, chain[..k], chain[k], key);
      assert chain[..k + 1] == chain[..k] + [chain[k]];
      if progress.Ok? {
        progress := ReplayStep(c, progress.value, chain[k], key);
      }
    }
    assert chain[..|chain|] == chain;
  }

  /** The loop of `_verify_lineage`. */
  method VerifyAll(c: Crypto, chain: seq<Record>, key: Key) returns (progress: Progress)
    requires chain != []
    ensures progress == VerifyChain(c, chain[0].snapshotId, chain, key)
  {
    progress := Ok(None);
    for k := 0 to |chain|
      invariant progress == VerifyChain(c, chain[0].snapshotId, chain[..k], key)
    {
      VerifySnoc(c, chain[0].snapshotId, chain[..k], chain[k], key);
      assert chain[..k + 1] == chain[..k] + [chain[k]];
      if progress.Ok? {
        progress := VerifyStep(c, chain[0].snapshotId, progress.value, chain[k], key);
      }
    }
    assert chain[..|chain|] == chain;
  }

  lemma {:induction false} VerifiedReplays(c: Crypto, rootId: string, chain: seq<Record>, key: Key)
    requires VerifyChain(c, rootId, chain, key).Ok?
    ensures Replay(c, chain, key) == VerifyChain(c, rootId, chain, key)
  {
    if chain != [] {
      VerifiedReplays(c, rootId, chain[..|chain| - 1], key);
    }
  }

  // ----------------------------------------------------- lineages, link by link

  /** `states[i]` is what the lineage yields up to record `i`: a full snapshot its own data, an incremental its delta
      applied to the state before. */
  ghost predicate YieldsAt(c: Crypto, chain: seq<Record>, key: Key, states: seq<Bytes>, i: nat)
    requires i < |chain| && |states| == |chain|
  {
    if chain[i].snapshotType == Full then DecodeChunks(c, chain[i].chunks, key) == Ok(states[i])
    else i > 0 && exists d :: DecodeChunks(c, chain[i].chunks, key) == Ok(d) && Delta.ApplyDelta(states[i - 1], d) == Ok(states[i])
  }

  /** Record `i` passes verification on the state before, and an incremental names the root of the lineage. */
  ghost predicate PassesAt(c: Crypto, rootId: string, chain: seq<Record>, key: Key, states: seq<Bytes>, i: nat)
    requires i < |chain| && |states| == |chain|
  {
    if chain[i].snapshotType == Full then VerifyIntegrity(c, chain[i], key, None, None) == Intact
    else i > 0 && chain[i].base == Some(rootId) && VerifyIntegrity(c, chain[i], key, None, Some(states[i - 1])) == Intact
  }

  /** The successive states of a lineage, each verified if `rootId` is given. */
  ghost predicate AreStates(c: Crypto, chain: seq<Record>, key: Key, states: seq<Bytes>, rootId: Option<string>) {
    |states| == |chain| && forall i: nat :: i < |chain| ==> FitsAt(c, chain, key, states, rootId, i)
  }

  ghost predicate FitsAt(c: Crypto, chain: seq<Record>, key: Key, states: seq<Bytes>, rootId: Option<string>, i: nat)
    requires i < |chain| && |states| == |chain|
  {
    YieldsAt(c, chain, key, states, i) && (rootId.Some? ==> PassesAt(c, rootId.value, chain, key, states, i))
  }

  /** The replayed or verified progress over a lineage, as one function of whether a root is given. */
  function Progressed(c: Crypto, chain: seq<Record>, key: Key, rootId: Option<string>): Progress {
    if rootId.Some? then VerifyChain(c, rootId.value, chain, key) else Replay(c, chain, key)
  }

  ghost predicate LastState(states: seq<Bytes>, r: Progress) {
    r == Ok(if states == [] then None else Some(states[|states| - 1]))
  }

  lemma StatesFront(c: Crypto, chain: seq<Record>, key: Key, states: seq<Bytes>, rootId: Option<string>)
    requires chain != [] && |states| == |chain|
    ensures var n := |chain| - 1;
            AreStates(c, chain, key, states, rootId) <==>
              AreStates(c, chain[..n], key, states[..n], rootId) && FitsAt(c, chain, key, states, rootId, n)
  {
    var n := |chain| - 1;
    forall i: nat | i < n
      ensures FitsAt(c, chain[..n], key, states[..n], rootId, i) <==> FitsAt(c, chain, key, states, rootId, i)
    {
      FitsInFront(c, chain, key, states, rootId, i);
    }
    if AreStates(c, chain[..n], key, states[..n], rootId) && FitsAt(c, chain, key, states, rootId, n) {
      forall i: nat | i < |chain|
        ensures FitsAt(c, chain, key, states, rootId, i)
      {
        assert i < n ==> FitsAt(c, chain[..n], key, states[..n], rootId, i);
      }
    }
  }

  lemma FitsInFront(c: Crypto, chain: seq<Record>, key: Key, states: seq<Bytes>, rootId: Option<string>, i: nat)
    requires |states| == |chain| && i < |chain| - 1
    ensures FitsAt(c, chain[..|chain| - 1], key, states[..|chain| - 1], rootId, i) <==> FitsAt(c, chain, key, states, rootId, i)
  {
    var n := |chain| - 1;
    assert chain[..n][i] == chain[i] && states[..n][i] == states[i] && (i > 0 ==> states[..n][i - 1] == states[i - 1]);
  }

  lemma StepYields(c: Crypto, chain: seq<Record>, key: Key, states: seq<Bytes>, rootId: Option<string>)
    requires chain != [] && |states| == |chain|
    ensures var n := |chain| - 1;
            var previous := if n == 0 then None else Some(states[n - 1]);
            var step := if rootId.Some? then VerifyStep(c, rootId.value, previous, chain[n], key) else ReplayStep(c, previous, chain[n], key);
            step == Ok(Some(states[n])) <==> FitsAt(c, chain, key, states, rootId, n)
  {
  }

  lemma ProgressNext(c: Crypto, chain: seq<Record>, key: Key, rootId: Option<string>)
    requires chain != []
    ensures var n := |chain| - 1;
            var before := Progressed(c, chain[..n], key, rootId);
            Progressed(c, chain, key, rootId) ==
              if before.Err? then before
              else if rootId.Some? then VerifyStep(c, rootId.value, before.value, chain[n], key)
              else ReplayStep(c, before.value, chain[n], key)
  {
  }

  lemma ProgressStep(c: Crypto, chain: seq<Record>, key: Key, states: seq<Bytes>, rootId: Option<string>)
    requires chain != [] && |states| == |chain|
    requires LastState(states[..|chain| - 1], Progressed(c, chain[..|chain| - 1], key, rootId))
    ensures LastState(states, Progressed(c, chain, key, rootId)) <==> FitsAt(c, chain, key, states, rootId, |chain| - 1)
  {
    ProgressNext(c, chain, key, rootId);
    StepYields(c, chain, key, states, rootId);
  }

  /** States that fit make the progress: one direction. */
  lemma {:induction false} StatesProgress(c: Crypto, chain: seq<Record>, key: Key, states: seq<Bytes>, rootId: Option<string>)
    requires AreStates(c, chain, key, states, rootId)
    ensures LastState(states, Progressed(c, chain, key, rootId))
  {
    if chain != [] {
      var n := |chain| - 1;
      StatesFront(c, chain, key, states, rootId);
      StatesProgress(c, chain[..n], key, states[..n], rootId);
      ProgressStep(c, chain, key, states, rootId);
    }
  }

  lemma ProgressIsSome(c: Crypto, chain: seq<Record>, key: Key, rootId: Option<string>)
    requires chain != [] && Progressed(c, chain, key, rootId).Ok?
    ensures Progressed(c, chain[..|chain| - 1], key, rootId).Ok? && Progressed(c, chain, key, rootId).value.Some?
  {
    ProgressNext(c, chain, key, rootId);
  }

  /** Progress has states that fit: the other direction. */
  lemma {:induction false} ProgressStates(c: Crypto, chain: seq<Record>, key: Key, rootId: Option<string>) returns (states: seq<Bytes>)
    requires Progressed(c, chain, key, rootId).Ok?
    ensures AreStates(c, chain, key, states, rootId) && LastState(states, Progressed(c, chain, key, rootId))
  {
    states := [];
    if chain != [] {
      var n := |chain| - 1;
      ProgressIsSome(c, chain, key, rootId);
      var past := ProgressStates(c, chain[..n], key, rootId);
      states := past + [Progressed(c, chain, key, rootId).value.value];
      assert states[..n] == past;
      ProgressStep(c, chain, key, states, rootId);
      StatesFront(c, chain, key, states, rootId);
    }
  }

  /** A lineage replays to `data` if and only if there are states, link by link, that end in it. */
  lemma ReplaysExactly(c: Crypto, chain: seq<Record>, key: Key, data: Bytes)
    requires chain != []
    ensures Replay(c, chain, key) == Ok(Some(data)) <==>
            exists states :: AreStates(c, chain, key, states, None) && states[|states| - 1] == data
  {
    if Replay(c, chain, key).Ok? {
      var states := ProgressStates(c, chain, key, None);
    }
    forall states | AreStates(c, chain, key, states, None)
      ensures LastState(states, Replay(c, chain, key))
    {
      StatesProgress(c, chain, key, states, None);
    }
  }

  /** A lineage verifies to `data` if and only if, besides, every record passes on the state before it and every
      incremental names the root. */
  lemma VerifiesExactly(c: Crypto, rootId: string, chain: seq<Record>, key: Key, data: Bytes)
    requires chain != []
    ensures VerifyChain(c, rootId, chain, key) == Ok(Some(data)) <==>
            exists states :: AreStates(c, chain, key, states, Some(rootId)) && states[|states| - 1] == data
  {
    if VerifyChain(c, rootId, chain, key).Ok? {
      var states := ProgressStates(c, chain, key, Some(rootId));
    }
    forall states | AreStates(c, chain, key, states, Some(rootId))
      ensures LastState(states, VerifyChain(c, rootId, chain, key))
    {
      StatesProgress(c, chain, key, states, Some(rootId));
    }
  }

  // ------------------------------------------------------------ recoverability

  /** A full snapshot followed by incrementals, each recording its position and the root, that
      verifies link by link and replays to `data`. */
  ghost predicate SoundChain(c: Crypto, chain: seq<Record>, key: Key, data: Bytes) {
    && chain != []
    && chain[0].parent == None && chain[0].base == None && chain[0].snapshotType == Full
    && (forall i :: 0 <= i < |chain| ==> chain[i].lineageDepth == i)
    && (forall i :: 1 <= i < |chain| ==> chain[i].snapshotType == Incremental && chain[i].base == Some(chain[0].snapshotId))
    && VerifyChain(c, chain[0].snapshotId, chain, key) == Ok(Some(data))
  }

  /** The stored lineage of `id` is complete and yields `data`. */
  ghost predicate Recoverable(c: Crypto, store: Store, id: string, key: Key, data: Bytes) {
    exists chain :: IsLineage(store, id, chain) && SoundChain(c, chain, key, data)
  }

  lemma RecoverableFunctional(c: Crypto, store: Store, id: string, key: Key, data: Bytes, data': Bytes)
    ensures Recoverable(c, store, id, key, data) && Recoverable(c, store, id, key, data') ==> data == data'
  {
    if Recoverable(c, store, id, key, data) && Recoverable(c, store, id, key, data') {
      var a: seq<Record> :| IsLineage(store, id, a) && SoundChain(c, a, key, data);
      var b: seq<Record> :| IsLineage(store, id, b) && SoundChain(c, b, key, data');
      LineageUnique(store, id, a, b);
    }
  }

  /** A lineage with a parentless root only depends on its own members. */
  lemma LineageTransfers(store: Store, store': Store, id: string, chain: seq<Record>)
    requires IsLineage(store, id, chain) && chain[0].parent == None
    requires forall i :: 0 <= i < |chain| ==> Stored(store', chain[i])
    ensures IsLineage(store', id, chain)
  {
  }

  lemma RecoverableGrows(c: Crypto, store: Store, s: Record, id: string, key: Key, data: Bytes)
    requires s.snapshotId !in store && Recoverable(c, store, id, key, data)
    ensures Recoverable(c, store[s.snapshotId := s], id, key, data)
  {
    var chain: seq<Record> :| IsLineage(store, id, chain) && SoundChain(c, chain, key, data);
    assert forall i :: 0 <= i < |chain| ==> Stored(store, chain[i]);
    LineageTransfers(store, store[s.snapshotId := s], id, chain);
  }

  /** A record that is a sound chain on its own is recoverable from any store it is saved into. */
  lemma FreshRecoverable(c: Crypto, store: Store, s: Record, key: Key, data: Bytes)
    requires SoundChain(c, [s], key, data)
    ensures Recoverable(c, store[s.snapshotId := s], s.snapshotId, key, data)
  {
    var store' := store[s.snapshotId := s];
    assert Stored(store', s);
    assert IsLineage(store', s.snapshotId, [s]);
  }

  lemma FullSound(c: Crypto, s: Record, tenant: string, data: Bytes, key: Key, marked: Record)
    requires c.Valid() && IsFullOf(c, s, tenant, data, key)
    requires marked == s || MarkVerified(c, s, key, None, None) == Ok(marked)
    ensures SoundChain(c, [marked], key, data)
  {
    FreshFullIntact(c, s, tenant, data, key, None, None);
    MarkVerifiedStable(c, s, key, None, None);
    var chain := [marked];
    assert chain[..0] == [];
    assert VerifyChain(c, marked.snapshotId, [], key) == Ok(None);
    assert VerifyStep(c, marked.snapshotId, None, marked, key) == Ok(Some(data));
    assert VerifyChain(c, marked.snapshotId, chain, key) == Ok(Some(data));
  }

  lemma IncrementalRecoverable(c: Crypto, store: Store, parent: Record, baseData: Bytes, s: Record, data: Bytes, key: Key,
                               marked: Record)
    requires c.Valid() && ValidStore(store) && Stored(store, parent)
    requires Recoverable(c, store, parent.snapshotId, key, baseData)
    requires IsIncrementalOf(c, s, parent, baseData, data, key) && s.snapshotId !in store
    requires marked == s || MarkVerified(c, s, key, None, Some(baseData)) == Ok(marked)
    ensures Recoverable(c, store[marked.snapshotId := marked], marked.snapshotId, key, data)
  {
    var chain: seq<Record> :| IsLineage(store, parent.snapshotId, chain) && SoundChain(c, chain, key, baseData);
    ExtendRecovery(c, store, parent, baseData, s, data, key, marked, chain);
  }

  lemma ExtendRecovery(c: Crypto, store: Store, parent: Record, baseData: Bytes, s: Record, data: Bytes, key: Key,
                       marked: Record, chain: seq<Record>)
    requires c.Valid() && ValidStore(store) && Stored(store, parent) && IsLineage(store, parent.snapshotId, chain)
    requires SoundChain(c, chain, key, baseData) && IsIncrementalOf(c, s, parent, baseData, data, key) && s.snapshotId !in store
    requires marked == s || MarkVerified(c, s, key, None, Some(baseData)) == Ok(marked)
    ensures var longer := chain + [marked];
            IsLineage(store[marked.snapshotId := marked], marked.snapshotId, longer) && SoundChain(c, longer, key, data)
  {
    assert Stored(store, chain[|chain| - 1]) && Stored(store, chain[0]);
    ExtendLineage(store, parent, chain, marked);
    ExtendByIncremental(c, chain, baseData, s, data, key, marked);
  }

  lemma ExtendByIncremental(c: Crypto, chain: seq<Record>, baseData: Bytes, s: Record, data: Bytes, key: Key, marked: Record)
    requires c.Valid() && SoundChain(c, chain, key, baseData) && chain[0].snapshotId != ""
    requires IsIncrementalOf(c, s, chain[|chain| - 1], baseData, data, key)
    requires marked == s || MarkVerified(c, s, key, None, Some(baseData)) == Ok(marked)
    ensures SoundChain(c, chain + [marked], key, data)
  {
    IncrementalStep(c, chain[|chain| - 1], baseData, s, data, key, marked, chain[0].snapshotId);
    ExtendSound(c, chain, marked, key, baseData, data);
  }

  lemma IncrementalStep(c: Crypto, parent: Record, baseData: Bytes, s: Record, data: Bytes, key: Key, marked: Record,
                        rootId: string)
    requires c.Valid() && IsIncrementalOf(c, s, parent, baseData, data, key) && parent.lineageDepth >= 0
    requires marked == s || MarkVerified(c, s, key, None, Some(baseData)) == Ok(marked)
    requires BaseIdFor(parent) == rootId
    ensures VerifyStep(c, rootId, Some(baseData), marked, key) == Ok(Some(data))
  {
    MarkedIntact(c, parent, baseData, s, data, key, marked);
    MarkedApplies(c, parent, baseData, s, data, key, marked);
    StepPasses(c, rootId, baseData, marked, data, key);
  }

  lemma MarkedIntact(c: Crypto, parent: Record, baseData: Bytes, s: Record, data: Bytes, key: Key, marked: Record)
    requires c.Valid() && IsIncrementalOf(c, s, parent, baseData, data, key) && parent.lineageDepth >= 0
    requires marked == s || MarkVerified(c, s, key, None, Some(baseData)) == Ok(marked)
    ensures VerifyIntegrity(c, marked, key, None, Some(baseData)) == Intact
  {
    FreshIncrementalIntact(c, s, parent, baseData, data, key);
    MarkVerifiedStable(c, s, key, None, Some(baseData));
  }

  lemma MarkedApplies(c: Crypto, parent: Record, baseData: Bytes, s: Record, data: Bytes, key: Key, marked: Record)
    requires IsIncrementalOf(c, s, parent, baseData, data, key)
    requires marked == s || MarkVerified(c, s, key, None, Some(baseData)) == Ok(marked)
    ensures DecodeAndApply(c, marked, key, baseData) == Ok(data)
    ensures marked.snapshotType == Incremental && marked.base == Some(BaseIdFor(parent))
  {
    IncrementalApplies(c, s, parent, baseData, data, key);
  }

  lemma StepPasses(c: Crypto, rootId: string, baseData: Bytes, s: Record, data: Bytes, key: Key)
    requires s.snapshotType == Incremental && s.base == Some(rootId)
    requires VerifyIntegrity(c, s, key, None, Some(baseData)) == Intact && DecodeAndApply(c, s, key, baseData) == Ok(data)
    ensures VerifyStep(c, rootId, Some(baseData), s, key) == Ok(Some(data))
  {
  }

  lemma ExtendSound(c: Crypto, chain: seq<Record>, s: Record, key: Key, baseData: Bytes, data: Bytes)
    requires SoundChain(c, chain, key, baseData)
    requires s.lineageDepth == |chain| && s.snapshotType == Incremental && s.base == Some(chain[0].snapshotId)
    requires VerifyStep(c, chain[0].snapshotId, Some(baseData), s, key) == Ok(Some(data))
    ensures SoundChain(c, chain + [s], key, data)
  {
    var longer := chain + [s];
    assert longer[..|chain|] == chain;
    assert VerifyChain(c, chain[0].snapshotId, longer, key) == Ok(Some(data));
  }

  lemma ExtendLineage(store: Store, parent: Record, chain: seq<Record>, s: Record)
    requires IsLineage(store, parent.snapshotId, chain) && chain[0].parent == None
    requires s.snapshotId !in store && s.parent == Some(parent.snapshotId)
    ensures IsLineage(store[s.snapshotId := s], s.snapshotId, chain + [s])
  {
    var store', longer := store[s.snapshotId := s], chain + [s];
    forall i | 0 <= i < |longer|
      ensures Stored(store', longer[i])
    {
      assert i < |chain| ==> Stored(store, chain[i]);
    }
  }

  /** The record at position `i` captures the state at that position, on top of the one before. */
  ghost predicate CapturedAt(c: Crypto, records: seq<Record>, states: seq<Bytes>, tenant: string, key: Key, i: nat)
    requires |records| == |states| && i < |records|
  {
    if i == 0 then IsFullOf(c, records[0], tenant, states[0], key)
    else IsIncrementalOf(c, records[i], records[i - 1], states[i - 1], states[i], key)
  }

  /** One full snapshot, then incrementals each built on the previous state. */
  ghost predicate Captured(c: Crypto, records: seq<Record>, states: seq<Bytes>, tenant: string, key: Key) {
    |records| == |states| > 0 && forall i: nat :: i < |records| ==> CapturedAt(c, records, states, tenant, key, i)
  }

  /** Chain replay: stored together, the captures are the lineage of the last one, verify link by link
      and replay to the last state. */
  lemma ChainReplay(c: Crypto, store: Store, records: seq<Record>, states: seq<Bytes>, tenant: string, key: Key)
    requires c.Valid() && ValidStore(store) && Captured(c, records, states, tenant, key)
    requires forall i :: 0 <= i < |records| ==> Stored(store, records[i])
    ensures IsLineage(store, records[|records| - 1].snapshotId, records)
    ensures SoundChain(c, records, key, states[|states| - 1])
  {
    assert Stored(store, records[0]) && !IsBlank(records[0].snapshotId);
    CapturedLinked(c, records, states, tenant, key);
    LinkedLineage(store, records);
    CapturedVerifies(c, records, states, tenant, key, |records|);
    assert records[..|records|] == records;
    LinkedSound(c, records, key, states[|states| - 1]);
  }

  /** Each record names the one before it as its parent, and carries its position and the root. */
  ghost predicate Linked(records: seq<Record>) {
    records != [] && forall i: nat :: i < |records| ==> LinkedAt(records, i)
  }

  ghost predicate LinkedAt(records: seq<Record>, i: nat)
    requires i < |records|
  {
    records[i].parent == (if i == 0 then None else Some(records[i - 1].snapshotId)) && Shaped(records, i)
  }

  lemma CapturedLinked(c: Crypto, records: seq<Record>, states: seq<Bytes>, tenant: string, key: Key)
    requires Captured(c, records, states, tenant, key) && records[0].snapshotId != ""
    ensures Linked(records)
  {
    forall i: nat | i < |records|
      ensures LinkedAt(records, i)
    {
      CapturedShape(c, records, states, tenant, key, i);
    }
  }

  lemma LinkedLineage(store: Store, records: seq<Record>)
    requires Linked(records) && forall i :: 0 <= i < |records| ==> Stored(store, records[i])
    ensures IsLineage(store, records[|records| - 1].snapshotId, records)
  {
    forall i | 1 <= i < |records|
      ensures records[i].parent == Some(records[i - 1].snapshotId)
    {
      assert LinkedAt(records, i);
    }
    assert LinkedAt(records, 0);
  }

  lemma LinkedSound(c: Crypto, records: seq<Record>, key: Key, data: Bytes)
    requires Linked(records) && VerifyChain(c, records[0].snapshotId, records, key) == Ok(Some(data))
    ensures SoundChain(c, records, key, data)
  {
    LinkedShape(records);
  }

  lemma LinkedShape(records: seq<Record>)
    requires Linked(records)
    ensures records[0].parent == None && records[0].base == None && records[0].snapshotType == Full
    ensures forall i :: 0 <= i < |records| ==> records[i].lineageDepth == i
    ensures forall i :: 1 <= i < |records| ==>
              records[i].snapshotType == Incremental && records[i].base == Some(records[0].snapshotId)
  {
    forall i | 0 <= i < |records|
      ensures records[i].lineageDepth == i
      ensures i >= 1 ==> records[i].snapshotType == Incremental && records[i].base == Some(records[0].snapshotId)
    {
      assert LinkedAt(records, i);
    }
    assert LinkedAt(records, 0);
  }

  /** The type, root and depth that a record of a chain carries at position `i`. */
  ghost predicate Shaped(records: seq<Record>, i: nat)
    requires i < |records|
  {
    && records[i].lineageDepth == i
    && (if i == 0 then records[i].snapshotType == Full && records[i].base == None
        else records[i].snapshotType == Incremental && records[i].base == Some(records[0].snapshotId))
  }

  lemma {:induction false} CapturedShape(c: Crypto, records: seq<Record>, states: seq<Bytes>, tenant: string, key: Key, i: nat)
    requires Captured(c, records, states, tenant, key) && i < |records| && records[0].snapshotId != ""
    ensures LinkedAt(records, i)
  {
    assert CapturedAt(c, records, states, tenant, key, i);
    if i > 0 {
      CapturedShape(c, records, states, tenant, key, i - 1);
    }
  }

  lemma {:induction false} CapturedVerifies(c: Crypto, records: seq<Record>, states: seq<Bytes>, tenant: string, key: Key, k: nat)
    requires c.Valid() && Captured(c, records, states, tenant, key) && records[0].snapshotId != "" && 1 <= k <= |records|
    ensures VerifyChain(c, records[0].snapshotId, records[..k], key) == Ok(Some(states[k - 1]))
  {
    var rootId, i := records[0].snapshotId, k - 1;
    VerifySnoc(c, rootId, records[..i], records[i], key);
    assert records[..k] == records[..i] + [records[i]];
    CapturedStep(c, records, states, tenant, key, i);
    if k > 1 {
      CapturedVerifies(c, records, states, tenant, key, i);
    }
  }

  lemma CapturedStep(c: Crypto, records: seq<Record>, states: seq<Bytes>, tenant: string, key: Key, i: nat)
    requires c.Valid() && Captured(c, records, states, tenant, key) && records[0].snapshotId != "" && i < |records|
    ensures VerifyStep(c, records[0].snapshotId, if i == 0 then None else Some(states[i - 1]), records[i], key)
         == Ok(Some(states[i]))
  {
    assert CapturedAt(c, records, states, tenant, key, i);
    if i == 0 {
      FullStep(c, records[0], tenant, states[0], key);
    } else {
      CapturedShape(c, records, states, tenant, key, i - 1);
      IncrementalStep(c, records[i - 1], states[i - 1], records[i], states[i], key, records[i], records[0].snapshotId);
    }
  }

  lemma FullStep(c: Crypto, s: Record, tenant: string, data: Bytes, key: Key)
    requires IsFullOf(c, s, tenant, data, key)
    ensures VerifyStep(c, s.snapshotId, None, s, key) == Ok(Some(data))
  {
    FreshFullIntact(c, s, tenant, data, key, None, None);
  }

  // ----------------------------------------------------- what sweeps preserve

  /** What is left of a lineage after deletions is a suffix of it. */
  lemma {:induction false} SuffixAgrees(store: Store, dead: set<string>, id: string, chain: seq<Record>, left: seq<Record>, k: nat)
    requires IsLineage(store, id, chain) && IsLineage(store - dead, id, left) && k < |left|
    ensures k < |chain| && left[|left| - 1 - k] == chain[|chain| - 1 - k]
  {
    var s := left[|left| - 1 - k];
    assert Stored(store - dead, s) && Stored(store, s);
    if k == 0 {
      assert Stored(store, chain[|chain| - 1]);
    } else {
      SuffixAgrees(store, dead, id, chain, left, k - 1);
      var child := left[|left| - k];
      assert child == chain[|chain| - k] && child.parent == Some(s.snapshotId);
      assert StoredParent(store, child) == Some(s.snapshotId);
      assert Stored(store, chain[|chain| - 1 - k]);
    }
  }

  /** A lineage that starts with an incremental does not replay. */
  lemma {:induction false} ReplayNeedsFull(c: Crypto, chain: seq<Record>, key: Key)
    requires chain != [] && chain[0].snapshotType == Incremental
    ensures Replay(c, chain, key).Err?
  {
    var n := |chain| - 1;
    if n == 0 {
      assert chain[..0] == [];
    } else {
      ReplayNeedsFull(c, chain[..n], key);
    }
  }

  ghost predicate Spared(chain: seq<Record>, dead: set<string>) {
    forall i :: 0 <= i < |chain| ==> chain[i].snapshotId !in dead
  }

  lemma BrokenLineage(c: Crypto, store: Store, dead: set<string>, id: string, key: Key, data: Bytes, chain: seq<Record>,
                      left: seq<Record>)
    requires IsLineage(store, id, chain) && SoundChain(c, chain, key, data) && IsLineage(store - dead, id, left)
    requires !Spared(chain, dead)
    ensures left[0].snapshotType == Incremental
  {
    SuffixAgrees(store, dead, id, chain, left, |left| - 1);
    if |left| == |chain| {
      WholeIsSpared(store, dead, id, chain, left);
    }
  }

  lemma WholeIsSpared(store: Store, dead: set<string>, id: string, chain: seq<Record>, left: seq<Record>)
    requires IsLineage(store, id, chain) && IsLineage(store - dead, id, left) && |left| == |chain|
    ensures Spared(chain, dead)
  {
    forall i | 0 <= i < |chain|
      ensures chain[i].snapshotId !in dead
    {
      SuffixAgrees(store, dead, id, chain, left, |left| - 1 - i);
      assert Stored(store - dead, left[i]);
    }
  }

  /** Deleting snapshots leaves a recoverable snapshot recoverable exactly when it spares its lineage; if any
      member of the lineage is deleted, nothing at all is replayed for it any more. */
  lemma RecoverableAfterDelete(c: Crypto, store: Store, dead: set<string>, id: string, key: Key, data: Bytes, chain: seq<Record>)
    requires IsLineage(store, id, chain) && SoundChain(c, chain, key, data)
    ensures Spared(chain, dead) ==> Recoverable(c, store - dead, id, key, data)
    ensures !Spared(chain, dead) ==> forall x :: !Recoverable(c, store - dead, id, key, x) && !Replayed(c, store - dead, id, key, x)
  {
    assert forall i :: 0 <= i < |chain| ==> Stored(store, chain[i]);
    if Spared(chain, dead) {
      LineageTransfers(store, store - dead, id, chain);
    } else {
      forall x
        ensures !Recoverable(c, store - dead, id, key, x) && !Replayed(c, store - dead, id, key, x)
      {
        NothingIsLeft(c, store, dead, id, key, data, chain, x);
      }
    }
  }

  lemma NothingIsLeft(c: Crypto, store: Store, dead: set<string>, id: string, key: Key, data: Bytes, chain: seq<Record>, x: Bytes)
    requires IsLineage(store, id, chain) && SoundChain(c, chain, key, data) && !Spared(chain, dead)
    ensures !Recoverable(c, store - dead, id, key, x) && !Replayed(c, store - dead, id, key, x)
  {
    if Recoverable(c, store - dead, id, key, x) {
      var left: seq<Record> :| IsLineage(store - dead, id, left) && SoundChain(c, left, key, x);
      BrokenLineage(c, store, dead, id, key, data, chain, left);
    }
    if Replayed(c, store - dead, id, key, x) {
      var left: seq<Record> :| IsOutcome(store - dead, id, Ok(left)) && Replay(c, left, key) == Ok(Some(x));
      BrokenLineage(c, store, dead, id, key, data, chain, left);
      ReplayNeedsFull(c, left, key);
    }
  }

  /** What a sweep as written costs a caller: a recoverable snapshot yields the same data afterwards exactly when
      no member of its lineage is swept, and otherwise no reconstruction of it succeeds, even if it survives. */
  lemma SweepKeepsExactly(c: Crypto, store: Store, now: real, id: string, key: Key, data: Bytes, chain: seq<Record>)
    requires ValidStore(store) && IsLineage(store, id, chain) && SoundChain(c, chain, key, data)
    ensures var swept := Retention.SweptIds(store.Values, now);
            if Spared(chain, swept) then Recoverable(c, Swept(store, now), id, key, data)
            else forall x :: !Replayed(c, Swept(store, now), id, key, x) && !VerifiedLineage(c, Swept(store, now), id, key, x)
  {
    var swept := Retention.SweptIds(store.Values, now);
    SweptAreStored(store, now);
    RecoverableAfterDelete(c, store, swept, id, key, data, chain);
    forall x
      ensures VerifiedLineage(c, store - swept, id, key, x) ==> Replayed(c, store - swept, id, key, x)
    {
      RecoverableVerifies(c, store - swept, id, key, x);
    }
  }

  /** If a sweep leaves an ancestor-closed store, every surviving recoverable snapshot still
      yields the same data. */
  lemma SweepPreservesRecovery(c: Crypto, store: Store, now: real, id: string, key: Key, data: Bytes)
    requires ValidStore(store) && Recoverable(c, store, id, key, data)
    requires RetentionLaws.AncestorClosed(store.Values, Retention.Ids(store.Values) - Retention.SweptIds(store.Values, now))
    requires id in Swept(store, now)
    ensures Recoverable(c, Swept(store, now), id, key, data)
  {
    var chain: seq<Record> :| IsLineage(store, id, chain) && SoundChain(c, chain, key, data);
    var dead := Retention.SweptIds(store.Values, now);
    SweptAreStored(store, now);
    SparedLineage(store, now, id, chain, |chain|);
    assert Spared(chain, dead);
    RecoverableAfterDelete(c, store, dead, id, key, data, chain);
  }

  lemma {:induction false} SparedLineage(store: Store, now: real, id: string, chain: seq<Record>, k: nat)
    requires ValidStore(store) && IsLineage(store, id, chain) && k <= |chain|
    requires RetentionLaws.AncestorClosed(store.Values, Retention.Ids(store.Values) - Retention.SweptIds(store.Values, now))
    requires id !in Retention.SweptIds(store.Values, now)
    ensures forall i :: |chain| - k <= i < |chain| ==> chain[i].snapshotId !in Retention.SweptIds(store.Values, now)
  {
    if k > 1 {
      SparedLineage(store, now, id, chain, k - 1);
      var i := |chain| - k;
      var child := chain[i + 1];
      assert Stored(store, child) && Stored(store, chain[i]);
      assert child in store.Values && chain[i] in store.Values;
      assert child.parent == Some(chain[i].snapshotId);
      assert child.snapshotId in Retention.Ids(store.Values) && chain[i].snapshotId in Retention.Ids(store.Values);
    }
  }

  /** The repository returns a lineage for `id`, and replaying it yields `data`. */
  ghost predicate Replayed(c: Crypto, store: Store, id: string, key: Key, data: Bytes) {
    exists chain: seq<Record> :: IsOutcome(store, id, Ok(chain)) && Replay(c, chain, key) == Ok(Some(data))
  }

  /** The same, with every record of the lineage verified on the data replayed so far. */
  ghost predicate VerifiedLineage(c: Crypto, store: Store, id: string, key: Key, data: Bytes) {
    exists chain: seq<Record> ::
      IsOutcome(store, id, Ok(chain)) && VerifyChain(c, chain[0].snapshotId, chain, key) == Ok(Some(data))
  }

  /** Recoverable snapshots verify, and what verifies replays to the same data. */
  lemma RecoverableVerifies(c: Crypto, store: Store, id: string, key: Key, data: Bytes)
    requires ValidStore(store)
    ensures Recoverable(c, store, id, key, data) ==> VerifiedLineage(c, store, id, key, data)
    ensures VerifiedLineage(c, store, id, key, data) ==> Replayed(c, store, id, key, data)
  {
    if Recoverable(c, store, id, key, data) {
      var chain: seq<Record> :| IsLineage(store, id, chain) && SoundChain(c, chain, key, data);
      AnchoredOutcome(store, id, chain);
    }
    if VerifiedLineage(c, store, id, key, data) {
      var chain: seq<Record> :|
        IsOutcome(store, id, Ok(chain)) && VerifyChain(c, chain[0].snapshotId, chain, key) == Ok(Some(data));
      VerifiedReplays(c, chain[0].snapshotId, chain, key);
    }
  }

  /** What the repository returns for `id`: a non-empty list exactly when the walk has a lineage. */
  ghost predicate IsWalk(store: Store, id: string, walked: Result<seq<Record>, RepositoryError>) {
    if id in store then exists w :: IsOutcome(store, id, w) && walked == Lift(w) else walked == Ok([])
  }

  lemma WalkExactly(store: Store, id: string, walked: Result<seq<Record>, RepositoryError>, chain: seq<Record>)
    requires ValidStore(store) && IsWalk(store, id, walked)
    ensures IsOutcome(store, id, Ok(chain)) <==> walked == Ok(chain) && chain != []
  {
    if IsOutcome(store, id, Ok(chain)) {
      assert Stored(store, chain[|chain| - 1]);
      var w :| IsOutcome(store, id, w) && walked == Lift(w);
      OutcomeUnique(store, id, w, Ok(chain));
    }
    if walked == Ok(chain) && chain != [] {
      var w :| IsOutcome(store, id, w) && walked == Lift(w);
      assert w == Ok(chain);
    }
  }

  lemma OutcomeIsStored(store: Store, id: string, chain: seq<Record>)
    requires IsOutcome(store, id, Ok(chain))
    ensures id in store
  {
    assert Stored(store, chain[|chain| - 1]);
  }

  lemma ReplayedIsStored(c: Crypto, store: Store, id: string, key: Key, data: Bytes)
    requires Replayed(c, store, id, key, data)
    ensures id in store
  {
    var chain: seq<Record> :| IsOutcome(store, id, Ok(chain)) && Replay(c, chain, key) == Ok(Some(data));
    assert Stored(store, chain[|chain| - 1]);
  }

  /** The record is verified if asked to be, and then carries the digest of the captured data. */
  ghost predicate IsMarked(c: Crypto, s: Record, data: Bytes, verify: bool) {
    s.isVerified == verify && s.verificationHash == if verify then c.sha256(data) else ""
  }

  /** What a full capture stores. */
  ghost predicate IsCapture(c: Crypto, s: Record, data: Bytes, policy: Policy, params: Params, key: Key, verify: bool,
                            size: nat, nonces: nat -> Bytes, now: real)
    requires ValidRetention(policy, params) && size >= 1
  {
    && s.snapshotType == Full && s.parent == None && s.base == None && s.lineageDepth == 0 && s.totalSize == |data|
    && Keeps(s, policy, params, now) && Sealed(c, s, data, size, key, nonces) && IsMarked(c, s, data, verify)
  }

  /** What an incremental capture on a parent stores. */
  ghost predicate IsExtension(c: Crypto, s: Record, parent: Record, baseData: Bytes, data: Bytes, policy: Policy, params: Params,
                              key: Key, verify: bool, size: nat, nonces: nat -> Bytes, now: real)
    requires ValidRetention(policy, params) && size >= 1
  {
    && s.snapshotType == Incremental && s.parent == Some(parent.snapshotId) && s.base == Some(BaseIdFor(parent))
    && s.lineageDepth == parent.lineageDepth + 1
    && Keeps(s, policy, params, now) && SealsDelta(c, s, baseData, data, size, key, nonces) && IsMarked(c, s, data, verify)
  }

  /** The same for the stored base and the data its lineage replays to. */
  ghost predicate IsExtensionIn(c: Crypto, store: Store, s: Record, baseId: string, data: Bytes, policy: Policy, params: Params,
                                key: Key, verify: bool, size: nat, nonces: nat -> Bytes, now: real)
    requires ValidRetention(policy, params) && size >= 1
  {
    && baseId in store
    && exists baseData ::
         && Replayed(c, store, baseId, key, baseData)
         && IsExtension(c, s, store[baseId], baseData, data, policy, params, key, verify, size, nonces, now)
  }

  /** Marking touches nothing but the mark. */
  lemma MarkedCapture(c: Crypto, s: Record, m: Record, data: Bytes, policy: Policy, params: Params, key: Key,
                      size: nat, nonces: nat -> Bytes, now: real)
    requires ValidRetention(policy, params) && size >= 1
    requires IsCapture(c, s, data, policy, params, key, false, size, nonces, now)
    requires m == s.(isVerified := true, verificationHash := c.sha256(data))
    ensures IsCapture(c, m, data, policy, params, key, true, size, nonces, now)
  {
    forall i: nat | i < |m.chunks|
      ensures SealedAt(c, m, data, size, key, nonces, i)
    {
      assert SealedAt(c, s, data, size, key, nonces, i);
    }
  }

  lemma MarkedExtension(c: Crypto, s: Record, m: Record, parent: Record, baseData: Bytes, data: Bytes, policy: Policy,
                        params: Params, key: Key, size: nat, nonces: nat -> Bytes, now: real)
    requires ValidRetention(policy, params) && size >= 1
    requires IsExtension(c, s, parent, baseData, data, policy, params, key, false, size, nonces, now)
    requires m == s.(isVerified := true, verificationHash := c.sha256(data))
    ensures IsExtension(c, m, parent, baseData, data, policy, params, key, true, size, nonces, now)
  {
    var d :| Delta.IsDelta(baseData, data, d) && Sealed(c, s, d, size, key, nonces);
    SealedDelta(c, s, m, baseData, data, d, size, key, nonces);
  }

  lemma ExtensionMade(c: Crypto, bare: Record, s: Record, parent: Record, baseData: Bytes, data: Bytes, policy: Policy,
                      params: Params, key: Key, verify: bool, size: nat, nonces: nat -> Bytes, now: real)
    requires ValidRetention(policy, params) && size >= 1
    requires IsIncrementalOf(c, bare, parent, baseData, data, key) && Keeps(bare, policy, params, now)
    requires SealsDelta(c, bare, baseData, data, size, key, nonces)
    requires s == if verify then bare.(isVerified := true, verificationHash := c.sha256(data)) else bare
    ensures IsExtension(c, s, parent, baseData, data, policy, params, key, verify, size, nonces, now)
  {
    assert IsExtension(c, bare, parent, baseData, data, policy, params, key, false, size, nonces, now);
    if verify {
      MarkedExtension(c, bare, s, parent, baseData, data, policy, params, key, size, nonces, now);
    }
  }

  /** The repository accepts the record for this tenant. */
  predicate Savable(s: Record, tenant: string) {
    !IsBlank(tenant) && s.tenantId == tenant && !IsBlank(s.snapshotId) && s.chunkCount == |s.chunks| && InScope(s)
  }

  /** A fresh full snapshot can be saved and recovered, as it is or marked. */
  lemma MarkFullFits(c: Crypto, s: Record, tenant: string, data: Bytes, key: Key)
    requires c.Valid() && IsFullOf(c, s, tenant, data, key)
    ensures s.chunkCount == |s.chunks| && InScope(s) && s.tenantId == tenant && SoundChain(c, [s], key, data)
    ensures var m := MarkVerified(c, s, key, None, None);
            && m.Ok? && InScope(m.value) && m.value == s.(isVerified := true, verificationHash := c.sha256(data))
            && SoundChain(c, [m.value], key, data)
  {
    FullSound(c, s, tenant, data, key, s);
    FullSound(c, s, tenant, data, key, MarkVerified(c, s, key, None, None).value);
  }

  /** A fresh incremental can be saved, as it is or marked with its base data. */
  lemma MarkFits(c: Crypto, s: Record, parent: Record, baseData: Bytes, data: Bytes, key: Key)
    requires IsIncrementalOf(c, s, parent, baseData, data, key)
    ensures s.chunkCount == |s.chunks| && InScope(s) && s.tenantId == parent.tenantId
    ensures var m := MarkVerified(c, s, key, None, Some(baseData));
            m.Ok? && InScope(m.value) && m.value == s.(isVerified := true, verificationHash := c.sha256(data))
  {
    IncrementalApplies(c, s, parent, baseData, data, key);
  }

  /** Saved under a new id on a recoverable base, `s` is recoverable and yields `data`. */
  ghost predicate Extends(c: Crypto, before: Store, baseId: string, key: Key, s: Record, data: Bytes) {
    s.snapshotId !in before ==>
      forall x :: Recoverable(c, before, baseId, key, x) ==> Recoverable(c, before[s.snapshotId := s], s.snapshotId, key, data)
  }

  lemma ExtendedRecovery(c: Crypto, before: Store, tenant: string, baseId: string, base: Result<(Record, Bytes), ServiceError>,
                         bare: Record, data: Bytes, key: Key, s: Record)
    requires c.Valid() && IsBase(c, before, tenant, baseId, key, base) && base.Ok?
    requires IsIncrementalOf(c, bare, base.value.0, base.value.1, data, key)
    requires s == bare || MarkVerified(c, bare, key, None, Some(base.value.1)) == Ok(s)
    ensures Extends(c, before, baseId, key, s, data)
  {
    forall x | Recoverable(c, before, baseId, key, x) && s.snapshotId !in before
      ensures Recoverable(c, before[s.snapshotId := s], s.snapshotId, key, data)
    {
      BaseIsUnique(c, before, tenant, baseId, base, key, x);
      IncrementalRecoverable(c, before, base.value.0, x, bare, data, key, s);
    }
  }

  lemma BaseIsUnique(c: Crypto, store: Store, tenant: string, baseId: string, base: Result<(Record, Bytes), ServiceError>,
                     key: Key, x: Bytes)
    requires IsBase(c, store, tenant, baseId, key, base) && base.Ok? && Recoverable(c, store, baseId, key, x)
    ensures x == base.value.1
  {
    RecoverableVerifies(c, store, baseId, key, x);
  }

  /** What fetching a base finds: the stored record and the data its lineage replays to. */
  ghost predicate IsBase(c: Crypto, store: Store, tenant: string, baseId: string, key: Key,
                         r: Result<(Record, Bytes), ServiceError>)
  {
    && ValidStore(store)
    && (r.Ok? ==>
          && !IsBlank(tenant) && Stored(store, r.value.0) && r.value.0.snapshotId == baseId && r.value.0.tenantId == tenant
          && Replayed(c, store, baseId, key, r.value.1))
    && (forall x :: !IsBlank(tenant) && Replayed(c, store, baseId, key, x) ==> r.Ok? && r.value.1 == x)
  }

  lemma CanExtendExactly(c: Crypto, store: Store, tenant: string, baseId: string, key: Key, data: Bytes,
                         policy: Policy, params: Params, base: Result<(Record, Bytes), ServiceError>)
    requires IsBase(c, store, tenant, baseId, key, base)
    ensures CanExtend(c, store, tenant, baseId, key, data, policy, params) <==>
      base.Ok? && |base.value.1| < Delta.LIMIT && |data| < Delta.LIMIT
      && ValidRetention(policy, params) && (key.None? || ValidKey(key))
  {
  }

  /** When an incremental capture succeeds. */
  ghost predicate CanExtend(c: Crypto, store: Store, tenant: string, baseId: string, key: Key, data: Bytes,
                            policy: Policy, params: Params)
  {
    && !IsBlank(tenant) && ValidRetention(policy, params) && (key.None? || ValidKey(key)) && |data| < Delta.LIMIT
    && exists baseData: Bytes :: |baseData| < Delta.LIMIT && Replayed(c, store, baseId, key, baseData)
  }

  /** What was recoverable before a save stays so, unless the save reuses an id. */
  ghost predicate RecoveryKept(c: Crypto, before: Store, after: Store, saved: string) {
    saved !in before ==>
      forall id, key, data :: Recoverable(c, before, id, key, data) ==> Recoverable(c, after, id, key, data)
  }

  lemma KeepRecovery(c: Crypto, before: Store, s: Record)
    ensures RecoveryKept(c, before, before[s.snapshotId := s], s.snapshotId)
  {
    if s.snapshotId !in before {
      forall id, key, data | Recoverable(c, before, id, key, data)
        ensures Recoverable(c, before[s.snapshotId := s], id, key, data)
      {
        RecoverableGrows(c, before, s, id, key, data);
      }
    }
  }

  // ------------------------------------------------------------- the service

  class SnapshotIntelligenceService {
    const c: Crypto
    const repository: InMemorySnapshotRepository
    const defaultKey: Key
    const chunkSize: int

    ghost predicate Valid()
      reads this, repository
    {
      c.Valid() && repository.Valid() && chunkSize >= 1
    }

    constructor (c: Crypto, repository: InMemorySnapshotRepository, defaultKey: Key, chunkSize: int)
      requires c.Valid() && repository.Valid() && chunkSize >= 1
      ensures Valid() && this.c == c && this.repository == repository
      ensures this.defaultKey == defaultKey && this.chunkSize == chunkSize
    {
      this.c, this.repository, this.defaultKey, this.chunkSize := c, repository, defaultKey, chunkSize;
    }

    function KeyFor(encryptionKey: Key): Key {
      if encryptionKey.Some? then encryptionKey else defaultKey
    }

    method Capture(tenant: string, data: Bytes, policy: Policy, params: Params, encryptionKey: Key, verify: bool,
                   nonces: nat -> Bytes, stamp: string, now: real)
      returns (r: Result<Record, ServiceError>)
      requires Valid() && forall i: nat :: |nonces(i)| == 12
      modifies repository
      ensures Valid()
      ensures var key := KeyFor(encryptionKey); r.Ok? <==>
        !IsBlank(tenant) && ValidRetention(policy, params) && (data == [] || key.None? || ValidKey(key))
      ensures r.Err? ==> repository.StoreOf(tenant) == old(repository.StoreOf(tenant))
      ensures r.Ok? ==> repository.StoreOf(tenant) == old(repository.StoreOf(tenant))[r.value.snapshotId := r.value]
      ensures r.Ok? ==> IsCapture(c, r.value, data, policy, params, KeyFor(encryptionKey), verify, chunkSize, nonces, now)
      ensures r.Ok? ==> Recoverable(c, repository.StoreOf(tenant), r.value.snapshotId, KeyFor(encryptionKey), data)
      ensures r.Ok? ==> RecoveryKept(c, old(repository.StoreOf(tenant)), repository.StoreOf(tenant), r.value.snapshotId)
      ensures forall t :: t != tenant ==> repository.StoreOf(t) == old(repository.StoreOf(t))
    {
      var key := KeyFor(encryptionKey);
      var s := MakeFull(tenant, data, policy, params, key, verify, nonces, stamp, now);
      if s.Err? {
        return s;
      }
      FreshRecoverable(c, repository.StoreOf(tenant), s.value, key, data);
      KeepRecovery(c, repository.StoreOf(tenant), s.value);
      var saved := repository.Save(s.value);
      match saved {
        case Err(e) => return Err(RepositoryFailed(e));
        case Ok(_) => return s;
      }
    }

    /** Builds the full record and marks it verified if asked to. */
    method MakeFull(tenant: string, data: Bytes, policy: Policy, params: Params, key: Key, verify: bool,
                    nonces: nat -> Bytes, stamp: string, now: real)
      returns (r: Result<Record, ServiceError>)
      requires Valid() && forall i: nat :: |nonces(i)| == 12
      ensures r.Ok? <==> !IsBlank(tenant) && ValidRetention(policy, params) && (data == [] || key.None? || ValidKey(key))
      ensures r.Ok? ==> Savable(r.value, tenant) && SoundChain(c, [r.value], key, data)
      ensures r.Ok? ==> IsCapture(c, r.value, data, policy, params, key, verify, chunkSize, nonces, now)
    {
      var made := CreateFull(c, tenant, data, policy, params, key, chunkSize, nonces, stamp, now);
      if made.Err? {
        return Err(SnapshotFailed(made.error));
      }
      var s := made.value;
      IdIsNotBlank(tenant, s.contentHash, stamp);
      MarkFullFits(c, s, tenant, data, key);
      if !verify {
        return Ok(s);
      }
      match MarkVerified(c, s, key, None, None) {
        case Err(e) => return Err(SnapshotFailed(e));
        case Ok(m) =>
          MarkedCapture(c, s, m, data, policy, params, key, chunkSize, nonces, now);
          return Ok(m);
      }
    }

    /** `_reconstruct_lineage`: returns exactly what the lineage replays to. */
    method ReconstructLineage(tenant: string, id: string, key: Key) returns (r: Result<Bytes, ServiceError>)
      requires Valid()
      ensures r.Ok? ==> !IsBlank(tenant) && Replayed(c, repository.StoreOf(tenant), id, key, r.value)
      ensures forall data :: !IsBlank(tenant) && Replayed(c, repository.StoreOf(tenant), id, key, data) ==> r == Ok(data)
    {
      var walked := Walk(tenant, id);
      if walked.Err? {
        return Err(RepositoryFailed(walked.error));
      }
      var chain := walked.value;
      if chain == [] {
        return Err(NoLineage);
      }
      var progress := ReplayAll(c, chain, key);
      match progress {
        case Err(e) => return Err(e);
        case Ok(None) => return Err(NoLineage);
        case Ok(Some(data)) => return Ok(data);
      }
    }

    /** The lineage as the repository returns it. */
    method Walk(tenant: string, id: string) returns (walked: Result<seq<Record>, RepositoryError>)
      requires Valid()
      ensures IsBlank(tenant) ==> walked.Err?
      ensures !IsBlank(tenant) ==> forall chain: seq<Record> ::
        IsOutcome(repository.StoreOf(tenant), id, Ok(chain)) <==> walked == Ok(chain) && chain != []
    {
      walked := repository.GetLineage(tenant, id);
      ghost var store := repository.StoreOf(tenant);
      assert ValidTenant(tenant, store, repository.ChunkStoreOf(tenant));
      if !IsBlank(tenant) {
        forall chain: seq<Record>
          ensures IsOutcome(store, id, Ok(chain)) <==> walked == Ok(chain) && chain != []
        {
          if IsBlank(id) {
            if IsOutcome(store, id, Ok(chain)) {
              OutcomeIsStored(store, id, chain);
            }
          } else {
            WalkExactly(store, id, walked, chain);
          }
        }
      }
    }

    method CaptureIncremental(tenant: string, data: Bytes, baseId: string, policy: Policy, params: Params,
                              encryptionKey: Key, verify: bool, nonces: nat -> Bytes, stamp: string, now: real)
      returns (r: Result<Record, ServiceError>)
      requires Valid() && forall i: nat :: |nonces(i)| == 12
      modifies repository
      ensures Valid()
      ensures r.Ok? <==> CanExtend(c, old(repository.StoreOf(tenant)), tenant, baseId, KeyFor(encryptionKey), data, policy, params)
      ensures r.Err? ==> repository.StoreOf(tenant) == old(repository.StoreOf(tenant))
      ensures r.Ok? ==> repository.StoreOf(tenant) == old(repository.StoreOf(tenant))[r.value.snapshotId := r.value]
      ensures r.Ok? ==> RecoveryKept(c, old(repository.StoreOf(tenant)), repository.StoreOf(tenant), r.value.snapshotId)
      ensures r.Ok? ==>
        IsExtensionIn(c, old(repository.StoreOf(tenant)), r.value, baseId, data, policy, params, KeyFor(encryptionKey), verify,
                      chunkSize, nonces, now)
      ensures r.Ok? ==> Extends(c, old(repository.StoreOf(tenant)), baseId, KeyFor(encryptionKey), r.value, data)
      ensures forall t :: t != tenant ==> repository.StoreOf(t) == old(repository.StoreOf(t))
    {
      var key := KeyFor(encryptionKey);
      var s := BuildIncremental(tenant, data, baseId, policy, params, key, verify, nonces, stamp, now);
      if s.Err? {
        return s;
      }
      KeepRecovery(c, repository.StoreOf(tenant), s.value);
      var saved := repository.Save(s.value);
      match saved {
        case Err(e) => return Err(RepositoryFailed(e));
        case Ok(_) => return s;
      }
    }

    /** The record to be saved, built on the data of the stored base. */
    method BuildIncremental(tenant: string, data: Bytes, baseId: string, policy: Policy, params: Params, key: Key,
                            verify: bool, nonces: nat -> Bytes, stamp: string, now: real)
      returns (r: Result<Record, ServiceError>)
      requires Valid() && forall i: nat :: |nonces(i)| == 12
      ensures r.Ok? <==> CanExtend(c, repository.StoreOf(tenant), tenant, baseId, key, data, policy, params)
      ensures r.Ok? ==> Savable(r.value, tenant) && Extends(c, repository.StoreOf(tenant), baseId, key, r.value, data)
      ensures r.Ok? ==>
        IsExtensionIn(c, repository.StoreOf(tenant), r.value, baseId, data, policy, params, key, verify, chunkSize, nonces, now)
    {
      var base := FetchBase(tenant, baseId, key);
      CanExtendExactly(c, repository.StoreOf(tenant), tenant, baseId, key, data, policy, params, base);
      if base.Err? {
        return Err(base.error);
      }
      var (parent, baseData) := base.value;
      ghost var bare;
      r, bare := MakeIncremental(tenant, data, parent, policy, params, key, verify, baseData, nonces, stamp, now);
      if r.Ok? {
        ExtendedRecovery(c, repository.StoreOf(tenant), tenant, baseId, base, bare, data, key, r.value);
      }
    }

    /** The base record and the data its lineage replays to. */
    method FetchBase(tenant: string, baseId: string, key: Key) returns (r: Result<(Record, Bytes), ServiceError>)
      requires Valid()
      ensures IsBase(c, repository.StoreOf(tenant), tenant, baseId, key, r)
    {
      ghost var store := repository.StoreOf(tenant);
      assert ValidTenant(tenant, store, repository.ChunkStoreOf(tenant));
      forall x
        ensures Replayed(c, store, baseId, key, x) ==> baseId in store
      {
        if Replayed(c, store, baseId, key, x) {
          ReplayedIsStored(c, store, baseId, key, x);
        }
      }
      var got := repository.Get(tenant, baseId);
      if got.Err? {
        return Err(RepositoryFailed(got.error));
      }
      if got.value.None? {
        return Err(NotFound);
      }
      var parent := got.value.value;
      var baseData := ReconstructLineage(tenant, parent.snapshotId, key);
      match baseData {
        case Err(e) => return Err(e);
        case Ok(x) => return Ok((parent, x));
      }
    }

    /** Builds the incremental record on the parent's data and marks it verified if asked to. */
    method MakeIncremental(tenant: string, data: Bytes, parent: Record, policy: Policy, params: Params, key: Key, verify: bool,
                           baseData: Bytes, nonces: nat -> Bytes, stamp: string, now: real)
      returns (r: Result<Record, ServiceError>, ghost bare: Record)
      requires Valid() && forall i: nat :: |nonces(i)| == 12
      ensures r.Ok? <==>
        && !IsBlank(tenant) && parent.tenantId == tenant && ValidRetention(policy, params) && (key.None? || ValidKey(key))
        && |baseData| < Delta.LIMIT && |data| < Delta.LIMIT
      ensures r.Ok? ==> Savable(r.value, tenant) && IsIncrementalOf(c, bare, parent, baseData, data, key)
      ensures r.Ok? ==> r.value == bare || MarkVerified(c, bare, key, None, Some(baseData)) == Ok(r.value)
      ensures r.Ok? ==> IsExtension(c, r.value, parent, baseData, data, policy, params, key, verify, chunkSize, nonces, now)
    {
      bare := parent;
      var made := CreateIncremental(c, tenant, data, parent, policy, params, key, chunkSize, Some(baseData), nonces, stamp, now);
      if made.Err? {
        r := Err(SnapshotFailed(made.error));
        return;
      }
      bare := made.value;
      var s := MarkIfAsked(made.value, parent, baseData, data, policy, params, key, verify, nonces, now);
      r := Ok(s);
    }

    method MarkIfAsked(s: Record, parent: Record, baseData: Bytes, ghost data: Bytes, ghost policy: Policy, ghost params: Params,
                       key: Key, verify: bool, ghost nonces: nat -> Bytes, ghost now: real) returns (m: Record)
      requires Valid() && ValidRetention(policy, params)
      requires IsDeltaRecord(c, s, parent, baseData, data, chunkSize, key, nonces) && Keeps(s, policy, params, now)
      requires !IsBlank(parent.tenantId) && !IsBlank(s.snapshotId)
      ensures Savable(m, parent.tenantId)
      ensures m == s || MarkVerified(c, s, key, None, Some(baseData)) == Ok(m)
      ensures IsExtension(c, m, parent, baseData, data, policy, params, key, verify, chunkSize, nonces, now)
    {
      MarkFits(c, s, parent, baseData, data, key);
      m := s;
      if verify {
        m := MarkVerified(c, s, key, None, Some(baseData)).value;
      }
      ExtensionMade(c, s, m, parent, baseData, data, policy, params, key, verify, chunkSize, nonces, now);
    }

    /** `reconstruct`: verify the whole lineage, then replay it. It returns exactly what the verified
        lineage holds, and nothing when any record of it fails. */
    method Reconstruct(tenant: string, id: string, encryptionKey: Key) returns (r: Result<Bytes, ServiceError>)
      requires Valid()
      ensures r.Ok? ==> !IsBlank(tenant) && VerifiedLineage(c, repository.StoreOf(tenant), id, KeyFor(encryptionKey), r.value)
      ensures forall data ::
        !IsBlank(tenant) && VerifiedLineage(c, repository.StoreOf(tenant), id, KeyFor(encryptionKey), data) ==> r == Ok(data)
    {
      var key := KeyFor(encryptionKey);
      var walked := Walk(tenant, id);
      if walked.Err? {
        return Err(RepositoryFailed(walked.error));
      }
      var chain := walked.value;
      if chain == [] {
        return Err(NotFound);
      }
      var progress := VerifyAll(c, chain, key);
      if progress.Err? {
        return Err(VerificationFailed);
      }
      VerifiedReplays(c, chain[0].snapshotId, chain, key);
      var replayed := ReplayAll(c, chain, key);
      match replayed {
        case Err(e) => return Err(e);
        case Ok(None) => return Err(NoLineage);
        case Ok(Some(data)) => return Ok(data);
      }
    }
  }

  lemma AnchoredOutcome(store: Store, id: string, chain: seq<Record>)
    requires ValidStore(store) && IsLineage(store, id, chain) && chain[0].parent == None
    ensures IsOutcome(store, id, Ok(chain))
  {
    var n := |chain| - 1;
    LineageWalk(store, id, chain, n);
    LineageWalk(store, id, chain, n + 1);
    assert Stored(store, chain[0]);
    if ReachesBlank(store, id) {
      var k: nat :| Ancestor(store, id, k).Some? && BlankParent(store[Ancestor(store, id, k).value]);
      EndUnique(store, id, n, chain[0].snapshotId, k, Ancestor(store, id, k).value);
    }
  }
}
