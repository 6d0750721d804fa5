/**
 The in-memory snapshot repository: per-tenant dictionaries of records and of their chunks.
 */
module SnapshotRepository {
  import opened Prelude
  import opened SnapshotTypes
  import opened SnapshotRecords
  import opened Lineage
  import opened Retention
  import RetentionLaws

  type ChunkStore = map<string, seq<Chunk>>

  datatype RepositoryError =
    | BlankTenantId | BlankSnapshotId | ChunkCountWrong | ChunkScopeWrong | LineageFailed(error: LineageError)

  /** Both dictionaries of one tenant agree, and every record sits under its own id and tenant. */
  ghost predicate ValidTenant(tenant: string, store: Store, chunks: ChunkStore) {
    && ValidStore(store)
    && (forall id :: id in store ==>
          store[id].tenantId == tenant && store[id].chunkCount == |store[id].chunks| && InScope(store[id]))
    && chunks == map id | id in store :: store[id].chunks
  }

  function Lift(w: Result<seq<Record>, LineageError>): Result<seq<Record>, RepositoryError> {
    match w case Ok(chain) => Ok(chain) case Err(e) => Err(LineageFailed(e))
  }

  lemma SavedTenant(tenant: string, store: Store, chunks: ChunkStore, s: Record)
    requires ValidTenant(tenant, store, chunks)
    requires s.tenantId == tenant && !IsBlank(s.snapshotId) && s.chunkCount == |s.chunks| && InScope(s)
    ensures ValidTenant(tenant, store[s.snapshotId := s], chunks[s.snapshotId := s.chunks])
  {
  }

  lemma DeletedTenant(tenant: string, store: Store, chunks: ChunkStore, id: string)
    requires ValidTenant(tenant, store, chunks)
    ensures ValidTenant(tenant, store - {id}, chunks - {id})
  {
  }

  /** The store after a sweep. */
  ghost function Swept(store: Store, now: real): Store {
    map id | id in store && id !in SweptIds(store.Values, now) :: store[id]
  }

  lemma SweptValues(store: Store, now: real)
    requires ValidStore(store)
    ensures Swept(store, now).Values == Survivors(store.Values, now)
  {
    var after := Swept(store, now);
    forall s | s in Survivors(store.Values, now)
      ensures s in after.Values
    {
      var id :| id in store && store[id] == s;
      assert after[id] == s;
    }
    forall s | s in after.Values
      ensures s in Survivors(store.Values, now)
    {
      var id :| id in after && after[id] == s;
      assert store[id] == s && s.snapshotId == id;
    }
  }

  /** Sweeping twice at one time is sweeping once. */
  lemma SweptTwice(store: Store, now: real)
    requires ValidStore(store)
    ensures Swept(Swept(store, now), now) == Swept(store, now)
  {
    SweptValues(store, now);
    RetentionLaws.SweepIdempotent(store.Values, now);
  }

  method ValuesOf(store: Store) returns (values: seq<Record>)
    requires ValidStore(store)
    ensures Elements(values) == store.Values
    ensures forall i, j :: 0 <= i < j < |values| ==> values[i].snapshotId != values[j].snapshotId
  {
    values := [];
    var todo := store.Keys;
    while todo != {}
      invariant todo <= store.Keys
      invariant forall s :: s in values <==> s.snapshotId in store && s.snapshotId !in todo && store[s.snapshotId] == s
      invariant forall i, j :: 0 <= i < j < |values| ==> values[i].snapshotId != values[j].snapshotId
    {
      var id :| id in todo;
      assert forall i :: 0 <= i < |values| ==> values[i] in values;
      values := values + [store[id]];
      todo := todo - {id};
    }
    assert forall s :: s in store.Values <==> s.snapshotId in store && store[s.snapshotId] == s;
  }

  class InMemorySnapshotRepository {
    var snapshots: map<string, Store>
    var chunks: map<string, ChunkStore>

    function StoreOf(tenant: string): Store
      reads this
    {
      if tenant in snapshots then snapshots[tenant] else map[]
    }

    function ChunkStoreOf(tenant: string): ChunkStore
      reads this
    {
      if tenant in chunks then chunks[tenant] else map[]
    }

    ghost predicate Valid()
      reads this
    {
      forall tenant :: ValidTenant(tenant, StoreOf(tenant), ChunkStoreOf(tenant))
    }

    constructor ()
      ensures Valid() && forall tenant :: StoreOf(tenant) == map[]
    {
      snapshots, chunks := map[], map[];
    }

    method Save(s: Record) returns (r: Result<Record, RepositoryError>)
      requires Valid()
      modifies this
      ensures Valid()
      ensures r.Ok? <==> !IsBlank(s.tenantId) && !IsBlank(s.snapshotId) && s.chunkCount == |s.chunks| && InScope(s)
      ensures r.Ok? ==> r.value == s && StoreOf(s.tenantId) == old(StoreOf(s.tenantId))[s.snapshotId := s]
      ensures r.Err? ==> snapshots == old(snapshots) && chunks == old(chunks)
      ensures forall t :: t != s.tenantId ==> StoreOf(t) == old(StoreOf(t))
    {
      if IsBlank(s.tenantId) {
        return Err(BlankTenantId);
      }
      if IsBlank(s.snapshotId) {
        return Err(BlankSnapshotId);
      }
      if s.chunkCount != |s.chunks| {
        return Err(ChunkCountWrong);
      }
      if !InScope(s) {
        return Err(ChunkScopeWrong);
      }
      assert ValidTenant(s.tenantId, StoreOf(s.tenantId), ChunkStoreOf(s.tenantId));
      SavedTenant(s.tenantId, StoreOf(s.tenantId), ChunkStoreOf(s.tenantId), s);
      snapshots := snapshots[s.tenantId := StoreOf(s.tenantId)[s.snapshotId := s]];
      chunks := chunks[s.tenantId := ChunkStoreOf(s.tenantId)[s.snapshotId := s.chunks]];
      assert ValidTenant(s.tenantId, StoreOf(s.tenantId), ChunkStoreOf(s.tenantId));
      forall t | t != s.tenantId
        ensures ValidTenant(t, StoreOf(t), ChunkStoreOf(t))
      {
        assert ValidTenant(t, old(StoreOf(t)), old(ChunkStoreOf(t)));
      }
      r := Ok(s);
    }

    method Get(tenant: string, id: string) returns (r: Result<Option<Record>, RepositoryError>)
      requires Valid()
      ensures r.Err? <==> IsBlank(tenant) || IsBlank(id)
      ensures r.Ok? ==> r.value == if id in StoreOf(tenant) then Some(StoreOf(tenant)[id]) else None
    {
      if IsBlank(tenant) {
        return Err(BlankTenantId);
      }
      if IsBlank(id) {
        return Err(BlankSnapshotId);
      }
      return Ok(if id in StoreOf(tenant) then Some(StoreOf(tenant)[id]) else None);
    }

    method Delete(tenant: string, id: string) returns (r: Result<bool, RepositoryError>)
      requires Valid()
      modifies this
      ensures Valid()
      ensures r.Err? <==> IsBlank(tenant) || IsBlank(id)
      ensures r.Ok? ==> r.value == (id in old(StoreOf(tenant))) && StoreOf(tenant) == old(StoreOf(tenant)) - {id}
      ensures r.Err? ==> snapshots == old(snapshots) && chunks == old(chunks)
      ensures forall t :: t != tenant ==> StoreOf(t) == old(StoreOf(t))
    {
      if IsBlank(tenant) {
        return Err(BlankTenantId);
      }
      if IsBlank(id) {
        return Err(BlankSnapshotId);
      }
      if id !in StoreOf(tenant) {
        return Ok(false);
      }
      DeletedTenant(tenant, StoreOf(tenant), ChunkStoreOf(tenant), id);
      snapshots := snapshots[tenant := StoreOf(tenant) - {id}];
      chunks := chunks[tenant := ChunkStoreOf(tenant) - {id}];
      assert ValidTenant(tenant, StoreOf(tenant), ChunkStoreOf(tenant));
      forall t | t != tenant
        ensures ValidTenant(t, StoreOf(t), ChunkStoreOf(t))
      {
        assert ValidTenant(t, old(StoreOf(t)), old(ChunkStoreOf(t)));
      }
      r := Ok(true);
    }

    /** Deletes exactly what the sweep selects, in the given tenant only. */
    method DeleteExpired(tenant: string, now: real) returns (r: Result<nat, RepositoryError>)
      requires Valid()
      modifies this
      ensures Valid()
      ensures r.Err? <==> IsBlank(tenant)
      ensures r.Err? ==> StoreOf(tenant) == old(StoreOf(tenant))
      ensures r.Ok? ==> StoreOf(tenant) == Swept(old(StoreOf(tenant)), now)
      ensures r.Ok? ==> r.value == |SweptIds(old(StoreOf(tenant)).Values, now)|
      ensures forall t :: t != tenant ==> StoreOf(t) == old(StoreOf(t))
    {
      if IsBlank(tenant) {
        return Err(BlankTenantId);
      }
      ghost var before := StoreOf(tenant);
      assert ValidTenant(tenant, before, ChunkStoreOf(tenant));
      var values := ValuesOf(StoreOf(tenant));
      var candidates := RetentionCandidates(values, now);
      SweptAreStored(before, now);
      DistinctIdCount(candidates);
      forall i | 0 <= i < |candidates|
        ensures !IsBlank(candidates[i])
      {
        assert candidates[i] in (set id | id in candidates);
      }
      DeleteAll(tenant, candidates);
      r := Ok(|candidates|);
    }

    method DeleteAll(tenant: string, ids: seq<string>)
      requires Valid() && !IsBlank(tenant) && forall i :: 0 <= i < |ids| ==> !IsBlank(ids[i])
      modifies this
      ensures Valid()
      ensures StoreOf(tenant) == old(StoreOf(tenant)) - (set id | id in ids)
      ensures forall t :: t != tenant ==> StoreOf(t) == old(StoreOf(t))
    {
      ghost var before := StoreOf(tenant);
      for k := 0 to |ids|
        invariant Valid()
        invariant StoreOf(tenant) == before - (set id | id in ids[..k])
        invariant forall t :: t != tenant ==> StoreOf(t) == old(StoreOf(t))
      {
        assert ids[..k + 1] == ids[..k] + [ids[k]];
        var _ := Delete(tenant, ids[k]);
      }
      assert ids[..|ids|] == ids;
    }

    method GetLineage(tenant: string, id: string) returns (r: Result<seq<Record>, RepositoryError>)
      requires Valid()
      ensures IsBlank(tenant) ==> r == Err(BlankTenantId)
      ensures !IsBlank(tenant) && IsBlank(id) ==> r == Err(BlankSnapshotId)
      ensures !IsBlank(tenant) && !IsBlank(id) && id !in StoreOf(tenant) ==> r == Ok([])
      ensures !IsBlank(tenant) && id in StoreOf(tenant) ==>
        exists w :: IsOutcome(StoreOf(tenant), id, w) && r == Lift(w)
    {
      if IsBlank(tenant) {
        return Err(BlankTenantId);
      }
      if IsBlank(id) {
        return Err(BlankSnapshotId);
      }
      if id !in StoreOf(tenant) {
        return Ok([]);
      }
      assert ValidTenant(tenant, StoreOf(tenant), ChunkStoreOf(tenant));
      var w := WalkLineage(StoreOf(tenant), id);
      r := Lift(w);
    }

    method GetChunks(tenant: string, id: string) returns (r: Result<seq<Chunk>, RepositoryError>)
      requires Valid()
      ensures r.Err? <==> IsBlank(tenant) || IsBlank(id)
      ensures r.Ok? ==> r.value == if id in StoreOf(tenant) then StoreOf(tenant)[id].chunks else []
    {
      if IsBlank(tenant) {
        return Err(BlankTenantId);
      }
      if IsBlank(id) {
        return Err(BlankSnapshotId);
      }
      assert ValidTenant(tenant, StoreOf(tenant), ChunkStoreOf(tenant));
      return Ok(if id in ChunkStoreOf(tenant) then ChunkStoreOf(tenant)[id] else []);
    }
  }

  lemma SweptAreStored(store: Store, now: real)
    requires ValidStore(store)
    ensures SweptIds(store.Values, now) <= store.Keys
    ensures Swept(store, now) == store - SweptIds(store.Values, now)
  {
    SweptAreIds(store.Values, now);
    assert Ids(store.Values) <= store.Keys;
  }

  lemma {:induction false} DistinctIdCount(ids: seq<string>)
    requires Distinct(ids)
    ensures |set id | id in ids| == |ids|
  {
    if ids != [] {
      var n := |ids| - 1;
      DistinctIdCount(ids[..n]);
      assert ids == ids[..n] + [ids[n]];
      assert (set id | id in ids) == (set id | id in ids[..n]) + {ids[n]};
    }
  }
}
