/**
 The parent walk over one tenant's snapshots.
 */
module Lineage {
  import opened Prelude
  import opened SnapshotTypes

  /** One tenant's snapshots by id. */
  type Store = map<string, Record>

  ghost predicate ValidStore(store: Store) {
    forall id :: id in store ==> store[id].snapshotId == id && !IsBlank(id)
  }

  datatype LineageError = BlankId | Cycle

  /** The stored parent of a record, if the walk goes on. */
  function StoredParent(store: Store, s: Record): Option<string> {
    if s.parent.Some? && s.parent.value in store then s.parent else None
  }

  /** The walk reads a parent id that is neither empty nor acceptable to `get`. */
  predicate BlankParent(s: Record) {
    s.parent.Some? && s.parent.value != "" && IsBlank(s.parent.value)
  }

  /** The id reached after `n` parent steps. */
  ghost function Ancestor(store: Store, id: string, n: nat): (r: Option<string>)
    ensures r.Some? ==> r.value in store
  {
    if n == 0 then (if id in store then Some(id) else None)
    else match Ancestor(store, id, n - 1)
      case None => None
      case Some(x) => StoredParent(store, store[x])
  }

  /** The walk never ends. */
  ghost predicate Endless(store: Store, id: string) {
    forall n: nat :: Ancestor(store, id, n).Some?
  }

  /** `chain` is parent-linked, root first, ends at `id`, and its root has no stored parent. */
  ghost predicate IsLineage(store: Store, id: string, chain: seq<Record>) {
    && chain != []
    && (forall i :: 0 <= i < |chain| ==> Stored(store, chain[i]))
    && chain[|chain| - 1].snapshotId == id
    && (forall i :: 1 <= i < |chain| ==> chain[i].parent == Some(chain[i - 1].snapshotId))
    && StoredParent(store, chain[0]) == None
  }

  lemma {:induction false} AncestorCompose(store: Store, id: string, m: nat, n: nat)
    requires Ancestor(store, id, m).Some?
    ensures Ancestor(store, id, m + n) == Ancestor(store, Ancestor(store, id, m).value, n)
  {
    if n > 0 {
      AncestorCompose(store, id, m, n - 1);
    }
  }

  lemma {:induction false} AncestorPrefix(store: Store, id: string, m: nat, n: nat)
    requires m <= n && Ancestor(store, id, n).Some?
    ensures Ancestor(store, id, m).Some?
  {
    if m < n {
      AncestorPrefix(store, id, m, n - 1);
    }
  }

  /** A walk that visits one id twice never ends. */
  lemma {:induction false} RepeatIsEndless(store: Store, id: string, i: nat, j: nat, n: nat)
    requires i < j && Ancestor(store, id, j).Some? && Ancestor(store, id, i) == Ancestor(store, id, j)
    ensures Ancestor(store, id, n).Some?
  {
    if n <= j {
      AncestorPrefix(store, id, n, j);
    } else {
      var k := n - j;
      RepeatIsEndless(store, id, i, j, i + k);
      AncestorCompose(store, id, i, k);
      AncestorCompose(store, id, j, k);
    }
  }

  lemma {:induction false} LineageWalk(store: Store, id: string, chain: seq<Record>, k: nat)
    requires IsLineage(store, id, chain)
    ensures k < |chain| ==> Ancestor(store, id, k) == Some(chain[|chain| - 1 - k].snapshotId)
    ensures k == |chain| ==> Ancestor(store, id, k) == None
  {
    if k > 0 {
      LineageWalk(store, id, chain, k - 1);
    }
  }

  /** A lineage is determined by the store and the id, and has no repeated id. */
  lemma LineageUnique(store: Store, id: string, a: seq<Record>, b: seq<Record>)
    requires IsLineage(store, id, a) && IsLineage(store, id, b)
    ensures a == b
  {
    LineageWalk(store, id, a, |a|);
    LineageWalk(store, id, b, |b|);
    LineageWalk(store, id, a, |b|);
    LineageWalk(store, id, b, |a|);
    assert |a| == |b|;
    forall i | 0 <= i < |a|
      ensures a[i] == b[i]
    {
      LineageWalk(store, id, a, |a| - 1 - i);
      LineageWalk(store, id, b, |a| - 1 - i);
    }
  }

  lemma LineageEnds(store: Store, id: string, chain: seq<Record>)
    requires IsLineage(store, id, chain)
    ensures !Endless(store, id)
    ensures forall i, j :: 0 <= i < j < |chain| ==> chain[i].snapshotId != chain[j].snapshotId
  {
    var n := |chain|;
    LineageWalk(store, id, chain, n);
    forall i, j | 0 <= i < j < n
      ensures chain[i].snapshotId != chain[j].snapshotId
    {
      LineageWalk(store, id, chain, n - 1 - i);
      LineageWalk(store, id, chain, n - 1 - j);
      if chain[i].snapshotId == chain[j].snapshotId {
        RepeatIsEndless(store, id, n - 1 - j, n - 1 - i, n);
      }
    }
  }

  function Reversed(s: seq<Record>): (r: seq<Record>)
    ensures |r| == |s|
    ensures forall i :: 0 <= i < |s| ==> r[i] == s[|s| - 1 - i]
  {
    if s == [] then [] else Reversed(s[1..]) + [s[0]]
  }

  ghost predicate Stored(store: Store, s: Record) {
    s.snapshotId in store && store[s.snapshotId] == s
  }

  /** `path` goes from a record to successive parents. */
  ghost predicate IsPath(store: Store, path: seq<Record>) {
    && path != []
    && (forall i :: 0 <= i < |path| ==> Stored(store, path[i]))
    && (forall i :: 0 <= i < |path| - 1 ==> path[i].parent == Some(path[i + 1].snapshotId))
  }

  ghost function IdsOf(path: seq<Record>): set<string> {
    set i | 0 <= i < |path| :: path[i].snapshotId
  }

  lemma {:induction false} PathWalk(store: Store, path: seq<Record>, k: nat)
    requires IsPath(store, path) && k < |path|
    ensures Ancestor(store, path[0].snapshotId, k) == Some(path[k].snapshotId)
  {
    if k > 0 {
      PathWalk(store, path, k - 1);
      assert path[k - 1].parent == Some(path[k].snapshotId) && Stored(store, path[k]);
    }
  }

  /** The walk from `id` ends at `x`. */
  ghost predicate EndsAt(store: Store, id: string, n: nat, x: string) {
    Ancestor(store, id, n) == Some(x) && Ancestor(store, id, n + 1) == None
  }

  lemma EndUnique(store: Store, id: string, m: nat, x: string, n: nat, y: string)
    requires EndsAt(store, id, m, x) && EndsAt(store, id, n, y)
    ensures m == n && x == y
  {
    if m < n {
      AncestorPrefix(store, id, m + 1, n);
    } else if n < m {
      AncestorPrefix(store, id, n + 1, m);
    }
  }

  /** The walk reaches a record with a blank parent id. */
  ghost predicate ReachesBlank(store: Store, id: string) {
    exists n: nat :: Ancestor(store, id, n).Some? && BlankParent(store[Ancestor(store, id, n).value])
  }

  /** The outcome of the walk: a complete lineage, a blank parent id, or no end. */
  ghost predicate IsOutcome(store: Store, id: string, r: Result<seq<Record>, LineageError>) {
    match r
    case Ok(chain) => IsLineage(store, id, chain) && !ReachesBlank(store, id)
    case Err(BlankId) => ReachesBlank(store, id)
    case Err(Cycle) => Endless(store, id)
  }

  /** The three outcomes exclude each other, so the walk has exactly one. */
  lemma OutcomeUnique(store: Store, id: string, r: Result<seq<Record>, LineageError>, r': Result<seq<Record>, LineageError>)
    requires ValidStore(store) && IsOutcome(store, id, r) && IsOutcome(store, id, r')
    ensures r == r'
  {
    if r.Ok? { LineageEnds(store, id, r.value); }
    if r'.Ok? { LineageEnds(store, id, r'.value); }
    if ReachesBlank(store, id) { BlankEnds(store, id); }
    if r.Ok? && r'.Ok? { LineageUnique(store, id, r.value, r'.value); }
  }

  lemma BlankEnds(store: Store, id: string)
    requires ValidStore(store) && ReachesBlank(store, id)
    ensures !Endless(store, id)
  {
    var n: nat :| Ancestor(store, id, n).Some? && BlankParent(store[Ancestor(store, id, n).value]);
    assert Ancestor(store, id, n + 1) == None;
  }

  /** Not only cycles raise: any stored record whose parent id is white space does, on its own and without a cycle. */
  lemma BlankParentRaises(s: Record, parent: string)
    requires !IsBlank(s.snapshotId) && parent != "" && IsBlank(parent) && s.parent == Some(parent)
    ensures var store := map[s.snapshotId := s];
            ValidStore(store) && IsOutcome(store, s.snapshotId, Err(BlankId)) && !Endless(store, s.snapshotId)
  {
    var store := map[s.snapshotId := s];
    assert Ancestor(store, s.snapshotId, 0) == Some(s.snapshotId);
    assert BlankParent(store[Ancestor(store, s.snapshotId, 0).value]);
    BlankEnds(store, s.snapshotId);
  }

  /** `get_lineage` for a snapshot that is stored. */
  method WalkLineage(store: Store, id: string) returns (r: Result<seq<Record>, LineageError>)
    requires ValidStore(store) && id in store
    ensures IsOutcome(store, id, r)
  {
    var s := store[id];
    var walked: seq<Record> := [];
    var current := s;
    var visited: set<string> := {};
    ghost var path := [s];
    while current.parent.Some? && current.parent.value != ""
      invariant path == [s] + walked && IsPath(store, path) && current == path[|path| - 1]
      invariant visited == IdsOf(path[..|path| - 1]) && visited <= store.Keys
      decreases store.Keys - visited
    {
      if current.snapshotId in visited {
        CycleFound(store, path);
        return Err(Cycle);
      }
      assert Stored(store, current);
      visited := visited + {current.snapshotId};
      VisitedGrows(path);
      var p := current.parent.value;
      if IsBlank(p) {
        PathWalk(store, path, |path| - 1);
        assert BlankParent(store[Ancestor(store, id, |path| - 1).value]);
        return Err(BlankId);
      }
      if p !in store {
        break;
      }
      walked := walked + [store[p]];
      current := store[p];
      ghost var longer := path + [current];
      assert IsPath(store, longer) && longer[..|longer| - 1] == path;
      path := longer;
    }
    var chain := Reversed(walked) + [s];
    LineageBuilt(store, path, walked, chain);
    r := Ok(chain);
  }

  lemma VisitedGrows(path: seq<Record>)
    requires path != []
    ensures IdsOf(path) == IdsOf(path[..|path| - 1]) + {path[|path| - 1].snapshotId}
  {
    var n := |path| - 1;
    forall x | x in IdsOf(path)
      ensures x in IdsOf(path[..n]) + {path[n].snapshotId}
    {
      var i :| 0 <= i < |path| && path[i].snapshotId == x;
      assert i < n ==> path[..n][i].snapshotId == x;
    }
  }

  lemma CycleFound(store: Store, path: seq<Record>)
    requires IsPath(store, path) && path[|path| - 1].snapshotId in IdsOf(path[..|path| - 1])
    ensures Endless(store, path[0].snapshotId)
  {
    var id, m := path[0].snapshotId, |path| - 1;
    var i :| 0 <= i < m && path[..m][i].snapshotId == path[m].snapshotId;
    PathWalk(store, path, i);
    PathWalk(store, path, m);
    forall n: nat
      ensures Ancestor(store, id, n).Some?
    {
      RepeatIsEndless(store, id, i, m, n);
    }
  }

  lemma LineageBuilt(store: Store, path: seq<Record>, walked: seq<Record>, chain: seq<Record>)
    requires ValidStore(store) && IsPath(store, path) && path == [path[0]] + walked
    requires var last := path[|path| - 1]; StoredParent(store, last) == None && !BlankParent(last)
    requires chain == Reversed(walked) + [path[0]]
    ensures IsLineage(store, path[0].snapshotId, chain) && !ReachesBlank(store, path[0].snapshotId)
  {
    var id, n := path[0].snapshotId, |walked|;
    assert forall i :: 0 <= i <= n ==> chain[i] == path[n - i];
    assert forall i :: 0 <= i <= n ==> Stored(store, chain[i]);
    forall i | 1 <= i < |chain|
      ensures chain[i].parent == Some(chain[i - 1].snapshotId)
    {
      assert path[n - i].parent == Some(path[n - i + 1].snapshotId);
    }
    PathWalk(store, path, n);
    assert EndsAt(store, id, n, path[n].snapshotId);
    if ReachesBlank(store, id) {
      var k: nat :| Ancestor(store, id, k).Some? && BlankParent(store[Ancestor(store, id, k).value]);
      EndUnique(store, id, n, path[n].snapshotId, k, Ancestor(store, id, k).value);
    }
  }
}
