/**
 What every retention sweep keeps, and where the sweep as written falls short of
 keeping the ancestors of what it retains.
 */
module RetentionLaws {
  import opened Prelude
  import opened SnapshotTypes
  import opened Retention

  lemma SubsetCardinality<T>(a: set<T>, b: set<T>)
    requires a <= b
    ensures |a| <= |b|
  {
    assert b == a + (b - a);
  }

  // ------------------------------------------------- what the parameters ask for

  /** The parameter dictionary has this value under the key. */
  predicate Says(p: Params, key: string, v: Value) {
    exists i :: 0 <= i < |p| && p[i] == (key, v) && forall j :: 0 <= j < i ==> p[j].0 != key
  }

  predicate Lacks(p: Params, key: string) {
    forall i :: 0 <= i < |p| ==> p[i].0 != key
  }

  /** The first of the keys that the dictionary has carries this value. */
  ghost predicate FirstSays(p: Params, keys: seq<string>, v: Value) {
    exists k :: 0 <= k < |keys| && Says(p, keys[k], v) && forall j :: 0 <= j < k ==> Lacks(p, keys[j])
  }

  ghost predicate LacksAll(p: Params, keys: seq<string>) {
    forall k :: 0 <= k < |keys| ==> Lacks(p, keys[k])
  }

  lemma {:induction false} LookupMeans(p: Params, key: string, v: Value)
    ensures Lookup(p, key) == Some(v) <==> Says(p, key, v)
    ensures Lookup(p, key) == None <==> Lacks(p, key)
  {
    if p != [] {
      LookupMeans(p[1..], key, v);
      if p[0].0 == key {
        assert Says(p, key, p[0].1);
      } else {
        LookupTail(p, key, v);
      }
    }
  }

  lemma LookupTail(p: Params, key: string, v: Value)
    requires p != [] && p[0].0 != key
    ensures Says(p, key, v) <==> Says(p[1..], key, v)
    ensures Lacks(p, key) <==> Lacks(p[1..], key)
  {
    var rest := p[1..];
    assert forall i :: 0 <= i < |rest| ==> rest[i] == p[i + 1];
    if Says(rest, key, v) {
      var i :| 0 <= i < |rest| && rest[i] == (key, v) && forall j :: 0 <= j < i ==> rest[j].0 != key;
      assert p[i + 1] == (key, v) && forall j :: 0 <= j < i + 1 ==> p[j].0 != key;
    }
    if Says(p, key, v) {
      var i :| 0 <= i < |p| && p[i] == (key, v) && forall j :: 0 <= j < i ==> p[j].0 != key;
      assert rest[i - 1] == (key, v) && forall j :: 0 <= j < i - 1 ==> rest[j].0 != key;
    }
    if Lacks(rest, key) {
      forall i | 0 <= i < |p|
        ensures p[i].0 != key
      {
        assert i > 0 ==> p[i] == rest[i - 1];
      }
    }
  }

  lemma {:induction false} FirstOfMeans(p: Params, keys: seq<string>, v: Value)
    ensures FirstOf(p, keys) == Some(v) <==> FirstSays(p, keys, v)
    ensures FirstOf(p, keys) == None <==> LacksAll(p, keys)
  {
    if keys != [] {
      FirstOfMeans(p, keys[1..], v);
      LookupMeans(p, keys[0], v);
      if Lookup(p, keys[0]).Some? {
        FirstKeyDecides(p, keys, v);
      } else {
        LookupMeans(p, keys[0], BoolV(true));
        FirstKeyMissing(p, keys, v);
      }
    }
  }

  lemma FirstKeyDecides(p: Params, keys: seq<string>, v: Value)
    requires keys != [] && !Lacks(p, keys[0])
    ensures FirstSays(p, keys, v) <==> Says(p, keys[0], v)
    ensures !LacksAll(p, keys)
  {
  }

  lemma FirstKeyMissing(p: Params, keys: seq<string>, v: Value)
    requires keys != [] && Lacks(p, keys[0])
    ensures FirstSays(p, keys, v) <==> FirstSays(p, keys[1..], v)
    ensures LacksAll(p, keys) <==> LacksAll(p, keys[1..])
  {
    var rest := keys[1..];
    if FirstSays(p, keys, v) {
      var k :| 0 <= k < |keys| && Says(p, keys[k], v) && forall j :: 0 <= j < k ==> Lacks(p, keys[j]);
      assert k > 0 && Says(p, rest[k - 1], v) && forall j :: 0 <= j < k - 1 ==> Lacks(p, rest[j]);
    }
    if FirstSays(p, rest, v) {
      var k :| 0 <= k < |rest| && Says(p, rest[k], v) && forall j :: 0 <= j < k ==> Lacks(p, rest[j]);
      assert Says(p, keys[k + 1], v);
      forall j | 0 <= j < k + 1
        ensures Lacks(p, keys[j])
      {
        assert j > 0 ==> keys[j] == rest[j - 1];
      }
    }
    assert forall k :: 1 <= k < |keys| ==> keys[k] == rest[k - 1];
  }

  /** The parameters ask to keep the last `n`. */
  ghost predicate AsksToKeep(p: Params, n: int) {
    var keys := ["count", "n", "keep", "keep_last_n", "retain"];
    n >= 1 && (FirstSays(p, keys, IntV(n)) || (n == 1 && LacksAll(p, keys)))
  }

  /** The parameters ask to keep for `days` days. */
  ghost predicate AsksForDays(p: Params, days: real) {
    var keys := ["days", "within_days", "retention_days"];
    && days >= 0.0
    && (|| FirstSays(p, keys, FloatV(days))
        || (days == days.Floor as real && FirstSays(p, keys, IntV(days.Floor)))
        || (days == 30.0 && LacksAll(p, keys)))
  }

  lemma CountExactly(p: Params, n: int)
    ensures (n >= 0 && RetentionCount(p) == Some(n)) <==> AsksToKeep(p, n)
  {
    FirstOfMeans(p, ["count", "n", "keep", "keep_last_n", "retain"], IntV(n));
  }

  lemma DaysExactly(p: Params, days: real)
    ensures RetentionDays(p) == Some(days) <==> AsksForDays(p, days)
  {
    var keys := ["days", "within_days", "retention_days"];
    FirstOfMeans(p, keys, FloatV(days));
    FirstOfMeans(p, keys, IntV(days.Floor));
    match FirstOf(p, keys)
    case Some(IntV(i)) => assert (i as real).Floor == i;
    case _ =>
  }

  /** Which parameters a policy accepts. */
  lemma ValidRetentionExactly(policy: Policy, p: Params)
    ensures ValidRetention(policy, p) <==>
      && (policy == KeepWithinDays || policy == KeepLastNWithinDays ==> exists days :: AsksForDays(p, days))
      && (policy == KeepLastN || policy == KeepLastNWithinDays ==> exists n :: AsksToKeep(p, n))
  {
    if RetentionDays(p).Some? {
      DaysExactly(p, RetentionDays(p).value);
    }
    if RetentionCount(p).Some? {
      CountExactly(p, RetentionCount(p).value);
    }
    forall days | AsksForDays(p, days)
      ensures RetentionDays(p) == Some(days)
    {
      DaysExactly(p, days);
    }
    forall n | AsksToKeep(p, n)
      ensures RetentionCount(p) == Some(n)
    {
      CountExactly(p, n);
    }
  }

  /** The expiry that a new record is stamped with: as many days as asked for after its creation, for the policies that
      count days, and none for the others. */
  lemma StampExactly(policy: Policy, p: Params, createdAt: real)
    requires ValidRetention(policy, p)
    ensures policy == KeepAll || policy == KeepLastN ==> ExpiresAt(policy, p, createdAt) == None
    ensures policy == KeepWithinDays || policy == KeepLastNWithinDays ==>
      forall days :: AsksForDays(p, days) ==> ExpiresAt(policy, p, createdAt) == Some(createdAt + days * 86400.0)
  {
    forall days | AsksForDays(p, days)
      ensures RetentionDays(p) == Some(days)
    {
      DaysExactly(p, days);
    }
  }

  /** The expiry stamped on a new record and the one recomputed from its parameters agree: a record
      expires by time exactly when its policy counts days and as many as asked for have passed. */
  lemma ExpiryAgrees(s: Record, now: real)
    requires ValidRetention(s.policy, s.params) && s.expiresAt == ExpiresAt(s.policy, s.params, s.createdAt)
    ensures TimeExpired(s, now) == TimeExpired(s.(expiresAt := None), now)
    ensures TimeExpired(s, now) <==>
            && (s.policy == KeepWithinDays || s.policy == KeepLastNWithinDays)
            && exists days :: AsksForDays(s.params, days) && now - s.createdAt >= days * 86400.0
  {
    if UsesDays(s.policy) {
      DaysExactly(s.params, RetentionDays(s.params).value);
      forall days | AsksForDays(s.params, days)
        ensures days == RetentionDays(s.params).value
      {
        DaysExactly(s.params, days);
      }
    }
  }

  // -------------------------------------------------------------------- ranks

  /** Deleting snapshots only improves ranks, so it dooms nothing new. */
  lemma DoomedShrinks(r: set<Record>, r': set<Record>, now: real)
    requires r' <= r
    ensures forall s :: s in r' && BeyondCount(r', s) ==> BeyondCount(r, s)
    ensures DoomedIds(r', now) <= DoomedIds(r, now)
  {
    forall s | s in r' && BeyondCount(r', s)
      ensures BeyondCount(r, s)
    {
      SubsetCardinality(NewerPeers(r', s), NewerPeers(r, s));
    }
  }

  /** A second sweep at the same time deletes nothing. */
  lemma SweepIdempotent(r: set<Record>, now: real)
    ensures SweptIds(Survivors(r, now), now) == {}
  {
    var r' := Survivors(r, now);
    DoomedShrinks(r, r', now);
    forall id | id in DoomedIds(r', now)
      ensures id in ParentsOf(r', RetainedIds(r', now))
    {
      assert id in ParentsOf(r, RetainedIds(r, now));
      var w :| w in r && w.snapshotId in RetainedIds(r, now) && w.parent == Some(id);
      assert w in r' && w.snapshotId in RetainedIds(r', now);
    }
  }

  // ---------------------------------------------------------------- survival

  /** Sweeps at a sequence of times, with nothing saved in between. */
  ghost function Sweeps(r: set<Record>, times: seq<real>): set<Record> {
    if times == [] then r else Sweeps(Survivors(r, times[0]), times[1..])
  }

  lemma {:induction false} UndoomedSurvives(r: set<Record>, times: seq<real>, s: Record)
    requires DistinctIds(r) && s in r && !BeyondCount(r, s)
    requires forall i :: 0 <= i < |times| ==> !TimeExpired(s, times[i])
    ensures s in Sweeps(r, times)
  {
    if times != [] {
      var r' := Survivors(r, times[0]);
      assert s in r' by {
        forall t | t in r && t.snapshotId == s.snapshotId
          ensures !Doomed(r, times[0], t)
        {
          assert t == s;
        }
      }
      DoomedShrinks(r, r', times[0]);
      UndoomedSurvives(r', times[1..], s);
    }
  }

  /** The newest `n` of a group that keeps `n` outlive every series of sweeps until they expire. */
  lemma NewestOutliveSweeps(r: set<Record>, times: seq<real>, s: Record, n: nat)
    requires DistinctIds(r) && s in r && UsesCount(s.policy)
    requires RetentionCount(s.params) == Some(n) && |NewerPeers(r, s)| < n
    requires forall i :: 0 <= i < |times| ==> !TimeExpired(s, times[i])
    ensures s in Sweeps(r, times)
  {
    UndoomedSurvives(r, times, s);
  }

  /** The snapshots of the same policy and parameters that were created later, or at the same instant with a
      larger id. */
  ghost function LaterPeers(r: set<Record>, s: Record): set<Record> {
    set t | t in r && t.policy == s.policy && t.params == s.params &&
            (t.createdAt > s.createdAt || (t.createdAt == s.createdAt && StringLess(s.snapshotId, t.snapshotId)))
  }

  /**
   Keep-last-N from the parameters themselves. With fewer than `n` later peers a snapshot outlives every series of
   sweeps until it expires by time; with `n` or more it is doomed, and goes with the next sweep unless it is the
   parent of a snapshot that is not doomed.
   */
  lemma KeepsTheLastN(r: set<Record>, times: seq<real>, s: Record, n: int, now: real)
    requires DistinctIds(r) && s in r && (s.policy == KeepLastN || s.policy == KeepLastNWithinDays) && AsksToKeep(s.params, n)
    ensures |LaterPeers(r, s)| < n && (forall i :: 0 <= i < |times| ==> !TimeExpired(s, times[i])) ==> s in Sweeps(r, times)
    ensures |LaterPeers(r, s)| < n ==> (Doomed(r, now, s) <==> TimeExpired(s, now))
    ensures |LaterPeers(r, s)| >= n ==>
      && Doomed(r, now, s)
      && (s.snapshotId in SweptIds(r, now) <==>
            forall w :: w in r && w.parent == Some(s.snapshotId) ==> w.snapshotId in DoomedIds(r, now))
  {
    CountExactly(s.params, n);
    assert LaterPeers(r, s) == NewerPeers(r, s);
    if |LaterPeers(r, s)| < n && forall i :: 0 <= i < |times| ==> !TimeExpired(s, times[i]) {
      NewestOutliveSweeps(r, times, s, n);
    }
    if Doomed(r, now, s) {
      SweptExactly(r, now, s);
    }
  }

  /** A doomed snapshot is swept exactly when all its children are doomed. */
  lemma SweptExactly(r: set<Record>, now: real, s: Record)
    requires Doomed(r, now, s)
    ensures s.snapshotId in SweptIds(r, now) <==>
            forall w :: w in r && w.parent == Some(s.snapshotId) ==> w.snapshotId in DoomedIds(r, now)
  {
    assert s.snapshotId in DoomedIds(r, now);
    if s.snapshotId in ParentsOf(r, RetainedIds(r, now)) {
      var w :| w in r && w.snapshotId in RetainedIds(r, now) && w.parent == Some(s.snapshotId);
      assert w.snapshotId !in DoomedIds(r, now);
    }
    forall w | w in r && w.parent == Some(s.snapshotId) && w.snapshotId !in DoomedIds(r, now)
      ensures s.snapshotId in ParentsOf(r, RetainedIds(r, now))
    {
      assert w.snapshotId in RetainedIds(r, now);
    }
  }

  lemma KeepAllOutlivesSweeps(r: set<Record>, times: seq<real>, s: Record)
    requires DistinctIds(r) && s in r && s.policy == KeepAll && s.expiresAt == None
    ensures s in Sweeps(r, times)
  {
    UndoomedSurvives(r, times, s);
  }

  // --------------------------------------------------------- ancestor closure

  /** Every kept snapshot whose parent is stored keeps that parent. */
  ghost predicate AncestorClosed(r: set<Record>, keep: set<string>) {
    forall s :: s in r && s.snapshotId in keep && s.parent.Some? && s.parent.value in Ids(r) ==>
      s.parent.value in keep
  }

  ghost predicate IsProtected(r: set<Record>, now: real, id: string) {
    id in ParentsOf(r, RetainedIds(r, now))
  }

  /** The survivors are ancestor-closed exactly when no doomed snapshot that is itself only
      protected as a parent has a doomed, unprotected parent. */
  lemma ClosedExactly(r: set<Record>, now: real)
    ensures AncestorClosed(r, Ids(r) - SweptIds(r, now)) <==>
            (forall s :: s in r && s.snapshotId in DoomedIds(r, now) && IsProtected(r, now, s.snapshotId)
                         && s.parent.Some? && s.parent.value in DoomedIds(r, now) ==>
               IsProtected(r, now, s.parent.value))
  {
    var keep := Ids(r) - SweptIds(r, now);
    forall s | s in r && s.snapshotId in RetainedIds(r, now) && s.parent.Some?
      ensures IsProtected(r, now, s.parent.value)
    {
    }
    assert forall s :: s in r && s.snapshotId in keep ==>
             s.snapshotId in RetainedIds(r, now) || IsProtected(r, now, s.snapshotId);
  }

  /** The largest set of doomed ids whose deletion leaves an ancestor-closed store. */
  ghost predicate IsIntended(r: set<Record>, now: real, swept: set<string>) {
    && swept <= DoomedIds(r, now)
    && AncestorClosed(r, Ids(r) - swept)
    && forall other :: other <= DoomedIds(r, now) && AncestorClosed(r, Ids(r) - other) ==> other <= swept
  }

  /** The loop as evidently meant: `retained` is recomputed in every round. */
  method IntendedCandidates(snapshots: seq<Record>, doomed: set<string>, now: real) returns (candidates: set<string>)
    requires doomed == DoomedIds(Elements(snapshots), now)
    ensures IsIntended(Elements(snapshots), now, candidates)
  {
    ghost var r := Elements(snapshots);
    candidates := doomed;
    var ids := set s | s in snapshots :: s.snapshotId;
    assert ids == Ids(r);
    while true
      invariant candidates <= doomed
      invariant forall other :: other <= doomed && AncestorClosed(r, Ids(r) - other) ==> other <= candidates
      decreases |candidates|
    {
      var retained := ids - candidates;
      var required := RequiredParents(snapshots, retained);
      var rescued := candidates * required;
      if rescued == {} {
        assert forall id :: id in candidates && id in required ==> id in rescued;
        break;
      }
      forall other | other <= doomed && AncestorClosed(r, Ids(r) - other)
        ensures other <= candidates - rescued
      {
        assert retained <= Ids(r) - other;
      }
      SubsetCardinality(rescued, candidates);
      assert |candidates - rescued| == |candidates| - |rescued|;
      candidates := candidates - rescued;
    }
  }

  /** The code deletes all that was intended, and more exactly when it breaks a lineage. */
  lemma AsWrittenAgainstIntended(r: set<Record>, now: real, intended: set<string>)
    requires IsIntended(r, now, intended)
    ensures intended <= SweptIds(r, now)
    ensures intended == SweptIds(r, now) <==> AncestorClosed(r, Ids(r) - SweptIds(r, now))
  {
    assert RetainedIds(r, now) <= Ids(r) - intended;
  }

  function Example(id: string, parent: Option<string>, expiresAt: Option<real>): Record {
    Record(id, "t", if parent.None? then Full else Incremental, parent, None, "", 0, 0, [], KeepAll, [], 0.0,
           expiresAt, 0, false, "")
  }

  /** On the chain A <- B <- C with A and B expired and C kept, B is saved and A is deleted. */
  lemma GrandparentIsSwept()
    ensures var a, b, c := Example("A", None, Some(1.0)), Example("B", Some("A"), Some(1.0)), Example("C", Some("B"), None);
            SweptIds({a, b, c}, 2.0) == {"A"} && !AncestorClosed({a, b, c}, Ids({a, b, c}) - SweptIds({a, b, c}, 2.0))
  {
    var a, b, c := Example("A", None, Some(1.0)), Example("B", Some("A"), Some(1.0)), Example("C", Some("B"), None);
    var r := {a, b, c};
    assert Doomed(r, 2.0, a) && Doomed(r, 2.0, b) && !Doomed(r, 2.0, c);
    assert DoomedIds(r, 2.0) == {"A", "B"};
    assert RetainedIds(r, 2.0) == {"C"};
    assert ParentsOf(r, {"C"}) == {"B"};
    assert b in r && b.snapshotId in Ids(r) - SweptIds(r, 2.0) && "A" in Ids(r) by { assert a in r; }
  }
}
