/**
 The retention sweep: which snapshots a sweep deletes, and what every sweep keeps.
 */
module Retention {
  import opened Prelude
  import opened SnapshotTypes

  // ------------------------------------------------------------------- order

  /** Code-point order on strings. */
  predicate StringLess(a: string, b: string) {
    if b == [] then false
    else if a == [] then true
    else a[0] < b[0] || (a[0] == b[0] && StringLess(a[1..], b[1..]))
  }

  lemma {:induction false} StringOrder(a: string, b: string)
    ensures !(StringLess(a, b) && StringLess(b, a))
    ensures StringLess(a, b) || StringLess(b, a) || a == b
    ensures !StringLess(a, a)
    decreases |a| + |b|
  {
    if a != [] && b != [] && a[0] == b[0] {
      StringOrder(a[1..], b[1..]);
      assert a == [a[0]] + a[1..] && b == [b[0]] + b[1..];
    }
    if a != [] {
      StringIrreflexive(a);
    }
  }

  lemma {:induction false} StringIrreflexive(a: string)
    ensures !StringLess(a, a)
  {
    if a != [] {
      StringIrreflexive(a[1..]);
    }
  }

  lemma {:induction false} StringTransitive(a: string, b: string, c: string)
    requires StringLess(a, b) && StringLess(b, c)
    ensures StringLess(a, c)
  {
    if a != [] && a[0] == b[0] == c[0] {
      StringTransitive(a[1..], b[1..], c[1..]);
    }
  }

  /** The sort key, newest first: created later, or at the same time with a larger id. */
  predicate Newer(s: Record, t: Record) {
    s.createdAt > t.createdAt || (s.createdAt == t.createdAt && StringLess(t.snapshotId, s.snapshotId))
  }

  lemma NewerTransitive(s: Record, t: Record, u: Record)
    requires Newer(s, t) && Newer(t, u)
    ensures Newer(s, u)
  {
    if s.createdAt == t.createdAt == u.createdAt {
      StringTransitive(u.snapshotId, t.snapshotId, s.snapshotId);
    }
  }

  lemma NewerTotal(s: Record, t: Record)
    ensures !(Newer(s, t) && Newer(t, s))
    ensures Newer(s, t) || Newer(t, s) || (s.createdAt == t.createdAt && s.snapshotId == t.snapshotId)
    ensures s.snapshotId == t.snapshotId && s.createdAt == t.createdAt ==> !Newer(s, t)
  {
    StringOrder(s.snapshotId, t.snapshotId);
  }

  predicate NewestFirst(s: seq<Record>) {
    forall i, j :: 0 <= i < j < |s| ==> Newer(s[i], s[j])
  }

  ghost predicate DistinctIds(r: set<Record>) {
    forall s, t :: s in r && t in r && s.snapshotId == t.snapshotId ==> s == t
  }

  ghost function Elements(s: seq<Record>): set<Record> {
    set t | t in s
  }

  // ------------------------------------------------------- what a sweep means

  predicate TimeExpired(s: Record, now: real) {
    match s.expiresAt
    case Some(t) => now >= t
    case None =>
      UsesDays(s.policy) &&
      match RetentionDays(s.params)
      case Some(days) => now >= s.createdAt + days * SECONDS_PER_DAY
      case None => false
  }

  /** Snapshots are counted per policy and parameters. */
  predicate SameGroup(s: Record, t: Record) {
    s.policy == t.policy && s.params == t.params
  }

  ghost function NewerPeers(r: set<Record>, s: Record): set<Record> {
    set t | t in r && SameGroup(t, s) && Newer(t, s)
  }

  /** There are already enough newer snapshots in the group. */
  ghost predicate BeyondCount(r: set<Record>, s: Record) {
    && UsesCount(s.policy)
    && RetentionCount(s.params).Some?
    && |NewerPeers(r, s)| >= RetentionCount(s.params).value
  }

  ghost predicate Doomed(r: set<Record>, now: real, s: Record) {
    s in r && (TimeExpired(s, now) || BeyondCount(r, s))
  }

  ghost function Ids(r: set<Record>): set<string> {
    set s | s in r :: s.snapshotId
  }

  ghost function DoomedIds(r: set<Record>, now: real): set<string> {
    set s | s in r && Doomed(r, now, s) :: s.snapshotId
  }

  /** The parent ids of the snapshots whose id is in `keep`. */
  ghost function ParentsOf(r: set<Record>, keep: set<string>): set<string> {
    set s | s in r && s.snapshotId in keep && s.parent.Some? :: s.parent.value
  }

  ghost function RetainedIds(r: set<Record>, now: real): set<string> {
    Ids(r) - DoomedIds(r, now)
  }

  /** What the code deletes: only direct parents of the initially retained snapshots are saved. */
  ghost function SweptIds(r: set<Record>, now: real): set<string> {
    DoomedIds(r, now) - ParentsOf(r, RetainedIds(r, now))
  }

  ghost function Survivors(r: set<Record>, now: real): set<Record> {
    set s | s in r && s.snapshotId !in SweptIds(r, now)
  }

  // -------------------------------------------------------- sorting and loops

  lemma {:induction false} InsertSorted(s: Record, rest: seq<Record>, at: nat)
    requires at <= |rest| && NewestFirst(rest)
    requires forall i :: 0 <= i < at ==> Newer(rest[i], s)
    requires at < |rest| ==> Newer(s, rest[at])
    ensures NewestFirst(rest[..at] + [s] + rest[at..])
  {
    forall i | at < i < |rest|
      ensures Newer(s, rest[i])
    {
      NewerTransitive(s, rest[at], rest[i]);
    }
  }

  /** `sorted(..., reverse=True)` on the sort key, for records with distinct ids. */
  method SortNewestFirst(snapshots: seq<Record>) returns (ordered: seq<Record>)
    requires forall i, j :: 0 <= i < j < |snapshots| ==> snapshots[i].snapshotId != snapshots[j].snapshotId
    ensures NewestFirst(ordered)
    ensures Elements(ordered) == Elements(snapshots)
    ensures forall i, j :: 0 <= i < j < |ordered| ==> ordered[i].snapshotId != ordered[j].snapshotId
  {
    ordered := [];
    for k := 0 to |snapshots|
      invariant NewestFirst(ordered)
      invariant forall i, j :: 0 <= i < j < |ordered| ==> ordered[i].snapshotId != ordered[j].snapshotId
      invariant Elements(ordered) == Elements(snapshots[..k])
    {
      var s := snapshots[k];
      assert snapshots[..k + 1] == snapshots[..k] + [s];
      forall t | t in ordered
        ensures t.snapshotId != s.snapshotId
      {
        assert t in Elements(ordered);
        assert t in snapshots[..k];
      }
      var at := 0;
      while at < |ordered| && Newer(ordered[at], s)
        invariant 0 <= at <= |ordered|
        invariant forall i :: 0 <= i < at ==> Newer(ordered[i], s)
      {
        at := at + 1;
      }
      if at < |ordered| {
        NewerTotal(s, ordered[at]);
      }
      InsertSorted(s, ordered, at);
      ghost var was := ordered;
      ordered := ordered[..at] + [s] + ordered[at..];
      Inserted(was, s, at);
    }
    assert snapshots[..|snapshots|] == snapshots;
  }

  lemma Inserted(was: seq<Record>, s: Record, at: nat)
    requires at <= |was|
    ensures Elements(was[..at] + [s] + was[at..]) == Elements(was) + {s}
  {
    assert was == was[..at] + was[at..];
  }

  type GroupKey = (Policy, Params)

  function KeyOf(s: Record): GroupKey { (s.policy, s.params) }

  /** `group` lists, newest first, the members of `r` with the given key. */
  ghost predicate IsGroup(r: set<Record>, key: GroupKey, group: seq<Record>) {
    && NewestFirst(group)
    && forall s :: s in group <==> s in r && KeyOf(s) == key
  }

  /** In a group listed newest first, the number of newer peers is the position. */
  lemma {:induction false} PositionIsRank(r: set<Record>, key: GroupKey, group: seq<Record>, i: nat)
    requires IsGroup(r, key, group) && i < |group|
    ensures |NewerPeers(r, group[i])| == i
  {
    var s := group[i];
    assert s in group && KeyOf(s) == key;
    var before := Elements(group[..i]);
    forall t
      ensures t in NewerPeers(r, s) <==> t in before
    {
      if t in NewerPeers(r, s) {
        assert t in group;
        var j :| 0 <= j < |group| && group[j] == t;
        NewerTotal(t, s);
        assert group[..i][j] == t;
      }
      if t in before {
        var j :| 0 <= j < |group[..i]| && group[..i][j] == t;
        assert group[j] == t && t in group;
      }
    }
    assert NewerPeers(r, s) == before;
    forall j, k | 0 <= j < k < i
      ensures group[..i][j] != group[..i][k]
    {
      NewerTotal(group[j], group[k]);
    }
    DistinctCardinality(group[..i]);
  }

  lemma {:induction false} DistinctCardinality(s: seq<Record>)
    requires Distinct(s)
    ensures |Elements(s)| == |s|
  {
    if s != [] {
      var n := |s| - 1;
      DistinctCardinality(s[..n]);
      assert s == s[..n] + [s[n]];
      assert Elements(s) == Elements(s[..n]) + {s[n]};
    }
  }

  method ExpiredIds(ordered: seq<Record>, now: real) returns (ids: set<string>)
    ensures ids == set s | s in ordered && TimeExpired(s, now) :: s.snapshotId
  {
    ids := {};
    for k := 0 to |ordered|
      invariant ids == set s | s in ordered[..k] && TimeExpired(s, now) :: s.snapshotId
    {
      assert ordered[..k + 1] == ordered[..k] + [ordered[k]];
      if TimeExpired(ordered[k], now) {
        ids := ids + {ordered[k].snapshotId};
      }
    }
    assert ordered[..|ordered|] == ordered;
  }

  ghost predicate AreGroups(r: set<Record>, grouped: map<GroupKey, seq<Record>>) {
    && (forall k :: k in grouped ==> grouped[k] != [] && IsGroup(r, k, grouped[k]) && UsesCount(k.0))
    && (forall s :: s in r && UsesCount(s.policy) ==> KeyOf(s) in grouped)
  }

  method GroupSnapshots(ordered: seq<Record>) returns (grouped: map<GroupKey, seq<Record>>)
    requires NewestFirst(ordered)
    ensures AreGroups(Elements(ordered), grouped)
  {
    grouped := map[];
    for k := 0 to |ordered|
      invariant AreGroups(Elements(ordered[..k]), grouped)
    {
      var s := ordered[k];
      ghost var seen := Elements(ordered[..k]);
      assert ordered[..k + 1] == ordered[..k] + [s];
      assert Elements(ordered[..k + 1]) == seen + {s};
      ghost var before := grouped;
      if UsesCount(s.policy) {
        var peers := if KeyOf(s) in grouped then grouped[KeyOf(s)] else [];
        forall t | t in peers
          ensures Newer(t, s)
        {
          assert t in seen;
        }
        AppendToGroup(seen, s, peers);
        grouped := grouped[KeyOf(s) := peers + [s]];
      }
      forall key | key in grouped
        ensures grouped[key] != [] && IsGroup(seen + {s}, key, grouped[key]) && UsesCount(key.0)
      {
        if !(UsesCount(s.policy) && key == KeyOf(s)) {
          assert key in before && KeyOf(s) != key;
          assert IsGroup(seen, key, before[key]);
        }
      }
    }
    assert ordered[..|ordered|] == ordered;
  }

  lemma AppendToGroup(seen: set<Record>, s: Record, peers: seq<Record>)
    requires IsGroup(seen, KeyOf(s), peers) || (peers == [] && forall t {:trigger KeyOf(t)} :: t in seen ==> KeyOf(t) != KeyOf(s))
    requires forall t :: t in peers ==> Newer(t, s)
    ensures IsGroup(seen + {s}, KeyOf(s), peers + [s])
  {
  }

  method OverflowIds(grouped: map<GroupKey, seq<Record>>, ghost r: set<Record>) returns (ids: set<string>)
    requires AreGroups(r, grouped)
    ensures ids == set s | s in r && BeyondCount(r, s) :: s.snapshotId
  {
    ids := {};
    var todo := grouped.Keys;
    while todo != {}
      invariant todo <= grouped.Keys
      invariant ids == set s | s in r && BeyondCount(r, s) && KeyOf(s) !in todo :: s.snapshotId
    {
      var key :| key in todo;
      var group := grouped[key];
      ghost var before := ids;
      var keep := RetentionCount(group[0].params);
      assert group[0] in group;
      if keep.Some? {
        var extra := Tail(group, keep.value);
        ids := ids + extra;
        OverflowOfGroup(r, key, group, keep.value);
      }
      ghost var old_ := todo;
      todo := todo - {key};
      OverflowStep(r, old_, key, before, ids);
    }
  }

  /** The ids of `group[keep:]`. */
  function Tail(group: seq<Record>, keep: nat): set<string> {
    set i | keep <= i < |group| :: group[i].snapshotId
  }

  lemma OverflowOfGroup(r: set<Record>, key: GroupKey, group: seq<Record>, keep: nat)
    requires IsGroup(r, key, group) && UsesCount(key.0) && RetentionCount(key.1) == Some(keep)
    ensures Tail(group, keep) == set s | s in r && BeyondCount(r, s) && KeyOf(s) == key :: s.snapshotId
  {
    forall i: nat | i < |group|
      ensures group[i] in r && KeyOf(group[i]) == key
      ensures BeyondCount(r, group[i]) <==> keep <= i
    {
      assert group[i] in group;
      PositionIsRank(r, key, group, i);
    }
    forall s | s in r && BeyondCount(r, s) && KeyOf(s) == key
      ensures s.snapshotId in Tail(group, keep)
    {
      assert s in group;
    }
  }

  lemma OverflowStep(r: set<Record>, todo: set<GroupKey>, key: GroupKey, before: set<string>, after: set<string>)
    requires key in todo
    requires before == set s | s in r && BeyondCount(r, s) && KeyOf(s) !in todo :: s.snapshotId
    requires after == before + set s | s in r && BeyondCount(r, s) && KeyOf(s) == key :: s.snapshotId
    ensures after == set s | s in r && BeyondCount(r, s) && KeyOf(s) !in todo - {key} :: s.snapshotId
  {
  }

  /** One evaluation of `required_parents` in the protection loop. */
  method RequiredParents(snapshots: seq<Record>, retained: set<string>) returns (parents: set<string>)
    ensures parents == ParentsOf(Elements(snapshots), retained)
  {
    parents := set s | s in snapshots && s.snapshotId in retained && s.parent.Some? :: s.parent.value;
  }

  /** `_retention_candidates`: the ids to delete, newest first. */
  method RetentionCandidates(snapshots: seq<Record>, now: real) returns (result: seq<string>)
    requires forall i, j :: 0 <= i < j < |snapshots| ==> snapshots[i].snapshotId != snapshots[j].snapshotId
    ensures Distinct(result)
    ensures (set id | id in result) == SweptIds(Elements(snapshots), now)
    ensures forall s, t :: s in snapshots && t in snapshots ==>
              forall i, j :: 0 <= i < j < |result| && result[i] == s.snapshotId && result[j] == t.snapshotId ==> Newer(s, t)
  {
    ghost var r := Elements(snapshots);
    var ordered := SortNewestFirst(snapshots);
    var candidates := ExpiredIds(ordered, now);
    var grouped := GroupSnapshots(ordered);
    var overflow := OverflowIds(grouped, r);
    candidates := candidates + overflow;
    assert candidates == DoomedIds(r, now) by { DoomedSplit(r, ordered, now); }
    var retained := (set s | s in ordered :: s.snapshotId) - candidates;
    assert retained == RetainedIds(r, now) by { assert Elements(ordered) == r; }
    ghost var parents := ParentsOf(r, retained);
    // `retained` is not recomputed inside the loop
    while true
      invariant DoomedIds(r, now) - parents <= candidates <= DoomedIds(r, now)
      decreases candidates
    {
      var required := RequiredParents(snapshots, retained);
      var rescued := candidates * required;
      if rescued == {} {
        assert forall id :: id in candidates && id in required ==> id in rescued;
        break;
      }
      candidates := candidates - rescued;
    }
    assert candidates == SweptIds(r, now);
    result := PickIds(ordered, candidates);
    assert forall s :: s in ordered <==> s in Elements(ordered);
    assert forall s :: s in snapshots <==> s in r;
    SweptAreIds(r, now);
  }

  lemma DoomedSplit(r: set<Record>, ordered: seq<Record>, now: real)
    requires Elements(ordered) == r
    ensures DoomedIds(r, now) == (set s | s in ordered && TimeExpired(s, now) :: s.snapshotId)
                               + (set s | s in r && BeyondCount(r, s) :: s.snapshotId)
  {
    assert forall s :: s in ordered <==> s in r;
  }

  lemma SweptAreIds(r: set<Record>, now: real)
    ensures SweptIds(r, now) <= DoomedIds(r, now) <= Ids(r)
  {
  }

  /** `sorted(candidates, key=position)`. */
  method PickIds(ordered: seq<Record>, candidates: set<string>) returns (result: seq<string>)
    requires NewestFirst(ordered)
    requires forall i, j :: 0 <= i < j < |ordered| ==> ordered[i].snapshotId != ordered[j].snapshotId
    ensures Distinct(result)
    ensures forall id :: id in result <==> id in candidates && exists s :: s in ordered && s.snapshotId == id
    ensures forall s, t :: s in ordered && t in ordered ==>
              forall i, j :: 0 <= i < j < |result| && result[i] == s.snapshotId && result[j] == t.snapshotId ==> Newer(s, t)
  {
    result := [];
    ghost var at: seq<nat> := [];
    for k := 0 to |ordered|
      invariant |at| == |result|
      invariant forall i :: 0 <= i < |at| ==> at[i] < k && ordered[at[i]].snapshotId == result[i]
      invariant forall i, j :: 0 <= i < j < |at| ==> at[i] < at[j]
      invariant forall n :: 0 <= n < k && ordered[n].snapshotId in candidates ==> ordered[n].snapshotId in result
      invariant forall id :: id in result ==> id in candidates
    {
      if ordered[k].snapshotId in candidates {
        result := result + [ordered[k].snapshotId];
        at := at + [k];
      }
    }
  }
}
