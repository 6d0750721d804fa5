/**
 Collecting the descendants of an action over parent pointers that may form cycles.
 */
module Descendants {
  import opened Prelude

  datatype Action = Action(actionId: string, tenantId: string, parentId: Option<string>)

  predicate DistinctActions(actions: seq<Action>) {
    forall i, j :: 0 <= i < j < |actions| ==> actions[i].actionId != actions[j].actionId
  }

  function Ids(actions: seq<Action>): set<string> {
    if actions == [] then {} else {actions[0].actionId} + Ids(actions[1..])
  }

  lemma {:induction false} InIds(actions: seq<Action>, id: string)
    ensures id in Ids(actions) <==> exists a :: a in actions && a.actionId == id
  {
    if actions != [] {
      InIds(actions[1..], id);
      assert forall a :: a in actions <==> a == actions[0] || a in actions[1..];
    }
  }

  lemma {:induction false} IdsOfConcat(a: seq<Action>, b: seq<Action>)
    ensures Ids(a + b) == Ids(a) + Ids(b)
  {
    if a == [] {
      assert a + b == b;
    } else {
      IdsOfConcat(a[1..], b);
      assert (a + b)[1..] == a[1..] + b;
    }
  }

  predicate IsChildOf(a: Action, tenant: string, parent: string) {
    a.parentId == Some(parent) && a.tenantId == tenant
  }

  // ----------------------------------------------------------- specification

  ghost predicate ChildStep(actions: seq<Action>, tenant: string, parent: string, child: string) {
    exists a :: a in actions && a.actionId == child && IsChildOf(a, tenant, parent)
  }

  /** `path` leads from its first id to its last by child steps. */
  ghost predicate IsPath(actions: seq<Action>, tenant: string, path: seq<string>) {
    path != [] && forall i :: 0 <= i < |path| - 1 ==> ChildStep(actions, tenant, path[i], path[i + 1])
  }

  /** `id` is reachable in one or more child steps. */
  ghost predicate Descends(actions: seq<Action>, tenant: string, root: string, id: string) {
    exists path :: |path| >= 2 && IsPath(actions, tenant, path) && path[0] == root && path[|path| - 1] == id
  }

  lemma DescendsFirst(actions: seq<Action>, tenant: string, root: string, mid: string, id: string)
    requires ChildStep(actions, tenant, root, mid) && (mid == id || Descends(actions, tenant, mid, id))
    ensures Descends(actions, tenant, root, id)
  {
    var path := [mid];
    if mid != id {
      path :| |path| >= 2 && IsPath(actions, tenant, path) && path[0] == mid && path[|path| - 1] == id;
    }
    var longer := [root] + path;
    forall i | 0 <= i < |longer| - 1
      ensures ChildStep(actions, tenant, longer[i], longer[i + 1])
    {
      assert i > 0 ==> ChildStep(actions, tenant, path[i - 1], path[i - 1 + 1]);
    }
    assert IsPath(actions, tenant, longer);
  }

  // ------------------------------------------------------------ the traversal

  /** What one call of `_collect` appends, from position `k` of the table on. */
  function Collected(actions: seq<Action>, tenant: string, parent: string, k: nat, visited: set<string>): (r: seq<Action>)
    requires k <= |actions|
    decreases |Ids(actions) - visited|, |actions| - k
  {
    if k == |actions| then []
    else if IsChildOf(actions[k], tenant, parent) && actions[k].actionId !in visited then
      var a := actions[k];
      var seen := visited + {a.actionId};
      InIds(actions, a.actionId);
      Shrinks(Ids(actions), visited, seen);
      var below := Collected(actions, tenant, a.actionId, 0, seen);
      Shrinks(Ids(actions), visited, seen + Ids(below));
      [a] + below + Collected(actions, tenant, parent, k + 1, seen + Ids(below))
    else Collected(actions, tenant, parent, k + 1, visited)
  }

  lemma Shrinks(all: set<string>, a: set<string>, b: set<string>)
    requires a <= b
    ensures |all - b| <= |all - a|
    ensures all * (b - a) != {} ==> |all - b| < |all - a|
  {
    var gone := (all - a) - (all - b);
    assert all - a == (all - b) + gone;
    if all * (b - a) != {} {
      var x :| x in all * (b - a);
      assert x in gone;
    }
  }

  /** The recursive closure over the shared `visited` and `result`. */
  method Collect(actions: seq<Action>, tenant: string, parent: string, visited: set<string>, result: seq<Action>)
    returns (visited': set<string>, result': seq<Action>)
    ensures result' == result + Collected(actions, tenant, parent, 0, visited)
    ensures visited' == visited + Ids(Collected(actions, tenant, parent, 0, visited))
    decreases |Ids(actions) - visited|, 1
  {
    visited', result' := visited, result;
    ghost var all := Collected(actions, tenant, parent, 0, visited);
    for k := 0 to |actions|
      invariant visited <= visited'
      invariant result' + Collected(actions, tenant, parent, k, visited') == result + all
      invariant visited' + Ids(Collected(actions, tenant, parent, k, visited')) == visited + Ids(all)
    {
      var a := actions[k];
      if IsChildOf(a, tenant, parent) && a.actionId !in visited' {
        Descent(actions, tenant, parent, k, visited', result');
        Shrinks(Ids(actions), visited, visited');
        visited', result' := Visit(actions, tenant, a, visited', result');
      }
    }
    assert result' + [] == result';
  }

  /** The body of the loop: record an unvisited child, then collect below it. */
  method Visit(actions: seq<Action>, tenant: string, a: Action, visited: set<string>, result: seq<Action>)
    returns (visited': set<string>, result': seq<Action>)
    requires a in actions && a.actionId !in visited
    ensures var piece := [a] + Collected(actions, tenant, a.actionId, 0, visited + {a.actionId});
            result' == result + piece && visited' == visited + Ids(piece)
    decreases |Ids(actions) - visited|, 0
  {
    visited', result' := visited + {a.actionId}, result + [a];
    InIds(actions, a.actionId);
    Shrinks(Ids(actions), visited, visited');
    ghost var below := Collected(actions, tenant, a.actionId, 0, visited');
    visited', result' := Collect(actions, tenant, a.actionId, visited', result');
    IdsOfConcat([a], below);
    assert Ids([a]) == {a.actionId};
    assert result + [a] + below == result + ([a] + below);
  }

  lemma Descent(actions: seq<Action>, tenant: string, parent: string, k: nat, visited: set<string>, result: seq<Action>)
    requires k < |actions| && IsChildOf(actions[k], tenant, parent) && actions[k].actionId !in visited
    ensures var piece := [actions[k]] + Collected(actions, tenant, actions[k].actionId, 0, visited + {actions[k].actionId});
            var rest := Collected(actions, tenant, parent, k + 1, visited + Ids(piece));
            && result + Collected(actions, tenant, parent, k, visited) == (result + piece) + rest
            && visited + Ids(Collected(actions, tenant, parent, k, visited)) == (visited + Ids(piece)) + Ids(rest)
  {
    var a := actions[k];
    var below := Collected(actions, tenant, a.actionId, 0, visited + {a.actionId});
    var piece := [a] + below;
    IdsOfConcat([a], below);
    assert Ids([a]) == {a.actionId};
    assert visited + Ids(piece) == visited + {a.actionId} + Ids(below);
    var rest := Collected(actions, tenant, parent, k + 1, visited + Ids(piece));
    IdsOfConcat(piece, rest);
    assert result + (piece + rest) == (result + piece) + rest;
  }

  // ----------------------------------------------------------------- results

  /** Unvisited table entries, each one a descendant of the parent, without repetition. */
  ghost predicate SoundFor(actions: seq<Action>, tenant: string, parent: string, visited: set<string>, r: seq<Action>) {
    && DistinctActions(r)
    && forall a :: a in r ==>
         a in actions && a.tenantId == tenant && a.actionId !in visited && Descends(actions, tenant, parent, a.actionId)
  }

  lemma {:induction false} CollectedSound(actions: seq<Action>, tenant: string, parent: string, k: nat, visited: set<string>)
    requires k <= |actions|
    ensures SoundFor(actions, tenant, parent, visited, Collected(actions, tenant, parent, k, visited))
    decreases |Ids(actions) - visited|, |actions| - k
  {
    if k < |actions| {
      var a := actions[k];
      if IsChildOf(a, tenant, parent) && a.actionId !in visited {
        var seen := visited + {a.actionId};
        InIds(actions, a.actionId);
        Shrinks(Ids(actions), visited, seen);
        CollectedSound(actions, tenant, a.actionId, 0, seen);
        var below := Collected(actions, tenant, a.actionId, 0, seen);
        Shrinks(Ids(actions), visited, seen + Ids(below));
        CollectedSound(actions, tenant, parent, k + 1, seen + Ids(below));
        var rest := Collected(actions, tenant, parent, k + 1, seen + Ids(below));
        SoundPieces(actions, tenant, parent, visited, a, below, rest);
      } else {
        CollectedSound(actions, tenant, parent, k + 1, visited);
      }
    }
  }

  lemma SoundPieces(actions: seq<Action>, tenant: string, parent: string, visited: set<string>, a: Action,
                    below: seq<Action>, rest: seq<Action>)
    requires a in actions && IsChildOf(a, tenant, parent) && a.actionId !in visited
    requires SoundFor(actions, tenant, a.actionId, visited + {a.actionId}, below)
    requires SoundFor(actions, tenant, parent, visited + {a.actionId} + Ids(below), rest)
    ensures SoundFor(actions, tenant, parent, visited, [a] + below + rest)
  {
    var r := [a] + below + rest;
    assert ChildStep(actions, tenant, parent, a.actionId);
    forall b | b in r
      ensures b in actions && b.tenantId == tenant && b.actionId !in visited && Descends(actions, tenant, parent, b.actionId)
    {
      if b == a || b in below {
        DescendsFirst(actions, tenant, parent, a.actionId, b.actionId);
      }
    }
    forall i | 0 <= i < |below|
      ensures below[i].actionId in Ids(below)
    {
      InIds(below, below[i].actionId);
    }
  }

  /** Every child of an id in `of` is in `seen`. */
  ghost predicate ChildrenSeen(actions: seq<Action>, tenant: string, of: set<string>, seen: set<string>) {
    forall b :: b in actions && b.tenantId == tenant && b.parentId.Some? && b.parentId.value in of ==> b.actionId in seen
  }

  /** The same for one parent and the table from position `k` on. */
  ghost predicate ChildrenSeenFrom(actions: seq<Action>, tenant: string, parent: string, k: nat, seen: set<string>) {
    forall i :: k <= i < |actions| && IsChildOf(actions[i], tenant, parent) ==> actions[i].actionId in seen
  }

  /** When a call returns, the children of all it recorded, and of its own parent, have been visited. */
  lemma {:induction false} CollectedClosed(actions: seq<Action>, tenant: string, parent: string, k: nat, visited: set<string>)
    requires k <= |actions|
    ensures var r := Collected(actions, tenant, parent, k, visited);
            && ChildrenSeen(actions, tenant, Ids(r), visited + Ids(r))
            && ChildrenSeenFrom(actions, tenant, parent, k, visited + Ids(r))
    decreases |Ids(actions) - visited|, |actions| - k, 1
  {
    if k < |actions| {
      var a := actions[k];
      if IsChildOf(a, tenant, parent) && a.actionId !in visited {
        ClosedAtChild(actions, tenant, parent, k, visited);
      } else {
        CollectedClosed(actions, tenant, parent, k + 1, visited);
      }
    }
  }

  lemma {:induction false} ClosedAtChild(actions: seq<Action>, tenant: string, parent: string, k: nat, visited: set<string>)
    requires k < |actions| && IsChildOf(actions[k], tenant, parent) && actions[k].actionId !in visited
    ensures var r := Collected(actions, tenant, parent, k, visited);
            && ChildrenSeen(actions, tenant, Ids(r), visited + Ids(r))
            && ChildrenSeenFrom(actions, tenant, parent, k, visited + Ids(r))
    decreases |Ids(actions) - visited|, |actions| - k, 0
  {
    var a, seen := actions[k], visited + {actions[k].actionId};
    var below := Collected(actions, tenant, a.actionId, 0, seen);
    ChildShrinks(actions, a, visited, below);
    CollectedClosed(actions, tenant, a.actionId, 0, seen);
    CollectedClosed(actions, tenant, parent, k + 1, seen + Ids(below));
    var rest := Collected(actions, tenant, parent, k + 1, seen + Ids(below));
    ClosedPieces(actions, tenant, parent, k, visited, a, below, rest);
  }

  lemma ChildShrinks(actions: seq<Action>, a: Action, visited: set<string>, below: seq<Action>)
    requires a in actions && a.actionId !in visited
    ensures |Ids(actions) - (visited + {a.actionId})| < |Ids(actions) - visited|
    ensures |Ids(actions) - (visited + {a.actionId} + Ids(below))| < |Ids(actions) - visited|
  {
    InIds(actions, a.actionId);
    Shrinks(Ids(actions), visited, visited + {a.actionId});
    Shrinks(Ids(actions), visited, visited + {a.actionId} + Ids(below));
  }

  lemma ClosedPieces(actions: seq<Action>, tenant: string, parent: string, k: nat, visited: set<string>, a: Action,
                     below: seq<Action>, rest: seq<Action>)
    requires k < |actions| && a == actions[k]
    requires ChildrenSeen(actions, tenant, Ids(below), visited + {a.actionId} + Ids(below))
    requires ChildrenSeenFrom(actions, tenant, a.actionId, 0, visited + {a.actionId} + Ids(below))
    requires ChildrenSeen(actions, tenant, Ids(rest), visited + {a.actionId} + Ids(below) + Ids(rest))
    requires ChildrenSeenFrom(actions, tenant, parent, k + 1, visited + {a.actionId} + Ids(below) + Ids(rest))
    ensures var r := [a] + below + rest;
            && ChildrenSeen(actions, tenant, Ids(r), visited + Ids(r))
            && ChildrenSeenFrom(actions, tenant, parent, k, visited + Ids(r))
  {
    assert Ids([a]) == {a.actionId};
    IdsOfConcat([a], below);
    IdsOfConcat([a] + below, rest);
    assert Ids([a] + below + rest) == {a.actionId} + Ids(below) + Ids(rest);
  }

  /** Every entry follows its parent, or hangs directly below the start. */
  ghost predicate ParentsFirst(parent: string, r: seq<Action>) {
    forall i :: 0 <= i < |r| ==> r[i].parentId == Some(parent) || (r[i].parentId.Some? && r[i].parentId.value in Ids(r[..i]))
  }

  lemma {:induction false} CollectedParentsFirst(actions: seq<Action>, tenant: string, parent: string, k: nat, visited: set<string>)
    requires k <= |actions|
    ensures ParentsFirst(parent, Collected(actions, tenant, parent, k, visited))
    decreases |Ids(actions) - visited|, |actions| - k
  {
    if k < |actions| {
      var a := actions[k];
      if IsChildOf(a, tenant, parent) && a.actionId !in visited {
        var seen := visited + {a.actionId};
        InIds(actions, a.actionId);
        Shrinks(Ids(actions), visited, seen);
        CollectedParentsFirst(actions, tenant, a.actionId, 0, seen);
        var below := Collected(actions, tenant, a.actionId, 0, seen);
        Shrinks(Ids(actions), visited, seen + Ids(below));
        CollectedParentsFirst(actions, tenant, parent, k + 1, seen + Ids(below));
        var rest := Collected(actions, tenant, parent, k + 1, seen + Ids(below));
        OrderedPieces(parent, a, below, rest);
      } else {
        CollectedParentsFirst(actions, tenant, parent, k + 1, visited);
      }
    }
  }

  lemma OrderedPieces(parent: string, a: Action, below: seq<Action>, rest: seq<Action>)
    requires a.parentId == Some(parent) && ParentsFirst(a.actionId, below) && ParentsFirst(parent, rest)
    ensures ParentsFirst(parent, [a] + below + rest)
  {
    var r := [a] + below + rest;
    forall i | 0 <= i < |r|
      ensures r[i].parentId == Some(parent) || (r[i].parentId.Some? && r[i].parentId.value in Ids(r[..i]))
    {
      if 0 < i <= |below| {
        assert r[i] == below[i - 1] && r[..i] == [a] + below[..i - 1];
        IdsOfConcat([a], below[..i - 1]);
      } else if i > |below| {
        var j := i - 1 - |below|;
        assert r[i] == rest[j] && r[..i] == ([a] + below) + rest[..j];
        IdsOfConcat([a] + below, rest[..j]);
      }
    }
  }

  function DescendantsOf(actions: seq<Action>, tenant: string, root: string): seq<Action> {
    Collected(actions, tenant, root, 0, {})
  }

  /**
   For every table, cyclic or not: the collected list is exactly the same-tenant actions reachable
   from the root in one or more child steps, once each, and parents come before their children.
   */
  lemma DescendantsExactly(actions: seq<Action>, tenant: string, root: string)
    ensures var d := DescendantsOf(actions, tenant, root);
            && DistinctActions(d)
            && (forall a :: a in d ==> a in actions && a.tenantId == tenant)
            && (forall id :: id in Ids(d) <==> Descends(actions, tenant, root, id))
            && ParentsFirst(root, d)
  {
    var d := DescendantsOf(actions, tenant, root);
    CollectedSound(actions, tenant, root, 0, {});
    CollectedClosed(actions, tenant, root, 0, {});
    CollectedParentsFirst(actions, tenant, root, 0, {});
    forall id
      ensures id in Ids(d) <==> Descends(actions, tenant, root, id)
    {
      InIds(d, id);
      if Descends(actions, tenant, root, id) {
        var path :| |path| >= 2 && IsPath(actions, tenant, path) && path[0] == root && path[|path| - 1] == id;
        PathStaysInside(actions, tenant, root, Ids(d), path, |path| - 1);
      }
    }
  }

  lemma {:induction false} PathStaysInside(actions: seq<Action>, tenant: string, root: string, seen: set<string>,
                                           path: seq<string>, i: nat)
    requires ChildrenSeen(actions, tenant, seen, seen) && ChildrenSeenFrom(actions, tenant, root, 0, seen)
    requires IsPath(actions, tenant, path) && path[0] == root && 1 <= i < |path|
    ensures path[i] in seen
  {
    if i > 1 {
      PathStaysInside(actions, tenant, root, seen, path, i - 1);
    }
    assert ChildStep(actions, tenant, path[i - 1], path[i - 1 + 1]);
  }

  /** The root is listed exactly when it lies on a cycle, since it descends from itself only then. */
  lemma RootListedIffCyclic(actions: seq<Action>, tenant: string, root: string)
    ensures root in Ids(DescendantsOf(actions, tenant, root)) <==>
            exists path :: |path| >= 2 && IsPath(actions, tenant, path) && path[0] == path[|path| - 1] == root
  {
    DescendantsExactly(actions, tenant, root);
  }

  // ------------------------------------------------------------------ paging

  /** `n` consecutive pages of `limit` entries, the first one at `offset`. */
  ghost function Pages<T>(s: seq<T>, limit: nat, offset: nat, n: nat): seq<T>
    decreases n
  {
    if n == 0 then [] else PySlice(s, offset, offset + limit) + Pages(s, limit, offset + limit, n - 1)
  }

  /** Where the pages end. */
  ghost function EndOf(limit: nat, offset: nat, n: nat): (end: nat)
    ensures end >= offset
    decreases n
  {
    if n == 0 then offset else EndOf(limit, offset + limit, n - 1)
  }

  /** Consecutive pages are one large page. */
  lemma {:induction false} PagesConcatenate<T>(s: seq<T>, limit: nat, offset: nat, n: nat)
    ensures Pages(s, limit, offset, n) == PySlice(s, offset, EndOf(limit, offset, n))
    decreases n
  {
    if n > 0 {
      PagesConcatenate(s, limit, offset + limit, n - 1);
      SlicesJoin(s, offset, offset + limit, EndOf(limit, offset, n));
    }
  }

  lemma {:induction false} EndIsProduct(limit: nat, offset: nat, n: nat)
    ensures EndOf(limit, offset, n) == offset + n * limit
    decreases n
  {
    if n > 0 {
      EndIsProduct(limit, offset + limit, n - 1);
      NextProduct(n, limit);
    }
  }

  lemma NextProduct(n: nat, limit: nat)
    requires n > 0
    ensures n * limit == limit + (n - 1) * limit
  {
  }

  lemma SlicesJoin<T>(s: seq<T>, lo: nat, mid: nat, hi: nat)
    requires lo <= mid <= hi
    ensures PySlice(s, lo, mid) + PySlice(s, mid, hi) == PySlice(s, lo, hi)
  {
  }

  /** Enough pages from the start are the whole list. */
  lemma AllPages<T>(s: seq<T>, limit: nat, n: nat)
    requires n * limit >= |s|
    ensures Pages(s, limit, 0, n) == s
  {
    PagesConcatenate(s, limit, 0, n);
    EndIsProduct(limit, 0, n);
  }

  // -------------------------------------------------------------- repository

  function Find(actions: seq<Action>, id: string): (r: Option<Action>)
    ensures r.Some? ==> r.value in actions && r.value.actionId == id
    ensures r.None? ==> id !in Ids(actions)
  {
    if actions == [] then None else if actions[0].actionId == id then Some(actions[0]) else Find(actions[1..], id)
  }

  /** Assigning a dictionary key: in place when it exists, at the end otherwise. */
  function Put(actions: seq<Action>, a: Action): (r: seq<Action>)
    ensures Ids(r) == Ids(actions) + {a.actionId}
  {
    if actions == [] then assert Ids([a]) == {a.actionId}; [a]
    else if actions[0].actionId == a.actionId then [a] + actions[1..]
    else [actions[0]] + Put(actions[1..], a)
  }

  /** The dictionary built from a list: a later action replaces an earlier one with its id. */
  function TableOf(initial: seq<Action>): seq<Action> {
    if initial == [] then [] else Put(TableOf(initial[..|initial| - 1]), initial[|initial| - 1])
  }

  lemma {:induction false} PutFinds(actions: seq<Action>, a: Action, id: string)
    ensures Find(Put(actions, a), id) == if id == a.actionId then Some(a) else Find(actions, id)
    ensures DistinctActions(actions) ==> DistinctActions(Put(actions, a))
  {
    if actions != [] && actions[0].actionId != a.actionId {
      PutFinds(actions[1..], a, id);
      if DistinctActions(actions) {
        PutElsewhere(actions[1..], a, actions[0]);
      }
    }
  }

  lemma {:induction false} PutElsewhere(rest: seq<Action>, a: Action, first: Action)
    requires DistinctActions([first] + rest) && DistinctActions(Put(rest, a)) && first.actionId != a.actionId
    ensures DistinctActions([first] + Put(rest, a))
  {
    var after := Put(rest, a);
    forall b | b in rest
      ensures b.actionId != first.actionId
    {
      var i :| 0 <= i < |rest| && rest[i] == b;
      assert ([first] + rest)[0] == first && ([first] + rest)[i + 1] == b;
    }
    forall i | 0 <= i < |after|
      ensures after[i].actionId != first.actionId
    {
      InIds(after, after[i].actionId);
      InIds(rest, after[i].actionId);
    }
  }

  /** The repository holds the last action given for each id, and one action an id. */
  lemma LastActionIsStored(initial: seq<Action>, i: nat)
    requires i < |initial| && forall j :: i < j < |initial| ==> initial[j].actionId != initial[i].actionId
    ensures Find(TableOf(initial), initial[i].actionId) == Some(initial[i])
    ensures DistinctActions(TableOf(initial))
  {
    TableIsDistinct(initial);
    TableFinds(initial, i);
  }

  lemma {:induction false} TableFinds(initial: seq<Action>, i: nat)
    requires i < |initial| && forall j :: i < j < |initial| ==> initial[j].actionId != initial[i].actionId
    ensures Find(TableOf(initial), initial[i].actionId) == Some(initial[i])
  {
    var n := |initial| - 1;
    var front := initial[..n];
    PutFinds(TableOf(front), initial[n], initial[i].actionId);
    if i < n {
      assert front[i] == initial[i];
      TableFinds(front, i);
    }
  }

  lemma {:induction false} TableIsDistinct(initial: seq<Action>)
    ensures DistinctActions(TableOf(initial))
  {
    if initial != [] {
      var n := |initial| - 1;
      TableIsDistinct(initial[..n]);
      PutFinds(TableOf(initial[..n]), initial[n], "");
    }
  }

  class InMemoryActionRepo {
    /** The values of the dictionary, in insertion order. */
    var actions: seq<Action>

    constructor (initial: seq<Action>)
      ensures actions == TableOf(initial)
    {
      var table: seq<Action> := [];
      for k := 0 to |initial|
        invariant table == TableOf(initial[..k])
      {
        assert initial[..k + 1][..k] == initial[..k];
        table := Put(table, initial[k]);
      }
      assert initial[..|initial|] == initial;
      actions := table;
    }

    /** Afterwards the id finds the saved action, and every other id what it found before. */
    method Save(a: Action)
      modifies this
      ensures actions == Put(old(actions), a)
      ensures forall id :: Find(actions, id) == if id == a.actionId then Some(a) else Find(old(actions), id)
      ensures DistinctActions(old(actions)) ==> DistinctActions(actions)
    {
      forall id
        ensures Find(Put(actions, a), id) == if id == a.actionId then Some(a) else Find(actions, id)
      {
        PutFinds(actions, a, id);
      }
      PutFinds(actions, a, a.actionId);
      actions := Put(actions, a);
    }

    /** A page of the descendants and their total number; nothing for a root of another tenant. */
    method ListDescendants(tenant: string, root: string, limit: int, offset: int)
      returns (page: seq<Action>, total: nat)
      ensures var found := Find(actions, root);
              if found.None? || found.value.tenantId != tenant then page == [] && total == 0
              else var d := DescendantsOf(actions, tenant, root);
                   && page == PySlice(d, offset, offset + limit)
                   && total == |d| == |Ids(d)|
    {
      var found := Find(actions, root);
      if found.None? || found.value.tenantId != tenant {
        return [], 0;
      }
      var _, result := Collect(actions, tenant, root, {}, []);
      assert result == [] + DescendantsOf(actions, tenant, root) == DescendantsOf(actions, tenant, root);
      DescendantsExactly(actions, tenant, root);
      DistinctCount(result);
      return PySlice(result, offset, offset + limit), |result|;
    }
  }

  lemma {:induction false} DistinctCount(s: seq<Action>)
    requires DistinctActions(s)
    ensures |Ids(s)| == |s|
  {
    if s != [] {
      InIds(s[1..], s[0].actionId);
      DistinctCount(s[1..]);
    }
  }
}
