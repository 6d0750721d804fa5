/**
 What a Merkle root says about the number of leaves: the tree pads every odd level with its last digest,
 so a root commits to the padded list of entries, and to the entries only among trees of one size.
 */
module MerkleSizes {
  import opened Prelude
  import opened Merkle

  // ------------------------------------------------------------------- padding

  /** The number of levels above the leaves. */
  function Depth(n: nat): nat
    requires n >= 1
  {
    if n == 1 then 0 else 1 + Depth((n + 1) / 2)
  }

  function Pow2(d: nat): (p: nat)
    ensures p >= 1
  {
    if d == 0 then 1 else 2 * Pow2(d - 1)
  }

  /** The leaf that stands at position `i` of the perfect tree into which `n` leaves are padded. */
  function Source(n: nat, i: nat): (r: nat)
    requires n >= 1
    ensures r < n
  {
    if n == 1 then 0
    else
      var q := Source((n + 1) / 2, i / 2);
      if i % 2 == 1 && 2 * q + 1 < n then 2 * q + 1 else 2 * q
  }

  function Padded<T>(s: seq<T>): (r: seq<T>)
    requires s != []
    ensures |r| == Pow2(Depth(|s|))
    ensures forall i :: 0 <= i < |r| ==> r[i] == s[Source(|s|, i)]
  {
    seq(Pow2(Depth(|s|)), i requires i >= 0 => s[Source(|s|, i)])
  }

  /** The directions from position `i` of a perfect tree of depth `d`: its bits, lowest first. */
  function Bits(i: nat, d: nat): (r: seq<bool>)
    ensures |r| == d
  {
    if d == 0 then [] else [i % 2 == 0] + Bits(i / 2, d - 1)
  }

  /** The digest next to position `i` of the padded level. */
  function PaddedSibling(level: seq<string>, i: nat): string
    requires |level| > 1
  {
    var q := Source((|level| + 1) / 2, i / 2);
    if i % 2 == 0 then RightOf(level, q) else level[2 * q]
  }

  function PaddedPath(h: Hash, level: seq<string>, i: nat): (r: seq<string>)
    requires level != [] && AllHex(level)
    ensures |r| == Depth(|level|)
    decreases |level|
  {
    if |level| == 1 then [] else [PaddedSibling(level, i)] + PaddedPath(h, NextLevel(h, level), i / 2)
  }

  lemma PaddedStep(h: Hash, level: seq<string>, i: nat)
    requires |level| > 1 && AllHex(level)
    ensures StepUp(h, level[Source(|level|, i)], PaddedSibling(level, i), i % 2 == 0)
         == Some(NextLevel(h, level)[Source((|level| + 1) / 2, i / 2)])
  {
    var q := Source((|level| + 1) / 2, i / 2);
    assert NextLevel(h, level)[q] == ParentAt(h, level, q);
  }

  /** Every position of the padded tree climbs to the root along its bits. */
  lemma {:induction false} PaddedClimbs(h: Hash, level: seq<string>, i: nat)
    requires level != [] && AllHex(level)
    ensures Climb(h, level[Source(|level|, i)], PaddedPath(h, level, i), Bits(i, Depth(|level|))) == Some(RootOf(h, level))
    decreases |level|
  {
    if |level| > 1 {
      PaddedStep(h, level, i);
      var next := NextLevel(h, level);
      PaddedClimbs(h, next, i / 2);
      var path, dirs := PaddedPath(h, level, i), Bits(i, Depth(|level|));
      assert path[1..] == PaddedPath(h, next, i / 2) && dirs[1..] == Bits(i / 2, Depth(|next|));
    }
  }

  // --------------------------------------------------- the padded list is enough

  lemma ParentOfPair(h: Hash, level: seq<string>, j: nat)
    requires |level| > 1 && AllHex(level)
    ensures HashNode(h, level[Source(|level|, 2 * j)], level[Source(|level|, 2 * j + 1)])
         == Some(NextLevel(h, level)[Source((|level| + 1) / 2, j)])
  {
    var q := Source((|level| + 1) / 2, j);
    assert (2 * j) / 2 == j && (2 * j + 1) / 2 == j;
    assert NextLevel(h, level)[q] == ParentAt(h, level, q);
  }

  lemma SameParent(h: Hash, a: seq<string>, b: seq<string>, j: nat)
    requires |a| > 1 && |b| > 1 && AllHex(a) && AllHex(b)
    requires a[Source(|a|, 2 * j)] == b[Source(|b|, 2 * j)]
    requires a[Source(|a|, 2 * j + 1)] == b[Source(|b|, 2 * j + 1)]
    ensures NextLevel(h, a)[Source((|a| + 1) / 2, j)] == NextLevel(h, b)[Source((|b| + 1) / 2, j)]
  {
    ParentOfPair(h, a, j);
    ParentOfPair(h, b, j);
  }

  ghost predicate SamePositions(a: seq<string>, b: seq<string>)
    requires a != [] && b != []
  {
    forall i: nat :: i < Pow2(Depth(|a|)) ==> a[Source(|a|, i)] == b[Source(|b|, i)]
  }

  lemma {:induction false} SamePositionsSameRoot(h: Hash, a: seq<string>, b: seq<string>)
    requires a != [] && b != [] && AllHex(a) && AllHex(b)
    requires Depth(|a|) == Depth(|b|) && SamePositions(a, b)
    ensures RootOf(h, a) == RootOf(h, b)
    decreases |a|
  {
    if |a| == 1 {
      assert a[Source(|a|, 0)] == b[Source(|b|, 0)];
    } else {
      var na, nb := NextLevel(h, a), NextLevel(h, b);
      forall j: nat | j < Pow2(Depth(|na|))
        ensures na[Source(|na|, j)] == nb[Source(|nb|, j)]
      {
        assert a[Source(|a|, 2 * j)] == b[Source(|b|, 2 * j)];
        assert a[Source(|a|, 2 * j + 1)] == b[Source(|b|, 2 * j + 1)];
        SameParent(h, a, b, j);
      }
      SamePositionsSameRoot(h, na, nb);
    }
  }

  lemma {:induction false} Pow2Injective(d: nat, e: nat)
    requires Pow2(d) == Pow2(e)
    ensures d == e
  {
    if d > 0 && e > 0 {
      Pow2Injective(d - 1, e - 1);
    }
  }

  /** Trees of any sizes with one padded leaf list have one root. */
  lemma SamePaddingSameRoot(h: Hash, a: seq<string>, b: seq<string>)
    requires a != [] && b != [] && AllHex(a) && AllHex(b) && Padded(a) == Padded(b)
    ensures RootOf(h, a) == RootOf(h, b)
  {
    Pow2Injective(Depth(|a|), Depth(|b|));
    forall i: nat | i < Pow2(Depth(|a|))
      ensures a[Source(|a|, i)] == b[Source(|b|, i)]
    {
      assert Padded(a)[i] == Padded(b)[i];
    }
    SamePositionsSameRoot(h, a, b);
  }

  /** In particular, repeating the last leaf of any odd tree keeps the root. */
  lemma RootIgnoresRepeatedLast(h: Hash, level: seq<string>, m: nat)
    requires AllHex(level) && |level| == 2 * m + 1 && m >= 1
    ensures AllHex(level + [level[2 * m]])
    ensures RootOf(h, level + [level[2 * m]]) == RootOf(h, level)
  {
    var longer := level + [level[2 * m]];
    RepeatedDepth(m);
    RepeatedPositions(level, longer, m);
    SamePositionsSameRoot(h, level, longer);
  }

  lemma RepeatedPositions(level: seq<string>, longer: seq<string>, m: nat)
    requires m >= 1 && |level| == 2 * m + 1 && |longer| == 2 * m + 2
    requires longer[..2 * m + 1] == level && longer[2 * m + 1] == level[2 * m]
    ensures SamePositions(level, longer)
  {
    forall i: nat | i < Pow2(Depth(|level|))
      ensures level[Source(|level|, i)] == longer[Source(|longer|, i)]
    {
      RepeatedSource(m, i);
      var r := Source(|level|, i);
      assert level[r] == longer[r];
    }
  }

  lemma RepeatedDepth(m: nat)
    requires m >= 1
    ensures Depth(2 * m + 1) == Depth(2 * m + 2)
  {
    assert (2 * m + 1 + 1) / 2 == m + 1 == (2 * m + 2 + 1) / 2;
  }

  lemma RepeatedSource(m: nat, i: nat)
    requires m >= 1
    ensures var r, r' := Source(2 * m + 1, i), Source(2 * m + 2, i); r == r' || (r == 2 * m && r' == 2 * m + 1)
  {
    assert (2 * m + 1 + 1) / 2 == m + 1 == (2 * m + 2 + 1) / 2;
    var q := Source(m + 1, i / 2);
  }

  // ---------------------------------------------------------- logs of any sizes

  /** The leaf digests of a list of audit entries. */
  function Leaves(h: Hash, entries: seq<Bytes>): (r: seq<string>)
    ensures |r| == |entries|
    ensures forall i :: 0 <= i < |r| ==> r[i] == HashLeaf(h, entries[i])
    ensures AllHex(r)
  {
    var r := seq(|entries|, i requires 0 <= i < |entries| => HashLeaf(h, entries[i]));
    assert AllHex(r) by { LeavesAreHex(h, entries, r); }
    r
  }

  lemma LeavesAreHex(h: Hash, entries: seq<Bytes>, r: seq<string>)
    requires |r| == |entries| && forall i :: 0 <= i < |r| ==> r[i] == HashLeaf(h, entries[i])
    ensures forall i :: 0 <= i < |r| ==> FromHex(r[i]) == Some(h(LEAF + entries[i]))
  {
    forall i | 0 <= i < |r|
      ensures FromHex(r[i]) == Some(h(LEAF + entries[i]))
    {
      FromHexToHex(h(LEAF + entries[i]));
    }
  }

  /** From two trees of one depth that differ at position `i`. */
  function ExtractAt(h: Hash, x: seq<Bytes>, y: seq<Bytes>, i: nat): (Bytes, Bytes)
    requires x != [] && y != [] && Depth(|x|) == Depth(|y|)
  {
    var a, b := Leaves(h, x), Leaves(h, y);
    var pair := ExtractPair(h, a[Source(|x|, i)], PaddedPath(h, a, i), b[Source(|y|, i)], PaddedPath(h, b, i), Bits(i, Depth(|x|)));
    if pair.0 != pair.1 then pair else (LEAF + x[Source(|x|, i)], LEAF + y[Source(|y|, i)])
  }

  /** From the left edges of two trees of different depths. */
  function ExtractAlong(h: Hash, first: Bytes, path: seq<string>, entry: Bytes, short: seq<string>): (Bytes, Bytes)
    requires |short| < |path|
  {
    var k := |path| - |short|;
    ExtractSplit(h, HashLeaf(h, first), path[..k], Bits(0, k), path[k..], entry, short, Bits(0, |short|))
  }

  function ExtractSplit(h: Hash, leaf: string, extra: seq<string>, ed: seq<bool>, tail: seq<string>,
                        entry: Bytes, path: seq<string>, dirs: seq<bool>): (Bytes, Bytes)
    requires |extra| == |ed| && extra != [] && |tail| == |path| == |dirs|
  {
    if Climb(h, leaf, extra, ed).None? then ([], [])
    else ExtractLeafNode(h, leaf, extra, ed, tail, entry, path, dirs)
  }

  function LeftEdge(h: Hash, entries: seq<Bytes>): (r: seq<string>)
    requires entries != []
    ensures |r| == Depth(|entries|)
  {
    PaddedPath(h, Leaves(h, entries), 0)
  }

  function ExtractEdge(h: Hash, shallow: seq<Bytes>, deep: seq<Bytes>): (Bytes, Bytes)
    requires shallow != [] && deep != [] && Depth(|shallow|) < Depth(|deep|)
  {
    ExtractAlong(h, deep[0], LeftEdge(h, deep), shallow[0], LeftEdge(h, shallow))
  }

  function ExtractFromLogs(h: Hash, x: seq<Bytes>, y: seq<Bytes>): (Bytes, Bytes)
    requires x != [] && y != []
  {
    if Depth(|x|) < Depth(|y|) then ExtractEdge(h, x, y)
    else if Depth(|x|) > Depth(|y|) then ExtractEdge(h, y, x)
    else match FirstDifference(Padded(x), Padded(y))
      case None => ([], [])
      case Some(i) => ExtractAt(h, x, y, i)
  }

  lemma {:induction false} ZeroBits(k: nat, d: nat)
    ensures Bits(0, k + d) == Bits(0, k) + Bits(0, d)
  {
    if k > 0 {
      ZeroBits(k - 1, d);
    }
  }

  lemma {:induction false} FirstSource(n: nat)
    requires n >= 1
    ensures Source(n, 0) == 0
  {
    if n > 1 {
      FirstSource((n + 1) / 2);
    }
  }

  /** `path` leads from an entry up the left edge of a tree to its root. */
  ghost predicate OnEdge(h: Hash, entry: Bytes, path: seq<string>, root: string) {
    Climb(h, HashLeaf(h, entry), path, Bits(0, |path|)) == Some(root)
  }

  lemma EdgeClimbs(h: Hash, entries: seq<Bytes>)
    requires entries != []
    ensures OnEdge(h, entries[0], LeftEdge(h, entries), RootOf(h, Leaves(h, entries)))
  {
    PaddedClimbs(h, Leaves(h, entries), 0);
    FirstSource(|entries|);
  }

  lemma EdgePair(h: Hash, first: Bytes, path: seq<string>, entry: Bytes, short: seq<string>, root: string)
    requires ValidHash(h) && |short| < |path| && OnEdge(h, first, path, root) && OnEdge(h, entry, short, root)
    ensures Collision(h, ExtractAlong(h, first, path, entry, short))
  {
    var k := |path| - |short|;
    var extra, tail, ed, dirs := path[..k], path[k..], Bits(0, k), Bits(0, |short|);
    assert path == extra + tail;
    assert Bits(0, |path|) == ed + dirs by { ZeroBits(k, |short|); }
    SplitCollides(h, HashLeaf(h, first), extra, ed, tail, entry, short, dirs);
  }

  lemma SplitCollides(h: Hash, leaf: string, extra: seq<string>, ed: seq<bool>, tail: seq<string>,
                      entry: Bytes, path: seq<string>, dirs: seq<bool>)
    requires ValidHash(h) && |extra| == |ed| && extra != [] && |tail| == |path| == |dirs|
    requires Climb(h, leaf, extra + tail, ed + dirs).Some?
    requires Climb(h, leaf, extra + tail, ed + dirs) == Climb(h, HashLeaf(h, entry), path, dirs)
    ensures Collision(h, ExtractSplit(h, leaf, extra, ed, tail, entry, path, dirs))
  {
    LeafIsNoNode(h, leaf, extra, ed, tail, entry, path, dirs);
  }

  lemma EdgeCollides(h: Hash, shallow: seq<Bytes>, deep: seq<Bytes>)
    requires ValidHash(h) && shallow != [] && deep != [] && Depth(|shallow|) < Depth(|deep|)
    requires RootOf(h, Leaves(h, shallow)) == RootOf(h, Leaves(h, deep))
    ensures Collision(h, ExtractEdge(h, shallow, deep))
  {
    EdgeClimbs(h, shallow);
    EdgeClimbs(h, deep);
    EdgePair(h, deep[0], LeftEdge(h, deep), shallow[0], LeftEdge(h, shallow), RootOf(h, Leaves(h, deep)));
  }

  lemma PositionBinds(h: Hash, x: seq<Bytes>, y: seq<Bytes>, i: nat)
    requires ValidHash(h) && x != [] && y != [] && Depth(|x|) == Depth(|y|)
    requires RootOf(h, Leaves(h, x)) == RootOf(h, Leaves(h, y))
    ensures x[Source(|x|, i)] == y[Source(|y|, i)] || Collision(h, ExtractAt(h, x, y, i))
  {
    var a, b := Leaves(h, x), Leaves(h, y);
    PaddedClimbs(h, a, i);
    PaddedClimbs(h, b, i);
    LeavesAreHex(h, x, a);
    LeavesAreHex(h, y, b);
    ProofsBind(h, a[Source(|x|, i)], PaddedPath(h, a, i), b[Source(|y|, i)], PaddedPath(h, b, i), Bits(i, Depth(|x|)));
    EntryOf(x[Source(|x|, i)]);
    EntryOf(y[Source(|y|, i)]);
  }

  lemma EntryOf(entry: Bytes)
    ensures (LEAF + entry)[5..] == entry
  {
  }

  /**
   Two audit logs of any sizes with one root have the same entries up to padding, or the pair extracted
   from them is a collision.
   */
  lemma LogsBind(h: Hash, x: seq<Bytes>, y: seq<Bytes>)
    requires ValidHash(h) && x != [] && y != []
    requires RootOf(h, Leaves(h, x)) == RootOf(h, Leaves(h, y))
    ensures Padded(x) == Padded(y) || Collision(h, ExtractFromLogs(h, x, y))
  {
    if Depth(|x|) < Depth(|y|) {
      EdgeCollides(h, x, y);
    } else if Depth(|x|) > Depth(|y|) {
      EdgeCollides(h, y, x);
    } else {
      var first := FirstDifference(Padded(x), Padded(y));
      if first.Some? {
        PositionBinds(h, x, y, first.value);
      }
    }
  }

  /** And conversely, logs with the same entries up to padding have one root. */
  lemma PaddedLogsShareRoot(h: Hash, x: seq<Bytes>, y: seq<Bytes>)
    requires x != [] && y != [] && Padded(x) == Padded(y)
    ensures RootOf(h, Leaves(h, x)) == RootOf(h, Leaves(h, y))
  {
    Pow2Injective(Depth(|x|), Depth(|y|));
    var a, b := Leaves(h, x), Leaves(h, y);
    forall i: nat | i < Pow2(Depth(|a|))
      ensures a[Source(|a|, i)] == b[Source(|b|, i)]
    {
      assert Padded(x)[i] == Padded(y)[i];
    }
    SamePositionsSameRoot(h, a, b);
  }

  // ------------------------------------------------------------- equal sizes only

  /** A list that repeats one digest. */
  function Constant(x: string, n: nat): (r: seq<string>)
    ensures |r| == n && forall i :: 0 <= i < n ==> r[i] == x
  {
    seq(n, i => x)
  }

  /** `d` levels above a digest that is paired with itself. */
  function Tower(h: Hash, x: Bytes, d: nat): Bytes
    decreases d
  {
    if d == 0 then x else Tower(h, h(NodePreimage(x, x)), d - 1)
  }

  lemma {:induction false} TowerCompose(h: Hash, x: Bytes, j: nat, d: nat)
    ensures Tower(h, Tower(h, x, j), d) == Tower(h, x, j + d)
    decreases j
  {
    if j > 0 {
      TowerCompose(h, h(NodePreimage(x, x)), j - 1, d);
    }
  }

  lemma {:induction false} TowerIsDigest(h: Hash, x: Bytes, d: nat)
    requires ValidHash(h) && |x| == 32
    ensures |Tower(h, x, d)| == 32
    decreases d
  {
    if d > 0 {
      TowerIsDigest(h, h(NodePreimage(x, x)), d - 1);
    }
  }

  lemma ConstantNext(h: Hash, x: Bytes, n: nat)
    requires n > 1
    ensures AllHex(Constant(ToHex(x), n))
    ensures NextLevel(h, Constant(ToHex(x), n)) == Constant(ToHex(h(NodePreimage(x, x))), (n + 1) / 2)
  {
    FromHexToHex(x);
    var level := Constant(ToHex(x), n);
    var next := NextLevel(h, level);
    forall i | 0 <= i < |next|
      ensures next[i] == ToHex(h(NodePreimage(x, x)))
    {
      assert next[i] == ParentAt(h, level, i);
    }
  }

  /** The root of a constant list depends on its depth only. */
  lemma {:induction false} ConstantRoot(h: Hash, x: Bytes, n: nat)
    requires n >= 1
    ensures AllHex(Constant(ToHex(x), n)) && RootOf(h, Constant(ToHex(x), n)) == ToHex(Tower(h, x, Depth(n)))
    decreases n
  {
    FromHexToHex(x);
    if n > 1 {
      ConstantNext(h, x, n);
      ConstantRoot(h, h(NodePreimage(x, x)), (n + 1) / 2);
    }
  }

  lemma ConstantIsLevel(x: Bytes, n: nat)
    requires |x| == 32
    ensures IsLevel(Constant(ToHex(x), n))
  {
    FromHexToHex(x);
  }

  lemma ConstantPair(h: Hash, x: Bytes, m: nat, n: nat) returns (a: seq<string>, b: seq<string>)
    requires ValidHash(h) && m >= 1 && n >= 1 && Depth(m) <= Depth(n) && |x| == 32
    ensures |a| == m && |b| == n && IsLevel(a) && IsLevel(b) && AllHex(a) && AllHex(b)
    ensures RootOf(h, a) == RootOf(h, b)
  {
    var k := Depth(n) - Depth(m);
    var y := Tower(h, x, k);
    TowerIsDigest(h, x, k);
    a, b := Constant(ToHex(y), m), Constant(ToHex(x), n);
    ConstantRoot(h, y, m);
    ConstantRoot(h, x, n);
    TowerCompose(h, x, k, Depth(m));
    ConstantIsLevel(y, m);
    ConstantIsLevel(x, n);
  }

  /** For any two sizes there are lists of proper digests, of these sizes, with one root. */
  lemma AnySizesShareARoot(h: Hash, m: nat, n: nat) returns (a: seq<string>, b: seq<string>)
    requires ValidHash(h) && m >= 1 && n >= 1
    ensures |a| == m && |b| == n && SameRoot(h, a, b)
  {
    var x := h([]);
    if Depth(m) <= Depth(n) {
      a, b := ConstantPair(h, x, m, n);
    } else {
      b, a := ConstantPair(h, x, n, m);
    }
  }

  ghost predicate SameRoot(h: Hash, a: seq<string>, b: seq<string>) {
    a != [] && b != [] && IsLevel(a) && IsLevel(b) && FromHex(RootOf(h, a)) == FromHex(RootOf(h, b))
  }

  /** The two lists hold the same digests, or yield a collision. */
  ghost predicate Bound(h: Hash, a: seq<string>, b: seq<string>) {
    |a| == |b| && (SameDigests(a, b) || (AllHex(a) && AllHex(b) && Collision(h, ExtractFromTrees(h, a, b))))
  }

  /** A root determines the leaf digests, up to collisions, if and only if the number of leaves is fixed. */
  lemma RootBindsExactly(h: Hash, m: nat, n: nat)
    requires ValidHash(h) && m >= 1 && n >= 1
    ensures (forall a, b :: |a| == m && |b| == n && SameRoot(h, a, b) ==> Bound(h, a, b)) <==> m == n
  {
    if m == n {
      forall a, b | |a| == m && |b| == n && SameRoot(h, a, b)
        ensures Bound(h, a, b)
      {
        RootBindsLeaves(h, a, b);
      }
    } else {
      var a, b := AnySizesShareARoot(h, m, n);
      assert !Bound(h, a, b);
    }
  }
}
