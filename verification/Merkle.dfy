/**
 Merkle inclusion proofs over hex digests: verification, the tree builder, and what a root binds.
 */
module Merkle {
  import opened Prelude

  // --------------------------------------------------------------------- hex

  function HexDigit(n: nat): char
    requires n < 16
  {
    if n < 10 then ('0' as int + n) as char else ('a' as int + n - 10) as char
  }

  function Nibble(c: char): (r: Option<nat>)
    ensures r.Some? ==> r.value < 16
  {
    if '0' <= c <= '9' then Some(c as int - '0' as int)
    else if 'a' <= c <= 'f' then Some(c as int - 'a' as int + 10)
    else if 'A' <= c <= 'F' then Some(c as int - 'A' as int + 10)
    else None
  }

  /** `bytes.hex`: two lower-case digits a byte. */
  function ToHex(b: Bytes): string {
    if b == [] then [] else [HexDigit(b[0] as int / 16), HexDigit(b[0] as int % 16)] + ToHex(b[1..])
  }

  /** `bytes.fromhex`: either case, white space allowed between bytes; `None` where it raises. */
  function FromHex(s: string): Option<Bytes> {
    if s == [] then Some([])
    else if IsAsciiSpace(s[0]) then FromHex(s[1..])
    else if |s| < 2 || Nibble(s[0]).None? || Nibble(s[1]).None? then None
    else match FromHex(s[2..])
      case None => None
      case Some(rest) => Some([(16 * Nibble(s[0]).value + Nibble(s[1]).value) as Byte] + rest)
  }

  lemma NibbleOfDigit(n: nat)
    requires n < 16
    ensures Nibble(HexDigit(n)) == Some(n) && !IsAsciiSpace(HexDigit(n))
  {
    var c := HexDigit(n);
    if n < 10 {
      assert c as int == 48 + n && '0' <= c <= '9';
    } else {
      assert c as int == 87 + n && 'a' <= c <= 'f';
    }
  }

  lemma FromHexPair(hi: nat, lo: nat, t: string)
    requires hi < 16 && lo < 16 && FromHex(t).Some?
    ensures FromHex([HexDigit(hi), HexDigit(lo)] + t) == Some([(16 * hi + lo) as Byte] + FromHex(t).value)
  {
    NibbleOfDigit(hi);
    NibbleOfDigit(lo);
    var s := [HexDigit(hi), HexDigit(lo)] + t;
    assert s[2..] == t;
    FromHexStep(s, hi, lo);
  }

  lemma FromHexStep(s: string, hi: nat, lo: nat)
    requires |s| >= 2 && !IsAsciiSpace(s[0]) && Nibble(s[0]) == Some(hi) && Nibble(s[1]) == Some(lo) && FromHex(s[2..]).Some?
    ensures hi < 16 && lo < 16 && FromHex(s) == Some([(16 * hi + lo) as Byte] + FromHex(s[2..]).value)
  {
  }

  lemma HexByte(x: Byte)
    ensures 0 <= x as int / 16 < 16 && 0 <= x as int % 16 < 16 && 16 * (x as int / 16) + x as int % 16 == x as int
  {
  }

  lemma FromHexByte(x: Byte, t: string)
    requires FromHex(t).Some?
    ensures FromHex([HexDigit(x as int / 16), HexDigit(x as int % 16)] + t) == Some([x] + FromHex(t).value)
  {
    HexByte(x);
    FromHexPair(x as int / 16, x as int % 16, t);
  }

  lemma {:induction false} FromHexToHex(b: Bytes)
    ensures FromHex(ToHex(b)) == Some(b)
  {
    if b != [] {
      FromHexToHex(b[1..]);
      FromHexByte(b[0], ToHex(b[1..]));
      assert b == [b[0]] + b[1..];
    }
  }

  // ------------------------------------------------------------------ hashing

  /** SHA-256 as raw bytes. Nothing but the output length is assumed of it. */
  type Hash = Bytes -> Bytes

  ghost predicate ValidHash(h: Hash) {
    forall x :: |h(x)| == 32
  }

  ghost predicate Collision(h: Hash, pair: (Bytes, Bytes)) {
    pair.0 != pair.1 && h(pair.0) == h(pair.1)
  }

  const LEAF: Bytes := [108, 101, 97, 102, 0]  // b"leaf\x00"
  const NODE: Bytes := [110, 111, 100, 101, 0]  // b"node\x00"

  function HashLeaf(h: Hash, data: Bytes): string {
    ToHex(h(LEAF + data))
  }

  function NodePreimage(l: Bytes, r: Bytes): Bytes {
    NODE + l + r
  }

  /** `_hash_node`; `None` where one of the digests is not hexadecimal. */
  function HashNode(h: Hash, left: string, right: string): Option<string> {
    match (FromHex(left), FromHex(right))
    case (Some(l), Some(r)) => Some(ToHex(h(NodePreimage(l, r))))
    case _ => None
  }

  /** Leaves and nodes are hashed under different prefixes, left child first. */
  lemma HashesMean(h: Hash, data: Bytes, l: Bytes, r: Bytes)
    ensures FromHex(HashLeaf(h, data)) == Some(h([108, 101, 97, 102, 0] + data))
    ensures HashNode(h, ToHex(l), ToHex(r)) == Some(ToHex(h([110, 111, 100, 101, 0] + l + r)))
  {
    FromHexToHex(h(LEAF + data));
    FromHexToHex(l);
    FromHexToHex(r);
  }

  // ------------------------------------------------------------- verification

  function StepUp(h: Hash, current: string, sibling: string, isLeft: bool): Option<string> {
    if isLeft then HashNode(h, current, sibling) else HashNode(h, sibling, current)
  }

  /** The digest reached from a leaf along a sibling path. */
  function Climb(h: Hash, current: string, path: seq<string>, dirs: seq<bool>): Option<string>
    requires |path| == |dirs|
    decreases |path|
  {
    if path == [] then Some(current)
    else match StepUp(h, current, path[0], dirs[0])
      case None => None
      case Some(up) => Climb(h, up, path[1..], dirs[1..])
  }

  datatype Proof = Proof(leafHash: string, rootHash: string, path: seq<string>, dirs: seq<bool>)

  datatype ProofError = NotHex

  function Verified(h: Hash, p: Proof): Result<bool, ProofError> {
    if |p.path| != |p.dirs| then Ok(false)
    else match Climb(h, p.leafHash, p.path, p.dirs)
      case None => Err(NotHex)
      case Some(top) => Ok(top == p.rootHash)
  }

  method Verify(h: Hash, p: Proof) returns (r: Result<bool, ProofError>)
    ensures r == Verified(h, p)
  {
    if |p.path| != |p.dirs| {
      return Ok(false);
    }
    var current := p.leafHash;
    for i := 0 to |p.path|
      invariant Climb(h, current, p.path[i..], p.dirs[i..]) == Climb(h, p.leafHash, p.path, p.dirs)
    {
      assert p.path[i..][1..] == p.path[i + 1..] && p.dirs[i..][1..] == p.dirs[i + 1..];
      var up := StepUp(h, current, p.path[i], p.dirs[i]);
      if up.None? {
        return Err(NotHex);
      }
      current := up.value;
    }
    return Ok(current == p.rootHash);
  }

  // ----------------------------------------------------------------- binding

  /** What is hashed in the first step up. */
  function FirstPreimage(current: string, sibling: string, isLeft: bool): Bytes {
    match (FromHex(current), FromHex(sibling))
    case (Some(c), Some(s)) => if isLeft then NodePreimage(c, s) else NodePreimage(s, c)
    case _ => []
  }

  /** The hash inputs read off two proofs, from the pair nearest the root that differs. */
  function ExtractPair(h: Hash, a: string, pa: seq<string>, b: string, pb: seq<string>, dirs: seq<bool>): (Bytes, Bytes)
    requires |pa| == |pb| == |dirs|
    decreases |dirs|
  {
    if dirs == [] then ([], [])
    else match (StepUp(h, a, pa[0], dirs[0]), StepUp(h, b, pb[0], dirs[0]))
      case (Some(ua), Some(ub)) =>
        var above := ExtractPair(h, ua, pa[1..], ub, pb[1..], dirs[1..]);
        if above.0 != above.1 then above
        else (FirstPreimage(a, pa[0], dirs[0]), FirstPreimage(b, pb[0], dirs[0]))
      case _ => ([], [])
  }

  lemma SameSide(l: Bytes, s: Bytes, l': Bytes, s': Bytes, isLeft: bool)
    requires |l| == |l'|
    requires if isLeft then NodePreimage(l, s) == NodePreimage(l', s') else NodePreimage(s, l) == NodePreimage(s', l')
    ensures l == l'
  {
    if isLeft {
      assert l == NodePreimage(l, s)[5..5 + |l|] == l';
    } else {
      var x, y := NodePreimage(s, l), NodePreimage(s', l');
      assert l == x[|x| - |l|..] && l' == y[|y| - |l|..];
    }
  }

  /**
   Two proofs with equal direction lists that reach one root start from the same leaf digest, as long
   as the two leaf digests have one length; otherwise the extracted pair is a collision. Siblings may
   be of any length.
   */
  lemma {:induction false} ProofsBind(h: Hash, a: string, pa: seq<string>, b: string, pb: seq<string>, dirs: seq<bool>)
    requires ValidHash(h) && |pa| == |pb| == |dirs|
    requires FromHex(a).Some? && FromHex(b).Some? && |FromHex(a).value| == |FromHex(b).value|
    requires Climb(h, a, pa, dirs).Some? && Climb(h, a, pa, dirs) == Climb(h, b, pb, dirs)
    ensures FromHex(a) == FromHex(b) || Collision(h, ExtractPair(h, a, pa, b, pb, dirs))
    ensures FromHex(a) == FromHex(b) || ExtractPair(h, a, pa, b, pb, dirs).0 != ExtractPair(h, a, pa, b, pb, dirs).1
    ensures ExtractPair(h, a, pa, b, pb, dirs).0 != ExtractPair(h, a, pa, b, pb, dirs).1 ==>
              Collision(h, ExtractPair(h, a, pa, b, pb, dirs))
    decreases |dirs|
  {
    if dirs != [] {
      var ua, ub := StepUp(h, a, pa[0], dirs[0]).value, StepUp(h, b, pb[0], dirs[0]).value;
      var xa, xb := FirstPreimage(a, pa[0], dirs[0]), FirstPreimage(b, pb[0], dirs[0]);
      FromHexToHex(h(xa));
      FromHexToHex(h(xb));
      assert ua == ToHex(h(xa)) && ub == ToHex(h(xb));
      ProofsBind(h, ua, pa[1..], ub, pb[1..], dirs[1..]);
      if xa == xb {
        SameSide(FromHex(a).value, FromHex(pa[0]).value, FromHex(b).value, FromHex(pb[0]).value, dirs[0]);
      }
    }
  }

  /** Verification accepts with equal roots and directions: the corollary on proof objects. */
  lemma VerifiedProofsBind(h: Hash, p: Proof, q: Proof)
    requires ValidHash(h) && Verified(h, p) == Ok(true) && Verified(h, q) == Ok(true)
    requires p.rootHash == q.rootHash && p.dirs == q.dirs
    requires FromHex(p.leafHash).Some? && FromHex(q.leafHash).Some?
    requires |FromHex(p.leafHash).value| == |FromHex(q.leafHash).value|
    ensures FromHex(p.leafHash) == FromHex(q.leafHash)
            || Collision(h, ExtractPair(h, p.leafHash, p.path, q.leafHash, q.path, p.dirs))
  {
    ProofsBind(h, p.leafHash, p.path, q.leafHash, q.path, p.dirs);
  }

  lemma {:induction false} ClimbCompose(h: Hash, current: string, p: seq<string>, d: seq<bool>, p': seq<string>, d': seq<bool>)
    requires |p| == |d| && |p'| == |d'|
    ensures Climb(h, current, p + p', d + d') ==
            match Climb(h, current, p, d) case None => None case Some(mid) => Climb(h, mid, p', d')
    decreases |p|
  {
    if p == [] {
      assert p + p' == p' && d + d' == d';
    } else {
      assert (p + p')[1..] == p[1..] + p' && (d + d')[1..] == d[1..] + d';
      match StepUp(h, current, p[0], d[0])
      case None =>
      case Some(up) => ClimbCompose(h, up, p[1..], d[1..], p', d');
    }
  }

  /** After at least one step the digest is the hash of a node preimage. */
  function LastPreimage(h: Hash, current: string, p: seq<string>, d: seq<bool>): Bytes
    requires |p| == |d| && p != [] && Climb(h, current, p, d).Some?
    decreases |p|
  {
    if |p| == 1 then FirstPreimage(current, p[0], d[0])
    else LastPreimage(h, StepUp(h, current, p[0], d[0]).value, p[1..], d[1..])
  }

  lemma {:induction false} ClimbIsNode(h: Hash, current: string, p: seq<string>, d: seq<bool>)
    requires |p| == |d| && p != [] && Climb(h, current, p, d).Some?
    ensures var x := LastPreimage(h, current, p, d);
            Climb(h, current, p, d) == Some(ToHex(h(x))) && NODE <= x
    decreases |p|
  {
    if |p| > 1 {
      ClimbIsNode(h, StepUp(h, current, p[0], d[0]).value, p[1..], d[1..]);
    } else {
      assert p[1..] == [] && Climb(h, current, p, d) == StepUp(h, current, p[0], d[0]);
    }
  }

  function ExtractLeafNode(h: Hash, leaf: string, extra: seq<string>, ed: seq<bool>, tail: seq<string>,
                                 data: Bytes, path: seq<string>, dirs: seq<bool>): (Bytes, Bytes)
    requires |extra| == |ed| && extra != [] && |tail| == |path| == |dirs|
    requires Climb(h, leaf, extra, ed).Some?
  {
    var mid := Climb(h, leaf, extra, ed).value;
    var pair := ExtractPair(h, mid, tail, HashLeaf(h, data), path, dirs);
    if pair.0 != pair.1 then pair else (LastPreimage(h, leaf, extra, ed), LEAF + data)
  }

  /**
   Leaves and nodes are separated: an audit entry's leaf digest cannot be passed off as an inner node.
   If a longer proof, whose directions end with those of a shorter one, reaches the same root, then a
   collision is extracted.
   */
  lemma LeafIsNoNode(h: Hash, leaf: string, extra: seq<string>, ed: seq<bool>, tail: seq<string>,
                     data: Bytes, path: seq<string>, dirs: seq<bool>)
    requires ValidHash(h) && |extra| == |ed| && extra != [] && |tail| == |path| == |dirs|
    requires Climb(h, leaf, extra + tail, ed + dirs).Some?
    requires Climb(h, leaf, extra + tail, ed + dirs) == Climb(h, HashLeaf(h, data), path, dirs)
    ensures Climb(h, leaf, extra, ed).Some?
    ensures Collision(h, ExtractLeafNode(h, leaf, extra, ed, tail, data, path, dirs))
  {
    ClimbCompose(h, leaf, extra, ed, tail, dirs);
    ClimbIsNode(h, leaf, extra, ed);
    var mid := Climb(h, leaf, extra, ed).value;
    var x := LastPreimage(h, leaf, extra, ed);
    FromHexToHex(h(x));
    FromHexToHex(h(LEAF + data));
    ProofsBind(h, mid, tail, HashLeaf(h, data), path, dirs);
    assert x[0] == 110 && (LEAF + data)[0] == 108;
  }

  // --------------------------------------------------------- the length of a leaf

  lemma {:induction false} SelfPair(h: Hash, a: string, pa: seq<string>, dirs: seq<bool>)
    requires |pa| == |dirs|
    ensures ExtractPair(h, a, pa, a, pa, dirs).0 == ExtractPair(h, a, pa, a, pa, dirs).1
    decreases |dirs|
  {
    if dirs != [] && StepUp(h, a, pa[0], dirs[0]).Some? {
      SelfPair(h, StepUp(h, a, pa[0], dirs[0]).value, pa[1..], dirs[1..]);
    }
  }

  /** Whatever the lengths, two proofs that reach one root hash the same first preimage, or collide. */
  lemma PreimagesBind(h: Hash, a: string, pa: seq<string>, b: string, pb: seq<string>, dirs: seq<bool>)
    requires ValidHash(h) && |pa| == |pb| == |dirs| > 0
    requires Climb(h, a, pa, dirs).Some? && Climb(h, a, pa, dirs) == Climb(h, b, pb, dirs)
    ensures || FirstPreimage(a, pa[0], dirs[0]) == FirstPreimage(b, pb[0], dirs[0])
            || Collision(h, ExtractPair(h, a, pa, b, pb, dirs))
  {
    var xa, xb := FirstPreimage(a, pa[0], dirs[0]), FirstPreimage(b, pb[0], dirs[0]);
    FromHexToHex(h(xa));
    FromHexToHex(h(xb));
    ProofsBind(h, ToHex(h(xa)), pa[1..], ToHex(h(xb)), pb[1..], dirs[1..]);
  }

  /** An accepted proof with a path. */
  ghost predicate HasPath(h: Hash, p: Proof) {
    Verified(h, p) == Ok(true) && p.path != []
  }

  lemma PathIsHex(h: Hash, p: Proof)
    requires HasPath(h, p)
    ensures |p.path| == |p.dirs| && FromHex(p.leafHash).Some? && FromHex(p.path[0]).Some?
    ensures |FirstPreimage(p.leafHash, p.path[0], p.dirs[0])|
         == 5 + |FromHex(p.leafHash).value| + |FromHex(p.path[0]).value|
  {
  }

  /**
   The verifier checks no digest length, so from any accepted proof with a path there is another one, with the
   same root and directions and without a collision between the two, for a leaf digest of every length up to
   that of both first children together.
   */
  lemma LengthIsNotBound(h: Hash, p: Proof, m: nat) returns (q: Proof)
    requires HasPath(h, p) && FromHex(p.leafHash).Some? && FromHex(p.path[0]).Some?
    requires m <= |FromHex(p.leafHash).value| + |FromHex(p.path[0]).value|
    ensures HasPath(h, q) && q.rootHash == p.rootHash && q.dirs == p.dirs
    ensures FromHex(q.leafHash).Some? && |FromHex(q.leafHash).value| == m
    ensures |p.path| == |p.dirs| == |q.path| && !Collision(h, ExtractPair(h, p.leafHash, p.path, q.leafHash, q.path, p.dirs))
  {
    var l, s := FromHex(p.leafHash).value, FromHex(p.path[0]).value;
    var leaf, sibling := Shift(l, s, p.dirs[0], m);
    FromHexToHex(leaf);
    FromHexToHex(sibling);
    q := p.(leafHash := ToHex(leaf), path := [ToHex(sibling)] + p.path[1..]);
    assert FirstPreimage(q.leafHash, q.path[0], q.dirs[0]) == FirstPreimage(p.leafHash, p.path[0], p.dirs[0]);
    var up := StepUp(h, p.leafHash, p.path[0], p.dirs[0]);
    assert StepUp(h, q.leafHash, q.path[0], q.dirs[0]) == up && up.Some?;
    assert q.path[1..] == p.path[1..];
    SelfPair(h, up.value, p.path[1..], p.dirs[1..]);
  }

  /** `q` is accepted with the root and directions of `p`, for a leaf digest of `m` bytes. */
  ghost predicate IsRival(h: Hash, p: Proof, q: Proof, m: nat) {
    && Verified(h, q) == Ok(true) && q.rootHash == p.rootHash && q.dirs == p.dirs
    && FromHex(q.leafHash).Some? && |FromHex(q.leafHash).value| == m
  }

  /** The two proofs have one leaf digest, or yield a collision. */
  ghost predicate Agree(h: Hash, p: Proof, q: Proof) {
    && |p.path| == |q.path| == |p.dirs|
    && (FromHex(p.leafHash) == FromHex(q.leafHash)
        || Collision(h, ExtractPair(h, p.leafHash, p.path, q.leafHash, q.path, p.dirs)))
  }

  lemma RivalAgrees(h: Hash, p: Proof, q: Proof, m: nat)
    requires ValidHash(h) && HasPath(h, p) && IsRival(h, p, q, m)
    requires FromHex(p.leafHash).Some? && FromHex(p.path[0]).Some?
    requires m == |FromHex(p.leafHash).value| || m > |FromHex(p.leafHash).value| + |FromHex(p.path[0]).value|
    ensures Agree(h, p, q)
  {
    if m == |FromHex(p.leafHash).value| {
      VerifiedProofsBind(h, p, q);
    } else {
      PathIsHex(h, p);
      PathIsHex(h, q);
      PreimagesBind(h, p.leafHash, p.path, q.leafHash, q.path, p.dirs);
    }
  }

  /**
   What an accepted proof says about leaf digests of any length `m`: every other accepted proof with its root and
   directions for an `m`-byte digest has the same digest, or yields a collision, if and only if `m` is the
   digest's own length or exceeds both first children together.
   */
  lemma LeafBindsExactly(h: Hash, p: Proof, m: nat)
    requires ValidHash(h) && HasPath(h, p)
    ensures FromHex(p.leafHash).Some? && FromHex(p.path[0]).Some?
    ensures (forall q :: IsRival(h, p, q, m) ==> Agree(h, p, q)) <==>
            m == |FromHex(p.leafHash).value| || m > |FromHex(p.leafHash).value| + |FromHex(p.path[0]).value|
  {
    PathIsHex(h, p);
    var n := |FromHex(p.leafHash).value|;
    if m == n || m > n + |FromHex(p.path[0]).value| {
      forall q | IsRival(h, p, q, m)
        ensures Agree(h, p, q)
      {
        RivalAgrees(h, p, q, m);
      }
    } else {
      var q := LengthIsNotBound(h, p, m);
      assert IsRival(h, p, q, m) && !Agree(h, p, q);
    }
  }

  /** Moves the boundary between two children without changing what is hashed. */
  lemma Shift(l: Bytes, s: Bytes, isLeft: bool, m: nat) returns (l': Bytes, s': Bytes)
    requires m <= |l| + |s|
    ensures |l'| == m
    ensures if isLeft then NodePreimage(l', s') == NodePreimage(l, s) else NodePreimage(s', l') == NodePreimage(s, l)
  {
    if isLeft {
      l', s' := (l + s)[..m], (l + s)[m..];
      Recut(l + s, m);
      assert NODE + l + s == NODE + (l + s);
      assert NODE + l' + s' == NODE + (l' + s');
    } else {
      var cut := |l| + |s| - m;
      s', l' := (s + l)[..cut], (s + l)[cut..];
      Recut(s + l, cut);
      assert NODE + s + l == NODE + (s + l);
      assert NODE + s' + l' == NODE + (s' + l');
    }
  }

  lemma Recut(x: Bytes, m: nat)
    requires m <= |x|
    ensures x[..m] + x[m..] == x
  {
  }

  // ------------------------------------------------------------- tree builder

  predicate AllHex(level: seq<string>) {
    forall i :: 0 <= i < |level| ==> FromHex(level[i]).Some?
  }

  /** The digest to the right of position `i`; the last of an odd level is paired with itself. */
  function RightOf(level: seq<string>, i: nat): string
    requires 2 * i < |level|
  {
    if 2 * i + 1 < |level| then level[2 * i + 1] else level[2 * i]
  }

  function ParentAt(h: Hash, level: seq<string>, i: nat): string
    requires 2 * i < |level| && AllHex(level)
  {
    HashNode(h, level[2 * i], RightOf(level, i)).value
  }

  function NextLevel(h: Hash, level: seq<string>): (next: seq<string>)
    requires AllHex(level)
    ensures |next| == (|level| + 1) / 2
    ensures forall i :: 0 <= i < |next| ==> next[i] == ParentAt(h, level, i)
    ensures AllHex(next)
  {
    var next := seq((|level| + 1) / 2, i requires 0 <= i < (|level| + 1) / 2 => ParentAt(h, level, i));
    assert AllHex(next) by { ParentsAreHex(h, level, next); }
    next
  }

  lemma ParentsAreHex(h: Hash, level: seq<string>, next: seq<string>)
    requires AllHex(level) && |next| == (|level| + 1) / 2
    requires forall i :: 0 <= i < |next| ==> next[i] == ParentAt(h, level, i)
    ensures AllHex(next)
  {
    forall i | 0 <= i < |next|
      ensures FromHex(next[i]).Some?
    {
      FromHexToHex(h(NodePreimage(FromHex(level[2 * i]).value, FromHex(RightOf(level, i)).value)));
      assert next[i] == ParentAt(h, level, i);
    }
  }

  function RootOf(h: Hash, level: seq<string>): string
    requires level != [] && AllHex(level)
    decreases |level|
  {
    if |level| == 1 then level[0] else RootOf(h, NextLevel(h, level))
  }

  /** The sibling of position `i` and whether `i` is a left child. */
  function SiblingOf(level: seq<string>, i: nat): string
    requires i < |level|
  {
    if i % 2 == 0 then (if i + 1 < |level| then level[i + 1] else level[i]) else level[i - 1]
  }

  function PathFrom(h: Hash, level: seq<string>, i: nat): (r: (seq<string>, seq<bool>))
    requires i < |level| && AllHex(level)
    ensures |r.0| == |r.1|
    decreases |level|
  {
    if |level| == 1 then ([], [])
    else
      var rest := PathFrom(h, NextLevel(h, level), i / 2);
      ([SiblingOf(level, i)] + rest.0, [i % 2 == 0] + rest.1)
  }

  const EMPTY_ROOT: Bytes := [
    73, 78, 84, 69, 82, 76, 79, 67, 75, 45, 69, 77, 80, 84, 89, 45, 77, 69, 82, 75, 76, 69, 45, 82, 79, 79, 84]

  /** `compute_merkle_root`: raises exactly when there are several leaves and one is not hexadecimal. */
  method ComputeRoot(h: Hash, leaves: seq<string>) returns (r: Result<string, ProofError>)
    ensures leaves == [] ==> r == Ok(ToHex(h(EMPTY_ROOT)))
    ensures |leaves| == 1 ==> r == Ok(leaves[0])
    ensures |leaves| > 1 ==> r == if AllHex(leaves) then Ok(RootOf(h, leaves)) else Err(NotHex)
  {
    if leaves == [] {
      return Ok(ToHex(h(EMPTY_ROOT)));
    }
    var current := leaves;
    while |current| > 1
      invariant current != [] && (current == leaves || AllHex(leaves))
      invariant AllHex(leaves) ==> AllHex(current) && RootOf(h, current) == RootOf(h, leaves)
      decreases |current|
    {
      var next := LevelUp(h, current);
      if next.Err? {
        return Err(NotHex);
      }
      current := next.value;
    }
    return Ok(current[0]);
  }

  /** The inner loop of the builder: one level of parents. */
  method LevelUp(h: Hash, current: seq<string>) returns (r: Result<seq<string>, ProofError>)
    ensures r == if AllHex(current) then Ok(NextLevel(h, current)) else Err(NotHex)
  {
    var next: seq<string> := [];
    while 2 * |next| < |current|
      invariant |next| <= (|current| + 1) / 2
      invariant forall i :: 0 <= i < 2 * |next| && i < |current| ==> FromHex(current[i]).Some?
      invariant AllHex(current) ==> forall i :: 0 <= i < |next| ==> next[i] == ParentAt(h, current, i)
    {
      var i := |next|;
      var node := HashNode(h, current[2 * i], RightOf(current, i));
      if node.None? {
        return Err(NotHex);
      }
      next := next + [node.value];
    }
    assert AllHex(current);
    assert next == NextLevel(h, current);
    return Ok(next);
  }

  lemma StepToParent(h: Hash, level: seq<string>, i: nat)
    requires |level| > 1 && i < |level| && AllHex(level)
    ensures StepUp(h, level[i], SiblingOf(level, i), i % 2 == 0) == Some(NextLevel(h, level)[i / 2])
  {
    var k := i / 2;
    assert i == 2 * k || i == 2 * k + 1;
    assert NextLevel(h, level)[k] == ParentAt(h, level, k);
  }

  /** Every leaf of every tree, of any size, has a generated proof that verifies against its root. */
  lemma {:induction false} GeneratedProofVerifies(h: Hash, level: seq<string>, i: nat)
    requires i < |level| && AllHex(level)
    ensures var r := PathFrom(h, level, i); Climb(h, level[i], r.0, r.1) == Some(RootOf(h, level))
    decreases |level|
  {
    if |level| > 1 {
      StepToParent(h, level, i);
      var next := NextLevel(h, level);
      GeneratedProofVerifies(h, next, i / 2);
      var rest, r := PathFrom(h, next, i / 2), PathFrom(h, level, i);
      assert r.0[1..] == rest.0 && r.1[1..] == rest.1;
    }
  }

  /** `generate_inclusion_proof`: the first position of the digest, and its sibling path. */
  method GenerateProof(h: Hash, entry: string, leaves: seq<string>) returns (r: Result<Option<Proof>, ProofError>)
    ensures entry !in leaves ==> r == Ok(None)
    ensures r.Err? <==> entry in leaves && |leaves| > 1 && !AllHex(leaves)
    ensures r.Ok? && entry in leaves ==>
      r.value.Some? && r.value.value.leafHash == entry && Verified(h, r.value.value) == Ok(true)
    ensures r.Ok? && entry in leaves && |leaves| > 1 ==> r.value.value.rootHash == RootOf(h, leaves)
  {
    var i: nat := 0;
    while i < |leaves| && leaves[i] != entry
      invariant i <= |leaves|
      invariant forall j :: 0 <= j < i ==> leaves[j] != entry
    {
      i := i + 1;
    }
    if i == |leaves| {
      return Ok(None);
    }
    var root := ComputeRoot(h, leaves);
    if root.Err? {
      return Err(NotHex);
    }
    if |leaves| == 1 {
      return Ok(Some(Proof(entry, root.value, [], [])));
    }
    var path, dirs := SiblingPath(h, leaves, i);
    GeneratedProofVerifies(h, leaves, i);
    return Ok(Some(Proof(entry, root.value, path, dirs)));
  }

  /** The level-by-level loop of the proof generator. */
  method SiblingPath(h: Hash, leaves: seq<string>, i: nat) returns (path: seq<string>, dirs: seq<bool>)
    requires i < |leaves| && AllHex(leaves)
    ensures (path, dirs) == PathFrom(h, leaves, i)
  {
    path, dirs := [], [];
    var at, current := i, leaves;
    while |current| > 1
      invariant 0 <= at < |current| && AllHex(current)
      invariant PathFrom(h, leaves, i).0 == path + PathFrom(h, current, at).0
      invariant PathFrom(h, leaves, i).1 == dirs + PathFrom(h, current, at).1
      decreases |current|
    {
      ghost var rest := PathFrom(h, NextLevel(h, current), at / 2);
      Append(path, SiblingOf(current, at), rest.0);
      Append(dirs, at % 2 == 0, rest.1);
      path, dirs := path + [SiblingOf(current, at)], dirs + [at % 2 == 0];
      current, at := NextLevel(h, current), at / 2;
    }
    assert path + [] == path && dirs + [] == dirs;
  }

  lemma Append<T>(a: seq<T>, x: T, rest: seq<T>)
    ensures a + ([x] + rest) == (a + [x]) + rest
  {
  }

  // ------------------------------------------------------ what a root commits to

  /** Every digest of the level has 32 bytes. */
  ghost predicate IsLevel(level: seq<string>) {
    forall i :: 0 <= i < |level| ==> FromHex(level[i]).Some? && |FromHex(level[i]).value| == 32
  }

  ghost predicate SameDigests(a: seq<string>, b: seq<string>) {
    |a| == |b| && forall i :: 0 <= i < |a| ==> FromHex(a[i]) == FromHex(b[i])
  }

  function ParentPreimage(level: seq<string>, i: nat): Bytes
    requires 2 * i < |level|
  {
    FirstPreimage(level[2 * i], RightOf(level, i), true)
  }

  /** The first differing pair of parent preimages from position `i` on. */
  function DifferingPair(a: seq<string>, b: seq<string>, i: nat): (r: (Bytes, Bytes))
    requires |a| == |b|
    decreases |a| - 2 * i
  {
    if 2 * i >= |a| then ([], [])
    else if ParentPreimage(a, i) != ParentPreimage(b, i) then (ParentPreimage(a, i), ParentPreimage(b, i))
    else DifferingPair(a, b, i + 1)
  }

  function ExtractFromTrees(h: Hash, a: seq<string>, b: seq<string>): (Bytes, Bytes)
    requires |a| == |b| && AllHex(a) && AllHex(b)
    decreases |a|
  {
    if |a| <= 1 then ([], [])
    else
      var above := ExtractFromTrees(h, NextLevel(h, a), NextLevel(h, b));
      if above.0 != above.1 then above else DifferingPair(a, b, 0)
  }

  lemma NextIsLevel(h: Hash, level: seq<string>)
    requires ValidHash(h) && IsLevel(level)
    ensures IsLevel(NextLevel(h, level))
    ensures forall i :: 0 <= i < |NextLevel(h, level)| ==>
              FromHex(NextLevel(h, level)[i]) == Some(h(ParentPreimage(level, i)))
  {
    forall i | 0 <= i < |NextLevel(h, level)|
      ensures FromHex(NextLevel(h, level)[i]) == Some(h(ParentPreimage(level, i)))
    {
      FromHexToHex(h(ParentPreimage(level, i)));
      assert NextLevel(h, level)[i] == ParentAt(h, level, i);
    }
  }

  lemma SameParents(a: seq<string>, b: seq<string>, i: nat)
    requires IsLevel(a) && IsLevel(b) && |a| == |b| && 2 * i < |a| && ParentPreimage(a, i) == ParentPreimage(b, i)
    ensures FromHex(a[2 * i]) == FromHex(b[2 * i])
    ensures 2 * i + 1 < |a| ==> FromHex(a[2 * i + 1]) == FromHex(b[2 * i + 1])
  {
    var l, r, l', r' := FromHex(a[2 * i]).value, FromHex(RightOf(a, i)).value,
                        FromHex(b[2 * i]).value, FromHex(RightOf(b, i)).value;
    SameSide(l, r, l', r', true);
    SameSide(r, l, r', l', false);
  }

  /** Position `j` of the level above has equal preimages in both trees. */
  predicate SamePreimage(a: seq<string>, b: seq<string>, j: nat)
    requires |a| == |b| && 2 * j < |a|
  {
    ParentPreimage(a, j) == ParentPreimage(b, j)
  }

  lemma {:induction false} NoDifference(a: seq<string>, b: seq<string>, i: nat, j: nat)
    requires |a| == |b| && i <= j && 2 * j < |a| && DifferingPair(a, b, i).0 == DifferingPair(a, b, i).1
    ensures SamePreimage(a, b, j)
    decreases j - i
  {
    if i < j {
      NoDifference(a, b, i + 1, j);
    }
  }

  lemma {:induction false} SomeDifference(a: seq<string>, b: seq<string>, i: nat) returns (j: nat)
    requires |a| == |b| && DifferingPair(a, b, i).0 != DifferingPair(a, b, i).1
    ensures 2 * j < |a| && DifferingPair(a, b, i) == (ParentPreimage(a, j), ParentPreimage(b, j))
    decreases |a| - 2 * i
  {
    if ParentPreimage(a, i) != ParentPreimage(b, i) {
      j := i;
    } else {
      j := SomeDifference(a, b, i + 1);
    }
  }

  lemma SameLevel(a: seq<string>, b: seq<string>)
    requires IsLevel(a) && IsLevel(b) && |a| == |b|
    requires DifferingPair(a, b, 0).0 == DifferingPair(a, b, 0).1
    ensures SameDigests(a, b)
  {
    forall k | 0 <= k < |a|
      ensures FromHex(a[k]) == FromHex(b[k])
    {
      var j: nat := k / 2;
      assert k == 2 * j || k == 2 * j + 1;
      NoDifference(a, b, 0, j);
      SameParents(a, b, j);
    }
  }

  /**
   Among trees of one size a root commits to all leaf digests: equal roots mean equal leaves, or the
   pair extracted from the two trees is a collision.
   */
  lemma {:induction false} RootBindsLeaves(h: Hash, a: seq<string>, b: seq<string>)
    requires ValidHash(h) && IsLevel(a) && IsLevel(b) && |a| == |b| > 0
    requires FromHex(RootOf(h, a)) == FromHex(RootOf(h, b))
    ensures SameDigests(a, b) || ExtractFromTrees(h, a, b).0 != ExtractFromTrees(h, a, b).1
    ensures ExtractFromTrees(h, a, b).0 != ExtractFromTrees(h, a, b).1 ==> Collision(h, ExtractFromTrees(h, a, b))
    decreases |a|
  {
    if |a| > 1 {
      NextIsLevel(h, a);
      NextIsLevel(h, b);
      RootBindsLeaves(h, NextLevel(h, a), NextLevel(h, b));
      LevelBinds(h, a, b);
    }
  }

  /** Equal digests on the level above mean equal digests below, or the first differing pair collides. */
  lemma LevelBinds(h: Hash, a: seq<string>, b: seq<string>)
    requires ValidHash(h) && IsLevel(a) && IsLevel(b) && |a| == |b| > 1
    ensures var d := DifferingPair(a, b, 0);
            && (d.0 == d.1 ==> SameDigests(a, b))
            && (d.0 != d.1 && SameDigests(NextLevel(h, a), NextLevel(h, b)) ==> Collision(h, d))
  {
    var d := DifferingPair(a, b, 0);
    if d.0 == d.1 {
      SameLevel(a, b);
    } else if SameDigests(NextLevel(h, a), NextLevel(h, b)) {
      var j := SomeDifference(a, b, 0);
      NextIsLevel(h, a);
      NextIsLevel(h, b);
      assert FromHex(NextLevel(h, a)[j]) == FromHex(NextLevel(h, b)[j]);
    }
  }
}
