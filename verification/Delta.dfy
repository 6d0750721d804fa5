/**
 The binary snapshot delta: a versioned envelope that stores a common prefix,
 the replaced middle of the old data, the new middle and a common suffix.
 */
module Delta {
  import opened Prelude

  /** `b"INTERLOCK-SNAPSHOT-DELTA-V1\x00"` */
  const MAGIC: Bytes := [
    73, 78, 84, 69, 82, 76, 79, 67, 75, 45, 83, 78, 65, 80, 83, 72, 79, 84, 45,
    68, 69, 76, 84, 65, 45, 86, 49, 0]

  const FIELD := 8
  const HEADER := 68  // the magic and five packed fields

  /** Lengths must fit in one packed field. */
  const LIMIT := 0x1_0000_0000_0000_0000

  datatype DeltaError =
    | TooLong            // struct.error: a field does not fit in eight bytes
    | BadFormat
    | BadHeader
    | BadBody
    | BadSuffix
    | BaseSizeMismatch
    | BaseMismatch
    | BadOutputSize

  // ---------------------------------------------------------------- encoding

  ghost predicate IsLongestCommonPrefix(a: Bytes, b: Bytes, n: nat) {
    && n <= |a| && n <= |b|
    && (forall i :: 0 <= i < n ==> a[i] == b[i])
    && (n < |a| && n < |b| ==> a[n] != b[n])
  }

  ghost predicate IsLongestCommonSuffix(a: Bytes, b: Bytes, n: nat) {
    && n <= |a| && n <= |b|
    && (forall i :: |a| - n <= i < |a| ==> a[i] == b[|b| - |a| + i])
    && (n < |a| && n < |b| ==> a[|a| - 1 - n] != b[|b| - 1 - n])
  }

  /** How an old and a new byte string are cut. */
  datatype Cut = Cut(prefix: Bytes, oldMiddle: Bytes, newMiddle: Bytes, suffix: Bytes) {
    function Old(): Bytes { prefix + oldMiddle + suffix }
    function New(): Bytes { prefix + newMiddle + suffix }
  }

  /** The cut shares as much as possible at the front, then as much as possible at the
      back of what remains, so that prefix and suffix never overlap. */
  ghost predicate IsCut(old_: Bytes, new_: Bytes, c: Cut) {
    && old_ == c.Old() && new_ == c.New()
    && IsLongestCommonPrefix(old_, new_, |c.prefix|)
    && IsLongestCommonSuffix(old_[|c.prefix|..], new_[|c.prefix|..], |c.suffix|)
  }

  lemma PrefixUnique(a: Bytes, b: Bytes, m: nat, n: nat)
    requires IsLongestCommonPrefix(a, b, m) && IsLongestCommonPrefix(a, b, n)
    ensures m == n
  {
  }

  lemma SuffixUnique(a: Bytes, b: Bytes, m: nat, n: nat)
    requires IsLongestCommonSuffix(a, b, m) && IsLongestCommonSuffix(a, b, n)
    ensures m == n
  {
  }

  lemma CutUnique(old_: Bytes, new_: Bytes, c: Cut, c': Cut)
    requires IsCut(old_, new_, c) && IsCut(old_, new_, c')
    ensures c == c'
  {
    PrefixUnique(old_, new_, |c.prefix|, |c'.prefix|);
    SuffixUnique(old_[|c.prefix|..], new_[|c.prefix|..], |c.suffix|, |c'.suffix|);
    SameParts(c.prefix, c.oldMiddle, c.suffix, c'.prefix, c'.oldMiddle, c'.suffix);
    SameParts(c.prefix, c.newMiddle, c.suffix, c'.prefix, c'.newMiddle, c'.suffix);
  }

  lemma SameParts(x: Bytes, y: Bytes, z: Bytes, x': Bytes, y': Bytes, z': Bytes)
    requires x + y + z == x' + y' + z' && |x| == |x'| && |z| == |z'|
    ensures x == x' && y == y' && z == z'
  {
    var all := x + y + z;
    assert x == all[..|x|] && x' == all[..|x|];
    TailSplit(x, y, z, all);
    TailSplit(x', y', z', all);
  }

  lemma TailSplit(x: Bytes, y: Bytes, z: Bytes, all: Bytes)
    requires all == x + y + z
    ensures y == all[|x|..|all| - |z|] && z == all[|all| - |z|..]
  {
  }

  /** `struct.pack` of unsigned 64-bit fields in network order. */
  function PackFields(fields: seq<nat>): (h: Bytes)
    ensures |h| == FIELD * |fields|
  {
    if fields == [] then [] else Pack(fields[0], FIELD) + PackFields(fields[1..])
  }

  function FieldsOf(c: Cut): seq<nat> {
    [|c.prefix|, |c.oldMiddle|, |c.newMiddle|, |c.Old()|, |c.New()|]
  }

  /** The envelope for a given cut. */
  function Encode(c: Cut): Bytes {
    MAGIC + PackFields(FieldsOf(c)) + (c.prefix + (c.oldMiddle + (c.newMiddle + c.suffix)))
  }

  method LongestCommonPrefix(a: Bytes, b: Bytes) returns (n: nat)
    ensures IsLongestCommonPrefix(a, b, n)
  {
    n := 0;
    var shared := if |a| < |b| then |a| else |b|;
    while n < shared && a[n] == b[n]
      invariant n <= shared
      invariant forall i :: 0 <= i < n ==> a[i] == b[i]
    {
      n := n + 1;
    }
  }

  /** The second scan of the encoder, over what the first one left. */
  method LongestCommonSuffix(a: Bytes, b: Bytes) returns (n: nat)
    ensures IsLongestCommonSuffix(a, b, n)
  {
    n := 0;
    var shared := if |a| < |b| then |a| else |b|;
    while n < shared && a[|a| - n - 1] == b[|b| - n - 1]
      invariant n <= shared
      invariant forall i :: |a| - n <= i < |a| ==> a[i] == b[|b| - |a| + i]
    {
      n := n + 1;
    }
  }

  lemma CutAt(old_: Bytes, new_: Bytes, p: nat, s: nat, c: Cut)
    requires IsLongestCommonPrefix(old_, new_, p)
    requires IsLongestCommonSuffix(old_[p..], new_[p..], s)
    requires c == Cut(old_[..p], old_[p..|old_| - s], new_[p..|new_| - s], old_[|old_| - s..])
    ensures IsCut(old_, new_, c)
  {
    SharedEnds(old_, new_, p, s);
    ThreeParts(old_, p, s);
    ThreeParts(new_, p, s);
  }

  lemma ThreeParts(x: Bytes, p: nat, s: nat)
    requires p + s <= |x|
    ensures x == x[..p] + x[p..|x| - s] + x[|x| - s..]
  {
  }

  lemma SharedEnds(old_: Bytes, new_: Bytes, p: nat, s: nat)
    requires IsLongestCommonPrefix(old_, new_, p)
    requires IsLongestCommonSuffix(old_[p..], new_[p..], s)
    ensures old_[..p] == new_[..p]
    ensures old_[|old_| - s..] == new_[|new_| - s..]
  {
    var a, b := old_[p..], new_[p..];
    var x, y := old_[|old_| - s..], new_[|new_| - s..];
    forall i | 0 <= i < s
      ensures x[i] == y[i]
    {
      assert a[|a| - s + i] == b[|b| - |a| + (|a| - s + i)];
    }
  }

  /** `d` is the envelope of the maximal cut of the two byte strings. */
  ghost predicate IsDelta(old_: Bytes, new_: Bytes, d: Bytes) {
    |old_| < LIMIT && |new_| < LIMIT && exists c :: IsCut(old_, new_, c) && d == Encode(c)
  }

  lemma DeltaAt(old_: Bytes, new_: Bytes, p: nat, s: nat, c: Cut)
    requires IsLongestCommonPrefix(old_, new_, p)
    requires IsLongestCommonSuffix(old_[p..], new_[p..], s)
    requires c == Cut(old_[..p], old_[p..|old_| - s], new_[p..|new_| - s], old_[|old_| - s..])
    ensures |old_| < LIMIT && |new_| < LIMIT ==> IsDelta(old_, new_, Encode(c))
  {
    CutAt(old_, new_, p, s, c);
  }

  /** Scans from both ends, then packs the envelope. */
  method ComputeDelta(old_: Bytes, new_: Bytes) returns (r: Result<Bytes, DeltaError>)
    ensures r.Ok? <==> |old_| < LIMIT && |new_| < LIMIT
    ensures r.Ok? ==> IsDelta(old_, new_, r.value)
    ensures r.Err? ==> r.error == TooLong
  {
    var p := LongestCommonPrefix(old_, new_);
    var s := LongestCommonSuffix(old_[p..], new_[p..]);
    var cut := Cut(old_[..p], old_[p..|old_| - s], new_[p..|new_| - s], old_[|old_| - s..]);
    DeltaAt(old_, new_, p, s, cut);
    if |old_| >= LIMIT || |new_| >= LIMIT {
      r := Err(TooLong);
    } else {
      r := Ok(Encode(cut));
    }
  }

  /** The encoder's contract leaves it one result. */
  lemma DeltaUnique(old_: Bytes, new_: Bytes, d: Bytes, d': Bytes)
    ensures IsDelta(old_, new_, d) && IsDelta(old_, new_, d') ==> d == d'
  {
    if IsDelta(old_, new_, d) && IsDelta(old_, new_, d') {
      var c :| IsCut(old_, new_, c) && d == Encode(c);
      var c' :| IsCut(old_, new_, c') && d' == Encode(c');
      CutUnique(old_, new_, c, c');
    }
  }

  // ---------------------------------------------------------------- decoding

  /** The decoded envelope, before any base is consulted. */
  datatype Parsed = Parsed(cut: Cut, oldSize: nat, newSize: nat)

  function Field(d: Bytes, k: nat): nat
    requires HEADER <= |d| && k < 5
  {
    Unpack(d[28 + FIELD * k..28 + FIELD * (k + 1)])
  }

  function Parse(d: Bytes): Result<Parsed, DeltaError> {
    if !(MAGIC <= d) then Err(BadFormat)
    else if |d| < HEADER then Err(BadHeader)
    else ParseBody(d[HEADER..], Field(d, 0), Field(d, 1), Field(d, 2), Field(d, 3), Field(d, 4))
  }

  function ParseBody(d: Bytes, p: nat, om: nat, nm: nat, oldSize: nat, newSize: nat): Result<Parsed, DeltaError> {
    if |d| < p + om + nm then Err(BadBody)
    else if |d[p + om + nm..]| != newSize - p - nm then Err(BadSuffix)
    else Ok(Parsed(Cut(d[..p], d[p..p + om], d[p + om..p + om + nm], d[p + om + nm..]), oldSize, newSize))
  }

  function ApplyParsed(base: Bytes, f: Parsed): Result<Bytes, DeltaError> {
    var c := f.cut;
    if |base| != f.oldSize then Err(BaseSizeMismatch)
    else if c.oldMiddle != Clamp(base, |c.prefix|, |c.prefix| + |c.oldMiddle|) then Err(BaseMismatch)
    else if |c.New()| != f.newSize then Err(BadOutputSize)
    else Ok(c.New())
  }

  function ApplyDelta(base: Bytes, d: Bytes): Result<Bytes, DeltaError> {
    match Parse(d)
    case Err(e) => Err(e)
    case Ok(f) => ApplyParsed(base, f)
  }

  lemma PowLimit()
    ensures Pow256(8) == LIMIT
  {
    assert Pow256(2) == 0x1_0000;
    assert Pow256(4) == 0x1_0000_0000;
    assert Pow256(6) == 0x1_0000_0000_0000;
  }

  lemma Shifted(a: Bytes, b: Bytes, i: nat, j: nat)
    requires i <= j <= |b|
    ensures (a + b)[|a| + i..|a| + j] == b[i..j]
  {
  }

  lemma FirstField(n: nat, rest: Bytes)
    requires n < LIMIT
    ensures Unpack((Pack(n, FIELD) + rest)[..FIELD]) == n
  {
    PowLimit();
    UnpackPack(n, FIELD);
    assert (Pack(n, FIELD) + rest)[..FIELD] == Pack(n, FIELD);
  }

  lemma LaterField(first: Bytes, rest: Bytes, k: nat)
    requires |first| == FIELD && k >= 1 && FIELD * k <= |rest|
    ensures (first + rest)[FIELD * k..FIELD * (k + 1)] == rest[FIELD * (k - 1)..FIELD * k]
  {
    Shifted(first, rest, FIELD * (k - 1), FIELD * k);
  }

  lemma {:induction false} PackedField(fields: seq<nat>, k: nat)
    requires k < |fields| && forall i :: 0 <= i < |fields| ==> fields[i] < LIMIT
    ensures Unpack(PackFields(fields)[FIELD * k..FIELD * (k + 1)]) == fields[k]
  {
    var first, rest := Pack(fields[0], FIELD), PackFields(fields[1..]);
    assert PackFields(fields) == first + rest;
    if k == 0 {
      FirstField(fields[0], rest);
    } else {
      PackedField(fields[1..], k - 1);
      LaterField(first, rest, k);
    }
  }

  lemma HeaderField(magic: Bytes, fields: seq<nat>, rest: Bytes, k: nat)
    requires |magic| == 28 && |fields| == 5 && k < 5
    requires forall i :: 0 <= i < |fields| ==> fields[i] < LIMIT
    ensures Field(magic + PackFields(fields) + rest, k) == fields[k]
  {
    PackedField(fields, k);
    FieldInside(magic, PackFields(fields), rest, k);
  }

  lemma FieldInside(magic: Bytes, h: Bytes, rest: Bytes, k: nat)
    requires |magic| == 28 && |h| == 40 && k < 5
    ensures Field(magic + h + rest, k) == Unpack(h[FIELD * k..FIELD * (k + 1)])
  {
    SliceInside(magic, h, rest, FIELD * k, FIELD * (k + 1));
  }

  lemma SliceInside(a: Bytes, b: Bytes, c: Bytes, i: nat, j: nat)
    requires i <= j <= |b|
    ensures (a + b + c)[|a| + i..|a| + j] == b[i..j]
  {
  }

  lemma Segments(c: Cut)
    ensures ParseBody(c.prefix + (c.oldMiddle + (c.newMiddle + c.suffix)),
                      |c.prefix|, |c.oldMiddle|, |c.newMiddle|, |c.Old()|, |c.New()|)
         == Ok(Parsed(c, |c.Old()|, |c.New()|))
  {
    var p, om, nm := |c.prefix|, |c.oldMiddle|, |c.newMiddle|;
    var d := c.prefix + (c.oldMiddle + (c.newMiddle + c.suffix));
    assert d[..p] == c.prefix;
    assert d[p..p + om] == c.oldMiddle;
    assert d[p + om..p + om + nm] == c.newMiddle;
    assert d[p + om + nm..] == c.suffix;
  }

  /** Parsing what was encoded recovers the five packed fields and the four segments. */
  lemma ParseEncode(c: Cut)
    requires |c.Old()| < LIMIT && |c.New()| < LIMIT
    ensures Parse(Encode(c)) == Ok(Parsed(c, |c.Old()|, |c.New()|))
  {
    var rest := c.prefix + (c.oldMiddle + (c.newMiddle + c.suffix));
    var d := Encode(c);
    assert d[HEADER..] == rest && MAGIC <= d;
    HeaderField(MAGIC, FieldsOf(c), rest, 0);
    HeaderField(MAGIC, FieldsOf(c), rest, 1);
    HeaderField(MAGIC, FieldsOf(c), rest, 2);
    HeaderField(MAGIC, FieldsOf(c), rest, 3);
    HeaderField(MAGIC, FieldsOf(c), rest, 4);
    Segments(c);
  }

  // ----------------------------------------------------------------- results

  /**
   A delta is accepted on a base exactly when the base has the old length and
   agrees with the old data on the replaced middle, and every accepted
   application yields the new data, whatever else the base holds.
   */
  lemma AcceptedExactly(old_: Bytes, new_: Bytes, c: Cut, base: Bytes)
    requires |old_| < LIMIT && |new_| < LIMIT && IsCut(old_, new_, c)
    ensures ApplyDelta(base, Encode(c)) ==
            if |base| != |old_| then Err(BaseSizeMismatch)
            else if base[|c.prefix|..|c.prefix| + |c.oldMiddle|] != old_[|c.prefix|..|c.prefix| + |c.oldMiddle|]
            then Err(BaseMismatch)
            else Ok(new_)
  {
    ParseEncode(c);
    Applied(c, base);
    MiddleOf(c);
  }

  lemma MiddleOf(c: Cut)
    ensures c.Old()[|c.prefix|..|c.prefix| + |c.oldMiddle|] == c.oldMiddle
  {
  }

  lemma Applied(c: Cut, base: Bytes)
    ensures ApplyParsed(base, Parsed(c, |c.Old()|, |c.New()|)) ==
            if |base| != |c.Old()| then Err(BaseSizeMismatch)
            else if base[|c.prefix|..|c.prefix| + |c.oldMiddle|] != c.oldMiddle then Err(BaseMismatch)
            else Ok(c.New())
  {
  }

  /** `d` is the envelope of the cut for a base of that size: the magic, five eight-byte fields that announce exactly
      these lengths, and the four segments with nothing missing and nothing after them. */
  ghost predicate Announces(d: Bytes, c: Cut, baseSize: nat) {
    && |d| >= 68 && d[..28] == MAGIC
    && Unpack(d[28..36]) == |c.prefix| && Unpack(d[36..44]) == |c.oldMiddle| && Unpack(d[44..52]) == |c.newMiddle|
    && Unpack(d[52..60]) == baseSize && Unpack(d[60..68]) == |c.prefix| + |c.newMiddle| + |c.suffix|
    && d[68..] == c.prefix + (c.oldMiddle + (c.newMiddle + c.suffix))
  }

  /**
   The decoder on every byte string, forged ones included: it yields `x` if and only if the delta is a proper envelope
   for a base of this length, the base agrees on the replaced middle, and `x` is prefix, new middle and suffix.
   */
  lemma DecodesExactly(base: Bytes, d: Bytes, x: Bytes)
    ensures ApplyDelta(base, d) == Ok(x) <==>
      exists c: Cut ::
        && Announces(d, c, |base|)
        && PySlice(base, |c.prefix|, |c.prefix| + |c.oldMiddle|) == c.oldMiddle
        && x == c.prefix + c.newMiddle + c.suffix
  {
    if ApplyDelta(base, d) == Ok(x) {
      ParsedAnnounces(d);
      var c := Parse(d).value.cut;
      ClampIsSlice(base, |c.prefix|, |c.prefix| + |c.oldMiddle|);
      assert Announces(d, c, |base|);
    }
    forall c: Cut | Announces(d, c, |base|) && PySlice(base, |c.prefix|, |c.prefix| + |c.oldMiddle|) == c.oldMiddle
      ensures ApplyDelta(base, d) == Ok(c.prefix + c.newMiddle + c.suffix)
    {
      AnnouncedParses(d, c, |base|);
      ClampIsSlice(base, |c.prefix|, |c.prefix| + |c.oldMiddle|);
    }
  }

  lemma ClampIsSlice(s: Bytes, lo: nat, hi: nat)
    ensures Clamp(s, lo, hi) == PySlice(s, lo, hi)
  {
  }

  lemma MagicPrefix(d: Bytes)
    ensures MAGIC <= d <==> |d| >= 28 && d[..28] == MAGIC
  {
    assert |MAGIC| == 28;
  }

  lemma ParsedAnnounces(d: Bytes)
    ensures Parse(d).Ok? ==> Announces(d, Parse(d).value.cut, Parse(d).value.oldSize)
    ensures Parse(d).Ok? ==> var f := Parse(d).value; f.newSize == |f.cut.New()|
  {
    MagicPrefix(d);
    if Parse(d).Ok? {
      var c := Parse(d).value.cut;
      SegmentsJoin(d[HEADER..], |c.prefix|, |c.oldMiddle|, |c.newMiddle|);
    }
  }

  lemma SegmentsJoin(d: Bytes, p: nat, om: nat, nm: nat)
    requires p + om + nm <= |d|
    ensures d == d[..p] + (d[p..p + om] + (d[p + om..p + om + nm] + d[p + om + nm..]))
  {
  }

  lemma AnnouncedParses(d: Bytes, c: Cut, baseSize: nat)
    requires Announces(d, c, baseSize)
    ensures Parse(d) == Ok(Parsed(c, baseSize, |c.New()|))
  {
    MagicPrefix(d);
    Segments(c);
  }

  lemma RoundTrip(old_: Bytes, new_: Bytes, d: Bytes)
    ensures IsDelta(old_, new_, d) ==> ApplyDelta(old_, d) == Ok(new_)
  {
    if IsDelta(old_, new_, d) {
      var c :| IsCut(old_, new_, c) && d == Encode(c);
      AcceptedExactly(old_, new_, c, old_);
    }
  }

  /** The envelope holds the header, all of the old data and the new middle. */
  lemma DeltaLength(old_: Bytes, new_: Bytes, c: Cut)
    requires IsCut(old_, new_, c)
    ensures |Encode(c)| == HEADER + |old_| + |c.newMiddle|
  {
    assert |MAGIC| == 28;
  }

  /** For every delta, well formed or forged: a base only decides acceptance, never the
      output, and the final size check cannot be the one that fails. */
  lemma OutputIgnoresBase(base: Bytes, base': Bytes, d: Bytes)
    ensures ApplyDelta(base, d).Ok? && ApplyDelta(base', d).Ok? ==> ApplyDelta(base, d) == ApplyDelta(base', d)
    ensures ApplyDelta(base, d) != Err(BadOutputSize)
  {
  }
}
