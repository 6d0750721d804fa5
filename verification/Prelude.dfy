/**
 The few Python notions that the modelled code relies on: byte strings,
 results of code that may raise, clamped slices and big-endian packing.
 */
module Prelude {

  newtype Byte = x: int | 0 <= x < 256

  type Bytes = seq<Byte>

  datatype Option<+T> = None | Some(value: T)

  /** The outcome of code that either returns or raises. */
  datatype Result<+T, +E> = Ok(value: T) | Err(error: E)

  /** `s[lo:hi]` for non-negative bounds: out-of-range bounds are clamped. */
  function Clamp(s: Bytes, lo: nat, hi: nat): (r: Bytes)
    ensures hi <= |s| && lo <= hi ==> r == s[lo..hi]
  {
    var h := if hi <= |s| then hi else |s|;
    if lo <= h then s[lo..h] else []
  }

  /** A bound of a Python slice: negative bounds count from the end, and all are clamped. */
  function SliceBound(n: nat, i: int): (r: nat)
    ensures r <= n
  {
    if i < 0 then (if n + i < 0 then 0 else n + i) else if i < n then i else n
  }

  /** `s[lo:hi]` for any bounds. */
  function PySlice<T>(s: seq<T>, lo: int, hi: int): (r: seq<T>)
    ensures 0 <= lo <= hi <= |s| ==> r == s[lo..hi]
  {
    var l, h := SliceBound(|s|, lo), SliceBound(|s|, hi);
    if l <= h then s[l..h] else []
  }

  function Pow256(k: nat): (p: nat)
    ensures p >= 1
  {
    if k == 0 then 1 else 256 * Pow256(k - 1)
  }

  /** The `k` low-order bytes of `n`, most significant first. */
  function Pack(n: nat, k: nat): (s: Bytes)
    ensures |s| == k
    decreases k
  {
    if k == 0 then [] else Pack(n / 256, k - 1) + [(n % 256) as Byte]
  }

  function Unpack(s: Bytes): nat {
    if s == [] then 0 else 256 * Unpack(s[..|s| - 1]) + s[|s| - 1] as nat
  }

  lemma {:induction false} UnpackPack(n: nat, k: nat)
    requires n < Pow256(k)
    ensures Unpack(Pack(n, k)) == n
    decreases k
  {
    if k == 0 {
    } else {
      UnpackPack(n / 256, k - 1);
      var s := Pack(n, k);
      assert s[..k - 1] == Pack(n / 256, k - 1);
    }
  }

  /** Python's notion of a blank string: `not s.strip()`. */
  predicate IsBlank(s: string) {
    forall i :: 0 <= i < |s| ==> IsSpace(s[i])
  }

  /** White space in the sense of `str.isspace`. */
  predicate IsSpace(c: char) {
    var n := c as int;
    || IsAsciiSpace(c) || 0x1c <= n <= 0x1f || n == 0x85 || n == 0xa0 || n == 0x1680 || 0x2000 <= n <= 0x200a
    || n == 0x2028 || n == 0x2029 || n == 0x202f || n == 0x205f || n == 0x3000
  }

  /** White space in the sense of `bytes.fromhex`. */
  predicate IsAsciiSpace(c: char) {
    c == ' ' || '\t' <= c <= '\r'
  }

  predicate Distinct<T(==)>(s: seq<T>) {
    forall i, j :: 0 <= i < j < |s| ==> s[i] != s[j]
  }

  /** The first position at which two lists differ, or `None`. */
  function FirstDifference<T(==)>(a: seq<T>, b: seq<T>): (r: Option<nat>)
    requires |a| == |b|
    ensures r.None? <==> a == b
    ensures r.Some? ==> r.value < |a| && a[r.value] != b[r.value]
  {
    if a == [] then None
    else if a[0] != b[0] then Some(0)
    else match FirstDifference(a[1..], b[1..]) case None => assert a == [a[0]] + a[1..]; None case Some(i) => Some(i + 1)
  }
}
