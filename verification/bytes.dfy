/** Octets and the few facts about concatenation that every protocol proof below uses. */
module Bytes {

  type byte = x: int | 0 <= x < 256
  type bytes = seq<byte>

  /** The concatenation of a list of sequences. */
  function Concat<T>(parts: seq<seq<T>>): seq<T> {
    if parts == [] then [] else parts[0] + Concat(parts[1..])
  }

  lemma {:induction false} ConcatAppend<T>(a: seq<seq<T>>, b: seq<seq<T>>)
    ensures Concat(a + b) == Concat(a) + Concat(b)
  {
    if a == [] {
      assert a + b == b;
    } else {
      assert (a + b)[0] == a[0] && (a + b)[1..] == a[1..] + b;
      ConcatAppend(a[1..], b);
    }
  }

  lemma ConcatOne<T>(x: seq<T>)
    ensures Concat([x]) == x
  {
    assert Concat([x]) == x + Concat<T>([]);
  }

  lemma ConcatSnoc<T>(a: seq<seq<T>>, x: seq<T>)
    ensures Concat(a + [x]) == Concat(a) + x
  {
    ConcatAppend(a, [x]);
    ConcatOne(x);
  }

  /** `pat` occurs in `b` at offset `i`. */
  predicate OccursAt(b: bytes, pat: bytes, i: int) {
    0 <= i <= |b| - |pat| && b[i..i + |pat|] == pat
  }

  /** Go's `bytes.Contains`. */
  predicate Contains(b: bytes, pat: bytes) {
    exists i :: 0 <= i <= |b| && OccursAt(b, pat, i)
  }

  /** Go's `bytes.LastIndex`, searching the offsets `0 .. n`. */
  function LastIndexUpTo(b: bytes, pat: bytes, n: int): (r: int)
    ensures -1 <= r <= n || r == -1
    ensures r != -1 ==> OccursAt(b, pat, r)
    ensures forall j :: r < j <= n ==> !OccursAt(b, pat, j)
    decreases n + 1
  {
    if n < 0 then -1
    else if OccursAt(b, pat, n) then n
    else LastIndexUpTo(b, pat, n - 1)
  }

  function LastIndex(b: bytes, pat: bytes): int {
    LastIndexUpTo(b, pat, |b| - |pat|)
  }

  function Take<T>(s: seq<T>, n: nat): seq<T> {
    if |s| <= n then s else s[..n]
  }

  function Repeat<T>(x: T, n: nat): (r: seq<T>)
    ensures |r| == n
    ensures forall i :: 0 <= i < n ==> r[i] == x
  {
    seq(n, _ => x)
  }

  /** The big-endian number that two octets spell. */
  function U16(hi: int, lo: int): int {
    hi * 256 + lo
  }

  function Min(a: int, b: int): int {
    if a <= b then a else b
  }
}
