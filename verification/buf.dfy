/** `buf.Buffer`: a window `start .. end` on a backing array. */
module Buf {
  import opened Bytes

  const SIZE: nat := 8192

  class Buffer {
    var v: bytes
    var start: nat
    var end: nat

    ghost predicate Valid()
      reads this
    {
      start <= end <= |v|
    }

    function Len(): nat
      requires Valid()
      reads this
    {
      end - start
    }

    function Data(): (d: bytes)
      requires Valid()
      reads this
      ensures |d| == Len()
    {
      v[start..end]
    }

    /** Everything that a slice of the backing array can still reach, stale bytes included. */
    function Backing(): (d: bytes)
      requires Valid()
      reads this
      ensures Len() <= |d| && d[..Len()] == Data()
    {
      v[start..]
    }

    /** A pooled buffer: the contract says nothing about the stale bytes of the backing array. */
    constructor New()
      ensures Valid() && Data() == [] && |v| == SIZE && start == 0
    {
      v := Repeat(0, SIZE);
      start, end := 0, 0;
    }

    method ReadByte() returns (x: byte)
      requires Valid() && Len() > 0
      modifies this
      ensures Valid() && old(Data()) == [x] + Data() && v == old(v)
    {
      x := v[start];
      start := start + 1;
    }

    method ReadBytes(n: nat) returns (data: bytes)
      requires Valid() && n <= Len()
      modifies this
      ensures Valid() && data == old(Data())[..n] && Data() == old(Data())[n..] && v == old(v)
    {
      data := v[start..start + n];
      start := start + n;
    }

    method Advance(n: nat)
      requires Valid() && n <= Len()
      modifies this
      ensures Valid() && Data() == old(Data())[n..] && v == old(v)
    {
      start := start + n;
    }

    /** Copies as much of `data` as still fits: a full buffer drops the rest. */
    method Write(data: bytes)
      requires Valid()
      modifies this
      ensures Valid() && |v| == old(|v|) && start == old(start)
      ensures Data() == old(Data()) + Take(data, old(|v| - end))
    {
      var fit := Take(data, |v| - end);
      v := v[..end] + fit + v[end + |fit|..];
      end := end + |fit|;
    }

    /** Grows the window by `n` cleared bytes; the program panics when they do not fit. */
    method Extend(n: nat)
      requires Valid() && end + n <= |v|
      modifies this
      ensures Valid() && |v| == old(|v|) && start == old(start)
      ensures Data() == old(Data()) + Repeat(0, n)
    {
      v := v[..end] + Repeat(0, n) + v[end + n..];
      end := end + n;
    }

    /** `Resize(0, n)`, the only form the framing code uses. */
    method Truncate(n: nat)
      requires Valid() && n <= Len()
      modifies this
      ensures Valid() && Data() == old(Data())[..n] && v == old(v) && start == old(start)
    {
      end := start + n;
    }
  }

  /** The contents of a list of buffers, one entry per buffer. */
  ghost function Datas(mb: seq<Buffer>): (d: seq<bytes>)
    requires forall i :: 0 <= i < |mb| ==> mb[i].Valid()
    reads mb
    ensures |d| == |mb|
    ensures forall i :: 0 <= i < |mb| ==> d[i] == mb[i].Data()
  {
    seq(|mb|, i requires 0 <= i < |mb| && mb[i].Valid() reads mb => mb[i].Data())
  }

  lemma DatasAppend(a: seq<Buffer>, b: seq<Buffer>)
    requires forall i :: 0 <= i < |a| ==> a[i].Valid()
    requires forall i :: 0 <= i < |b| ==> b[i].Valid()
    ensures Datas(a + b) == Datas(a) + Datas(b)
  {
  }
}
