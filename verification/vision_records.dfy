/** Recognising a run of whole TLS application-data records (section 5.2 of RFC 8446). */
module VisionRecords {
  import opened Bytes
  import opened Buf

  /** A protected record as it stands on the wire: opaque_type 23, version 3.3, length, payload. */
  function EncodeRecord(r: bytes): bytes
    requires |r| < 65536
  {
    [0x17, 0x03, 0x03, |r| / 256, |r| % 256] + r
  }

  predicate Legal(rs: seq<bytes>) {
    forall i :: 0 <= i < |rs| ==> 0 < |rs[i]| < 65536
  }

  function EncodeRecords(rs: seq<bytes>): bytes
    requires Legal(rs)
  {
    if rs == [] then [] else EncodeRecord(rs[0]) + EncodeRecords(rs[1..])
  }

  /** The length announced by a record header at the front of `b`. */
  function Announced(b: bytes): nat
    requires |b| >= 5
  {
    U16(b[3], b[4])
  }

  predicate HeaderOk(b: bytes) {
    |b| >= 5 && b[0] == 0x17 && b[1] == 0x03 && b[2] == 0x03 && 0 < Announced(b)
  }

  /** Parsing from the front, one record at a time. */
  predicate Complete(b: bytes)
    decreases |b|
  {
    b == [] || (HeaderOk(b) && |b| >= 5 + Announced(b) && Complete(b[5 + Announced(b)..]))
  }

  lemma EncodedFront(r: bytes, rest: bytes)
    requires 0 < |r| < 65536
    ensures var b := EncodeRecord(r) + rest;
            HeaderOk(b) && Announced(b) == |r| && b[5..5 + |r|] == r && b[5 + |r|..] == rest
  {
    var b := EncodeRecord(r) + rest;
    assert b[..5] == [0x17, 0x03, 0x03, |r| / 256, |r| % 256];
    assert b[3] == b[..5][3] && b[4] == b[..5][4];
  }

  lemma {:induction false} EncodedIsComplete(rs: seq<bytes>)
    requires Legal(rs)
    ensures Complete(EncodeRecords(rs))
  {
    if rs != [] {
      EncodedIsComplete(rs[1..]);
      EncodedFront(rs[0], EncodeRecords(rs[1..]));
    }
  }

  lemma {:induction false} CompleteIsEncoded(b: bytes) returns (rs: seq<bytes>)
    requires Complete(b)
    ensures Legal(rs) && b == EncodeRecords(rs)
    decreases |b|
  {
    if b == [] {
      rs := [];
    } else {
      var n := Announced(b);
      var rest := CompleteIsEncoded(b[5 + n..]);
      rs := [b[5..5 + n]] + rest;
      assert rs[1..] == rest;
    }
  }

  /** The front-to-back test accepts exactly the concatenations of legal records. */
  lemma CompleteIffRecords(b: bytes)
    ensures Complete(b) <==> exists rs :: Legal(rs) && b == EncodeRecords(rs)
  {
    if Complete(b) {
      var rs := CompleteIsEncoded(b);
    }
    if exists rs :: Legal(rs) && b == EncodeRecords(rs) {
      var rs :| Legal(rs) && b == EncodeRecords(rs);
      EncodedIsComplete(rs);
    }
  }

  /** A byte string is a run of records in at most one way. */
  lemma {:induction false} DecompositionUnique(rs: seq<bytes>, qs: seq<bytes>)
    requires Legal(rs) && Legal(qs) && EncodeRecords(rs) == EncodeRecords(qs)
    ensures rs == qs
  {
    if rs != [] && qs != [] {
      EncodedFront(rs[0], EncodeRecords(rs[1..]));
      EncodedFront(qs[0], EncodeRecords(qs[1..]));
      DecompositionUnique(rs[1..], qs[1..]);
      assert rs == [rs[0]] + rs[1..] && qs == [qs[0]] + qs[1..];
    }
  }

  /**
   * Once `a` is a run of records, what follows decides: so the accepted set is closed under
   * concatenation, and a complete prefix can be dropped without changing the answer.
   */
  lemma {:induction false} CompletePrefix(a: bytes, b: bytes)
    requires Complete(a)
    ensures Complete(a + b) <==> Complete(b)
    decreases |a|
  {
    if a == [] {
      assert a + b == b;
    } else {
      var n := Announced(a);
      CompletePrefix(a[5 + n..], b);
      assert (a + b)[5 + n..] == a[5 + n..] + b;
      assert Announced(a + b) == n;
    }
  }

  /** The same test on offsets instead of slices. */
  predicate CompleteAt(b: bytes, p: nat)
    requires p <= |b|
    decreases |b| - p
  {
    p == |b| ||
    (p + 5 <= |b| && HeaderSeen(b, p, 3) &&
     var n := U16(b[p + 3], b[p + 4]);
     0 < n && p + 5 + n <= |b| && CompleteAt(b, p + 5 + n))
  }

  lemma {:induction false} CompleteAtIsComplete(b: bytes, p: nat)
    requires p <= |b|
    ensures CompleteAt(b, p) <==> Complete(b[p..])
    decreases |b| - p
  {
    var c := b[p..];
    if HeaderOk(c) && |c| >= 5 + Announced(c) {
      CompleteAtIsComplete(b, p + 5 + Announced(c));
      assert c[5 + Announced(c)..] == b[p + 5 + Announced(c)..];
    }
  }

  /** `k` bytes of a record header at `p` have been accepted. */
  predicate HeaderSeen(b: bytes, p: nat, k: nat) {
    && k <= 5 && p + k <= |b|
    && (k >= 1 ==> b[p] == 0x17)
    && (k >= 2 ==> b[p + 1] == 0x03)
    && (k >= 3 ==> b[p + 2] == 0x03)
  }

  /** The header counts down from five, then the payload is skipped in one go. */
  method ScanRecords(b: bytes) returns (r: bool)
    ensures r <==> CompleteAt(b, 0)
  {
    var headerLen, recordLen, totalLen, i := 5, 0, |b|, 0;
    ghost var p := 0; // where the record being read starts
    ghost var whole := CompleteAt(b, 0);
    while i < totalLen
      invariant 0 <= p <= i <= totalLen && 0 <= headerLen <= 5 && i == p + 5 - headerLen
      invariant whole == CompleteAt(b, p)
      invariant HeaderSeen(b, p, 5 - headerLen)
      invariant headerLen >= 2 ==> recordLen == 0
      invariant headerLen == 1 ==> recordLen == U16(b[p + 3], 0)
      invariant headerLen == 0 ==> recordLen == U16(b[p + 3], b[p + 4])
      decreases totalLen - i, headerLen
    {
      if headerLen > 0 {
        var data := b[i];
        i := i + 1;
        match headerLen {
          case 5 => if data != 0x17 { return false; }
          case 4 => if data != 0x03 { return false; }
          case 3 => if data != 0x03 { return false; }
          case 2 => recordLen := U16(data, 0);
          case _ => recordLen := recordLen + data;
        }
        headerLen := headerLen - 1;
      } else if recordLen > 0 {
        var remaining := totalLen - i;
        if remaining < recordLen {
          return false;
        } else {
          i := i + recordLen;
          p := i;
          recordLen := 0;
          headerLen := 5;
        }
      } else {
        return false;
      }
    }
    if headerLen == 5 && recordLen == 0 {
      return true;
    }
    return false;
  }

  /** `IsCompleteRecord` copies the buffers into one array and scans it. */
  method IsCompleteRecord(mb: seq<Buffer>) returns (r: bool)
    requires forall i :: 0 <= i < |mb| ==> mb[i].Valid()
    ensures r <==> exists rs :: Legal(rs) && Concat(Datas(mb)) == EncodeRecords(rs)
    ensures r <==> Complete(Concat(Datas(mb)))
  {
    var b := [];
    var k := 0;
    ghost var ds := Datas(mb);
    while k < |mb|
      invariant 0 <= k <= |mb|
      invariant b == Concat(ds[..k])
    {
      ConcatSnoc(ds[..k], ds[k]);
      assert ds[..k + 1] == ds[..k] + [ds[k]];
      b := b + mb[k].Data();
      k := k + 1;
    }
    assert ds[..k] == ds;
    CompleteIffRecords(b);
    CompleteAtIsComplete(b, 0);
    assert b[0..] == b;
    r := ScanRecords(b);
  }
}
