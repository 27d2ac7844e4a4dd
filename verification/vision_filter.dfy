/** Recognising TLS 1.3 in the proxied traffic. */
module VisionFilter {
  import opened Common
  import opened Bytes
  import opened Buf
  import opened VisionState

  const SUPPORTED_VERSIONS_13: bytes := [0x00, 0x2b, 0x00, 0x02, 0x03, 0x04]

  /** One buffer as the filter sees it: the window is the first `len` bytes it can reach. */
  datatype View = View(backing: bytes, len: nat) {
    predicate Valid() { len <= |backing| }
    function Data(): bytes
      requires Valid()
    {
      backing[..len]
    }
  }

  /** The TLS 1.3 suites of the table that the program accepts: all but `TLS_AES_128_CCM_8_SHA256`. */
  predicate XtlsCipher(c: int) {
    0x1301 <= c <= 0x1304
  }

  predicate IsServerHello(b: bytes) {
    |b| >= 6 && b[..3] == [0x16, 0x03, 0x03] && b[5] == 0x02
  }

  predicate IsClientHello(b: bytes) {
    |b| >= 6 && b[..2] == [0x16, 0x03] && b[5] == 0x01
  }

  /** Length of the announced handshake record, header included. */
  function HelloLength(b: bytes): int
    requires |b| >= 6
  {
    U16(b[3], b[4]) + 5
  }

  /** The server hello is long enough for the program to look for the cipher suite in it. */
  predicate ReadsCipher(w: View)
    requires w.Valid()
  {
    IsServerHello(w.Data()) && w.len >= 79 && HelloLength(w.Data()) >= 79
  }

  /** The hello recognition; `None` is the run-time panic of slicing beyond the backing array. */
  function SeeHello(t: Tls, w: View): Option<Tls>
    requires w.Valid()
  {
    if IsServerHello(w.Data()) then
      var t1 := t.(remainingServerHello := HelloLength(w.Data()), tls12OrAbove := true, tls := true);
      if !ReadsCipher(w) then Some(t1)
      else
        var at: int := 44 + w.backing[43] as int;
        if |w.backing| < at + 2 then None
        else Some(t1.(cipher := U16(w.backing[at], w.backing[at + 1])))
    else if IsClientHello(w.Data()) then Some(t.(tls := true))
    else Some(t)
  }

  /** The rest of one iteration: look for the version extension inside the server hello. */
  function SeeVersions(t: Tls, d: bytes): (Tls, bool) {
    if t.remainingServerHello <= 0 then (t, false)
    else
      var end := Min(t.remainingServerHello, |d|);
      var t1 := t.(remainingServerHello := t.remainingServerHello - |d|);
      if Contains(d[..end], SUPPORTED_VERSIONS_13) then
        (t1.(enableXtls := t.enableXtls || XtlsCipher(t.cipher), packetsToFilter := 0), true)
      else if t1.remainingServerHello <= 0 then (t1.(packetsToFilter := 0), true)
      else (t1, false)
  }

  predicate AllValid(ws: seq<Option<View>>) {
    forall i :: 0 <= i < |ws| && ws[i].Some? ==> ws[i].value.Valid()
  }

  /** One iteration: the state after it, and whether the version has been decided. */
  function FilterOne(t: Tls, w: Option<View>): Option<(Tls, bool)>
    requires w.Some? ==> w.value.Valid()
  {
    if w.None? then Some((t, false))
    else match SeeHello(t.(packetsToFilter := t.packetsToFilter - 1), w.value)
         case None => None
         case Some(hello) => Some(SeeVersions(hello, w.value.Data()))
  }

  /** `XtlsFilterTls` over the buffers of one multi-buffer; missing buffers are skipped. */
  function Filter(t: Tls, ws: seq<Option<View>>): Option<Tls>
    requires AllValid(ws)
    decreases ws
  {
    if ws == [] then Some(t)
    else match FilterOne(t, ws[0])
         case None => None
         case Some((t1, stop)) => if stop then Some(t1) else Filter(t1, ws[1..])
  }

  /** Both callers filter only while packets are left to look at. */
  function FilterIfActive(t: Tls, ws: seq<Option<View>>): Option<Tls>
    requires AllValid(ws)
  {
    if t.packetsToFilter > 0 then Filter(t, ws) else Some(t)
  }

  /** What every reachable filter state satisfies. */
  predicate TlsInv(t: Tls) {
    && t.packetsToFilter <= 8
    && (t.enableXtls ==> XtlsCipher(t.cipher) && t.tls12OrAbove && t.packetsToFilter <= 0)
    && (t.tls12OrAbove ==> t.tls)
    && (t.remainingServerHello > 0 ==> t.tls12OrAbove)
  }

  /** Nothing recognised is ever forgotten, and the packet budget is never refilled. */
  predicate Grows(t: Tls, u: Tls) {
    && (u.packetsToFilter <= t.packetsToFilter || u.packetsToFilter == 0)
    && (t.tls ==> u.tls) && (t.tls12OrAbove ==> u.tls12OrAbove) && (t.enableXtls ==> u.enableXtls)
  }

  /** One call that starts before XTLS is enabled, whatever the budget has sunk to on the way. */
  lemma {:induction false} FilterKeeps(t: Tls, ws: seq<Option<View>>)
    requires AllValid(ws) && TlsInv(t) && !t.enableXtls && Filter(t, ws).Some?
    ensures TlsInv(Filter(t, ws).value) && Grows(t, Filter(t, ws).value)
    decreases ws
  {
    if ws != [] {
      var (t1, stop) := FilterOne(t, ws[0]).value;
      if !stop {
        FilterKeeps(t1, ws[1..]);
      }
    }
  }

  /** A whole connection: every call that any of its readers and writers makes, in order. */
  function FilterRun(t: Tls, calls: seq<seq<Option<View>>>): Option<Tls>
    requires forall i :: 0 <= i < |calls| ==> AllValid(calls[i])
    decreases calls
  {
    if calls == [] then Some(t)
    else match FilterIfActive(t, calls[0])
         case None => None
         case Some(t1) => FilterRun(t1, calls[1..])
  }

  /** The state invariant over every run, and that the recognised facts only accumulate. */
  lemma {:induction false} FilterRunKeeps(t: Tls, calls: seq<seq<Option<View>>>)
    requires forall i :: 0 <= i < |calls| ==> AllValid(calls[i])
    requires TlsInv(t) && FilterRun(t, calls).Some?
    ensures TlsInv(FilterRun(t, calls).value) && Grows(t, FilterRun(t, calls).value)
    ensures t.packetsToFilter <= 0 ==> FilterRun(t, calls).value == t
    decreases calls
  {
    if calls != [] {
      if t.packetsToFilter > 0 {
        FilterKeeps(t, calls[0]);
      }
      FilterRunKeeps(FilterIfActive(t, calls[0]).value, calls[1..]);
    }
  }

  /** A connection starts with nothing recognised, so its every state is good. */
  lemma {:induction false} FilterFromStart(calls: seq<seq<Option<View>>>)
    requires forall i :: 0 <= i < |calls| ==> AllValid(calls[i])
    requires FilterRun(NEW_TLS, calls).Some?
    ensures var t := FilterRun(NEW_TLS, calls).value;
            && (t.enableXtls ==> XtlsCipher(t.cipher) && t.tls12OrAbove)
            && (t.tls12OrAbove ==> t.tls)
  {
    FilterRunKeeps(NEW_TLS, calls);
  }

  // ----- the session id is trusted as an offset -----

  /** Section 4.1.3 of RFC 8446: a legacy_session_id_echo is at most 32 bytes long. */
  predicate SessionIdsLegal(ws: seq<Option<View>>)
    requires AllValid(ws)
  {
    forall i :: 0 <= i < |ws| && ws[i].Some? && ReadsCipher(ws[i].value) ==> ws[i].value.backing[43] <= 32
  }

  /** The same windows on possibly different backing arrays. */
  predicate SameWindows(ws: seq<Option<View>>, vs: seq<Option<View>>)
    requires AllValid(ws) && AllValid(vs)
  {
    && |ws| == |vs|
    && (forall i :: 0 <= i < |ws| ==> (ws[i].Some? <==> vs[i].Some?))
    && (forall i :: 0 <= i < |ws| && ws[i].Some? ==> ws[i].value.Data() == vs[i].value.Data())
  }

  lemma HelloReadsWindow(t: Tls, w: View, v: View)
    requires w.Valid() && v.Valid() && w.Data() == v.Data()
    requires ReadsCipher(w) ==> w.backing[43] as int + 46 <= w.len
    ensures SeeHello(t, w).Some? && SeeHello(t, w) == SeeHello(t, v)
  {
    assert w.len == |w.Data()| == v.len;
    if ReadsCipher(w) {
      assert w.backing[43] == w.Data()[43] == v.backing[43];
      var at: int := 44 + w.backing[43] as int;
      assert w.backing[at] == w.Data()[at] == v.backing[at];
      assert w.backing[at + 1] == w.Data()[at + 1] == v.backing[at + 1];
    }
  }

  /** With legal session ids the filter never slices out of range and never reads a stale byte. */
  lemma {:induction false} FilterReadsWindows(t: Tls, ws: seq<Option<View>>, vs: seq<Option<View>>)
    requires AllValid(ws) && AllValid(vs) && SameWindows(ws, vs) && SessionIdsLegal(ws)
    ensures Filter(t, ws).Some? && Filter(t, ws) == Filter(t, vs)
    decreases ws
  {
    if ws != [] {
      if ws[0].Some? {
        HelloReadsWindow(t.(packetsToFilter := t.packetsToFilter - 1), ws[0].value, vs[0].value);
      }
      var (t1, stop) := FilterOne(t, ws[0]).value;
      if !stop {
        FilterReadsWindows(t1, ws[1..], vs[1..]);
      }
    }
  }

  /** The other direction: a longer session id makes the cipher suite depend on bytes outside the window. */
  lemma LongSessionIdReadsStale(t: Tls, w: View) returns (v: View)
    requires w.Valid() && ReadsCipher(w) && w.len < w.backing[43] as int + 46
    ensures v.Valid() && v.Data() == w.Data() && |v.backing| >= 302
    ensures SeeHello(t, v) != SeeHello(t, w)
  {
    var at: int := 44 + w.backing[43] as int;
    var x: byte := if at + 1 < |w.backing| && w.backing[at + 1] == 0 then 1 else 0;
    v := View(w.backing[..w.len] + Repeat(x, 302), w.len);
    assert v.Data() == w.Data();
    assert v.backing[43] == w.Data()[43];
    assert v.backing[at + 1] == x;
    assert v.Data()[..6] == w.Data()[..6];
    if at + 1 < |w.backing| {
      assert w.backing[at + 1] != x;
    }
  }

  // ----- the loop -----

  ghost function Views(mb: seq<Buffer?>): (ws: seq<Option<View>>)
    requires forall i :: 0 <= i < |mb| && mb[i] != null ==> mb[i].Valid()
    reads mb
    ensures |ws| == |mb| && AllValid(ws)
    ensures forall i :: 0 <= i < |mb| ==>
              ws[i] == if mb[i] == null then None else Some(View(mb[i].Backing(), mb[i].Len()))
  {
    seq(|mb|, i requires 0 <= i < |mb| && (mb[i] != null ==> mb[i].Valid()) reads mb =>
      if mb[i] == null then None else Some(View(mb[i].Backing(), mb[i].Len())))
  }

  /** First half of an iteration of `XtlsFilterTls`: the hello recognition. */
  method RecogniseHello(b: Buffer, s: TrafficState) returns (ok: bool)
    requires b.Valid()
    modifies s
    ensures var h := SeeHello(old(s.TlsState()), View(b.Backing(), b.Len()));
            if ok then h == Some(s.TlsState()) else h == None
  {
    var d := b.Data();
    assert d == View(b.Backing(), b.Len()).Data();
    if |d| >= 6 {
      if d[..3] == [0x16, 0x03, 0x03] && d[5] == 0x02 {
        s.remainingServerHello := U16(d[3], d[4]) + 5;
        s.isTLS12orAbove := true;
        s.isTLS := true;
        if |d| >= 79 && s.remainingServerHello >= 79 {
          var at: int := 44 + d[43] as int;
          if |b.Backing()| < at + 2 {
            return false;
          }
          s.cipher := U16(b.Backing()[at], b.Backing()[at + 1]);
        }
      } else if d[..2] == [0x16, 0x03] && d[5] == 0x01 {
        s.isTLS := true;
      }
    }
    return true;
  }

  /** Second half: `stop` when the version has been decided. */
  method RecogniseVersion(b: Buffer, s: TrafficState) returns (stop: bool)
    requires b.Valid()
    modifies s
    ensures SeeVersions(old(s.TlsState()), b.Data()) == (s.TlsState(), stop)
  {
    if s.remainingServerHello > 0 {
      var end := Min(s.remainingServerHello, b.Len());
      s.remainingServerHello := s.remainingServerHello - b.Len();
      if Contains(b.Data()[..end], SUPPORTED_VERSIONS_13) {
        if 0x1301 <= s.cipher <= 0x1305 && s.cipher != 0x1305 {
          s.enableXtls := true;
        }
        s.numberOfPacketToFilter := 0;
        return true;
      } else if s.remainingServerHello <= 0 {
        s.numberOfPacketToFilter := 0;
        return true;
      }
    }
    return false;
  }

  /** The body of the loop of `XtlsFilterTls` for a buffer that is there. */
  method FilterBuffer(b: Buffer, s: TrafficState) returns (ok: bool, stop: bool)
    requires b.Valid()
    modifies s
    ensures match FilterOne(old(s.TlsState()), Some(View(b.Backing(), b.Len())))
            case None => !ok
            case Some(r) => ok && r == (s.TlsState(), stop)
  {
    stop := false;
    s.numberOfPacketToFilter := s.numberOfPacketToFilter - 1;
    ok := RecogniseHello(b, s);
    if ok {
      assert View(b.Backing(), b.Len()).Data() == b.Data();
      stop := RecogniseVersion(b, s);
    }
  }

  /** `XtlsFilterTls`; `ok` is false when the program would panic on an out-of-range slice. */
  method XtlsFilterTls(mb: seq<Buffer?>, s: TrafficState, ghost ws: seq<Option<View>>) returns (ok: bool)
    requires forall i :: 0 <= i < |mb| && mb[i] != null ==> mb[i].Valid()
    requires ws == Views(mb)
    modifies s
    ensures match Filter(old(s.TlsState()), ws)
            case None => !ok
            case Some(t) => ok && s.TlsState() == t
  {
    ghost var result := Filter(s.TlsState(), ws);
    ok := true;
    var k := 0;
    assert ws[0..] == ws;
    while k < |mb|
      invariant 0 <= k <= |mb|
      invariant ok && result == Filter(s.TlsState(), ws[k..])
    {
      if mb[k] != null {
        var stop;
        ok, stop := FilterBuffer(mb[k], s);
        if !ok || stop {
          return;
        }
      }
      k := k + 1;
    }
  }

  /** The guard around both calls of `XtlsFilterTls`. */
  method FilterWhileActive(mb: seq<Buffer?>, s: TrafficState, ghost ws: seq<Option<View>>) returns (ok: bool)
    requires forall i :: 0 <= i < |mb| && mb[i] != null ==> mb[i].Valid()
    requires ws == Views(mb)
    modifies s
    ensures FilterIfActive(old(s.TlsState()), ws) == if ok then Some(s.TlsState()) else None
  {
    ok := true;
    if s.numberOfPacketToFilter > 0 {
      ok := XtlsFilterTls(mb, s, ws);
    }
  }
}
