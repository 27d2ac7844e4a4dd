/** What the filter makes of TLS hellos, said on their bytes (section 4.1 of RFC 8446 and section 7.4.1 of RFC 5246). */
module VisionHello {
  import opened Common
  import opened Bytes
  import opened VisionState
  import opened VisionFilter

  /** A handshake record of version 3.3 whose message is a server hello. */
  predicate StartsServerHello(d: bytes) {
    |d| >= 6 && d[0] == 0x16 && d[1] == 0x03 && d[2] == 0x03 && d[5] == 0x02
  }

  predicate StartsClientHello(d: bytes) {
    |d| >= 6 && d[0] == 0x16 && d[1] == 0x03 && d[5] == 0x01
  }

  /** Where the record ends that starts with `d`. */
  function RecordEnd(d: bytes): int
    requires |d| >= 5
  {
    5 + 256 * (d[3] as int) + d[4] as int
  }

  /** The first `end` bytes hold the extension that selects TLS 1.3. */
  predicate Selects13(d: bytes, end: int) {
    exists i :: 0 <= i && i + 6 <= end && i + 6 <= |d| && Extension13At(d, i)
  }

  predicate Extension13At(d: bytes, i: int)
    requires 0 <= i && i + 6 <= |d|
  {
    d[i] == 0x00 && d[i + 1] == 0x2b && d[i + 2] == 0x00 && d[i + 3] == 0x02 && d[i + 4] == 0x03 && d[i + 5] == 0x04
  }

  /** The hello shows its cipher suite, behind the session id. */
  predicate ShowsSuite(d: bytes)
    requires |d| >= 6
  {
    |d| >= 79 && RecordEnd(d) >= 79
  }

  /** With a session id of at most 32 bytes, as the standard asks, the suite lies in the same buffer. */
  predicate SuiteInside(d: bytes)
    requires |d| >= 6
  {
    ShowsSuite(d) ==> 46 + d[43] as int <= |d|
  }

  function Suite(d: bytes): int
    requires |d| >= 6 && ShowsSuite(d) && SuiteInside(d)
  {
    var at := 44 + d[43] as int;
    256 * (d[at] as int) + d[at + 1] as int
  }

  /** The suite that counts after `d`: the one it shows, else the one seen before. */
  function SuiteAfter(t: Tls, d: bytes): int
    requires |d| >= 6 && SuiteInside(d)
  {
    if ShowsSuite(d) then Suite(d) else t.cipher
  }

  lemma SearchMeans(d: bytes, end: int)
    requires 0 <= end <= |d|
    ensures Contains(d[..end], SUPPORTED_VERSIONS_13) <==> Selects13(d, end)
  {
    var front := d[..end];
    if Contains(front, SUPPORTED_VERSIONS_13) {
      var i :| 0 <= i <= |front| && OccursAt(front, SUPPORTED_VERSIONS_13, i);
      var found := front[i..i + 6];
      assert found == SUPPORTED_VERSIONS_13;
      assert d[i] == found[0] && d[i + 1] == found[1] && d[i + 2] == found[2];
      assert d[i + 3] == found[3] && d[i + 4] == found[4] && d[i + 5] == found[5];
      assert Extension13At(d, i);
    }
    if Selects13(d, end) {
      var i :| 0 <= i && i + 6 <= end && Extension13At(d, i);
      assert front[i..i + 6] == SUPPORTED_VERSIONS_13;
      assert OccursAt(front, SUPPORTED_VERSIONS_13, i);
    }
  }

  lemma HelloMeans(d: bytes)
    ensures IsServerHello(d) <==> StartsServerHello(d)
    ensures IsClientHello(d) <==> StartsClientHello(d)
  {
    if |d| >= 6 {
      assert d[..3] == [0x16, 0x03, 0x03] <==> d[0] == 0x16 && d[1] == 0x03 && d[2] == 0x03;
      assert d[..2] == [0x16, 0x03] <==> d[0] == 0x16 && d[1] == 0x03;
    }
  }

  // ----- one buffer -----

  /**
   * What one buffer does that belongs to a server hello of which `left` bytes are to come: `xtls` is enabled if TLS 1.3
   * is selected in it with a suite of 0x1301 to 0x1304, and the search ends there, or with the record.
   */
  ghost predicate Decides(t: Tls, d: bytes, left: int, suite: int, r: Option<(Tls, bool)>) {
    && r.Some? && r.value.0.tls && r.value.0.tls12OrAbove && r.value.0.cipher == suite
    && r.value.0.remainingServerHello == left - |d|
    && (r.value.1 <==> Selects13(d, left) || left <= |d|)
    && r.value.0.packetsToFilter == (if r.value.1 then 0 else t.packetsToFilter - 1)
    && (r.value.0.enableXtls <==> t.enableXtls || (Selects13(d, left) && 0x1301 <= suite <= 0x1304))
  }

  /** The first `end` bytes and no more are searched. */
  lemma SearchMeansMin(d: bytes, left: int)
    requires left > 0
    ensures Contains(d[..Min(left, |d|)], SUPPORTED_VERSIONS_13) <==> Selects13(d, left)
  {
    SearchMeans(d, Min(left, |d|));
    assert Selects13(d, Min(left, |d|)) <==> Selects13(d, left);
  }

  /** A buffer that starts with a server hello. */
  lemma ServerHelloDecides(t: Tls, w: View)
    requires w.Valid() && StartsServerHello(w.Data()) && SuiteInside(w.Data())
    ensures var d := w.Data(); Decides(t, d, RecordEnd(d), SuiteAfter(t, d), FilterOne(t, Some(w)))
  {
    var d := w.Data();
    HelloMeans(d);
    SearchMeansMin(d, RecordEnd(d));
    assert forall i :: 0 <= i < |d| ==> d[i] == w.backing[i];
  }

  /** A later buffer of the same record. */
  lemma RestDecides(t: Tls, w: View)
    requires w.Valid() && !StartsServerHello(w.Data()) && t.remainingServerHello > 0 && t.tls && t.tls12OrAbove
    ensures Decides(t, w.Data(), t.remainingServerHello, t.cipher, FilterOne(t, Some(w)))
  {
    HelloMeans(w.Data());
    SearchMeansMin(w.Data(), t.remainingServerHello);
  }

  /** Any other buffer: only a client hello says something, namely that there is TLS. */
  lemma OtherDecides(t: Tls, w: View)
    requires w.Valid() && !StartsServerHello(w.Data()) && t.remainingServerHello <= 0
    ensures FilterOne(t, Some(w))
         == Some((t.(packetsToFilter := t.packetsToFilter - 1, tls := t.tls || StartsClientHello(w.Data())), false))
  {
    HelloMeans(w.Data());
  }

  // ----- a hello in several buffers and several calls -----

  /** What reading a server hello of `left` bytes comes to: TLS 1.3, anything older, or not yet known. */
  datatype Verdict = Tls13 | Older | Open(left: int)

  /** The extension must lie in one of the buffers as a whole. */
  function Read(ds: seq<bytes>, left: int): Verdict
    decreases ds
  {
    if ds == [] then Open(left)
    else if Selects13(ds[0], left) then Tls13
    else if left <= |ds[0]| then Older
    else Read(ds[1..], left - |ds[0]|)
  }

  lemma {:induction false} ReadSplit(a: seq<bytes>, b: seq<bytes>, left: int)
    ensures Read(a + b, left) == if Read(a, left).Open? then Read(b, Read(a, left).left) else Read(a, left)
    decreases a
  {
    if a == [] {
      assert a + b == b;
    } else {
      assert (a + b)[0] == a[0] && (a + b)[1..] == a[1..] + b;
      ReadSplit(a[1..], b, left - |a[0]|);
    }
  }

  predicate Whole(vs: seq<View>) {
    forall i :: 0 <= i < |vs| ==> vs[i].Valid()
  }

  function Windows(vs: seq<View>): (ds: seq<bytes>)
    requires Whole(vs)
    ensures |ds| == |vs|
  {
    if vs == [] then [] else [vs[0].Data()] + Windows(vs[1..])
  }

  /** Buffers as the filter is given them. */
  function Given(vs: seq<View>): (ws: seq<Option<View>>)
    requires Whole(vs)
    ensures |ws| == |vs| && AllValid(ws) && forall i :: 0 <= i < |vs| ==> ws[i] == Some(vs[i])
  {
    seq(|vs|, i requires 0 <= i < |vs| => Some(vs[i]))
  }

  predicate NoServerHello(ds: seq<bytes>) {
    forall i :: 0 <= i < |ds| ==> !StartsServerHello(ds[i])
  }

  /** The state `u` that follows `t` once `n` buffers have been read to this verdict. */
  ghost predicate Concluded(t: Tls, u: Tls, v: Verdict, suite: int, n: nat) {
    && u.tls && u.tls12OrAbove && u.cipher == suite
    && (u.enableXtls <==> t.enableXtls || (v == Tls13 && 0x1301 <= suite <= 0x1304))
    && (if v.Open? then u.packetsToFilter == t.packetsToFilter - n && u.remainingServerHello == v.left
        else u.packetsToFilter == 0)
  }

  /** A server hello is under way. */
  predicate UnderWay(t: Tls) {
    t.remainingServerHello > 0 && t.tls && t.tls12OrAbove
  }

  lemma {:induction false} RestOfCall(t: Tls, vs: seq<View>)
    requires Whole(vs) && NoServerHello(Windows(vs)) && UnderWay(t)
    ensures var r := Filter(t, Given(vs));
      r.Some? && Concluded(t, r.value, Read(Windows(vs), t.remainingServerHello), t.cipher, |vs|)
    ensures Read(Windows(vs), t.remainingServerHello).Open? ==> Read(Windows(vs), t.remainingServerHello).left > 0
    decreases vs
  {
    hide Selects13, StartsServerHello;
    if vs != [] {
      var ds := Windows(vs);
      assert ds[0] == vs[0].Data() && ds[1..] == Windows(vs[1..]);
      assert !StartsServerHello(ds[0]);
      RestDecides(t, vs[0]);
      assert Given(vs)[1..] == Given(vs[1..]);
      var (t1, stop) := FilterOne(t, Some(vs[0])).value;
      if !stop {
        forall i | 0 <= i < |ds[1..]|
          ensures !StartsServerHello(ds[1..][i])
        {
          assert ds[1..][i] == ds[i + 1];
        }
        RestOfCall(t1, vs[1..]);
      }
    }
  }

  /** Buffers that start with a server hello, in one call. */
  lemma {:induction false} HelloInCall(t: Tls, vs: seq<View>)
    requires Whole(vs) && vs != [] && t.packetsToFilter > 0
    requires var ds := Windows(vs); StartsServerHello(ds[0]) && SuiteInside(ds[0]) && NoServerHello(ds[1..])
    ensures var ds, r := Windows(vs), FilterIfActive(t, Given(vs));
      r.Some? && Concluded(t, r.value, Read(ds, RecordEnd(ds[0])), SuiteAfter(t, ds[0]), |vs|)
  {
    hide Selects13;
    var ds := Windows(vs);
    ServerHelloDecides(t, vs[0]);
    assert Given(vs)[1..] == Given(vs[1..]) && ds[1..] == Windows(vs[1..]);
    var (t1, stop) := FilterOne(t, Some(vs[0])).value;
    if !stop {
      RestOfCall(t1, vs[1..]);
    }
  }

  function AllGiven(calls: seq<seq<View>>): (ws: seq<seq<Option<View>>>)
    requires forall i :: 0 <= i < |calls| ==> Whole(calls[i])
    ensures |ws| == |calls| && forall i :: 0 <= i < |calls| ==> ws[i] == Given(calls[i])
  {
    seq(|calls|, i requires 0 <= i < |calls| => Given(calls[i]))
  }

  lemma {:induction false} WholeAll(calls: seq<seq<View>>)
    requires forall i :: 0 <= i < |calls| ==> Whole(calls[i])
    ensures Whole(Concat(calls))
  {
    if calls != [] {
      WholeAll(calls[1..]);
    }
  }

  lemma {:induction false} WindowsSplit(a: seq<View>, b: seq<View>)
    requires Whole(a) && Whole(b)
    ensures Windows(a + b) == Windows(a) + Windows(b)
  {
    if a == [] {
      assert a + b == b;
    } else {
      assert (a + b)[0] == a[0] && (a + b)[1..] == a[1..] + b;
      WindowsSplit(a[1..], b);
    }
  }

  lemma NoHelloSplit(a: seq<bytes>, b: seq<bytes>)
    requires NoServerHello(a + b)
    ensures NoServerHello(a) && NoServerHello(b)
  {
    assert forall i :: 0 <= i < |a| ==> a[i] == (a + b)[i];
    assert forall i :: 0 <= i < |b| ==> b[i] == (a + b)[|a| + i];
  }

  /** Once the budget is spent nothing changes. */
  lemma {:induction false} Frozen(t: Tls, calls: seq<seq<Option<View>>>)
    requires (forall i :: 0 <= i < |calls| ==> AllValid(calls[i])) && t.packetsToFilter <= 0
    ensures FilterRun(t, calls) == Some(t)
    decreases calls
  {
    if calls != [] {
      Frozen(t, calls[1..]);
    }
  }

  lemma {:induction false} RestOfRun(t: Tls, calls: seq<seq<View>>)
    requires (forall i :: 0 <= i < |calls| ==> Whole(calls[i])) && Whole(Concat(calls))
    requires NoServerHello(Windows(Concat(calls))) && UnderWay(t) && t.packetsToFilter >= |Concat(calls)|
    ensures var r := FilterRun(t, AllGiven(calls));
      && r.Some?
      && Concluded(t, r.value, Read(Windows(Concat(calls)), t.remainingServerHello), t.cipher, |Concat(calls)|)
    decreases calls
  {
    hide Selects13, StartsServerHello, Filter, Windows;
    if calls == [] {
      assert Windows([]) == [];
    } else {
      FirstCall(calls, t.remainingServerHello);
      var ds := Windows(calls[0]);
      RestOfCall(t, calls[0]);
      EmptyCall(t, calls[0]);
      var t1 := FilterIfActive(t, Given(calls[0])).value;
      assert AllGiven(calls)[1..] == AllGiven(calls[1..]);
      if Read(ds, t.remainingServerHello).Open? {
        RestOfRun(t1, calls[1..]);
      } else {
        Frozen(t1, AllGiven(calls[1..]));
      }
    }
  }

  lemma EmptyCall(t: Tls, vs: seq<View>)
    requires Whole(vs)
    ensures vs == [] ==> Filter(t, Given(vs)) == Some(t)
  {
  }

  lemma {:induction false} FirstCall(calls: seq<seq<View>>, left: int)
    requires calls != [] && forall i :: 0 <= i < |calls| ==> Whole(calls[i])
    ensures Whole(Concat(calls)) && Whole(Concat(calls[1..]))
    ensures |Concat(calls)| == |calls[0]| + |Concat(calls[1..])|
    ensures Windows(Concat(calls)) == Windows(calls[0]) + Windows(Concat(calls[1..]))
    ensures NoServerHello(Windows(Concat(calls))) ==>
      NoServerHello(Windows(calls[0])) && NoServerHello(Windows(Concat(calls[1..])))
    ensures Read(Windows(Concat(calls)), left) ==
      if Read(Windows(calls[0]), left).Open? then Read(Windows(Concat(calls[1..])), Read(Windows(calls[0]), left).left)
      else Read(Windows(calls[0]), left)
  {
    WholeAll(calls);
    WholeAll(calls[1..]);
    var a, b := Windows(calls[0]), Windows(Concat(calls[1..]));
    WindowsSplit(calls[0], Concat(calls[1..]));
    ReadSplit(a, b, left);
    if NoServerHello(a + b) {
      NoHelloSplit(a, b);
    }
  }

  /**
   * A server hello, spread over buffers and over calls of readers and writers in any way, as long as the budget lasts.
   * The suite is the one that the hello shows, XTLS is enabled exactly if some buffer shows the six bytes that select
   * TLS 1.3 before the record ends and the suite is one of 0x1301 to 0x1304, and then, or at the end of the record, the
   * search is over.
   */
  lemma {:induction false} HelloInRun(t: Tls, calls: seq<seq<View>>)
    requires (forall i :: 0 <= i < |calls| ==> Whole(calls[i])) && Whole(Concat(calls))
    requires calls != [] && calls[0] != [] && t.packetsToFilter >= |Concat(calls)|
    requires var ds := Windows(Concat(calls)); StartsServerHello(ds[0]) && SuiteInside(ds[0]) && NoServerHello(ds[1..])
    ensures var ds, r := Windows(Concat(calls)), FilterRun(t, AllGiven(calls));
      r.Some? && Concluded(t, r.value, Read(ds, RecordEnd(ds[0])), SuiteAfter(t, ds[0]), |ds|)
  {
    hide Selects13, StartsClientHello, Filter, FilterOne, SuiteAfter;
    WholeAll(calls[1..]);
    var ds := Windows(Concat(calls));
    var first, later := Windows(calls[0]), Windows(Concat(calls[1..]));
    FirstCall(calls, RecordEnd(ds[0]));
    assert first != [] && ds[0] == first[0] && ds[1..] == first[1..] + later;
    NoHelloSplit(first[1..], later);
    HelloInCall(t, calls[0]);
    var t1 := FilterIfActive(t, Given(calls[0])).value;
    assert AllGiven(calls)[1..] == AllGiven(calls[1..]);
    if Read(first, RecordEnd(ds[0])).Open? {
      OpenLeaves(first, RecordEnd(ds[0]));
      RestOfRun(t1, calls[1..]);
    } else {
      Frozen(t1, AllGiven(calls[1..]));
    }
  }

  lemma {:induction false} OpenLeaves(ds: seq<bytes>, left: int)
    requires Read(ds, left).Open? && left > 0
    ensures Read(ds, left).left > 0
    decreases ds
  {
    if ds != [] {
      OpenLeaves(ds[1..], left - |ds[0]|);
    }
  }

  // ----- and without one -----

  predicate SomeClientHello(ds: seq<bytes>) {
    exists i :: 0 <= i < |ds| && StartsClientHello(ds[i])
  }

  /** Buffers without a server hello only use the budget up, and a client hello among them says that there is TLS. */
  lemma {:induction false} NoHelloInCall(t: Tls, vs: seq<View>)
    requires Whole(vs) && NoServerHello(Windows(vs)) && t.remainingServerHello <= 0
    ensures Filter(t, Given(vs))
         == Some(t.(packetsToFilter := t.packetsToFilter - |vs|, tls := t.tls || SomeClientHello(Windows(vs))))
    decreases vs
  {
    if vs != [] {
      var ds := Windows(vs);
      assert ds[0] == vs[0].Data() && ds[1..] == Windows(vs[1..]) && ds == [ds[0]] + ds[1..];
      NoHelloSplit([ds[0]], ds[1..]);
      assert [ds[0]][0] == ds[0];
      OtherDecides(t, vs[0]);
      assert Given(vs)[1..] == Given(vs[1..]);
      NoHelloInCall(FilterOne(t, Some(vs[0])).value.0, vs[1..]);
      SomeSplit(ds);
    }
  }

  lemma SomeSplit(ds: seq<bytes>)
    requires ds != []
    ensures SomeClientHello(ds) <==> StartsClientHello(ds[0]) || SomeClientHello(ds[1..])
  {
    if SomeClientHello(ds) && !StartsClientHello(ds[0]) {
      var i :| 0 <= i < |ds| && StartsClientHello(ds[i]);
      assert ds[1..][i - 1] == ds[i];
    }
    if SomeClientHello(ds[1..]) {
      var i :| 0 <= i < |ds[1..]| && StartsClientHello(ds[1..][i]);
      assert ds[i + 1] == ds[1..][i];
    }
  }
}
