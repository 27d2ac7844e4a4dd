/** A whole session of one writer object, and of one reader object: every call they are given, in order. */
module VisionSessions {
  import opened Common
  import opened Bytes
  import opened Buf
  import opened VisionFrame
  import opened VisionState
  import opened VisionFilter
  import opened VisionUnpadding
  import opened VisionPlan
  import opened VisionRuns
  import opened VisionWriting
  import opened VisionReads
  import opened VisionReading
  import opened VisionRoundTrip

  /** A multi-buffer as a writer is given one: the lone nil buffer, or buffers of at most one pooled buffer's size. */
  ghost predicate WritableOk(mb: seq<Buffer?>)
    reads mb
  {
    && Distinct(mb)
    && (mb == [null] || forall i :: 0 <= i < |mb| ==> mb[i] != null && mb[i].Valid() && mb[i].Len() <= SIZE)
  }

  ghost function InputOf(mb: seq<Buffer?>): Input
    requires WritableOk(mb)
    reads mb
  {
    if mb == [null] then NilBuffer else Buffers(Datas(mb))
  }

  /** No buffer is in two of the lists. */
  predicate Apart(mbs: seq<seq<Buffer?>>) {
    forall i, j, b :: 0 <= i < j < |mbs| && b in mbs[i] && b != null ==> b !in mbs[j]
  }

  /** Filtering keeps the filter invariant. */
  lemma FilteringKeeps(t: Tls, ws: seq<Option<View>>)
    requires AllValid(ws) && TlsInv(t) && FilterIfActive(t, ws).Some?
    ensures TlsInv(FilterIfActive(t, ws).value)
    ensures t.packetsToFilter <= 0 ==> FilterIfActive(t, ws).value == t
  {
    if t.packetsToFilter > 0 {
      FilterKeeps(t, ws);
    }
  }

  /** A write of the run model: from `w` to `w1`, putting out `out`. */
  ghost predicate OneWrite(w: WState, seeds: seq<nat>, e: Event, w1: WState, out: bytes) {
    && SeedShape(seeds) && TlsInv(e.tls) && InputFits(e.input)
    && AllItemsFit(e.items) && ItemsOk(w, e.input, e.tls, seeds, e.items)
    && w1 == Post(w, e.input, e.tls) && out == Output(Switched(w), e.items)
  }

  /** One write as an event of the run model. */
  method WriteOne(wr: VisionWriter, mb: seq<Buffer?>) returns (ok: bool, out: bytes, ghost e: Event)
    requires wr.Valid() && WritableOk(mb) && TlsInv(wr.trafficState.TlsState())
    modifies wr, wr.trafficState, wr.trafficState.WriterLink(wr.isUplink), mb
    ensures ok ==> FilterIfActive(old(wr.trafficState.TlsState()), old(Views(mb))) == Some(wr.trafficState.TlsState())
    ensures !ok ==>
      Stops(old(wr.State()), old(wr.trafficState.TlsState()), wr.testseed, old(Views(mb)), old(InputOf(mb)))
    ensures !ok && SafeSeeds(wr.testseed) ==> FilterIfActive(old(wr.trafficState.TlsState()), old(Views(mb))) == None
    ensures ok ==>
      && wr.Valid() && TlsInv(wr.trafficState.TlsState())
      && e.input == old(InputOf(mb)) && e.tls == wr.trafficState.TlsState()
      && OneWrite(old(wr.State()), wr.testseed, e, wr.State(), out)
  {
    ghost var w, input, ws := wr.State(), InputOf(mb), Views(mb);
    ghost var t0 := wr.trafficState.TlsState();
    var bufs;
    ghost var items;
    ok, bufs, items := wr.WriteMultiBuffer(mb, ws, input);
    out := [];
    ghost var t := wr.trafficState.TlsState();
    e := Event(input, t, items);
    if ok {
      FilteringKeeps(t0, ws);
      EmittedIsEvent(w, input, t, wr.testseed, items, wr.State(), Datas(bufs));
      out := Gather(bufs);
    }
  }

  /** The bytes of a list of buffers. */
  method Gather(bufs: seq<Buffer>) returns (out: bytes)
    requires forall i :: 0 <= i < |bufs| ==> bufs[i].Valid()
    ensures out == Concat(Datas(bufs))
  {
    out := [];
    ghost var ds := Datas(bufs);
    for k := 0 to |bufs|
      invariant out == Concat(ds[..k])
    {
      assert ds[..k + 1] == ds[..k] + [ds[k]];
      ConcatSnoc(ds[..k], ds[k]);
      out := out + bufs[k].Data();
    }
    assert ds[..|bufs|] == ds;
  }

  predicate AllViewsValid(views: seq<seq<Option<View>>>) {
    forall k :: 0 <= k < |views| ==> AllValid(views[k])
  }

  /**
   * The lists that are still to be written, with their buffers from `pool`; `views` is what the filter sees of them.
   */
  ghost predicate Waiting(mbs: seq<seq<Buffer?>>, inputs: seq<Input>, views: seq<seq<Option<View>>>, pool: set<Buffer>)
    reads pool
  {
    && |views| == |inputs| == |mbs| && AllViewsValid(views)
    && (forall k, b :: 0 <= k < |mbs| && b in mbs[k] && b != null ==> b in pool)
    && forall k :: 0 <= k < |mbs| ==> WritableOk(mbs[k]) && InputOf(mbs[k]) == inputs[k] && Views(mbs[k]) == views[k]
  }

  /** What `mb` holds, as a value: it stays as long as no buffer in it is touched. */
  lemma InputIs(mb: seq<Buffer?>, input: Input)
    requires Distinct(mb) && (mb == [null] <==> input == NilBuffer)
    requires mb != [null] ==> input.Buffers? && |input.ps| == |mb|
    requires mb != [null] ==> forall i :: 0 <= i < |mb| ==>
               mb[i] != null && mb[i].Valid() && mb[i].Len() <= SIZE && mb[i].Data() == input.ps[i]
    ensures WritableOk(mb) && InputOf(mb) == input
  {
    if mb != [null] {
      var bs: seq<Buffer> := mb;
      assert bs == mb && Datas(bs) == input.ps;
    }
  }

  lemma ViewsAre(mb: seq<Buffer?>, ws: seq<Option<View>>)
    requires |ws| == |mb| && forall i :: 0 <= i < |mb| && mb[i] != null ==> mb[i].Valid()
    requires forall i :: 0 <= i < |mb| ==>
        ws[i] == if mb[i] == null then None else Some(View(mb[i].Backing(), mb[i].Len()))
    ensures Views(mb) == ws
  {
  }

  /** The first of the writes leaves the buffers of the others alone. */
  method WriteFirst(wr: VisionWriter, mbs: seq<seq<Buffer?>>, ghost inputs: seq<Input>,
                    ghost views: seq<seq<Option<View>>>, ghost pool: set<Buffer>)
    returns (ok: bool, out: bytes, ghost e: Event)
    requires wr.Valid() && TlsInv(wr.trafficState.TlsState())
    requires mbs != [] && Waiting(mbs, inputs, views, pool) && Apart(mbs)
    modifies wr, wr.trafficState, wr.trafficState.WriterLink(wr.isUplink), pool
    ensures ok ==> FilterIfActive(old(wr.trafficState.TlsState()), views[0]) == Some(wr.trafficState.TlsState())
    ensures !ok ==> Stops(old(wr.State()), old(wr.trafficState.TlsState()), wr.testseed, views[0], inputs[0])
    ensures !ok && SafeSeeds(wr.testseed) ==> FilterIfActive(old(wr.trafficState.TlsState()), views[0]) == None
    ensures ok ==>
      && wr.Valid() && TlsInv(wr.trafficState.TlsState())
      && e.input == inputs[0] && e.tls == wr.trafficState.TlsState()
      && OneWrite(old(wr.State()), wr.testseed, e, wr.State(), out)
    ensures Waiting(mbs[1..], inputs[1..], views[1..], pool) && Apart(mbs[1..])
  {
    hide OneWrite, FilterIfActive, TlsInv, Stops;
    ok, out, e := WriteOne(wr, mbs[0]);
    ghost var rest := mbs[1..];
    assert forall k :: 0 <= k < |rest| ==>
        rest[k] == mbs[k + 1] && inputs[1..][k] == inputs[k + 1] && views[1..][k] == views[k + 1];
    forall k | 0 <= k < |rest|
      ensures WritableOk(rest[k]) && InputOf(rest[k]) == inputs[1..][k] && Views(rest[k]) == views[1..][k]
    {
      ghost var mb := mbs[k + 1];
      assert old(WritableOk(mb)) && old(InputOf(mb)) == inputs[k + 1] && old(Views(mb)) == views[k + 1];
      forall i | 0 <= i < |mb| && mb[i] != null
        ensures mb[i].Valid() && mb[i].Len() <= SIZE && mb[i].Data() == old(mb[i].Data())
            && mb[i].Backing() == old(mb[i].Backing())
      {
        assert mb[i] in mb && mb[i] in pool && mb[i] !in mbs[0];
        assert unchanged(mb[i]);
      }
      InputIs(mb, inputs[k + 1]);
      ViewsAre(mb, views[k + 1]);
    }
  }

  lemma NoRun(w: WState, seeds: seq<nat>)
    requires SeedShape(seeds)
    ensures Run(w, seeds, []) && EventsFit([]) && Final(w, []) == w && Sent(w, [], false) == Sent(w, [], true) == []
  {
  }

  /** A run of writes with one more in front. */
  lemma RunCons(w: WState, seeds: seq<nat>, e: Event, es: seq<Event>, w1: WState, out: bytes)
    requires OneWrite(w, seeds, e, w1, out) && Run(w1, seeds, es) && EventsFit(es)
    ensures Run(w, seeds, [e] + es) && EventsFit([e] + es) && Final(w, [e] + es) == Final(w1, es)
    ensures w1 == Post(w, e.input, e.tls)
    ensures Sent(w, [e] + es, false) == (if w1.raw then [] else out) + Sent(w1, es, false)
    ensures Sent(w, [e] + es, true) == (if w1.raw then out else []) + Sent(w1, es, true)
  {
    assert ([e] + es)[1..] == es;
  }

  /** After the writes `es` the next one cannot go through, or need not. */
  predicate StopsAfter(w: WState, t: Tls, seeds: seq<nat>, es: seq<Event>,
                       views: seq<seq<Option<View>>>, inputs: seq<Input>)
    requires SeedShape(seeds) && AllViewsValid(views)
    decreases es
  {
    && |es| < |views| == |inputs|
    && if es == [] then Stops(w, t, seeds, views[0], inputs[0])
       else && FilterIfActive(t, views[0]) == Some(es[0].tls) && es[0].input == inputs[0]
            && StopsAfter(Post(w, es[0].input, es[0].tls), es[0].tls, seeds, es[1..], views[1..], inputs[1..])
  }

  /**
   * Any calls of `WriteMultiBuffer` on one writer are a run of the model, up to the last or to one in which the filter
   * panics on what it sees or a draw of padding can: `wire` is what went to the connection the writer began with, `raw`
   * what went to the one under it.
   */
  method WriteAll(wr: VisionWriter, mbs: seq<seq<Buffer?>>, ghost inputs: seq<Input>,
                  ghost views: seq<seq<Option<View>>>, ghost pool: set<Buffer>)
    returns (ok: bool, wire: bytes, raw: bytes, ghost es: seq<Event>)
    requires wr.Valid() && TlsInv(wr.trafficState.TlsState()) && Waiting(mbs, inputs, views, pool) && Apart(mbs)
    modifies wr, wr.trafficState, wr.trafficState.WriterLink(wr.isUplink), pool
    ensures Run(old(wr.State()), wr.testseed, es) && EventsFit(es) && |es| <= |mbs|
    ensures forall k :: 0 <= k < |es| ==> es[k].input == inputs[k]
    ensures wire == Sent(old(wr.State()), es, false) && raw == Sent(old(wr.State()), es, true)
    ensures ok ==> |es| == |mbs| && wr.State() == Final(old(wr.State()), es)
    ensures ok ==> FilterRun(old(wr.trafficState.TlsState()), views) == Some(wr.trafficState.TlsState())
    ensures !ok ==> StopsAfter(old(wr.State()), old(wr.trafficState.TlsState()), wr.testseed, es, views, inputs)
    ensures !ok && SafeSeeds(wr.testseed) ==> FilterRun(old(wr.trafficState.TlsState()), views) == None
    decreases |mbs|
  {
    hide OneWrite, FilterIfActive, Sent, Final, Run, Stops;
    wire, raw, es := [], [], [];
    NoRun(wr.State(), wr.testseed);
    if mbs == [] {
      return true, [], [], [];
    }
    ghost var w := wr.State();
    ghost var e;
    var out, wire1, raw1;
    ok, out, e := WriteFirst(wr, mbs, inputs, views, pool);
    if !ok {
      return;
    }
    var toRaw := wr.rawWriter;
    ghost var es1, w1 := [], wr.State();
    ok, wire1, raw1, es1 := WriteAll(wr, mbs[1..], inputs[1..], views[1..], pool);
    wire, raw := (if toRaw then [] else out) + wire1, (if toRaw then out else []) + raw1;
    es := [e] + es1;
    RunCons(w, wr.testseed, e, es1, w1, out);
    assert es[1..] == es1;
  }

  // ----- the reader -----

  /** A multi-buffer as a reader gets one: buffers of at most one pooled buffer's size. */
  ghost predicate ReadableOk(bufs: seq<Buffer>)
    reads bufs
  {
    Distinct(bufs) && forall i :: 0 <= i < |bufs| ==> bufs[i].Valid() && bufs[i].Len() <= SIZE
  }

  /** What a connection still held is delivered when the reader goes direct, and kept until then. */
  predicate Held(before: bool, after: bool, held: bytes, rest: bytes, left: bytes) {
    if after && !before then rest == held else rest == [] && left == held
  }

  /** The filter sees these bytes, whatever stands behind them in the buffers. */
  ghost predicate Spells(vs: seq<Option<View>>, data: bytes) {
    && AllValid(vs) && (forall i :: 0 <= i < |vs| ==> vs[i].Some?)
    && Concat(seq(|vs|, i requires 0 <= i < |vs| && vs[i].Some? && vs[i].value.Valid() => vs[i].value.Data())) == data
  }

  lemma ViewsSpell(bufs: seq<Buffer>)
    requires forall i :: 0 <= i < |bufs| ==> bufs[i].Valid()
    ensures Spells(Views(bufs), Concat(Datas(bufs)))
  {
    var vs := Views(bufs);
    assert seq(|vs|, i requires 0 <= i < |vs| && vs[i].Some? && vs[i].value.Valid() => vs[i].value.Data())
        == Datas(bufs);
  }

  /** What the filter sees of a read: what the read hands on, or nothing if the read is empty or raw. */
  ghost predicate SeenOne(r: RState, uuid: bytes, read: Read, vs: seq<Option<View>>)
    requires Inv(r.c)
  {
    if Concat(read.chunks) == [] || r.direct then vs == [] else Spells(vs, ReadStep(r, uuid, read).1)
  }

  ghost predicate Seen(r: RState, uuid: bytes, rs: seq<Read>, views: seq<seq<Option<View>>>)
    requires Inv(r.c)
    decreases rs
  {
    && |views| == |rs| && AllViewsValid(views)
    && (rs != [] ==>
          SeenOne(r, uuid, rs[0], views[0]) && Seen(ReadStep(r, uuid, rs[0]).0, uuid, rs[1..], views[1..]))
  }

  /** One read; `rest` is what a replaced connection still held. */
  method ReadOne(rd: VisionReader, bufs: seq<Buffer>)
    returns (ok: bool, out: bytes, rest: bytes, ghost read: Read, ghost vs: seq<Option<View>>)
    requires rd.Valid() && ReadableOk(bufs)
    modifies rd, rd.trafficState, rd.trafficState.ReaderLink(rd.isUplink), bufs
    ensures rd.Valid() && read == Read(old(rd.trafficState.numberOfPacketToFilter) > 0, old(Datas(bufs)))
    ensures (rd.State(), out) == ReadStep(old(rd.State()), rd.trafficState.userUUID, read)
    ensures AllValid(vs) && SeenOne(old(rd.State()), rd.trafficState.userUUID, read, vs)
    ensures FilterIfActive(old(rd.trafficState.TlsState()), vs) == if ok then Some(rd.trafficState.TlsState()) else None
    ensures ok && !read.filtering ==> rd.trafficState.numberOfPacketToFilter <= 0
    ensures ok ==>
        Held(old(rd.State()).direct, rd.State().direct, old(rd.input) + old(rd.rawInput), rest, rd.input + rd.rawInput)
  {
    ghost var ds := Datas(bufs);
    var outs, rests;
    read := Read(rd.trafficState.numberOfPacketToFilter > 0, ds);
    vs := [];
    ghost var skipped := Concat(ds) == [] || rd.State().direct;
    ok, outs, rests := rd.ReadMultiBuffer(bufs, ds);
    if !skipped {
      vs := Views(outs);
      ViewsSpell(outs);
    }
    out := Gather(outs);
    rest := Join(rests);
  }

  method Join(parts: seq<bytes>) returns (r: bytes)
    ensures r == Concat(parts)
  {
    r := [];
    for k := 0 to |parts|
      invariant r == Concat(parts[..k])
    {
      assert parts[..k + 1] == parts[..k] + [parts[k]];
      ConcatSnoc(parts[..k], parts[k]);
      r := r + parts[k];
    }
    assert parts[..|parts|] == parts;
  }

  /** The lists that are still to be read, with their buffers from `pool`. */
  ghost predicate Arriving(bss: seq<seq<Buffer>>, dss: seq<seq<bytes>>, pool: set<Buffer>)
    reads pool
  {
    && |dss| == |bss| && (forall k, b :: 0 <= k < |bss| && b in bss[k] ==> b in pool)
    && (forall i, j, b :: 0 <= i < j < |bss| && b in bss[i] ==> b !in bss[j])
    && forall k :: 0 <= k < |bss| ==> ReadableOk(bss[k]) && Datas(bss[k]) == dss[k]
  }

  /** The first of the reads leaves the buffers of the others alone. */
  method ReadFirst(rd: VisionReader, bss: seq<seq<Buffer>>, ghost dss: seq<seq<bytes>>, ghost pool: set<Buffer>)
    returns (ok: bool, out: bytes, rest: bytes, ghost read: Read, ghost vs: seq<Option<View>>)
    requires rd.Valid() && bss != [] && Arriving(bss, dss, pool)
    modifies rd, rd.trafficState, rd.trafficState.ReaderLink(rd.isUplink), pool
    ensures rd.Valid() && read == Read(old(rd.trafficState.numberOfPacketToFilter) > 0, dss[0])
    ensures (rd.State(), out) == ReadStep(old(rd.State()), rd.trafficState.userUUID, read)
    ensures AllValid(vs) && SeenOne(old(rd.State()), rd.trafficState.userUUID, read, vs)
    ensures FilterIfActive(old(rd.trafficState.TlsState()), vs) == if ok then Some(rd.trafficState.TlsState()) else None
    ensures ok && !read.filtering ==> rd.trafficState.numberOfPacketToFilter <= 0
    ensures ok ==>
        Held(old(rd.State()).direct, rd.State().direct, old(rd.input) + old(rd.rawInput), rest, rd.input + rd.rawInput)
    ensures Arriving(bss[1..], dss[1..], pool)
  {
    ok, out, rest, read, vs := ReadOne(rd, bss[0]);
    ghost var later := bss[1..];
    assert forall k :: 0 <= k < |later| ==> later[k] == bss[k + 1] && dss[1..][k] == dss[k + 1];
    forall k | 0 <= k < |later|
      ensures ReadableOk(later[k]) && Datas(later[k]) == dss[1..][k]
    {
      ghost var bufs := bss[k + 1];
      assert old(ReadableOk(bufs)) && old(Datas(bufs)) == dss[k + 1];
      assert forall i :: 0 <= i < |bufs| ==> bufs[i] in bufs && bufs[i] in pool && bufs[i] !in bss[0];
    }
  }

  /**
   * Any calls of `ReadMultiBuffer` on one reader are a run of the model, up to the last or to one whose filter panics
   * on what it sees; none of them filters after one that does not. What a connection that is let go still held is
   * delivered once.
   */
  method ReadEach(rd: VisionReader, bss: seq<seq<Buffer>>, ghost dss: seq<seq<bytes>>, ghost pool: set<Buffer>)
    returns (ok: bool, out: bytes, rest: bytes, ghost rs: seq<Read>, ghost views: seq<seq<Option<View>>>)
    requires rd.Valid() && Arriving(bss, dss, pool)
    modifies rd, rd.trafficState, rd.trafficState.ReaderLink(rd.isUplink), pool
    ensures rd.Valid()
    ensures |rs| <= |bss| && (forall k :: 0 <= k < |rs| ==> rs[k].chunks == dss[k]) && (ok ==> |rs| == |bss|)
    ensures Seen(old(rd.State()), rd.trafficState.userUUID, rs, views)
    ensures FilterRun(old(rd.trafficState.TlsState()), views) == if ok then Some(rd.trafficState.TlsState()) else None
    ensures ok ==> (rd.State(), out) == ReadAll(old(rd.State()), rd.trafficState.userUUID, rs)
    ensures ok ==> FilterOnce(rs) && (old(rd.trafficState.numberOfPacketToFilter) <= 0 ==> NoneFilters(rs))
    ensures ok ==>
        Held(old(rd.State()).direct, rd.State().direct, old(rd.input) + old(rd.rawInput), rest, rd.input + rd.rawInput)
    decreases |bss|
  {
    out, rest, rs, views := [], [], [], [];
    if bss == [] {
      return true, [], [], [], [];
    }
    ghost var read, vs;
    var out1, rest1;
    ok, out, rest, read, vs := ReadFirst(rd, bss, dss, pool);
    rs, views := [read], [vs];
    if !ok {
      return;
    }
    ghost var rs1, views1;
    ghost var uuid, mid := rd.trafficState.userUUID, rd.State();
    ok, out1, rest1, rs1, views1 := ReadEach(rd, bss[1..], dss[1..], pool);
    rs, views := [read] + rs1, [vs] + views1;
    assert rs[1..] == rs1 && views[1..] == views1;
    if ok {
      DirectStays(mid, uuid, rs1);
      FilterOnceCons(read, rs1);
      out, rest := out + out1, rest + rest1;
    }
  }

  predicate NoneFilters(rs: seq<Read>) {
    forall i :: 0 <= i < |rs| ==> !rs[i].filtering
  }

  lemma FilterOnceCons(read: Read, rs: seq<Read>)
    requires FilterOnce(rs) && (!read.filtering ==> NoneFilters(rs))
    ensures FilterOnce([read] + rs)
    ensures !read.filtering ==> NoneFilters([read] + rs)
  {
    var all := [read] + rs;
    assert forall i :: 0 < i < |all| ==> all[i] == rs[i - 1];
  }

  /** Direct copy is never undone. */
  lemma {:induction false} DirectStays(r: RState, uuid: bytes, rs: seq<Read>)
    requires Inv(r.c)
    ensures r.direct ==> ReadAll(r, uuid, rs).0.direct
    decreases rs
  {
    if rs != [] {
      DirectStays(ReadStep(r, uuid, rs[0]).0, uuid, rs[1..]);
    }
  }
}
