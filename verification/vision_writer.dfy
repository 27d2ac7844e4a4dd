/** `VisionWriter.WriteMultiBuffer` on buffers and the shared traffic state. */
module VisionWriting {
  import opened Common
  import opened Bytes
  import opened Buf
  import opened VisionFrame
  import opened VisionState
  import opened VisionRecords
  import opened VisionFilter
  import opened VisionBlocks
  import opened VisionPlan
  import opened VisionRuns
  import opened VisionEndings

  // ----- the padding loop on values -----

  lemma {:induction false} ItemsBytesSnoc(xs: seq<Item>, x: Item)
    requires AllItemsFit(xs) && ItemFits(x)
    ensures AllItemsFit(xs + [x]) && ItemsBytes(xs + [x]) == ItemsBytes(xs) + ItemBytes(x)
  {
    ItemsBytesAppend(xs, [x]);
    assert [x][1..] == [];
    assert ItemsBytes([x]) == ItemBytes(x) + ItemsBytes([]);
  }

  lemma {:induction false} ItemsBytesAppend(xs: seq<Item>, ys: seq<Item>)
    requires AllItemsFit(xs) && AllItemsFit(ys)
    ensures AllItemsFit(xs + ys) && ItemsBytes(xs + ys) == ItemsBytes(xs) + ItemsBytes(ys)
  {
    if xs == [] {
      assert xs + ys == ys;
    } else {
      ItemsBytesAppend(xs[1..], ys);
      assert (xs + ys)[0] == xs[0] && (xs + ys)[1..] == xs[1..] + ys;
      Assoc(ItemBytes(xs[0]), ItemsBytes(xs[1..]), ItemsBytes(ys));
    }
  }

  /** Buffers left alone after an early end. */
  function Raws(ps: seq<bytes>): (xs: seq<Item>)
    ensures |xs| == |ps| && forall i :: 0 <= i < |ps| ==> xs[i] == Raw(ps[i])
  {
    seq(|ps|, i requires 0 <= i < |ps| => Raw(ps[i]))
  }

  lemma {:induction false} RawsBytes(ps: seq<bytes>)
    ensures AllItemsFit(Raws(ps)) && ItemsBytes(Raws(ps)) == Concat(ps)
  {
    if ps != [] {
      RawsBytes(ps[1..]);
      assert Raws(ps)[1..] == Raws(ps[1..]);
    }
  }

  /** What the loop starts from: filter state, completeness test, pieces, seeds, variables, user id owed. */
  datatype Setup = Setup(t: Tls, complete: bool, ps: seq<bytes>, seeds: seq<nat>, m0: Mode, id: bytes)

  /** What it has done: variables, emits, items, and the contents of the buffers put out. */
  datatype Trace = Trace(m: Mode, es: seq<Emit>, xs: seq<Item>, od: seq<bytes>)

  function PlanAt(su: Setup, i: nat, m: Mode): (seq<Emit>, Mode)
    requires i <= |su.ps|
  {
    PlanFrom(su.t, su.complete, su.ps, i, m)
  }

  /** After `i` buffers. */
  ghost predicate Progress(su: Setup, i: nat, tr: Trace) {
    && SeedShape(su.seeds) && i <= |su.ps|
    && PlanAt(su, 0, su.m0) == (tr.es + PlanAt(su, i, tr.m).0, PlanAt(su, i, tr.m).1)
    && AllRealize(tr.es, su.ps[..i], su.seeds, tr.xs) && AllItemsFit(tr.xs) && |tr.xs| == i
    && (i > 0 ==> tr.xs[0].Framed?)
    && Concat(tr.od) == (if i == 0 then [] else su.id) + ItemsBytes(tr.xs)
  }

  /** In the end. */
  ghost predicate Done(su: Setup, tr: Trace) {
    && SeedShape(su.seeds) && tr.m == PlanAt(su, 0, su.m0).1
    && AllRealize(PlanAt(su, 0, su.m0).0, su.ps, su.seeds, tr.xs) && AllItemsFit(tr.xs)
    && Concat(tr.od) == (if tr.xs != [] && tr.xs[0].Framed? then su.id else []) + ItemsBytes(tr.xs)
  }

  lemma ProgressStart(su: Setup)
    requires SeedShape(su.seeds)
    ensures Progress(su, 0, Trace(su.m0, [], [], []))
  {
    assert [] + PlanAt(su, 0, su.m0).0 == PlanAt(su, 0, su.m0).0;
  }

  /** Buffer `i` has been padded as `x`, behind what was left of the user id. */
  ghost predicate PaddedAt(su: Setup, i: nat, e: Emit, x: Item, d: bytes) {
    && SeedShape(su.seeds) && i < |su.ps| && Realizes(e, su.ps[i], su.seeds, x) && x.Framed?
    && d == (if i == 0 then su.id else []) + ItemBytes(x)
  }

  lemma ProgressStep(su: Setup, i: nat, tr: Trace, e: Emit, x: Item, d: bytes)
    requires Progress(su, i, tr) && PaddedAt(su, i, e, x, d)
    ensures AllRealize(tr.es + [e], su.ps[..i + 1], su.seeds, tr.xs + [x]) && AllItemsFit(tr.xs + [x])
    ensures (tr.xs + [x])[0].Framed?
    ensures Concat(tr.od + [d]) == su.id + ItemsBytes(tr.xs + [x])
  {
    assert su.ps[..i + 1] == su.ps[..i] + [su.ps[i]];
    ItemsBytesSnoc(tr.xs, x);
    ConcatSnoc(tr.od, d);
    if i == 0 {
      assert tr.xs == [];
      assert [] + (su.id + ItemBytes(x)) == su.id + ([] + ItemBytes(x));
    } else {
      Assoc(su.id, ItemsBytes(tr.xs), ItemBytes(x));
      assert [] + ItemBytes(x) == ItemBytes(x);
    }
  }

  lemma PlanUnfolds(su: Setup, i: nat, m: Mode)
    requires i < |su.ps|
    ensures var (e, m1, stop) := PlanStep(su.t, su.complete, su.ps[i], i == |su.ps| - 1, m);
            PlanAt(su, i, m) == if stop then ([e] + Repeat(Plain, |su.ps| - i - 1), m1)
                                else ([e] + PlanAt(su, i + 1, m1).0, PlanAt(su, i + 1, m1).1)
  {
  }

  lemma EmitsAssoc(a: seq<Emit>, e: Emit, b: seq<Emit>)
    ensures a + ([e] + b) == (a + [e]) + b
  {
  }

  lemma ProgressGo(su: Setup, i: nat, tr: Trace, e: Emit, m1: Mode, x: Item, d: bytes)
    requires Progress(su, i, tr) && PaddedAt(su, i, e, x, d)
    requires PlanStep(su.t, su.complete, su.ps[i], i == |su.ps| - 1, tr.m) == (e, m1, false)
    ensures Progress(su, i + 1, Trace(m1, tr.es + [e], tr.xs + [x], tr.od + [d]))
  {
    ProgressStep(su, i, tr, e, x, d);
    PlanUnfolds(su, i, tr.m);
    EmitsAssoc(tr.es, e, PlanAt(su, i + 1, m1).0);
  }

  lemma ProgressStop(su: Setup, i: nat, tr: Trace, e: Emit, m1: Mode, x: Item, d: bytes) returns (tr2: Trace)
    requires Progress(su, i, tr) && PaddedAt(su, i, e, x, d)
    requires PlanStep(su.t, su.complete, su.ps[i], i == |su.ps| - 1, tr.m) == (e, m1, true)
    ensures Done(su, tr2) && tr2.m == m1 && tr2.od == tr.od + [d] + su.ps[i + 1..]
  {
    var rest, plains := su.ps[i + 1..], Repeat(Plain, |su.ps| - i - 1);
    tr2 := Trace(m1, tr.es + [e] + plains, tr.xs + [x] + Raws(rest), tr.od + [d] + rest);
    ProgressStep(su, i, tr, e, x, d);
    PlanUnfolds(su, i, tr.m);
    EmitsAssoc(tr.es, e, plains);
    RawsBytes(rest);
    ItemsBytesAppend(tr.xs + [x], Raws(rest));
    ConcatAppend(tr.od + [d], rest);
    Assoc(su.id, ItemsBytes(tr.xs + [x]), Concat(rest));
    RealizeJoin(tr.es + [e], plains, su.ps, i + 1, su.seeds, tr.xs + [x], Raws(rest));
  }

  lemma RealizeJoin(es: seq<Emit>, fs: seq<Emit>, ps: seq<bytes>, i: nat, seeds: seq<nat>, xs: seq<Item>, ys: seq<Item>)
    requires SeedShape(seeds) && i <= |ps| && AllRealize(es, ps[..i], seeds, xs) && AllRealize(fs, ps[i..], seeds, ys)
    ensures AllRealize(es + fs, ps, seeds, xs + ys)
  {
    forall k | 0 <= k < |ps|
      ensures Realizes((es + fs)[k], ps[k], seeds, (xs + ys)[k])
    {
      if k < i {
        assert Realizes(es[k], ps[..i][k], seeds, xs[k]);
      } else {
        assert Realizes(fs[k - i], ps[i..][k - i], seeds, ys[k - i]);
      }
    }
  }

  /** One iteration of the loop: variables before, emit, variables after, break or not, item, contents put out. */
  datatype Rec = Rec(m: Mode, e: Emit, m1: Mode, stop: bool, x: Item, d: bytes)

  ghost predicate RecOk(su: Setup, k: nat, r: Rec) {
    && PaddedAt(su, k, r.e, r.x, r.d)
    && PlanStep(su.t, su.complete, su.ps[k], k == |su.ps| - 1, r.m) == (r.e, r.m1, r.stop)
  }

  function ModeAfter(su: Setup, log: seq<Rec>): Mode {
    if log == [] then su.m0 else log[|log| - 1].m1
  }

  predicate Stopped(log: seq<Rec>) {
    log != [] && log[|log| - 1].stop
  }

  /** A run of iterations, of which only the last may break. */
  ghost predicate LogOk(su: Setup, log: seq<Rec>) {
    log != [] ==>
      var i := |log| - 1;
      var before := log[..i];
      i < |su.ps| && LogOk(su, before) && !Stopped(before) && RecOk(su, i, log[i]) && log[i].m == ModeAfter(su, before)
  }

  function PutOut(log: seq<Rec>): seq<bytes> {
    if log == [] then [] else PutOut(log[..|log| - 1]) + [log[|log| - 1].d]
  }

  lemma LogSnoc(su: Setup, log: seq<Rec>, r: Rec)
    requires LogOk(su, log) && !Stopped(log) && RecOk(su, |log|, r) && r.m == ModeAfter(su, log)
    ensures LogOk(su, log + [r]) && PutOut(log + [r]) == PutOut(log) + [r.d]
    ensures ModeAfter(su, log + [r]) == r.m1 && (Stopped(log + [r]) <==> r.stop)
  {
    assert (log + [r])[..|log|] == log;
  }

  function Then(tr: Trace, r: Rec): Trace {
    Trace(r.m1, tr.es + [r.e], tr.xs + [r.x], tr.od + [r.d])
  }

  lemma ProgressThen(su: Setup, i: nat, tr: Trace, r: Rec)
    requires Progress(su, i, tr) && i < |su.ps| && RecOk(su, i, r) && !r.stop && r.m == tr.m
    ensures Progress(su, i + 1, Then(tr, r))
  {
    ProgressGo(su, i, tr, r.e, r.m1, r.x, r.d);
  }

  lemma {:induction false} LogProgress(su: Setup, log: seq<Rec>) returns (tr: Trace)
    requires SeedShape(su.seeds) && LogOk(su, log) && !Stopped(log)
    ensures |log| <= |su.ps| && Progress(su, |log|, tr) && tr.od == PutOut(log) && tr.m == ModeAfter(su, log)
    decreases |log|
  {
    hide Progress, RecOk;
    if log == [] {
      ProgressStart(su);
      tr := Trace(su.m0, [], [], []);
    } else {
      var i := |log| - 1;
      var before := LogProgress(su, log[..i]);
      ProgressThen(su, i, before, log[i]);
      tr := Then(before, log[i]);
    }
  }

  /** The iterations of a finished loop amount to the plan; what follows a break is left alone. */
  lemma LogDone(su: Setup, log: seq<Rec>) returns (tr: Trace)
    requires SeedShape(su.seeds) && LogOk(su, log) && (Stopped(log) || |log| == |su.ps|)
    ensures |log| <= |su.ps| && Done(su, tr)
    ensures tr.od == PutOut(log) + su.ps[|log|..] && tr.m == ModeAfter(su, log)
  {
    if Stopped(log) {
      var i := |log| - 1;
      var r := log[i];
      var before := LogProgress(su, log[..i]);
      tr := ProgressStop(su, i, before, r.e, r.m1, r.x, r.d);
    } else {
      tr := LogProgress(su, log);
      assert PutOut(log) + su.ps[|log|..] == PutOut(log);
    }
  }

  /** A draw for buffer `i`, which is to be padded in mode `m`, can panic. */
  predicate BadAt(su: Setup, i: nat, m: Mode)
    requires SeedShape(su.seeds) && i < |su.ps|
  {
    var e := PlanStep(su.t, su.complete, su.ps[i], i == |su.ps| - 1, m).0;
    e.Padded? && !GoodDraws(su.seeds, |su.ps[i]|, e.long)
  }

  /** The iteration at which the loop panics is one of the plan. */
  lemma LogPanics(su: Setup, log: seq<Rec>)
    requires SeedShape(su.seeds) && LogOk(su, log) && !Stopped(log) && |log| < |su.ps|
    requires BadAt(su, |log|, ModeAfter(su, log))
    ensures BadDraws(su.seeds, su.ps, PlanAt(su, 0, su.m0).0)
  {
    var i := |log|;
    var tr := LogProgress(su, log);
    PlanUnfolds(su, i, tr.m);
    assert PlanAt(su, 0, su.m0).0[i] == PlanAt(su, i, tr.m).0[0];
  }

  /** A write, once direct copy is in force if it was asked for: from `v` to `w1`, items `xs`, buffer contents `od`. */
  ghost predicate Emitted(v: WState, input: Input, t: Tls, seeds: seq<nat>, xs: seq<Item>, w1: WState, od: seq<bytes>) {
    && SeedShape(seeds) && !v.direct && ItemsOk(v, input, t, seeds, xs) && AllItemsFit(xs)
    && w1 == Post(v, input, t)
    && Concat(od) == Output(v, xs)
  }

  lemma PadAllDone(w: WState, ds: seq<bytes>, su: Setup, tr: Trace)
    requires w.isPadding && !w.direct && su.ps == Reshaped(ds) && su.complete == Complete(Concat(ds)) && su.id == w.uuid
    requires su.m0 == Mode(true, w.direct, su.t.tls) && Done(su, tr) && (su.ps == [] <==> ds == [])
    ensures Emitted(w, Buffers(ds), su.t, su.seeds, tr.xs,
                    WState(tr.m.isPadding, tr.m.direct, if ds == [] then w.uuid else [], w.raw), tr.od)
  {
  }

  lemma PassThrough(w: WState, input: Input, t: Tls, seeds: seq<nat>, ps: seq<bytes>)
    requires SeedShape(seeds) && !w.isPadding && !w.direct && Concat(ps) == InputBytes(input)
    ensures Emitted(w, input, t, seeds, Raws(ps), w, ps)
  {
    RawsBytes(ps);
    RawItems(Raws(ps));
    assert [] + ItemsBytes(Raws(ps)) == ItemsBytes(Raws(ps));
  }

  lemma DatasSnoc(out: seq<Buffer>, nb: Buffer)
    requires AllBuffersValid(out) && nb.Valid()
    ensures AllBuffersValid(out + [nb]) && Datas(out + [nb]) == Datas(out) + [nb.Data()]
  {
  }

  lemma DatasRest(out: seq<Buffer>, mb: seq<Buffer>, i: nat)
    requires AllBuffersValid(out) && AllBuffersValid(mb) && i <= |mb|
    ensures AllBuffersValid(out + mb[i..]) && Datas(out + mb[i..]) == Datas(out) + Datas(mb)[i..]
  {
  }

  /** The completeness test looks at the buffers before they are reshaped. */
  method Prepare(mb: seq<Buffer>, ghost ds: seq<bytes>) returns (isComplete: bool, mb2: seq<Buffer>)
    requires AllBuffersValid(mb) && Distinct(mb) && ds == Datas(mb)
    requires forall i :: 0 <= i < |ds| ==> |ds[i]| <= SIZE
    modifies mb
    ensures isComplete == Complete(Concat(ds)) && AllBuffersValid(mb2) && Datas(mb2) == Reshaped(ds)
    ensures forall i :: 0 <= i < |Reshaped(ds)| ==> |Reshaped(ds)[i]| <= SIZE - OVERHEAD
    ensures Reshaped(ds) == [] <==> ds == []
  {
    isComplete := IsCompleteRecord(mb);
    mb2 := ReshapeMultiBuffer(mb);
    ReshapeKeeps(ds);
  }

  /** A write cannot go through, or need not: the filter panics, or a draw of padding can. */
  predicate Stops(w: WState, t: Tls, seeds: seq<nat>, ws: seq<Option<View>>, input: Input)
    requires SeedShape(seeds) && AllValid(ws)
  {
    match FilterIfActive(t, ws)
    case None => true
    case Some(t1) => MayPanic(w, input, t1, seeds)
  }

  class VisionWriter {
    const trafficState: TrafficState
    const isUplink: bool
    const testseed: seq<nat>
    var writeOnceUserUUID: bytes
    var rawWriter: bool

    ghost predicate Valid()
      reads this
    {
      && trafficState.inbound != trafficState.outbound
      && SeedShape(testseed) && |writeOnceUserUUID| <= 16
    }

    function State(): WState
      reads this, trafficState.WriterLink(isUplink)
    {
      var l := trafficState.WriterLink(isUplink);
      WState(l.isPadding, l.writerDirectCopy, writeOnceUserUUID, rawWriter)
    }

    /** `NewVisionWriter`. */
    constructor (trafficState: TrafficState, isUplink: bool, testseed: seq<nat>)
      requires trafficState.inbound != trafficState.outbound && |trafficState.userUUID| <= 16
      requires SeedShape(EffectiveSeeds(testseed))
      ensures Valid() && this.trafficState == trafficState && this.isUplink == isUplink
      ensures writeOnceUserUUID == trafficState.userUUID && !rawWriter && this.testseed == EffectiveSeeds(testseed)
    {
      this.trafficState, this.isUplink := trafficState, isUplink;
      this.testseed := EffectiveSeeds(testseed);
      writeOnceUserUUID := trafficState.userUUID;
      rawWriter := false;
    }

    /** The decision taken in the body of the padding loop. */
    method Decide(d: bytes, last: bool, isComplete: bool, longPadding: bool)
      returns (command: byte, padLong: bool, long: bool, stop: bool)
      modifies trafficState.WriterLink(isUplink)`isPadding, trafficState.WriterLink(isUplink)`writerDirectCopy
      ensures var m := Mode(old(State()).isPadding, old(State()).direct, longPadding);
              PlanStep(trafficState.TlsState(), isComplete, d, last, m)
              == (Padded(command, padLong), Mode(State().isPadding, State().direct, long), stop)
    {
      var t := trafficState;
      var l := t.WriterLink(isUplink);
      command, padLong, long, stop := CONTINUE, longPadding, longPadding, false;
      if t.isTLS && |d| >= 6 && d[..3] == APPLICATION_DATA_START && isComplete {
        if t.enableXtls {
          l.writerDirectCopy := true;
        }
        if last {
          command := END;
          if t.enableXtls {
            command := DIRECT;
          }
        }
        padLong := true;
        l.isPadding := false;
        long := false;
      } else if !t.isTLS12orAbove && t.numberOfPacketToFilter <= 1 {
        l.isPadding := false;
        command := END;
        stop := true;
      } else if last && !l.isPadding {
        command := END;
        if t.enableXtls {
          command := DIRECT;
        }
      }
    }

    /** The body of the padding loop. `ok` is false when `XtlsPadding` panics. */
    method PadOne(b: Buffer, last: bool, isComplete: bool, longPadding: bool)
      returns (ok: bool, nb: Buffer, long: bool, stop: bool, ghost item: Item)
      requires Valid() && b.Valid() && b.Len() <= SIZE - OVERHEAD
      modifies this`writeOnceUserUUID, trafficState.WriterLink(isUplink)`isPadding
      modifies trafficState.WriterLink(isUplink)`writerDirectCopy
      ensures Valid() && writeOnceUserUUID == []
      ensures !ok ==>
              var m := Mode(old(State()).isPadding, old(State()).direct, longPadding);
              var (e, _, _) := PlanStep(trafficState.TlsState(), isComplete, b.Data(), last, m);
              e.Padded? && !GoodDraws(testseed, b.Len(), e.long)
      ensures ok ==>
              var m := Mode(old(State()).isPadding, old(State()).direct, longPadding);
              var (e, m1, s) := PlanStep(trafficState.TlsState(), isComplete, b.Data(), last, m);
              Realizes(e, b.Data(), testseed, item) && m1 == Mode(State().isPadding, State().direct, long) && s == stop
      ensures fresh(nb) && nb.Valid() && item.Framed?
      ensures ok ==> ItemFits(item) && nb.Data() == old(writeOnceUserUUID) + ItemBytes(item)
    {
      var command, padLong;
      command, padLong, long, stop := Decide(b.Data(), last, isComplete, longPadding);
      ghost var blk;
      var padded, framed, block, _ := XtlsPadding(b, command, writeOnceUserUUID, padLong, testseed);
      ok, nb, blk := padded, framed, block;
      writeOnceUserUUID := [];
      item := Framed(blk);
    }

    /** `i` buffers have been padded. */
    ghost predicate LoopInv(su: Setup, log: seq<Rec>, mb: seq<Buffer>, out: seq<Buffer>, i: nat, long: bool)
      reads this, trafficState, trafficState.WriterLink(isUplink), mb, out
    {
      && Valid() && su.seeds == testseed && su.t == trafficState.TlsState()
      && AllBuffersValid(mb) && Datas(mb) == su.ps
      && AllBuffersValid(out) && Datas(out) == PutOut(log)
      && writeOnceUserUUID == (if i == 0 then su.id else [])
      && |log| == i && LogOk(su, log)
      && ModeAfter(su, log) == Mode(State().isPadding, State().direct, long)
    }

    /** One iteration. */
    method PadNext(mb: seq<Buffer>, out: seq<Buffer>, i: nat, isComplete: bool, longPadding: bool,
                   ghost su: Setup, ghost log: seq<Rec>)
      returns (ok: bool, out1: seq<Buffer>, long: bool, stop: bool, ghost log1: seq<Rec>)
      requires LoopInv(su, log, mb, out, i, longPadding) && !Stopped(log) && i < |mb|
      requires su.complete == isComplete && |su.ps[i]| <= SIZE - OVERHEAD
      modifies this`writeOnceUserUUID, trafficState.WriterLink(isUplink)`isPadding
      modifies trafficState.WriterLink(isUplink)`writerDirectCopy
      ensures Valid() && (!ok ==> log1 == log && BadAt(su, i, ModeAfter(su, log)))
      ensures ok ==> LoopInv(su, log1, mb, out1, i + 1, long) && Stopped(log1) == stop
    {
      var nb;
      ghost var item;
      hide ItemFits, Fits, LogOk, PutOut, PlanStep, GoodDraws, Realizes, ItemBytes, Datas, ModeAfter, Stopped;
      ghost var m := ModeAfter(su, log);
      ok, nb, long, stop, item := PadOne(mb[i], i == |mb| - 1, isComplete, longPadding);
      out1, log1 := out, log;
      if !ok {
        return;
      }
      assert AllBuffersValid(out) && Datas(out) == PutOut(log) && AllBuffersValid(mb) && Datas(mb) == su.ps;
      ghost var (e, m1, _) := PlanStep(su.t, su.complete, su.ps[i], i == |su.ps| - 1, m);
      ghost var r := Rec(m, e, m1, stop, item, nb.Data());
      LogSnoc(su, log, r);
      DatasSnoc(out, nb);
      out1, log1 := out + [nb], log + [r];
      assert AllBuffersValid(out1) && Datas(out1) == PutOut(log1);
    }

    /** The padding loop. */
    method PadBuffers(mb: seq<Buffer>, isComplete: bool, ghost su: Setup)
      returns (ok: bool, out: seq<Buffer>, ghost log: seq<Rec>)
      requires LoopInv(su, [], mb, [], 0, su.t.tls) && su.complete == isComplete
      requires forall i :: 0 <= i < |su.ps| ==> |su.ps[i]| <= SIZE - OVERHEAD
      modifies this`writeOnceUserUUID, trafficState.WriterLink(isUplink)`isPadding
      modifies trafficState.WriterLink(isUplink)`writerDirectCopy
      ensures Valid() && trafficState.TlsState() == su.t
      ensures !ok ==> LogOk(su, log) && !Stopped(log) && |log| < |su.ps| && BadAt(su, |log|, ModeAfter(su, log))
      ensures ok ==> AllBuffersValid(out) && LogOk(su, log) && |log| <= |su.ps| && (Stopped(log) || |log| == |su.ps|)
      ensures ok ==> Datas(out) == PutOut(log) + su.ps[|log|..]
      ensures ok ==> State() == WState(ModeAfter(su, log).isPadding, ModeAfter(su, log).direct,
                                if su.ps == [] then su.id else [], old(rawWriter))
    {
      var longPadding := trafficState.isTLS;
      ok, out, log := true, [], [];
      var i, stop := 0, false;
      while i < |mb| && !stop
        invariant 0 <= i <= |mb| && |log| == i && stop == Stopped(log)
        invariant LoopInv(su, log, mb, out, i, longPadding)
        invariant ok && (i == 0 ==> !stop)
      {
        ok, out, longPadding, stop, log := PadNext(mb, out, i, isComplete, longPadding, su, log);
        if !ok {
          return;
        }
        i := i + 1;
      }
      DatasRest(out, mb, i);
      out := out + mb[i..];
    }

    /** Padding on: test for whole records, reshape, pad. */
    method PadAll(mb: seq<Buffer>, ghost ds: seq<bytes>) returns (ok: bool, out: seq<Buffer>, ghost items: seq<Item>)
      requires Valid() && AllBuffersValid(mb) && Distinct(mb) && ds == Datas(mb)
      requires forall i :: 0 <= i < |ds| ==> |ds[i]| <= SIZE
      requires State().isPadding && !State().direct
      modifies mb, this`writeOnceUserUUID, trafficState.WriterLink(isUplink)`isPadding
      modifies trafficState.WriterLink(isUplink)`writerDirectCopy
      ensures Valid() && trafficState.TlsState() == old(trafficState.TlsState())
      ensures !ok ==>
        BadDraws(testseed, Pieces(Buffers(ds)), PlanOf(old(State()), Buffers(ds), trafficState.TlsState()).0)
      ensures ok ==> AllBuffersValid(out)
      ensures ok ==> Emitted(old(State()), Buffers(ds), trafficState.TlsState(), testseed, items, State(), Datas(out))
    {
      hide Emitted, Done, BadDraws, BadAt;
      ghost var w := State();
      var isComplete, mb2 := Prepare(mb, ds);
      ghost var m0 := Mode(w.isPadding, w.direct, trafficState.isTLS);
      ghost var su := Setup(trafficState.TlsState(), isComplete, Datas(mb2), testseed, m0, w.uuid);
      assert LogOk(su, []) && PutOut([]) == [] && Datas([]) == [];
      ghost var log;
      items := [];
      ok, out, log := PadBuffers(mb2, isComplete, su);
      if !ok {
        LogPanics(su, log);
        return;
      }
      ghost var tr := LogDone(su, log);
      items := tr.xs;
      assert Datas(out) == tr.od && trafficState.TlsState() == su.t;
      assert State() == WState(tr.m.isPadding, tr.m.direct, if ds == [] then w.uuid else [], w.raw);
      PadAllDone(w, ds, su, tr);
    }

    /** The nil buffer in padding mode: a long padding block without content. */
    method PadNil() returns (ok: bool, out: seq<Buffer>, ghost items: seq<Item>)
      requires Valid() && State().isPadding && !State().direct
      modifies this`writeOnceUserUUID
      ensures Valid() && AllBuffersValid(out) && (!ok ==> !GoodDraws(testseed, 0, true))
      ensures ok ==> Emitted(old(State()), NilBuffer, trafficState.TlsState(), testseed, items, State(), Datas(out))
    {
      var nb;
      ghost var blk;
      var padded, framed, block, _ := XtlsPadding(null, CONTINUE, writeOnceUserUUID, true, testseed);
      ok, nb, blk := padded, framed, block;
      writeOnceUserUUID := [];
      out, items := [nb], [Framed(blk)];
      if !ok {
        return;
      }
      assert items[1..] == [] && ItemsBytes(items) == Frame(blk) + [];
      assert Datas(out) == [nb.Data()];
      ConcatOne(nb.Data());
    }

    /** The rest of a write. */
    method Emit(mb: seq<Buffer?>, ghost input: Input) returns (ok: bool, out: seq<Buffer>, ghost items: seq<Item>)
      requires Valid() && !State().direct
      requires mb == [null] || (forall i :: 0 <= i < |mb| ==> mb[i] != null && mb[i].Valid() && mb[i].Len() <= SIZE)
      requires Distinct(mb) && input == if mb == [null] then NilBuffer else Buffers(Datas(mb))
      modifies this`writeOnceUserUUID, mb
      modifies trafficState.WriterLink(isUplink)`isPadding, trafficState.WriterLink(isUplink)`writerDirectCopy
      ensures Valid() && trafficState.TlsState() == old(trafficState.TlsState())
      ensures !ok ==>
        && old(State()).isPadding
        && BadDraws(testseed, Pieces(input), PlanOf(old(State()), input, trafficState.TlsState()).0)
      ensures ok ==> AllBuffersValid(out)
      ensures ok ==> Emitted(old(State()), input, trafficState.TlsState(), testseed, items, State(), Datas(out))
    {
      ok := true;
      if mb == [null] {
        if State().isPadding {
          ok, out, items := PadNil();
          if !ok {
            NilPanics(old(State()), trafficState.TlsState(), testseed);
          }
        } else {
          out, items := [], [];
          PassThrough(State(), input, trafficState.TlsState(), testseed, []);
          assert Raws([]) == [] && Datas(out) == [];
        }
      } else {
        var bs: seq<Buffer> := mb;
        assert bs == mb && input.ps == Datas(bs);
        if State().isPadding {
          ok, out, items := PadAll(bs, input.ps);
        } else {
          out, items := bs, Raws(input.ps);
          PassThrough(State(), input, trafficState.TlsState(), testseed, input.ps);
        }
      }
    }

    /** The end of a switch to direct copy. */
    method Switch()
      modifies this`rawWriter, trafficState.WriterLink(isUplink)`writerDirectCopy
      ensures State() == Switched(old(State())) && rawWriter == (old(rawWriter) || old(State()).direct)
    {
      if trafficState.WriterLink(isUplink).writerDirectCopy {
        rawWriter := true;
        trafficState.WriterLink(isUplink).writerDirectCopy := false;
      }
    }

    /**
     * `WriteMultiBuffer`. `ok` is false only when the filter panics, or when a draw of padding for one of its pieces
     * can. Otherwise the write is one that the run model allows: the new state is `Post`, and the buffers put out
     * spell user id and items.
     */
    method WriteMultiBuffer(mb: seq<Buffer?>, ghost ws: seq<Option<View>>, ghost input: Input)
      returns (ok: bool, out: seq<Buffer>, ghost items: seq<Item>)
      requires Valid()
      requires mb == [null] || (forall i :: 0 <= i < |mb| ==> mb[i] != null && mb[i].Valid() && mb[i].Len() <= SIZE)
      requires Distinct(mb) && ws == Views(mb)
      requires input == if mb == [null] then NilBuffer else Buffers(Datas(mb))
      modifies this`writeOnceUserUUID, this`rawWriter, trafficState, mb
      modifies trafficState.WriterLink(isUplink)`isPadding, trafficState.WriterLink(isUplink)`writerDirectCopy
      ensures ok ==> FilterIfActive(old(trafficState.TlsState()), ws) == Some(trafficState.TlsState())
      ensures !ok ==> Stops(old(State()), old(trafficState.TlsState()), testseed, ws, input)
      ensures !ok && SafeSeeds(testseed) ==> FilterIfActive(old(trafficState.TlsState()), ws) == None
      ensures ok ==>
                && Valid() && AllBuffersValid(out)
                && Emitted(Switched(old(State())), input, trafficState.TlsState(), testseed, items, State(), Datas(out))
      ensures ok && old(State()).isPadding && input.Buffers? && SeesTls12(trafficState.TlsState()) ==>
                PaddingAfter(input.ps, trafficState.TlsState(), State())
    {
      hide PaddingAfter, SeesTls12, Emitted, Filter, BadDraws, PlanOf;
      out, items := [], [];
      ghost var w := State();
      Switch();
      ok := FilterWhileActive(mb, trafficState, ws);
      if ok {
        assert State() == Switched(w);
        ok, out, items := Emit(mb, input);
        if ok {
          EmittedEnds(w, input, trafficState.TlsState(), testseed, items, State(), Datas(out));
        }
        if !ok && SafeSeeds(testseed) {
          SafeNeverPanics(w, input, trafficState.TlsState(), testseed);
        }
      }
    }
  }

  /** XTLS is enabled only for TLS 1.2 or above, as in every state that a connection reaches. */
  predicate SeesTls12(t: Tls) {
    t.enableXtls ==> t.tls12OrAbove
  }

  lemma EmittedEnds(w: WState, input: Input, t: Tls, seeds: seq<nat>, xs: seq<Item>, w1: WState, od: seq<bytes>)
    requires Emitted(Switched(w), input, t, seeds, xs, w1, od) && InputFits(input)
    ensures w.isPadding && input.Buffers? && SeesTls12(t) ==> PaddingAfter(input.ps, t, w1)
  {
    EmittedIsEvent(w, input, t, seeds, xs, w1, od);
    if w.isPadding && input.Buffers? && SeesTls12(t) {
      PaddingEnds(w, input.ps, t);
    }
  }

  /** What the contract of a write says in terms of the run model. */
  lemma EmittedIsEvent(w: WState, input: Input, t: Tls, seeds: seq<nat>, xs: seq<Item>, w1: WState, od: seq<bytes>)
    requires Emitted(Switched(w), input, t, seeds, xs, w1, od)
    ensures ItemsOk(w, input, t, seeds, xs) && w1 == Post(w, input, t) && Concat(od) == Output(Switched(w), xs)
  {
  }
}
