/** Whole runs of `VisionWriter.WriteMultiBuffer`, on values. */
module VisionRuns {
  import opened Bytes
  import opened Buf
  import opened VisionFrame
  import opened VisionState
  import opened VisionRecords
  import opened VisionBlocks
  import opened VisionPlan

  /**
   * What a write depends on besides its input: padding on or off, direct copy requested but not yet
   * in force, the user id still owed, and whether the underlying writer is already the raw connection.
   */
  datatype WState = WState(isPadding: bool, direct: bool, uuid: bytes, raw: bool)

  /** The input of a write: the lone nil buffer that asks for a long padding, or buffers. */
  datatype Input = NilBuffer | Buffers(ps: seq<bytes>)

  function InputBytes(input: Input): bytes {
    match input case NilBuffer => [] case Buffers(ps) => Concat(ps)
  }

  /** A pending request for direct copy takes effect at the next write. */
  function Switched(w: WState): WState {
    if w.direct then w.(direct := false, raw := true) else w
  }

  /** The pieces a write pads. */
  function Pieces(input: Input): seq<bytes> {
    match input case NilBuffer => [[]] case Buffers(ps) => Reshaped(ps)
  }

  function PlanOf(w: WState, input: Input, t: Tls): (r: (seq<Emit>, Mode))
    ensures |r.0| == |Pieces(input)|
  {
    match input
    case NilBuffer => ([Padded(CONTINUE, true)], Mode(true, w.direct, true))
    case Buffers(ps) => PlanFrom(t, Complete(Concat(ps)), Reshaped(ps), 0, Mode(true, w.direct, t.tls))
  }

  /** Some draw of padding for a piece that is to be padded is impossible or goes below zero. */
  predicate BadDraws(seeds: seq<nat>, ps: seq<bytes>, es: seq<Emit>)
    requires SeedShape(seeds) && |ps| == |es|
  {
    exists i :: 0 <= i < |ps| && es[i].Padded? && !GoodDraws(seeds, |ps[i]|, es[i].long)
  }

  lemma NilPanics(w: WState, t: Tls, seeds: seq<nat>)
    requires SeedShape(seeds) && !GoodDraws(seeds, 0, true)
    ensures BadDraws(seeds, Pieces(NilBuffer), PlanOf(w, NilBuffer, t).0)
  {
    var ps, es := Pieces(NilBuffer), PlanOf(w, NilBuffer, t).0;
    assert |ps[0]| == 0 && es[0] == Padded(CONTINUE, true);
  }

  /** Padding can panic in a write, once the filter has left `t`. */
  predicate MayPanic(w: WState, input: Input, t: Tls, seeds: seq<nat>)
    requires SeedShape(seeds)
  {
    Switched(w).isPadding && BadDraws(seeds, Pieces(input), PlanOf(Switched(w), input, t).0)
  }

  lemma SafeNeverPanics(w: WState, input: Input, t: Tls, seeds: seq<nat>)
    requires SeedShape(seeds) && SafeSeeds(seeds) && InputFits(input)
    ensures !MayPanic(w, input, t, seeds)
  {
    var ps, es := Pieces(input), PlanOf(Switched(w), input, t).0;
    if input.Buffers? {
      ReshapeKeeps(input.ps);
    }
    forall i | 0 <= i < |ps| && es[i].Padded?
      ensures GoodDraws(seeds, |ps[i]|, es[i].long)
    {
      SafeSeedsSuffice(seeds, |ps[i]|, es[i].long);
    }
  }

  /** The state after a write, which the random padding does not influence. */
  function Post(w: WState, input: Input, t: Tls): WState {
    var v := Switched(w);
    if !v.isPadding then v
    else
      var m := PlanOf(v, input, t).1;
      v.(isPadding := m.isPadding, direct := m.direct, uuid := if Pieces(input) == [] then v.uuid else [])
  }

  /** The items that a write may put out. */
  ghost predicate ItemsOk(w: WState, input: Input, t: Tls, seeds: seq<nat>, xs: seq<Item>)
    requires SeedShape(seeds)
  {
    if Switched(w).isPadding then AllRealize(PlanOf(Switched(w), input, t).0, Pieces(input), seeds, xs)
    else AllItemsFit(xs) && (forall i :: 0 <= i < |xs| ==> xs[i].Raw?) && ItemsPayload(xs) == InputBytes(input)
  }

  /** The bytes of a write: the user id that is still owed goes before the first block. */
  function Output(w: WState, xs: seq<Item>): bytes
    requires AllItemsFit(xs)
  {
    (if xs != [] && xs[0].Framed? then w.uuid else []) + ItemsBytes(xs)
  }

  // ----- runs -----

  /** A write, the filter state it sees after its own filtering, and what it puts out. */
  datatype Event = Event(input: Input, tls: Tls, items: seq<Item>)

  predicate InputFits(input: Input) {
    input.Buffers? ==> forall i :: 0 <= i < |input.ps| ==> |input.ps[i]| <= SIZE
  }

  /** Any run of writes. The filter state may change freely between writes, within its invariant. */
  ghost predicate Run(w: WState, seeds: seq<nat>, es: seq<Event>)
    requires SeedShape(seeds)
    decreases es
  {
    es != [] ==>
      && InputFits(es[0].input) && (es[0].tls.enableXtls ==> es[0].tls.tls12OrAbove)
      && ItemsOk(w, es[0].input, es[0].tls, seeds, es[0].items)
      && AllItemsFit(es[0].items)
      && Run(Post(w, es[0].input, es[0].tls), seeds, es[1..])
  }

  function Final(w: WState, es: seq<Event>): WState
    decreases es
  {
    if es == [] then w else Final(Post(w, es[0].input, es[0].tls), es[1..])
  }

  function Payload(es: seq<Event>): bytes {
    if es == [] then [] else InputBytes(es[0].input) + Payload(es[1..])
  }

  predicate EventsFit(es: seq<Event>) {
    forall i :: 0 <= i < |es| ==> AllItemsFit(es[i].items)
  }

  /** The bytes handed to the connection the writer started with (`raw` false) or to the raw one under it. */
  function Sent(w: WState, es: seq<Event>, raw: bool): bytes
    requires EventsFit(es)
    decreases es
  {
    if es == [] then []
    else (if Switched(w).raw == raw then Output(Switched(w), es[0].items) else [])
         + Sent(Post(w, es[0].input, es[0].tls), es[1..], raw)
  }

  lemma PiecesKeep(input: Input)
    requires InputFits(input)
    ensures Concat(Pieces(input)) == InputBytes(input)
  {
    if input.Buffers? {
      ReshapeKeeps(input.ps);
    } else {
      ConcatOne<byte>([]);
    }
  }

  /** Once padding is over, writes pass through, on the raw connection if direct copy was asked for. */
  lemma {:induction false} AfterPadding(w: WState, seeds: seq<nat>, es: seq<Event>)
    requires SeedShape(seeds) && !w.isPadding && Run(w, seeds, es)
    ensures EventsFit(es)
    ensures Sent(w, es, w.raw || w.direct) == Payload(es) && Sent(w, es, !(w.raw || w.direct)) == []
    ensures Final(w, es).isPadding == false
    decreases es
  {
    if es != [] {
      var v := Switched(w);
      AfterPadding(v, seeds, es[1..]);
      assert forall i :: 0 < i < |es| ==> es[i] == es[1..][i - 1];
      RawItems(es[0].items);
      assert Output(v, es[0].items) == InputBytes(es[0].input);
    }
  }

  /** The items of one write in padding mode. */
  lemma PaddedItems(w: WState, seeds: seq<nat>, e: Event) returns (bs: seq<Block>, tail: bytes)
    requires SeedShape(seeds) && w.isPadding && !w.direct && (e.tls.enableXtls ==> e.tls.tls12OrAbove)
    requires AllRealize(PlanOf(w, e.input, e.tls).0, Pieces(e.input), seeds, e.items)
    ensures var m := PlanOf(w, e.input, e.tls).1;
            && Splits(e.items, bs, tail) && (bs == [] <==> Pieces(e.input) == [])
            && (Terminated(bs) <==> !m.isPadding) && (EndsWith(bs, DIRECT) <==> m.direct)
  {
    var ps, es := Pieces(e.input), PlanOf(w, e.input, e.tls).0;
    if ps == [] {
      bs, tail := [], [];
    } else if e.input.NilBuffer? {
      assert Realizes(es[0], ps[0], seeds, e.items[0]);
      SplitsLast(e.items[0], [], e.items[0].b);
      assert e.items == [e.items[0]] + [];
      bs, tail := [e.items[0].b], ItemsBytes([]);
    } else {
      assert ps[0..] == ps;
      bs, tail := PlanSplits(e.tls, Complete(Concat(e.input.ps)), ps, seeds, 0, Mode(true, w.direct, e.tls.tls),
                             e.items);
    }
  }

  /** One write in padding mode. */
  lemma PaddedWrite(w: WState, seeds: seq<nat>, e: Event) returns (bs: seq<Block>, tail: bytes)
    requires SeedShape(seeds) && w.isPadding && !w.direct
    requires InputFits(e.input) && (e.tls.enableXtls ==> e.tls.tls12OrAbove)
    requires ItemsOk(w, e.input, e.tls, seeds, e.items)
    ensures var w1 := Post(w, e.input, e.tls);
            && Splits(e.items, bs, tail)
            && Contents(bs) + tail == InputBytes(e.input)
            && Output(w, e.items) == (if bs == [] then [] else w.uuid) + (Frames(bs) + tail)
            && w1.raw == w.raw && w1.uuid == (if bs == [] then w.uuid else [])
            && (Terminated(bs) <==> !w1.isPadding)
            && (EndsWith(bs, DIRECT) <==> w1.direct)
  {
    var ps, es := Pieces(e.input), PlanOf(w, e.input, e.tls).0;
    PiecesKeep(e.input);
    RealizedPayload(es, ps, seeds, e.items);
    bs, tail := PaddedItems(w, seeds, e);
    if ps != [] {
      assert Realizes(es[0], ps[0], seeds, e.items[0]);
    }
  }

  /**
   * The wire of a run. On the connection it starts with, the writer sends the user id once, before
   * the first block, and a block stream, after which only an End leaves unpadded bytes there; after
   * a Direct block everything else goes to the raw connection.
   */
  predicate OnWire(w: WState, es: seq<Event>, bs: seq<Block>, tail: bytes)
    requires EventsFit(es) && AllFit(bs)
  {
    var id := if bs == [] then [] else w.uuid;
    if EndsWith(bs, DIRECT) then Sent(w, es, false) == id + (Frames(bs) + []) && Sent(w, es, true) == tail
    else Sent(w, es, false) == id + (Frames(bs) + tail) && Sent(w, es, true) == []
  }

  /** The first write of a run. */
  lemma SentFirst(w: WState, es: seq<Event>)
    requires es != [] && EventsFit(es) && !w.direct && !w.raw
    ensures EventsFit(es[1..])
    ensures var w1 := Post(w, es[0].input, es[0].tls);
            && Sent(w, es, false) == Output(w, es[0].items) + Sent(w1, es[1..], false)
            && Sent(w, es, true) == Sent(w1, es[1..], true)
  {
    var w1 := Post(w, es[0].input, es[0].tls);
    assert [] + Sent(w1, es[1..], true) == Sent(w1, es[1..], true);
    assert forall i :: 0 < i < |es| ==> es[i] == es[1..][i - 1];
  }

  lemma JoinBytes(id: bytes, f0: bytes, f1: bytes, t: bytes)
    ensures (id + f0) + (f1 + t) == id + ((f0 + f1) + t)
  {
  }

  /** The write that leaves padding on, in front of the rest of the run. */
  lemma JoinRuns(w: WState, es: seq<Event>, b0: seq<Block>, b1: seq<Block>, tail: bytes)
    requires es != [] && EventsFit(es) && EventsFit(es[1..]) && !w.direct && !w.raw
    requires BlockGrammar(b0) && !Terminated(b0) && BlockGrammar(b1)
    requires Output(w, es[0].items) == (if b0 == [] then [] else w.uuid) + Frames(b0)
    requires var w1 := Post(w, es[0].input, es[0].tls);
             w1.uuid == (if b0 == [] then w.uuid else []) && OnWire(w1, es[1..], b1, tail)
    ensures BlockGrammar(b0 + b1) && (Terminated(b0 + b1) <==> Terminated(b1))
    ensures OnWire(w, es, b0 + b1, tail)
  {
    GrammarAppend(b0, b1);
    FramesAppend(b0, b1);
    SentFirst(w, es);
    var t := if EndsWith(b1, DIRECT) then [] else tail;
    if b0 == [] {
      assert b0 + b1 == b1;
      var rest := Sent(Post(w, es[0].input, es[0].tls), es[1..], false);
      assert ([] + []) + rest == rest;
    } else {
      assert [] + (Frames(b1) + t) == Frames(b1) + t;
      JoinBytes(w.uuid, Frames(b0), Frames(b1), t);
      if b1 == [] {
        assert b0 + b1 == b0;
      }
    }
  }

  /** The write that ends padding, in front of the rest of the run. */
  lemma {:induction false} EndRun(w: WState, es: seq<Event>, bs: seq<Block>, t0: bytes)
    requires es != [] && EventsFit(es) && EventsFit(es[1..]) && !w.direct && !w.raw
    requires Terminated(bs) && BlockGrammar(bs) && (t0 != [] ==> EndsWith(bs, END))
    requires Output(w, es[0].items) == w.uuid + (Frames(bs) + t0)
    requires var w1 := Post(w, es[0].input, es[0].tls);
             && (EndsWith(bs, DIRECT) <==> w1.direct)
             && Sent(w1, es[1..], w1.direct) == Payload(es[1..]) && Sent(w1, es[1..], !w1.direct) == []
    ensures OnWire(w, es, bs, t0 + Payload(es[1..]))
  {
    SentFirst(w, es);
    TailBytes(w.uuid, Frames(bs), t0, Payload(es[1..]));
    if EndsWith(bs, DIRECT) {
      NoTail(Output(w, es[0].items), Payload(es[1..]));
    }
  }

  lemma TailBytes(id: bytes, f: bytes, t: bytes, rest: bytes)
    ensures (id + (f + t)) + rest == id + (f + (t + rest))
  {
  }

  lemma NoTail(a: bytes, rest: bytes)
    ensures a + [] == a && [] + rest == rest
  {
  }

  /**
   * Every run of writes from the start is such a wire, carrying exactly the bytes written, and
   * padding is over exactly if a terminal block has been sent.
   */
  lemma {:induction false} WriterGrammar(w: WState, seeds: seq<nat>, es: seq<Event>)
    returns (bs: seq<Block>, tail: bytes)
    requires SeedShape(seeds) && w.isPadding && !w.direct && !w.raw && Run(w, seeds, es)
    ensures EventsFit(es) && BlockGrammar(bs) && (!Terminated(bs) ==> tail == [])
    ensures Contents(bs) + tail == Payload(es)
    ensures OnWire(w, es, bs, tail)
    ensures Final(w, es).isPadding <==> !Terminated(bs)
    decreases es
  {
    if es == [] {
      bs, tail := [], [];
    } else {
      var w1 := Post(w, es[0].input, es[0].tls);
      var b0, t0 := PaddedWrite(w, seeds, es[0]);
      if w1.isPadding {
        var b1;
        b1, tail := WriterGrammar(w1, seeds, es[1..]);
        FirstFits(es);
        bs := b0 + b1;
        assert Frames(b0) + [] == Frames(b0) && Contents(b0) + [] == Contents(b0);
        JoinRuns(w, es, b0, b1, tail);
        FramesAppend(b0, b1);
        Assoc(Contents(b0), Contents(b1), tail);
      } else {
        AfterPadding(w1, seeds, es[1..]);
        FirstFits(es);
        bs, tail := b0, t0 + Payload(es[1..]);
        EndRun(w, es, bs, t0);
        Assoc(Contents(bs), t0, Payload(es[1..]));
      }
    }
  }

  lemma FirstFits(es: seq<Event>)
    requires es != [] && AllItemsFit(es[0].items) && EventsFit(es[1..])
    ensures EventsFit(es)
  {
    assert forall i :: 0 < i < |es| ==> es[i] == es[1..][i - 1];
  }
}
