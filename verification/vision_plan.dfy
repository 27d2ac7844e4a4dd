/** The padding decision of `VisionWriter.WriteMultiBuffer`, and the block streams it leads to. */
module VisionPlan {
  import opened Bytes
  import opened VisionFrame
  import opened VisionState
  import opened VisionBlocks

  /** What happens to one buffer: it is padded with a command, or left alone after an early end. */
  datatype Emit = Padded(command: byte, long: bool) | Plain

  /** The variables of the padding loop. */
  datatype Mode = Mode(isPadding: bool, direct: bool, long: bool)

  predicate AppData(t: Tls, complete: bool, p: bytes) {
    t.tls && |p| >= 6 && p[..3] == APPLICATION_DATA_START && complete
  }

  /** For earlier receivers padding ends one packet early when no TLS 1.2 or later has been seen. */
  predicate EarlyEnd(t: Tls) {
    !t.tls12OrAbove && t.packetsToFilter <= 1
  }

  function FinalCommand(t: Tls): byte {
    if t.enableXtls then DIRECT else END
  }

  /** The body of the padding loop: what happens to the buffer, the variables after it, and whether the loop breaks. */
  function PlanStep(t: Tls, complete: bool, p: bytes, last: bool, m: Mode): (Emit, Mode, bool) {
    if AppData(t, complete, p) then
      (Padded(if last then FinalCommand(t) else CONTINUE, true), Mode(false, m.direct || t.enableXtls, false), false)
    else if EarlyEnd(t) then (Padded(END, m.long), m.(isPadding := false), true)
    else (Padded(if last && !m.isPadding then FinalCommand(t) else CONTINUE, m.long), m, false)
  }

  /** The padding loop from buffer `i` on. */
  function PlanFrom(t: Tls, complete: bool, ps: seq<bytes>, i: nat, m: Mode): (r: (seq<Emit>, Mode))
    requires i <= |ps|
    ensures |r.0| == |ps| - i
    decreases |ps| - i
  {
    if i == |ps| then ([], m)
    else
      var (e, m1, stop) := PlanStep(t, complete, ps[i], i == |ps| - 1, m);
      if stop then ([e] + Repeat(Plain, |ps| - i - 1), m1)
      else
        var (es, m2) := PlanFrom(t, complete, ps, i + 1, m1);
        ([e] + es, m2)
  }

  /** One buffer on the wire. */
  datatype Item = Framed(b: Block) | Raw(data: bytes)

  predicate ItemFits(x: Item) {
    x.Framed? ==> Fits(x.b)
  }

  function ItemBytes(x: Item): bytes
    requires ItemFits(x)
  {
    match x case Framed(b) => Frame(b) case Raw(d) => d
  }

  function ItemPayload(x: Item): bytes {
    match x case Framed(b) => b.content case Raw(d) => d
  }

  /** `x` carries `p` as `e` says, with a padding length that some draw gives. */
  predicate Realizes(e: Emit, p: bytes, seeds: seq<nat>, x: Item)
    requires SeedShape(seeds)
  {
    match e
    case Plain => x == Raw(p)
    case Padded(command, long) =>
      x.Framed? && Fits(x.b) && x.b.command == command && x.b.content == p &&
      PaddingChoice(seeds, |p|, long, x.b.padding)
  }

  predicate AllRealize(es: seq<Emit>, ps: seq<bytes>, seeds: seq<nat>, xs: seq<Item>)
    requires SeedShape(seeds)
  {
    |es| == |ps| == |xs| && forall i :: 0 <= i < |es| ==> Realizes(es[i], ps[i], seeds, xs[i])
  }

  predicate AllItemsFit(xs: seq<Item>) {
    forall i :: 0 <= i < |xs| ==> ItemFits(xs[i])
  }

  function ItemsBytes(xs: seq<Item>): bytes
    requires AllItemsFit(xs)
  {
    if xs == [] then [] else ItemBytes(xs[0]) + ItemsBytes(xs[1..])
  }

  function ItemsPayload(xs: seq<Item>): bytes {
    if xs == [] then [] else ItemPayload(xs[0]) + ItemsPayload(xs[1..])
  }

  lemma {:induction false} RealizedPayload(es: seq<Emit>, ps: seq<bytes>, seeds: seq<nat>, xs: seq<Item>)
    requires SeedShape(seeds) && AllRealize(es, ps, seeds, xs)
    ensures AllItemsFit(xs) && ItemsPayload(xs) == Concat(ps)
  {
    if es != [] {
      RealizedPayload(es[1..], ps[1..], seeds, xs[1..]);
      assert Realizes(es[0], ps[0], seeds, xs[0]);
      assert forall i :: 0 < i < |xs| ==> xs[i] == xs[1..][i - 1];
    }
  }

  lemma {:induction false} RawItems(xs: seq<Item>)
    requires forall i :: 0 <= i < |xs| ==> xs[i].Raw?
    ensures AllItemsFit(xs) && ItemsBytes(xs) == ItemsPayload(xs)
  {
    if xs != [] {
      RawItems(xs[1..]);
    }
  }

  /** Either padding is still on, or the loop has met application data and knows whether to go direct. */
  predicate ModeOk(t: Tls, m: Mode) {
    if m.isPadding then !m.direct else m.direct == t.enableXtls
  }

  /** The items of a padding loop split into a grammatical block stream and what is left unpadded. */
  ghost predicate Splits(xs: seq<Item>, bs: seq<Block>, tail: bytes) {
    && AllItemsFit(xs) && BlockGrammar(bs)
    && ItemsBytes(xs) == Frames(bs) + tail
    && ItemsPayload(xs) == Contents(bs) + tail
    && (tail != [] ==> EndsWith(bs, END))
  }

  lemma SplitsCons(x: Item, xs: seq<Item>, b: Block, bs: seq<Block>, tail: bytes)
    requires x == Framed(b) && b.command == CONTINUE && Fits(b) && Splits(xs, bs, tail)
    ensures Splits([x] + xs, [b] + bs, tail)
    ensures Terminated([b] + bs) <==> Terminated(bs)
    ensures bs != [] ==> forall c :: EndsWith([b] + bs, c) <==> EndsWith(bs, c)
  {
    assert ([x] + xs)[0] == x && ([x] + xs)[1..] == xs;
    assert ([b] + bs)[0] == b && ([b] + bs)[1..] == bs;
    Assoc(Frame(b), Frames(bs), tail);
    Assoc(b.content, Contents(bs), tail);
  }

  lemma {:induction false} SplitsLast(x: Item, xs: seq<Item>, b: Block)
    requires x == Framed(b) && b.command in [CONTINUE, END, DIRECT] && Fits(b)
    requires forall i :: 0 <= i < |xs| ==> xs[i].Raw?
    requires xs != [] ==> b.command == END
    ensures AllItemsFit(xs) && Splits([x] + xs, [b], ItemsBytes(xs)) && EndsWith([b], b.command)
  {
    RawItems(xs);
  }

  /**
   * The padding loop, whatever it is given: Continue blocks and then, exactly if padding ends in this
   * write, one End or Direct. Direct sets the direct-copy flag, and nothing follows a Direct block.
   * It needs the filter invariant that XTLS is enabled only for TLS 1.2 or above.
   */
  lemma {:induction false} PlanSplits(t: Tls, complete: bool, ps: seq<bytes>, seeds: seq<nat>, i: nat, m: Mode,
                                      xs: seq<Item>)
    returns (bs: seq<Block>, tail: bytes)
    requires i < |ps| && (t.enableXtls ==> t.tls12OrAbove) && ModeOk(t, m)
    requires SeedShape(seeds) && AllRealize(PlanFrom(t, complete, ps, i, m).0, ps[i..], seeds, xs)
    ensures var m2 := PlanFrom(t, complete, ps, i, m).1;
            && Splits(xs, bs, tail) && bs != []
            && (Terminated(bs) <==> !m2.isPadding)
            && (EndsWith(bs, DIRECT) <==> m2.direct)
    decreases |ps| - i
  {
    var (es, m2) := PlanFrom(t, complete, ps, i, m);
    var x := xs[0];
    assert Realizes(es[0], ps[i..][0], seeds, x);
    assert xs == [x] + xs[1..];
    var (e, m1, stop) := PlanStep(t, complete, ps[i], i == |ps| - 1, m);
    if i == |ps| - 1 || stop {
      forall k | 0 <= k < |xs[1..]|
        ensures xs[1..][k].Raw?
      {
        assert Realizes(es[k + 1], ps[i..][k + 1], seeds, xs[k + 1]);
      }
      SplitsLast(x, xs[1..], x.b);
      bs, tail := [x.b], ItemsBytes(xs[1..]);
    } else {
      forall k | 0 <= k < |xs[1..]|
        ensures Realizes(PlanFrom(t, complete, ps, i + 1, m1).0[k], ps[i + 1..][k], seeds, xs[1..][k])
      {
        assert Realizes(es[k + 1], ps[i..][k + 1], seeds, xs[k + 1]);
      }
      var bs1;
      bs1, tail := PlanSplits(t, complete, ps, seeds, i + 1, m1, xs[1..]);
      SplitsCons(x, xs[1..], x.b, bs1, tail);
      bs := [x.b] + bs1;
    }
  }
}
