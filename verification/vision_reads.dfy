/** `VisionReader.ReadMultiBuffer` on values: when the reader believes that padding is over. */
module VisionReads {
  import opened Bytes
  import opened VisionFrame
  import opened VisionState
  import opened VisionUnpadding
  import opened VisionBlocks

  /** The reader: parser counters, still in padding mode, direct copy in force. */
  datatype RState = RState(c: Counters, within: bool, direct: bool)

  const NEW_READER: RState := RState(Counters(-1, -1, -1, 0), true, false)

  /** A read: whether the packet filter is still active, and the buffers that arrived. */
  datatype Read = Read(filtering: bool, chunks: seq<bytes>)

  /** The test that keeps the reader in padding mode. */
  predicate Stays(c: Counters) {
    c.content > 0 || c.padding > 0 || c.current == 0
  }

  /** The mode after the buffers of a read have been unpadded. */
  function Decided(r: RState, c: Counters): RState {
    if Stays(c) then RState(c, true, r.direct)
    else if c.current == 1 then RState(c, false, r.direct)
    else if c.current == 2 then RState(c, false, true)
    else RState(c, r.within, r.direct)
  }

  /** One read, and the bytes it hands on. */
  function ReadStep(r: RState, uuid: bytes, read: Read): (x: (RState, bytes))
    requires Inv(r.c)
    ensures Inv(x.0.c)
  {
    var all := Concat(read.chunks);
    if all == [] || r.direct || !(r.within || read.filtering) then (r, all)
    else
      var (c, out) := Unpads(r.c, uuid, read.chunks);
      (Decided(r, c), out)
  }

  function ReadAll(r: RState, uuid: bytes, rs: seq<Read>): (x: (RState, bytes))
    requires Inv(r.c)
    ensures Inv(x.0.c)
    decreases rs
  {
    if rs == [] then (r, [])
    else
      var (r1, out) := ReadStep(r, uuid, rs[0]);
      var (r2, rest) := ReadAll(r1, uuid, rs[1..]);
      (r2, out + rest)
  }

  lemma {:induction false} ReadAllCons(r: RState, uuid: bytes, rs: seq<Read>)
    requires Inv(r.c) && rs != []
    ensures var (r1, out) := ReadStep(r, uuid, rs[0]);
            ReadAll(r, uuid, rs) == (ReadAll(r1, uuid, rs[1..]).0, out + ReadAll(r1, uuid, rs[1..]).1)
  {
  }

  function AllChunks(rs: seq<Read>): seq<bytes> {
    if rs == [] then [] else rs[0].chunks + AllChunks(rs[1..])
  }

  // ----- where the reader can be fooled -----

  /**
   * Offset `n` falls inside the header of the terminal block, behind its command byte, and the
   * length bytes seen so far are all zero.
   */
  predicate EarlyCut(bs: seq<Block>, n: nat)
    requires AllFit(bs)
  {
    Terminated(bs) &&
    var last := bs[|bs| - 1];
    var k := n - (|Frames(bs)| - |Frame(last)|);
    1 <= k <= 4 && forall j :: 1 <= j < k ==> Header(last)[j] == 0
  }

  lemma {:induction false} FramesUpTo(bs: seq<Block>, i: nat)
    requires AllFit(bs) && i < |bs|
    ensures |Frames(bs[..i])| + |Frame(bs[i])| <= |Frames(bs)|
    ensures i == |bs| - 1 ==> |Frames(bs[..i])| + |Frame(bs[i])| == |Frames(bs)|
    ensures i < |bs| - 1 ==> |Frames(bs[..i])| + |Frame(bs[i])| <= |Frames(bs)| - |Frame(bs[|bs| - 1])|
    decreases |bs|
  {
    var n := |bs| - 1;
    FramesAppend(bs[..n], [bs[n]]);
    assert bs == bs[..n] + [bs[n]];
    FramesFirst([bs[n]]);
    if i < n {
      FramesUpTo(bs[..n], i);
      assert bs[..n][..i] == bs[..i];
    }
  }

  /** In the header of a terminal block the reader leaves padding mode exactly if the lengths look like zero. */
  lemma HeaderLooksDone(c: Counters, b: Block, k: nat)
    requires AtHeader(c) && Fits(b) && b.command in [END, DIRECT] && 1 <= k <= 4
    ensures Stays(MidHeader(c, Header(b), k)) <==> exists j :: 1 <= j < k && Header(b)[j] != 0
    ensures MidHeader(c, Header(b), k).current == b.command
  {
    var h := Header(b);
    match k {
      case 1 =>
      case 2 => assert h[1] != 0 ==> exists j :: 1 <= j < k && h[j] != 0;
      case 3 => assert h[1] != 0 || h[2] != 0 ==> exists j :: 1 <= j < k && h[j] != 0;
      case _ => assert h[1] != 0 || h[2] != 0 || h[3] != 0 ==> exists j :: 1 <= j < k && h[j] != 0;
    }
  }

  /** A cut inside the blocks. */
  lemma StaysInside(c: Counters, bs: seq<Block>, n: nat)
    requires AtHeader(c) && BlockGrammar(bs) && 5 <= n < |Frames(bs)|
    ensures var c1 := Feed(c, Frames(bs)[..n]).0;
            && (Stays(c1) <==> !EarlyCut(bs, n))
            && (EarlyCut(bs, n) ==> c1.current == bs[|bs| - 1].command)
  {
    var i, k, ci := Locate(c, bs, n);
    FramesUpTo(bs, i);
    FeedFramePart(ci, bs[i], k);
    if i < |bs| - 1 || !Terminated(bs) {
      CommandKnown(ci, bs[i], k);
    } else if 1 <= k < 5 {
      HeaderLooksDone(ci, bs[i], k);
    }
  }

  /** From its command byte on, the current command is that of the block; a Continue leaves it at zero. */
  lemma {:induction false} CommandKnown(c: Counters, b: Block, k: nat)
    requires AtHeader(c) && Fits(b) && b.command == CONTINUE && k < |Frame(b)| && (k == 0 ==> c.current == 0)
    ensures Stays(Feed(c, Frame(b)[..k]).0)
  {
    FeedFramePart(c, b, k);
  }

  /** The whole picture: the reader stays until the terminal block is consumed, except at an early cut. */
  lemma StaysExactly(c: Counters, bs: seq<Block>, tail: bytes, n: nat)
    requires AtHeader(c) && BlockGrammar(bs) && bs != [] && (!Terminated(bs) ==> tail == [])
    requires 5 <= n <= |Frames(bs) + tail|
    ensures var c1 := After(c, Frames(bs) + tail, n).0;
            && (Stays(c1) <==> n < End(bs, tail) && !EarlyCut(bs, n))
            && (!Stays(c1) ==> c1.current == bs[|bs| - 1].command)
  {
    var f, s := Frames(bs), Frames(bs) + tail;
    FramesUpTo(bs, |bs| - 1);
    if n < |f| {
      assert s[..n] == f[..n];
      StaysInside(c, bs, n);
    } else {
      assert s[..n] == f + tail[..n - |f|];
      FeedFrames(c, bs);
      FeedSplit(c, f, tail[..n - |f|]);
      if !Terminated(bs) {
        assert f + [] == f && tail[..n - |f|] == [];
      }
    }
  }

  // ----- reader and writer agree -----

  /**
   * After `n` bytes of `s` the reader is where the writer's stream is: in padding mode until the end, then direct or
   * not.
   */
  ghost predicate InStep(r: RState, c: Counters, bs: seq<Block>, tail: bytes, n: nat)
    requires AtHeader(c) && BlockGrammar(bs) && n <= |Frames(bs) + tail|
  {
    && r.c == After(c, Frames(bs) + tail, n).0
    && (r.within <==> n < End(bs, tail))
    && (r.direct <==> n >= End(bs, tail) && EndsWith(bs, DIRECT))
  }

  /** The next buffers of the stream: stretch `n .. n + |Concat(chunks)|`. */
  ghost predicate Next(bs: seq<Block>, tail: bytes, n: nat, chunks: seq<bytes>)
    requires AllFit(bs)
  {
    var s := Frames(bs) + tail;
    n + |Concat(chunks)| <= |s| && s[n..n + |Concat(chunks)|] == Concat(chunks)
  }

  /**
   * A read from offset `n` on has no chunk that opens a second parse. It could do so before the end of the blocks, and
   * after it as long as it filters, unless the reader has gone direct.
   */
  predicate Shut(uuid: bytes, bs: seq<Block>, tail: bytes, n: nat, read: Read)
    requires AllFit(bs)
  {
    n < End(bs, tail) || (read.filtering && !EndsWith(bs, DIRECT)) ==> NoReopening(uuid, read.chunks, n, End(bs, tail))
  }

  /** Past the end the parser passes everything through. */
  lemma AfterRaw(c: Counters, s: bytes, n: nat, all: bytes)
    requires Inv(c) && n + |all| <= |s| && s[n..n + |all|] == all && Initial(After(c, s, n).0)
    ensures After(c, s, n + |all|) == (After(c, s, n).0, After(c, s, n).1 + all)
  {
    AfterMore(c, s, n, all);
  }

  /** The parse at one offset. */
  lemma OverExactly(c: Counters, bs: seq<Block>, tail: bytes, n: nat)
    requires AtHeader(c) && BlockGrammar(bs) && (!Terminated(bs) ==> tail == []) && n <= |Frames(bs) + tail|
    ensures Initial(After(c, Frames(bs) + tail, n).0) <==> n >= End(bs, tail)
  {
    UnderWay(c, bs, tail);
  }

  /** What a read does to the parser and the output, in step or not, as long as it still unpads or need not. */
  lemma ReadParses(r: RState, c: Counters, uuid: bytes, bs: seq<Block>, tail: bytes, n: nat, read: Read)
    requires AtHeader(c) && BlockGrammar(bs) && (!Terminated(bs) ==> tail == [])
    requires Next(bs, tail, n, read.chunks) && InStep(r, c, bs, tail, n) && Shut(uuid, bs, tail, n, read)
    ensures var s, n1 := Frames(bs) + tail, n + |Concat(read.chunks)|;
            var (r1, out) := ReadStep(r, uuid, read);
            After(c, s, n1) == (r1.c, After(c, s, n).1 + out)
  {
    var s, all := Frames(bs) + tail, Concat(read.chunks);
    if all == [] {
      assert After(c, s, n).1 + [] == After(c, s, n).1;
    } else if r.direct || !(r.within || read.filtering) {
      OverExactly(c, bs, tail, n);
      AfterRaw(c, s, n, all);
    } else {
      UnderWay(c, bs, tail);
      UnpadsFollow(c, uuid, s, End(bs, tail), n, read.chunks);
    }
  }

  /**
   * One read of a reader in step. It stays in step unless the read ends at an early cut; there it
   * leaves padding mode although the terminal block is still arriving.
   */
  lemma ReadKeepsStep(r: RState, c: Counters, uuid: bytes, bs: seq<Block>, tail: bytes, n: nat, read: Read)
    requires AtHeader(c) && BlockGrammar(bs) && bs != [] && (!Terminated(bs) ==> tail == []) && 5 <= n
    requires Next(bs, tail, n, read.chunks) && InStep(r, c, bs, tail, n) && Concat(read.chunks) != []
    requires Shut(uuid, bs, tail, n, read)
    ensures var n1 := n + |Concat(read.chunks)|;
            var r1 := ReadStep(r, uuid, read).0;
            && (InStep(r1, c, bs, tail, n1) <==> !EarlyCut(bs, n1) || n >= End(bs, tail))
            && (EarlyCut(bs, n1) ==> !r1.within)
  {
    var n1 := n + |Concat(read.chunks)|;
    ReadParses(r, c, uuid, bs, tail, n, read);
    StaysExactly(c, bs, tail, n1);
    FramesUpTo(bs, |bs| - 1);
    OverExactly(c, bs, tail, n);
    OverExactly(c, bs, tail, n1);
  }

  /** No read ends at an early cut; `at` is where the reads start. */
  ghost predicate NoEarlyCuts(bs: seq<Block>, rs: seq<Read>, at: nat)
    requires AllFit(bs)
    decreases rs
  {
    rs != [] ==>
      var n := at + |Concat(rs[0].chunks)|;
      !EarlyCut(bs, n) && NoEarlyCuts(bs, rs[1..], n)
  }

  /** No read opens a second parse; `at` is where the reads start. */
  predicate AllShut(uuid: bytes, bs: seq<Block>, tail: bytes, rs: seq<Read>, at: nat)
    requires AllFit(bs)
    decreases rs
  {
    rs != [] ==> Shut(uuid, bs, tail, at, rs[0]) && AllShut(uuid, bs, tail, rs[1..], at + |Concat(rs[0].chunks)|)
  }

  /** Two stretches in a row. */
  lemma StretchSplit(s: bytes, n: nat, x: bytes, y: bytes)
    requires n + |x + y| <= |s| && s[n..n + |x + y|] == x + y
    ensures s[n..n + |x|] == x && s[n + |x|..n + |x| + |y|] == y
  {
    SliceSplit(s, n, |x|, |y|);
    assert (x + y)[..|x|] == x && (x + y)[|x|..] == y;
  }

  lemma {:induction false} NextSplit(bs: seq<Block>, tail: bytes, n: nat, a: seq<bytes>, b: seq<bytes>)
    requires AllFit(bs) && Next(bs, tail, n, a + b)
    ensures Next(bs, tail, n, a) && Next(bs, tail, n + |Concat(a)|, b)
    ensures |Concat(a + b)| == |Concat(a)| + |Concat(b)|
  {
    ConcatAppend(a, b);
    StretchSplit(Frames(bs) + tail, n, Concat(a), Concat(b));
  }

  lemma {:induction false} NextRead(bs: seq<Block>, tail: bytes, n: nat, rs: seq<Read>)
    requires AllFit(bs) && rs != [] && Next(bs, tail, n, AllChunks(rs))
    ensures var n1 := n + |Concat(rs[0].chunks)|;
            && Next(bs, tail, n, rs[0].chunks) && Next(bs, tail, n1, AllChunks(rs[1..]))
            && n1 + |Concat(AllChunks(rs[1..]))| == n + |Concat(AllChunks(rs))|
  {
    NextSplit(bs, tail, n, rs[0].chunks, AllChunks(rs[1..]));
  }

  /** The first read of a run, even one that brings nothing. */
  lemma {:induction false} ReadInStep(r: RState, c: Counters, uuid: bytes, bs: seq<Block>, tail: bytes, n: nat,
                                      read: Read)
    requires AtHeader(c) && BlockGrammar(bs) && bs != [] && (!Terminated(bs) ==> tail == []) && 5 <= n
    requires Next(bs, tail, n, read.chunks) && InStep(r, c, bs, tail, n) && Shut(uuid, bs, tail, n, read)
    requires !EarlyCut(bs, n + |Concat(read.chunks)|)
    ensures var s, n1, x := Frames(bs) + tail, n + |Concat(read.chunks)|, ReadStep(r, uuid, read);
            InStep(x.0, c, bs, tail, n1) && After(c, s, n1).1 == After(c, s, n).1 + x.1
  {
    ReadParses(r, c, uuid, bs, tail, n, read);
    if Concat(read.chunks) != [] {
      ReadKeepsStep(r, c, uuid, bs, tail, n, read);
    }
  }

  /** Reads from offset `n` on, of a reader in step, none of which ends at an early cut or opens a second parse. */
  ghost predicate Clean(r: RState, c: Counters, uuid: bytes, bs: seq<Block>, tail: bytes, n: nat, rs: seq<Read>)
    requires AtHeader(c) && BlockGrammar(bs)
  {
    && Next(bs, tail, n, AllChunks(rs)) && InStep(r, c, bs, tail, n)
    && NoEarlyCuts(bs, rs, n) && AllShut(uuid, bs, tail, rs, n)
  }

  lemma {:induction false} CleanStep(r: RState, c: Counters, uuid: bytes, bs: seq<Block>, tail: bytes, n: nat,
                                     rs: seq<Read>)
    requires AtHeader(c) && BlockGrammar(bs) && bs != [] && (!Terminated(bs) ==> tail == []) && 5 <= n
    requires Clean(r, c, uuid, bs, tail, n, rs) && rs != []
    ensures var s, n1, x := Frames(bs) + tail, n + |Concat(rs[0].chunks)|, ReadStep(r, uuid, rs[0]);
            && Clean(x.0, c, uuid, bs, tail, n1, rs[1..])
            && After(c, s, n1).1 == After(c, s, n).1 + x.1
            && n1 + |Concat(AllChunks(rs[1..]))| == n + |Concat(AllChunks(rs))|
  {
    NextRead(bs, tail, n, rs);
    ReadInStep(r, c, uuid, bs, tail, n, rs[0]);
  }

  /** A run of reads from the middle of the stream on. */
  lemma {:induction false} ReadsFollow(r: RState, c: Counters, uuid: bytes, bs: seq<Block>, tail: bytes, n: nat,
                                       rs: seq<Read>)
    requires AtHeader(c) && BlockGrammar(bs) && bs != [] && (!Terminated(bs) ==> tail == []) && 5 <= n
    requires Clean(r, c, uuid, bs, tail, n, rs)
    ensures var s, n1 := Frames(bs) + tail, n + |Concat(AllChunks(rs))|;
            var (r1, out) := ReadAll(r, uuid, rs);
            && n1 <= |s| && InStep(r1, c, bs, tail, n1)
            && After(c, s, n1).1 == After(c, s, n).1 + out
    decreases rs
  {
    var s := Frames(bs) + tail;
    if rs == [] {
      assert After(c, s, n).1 + [] == After(c, s, n).1;
    } else {
      var (r1, out) := ReadStep(r, uuid, rs[0]);
      CleanStep(r, c, uuid, bs, tail, n, rs);
      ReadsFollow(r1, c, uuid, bs, tail, n + |Concat(rs[0].chunks)|, rs[1..]);
      Assoc(After(c, s, n).1, out, ReadAll(r1, uuid, rs[1..]).1);
    }
  }
}
