/** Writer and reader of one direction together. */
module VisionRoundTrip {
  import opened Bytes
  import opened VisionFrame
  import opened VisionState
  import opened VisionUnpadding
  import opened VisionBlocks
  import opened VisionReads

  const C5: Counters := NEW_READER.c.(command := 5)

  /** Reads that cut a stream, of which the first buffer opens the parse. */
  ghost predicate Cuts(uuid: bytes, bs: seq<Block>, tail: bytes, rs: seq<Read>)
    requires AllFit(bs)
  {
    && |uuid| == 16 && rs != [] && rs[0].chunks != [] && |rs[0].chunks[0]| >= OVERHEAD
    && Concat(AllChunks(rs)) <= Stream(uuid, bs, tail)
  }

  /** The first read, whose first chunk opens the parse, has no chunk that opens another one. */
  predicate FirstShut(uuid: bytes, bs: seq<Block>, tail: bytes, chunks: seq<bytes>)
    requires AllFit(bs)
  {
    chunks != [] && |chunks[0]| >= OVERHEAD ==> NoReopening(uuid, chunks[1..], |chunks[0]| - 16, End(bs, tail))
  }

  /** The first read, as a prefix of all of them. */
  lemma {:induction false} FirstReadCuts(uuid: bytes, bs: seq<Block>, tail: bytes, rs: seq<Read>)
    requires BlockGrammar(bs) && (!Terminated(bs) ==> tail == []) && Cuts(uuid, bs, tail, rs)
    ensures bs != []
    ensures var chunks, rest, s := rs[0].chunks, AllChunks(rs[1..]), Frames(bs) + tail;
            var n := |Concat(chunks)| - 16;
            && 5 <= n <= |s|
            && Concat(chunks) <= uuid + s
            && |Concat(AllChunks(rs))| == |Concat(chunks)| + |Concat(rest)|
            && Next(bs, tail, n, rest)
  {
    var chunks, rest, s := rs[0].chunks, AllChunks(rs[1..]), Frames(bs) + tail;
    var a, b := Concat(chunks), Concat(rest);
    ConcatAppend(chunks, rest);
    assert Concat(AllChunks(rs)) == a + b;
    assert |a| >= |chunks[0]|;
    PrefixParts(uuid, s, a, b);
  }

  lemma PrefixParts(uuid: bytes, s: bytes, a: bytes, b: bytes)
    requires |uuid| == 16 <= |a| && a + b <= uuid + s
    ensures a <= uuid + s && |a| - 16 + |b| <= |s| && s[|a| - 16..|a| - 16 + |b|] == b
  {
    assert a == (a + b)[..|a|] == (uuid + s)[..|a|];
    assert b == (a + b)[|a|..] == (uuid + s)[|a|..|a| + |b|];
  }

  /** The chunks of the first read, parsed from the start of the stream. */
  lemma FirstParse(uuid: bytes, bs: seq<Block>, tail: bytes, chunks: seq<bytes>)
    requires BlockGrammar(bs) && bs != [] && (!Terminated(bs) ==> tail == [])
    requires |uuid| == 16 && chunks != [] && |chunks[0]| >= OVERHEAD && Concat(chunks) <= uuid + (Frames(bs) + tail)
    requires FirstShut(uuid, bs, tail, chunks)
    ensures var n := |Concat(chunks)| - 16;
            5 <= n <= |Frames(bs) + tail| && Unpads(NEW_READER.c, uuid, chunks) == After(C5, Frames(bs) + tail, n)
  {
    UnderWay(C5, bs, tail);
    UnpadsFromStart(NEW_READER.c, uuid, Frames(bs) + tail, End(bs, tail), chunks);
  }

  lemma FirstDecision(bs: seq<Block>, tail: bytes, n: nat)
    requires BlockGrammar(bs) && bs != [] && (!Terminated(bs) ==> tail == []) && 5 <= n <= |Frames(bs) + tail|
    ensures var c := After(C5, Frames(bs) + tail, n).0;
            !EarlyCut(bs, n) <==> InStep(Decided(NEW_READER, c), C5, bs, tail, n)
  {
    StaysExactly(C5, bs, tail, n);
    FramesUpTo(bs, |bs| - 1);
  }

  lemma FirstStep(uuid: bytes, read: Read)
    requires Concat(read.chunks) != []
    ensures var x := Unpads(NEW_READER.c, uuid, read.chunks);
            ReadStep(NEW_READER, uuid, read) == (Decided(NEW_READER, x.0), x.1)
  {
  }

  /** The first read puts the reader in step, unless it ends at an early cut. */
  lemma {:induction false} FirstRead(uuid: bytes, bs: seq<Block>, tail: bytes, rs: seq<Read>)
    requires BlockGrammar(bs) && (!Terminated(bs) ==> tail == []) && Cuts(uuid, bs, tail, rs)
    requires FirstShut(uuid, bs, tail, rs[0].chunks)
    ensures var n, r := |Concat(rs[0].chunks)| - 16, ReadStep(NEW_READER, uuid, rs[0]);
            && 5 <= n <= |Frames(bs) + tail|
            && After(C5, Frames(bs) + tail, n) == (r.0.c, r.1)
            && (!EarlyCut(bs, n) <==> InStep(r.0, C5, bs, tail, n))
  {
    hide After, Next, Unpads, EarlyCut, InStep, FirstShut, Stays, ReadStep;
    FirstReadCuts(uuid, bs, tail, rs);
    FirstParse(uuid, bs, tail, rs[0].chunks);
    FirstDecision(bs, tail, |Concat(rs[0].chunks)| - 16);
    FirstStep(uuid, rs[0]);
  }

  /** None of the reads ends at an early cut, and none opens a second parse. */
  ghost predicate CleanCuts(uuid: bytes, bs: seq<Block>, tail: bytes, rs: seq<Read>)
    requires AllFit(bs) && rs != [] && |Concat(rs[0].chunks)| >= 16
  {
    var n := |Concat(rs[0].chunks)| - 16;
    && !EarlyCut(bs, n) && NoEarlyCuts(bs, rs[1..], n)
    && FirstShut(uuid, bs, tail, rs[0].chunks) && AllShut(uuid, bs, tail, rs[1..], n)
  }

  lemma {:induction false} FirstClean(uuid: bytes, bs: seq<Block>, tail: bytes, rs: seq<Read>)
    requires BlockGrammar(bs) && (!Terminated(bs) ==> tail == []) && Cuts(uuid, bs, tail, rs)
    requires |Concat(rs[0].chunks)| >= 16 && CleanCuts(uuid, bs, tail, rs)
    ensures var n, x := |Concat(rs[0].chunks)| - 16, ReadStep(NEW_READER, uuid, rs[0]);
            && bs != [] && n >= 5 && Clean(x.0, C5, uuid, bs, tail, n, rs[1..])
            && After(C5, Frames(bs) + tail, n).1 == x.1
            && n + |Concat(AllChunks(rs[1..]))| == |Concat(AllChunks(rs))| - 16
  {
    FirstReadCuts(uuid, bs, tail, rs);
    FirstRead(uuid, bs, tail, rs);
  }

  /** All reads: the reader is in step, and its output is what the byte machine gives. */
  lemma {:induction false} ReaderFollows(uuid: bytes, bs: seq<Block>, tail: bytes, rs: seq<Read>)
    requires BlockGrammar(bs) && (!Terminated(bs) ==> tail == []) && Cuts(uuid, bs, tail, rs)
    requires |Concat(rs[0].chunks)| >= 16 && CleanCuts(uuid, bs, tail, rs)
    ensures var n := |Concat(AllChunks(rs))| - 16;
            && 0 <= n <= |Frames(bs) + tail|
            && InStep(ReadAll(NEW_READER, uuid, rs).0, C5, bs, tail, n)
            && ReadAll(NEW_READER, uuid, rs).1 == After(C5, Frames(bs) + tail, n).1
  {
    hide Cuts, CleanCuts, Clean, ReadStep;
    FirstClean(uuid, bs, tail, rs);
    ReadsFollow(ReadStep(NEW_READER, uuid, rs[0]).0, C5, uuid, bs, tail, |Concat(rs[0].chunks)| - 16, rs[1..]);
  }

  /**
   * Reader and writer agree. Whatever grammatical stream arrives, cut into reads and buffers in any
   * way without an early cut: the reader is in padding mode until exactly the last byte of the
   * terminal block, and goes direct exactly if that block says Direct; meanwhile it has handed on a
   * prefix of what was written, and all of it once all has arrived.
   */
  lemma {:induction false} ReaderAgrees(uuid: bytes, bs: seq<Block>, tail: bytes, rs: seq<Read>)
    requires BlockGrammar(bs) && (!Terminated(bs) ==> tail == []) && Cuts(uuid, bs, tail, rs)
    requires |Concat(rs[0].chunks)| >= 16 && CleanCuts(uuid, bs, tail, rs)
    ensures var r, got := ReadAll(NEW_READER, uuid, rs).0, |Concat(AllChunks(rs))|;
            && (r.within <==> got < 16 + End(bs, tail))
            && (r.direct <==> got >= 16 + End(bs, tail) && EndsWith(bs, DIRECT))
    ensures ReadAll(NEW_READER, uuid, rs).1 <= Contents(bs) + tail
    ensures Concat(AllChunks(rs)) == Stream(uuid, bs, tail) ==> ReadAll(NEW_READER, uuid, rs).1 == Contents(bs) + tail
  {
    ReaderFollows(uuid, bs, tail, rs);
    OutputSoFar(C5, bs, tail, |Concat(AllChunks(rs))| - 16);
  }

  lemma {:induction false} ShutBefore(uuid: bytes, chunks: seq<bytes>, at: nat, end: nat)
    requires at + |Concat(chunks)| < end
    ensures NoReopening(uuid, chunks, at, end)
    decreases chunks
  {
    if chunks != [] {
      ShutBefore(uuid, chunks[1..], at + |chunks[0]|, end);
    }
  }

  lemma CutShut(uuid: bytes, bs: seq<Block>, tail: bytes, chunks: seq<bytes>)
    requires BlockGrammar(bs) && bs != [] && |Concat(chunks)| >= 16 && EarlyCut(bs, |Concat(chunks)| - 16)
    ensures FirstShut(uuid, bs, tail, chunks)
  {
    FramesUpTo(bs, |bs| - 1);
    if chunks != [] && |chunks[0]| >= OVERHEAD {
      ShutBefore(uuid, chunks[1..], |chunks[0]| - 16, End(bs, tail));
    }
  }

  /**
   * The condition is needed: after an early cut of a Direct block the next read hands the framing itself to the
   * application, and after one of an End block it does so unless it still filters.
   */
  lemma {:induction false} EarlyCutCorrupts(uuid: bytes, bs: seq<Block>, tail: bytes, first: Read, second: Read)
    requires BlockGrammar(bs) && (!Terminated(bs) ==> tail == []) && Cuts(uuid, bs, tail, [first, second])
    requires |Concat(first.chunks)| >= 16 && EarlyCut(bs, |Concat(first.chunks)| - 16)
    requires Concat(AllChunks([first, second])) == Stream(uuid, bs, tail)
    requires EndsWith(bs, DIRECT) || !second.filtering
    ensures ReadAll(NEW_READER, uuid, [first, second]).1 != Contents(bs) + tail
  {
    var rs := [first, second];
    var s, n := Frames(bs) + tail, |Concat(first.chunks)| - 16;
    FirstReadCuts(uuid, bs, tail, rs);
    CutShut(uuid, bs, tail, first.chunks);
    FirstRead(uuid, bs, tail, rs);
    FirstAtCut(uuid, bs, tail, rs);
    assert rs[1..] == [second] && [second][1..] == [];
    assert AllChunks(rs[1..]) == second.chunks + AllChunks([]) == second.chunks;
    var (r, out) := ReadStep(NEW_READER, uuid, first);
    var rest := Concat(second.chunks);
    assert ReadStep(r, uuid, second) == (r, rest);
    assert ReadAll(r, uuid, rs[1..]).1 == rest + [];
    HeaderYieldsNothing(bs, tail, n);
  }

  /**
   * Such a cut is easy to come by: one padding block, one block with a byte of content, cut behind the second command
   * byte.
   */
  lemma {:induction false} EarlyCutExample(uuid: bytes) returns (bs: seq<Block>, first: Read, second: Read)
    requires |uuid| == 16
    ensures BlockGrammar(bs) && Contents(bs) == [65] && Cuts(uuid, bs, [], [first, second])
    ensures Concat(AllChunks([first, second])) == Stream(uuid, bs, [])
    ensures ReadAll(NEW_READER, uuid, [first, second]).1 != [65]
  {
    hide ReadAll, NoReopening;
    var b0, b1 := Block(CONTINUE, [], 1), Block(END, [65], 0);
    bs := [b0, b1];
    assert bs[1..] == [b1] && [b1][1..] == [];
    FramesFirst([b1]);
    FramesFirst(bs);
    assert Contents([b1]) == [65] + Contents([]) == [65];
    assert Contents(bs) == [] + Contents([b1]) == [65];
    var s := Stream(uuid, bs, []);
    first, second := Read(false, [s[..23]]), Read(false, [s[23..]]);
    var rs := [first, second];
    assert rs[1..] == [second] && [second][1..] == [];
    assert AllChunks([second]) == [s[23..]] + AllChunks([]) == [s[23..]];
    assert AllChunks(rs) == [s[..23]] + AllChunks([second]) == [s[..23], s[23..]];
    assert AllChunks(rs)[1..] == [s[23..]];
    ConcatOne(s[..23]);
    ConcatOne(s[23..]);
    assert Concat(AllChunks(rs)) == s[..23] + s[23..] == s;
    assert [s[23..]][1..] == [];
    EarlyCutCorrupts(uuid, bs, [], first, second);
    assert Contents(bs) + [] == [65];
  }

  /** The output before a cut and after it are what was written. */
  lemma OutputParts(bs: seq<Block>, tail: bytes, n: nat)
    requires BlockGrammar(bs) && (!Terminated(bs) ==> tail == []) && n <= |Frames(bs) + tail|
    ensures var s := Frames(bs) + tail;
            var (c, out) := After(C5, s, n);
            out + Feed(c, s[n..]).1 == Contents(bs) + tail
  {
    var s := Frames(bs) + tail;
    OutputSoFar(C5, bs, tail, |s|);
    assert s[..|s|] == s;
    FeedSplit(C5, s[..n], s[n..]);
    assert s == s[..n] + s[n..];
  }

  /** What is left to parse in the middle of a block header yields fewer bytes than it has. */
  lemma HeaderYieldsNothing(bs: seq<Block>, tail: bytes, n: nat)
    requires BlockGrammar(bs) && (!Terminated(bs) ==> tail == []) && 5 <= n <= |Frames(bs) + tail| && EarlyCut(bs, n)
    ensures var s := Frames(bs) + tail;
            |After(C5, s, n).1| + |s[n..]| > |Contents(bs) + tail|
  {
    var s := Frames(bs) + tail;
    OutputParts(bs, tail, n);
    InHeaderAt(bs, tail, n);
  }

  lemma InHeaderAt(bs: seq<Block>, tail: bytes, n: nat)
    requires BlockGrammar(bs) && 5 <= n <= |Frames(bs) + tail| && EarlyCut(bs, n)
    ensures n < |Frames(bs)| && InHeader(After(C5, Frames(bs) + tail, n).0)
  {
    FramesUpTo(bs, |bs| - 1);
    assert (Frames(bs) + tail)[..n] == Frames(bs)[..n];
    var i, k, ci := Locate(C5, bs, n);
    FramesUpTo(bs, i);
    FeedFramePart(ci, bs[i], k);
  }

  // ----- when the output is right -----

  /**
   * The reader at an early cut: it believes that padding is over, and goes direct at once if the block is to say so.
   */
  ghost predicate AtCut(r: RState, bs: seq<Block>, tail: bytes, n: nat)
    requires BlockGrammar(bs) && n <= |Frames(bs) + tail|
  {
    EarlyCut(bs, n) && r.c == After(C5, Frames(bs) + tail, n).0 && !r.within && (r.direct <==> EndsWith(bs, DIRECT))
  }

  ghost predicate Follows(r: RState, bs: seq<Block>, tail: bytes, n: nat)
    requires BlockGrammar(bs) && n <= |Frames(bs) + tail|
  {
    if EarlyCut(bs, n) then AtCut(r, bs, tail, n) else InStep(r, C5, bs, tail, n)
  }

  /** The decision at an early cut. */
  lemma DecidedAtCut(r: RState, bs: seq<Block>, tail: bytes, n: nat)
    requires BlockGrammar(bs) && bs != [] && (!Terminated(bs) ==> tail == []) && 5 <= n <= |Frames(bs) + tail|
    requires EarlyCut(bs, n) && !r.direct
    ensures AtCut(Decided(r, After(C5, Frames(bs) + tail, n).0), bs, tail, n)
  {
    StaysExactly(C5, bs, tail, n);
  }

  lemma {:induction false} FirstCutEarly(uuid: bytes, bs: seq<Block>, tail: bytes, read: Read)
    requires BlockGrammar(bs) && bs != [] && (!Terminated(bs) ==> tail == []) && Concat(read.chunks) != []
    requires 21 <= |Concat(read.chunks)| <= 16 + |Frames(bs) + tail| && EarlyCut(bs, |Concat(read.chunks)| - 16)
    requires ReadStep(NEW_READER, uuid, read).0.c == After(C5, Frames(bs) + tail, |Concat(read.chunks)| - 16).0
    ensures AtCut(ReadStep(NEW_READER, uuid, read).0, bs, tail, |Concat(read.chunks)| - 16)
  {
    FirstStep(uuid, read);
    DecidedAtCut(NEW_READER, bs, tail, |Concat(read.chunks)| - 16);
  }

  lemma {:induction false} FirstAtCut(uuid: bytes, bs: seq<Block>, tail: bytes, rs: seq<Read>)
    requires BlockGrammar(bs) && (!Terminated(bs) ==> tail == []) && Cuts(uuid, bs, tail, rs)
    requires FirstShut(uuid, bs, tail, rs[0].chunks)
    ensures var n := |Concat(rs[0].chunks)| - 16;
            5 <= n <= |Frames(bs) + tail| && Follows(ReadStep(NEW_READER, uuid, rs[0]).0, bs, tail, n)
  {
    var n := |Concat(rs[0].chunks)| - 16;
    FirstReadCuts(uuid, bs, tail, rs);
    FirstRead(uuid, bs, tail, rs);
    if EarlyCut(bs, n) {
      FirstCutEarly(uuid, bs, tail, rs[0]);
    }
  }

  /** A read that may start where it does: at an early cut only if it still filters and the block is an End. */
  predicate MayStart(bs: seq<Block>, n: nat, read: Read)
    requires AllFit(bs)
  {
    EarlyCut(bs, n) && Concat(read.chunks) != [] ==> EndsWith(bs, END) && read.filtering
  }

  /** Inside the blocks, a read of a reader in step. */
  lemma {:induction false} InStepFollows(r: RState, uuid: bytes, bs: seq<Block>, tail: bytes, n: nat, read: Read)
    requires BlockGrammar(bs) && bs != [] && (!Terminated(bs) ==> tail == []) && 5 <= n
    requires Next(bs, tail, n, read.chunks) && InStep(r, C5, bs, tail, n) && Concat(read.chunks) != []
    requires Shut(uuid, bs, tail, n, read)
    ensures var n1, x := n + |Concat(read.chunks)|, ReadStep(r, uuid, read);
            && Follows(x.0, bs, tail, n1)
            && After(C5, Frames(bs) + tail, n1) == (x.0.c, After(C5, Frames(bs) + tail, n).1 + x.1)
  {
    var n1 := n + |Concat(read.chunks)|;
    ReadParses(r, C5, uuid, bs, tail, n, read);
    ReadKeepsStep(r, C5, uuid, bs, tail, n, read);
    if EarlyCut(bs, n1) {
      DecidedAtCut(r, bs, tail, n1);
    }
  }

  /** While it filters, the reader at an early cut of an End block reads as if it were still in padding mode. */
  lemma {:induction false} FilteringHeals(r: RState, uuid: bytes, bs: seq<Block>, tail: bytes, n: nat, read: Read)
    requires BlockGrammar(bs) && bs != [] && (!Terminated(bs) ==> tail == []) && 5 <= n
    requires Next(bs, tail, n, read.chunks) && Concat(read.chunks) != [] && Shut(uuid, bs, tail, n, read)
    requires AtCut(r, bs, tail, n) && EndsWith(bs, END) && read.filtering
    ensures var r1 := r.(within := true);
            InStep(r1, C5, bs, tail, n) && ReadStep(r, uuid, read) == ReadStep(r1, uuid, read)
  {
    var r1, n1 := r.(within := true), n + |Concat(read.chunks)|;
    ReadParses(r1, C5, uuid, bs, tail, n, read);
    StaysExactly(C5, bs, tail, n1);
  }

  lemma {:induction false} ReadFollows(r: RState, uuid: bytes, bs: seq<Block>, tail: bytes, n: nat, read: Read)
    requires BlockGrammar(bs) && bs != [] && (!Terminated(bs) ==> tail == []) && 5 <= n
    requires Next(bs, tail, n, read.chunks) && Follows(r, bs, tail, n)
    requires Concat(read.chunks) != [] && MayStart(bs, n, read) && Shut(uuid, bs, tail, n, read)
    ensures var n1, x := n + |Concat(read.chunks)|, ReadStep(r, uuid, read);
            && Follows(x.0, bs, tail, n1)
            && After(C5, Frames(bs) + tail, n1) == (x.0.c, After(C5, Frames(bs) + tail, n).1 + x.1)
  {
    if EarlyCut(bs, n) {
      FilteringHeals(r, uuid, bs, tail, n, read);
      InStepFollows(r.(within := true), uuid, bs, tail, n, read);
    } else {
      InStepFollows(r, uuid, bs, tail, n, read);
    }
  }

  /** Once the packet filter is done it stays done. */
  predicate FilterOnce(rs: seq<Read>) {
    forall i, j :: 0 <= i < j < |rs| && rs[j].filtering ==> rs[i].filtering
  }

  /** A reader that neither unpads nor filters hands everything on. */
  lemma {:induction false} AllRaw(r: RState, uuid: bytes, rs: seq<Read>)
    requires Inv(r.c) && (r.direct || (!r.within && forall i :: 0 <= i < |rs| ==> !rs[i].filtering))
    ensures ReadAll(r, uuid, rs) == (r, Concat(AllChunks(rs)))
    decreases rs
  {
    if rs != [] {
      assert forall i :: 0 <= i < |rs[1..]| ==> rs[1..][i] == rs[i + 1];
      AllRaw(r, uuid, rs[1..]);
      ConcatAppend(rs[0].chunks, AllChunks(rs[1..]));
    }
  }

  /** Every read may start where it does; `at` is where the first one starts. */
  ghost predicate AllMayStart(bs: seq<Block>, rs: seq<Read>, at: nat)
    requires AllFit(bs)
    decreases rs
  {
    rs != [] ==> MayStart(bs, at, rs[0]) && AllMayStart(bs, rs[1..], at + |Concat(rs[0].chunks)|)
  }

  /** A read that may not start where it does. */
  lemma {:induction false} RestIsFraming(r: RState, uuid: bytes, bs: seq<Block>, tail: bytes, n: nat, rs: seq<Read>)
    requires BlockGrammar(bs) && bs != [] && (!Terminated(bs) ==> tail == []) && 5 <= n <= |Frames(bs) + tail|
    requires Concat(AllChunks(rs)) == (Frames(bs) + tail)[n..]
    requires rs != [] && FilterOnce(rs) && AtCut(r, bs, tail, n) && !MayStart(bs, n, rs[0])
    ensures After(C5, Frames(bs) + tail, n).1 + ReadAll(r, uuid, rs).1 != Contents(bs) + tail
  {
    assert EndsWith(bs, DIRECT) || !rs[0].filtering;
    AllRaw(r, uuid, rs);
    HeaderYieldsNothing(bs, tail, n);
  }

  /** The rest of the stream from offset `n` on, in reads of a reader that follows. */
  ghost predicate Rest(r: RState, bs: seq<Block>, tail: bytes, n: nat, rs: seq<Read>)
    requires BlockGrammar(bs)
  {
    && bs != [] && (!Terminated(bs) ==> tail == []) && 5 <= n && FilterOnce(rs)
    && Next(bs, tail, n, AllChunks(rs)) && n + |Concat(AllChunks(rs))| == |Frames(bs) + tail|
    && Follows(r, bs, tail, n)
  }

  /** A read that opens a second parse unpads. */
  lemma UnpadsOrShut(r: RState, uuid: bytes, bs: seq<Block>, tail: bytes, n: nat, read: Read)
    requires BlockGrammar(bs) && n <= |Frames(bs) + tail| && Follows(r, bs, tail, n) && MayStart(bs, n, read)
    requires !Shut(uuid, bs, tail, n, read)
    ensures r.c == After(C5, Frames(bs) + tail, n).0 && !NoReopening(uuid, read.chunks, n, End(bs, tail))
    ensures Concat(read.chunks) != [] ==> ReadStep(r, uuid, read).1 == Unpads(r.c, uuid, read.chunks).1
  {
  }

  lemma {:induction false} ReadAllBound(r: RState, uuid: bytes, rs: seq<Read>)
    requires Inv(r.c)
    ensures |ReadAll(r, uuid, rs).1| <= |Concat(AllChunks(rs))|
    decreases rs
  {
    if rs != [] {
      UnpadsBound(r.c, uuid, rs[0].chunks);
      ReadAllBound(ReadStep(r, uuid, rs[0]).0, uuid, rs[1..]);
      ConcatAppend(rs[0].chunks, AllChunks(rs[1..]));
    }
  }

  /** Past the end of the blocks, the rest is what is still to be handed on. */
  lemma PastEnd(bs: seq<Block>, tail: bytes, n: nat, rest: seq<bytes>)
    requires BlockGrammar(bs) && (!Terminated(bs) ==> tail == []) && n >= End(bs, tail)
    requires Next(bs, tail, n, rest) && n + |Concat(rest)| == |Frames(bs) + tail|
    ensures |After(C5, Frames(bs) + tail, n).1| + |Concat(rest)| == |Contents(bs) + tail|
  {
    var s := Frames(bs) + tail;
    UnderWay(C5, bs, tail);
    AfterRaw(C5, s, n, Concat(rest));
    OutputSoFar(C5, bs, tail, |s|);
  }

  lemma {:induction false} ReadReopened(r: RState, uuid: bytes, bs: seq<Block>, tail: bytes, n: nat, read: Read)
    requires BlockGrammar(bs) && bs != [] && (!Terminated(bs) ==> tail == []) && Next(bs, tail, n, read.chunks)
    requires Follows(r, bs, tail, n) && MayStart(bs, n, read) && !Shut(uuid, bs, tail, n, read) && Inv(r.c)
    ensures n + |Concat(read.chunks)| >= End(bs, tail)
    ensures |After(C5, Frames(bs) + tail, n).1| + |ReadStep(r, uuid, read).1| + 16
         <= |After(C5, Frames(bs) + tail, n + |Concat(read.chunks)|).1|
  {
    hide Follows, MayStart, Shut, After, Unpads, ReadStep, NoReopening, EarlyCut, ParseEndsAt;
    UnpadsOrShut(r, uuid, bs, tail, n, read);
    ChunksReopen(uuid, bs, tail, n, read.chunks);
  }

  lemma ChunksReopen(uuid: bytes, bs: seq<Block>, tail: bytes, n: nat, chunks: seq<bytes>)
    requires BlockGrammar(bs) && (!Terminated(bs) ==> tail == []) && Next(bs, tail, n, chunks)
    requires !NoReopening(uuid, chunks, n, End(bs, tail))
    ensures n + |Concat(chunks)| >= End(bs, tail) && Concat(chunks) != []
    ensures |After(C5, Frames(bs) + tail, n).1| + |Unpads(After(C5, Frames(bs) + tail, n).0, uuid, chunks).1| + 16
         <= |After(C5, Frames(bs) + tail, n + |Concat(chunks)|).1|
  {
    hide After, Unpads, NoReopening;
    UnderWay(C5, bs, tail);
    UnpadsReopened(C5, uuid, Frames(bs) + tail, End(bs, tail), n, chunks);
  }

  /** A read that opens a second parse: what it takes for a user id is missing. */
  lemma {:induction false} RestReopened(r: RState, uuid: bytes, bs: seq<Block>, tail: bytes, n: nat, rs: seq<Read>)
    requires BlockGrammar(bs) && Rest(r, bs, tail, n, rs)
    requires rs != [] && MayStart(bs, n, rs[0]) && !Shut(uuid, bs, tail, n, rs[0])
    ensures |After(C5, Frames(bs) + tail, n).1 + ReadAll(r, uuid, rs).1| + 16 <= |Contents(bs) + tail|
  {
    hide Follows, MayStart, Shut, After, Unpads, ReadStep, ReadAll, ParseEndsAt, NoReopening, EarlyCut, FilterOnce,
        Next;
    FollowsInv(r, bs, tail, n);
    NextRead(bs, tail, n, rs);
    ReadReopened(r, uuid, bs, tail, n, rs[0]);
    ReadAllCons(r, uuid, rs);
    ReadAllBound(ReadStep(r, uuid, rs[0]).0, uuid, rs[1..]);
    PastEnd(bs, tail, n + |Concat(rs[0].chunks)|, AllChunks(rs[1..]));
  }

  /** Every read may start where it does, and opens no second parse. */
  ghost predicate AllRight(uuid: bytes, bs: seq<Block>, tail: bytes, rs: seq<Read>, at: nat)
    requires AllFit(bs)
  {
    AllMayStart(bs, rs, at) && AllShut(uuid, bs, tail, rs, at)
  }

  /** The reads from offset `n` to the end of the stream. */
  lemma {:induction false} RestExact(r: RState, uuid: bytes, bs: seq<Block>, tail: bytes, n: nat, rs: seq<Read>)
    requires BlockGrammar(bs) && Rest(r, bs, tail, n, rs)
    ensures After(C5, Frames(bs) + tail, n).1 + ReadAll(r, uuid, rs).1 == Contents(bs) + tail
       <==> AllRight(uuid, bs, tail, rs, n)
    decreases rs
  {
    var s := Frames(bs) + tail;
    if rs == [] {
      OutputSoFar(C5, bs, tail, n);
      assert After(C5, s, n).1 + [] == After(C5, s, n).1;
    } else if !MayStart(bs, n, rs[0]) {
      assert s[n..|s|] == s[n..];
      RestIsFraming(r, uuid, bs, tail, n, rs);
    } else if !Shut(uuid, bs, tail, n, rs[0]) {
      RestReopened(r, uuid, bs, tail, n, rs);
    } else {
      RestStep(r, uuid, bs, tail, n, rs);
    }
  }

  /** The first of these reads. */
  lemma {:induction false} RestRead(r: RState, uuid: bytes, bs: seq<Block>, tail: bytes, n: nat, rs: seq<Read>)
    requires BlockGrammar(bs) && Rest(r, bs, tail, n, rs)
    requires rs != [] && MayStart(bs, n, rs[0]) && Shut(uuid, bs, tail, n, rs[0])
    ensures var n1, x := n + |Concat(rs[0].chunks)|, ReadStep(r, uuid, rs[0]);
            && Rest(x.0, bs, tail, n1, rs[1..])
            && After(C5, Frames(bs) + tail, n1).1 == After(C5, Frames(bs) + tail, n).1 + x.1
  {
    hide ReadStep, Follows, MayStart, Next, Shut, NoReopening, EarlyCut, After, FilterOnce, Terminated;
    FollowsInv(r, bs, tail, n);
    FilterOnceRest(rs);
    var s := Frames(bs) + tail;
    NextRead(bs, tail, n, rs);
    if Concat(rs[0].chunks) != [] {
      ReadFollows(r, uuid, bs, tail, n, rs[0]);
    } else {
      EmptyRead(r, uuid, rs[0]);
      assert After(C5, s, n).1 + [] == After(C5, s, n).1;
    }
  }

  lemma FollowsInv(r: RState, bs: seq<Block>, tail: bytes, n: nat)
    requires BlockGrammar(bs) && n <= |Frames(bs) + tail| && Follows(r, bs, tail, n)
    ensures Inv(r.c)
  {
  }

  lemma EmptyRead(r: RState, uuid: bytes, read: Read)
    requires Inv(r.c) && Concat(read.chunks) == []
    ensures ReadStep(r, uuid, read) == (r, [])
  {
  }

  lemma FilterOnceRest(rs: seq<Read>)
    requires FilterOnce(rs) && rs != []
    ensures FilterOnce(rs[1..])
  {
    assert forall i :: 0 <= i < |rs[1..]| ==> rs[1..][i] == rs[i + 1];
  }

  lemma {:induction false} RestStep(r: RState, uuid: bytes, bs: seq<Block>, tail: bytes, n: nat, rs: seq<Read>)
    requires BlockGrammar(bs) && Rest(r, bs, tail, n, rs)
    requires rs != [] && MayStart(bs, n, rs[0]) && Shut(uuid, bs, tail, n, rs[0])
    ensures After(C5, Frames(bs) + tail, n).1 + ReadAll(r, uuid, rs).1 == Contents(bs) + tail
       <==> AllRight(uuid, bs, tail, rs, n)
    decreases rs, 0
  {
    hide ReadStep, Follows, MayStart, Next, ReadAll, Shut;
    FollowsInv(r, bs, tail, n);
    var (r1, out) := ReadStep(r, uuid, rs[0]);
    RestRead(r, uuid, bs, tail, n, rs);
    FollowsInv(r1, bs, tail, n + |Concat(rs[0].chunks)|);
    RestExact(r1, uuid, bs, tail, n + |Concat(rs[0].chunks)|, rs[1..]);
    ReadAllCons(r, uuid, rs);
    Assoc(After(C5, Frames(bs) + tail, n).1, out, ReadAll(r1, uuid, rs[1..]).1);
  }

  /** The first read opens a second parse. */
  lemma {:induction false} FirstReopened(uuid: bytes, bs: seq<Block>, tail: bytes, rs: seq<Read>)
    requires BlockGrammar(bs) && (!Terminated(bs) ==> tail == []) && Cuts(uuid, bs, tail, rs)
    requires Concat(AllChunks(rs)) == Stream(uuid, bs, tail) && !FirstShut(uuid, bs, tail, rs[0].chunks)
    ensures |ReadAll(NEW_READER, uuid, rs).1| + 16 <= |Contents(bs) + tail|
  {
    hide After, Unpads, ReadStep, ReadAll, ParseEndsAt, NoReopening, Next;
    var s, chunks := Frames(bs) + tail, rs[0].chunks;
    var n := |Concat(chunks)| - 16;
    FirstReadCuts(uuid, bs, tail, rs);
    UnderWay(C5, bs, tail);
    UnpadsTwice(NEW_READER.c, uuid, s, End(bs, tail), chunks);
    FirstStep(uuid, rs[0]);
    ReadAllCons(NEW_READER, uuid, rs);
    ReadAllBound(ReadStep(NEW_READER, uuid, rs[0]).0, uuid, rs[1..]);
    PastEnd(bs, tail, n, AllChunks(rs[1..]));
  }

  /** When the output is right, from the first read on. */
  ghost predicate RightCuts(uuid: bytes, bs: seq<Block>, tail: bytes, rs: seq<Read>)
    requires AllFit(bs) && rs != [] && |Concat(rs[0].chunks)| >= 16
  {
    FirstShut(uuid, bs, tail, rs[0].chunks) && AllRight(uuid, bs, tail, rs[1..], |Concat(rs[0].chunks)| - 16)
  }

  /**
   * When the output is right. A whole stream, cut into any reads of which the first buffer holds user id and header and
   * none filters after one that does not: what is handed on is what was written if and only if no read starts at an
   * early cut, unless it still filters and the block is an End, and no chunk past the end starts like a new stream in a
   * read that still unpads.
   */
  lemma {:induction false} OutputExact(uuid: bytes, bs: seq<Block>, tail: bytes, rs: seq<Read>)
    requires BlockGrammar(bs) && (!Terminated(bs) ==> tail == []) && Cuts(uuid, bs, tail, rs)
    requires Concat(AllChunks(rs)) == Stream(uuid, bs, tail) && FilterOnce(rs)
    ensures |Concat(rs[0].chunks)| >= 16
    ensures ReadAll(NEW_READER, uuid, rs).1 == Contents(bs) + tail <==> RightCuts(uuid, bs, tail, rs)
  {
    hide After, Next, Follows, FilterOnce, FirstShut, ReadStep, ReadAll, EarlyCut, InStep, AllRight;
    var n := |Concat(rs[0].chunks)| - 16;
    FirstReadCuts(uuid, bs, tail, rs);
    if FirstShut(uuid, bs, tail, rs[0].chunks) {
      FirstRead(uuid, bs, tail, rs);
      FirstAtCut(uuid, bs, tail, rs);
      FilterOnceRest(rs);
      ReadAllCons(NEW_READER, uuid, rs);
      RestExact(ReadStep(NEW_READER, uuid, rs[0]).0, uuid, bs, tail, n, rs[1..]);
    } else {
      FirstReopened(uuid, bs, tail, rs);
    }
  }

  // ----- a first buffer that is too short -----

  /** No chunk opens a parse. */
  predicate NoneOpens(uuid: bytes, chunks: seq<bytes>) {
    forall i :: 0 <= i < |chunks| ==> !Opens(uuid, chunks[i])
  }

  lemma {:induction false} UnpadsNothing(c: Counters, uuid: bytes, chunks: seq<bytes>)
    requires Initial(c) && NoneOpens(uuid, chunks)
    ensures Unpads(c, uuid, chunks) == (c, Concat(chunks))
    decreases chunks
  {
    if chunks != [] {
      assert forall i :: 0 <= i < |chunks[1..]| ==> chunks[1..][i] == chunks[i + 1];
      UnpadsNothing(c, uuid, chunks[1..]);
    }
  }

  /** Until a chunk opens the parse, everything is handed on as it came, and the reader stays as it was. */
  lemma {:induction false} NothingOpened(r: RState, uuid: bytes, rs: seq<Read>)
    requires r == NEW_READER && NoneOpens(uuid, AllChunks(rs))
    ensures ReadAll(r, uuid, rs) == (r, Concat(AllChunks(rs)))
    decreases rs
  {
    if rs != [] {
      var chunks, rest := rs[0].chunks, AllChunks(rs[1..]);
      assert forall i :: 0 <= i < |chunks| ==> chunks[i] == (chunks + rest)[i];
      assert forall i :: 0 <= i < |rest| ==> rest[i] == (chunks + rest)[i + |chunks|];
      UnpadsNothing(r.c, uuid, chunks);
      NothingOpened(r, uuid, rs[1..]);
      ConcatAppend(chunks, rest);
    }
  }

  /** So a stream whose first buffer is too short is handed on with all of its framing, unless a later chunk opens. */
  lemma {:induction false} ShortFirst(uuid: bytes, bs: seq<Block>, tail: bytes, rs: seq<Read>)
    requires BlockGrammar(bs) && |uuid| == 16 && NoneOpens(uuid, AllChunks(rs))
    requires Concat(AllChunks(rs)) == Stream(uuid, bs, tail)
    ensures ReadAll(NEW_READER, uuid, rs).1 == Stream(uuid, bs, tail) != Contents(bs) + tail
  {
    NothingOpened(NEW_READER, uuid, rs);
    ContentsShorter(bs);
  }

  lemma {:induction false} ContentsShorter(bs: seq<Block>)
    requires AllFit(bs)
    ensures |Contents(bs)| <= |Frames(bs)|
  {
    if bs != [] {
      ContentsShorter(bs[1..]);
    }
  }
}
