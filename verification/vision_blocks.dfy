/** Whole block streams: what a writer may put on the wire, and what the unpadding parser makes of it. */
module VisionBlocks {
  import opened Bytes
  import opened VisionFrame
  import opened VisionState
  import opened VisionUnpadding

  predicate AllFit(bs: seq<Block>) {
    forall i :: 0 <= i < |bs| ==> Fits(bs[i])
  }

  function Frames(bs: seq<Block>): bytes
    requires AllFit(bs)
  {
    if bs == [] then [] else Frame(bs[0]) + Frames(bs[1..])
  }

  function Contents(bs: seq<Block>): bytes {
    if bs == [] then [] else bs[0].content + Contents(bs[1..])
  }

  /** The block grammar: any number of Continue blocks, of which the last may be an End or a Direct instead. */
  predicate BlockGrammar(bs: seq<Block>) {
    && AllFit(bs)
    && (forall i :: 0 <= i < |bs| - 1 ==> bs[i].command == CONTINUE)
    && (bs != [] ==> bs[|bs| - 1].command in [CONTINUE, END, DIRECT])
  }

  predicate Terminated(bs: seq<Block>) {
    bs != [] && bs[|bs| - 1].command != CONTINUE
  }

  /** Terminated, and by which command. */
  predicate EndsWith(bs: seq<Block>, command: byte) {
    bs != [] && bs[|bs| - 1].command == command
  }

  lemma Assoc(a: bytes, b: bytes, c: bytes)
    ensures (a + b) + c == a + (b + c)
  {
  }

  lemma {:induction false} FramesAppend(a: seq<Block>, b: seq<Block>)
    requires AllFit(a) && AllFit(b)
    ensures Frames(a + b) == Frames(a) + Frames(b) && Contents(a + b) == Contents(a) + Contents(b)
  {
    if a == [] {
      assert a + b == b;
    } else {
      assert (a + b)[0] == a[0] && (a + b)[1..] == a[1..] + b;
      FramesAppend(a[1..], b);
      Assoc(Frame(a[0]), Frames(a[1..]), Frames(b));
      Assoc(a[0].content, Contents(a[1..]), Contents(b));
    }
  }

  lemma GrammarAppend(a: seq<Block>, b: seq<Block>)
    requires BlockGrammar(a) && BlockGrammar(b) && !Terminated(a)
    ensures BlockGrammar(a + b)
    ensures Terminated(a + b) <==> Terminated(b)
    ensures b != [] ==> forall c :: EndsWith(a + b, c) <==> EndsWith(b, c)
  {
    if b == [] {
      assert a + b == a;
    }
  }

  // ----- parsing a frame -----

  /** Ready for a block header. */
  predicate AtHeader(c: Counters) {
    InHeader(c) && c.command == 5
  }

  /** Content and padding of a block whose header has just been read. */
  lemma FeedBody(c: Counters, content: bytes, padding: nat)
    requires c.command == 0 && c.content == |content| < 65536 && c.padding == padding < 65536
    ensures Inv(Finish(c))
    ensures content == [] && padding == 0 ==> Finish(c) == Finish(Counters(0, 0, 0, c.current))
    ensures content != [] || padding != 0 ==>
              Feed(Finish(c), content + Repeat(0, padding)) == (Finish(Counters(0, 0, 0, c.current)), content)
  {
    var pad := Repeat(0, padding);
    if content != [] || padding != 0 {
      var mid := Finish(Counters(0, 0, padding, c.current));
      if content != [] {
        FeedContent(c, content);
      } else {
        assert Feed(c, content) == (mid, []);
      }
      if padding != 0 {
        FeedPadding(mid, pad);
      } else {
        assert pad == [] && Feed(mid, pad) == (mid, []);
      }
      FeedSplit(c, content, pad);
      assert content + [] == content;
    }
  }

  /** A whole frame gives back its content, and either readies the parser for the next header or ends the parse. */
  lemma FeedFrame(c: Counters, b: Block)
    requires AtHeader(c) && Fits(b)
    ensures Feed(c, Frame(b)) == (Finish(Counters(0, 0, 0, b.command)), b.content)
  {
    var h, body := Header(b), b.content + Repeat(0, b.padding);
    var c0 := Counters(0, |b.content|, b.padding, b.command);
    FeedHeader(c, h);
    FeedBody(c0, b.content, b.padding);
    FeedSplit(c, h, body);
    assert Frame(b) == h + body;
    if body == [] {
      assert b.content == [] && b.padding == 0;
    } else {
      assert b.content != [] || b.padding != 0;
    }
    assert [] + b.content == b.content;
  }

  /** And so does a whole block stream. */
  lemma {:induction false} FeedFrames(c: Counters, bs: seq<Block>)
    requires AtHeader(c) && BlockGrammar(bs)
    ensures var (c1, out) := Feed(c, Frames(bs));
            && out == Contents(bs)
            && (Terminated(bs) ==> Initial(c1) && c1.current == bs[|bs| - 1].command)
            && (!Terminated(bs) ==> AtHeader(c1) && (bs != [] ==> c1.current == 0))
    decreases bs
  {
    if bs != [] {
      FeedFrame(c, bs[0]);
      var c1 := Finish(Counters(0, 0, 0, bs[0].command));
      FeedSplit(c, Frame(bs[0]), Frames(bs[1..]));
      if |bs| == 1 {
        assert bs[1..] == [];
        assert Feed(c1, []) == (c1, []);
        assert bs[0].content + [] == bs[0].content;
      } else {
        FeedFrames(c1, bs[1..]);
      }
    }
  }

  // ----- how far the parser is -----

  /** The counters `n` bytes into a block header, for `n` in `0 .. 4`. */
  function MidHeader(c: Counters, h: bytes, n: nat): Counters
    requires |h| >= n && n <= 4
  {
    match n {
      case 0 => c
      case 1 => Counters(4, c.content, c.padding, h[0])
      case 2 => Counters(3, U16(h[1], 0), c.padding, h[0])
      case 3 => Counters(2, U16(h[1], h[2]), c.padding, h[0])
      case _ => Counters(1, U16(h[1], h[2]), U16(h[3], 0), h[0])
    }
  }

  lemma {:induction false} FeedHeaderPart(c: Counters, h: bytes)
    requires AtHeader(c) && |h| <= 4
    ensures Feed(c, h) == (MidHeader(c, h, |h|), [])
  {
    if h != [] {
      var k := |h| - 1;
      FeedHeaderPart(c, h[..k]);
      FeedSplit(c, h[..k], h[k..]);
      assert h == h[..k] + h[k..];
      assert h[k..][1..] == [];
    }
  }

  /** A proper prefix of a body leaves content or padding to come. */
  lemma FeedBodyPart(c: Counters, content: bytes, padding: nat, m: nat)
    requires c.command == 0 && c.content == |content| < 65536 && c.padding == padding < 65536
    requires m < |content| + padding
    ensures InBody(Feed(c, (content + Repeat(0, padding))[..m]).0)
  {
    var a := (content + Repeat(0, padding))[..m];
    if m == 0 {
    } else if m < |content| {
      FeedContent(c, a);
    } else {
      var mid := Counters(0, 0, padding, c.current);
      var k := m - |content|;
      if content != [] {
        FeedContent(c, content);
      }
      assert Feed(c, content).0 == mid;
      if k > 0 {
        FeedPadding(mid, Repeat(0, padding)[..k]);
      }
      FeedSplit(c, content, Repeat(0, padding)[..k]);
      assert a == content + Repeat(0, padding)[..k];
    }
  }

  /** Inside a frame the parse never ends; inside its header the counters are known. */
  lemma FeedFramePart(c: Counters, b: Block, n: nat)
    requires AtHeader(c) && Fits(b) && n < |Frame(b)|
    ensures n < 5 ==> Feed(c, Frame(b)[..n]).0 == MidHeader(c, Header(b), n)
    ensures n >= 5 ==> InBody(Feed(c, Frame(b)[..n]).0)
    ensures !Initial(Feed(c, Frame(b)[..n]).0)
  {
    var h, body := Header(b), b.content + Repeat(0, b.padding);
    assert Frame(b) == h + body;
    if n < 5 {
      assert Frame(b)[..n] == h[..n];
      FeedHeaderPart(c, h[..n]);
    } else {
      FeedHeader(c, h);
      FeedSplit(c, h, body[..n - 5]);
      assert Frame(b)[..n] == h + body[..n - 5];
      FeedBodyPart(Counters(0, |b.content|, b.padding, b.command), b.content, b.padding, n - 5);
    }
  }

  lemma FramesFirst(bs: seq<Block>)
    requires AllFit(bs) && bs != []
    ensures Frames(bs) == Frame(bs[0]) + Frames(bs[1..])
    ensures |bs| == 1 ==> Frames(bs) == Frame(bs[0])
  {
  }

  /** A prefix that covers the first, not terminal, block. */
  lemma {:induction false} SkipFirst(c: Counters, bs: seq<Block>, n: nat)
    requires AtHeader(c) && BlockGrammar(bs) && |bs| > 1 && |Frame(bs[0])| <= n < |Frames(bs)|
    ensures Feed(c, Frames(bs)[..n]).0 == Feed(Counters(5, 0, 0, 0), Frames(bs[1..])[..n - |Frame(bs[0])|]).0
  {
    var f := Frame(bs[0]);
    FeedFrame(c, bs[0]);
    FramesFirst(bs);
    PrefixOfTwo(f, Frames(bs[1..]), n);
    FeedSplit(c, f, Frames(bs[1..])[..n - |f|]);
  }

  lemma PrefixOfTwo(a: bytes, b: bytes, n: nat)
    requires |a| <= n <= |a| + |b|
    ensures (a + b)[..n] == a + b[..n - |a|]
  {
  }

  /** Where offset `n` of a block stream falls: block `i`, `k` bytes into its frame. */
  lemma {:induction false} Locate(c: Counters, bs: seq<Block>, n: nat) returns (i: nat, k: nat, ci: Counters)
    requires AtHeader(c) && BlockGrammar(bs) && n < |Frames(bs)|
    ensures i < |bs| && k < |Frame(bs[i])| && n == |Frames(bs[..i])| + k
    ensures AtHeader(ci) && (i == 0 ==> ci == c) && (i > 0 ==> ci == Counters(5, 0, 0, 0))
    ensures Feed(c, Frames(bs)[..n]).0 == Feed(ci, Frame(bs[i])[..k]).0
    decreases bs
  {
    hide Terminated, Contents;
    FramesFirst(bs);
    var f := Frame(bs[0]);
    if n < |f| {
      i, k, ci := 0, n, c;
      assert Frames(bs)[..n] == f[..n];
    } else {
      SkipFirst(c, bs, n);
      var j;
      j, k, ci := Locate(Counters(5, 0, 0, 0), bs[1..], n - |f|);
      i := j + 1;
      assert bs[..i][0] == bs[0] && bs[..i][1..] == bs[1..][..j];
    }
  }

  /** The parse ends exactly at the last byte of the terminal block. */
  lemma EndsAtTheEnd(c: Counters, bs: seq<Block>, n: nat)
    requires AtHeader(c) && BlockGrammar(bs) && n <= |Frames(bs)|
    ensures Initial(Feed(c, Frames(bs)[..n]).0) <==> n == |Frames(bs)| && Terminated(bs)
  {
    if n < |Frames(bs)| {
      var i, k, ci := Locate(c, bs, n);
      FeedFramePart(ci, bs[i], k);
    } else {
      assert Frames(bs)[..n] == Frames(bs);
      FeedFrames(c, bs);
    }
  }

  // ----- the unpadding round trip -----

  /** What one direction carries in padding mode: user id, blocks, and whatever follows a terminal block. */
  function Stream(uuid: bytes, bs: seq<Block>, tail: bytes): bytes
    requires AllFit(bs)
  {
    uuid + (Frames(bs) + tail)
  }

  /** A fold of `Unpad` over the chunks a reader sees. */
  function Unpads(c: Counters, uuid: bytes, chunks: seq<bytes>): (r: (Counters, bytes))
    requires Inv(c)
    ensures Inv(r.0)
    decreases chunks
  {
    if chunks == [] then (c, [])
    else
      var (c1, out) := Unpad(c, uuid, chunks[0]);
      var (c2, rest) := Unpads(c1, uuid, chunks[1..]);
      (c2, out + rest)
  }

  /** Outside a parse a chunk is handed on as it came, unless it has 21 bytes and starts with the user id. */
  lemma OpensExactly(c: Counters, uuid: bytes, chunk: bytes)
    requires Initial(c) && |uuid| == 16
    ensures Unpad(c, uuid, chunk) == (c, chunk) <==> |chunk| < 21 || chunk[..16] != uuid
    ensures |chunk| >= 21 && chunk[..16] == uuid ==> Unpad(c, uuid, chunk) == Feed(c.(command := 5), chunk[16..])
  {
  }

  /** No chunk that starts at or after `end` opens a second parse; `at` is where the chunks start. */
  predicate NoReopening(uuid: bytes, chunks: seq<bytes>, at: nat, end: nat)
    decreases chunks
  {
    chunks != [] ==> (at >= end ==> !Opens(uuid, chunks[0])) && NoReopening(uuid, chunks[1..], at + |chunks[0]|, end)
  }

  /** The parser after `n` bytes of blocks and tail. */
  function After(c: Counters, s: bytes, n: nat): (Counters, bytes)
    requires Inv(c) && n <= |s|
  {
    Feed(c, s[..n])
  }

  lemma AfterMore(c: Counters, s: bytes, n: nat, chunk: bytes)
    requires Inv(c) && n + |chunk| <= |s| && s[n..n + |chunk|] == chunk
    ensures After(c, s, n + |chunk|)
        == (Feed(After(c, s, n).0, chunk).0, After(c, s, n).1 + Feed(After(c, s, n).0, chunk).1)
  {
    Extend(s, n, n + |chunk|);
    assert s[..n] + chunk == s[..n + |chunk|];
    FeedSplit(c, s[..n], chunk);
  }

  lemma Extend(s: bytes, n: nat, m: nat)
    requires n <= m <= |s|
    ensures s[..n] + s[n..m] == s[..m]
  {
  }

  lemma SliceSplit(s: bytes, n: nat, k: nat, m: nat)
    requires n + k + m <= |s|
    ensures s[n..n + k + m][..k] == s[n..n + k] && s[n..n + k + m][k..] == s[n + k..n + k + m]
  {
  }

  /** The first chunk of a stretch of the stream, and the rest. */
  lemma Stretch(s: bytes, n: nat, chunks: seq<bytes>)
    requires chunks != [] && n + |Concat(chunks)| <= |s| && s[n..n + |Concat(chunks)|] == Concat(chunks)
    ensures var k, m := |chunks[0]|, |Concat(chunks[1..])|;
            && k + m == |Concat(chunks)|
            && s[n..n + k] == chunks[0] && s[n + k..n + k + m] == Concat(chunks[1..])
  {
    SliceSplit(s, n, |chunks[0]|, |Concat(chunks[1..])|);
  }

  /** The parse of `s` is under way before offset `end` and over from there on. */
  predicate ParseEndsAt(c: Counters, s: bytes, end: nat)
    requires Inv(c)
  {
    forall n :: 0 <= n <= |s| ==> (Initial(After(c, s, n).0) <==> n >= end)
  }

  /** The offset, counted after the user id, at which a parse of these blocks ends; beyond the stream if it does not. */
  function End(bs: seq<Block>, tail: bytes): nat
    requires AllFit(bs)
  {
    if Terminated(bs) then |Frames(bs)| else |Frames(bs)| + |tail| + 1
  }

  lemma UnderWay(c: Counters, bs: seq<Block>, tail: bytes)
    requires AtHeader(c) && BlockGrammar(bs) && (!Terminated(bs) ==> tail == [])
    ensures ParseEndsAt(c, Frames(bs) + tail, End(bs, tail))
  {
    var f := Frames(bs);
    forall n | 0 <= n <= |f + tail|
      ensures Initial(After(c, f + tail, n).0) <==> n >= End(bs, tail)
    {
      if n <= |f| {
        assert (f + tail)[..n] == f[..n];
        EndsAtTheEnd(c, bs, n);
      } else {
        assert (f + tail)[..n] == f + tail[..n - |f|];
        FeedFrames(c, bs);
        FeedSplit(c, f, tail[..n - |f|]);
      }
    }
  }

  /** Chunks from offset `n` on: the fold over them is one run of the byte machine. */
  lemma {:induction false} UnpadsFollow(c: Counters, uuid: bytes, s: bytes, end: nat, n: nat, chunks: seq<bytes>)
    requires Inv(c) && ParseEndsAt(c, s, end)
    requires n + |Concat(chunks)| <= |s| && s[n..n + |Concat(chunks)|] == Concat(chunks)
    requires NoReopening(uuid, chunks, n, end)
    ensures var (c1, o1) := After(c, s, n);
            var (c2, o2) := Unpads(c1, uuid, chunks);
            After(c, s, n + |Concat(chunks)|) == (c2, o1 + o2)
    decreases chunks
  {
    if chunks == [] {
      assert After(c, s, n).1 + [] == After(c, s, n).1;
    } else {
      var chunk, rest := chunks[0], Concat(chunks[1..]);
      Stretch(s, n, chunks);
      AfterMore(c, s, n, chunk);
      var (c1, o1) := After(c, s, n);
      assert Initial(c1) <==> n >= end;
      var (c2, o2) := Unpad(c1, uuid, chunk);
      assert (c2, o2) == Feed(c1, chunk);
      UnpadsFollow(c, uuid, s, end, n + |chunk|, chunks[1..]);
      var (c3, o3) := Unpads(c2, uuid, chunks[1..]);
      Assoc(o1, o2, o3);
    }
  }

  lemma {:induction false} UnpadsBound(c: Counters, uuid: bytes, chunks: seq<bytes>)
    requires Inv(c)
    ensures |Unpads(c, uuid, chunks).1| <= |Concat(chunks)|
    decreases chunks
  {
    if chunks != [] {
      UnpadsBound(Unpad(c, uuid, chunks[0]).0, uuid, chunks[1..]);
    }
  }

  lemma {:induction false} ReopenedBound(c: Counters, uuid: bytes, chunks: seq<bytes>)
    requires Initial(c) && chunks != [] && Opens(uuid, chunks[0])
    ensures |Unpads(c, uuid, chunks).1| + 16 <= |Concat(chunks)|
    ensures Feed(c, Concat(chunks)).1 == Concat(chunks)
  {
    UnpadsBound(Unpad(c, uuid, chunks[0]).0, uuid, chunks[1..]);
  }

  /** What a chunk costs that opens a second parse after the end: at least the sixteen bytes taken for a user id. */
  lemma {:induction false} UnpadsReopened(c: Counters, uuid: bytes, s: bytes, end: nat, n: nat, chunks: seq<bytes>)
    requires Inv(c) && ParseEndsAt(c, s, end)
    requires n + |Concat(chunks)| <= |s| && s[n..n + |Concat(chunks)|] == Concat(chunks)
    requires !NoReopening(uuid, chunks, n, end)
    ensures n + |Concat(chunks)| >= end
    ensures |After(c, s, n).1| + |Unpads(After(c, s, n).0, uuid, chunks).1| + 16
         <= |After(c, s, n + |Concat(chunks)|).1|
    decreases chunks
  {
    var chunk, c1 := chunks[0], After(c, s, n).0;
    assert Initial(c1) <==> n >= end;
    if n >= end && Opens(uuid, chunk) {
      hide After, Unpads;
      ReopenedBound(c1, uuid, chunks);
      AfterMore(c, s, n, Concat(chunks));
    } else {
      hide After, Feed;
      Stretch(s, n, chunks);
      AfterMore(c, s, n, chunk);
      assert Unpad(c1, uuid, chunk) == Feed(c1, chunk);
      UnpadsReopened(c, uuid, s, end, n + |chunk|, chunks[1..]);
    }
  }

  /** The chunk that opens the parse, and the chunks after it. */
  lemma UnpadsOpen(c: Counters, uuid: bytes, s: bytes, end: nat, n: nat, chunk: bytes, rest: seq<bytes>)
    requires Initial(c) && ParseEndsAt(c.(command := 5), s, end)
    requires n + |Concat(rest)| <= |s| && s[n..n + |Concat(rest)|] == Concat(rest)
    requires Opens(uuid, chunk) && chunk[16..] == s[..n] && NoReopening(uuid, rest, n, end)
    ensures var (c1, o1) := Unpad(c, uuid, chunk);
            var (c2, o2) := Unpads(c1, uuid, rest);
            After(c.(command := 5), s, n + |Concat(rest)|) == (c2, o1 + o2)
  {
    UnpadsFollow(c.(command := 5), uuid, s, end, n, rest);
  }

  lemma UnpadsStarted(c: Counters, uuid: bytes, s: bytes, end: nat, chunks: seq<bytes>)
    requires Initial(c) && |uuid| == 16 && ParseEndsAt(c.(command := 5), s, end)
    requires chunks != [] && |chunks[0]| >= OVERHEAD && Concat(chunks) <= uuid + s
    requires NoReopening(uuid, chunks[1..], |chunks[0]| - 16, end)
    ensures var (c1, o1) := Unpad(c, uuid, chunks[0]);
            var (c2, o2) := Unpads(c1, uuid, chunks[1..]);
            After(c.(command := 5), s, |Concat(chunks)| - 16) == (c2, o1 + o2)
  {
    FirstChunk(uuid, s, chunks);
    UnpadsOpen(c, uuid, s, end, |chunks[0]| - 16, chunks[0], chunks[1..]);
  }

  /** All chunks of a stream. */
  lemma UnpadsFromStart(c: Counters, uuid: bytes, s: bytes, end: nat, chunks: seq<bytes>)
    requires Initial(c) && |uuid| == 16 && ParseEndsAt(c.(command := 5), s, end)
    requires chunks != [] && |chunks[0]| >= OVERHEAD && Concat(chunks) <= uuid + s
    requires NoReopening(uuid, chunks[1..], |chunks[0]| - 16, end)
    ensures Unpads(c, uuid, chunks) == After(c.(command := 5), s, |Concat(chunks)| - 16)
  {
    UnpadsStarted(c, uuid, s, end, chunks);
  }

  /** A stream with a chunk that opens a second parse. */
  lemma UnpadsTwice(c: Counters, uuid: bytes, s: bytes, end: nat, chunks: seq<bytes>)
    requires Initial(c) && |uuid| == 16 && ParseEndsAt(c.(command := 5), s, end)
    requires chunks != [] && |chunks[0]| >= OVERHEAD && Concat(chunks) <= uuid + s
    requires !NoReopening(uuid, chunks[1..], |chunks[0]| - 16, end)
    ensures |Concat(chunks)| - 16 >= end
    ensures |Unpads(c, uuid, chunks).1| + 16 <= |After(c.(command := 5), s, |Concat(chunks)| - 16).1|
  {
    FirstChunk(uuid, s, chunks);
    UnpadsReopened(c.(command := 5), uuid, s, end, |chunks[0]| - 16, chunks[1..]);
  }

  /**
   * The unpadding round trip. Cut the stream of any grammatical block sequence, with any tail after a terminal block,
   * into any chunks, of which the first holds user id and header. The outputs spell the contents and the tail if and
   * only if no chunk at or after the end starts like a new stream; and then, on a prefix of the stream, they spell a
   * prefix.
   */
  lemma UnpaddingRoundTrip(c: Counters, uuid: bytes, bs: seq<Block>, tail: bytes, chunks: seq<bytes>)
    requires Initial(c) && |uuid| == 16 && BlockGrammar(bs) && (!Terminated(bs) ==> tail == [])
    requires chunks != [] && |chunks[0]| >= OVERHEAD
    requires Concat(chunks) <= Stream(uuid, bs, tail)
    ensures NoReopening(uuid, chunks[1..], |chunks[0]| - 16, End(bs, tail)) ==>
              && Unpads(c, uuid, chunks).1 <= Contents(bs) + tail
              && (Initial(Unpads(c, uuid, chunks).0) <==> |Concat(chunks)| >= 16 + End(bs, tail))
    ensures Concat(chunks) == Stream(uuid, bs, tail) ==>
              (Unpads(c, uuid, chunks).1 == Contents(bs) + tail
               <==> NoReopening(uuid, chunks[1..], |chunks[0]| - 16, End(bs, tail)))
  {
    hide After, Feed, NoReopening, Unpads, ParseEndsAt;
    var s := Frames(bs) + tail;
    UnderWay(c.(command := 5), bs, tail);
    OutputSoFar(c.(command := 5), bs, tail, |Concat(chunks)| - 16);
    if NoReopening(uuid, chunks[1..], |chunks[0]| - 16, End(bs, tail)) {
      UnpadsFromStart(c, uuid, s, End(bs, tail), chunks);
    } else {
      UnpadsTwice(c, uuid, s, End(bs, tail), chunks);
    }
  }

  /** What the byte machine has put out after `n` bytes of blocks and tail. */
  lemma OutputSoFar(c: Counters, bs: seq<Block>, tail: bytes, n: nat)
    requires AtHeader(c) && BlockGrammar(bs) && (!Terminated(bs) ==> tail == [])
    requires n <= |Frames(bs) + tail|
    ensures var out := After(c, Frames(bs) + tail, n).1;
            && out <= Contents(bs) + tail
            && (n == |Frames(bs) + tail| ==> out == Contents(bs) + tail)
  {
    var s := Frames(bs) + tail;
    FeedFrames(c, bs);
    FeedSplit(c, Frames(bs), tail);
    assert Feed(c, s).1 == Contents(bs) + tail by {
      assert Contents(bs) + [] == Contents(bs);
    }
    FeedSplit(c, s[..n], s[n..]);
    assert s == s[..n] + s[n..];
    assert s[..|s|] == s;
  }

  lemma FirstChunk(uuid: bytes, s: bytes, chunks: seq<bytes>)
    requires |uuid| == 16 && chunks != [] && |chunks[0]| >= OVERHEAD && Concat(chunks) <= uuid + s
    ensures var chunk, rest, n := chunks[0], Concat(chunks[1..]), |chunks[0]| - 16;
            && Opens(uuid, chunk) && chunk[16..] == s[..n]
            && n + |rest| <= |s| && s[n..n + |rest|] == rest
            && |Concat(chunks)| == 16 + n + |rest|
  {
    var chunk, rest, n := chunks[0], Concat(chunks[1..]), |chunks[0]| - 16;
    assert chunk == Concat(chunks)[..|chunk|] == (uuid + s)[..|chunk|];
    assert rest == Concat(chunks)[|chunk|..] == (uuid + s)[|chunk|..|chunk| + |rest|];
  }
}
