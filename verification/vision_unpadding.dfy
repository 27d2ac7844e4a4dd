/** `XtlsUnpadding`: the counter machine that takes blocks apart, one chunk at a time. */
module VisionUnpadding {
  import opened Bytes
  import opened Buf
  import opened VisionFrame
  import opened VisionState

  /** Before the first block, and after a terminal one. */
  predicate Initial(c: Counters) {
    c.command == -1 && c.content == -1 && c.padding == -1
  }

  predicate InHeader(c: Counters) {
    && 1 <= c.command <= 5
    && (c.command >= 4 ==> -1 <= c.content <= 0)
    && (c.command == 3 ==> 0 <= c.content < 65536 && c.content % 256 == 0)
    && (c.command <= 2 ==> 0 <= c.content < 65536)
    && (c.command >= 2 ==> -1 <= c.padding <= 0)
    && (c.command == 1 ==> 0 <= c.padding < 65536 && c.padding % 256 == 0)
  }

  predicate InBody(c: Counters) {
    && c.command == 0 && 0 <= c.content < 65536 && 0 <= c.padding < 65536
    && (c.content > 0 || c.padding > 0)
  }

  /** The only states the machine reaches, on whatever bytes. */
  predicate Inv(c: Counters) {
    Initial(c) || InHeader(c) || InBody(c)
  }

  /**
   * One header byte. The low halves are combined with a bitwise or in the program, which is
   * addition here because `Inv` makes the low eight bits zero.
   */
  function HeaderByte(c: Counters, x: byte): Counters
    requires InHeader(c)
  {
    match c.command {
      case 5 => c.(current := x, command := 4)
      case 4 => c.(content := U16(x, 0), command := 3)
      case 3 => c.(content := c.content + x, command := 2)
      case 2 => c.(padding := U16(x, 0), command := 1)
      case _ => c.(padding := c.padding + x, command := 0)
    }
  }

  /** A block that has run out makes room for the next header, or ends the parse. */
  function Finish(c: Counters): Counters {
    if c.command <= 0 && c.content <= 0 && c.padding <= 0 then
      if c.current == 0 then c.(command := 5) else Counters(-1, -1, -1, c.current)
    else c
  }

  /** What one byte does, and the output it gives. */
  function Step(c: Counters, x: byte): (r: (Counters, bytes))
    requires Inv(c) && !Initial(c)
    ensures Inv(r.0)
  {
    if c.command > 0 then (Finish(HeaderByte(c, x)), [])
    else if c.content > 0 then (Finish(c.(content := c.content - 1)), [x])
    else (Finish(c.(padding := c.padding - 1)), [])
  }

  /** A run of bytes; once the parse has ended the rest passes through. */
  function Feed(c: Counters, bs: bytes): (r: (Counters, bytes))
    requires Inv(c)
    ensures Inv(r.0) && |r.1| <= |bs|
    decreases |bs|
  {
    if bs == [] then (c, [])
    else if Initial(c) then (c, bs)
    else
      var (c1, out) := Step(c, bs[0]);
      var (c2, rest) := Feed(c1, bs[1..]);
      (c2, out + rest)
  }

  /** A chunk that opens a parse: long enough for user id and header, and starting with the user id. */
  predicate Opens(uuid: bytes, chunk: bytes) {
    |chunk| >= OVERHEAD && chunk[..16] == uuid
  }

  /** One call of `XtlsUnpadding`. */
  function Unpad(c: Counters, uuid: bytes, chunk: bytes): (r: (Counters, bytes))
    requires Inv(c)
    ensures Inv(r.0) && |r.1| <= |chunk|
  {
    if Initial(c) then
      if Opens(uuid, chunk) then Feed(c.(command := 5), chunk[16..]) else (c, chunk)
    else Feed(c, chunk)
  }

  // ----- the byte machine -----

  /** Cutting the input changes nothing. */
  lemma {:induction false} FeedSplit(c: Counters, a: bytes, b: bytes)
    requires Inv(c)
    ensures var (c1, o1) := Feed(c, a);
            var (c2, o2) := Feed(c1, b);
            Feed(c, a + b) == (c2, o1 + o2)
    decreases |a|
  {
    if a == [] {
      assert a + b == b && [] + Feed(c, b).1 == Feed(c, b).1;
    } else if Initial(c) {
      if b == [] {
        assert a + b == a;
      }
    } else {
      var (c1, o) := Step(c, a[0]);
      FeedSplit(c1, a[1..], b);
      assert (a + b)[0] == a[0] && (a + b)[1..] == a[1..] + b;
      var (c2, o1) := Feed(c1, a[1..]);
      var (c3, o2) := Feed(c2, b);
      assert o + (o1 + o2) == (o + o1) + o2;
    }
  }

  /** The bulk copy of content bytes does what the byte machine does. */
  lemma {:induction false} FeedContent(c: Counters, a: bytes)
    requires InBody(c) && 0 < |a| <= c.content
    ensures Feed(c, a) == (Finish(c.(content := c.content - |a|)), a)
    decreases |a|
  {
    if |a| == 1 {
      assert a[1..] == [] && a == [a[0]] + [];
    } else {
      FeedContent(c.(content := c.content - 1), a[1..]);
      assert a == [a[0]] + a[1..];
    }
  }

  /** And so does skipping padding. */
  lemma {:induction false} FeedPadding(c: Counters, a: bytes)
    requires InBody(c) && c.content == 0 && 0 < |a| <= c.padding
    ensures Feed(c, a) == (Finish(c.(padding := c.padding - |a|)), [])
    decreases |a|
  {
    if |a| > 1 {
      FeedPadding(c.(padding := c.padding - 1), a[1..]);
    }
  }

  lemma FeedHeader(c: Counters, h: bytes)
    requires InHeader(c) && c.command == 5 && |h| == 5
    ensures Feed(c, h) == (Finish(Counters(0, U16(h[1], h[2]), U16(h[3], h[4]), h[0])), [])
  {
    var c4 := HeaderByte(c, h[0]);
    var c3 := HeaderByte(c4, h[1]);
    var c2 := HeaderByte(c3, h[2]);
    var c1 := HeaderByte(c2, h[3]);
    var c0 := HeaderByte(c1, h[4]);
    assert h[1..][0] == h[1] && h[1..][1..] == h[2..];
    assert h[2..][0] == h[2] && h[2..][1..] == h[3..];
    assert h[3..][0] == h[3] && h[3..][1..] == h[4..];
    assert h[4..][0] == h[4] && h[4..][1..] == [];
    assert Feed(c1, h[4..]) == (Finish(c0), []);
    assert Feed(c2, h[3..]) == (Finish(c0), []);
    assert Feed(c3, h[2..]) == (Finish(c0), []);
    assert Feed(c4, h[1..]) == (Finish(c0), []);
  }

  // ----- the loop on buffers -----

  predicate UnpaddingInv(l: LinkState)
    reads l
  {
    Inv(l.GetCounters())
  }

  /** `newbuffer` collects output until it is full. */
  ghost predicate Collected(nb: Buffer, out: bytes)
    reads nb
  {
    nb.Valid() && nb.start == 0 && |nb.v| == SIZE && nb.Data() == Take(out, SIZE)
  }

  method Collect(nb: Buffer, data: bytes, ghost out: bytes)
    requires Collected(nb, out)
    modifies nb
    ensures Collected(nb, out + data)
  {
    nb.Write(data);
  }

  /** One header byte: the switch of the loop body. */
  method ReadHeader(b: Buffer, l: LinkState)
    requires b.Valid() && b.Len() > 0 && InHeader(l.GetCounters())
    modifies b, l`remainingCommand, l`remainingContent, l`remainingPadding, l`currentCommand
    ensures b.Valid() && b.Data() == old(b.Data())[1..]
    ensures l.GetCounters() == HeaderByte(old(l.GetCounters()), old(b.Data())[0])
  {
    var data := b.ReadByte();
    match l.remainingCommand {
      case 5 => l.currentCommand := data;
      case 4 => l.remainingContent := U16(data, 0);
      case 3 => l.remainingContent := l.remainingContent + data;
      case 2 => l.remainingPadding := U16(data, 0);
      case _ => l.remainingPadding := l.remainingPadding + data;
    }
    l.remainingCommand := l.remainingCommand - 1;
  }

  /** As much content as the chunk holds. */
  method ReadContent(b: Buffer, l: LinkState) returns (data: bytes)
    requires b.Valid() && b.Len() > 0 && l.remainingContent > 0
    modifies b, l`remainingContent
    ensures b.Valid() && 0 < |data| <= old(l.remainingContent)
    ensures old(b.Data()) == data + b.Data()
    ensures l.remainingContent == old(l.remainingContent) - |data|
  {
    var n := l.remainingContent;
    if b.Len() < n {
      n := b.Len();
    }
    data := b.ReadBytes(n);
    l.remainingContent := l.remainingContent - n;
  }

  /** As much padding as the chunk holds. */
  method SkipPadding(b: Buffer, l: LinkState) returns (ghost data: bytes)
    requires b.Valid() && b.Len() > 0 && l.remainingPadding > 0
    modifies b, l`remainingPadding
    ensures b.Valid() && 0 < |data| <= old(l.remainingPadding)
    ensures old(b.Data()) == data + b.Data()
    ensures l.remainingPadding == old(l.remainingPadding) - |data|
  {
    var n := l.remainingPadding;
    if b.Len() < n {
      n := b.Len();
    }
    data := b.Data()[..n];
    b.Advance(n);
    l.remainingPadding := l.remainingPadding - n;
  }

  /** The end of the loop body: `ended` when it leaves the loop. */
  method FinishBlock(l: LinkState) returns (ended: bool)
    requires InBody(l.GetCounters())
        || (l.GetCounters().command == 0 && l.GetCounters().content == 0 && l.GetCounters().padding == 0)
        || InHeader(l.GetCounters())
    modifies l`remainingCommand, l`remainingContent, l`remainingPadding
    ensures l.GetCounters() == Finish(old(l.GetCounters())) && Inv(l.GetCounters())
    ensures ended <==> Initial(l.GetCounters())
  {
    ended := false;
    if l.remainingCommand <= 0 && l.remainingContent <= 0 && l.remainingPadding <= 0 {
      if l.currentCommand == 0 {
        l.remainingCommand := 5;
      } else {
        l.remainingCommand := -1;
        l.remainingContent := -1;
        l.remainingPadding := -1;
        ended := true;
      }
    }
  }

  /** One iteration of the loop. It consumes `data`, at least one byte, and puts out `out`. */
  method UnpadOnce(b: Buffer, l: LinkState, nb: Buffer, ghost sofar: bytes)
    returns (ended: bool, ghost data: bytes, ghost out: bytes)
    requires b.Valid() && b.Len() > 0 && b != nb && Collected(nb, sofar)
    requires UnpaddingInv(l) && !Initial(l.GetCounters())
    modifies b, nb, l`remainingCommand, l`remainingContent, l`remainingPadding, l`currentCommand
    ensures b.Valid() && data != [] && old(b.Data()) == data + b.Data()
    ensures UnpaddingInv(l) && (ended <==> Initial(l.GetCounters()))
    ensures Feed(old(l.GetCounters()), data) == (l.GetCounters(), out)
    ensures Collected(nb, sofar + out)
  {
    ghost var c := l.GetCounters();
    ghost var before := b.Data();
    if l.remainingCommand > 0 {
      ReadHeader(b, l);
      data, out := before[..1], [];
      assert before[..1][1..] == [];
      assert sofar + out == sofar;
    } else if l.remainingContent > 0 {
      var content := ReadContent(b, l);
      data, out := content, content;
      Collect(nb, content, sofar);
      FeedContent(c, data);
    } else {
      data := SkipPadding(b, l);
      out := [];
      FeedPadding(c, data);
      assert sofar + out == sofar;
    }
    ended := FinishBlock(l);
  }

  /** `data` has been fed after `done`. */
  lemma FeedMore(c0: Counters, done: bytes, out: bytes, c1: Counters, data: bytes)
    requires Inv(c0) && Feed(c0, done) == (c1, out)
    ensures Feed(c0, done + data) == (Feed(c1, data).0, out + Feed(c1, data).1)
  {
    FeedSplit(c0, done, data);
  }

  /** The loop. */
  method DrainChunk(b: Buffer, l: LinkState) returns (newbuffer: Buffer)
    requires b.Valid() && UnpaddingInv(l) && !Initial(l.GetCounters())
    modifies b, l`remainingCommand, l`remainingContent, l`remainingPadding, l`currentCommand
    ensures l.GetCounters() == Feed(old(l.GetCounters()), old(b.Data())).0
    ensures fresh(newbuffer) && Collected(newbuffer, Feed(old(l.GetCounters()), old(b.Data())).1)
  {
    ghost var c0 := l.GetCounters();
    ghost var d0 := b.Data();
    ghost var done: bytes, out: bytes := [], [];
    newbuffer := new Buffer.New();
    var ended := false;
    while b.Len() > 0 && !ended
      invariant b.Valid() && newbuffer != b && fresh(newbuffer)
      invariant UnpaddingInv(l) && (ended <==> Initial(l.GetCounters()))
      invariant d0 == done + b.Data()
      invariant Feed(c0, done) == (l.GetCounters(), out)
      invariant Collected(newbuffer, out)
      decreases b.Len()
    {
      ghost var data, o;
      ghost var c1 := l.GetCounters();
      ended, data, o := UnpadOnce(b, l, newbuffer, out);
      FeedMore(c0, done, out, c1, data);
      assert d0 == (done + data) + b.Data();
      done, out := done + data, out + o;
    }
    FeedMore(c0, done, out, l.GetCounters(), b.Data());
    if b.Len() > 0 {
      Collect(newbuffer, b.Data(), out);
    } else {
      assert out + [] == out;
    }
  }

  /**
   * `XtlsUnpadding`. Without a leading user id the chunk itself comes back; otherwise the output
   * is what the byte machine gives, cut to one buffer (no cut for a chunk of at most that size).
   */
  method XtlsUnpadding(b: Buffer, s: TrafficState, isUplink: bool) returns (newbuffer: Buffer)
    requires b.Valid()
    requires UnpaddingInv(s.ReaderLink(isUplink))
    modifies b
    modifies s.ReaderLink(isUplink)`remainingCommand
    modifies s.ReaderLink(isUplink)`remainingContent
    modifies s.ReaderLink(isUplink)`remainingPadding
    modifies s.ReaderLink(isUplink)`currentCommand
    ensures var l := s.ReaderLink(isUplink);
            var (c, out) := Unpad(old(l.GetCounters()), s.userUUID, old(b.Data()));
            && newbuffer.Valid() && l.GetCounters() == c
            && (newbuffer == b || fresh(newbuffer))
            && (old(b.Len()) <= SIZE || newbuffer == b ==> newbuffer.Data() == out)
            && (newbuffer != b ==> newbuffer.Data() == Take(out, SIZE))
  {
    var l := s.ReaderLink(isUplink);
    if l.remainingCommand == -1 && l.remainingContent == -1 && l.remainingPadding == -1 {
      if b.Len() >= 21 && s.userUUID == b.Data()[..16] {
        b.Advance(16);
        l.remainingCommand := 5;
      } else {
        return b;
      }
    }
    newbuffer := DrainChunk(b, l);
  }
}
