/** The Vision block format, and how the writer cuts and pads its input to fit one buffer a block. */
module VisionFrame {
  import opened Common
  import opened Bytes
  import opened Buf

  const CONTINUE: byte := 0
  const END: byte := 1
  const DIRECT: byte := 2

  const APPLICATION_DATA_START: bytes := [0x17, 0x03, 0x03]

  /** 16 bytes of user id and 5 bytes of block header. */
  const OVERHEAD: nat := 21

  datatype Block = Block(command: byte, content: bytes, padding: nat)

  predicate Fits(b: Block) {
    |b.content| < 65536 && b.padding < 65536
  }

  function Header(b: Block): (h: bytes)
    requires Fits(b)
    ensures |h| == 5
  {
    [b.command, |b.content| / 256, |b.content| % 256, b.padding / 256, b.padding % 256]
  }

  function Frame(b: Block): bytes
    requires Fits(b)
  {
    Header(b) + b.content + Repeat(0, b.padding)
  }

  /** The layout of a frame: command, the two lengths with their high bytes first, content, and zeros. */
  lemma FrameLayout(b: Block)
    requires Fits(b)
    ensures var f, n := Frame(b), |b.content|;
      && |f| == 5 + n + b.padding && f[0] == b.command
      && 256 * (f[1] as int) + f[2] as int == n && 256 * (f[3] as int) + f[4] as int == b.padding
      && f[5..5 + n] == b.content && forall i :: 5 + n <= i < |f| ==> f[i] == 0
  {
    var h, f := Header(b), Frame(b);
    assert f[..5] == h;
    assert forall i :: 0 <= i < 5 ==> f[i] == h[i];
    assert f == h + (b.content + Repeat(0, b.padding));
  }

  // ----- padding lengths -----

  const TWO31: int := 0x8000_0000

  /** Go's conversion to `int32`, for the sum or difference of two numbers of that size. */
  function Int32(x: int): int {
    if x < -TWO31 then x + 2 * TWO31 else if x >= TWO31 then x - 2 * TWO31 else x
  }

  /** Four unsigned 32-bit numbers. */
  predicate SeedShape(seeds: seq<nat>) {
    |seeds| >= 4 && forall i :: 0 <= i < |seeds| ==> seeds[i] < 2 * TWO31
  }

  /** `NewVisionWriter` falls back to the built-in seeds when it is given fewer than four. */
  function EffectiveSeeds(seeds: seq<nat>): seq<nat> {
    if |seeds| < 4 then [900, 500, 900, 256] else seeds
  }

  predicate UsesLong(seeds: seq<nat>, contentLen: nat, long: bool)
    requires SeedShape(seeds)
  {
    contentLen < Int32(seeds[0]) && long
  }

  /** The exclusive bound of the random draw; `rand.Int` panics when it is zero. */
  function DrawBound(seeds: seq<nat>, contentLen: nat, long: bool): nat
    requires SeedShape(seeds)
  {
    if UsesLong(seeds, contentLen, long) then seeds[1] else seeds[3]
  }

  function PaddingLength(seeds: seq<nat>, contentLen: nat, long: bool, draw: nat): int
    requires SeedShape(seeds)
  {
    var p := if UsesLong(seeds, contentLen, long)
             then Int32(Int32(Int32(draw) + Int32(seeds[2])) - contentLen)
             else Int32(draw);
    if p > SIZE - OVERHEAD - contentLen then SIZE - OVERHEAD - contentLen else p
  }

  /** Every draw is possible and yields a length that `Extend` accepts. */
  predicate GoodDraws(seeds: seq<nat>, contentLen: nat, long: bool)
    requires SeedShape(seeds)
  {
    && 0 < DrawBound(seeds, contentLen, long)
    && forall draw :: 0 <= draw < DrawBound(seeds, contentLen, long) ==>
         0 <= PaddingLength(seeds, contentLen, long, draw)
  }

  /** A test on the four seeds alone. */
  predicate SafeSeeds(seeds: seq<nat>)
    requires SeedShape(seeds)
  {
    && 0 < seeds[3] <= TWO31
    && (Int32(seeds[0]) > 0 ==>
          && 0 < seeds[1]
          && Min(Int32(seeds[0]) - 1, SIZE - OVERHEAD) <= Int32(seeds[2])
          && Int32(seeds[2]) + seeds[1] <= TWO31)
  }

  /** The built-in seeds pass the test. */
  lemma DefaultSeedsSafe()
    ensures SeedShape(EffectiveSeeds([])) && SafeSeeds(EffectiveSeeds([]))
  {
    var s := EffectiveSeeds([]);
    assert s == [900, 500, 900, 256];
    assert Int32(s[0]) == 900 && Int32(s[2]) == 900;
  }

  lemma SafeSeedsSuffice(seeds: seq<nat>, contentLen: nat, long: bool)
    requires SeedShape(seeds) && SafeSeeds(seeds) && contentLen <= SIZE - OVERHEAD
    ensures GoodDraws(seeds, contentLen, long)
  {
    forall draw | 0 <= draw < DrawBound(seeds, contentLen, long)
      ensures 0 <= PaddingLength(seeds, contentLen, long, draw)
    {
      assert Int32(draw) == draw;
    }
  }

  /** Any other seeds have a content length for which some draw is impossible or goes negative. */
  lemma UnsafeSeedsFail(seeds: seq<nat>) returns (contentLen: nat, long: bool)
    requires SeedShape(seeds) && !SafeSeeds(seeds)
    ensures contentLen <= SIZE - OVERHEAD && !GoodDraws(seeds, contentLen, long)
  {
    if !(0 < seeds[3] <= TWO31) {
      contentLen, long := 0, false;
      assert seeds[3] > 0 ==> PaddingLength(seeds, 0, false, TWO31) < 0;
    } else if seeds[1] == 0 {
      contentLen, long := 0, true;
    } else if Int32(seeds[2]) < Min(Int32(seeds[0]) - 1, SIZE - OVERHEAD) {
      contentLen, long := if Int32(seeds[2]) < 0 then 0 else Min(Int32(seeds[0]) - 1, SIZE - OVERHEAD), true;
      assert PaddingLength(seeds, contentLen, true, 0) < 0;
    } else {
      contentLen, long := 0, true;
      assert PaddingLength(seeds, 0, true, TWO31 - Int32(seeds[2])) < 0;
    }
  }

  /**
   * The padding length is non-negative for every content that fits and every draw, exactly for
   * the seeds that pass the test: any other seeds can make the writer panic.
   */
  lemma SafeSeedsExact(seeds: seq<nat>)
    requires SeedShape(seeds)
    ensures SafeSeeds(seeds) <==>
            forall contentLen: nat, long :: contentLen <= SIZE - OVERHEAD ==> GoodDraws(seeds, contentLen, long)
  {
    if SafeSeeds(seeds) {
      forall contentLen: nat, long | contentLen <= SIZE - OVERHEAD
        ensures GoodDraws(seeds, contentLen, long)
      {
        SafeSeedsSuffice(seeds, contentLen, long);
      }
    } else {
      var contentLen, long := UnsafeSeedsFail(seeds);
    }
  }

  /** A padding length that some draw gives. */
  predicate PaddingChoice(seeds: seq<nat>, contentLen: nat, long: bool, padding: nat)
    requires SeedShape(seeds)
  {
    exists draw :: 0 <= draw < DrawBound(seeds, contentLen, long) &&
                   padding == PaddingLength(seeds, contentLen, long, draw)
  }

  /**
   * What the built-in seeds lead to: short content with long padding comes to 900 up to 1399 bytes, and any other gets
   * up to 255 bytes of padding as far as they fit.
   */
  lemma DefaultPadding(contentLen: nat, long: bool, padding: nat)
    requires contentLen <= 8171
    ensures SeedShape(EffectiveSeeds([]))
    ensures PaddingChoice(EffectiveSeeds([]), contentLen, long, padding)
       <==> if long && contentLen < 900 then 900 <= contentLen + padding < 1400
            else padding < 256 && contentLen + padding <= 8171
  {
    var s := EffectiveSeeds([]);
    assert s == [900, 500, 900, 256];
    var isLong := UsesLong(s, contentLen, long);
    if PaddingChoice(s, contentLen, long, padding) {
      var draw :| 0 <= draw < DrawBound(s, contentLen, long) && padding == PaddingLength(s, contentLen, long, draw);
    }
    if isLong && 900 <= contentLen + padding < 1400 {
      assert padding == PaddingLength(s, contentLen, long, contentLen + padding - 900);
    }
    if !isLong && padding < 256 && contentLen + padding <= 8171 {
      assert padding == PaddingLength(s, contentLen, long, padding);
    }
  }

  /** The random part of `XtlsPadding`; `ok` is false when the draw panics. */
  method DrawPadding(seeds: seq<nat>, contentLen: nat, longPadding: bool)
    returns (ok: bool, paddingLen: int, ghost draw: nat)
    requires SeedShape(seeds) && contentLen <= SIZE - OVERHEAD
    ensures ok <==> DrawBound(seeds, contentLen, longPadding) > 0
    ensures ok ==> draw < DrawBound(seeds, contentLen, longPadding)
    ensures ok ==> paddingLen == PaddingLength(seeds, contentLen, longPadding, draw) <= SIZE - OVERHEAD - contentLen
  {
    if DrawBound(seeds, contentLen, longPadding) == 0 {
      return false, 0, 0;
    }
    var drawn :| 0 <= drawn < DrawBound(seeds, contentLen, longPadding);
    ok, paddingLen, draw := true, PaddingLength(seeds, contentLen, longPadding, drawn), drawn;
  }

  /**
   * `XtlsPadding`, with any seeds. `ok` is false when it panics, on a draw that is impossible or a padding length
   * below zero. Otherwise the whole frame, user id included, fits in one pooled buffer.
   */
  method XtlsPadding(b: Buffer?, command: byte, userUUID: bytes, longPadding: bool, seeds: seq<nat>)
    returns (ok: bool, nb: Buffer, ghost blk: Block, ghost draw: nat)
    requires SeedShape(seeds) && |userUUID| <= 16
    requires b != null ==> b.Valid() && b.Len() <= SIZE - OVERHEAD
    ensures var content := if b == null then [] else b.Data();
            var bound := DrawBound(seeds, |content|, longPadding);
            && (ok <==> bound > 0 && PaddingLength(seeds, |content|, longPadding, draw) >= 0)
            && (bound > 0 ==> draw < bound)
            && (!ok ==> !GoodDraws(seeds, |content|, longPadding))
            && (ok ==> Fits(blk) && blk.command == command && blk.content == content)
            && (ok ==> blk.padding == PaddingLength(seeds, |content|, longPadding, draw))
    ensures fresh(nb) && nb.Valid() && nb.Len() <= SIZE
    ensures ok ==> PaddingChoice(seeds, |blk.content|, longPadding, blk.padding)
    ensures ok ==> nb.Data() == userUUID + Frame(blk)
  {
    var content: bytes := [];
    if b != null {
      content := b.Data();
    }
    var contentLen := |content|;
    nb := new Buffer.New();
    blk := Block(command, content, 0);
    var paddingLen;
    ok, paddingLen, draw := DrawPadding(seeds, contentLen, longPadding);
    if ok && paddingLen < 0 {
      ok := false;
    }
    if ok {
      blk := Block(command, content, paddingLen);
      FillFrame(nb, userUUID, command, content, paddingLen);
    }
  }

  /** The bytes of a frame, one part after the other. */
  method FillFrame(nb: Buffer, userUUID: bytes, command: byte, content: bytes, paddingLen: nat)
    requires nb.Valid() && nb.Data() == [] && nb.start == 0 && |nb.v| == SIZE && |userUUID| <= 16
    requires |content| + paddingLen <= SIZE - OVERHEAD
    modifies nb
    ensures nb.Valid() && nb.Len() <= SIZE && nb.Data() == userUUID + Frame(Block(command, content, paddingLen))
  {
    var contentLen := |content|;
    ghost var blk := Block(command, content, paddingLen);
    nb.Write(userUUID);
    assert nb.Data() == userUUID;
    nb.Write([command, contentLen / 256, contentLen % 256, paddingLen / 256, paddingLen % 256]);
    assert nb.Data() == userUUID + Header(blk);
    nb.Write(content);
    assert nb.Data() == userUUID + Header(blk) + content;
    nb.Extend(paddingLen);
  }

  // ----- reshaping -----

  function CutAt(p: bytes): (i: nat)
    requires SIZE - OVERHEAD <= |p|
    ensures OVERHEAD <= i <= SIZE - OVERHEAD
  {
    var i := LastIndex(p, APPLICATION_DATA_START);
    if i < OVERHEAD || i > SIZE - OVERHEAD then SIZE / 2 else i
  }

  function SplitPiece(p: bytes): seq<bytes> {
    if |p| >= SIZE - OVERHEAD then [p[..CutAt(p)], p[CutAt(p)..]] else [p]
  }

  /** An application-data record starts at offset `i`, and no other behind it. */
  predicate LastRecordAt(p: bytes, i: int) {
    RecordAt(p, i) && forall j :: i < j < |p| ==> !RecordAt(p, j)
  }

  predicate RecordAt(p: bytes, i: int) {
    0 <= i && i + 3 <= |p| && p[i] == 0x17 && p[i + 1] == 0x03 && p[i + 2] == 0x03
  }

  /**
   * A piece of 8171 bytes or more is cut before its last record if that starts at 21 up to 8171, and else behind 4096
   * bytes; a shorter one stays whole.
   */
  lemma CutsAtRecord(p: bytes)
    ensures |p| < 8171 ==> SplitPiece(p) == [p]
    ensures |p| >= 8171 ==>
      && (forall i :: 21 <= i <= 8171 && LastRecordAt(p, i) ==> SplitPiece(p) == [p[..i], p[i..]])
      && ((forall i :: 21 <= i <= 8171 ==> !LastRecordAt(p, i)) ==> SplitPiece(p) == [p[..4096], p[4096..]])
  {
    hide OccursAt, RecordAt;
    forall i
      ensures OccursAt(p, APPLICATION_DATA_START, i) <==> RecordAt(p, i)
    {
      RecordOccurs(p, i);
    }
    forall i | RecordAt(p, i)
      ensures 0 <= i <= |p| - 3
    {
      RecordOccurs(p, i);
    }
    var last := LastIndex(p, APPLICATION_DATA_START);
    assert last != -1 ==> LastRecordAt(p, last);
  }

  lemma RecordOccurs(p: bytes, i: int)
    ensures OccursAt(p, APPLICATION_DATA_START, i) <==> RecordAt(p, i)
    ensures RecordAt(p, i) ==> 0 <= i <= |p| - 3
  {
    if 0 <= i && i + 3 <= |p| {
      assert p[i..i + 3] == [0x17, 0x03, 0x03] <==> p[i] == 0x17 && p[i + 1] == 0x03 && p[i + 2] == 0x03;
    }
  }

  function Reshaped(ps: seq<bytes>): seq<bytes> {
    if ps == [] then [] else SplitPiece(ps[0]) + Reshaped(ps[1..])
  }

  /** Reshaping keeps the byte stream, and every piece leaves room for the user id and the header. */
  lemma {:induction false} ReshapeKeeps(ps: seq<bytes>)
    requires forall i :: 0 <= i < |ps| ==> |ps[i]| <= SIZE
    ensures Concat(Reshaped(ps)) == Concat(ps)
    ensures forall i :: 0 <= i < |Reshaped(ps)| ==> |Reshaped(ps)[i]| <= SIZE - OVERHEAD
    ensures |Reshaped(ps)| == 0 <==> |ps| == 0
  {
    if ps != [] {
      ReshapeKeeps(ps[1..]);
      var p := ps[0];
      ConcatAppend(SplitPiece(p), Reshaped(ps[1..]));
      assert Concat(SplitPiece(p)) == p by {
        if |p| >= SIZE - OVERHEAD {
          ConcatOne(p[CutAt(p)..]);
          assert SplitPiece(p)[1..] == [p[CutAt(p)..]];
          assert p[..CutAt(p)] + p[CutAt(p)..] == p;
        } else {
          ConcatOne(p);
        }
      }
    }
  }

  lemma ReshapedSnoc(ps: seq<bytes>, p: bytes)
    ensures Reshaped(ps + [p]) == Reshaped(ps) + SplitPiece(p)
  {
    if ps == [] {
      assert ps + [p] == [p];
      assert Reshaped([p]) == SplitPiece(p) + Reshaped([]);
    } else {
      assert (ps + [p])[0] == ps[0] && (ps + [p])[1..] == ps[1..] + [p];
      ReshapedSnoc(ps[1..], p);
    }
  }

  lemma ReshapedTo(ps: seq<bytes>, k: nat)
    requires k < |ps|
    ensures Reshaped(ps[..k + 1]) == Reshaped(ps[..k]) + SplitPiece(ps[k])
  {
    ReshapedSnoc(ps[..k], ps[k]);
    assert ps[..k + 1] == ps[..k] + [ps[k]];
  }

  lemma {:induction false} ReshapedSmall(ps: seq<bytes>)
    requires forall i :: 0 <= i < |ps| ==> |ps[i]| < SIZE - OVERHEAD
    ensures Reshaped(ps) == ps
  {
    if ps != [] {
      ReshapedSmall(ps[1..]);
      assert ps == [ps[0]] + ps[1..];
    }
  }

  ghost predicate AllBuffersValid(mb: seq<Buffer>)
    reads mb
  {
    forall i :: 0 <= i < |mb| ==> mb[i].Valid()
  }

  /** Cuts one long buffer in place: the tail moves to a new buffer. */
  method SplitBuffer(b: Buffer) returns (tail: Buffer)
    requires b.Valid() && SIZE - OVERHEAD <= b.Len() <= SIZE
    modifies b
    ensures b.Valid() && tail.Valid() && fresh(tail)
    ensures [b.Data(), tail.Data()] == SplitPiece(old(b.Data()))
  {
    var index := LastIndex(b.Data(), APPLICATION_DATA_START);
    if index < OVERHEAD || index > SIZE - OVERHEAD {
      index := SIZE / 2;
    }
    tail := new Buffer.New();
    tail.Write(b.Data()[index..]);
    b.Truncate(index);
  }

  method CountLong(buffer: seq<Buffer>) returns (needReshape: nat)
    requires AllBuffersValid(buffer)
    ensures needReshape == 0 ==> forall i :: 0 <= i < |buffer| ==> buffer[i].Len() < SIZE - OVERHEAD
  {
    needReshape := 0;
    var k := 0;
    while k < |buffer|
      invariant 0 <= k <= |buffer|
      invariant needReshape == 0 ==> forall i :: 0 <= i < k ==> buffer[i].Len() < SIZE - OVERHEAD
    {
      if buffer[k].Len() >= SIZE - OVERHEAD {
        needReshape := needReshape + 1;
      }
      k := k + 1;
    }
  }

  /** The first `k` buffers have been reshaped into `mb2`; `ds` is what all of them held before. */
  ghost predicate ReshapedSoFar(buffer: seq<Buffer>, k: nat, mb2: seq<Buffer>, ds: seq<bytes>)
    reads buffer, mb2
  {
    && k <= |buffer| == |ds|
    && AllBuffersValid(buffer) && AllBuffersValid(mb2)
    && (forall j :: k <= j < |buffer| ==> buffer[j].Data() == ds[j] && buffer[j] !in mb2)
    && Datas(mb2) == Reshaped(ds[..k])
  }

  /** The body of its loop. */
  method ReshapeOne(b: Buffer) returns (added: seq<Buffer>)
    requires b.Valid() && b.Len() <= SIZE
    modifies b
    ensures b.Valid() && AllBuffersValid(added)
    ensures Datas(added) == SplitPiece(old(b.Data()))
    ensures added == [b] || (|added| == 2 && added[0] == b && fresh(added[1]))
  {
    if b.Len() >= SIZE - OVERHEAD {
      var buffer2 := SplitBuffer(b);
      added := [b, buffer2];
    } else {
      added := [b];
    }
  }

  method ReshapeStep(buffer: seq<Buffer>, k: nat, mb2: seq<Buffer>, ghost ds: seq<bytes>)
    returns (mb3: seq<Buffer>)
    requires ReshapedSoFar(buffer, k, mb2, ds) && k < |buffer| && Distinct(buffer)
    requires |ds[k]| <= SIZE
    modifies buffer[k]
    ensures ReshapedSoFar(buffer, k + 1, mb3, ds)
    ensures forall x :: x in mb3 ==> x in mb2 || x == buffer[k] || fresh(x)
  {
    hide Datas, SplitPiece, Reshaped;
    ghost var before := Datas(mb2);
    var added := ReshapeOne(buffer[k]);
    mb3 := mb2 + added;
    assert AllBuffersValid(mb2) && Datas(mb2) == before;
    DatasAppend(mb2, added);
    ReshapedTo(ds, k);
    forall j | k + 1 <= j < |buffer|
      ensures buffer[j].Data() == ds[j] && buffer[j] !in mb3
    {
      assert buffer[j] != buffer[k];
      assert buffer[j] !in added;
    }
  }

  /** `ReshapeMultiBuffer`. */
  method ReshapeMultiBuffer(buffer: seq<Buffer>) returns (mb2: seq<Buffer>)
    requires AllBuffersValid(buffer) && Distinct(buffer)
    requires forall i :: 0 <= i < |buffer| ==> buffer[i].Len() <= SIZE
    modifies buffer
    ensures AllBuffersValid(mb2) && Datas(mb2) == Reshaped(old(Datas(buffer)))
    ensures forall x :: x in mb2 ==> x in buffer || fresh(x)
  {
    ghost var ds := Datas(buffer);
    var needReshape := CountLong(buffer);
    if needReshape == 0 {
      ReshapedSmall(ds);
      return buffer;
    }
    mb2 := [];
    var k := 0;
    while k < |buffer|
      invariant 0 <= k <= |buffer|
      invariant ReshapedSoFar(buffer, k, mb2, ds)
      invariant forall x :: x in mb2 ==> x in buffer || fresh(x)
    {
      mb2 := ReshapeStep(buffer, k, mb2, ds);
      k := k + 1;
    }
    assert ds[..k] == ds;
  }
}
