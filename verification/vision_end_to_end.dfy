/** Writer and reader together: what a run of writes puts on the wire, read at the other end. */
module VisionEndToEnd {
  import opened Bytes
  import opened VisionFrame
  import opened VisionBlocks
  import opened VisionReads
  import opened VisionRuns
  import opened VisionRoundTrip

  /** Reads that cut the stream and deliver all of it. */
  ghost predicate Whole(uuid: bytes, bs: seq<Block>, tail: bytes, rs: seq<Read>)
    requires AllFit(bs)
  {
    && Cuts(uuid, bs, tail, rs) && |Concat(rs[0].chunks)| >= 16 && Concat(AllChunks(rs)) == Stream(uuid, bs, tail)
  }

  /** What a run of writes puts on the wire, as a stream that a reader can be given, and on the raw connection. */
  lemma WireIsStream(w: WState, seeds: seq<nat>, es: seq<Event>) returns (bs: seq<Block>, tail: bytes)
    requires SeedShape(seeds) && w.isPadding && !w.direct && !w.raw && Run(w, seeds, es)
    ensures EventsFit(es) && BlockGrammar(bs) && (!Terminated(bs) ==> tail == [])
    ensures Sent(w, es, false) == if bs == [] then [] else Stream(w.uuid, bs, tail)
    ensures (Contents(bs) + tail) + Sent(w, es, true) == Payload(es)
    ensures Sent(w, es, true) != [] ==> EndsWith(bs, DIRECT)
    ensures Final(w, es).isPadding <==> !Terminated(bs)
  {
    var rest;
    bs, rest := WriterGrammar(w, seeds, es);
    tail := if EndsWith(bs, DIRECT) then [] else rest;
    assert Contents(bs) + [] == Contents(bs);
    assert (Contents(bs) + rest) + [] == Contents(bs) + rest;
    if bs == [] {
      assert Frames([]) + [] == [] && [] + (Frames(bs) + tail) == [];
    }
  }

  lemma SameFront(a: bytes, b: bytes, c: bytes)
    ensures a + c == b + c <==> a == b
  {
    if a + c == b + c {
      assert a == (a + c)[..|a|] && b == (b + c)[..|b|];
    }
  }

  /**
   * End to end. The wire of any run of writes is one stream, read at the other end in any reads that cut it. Where none
   * of them ends at an early cut, what the reader hands on, followed by what travels on the raw connection, is what was
   * written, the reader has gone over to the raw connection exactly if the writer ended with Direct, and it is in
   * padding mode exactly if the writer is. And for any reads the output is right exactly under the condition of
   * `OutputExact`.
   */
  lemma {:induction false} EndToEnd(w: WState, seeds: seq<nat>, es: seq<Event>, rs: seq<Read>)
    returns (bs: seq<Block>, tail: bytes)
    requires SeedShape(seeds) && w.isPadding && !w.direct && !w.raw && Run(w, seeds, es)
    ensures EventsFit(es) && BlockGrammar(bs) && (!Terminated(bs) ==> tail == [])
    ensures Sent(w, es, false) == if bs == [] then [] else Stream(w.uuid, bs, tail)
    ensures (Contents(bs) + tail) + Sent(w, es, true) == Payload(es)
    ensures Sent(w, es, true) != [] ==> EndsWith(bs, DIRECT)
    ensures Whole(w.uuid, bs, tail, rs) && CleanCuts(w.uuid, bs, tail, rs) ==>
              var (r, out) := ReadAll(NEW_READER, w.uuid, rs);
              && out + Sent(w, es, true) == Payload(es)
              && (r.direct <==> EndsWith(bs, DIRECT)) && (r.within <==> Final(w, es).isPadding)
    ensures Whole(w.uuid, bs, tail, rs) && FilterOnce(rs) ==>
              (ReadAll(NEW_READER, w.uuid, rs).1 + Sent(w, es, true) == Payload(es)
               <==> RightCuts(w.uuid, bs, tail, rs))
  {
    bs, tail := WireIsStream(w, seeds, es);
    if Whole(w.uuid, bs, tail, rs) {
      if CleanCuts(w.uuid, bs, tail, rs) {
        ReaderAgrees(w.uuid, bs, tail, rs);
      }
      if FilterOnce(rs) {
        OutputExact(w.uuid, bs, tail, rs);
        SameFront(ReadAll(NEW_READER, w.uuid, rs).1, Contents(bs) + tail, Sent(w, es, true));
      }
    }
  }
}
