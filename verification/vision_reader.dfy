/** `VisionReader.ReadMultiBuffer` on buffers and the shared traffic state. */
module VisionReading {
  import opened Common
  import opened Bytes
  import opened Buf
  import opened VisionFrame
  import opened VisionState
  import opened VisionFilter
  import opened VisionUnpadding
  import opened VisionBlocks
  import opened VisionReads

  predicate NoBytes(ds: seq<bytes>) {
    forall i :: 0 <= i < |ds| ==> ds[i] == []
  }

  lemma {:induction false} NoBytesConcat(ds: seq<bytes>)
    ensures NoBytes(ds) <==> Concat(ds) == []
  {
    if ds != [] {
      NoBytesConcat(ds[1..]);
      assert NoBytes(ds) <==> ds[0] == [] && NoBytes(ds[1..]) by {
        assert forall i :: 0 < i < |ds| ==> ds[i] == ds[1..][i - 1];
      }
    }
  }

  lemma UnpadsFirst(c: Counters, uuid: bytes, ds: seq<bytes>, k: nat)
    requires Inv(c) && k < |ds|
    ensures var (c1, out) := Unpad(c, uuid, ds[k]);
            Unpads(c, uuid, ds[k..]) == (Unpads(c1, uuid, ds[k + 1..]).0, out + Unpads(c1, uuid, ds[k + 1..]).1)
  {
    assert ds[k..][0] == ds[k] && ds[k..][1..] == ds[k + 1..];
  }

  lemma UnpadsNone(c: Counters, uuid: bytes, ds: seq<bytes>)
    requires Inv(c) && ds == []
    ensures Unpads(c, uuid, ds) == (c, [])
  {
  }

  class VisionReader {
    const trafficState: TrafficState
    const isUplink: bool
    /** The reader has been replaced by one on the raw connection. */
    var rawReader: bool
    /** What the connection it replaces has already taken off the wire. */
    var input: bytes
    var rawInput: bytes

    ghost predicate Valid()
      reads trafficState.ReaderLink(isUplink)
    {
      trafficState.inbound != trafficState.outbound && UnpaddingInv(trafficState.ReaderLink(isUplink))
    }

    function State(): RState
      reads trafficState.ReaderLink(isUplink)
    {
      var l := trafficState.ReaderLink(isUplink);
      RState(l.GetCounters(), l.withinPaddingBuffers, l.readerDirectCopy)
    }

    /** `NewVisionReader`. */
    constructor (trafficState: TrafficState, isUplink: bool, input: bytes, rawInput: bytes)
      ensures this.trafficState == trafficState && this.isUplink == isUplink && !rawReader
      ensures this.input == input && this.rawInput == rawInput
    {
      this.trafficState, this.isUplink := trafficState, isUplink;
      this.input, this.rawInput := input, rawInput;
      rawReader := false;
    }

    /** `buffers` from `k` on are still as they arrived, and what has been collected is apart from them. */
    ghost predicate Untouched(buffers: seq<Buffer>, ds: seq<bytes>, k: nat, mb2: seq<Buffer>)
      reads buffers, mb2
    {
      && k <= |buffers| == |ds|
      && (forall j :: k <= j < |buffers| ==> buffers[j].Valid() && buffers[j].Data() == ds[j] && buffers[j] !in mb2)
      && AllBuffersValid(mb2)
    }

    /** One buffer of a read: unpad it, and keep the result unless it is empty. */
    method UnpadOne(buffers: seq<Buffer>, ghost ds: seq<bytes>, k: nat, mb2: seq<Buffer>) returns (mb3: seq<Buffer>)
      requires Valid() && Untouched(buffers, ds, k, mb2) && Distinct(buffers) && k < |buffers| && |ds[k]| <= SIZE
      modifies buffers[k]
      modifies trafficState.ReaderLink(isUplink)`remainingCommand, trafficState.ReaderLink(isUplink)`remainingContent
      modifies trafficState.ReaderLink(isUplink)`remainingPadding, trafficState.ReaderLink(isUplink)`currentCommand
      ensures Valid() && Untouched(buffers, ds, k + 1, mb3)
      ensures var (c, out) := Unpad(old(State()).c, trafficState.userUUID, ds[k]);
              State().c == c && Concat(Datas(mb3)) == Concat(old(Datas(mb2))) + out
      ensures forall b :: b in mb3 ==> b in mb2 || b == buffers[k] || fresh(b)
    {
      ghost var before := Datas(mb2);
      var newbuffer := XtlsUnpadding(buffers[k], trafficState, isUplink);
      assert AllBuffersValid(mb2) && Datas(mb2) == before;
      forall j | k + 1 <= j < |buffers|
        ensures buffers[j].Valid() && buffers[j].Data() == ds[j]
      {
        assert buffers[j] != buffers[k] && unchanged(buffers[j]);
      }
      if newbuffer.Len() > 0 {
        mb3 := mb2 + [newbuffer];
        DatasAppend(mb2, [newbuffer]);
        assert Datas([newbuffer]) == [newbuffer.Data()];
        ConcatSnoc(before, newbuffer.Data());
      } else {
        mb3 := mb2;
        assert newbuffer.Data() == [];
      }
    }

    /** The loop over the buffers of a read. */
    method UnpadBuffers(buffers: seq<Buffer>, ghost ds: seq<bytes>) returns (mb2: seq<Buffer>)
      requires Valid() && AllBuffersValid(buffers) && Distinct(buffers) && ds == Datas(buffers)
      requires forall i :: 0 <= i < |ds| ==> |ds[i]| <= SIZE
      modifies buffers
      modifies trafficState.ReaderLink(isUplink)`remainingCommand, trafficState.ReaderLink(isUplink)`remainingContent
      modifies trafficState.ReaderLink(isUplink)`remainingPadding, trafficState.ReaderLink(isUplink)`currentCommand
      ensures Valid() && AllBuffersValid(mb2)
      ensures (State().c, Concat(Datas(mb2))) == Unpads(old(State()).c, trafficState.userUUID, ds)
      ensures forall b :: b in mb2 ==> b in buffers || fresh(b)
    {
      ghost var c0, uuid := State().c, trafficState.userUUID;
      ghost var all := Unpads(c0, uuid, ds);
      mb2 := [];
      var k := 0;
      assert ds[0..] == ds && [] + all.1 == all.1;
      while k < |buffers|
        invariant 0 <= k <= |buffers| && Valid() && Untouched(buffers, ds, k, mb2)
        invariant all.0 == Unpads(State().c, uuid, ds[k..]).0
        invariant all.1 == Concat(Datas(mb2)) + Unpads(State().c, uuid, ds[k..]).1
        invariant forall b :: b in mb2 ==> b in buffers || fresh(b)
      {
        UnpadsFirst(State().c, uuid, ds, k);
        ghost var c, sofar := State().c, Concat(Datas(mb2));
        mb2 := UnpadOne(buffers, ds, k, mb2);
        Assoc(sofar, Unpad(c, uuid, ds[k]).1, Unpads(State().c, uuid, ds[k + 1..]).1);
        k := k + 1;
      }
      UnpadsNone(State().c, uuid, ds[k..]);
      assert all == (State().c, Concat(Datas(mb2)) + []);
      assert Concat(Datas(mb2)) + [] == Concat(Datas(mb2));
    }

    /** The mode decision that follows. */
    method Decide()
      modifies trafficState.ReaderLink(isUplink)`withinPaddingBuffers,
          trafficState.ReaderLink(isUplink)`readerDirectCopy
      ensures State() == Decided(old(State()), old(State()).c)
    {
      var l := trafficState.ReaderLink(isUplink);
      if l.remainingContent > 0 || l.remainingPadding > 0 || l.currentCommand == 0 {
        l.withinPaddingBuffers := true;
      } else if l.currentCommand == 1 {
        l.withinPaddingBuffers := false;
      } else if l.currentCommand == 2 {
        l.withinPaddingBuffers := false;
        l.readerDirectCopy := true;
      }
    }

    /** On the read that turns direct, what the old connection had buffered is delivered and it is let go. */
    method TakeOver() returns (rest: seq<bytes>)
      modifies this
      ensures Concat(rest) == old(input) + old(rawInput) && rawReader
    {
      rest := (if input == [] then [] else [input]) + (if rawInput == [] then [] else [rawInput]);
      ConcatTwo(input, rawInput);
      input, rawInput, rawReader := [], [], true;
    }

    /** The unpadding part of a read. */
    method Unpadded(buffers: seq<Buffer>, ghost ds: seq<bytes>) returns (out: seq<Buffer>)
      requires Valid() && AllBuffersValid(buffers) && Distinct(buffers) && ds == Datas(buffers)
      requires forall i :: 0 <= i < |ds| ==> |ds[i]| <= SIZE
      requires Concat(ds) != [] && !State().direct
      modifies buffers, trafficState.ReaderLink(isUplink)
      ensures Valid() && AllBuffersValid(out)
      ensures (State(), Concat(Datas(out)))
              == ReadStep(old(State()), trafficState.userUUID, Read(trafficState.numberOfPacketToFilter > 0, ds))
    {
      hide Unpads;
      var r, filtering := State(), trafficState.numberOfPacketToFilter > 0;
      out := buffers;
      if r.within || filtering {
        out := UnpadBuffers(buffers, ds);
        ghost var c, od := State().c, Datas(out);
        Decide();
        assert State() == Decided(r, c) && AllBuffersValid(out) && Datas(out) == od;
      }
    }

    /** The filtering part of a read, and the switch. */
    method Settle(out: seq<Buffer>, ghost ws: seq<Option<View>>, ghost od: seq<bytes>)
      returns (ok: bool, rest: seq<bytes>)
      requires AllBuffersValid(out) && ws == Views(out) && od == Datas(out)
      modifies this, trafficState
      ensures AllBuffersValid(out) && ws == Views(out) && od == Datas(out) && State() == old(State())
      ensures FilterIfActive(old(trafficState.TlsState()), ws) == if ok then Some(trafficState.TlsState()) else None
      ensures if ok && State().direct then rawReader && Concat(rest) == old(input) + old(rawInput)
              else rest == [] && rawReader == old(rawReader) && input == old(input) && rawInput == old(rawInput)
    {
      rest := [];
      ok := FilterWhileActive(out, trafficState, ws);
      if ok && State().direct {
        rest := TakeOver();
      }
    }

    /**
     * `ReadMultiBuffer`, given the buffers its underlying reader has returned. `ok` is false when the
     * filter panics. The state moves as `ReadStep` says and the buffers handed on spell its output;
     * `rest` is what the replaced connection still held, delivered once, on the read that turns direct.
     */
    method ReadMultiBuffer(buffers: seq<Buffer>, ghost ds: seq<bytes>)
      returns (ok: bool, out: seq<Buffer>, rest: seq<bytes>)
      requires Valid() && AllBuffersValid(buffers) && Distinct(buffers) && ds == Datas(buffers)
      requires forall i :: 0 <= i < |ds| ==> |ds[i]| <= SIZE
      modifies this, trafficState, buffers, trafficState.ReaderLink(isUplink)
      ensures Valid() && AllBuffersValid(out)
      ensures (State(), Concat(Datas(out)))
              == ReadStep(old(State()), trafficState.userUUID, Read(old(trafficState.numberOfPacketToFilter) > 0, ds))
      ensures if Concat(ds) == [] || old(State()).direct
              then ok && trafficState.TlsState() == old(trafficState.TlsState())
              else FilterIfActive(old(trafficState.TlsState()), Views(out))
                   == if ok then Some(trafficState.TlsState()) else None
      ensures if ok && State().direct && !old(State()).direct
              then rawReader && Concat(rest) == old(input) + old(rawInput)
              else rest == [] && rawReader == old(rawReader) && input == old(input) && rawInput == old(rawInput)
    {
      ok, out, rest := true, buffers, [];
      var isEmpty := IsEmpty(buffers, ds);
      if !isEmpty && !State().direct {
        out := Unpadded(buffers, ds);
        ok, rest := Settle(out, Views(out), Datas(out));
      }
    }
  }

  /** `MultiBuffer.IsEmpty`. */
  method IsEmpty(buffers: seq<Buffer>, ghost ds: seq<bytes>) returns (e: bool)
    requires AllBuffersValid(buffers) && ds == Datas(buffers)
    ensures e <==> Concat(ds) == []
  {
    NoBytesConcat(ds);
    e := forall i :: 0 <= i < |buffers| ==> buffers[i].Len() == 0;
    if !e {
      ghost var i :| 0 <= i < |buffers| && buffers[i].Len() != 0;
      assert ds[i] != [];
    }
  }

  lemma ConcatTwo(a: bytes, b: bytes)
    ensures Concat((if a == [] then [] else [a]) + (if b == [] then [] else [b])) == a + b
  {
    var x: seq<bytes>, y: seq<bytes> := if a == [] then [] else [a], if b == [] then [] else [b];
    ConcatAppend(x, y);
    ConcatOne(a);
    ConcatOne(b);
  }
}
