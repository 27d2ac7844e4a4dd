/** When the writer ends padding, and what every buffer of a write becomes, said on the bytes that are written. */
module VisionEndings {
  import opened Common
  import opened Bytes
  import opened VisionFrame
  import opened VisionState
  import opened VisionRecords
  import opened VisionPlan
  import opened VisionRuns
  import opened VisionFilter
  import opened VisionHello

  /** The bytes are whole application-data records and nothing else. */
  ghost predicate WholeRecords(b: bytes) {
    exists rs :: Legal(rs) && b == EncodeRecords(rs)
  }

  predicate StartsRecord(p: bytes) {
    |p| >= 6 && p[0] == 0x17 && p[1] == 0x03 && p[2] == 0x03
  }

  /** Piece `j` ends padding, as the inner connection has gone over to application data. */
  ghost predicate EndsAt(t: Tls, whole: bool, ps: seq<bytes>, j: int)
    requires 0 <= j < |ps|
  {
    t.tls && whole && StartsRecord(ps[j])
  }

  ghost predicate EndedBefore(t: Tls, whole: bool, ps: seq<bytes>, j: int)
    requires 0 <= j <= |ps|
  {
    exists i :: 0 <= i < j && EndsAt(t, whole, ps, i)
  }

  /** Nothing points to TLS 1.2 or later, and the last packet to look at is due. */
  predicate GivesUp(t: Tls) {
    !t.tls12OrAbove && t.packetsToFilter <= 1
  }

  /** The loop has broken off before piece `j`. */
  ghost predicate BrokenOff(t: Tls, whole: bool, ps: seq<bytes>, j: int)
    requires 0 <= j <= |ps|
  {
    GivesUp(t) && exists i :: 0 <= i < j && !EndsAt(t, whole, ps, i)
  }

  /** What becomes of piece `j`. */
  ghost predicate Becomes(t: Tls, whole: bool, ps: seq<bytes>, j: int, e: Emit)
    requires 0 <= j < |ps|
  {
    var ends, ended := EndsAt(t, whole, ps, j), EndedBefore(t, whole, ps, j);
    if BrokenOff(t, whole, ps, j) then e == Plain
    else
      && e.Padded?
      && (e.long <==> ends || (t.tls && !ended))
      && e.command == if !ends && GivesUp(t) then 1
                      else if j < |ps| - 1 || !(ends || ended) then 0
                      else if t.enableXtls then 2 else 1
  }

  lemma AppDataMeans(t: Tls, whole: bool, ps: seq<bytes>, i: int)
    requires 0 <= i < |ps|
    ensures AppData(t, whole, ps[i]) <==> EndsAt(t, whole, ps, i)
  {
    var p := ps[i];
    if |p| >= 6 {
      assert p[..3] == [0x17, 0x03, 0x03] <==> p[0] == 0x17 && p[1] == 0x03 && p[2] == 0x03;
    }
  }

  /** The variables of the loop at piece `i`. */
  ghost predicate At(t: Tls, whole: bool, ps: seq<bytes>, i: int, m: Mode)
    requires 0 <= i <= |ps|
  {
    && !BrokenOff(t, whole, ps, i)
    && (m.isPadding <==> !EndedBefore(t, whole, ps, i))
    && (m.direct <==> EndedBefore(t, whole, ps, i) && t.enableXtls)
    && (m.long <==> t.tls && !EndedBefore(t, whole, ps, i))
  }

  lemma BeforeNext(t: Tls, whole: bool, ps: seq<bytes>, i: int)
    requires 0 <= i < |ps|
    ensures EndedBefore(t, whole, ps, i + 1) <==> EndedBefore(t, whole, ps, i) || EndsAt(t, whole, ps, i)
    ensures BrokenOff(t, whole, ps, i + 1)
       <==> BrokenOff(t, whole, ps, i) || (GivesUp(t) && !EndsAt(t, whole, ps, i))
  {
  }

  lemma BrokenStays(t: Tls, whole: bool, ps: seq<bytes>, i: int, j: int)
    requires 0 <= i < j <= |ps| && GivesUp(t) && !EndsAt(t, whole, ps, i)
    ensures BrokenOff(t, whole, ps, j)
  {
  }

  /** One turn of the loop. */
  lemma StepBecomes(t: Tls, whole: bool, ps: seq<bytes>, i: nat, m: Mode)
    requires i < |ps| && At(t, whole, ps, i, m)
    ensures var (e, m1, stop) := PlanStep(t, whole, ps[i], i == |ps| - 1, m);
      && Becomes(t, whole, ps, i, e)
      && (stop <==> GivesUp(t) && !EndsAt(t, whole, ps, i))
      && (if stop then m1 == m.(isPadding := false) else At(t, whole, ps, i + 1, m1))
  {
    hide EndsAt, EndedBefore, BrokenOff, AppData;
    AppDataMeans(t, whole, ps, i);
    BeforeNext(t, whole, ps, i);
  }

  /** Every piece from `i` on. */
  lemma {:induction false} PlanBecomes(t: Tls, whole: bool, ps: seq<bytes>, i: nat, m: Mode, j: nat)
    requires i <= j < |ps| && At(t, whole, ps, i, m)
    ensures Becomes(t, whole, ps, j, PlanFrom(t, whole, ps, i, m).0[j - i])
    decreases |ps| - i
  {
    hide EndsAt, EndedBefore, BrokenOff, AppData, At, PlanStep, Becomes;
    StepBecomes(t, whole, ps, i, m);
    var (e, m1, stop) := PlanStep(t, whole, ps[i], i == |ps| - 1, m);
    if j > i && stop {
      BrokenStays(t, whole, ps, i, j);
      LeftPlain(t, whole, ps, i, m, j);
    } else if j > i {
      PlanBecomes(t, whole, ps, i + 1, m1, j);
    }
  }

  /** Behind the break a piece stays as it is. */
  lemma LeftPlain(t: Tls, whole: bool, ps: seq<bytes>, i: nat, m: Mode, j: nat)
    requires i < j < |ps| && PlanStep(t, whole, ps[i], i == |ps| - 1, m).2 && BrokenOff(t, whole, ps, j)
    ensures Becomes(t, whole, ps, j, PlanFrom(t, whole, ps, i, m).0[j - i])
  {
  }

  /** The variables after the loop. */
  lemma {:induction false} PlanEnds(t: Tls, whole: bool, ps: seq<bytes>, i: nat, m: Mode)
    requires i <= |ps| && At(t, whole, ps, i, m) && (t.enableXtls ==> t.tls12OrAbove)
    ensures var m2 := PlanFrom(t, whole, ps, i, m).1;
      && (m2.isPadding <==> !EndedBefore(t, whole, ps, |ps|) && !BrokenOff(t, whole, ps, |ps|))
      && (m2.direct <==> EndedBefore(t, whole, ps, |ps|) && t.enableXtls)
    decreases |ps| - i
  {
    hide EndsAt, EndedBefore, BrokenOff, AppData, PlanStep, Becomes;
    if i < |ps| {
      StepBecomes(t, whole, ps, i, m);
      var (e, m1, stop) := PlanStep(t, whole, ps[i], i == |ps| - 1, m);
      if stop {
        BrokenStays(t, whole, ps, i, |ps|);
      } else {
        PlanEnds(t, whole, ps, i + 1, m1);
      }
    }
  }

  // ----- one write -----

  /** Some piece of the input starts an application-data record, all of the input is such records, and there is TLS. */
  ghost predicate GoneOver(t: Tls, ps: seq<bytes>) {
    t.tls && WholeRecords(Concat(ps)) && exists i :: 0 <= i < |Reshaped(ps)| && StartsRecord(Reshaped(ps)[i])
  }

  lemma GoneOverMeans(t: Tls, ps: seq<bytes>)
    ensures Complete(Concat(ps)) <==> WholeRecords(Concat(ps))
    ensures EndedBefore(t, WholeRecords(Concat(ps)), Reshaped(ps), |Reshaped(ps)|) <==> GoneOver(t, ps)
  {
    CompleteIffRecords(Concat(ps));
    var whole, pieces := WholeRecords(Concat(ps)), Reshaped(ps);
    if GoneOver(t, ps) {
      var i :| 0 <= i < |pieces| && StartsRecord(pieces[i]);
      assert EndsAt(t, whole, pieces, i);
    }
  }

  /** Padding and the request for direct copy after a write in padding mode. */
  ghost predicate PaddingAfter(ps: seq<bytes>, t: Tls, u: WState) {
    && (!u.isPadding <==> GoneOver(t, ps) || (!t.tls12OrAbove && t.packetsToFilter <= 1 && ps != []))
    && (u.direct <==> GoneOver(t, ps) && t.enableXtls)
  }

  /**
   * When padding ends: with the write that has gone over to whole application-data records, or with any that comes when
   * nothing points to TLS 1.2 or later and the packets to look at have run out. Direct copy is asked for in the first
   * case alone, and there if and only if XTLS is enabled.
   */
  lemma PaddingEnds(w: WState, ps: seq<bytes>, t: Tls)
    requires w.isPadding && (t.enableXtls ==> t.tls12OrAbove) && InputFits(Buffers(ps))
    ensures PaddingAfter(ps, t, Post(w, Buffers(ps), t))
  {
    var whole, pieces, m := WholeRecords(Concat(ps)), Reshaped(ps), Mode(true, false, t.tls);
    GoneOverMeans(t, ps);
    ReshapeKeeps(ps);
    assert At(t, whole, pieces, 0, m);
    PlanEnds(t, whole, pieces, 0, m);
    if GivesUp(t) && pieces != [] && !GoneOver(t, ps) {
      assert !EndsAt(t, whole, pieces, 0);
      BrokenStays(t, whole, pieces, 0, |pieces|);
    }
  }

  /** What goes out for piece `j`: command, content and mode of padding. */
  ghost predicate GoesOut(t: Tls, seeds: seq<nat>, whole: bool, ps: seq<bytes>, j: int, x: Item)
    requires SeedShape(seeds) && 0 <= j < |ps|
  {
    var ends, ended := EndsAt(t, whole, ps, j), EndedBefore(t, whole, ps, j);
    if BrokenOff(t, whole, ps, j) then x == Raw(ps[j])
    else
      && x.Framed? && x.b.content == ps[j]
      && PaddingChoice(seeds, |ps[j]|, ends || (t.tls && !ended), x.b.padding)
      && x.b.command == if !ends && GivesUp(t) then 1
                        else if j < |ps| - 1 || !(ends || ended) then 0
                        else if t.enableXtls then 2 else 1
  }

  lemma RealizedGoesOut(t: Tls, seeds: seq<nat>, whole: bool, ps: seq<bytes>, j: int, e: Emit, x: Item)
    requires SeedShape(seeds) && 0 <= j < |ps| && Becomes(t, whole, ps, j, e) && Realizes(e, ps[j], seeds, x)
    ensures GoesOut(t, seeds, whole, ps, j, x)
  {
    hide EndsAt, EndedBefore, BrokenOff, GivesUp, PaddingChoice, Fits;
  }

  lemma PieceBecomes(w: WState, seeds: seq<nat>, ps: seq<bytes>, t: Tls, xs: seq<Item>, j: nat)
    requires SeedShape(seeds) && Switched(w).isPadding && ItemsOk(w, Buffers(ps), t, seeds, xs) && j < |Reshaped(ps)|
    ensures |xs| == |Reshaped(ps)| && GoesOut(t, seeds, WholeRecords(Concat(ps)), Reshaped(ps), j, xs[j])
  {
    hide GoesOut, Becomes, PlanFrom, PaddingChoice, Realizes, At;
    var whole, pieces, m := WholeRecords(Concat(ps)), Reshaped(ps), Mode(true, false, t.tls);
    GoneOverMeans(t, ps);
    AtStart(t, whole, pieces);
    PlanBecomes(t, whole, pieces, 0, m, j);
    RealizedGoesOut(t, seeds, whole, pieces, j, PlanFrom(t, whole, pieces, 0, m).0[j], xs[j]);
  }

  lemma AtStart(t: Tls, whole: bool, ps: seq<bytes>)
    ensures At(t, whole, ps, 0, Mode(true, false, t.tls))
  {
  }

  /** Where the first buffer shows a record header, the records alone decide. */
  lemma FirstShows(t: Tls, ps: seq<bytes>)
    requires ps != [] && |ps[0]| >= 6 && InputFits(Buffers(ps))
    ensures GoneOver(t, ps) <==> t.tls && WholeRecords(Concat(ps))
  {
    if WholeRecords(Concat(ps)) {
      var b, first := Concat(ps), Reshaped(ps)[0];
      CompleteIffRecords(b);
      ReshapeKeeps(ps);
      assert first == SplitPiece(ps[0])[0];
      assert forall k :: 0 <= k < 6 ==> first[k] == ps[0][k] == b[k];
      assert StartsRecord(first);
    }
  }

  /**
   * The way to raw copy. A server hello in whatever buffers and calls that selects TLS 1.3 with one of the suites, and
   * then a write of whole application-data records: padding ends and direct copy is asked for.
   */
  lemma {:induction false} GoesDirect(t: Tls, calls: seq<seq<View>>, w: WState, ps: seq<bytes>)
    requires (forall i :: 0 <= i < |calls| ==> Whole(calls[i])) && Whole(Concat(calls))
    requires calls != [] && calls[0] != [] && t.packetsToFilter >= |Concat(calls)|
    requires var ds := Windows(Concat(calls));
      && StartsServerHello(ds[0]) && SuiteInside(ds[0]) && NoServerHello(ds[1..])
      && Read(ds, RecordEnd(ds[0])) == Tls13 && 0x1301 <= SuiteAfter(t, ds[0]) <= 0x1304
    requires w.isPadding && ps != [] && |ps[0]| >= 6 && InputFits(Buffers(ps)) && WholeRecords(Concat(ps))
    ensures FilterRun(t, AllGiven(calls)).Some?
    ensures var u := Post(w, Buffers(ps), FilterRun(t, AllGiven(calls)).value); !u.isPadding && u.direct
  {
    HelloInRun(t, calls);
    var t1 := FilterRun(t, AllGiven(calls)).value;
    FirstShows(t1, ps);
    PaddingEnds(w, ps, t1);
  }
}
