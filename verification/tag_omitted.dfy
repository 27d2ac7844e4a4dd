/** Templates with end tags left out: which of them are read as the forest that was meant. */
module TagOmitted {
  import opened Common
  import opened TagStack
  import opened TagRoundTrip

  /** An element as it is written: without an end tag of its kind, or with one that may be left out. */
  datatype Doc = Void(tag: string) | Elem(tag: string, children: seq<Doc>, ended: bool)

  predicate LeftOut(d: Doc) {
    d.Elem? && !d.ended
  }

  /** The forest that is meant. */
  function Meant(ds: seq<Doc>): (r: seq<Tree>)
    ensures |r| == |ds|
    decreases ds
  {
    if ds == [] then [] else [MeantOne(ds[0])] + Meant(ds[1..])
  }

  function MeantOne(d: Doc): Tree
    decreases d
  {
    match d
    case Void(tag) => Leaf(tag)
    case Elem(tag, children, _) => Node(tag, Meant(children))
  }

  /** What is written. */
  function Written(ds: seq<Doc>): seq<Token>
    decreases ds
  {
    if ds == [] then [] else WrittenOne(ds[0]) + Written(ds[1..])
  }

  function WrittenOne(d: Doc): (r: seq<Token>)
    ensures r != [] && r[0] == StartTag(d.tag, d.Void?)
    decreases d
  {
    match d
    case Void(tag) => [StartTag(tag, true)]
    case Elem(tag, children, ended) =>
      [StartTag(tag, false)] + (Written(children) + if ended then [EndTag(tag)] else [])
  }

  /** The names of what is still open behind it, outermost first. */
  function StillOpen(ds: seq<Doc>): seq<string>
    decreases ds
  {
    if ds == [] then [] else if |ds| > 1 then StillOpen(ds[1..]) else OpenIn(ds[0])
  }

  function OpenIn(d: Doc): seq<string>
    decreases d
  {
    if LeftOut(d) then [d.tag] + StillOpen(d.children) else []
  }

  /** A start tag of this name ends an open element of that one. */
  predicate EndsBefore(o: Options, open: string, next: string) {
    o.expectHTML && ((open == "p" && next in o.nonPhrasing) || (open == next && next in o.leftOpen))
  }

  /**
   * End tags are left out only where the end of the parent ends the element, or the next start tag does; and an end tag
   * that is there does not find an element of its name still open inside.
   */
  predicate Omits(o: Options, ds: seq<Doc>)
    decreases ds
  {
    ds != [] ==>
      && OmitsOne(o, ds[0]) && Omits(o, ds[1..])
      && (|ds| > 1 && LeftOut(ds[0]) ==> StillOpen(ds[0].children) == [] && EndsBefore(o, ds[0].tag, ds[1].tag))
  }

  predicate OmitsOne(o: Options, d: Doc)
    decreases d
  {
    d.Elem? ==>
      && Omits(o, d.children)
      && (d.ended ==> forall i :: 0 <= i < |StillOpen(d.children)| ==> Lower(StillOpen(d.children)[i]) != Lower(d.tag))
  }

  // ----- the state behind it -----

  function Opened(s: State, tag: string): State {
    State(s.roots, s.frames + [Frame(tag, [])])
  }

  /** All is added but what is still open. */
  function Reach(s: State, ds: seq<Doc>): State
    decreases ds
  {
    if ds == [] then s
    else if |ds| == 1 then ReachOne(s, ds[0])
    else Reach(Add(s, MeantOne(ds[0])), ds[1..])
  }

  function ReachOne(s: State, d: Doc): State
    decreases d
  {
    if LeftOut(d) then Reach(Opened(s, d.tag), d.children) else Add(s, MeantOne(d))
  }

  predicate OpenBehind(frames: seq<Frame>, s: State, names: seq<string>) {
    && |frames| == |s.frames| + |names|
    && (forall i :: 0 <= i < |s.frames| ==> frames[i].tag == s.frames[i].tag)
    && forall i :: 0 <= i < |names| ==> frames[|s.frames| + i].tag == names[i]
  }

  lemma {:induction false} ReachOpen(s: State, ds: seq<Doc>)
    ensures OpenBehind(Reach(s, ds).frames, s, StillOpen(ds))
    decreases ds
  {
    if |ds| == 1 {
      ReachOneOpen(s, ds[0]);
    } else if |ds| > 1 {
      ReachOpen(Add(s, MeantOne(ds[0])), ds[1..]);
    }
  }

  lemma {:induction false} ReachOneOpen(s: State, d: Doc)
    ensures OpenBehind(ReachOne(s, d).frames, s, OpenIn(d))
    decreases d
  {
    if LeftOut(d) {
      var open := Opened(s, d.tag);
      ReachOpen(open, d.children);
      var r, names := Reach(open, d.children), StillOpen(d.children);
      forall i | 0 <= i < |OpenIn(d)|
        ensures r.frames[|s.frames| + i].tag == OpenIn(d)[i]
      {
        if i == 0 {
          assert open.frames[|s.frames|].tag == d.tag;
        } else {
          assert r.frames[|open.frames| + (i - 1)].tag == names[i - 1];
        }
      }
      assert forall i :: 0 <= i < |s.frames| ==> open.frames[i] == s.frames[i];
    }
  }

  lemma {:induction false} CloseTwice(s: State, m: nat, n: nat)
    requires n <= m
    ensures CloseTo(CloseTo(s, m), n) == CloseTo(s, n)
    decreases |s.frames|
  {
    if |s.frames| > m {
      CloseTwice(CloseOne(s), m, n);
    }
  }

  /** Ending what is still open completes the forest. */
  lemma {:induction false} ReachCloses(s: State, ds: seq<Doc>)
    ensures CloseTo(Reach(s, ds), |s.frames|) == AddForest(s, Meant(ds))
    decreases ds, 0
  {
    if |ds| == 1 {
      ReachOneCloses(s, ds[0]);
      assert Meant(ds)[1..] == [];
    } else if |ds| > 1 {
      ReachCloses(Add(s, MeantOne(ds[0])), ds[1..]);
      assert Meant(ds)[1..] == Meant(ds[1..]);
    }
  }

  lemma {:induction false} ReachOneCloses(s: State, d: Doc)
    ensures CloseTo(ReachOne(s, d), |s.frames|) == Add(s, MeantOne(d))
    decreases d, 0
  {
    if LeftOut(d) {
      ElementCloses(s, d.tag, d.children);
    }
  }

  lemma {:induction false} ElementCloses(s: State, tag: string, children: seq<Doc>)
    ensures CloseTo(Reach(Opened(s, tag), children), |s.frames|) == Add(s, Node(tag, Meant(children)))
    decreases children, 1
  {
    var open := Opened(s, tag);
    ReachCloses(open, children);
    CloseTwice(Reach(open, children), |open.frames|, |s.frames|);
    AddForestInside(open, s.frames, tag, [], Meant(children));
    var full := AddForest(open, Meant(children));
    assert [] + Meant(children) == Meant(children);
    assert Outer(full.frames) == s.frames;
    CloseToLast(full);
  }

  // ----- reading it back -----

  /** An end tag that is there ends the element it was written for. */
  lemma EndTagFinds(s: State, tag: string, children: seq<Doc>)
    requires tag != "" && forall i :: 0 <= i < |StillOpen(children)| ==> Lower(StillOpen(children)[i]) != Lower(tag)
    ensures AfterEnd(Reach(Opened(s, tag), children), Some(tag)) == Add(s, Node(tag, Meant(children)))
  {
    var open := Opened(s, tag);
    var r, n := Reach(open, children), |s.frames|;
    ReachOpen(open, children);
    assert r.frames[n].tag == open.frames[n].tag == tag;
    forall i | n < i < |r.frames|
      ensures Lower(r.frames[i].tag) != Lower(tag)
    {
      assert r.frames[|open.frames| + (i - n - 1)].tag == StillOpen(children)[i - n - 1];
    }
    assert Closest(r.frames, Lower(tag)) == n;
    ElementCloses(s, tag, children);
  }

  /** The next start tag ends an element whose end tag is left out before it. */
  lemma StartTagEnds(o: Options, s: State, tag: string, children: seq<Doc>, next: Token)
    requires StillOpen(children) == [] && EndsBefore(o, tag, next.name) && Stands(o, s.frames, next.name)
    requires tag != "" && next.name != ""
    ensures AfterStart(o, Reach(Opened(s, tag), children), next)
         == AfterStart(o, Add(s, Node(tag, Meant(children))), next)
  {
    var open, r := Opened(s, tag), Reach(Opened(s, tag), children);
    ReachOpen(open, children);
    assert r.frames[|s.frames|].tag == open.frames[|s.frames|].tag == tag;
    ElementCloses(s, tag, children);
    CloseToLast(r);
    var s1 := Add(s, Node(tag, Meant(children)));
    assert CloseOne(r) == s1;
    assert Stands(o, s1.frames, next.name);
    StartPlaced(o, s1, next.name);
    assert Implied(o, r, next.name) == s1;
  }

  lemma FirstWritten(ds: seq<Doc>)
    requires ds != []
    ensures Written(ds) == WrittenOne(ds[0]) + Written(ds[1..]) && Written(ds) != []
    ensures Written(ds)[0] == StartTag(ds[0].tag, ds[0].Void?)
  {
  }

  lemma NextPlaced(o: Options, frames: seq<Frame>, ds: seq<Doc>)
    requires ds != [] && WellPlaced(o, frames, Meant(ds)) && Named(Meant(ds))
    ensures ds[0].tag != "" && Stands(o, frames, ds[0].tag)
  {
    assert Meant(ds)[0] == MeantOne(ds[0]) && MeantOne(ds[0]).tag == ds[0].tag;
  }

  /** Whatever elements are written, in whatever state of the parser they may stand. */
  lemma {:induction false} ReadsAll(o: Options, s: State, ds: seq<Doc>)
    requires WellPlaced(o, s.frames, Meant(ds)) && Named(Meant(ds)) && Omits(o, ds)
    ensures AfterTokens(o, s, Written(ds)) == Reach(s, ds)
    decreases ds
  {
    hide Stands, AfterStart, AfterEnd, Add, StillOpen;
    if ds != [] {
      var d, rest := ds[0], ds[1..];
      assert Meant(ds)[0] == MeantOne(d) && Meant(ds)[1..] == Meant(rest);
      TokensSplit(o, s, WrittenOne(d), Written(rest));
      ReadsOne(o, s, d);
      if rest != [] {
        var s1 := Add(s, MeantOne(d));
        PlacedBeside(o, s, MeantOne(d), Meant(rest));
        ReadsAll(o, s1, rest);
        if LeftOut(d) {
          NextPlaced(o, s.frames, rest);
          FirstWritten(rest);
          StartTagEnds(o, s, d.tag, d.children, Written(rest)[0]);
          NextReads(o, ReachOne(s, d), s1, Written(rest));
        }
      } else {
        assert Written(rest) == [];
      }
    }
  }

  lemma NextReads(o: Options, r: State, s: State, ts: seq<Token>)
    requires ts != [] && AfterToken(o, r, ts[0]) == AfterToken(o, s, ts[0])
    ensures AfterTokens(o, r, ts) == AfterTokens(o, s, ts)
  {
  }

  lemma {:induction false} ReadsOne(o: Options, s: State, d: Doc)
    requires TreePlaced(o, s.frames, MeantOne(d)) && TreeNamed(MeantOne(d)) && OmitsOne(o, d)
    ensures AfterTokens(o, s, WrittenOne(d)) == ReachOne(s, d)
    decreases d
  {
    StartPlaced(o, s, d.tag);
    match d
    case Void(tag) =>
    case Elem(tag, children, ended) =>
      var open, inner, close := Opened(s, tag), Written(children), if ended then [EndTag(tag)] else [];
      PlacedBelow(o, open.frames, [Frame(tag, [])], Meant(children));
      TokensSplit(o, s, [StartTag(tag, false)], inner + close);
      assert AfterTokens(o, s, [StartTag(tag, false)]) == open;
      TokensSplit(o, open, inner, close);
      ReadsAll(o, open, children);
      if ended {
        EndTagFinds(s, tag, children);
      }
  }

  /**
   * A template with end tags left out, be it where the parent or the template ends or where the next start tag implies
   * them, is read as the forest that was meant.
   */
  lemma {:induction false} OmittedRoundTrip(o: Options, ds: seq<Doc>)
    requires WellPlaced(o, [], Meant(ds)) && Named(Meant(ds)) && Omits(o, ds)
    ensures Parse(o, Written(ds)) == Meant(ds)
  {
    var s := State([], []);
    ReadsAll(o, s, ds);
    ReachCloses(s, ds);
    AddRoots([], Meant(ds));
    assert [] + Meant(ds) == Meant(ds);
  }

  /** The template `<a><a></a><b/>`, of which the first `a` was meant to end at the end tag. */
  const CLASH: seq<Doc> := [Elem("a", [Elem("a", [], false)], true), Void("b")]

  lemma ClashWritten()
    ensures Written(CLASH) == [StartTag("a", false), StartTag("a", false), EndTag("a"), StartTag("b", true)]
    ensures |Meant(CLASH)| == 2 && Named(Meant(CLASH)) && WellPlaced(Options(false, {}, {}, {}), [], Meant(CLASH))
  {
    var inner := Elem("a", [], false);
    assert CLASH[1..] == [Void("b")] && [Void("b")][1..] == [] && [inner][1..] == [];
    assert Written([inner]) == [StartTag("a", false)] && Written([Void("b")]) == [StartTag("b", true)];
  }

  lemma ClashEnds()
    ensures AfterEnd(State([], [Frame("a", []), Frame("a", [])]), Some("a")) == State([], [Frame("a", [Node("a", [])])])
  {
    var s, none := State([], [Frame("a", [])]), [];
    EndsNode(s, "a", none);
    assert none + none == none && s.frames + [Frame("a", none)] == [Frame("a", []), Frame("a", [])];
    assert none + [Node("a", none)] == [Node("a", none)];
  }

  /** Where an end tag finds an element of its name still open inside, what follows it stands in the wrong place. */
  lemma ClashExample(o: Options)
    requires o == Options(false, {}, {}, {})
    ensures Named(Meant(CLASH)) && WellPlaced(o, [], Meant(CLASH)) && Parse(o, Written(CLASH)) != Meant(CLASH)
  {
    hide CloseTo, AfterEnd;
    ClashWritten();
    ClashEnds();
    var open := StartTag("a", false);
    var rest := [EndTag("a"), StartTag("b", true)];
    var s2 := State([], [Frame("a", []), Frame("a", [])]);
    TokensSplit(o, State([], []), [open, open], rest);
    assert [open, open] + rest == Written(CLASH) && [open, open][1..] == [open] && [open][1..] == [];
    var s1 := State([], [Frame("a", [])]);
    assert [] + s1.frames == s1.frames && s1.frames + [Frame("a", [])] == s2.frames;
    assert AfterToken(o, State([], []), open) == s1 && AfterToken(o, s1, open) == s2;
    assert AfterTokens(o, s1, [open]) == s2;
    assert AfterTokens(o, State([], []), [open, open]) == s2;
    var s3, s4 := State([], [Frame("a", [Node("a", [])])]), State([], [Frame("a", [Node("a", []), Leaf("b")])]);
    assert [Node("a", [])] + [Leaf("b")] == [Node("a", []), Leaf("b")];
    assert AfterToken(o, s2, rest[0]) == s3 && AfterToken(o, s3, rest[1]) == s4;
    assert AfterTokens(o, s3, [rest[1]]) == s4;
    assert rest[1..] == [StartTag("b", true)] && rest[1..][1..] == [];
    assert AfterTokens(o, s2, rest) == s4;
    CloseToLast(s4);
    assert |CloseOne(s4).roots| == 1;
  }
}
