/** Reading back a template written from a tree: exactly which trees survive. */
module TagRoundTrip {
  import opened Common
  import opened TagStack

  /** The tokens of a template that spells the forest out. */
  function Tokens(forest: seq<Tree>): seq<Token>
    decreases forest
  {
    if forest == [] then [] else TreeTokens(forest[0]) + Tokens(forest[1..])
  }

  function TreeTokens(t: Tree): seq<Token>
    decreases t
  {
    match t
    case Leaf(tag) => [StartTag(tag, true)]
    case Node(tag, children) => [StartTag(tag, false)] + Tokens(children) + [EndTag(tag)]
  }

  /** `tag` may start where `frames` are open. */
  predicate Stands(o: Options, frames: seq<Frame>, tag: string) {
    o.expectHTML && frames != [] ==> Fits(o, frames[|frames| - 1].tag, tag)
  }

  /**
   * Every element may stand in its parent, and no element with an end tag has the name of one without.
   * Below the outermost level only the tag of the parent matters.
   */
  predicate WellPlaced(o: Options, frames: seq<Frame>, forest: seq<Tree>)
    decreases forest
  {
    forest != [] ==> TreePlaced(o, frames, forest[0]) && WellPlaced(o, frames, forest[1..])
  }

  predicate TreePlaced(o: Options, frames: seq<Frame>, t: Tree)
    decreases t
  {
    && Stands(o, frames, t.tag)
    && (t.Node? ==> t.tag !in o.unary && WellPlaced(o, [Frame(t.tag, [])], t.children))
  }

  /** Tags match at least one character. */
  predicate Named(forest: seq<Tree>)
    decreases forest
  {
    forest != [] ==> TreeNamed(forest[0]) && Named(forest[1..])
  }

  predicate TreeNamed(t: Tree)
    decreases t
  {
    t.tag != "" && (t.Node? ==> Named(t.children))
  }

  function AddForest(s: State, forest: seq<Tree>): State
    decreases forest
  {
    if forest == [] then s else AddForest(Add(s, forest[0]), forest[1..])
  }

  lemma {:induction false} TokensSplit(o: Options, s: State, ts: seq<Token>, us: seq<Token>)
    ensures AfterTokens(o, s, ts + us) == AfterTokens(o, AfterTokens(o, s, ts), us)
    decreases ts
  {
    if ts == [] {
      assert ts + us == us;
    } else {
      assert (ts + us)[1..] == ts[1..] + us;
      TokensSplit(o, AfterToken(o, s, ts[0]), ts[1..], us);
    }
  }

  /** The tokens of an element with children. */
  lemma NodeTokens(o: Options, s: State, tag: string, children: seq<Tree>)
    ensures AfterTokens(o, s, TreeTokens(Node(tag, children)))
         == AfterEnd(AfterTokens(o, AfterStart(o, s, StartTag(tag, false)), Tokens(children)), Some(tag))
  {
    var open, inner, close := [StartTag(tag, false)], Tokens(children), [EndTag(tag)];
    TokensSplit(o, s, open + inner, close);
    TokensSplit(o, s, open, inner);
  }

  lemma {:induction false} AddForestInside(s: State, outer: seq<Frame>, tag: string, children: seq<Tree>,
                                           more: seq<Tree>)
    requires s.frames == outer + [Frame(tag, children)]
    ensures AddForest(s, more) == State(s.roots, outer + [Frame(tag, children + more)])
    decreases more
  {
    if more == [] {
      assert children + more == children;
    } else {
      assert Outer(s.frames) == outer;
      assert children + [more[0]] + more[1..] == children + more;
      AddForestInside(Add(s, more[0]), outer, tag, children + [more[0]], more[1..]);
    }
  }

  lemma StartPlaced(o: Options, s: State, tag: string)
    requires Stands(o, s.frames, tag)
    ensures Implied(o, s, tag) == s
  {
  }

  /** Only the parent matters to what stands below. */
  lemma {:induction false} PlacedBelow(o: Options, f: seq<Frame>, g: seq<Frame>, forest: seq<Tree>)
    requires f != [] && g != [] && f[|f| - 1].tag == g[|g| - 1].tag
    ensures WellPlaced(o, f, forest) == WellPlaced(o, g, forest)
    decreases forest
  {
    if forest != [] {
      PlacedBelow(o, f, g, forest[1..]);
    }
  }

  /** Adding an element leaves what may stand beside it. */
  lemma PlacedBeside(o: Options, s: State, t: Tree, forest: seq<Tree>)
    ensures WellPlaced(o, Add(s, t).frames, forest) == WellPlaced(o, s.frames, forest)
  {
    if s.frames != [] {
      PlacedBelow(o, Add(s, t).frames, s.frames, forest);
    }
  }

  /** A well placed forest is read as it was written. */
  lemma {:induction false} ForestReadsBack(o: Options, s: State, forest: seq<Tree>)
    requires WellPlaced(o, s.frames, forest) && Named(forest)
    ensures AfterTokens(o, s, Tokens(forest)) == AddForest(s, forest)
    decreases forest
  {
    if forest != [] {
      var t := forest[0];
      TokensSplit(o, s, TreeTokens(t), Tokens(forest[1..]));
      TreeReadsBack(o, s, t);
      PlacedBeside(o, s, t, forest[1..]);
      ForestReadsBack(o, Add(s, t), forest[1..]);
    }
  }

  lemma {:induction false} TreeReadsBack(o: Options, s: State, t: Tree)
    requires TreePlaced(o, s.frames, t) && TreeNamed(t)
    ensures AfterTokens(o, s, TreeTokens(t)) == Add(s, t)
    decreases t
  {
    StartPlaced(o, s, t.tag);
    match t
    case Leaf(tag) =>
    case Node(tag, children) =>
      NodeTokens(o, s, tag, children);
      var open := State(s.roots, s.frames + [Frame(tag, [])]);
      PlacedBelow(o, open.frames, [Frame(tag, [])], children);
      ForestReadsBack(o, open, children);
      AddForestInside(open, s.frames, tag, [], children);
      EndsNode(s, tag, children);
  }

  /** The end tag of the innermost element closes it. */
  lemma EndsNode(s: State, tag: string, children: seq<Tree>)
    requires tag != ""
    ensures AfterEnd(State(s.roots, s.frames + [Frame(tag, [] + children)]), Some(tag)) == Add(s, Node(tag, children))
  {
    var open := State(s.roots, s.frames + [Frame(tag, [] + children)]);
    assert [] + children == children;
    assert Outer(open.frames) == s.frames;
    CloseToLast(open);
  }

  // ----- and nothing else is -----

  predicate Compatible(a: seq<Event>, b: seq<Event>) {
    a <= b || b <= a
  }

  lemma StaysIncompatible(a: seq<Event>, b: seq<Event>, a1: seq<Event>, b1: seq<Event>)
    requires !Compatible(a, b) && a <= a1 && b <= b1
    ensures !Compatible(a1, b1)
  {
  }

  lemma OtherCall(calls: seq<Event>, x: Event, y: Event, a: seq<Event>, b: seq<Event>)
    requires x != y && calls + [x] <= a && calls + [y] <= b
    ensures !Compatible(a, b)
  {
    var n := |calls|;
    assert a[n] == (calls + [x])[n] == x && b[n] == (calls + [y])[n] == y;
  }

  lemma {:induction false} CallsCloseTo(s: State, n: nat)
    ensures Calls(s) <= Calls(CloseTo(s, n))
    decreases |s.frames|
  {
    if |s.frames| > n {
      CallsCloseOne(s);
      CallsCloseTo(CloseOne(s), n);
    }
  }

  lemma CallsImplied(o: Options, s: State, tagName: string)
    ensures Calls(s) <= Calls(Implied(o, s, tagName))
  {
    var s1 := if o.expectHTML then WithoutParagraph(o, s, tagName) else s;
    if s1 != s {
      CallsCloseOne(s);
    }
    if InSame(o, s1.frames, tagName) {
      CallsCloseOne(s1);
      CallsCloseTo(s1, 0);
    }
  }

  lemma CallsAfterStart(o: Options, s: State, t: Token)
    ensures Calls(AfterStart(o, s, t)) == Calls(Implied(o, s, t.name)) + [Start(t.name, IsUnary(o, t))]
  {
    var s1 := Implied(o, s, t.name);
    if IsUnary(o, t) {
      CallsAdd(s1, Leaf(t.name));
    } else {
      CallsPush(s1, t.name);
    }
  }

  lemma CallsAfterEnd(s: State, name: string)
    ensures Calls(s) <= Calls(AfterEnd(s, Some(name)))
  {
    var pos := if name == "" then 0 else Closest(s.frames, Lower(name));
    if pos >= 0 {
      CallsCloseTo(s, pos);
    } else if Lower(name) == "br" {
      CallsAdd(s, Leaf(name));
    } else {
      CallsAdd(s, Node(name, []));
    }
  }

  /** Callbacks are never taken back. */
  lemma CallsGrow(o: Options, s: State, t: Token)
    ensures Calls(s) <= Calls(AfterToken(o, s, t))
  {
    if t.StartTag? {
      CallsImplied(o, s, t.name);
      CallsAfterStart(o, s, t);
    } else {
      CallsAfterEnd(s, t.name);
    }
  }

  lemma {:induction false} CallsGrowAll(o: Options, s: State, ts: seq<Token>)
    ensures Calls(s) <= Calls(AfterTokens(o, s, ts))
    decreases ts
  {
    if ts != [] {
      CallsGrow(o, s, ts[0]);
      CallsGrowAll(o, AfterToken(o, s, ts[0]), ts[1..]);
    }
  }

  /** An element that may not stand where it is makes its parent end first. */
  lemma MisfitCloses(o: Options, s: State, tag: string)
    requires !Stands(o, s.frames, tag) && tag != ""
    ensures s.frames != [] && Calls(s) + [End(s.frames[|s.frames| - 1].tag)] <= Calls(Implied(o, s, tag))
  {
    CallsCloseOne(s);
    if InParagraph(o, s.frames, tag) {
      var s1 := CloseOne(s);
      if InSame(o, s1.frames, tag) {
        CallsCloseOne(s1);
      }
    }
  }

  /** Once another callback than the element's first was made, it stays so. */
  lemma FirstDiffers(o: Options, s: State, t: Tree, x: Event)
    requires x != Start(t.tag, t.Leaf?)
    requires Calls(s) + [x] <= Calls(AfterStart(o, s, TreeTokens(t)[0]))
    ensures !Compatible(Calls(AfterTokens(o, s, TreeTokens(t))), Calls(s) + PrintTree(t))
  {
    var ts := TreeTokens(t);
    CallsGrowAll(o, AfterStart(o, s, ts[0]), ts[1..]);
    OtherCall(Calls(s), x, Start(t.tag, t.Leaf?), Calls(AfterTokens(o, s, ts)), Calls(s) + PrintTree(t));
  }

  lemma {:induction false} TreeDiffers(o: Options, s: State, t: Tree)
    requires TreeNamed(t) && !TreePlaced(o, s.frames, t)
    ensures !Compatible(Calls(AfterTokens(o, s, TreeTokens(t))), Calls(s) + PrintTree(t))
    decreases t
  {
    CallsAfterStart(o, s, TreeTokens(t)[0]);
    if !Stands(o, s.frames, t.tag) {
      MisfitCloses(o, s, t.tag);
      FirstDiffers(o, s, t, End(s.frames[|s.frames| - 1].tag));
    } else {
      StartPlaced(o, s, t.tag);
      if t.tag in o.unary {
        FirstDiffers(o, s, t, Start(t.tag, true));
      } else {
        ChildrenDiffer(o, s, t.tag, t.children);
      }
    }
  }

  lemma {:induction false} ChildrenDiffer(o: Options, s: State, tag: string, children: seq<Tree>)
    requires tag != "" && Named(children) && !WellPlaced(o, [Frame(tag, [])], children)
    requires Stands(o, s.frames, tag) && tag !in o.unary
    ensures !Compatible(Calls(AfterTokens(o, s, TreeTokens(Node(tag, children)))),
                        Calls(s) + PrintTree(Node(tag, children)))
    decreases children, 1
  {
    StartPlaced(o, s, tag);
    NodeTokens(o, s, tag, children);
    var open := State(s.roots, s.frames + [Frame(tag, [])]);
    PlacedBelow(o, open.frames, [Frame(tag, [])], children);
    ForestDiffers(o, open, children);
    CallsPush(s, tag);
    var inside := AfterTokens(o, open, Tokens(children));
    CallsAfterEnd(inside, tag);
    var all := Calls(s) + PrintTree(Node(tag, children));
    assert all == (Calls(open) + Print(children)) + [End(tag)];
    StaysIncompatible(Calls(inside), Calls(open) + Print(children), Calls(AfterEnd(inside, Some(tag))), all);
  }

  lemma {:induction false} ForestDiffers(o: Options, s: State, forest: seq<Tree>)
    requires Named(forest) && !WellPlaced(o, s.frames, forest)
    ensures !Compatible(Calls(AfterTokens(o, s, Tokens(forest))), Calls(s) + Print(forest))
    decreases forest, 0
  {
    var t, rest := forest[0], forest[1..];
    var s1 := AfterTokens(o, s, TreeTokens(t));
    TokensSplit(o, s, TreeTokens(t), Tokens(rest));
    CallsGrowAll(o, s1, Tokens(rest));
    assert Calls(s) + Print(forest) == (Calls(s) + PrintTree(t)) + Print(rest);
    if !TreePlaced(o, s.frames, t) {
      TreeDiffers(o, s, t);
      StaysIncompatible(Calls(s1), Calls(s) + PrintTree(t), Calls(AfterTokens(o, s1, Tokens(rest))),
                        Calls(s) + Print(forest));
    } else {
      TreeReadsBack(o, s, t);
      PlacedBeside(o, s, t, rest);
      CallsAdd(s, t);
      ForestDiffers(o, Add(s, t), rest);
    }
  }

  lemma {:induction false} AddRoots(roots: seq<Tree>, forest: seq<Tree>)
    ensures AddForest(State(roots, []), forest) == State(roots + forest, [])
    decreases forest
  {
    if forest == [] {
      assert roots + forest == roots;
    } else {
      assert roots + [forest[0]] + forest[1..] == roots + forest;
      AddRoots(roots + [forest[0]], forest[1..]);
    }
  }

  /**
   * A template that spells a forest out is read as that forest if and only if every element may stand in
   * its parent and no element with an end tag has the name of one without.
   */
  lemma {:induction false} RoundTrip(o: Options, forest: seq<Tree>)
    requires Named(forest)
    ensures Parse(o, Tokens(forest)) == forest <==> WellPlaced(o, [], forest)
  {
    var s := State([], []);
    var end := AfterTokens(o, s, Tokens(forest));
    if WellPlaced(o, [], forest) {
      ForestReadsBack(o, s, forest);
      AddRoots([], forest);
      assert [] + forest == forest;
    } else {
      ForestDiffers(o, s, forest);
      CallsCloseTo(end, 0);
      var closed := CloseTo(end, 0);
      assert Calls(closed) == Print(closed.roots) + [];
      assert Calls(s) + Print(forest) == Print(forest);
    }
  }
}
