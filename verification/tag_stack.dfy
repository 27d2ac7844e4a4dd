/** The open-tag stacks of the template compiler: `parseHTML`, and `parse` as the consumer of its callbacks. */
module TagStack {
  import opened Common

  /** What the compiler passes to `parseHTML`; `nonPhrasing` is the table it has itself. */
  datatype Options = Options(expectHTML: bool, unary: set<string>, leftOpen: set<string>, nonPhrasing: set<string>)

  datatype Token = StartTag(name: string, unarySlash: bool) | EndTag(name: string)

  /** The calls of `options.start` and `options.end`. */
  datatype Event = Start(tag: string, unary: bool) | End(tag: string)

  datatype Tree = Leaf(tag: string) | Node(tag: string, children: seq<Tree>)

  /** An element that is still open, with its children so far. */
  datatype Frame = Frame(tag: string, children: seq<Tree>)

  // ----- callbacks and trees -----

  function Print(forest: seq<Tree>): seq<Event>
    decreases forest
  {
    if forest == [] then [] else PrintTree(forest[0]) + Print(forest[1..])
  }

  function PrintTree(t: Tree): seq<Event>
    decreases t
  {
    match t
    case Leaf(tag) => [Start(tag, true)]
    case Node(tag, children) => [Start(tag, false)] + Print(children) + [End(tag)]
  }

  /** The callbacks so far when `frames` are still open. */
  function PrintFrames(frames: seq<Frame>): seq<Event> {
    if frames == [] then []
    else
      var top := frames[|frames| - 1];
      PrintFrames(frames[..|frames| - 1]) + ([Start(top.tag, false)] + Print(top.children))
  }

  /** Adding a closed element to what encloses it: the innermost open element, or nothing. */
  function AddChild(frames: seq<Frame>, t: Tree): seq<Frame> {
    if frames == [] then []
    else
      var top := frames[|frames| - 1];
      frames[..|frames| - 1] + [Frame(top.tag, top.children + [t])]
  }

  function AddRoot(roots: seq<Tree>, frames: seq<Frame>, t: Tree): seq<Tree> {
    if frames == [] then roots + [t] else roots
  }

  function Outer(frames: seq<Frame>): seq<Frame>
    requires frames != []
  {
    frames[..|frames| - 1]
  }

  /** The innermost open element, closed. */
  function Closed(frames: seq<Frame>): Tree
    requires frames != []
  {
    Node(frames[|frames| - 1].tag, frames[|frames| - 1].children)
  }

  lemma {:induction false} PrintSnoc(forest: seq<Tree>, t: Tree)
    ensures Print(forest + [t]) == Print(forest) + PrintTree(t)
    decreases forest
  {
    if forest != [] {
      assert (forest + [t])[1..] == forest[1..] + [t];
      PrintSnoc(forest[1..], t);
    }
  }

  lemma PrintAdd(roots: seq<Tree>, frames: seq<Frame>, t: Tree)
    ensures Print(AddRoot(roots, frames, t)) + PrintFrames(AddChild(frames, t))
         == (Print(roots) + PrintFrames(frames)) + PrintTree(t)
  {
    hide PrintTree, Print;
    if frames == [] {
      PrintSnoc(roots, t);
    } else {
      var top := frames[|frames| - 1];
      var all := AddChild(frames, t);
      PrintSnoc(top.children, t);
      assert all[..|all| - 1] == frames[..|frames| - 1];
    }
  }

  /** Closing the innermost element is adding it to what encloses it, plus the callback. */
  lemma PrintEnd(roots: seq<Tree>, frames: seq<Frame>)
    requires frames != []
    ensures Print(AddRoot(roots, Outer(frames), Closed(frames))) + PrintFrames(AddChild(Outer(frames), Closed(frames)))
         == (Print(roots) + PrintFrames(frames)) + [End(frames[|frames| - 1].tag)]
  {
    PrintAdd(roots, Outer(frames), Closed(frames));
  }

  predicate SameTags(a: seq<Frame>, b: seq<Frame>) {
    |a| == |b| && forall i :: 0 <= i < |a| ==> a[i].tag == b[i].tag
  }

  // ----- where elements may stand -----

  /** No element directly in `p` that `p` cannot hold, no left-open element directly in one of the same name. */
  predicate Fits(o: Options, parent: string, child: string) {
    && !(parent == "p" && child in o.nonPhrasing)
    && !(parent == child && child in o.leftOpen)
  }

  /** A `</br>` without a match becomes an element wherever it stands. */
  predicate Allowed(o: Options, parent: string, child: Tree) {
    Fits(o, parent, child.tag) || (child.Leaf? && Lower(child.tag) == "br")
  }

  predicate TreeOk(o: Options, t: Tree)
    decreases t
  {
    t.Node? ==> forall i :: 0 <= i < |t.children| ==> Allowed(o, t.tag, t.children[i]) && TreeOk(o, t.children[i])
  }

  predicate ForestOk(o: Options, forest: seq<Tree>) {
    forall i :: 0 <= i < |forest| ==> TreeOk(o, forest[i])
  }

  predicate FrameOk(o: Options, f: Frame) {
    TreeOk(o, Node(f.tag, f.children))
  }

  predicate FramesOk(o: Options, frames: seq<Frame>) {
    && (forall i :: 0 <= i < |frames| ==> FrameOk(o, frames[i]))
    && forall i :: 0 <= i && i + 1 < |frames| ==> Fits(o, frames[i].tag, frames[i + 1].tag)
  }

  lemma AddKeepsOk(o: Options, roots: seq<Tree>, frames: seq<Frame>, t: Tree)
    requires ForestOk(o, roots) && FramesOk(o, frames) && TreeOk(o, t)
    requires frames != [] ==> Allowed(o, frames[|frames| - 1].tag, t)
    ensures ForestOk(o, AddRoot(roots, frames, t)) && FramesOk(o, AddChild(frames, t))
  {
    if frames != [] {
      var top := frames[|frames| - 1];
      assert FrameOk(o, top);
      assert FrameOk(o, Frame(top.tag, top.children + [t]));
    }
  }

  lemma CloseKeepsOk(o: Options, roots: seq<Tree>, frames: seq<Frame>)
    requires frames != [] && ForestOk(o, roots) && FramesOk(o, frames)
    ensures ForestOk(o, AddRoot(roots, Outer(frames), Closed(frames)))
    ensures FramesOk(o, AddChild(Outer(frames), Closed(frames)))
  {
    var rest := Outer(frames);
    assert FrameOk(o, frames[|frames| - 1]);
    if rest != [] {
      assert frames[|frames| - 2] == rest[|rest| - 1];
      var i := |frames| - 2;
      assert Fits(o, frames[i].tag, frames[i + 1].tag);
    }
    AddKeepsOk(o, roots, rest, Closed(frames));
  }

  lemma PushKeepsOk(o: Options, frames: seq<Frame>, tag: string)
    requires FramesOk(o, frames) && (frames != [] ==> Fits(o, frames[|frames| - 1].tag, tag))
    ensures FramesOk(o, frames + [Frame(tag, [])])
  {
    assert FrameOk(o, Frame(tag, []));
  }

  /** `parse`, as far as its stack and the tree go. */
  class Consumer {
    var stack: seq<Frame>
    /** The elements closed outside any other; `parse` keeps the first as its root. */
    var roots: seq<Tree>
    ghost var events: seq<Event>

    constructor ()
      ensures stack == [] && roots == [] && events == []
    {
      stack, roots, events := [], [], [];
    }

    /** The callbacks so far are those of the closed and the open elements. */
    ghost predicate Spelled()
      reads this
    {
      events == Print(roots) + PrintFrames(stack)
    }

    method CloseElement(t: Tree)
      modifies this`stack, this`roots
      ensures stack == AddChild(old(stack), t) && roots == AddRoot(old(roots), old(stack), t)
    {
      if stack == [] {
        roots := roots + [t];
      } else {
        var top := stack[|stack| - 1];
        stack := stack[..|stack| - 1] + [Frame(top.tag, top.children + [t])];
      }
    }

    method Start(tag: string, unary: bool)
      requires Spelled()
      modifies this
      ensures Spelled() && events == old(events) + [Event.Start(tag, unary)]
      ensures !unary ==> stack == old(stack) + [Frame(tag, [])] && roots == old(roots)
      ensures unary ==> stack == AddChild(old(stack), Leaf(tag)) && roots == AddRoot(old(roots), old(stack), Leaf(tag))
    {
      events := events + [Event.Start(tag, unary)];
      if !unary {
        stack := stack + [Frame(tag, [])];
      } else {
        PrintAdd(roots, stack, Leaf(tag));
        CloseElement(Leaf(tag));
      }
    }

    /** Never called without an open element, and always for the innermost one. */
    method End(tag: string)
      requires Spelled() && stack != [] && stack[|stack| - 1].tag == tag
      modifies this
      ensures Spelled() && events == old(events) + [Event.End(tag)]
      ensures stack == AddChild(Outer(old(stack)), Closed(old(stack)))
      ensures roots == AddRoot(old(roots), Outer(old(stack)), Closed(old(stack)))
    {
      events := events + [Event.End(tag)];
      PrintEnd(roots, stack);
      var element := stack[|stack| - 1];
      stack := stack[..|stack| - 1];
      CloseElement(Node(element.tag, element.children));
    }
  }

  // ----- what the tokens do to the tree -----

  /** The elements closed outside any other, and the open ones. */
  datatype State = State(roots: seq<Tree>, frames: seq<Frame>)

  function Add(s: State, t: Tree): State {
    State(AddRoot(s.roots, s.frames, t), AddChild(s.frames, t))
  }

  function CloseOne(s: State): State
    requires s.frames != []
  {
    Add(State(s.roots, Outer(s.frames)), Closed(s.frames))
  }

  lemma PushClose(s: State, tag: string)
    ensures CloseOne(State(s.roots, s.frames + [Frame(tag, [])])) == Add(s, Node(tag, []))
  {
    assert Outer(s.frames + [Frame(tag, [])]) == s.frames;
  }

  lemma CloseToLast(s: State)
    requires s.frames != []
    ensures CloseTo(s, |s.frames| - 1) == CloseOne(s)
  {
    assert |CloseOne(s).frames| == |s.frames| - 1;
  }

  /** Closing down to depth `n`, innermost first. */
  function CloseTo(s: State, n: nat): (r: State)
    ensures |r.frames| == if n < |s.frames| then n else |s.frames|
    decreases |s.frames|
  {
    if |s.frames| <= n then s else CloseTo(CloseOne(s), n)
  }

  /** The closest open element of the name, or -1. */
  function Closest(frames: seq<Frame>, lower: string): (pos: int)
    ensures -1 <= pos < |frames|
    ensures pos >= 0 ==> Lower(frames[pos].tag) == lower
    ensures forall i :: pos < i < |frames| ==> Lower(frames[i].tag) != lower
  {
    if frames == [] then -1
    else if Lower(frames[|frames| - 1].tag) == lower then |frames| - 1
    else Closest(frames[..|frames| - 1], lower)
  }

  /** Without an open element, `</br>` and `</p>` make one of their own. */
  function AfterUnmatched(s: State, name: string): State {
    if Lower(name) == "br" then Add(s, Leaf(name)) else if Lower(name) == "p" then Add(s, Node(name, [])) else s
  }

  /** An end tag, or with no name the end of the template. */
  function AfterEnd(s: State, tagName: Option<string>): State {
    if tagName.None? || tagName.value == "" then CloseTo(s, 0)
    else
      var pos := Closest(s.frames, Lower(tagName.value));
      if pos >= 0 then CloseTo(s, pos) else AfterUnmatched(s, tagName.value)
  }

  predicate InParagraph(o: Options, frames: seq<Frame>, tagName: string) {
    frames != [] && frames[|frames| - 1].tag == "p" && tagName in o.nonPhrasing
  }

  predicate InSame(o: Options, frames: seq<Frame>, tagName: string) {
    frames != [] && frames[|frames| - 1].tag == tagName && tagName in o.leftOpen
  }

  function WithoutParagraph(o: Options, s: State, tagName: string): State {
    if InParagraph(o, s.frames, tagName) then CloseOne(s) else s
  }

  function WithoutSame(o: Options, s: State, tagName: string): State {
    if InSame(o, s.frames, tagName) then (if tagName == "" then CloseTo(s, 0) else CloseOne(s)) else s
  }

  /** A start tag first closes what cannot hold it. */
  function Implied(o: Options, s: State, tagName: string): State {
    if o.expectHTML then WithoutSame(o, WithoutParagraph(o, s, tagName), tagName) else s
  }

  function IsUnary(o: Options, t: Token): bool {
    t.name in o.unary || (t.StartTag? && t.unarySlash)
  }

  function AfterStart(o: Options, s: State, t: Token): State {
    var s1 := Implied(o, s, t.name);
    if IsUnary(o, t) then Add(s1, Leaf(t.name)) else State(s1.roots, s1.frames + [Frame(t.name, [])])
  }

  function AfterToken(o: Options, s: State, t: Token): State {
    if t.StartTag? then AfterStart(o, s, t) else AfterEnd(s, Some(t.name))
  }

  function AfterTokens(o: Options, s: State, ts: seq<Token>): State
    decreases ts
  {
    if ts == [] then s else AfterTokens(o, AfterToken(o, s, ts[0]), ts[1..])
  }

  /** What a template of these tokens is read as. */
  function Parse(o: Options, ts: seq<Token>): seq<Tree> {
    CloseTo(AfterTokens(o, State([], []), ts), 0).roots
  }

  /** The callbacks so far. */
  function Calls(s: State): seq<Event> {
    Print(s.roots) + PrintFrames(s.frames)
  }

  lemma CallsAdd(s: State, t: Tree)
    ensures Calls(Add(s, t)) == Calls(s) + PrintTree(t)
  {
    PrintAdd(s.roots, s.frames, t);
  }

  lemma CallsPush(s: State, tag: string)
    ensures Calls(State(s.roots, s.frames + [Frame(tag, [])])) == Calls(s) + [Start(tag, false)]
  {
  }

  lemma CallsCloseOne(s: State)
    requires s.frames != []
    ensures Calls(CloseOne(s)) == Calls(s) + [End(s.frames[|s.frames| - 1].tag)]
  {
    PrintEnd(s.roots, s.frames);
  }

  /** The `end` calls for open elements, innermost first. */
  function EndCalls(frames: seq<Frame>): seq<Event> {
    if frames == [] then [] else [End(frames[|frames| - 1].tag)] + EndCalls(Outer(frames))
  }

  lemma ClosesOne(s: State)
    requires s.frames != []
    ensures Calls(CloseOne(s)) == Calls(s) + [End(s.frames[|s.frames| - 1].tag)]
    ensures SameTags(CloseOne(s).frames, Outer(s.frames))
  {
    CallsCloseOne(s);
  }

  lemma EndCallsPop(frames: seq<Frame>, n: nat)
    requires n < |frames|
    ensures EndCalls(frames[n..]) == [End(frames[|frames| - 1].tag)] + EndCalls(Outer(frames)[n..])
  {
    assert Outer(frames[n..]) == Outer(frames)[n..];
  }

  lemma {:induction false} ClosesTo(s: State, n: nat)
    requires n <= |s.frames|
    ensures Calls(CloseTo(s, n)) == Calls(s) + EndCalls(s.frames[n..]) && SameTags(CloseTo(s, n).frames, s.frames[..n])
    decreases |s.frames|
  {
    hide Calls, CloseOne, EndCalls;
    if n == |s.frames| {
      NoEndCalls(s.frames[n..]);
      assert s.frames[..n] == s.frames;
    } else {
      var s1, outer := CloseOne(s), Outer(s.frames);
      ClosesOne(s);
      ClosesTo(s1, n);
      EndCallsPop(s.frames, n);
      EndCallsSame(s1.frames[n..], outer[n..]);
      assert outer[..n] == s.frames[..n];
    }
  }

  lemma NoEndCalls(frames: seq<Frame>)
    requires frames == []
    ensures EndCalls(frames) == []
  {
  }

  lemma {:induction false} EndCallsSame(a: seq<Frame>, b: seq<Frame>)
    requires SameTags(a, b)
    ensures EndCalls(a) == EndCalls(b)
  {
    if a != [] {
      EndCallsSame(Outer(a), Outer(b));
    }
  }

  /** The open element that an end tag is for: the innermost of its name, whatever its case. */
  predicate IsFor(name: string, frames: seq<Frame>, k: int) {
    && 0 <= k < |frames| && Lower(frames[k].tag) == Lower(name)
    && forall j :: k < j < |frames| ==> Lower(frames[j].tag) != Lower(name)
  }

  predicate ForNone(name: string, frames: seq<Frame>) {
    forall j :: 0 <= j < |frames| ==> Lower(frames[j].tag) != Lower(name)
  }

  /**
   * What an end tag does to open elements and callbacks: it ends the element it is for and all inside, innermost
   * first. For no element, a `br` or a `p` becomes one of its own, and any other is ignored.
   */
  ghost predicate EndTagRead(s: State, name: string, r: State) {
    && |r.frames| <= |s.frames| && SameTags(r.frames, s.frames[..|r.frames|])
    && (forall k :: IsFor(name, s.frames, k) ==> |r.frames| == k && Calls(r) == Calls(s) + EndCalls(s.frames[k..]))
    && (ForNone(name, s.frames) ==>
          && |r.frames| == |s.frames|
          && Calls(r) == Calls(s) + if Lower(name) == "br" then [Start(name, true)]
                                    else if Lower(name) == "p" then [Start(name, false), End(name)]
                                    else [])
  }

  lemma EndTagReads(s: State, name: string)
    requires name != ""
    ensures EndTagRead(s, name, AfterEnd(s, Some(name)))
  {
    hide Calls, CloseTo, EndCalls, AfterUnmatched, Lower;
    var pos := Closest(s.frames, Lower(name));
    if pos >= 0 {
      ClosesTo(s, pos);
      assert IsFor(name, s.frames, pos);
    } else {
      UnmatchedReads(s, name);
      assert s.frames[..|s.frames|] == s.frames;
    }
  }

  lemma UnmatchedReads(s: State, name: string)
    ensures var r := AfterUnmatched(s, name);
      && SameTags(r.frames, s.frames)
      && Calls(r) == Calls(s) + if Lower(name) == "br" then [Start(name, true)]
                                else if Lower(name) == "p" then [Start(name, false), End(name)]
                                else []
  {
    hide Calls;
    if Lower(name) == "br" {
      AddsLeaf(s, name);
    } else if Lower(name) == "p" {
      CallsAdd(s, Node(name, []));
      assert PrintTree(Node(name, [])) == [Start(name, false)] + Print([]) + [End(name)];
    } else {
      assert Calls(s) + [] == Calls(s);
    }
  }

  /** At the end of the template everything ends. */
  lemma EndReads(s: State)
    ensures Calls(AfterEnd(s, None)) == Calls(s) + EndCalls(s.frames) && AfterEnd(s, None).frames == []
  {
    ClosesTo(s, 0);
    assert s.frames[0..] == s.frames;
  }

  predicate Innermost(frames: seq<Frame>, tag: string) {
    frames != [] && frames[|frames| - 1].tag == tag
  }

  /** What a start tag does: first, with the rules of HTML, it ends a `p` or a left-open element of its name. */
  ghost predicate StartTagRead(o: Options, s: State, t: Token, r: State) {
    var ends := o.expectHTML && t.name in o.nonPhrasing && Innermost(s.frames, "p");
    var rest := if ends then Outer(s.frames) else s.frames;
    var again := o.expectHTML && t.name in o.leftOpen && Innermost(rest, t.name);
    var unary := t.name in o.unary || (t.StartTag? && t.unarySlash);
    && Calls(r) == Calls(s) + (if ends then [End("p")] else []) + (if again then [End(t.name)] else [])
                   + [Start(t.name, unary)]
    && |r.frames| == |s.frames| - (if ends then 1 else 0) - (if again then 1 else 0) + (if unary then 0 else 1)
    && (!unary ==> Innermost(r.frames, t.name))
  }

  lemma StartTagReads(o: Options, s: State, t: Token)
    requires t.name != ""
    ensures StartTagRead(o, s, t, AfterStart(o, s, t))
  {
    hide Calls, CloseOne, Add;
    var s1 := if o.expectHTML then WithoutParagraph(o, s, t.name) else s;
    var s2 := Implied(o, s, t.name);
    if o.expectHTML && InParagraph(o, s.frames, t.name) {
      ClosesOne(s);
    }
    if o.expectHTML && InSame(o, s1.frames, t.name) {
      ClosesOne(s1);
    }
    Opens(s2, t.name);
    AddsLeaf(s2, t.name);
  }

  lemma Opens(s: State, tag: string)
    ensures Calls(State(s.roots, s.frames + [Frame(tag, [])])) == Calls(s) + [Start(tag, false)]
  {
    CallsPush(s, tag);
  }

  lemma AddsLeaf(s: State, tag: string)
    ensures Calls(Add(s, Leaf(tag))) == Calls(s) + [Start(tag, true)] && |Add(s, Leaf(tag)).frames| == |s.frames|
  {
    CallsAdd(s, Leaf(tag));
  }

  // ----- parseHTML -----

  datatype Entry = Entry(tag: string, lowerCasedTag: string)

  class Parser {
    const o: Options
    const consumer: Consumer
    var stack: seq<Entry>
    var lastTag: Option<string>

    constructor (o: Options)
      ensures this.o == o && Valid() && fresh(consumer) && Now() == State([], [])
    {
      this.o := o;
      consumer := new Consumer();
      stack, lastTag := [], None;
    }

    ghost function Now(): State
      reads this, consumer
    {
      State(consumer.roots, consumer.stack)
    }

    /** The consumer's stack holds the same tags as the first `n` entries. */
    ghost predicate Agrees(n: int)
      reads this, consumer
    {
      && n == |consumer.stack| <= |stack|
      && (forall i :: 0 <= i < n ==> stack[i].tag == consumer.stack[i].tag)
      && forall i :: 0 <= i < |stack| ==> stack[i].lowerCasedTag == Lower(stack[i].tag)
    }

    ghost predicate Strict() {
      o.expectHTML && ("p" in o.leftOpen || "p" in o.nonPhrasing)
    }

    /** With the rules of HTML, everything stands where it may. */
    ghost predicate Placed()
      reads this, consumer
    {
      Strict() ==> ForestOk(o, consumer.roots) && FramesOk(o, consumer.stack)
    }

    /** Between tokens the two stacks agree, and the callbacks so far are those of a tree. */
    ghost predicate Valid()
      reads this, consumer
    {
      && Agrees(|stack|) && consumer.Spelled() && Placed()
      && lastTag == if stack == [] then None else Some(stack[|stack| - 1].tag)
    }

    /** The `end` callback, for the innermost open element. */
    method CallEnd(tag: string)
      requires consumer.Spelled() && Placed() && consumer.stack != []
      requires consumer.stack[|consumer.stack| - 1].tag == tag
      modifies consumer
      ensures consumer.Spelled() && Placed() && Now() == CloseOne(old(Now()))
      ensures SameTags(consumer.stack, Outer(old(consumer.stack)))
    {
      if Strict() {
        CloseKeepsOk(o, consumer.roots, consumer.stack);
      }
      consumer.End(tag);
    }

    /** The `start` callback, for an element without an end tag. */
    method CallStart(tag: string)
      requires Valid()
      requires Strict() && stack != [] ==> Fits(o, stack[|stack| - 1].tag, tag) || Lower(tag) == "br"
      modifies consumer
      ensures Valid() && Now() == Add(old(Now()), Leaf(tag))
    {
      if Strict() {
        AddKeepsOk(o, consumer.roots, consumer.stack, Leaf(tag));
      }
      consumer.Start(tag, true);
    }

    /** And for one that stays open. */
    method CallPush(tag: string)
      requires consumer.Spelled() && Placed()
      requires Strict() && consumer.stack != [] ==> Fits(o, consumer.stack[|consumer.stack| - 1].tag, tag)
      modifies consumer
      ensures consumer.Spelled() && Placed()
      ensures Now() == State(old(consumer.roots), old(consumer.stack) + [Frame(tag, [])])
    {
      if Strict() {
        PushKeepsOk(o, consumer.stack, tag);
      }
      consumer.Start(tag, false);
    }

    /** The `end` callbacks for all the entries from `pos` on, innermost first. */
    method CallEnds(pos: nat)
      requires Agrees(|stack|) && consumer.Spelled() && Placed() && pos <= |stack|
      modifies consumer
      ensures Agrees(pos) && consumer.Spelled() && Placed() && Now() == CloseTo(old(Now()), pos)
    {
      var i := |stack|;
      while i > pos
        invariant pos <= i <= |stack| && Agrees(i) && consumer.Spelled() && Placed()
        invariant CloseTo(Now(), pos) == CloseTo(old(Now()), pos)
      {
        i := i - 1;
        CallEnd(stack[i].tag);
      }
    }

    /** Close all the open elements down to `pos`. */
    method CloseFrom(pos: nat)
      requires Valid() && pos <= |stack|
      modifies this`stack, this`lastTag, consumer
      ensures Valid() && Now() == CloseTo(old(Now()), pos)
    {
      CallEnds(pos);
      stack := stack[..pos];
      lastTag := if pos == 0 then None else Some(stack[pos - 1].tag);
    }

    method FindClosest(lower: string) returns (pos: int)
      requires Agrees(|stack|)
      ensures pos == Closest(consumer.stack, lower)
    {
      ghost var frames := consumer.stack;
      pos := |stack| - 1;
      assert frames[..|stack|] == frames;
      while pos >= 0
        invariant -1 <= pos < |stack| && Closest(frames[..pos + 1], lower) == Closest(frames, lower)
      {
        if stack[pos].lowerCasedTag == lower {
          break;
        }
        assert frames[..pos + 1][..pos] == frames[..pos];
        pos := pos - 1;
      }
    }

    /** An unmatched `</p>` is an empty element, which `parseHTML` never has on its stack. */
    method AddParagraph(tag: string)
      requires Valid() && Lower(tag) == "p" && forall i :: 0 <= i < |stack| ==> stack[i].lowerCasedTag != "p"
      modifies consumer
      ensures Valid() && Now() == Add(old(Now()), Node(tag, []))
    {
      assert stack != [] ==> Fits(o, stack[|stack| - 1].tag, tag);
      PushClose(Now(), tag);
      CallPush(tag);
      assert Outer(consumer.stack) == old(consumer.stack);
      CallEnd(tag);
    }

    /** `parseEndTag`; without a name at the end of the template. */
    method ParseEndTag(tagName: Option<string>)
      requires Valid()
      modifies this`stack, this`lastTag, consumer
      ensures Valid() && Now() == AfterEnd(old(Now()), tagName) && consumer.events == Calls(Now())
      ensures tagName.Some? && tagName.value != "" ==> EndTagRead(old(Now()), tagName.value, Now())
      ensures tagName.None? ==> Calls(Now()) == old(Calls(Now())) + EndCalls(old(consumer.stack)) && stack == []
    {
      hide EndTagRead, EndCalls;
      if tagName.Some? && tagName.value != "" {
        EndTagReads(Now(), tagName.value);
      }
      EndReads(Now());
      var pos := 0;
      if tagName.Some? && tagName.value != "" {
        pos := FindClosest(Lower(tagName.value));
      }
      if pos >= 0 {
        CloseFrom(pos);
      } else {
        Unmatched(tagName.value);
      }
    }

    /** An end tag without an open element of its name. */
    method Unmatched(name: string)
      requires Valid() && Closest(consumer.stack, Lower(name)) < 0
      modifies consumer
      ensures Valid() && Now() == AfterUnmatched(old(Now()), name)
    {
      if Lower(name) == "br" {
        CallStart(name);
      } else if Lower(name) == "p" {
        AddParagraph(name);
      }
    }

    /** `parseEndTag(lastTag)` closes the innermost element (or, for a nameless one, everything). */
    method CloseLast()
      requires Valid() && stack != []
      modifies this`stack, this`lastTag, consumer
      ensures Valid()
          && Now() == if old(stack)[|old(stack)| - 1].tag == "" then CloseTo(old(Now()), 0) else CloseOne(old(Now()))
      ensures Strict() && stack != [] ==>
        |stack| < |old(stack)| && Fits(o, stack[|stack| - 1].tag, old(stack)[|old(stack)| - 1].tag)
    {
      hide EndTagRead, EndCalls, AfterUnmatched;
      ghost var n := |stack| - 1;
      assert Strict() && n > 0 ==> Fits(o, stack[n - 1].tag, stack[n].tag) by {
        if Strict() && n > 0 {
          var i := n - 1;
          assert Fits(o, consumer.stack[i].tag, consumer.stack[i + 1].tag);
        }
      }
      CloseToLast(Now());
      ParseEndTag(lastTag);
    }

    /**
     * The end tags that a start tag implies: of a `p` that cannot hold it, of an element left open before one of the
     * same name.
     */
    method CloseImplied(tagName: string)
      requires Valid()
      modifies this`stack, this`lastTag, consumer
      ensures Valid() && Now() == Implied(o, old(Now()), tagName)
      ensures Strict() && stack != [] ==> Fits(o, stack[|stack| - 1].tag, tagName)
    {
      if o.expectHTML {
        CloseParagraph(tagName);
        CloseSame(tagName);
      }
    }

    method CloseParagraph(tagName: string)
      requires Valid()
      modifies this`stack, this`lastTag, consumer
      ensures Valid() && Now() == WithoutParagraph(o, old(Now()), tagName)
      ensures Strict() ==> !InParagraph(o, consumer.stack, tagName)
    {
      if lastTag == Some("p") && tagName in o.nonPhrasing {
        CloseLast();
      }
    }

    method CloseSame(tagName: string)
      requires Valid()
      modifies this`stack, this`lastTag, consumer
      ensures Valid() && Now() == WithoutSame(o, old(Now()), tagName)
      ensures Strict() && stack != [] && !InParagraph(o, old(consumer.stack), tagName) ==>
        Fits(o, stack[|stack| - 1].tag, tagName)
    {
      if tagName in o.leftOpen && lastTag == Some(tagName) {
        CloseLast();
      }
    }

    /** `handleStartTag`. */
    method HandleStartTag(tagName: string, unarySlash: bool)
      requires Valid()
      modifies this`stack, this`lastTag, consumer
      ensures Valid() && Now() == AfterStart(o, old(Now()), StartTag(tagName, unarySlash))
      ensures consumer.events == Calls(Now())
      ensures tagName != "" ==> StartTagRead(o, old(Now()), StartTag(tagName, unarySlash), Now())
    {
      hide StartTagRead;
      if tagName != "" {
        StartTagReads(o, Now(), StartTag(tagName, unarySlash));
      }
      CloseImplied(tagName);
      assert stack != [] ==> stack[|stack| - 1].tag == consumer.stack[|stack| - 1].tag;
      if tagName in o.unary || unarySlash {
        CallStart(tagName);
      } else {
        Open(tagName);
      }
    }

    method Open(tagName: string)
      requires Valid() && (Strict() && stack != [] ==> Fits(o, stack[|stack| - 1].tag, tagName))
      modifies this`stack, this`lastTag, consumer
      ensures Valid() && Now() == State(old(consumer.roots), old(consumer.stack) + [Frame(tagName, [])])
    {
      stack := stack + [Entry(tagName, Lower(tagName))];
      lastTag := Some(tagName);
      CallPush(tagName);
    }

    /** `parseHTML` on the tokens of a template: at the end the callbacks are those of the elements it was read as. */
    method ParseHtml(tokens: seq<Token>)
      requires Valid() && Now() == State([], [])
      modifies this`stack, this`lastTag, consumer
      ensures stack == [] && consumer.stack == [] && consumer.roots == Parse(o, tokens)
      ensures consumer.events == Print(consumer.roots)
      ensures Strict() ==> ForestOk(o, consumer.roots)
    {
      var k := 0;
      assert tokens[0..] == tokens;
      while k < |tokens|
        invariant 0 <= k <= |tokens| && Valid()
        invariant AfterTokens(o, Now(), tokens[k..]) == AfterTokens(o, State([], []), tokens)
      {
        var t := tokens[k];
        assert tokens[k..][1..] == tokens[k + 1..];
        if t.StartTag? {
          HandleStartTag(t.name, t.unarySlash);
        } else {
          ParseEndTag(Some(t.name));
        }
        k := k + 1;
      }
      Finish();
    }

    /** The end of the template. */
    method Finish()
      requires Valid()
      modifies this`stack, this`lastTag, consumer
      ensures Valid() && stack == [] && consumer.stack == [] && Now() == CloseTo(old(Now()), 0)
      ensures consumer.events == Print(consumer.roots)
    {
      ParseEndTag(None);
      assert consumer.events == Print(consumer.roots) + [];
    }
  }
}
