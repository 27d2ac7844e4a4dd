/** The branches of the `updateChildren` loop on values. */
module VdomSteps {
  import opened Common
  import opened VdomDom
  import opened VdomState

  /** New vnode `i` takes over the node of old vnode `j`. */
  function Use(cf: Config, s: State, j: int, i: int): State
    requires Shape(cf, s) && 0 <= j < |cf.orig| && 0 <= i < |cf.news|
  {
    s.(elms := s.elms[i := Some(cf.orig[j].elm)], src := s.src[i := j], dst := s.dst[j := i])
  }

  /** The loop condition, with vnodes at both ends of the old window. */
  predicate AtWork(cf: Config, s: State) {
    && Shape(cf, s) && s.oldStart <= s.oldEnd && s.newStart <= s.newEnd
    && s.olds[s.oldStart].Some? && s.olds[s.oldEnd].Some?
  }

  lemma SkipHead(cf: Config, s: State)
    requires Book(cf, s) && s.oldStart <= s.oldEnd && s.olds[s.oldStart].None?
    ensures var s1 := s.(oldStart := s.oldStart + 1); Book(cf, s1) && Order(cf, s1) == Order(cf, s)
  {
    SkipKeeps(cf, s, s.(oldStart := s.oldStart + 1));
    MiddleFirst(s);
  }

  lemma SkipTail(cf: Config, s: State)
    requires Book(cf, s) && s.oldStart <= s.oldEnd && s.olds[s.oldEnd].None?
    ensures var s1 := s.(oldEnd := s.oldEnd - 1); Book(cf, s1) && Order(cf, s1) == Order(cf, s)
  {
    SkipKeeps(cf, s, s.(oldEnd := s.oldEnd - 1));
    MiddleLast(s);
  }

  /** What stays of the elms when one at the edge of the new window is set. */
  lemma OthersStay(s: State, s1: State, i: int, x: Elm)
    requires 0 <= s.newStart <= i <= s.newEnd < |s.elms| && s1.elms == s.elms[i := Some(x)]
    ensures s1.elms[..s.newStart] == s.elms[..s.newStart] && s1.elms[s.newEnd + 1..] == s.elms[s.newEnd + 1..]
  {
  }

  lemma HeadToHead(cf: Config, s: State)
    requires Book(cf, s) && AtWork(cf, s) && Same(cf, s.oldStart, s.newStart)
    ensures var s1 := Use(cf, s, s.oldStart, s.newStart).(oldStart := s.oldStart + 1, newStart := s.newStart + 1);
            Book(cf, s1) && Order(cf, s1) == Order(cf, s)
  {
    var x := cf.orig[s.oldStart].elm;
    var s1 := Use(cf, s, s.oldStart, s.newStart).(oldStart := s.oldStart + 1, newStart := s.newStart + 1);
    assert OldOk(cf, s, s.oldStart);
    MatchKeeps(cf, s, s1, s.oldStart, s.newStart);
    OthersStay(s, s1, s.newStart, x);
    MiddleFirst(s);
    LeftGrows(s, s1, x);
    assert Live(s1, s1.oldStart, s1.oldEnd + 1) == Live(s, s.oldStart + 1, s.oldEnd + 1);
    assert Left(s) + ([x] + Middle(s1)) + Right(s) == (Left(s) + [x]) + Middle(s1) + Right(s);
  }

  lemma TailToTail(cf: Config, s: State)
    requires Book(cf, s) && AtWork(cf, s) && Same(cf, s.oldEnd, s.newEnd)
    ensures var s1 := Use(cf, s, s.oldEnd, s.newEnd).(oldEnd := s.oldEnd - 1, newEnd := s.newEnd - 1);
            Book(cf, s1) && Order(cf, s1) == Order(cf, s)
  {
    var x := cf.orig[s.oldEnd].elm;
    var s1 := Use(cf, s, s.oldEnd, s.newEnd).(oldEnd := s.oldEnd - 1, newEnd := s.newEnd - 1);
    assert OldOk(cf, s, s.oldEnd);
    MatchKeeps(cf, s, s1, s.oldEnd, s.newEnd);
    OthersStay(s, s1, s.newEnd, x);
    MiddleLast(s);
    RightGrows(s, s1, x);
    assert Live(s1, s1.oldStart, s1.oldEnd + 1) == Live(s, s.oldStart, s.oldEnd);
    assert Left(s) + (Middle(s1) + [x]) + Right(s) == Left(s) + Middle(s1) + ([x] + Right(s));
  }

  /** The node of a defined old vnode at the head is the first of the middle. */
  lemma HeadNode(cf: Config, s: State)
    requires Book(cf, s) && AtWork(cf, s)
    ensures s.olds[s.oldStart].value == cf.orig[s.oldStart] && s.olds[s.oldEnd].value == cf.orig[s.oldEnd]
    ensures Middle(s) != [] && Middle(s)[0] == cf.orig[s.oldStart].elm
    ensures Middle(s)[|Middle(s)| - 1] == cf.orig[s.oldEnd].elm
  {
    assert OldOk(cf, s, s.oldStart) && OldOk(cf, s, s.oldEnd);
    MiddleFirst(s);
    MiddleLast(s);
  }

  /** Head of the old window to the tail of the new one: the parts of the order. */
  lemma HeadToTailParts(cf: Config, s: State)
    requires Book(cf, s) && AtWork(cf, s) && Same(cf, s.oldStart, s.newEnd)
    ensures var s1 := Use(cf, s, s.oldStart, s.newEnd).(oldStart := s.oldStart + 1, newEnd := s.newEnd - 1);
            var x := cf.orig[s.oldStart].elm;
            Book(cf, s1) && Left(s1) == Left(s) && Middle(s) == [x] + Middle(s1) && Right(s1) == [x] + Right(s)
  {
    var x := cf.orig[s.oldStart].elm;
    var s1 := Use(cf, s, s.oldStart, s.newEnd).(oldStart := s.oldStart + 1, newEnd := s.newEnd - 1);
    assert OldOk(cf, s, s.oldStart);
    MatchKeeps(cf, s, s1, s.oldStart, s.newEnd);
    OthersStay(s, s1, s.newEnd, x);
    MiddleFirst(s);
    RightGrows(s, s1, x);
    assert Live(s1, s1.oldStart, s1.oldEnd + 1) == Live(s, s.oldStart + 1, s.oldEnd + 1);
  }

  /** The node moves behind the old tail. */
  lemma HeadToTail(cf: Config, s: State, canMove: bool, dom: seq<Elm>, ref: Option<Elm>)
    requires Book(cf, s) && AtWork(cf, s) && DomOk(canMove, dom, Order(cf, s))
    requires Same(cf, s.oldStart, s.newEnd) && !Same(cf, s.oldEnd, s.newEnd)
    requires ref == NextSibling(dom, cf.orig[s.oldEnd].elm)
    ensures var s1 := Use(cf, s, s.oldStart, s.newEnd).(oldStart := s.oldStart + 1, newEnd := s.newEnd - 1);
            var x := cf.orig[s.oldStart].elm;
            && Book(cf, s1) && x in dom && (canMove && ref.Some? ==> ref.value in dom && ref.value != x)
            && DomOk(canMove, if canMove then InsertBefore(dom, x, ref) else dom, Order(cf, s1))
  {
    var s1 := Use(cf, s, s.oldStart, s.newEnd).(oldStart := s.oldStart + 1, newEnd := s.newEnd - 1);
    HeadNode(cf, s);
    HeadToTailParts(cf, s);
    HeadToTailOrder(Left(s), cf.orig[s.oldStart].elm, Middle(s1), Right(s), canMove, dom, ref);
  }

  lemma HeadToTailOrder(l: seq<Elm>, x: Elm, m: seq<Elm>, r: seq<Elm>, canMove: bool, dom: seq<Elm>, ref: Option<Elm>)
    requires DomOk(canMove, dom, l + ([x] + m) + r) && ref == NextSibling(dom, ([x] + m)[|m|])
    ensures x in dom && (canMove && ref.Some? ==> ref.value in dom && ref.value != x)
    ensures DomOk(canMove, if canMove then InsertBefore(dom, x, ref) else dom, l + m + ([x] + r))
  {
    var o := l + ([x] + m) + r;
    assert o == l + [x] + (m + r) && l + m + ([x] + r) == (l + m) + [x] + r && l + (m + r) == (l + m) + r;
    assert o[|l|] == x;
    if canMove {
      BehindTail(l, [x] + m, r);
      if r != [] {
        assert o[|l| + 1 + |m|] == r[0];
      }
    }
    DomMoves(canMove, dom, if canMove then InsertBefore(dom, x, ref) else dom, l, x, m + r, l + m, r);
  }

  /** The sibling behind the last of the middle is the first of the right. */
  lemma BehindTail(l: seq<Elm>, m: seq<Elm>, r: seq<Elm>)
    requires m != [] && Distinct(l + m + r)
    ensures NextSibling(l + m + r, m[|m| - 1]) == Front(r)
  {
    var k := |m| - 1;
    assert l + m + r == (l + m[..k]) + [m[k]] + r;
    DistinctThree(l + m[..k], m[k], r);
    NextSiblingIs(l + m[..k], m[k], r);
  }

  /** Tail of the old window to the head of the new one: the parts of the order. */
  lemma TailToHeadParts(cf: Config, s: State)
    requires Book(cf, s) && AtWork(cf, s) && Same(cf, s.oldEnd, s.newStart)
    ensures var s1 := Use(cf, s, s.oldEnd, s.newStart).(oldEnd := s.oldEnd - 1, newStart := s.newStart + 1);
            var x := cf.orig[s.oldEnd].elm;
            Book(cf, s1) && Left(s1) == Left(s) + [x] && Middle(s) == Middle(s1) + [x] && Right(s1) == Right(s)
  {
    var x := cf.orig[s.oldEnd].elm;
    var s1 := Use(cf, s, s.oldEnd, s.newStart).(oldEnd := s.oldEnd - 1, newStart := s.newStart + 1);
    assert OldOk(cf, s, s.oldEnd);
    MatchKeeps(cf, s, s1, s.oldEnd, s.newStart);
    OthersStay(s, s1, s.newStart, x);
    MiddleLast(s);
    LeftGrows(s, s1, x);
    assert Live(s1, s1.oldStart, s1.oldEnd + 1) == Live(s, s.oldStart, s.oldEnd);
  }

  lemma TailToHeadOrder(l: seq<Elm>, m: seq<Elm>, x: Elm, r: seq<Elm>, canMove: bool, dom: seq<Elm>, ref: Elm)
    requires (m + [x])[0] == ref && ref != x && DomOk(canMove, dom, l + (m + [x]) + r)
    ensures x in dom && ref in dom
    ensures DomOk(canMove, if canMove then InsertBefore(dom, x, Some(ref)) else dom, (l + [x]) + m + r)
  {
    assert m + [x] + [] == m + [x] && m + [] == m;
    PullOrder(l, m, x, [], r, canMove, dom, ref);
  }

  /** The node moves before the old head. */
  lemma TailToHead(cf: Config, s: State, canMove: bool, dom: seq<Elm>)
    requires Book(cf, s) && AtWork(cf, s) && DomOk(canMove, dom, Order(cf, s)) && Distinct(Elms(cf.orig))
    requires Same(cf, s.oldEnd, s.newStart) && !Same(cf, s.oldStart, s.newStart)
    ensures var s1 := Use(cf, s, s.oldEnd, s.newStart).(oldEnd := s.oldEnd - 1, newStart := s.newStart + 1);
            var x, ref := cf.orig[s.oldEnd].elm, cf.orig[s.oldStart].elm;
            && Book(cf, s1) && x in dom && ref in dom && ref != x
            && DomOk(canMove, if canMove then InsertBefore(dom, x, Some(ref)) else dom, Order(cf, s1))
  {
    var s1 := Use(cf, s, s.oldEnd, s.newStart).(oldEnd := s.oldEnd - 1, newStart := s.newStart + 1);
    HeadNode(cf, s);
    TailToHeadParts(cf, s);
    assert Elms(cf.orig)[s.oldStart] != Elms(cf.orig)[s.oldEnd];
    TailToHeadOrder(Left(s), Middle(s1), cf.orig[s.oldEnd].elm, Right(s), canMove, dom, cf.orig[s.oldStart].elm);
  }

  /** An old vnode found inside the window: it becomes a hole, and its node moves before the old head. */
  lemma Pull(cf: Config, s: State, j: int, canMove: bool, dom: seq<Elm>)
    requires Book(cf, s) && AtWork(cf, s) && DomOk(canMove, dom, Order(cf, s)) && Distinct(Elms(cf.orig))
    requires 0 <= j < |cf.orig| && Unused(s, j) && Same(cf, j, s.newStart) && !Same(cf, s.oldStart, s.newStart)
    ensures var s1 := Use(cf, s, j, s.newStart).(olds := s.olds[j := None], newStart := s.newStart + 1);
            var x, ref := cf.orig[j].elm, cf.orig[s.oldStart].elm;
            && Book(cf, s1) && x in dom && ref in dom && ref != x
            && DomOk(canMove, if canMove then InsertBefore(dom, x, Some(ref)) else dom, Order(cf, s1))
  {
    var x, ref := cf.orig[j].elm, cf.orig[s.oldStart].elm;
    var s1 := Use(cf, s, j, s.newStart).(olds := s.olds[j := None], newStart := s.newStart + 1);
    HeadNode(cf, s);
    assert OldOk(cf, s, j);
    MatchKeeps(cf, s, s1, j, s.newStart);
    OthersStay(s, s1, s.newStart, x);
    LeftGrows(s, s1, x);
    var a, b := MiddleAt(s, s1, j);
    assert Elms(cf.orig)[s.oldStart] != Elms(cf.orig)[j];
    assert Right(s1) == Right(s);
    PullOrder(Left(s), a, x, b, Right(s), canMove, dom, ref);
  }

  lemma PullOrder(l: seq<Elm>, a: seq<Elm>, x: Elm, b: seq<Elm>, r: seq<Elm>, canMove: bool, dom: seq<Elm>, ref: Elm)
    requires (a + [x] + b)[0] == ref && ref != x && DomOk(canMove, dom, l + (a + [x] + b) + r)
    ensures x in dom && ref in dom
    ensures DomOk(canMove, if canMove then InsertBefore(dom, x, Some(ref)) else dom, (l + [x]) + (a + b) + r)
  {
    var o := l + (a + [x] + b) + r;
    assert a != [] && a[0] == ref;
    assert o == (l + a) + [x] + (b + r) && (l + [x]) + (a + b) + r == l + [x] + (a + b + r);
    assert o[|l|] == ref && o[|l| + |a|] == x;
    assert (l + a) + (b + r) == l + (a + b + r) && (a + b + r)[0] == ref;
    DomMoves(canMove, dom, if canMove then InsertBefore(dom, x, Some(ref)) else dom, l + a, x, b + r, l, a + b + r);
  }

  /** A created node in the books, and on the left. */
  lemma CreateParts(cf: Config, s: State, x: Elm)
    requires Book(cf, s) && s.newStart <= s.newEnd && x >= cf.firstNew && NoCounterpart(cf, s.newStart)
    ensures var s1 := s.(elms := s.elms[s.newStart := Some(x)], src := s.src[s.newStart := -1],
                         newStart := s.newStart + 1);
            Book(cf, s1) && Left(s1) == Left(s) + [x] && Middle(s1) == Middle(s) && Right(s1) == Right(s)
  {
    var s1 := s.(elms := s.elms[s.newStart := Some(x)], src := s.src[s.newStart := -1], newStart := s.newStart + 1);
    CreateKeeps(cf, s, s1, s.newStart, x);
    OthersStay(s, s1, s.newStart, x);
    LeftGrows(s, s1, x);
    assert Live(s1, s1.oldStart, s1.oldEnd + 1) == Live(s, s.oldStart, s.oldEnd + 1);
  }

  lemma CreateOrder(l: seq<Elm>, m: seq<Elm>, r: seq<Elm>, x: Elm, canMove: bool, dom: seq<Elm>, ref: Option<Elm>)
    requires DomOk(canMove, dom, l + m + r) && x !in dom && ref == Front(m + r)
    ensures ref.Some? ==> ref.value in dom
    ensures DomOk(canMove, InsertBefore(dom, x, ref), (l + [x]) + m + r)
  {
    assert l + m + r == l + (m + r) && (l + [x]) + m + r == l + [x] + (m + r);
    if m + r != [] {
      assert (l + m + r)[|l|] == (m + r)[0];
    }
    DomInserts(canMove, dom, x, ref, l, m + r);
  }

  /** No old vnode to reuse: a new node `x` goes before the old head. */
  lemma Make(cf: Config, s: State, x: Elm, canMove: bool, dom: seq<Elm>)
    requires Book(cf, s) && AtWork(cf, s) && DomOk(canMove, dom, Order(cf, s)) && x >= cf.firstNew && x !in dom
    requires NoCounterpart(cf, s.newStart)
    ensures var s1 := s.(elms := s.elms[s.newStart := Some(x)], src := s.src[s.newStart := -1],
                         newStart := s.newStart + 1);
            var ref := cf.orig[s.oldStart].elm;
            && Book(cf, s1) && ref in dom
            && DomOk(canMove, InsertBefore(dom, x, Some(ref)), Order(cf, s1))
  {
    HeadNode(cf, s);
    CreateParts(cf, s, x);
    assert (Middle(s) + Right(s))[0] == Middle(s)[0];
    CreateOrder(Left(s), Middle(s), Right(s), x, canMove, dom, Some(cf.orig[s.oldStart].elm));
  }

  /** After the loop, with the old window used up: a new node goes before the nodes settled from the right. */
  lemma Add(cf: Config, s: State, x: Elm, canMove: bool, dom: seq<Elm>, ref: Option<Elm>)
    requires Book(cf, s) && DomOk(canMove, dom, Order(cf, s)) && x >= cf.firstNew && x !in dom
    requires s.oldStart > s.oldEnd && s.newStart <= s.newEnd && ref == Front(Right(s))
    requires NoCounterpart(cf, s.newStart)
    ensures var s1 := s.(elms := s.elms[s.newStart := Some(x)], src := s.src[s.newStart := -1],
                         newStart := s.newStart + 1);
            && Book(cf, s1) && (ref.Some? ==> ref.value in dom) && Right(s1) == Right(s)
            && DomOk(canMove, InsertBefore(dom, x, ref), Order(cf, s1))
  {
    CreateParts(cf, s, x);
    assert Middle(s) == [] && [] + Right(s) == Right(s);
    CreateOrder(Left(s), Middle(s), Right(s), x, canMove, dom, ref);
  }

  /** The node at the front of the right part is that of the vnode behind the new window. */
  lemma RightFront(cf: Config, s: State)
    requires Book(cf, s)
    ensures Front(Right(s)) == if s.newEnd + 1 < |s.elms| then s.elms[s.newEnd + 1] else None
  {
    var i := s.newEnd + 1;
    if i < |s.elms| {
      assert NewOk(cf, s, i);
      assert s.elms[i..] == [s.elms[i]] + s.elms[i + 1..];
      GotAppend([s.elms[i]], s.elms[i + 1..]);
      GotOne(s.elms[i]);
    } else {
      assert s.elms[i..] == [];
    }
  }

  /** With the old window used up, a keyed new vnode that is still open has no old counterpart. */
  lemma NothingLeft(cf: Config, s: State, i: int)
    requires ConfigOk(cf) && Book(cf, s) && s.oldStart > s.oldEnd && 0 <= i < |cf.news| && Open(s, i)
    ensures NoCounterpart(cf, i)
  {
    forall j | 0 <= j < |cf.orig| && cf.news[i].key.Some?
      ensures !Same(cf, j, i)
    {
      if Same(cf, j, i) {
        NameStillUnused(cf, s, j, i);
      }
    }
  }
}
