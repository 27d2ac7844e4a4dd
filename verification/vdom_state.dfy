/** `updateChildren` on values: which vnodes are settled, and in which order the DOM children stand. */
module VdomState {
  import opened Common
  import opened VdomDom
  import opened VdomSame

  /** The two child lists it is called with; node identities from `firstNew` on are new. */
  datatype Config = Config(orig: seq<Mounted>, news: seq<Info>, firstNew: Elm)

  /**
   * The windows, the old list with its holes, the nodes of the new vnodes, and who was patched
   * into whom: `src[i]` is the old index behind new index `i` (-1 for a created one), `dst` its converse.
   */
  datatype State = State(
    oldStart: int, oldEnd: int, newStart: int, newEnd: int,
    olds: seq<Option<Mounted>>, elms: seq<Option<Elm>>, src: seq<int>, dst: seq<int>)

  ghost predicate ConfigOk(cf: Config) {
    && UniqueNames(Infos(cf.orig)) && UniqueNames(cf.news)
    && Distinct(Elms(cf.orig)) && forall j :: 0 <= j < |cf.orig| ==> cf.orig[j].elm < cf.firstNew
  }

  function Infos(vs: seq<Mounted>): (r: seq<Info>)
    ensures |r| == |vs| && forall i :: 0 <= i < |vs| ==> r[i] == vs[i].info
  {
    seq(|vs|, i requires 0 <= i < |vs| => vs[i].info)
  }

  function Elms(vs: seq<Mounted>): (r: seq<Elm>)
    ensures |r| == |vs| && forall i :: 0 <= i < |vs| ==> r[i] == vs[i].elm
  {
    seq(|vs|, i requires 0 <= i < |vs| => vs[i].elm)
  }

  predicate Same(cf: Config, j: int, i: int)
    requires 0 <= j < |cf.orig| && 0 <= i < |cf.news|
  {
    SameVnode(cf.orig[j].info, cf.news[i])
  }

  /** No old vnode is the same as a keyed new vnode `i`. */
  ghost predicate NoCounterpart(cf: Config, i: int)
    requires 0 <= i < |cf.news|
  {
    cf.news[i].key.Some? ==> forall j :: 0 <= j < |cf.orig| ==> !Same(cf, j, i)
  }

  predicate Shape(cf: Config, s: State) {
    && |s.olds| == |s.dst| == |cf.orig| && |s.elms| == |s.src| == |cf.news|
    && 0 <= s.oldStart <= s.oldEnd + 1 <= |cf.orig| && 0 <= s.newStart <= s.newEnd + 1 <= |cf.news|
  }

  /** Old vnode `j` has not been used. */
  predicate Unused(s: State, j: int) {
    s.oldStart <= j <= s.oldEnd && 0 <= j < |s.olds| && s.olds[j].Some?
  }

  /** New vnode `i` has no node yet. */
  predicate Open(s: State, i: int) {
    s.newStart <= i <= s.newEnd
  }

  /** A used old vnode has gone into exactly one new vnode that it is the same as. */
  predicate OldOk(cf: Config, s: State, j: int)
    requires Shape(cf, s) && 0 <= j < |cf.orig|
  {
    && (s.olds[j].Some? ==> s.olds[j].value == cf.orig[j])
    && (!Unused(s, j) ==>
          && 0 <= s.dst[j] < |cf.news| && !Open(s, s.dst[j]) && s.src[s.dst[j]] == j
          && Same(cf, j, s.dst[j]))
  }

  /** A settled new vnode stands for the node of its old one, or for a new node when none could be reused. */
  ghost predicate NewOk(cf: Config, s: State, i: int)
    requires Shape(cf, s) && 0 <= i < |cf.news|
  {
    !Open(s, i) ==>
      && s.elms[i].Some?
      && if s.src[i] == -1
         then s.elms[i].value >= cf.firstNew && NoCounterpart(cf, i)
         else && 0 <= s.src[i] < |cf.orig| && !Unused(s, s.src[i]) && s.dst[s.src[i]] == i
              && s.elms[i] == Some(cf.orig[s.src[i]].elm)
  }

  ghost predicate Book(cf: Config, s: State) {
    && Shape(cf, s)
    && (forall j :: 0 <= j < |cf.orig| ==> OldOk(cf, s, j))
    && (forall i :: 0 <= i < |cf.news| ==> NewOk(cf, s, i))
  }

  /** `s1` uses old vnode `j` for new vnode `i`. */
  ghost predicate Matches(cf: Config, s: State, s1: State, j: int, i: int)
    requires Shape(cf, s)
  {
    && Shape(cf, s1) && Unused(s, j) && Open(s, i)
    && Same(cf, j, i)
    && s1.elms == s.elms[i := Some(cf.orig[j].elm)] && s1.src == s.src[i := j] && s1.dst == s.dst[j := i]
    && (forall k :: 0 <= k < |cf.orig| ==> (Unused(s1, k) <==> Unused(s, k) && k != j))
    && (forall k :: 0 <= k < |cf.orig| ==> s1.olds[k] == s.olds[k] || (k == j && s1.olds[k] == None))
    && (forall k :: 0 <= k < |cf.news| ==> (Open(s1, k) <==> Open(s, k) && k != i))
  }

  lemma MatchKeeps(cf: Config, s: State, s1: State, j: int, i: int)
    requires Book(cf, s) && Matches(cf, s, s1, j, i)
    ensures Book(cf, s1)
  {
    forall k | 0 <= k < |cf.orig|
      ensures OldOk(cf, s1, k)
    {
      assert OldOk(cf, s, k);
    }
    forall k | 0 <= k < |cf.news|
      ensures NewOk(cf, s1, k)
    {
      assert NewOk(cf, s, k);
    }
  }

  /** `s1` gives new vnode `i` the new node `x`. */
  ghost predicate Creates(cf: Config, s: State, s1: State, i: int, x: Elm)
    requires Shape(cf, s)
  {
    && Shape(cf, s1) && Open(s, i) && x >= cf.firstNew
    && s1.elms == s.elms[i := Some(x)] && s1.src == s.src[i := -1] && s1.dst == s.dst
    && s1.olds == s.olds && s1.oldStart == s.oldStart && s1.oldEnd == s.oldEnd
    && (forall k :: 0 <= k < |cf.news| ==> (Open(s1, k) <==> Open(s, k) && k != i))
  }

  lemma CreateKeeps(cf: Config, s: State, s1: State, i: int, x: Elm)
    requires Book(cf, s) && Creates(cf, s, s1, i, x) && NoCounterpart(cf, i)
    ensures Book(cf, s1)
  {
    forall k | 0 <= k < |cf.orig|
      ensures OldOk(cf, s1, k)
    {
      assert OldOk(cf, s, k);
    }
    forall k | 0 <= k < |cf.news|
      ensures NewOk(cf, s1, k)
    {
      assert NewOk(cf, s, k);
    }
  }

  /** A hole at the edge of the old window is passed over. */
  lemma SkipKeeps(cf: Config, s: State, s1: State)
    requires Book(cf, s) && Shape(cf, s1) && s1 == s.(oldStart := s1.oldStart, oldEnd := s1.oldEnd)
    requires forall k :: 0 <= k < |cf.orig| ==> (Unused(s1, k) <==> Unused(s, k))
    ensures Book(cf, s1)
  {
    forall k | 0 <= k < |cf.orig|
      ensures OldOk(cf, s1, k)
    {
      assert OldOk(cf, s, k);
    }
    forall k | 0 <= k < |cf.news|
      ensures NewOk(cf, s1, k)
    {
      assert NewOk(cf, s, k);
    }
  }

  // ----- keys -----

  /** An old vnode with the key name of an open new one is still unused: only that new one could have used it. */
  lemma NameStillUnused(cf: Config, s: State, j: int, i: int)
    requires ConfigOk(cf) && Book(cf, s) && 0 <= j < |cf.orig| && 0 <= i < |cf.news| && Open(s, i)
    requires cf.news[i].key.Some? && HasName(cf.orig[j].info, cf.news[i].key.value.name)
    ensures Unused(s, j)
  {
    assert OldOk(cf, s, j);
  }

  predicate Keyed(cf: Config, j: int)
    requires 0 <= j < |cf.orig|
  {
    cf.orig[j].info.key.Some? && !IsProto(cf.orig[j].info.key.value.name)
  }

  function NameOf(cf: Config, j: int): string
    requires 0 <= j < |cf.orig| && Keyed(cf, j)
  {
    cf.orig[j].info.key.value.name
  }

  /** The key table covers every unused old vnode that it can, and points nowhere else than at its names. */
  ghost predicate TableOk(cf: Config, s: State, m: map<string, nat>) {
    && |s.olds| == |cf.orig|
    && (forall name :: name in m ==> !IsProto(name) && m[name] < |cf.orig| && HasName(cf.orig[m[name]].info, name))
    && (forall j :: 0 <= j < |cf.orig| && Unused(s, j) && Keyed(cf, j) ==> NameOf(cf, j) in m && m[NameOf(cf, j)] == j)
  }

  /**
   * Looking up the key of new vnode `i` gives an index or undefined. It gives an inherited member
   * when the name is one and no old vnode has made it an own property of the table.
   */
  ghost predicate SafeKey(cf: Config, i: int)
    requires 0 <= i < |cf.news|
  {
    cf.news[i].key.Some? && IsInherited(cf.news[i].key.value.name) ==>
      && !IsProto(cf.news[i].key.value.name)
      && exists j :: 0 <= j < |cf.orig| && HasName(cf.orig[j].info, cf.news[i].key.value.name)
  }

  lemma FindFails(cf: Config, s: State, m: map<string, nat>, i: int)
    requires ConfigOk(cf) && Book(cf, s) && TableOk(cf, s, m) && 0 <= i < |cf.news| && Open(s, i)
        && cf.news[i].key.Some?
    ensures Find(m, cf.news[i].key.value.name) == InheritedMember <==> !SafeKey(cf, i)
  {
    var name := cf.news[i].key.value.name;
    if j :| 0 <= j < |cf.orig| && HasName(cf.orig[j].info, name) {
      NameStillUnused(cf, s, j, i);
      assert !IsProto(name) ==> Keyed(cf, j) && NameOf(cf, j) == name;
    }
  }

  /** A key that the table does not know belongs to no old vnode. */
  lemma NotInTable(cf: Config, s: State, m: map<string, nat>, i: int, j: int)
    requires ConfigOk(cf) && Book(cf, s) && TableOk(cf, s, m) && 0 <= i < |cf.news| && Open(s, i) && 0 <= j < |cf.orig|
    requires cf.news[i].key.Some? && Find(m, cf.news[i].key.value.name) == Missing
    ensures !Same(cf, j, i)
  {
    if Same(cf, j, i) {
      NameStillUnused(cf, s, j, i);
    }
  }

  // ----- order -----

  /** The values that are there. */
  function Got(s: seq<Option<Elm>>): seq<Elm> {
    if s == [] then [] else (if s[0].Some? then [s[0].value] else []) + Got(s[1..])
  }

  lemma {:induction false} GotAppend(a: seq<Option<Elm>>, b: seq<Option<Elm>>)
    ensures Got(a + b) == Got(a) + Got(b)
  {
    if a == [] {
      assert a + b == b;
    } else {
      assert (a + b)[0] == a[0] && (a + b)[1..] == a[1..] + b;
      GotAppend(a[1..], b);
    }
  }

  lemma GotOne(x: Option<Elm>)
    ensures Got([x]) == if x.Some? then [x.value] else []
  {
    assert [x][1..] == [];
  }

  function Live(s: State, a: int, b: int): seq<Option<Elm>>
    requires 0 <= a <= b <= |s.olds|
  {
    seq(b - a, k requires 0 <= k < b - a => if s.olds[a + k].Some? then Some(s.olds[a + k].value.elm) else None)
  }

  function Left(s: State): seq<Elm>
    requires 0 <= s.newStart <= |s.elms|
  {
    Got(s.elms[..s.newStart])
  }

  function Middle(s: State): seq<Elm>
    requires 0 <= s.oldStart <= s.oldEnd + 1 <= |s.olds|
  {
    Got(Live(s, s.oldStart, s.oldEnd + 1))
  }

  function Right(s: State): seq<Elm>
    requires 0 <= s.newEnd + 1 <= |s.elms|
  {
    Got(s.elms[s.newEnd + 1..])
  }

  /** Settled from the left, not yet used, settled from the right: the order the DOM children are kept in. */
  function Order(cf: Config, s: State): seq<Elm>
    requires Shape(cf, s)
  {
    Left(s) + Middle(s) + Right(s)
  }

  lemma MiddleFirst(s: State)
    requires 0 <= s.oldStart <= s.oldEnd < |s.olds|
    ensures Middle(s)
        == (if s.olds[s.oldStart].Some? then [s.olds[s.oldStart].value.elm] else [])
           + Got(Live(s, s.oldStart + 1, s.oldEnd + 1))
  {
    var x := if s.olds[s.oldStart].Some? then Some(s.olds[s.oldStart].value.elm) else None;
    assert Live(s, s.oldStart, s.oldEnd + 1) == [x] + Live(s, s.oldStart + 1, s.oldEnd + 1);
    GotAppend([x], Live(s, s.oldStart + 1, s.oldEnd + 1));
    GotOne(x);
  }

  lemma MiddleLast(s: State)
    requires 0 <= s.oldStart <= s.oldEnd < |s.olds|
    ensures Middle(s)
        == Got(Live(s, s.oldStart, s.oldEnd)) + (if s.olds[s.oldEnd].Some? then [s.olds[s.oldEnd].value.elm] else [])
  {
    var x := if s.olds[s.oldEnd].Some? then Some(s.olds[s.oldEnd].value.elm) else None;
    assert Live(s, s.oldStart, s.oldEnd + 1) == Live(s, s.oldStart, s.oldEnd) + [x];
    GotAppend(Live(s, s.oldStart, s.oldEnd), [x]);
    GotOne(x);
  }

  lemma GotThree(p: seq<Option<Elm>>, x: Option<Elm>, q: seq<Option<Elm>>)
    ensures Got(p + [x] + q) == Got(p) + (if x.Some? then [x.value] else []) + Got(q)
  {
    GotAppend(p + [x], q);
    GotAppend(p, [x]);
    GotOne(x);
  }

  lemma LiveAt(s: State, a: int, j: int, b: int)
    requires 0 <= a <= j < b <= |s.olds|
    ensures Live(s, a, b)
        == Live(s, a, j) + [if s.olds[j].Some? then Some(s.olds[j].value.elm) else None] + Live(s, j + 1, b)
  {
  }

  /** The node of old vnode `j` inside the middle, and the middle after it has become a hole. */
  lemma MiddleAt(s: State, s1: State, j: int) returns (a: seq<Elm>, b: seq<Elm>)
    requires 0 <= s.oldStart <= j <= s.oldEnd < |s.olds| && s.olds[j].Some?
    requires s1.olds == s.olds[j := None] && s1.oldStart == s.oldStart && s1.oldEnd == s.oldEnd
    ensures Middle(s) == a + [s.olds[j].value.elm] + b && Middle(s1) == a + b
  {
    var p, q := Live(s, s.oldStart, j), Live(s, j + 1, s.oldEnd + 1);
    a, b := Got(p), Got(q);
    LiveAt(s, s.oldStart, j, s.oldEnd + 1);
    LiveAt(s1, s.oldStart, j, s.oldEnd + 1);
    assert Live(s1, s.oldStart, j) == p && Live(s1, j + 1, s.oldEnd + 1) == q;
    GotThree(p, Some(s.olds[j].value.elm), q);
    GotThree(p, None, q);
    assert a + [] + b == a + b;
  }

  lemma LeftGrows(s: State, s1: State, x: Elm)
    requires 0 <= s.newStart < |s.elms| && s1.newStart == s.newStart + 1 && s1.elms == s.elms[s.newStart := Some(x)]
    ensures Left(s1) == Left(s) + [x]
  {
    assert s1.elms[..s1.newStart] == s.elms[..s.newStart] + [Some(x)];
    GotAppend(s.elms[..s.newStart], [Some(x)]);
    GotOne(Some(x));
  }

  lemma RightGrows(s: State, s1: State, x: Elm)
    requires 0 <= s.newEnd < |s.elms| && s1.newEnd == s.newEnd - 1 && s1.elms == s.elms[s.newEnd := Some(x)]
    ensures Right(s1) == [x] + Right(s)
  {
    assert s1.elms[s1.newEnd + 1..] == [Some(x)] + s.elms[s.newEnd + 1..];
    GotAppend([Some(x)], s.elms[s.newEnd + 1..]);
    GotOne(Some(x));
  }

  /** The DOM children against an order: the same nodes, and in the same order if nodes may move. */
  ghost predicate DomOk(canMove: bool, dom: seq<Elm>, order: seq<Elm>) {
    && Distinct(dom) && Distinct(order)
    && (forall x :: x in dom <==> x in order)
    && (canMove ==> dom == order)
  }

  /** Membership of a list in three parts. */
  lemma DistinctThree(a: seq<Elm>, x: Elm, b: seq<Elm>)
    ensures Distinct(a + [x] + b) <==> Distinct(a + b) && x !in a + b
    ensures forall y :: y in a + [x] + b <==> y in a + b || y == x
  {
    DistinctAppend(a + [x], b);
    DistinctAppend(a, [x]);
    DistinctAppend(a, b);
  }

  lemma DomMoves(canMove: bool, dom: seq<Elm>, dom1: seq<Elm>, a: seq<Elm>, x: Elm, b: seq<Elm>, c: seq<Elm>,
                 d: seq<Elm>)
    requires DomOk(canMove, dom, a + [x] + b) && a + b == c + d
    requires dom1 == if canMove then InsertBefore(dom, x, Front(d)) else dom
    ensures DomOk(canMove, dom1, c + [x] + d)
  {
    DistinctThree(a, x, b);
    DistinctThree(c, x, d);
    if canMove {
      InsertMoves(a, x, b, c, d);
    }
  }

  lemma DomInserts(canMove: bool, dom: seq<Elm>, x: Elm, ref: Option<Elm>, c: seq<Elm>, d: seq<Elm>)
    requires DomOk(canMove, dom, c + d) && x !in dom && (canMove ==> ref == Front(d))
    ensures DomOk(canMove, InsertBefore(dom, x, ref), c + [x] + d)
  {
    DistinctThree(c, x, d);
    WithoutMembers(dom, x);
    InsertAtMembers(Without(dom, x), x, ref);
    if canMove {
      InsertsNew(c, x, d);
    }
  }

  lemma DomRemoves(canMove: bool, dom: seq<Elm>, a: seq<Elm>, x: Elm, b: seq<Elm>)
    requires DomOk(canMove, dom, a + [x] + b)
    ensures DomOk(canMove, Without(dom, x), a + b)
  {
    DistinctThree(a, x, b);
    WithoutMembers(dom, x);
    if canMove {
      WithoutMiddle(a, x, b);
    }
  }
}
