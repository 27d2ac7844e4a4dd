/** The children of one DOM element, and the vnodes that stand for them. */
module VdomDom {
  import opened Common

  /** A DOM node, by identity. */
  type Elm = nat

  // ----- child lists -----

  function InsertAt(s: seq<Elm>, x: Elm, ref: Option<Elm>): seq<Elm> {
    if ref.None? then s + [x]
    else if s == [] then [x]
    else if s[0] == ref.value then [x] + s
    else [s[0]] + InsertAt(s[1..], x, ref)
  }

  /** `insertBefore`: a node that is already a child moves. */
  function InsertBefore(s: seq<Elm>, x: Elm, ref: Option<Elm>): seq<Elm> {
    InsertAt(Without(s, x), x, ref)
  }

  /** The node in front of which `d` starts. */
  function Front(d: seq<Elm>): Option<Elm> {
    if d == [] then None else Some(d[0])
  }

  function NextSibling(s: seq<Elm>, x: Elm): Option<Elm> {
    if s == [] then None
    else if s[0] == x then Front(s[1..])
    else NextSibling(s[1..], x)
  }

  lemma {:induction false} WithoutMiddle(a: seq<Elm>, x: Elm, b: seq<Elm>)
    requires x !in a
    ensures Without(a + [x] + b, x) == a + b
  {
    var s := a + [x] + b;
    if a == [] {
      assert s[0] == x && s[1..] == b && a + b == b;
    } else {
      assert s[0] == a[0] && s[1..] == a[1..] + [x] + b;
      WithoutMiddle(a[1..], x, b);
    }
  }

  lemma {:induction false} WithoutAbsent(s: seq<Elm>, x: Elm)
    requires x !in s
    ensures Without(s, x) == s
  {
    if s != [] {
      WithoutAbsent(s[1..], x);
    }
  }

  lemma {:induction false} InsertAtFront(c: seq<Elm>, x: Elm, d: seq<Elm>)
    requires d != [] ==> d[0] !in c
    ensures InsertAt(c + d, x, Front(d)) == c + [x] + d
  {
    if d == [] {
      assert c + d == c && c + [x] + d == c + [x];
    } else if c == [] {
      assert c + d == d && c + [x] + d == [x] + d;
    } else {
      assert (c + d)[0] == c[0] && (c + d)[1..] == c[1..] + d;
      InsertAtFront(c[1..], x, d);
    }
  }

  /** A child moves: out of `a + [x] + b`, into `c + [x] + d`. */
  lemma InsertMoves(a: seq<Elm>, x: Elm, b: seq<Elm>, c: seq<Elm>, d: seq<Elm>)
    requires Distinct(a + [x] + b) && a + b == c + d
    ensures InsertBefore(a + [x] + b, x, Front(d)) == c + [x] + d
  {
    DistinctAppend(a, [x] + b);
    DistinctAppend([x], b);
    DistinctAppend(a, b);
    DistinctAppend(c, d);
    assert a + [x] + b == a + ([x] + b);
    WithoutMiddle(a, x, b);
    InsertAtFront(c, x, d);
  }

  /** A new child. */
  lemma InsertsNew(c: seq<Elm>, x: Elm, d: seq<Elm>)
    requires Distinct(c + d) && x !in c + d
    ensures InsertBefore(c + d, x, Front(d)) == c + [x] + d
  {
    WithoutAbsent(c + d, x);
    DistinctAppend(c, d);
    InsertAtFront(c, x, d);
  }

  lemma {:induction false} NextSiblingIs(a: seq<Elm>, x: Elm, b: seq<Elm>)
    requires x !in a
    ensures NextSibling(a + [x] + b, x) == Front(b)
  {
    var s := a + [x] + b;
    if a == [] {
      assert s[0] == x && s[1..] == b;
    } else {
      assert s[0] == a[0] && s[1..] == a[1..] + [x] + b;
      NextSiblingIs(a[1..], x, b);
    }
  }

  lemma {:induction false} InsertAtMembers(s: seq<Elm>, x: Elm, ref: Option<Elm>)
    requires Distinct(s) && x !in s
    ensures Distinct(InsertAt(s, x, ref)) && forall y :: y in InsertAt(s, x, ref) <==> y in s || y == x
  {
    DistinctAppend(s, [x]);
    DistinctAppend([x], s);
    if ref.Some? && s != [] && s[0] != ref.value {
      assert s == [s[0]] + s[1..];
      DistinctAppend([s[0]], s[1..]);
      InsertAtMembers(s[1..], x, ref);
      DistinctAppend([s[0]], InsertAt(s[1..], x, ref));
    }
  }

  class ParentNode {
    var children: seq<Elm>
    /** Identities from here on have not been handed out. */
    var nextElm: Elm

    ghost predicate Valid()
      reads this
    {
      Distinct(children) && forall x :: x in children ==> x < nextElm
    }

    constructor (children: seq<Elm>, nextElm: Elm)
      ensures this.children == children && this.nextElm == nextElm
    {
      this.children, this.nextElm := children, nextElm;
    }

    /** `createElement`, `createTextNode` and the like: a node without a parent. */
    method CreateNode() returns (x: Elm)
      requires Valid()
      modifies this`nextElm
      ensures Valid() && x == old(nextElm) && nextElm == x + 1 && x !in children
    {
      x := nextElm;
      nextElm := nextElm + 1;
    }

    /** `insertBefore`; without a reference node it appends. The reference is never the node itself. */
    method Insert(x: Elm, ref: Option<Elm>)
      requires Valid() && x < nextElm && (ref.Some? ==> ref.value in children && ref.value != x)
      modifies this`children
      ensures Valid() && children == InsertBefore(old(children), x, ref)
      ensures forall y :: y in children <==> y in old(children) || y == x
    {
      WithoutMembers(children, x);
      InsertAtMembers(Without(children, x), x, ref);
      children := InsertBefore(children, x, ref);
    }

    method Remove(x: Elm)
      requires Valid()
      modifies this`children
      ensures Valid() && children == Without(old(children), x)
      ensures forall y :: y in children <==> y in old(children) && y != x
    {
      WithoutMembers(children, x);
      children := Without(children, x);
    }
  }
}
