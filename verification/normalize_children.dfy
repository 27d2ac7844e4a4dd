/** Child normalisation: `normalizeArrayChildren` flattens nested child arrays and merges adjacent text. */
module NormalizeChildren {
  import opened Common

  class VNode {
    const tag: Option<string>
    const text: Option<string>
    const isComment: bool
    var key: Option<string>

    /** `createTextVNode`. */
    constructor Text(text: string)
      ensures IsText(this) && this.text == Some(text) && key == None
    {
      this.tag, this.text, this.isComment, this.key := None, Some(text), false, None;
    }
  }

  predicate IsText(v: VNode) {
    v.text.Some? && !v.isComment
  }

  /** A child as a render function may return it: null or undefined, a boolean, a primitive, an array, a vnode. */
  datatype Child =
    | Absent
    | Flag
    | Prim(text: string)
    | List(items: seq<Child>, vlist: bool)
    | Node(vnode: VNode)

  /** Flattened children: text still to be made a vnode, a text vnode, any other vnode. */
  datatype Piece = Loose(text: string) | Text(text: string) | Other(vnode: VNode)

  function View(v: VNode): Piece {
    if IsText(v) then Text(v.text.value) else Other(v)
  }

  function Views(vs: seq<VNode>): (r: seq<Piece>)
    ensures |r| == |vs|
  {
    seq(|vs|, i requires 0 <= i < |vs| => View(vs[i]))
  }

  function Flat(children: seq<Child>): seq<Piece>
    decreases children
  {
    if children == [] then [] else FlatOne(children[0]) + Flat(children[1..])
  }

  function FlatOne(c: Child): seq<Piece>
    decreases c
  {
    match c
    case Absent => []
    case Flag => []
    case Prim(text) => [Loose(text)]
    case List(items, _) => Flat(items)
    case Node(v) => [View(v)]
  }

  // ----- what normal children are -----

  /** The length of the run of text at the front. */
  function RunLength(ps: seq<Piece>): (k: nat)
    ensures k <= |ps| && forall i :: 0 <= i < k ==> !ps[i].Other?
    ensures k < |ps| ==> ps[k].Other?
  {
    if ps == [] || ps[0].Other? then 0 else 1 + RunLength(ps[1..])
  }

  function Concat(run: seq<Piece>): string
    requires forall i :: 0 <= i < |run| ==> !run[i].Other?
  {
    if run == [] then "" else run[0].text + Concat(run[1..])
  }

  /** A run of text becomes one vnode, unless it consists of empty primitives. */
  predicate Visible(run: seq<Piece>) {
    exists i :: 0 <= i < |run| && (run[i].Text? || (run[i].Loose? && run[i].text != ""))
  }

  function Run(run: seq<Piece>): seq<Piece>
    requires forall i :: 0 <= i < |run| ==> !run[i].Other?
  {
    if Visible(run) then [Text(Concat(run))] else []
  }

  /** The flattened children with every run of text replaced by its one vnode. */
  function Merge(ps: seq<Piece>): seq<Piece>
    decreases |ps|
  {
    if ps == [] then []
    else if ps[0].Other? then [ps[0]] + Merge(ps[1..])
    else
      var k := RunLength(ps);
      Run(ps[..k]) + Merge(ps[k..])
  }

  // ----- one piece at a time -----

  predicate EndsInText(acc: seq<Piece>) {
    acc != [] && acc[|acc| - 1].Text?
  }

  function Extend(acc: seq<Piece>, text: string): seq<Piece>
    requires EndsInText(acc)
  {
    acc[..|acc| - 1] + [Text(acc[|acc| - 1].text + text)]
  }

  function Push(acc: seq<Piece>, p: Piece): seq<Piece> {
    if p.Other? then acc + [p]
    else if EndsInText(acc) then Extend(acc, p.text)
    else if p.Loose? && p.text == "" then acc
    else acc + [Text(p.text)]
  }

  function Fold(acc: seq<Piece>, ps: seq<Piece>): seq<Piece>
    decreases ps
  {
    if ps == [] then acc else Fold(Push(acc, ps[0]), ps[1..])
  }

  /** Appending pieces that are normal already. */
  function Join(acc: seq<Piece>, more: seq<Piece>): seq<Piece> {
    if more != [] && more[0].Text? && EndsInText(acc) then Extend(acc, more[0].text) + more[1..] else acc + more
  }

  lemma {:induction false} FoldSplit(acc: seq<Piece>, ps: seq<Piece>, qs: seq<Piece>)
    ensures Fold(acc, ps + qs) == Fold(Fold(acc, ps), qs)
    decreases ps
  {
    if ps == [] {
      assert ps + qs == qs;
    } else {
      assert (ps + qs)[1..] == ps[1..] + qs;
      FoldSplit(Push(acc, ps[0]), ps[1..], qs);
    }
  }

  lemma JoinNothing(acc: seq<Piece>)
    ensures Join(acc, []) == acc
  {
  }

  lemma JoinPushOther(acc: seq<Piece>, more: seq<Piece>, p: Piece)
    requires p.Other?
    ensures Join(acc, Push(more, p)) == Push(Join(acc, more), p)
  {
    if more != [] {
      assert (more + [p])[1..] == more[1..] + [p];
    }
  }

  /** Only the last piece matters to a push. */
  lemma PushBehind(front: seq<Piece>, back: seq<Piece>, p: Piece)
    requires back != []
    ensures Push(front + back, p) == front + Push(back, p)
  {
    var all := front + back;
    assert all[|all| - 1] == back[|back| - 1];
    assert all[..|all| - 1] == front + back[..|back| - 1];
  }

  lemma JoinPushMerged(acc: seq<Piece>, x: string, p: Piece)
    requires !p.Other? && EndsInText(acc)
    ensures Join(acc, Push([Text(x)], p)) == Push(Join(acc, [Text(x)]), p)
  {
    var s := acc[|acc| - 1].text;
    assert (s + x) + p.text == s + (x + p.text);
    assert Push([Text(x)], p) == [Text(x + p.text)];
    assert Join(acc, [Text(x)]) == Extend(acc, x);
    assert Extend(Extend(acc, x), p.text) == Extend(acc, x + p.text);
  }

  lemma {:induction false} JoinPushText(acc: seq<Piece>, more: seq<Piece>, p: Piece)
    requires !p.Other? && more != []
    ensures Join(acc, Push(more, p)) == Push(Join(acc, more), p)
  {
    if !(EndsInText(acc) && more[0].Text?) {
      PushBehind(acc, more, p);
    } else if |more| == 1 {
      JoinPushMerged(acc, more[0].text, p);
    } else {
      assert more == [more[0]] + more[1..];
      PushBehind([more[0]], more[1..], p);
      PushBehind(Extend(acc, more[0].text), more[1..], p);
    }
  }

  lemma {:induction false} JoinPush(acc: seq<Piece>, more: seq<Piece>, p: Piece)
    ensures Join(acc, Push(more, p)) == Push(Join(acc, more), p)
  {
    if p.Other? {
      JoinPushOther(acc, more, p);
    } else if more != [] {
      JoinPushText(acc, more, p);
    } else {
      JoinNothing(acc);
      if EndsInText(acc) {
        assert acc[|acc| - 1].text + "" == acc[|acc| - 1].text;
      }
    }
  }

  /** Folding on is the same as folding afresh and joining. */
  lemma {:induction false} FoldJoin(acc: seq<Piece>, more: seq<Piece>, ps: seq<Piece>)
    ensures Join(acc, Fold(more, ps)) == Fold(Join(acc, more), ps)
    decreases ps
  {
    if ps != [] {
      JoinPush(acc, more, ps[0]);
      FoldJoin(acc, Push(more, ps[0]), ps[1..]);
    }
  }

  lemma {:induction false} FoldRun(run: seq<Piece>)
    requires forall i :: 0 <= i < |run| ==> !run[i].Other?
    ensures Fold([], run) == Run(run)
    decreases run
  {
    if run != [] {
      var last := |run| - 1;
      assert run == run[..last] + [run[last]];
      FoldRun(run[..last]);
      FoldSplit([], run[..last], [run[last]]);
      ConcatSnoc(run[..last], run[last]);
      assert Fold([], run) == Push(Run(run[..last]), run[last]);
      assert Visible(run) <==> Visible(run[..last]) || run[last].Text? || run[last].text != "";
      if !Visible(run[..last]) {
        NothingVisible(run[..last]);
        assert "" + run[last].text == run[last].text;
      }
    }
  }

  lemma {:induction false} ConcatSnoc(run: seq<Piece>, p: Piece)
    requires !p.Other? && forall i :: 0 <= i < |run| ==> !run[i].Other?
    ensures Concat(run + [p]) == Concat(run) + p.text
  {
    if run == [] {
      assert p.text + "" == p.text;
    } else {
      assert (run + [p])[1..] == run[1..] + [p];
      ConcatSnoc(run[1..], p);
    }
  }

  lemma {:induction false} NothingVisible(run: seq<Piece>)
    requires !Visible(run) && forall i :: 0 <= i < |run| ==> !run[i].Other?
    ensures Concat(run) == ""
  {
    if run != [] {
      assert forall i :: 0 <= i < |run[1..]| ==> run[1..][i] == run[i + 1];
      NothingVisible(run[1..]);
    }
  }

  /** Piece by piece or run by run, the result is the same. */
  lemma {:induction false} FoldIsMerge(ps: seq<Piece>)
    ensures Fold([], ps) == Merge(ps)
    decreases |ps|
  {
    if ps != [] {
      if ps[0].Other? {
        FoldIsMerge(ps[1..]);
        FoldJoin([ps[0]], [], ps[1..]);
        JoinNothing([ps[0]]);
        assert Push([], ps[0]) == [ps[0]];
      } else {
        var k := RunLength(ps);
        assert ps == ps[..k] + ps[k..];
        FoldSplit([], ps[..k], ps[k..]);
        FoldRun(ps[..k]);
        FoldIsMerge(ps[k..]);
        FoldJoin(Run(ps[..k]), [], ps[k..]);
        JoinNothing(Run(ps[..k]));
        assert ps[k..] != [] ==> ps[k..][0].Other?;
      }
    }
  }

  // ----- what that amounts to -----

  predicate NoAdjacentText(ps: seq<Piece>) {
    forall i :: 0 <= i && i + 1 < |ps| ==> !(ps[i].Text? && ps[i + 1].Text?)
  }

  /** What the children spell: characters and other vnodes, in order. */
  datatype Sign = Char(c: char) | Elem(vnode: VNode)

  function SpellText(text: string): seq<Sign> {
    seq(|text|, i requires 0 <= i < |text| => Char(text[i]))
  }

  function Spell(ps: seq<Piece>): seq<Sign> {
    if ps == [] then []
    else (if ps[0].Other? then [Elem(ps[0].vnode)] else SpellText(ps[0].text)) + Spell(ps[1..])
  }

  lemma {:induction false} SpellSplit(ps: seq<Piece>, qs: seq<Piece>)
    ensures Spell(ps + qs) == Spell(ps) + Spell(qs)
    decreases ps
  {
    if ps == [] {
      assert ps + qs == qs;
    } else {
      assert (ps + qs)[1..] == ps[1..] + qs;
      SpellSplit(ps[1..], qs);
    }
  }

  lemma {:induction false} SpellRun(run: seq<Piece>)
    requires forall i :: 0 <= i < |run| ==> !run[i].Other?
    ensures Spell(run) == SpellText(Concat(run)) == Spell(Run(run))
  {
    if run != [] {
      SpellRun(run[1..]);
      assert SpellText(run[0].text + Concat(run[1..])) == SpellText(run[0].text) + SpellText(Concat(run[1..]));
    }
    if Visible(run) {
      assert Run(run)[1..] == [];
    } else {
      NothingVisible(run);
    }
  }

  /** And what they spell. */
  lemma RunSpells(ps: seq<Piece>, k: nat, rest: seq<Piece>)
    requires k <= |ps| && Spell(rest) == Spell(ps[k..]) && forall i :: 0 <= i < k ==> !ps[i].Other?
    ensures Spell(Run(ps[..k]) + rest) == Spell(ps)
  {
    SpellRun(ps[..k]);
    SpellSplit(Run(ps[..k]), rest);
    SpellSplit(ps[..k], ps[k..]);
    assert ps == ps[..k] + ps[k..];
  }

  /**
   * Normal children have no two adjacent text vnodes and no primitives left, and spell what the flattened
   * children spell: the other vnodes in their order, and between them the concatenation of the text.
   */
  lemma {:induction false} MergeIsNormal(ps: seq<Piece>)
    ensures NoAdjacentText(Merge(ps)) && Spell(Merge(ps)) == Spell(ps)
    ensures forall i :: 0 <= i < |Merge(ps)| ==> !Merge(ps)[i].Loose?
    ensures ps != [] && ps[0].Other? ==> Merge(ps) != [] && Merge(ps)[0].Other?
    decreases |ps|
  {
    if ps != [] {
      if ps[0].Other? {
        MergeIsNormal(ps[1..]);
        assert Merge(ps)[1..] == Merge(ps[1..]);
      } else {
        var k := RunLength(ps);
        MergeIsNormal(ps[k..]);
        assert ps[k..] == [] ==> Merge(ps[k..]) == [];
        RunSpells(ps, k, Merge(ps[k..]));
      }
    }
  }

  /** Runs of text are merged apart: where another vnode stands, the list can be cut. */
  lemma {:induction false} MergeSplit(ps: seq<Piece>, qs: seq<Piece>)
    requires ps == [] || qs == [] || ps[|ps| - 1].Other? || qs[0].Other?
    ensures Merge(ps + qs) == Merge(ps) + Merge(qs)
    decreases |ps|
  {
    if ps == [] {
      assert ps + qs == qs;
    } else if qs == [] {
      assert ps + qs == ps;
    } else if ps[0].Other? {
      assert (ps + qs)[1..] == ps[1..] + qs;
      MergeSplit(ps[1..], qs);
    } else {
      var k := RunLength(ps);
      RunEnds(ps + qs, k);
      assert (ps + qs)[..k] == ps[..k] && (ps + qs)[k..] == ps[k..] + qs;
      MergeSplit(ps[k..], qs);
    }
  }

  lemma {:induction false} RunEnds(ps: seq<Piece>, k: nat)
    requires k < |ps| && ps[k].Other? && forall i :: 0 <= i < k ==> !ps[i].Other?
    ensures RunLength(ps) == k
  {
    if k > 0 {
      assert forall i :: 0 <= i < |ps[1..]| ==> ps[1..][i] == ps[i + 1];
      RunEnds(ps[1..], k - 1);
    }
  }

  lemma {:induction false} RunIsAll(ps: seq<Piece>)
    requires forall i :: 0 <= i < |ps| ==> !ps[i].Other?
    ensures RunLength(ps) == |ps|
  {
    if ps != [] {
      RunIsAll(ps[1..]);
    }
  }

  /**
   * What stands for the text between two other vnodes, or an end of the list and one: nothing if there are only empty
   * primitives, else one text vnode that spells it.
   */
  lemma {:induction false} TextBetween(ps: seq<Piece>, a: nat, b: nat) returns (between: seq<Piece>)
    requires a <= b <= |ps| && forall k :: a <= k < b ==> !ps[k].Other?
    requires (a == 0 || ps[a - 1].Other?) && (b == |ps| || ps[b].Other?)
    ensures Merge(ps) == Merge(ps[..a]) + between + Merge(ps[b..])
    ensures if forall k :: a <= k < b ==> ps[k] == Loose("") then between == []
            else |between| == 1 && between[0].Text? && SpellText(between[0].text) == Spell(ps[a..b])
  {
    var run := ps[a..b];
    between := Merge(run);
    CutRun(ps, a, b);
    assert forall k :: a <= k < b ==> run[k - a] == ps[k];
    RunMerges(run);
    hide Merge;
    if forall k :: a <= k < b ==> ps[k] == Loose("") {
      assert forall k :: 0 <= k < |run| ==> run[k] == ps[a + k];
    } else {
      var k :| a <= k < b && ps[k] != Loose("");
      assert run[k - a] != Loose("");
    }
  }

  lemma {:induction false} CutRun(ps: seq<Piece>, a: nat, b: nat)
    requires a <= b <= |ps| && (a == 0 || ps[a - 1].Other?) && (b == |ps| || ps[b].Other?)
    ensures Merge(ps) == Merge(ps[..a]) + Merge(ps[a..b]) + Merge(ps[b..])
  {
    hide Merge;
    MergeSplit(ps[..a], ps[a..]);
    assert ps[..a] + ps[a..] == ps && ps[a..b] + ps[b..] == ps[a..];
    MergeSplit(ps[a..b], ps[b..]);
  }

  lemma {:induction false} RunMerges(run: seq<Piece>)
    requires forall i :: 0 <= i < |run| ==> !run[i].Other?
    ensures if forall k :: 0 <= k < |run| ==> run[k] == Loose("") then Merge(run) == []
            else |Merge(run)| == 1 && Merge(run)[0].Text? && SpellText(Merge(run)[0].text) == Spell(run)
  {
    if run != [] {
      RunIsAll(run);
      assert run[..|run|] == run && run[|run|..] == [];
      assert Merge(run) == Run(run) + [];
      SpellRun(run);
      if exists k :: 0 <= k < |run| && run[k] != Loose("") {
        assert Visible(run);
      }
    }
  }

  // ----- places and keys -----

  /** The child at a place in the nested arrays. */
  function At(children: seq<Child>, path: seq<nat>): Option<Child>
    decreases path
  {
    if path == [] || path[0] >= |children| then None
    else if |path| == 1 then Some(children[path[0]])
    else
      match children[path[0]]
      case List(items, _) => At(items, path[1..])
      case _ => None
  }

  lemma {:induction false} AtNested(children: seq<Child>, path: seq<nat>, j: nat)
    requires At(children, path).Some? && At(children, path).value.List? && j < |At(children, path).value.items|
    ensures At(children, path + [j]) == Some(At(children, path).value.items[j])
    decreases path
  {
    assert (path + [j])[1..] == path[1..] + [j];
    if |path| > 1 {
      AtNested(children[path[0]].items, path[1..], j);
    }
  }

  /** What a child that is no array gives: text, a vnode, or nothing. */
  predicate Gives(c: Child, p: Piece) {
    match c
    case Prim(text) => p == Loose(text)
    case Node(v) => p == if v.text.Some? && !v.isComment then Text(v.text.value) else Other(v)
    case _ => false
  }

  ghost predicate GivenBy(children: seq<Child>, p: Piece) {
    exists path :: At(children, path).Some? && Gives(At(children, path).value, p)
  }

  /** The flattened children are what lies anywhere in the nested arrays. */
  lemma {:induction false} FlatGives(children: seq<Child>, p: Piece)
    ensures p in Flat(children) <==> GivenBy(children, p)
    decreases children
  {
    if children != [] {
      FlatGives(children[1..], p);
      OneGives(children[0], p);
      if GivenBy(children, p) {
        var path :| At(children, path).Some? && Gives(At(children, path).value, p);
        if path[0] == 0 {
          if |path| == 1 {
            assert GivenByOne(children[0], p);
          } else {
            assert At(children[0].items, path[1..]) == At(children, path);
            assert GivenBy(children[0].items, p);
          }
        } else {
          var rest := [path[0] - 1] + path[1..];
          assert rest[1..] == path[1..] && At(children[1..], rest) == At(children, path);
        }
      }
      if GivenByOne(children[0], p) {
        GivenFirst(children, p);
      }
      if GivenBy(children[1..], p) {
        var path :| At(children[1..], path).Some? && Gives(At(children[1..], path).value, p);
        var here := [path[0] + 1] + path[1..];
        assert here[1..] == path[1..] && At(children, here) == At(children[1..], path);
      }
    } else {
      assert forall path :: At(children, path).None?;
    }
  }

  ghost predicate GivenByOne(c: Child, p: Piece) {
    Gives(c, p) || (c.List? && GivenBy(c.items, p))
  }

  lemma {:induction false} OneGives(c: Child, p: Piece)
    ensures p in FlatOne(c) <==> GivenByOne(c, p)
    decreases c
  {
    if c.List? {
      FlatGives(c.items, p);
    }
  }

  lemma GivenFirst(children: seq<Child>, p: Piece)
    requires children != [] && GivenByOne(children[0], p)
    ensures GivenBy(children, p)
  {
    if Gives(children[0], p) {
      assert At(children, [0]) == Some(children[0]);
    } else {
      var path :| At(children[0].items, path).Some? && Gives(At(children[0].items, path).value, p);
      var here := [0] + path;
      assert here[1..] == path && At(children, here) == At(children[0].items, path);
    }
  }

  /** And in their order. */
  lemma {:induction false} FlatInOrder(children: seq<Child>, i: nat)
    requires i < |children|
    ensures Flat(children) == Flat(children[..i]) + Flat([children[i]]) + Flat(children[i + 1..])
    decreases i
  {
    hide FlatOne;
    assert Flat([children[i]]) == FlatOne(children[i]) + Flat([]);
    if i == 0 {
      assert children[..0] == [];
    } else {
      FlatInOrder(children[1..], i - 1);
      assert children[1..][..i - 1] == children[..i][1..] && children[1..][i..] == children[i + 1..];
    }
  }

  /** The vnodes with a tag that lie in a nested array of the kind that generates keys. */
  function Listed(children: seq<Child>, keyed: bool): set<VNode>
    decreases children
  {
    if children == [] then {} else ListedOne(children[0], keyed) + Listed(children[1..], keyed)
  }

  function ListedOne(c: Child, keyed: bool): set<VNode>
    decreases c
  {
    match c
    case List(items, vlist) => Listed(items, vlist)
    case Node(v) => if keyed && v.tag.Some? then {v} else {}
    case _ => {}
  }

  /** A vnode with a tag at this place, in an array of the kind that generates keys. */
  ghost predicate KeyedAt(children: seq<Child>, keyed: bool, v: VNode, path: seq<nat>) {
    && v.tag.Some? && At(children, path) == Some(Node(v))
    && if |path| == 1 then keyed
       else
         var outer := At(children, path[..|path| - 1]);
         outer.Some? && outer.value.List? && outer.value.vlist
  }

  ghost predicate Keyed(children: seq<Child>, keyed: bool, v: VNode) {
    exists path :: KeyedAt(children, keyed, v, path)
  }

  /** Which vnodes get keys if they have none. */
  lemma {:induction false} ListedAre(children: seq<Child>, keyed: bool, v: VNode)
    ensures v in Listed(children, keyed) <==> Keyed(children, keyed, v)
    decreases children
  {
    hide KeyedAt, Keyed, OneKeyed;
    if children != [] {
      ListedAre(children[1..], keyed, v);
      OneListed(children[0], keyed, v);
      KeyedParts(children, keyed, v);
    } else {
      NothingKeyed(keyed, v);
    }
  }

  lemma NothingKeyed(keyed: bool, v: VNode)
    ensures !Keyed([], keyed, v)
  {
  }

  lemma KeyedParts(children: seq<Child>, keyed: bool, v: VNode)
    requires children != []
    ensures Keyed(children, keyed, v) <==> OneKeyed(children[0], keyed, v) || Keyed(children[1..], keyed, v)
  {
    if Keyed(children, keyed, v) {
      var path :| KeyedAt(children, keyed, v, path);
      if path[0] > 0 {
        KeyedLater(children, keyed, v, path);
      } else {
        KeyedFirst(children, keyed, v, path);
      }
    }
    hide KeyedAt, OneKeyedAt;
    if OneKeyed(children[0], keyed, v) {
      var path :| OneKeyedAt(children[0], keyed, v, path);
      assert ([0] + path)[1..] == path;
      KeyedFirst(children, keyed, v, [0] + path);
    }
    if Keyed(children[1..], keyed, v) {
      var path :| KeyedAt(children[1..], keyed, v, path);
      KeyedSomewhere(children[1..], keyed, v, path);
      var here := [path[0] + 1] + path[1..];
      assert [here[0] - 1] + here[1..] == path;
      KeyedLater(children, keyed, v, here);
    }
  }

  lemma KeyedSomewhere(children: seq<Child>, keyed: bool, v: VNode, path: seq<nat>)
    requires KeyedAt(children, keyed, v, path)
    ensures path != []
  {
  }

  /** In one child, behind `path` where it is an array. */
  ghost predicate OneKeyedAt(c: Child, keyed: bool, v: VNode, path: seq<nat>) {
    if path == [] then keyed && v.tag.Some? && c == Node(v) else c.List? && KeyedAt(c.items, c.vlist, v, path)
  }

  lemma KeyedLater(children: seq<Child>, keyed: bool, v: VNode, path: seq<nat>)
    requires children != [] && path != [] && path[0] > 0
    ensures KeyedAt(children, keyed, v, path) <==> KeyedAt(children[1..], keyed, v, [path[0] - 1] + path[1..])
  {
    var there := [path[0] - 1] + path[1..];
    assert there[1..] == path[1..];
    if |path| > 1 {
      var up, upThere := path[..|path| - 1], there[..|path| - 1];
      assert upThere[1..] == up[1..] && upThere[0] == up[0] - 1;
    }
  }

  lemma KeyedFirst(children: seq<Child>, keyed: bool, v: VNode, path: seq<nat>)
    requires children != [] && path != [] && path[0] == 0
    ensures KeyedAt(children, keyed, v, path) <==> OneKeyedAt(children[0], keyed, v, path[1..])
  {
    if |path| > 1 {
      var up := path[..|path| - 1];
      assert up[1..] == path[1..][..|path| - 2];
    }
  }

  ghost predicate OneKeyed(c: Child, keyed: bool, v: VNode) {
    exists path :: OneKeyedAt(c, keyed, v, path)
  }

  lemma {:induction false} OneListed(c: Child, keyed: bool, v: VNode)
    ensures v in ListedOne(c, keyed) <==> OneKeyed(c, keyed, v)
    decreases c
  {
    match c
    case List(items, vlist) =>
      ListedAre(items, vlist, v);
      if Keyed(items, vlist, v) {
        var path :| KeyedAt(items, vlist, v, path);
        assert OneKeyedAt(c, keyed, v, path);
      }
    case Node(w) => assert OneKeyedAt(c, keyed, w, []) <==> keyed && w.tag.Some?;
    case _ =>
  }

  lemma {:induction false} ListedParts(children: seq<Child>, keyed: bool)
    ensures forall i :: 0 <= i < |children| ==> ListedOne(children[i], keyed) <= Listed(children, keyed)
    ensures forall v :: v in Listed(children, keyed) ==>
      exists i :: 0 <= i < |children| && v in ListedOne(children[i], keyed)
    decreases children
  {
    if children != [] {
      ListedParts(children[1..], keyed);
      forall i | 0 <= i < |children|
        ensures ListedOne(children[i], keyed) <= Listed(children, keyed)
      {
        assert i > 0 ==> children[i] == children[1..][i - 1];
      }
    }
  }

  // ----- generated keys -----

  /** A number as JavaScript writes it. */
  function Digits(n: nat): string {
    if n < 10 then [Digit(n)] else Digits(n / 10) + [Digit(n % 10)]
  }

  function Digit(n: nat): char
    requires n < 10
  {
    '0' + n as char
  }

  /** The `nestedIndex` that leads to a place. */
  function Places(path: seq<nat>): string {
    if path == [] then "" else Places(path[..|path| - 1]) + "_" + Digits(path[|path| - 1])
  }

  function Render(path: seq<nat>): string {
    "__vlist" + Places(path) + "__"
  }

  /** The key of a child that lies two arrays deep. */
  lemma RenderTwo(i: nat, j: nat)
    ensures Render([i, j]) == "__vlist_" + Digits(i) + "_" + Digits(j) + "__"
  {
    assert [i, j][..1] == [i] && [i][..0] == [];
    assert Places([]) == "";
    assert Places([i]) == "" + "_" + Digits(i);
    assert "__vlist" + "_" == "__vlist_";
  }

  /** The number that is written. */
  function Value(s: string): int {
    if s == "" then 0 else 10 * Value(s[..|s| - 1]) + (s[|s| - 1] as int - '0' as int)
  }

  lemma {:induction false} DigitsRead(n: nat)
    ensures Value(Digits(n)) == n && '_' !in Digits(n)
  {
    if n < 10 {
      assert Digits(n)[..0] == "";
    } else {
      DigitsRead(n / 10);
      assert Digits(n)[..|Digits(n)| - 1] == Digits(n / 10);
    }
  }

  lemma LastUnderscore(s: string, d: string)
    requires '_' !in d
    ensures (s + "_" + d)[|s|] == '_' && forall k :: |s| < k < |s + "_" + d| ==> (s + "_" + d)[k] != '_'
  {
    forall k | |s| < k < |s + "_" + d|
      ensures (s + "_" + d)[k] != '_'
    {
      assert d[k - |s| - 1] in d;
    }
  }

  /** Text is cut at its last underscore in one way only. */
  lemma LastCut(s: string, d: string, t: string, e: string)
    requires s + "_" + d == t + "_" + e && '_' !in d && '_' !in e
    ensures s == t && d == e
  {
    var all := s + "_" + d;
    LastUnderscore(s, d);
    LastUnderscore(t, e);
    assert s == all[..|s|] && t == all[..|t|];
    assert d == all[|s| + 1..] && e == all[|t| + 1..];
  }

  lemma {:induction false} PlacesInjective(p: seq<nat>, q: seq<nat>)
    requires Places(p) == Places(q)
    ensures p == q
    decreases |p|
  {
    if p != [] && q != [] {
      var i, j := p[|p| - 1], q[|q| - 1];
      DigitsRead(i);
      DigitsRead(j);
      LastCut(Places(p[..|p| - 1]), Digits(i), Places(q[..|q| - 1]), Digits(j));
      PlacesInjective(p[..|p| - 1], q[..|q| - 1]);
      assert p == p[..|p| - 1] + [i] && q == q[..|q| - 1] + [j];
    }
  }

  /** Different places have different keys, as strings. */
  lemma RenderInjective(p: seq<nat>, q: seq<nat>)
    ensures Render(p) == Render(q) <==> p == q
  {
    if Render(p) == Render(q) {
      assert Places(p) == Render(p)[7..|Render(p)| - 2] == Places(q);
      PlacesInjective(p, q);
    }
  }

  // ----- the code -----

  method ReplaceLast(res: seq<VNode>, text: string) returns (r: seq<VNode>)
    requires EndsInText(Views(res))
    ensures Views(r) == Extend(Views(res), text)
  {
    var last := res[|res| - 1];
    assert View(last) == Views(res)[|res| - 1];
    var merged := new VNode.Text(last.text.value + text);
    r := res[..|res| - 1] + [merged];
  }

  method AddPrimitive(res: seq<VNode>, text: string) returns (r: seq<VNode>)
    ensures Views(r) == Push(Views(res), Loose(text))
  {
    r := res;
    if res != [] && IsText(res[|res| - 1]) {
      r := ReplaceLast(res, text);
    } else if text != "" {
      var v := new VNode.Text(text);
      r := res + [v];
    }
  }

  method AddVNode(res: seq<VNode>, c: VNode, vlist: bool, nestedIndex: Option<string>, i: nat) returns (r: seq<VNode>)
    modifies (if vlist && nestedIndex.Some? && c.tag.Some? then {c} else {})`key
    ensures Views(r) == Push(Views(res), View(c))
    ensures vlist && nestedIndex.Some? && c.tag.Some? && !IsText(c) ==> c.key.Some?
    ensures c.key != old(c.key) ==>
      old(c.key) == None && nestedIndex.Some? && c.key == Some("__vlist" + (nestedIndex.value + "_" + Digits(i)) + "__")
  {
    if IsText(c) && res != [] && IsText(res[|res| - 1]) {
      r := ReplaceLast(res, c.text.value);
    } else {
      if vlist && c.tag.Some? && c.key.None? && nestedIndex.Some? {
        var key := "__vlist" + nestedIndex.value + "_" + Digits(i) + "__";
        assert key == "__vlist" + (nestedIndex.value + "_" + Digits(i)) + "__";
        c.key := Some(key);
      }
      r := res + [c];
    }
  }

  method AddNested(res: seq<VNode>, nested: seq<VNode>) returns (r: seq<VNode>)
    ensures Views(r) == Join(Views(res), Views(nested))
  {
    var c := nested;
    r := res;
    if nested != [] && IsText(nested[0]) && res != [] && IsText(res[|res| - 1]) {
      r := ReplaceLast(res, nested[0].text.value);
      c := nested[1..];
    }
    r := r + c;
  }

  /** `nestedIndex` as the code passes it on: undefined at the top. */
  function IndexOf(path: seq<nat>): Option<string> {
    if path == [] then None else Some(Places(path))
  }

  /** `(nestedIndex || '') + "_" + i`. */
  function Deeper(nestedIndex: Option<string>, i: nat): string {
    (if nestedIndex.Some? then nestedIndex.value else "") + "_" + Digits(i)
  }

  lemma DeeperIsPlaces(path: seq<nat>, i: nat)
    ensures Deeper(IndexOf(path), i) == Places(path + [i])
  {
    assert (path + [i])[..|path|] == path;
  }

  /** `children` is the array that `path` leads to. */
  ghost predicate Placed(root: seq<Child>, path: seq<nat>, children: seq<Child>) {
    forall i: nat :: i < |children| ==> At(root, path + [i]) == Some(children[i])
  }

  /** The key of a place where the vnode is. */
  ghost predicate Marks(root: seq<Child>, v: VNode, key: string) {
    exists path :: key == Render(path) && At(root, path) == Some(Node(v))
  }

  /** A key is generated only where there was none, and then tells the place of its vnode. */
  ghost predicate OwnKey(root: seq<Child>, v: VNode, before: Option<string>, after: Option<string>) {
    after == before || (before == None && after.Some? && Marks(root, v, after.value))
  }

  method AddChild(res: seq<VNode>, c: Child, vlist: bool, nestedIndex: Option<string>, i: nat,
                  ghost root: seq<Child>, ghost path: seq<nat>, ghost nodes: set<VNode>)
    returns (r: seq<VNode>)
    requires ListedOne(c, vlist && nestedIndex.Some?) <= nodes
    requires nestedIndex == IndexOf(path) && At(root, path + [i]) == Some(c)
    modifies ListedOne(c, vlist && nestedIndex.Some?)`key
    ensures Views(r) == Fold(Views(res), FlatOne(c))
    ensures forall v :: v in nodes && v in ListedOne(c, vlist && nestedIndex.Some?) ==>
      (!IsText(v) ==> v.key.Some?) && OwnKey(root, v, old(v.key), v.key)
    decreases c, 0
  {
    match c
    case Absent => r := res;
    case Flag => r := res;
    case Prim(text) => r := AddPrimitive(res, text);
    case Node(v) =>
      DeeperIsPlaces(path, i);
      r := AddVNode(res, v, vlist, nestedIndex, i);
    case List(items, nestedVlist) =>
      r := res;
      if |items| > 0 {
        forall j: nat | j < |items|
          ensures At(root, path + [i] + [j]) == Some(items[j])
        {
          AtNested(root, path + [i], j);
        }
        DeeperIsPlaces(path, i);
        var nested := NormalizeArrayChildren(items, nestedVlist, Some(Deeper(nestedIndex, i)), root, path + [i], nodes);
        r := AddNested(res, nested);
        FoldIsMerge(Flat(items));
        FoldJoin(Views(res), [], Flat(items));
        JoinNothing(Views(res));
      }
  }

  /** `normalizeArrayChildren`; `vlist` is the `_isVList` of `children`. */
  method NormalizeArrayChildren(children: seq<Child>, vlist: bool, nestedIndex: Option<string>,
                                ghost root: seq<Child>, ghost path: seq<nat>, ghost nodes: set<VNode>)
    returns (res: seq<VNode>)
    requires Listed(children, vlist && nestedIndex.Some?) <= nodes
    requires nestedIndex == IndexOf(path) && Placed(root, path, children)
    modifies Listed(children, vlist && nestedIndex.Some?)`key
    ensures Views(res) == Merge(Flat(children))
    ensures forall v :: v in nodes && v in Listed(children, vlist && nestedIndex.Some?) ==>
      (!IsText(v) ==> v.key.Some?) && OwnKey(root, v, old(v.key), v.key)
    decreases children, 1
  {
    ghost var keyed := vlist && nestedIndex.Some?;
    ListedParts(children, keyed);
    FoldIsMerge(Flat(children));
    res := [];
    var i := 0;
    assert children[0..] == children;
    while i < |children|
      invariant 0 <= i <= |children|
      invariant Fold(Views(res), Flat(children[i..])) == Merge(Flat(children))
      invariant forall v :: v in nodes && v in Listed(children, keyed) ==> OwnKey(root, v, old(v.key), v.key)
      invariant forall j, v :: 0 <= j < i && v in nodes && v in ListedOne(children[j], keyed) && !IsText(v) ==>
          v.key.Some?
    {
      var c := children[i];
      FoldSplit(Views(res), FlatOne(c), Flat(children[i + 1..]));
      assert children[i..][1..] == children[i + 1..];
      res := AddChild(res, c, vlist, nestedIndex, i, root, path, nodes);
      i := i + 1;
    }
  }

  lemma KeysTell(root: seq<Child>, v: VNode, w: VNode, key: string)
    requires Marks(root, v, key) && Marks(root, w, key)
    ensures v == w
  {
    var p :| key == Render(p) && At(root, p) == Some(Node(v));
    var q :| key == Render(q) && At(root, q) == Some(Node(w));
    RenderInjective(p, q);
  }

  /** `normalizeChildren`; no two vnodes are given the same key. */
  method Normalize(children: Child, ghost nodes: set<VNode>) returns (res: Option<seq<VNode>>)
    requires children.List? ==> Listed(children.items, false) <= nodes
    modifies (if children.List? then Listed(children.items, false) else {})`key
    ensures children.Prim? ==> res.Some? && Views(res.value) == [Text(children.text)]
    ensures children.List? ==> res.Some? && Views(res.value) == Merge(Flat(children.items))
    ensures children.List? ==> forall v :: v in nodes && v in Listed(children.items, false) && !IsText(v) ==>
        v.key.Some?
    ensures children.List? ==> forall v, w ::
      (v in nodes && v in Listed(children.items, false) && v.key != old(v.key)
       && w in nodes && w in Listed(children.items, false) && w.key != old(w.key) && v != w) ==>
        v.key != w.key
    ensures !children.Prim? && !children.List? ==> res == None
  {
    res := None;
    if children.Prim? {
      var v := new VNode.Text(children.text);
      res := Some([v]);
    } else if children.List? {
      var items := children.items;
      var r := NormalizeArrayChildren(items, children.vlist, None, items, [], nodes);
      res := Some(r);
      forall v, w | v in nodes && w in nodes && v in Listed(items, false) && w in Listed(items, false)
          && v.key != old(v.key) && w.key != old(w.key) && v.key == w.key
        ensures v == w
      {
        KeysTell(items, v, w, v.key.value);
      }
    }
  }
}
