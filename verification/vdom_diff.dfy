/** `updateChildren`: the two-ended keyed diff of child lists, in place on the vnode arrays and the DOM. */
module VdomDiff {
  import opened Common
  import opened VdomDom
  import opened VdomSame
  import opened VdomState
  import opened VdomSteps
  import opened VdomMatch

  /** The variables of one call. */
  class Diff {
    const parent: ParentNode
    const oldCh: array<Option<Mounted>>
    const newCh: array<VNode>
    const removeOnly: bool
    var oldStartIdx: int
    var oldEndIdx: int
    var newStartIdx: int
    var newEndIdx: int
    var oldKeyToIdx: Option<map<string, nat>>
    ghost const cf: Config
    ghost var src: seq<int>
    ghost var dst: seq<int>

    ghost function ElmsNow(): (r: seq<Option<Elm>>)
      reads newCh
      ensures |r| == newCh.Length && forall i :: 0 <= i < |r| ==> r[i] == newCh[i].elm
    {
      seq(newCh.Length, i requires 0 <= i < newCh.Length reads newCh => newCh[i].elm)
    }

    ghost function Now(): State
      reads this, oldCh, newCh
    {
      State(oldStartIdx, oldEndIdx, newStartIdx, newEndIdx, oldCh[..], ElmsNow(), src, dst)
    }

    ghost predicate Fits()
      reads newCh, parent
    {
      && ConfigOk(cf) && parent.Valid() && cf.firstNew <= parent.nextElm
      && newCh.Length == |cf.news| && forall i :: 0 <= i < |cf.news| ==> newCh[i].info == cf.news[i]
    }

    ghost predicate Inv()
      reads this, oldCh, newCh, parent
    {
      && Fits() && Book(cf, Now()) && DomOk(!removeOnly, parent.children, Order(cf, Now()))
      && (oldKeyToIdx.Some? ==> TableOk(cf, Now(), oldKeyToIdx.value))
    }

    /** The widths of the two windows. */
    ghost function Work(): int
      reads this
    {
      (oldEndIdx - oldStartIdx + 1) + (newEndIdx - newStartIdx + 1)
    }

    /** The key table stays right while old vnodes are only used up. */
    lemma KeepTable(s: State)
      requires oldKeyToIdx.Some? ==> TableOk(cf, s, oldKeyToIdx.value)
      requires |oldCh[..]| == |cf.orig| && forall k :: 0 <= k < |cf.orig| && Unused(Now(), k) ==> Unused(s, k)
      ensures oldKeyToIdx.Some? ==> TableOk(cf, Now(), oldKeyToIdx.value)
    {
    }

    constructor (parent: ParentNode, oldCh: array<Option<Mounted>>, newCh: array<VNode>, removeOnly: bool,
                 ghost cf: Config)
      requires ConfigOk(cf) && parent.Valid() && cf.firstNew == parent.nextElm && parent.children == Elms(cf.orig)
      requires oldCh.Length == |cf.orig| && forall j :: 0 <= j < |cf.orig| ==> oldCh[j] == Some(cf.orig[j])
      requires newCh.Length == |cf.news| && forall i :: 0 <= i < |cf.news| ==> newCh[i].info == cf.news[i]
      ensures Inv() && oldKeyToIdx.None? && View(Now()) == Start(cf)
      ensures this.parent == parent && this.oldCh == oldCh && this.newCh == newCh && this.removeOnly == removeOnly
          && this.cf == cf
    {
      this.parent, this.oldCh, this.newCh, this.removeOnly := parent, oldCh, newCh, removeOnly;
      oldStartIdx, newStartIdx := 0, 0;
      oldEndIdx, newEndIdx := oldCh.Length - 1, newCh.Length - 1;
      oldKeyToIdx := None;
      this.cf := cf;
      src, dst := seq(|cf.news|, _ => -1), seq(|cf.orig|, _ => -1);
      new;
      StartOrder(cf, Now());
    }

    /** `patchVnode`, as far as the parent is concerned: the new vnode takes over the old one's node. */
    method PatchVnode(v: Mounted, i: int, ghost j: int)
      requires Fits() && Shape(cf, Now()) && 0 <= i < |cf.news| && 0 <= j < |cf.orig| && v == cf.orig[j]
      modifies newCh, this`src, this`dst
      ensures Fits() && Now() == Use(cf, old(Now()), j, i)
    {
      newCh[i] := newCh[i].(elm := Some(v.elm));
      src, dst := src[i := j], dst[j := i];
      assert ElmsNow() == old(ElmsNow())[i := Some(v.elm)];
    }

    /** `createElm` in front of `ref`, or at the end. */
    method CreateElm(i: int, ref: Option<Elm>)
      requires Fits() && Shape(cf, Now()) && 0 <= i < |cf.news| && (ref.Some? ==> ref.value in parent.children)
      modifies newCh, parent, this`src
      ensures var x := old(parent.nextElm);
              && Fits() && x !in old(parent.children) && parent.children == InsertBefore(old(parent.children), x, ref)
              && Now() == old(Now()).(elms := old(Now()).elms[i := Some(x)], src := old(Now()).src[i := -1])
    {
      var x := parent.CreateNode();
      newCh[i] := newCh[i].(elm := Some(x));
      src := src[i := -1];
      parent.Insert(x, ref);
      assert ElmsNow() == old(ElmsNow())[i := Some(x)];
    }

    /** `canMove && insertBefore(...)`. */
    method MoveNode(x: Elm, ref: Option<Elm>)
      requires parent.Valid() && x in parent.children
      requires !removeOnly && ref.Some? ==> ref.value in parent.children && ref.value != x
      modifies parent`children
      ensures parent.Valid()
      ensures parent.children == if !removeOnly then InsertBefore(old(parent.children), x, ref)
          else old(parent.children)
    {
      if !removeOnly {
        parent.Insert(x, ref);
      }
    }

    /** Both, for a vnode whose node stands elsewhere. */
    method PatchAndMove(v: Mounted, i: int, ghost j: int, ref: Option<Elm>)
      requires Fits() && Shape(cf, Now()) && 0 <= i < |cf.news| && 0 <= j < |cf.orig| && v == cf.orig[j]
      requires v.elm in parent.children
          && (!removeOnly && ref.Some? ==> ref.value in parent.children && ref.value != v.elm)
      modifies newCh, this`src, this`dst, parent`children
      ensures Fits() && Now() == Use(cf, old(Now()), j, i)
      ensures parent.children == if !removeOnly then InsertBefore(old(parent.children), v.elm, ref)
          else old(parent.children)
    {
      PatchVnode(v, i, j);
      MoveNode(v.elm, ref);
    }

    method PatchHeads()
      requires Inv() && AtWork(cf, Now()) && Same(cf, oldStartIdx, newStartIdx)
      modifies this, newCh
      ensures Inv() && Work() < old(Work()) && oldKeyToIdx == old(oldKeyToIdx)
      ensures Some(View(Now())) == Step(cf, old(View(Now())))
    {
      ghost var s := Now();
      HeadNode(cf, s);
      HeadToHead(cf, s);
      PatchVnode(oldCh[oldStartIdx].value, newStartIdx, oldStartIdx);
      oldStartIdx := oldStartIdx + 1;
      newStartIdx := newStartIdx + 1;
      assert Now() == Use(cf, s, s.oldStart, s.newStart).(oldStart := s.oldStart + 1, newStart := s.newStart + 1);
      EndsStep(cf, s);
      KeepTable(s);
    }

    method PatchTails()
      requires Inv() && AtWork(cf, Now()) && !Same(cf, oldStartIdx, newStartIdx) && Same(cf, oldEndIdx, newEndIdx)
      modifies this, newCh
      ensures Inv() && Work() < old(Work()) && oldKeyToIdx == old(oldKeyToIdx)
      ensures Some(View(Now())) == Step(cf, old(View(Now())))
    {
      ghost var s := Now();
      HeadNode(cf, s);
      TailToTail(cf, s);
      PatchVnode(oldCh[oldEndIdx].value, newEndIdx, oldEndIdx);
      oldEndIdx := oldEndIdx - 1;
      newEndIdx := newEndIdx - 1;
      assert Now() == Use(cf, s, s.oldEnd, s.newEnd).(oldEnd := s.oldEnd - 1, newEnd := s.newEnd - 1);
      EndsStep(cf, s);
      KeepTable(s);
    }

    /** The vnode has moved right. */
    method PatchHeadToTail()
      requires Inv() && AtWork(cf, Now()) && !Same(cf, oldStartIdx, newStartIdx)
      requires Same(cf, oldStartIdx, newEndIdx) && !Same(cf, oldEndIdx, newEndIdx)
      modifies this, newCh, parent
      ensures Inv() && Work() < old(Work()) && oldKeyToIdx == old(oldKeyToIdx)
      ensures Some(View(Now())) == Step(cf, old(View(Now())))
    {
      hide Order, DomOk, TableOk;
      ghost var s, dom := Now(), parent.children;
      HeadNode(cf, s);
      var v, ref := oldCh[oldStartIdx].value, NextSibling(parent.children, oldCh[oldEndIdx].value.elm);
      assert v == cf.orig[oldStartIdx] && ref == NextSibling(dom, cf.orig[oldEndIdx].elm);
      HeadToTail(cf, s, !removeOnly, dom, ref);
      PatchAndMove(v, newEndIdx, oldStartIdx, ref);
      oldStartIdx := oldStartIdx + 1;
      newEndIdx := newEndIdx - 1;
      assert Now() == Use(cf, s, s.oldStart, s.newEnd).(oldStart := s.oldStart + 1, newEnd := s.newEnd - 1);
      EndsStep(cf, s);
      KeepTable(s);
    }

    /** The vnode has moved left. */
    method PatchTailToHead()
      requires Inv() && AtWork(cf, Now()) && Same(cf, oldEndIdx, newStartIdx) && !Same(cf, oldStartIdx, newStartIdx)
      requires !Same(cf, oldEndIdx, newEndIdx) && !Same(cf, oldStartIdx, newEndIdx)
      modifies this, newCh, parent
      ensures Inv() && Work() < old(Work()) && oldKeyToIdx == old(oldKeyToIdx)
      ensures Some(View(Now())) == Step(cf, old(View(Now())))
    {
      ghost var s, dom := Now(), parent.children;
      HeadNode(cf, s);
      var v, ref := oldCh[oldEndIdx].value, oldCh[oldStartIdx].value.elm;
      assert v == cf.orig[oldEndIdx] && ref == cf.orig[oldStartIdx].elm;
      TailToHead(cf, s, !removeOnly, dom);
      PatchAndMove(v, newStartIdx, oldEndIdx, Some(ref));
      oldEndIdx := oldEndIdx - 1;
      newStartIdx := newStartIdx + 1;
      assert Now() == Use(cf, s, s.oldEnd, s.newStart).(oldEnd := s.oldEnd - 1, newStart := s.newStart + 1);
      EndsStep(cf, s);
      KeepTable(s);
    }

    /** `createKeyToOldIdx` over the old window; later entries win, but names are unique. */
    method CreateKeyToOldIdx() returns (m: map<string, nat>)
      requires Inv() && oldStartIdx <= oldEndIdx && NoHoles(oldCh[..])
      ensures TableOk(cf, Now(), m)
    {
      m := map[];
      var i := oldStartIdx;
      while i <= oldEndIdx
        invariant oldStartIdx <= i <= oldEndIdx + 1
        invariant forall name :: name in m ==>
            !IsProto(name) && m[name] < |cf.orig| && HasName(cf.orig[m[name]].info, name)
        invariant forall j :: oldStartIdx <= j < i && Keyed(cf, j) ==> NameOf(cf, j) in m && m[NameOf(cf, j)] == j
      {
        assert OldOk(cf, Now(), i);
        assert Infos(cf.orig)[i] == cf.orig[i].info;
        assert forall j :: oldStartIdx <= j < i ==> Infos(cf.orig)[j] == cf.orig[j].info;
        m := WithEntry(m, oldCh[i].value.info, i);
        i := i + 1;
      }
    }

    /** `findIdxInOld`, which leaves out the last vnode of the window. */
    method FindIdxInOld(node: Info) returns (r: Option<nat>)
      requires Inv() && Working(cf, View(Now())) && node == cf.news[newStartIdx]
      ensures r == FirstLike(cf, View(Now()), oldStartIdx)
      ensures r.Some? ==> oldStartIdx <= r.value < oldEndIdx && Unused(Now(), r.value)
      ensures r.Some? ==> SameVnode(node, cf.orig[r.value].info)
      ensures r.None? ==> forall j :: oldStartIdx <= j < oldEndIdx && Unused(Now(), j) ==>
          !SameVnode(node, cf.orig[j].info)
    {
      var i := oldStartIdx;
      while i < oldEndIdx
        invariant oldStartIdx <= i <= oldEndIdx
        invariant FirstLike(cf, View(Now()), oldStartIdx) == FirstLike(cf, View(Now()), i)
        invariant forall j :: oldStartIdx <= j < i && Unused(Now(), j) ==> !SameVnode(node, cf.orig[j].info)
      {
        assert OldOk(cf, Now(), i);
        if oldCh[i].Some? && SameVnode(node, oldCh[i].value.info) {
          return Some(i);
        }
        i := i + 1;
      }
      return None;
    }

    /** An old vnode inside the window is the new head: it leaves a hole. */
    method PullHead(idxInOld: nat)
      requires Inv() && Searching(cf, Now()) && SafeKey(cf, newStartIdx)
      requires Candidate(cf, View(Now())) == Some(idxInOld) && Unused(Now(), idxInOld)
      modifies this, newCh, oldCh, parent
      ensures Inv() && Work() < old(Work()) && oldKeyToIdx == old(oldKeyToIdx)
      ensures Some(View(Now())) == Step(cf, old(View(Now())))
    {
      hide Order, DomOk, TableOk, Step, Candidate, SafeKey;
      ghost var s := Now();
      assert OldOk(cf, s, idxInOld);
      HeadNode(cf, s);
      var vnodeToMove, ref := oldCh[idxInOld].value, oldCh[oldStartIdx].value.elm;
      Pull(cf, s, idxInOld, !removeOnly, parent.children);
      PatchVnode(vnodeToMove, newStartIdx, idxInOld);
      oldCh[idxInOld] := None;
      MoveNode(vnodeToMove.elm, Some(ref));
      newStartIdx := newStartIdx + 1;
      assert Now() == Use(cf, s, idxInOld, s.newStart).(olds := s.olds[idxInOld := None], newStart := s.newStart + 1);
      PullStep(cf, s, idxInOld);
      KeepTable(s);
    }

    /** An old vnode was found for the new head: reuse it if it really is the same, else create a node. */
    method PullOrCreate(idxInOld: nat)
      requires Inv() && Searching(cf, Now()) && SafeKey(cf, newStartIdx)
      requires idxInOld < |cf.orig| && Unused(Now(), idxInOld)
      requires Candidate(cf, View(Now())) == if Same(cf, idxInOld, newStartIdx) then Some(idxInOld) else None
      modifies this, newCh, oldCh, parent
      ensures Inv() && Work() < old(Work()) && oldKeyToIdx == old(oldKeyToIdx)
      ensures Some(View(Now())) == Step(cf, old(View(Now())))
    {
      assert OldOk(cf, Now(), idxInOld);
      if SameVnode(oldCh[idxInOld].value.info, newCh[newStartIdx].info) {
        PullHead(idxInOld);
      } else {
        CreateHead();
      }
    }

    /** A new node for the new head, in front of the old head. */
    method CreateHead()
      requires Inv() && Searching(cf, Now()) && SafeKey(cf, newStartIdx) && Candidate(cf, View(Now())).None?
      modifies this`newStartIdx, this`src, this`dst, newCh, parent
      ensures Inv() && Work() < old(Work()) && newStartIdx == old(newStartIdx) + 1
      ensures Some(View(Now())) == Step(cf, old(View(Now())))
    {
      hide Step, Candidate, SafeKey, TableOk;
      ghost var s, x := Now(), parent.nextElm;
      HeadNode(cf, s);
      CandidateKeyed(cf, View(s));
      Make(cf, s, x, !removeOnly, parent.children);
      CreateElm(newStartIdx, Some(oldCh[oldStartIdx].value.elm));
      newStartIdx := newStartIdx + 1;
      assert Now()
          == s.(elms := s.elms[s.newStart := Some(x)], src := s.src[s.newStart := -1], newStart := s.newStart + 1);
      CreateStep(cf, s);
      KeepTable(s);
    }

    /** The last branch: find an old vnode for the new head by key or by search. False is a run-time TypeError. */
    method SearchHead() returns (ok: bool)
      requires Inv() && Searching(cf, Now())
      requires oldKeyToIdx.None? ==> NoHoles(oldCh[..])
      modifies this, newCh, oldCh, parent
      ensures ok ==> Inv() && Work() < old(Work()) && oldKeyToIdx.Some?
      ensures ok <==> SafeKey(cf, old(newStartIdx))
      ensures ok ==> Some(View(Now())) == Step(cf, old(View(Now())))
    {
      if oldKeyToIdx.None? {
        var m := CreateKeyToOldIdx();
        oldKeyToIdx := Some(m);
      }
      var node := newCh[newStartIdx].info;
      ok := true;
      if node.key.None? {
        var idxInOld := FindIdxInOld(node);
        if idxInOld.None? {
          CreateHead();
        } else {
          PullOrCreate(idxInOld.value);
        }
      } else {
        ok := LookUpHead(node.key.value.name);
      }
    }

    /** A keyed new head: look its key up in the table. */
    method LookUpHead(name: string) returns (ok: bool)
      requires Inv() && Searching(cf, Now())
      requires oldKeyToIdx.Some? && cf.news[newStartIdx].key.Some? && name == cf.news[newStartIdx].key.value.name
      modifies this, newCh, oldCh, parent
      ensures ok ==> Inv() && Work() < old(Work()) && oldKeyToIdx.Some?
      ensures ok <==> SafeKey(cf, old(newStartIdx))
      ensures ok ==> Some(View(Now())) == Step(cf, old(View(Now())))
    {
      var m := oldKeyToIdx.value;
      ok := true;
      FindFails(cf, Now(), m, newStartIdx);
      match Find(m, name) {
        case Missing =>
          UnknownKey(cf, Now(), m, newStartIdx);
          CandidateIs(cf, Now(), 0);
          CreateHead();
        case Found(idxInOld) =>
          KnownKey(cf, Now(), m, newStartIdx);
          CandidateIs(cf, Now(), idxInOld);
          PullOrCreate(idxInOld);
        case InheritedMember =>
          ok := false;
      }
    }

    /** The comparisons of the loop body, with vnodes at both ends of the old window. */
    method Compare(oldStartVnode: Mounted, oldEndVnode: Mounted) returns (ok: bool)
      requires Inv() && AtWork(cf, Now())
      requires oldStartVnode == cf.orig[oldStartIdx] && oldEndVnode == cf.orig[oldEndIdx]
      requires oldKeyToIdx.None? ==> NoHoles(oldCh[..])
      modifies this, newCh, oldCh, parent
      ensures ok ==> Inv() && Work() < old(Work()) && (oldKeyToIdx.None? ==> NoHoles(oldCh[..]))
      ensures ok <==> !Crashes(cf, old(Now()))
      ensures Step(cf, old(View(Now()))) == if ok then Some(View(Now())) else None
    {
      ok := true;
      var newStartVnode, newEndVnode := newCh[newStartIdx].info, newCh[newEndIdx].info;
      if SameVnode(oldStartVnode.info, newStartVnode) {
        PatchHeads();
      } else if SameVnode(oldEndVnode.info, newEndVnode) {
        PatchTails();
      } else if SameVnode(oldStartVnode.info, newEndVnode) {
        PatchHeadToTail();
      } else if SameVnode(oldEndVnode.info, newStartVnode) {
        PatchTailToHead();
      } else {
        ok := SearchHead();
      }
    }

    /** One iteration of the loop. */
    method Iterate() returns (ok: bool)
      requires Inv() && oldStartIdx <= oldEndIdx && newStartIdx <= newEndIdx
      requires oldKeyToIdx.None? ==> NoHoles(oldCh[..])
      modifies this, newCh, oldCh, parent
      ensures ok ==> Inv() && Work() < old(Work()) && (oldKeyToIdx.None? ==> NoHoles(oldCh[..]))
      ensures ok <==> !Crashes(cf, old(Now()))
      ensures Step(cf, old(View(Now()))) == if ok then Some(View(Now())) else None
    {
      ok := true;
      if oldCh[oldStartIdx].None? {
        SkipHeadHole();
      } else if oldCh[oldEndIdx].None? {
        SkipTailHole();
      } else {
        HeadNode(cf, Now());
        ok := Compare(oldCh[oldStartIdx].value, oldCh[oldEndIdx].value);
      }
    }

    method SkipHeadHole()
      requires Inv() && oldStartIdx <= oldEndIdx && newStartIdx <= newEndIdx && oldCh[oldStartIdx].None?
      modifies this`oldStartIdx
      ensures Inv() && Work() < old(Work()) && Some(View(Now())) == Step(cf, old(View(Now())))
    {
      ghost var s := Now();
      SkipHead(cf, s);
      oldStartIdx := oldStartIdx + 1;
      assert Now() == s.(oldStart := s.oldStart + 1);
      KeepTable(s);
    }

    method SkipTailHole()
      requires Inv() && oldStartIdx <= oldEndIdx && newStartIdx <= newEndIdx
      requires oldCh[oldStartIdx].Some? && oldCh[oldEndIdx].None?
      modifies this`oldEndIdx
      ensures Inv() && Work() < old(Work()) && Some(View(Now())) == Step(cf, old(View(Now())))
    {
      ghost var s := Now();
      SkipTail(cf, s);
      oldEndIdx := oldEndIdx - 1;
      assert Now() == s.(oldEnd := s.oldEnd - 1);
      KeepTable(s);
    }

    /** The loop. Each iteration narrows the windows, as the plan does. */
    method Walk() returns (ok: bool)
      requires Inv() && oldKeyToIdx.None? && NoHoles(oldCh[..]) && View(Now()) == Start(cf)
      modifies this, newCh, oldCh, parent
      ensures ok <==> !Fails(cf)
      ensures ok ==> Inv() && (oldStartIdx > oldEndIdx || newStartIdx > newEndIdx)
      ensures ok ==> View(Now()) == Run(cf, Start(cf)).value
    {
      ok := true;
      while oldStartIdx <= oldEndIdx && newStartIdx <= newEndIdx
        invariant Inv() && (oldKeyToIdx.None? ==> NoHoles(oldCh[..]))
        invariant Run(cf, View(Now())) == Run(cf, Start(cf)) && ok
        decreases Work()
      {
        ok := Iterate();
        if !ok {
          return;
        }
      }
    }

    /** `addVnodes` after the loop. */
    method AddVnodes()
      requires Inv() && oldStartIdx > oldEndIdx && NoneYet(View(Now()))
      modifies this, newCh, parent
      ensures Inv() && newStartIdx > newEndIdx && src == old(src)
    {
      var refElm := if newEndIdx + 1 < newCh.Length then newCh[newEndIdx + 1].elm else None;
      RightFront(cf, Now());
      while newStartIdx <= newEndIdx
        invariant Inv() && oldStartIdx > oldEndIdx && refElm == Front(Right(Now()))
        invariant src == old(src) && NoneYet(View(Now()))
        decreases newEndIdx - newStartIdx
      {
        AddVnode(refElm);
      }
    }

    method AddVnode(refElm: Option<Elm>)
      requires Inv() && oldStartIdx > oldEndIdx && newStartIdx <= newEndIdx && refElm == Front(Right(Now()))
      requires src[newStartIdx] == -1
      modifies this, newCh, parent
      ensures Inv() && oldStartIdx > oldEndIdx && refElm == Front(Right(Now()))
      ensures newStartIdx == old(newStartIdx) + 1 && newEndIdx == old(newEndIdx) && src == old(src)
    {
      ghost var s := Now();
      NothingLeft(cf, s, newStartIdx);
      Add(cf, s, parent.nextElm, !removeOnly, parent.children, refElm);
      CreateElm(newStartIdx, refElm);
      newStartIdx := newStartIdx + 1;
      assert Now() == s.(elms := Now().elms, src := Now().src, newStart := s.newStart + 1);
      KeepTable(s);
    }
  }

  /** The order of the children while leftovers before old index `i` have been removed. */
  ghost function RemovalOrder(cf: Config, s: State, i: int): seq<Elm>
    requires Shape(cf, s) && s.oldStart <= i <= s.oldEnd + 1
  {
    Left(s) + Got(Live(s, i, s.oldEnd + 1)) + Right(s)
  }

  /** One leftover, unless it is a hole. */
  method RemoveVnode(parent: ParentNode, v: Option<Mounted>, ghost cf: Config, ghost s: State, ghost i: int,
                     ghost canMove: bool)
    requires Book(cf, s) && s.oldStart <= i <= s.oldEnd && v == s.olds[i]
    requires parent.Valid() && DomOk(canMove, parent.children, RemovalOrder(cf, s, i))
    modifies parent
    ensures parent.Valid() && DomOk(canMove, parent.children, RemovalOrder(cf, s, i + 1))
  {
    RemovalStep(cf, s, i, canMove, parent.children);
    if v.Some? {
      parent.Remove(v.value.elm);
    }
  }

  /** `removeVnodes` after the loop; removal is immediate. */
  method RemoveVnodes(parent: ParentNode, vnodes: array<Option<Mounted>>, startIdx: int, endIdx: int,
                      ghost cf: Config, ghost s: State, ghost canMove: bool)
    requires Book(cf, s) && s.newStart > s.newEnd && startIdx == s.oldStart && endIdx == s.oldEnd
    requires vnodes.Length == |cf.orig| && vnodes[..] == s.olds
    requires parent.Valid() && DomOk(canMove, parent.children, Order(cf, s))
    modifies parent
    ensures parent.Valid() && DomOk(canMove, parent.children, Left(s) + Right(s))
  {
    assert RemovalOrder(cf, s, startIdx) == Order(cf, s);
    var i := startIdx;
    while i <= endIdx
      invariant startIdx <= i <= endIdx + 1
      invariant vnodes[..] == s.olds
      invariant parent.Valid() && DomOk(canMove, parent.children, RemovalOrder(cf, s, i))
    {
      RemoveVnode(parent, vnodes[i], cf, s, i, canMove);
      i := i + 1;
    }
    assert Left(s) + [] + Right(s) == Left(s) + Right(s);
    assert RemovalOrder(cf, s, endIdx + 1) == Left(s) + Right(s);
  }

  /** Nothing at the ends of the windows matches. */
  predicate Searching(cf: Config, s: State) {
    && AtWork(cf, s)
    && !Same(cf, s.oldStart, s.newStart) && !Same(cf, s.oldEnd, s.newEnd)
    && !Same(cf, s.oldStart, s.newEnd) && !Same(cf, s.oldEnd, s.newStart)
  }

  /** The loop body reaches the key lookup and the lookup gives neither an index nor undefined. */
  ghost predicate Crashes(cf: Config, s: State) {
    Searching(cf, s) && !SafeKey(cf, s.newStart)
  }

  // ----- the plan that the loop follows -----

  /** Where the ends of the windows match, the plan takes the first pair that does. */
  lemma EndsStep(cf: Config, s: State)
    requires AtWork(cf, s) && !Searching(cf, s)
    ensures Step(cf, View(s)) == Some(View(
      if Same(cf, s.oldStart, s.newStart) then
        Use(cf, s, s.oldStart, s.newStart).(oldStart := s.oldStart + 1, newStart := s.newStart + 1)
      else if Same(cf, s.oldEnd, s.newEnd) then
        Use(cf, s, s.oldEnd, s.newEnd).(oldEnd := s.oldEnd - 1, newEnd := s.newEnd - 1)
      else if Same(cf, s.oldStart, s.newEnd) then
        Use(cf, s, s.oldStart, s.newEnd).(oldStart := s.oldStart + 1, newEnd := s.newEnd - 1)
      else
        Use(cf, s, s.oldEnd, s.newStart).(oldEnd := s.oldEnd - 1, newStart := s.newStart + 1)))
  {
  }

  lemma PullStep(cf: Config, s: State, j: nat)
    requires Searching(cf, s) && SafeKey(cf, s.newStart) && Candidate(cf, View(s)) == Some(j)
    ensures Step(cf, View(s))
         == Some(View(Use(cf, s, j, s.newStart).(olds := s.olds[j := None], newStart := s.newStart + 1)))
  {
    assert Holes(s.olds[j := None]) == Holes(s.olds) + {j as int};
  }

  lemma CreateStep(cf: Config, s: State)
    requires Searching(cf, s) && SafeKey(cf, s.newStart) && Candidate(cf, View(s)).None?
    ensures Step(cf, View(s)) == Some(View(s.(src := s.src[s.newStart := -1], newStart := s.newStart + 1)))
  {
  }

  lemma CandidateKeyed(cf: Config, p: Plan)
    requires Working(cf, p) && Candidate(cf, p).None?
    ensures NoCounterpart(cf, p.newStart)
  {
  }

  /** The candidate of a keyed new head is the old vnode of that key, if they are the same. */
  lemma CandidateIs(cf: Config, s: State, j: nat)
    requires ConfigOk(cf) && Searching(cf, s) && cf.news[s.newStart].key.Some? && j < |cf.orig|
    requires !Same(cf, j, s.newStart) ==> NoCounterpart(cf, s.newStart)
    ensures Candidate(cf, View(s)) == if Same(cf, j, s.newStart) then Some(j) else None
  {
    var k := Counterpart(cf, s.newStart, 0);
    if k.Some? {
      assert Infos(cf.orig)[k.value] == cf.orig[k.value].info && Infos(cf.orig)[j] == cf.orig[j].info;
    }
  }

  lemma UnknownKey(cf: Config, s: State, m: map<string, nat>, i: int)
    requires ConfigOk(cf) && Book(cf, s) && TableOk(cf, s, m) && 0 <= i < |cf.news| && Open(s, i)
    requires cf.news[i].key.Some? && Find(m, cf.news[i].key.value.name) == Missing
    ensures NoCounterpart(cf, i)
  {
    forall j | 0 <= j < |cf.orig|
      ensures !Same(cf, j, i)
    {
      NotInTable(cf, s, m, i, j);
    }
  }

  /** The entry of a known key is a vnode that has not been used: never a hole. */
  lemma KnownKey(cf: Config, s: State, m: map<string, nat>, i: int)
    requires ConfigOk(cf) && Book(cf, s) && TableOk(cf, s, m) && 0 <= i < |cf.news| && Open(s, i)
    requires cf.news[i].key.Some? && cf.news[i].key.value.name in m
    ensures var j := m[cf.news[i].key.value.name];
            j < |cf.orig| && Unused(s, j) && (!Same(cf, j, i) ==> NoCounterpart(cf, i))
  {
    var j := m[cf.news[i].key.value.name];
    NameStillUnused(cf, s, j, i);
    forall k | 0 <= k < |cf.orig| && Same(cf, k, i)
      ensures k == j
    {
    }
  }

  lemma RemovalStep(cf: Config, s: State, i: int, canMove: bool, dom: seq<Elm>)
    requires Book(cf, s) && s.oldStart <= i <= s.oldEnd
    requires DomOk(canMove, dom, RemovalOrder(cf, s, i))
    ensures var dom1 := if s.olds[i].Some? then Without(dom, s.olds[i].value.elm) else dom;
            DomOk(canMove, dom1, RemovalOrder(cf, s, i + 1))
  {
    GotFirst(s, i);
    if s.olds[i].Some? {
      RemoveFirst(Left(s), s.olds[i].value.elm, Got(Live(s, i + 1, s.oldEnd + 1)), Right(s), canMove, dom);
    }
  }

  lemma GotFirst(s: State, i: int)
    requires 0 <= i <= s.oldEnd < |s.olds|
    ensures Got(Live(s, i, s.oldEnd + 1))
            == (if s.olds[i].Some? then [s.olds[i].value.elm] else []) + Got(Live(s, i + 1, s.oldEnd + 1))
    ensures s.olds[i].None? ==> Got(Live(s, i, s.oldEnd + 1)) == Got(Live(s, i + 1, s.oldEnd + 1))
  {
    var x := if s.olds[i].Some? then Some(s.olds[i].value.elm) else None;
    assert Live(s, i, s.oldEnd + 1) == [x] + Live(s, i + 1, s.oldEnd + 1);
    GotAppend([x], Live(s, i + 1, s.oldEnd + 1));
    GotOne(x);
  }

  lemma RemoveFirst(l: seq<Elm>, x: Elm, m: seq<Elm>, r: seq<Elm>, canMove: bool, dom: seq<Elm>)
    requires DomOk(canMove, dom, l + ([x] + m) + r)
    ensures DomOk(canMove, Without(dom, x), l + m + r)
  {
    assert l + ([x] + m) + r == l + [x] + (m + r) && l + m + r == l + (m + r);
    DomRemoves(canMove, dom, l, x, m + r);
  }

  // ----- the result -----

  /**
   * What a completed call has achieved. Every new vnode has a node. It is the node of exactly one
   * old vnode that it is the same as, or a new node; a keyed vnode gets a new one only if there was
   * nothing to reuse. The DOM children are the nodes of the new vnodes, in their order if nodes may move.
   */
  ghost predicate Updated(cf: Config, elms: seq<Option<Elm>>, src: seq<int>, dom: seq<Elm>, canMove: bool) {
    && |elms| == |src| == |cf.news|
    && (forall i :: 0 <= i < |cf.news| ==>
          && elms[i].Some?
          && if src[i] == -1 then elms[i].value >= cf.firstNew && NoCounterpart(cf, i)
             else 0 <= src[i] < |cf.orig| && Same(cf, src[i], i) && elms[i].value == cf.orig[src[i]].elm)
    && (forall i, k :: 0 <= i < k < |cf.news| && src[i] != -1 ==> src[i] != src[k])
    && DomOk(canMove, dom, Got(elms))
  }

  lemma AllSettled(cf: Config, s: State, dom: seq<Elm>, canMove: bool)
    requires Book(cf, s) && s.newStart > s.newEnd && DomOk(canMove, dom, Left(s) + Right(s))
    ensures Updated(cf, s.elms, s.src, dom, canMove)
  {
    assert s.elms == s.elms[..s.newStart] + s.elms[s.newEnd + 1..];
    GotAppend(s.elms[..s.newStart], s.elms[s.newEnd + 1..]);
    forall i | 0 <= i < |cf.news|
      ensures s.elms[i].Some?
      ensures s.src[i] == -1 ==> s.elms[i].value >= cf.firstNew && NoCounterpart(cf, i)
      ensures s.src[i] != -1 ==> 0 <= s.src[i] < |cf.orig| && s.elms[i].value == cf.orig[s.src[i]].elm
      ensures s.src[i] == -1 || (0 <= s.src[i] < |cf.orig| && Same(cf, s.src[i], i) && s.dst[s.src[i]] == i)
    {
      assert NewOk(cf, s, i);
      if s.src[i] != -1 {
        assert OldOk(cf, s, s.src[i]);
      }
    }
  }

  /** A keyed new vnode with an old counterpart stands for that counterpart's node. */
  lemma CounterpartReused(cf: Config, elms: seq<Option<Elm>>, src: seq<int>, dom: seq<Elm>, canMove: bool, i: int,
                          j: int)
    requires ConfigOk(cf) && Updated(cf, elms, src, dom, canMove)
    requires 0 <= i < |cf.news| && 0 <= j < |cf.orig| && cf.news[i].key.Some? && Same(cf, j, i)
    ensures src[i] == j && elms[i] == Some(cf.orig[j].elm)
  {
    assert Infos(cf.orig)[j] == cf.orig[j].info;
    if src[i] != -1 {
      assert Infos(cf.orig)[src[i]] == cf.orig[src[i]].info;
    }
  }

  // ----- what the vnodes of a pair have in common -----

  predicate TextInput(t: InputType) {
    && t.Type?
    && (t.name == "text" || t.name == "number" || t.name == "password" || t.name == "search" || t.name == "email"
        || t.name == "tel" || t.name == "url")
  }

  /** Of one kind: tag, comment flag and data flag agree, and so does what matters of the type of an input. */
  predicate OneKind(a: Info, b: Info) {
    && a.tag == b.tag && a.isComment == b.isComment && a.hasData == b.hasData
    && (a.tag == Some("input") ==> a.inputType == b.inputType || (TextInput(a.inputType) && TextInput(b.inputType)))
  }

  /** The old vnode holds the place of the component that the new one stands for, which has not failed to load. */
  predicate Awaited(a: Info, b: Info) {
    a.isAsyncPlaceholder && a.asyncFactory == b.asyncFactory && (b.asyncFactory.Some? ==> !b.asyncFactory.value.failed)
  }

  /** They have one key and are of one kind, or the old vnode holds the place of the new one. */
  predicate Pair(a: Info, b: Info) {
    a.key == b.key && (OneKind(a, b) || Awaited(a, b))
  }

  ghost predicate PairsFit(cf: Config, src: seq<int>) {
    && |src| == |cf.news|
    && forall i :: 0 <= i < |src| && src[i] != -1 ==>
         0 <= src[i] < |cf.orig| && Pair(cf.orig[src[i]].info, cf.news[i])
  }

  /** Whatever could be such a pair by its key is one. */
  ghost predicate KeyedPairsMade(cf: Config, src: seq<int>) {
    && |src| == |cf.news|
    && forall i, j :: 0 <= i < |src| && 0 <= j < |cf.orig| && cf.news[i].key.Some? ==>
         (Pair(cf.orig[j].info, cf.news[i]) ==> src[i] == j)
  }

  /** Without keys, nothing of one kind is left over for a node that was created, placeholders aside. */
  ghost predicate NothingWasted(cf: Config, src: seq<int>) {
    && |src| == |cf.news|
    && forall i, j :: 0 <= i < |src| && 0 <= j < |cf.orig| && src[i] == -1 && j !in src ==>
         (Pair(cf.orig[j].info, cf.news[i]) ==>
            cf.news[i].key.None? && (cf.orig[j].info.isAsyncPlaceholder || cf.news[i].isAsyncPlaceholder))
  }

  lemma SameMeans(a: Info, b: Info)
    ensures SameVnode(a, b) <==> Pair(a, b)
  {
  }

  /** The pairs of a completed call, by what their vnodes are. */
  lemma Pairs(cf: Config, elms: seq<Option<Elm>>, src: seq<int>, dom: seq<Elm>, canMove: bool)
    requires ConfigOk(cf) && Updated(cf, elms, src, dom, canMove)
    ensures PairsFit(cf, src) && KeyedPairsMade(cf, src)
  {
    hide SameVnode, Pair;
    forall i | 0 <= i < |src| && src[i] != -1
      ensures 0 <= src[i] < |cf.orig| && Pair(cf.orig[src[i]].info, cf.news[i])
    {
      SameMeans(cf.orig[src[i]].info, cf.news[i]);
    }
    forall i, j | 0 <= i < |src| && 0 <= j < |cf.orig| && cf.news[i].key.Some? && Pair(cf.orig[j].info, cf.news[i])
      ensures src[i] == j
    {
      SameMeans(cf.orig[j].info, cf.news[i]);
      CounterpartReused(cf, elms, src, dom, canMove, i, j);
    }
  }

  lemma Wasted(cf: Config)
    requires !Fails(cf)
    ensures NothingWasted(cf, Run(cf, Start(cf)).value.src)
  {
    hide SameVnode, Pair, Run;
    var src := Run(cf, Start(cf)).value.src;
    forall i, j | 0 <= i < |src| && 0 <= j < |cf.orig| && src[i] == -1 && j !in src && Pair(cf.orig[j].info, cf.news[i])
      ensures cf.news[i].key.None? && (cf.orig[j].info.isAsyncPlaceholder || cf.news[i].isAsyncPlaceholder)
    {
      SameMeans(cf.orig[j].info, cf.news[i]);
      Maximal(cf, i, j);
    }
  }

  /** With nodes allowed to move, child `i` of the element is the node of new vnode `i`. */
  lemma ChildrenInOrder(cf: Config, elms: seq<Option<Elm>>, src: seq<int>, dom: seq<Elm>)
    requires Updated(cf, elms, src, dom, true)
    ensures |dom| == |cf.news| && forall i :: 0 <= i < |dom| ==> elms[i] == Some(dom[i])
  {
    var xs := seq(|elms|, i requires 0 <= i < |elms| && elms[i].Some? => elms[i].value);
    assert elms == Somes(xs);
    GotSomes(xs);
  }

  /** The end of the call: leftovers on one side or the other. */
  method FinishUp(d: Diff) returns (ghost elms: seq<Option<Elm>>, ghost src: seq<int>)
    requires d.Inv() && (d.oldStartIdx > d.oldEndIdx || d.newStartIdx > d.newEndIdx) && NoneYet(View(d.Now()))
    modifies d, d.newCh, d.parent
    ensures src == old(d.src) && elms == d.ElmsNow() && Updated(d.cf, elms, src, d.parent.children, !d.removeOnly)
  {
    if d.oldStartIdx > d.oldEndIdx {
      d.AddVnodes();
    }
    ghost var s := d.Now();
    RemoveVnodes(d.parent, d.oldCh, d.oldStartIdx, d.oldEndIdx, d.cf, s, !d.removeOnly);
    AllSettled(d.cf, s, d.parent.children, !d.removeOnly);
    elms, src := s.elms, s.src;
  }

  /** One call of `updateChildren` with unique keys. `ok` is false on a run-time TypeError. */
  method UpdateChildren(parent: ParentNode, oldCh: array<Option<Mounted>>, newCh: array<VNode>, removeOnly: bool,
                        ghost cf: Config)
    returns (ok: bool, ghost elms: seq<Option<Elm>>, ghost src: seq<int>)
    requires ConfigOk(cf) && parent.Valid() && cf.firstNew == parent.nextElm && parent.children == Elms(cf.orig)
    requires oldCh.Length == |cf.orig| && forall j :: 0 <= j < |cf.orig| ==> oldCh[j] == Some(cf.orig[j])
    requires newCh.Length == |cf.news| && forall i :: 0 <= i < |cf.news| ==> newCh[i].info == cf.news[i]
    modifies parent, oldCh, newCh
    ensures ok <==> !Fails(cf)
    ensures ok ==> src == Run(cf, Start(cf)).value.src
    ensures !ok ==> UnsafeKeys(cf)
    ensures Leftover(cf) ==> (ok <==> !UnsafeKeys(cf))
    ensures ok ==> Updated(cf, elms, src, parent.children, !removeOnly)
    ensures ok ==> PairsFit(cf, src) && KeyedPairsMade(cf, src) && NothingWasted(cf, src)
    ensures ok ==> |elms| == newCh.Length && forall i :: 0 <= i < |elms| ==> elms[i] == newCh[i].elm
  {
    var d := new Diff(parent, oldCh, newCh, removeOnly, cf);
    ok := d.Walk();
    elms, src := [], [];
    StartInv(cf);
    RunKeeps(cf, Start(cf));
    FailsExactly(cf);
    if ok {
      elms, src := FinishUp(d);
      Pairs(cf, elms, src, parent.children, !removeOnly);
      Wasted(cf);
    }
  }

  /** The names that an object literal answers to. */
  predicate ObjectMember(name: string) {
    || name == "constructor" || name == "hasOwnProperty" || name == "isPrototypeOf" || name == "propertyIsEnumerable"
    || name == "toLocaleString" || name == "toString" || name == "valueOf" || name == "__proto__"
    || name == "__defineGetter__" || name == "__defineSetter__" || name == "__lookupGetter__"
    || name == "__lookupSetter__"
  }

  lemma MemberMeans(name: string)
    ensures IsInherited(name) <==> ObjectMember(name)
  {
    OneOfMeans(INHERITED, name);
  }

  lemma {:induction false} OneOfMeans(names: seq<string>, name: string)
    ensures OneOf(names, name) <==> name in names
  {
    if names != [] {
      OneOfMeans(names[1..], name);
    }
  }

  /**
   * An old list with one keyed vnode, and a new one whose key is the name of an inherited member, such as
   * `constructor`: the lookup goes wrong at once.
   */
  lemma InheritedKeyCrashes(name: string) returns (cf: Config, s: State)
    requires ObjectMember(name)
    ensures |cf.news| == 1 && cf.news[0].key == Some(Key(false, name))
    ensures ConfigOk(cf) && Book(cf, s) && Order(cf, s) == Elms(cf.orig) && Crashes(cf, s)
    ensures View(s) == Start(cf) && Fails(cf)
  {
    var a := Info(Some(Key(false, "a")), Some("div"), false, true, NoAttrs, false, None);
    var b := a.(key := Some(Key(false, name)));
    cf := Config([Mounted(a, 0)], [b], 1);
    s := State(0, 0, 0, 0, [Some(cf.orig[0])], [None], [-1], [-1]);
    MemberMeans(name);
    assert |"a"| == 1 && |name| > 1;
    StartOrder(cf, s);
  }

  predicate NoHoles(vs: seq<Option<Mounted>>) {
    forall j :: 0 <= j < |vs| ==> vs[j].Some?
  }

  lemma StartOrder(cf: Config, s: State)
    requires Shape(cf, s) && s.oldStart == 0 && s.oldEnd == |cf.orig| - 1 && s.newStart == 0
        && s.newEnd == |cf.news| - 1
    requires forall j :: 0 <= j < |cf.orig| ==> s.olds[j] == Some(cf.orig[j])
    ensures Order(cf, s) == Elms(cf.orig)
  {
    assert Live(s, 0, |cf.orig|) == Somes(Elms(cf.orig));
    GotSomes(Elms(cf.orig));
    assert s.elms[..0] == [] && s.elms[|cf.news|..] == [];
  }

  function Somes(xs: seq<Elm>): (r: seq<Option<Elm>>)
    ensures |r| == |xs| && forall i :: 0 <= i < |xs| ==> r[i] == Some(xs[i])
  {
    seq(|xs|, i requires 0 <= i < |xs| => Some(xs[i]))
  }

  lemma {:induction false} GotSomes(xs: seq<Elm>)
    ensures Got(Somes(xs)) == xs
  {
    if xs != [] {
      assert Somes(xs)[1..] == Somes(xs[1..]);
      GotSomes(xs[1..]);
    }
  }
}
