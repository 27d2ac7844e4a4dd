/** Which old vnode `updateChildren` reuses for which new one, as a run on indices alone. */
module VdomMatch {
  import opened Common
  import opened VdomDom
  import opened VdomSame
  import opened VdomState

  /**
   * The two windows, the old indices that have been pulled out of theirs, and the old index behind each new one, which
   * is -1 where a node is created.
   */
  datatype Plan = Plan(oldStart: int, oldEnd: int, newStart: int, newEnd: int, gone: set<int>, src: seq<int>)

  predicate PlanOk(cf: Config, p: Plan) {
    && 0 <= p.oldStart <= p.oldEnd + 1 <= |cf.orig| && 0 <= p.newStart <= p.newEnd + 1 <= |cf.news|
    && |p.src| == |cf.news|
  }

  predicate Working(cf: Config, p: Plan) {
    PlanOk(cf, p) && p.oldStart <= p.oldEnd && p.newStart <= p.newEnd
  }

  /** Old vnode `j` can still be reused. */
  predicate Spare(p: Plan, j: int) {
    p.oldStart <= j <= p.oldEnd && j !in p.gone
  }

  /** The first old vnode from `j` on that is the same as new vnode `i`; a keyed one has at most one. */
  function Counterpart(cf: Config, i: int, j: nat): (r: Option<nat>)
    requires 0 <= i < |cf.news| && j <= |cf.orig|
    ensures r.Some? ==> j <= r.value < |cf.orig| && Same(cf, r.value, i)
    ensures r.None? ==> forall k :: j <= k < |cf.orig| ==> !Same(cf, k, i)
    decreases |cf.orig| - j
  {
    if j == |cf.orig| then None else if Same(cf, j, i) then Some(j) else Counterpart(cf, i, j + 1)
  }

  /** The first that can still be reused and that the new head is the same as, from `j` to before the old tail. */
  function FirstLike(cf: Config, p: Plan, j: nat): (r: Option<nat>)
    requires Working(cf, p) && p.oldStart <= j <= p.oldEnd
    ensures r.Some? ==>
      j <= r.value < p.oldEnd && Spare(p, r.value) && SameVnode(cf.news[p.newStart], cf.orig[r.value].info)
    ensures r.None? ==>
      forall k :: j <= k < p.oldEnd && Spare(p, k) ==> !SameVnode(cf.news[p.newStart], cf.orig[k].info)
    ensures r.Some? ==>
      forall k :: j <= k < r.value && Spare(p, k) ==> !SameVnode(cf.news[p.newStart], cf.orig[k].info)
    decreases p.oldEnd - j
  {
    if j == p.oldEnd then None
    else if Spare(p, j) && SameVnode(cf.news[p.newStart], cf.orig[j].info) then Some(j)
    else FirstLike(cf, p, j + 1)
  }

  /** The old vnode that the new head reuses when nothing at the ends of the windows matches. */
  function Candidate(cf: Config, p: Plan): (r: Option<nat>)
    requires Working(cf, p)
    ensures r.Some? ==> r.value < |cf.orig| && Same(cf, r.value, p.newStart)
  {
    var r := if cf.news[p.newStart].key.Some? then Counterpart(cf, p.newStart, 0) else FirstLike(cf, p, p.oldStart);
    if r.Some? && Same(cf, r.value, p.newStart) then r else None
  }

  function Reuse(p: Plan, j: int, i: int): Plan
    requires 0 <= i < |p.src|
  {
    p.(src := p.src[i := j])
  }

  /** One iteration of the loop; none if the key lookup it reaches gives an inherited member. */
  ghost function Step(cf: Config, p: Plan): (r: Option<Plan>)
    requires Working(cf, p)
    ensures r.Some? ==> PlanOk(cf, r.value)
  {
    if p.oldStart in p.gone then Some(p.(oldStart := p.oldStart + 1))
    else if p.oldEnd in p.gone then Some(p.(oldEnd := p.oldEnd - 1))
    else if Same(cf, p.oldStart, p.newStart) then
      Some(Reuse(p, p.oldStart, p.newStart).(oldStart := p.oldStart + 1, newStart := p.newStart + 1))
    else if Same(cf, p.oldEnd, p.newEnd) then
      Some(Reuse(p, p.oldEnd, p.newEnd).(oldEnd := p.oldEnd - 1, newEnd := p.newEnd - 1))
    else if Same(cf, p.oldStart, p.newEnd) then
      Some(Reuse(p, p.oldStart, p.newEnd).(oldStart := p.oldStart + 1, newEnd := p.newEnd - 1))
    else if Same(cf, p.oldEnd, p.newStart) then
      Some(Reuse(p, p.oldEnd, p.newStart).(oldEnd := p.oldEnd - 1, newStart := p.newStart + 1))
    else Search(cf, p)
  }

  ghost function Search(cf: Config, p: Plan): Option<Plan>
    requires Working(cf, p)
  {
    if !SafeKey(cf, p.newStart) then None
    else
      match Candidate(cf, p)
      case Some(j) => Some(Reuse(p, j, p.newStart).(gone := p.gone + {j as int}, newStart := p.newStart + 1))
      case None => Some(Reuse(p, -1, p.newStart).(newStart := p.newStart + 1))
  }

  /** The whole loop. */
  ghost function Run(cf: Config, p: Plan): (r: Option<Plan>)
    requires PlanOk(cf, p)
    ensures r.Some? ==> PlanOk(cf, r.value) && !Working(cf, r.value)
    decreases (p.oldEnd - p.oldStart) + (p.newEnd - p.newStart) + 2
  {
    if !Working(cf, p) then Some(p)
    else
      match Step(cf, p)
      case None => None
      case Some(p1) => Run(cf, p1)
  }

  function Start(cf: Config): Plan {
    Plan(0, |cf.orig| - 1, 0, |cf.news| - 1, {}, seq(|cf.news|, _ => -1))
  }

  /** `updateChildren` fails on these lists. */
  ghost predicate Fails(cf: Config) {
    Run(cf, Start(cf)).None?
  }

  /** The plan that a state of the loop stands for. */
  function View(s: State): Plan {
    Plan(s.oldStart, s.oldEnd, s.newStart, s.newEnd, Holes(s.olds), s.src)
  }

  function Holes(olds: seq<Option<Mounted>>): set<int> {
    set j | 0 <= j < |olds| && olds[j].None?
  }

  // ----- what every run keeps -----

  /** New vnode `i` has not been dealt with. */
  predicate Waits(p: Plan, i: int) {
    p.newStart <= i <= p.newEnd
  }

  predicate NoneYet(p: Plan) {
    forall i :: 0 <= i < |p.src| && Waits(p, i) ==> p.src[i] == -1
  }

  /**
   * One of the two stands for an asynchronous component that has not arrived; between others `sameVnode` is symmetric.
   */
  predicate Placeholder(cf: Config, j: int, i: int)
    requires 0 <= j < |cf.orig| && 0 <= i < |cf.news|
  {
    cf.orig[j].info.isAsyncPlaceholder || cf.news[i].isAsyncPlaceholder
  }

  /** A new vnode that has been dealt with reuses an old one that it is the same as, or its key is safe. */
  ghost predicate Settled(cf: Config, p: Plan, i: int)
    requires PlanOk(cf, p) && 0 <= i < |cf.news|
  {
    if p.src[i] == -1 then SafeKey(cf, i) else 0 <= p.src[i] < |cf.orig| && Same(cf, p.src[i], i)
  }

  /** No old vnode that is left could have been reused for a created one, but for unkeyed placeholders. */
  ghost predicate Exhausted(cf: Config, p: Plan, i: int)
    requires PlanOk(cf, p) && 0 <= i < |cf.news|
  {
    p.src[i] == -1 ==>
      forall j :: 0 <= j < |cf.orig| && Spare(p, j) && Same(cf, j, i) ==> cf.news[i].key.None? && Placeholder(cf, j, i)
  }

  ghost predicate PlanInv(cf: Config, p: Plan) {
    && PlanOk(cf, p)
    && NoneYet(p)
    && (forall i :: 0 <= i < |cf.news| && !Waits(p, i) ==> Settled(cf, p, i))
    && (forall j :: 0 <= j < |cf.orig| && !Spare(p, j) ==> j in p.src)
    && (forall i :: 0 <= i < |cf.news| && !Waits(p, i) ==> Exhausted(cf, p, i))
  }

  lemma SrcSet(src: seq<int>, i: nat, j: int)
    requires i < |src| && src[i] == -1
    ensures forall x :: x >= 0 && x in src ==> x in src[i := j]
    ensures j in src[i := j]
  {
    assert src[i := j][i] == j;
    forall x | x >= 0 && x in src
      ensures x in src[i := j]
    {
      var k :| 0 <= k < |src| && src[k] == x;
      assert src[i := j][k] == x;
    }
  }

  /** `p1` reuses old vnode `j` for new vnode `i`. */
  lemma ReuseKeeps(cf: Config, p: Plan, p1: Plan, j: int, i: int)
    requires PlanInv(cf, p) && PlanOk(cf, p1) && 0 <= j < |cf.orig| && 0 <= i < |cf.news| && Waits(p, i)
    requires Same(cf, j, i) && p1.src == p.src[i := j]
    requires forall k :: 0 <= k < |cf.orig| && k != j && Spare(p, k) ==> Spare(p1, k)
    requires forall k :: 0 <= k < |cf.orig| && Spare(p1, k) ==> Spare(p, k)
    requires forall k :: 0 <= k < |cf.news| ==> (Waits(p1, k) <==> Waits(p, k) && k != i)
    ensures PlanInv(cf, p1)
  {
    SrcSet(p.src, i, j);
    forall k | 0 <= k < |cf.news| && !Waits(p1, k)
      ensures Settled(cf, p1, k) && Exhausted(cf, p1, k)
    {
      assert k != i ==> Settled(cf, p, k) && Exhausted(cf, p, k);
    }
  }

  /** `p1` has created a node for the new head. */
  lemma PlanCreates(cf: Config, p: Plan)
    requires PlanInv(cf, p) && Working(cf, p) && SafeKey(cf, p.newStart) && Candidate(cf, p).None?
    requires !Same(cf, p.oldEnd, p.newStart)
    ensures PlanInv(cf, Reuse(p, -1, p.newStart).(newStart := p.newStart + 1))
  {
    hide Candidate, SafeKey, Same, Placeholder;
    var i := p.newStart;
    var p1 := Reuse(p, -1, i).(newStart := i + 1);
    assert p1.src == p.src;
    NoneLeft(cf, p);
    forall k | 0 <= k < |cf.news| && !Waits(p1, k)
      ensures Settled(cf, p1, k) && Exhausted(cf, p1, k)
    {
      assert k != i ==> Settled(cf, p, k) && Exhausted(cf, p, k);
    }
  }

  lemma NoneLeft(cf: Config, p: Plan)
    requires Working(cf, p) && Candidate(cf, p).None? && !Same(cf, p.oldEnd, p.newStart)
    ensures forall j :: 0 <= j < |cf.orig| && Spare(p, j) && Same(cf, j, p.newStart) ==>
      cf.news[p.newStart].key.None? && Placeholder(cf, j, p.newStart)
  {
    forall j | 0 <= j < |cf.orig| && !Placeholder(cf, j, p.newStart)
      ensures Same(cf, j, p.newStart) <==> SameVnode(cf.news[p.newStart], cf.orig[j].info)
    {
    }
  }

  /** A hole at an end of the old window is passed over. */
  lemma PlanSkips(cf: Config, p: Plan, p1: Plan)
    requires PlanInv(cf, p) && PlanOk(cf, p1) && p1 == p.(oldStart := p1.oldStart, oldEnd := p1.oldEnd)
    requires forall j :: 0 <= j < |cf.orig| ==> (Spare(p1, j) <==> Spare(p, j))
    ensures PlanInv(cf, p1)
  {
    forall i | 0 <= i < |cf.news| && !Waits(p1, i)
      ensures Settled(cf, p1, i) && Exhausted(cf, p1, i)
    {
      assert Settled(cf, p, i) && Exhausted(cf, p, i);
    }
  }

  /** An old vnode at one end of its window goes into a new one at one end of its own. */
  lemma EndKeeps(cf: Config, p: Plan, p1: Plan, j: int, i: int)
    requires PlanInv(cf, p) && Working(cf, p) && j in {p.oldStart, p.oldEnd} && i in {p.newStart, p.newEnd}
    requires Same(cf, j, i) && p1.src == p.src[i := j] && p1.gone == p.gone
    requires if j == p.oldStart && p1.oldStart == j + 1 then p1.oldEnd == p.oldEnd
             else j == p.oldEnd && p1.oldStart == p.oldStart && p1.oldEnd == j - 1
    requires if i == p.newStart && p1.newStart == i + 1 then p1.newEnd == p.newEnd
             else i == p.newEnd && p1.newStart == p.newStart && p1.newEnd == i - 1
    ensures PlanInv(cf, p1)
  {
    ReuseKeeps(cf, p, p1, j, i);
  }

  lemma SearchKeeps(cf: Config, p: Plan)
    requires PlanInv(cf, p) && Working(cf, p) && Search(cf, p).Some? && !Same(cf, p.oldEnd, p.newStart)
    ensures PlanInv(cf, Search(cf, p).value)
  {
    hide SafeKey, Settled, Exhausted;
    if Candidate(cf, p).Some? {
      ReuseKeeps(cf, p, Search(cf, p).value, Candidate(cf, p).value, p.newStart);
    } else {
      PlanCreates(cf, p);
    }
  }

  lemma StepKeeps(cf: Config, p: Plan)
    requires PlanInv(cf, p) && Working(cf, p) && Step(cf, p).Some?
    ensures PlanInv(cf, Step(cf, p).value)
  {
    hide PlanInv, Search, Same;
    var p1 := Step(cf, p).value;
    if p.oldStart in p.gone || p.oldEnd in p.gone {
      PlanSkips(cf, p, p1);
    } else if Same(cf, p.oldStart, p.newStart) {
      EndKeeps(cf, p, p1, p.oldStart, p.newStart);
    } else if Same(cf, p.oldEnd, p.newEnd) {
      EndKeeps(cf, p, p1, p.oldEnd, p.newEnd);
    } else if Same(cf, p.oldStart, p.newEnd) {
      EndKeeps(cf, p, p1, p.oldStart, p.newEnd);
    } else if Same(cf, p.oldEnd, p.newStart) {
      EndKeeps(cf, p, p1, p.oldEnd, p.newStart);
    } else {
      SearchKeeps(cf, p);
    }
  }

  lemma {:induction false} RunKeeps(cf: Config, p: Plan)
    requires PlanInv(cf, p)
    ensures Run(cf, p).Some? ==> PlanInv(cf, Run(cf, p).value)
    ensures Run(cf, p).None? ==> UnsafeKeys(cf)
    decreases (p.oldEnd - p.oldStart) + (p.newEnd - p.newStart) + 2
  {
    if Working(cf, p) && Step(cf, p).Some? {
      StepKeeps(cf, p);
      RunKeeps(cf, Step(cf, p).value);
    }
  }

  lemma StartInv(cf: Config)
    ensures PlanInv(cf, Start(cf))
  {
  }

  // ----- when a call fails -----

  /** Some key lookup could go wrong. */
  ghost predicate UnsafeKeys(cf: Config) {
    exists i :: 0 <= i < |cf.news| && !SafeKey(cf, i)
  }

  /**
   * Some old vnode is the same as no new one, so the old window never closes; and nothing is reused under the key
   * `__proto__`, which no table holds.
   */
  ghost predicate Leftover(cf: Config) {
    && (exists j :: 0 <= j < |cf.orig| && NeverReused(cf, j))
    && forall j, i :: 0 <= j < |cf.orig| && 0 <= i < |cf.news| && Same(cf, j, i) && cf.news[i].key.Some? ==>
         !IsProto(cf.news[i].key.value.name)
  }

  ghost predicate NeverReused(cf: Config, j: int)
    requires 0 <= j < |cf.orig|
  {
    forall i :: 0 <= i < |cf.news| ==> !Same(cf, j, i)
  }

  /** A call fails only over an unsafe key, and with an old vnode to spare over any of them. */
  lemma FailsExactly(cf: Config)
    ensures Fails(cf) ==> UnsafeKeys(cf)
    ensures Leftover(cf) ==> (Fails(cf) <==> UnsafeKeys(cf))
  {
    StartInv(cf);
    RunKeeps(cf, Start(cf));
    if Leftover(cf) && !Fails(cf) {
      var p := Run(cf, Start(cf)).value;
      var j :| 0 <= j < |cf.orig| && NeverReused(cf, j);
      NeverReusedLeft(cf, p, j);
      forall i | 0 <= i < |cf.news|
        ensures SafeKey(cf, i)
      {
        assert Settled(cf, p, i);
      }
    }
  }

  lemma NeverReusedLeft(cf: Config, p: Plan, j: int)
    requires PlanInv(cf, p) && 0 <= j < |cf.orig| && NeverReused(cf, j)
    ensures Spare(p, j)
  {
    forall i | 0 <= i < |p.src|
      ensures p.src[i] != j
    {
      assert !Waits(p, i) ==> Settled(cf, p, i);
    }
  }

  /**
   * Nothing is created in vain: no old vnode that is left over is the same as a new one for which a node was created,
   * unless neither has a key and one of them is a placeholder.
   */
  lemma Maximal(cf: Config, i: int, j: int)
    requires !Fails(cf) && 0 <= i < |cf.news| && 0 <= j < |cf.orig|
    requires var src := Run(cf, Start(cf)).value.src; src[i] == -1 && j !in src
    ensures Same(cf, j, i) ==> cf.news[i].key.None? && Placeholder(cf, j, i)
  {
    StartInv(cf);
    RunKeeps(cf, Start(cf));
    var p := Run(cf, Start(cf)).value;
    assert Spare(p, j);
    assert Exhausted(cf, p, i);
  }

  /** A placeholder in the middle of the old list is missed: the search asks the other way round. */
  lemma PlaceholderMissed() returns (cf: Config)
    ensures ConfigOk(cf) && |cf.orig| == 3 && |cf.news| == 1
    ensures !Fails(cf) && Same(cf, 1, 0) && Run(cf, Start(cf)).value.src == [-1]
  {
    var a := Info(None, Some("p"), false, true, NoAttrs, false, None);
    var b := Info(None, None, true, false, NoAttrs, true, Some(Factory(0, false)));
    var c := Info(None, Some("div"), false, true, NoAttrs, false, Some(Factory(0, false)));
    cf := Config([Mounted(a, 0), Mounted(b, 1), Mounted(a, 2)], [c], 3);
    var p := Start(cf);
    assert FirstLike(cf, p, 2).None? && FirstLike(cf, p, 1).None? && FirstLike(cf, p, 0).None?;
    var p1 := p.(src := [-1], newStart := 1);
    assert p.src == [-1] == p.src[0 := -1];
    assert Step(cf, p) == Search(cf, p) == Some(p1);
    assert Run(cf, p1) == Some(p1);
  }
}
