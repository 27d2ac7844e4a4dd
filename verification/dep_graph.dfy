/** Dependency tracking: `Dep` and `Watcher` with its two buffers of dependencies. */
module DepGraph {
  import opened Common

  // ----- lists -----

  lemma {:induction false} CountDistinct<T>(s: seq<T>, x: T)
    requires Distinct(s)
    ensures multiset(s)[x] == if x in s then 1 else 0
  {
    if s != [] {
      assert s == [s[0]] + s[1..];
      DistinctAppend([s[0]], s[1..]);
      CountDistinct(s[1..], x);
    }
  }

  function AddNew<T(==)>(s: seq<T>, x: T): seq<T> {
    if x in s then s else s + [x]
  }

  /** `s` followed by what `t` brings for the first time. */
  function AddAll<T(==)>(s: seq<T>, t: seq<T>): seq<T>
    decreases t
  {
    if t == [] then s else AddAll(AddNew(s, t[0]), t[1..])
  }

  lemma {:induction false} AddAllMembers<T>(s: seq<T>, t: seq<T>)
    ensures forall x :: x in AddAll(s, t) <==> x in s || x in t
    decreases t
  {
    if t != [] {
      AddAllMembers(AddNew(s, t[0]), t[1..]);
      assert forall x :: x in t <==> x == t[0] || x in t[1..];
    }
  }

  lemma {:induction false} AddAllKeeps<T>(s: seq<T>, t: seq<T>)
    requires Distinct(s)
    ensures Distinct(AddAll(s, t)) && forall x :: x in AddAll(s, t) <==> x in s || x in t
    ensures s <= AddAll(s, t)
    decreases t
  {
    AddAllMembers(s, t);
    if t != [] {
      AddAllKeeps(AddNew(s, t[0]), t[1..]);
    }
  }

  lemma {:induction false} AddAllSplit<T>(s: seq<T>, t: seq<T>, u: seq<T>)
    ensures AddAll(s, t + u) == AddAll(AddAll(s, t), u)
    decreases t
  {
    if t == [] {
      assert t + u == u;
    } else {
      assert (t + u)[1..] == t[1..] + u;
      AddAllSplit(AddNew(s, t[0]), t[1..], u);
    }
  }

  /** What is new comes in the order in which it first appears. */
  lemma AddAllInOrder<T>(s: seq<T>, t: seq<T>, i: nat, j: nat) returns (a: nat, b: nat)
    requires Distinct(s) && i < j < |t| && t[j] !in s && t[j] !in t[..j]
    ensures a < b < |AddAll(s, t)| && AddAll(s, t)[a] == t[i] && AddAll(s, t)[b] == t[j]
  {
    var p := AddAll(s, t[..j]);
    AddAllKeeps(s, t[..j]);
    assert t == t[..j] + t[j..];
    AddAllSplit(s, t[..j], t[j..]);
    assert t[..j][i] == t[i] && t[i] in t[..j] && t[i] in p && t[j..][0] == t[j];
    AddAllKeeps(AddNew(p, t[j]), t[j..][1..]);
    a :| 0 <= a < |p| && p[a] == t[i];
    b := |p|;
  }

  // ----- deps and watchers -----

  class Dep {
    const id: nat
    var subs: seq<Watcher>

    constructor (id: nat)
      ensures this.id == id && subs == []
    {
      this.id := id;
      subs := [];
    }

    method AddSub(w: Watcher)
      modifies this`subs
      ensures subs == old(subs) + [w]
    {
      subs := subs + [w];
    }

    method RemoveSub(w: Watcher)
      modifies this`subs
      ensures subs == Without(old(subs), w)
    {
      subs := Without(subs, w);
    }

    /** `notify`: the subscribers to update, copied before any of them runs. */
    method Notify() returns (updated: seq<Watcher>)
      ensures updated == subs
    {
      updated := subs;
    }
  }

  function Ids(ds: seq<Dep>): set<nat> {
    set d | d in ds :: d.id
  }

  class Watcher {
    var active: bool
    var deps: seq<Dep>
    var newDeps: seq<Dep>
    var depIds: set<nat>
    var newDepIds: set<nat>

    constructor ()
      ensures active && deps == newDeps == [] && depIds == newDepIds == {}
    {
      active := true;
      deps, newDeps, depIds, newDepIds := [], [], {}, {};
    }

    method AddDep(d: Dep)
      modifies this`newDeps, this`newDepIds, d`subs
      ensures if d.id in old(newDepIds) then newDeps == old(newDeps) && newDepIds == old(newDepIds)
              else newDeps == old(newDeps) + [d] && newDepIds == old(newDepIds) + {d.id}
      ensures d.subs == if d.id in old(newDepIds) || d.id in depIds then old(d.subs) else old(d.subs) + [this]
    {
      if d.id !in newDepIds {
        newDepIds := newDepIds + {d.id};
        newDeps := newDeps + [d];
        if d.id !in depIds {
          d.AddSub(this);
        }
      }
    }

    method CleanupDeps()
      requires Distinct(deps)
      modifies this`deps, this`newDeps, this`depIds, this`newDepIds, deps`subs
      ensures deps == old(newDeps) && depIds == old(newDepIds) && newDeps == [] && newDepIds == {}
      ensures forall d :: d in old(deps) ==>
        d.subs == if d.id in old(newDepIds) then old(d.subs) else Without(old(d.subs), this)
    {
      var ds, i := deps, |deps|;
      while i > 0
        invariant 0 <= i <= |ds| && newDeps == old(newDeps) && newDepIds == old(newDepIds)
        invariant forall d :: d in ds[..i] ==> d.subs == old(d.subs)
        invariant forall d :: d in ds[i..] ==>
          d.subs == if d.id in newDepIds then old(d.subs) else Without(old(d.subs), this)
      {
        i := i - 1;
        if ds[i].id !in newDepIds {
          ds[i].RemoveSub(this);
        }
      }
      depIds, newDepIds := newDepIds, {};
      deps, newDeps := newDeps, [];
    }

    method Teardown()
      requires Distinct(deps)
      modifies this`active, deps`subs
      ensures !active
      ensures forall d :: d in deps ==> d.subs == if old(active) then Without(old(d.subs), this) else old(d.subs)
    {
      if active {
        var ds, i := deps, |deps|;
        while i > 0
          invariant 0 <= i <= |ds|
          invariant forall d :: d in ds[..i] ==> d.subs == old(d.subs)
          invariant forall d :: d in ds[i..] ==> d.subs == Without(old(d.subs), this)
        {
          i := i - 1;
          ds[i].RemoveSub(this);
        }
        active := false;
      }
    }
  }

  // ----- what user code does while it is tracked -----

  /**
   * `Touch` is `dep.depend()`, `Depend` is `watcher.depend()`, `Eval` is `watcher.get()` with the body of
   * its getter, `Untracked` runs its body under `pushTarget()` without a target.
   */
  datatype Action =
    | Touch(dep: Dep)
    | Depend(watcher: Watcher)
    | Eval(watcher: Watcher, body: seq<Action>)
    | Untracked(body: seq<Action>)
    | Teardown(watcher: Watcher)

  /** For each watcher some of its deps. */
  type Record = map<Watcher, seq<Dep>>

  function Known(m: Record, w: Watcher): seq<Dep> {
    if w in m then m[w] else []
  }

  function Reverse<T>(s: seq<T>): seq<T> {
    if s == [] then [] else Reverse(s[1..]) + [s[0]]
  }

  lemma {:induction false} ReverseMembers<T>(s: seq<T>)
    ensures forall x :: x in Reverse(s) <==> x in s
  {
    if s != [] {
      ReverseMembers(s[1..]);
    }
  }

  /** The two buffers of every watcher: its dependencies, and what it has collected in an evaluation under way. */
  datatype Buffers = Buffers(deps: Record, collected: Record)

  /** What user code does to the buffers, with one pair for each watcher, however its evaluations nest. */
  function Track(actions: seq<Action>, b: Buffers, target: Watcher?): Buffers
    decreases actions
  {
    if actions == [] then b else Track(actions[1..], TrackOne(actions[0], b, target), target)
  }

  function TrackOne(a: Action, b: Buffers, target: Watcher?): Buffers
    decreases a
  {
    match a
    case Touch(d) => Collect(b, target, [d])
    case Depend(w) => Collect(b, target, Reverse(Known(b.deps, w)))
    case Eval(w, body) => Swap(Track(body, b, w), w)
    case Untracked(body) => Track(body, b, null)
    case Teardown(_) => b
  }

  function Collect(b: Buffers, target: Watcher?, ds: seq<Dep>): Buffers {
    if target == null then b
    else
      var t: Watcher := target;
      b.(collected := b.collected[t := AddAll(Known(b.collected, t), ds)])
  }

  function Swap(b: Buffers, w: Watcher): Buffers {
    Buffers(b.deps[w := Known(b.collected, w)], b.collected[w := []])
  }

  // ----- which touches count -----

  /** The deps that `actions` touch on behalf of their target, in order. */
  function Touched(actions: seq<Action>, b: Buffers, target: Watcher?): seq<Dep>
    decreases actions
  {
    if actions == [] then []
    else TouchedOne(actions[0], b) + Touched(actions[1..], TrackOne(actions[0], b, target), target)
  }

  function TouchedOne(a: Action, b: Buffers): seq<Dep> {
    match a
    case Touch(d) => [d]
    case Depend(w) => Reverse(Known(b.deps, w))
    case _ => []
  }

  /** They evaluate `w`, at any depth. */
  predicate Evaluates(actions: seq<Action>, w: Watcher)
    decreases actions
  {
    actions != [] && (EvaluatesOne(actions[0], w) || Evaluates(actions[1..], w))
  }

  predicate EvaluatesOne(a: Action, w: Watcher)
    decreases a
  {
    match a
    case Eval(v, body) => v == w || Evaluates(body, w)
    case Untracked(body) => Evaluates(body, w)
    case _ => false
  }

  /** The new buffer of a watcher that is neither the target nor evaluated stays as it is. */
  lemma {:induction false} OthersStay(actions: seq<Action>, b: Buffers, target: Watcher?, v: Watcher)
    requires v != target && !Evaluates(actions, v)
    ensures Known(Track(actions, b, target).collected, v) == Known(b.collected, v)
    decreases actions
  {
    if actions != [] {
      OthersStayOne(actions[0], b, target, v);
      OthersStay(actions[1..], TrackOne(actions[0], b, target), target, v);
    }
  }

  lemma {:induction false} OthersStayOne(a: Action, b: Buffers, target: Watcher?, v: Watcher)
    requires v != target && !EvaluatesOne(a, v)
    ensures Known(TrackOne(a, b, target).collected, v) == Known(b.collected, v)
    decreases a
  {
    match a
    case Eval(w, body) => OthersStay(body, b, w, v);
    case Untracked(body) => OthersStay(body, b, null, v);
    case _ =>
  }

  /** An evaluation at any depth leaves the new buffer of its watcher empty. */
  lemma {:induction false} Emptied(actions: seq<Action>, b: Buffers, target: Watcher?, v: Watcher)
    requires v != target && Evaluates(actions, v)
    ensures Known(Track(actions, b, target).collected, v) == []
    decreases actions
  {
    var b1 := TrackOne(actions[0], b, target);
    if Evaluates(actions[1..], v) {
      Emptied(actions[1..], b1, target, v);
    } else {
      EmptiedOne(actions[0], b, target, v);
      OthersStay(actions[1..], b1, target, v);
    }
  }

  lemma {:induction false} EmptiedOne(a: Action, b: Buffers, target: Watcher?, v: Watcher)
    requires EvaluatesOne(a, v)
    ensures Known(TrackOne(a, b, target).collected, v) == []
    decreases a
  {
    match a
    case Eval(w, body) =>
      if w != v {
        Emptied(body, b, w, v);
      }
    case Untracked(body) => Emptied(body, b, null, v);
  }

  lemma {:induction false} TargetCollects(actions: seq<Action>, b: Buffers, target: Watcher)
    requires !Evaluates(actions, target)
    ensures Known(Track(actions, b, target).collected, target)
         == AddAll(Known(b.collected, target), Touched(actions, b, target))
    decreases actions
  {
    if actions != [] {
      var b1 := TrackOne(actions[0], b, target);
      match actions[0] {
        case Eval(w, body) => OthersStay(body, b, w, target);
        case Untracked(body) => OthersStay(body, b, null, target);
        case _ =>
      }
      AddAllSplit(Known(b.collected, target), TouchedOne(actions[0], b), Touched(actions[1..], b1, target));
      TargetCollects(actions[1..], b1, target);
    }
  }

  /** The end of the last action that evaluates `w`, or 0. */
  function LastEntry(body: seq<Action>, w: Watcher): (k: nat)
    ensures k <= |body| && !Evaluates(body[k..], w)
    ensures k == 0 <==> !Evaluates(body, w)
    ensures k > 0 ==> EvaluatesOne(body[k - 1], w)
  {
    if body == [] then 0
    else
      var k := LastEntry(body[1..], w);
      assert body[1..][k..] == body[k + 1..];
      if k > 0 || EvaluatesOne(body[0], w) then k + 1
      else assert body[0..] == body; 0
  }

  lemma {:induction false} TrackSplit(actions: seq<Action>, more: seq<Action>, b: Buffers, target: Watcher?)
    ensures Track(actions + more, b, target) == Track(more, Track(actions, b, target), target)
    decreases actions
  {
    if actions == [] {
      assert actions + more == more;
    } else {
      assert (actions + more)[1..] == actions[1..] + more;
      TrackSplit(actions[1..], more, TrackOne(actions[0], b, target), target);
    }
  }

  /**
   * The dependencies of a watcher after any evaluation: what its getter touched since it last evaluated the
   * watcher again, in order and once each. If it never did, what the watcher had collected before comes first;
   * that is nothing unless the evaluation is itself inside another one of that watcher.
   */
  lemma {:induction false} DepsAfter(w: Watcher, body: seq<Action>, b: Buffers, target: Watcher?)
    ensures var k := LastEntry(body, w);
      Known(TrackOne(Eval(w, body), b, target).deps, w)
      == AddAll(if k == 0 then Known(b.collected, w) else [], Touched(body[k..], Track(body[..k], b, w), w))
  {
    var k := LastEntry(body, w);
    assert body == body[..k] + body[k..];
    TrackSplit(body[..k], body[k..], b, w);
    TargetCollects(body[k..], Track(body[..k], b, w), w);
    if k > 0 {
      EmptyAtEntry(w, body[..k], b);
    }
  }

  lemma {:induction false} EmptyAtEntry(w: Watcher, body: seq<Action>, b: Buffers)
    requires body != [] && EvaluatesOne(body[|body| - 1], w)
    ensures Known(Track(body, b, w).collected, w) == []
  {
    var k := |body| - 1;
    assert body == body[..k] + [body[k]];
    TrackSplit(body[..k], [body[k]], b, w);
    EmptiedOne(body[k], Track(body[..k], b, w), w, w);
  }

  lemma {:induction false} TouchedSplit(actions: seq<Action>, more: seq<Action>, b: Buffers, target: Watcher?)
    ensures Touched(actions + more, b, target)
         == Touched(actions, b, target) + Touched(more, Track(actions, b, target), target)
    decreases actions
  {
    if actions == [] {
      assert actions + more == more;
    } else {
      assert (actions + more)[1..] == actions[1..] + more;
      TouchedSplit(actions[1..], more, TrackOne(actions[0], b, target), target);
    }
  }

  lemma Covering<T>(s: seq<T>, t: seq<T>, all: seq<T>)
    requires forall x :: x in all <==> x in t
    ensures (forall x :: x in s + t ==> x in all) <==> forall x :: x in s ==> x in t
  {
    assert forall x :: x in s ==> x in s + t;
  }

  /**
   * When nothing is lost: a watcher depends on all that its getter touched if and only if what the getter touched
   * before it last evaluated the watcher again was touched once more afterwards.
   */
  lemma {:induction false} NothingLost(w: Watcher, body: seq<Action>, b: Buffers, target: Watcher?)
    ensures var k := LastEntry(body, w);
      (forall d :: d in Touched(body, b, w) ==> d in Known(TrackOne(Eval(w, body), b, target).deps, w))
      <==> (forall d :: d in Touched(body[..k], b, w) ==> d in Touched(body[k..], Track(body[..k], b, w), w))
  {
    hide Track, TrackOne, Touched, AddAll, Known;
    var k := LastEntry(body, w);
    var before, after := Touched(body[..k], b, w), Touched(body[k..], Track(body[..k], b, w), w);
    var first := if k == 0 then Known(b.collected, w) else [];
    assert body == body[..k] + body[k..];
    TouchedSplit(body[..k], body[k..], b, w);
    DepsAfter(w, body, b, target);
    AddAllMembers(first, after);
    if k == 0 {
      NothingTouched(b, w);
      assert body[..0] == [] && before == [] && before + after == after;
      assert Touched(body, b, w) == after;
      assert Known(TrackOne(Eval(w, body), b, target).deps, w) == AddAll(first, after);
      assert forall d :: d in Touched(body, b, w) ==> d in AddAll(first, after);
    } else {
      Covering(before, after, AddAll(first, after));
    }
  }

  lemma NothingTouched(b: Buffers, target: Watcher?)
    ensures Touched([], b, target) == []
  {
  }

  /** A getter that touches a dep and then evaluates its own watcher: the dep is lost. */
  lemma ReentryExample(w: Watcher, d: Dep, b: Buffers, target: Watcher?)
    ensures var body := [Touch(d), Eval(w, [])];
      d in Touched(body, b, w) && Known(TrackOne(Eval(w, body), b, target).deps, w) == []
  {
    var body := [Touch(d), Eval(w, [])];
    var b1 := Collect(b, w, [d]);
    assert body[1..] == [Eval(w, [])] && [Eval(w, [])][1..] == [];
    assert Track([Eval(w, [])], b1, w) == Track([], TrackOne(Eval(w, []), b1, w), w) == Swap(b1, w);
    assert Track(body, b, w) == Track([Eval(w, [])], b1, w);
    assert Touched(body, b, w)[0] == d;
  }

  // ----- without re-entry -----

  /**
   * What tracking is for: the deps that `actions` touch on behalf of the current target, in order, and the
   * dependencies of every watcher afterwards, which are the deps its last evaluation touched.
   */
  function Tracked(actions: seq<Action>, m: Record): (seq<Dep>, Record)
    decreases actions
  {
    if actions == [] then ([], m)
    else
      var (t, m1) := TrackedOne(actions[0], m);
      var (u, m2) := Tracked(actions[1..], m1);
      (t + u, m2)
  }

  function TrackedOne(a: Action, m: Record): (seq<Dep>, Record)
    decreases a
  {
    match a
    case Touch(d) => ([d], m)
    case Depend(w) => (Reverse(Known(m, w)), m)
    case Eval(w, body) => var (t, m1) := Tracked(body, m); ([], m1[w := AddAll([], t)])
    case Untracked(body) => ([], Tracked(body, m).1)
    case Teardown(w) => ([], m)
  }

  /** No watcher is evaluated while it is being evaluated; `open` are those being evaluated. */
  predicate NoReentry(actions: seq<Action>, open: set<Watcher>)
    decreases actions
  {
    actions != [] ==> NoReentryOne(actions[0], open) && NoReentry(actions[1..], open)
  }

  predicate NoReentryOne(a: Action, open: set<Watcher>)
    decreases a
  {
    match a
    case Eval(w, body) => w !in open && NoReentry(body, open + {w})
    case Untracked(body) => NoReentry(body, open)
    case _ => true
  }

  lemma {:induction false} OpenNotEvaluated(actions: seq<Action>, open: set<Watcher>, w: Watcher)
    requires NoReentry(actions, open) && w in open
    ensures !Evaluates(actions, w)
    decreases actions
  {
    if actions != [] {
      match actions[0] {
        case Eval(v, body) => OpenNotEvaluated(body, open + {v}, w);
        case Untracked(body) => OpenNotEvaluated(body, open, w);
        case _ =>
      }
      OpenNotEvaluated(actions[1..], open, w);
    }
  }

  /** Only watchers in `open` have collected anything. */
  predicate Idle(b: Buffers, open: set<Watcher>) {
    forall w :: w in b.collected && w !in open ==> b.collected[w] == []
  }

  lemma {:induction false} StaysIdle(actions: seq<Action>, b: Buffers, target: Watcher?, open: set<Watcher>)
    requires Idle(b, open) && (target != null ==> target in open)
    ensures Idle(Track(actions, b, target), open)
    decreases actions
  {
    if actions != [] {
      StaysIdleOne(actions[0], b, target, open);
      StaysIdle(actions[1..], TrackOne(actions[0], b, target), target, open);
    }
  }

  lemma {:induction false} StaysIdleOne(a: Action, b: Buffers, target: Watcher?, open: set<Watcher>)
    requires Idle(b, open) && (target != null ==> target in open)
    ensures Idle(TrackOne(a, b, target), open)
    decreases a
  {
    match a
    case Eval(w, body) => StaysIdle(body, b, w, open + {w});
    case Untracked(body) => StaysIdle(body, b, null, open);
    case _ =>
  }

  /** Then the buffers come to what tracking is for. */
  lemma {:induction false} WithoutReentry(actions: seq<Action>, b: Buffers, target: Watcher?, open: set<Watcher>)
    requires Idle(b, open) && NoReentry(actions, open) && (target != null ==> target in open)
    ensures Track(actions, b, target).deps == Tracked(actions, b.deps).1
    ensures Touched(actions, b, target) == Tracked(actions, b.deps).0
    decreases actions
  {
    if actions != [] {
      WithoutReentryOne(actions[0], b, target, open);
      StaysIdleOne(actions[0], b, target, open);
      WithoutReentry(actions[1..], TrackOne(actions[0], b, target), target, open);
    }
  }

  lemma {:induction false} WithoutReentryOne(a: Action, b: Buffers, target: Watcher?, open: set<Watcher>)
    requires Idle(b, open) && NoReentryOne(a, open) && (target != null ==> target in open)
    ensures TrackOne(a, b, target).deps == TrackedOne(a, b.deps).1
    ensures TouchedOne(a, b) == TrackedOne(a, b.deps).0
    decreases a
  {
    match a
    case Eval(w, body) =>
      WithoutReentry(body, b, w, open + {w});
      OpenNotEvaluated(body, open + {w}, w);
      TargetCollects(body, b, w);
    case Untracked(body) => WithoutReentry(body, b, null, open);
    case _ =>
  }

  predicate Within(actions: seq<Action>, watchers: set<Watcher>, deps: set<Dep>)
    decreases actions
  {
    actions != [] ==> WithinOne(actions[0], watchers, deps) && Within(actions[1..], watchers, deps)
  }

  predicate WithinOne(a: Action, watchers: set<Watcher>, deps: set<Dep>)
    decreases a
  {
    match a
    case Touch(d) => d in deps
    case Depend(w) => w in watchers
    case Eval(w, body) => w in watchers && Within(body, watchers, deps)
    case Untracked(body) => Within(body, watchers, deps)
    case Teardown(w) => w in watchers
  }

  // ----- the invariant -----

  ghost predicate WatcherOk(w: Watcher, deps: set<Dep>)
    reads w
  {
    && Distinct(w.deps) && Distinct(w.newDeps)
    && (forall d :: d in w.deps ==> d in deps) && (forall d :: d in w.newDeps ==> d in deps)
    && w.depIds == Ids(w.deps) && w.newDepIds == Ids(w.newDeps)
  }

  ghost predicate DepOk(d: Dep, watchers: set<Watcher>)
    reads d
  {
    Distinct(d.subs) && forall w :: w in d.subs ==> w in watchers
  }

  /** A watcher subscribes only to deps in its buffers, and an active one to all of them. */
  ghost predicate Linked(w: Watcher, d: Dep)
    reads w, d
  {
    && (w in d.subs ==> d in w.deps || d in w.newDeps)
    && (w.active && (d in w.deps || d in w.newDeps) ==> w in d.subs)
  }

  ghost predicate OwnIds(deps: set<Dep>) {
    forall d, e :: d in deps && e in deps && d.id == e.id ==> d == e
  }

  class Runtime {
    ghost const watchers: set<Watcher>
    ghost const deps: set<Dep>
    /** `Dep.target` and its stack. */
    var target: Watcher?
    var targetStack: seq<Watcher?>

    constructor (ghost watchers: set<Watcher>, ghost deps: set<Dep>)
      requires OwnIds(deps) && forall d :: d in deps ==> d.subs == []
      requires forall w :: w in watchers ==> w.deps == w.newDeps == [] && w.depIds == w.newDepIds == {}
      ensures this.watchers == watchers && this.deps == deps && targetStack == [] && Consistent() && Quiet()
    {
      this.watchers, this.deps := watchers, deps;
      target, targetStack := null, [];
    }

    ghost predicate Consistent()
      reads this, watchers, deps
    {
      && OwnIds(deps)
      && (target == if targetStack == [] then null else targetStack[|targetStack| - 1])
      && (forall w: Watcher :: w in targetStack ==> w in watchers)
      && (forall w :: w in watchers ==> WatcherOk(w, deps))
      && (forall d :: d in deps ==> DepOk(d, watchers))
      && (forall w, d :: w in watchers && d in deps ==> Linked(w, d))
    }

    /** The watchers being evaluated. */
    ghost function Open(): set<Watcher>
      reads this, watchers
    {
      set w | w in watchers && w in targetStack
    }

    /** The new buffers of all others are empty. */
    ghost predicate Quiet()
      reads this, watchers
    {
      forall w :: w in watchers && w !in targetStack ==> w.newDeps == []
    }

    ghost function Deps(): Record
      reads this, watchers
    {
      map w | w in watchers :: w.deps
    }

    ghost function State(): Buffers
      reads this, watchers
    {
      Buffers(Deps(), map w | w in watchers :: w.newDeps)
    }

    lemma StateIs(b: Buffers)
      requires b.deps.Keys == b.collected.Keys == watchers
      requires forall w :: w in watchers ==> b.deps[w] == w.deps && b.collected[w] == w.newDeps
      ensures State() == b
    {
      assert Deps() == b.deps;
      assert State().collected == b.collected;
    }

    method PushTarget(w: Watcher?)
      requires Consistent() && (w != null ==> w in watchers)
      modifies this
      ensures Consistent() && target == w && targetStack == old(targetStack) + [w]
      ensures State() == old(State()) && (old(Quiet()) ==> Quiet())
    {
      targetStack := targetStack + [w];
      target := w;
    }

    method PopTarget()
      requires Consistent() && targetStack != []
      modifies this
      ensures Consistent() && targetStack == old(targetStack)[..|old(targetStack)| - 1]
      ensures State() == old(State())
    {
      targetStack := targetStack[..|targetStack| - 1];
      target := if targetStack == [] then null else targetStack[|targetStack| - 1];
    }

    /** `dep.depend()`. */
    method Touch(d: Dep)
      requires Consistent() && Quiet() && d in deps
      modifies watchers`newDeps, watchers`newDepIds, deps`subs
      ensures Consistent() && Quiet()
      ensures target != null ==> target.newDeps == AddNew(old(target.newDeps), d)
      ensures forall w :: w in watchers && w != target ==> w.newDeps == old(w.newDeps)
      ensures State() == Collect(old(State()), target, [d])
    {
      assert target in targetStack || target == null;
      ghost var b := Collect(State(), target, [d]);
      AddToTarget(d);
      if target != null {
        assert AddAll(old(target.newDeps), [d]) == AddAll(AddNew(old(target.newDeps), d), []);
      }
      StateIs(b);
    }

    method AddToTarget(d: Dep)
      requires Consistent() && Quiet() && d in deps
      modifies watchers`newDeps, watchers`newDepIds, deps`subs
      ensures Consistent() && Quiet()
      ensures target != null ==> target.newDeps == AddNew(old(target.newDeps), d)
      ensures forall w :: w in watchers && w != target ==> w.newDeps == old(w.newDeps)
    {
      if target != null {
        var t: Watcher := target;
        assert t in watchers && WatcherOk(t, deps) && Linked(t, d) && DepOk(d, watchers);
        t.AddDep(d);
        forall e | e in deps
          ensures DepOk(e, watchers)
        {
          assert old(DepOk(e, watchers));
        }
        forall w, e | w in watchers && e in deps
          ensures Linked(w, e)
        {
          assert old(Linked(w, e));
        }
      }
    }

    /** `watcher.depend()`. */
    method Depend(w: Watcher)
      requires Consistent() && Quiet() && w in watchers
      modifies watchers`newDeps, watchers`newDepIds, deps`subs
      ensures Consistent() && Quiet()
      ensures target != null ==> target.newDeps == AddAll(old(target.newDeps), Reverse(w.deps))
      ensures target != null ==> forall d :: d in target.newDeps <==> d in old(target.newDeps) || d in w.deps
      ensures forall v :: v in watchers && v != target ==> v.newDeps == old(v.newDeps)
      ensures State() == Collect(old(State()), target, Reverse(w.deps))
    {
      assert target in targetStack || target == null;
      ghost var b := Collect(State(), target, Reverse(w.deps));
      AddEach(w);
      ReverseMembers(w.deps);
      if target != null {
        AddAllMembers(old(target.newDeps), Reverse(w.deps));
      }
      StateIs(b);
    }

    method AddEach(w: Watcher)
      requires Consistent() && Quiet() && w in watchers
      modifies watchers`newDeps, watchers`newDepIds, deps`subs
      ensures Consistent() && Quiet()
      ensures target != null ==> target.newDeps == AddAll(old(target.newDeps), Reverse(w.deps))
      ensures forall v :: v in watchers && v != target ==> v.newDeps == old(v.newDeps)
    {
      hide Linked, DepOk, OwnIds;
      var i := |w.deps|;
      while i > 0
        invariant 0 <= i <= |w.deps| && Consistent() && Quiet()
        invariant target != null ==> target.newDeps == AddAll(old(target.newDeps), Reverse(w.deps[i..]))
        invariant forall v :: v in watchers && v != target ==> v.newDeps == old(v.newDeps)
      {
        i := i - 1;
        assert WatcherOk(w, deps) && w.deps[i] in w.deps;
        if target != null {
          AddAllSplit(old(target.newDeps), Reverse(w.deps[i + 1..]), [w.deps[i]]);
        }
        assert w.deps[i..][1..] == w.deps[i + 1..];
        AddToTarget(w.deps[i]);
      }
      assert w.deps[0..] == w.deps;
    }

    /** `cleanupDeps`. */
    method Cleanup(w: Watcher)
      requires Consistent() && w in watchers
      modifies w`deps, w`newDeps, w`depIds, w`newDepIds, deps`subs
      ensures Consistent() && w.deps == old(w.newDeps) && w.newDeps == []
      ensures State() == Swap(old(State()), w)
    {
      ghost var b := Swap(State(), w);
      SwapBuffers(w);
      StateIs(b);
    }

    method SwapBuffers(w: Watcher)
      requires Consistent() && w in watchers
      modifies w`deps, w`newDeps, w`depIds, w`newDepIds, deps`subs
      ensures Consistent() && w.deps == old(w.newDeps) && w.newDeps == []
    {
      assert WatcherOk(w, deps);
      ghost var before := w.deps;
      forall d | d in deps
        ensures DepOk(d, watchers) && Linked(w, d) && (d.id in w.newDepIds <==> d in w.newDeps)
      {
      }
      w.CleanupDeps();
      forall d | d in deps
        ensures DepOk(d, watchers)
      {
        assert old(DepOk(d, watchers));
        WithoutMembers(old(d.subs), w);
        assert d.subs == old(d.subs) || d.subs == Without(old(d.subs), w);
      }
      forall v, d | v in watchers && d in deps
        ensures Linked(v, d)
      {
        assert old(Linked(v, d));
        WithoutMembers(old(d.subs), w);
      }
    }

    /**
     * `teardown`; it leaves no subscription exactly if the watcher has collected nothing new since its last evaluation.
     */
    method Teardown(w: Watcher)
      requires Consistent() && w in watchers
      modifies w`active, deps`subs
      ensures Consistent() && !w.active && State() == old(State())
      ensures old(w.active) ==> forall d :: d in deps ==> (w in d.subs <==> d in w.newDeps && d !in w.deps)
    {
      assert WatcherOk(w, deps);
      assert forall d :: d in deps ==> DepOk(d, watchers) && Linked(w, d);
      w.Teardown();
      forall d | d in deps
        ensures DepOk(d, watchers)
      {
        assert old(DepOk(d, watchers));
        WithoutMembers(old(d.subs), w);
        assert d.subs == old(d.subs) || d.subs == Without(old(d.subs), w);
      }
      forall v, d | v in watchers && d in deps
        ensures Linked(v, d)
      {
        assert old(Linked(v, d));
        WithoutMembers(old(d.subs), w);
      }
      if old(w.active) {
        forall d | d in deps
          ensures w in d.subs <==> d in w.newDeps && d !in w.deps
        {
          assert old(Linked(w, d));
          assert old(DepOk(d, watchers));
          WithoutMembers(old(d.subs), w);
        }
      }
    }

    /** So at any moment a teardown is complete if and only if the ids say that nothing new was collected. */
    lemma TeardownComplete(w: Watcher)
      requires Consistent() && w in watchers
      requires forall d :: d in deps ==> (w in d.subs <==> d in w.newDeps && d !in w.deps)
      ensures (forall d :: d in deps ==> w !in d.subs) <==> w.newDepIds <= w.depIds
    {
      assert WatcherOk(w, deps);
      forall d | d in deps
        ensures (d.id in w.newDepIds <==> d in w.newDeps) && (d.id in w.depIds <==> d in w.deps)
      {
      }
      if w.newDepIds <= w.depIds {
        assert forall d :: d in deps && d in w.newDeps ==> d.id in w.depIds;
      }
    }

    /** Between evaluations the subscribers of a dep are, once each, the active watchers that depend on it. */
    lemma BetweenEvaluations(w: Watcher, d: Dep)
      requires Consistent() && Quiet() && w in watchers && w.active && w !in targetStack && d in deps
      ensures multiset(d.subs)[w] == if d in w.deps then 1 else 0
      ensures w.newDeps == [] && w.newDepIds == {} && w.depIds == Ids(w.deps)
    {
      assert WatcherOk(w, deps) && DepOk(d, watchers) && Linked(w, d);
      CountDistinct(d.subs, w);
    }

    /** `notify` reaches exactly the watchers that depend on the dep, once each. */
    method Notify(d: Dep) returns (updated: seq<Watcher>)
      requires Consistent() && Quiet() && targetStack == [] && d in deps
      ensures Distinct(updated)
      ensures forall w :: w in watchers && w.active ==> (w in updated <==> d in w.deps)
    {
      updated := d.Notify();
      assert DepOk(d, watchers);
      assert forall w :: w in watchers ==> Linked(w, d);
    }

    /** `get`, with the body of the getter; without re-entry the dependencies are what tracking is for. */
    method Get(w: Watcher, body: seq<Action>)
      requires Consistent() && Quiet() && w in watchers && Within(body, watchers, deps)
      modifies this, watchers, deps`subs
      ensures Consistent() && Quiet() && target == old(target) && targetStack == old(targetStack)
      ensures State() == TrackOne(Eval(w, body), old(State()), target)
      ensures w !in old(Open()) && NoReentry(body, old(Open()) + {w}) ==>
        && Deps() == Tracked(body, old(Deps())).1[w := AddAll([], Tracked(body, old(Deps())).0)]
        && forall v :: v in old(Open()) ==> v.newDeps == old(v.newDeps)
      decreases body, 3
    {
      if w !in Open() && NoReentry(body, Open() + {w}) {
        Alone(w, body);
      }
      ghost var b := TrackOne(Eval(w, body), State(), target);
      Evaluate(w, body);
      assert Deps() == b.deps;
      assert forall v :: v in watchers ==> Known(b.collected, v) == v.newDeps;
    }

    method Evaluate(w: Watcher, body: seq<Action>)
      requires Consistent() && Quiet() && w in watchers && Within(body, watchers, deps)
      modifies this, watchers, deps`subs
      ensures Consistent() && Quiet() && target == old(target) && targetStack == old(targetStack)
      ensures State() == TrackOne(Eval(w, body), old(State()), target)
      decreases body, 2
    {
      CollectAll(w, body);
      Cleanup(w);
    }

    lemma Alone(w: Watcher, body: seq<Action>)
      requires Consistent() && Quiet() && w in watchers && w !in Open() && NoReentry(body, Open() + {w})
      ensures TrackOne(Eval(w, body), State(), target).deps
           == Tracked(body, Deps()).1[w := AddAll([], Tracked(body, Deps()).0)]
      ensures forall v :: v in Open() ==> Known(TrackOne(Eval(w, body), State(), target).collected, v) == v.newDeps
    {
      WithoutReentryOne(Eval(w, body), State(), target, Open());
      forall v | v in Open()
        ensures Known(TrackOne(Eval(w, body), State(), target).collected, v) == v.newDeps
      {
        OpenNotEvaluated(body, Open() + {w}, v);
        OthersStay(body, State(), w, v);
      }
    }

    /** Its first half, before the buffers are swapped. */
    method CollectAll(w: Watcher, body: seq<Action>)
      requires Consistent() && Quiet() && w in watchers && Within(body, watchers, deps)
      modifies this, watchers, deps`subs
      ensures Consistent() && target == old(target) && targetStack == old(targetStack)
      ensures forall v :: v in watchers && v !in targetStack && v != w ==> v.newDeps == []
      ensures State() == Track(body, old(State()), w)
      decreases body, 1
    {
      PushTarget(w);
      Exec(body);
      PopTarget();
    }

    /** `pushTarget()` and `popTarget()` around code that is not tracked. */
    method Untracked(body: seq<Action>)
      requires Consistent() && Quiet() && Within(body, watchers, deps)
      modifies this, watchers, deps`subs
      ensures Consistent() && Quiet() && target == old(target) && targetStack == old(targetStack)
      ensures State() == Track(body, old(State()), null)
      decreases body, 1
    {
      PushTarget(null);
      Exec(body);
      PopTarget();
    }

    /** Any user code, of any nesting, under the current target. */
    method Exec(actions: seq<Action>)
      requires Consistent() && Quiet() && Within(actions, watchers, deps)
      modifies this, watchers, deps`subs
      ensures Consistent() && Quiet() && target == old(target) && targetStack == old(targetStack)
      ensures State() == Track(actions, old(State()), target)
      decreases actions, 0
    {
      if actions != [] {
        ExecOne(actions[0]);
        Exec(actions[1..]);
      }
    }

    method ExecOne(a: Action)
      requires Consistent() && Quiet() && WithinOne(a, watchers, deps)
      modifies this, watchers, deps`subs
      ensures Consistent() && Quiet() && target == old(target) && targetStack == old(targetStack)
      ensures State() == TrackOne(a, old(State()), target)
      decreases a, 0
    {
      match a
      case Touch(d) => Touch(d);
      case Depend(w) => Depend(w);
      case Eval(w, body) => Get(w, body);
      case Untracked(body) => Untracked(body);
      case Teardown(w) => Teardown(w);
    }
  }

  /** A watcher that is being evaluated for the first time and has just touched a dep. */
  method UnderWay() returns (w: Watcher, d: Dep, runtime: Runtime)
    ensures fresh(w) && fresh(d) && fresh(runtime) && runtime.watchers == {w} && runtime.deps == {d}
    ensures runtime.Consistent() && runtime.target == w && w.active && w.deps == [] && w.newDeps == [d]
  {
    hide Runtime.Consistent, Runtime.Quiet, Runtime.State;
    d := new Dep(0);
    w := new Watcher();
    runtime := new Runtime({w}, {d});
    runtime.PushTarget(w);
    runtime.Touch(d);
  }

  /** Torn down now, it stays subscribed to that dep. */
  method TeardownExample() returns (w: Watcher, d: Dep, runtime: Runtime)
    ensures runtime.Consistent() && runtime.target == w && w in runtime.watchers && d in runtime.deps
    ensures !w.active && w in d.subs && !(w.newDepIds <= w.depIds)
  {
    w, d, runtime := UnderWay();
    runtime.Teardown(w);
    runtime.TeardownComplete(w);
  }
}
