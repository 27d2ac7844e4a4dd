/**
 * Feature dependency resolution of a core instance: `RequireFeatures`, `AddFeature` and the check at the end of `New`.
 */
module Features {
  import opened Common

  /** The interface types that features are asked for by. */
  type Kind = nat

  /** A feature: the type it declares with `Type()`, and the types it can be assigned to. */
  datatype Feature = Feature(id: nat, kind: Kind, assignable: set<Kind>)

  /** It implements the type that it declares. */
  predicate Honest(f: Feature) {
    f.kind in f.assignable
  }

  /**
   * A callback with the types of its parameters. What it does is `body`: it runs while no lock is held, and may
   * require and add features itself. `err` is the error it returns.
   */
  datatype Request = Request(params: seq<Kind>, optional: bool, body: seq<Action>, err: Option<string>)

  datatype Action = Require(request: Request) | Add(feature: Feature)

  /** A Go slice, which is nil until something is appended. */
  datatype Slice<T> = Nil | Made(items: seq<T>)

  function Items<T>(s: Slice<T>): seq<T> {
    if s.Nil? then [] else s.items
  }

  function Append<T>(s: Slice<T>, x: T): Slice<T> {
    Made(Items(s) + [x])
  }

  // ----- finding features -----

  /** `getFeature`: the first feature that declares the type. */
  function GetFeature(fs: seq<Feature>, t: Kind): Option<Feature> {
    if fs == [] then None else if fs[0].kind == t then Some(fs[0]) else GetFeature(fs[1..], t)
  }

  /** The types that have been registered. */
  function Kinds(fs: seq<Feature>): set<Kind> {
    if fs == [] then {} else Kinds(fs[1..]) + {fs[0].kind}
  }

  lemma {:induction false} Found(fs: seq<Feature>, t: Kind)
    ensures GetFeature(fs, t).Some? <==> t in Kinds(fs)
  {
    if fs != [] {
      Found(fs[1..], t);
    }
  }

  lemma {:induction false} KindsAdd(fs: seq<Feature>, f: Feature)
    ensures Kinds(fs + [f]) == Kinds(fs) + {f.kind}
  {
    if fs == [] {
      assert fs + [f] == [f];
    } else {
      assert (fs + [f])[1..] == fs[1..] + [f];
      KindsAdd(fs[1..], f);
    }
  }

  /** All the types that a callback asks for are there. */
  predicate Ready(kinds: set<Kind>, params: seq<Kind>) {
    forall k :: 0 <= k < |params| ==> params[k] in kinds
  }

  /** What a callback is given for a parameter: the first feature that can be assigned to it. */
  function FirstAssignable(fs: seq<Feature>, t: Kind): Option<Feature> {
    if fs == [] then None else if t in fs[0].assignable then Some(fs[0]) else FirstAssignable(fs[1..], t)
  }

  lemma {:induction false} AssignableFits(fs: seq<Feature>, t: Kind)
    requires FirstAssignable(fs, t).Some?
    ensures FirstAssignable(fs, t).value in fs && t in FirstAssignable(fs, t).value.assignable
  {
    if t !in fs[0].assignable {
      AssignableFits(fs[1..], t);
    }
  }

  predicate AllHonest(fs: seq<Feature>) {
    forall f :: f in fs ==> Honest(f)
  }

  function IndexOf(fs: seq<Feature>, t: Kind): (i: nat)
    requires GetFeature(fs, t).Some?
    ensures i < |fs| && fs[i] == GetFeature(fs, t).value && fs[i].kind == t
    ensures forall j :: 0 <= j < i ==> fs[j].kind != t
  {
    if fs[0].kind == t then 0 else 1 + IndexOf(fs[1..], t)
  }

  /**
   * A callback is given the feature that was found by its declared type if and only if that feature can be
   * assigned to the parameter and no feature before it, declared as something else, can be as well.
   */
  lemma {:induction false} GivenWhatWasFound(fs: seq<Feature>, t: Kind)
    requires GetFeature(fs, t).Some?
    ensures Honest(GetFeature(fs, t).value) ==> FirstAssignable(fs, t).Some?
    ensures FirstAssignable(fs, t) == GetFeature(fs, t)
      <==> Honest(GetFeature(fs, t).value) && forall j :: 0 <= j < IndexOf(fs, t) ==> t !in fs[j].assignable
    decreases fs
  {
    if FirstAssignable(fs, t).Some? {
      AssignableFits(fs, t);
    }
    if fs[0].kind != t {
      GivenWhatWasFound(fs[1..], t);
      assert forall j :: 0 <= j < IndexOf(fs[1..], t) ==> fs[1..][j] == fs[j + 1];
      if t in fs[0].assignable {
        assert fs[IndexOf(fs, t)] == GetFeature(fs, t).value;
      } else {
        assert forall j :: 1 <= j < IndexOf(fs, t) ==> fs[j] == fs[1..][j - 1];
      }
    }
  }

  /** Two features that implement what they declare, and a parameter that is given the other one. */
  lemma GivenAnother(fs: seq<Feature>)
    requires fs == [Feature(0, 1, {1, 2}), Feature(1, 2, {2})]
    ensures AllHonest(fs) && GetFeature(fs, 2) == Some(fs[1]) && FirstAssignable(fs, 2) == Some(fs[0])
    ensures FirstAssignable(fs, 2) != GetFeature(fs, 2)
  {
    assert fs[1..][0] == fs[1];
  }

  /** Some parameter can be given no feature: `callbackResolution` panics. */
  predicate Missing(fs: seq<Feature>, params: seq<Kind>) {
    exists k :: 0 <= k < |params| && FirstAssignable(fs, params[k]).None?
  }

  /** Every declared type is implemented by some feature. */
  predicate Covered(fs: seq<Feature>) {
    forall t :: t in Kinds(fs) ==> FirstAssignable(fs, t).Some?
  }

  /** Callbacks that are ready are always given all their arguments if and only if that is so. */
  lemma SafeExactly(fs: seq<Feature>)
    ensures Covered(fs) <==> forall params :: Ready(Kinds(fs), params) ==> !Missing(fs, params)
  {
    if !Covered(fs) {
      var t :| t in Kinds(fs) && FirstAssignable(fs, t).None?;
      assert Ready(Kinds(fs), [t]) && FirstAssignable(fs, [t][0]).None?;
      assert Missing(fs, [t]);
    }
  }

  lemma HonestCovered(fs: seq<Feature>)
    requires AllHonest(fs)
    ensures Covered(fs)
  {
    forall t | t in Kinds(fs)
      ensures FirstAssignable(fs, t).Some?
    {
      Found(fs, t);
      assert fs[IndexOf(fs, t)] == GetFeature(fs, t).value;
      GivenWhatWasFound(fs, t);
    }
  }

  // ----- what happened so far -----

  /** A request was made, a feature of a type was registered, or the callback that was next on its way was called. */
  datatype Step = Asked(request: Request) | Registered(kind: Kind) | Called

  /** `inFlight` are the requests that are ready but not yet called, the next one first. */
  datatype Ledger = Ledger(kinds: set<Kind>, required: seq<Request>, optional: seq<Request>,
                           inFlight: seq<Request>, invoked: seq<Request>, requested: seq<Request>)

  function ReadyOnes(kinds: set<Kind>, rs: seq<Request>): seq<Request> {
    if rs == [] then []
    else ReadyOnes(kinds, rs[..|rs| - 1]) + (if Ready(kinds, rs[|rs| - 1].params) then [rs[|rs| - 1]] else [])
  }

  function OtherOnes(kinds: set<Kind>, rs: seq<Request>): seq<Request> {
    if rs == [] then []
    else OtherOnes(kinds, rs[..|rs| - 1]) + (if Ready(kinds, rs[|rs| - 1].params) then [] else [rs[|rs| - 1]])
  }

  /** What becomes ready: first the required requests, then the optional ones. */
  function Released(kinds: set<Kind>, required: seq<Request>, optional: seq<Request>): seq<Request> {
    ReadyOnes(kinds, required) + ReadyOnes(kinds, optional)
  }

  function AfterAsked(l: Ledger, r: Request): Ledger {
    var l1 := l.(requested := l.requested + [r]);
    if Ready(l.kinds, r.params) then l1.(inFlight := [r] + l.inFlight)
    else if r.optional then l1.(optional := l.optional + [r])
    else l1.(required := l.required + [r])
  }

  function AfterRegistered(l: Ledger, t: Kind): Ledger {
    var kinds := l.kinds + {t};
    l.(kinds := kinds, required := OtherOnes(kinds, l.required), optional := OtherOnes(kinds, l.optional),
       inFlight := Released(kinds, l.required, l.optional) + l.inFlight)
  }

  function AfterCalled(l: Ledger): Ledger {
    if l.inFlight == [] then l else l.(inFlight := l.inFlight[1..], invoked := l.invoked + [l.inFlight[0]])
  }

  function Apply(l: Ledger, s: Step): Ledger {
    match s
    case Asked(r) => AfterAsked(l, r)
    case Registered(t) => AfterRegistered(l, t)
    case Called => AfterCalled(l)
  }

  function Replay(h: seq<Step>): Ledger {
    if h == [] then Ledger({}, [], [], [], [], []) else Apply(Replay(h[..|h| - 1]), h[|h| - 1])
  }

  lemma ReplaySnoc(h: seq<Step>, s: Step)
    ensures Replay(h + [s]) == Apply(Replay(h), s)
  {
    assert (h + [s])[..|h|] == h;
  }

  // ----- what holds of every history -----

  function Count(rs: seq<Request>, r: Request): nat {
    if rs == [] then 0 else Count(rs[..|rs| - 1], r) + (if rs[|rs| - 1] == r then 1 else 0)
  }

  lemma {:induction false} CountSplit(rs: seq<Request>, us: seq<Request>, r: Request)
    ensures Count(rs + us, r) == Count(rs, r) + Count(us, r)
    decreases us
  {
    if us == [] {
      assert rs + us == rs;
    } else {
      assert (rs + us)[..|rs + us| - 1] == rs + us[..|us| - 1];
      CountSplit(rs, us[..|us| - 1], r);
    }
  }

  lemma CountSnoc(rs: seq<Request>, q: Request, r: Request)
    ensures Count(rs + [q], r) == Count(rs, r) + if q == r then 1 else 0
  {
    assert (rs + [q])[..|rs|] == rs;
  }

  lemma {:induction false} CountSorted(kinds: set<Kind>, rs: seq<Request>, r: Request)
    ensures Count(ReadyOnes(kinds, rs), r) + Count(OtherOnes(kinds, rs), r) == Count(rs, r)
  {
    if rs != [] {
      var front, last := rs[..|rs| - 1], rs[|rs| - 1];
      CountSorted(kinds, front, r);
      if Ready(kinds, last.params) {
        CountSnoc(ReadyOnes(kinds, front), last, r);
        assert OtherOnes(kinds, front) + [] == OtherOnes(kinds, front);
      } else {
        CountSnoc(OtherOnes(kinds, front), last, r);
        assert ReadyOnes(kinds, front) + [] == ReadyOnes(kinds, front);
      }
    }
  }

  /** The requests of a ledger that it still accounts for. */
  function Tally(l: Ledger, r: Request): nat {
    Count(l.required, r) + Count(l.optional, r) + Count(l.inFlight, r) + Count(l.invoked, r)
  }

  /** Every request made is pending, on its way or called, and so exactly as often as it was made. */
  lemma {:induction false} Conserved(h: seq<Step>, r: Request)
    ensures Tally(Replay(h), r) == Count(Replay(h).requested, r)
  {
    if h != [] {
      var l, s := Replay(h[..|h| - 1]), h[|h| - 1];
      Conserved(h[..|h| - 1], r);
      match s
      case Asked(q) => ConservedAsked(l, q, r);
      case Registered(t) => ConservedRegistered(l, t, r);
      case Called => ConservedCalled(l, r);
    }
  }

  lemma ConservedAsked(l: Ledger, q: Request, r: Request)
    requires Tally(l, r) == Count(l.requested, r)
    ensures Tally(AfterAsked(l, q), r) == Count(AfterAsked(l, q).requested, r)
  {
    CountSnoc(l.requested, q, r);
    if Ready(l.kinds, q.params) {
      CountSnoc([], q, r);
      CountSplit([] + [q], l.inFlight, r);
      assert [] + [q] == [q];
    } else if q.optional {
      CountSnoc(l.optional, q, r);
    } else {
      CountSnoc(l.required, q, r);
    }
  }

  lemma ConservedCalled(l: Ledger, r: Request)
    ensures Tally(AfterCalled(l), r) == Tally(l, r)
  {
    if l.inFlight != [] {
      CountSplit([l.inFlight[0]], l.inFlight[1..], r);
      assert [l.inFlight[0]] + l.inFlight[1..] == l.inFlight;
      CountSplit(l.invoked, [l.inFlight[0]], r);
    }
  }

  lemma ConservedRegistered(l: Ledger, t: Kind, r: Request)
    ensures Tally(AfterRegistered(l, t), r) == Tally(l, r)
  {
    var kinds := l.kinds + {t};
    CountSorted(kinds, l.required, r);
    CountSorted(kinds, l.optional, r);
    CountSplit(ReadyOnes(kinds, l.required), ReadyOnes(kinds, l.optional), r);
    CountSplit(Released(kinds, l.required, l.optional), l.inFlight, r);
  }

  lemma {:induction false} CountMeansIn(rs: seq<Request>, r: Request)
    ensures Count(rs, r) > 0 <==> r in rs
  {
    if rs != [] {
      CountMeansIn(rs[..|rs| - 1], r);
      assert rs == rs[..|rs| - 1] + [rs[|rs| - 1]];
    }
  }

  /** Exactly the pending requests miss a feature; each list holds its own kind of request. */
  predicate Sorted(l: Ledger) {
    && (forall r :: r in l.required ==> !Ready(l.kinds, r.params) && !r.optional)
    && (forall r :: r in l.optional ==> !Ready(l.kinds, r.params) && r.optional)
    && (forall r :: r in l.inFlight ==> Ready(l.kinds, r.params))
    && (forall r :: r in l.invoked ==> Ready(l.kinds, r.params))
  }

  lemma {:induction false} SortedMembers(kinds: set<Kind>, rs: seq<Request>)
    ensures forall r :: r in ReadyOnes(kinds, rs) ==> r in rs && Ready(kinds, r.params)
    ensures forall r :: r in OtherOnes(kinds, rs) ==> r in rs && !Ready(kinds, r.params)
  {
    if rs != [] {
      SortedMembers(kinds, rs[..|rs| - 1]);
    }
  }

  lemma {:induction false} AlwaysSorted(h: seq<Step>)
    ensures Sorted(Replay(h))
  {
    if h != [] {
      var l, s := Replay(h[..|h| - 1]), h[|h| - 1];
      AlwaysSorted(h[..|h| - 1]);
      if s.Registered? {
        SortedMembers(l.kinds + {s.kind}, l.required);
        SortedMembers(l.kinds + {s.kind}, l.optional);
      }
    }
  }

  /** What a feature releases has its types now, and no optional request comes before a required one. */
  lemma RequiredFirst(h: seq<Step>, t: Kind)
    ensures var l := Replay(h);
      var kinds := l.kinds + {t};
      var rs := Released(kinds, l.required, l.optional);
      && (forall r :: r in rs ==> (r in l.required || r in l.optional) && Ready(kinds, r.params))
      && forall a, b :: 0 <= a < b < |rs| && rs[a].optional ==> rs[b].optional
  {
    var l := Replay(h);
    var kinds := l.kinds + {t};
    AlwaysSorted(h);
    SortedMembers(kinds, l.required);
    SortedMembers(kinds, l.optional);
    var first, second := ReadyOnes(kinds, l.required), ReadyOnes(kinds, l.optional);
    assert forall i :: 0 <= i < |first| ==> first[i] in first;
    assert forall i :: 0 <= i < |second| ==> second[i] in second;
  }

  /**
   * Once nothing is on its way, a request has been called as often as it was made if its features are there, and
   * is pending as often otherwise: this depends on the requests and the types alone, not on their order.
   */
  lemma Settled(h: seq<Step>, r: Request)
    requires Replay(h).inFlight == []
    ensures var l := Replay(h);
      && Count(l.invoked, r) == (if Ready(l.kinds, r.params) then Count(l.requested, r) else 0)
      && Count(l.required, r) == (if Ready(l.kinds, r.params) || r.optional then 0 else Count(l.requested, r))
      && Count(l.optional, r) == (if Ready(l.kinds, r.params) || !r.optional then 0 else Count(l.requested, r))
  {
    var l := Replay(h);
    Conserved(h, r);
    AlwaysSorted(h);
    CountMeansIn(l.required, r);
    CountMeansIn(l.optional, r);
    CountMeansIn(l.invoked, r);
  }

  /** No required request is pending if and only if every one of them has its features. */
  lemma NonePending(h: seq<Step>)
    requires Replay(h).inFlight == []
    ensures var l := Replay(h);
      l.required == [] <==> forall r :: r in l.requested && !r.optional ==> Ready(l.kinds, r.params)
  {
    var l := Replay(h);
    forall r: Request
      ensures r in l.required <==> r in l.requested && !r.optional && !Ready(l.kinds, r.params)
    {
      Settled(h, r);
      CountMeansIn(l.required, r);
      CountMeansIn(l.requested, r);
    }
    if l.required != [] {
      assert l.required[0] in l.required;
    }
  }

  lemma OrderIndependent(h: seq<Step>, g: seq<Step>, r: Request)
    requires Replay(h).inFlight == [] && Replay(g).inFlight == []
    requires Replay(h).kinds == Replay(g).kinds && Count(Replay(h).requested, r) == Count(Replay(g).requested, r)
    ensures Count(Replay(h).invoked, r) == Count(Replay(g).invoked, r)
    ensures Count(Replay(h).required, r) == Count(Replay(g).required, r)
    ensures Count(Replay(h).optional, r) == Count(Replay(g).optional, r)
  {
    Settled(h, r);
    Settled(g, r);
  }

  // ----- how much is left to do -----

  function Weight(rs: seq<Request>): nat {
    if rs == [] then 0 else Weight(rs[..|rs| - 1]) + RequestWeight(rs[|rs| - 1])
  }

  function BodyWeight(body: seq<Action>): nat
    decreases body
  {
    if body == [] then 0 else ActionWeight(body[0]) + BodyWeight(body[1..])
  }

  function ActionWeight(a: Action): nat
    decreases a
  {
    match a
    case Require(r) => RequestWeight(r)
    case Add(_) => 0
  }

  function RequestWeight(r: Request): nat
    decreases r
  {
    1 + BodyWeight(r.body)
  }

  lemma WeightSnoc(rs: seq<Request>, r: Request)
    ensures Weight(rs + [r]) == Weight(rs) + RequestWeight(r)
  {
    assert (rs + [r])[..|rs|] == rs;
  }

  lemma {:induction false} WeightSplit(rs: seq<Request>, us: seq<Request>)
    ensures Weight(rs + us) == Weight(rs) + Weight(us)
    decreases us
  {
    if us == [] {
      assert rs + us == rs;
    } else {
      assert (rs + us)[..|rs + us| - 1] == rs + us[..|us| - 1];
      WeightSplit(rs, us[..|us| - 1]);
    }
  }

  lemma {:induction false} WeightSorted(kinds: set<Kind>, rs: seq<Request>)
    ensures Weight(ReadyOnes(kinds, rs)) + Weight(OtherOnes(kinds, rs)) == Weight(rs)
  {
    if rs != [] {
      var front, last := rs[..|rs| - 1], rs[|rs| - 1];
      WeightSorted(kinds, front);
      if Ready(kinds, last.params) {
        WeightSnoc(ReadyOnes(kinds, front), last);
        assert OtherOnes(kinds, front) + [] == OtherOnes(kinds, front);
      } else {
        WeightSnoc(OtherOnes(kinds, front), last);
        assert ReadyOnes(kinds, front) + [] == ReadyOnes(kinds, front);
      }
    }
  }

  /** What the pending requests can still bring about. */
  function Left(l: Ledger): nat {
    Weight(l.required) + Weight(l.optional)
  }

  lemma LeftAfterAsked(l: Ledger, r: Request)
    ensures Left(AfterAsked(l, r)) == Left(l) + if Ready(l.kinds, r.params) then 0 else RequestWeight(r)
  {
    WeightSnoc(l.required, r);
    WeightSnoc(l.optional, r);
  }

  lemma LeftAfterRegistered(l: Ledger, t: Kind)
    ensures var kinds := l.kinds + {t};
      Left(AfterRegistered(l, t)) + Weight(Released(kinds, l.required, l.optional)) == Left(l)
  {
    var kinds := l.kinds + {t};
    WeightSorted(kinds, l.required);
    WeightSorted(kinds, l.optional);
    WeightSplit(ReadyOnes(kinds, l.required), ReadyOnes(kinds, l.optional));
  }

  // ----- what a list of actions does, nested callbacks included -----

  /** The step that an action takes first. */
  function FirstStep(a: Action): Step {
    match a
    case Require(r) => Asked(r)
    case Add(f) => Registered(f.kind)
  }

  /** How often a list of actions takes a step itself. */
  function Listed(body: seq<Action>, s: Step): nat {
    if body == [] then 0 else (if FirstStep(body[0]) == s then 1 else 0) + Listed(body[1..], s)
  }

  /** How often the callbacks of these requests take a step themselves. */
  function Nested(rs: seq<Request>, s: Step): nat {
    if rs == [] then 0 else Nested(rs[..|rs| - 1], s) + Listed(rs[|rs| - 1].body, s)
  }

  function Taken(h: seq<Step>, s: Step): nat {
    if h == [] then 0 else Taken(h[..|h| - 1], s) + (if h[|h| - 1] == s then 1 else 0)
  }

  /** How often the callbacks that were called have yet to take a step. */
  function Due(h: seq<Step>, s: Step): int {
    Nested(Replay(h).invoked, s) - Taken(h, s)
  }

  predicate DueLess(h: seq<Step>, g: seq<Step>, body: seq<Action>, s: Step) {
    && Due(g, s) == Due(h, s) - Listed(body, s)
    && forall k :: |h| <= k <= |g| ==> Due(g[..k], s) >= Due(h, s) - Listed(body, s)
  }

  /**
   * From `h` to `g` the actions of `body` were taken, and all those of the callbacks that were called in between;
   * and no step was taken before an action of `body` or of such a callback brought it about.
   */
  ghost predicate Performs(h: seq<Step>, g: seq<Step>, body: seq<Action>) {
    h <= g && forall s: Step :: !s.Called? ==> DueLess(h, g, body, s)
  }

  lemma {:induction false} ListedSplit(a: seq<Action>, b: seq<Action>, s: Step)
    ensures Listed(a + b, s) == Listed(a, s) + Listed(b, s)
  {
    if a == [] {
      assert a + b == b;
    } else {
      assert (a + b)[1..] == a[1..] + b;
      ListedSplit(a[1..], b, s);
    }
  }

  lemma PerformsNothing(h: seq<Step>)
    ensures Performs(h, h, [])
  {
    assert h[..|h|] == h;
  }

  lemma PerformsThen(h: seq<Step>, f: seq<Step>, g: seq<Step>, a: seq<Action>, b: seq<Action>)
    requires Performs(h, f, a) && Performs(f, g, b)
    ensures Performs(h, g, a + b)
  {
    hide Due, Listed;
    forall s: Step | !s.Called?
      ensures DueLess(h, g, a + b, s)
    {
      ListedSplit(a, b, s);
      assert DueLess(h, f, a, s) && DueLess(f, g, b, s);
      forall k | |h| <= k <= |g|
        ensures Due(g[..k], s) >= Due(h, s) - Listed(a + b, s)
      {
        if k <= |f| {
          assert g[..k] == f[..k];
        }
      }
    }
  }

  lemma PerformsAlso(h: seq<Step>, f: seq<Step>, g: seq<Step>, body: seq<Action>)
    requires Performs(h, f, body) && Performs(f, g, [])
    ensures Performs(h, g, body)
  {
    PerformsThen(h, f, g, body, []);
    assert body + [] == body;
  }

  lemma DueFirst(h: seq<Step>, a: Action, s: Step)
    requires !s.Called?
    ensures Due(h + [FirstStep(a)], s) == Due(h, s) - Listed([a], s)
  {
    hide Nested;
    ReplaySnoc(h, FirstStep(a));
    assert (h + [FirstStep(a)])[..|h|] == h && [a][1..] == [];
  }

  lemma PerformsFirst(h: seq<Step>, a: Action)
    ensures Performs(h, h + [FirstStep(a)], [a])
  {
    hide Due, Listed;
    var g := h + [FirstStep(a)];
    assert g[..|h|] == h && g[..|g|] == g;
    forall s: Step | !s.Called?
      ensures DueLess(h, g, [a], s)
    {
      DueFirst(h, a, s);
    }
  }

  lemma DueCalled(h: seq<Step>, s: Step)
    requires Replay(h).inFlight != [] && !s.Called?
    ensures Due(h + [Called], s) == Due(h, s) + Listed(Replay(h).inFlight[0].body, s)
  {
    hide Listed, Replay;
    var l := Replay(h);
    ReplaySnoc(h, Called);
    assert (h + [Called])[..|h|] == h;
    assert (l.invoked + [l.inFlight[0]])[..|l.invoked|] == l.invoked;
  }

  lemma PerformsCalled(h: seq<Step>, g: seq<Step>)
    requires Replay(h).inFlight != [] && Performs(h + [Called], g, Replay(h).inFlight[0].body)
    ensures Performs(h, g, [])
  {
    hide Due, Replay;
    forall s: Step | !s.Called?
      ensures DueLess(h, g, [], s)
    {
      assert DueLess(h + [Called], g, Replay(h).inFlight[0].body, s);
      DueCalled(h, s);
      assert g[..|h|] == h;
    }
  }

  // ----- the instance -----

  predicate HonestBody(body: seq<Action>)
    decreases body
  {
    body != [] ==> HonestAction(body[0]) && HonestBody(body[1..])
  }

  predicate HonestAction(a: Action)
    decreases a
  {
    match a
    case Require(r) => HonestRequest(r)
    case Add(f) => Honest(f)
  }

  predicate HonestRequest(r: Request)
    decreases r
  {
    HonestBody(r.body)
  }

  predicate HonestSteps(h: seq<Step>) {
    h != [] ==> HonestSteps(h[..|h| - 1]) && (h[|h| - 1].Asked? ==> HonestRequest(h[|h| - 1].request))
  }

  lemma HonestSnoc(h: seq<Step>, s: Step)
    ensures HonestSteps(h + [s]) <==> HonestSteps(h) && (s.Asked? ==> HonestRequest(s.request))
  {
    assert (h + [s])[..|h|] == h;
  }

  lemma {:induction false} AlwaysHonest(h: seq<Step>)
    requires HonestSteps(h)
    ensures var l := Replay(h); forall r :: r in l.required || r in l.optional || r in l.inFlight ==> HonestRequest(r)
  {
    if h != [] {
      var l, s := Replay(h[..|h| - 1]), h[|h| - 1];
      AlwaysHonest(h[..|h| - 1]);
      if s.Registered? {
        SortedMembers(l.kinds + {s.kind}, l.required);
        SortedMembers(l.kinds + {s.kind}, l.optional);
      }
    }
  }

  lemma NextReady(h: seq<Step>)
    requires Replay(h).inFlight != []
    ensures Ready(Replay(h).kinds, Replay(h).inFlight[0].params)
    ensures HonestSteps(h) ==> HonestRequest(Replay(h).inFlight[0])
  {
    AlwaysSorted(h);
    if HonestSteps(h) {
      AlwaysHonest(h);
    }
  }

  function LastError(rs: seq<Request>): Option<string> {
    if rs == [] then None else rs[|rs| - 1].err
  }

  /** The fields of an instance for a ledger; the required list is nil exactly if it is empty. */
  predicate Matches(l: Ledger, fs: seq<Feature>, pending: Slice<Request>, pendingOptional: Slice<Request>) {
    && l.kinds == Kinds(fs)
    && l.required == Items(pending) && l.optional == Items(pendingOptional)
    && (pending.Nil? <==> Items(pending) == [])
  }

  lemma RegisteredMatches(l: Ledger, fs: seq<Feature>, f: Feature, was: Slice<Request>, wasOptional: Slice<Request>,
                          pending: Slice<Request>, pendingOptional: Slice<Request>)
    requires Matches(l, fs, was, wasOptional)
    requires var kinds := Kinds(fs + [f]);
      Items(pending) == OtherOnes(kinds, Items(was)) && Items(pendingOptional) == OtherOnes(kinds, Items(wasOptional))
    requires pending.Nil? <==> Items(pending) == []
    ensures var after, ready := AfterRegistered(l, f.kind), Released(Kinds(fs + [f]), Items(was), Items(wasOptional));
      && Matches(after, fs + [f], pending, pendingOptional)
      && after.inFlight == ready + l.inFlight && Left(after) + Weight(ready) == Left(l)
  {
    KindsAdd(fs, f);
    LeftAfterRegistered(l, f.kind);
  }

  class Instance {
    var features: seq<Feature>
    var pendingResolutions: Slice<Request>
    var pendingOptionalResolutions: Slice<Request>
    var running: bool
    ghost var history: seq<Step>

    constructor ()
      ensures Sound() && history == [] && features == [] && !running
      ensures Pending() == []
    {
      features, pendingResolutions, pendingOptionalResolutions, running := [], Nil, Nil, false;
      history := [];
    }

    ghost function Book(): Ledger
      reads this`history
    {
      Replay(history)
    }

    /** The fields are what the history makes them. */
    ghost predicate Sound()
      reads this
    {
      Matches(Book(), features, pendingResolutions, pendingOptionalResolutions)
    }

    function Pending(): seq<Request>
      reads this
    {
      Items(pendingResolutions) + Items(pendingOptionalResolutions)
    }

    /** All features so far implement what they declare, and so do those that callbacks will add. */
    ghost predicate Trusted()
      reads this`features, this`history
    {
      AllHonest(features) && HonestSteps(history)
    }

    /** The next callback on its way could not be given its arguments. */
    ghost predicate Stuck()
      reads this`features, this`history
    {
      Book().inFlight != [] && Missing(features, Book().inFlight[0].params)
    }

    /** That needs a declared type that no feature implements. */
    lemma StuckUncovered()
      requires Sound() && Stuck()
      ensures !Covered(features) && !Trusted()
    {
      NextReady(history);
      SafeExactly(features);
      if AllHonest(features) {
        HonestCovered(features);
      }
    }

    method FoundAll(params: seq<Kind>) returns (foundAll: bool)
      ensures foundAll <==> Ready(Kinds(features), params)
    {
      foundAll := true;
      for k := 0 to |params|
        invariant forall j :: 0 <= j < k ==> params[j] in Kinds(features)
      {
        Found(features, params[k]);
        if GetFeature(features, params[k]).None? {
          return false;
        }
      }
    }

    /** The arguments of a callback, which are too few exactly if one is missing. */
    method Arguments(params: seq<Kind>) returns (input: seq<Feature>)
      ensures |input| == |params| <==> !Missing(features, params)
      ensures |input| == |params| ==>
        forall k :: 0 <= k < |input| ==> Some(input[k]) == FirstAssignable(features, params[k])
    {
      input := [];
      for k := 0 to |params|
        invariant |input| <= k
        invariant |input| == k <==> forall j :: 0 <= j < k ==> FirstAssignable(features, params[j]).Some?
        invariant |input| == k ==> forall j :: 0 <= j < k ==> Some(input[j]) == FirstAssignable(features, params[j])
      {
        var f := FirstAssignable(features, params[k]);
        if f.Some? {
          input := input + [f.value];
        }
      }
    }

    /** `callbackResolution` of the next callback on its way; it panics if an argument is missing. */
    method CallbackResolution(r: Request, ghost budget: nat)
      returns (input: seq<Feature>, err: Option<string>, panicked: bool)
      requires Sound() && Book().inFlight != [] && Book().inFlight[0] == r && Left(Book()) + RequestWeight(r) <= budget
      modifies this
      ensures Sound() && running == old(running) && old(features) <= features && old(history) <= history
      ensures Missing(old(features), r.params) ==> panicked && history == old(history)
      ensures panicked ==> Stuck()
      ensures old(Trusted()) ==> Trusted() && !panicked
      ensures !panicked ==> Book().inFlight == old(Book()).inFlight[1..]
      ensures !panicked ==> Left(Book()) <= old(Left(Book())) + BodyWeight(r.body)
      ensures !panicked ==> old(history) + [Called] <= history
      ensures !panicked && !running ==> Performs(old(history), history, [])
      ensures !panicked ==> |input| == |r.params| && err == r.err
      ensures !panicked ==>
        forall k :: 0 <= k < |input| ==> Some(input[k]) == FirstAssignable(old(features), r.params[k])
      decreases budget, 1
    {
      hide Performs;
      NextReady(history);
      err := None;
      input := Arguments(r.params);
      if |input| != |r.params| {
        StuckUncovered();
        return input, err, true;
      }
      Note(Called);
      panicked := Exec(r.body, budget - 1);
      if !panicked && !running {
        PerformsCalled(old(history), history);
      }
      err := r.err;
    }

    ghost method Note(s: Step)
      modifies this`history
      ensures history == old(history) + [s] && Book() == Apply(old(Book()), s)
      ensures old(Trusted()) && (s.Asked? ==> HonestRequest(s.request)) ==> Trusted()
    {
      ReplaySnoc(history, s);
      HonestSnoc(history, s);
      history := history + [s];
    }

    /** What a callback does, up to its end or a panic. */
    method Exec(body: seq<Action>, ghost budget: nat) returns (panicked: bool)
      requires Sound() && Left(Book()) + BodyWeight(body) <= budget
      modifies this
      ensures Sound() && running == old(running) && old(features) <= features
      ensures old(history) <= history
      ensures panicked ==> Stuck()
      ensures old(Trusted()) && HonestBody(body) ==> Trusted() && !panicked
      ensures !panicked ==> Book().inFlight == old(Book()).inFlight
      ensures !panicked ==> Left(Book()) <= old(Left(Book())) + BodyWeight(body)
      ensures !panicked && !running ==> Performs(old(history), history, body)
      decreases budget, 5, body
    {
      hide Performs;
      panicked := false;
      PerformsNothing(history);
      if body != [] {
        panicked := Act(body[0], budget);
        if !panicked {
          ghost var between := history;
          panicked := Exec(body[1..], budget);
          if !panicked && !running {
            PerformsThen(old(history), between, history, [body[0]], body[1..]);
            assert [body[0]] + body[1..] == body;
          }
        }
      }
    }

    method Act(a: Action, ghost budget: nat) returns (panicked: bool)
      requires Sound() && Left(Book()) + ActionWeight(a) <= budget
      modifies this
      ensures Sound() && running == old(running) && old(features) <= features
      ensures old(history) <= history
      ensures panicked ==> Stuck()
      ensures old(Trusted()) && HonestAction(a) ==> Trusted() && !panicked
      ensures !panicked ==> Book().inFlight == old(Book()).inFlight
      ensures !panicked ==> Left(Book()) <= old(Left(Book())) + ActionWeight(a)
      ensures !panicked && !running ==> Performs(old(history), history, [a])
      decreases budget, 4
    {
      hide Performs;
      match a
      case Require(r) =>
        var _, p := RequireFeatures(r, budget);
        panicked := p;
      case Add(f) =>
        var _, p := AddFeature(f, budget);
        panicked := p;
    }

    /** `RequireFeatures`; `budget` bounds the callbacks that can still follow. */
    method RequireFeatures(r: Request, ghost budget: nat) returns (err: Option<string>, panicked: bool)
      requires Sound() && Left(Book()) + RequestWeight(r) <= budget
      modifies this
      ensures Sound() && running == old(running) && old(features) <= features
      ensures old(history) + [Asked(r)] <= history
      ensures Ready(Kinds(old(features)), r.params) && Missing(old(features), r.params) ==> panicked
      ensures panicked ==> Ready(Kinds(old(features)), r.params) && Stuck()
      ensures old(Trusted()) && HonestRequest(r) ==> Trusted() && !panicked
      ensures !panicked ==> Book().inFlight == old(Book()).inFlight
      ensures !panicked ==> Left(Book()) <= old(Left(Book())) + RequestWeight(r)
      ensures !panicked ==> err == if Ready(Kinds(old(features)), r.params) then r.err else None
      ensures !panicked && !running ==> Performs(old(history), history, [Require(r)])
      decreases budget, 2
    {
      hide Performs, Replay, Missing, Instance.Stuck, Instance.Trusted, HonestRequest, Left, BodyWeight, Kinds, Ready;
      var foundAll := FoundAll(r.params);
      LeftAfterAsked(Book(), r);
      PerformsFirst(history, Require(r));
      Note(Asked(r));
      ghost var asked := history;
      if foundAll {
        var _, e, p := CallbackResolution(r, budget);
        if !p && !running {
          PerformsAlso(old(history), asked, history, [Require(r)]);
        }
        err, panicked := e, p;
      } else {
        if r.optional {
          pendingOptionalResolutions := Append(pendingOptionalResolutions, r);
        } else {
          pendingResolutions := Append(pendingResolutions, r);
        }
        err, panicked := None, false;
      }
    }

    /** One of the two loops of `AddFeature`. */
    method Sort(rs: seq<Request>) returns (available: seq<Request>, pending: Slice<Request>)
      ensures available == ReadyOnes(Kinds(features), rs) && Items(pending) == OtherOnes(Kinds(features), rs)
      ensures pending.Nil? <==> Items(pending) == []
    {
      available, pending := [], Nil;
      var k := 0;
      assert rs[..|rs|] == rs;
      while k < |rs|
        invariant 0 <= k <= |rs|
        invariant available == ReadyOnes(Kinds(features), rs[..k])
        invariant Items(pending) == OtherOnes(Kinds(features), rs[..k])
        invariant pending.Nil? <==> Items(pending) == []
      {
        assert rs[..k + 1][..k] == rs[..k];
        var foundAll := FoundAll(rs[k].params);
        if foundAll {
          available := available + [rs[k]];
        } else {
          pending := Append(pending, rs[k]);
        }
        k := k + 1;
      }
    }

    method SortBoth() returns (available: seq<Request>, pending: Slice<Request>, pendingOptional: Slice<Request>)
      ensures available == Released(Kinds(features), Items(pendingResolutions), Items(pendingOptionalResolutions))
      ensures Items(pending) == OtherOnes(Kinds(features), Items(pendingResolutions))
      ensures Items(pendingOptional) == OtherOnes(Kinds(features), Items(pendingOptionalResolutions))
      ensures pending.Nil? <==> Items(pending) == []
    {
      var required, optional;
      required, pending := Sort(Items(pendingResolutions));
      optional, pendingOptional := Sort(Items(pendingOptionalResolutions));
      available := required + optional;
    }

    /** The first half of `AddFeature`, under the lock: what has become ready leaves the pending lists. */
    method Register(f: Feature) returns (available: seq<Request>)
      requires Sound()
      modifies this`features, this`pendingResolutions, this`pendingOptionalResolutions, this`history
      ensures Sound() && features == old(features) + [f] && history == old(history) + [Registered(f.kind)]
      ensures old(Trusted()) && Honest(f) ==> Trusted()
      ensures available
          == Released(Kinds(features), old(Items(pendingResolutions)), old(Items(pendingOptionalResolutions)))
      ensures Book().inFlight == available + old(Book()).inFlight
          && Left(Book()) + Weight(available) == old(Left(Book()))
    {
      ghost var l := Book();
      features := features + [f];
      var pending, pendingOptional;
      available, pending, pendingOptional := SortBoth();
      RegisteredMatches(l, old(features), f, pendingResolutions, pendingOptionalResolutions, pending, pendingOptional);
      pendingResolutions, pendingOptionalResolutions := pending, pendingOptional;
      Note(Registered(f.kind));
    }

    /** The second half of `AddFeature`: one callback after the other, up to the last one or a panic. */
    method CallAll(available: seq<Request>, ghost flying: seq<Request>, ghost budget: nat)
      returns (err: Option<string>, panicked: bool)
      requires Sound() && !running && Book().inFlight == available + flying
      requires Left(Book()) + Weight(available) <= budget
      modifies this
      ensures Sound() && !running && old(history) <= history && old(features) <= features
      ensures available == [] ==> history == old(history) && features == old(features) && !panicked
      ensures panicked ==> Stuck()
      ensures old(Trusted()) ==> Trusted() && !panicked
      ensures !panicked ==> Book().inFlight == flying && Left(Book()) <= old(Left(Book())) + Weight(available)
      ensures !panicked ==> err == LastError(available) && Performs(old(history), history, [])
      decreases budget, 2
    {
      hide Instance.Trusted, Instance.Stuck, Replay, Matches, Performs;
      PerformsNothing(history);
      err, panicked := None, false;
      var k := 0;
      ghost var trusted := Trusted();
      assert available[0..] == available && available[..0] == [];
      while k < |available|
        invariant 0 <= k <= |available| && Sound() && Book().inFlight == available[k..] + flying && !running
        invariant old(history) <= history && old(features) <= features && Performs(old(history), history, [])
        invariant k == 0 ==> history == old(history) && features == old(features)
        invariant Left(Book()) + Weight(available[k..]) <= old(Left(Book())) + Weight(available)
        invariant err == LastError(available[..k])
        invariant trusted ==> Trusted()
      {
        TakeFirst(available, k, flying);
        ghost var before := history;
        var input, e, p := CallbackResolution(available[k], budget);
        if p {
          return e, true;
        }
        PerformsAlso(old(history), before, history, []);
        err := e;
        k := k + 1;
      }
      assert available[..k] == available && available[k..] + flying == flying;
    }

    /** `AddFeature`: the released callbacks are called one after the other, and the error of the last is returned. */
    method AddFeature(f: Feature, ghost budget: nat) returns (err: Option<string>, panicked: bool)
      requires Sound() && Left(Book()) <= budget
      modifies this
      ensures Sound() && running == old(running)
      ensures running ==> history == old(history) && features == old(features) && err == None && !panicked
      ensures !running ==> old(history) + [Registered(f.kind)] <= history && old(features) + [f] <= features
      ensures panicked ==> Stuck()
      ensures old(Trusted()) && Honest(f) ==> Trusted() && !panicked
      ensures !panicked ==> Book().inFlight == old(Book()).inFlight
      ensures !panicked ==> Left(Book()) <= old(Left(Book()))
      ensures !running && !panicked ==> err == LastError(
        Released(Kinds(old(features) + [f]), old(Items(pendingResolutions)), old(Items(pendingOptionalResolutions))))
      ensures !running && old(Pending()) == [] ==> features == old(features) + [f] && !panicked
      ensures !panicked && !running ==> Performs(old(history), history, [Add(f)])
      decreases budget, 3
    {
      hide Performs;
      err, panicked := None, false;
      if running {
        return;
      }
      PerformsFirst(history, Add(f));
      var available := Register(f);
      ghost var registered := history;
      err, panicked := CallAll(available, old(Book()).inFlight, budget);
      if !panicked {
        PerformsAlso(old(history), registered, history, [Add(f)]);
      }
    }

    /** The check at the end of `New`: it passes exactly if no required callback is pending. */
    method AllResolved() returns (ok: bool)
      requires Sound() && Book().inFlight == []
      ensures ok <==> forall r :: r in Book().requested && !r.optional ==> Ready(Kinds(features), r.params)
    {
      NonePending(history);
      ok := pendingResolutions.Nil?;
    }
  }

  lemma TakeFirst(rs: seq<Request>, k: nat, rest: seq<Request>)
    requires k < |rs|
    ensures (rs[k..] + rest)[0] == rs[k] && (rs[k..] + rest)[1..] == rs[k + 1..] + rest
    ensures Weight(rs[k..]) == RequestWeight(rs[k]) + Weight(rs[k + 1..])
    ensures LastError(rs[..k + 1]) == rs[k].err
  {
    WeightSplit([rs[k]], rs[k + 1..]);
    WeightSnoc([], rs[k]);
    assert [rs[k]] + rs[k + 1..] == rs[k..] && [] + [rs[k]] == [rs[k]];
  }

  /** A feature that does not implement the type it declares, and a callback that asks for that type. */
  method PanicExample() returns (panicked: bool)
    ensures panicked
  {
    var f := Feature(0, 1, {});
    var instance := new Instance();
    assert Left(instance.Book()) == 0;
    var _, _ := instance.AddFeature(f, 0);
    assert instance.features == [f];
    var r := Request([1], false, [], None);
    assert FirstAssignable([f], r.params[0]).None?;
    var _, p := instance.RequireFeatures(r, 1);
    panicked := p;
  }
}
