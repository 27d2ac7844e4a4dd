/** The order of the calls that set up an instance does not matter, however the callbacks require and add features. */
module FeatureOrder {
  import opened Features

  // ----- counting -----

  /** `m` has every request and every type of `l`, as often. */
  ghost predicate Within(l: Ledger, m: Ledger) {
    && l.kinds <= m.kinds
    && forall r :: Count(l.requested, r) <= Count(m.requested, r) && Count(l.invoked, r) <= Count(m.invoked, r)
  }

  /** Steps that a history took are in its ledger. */
  lemma {:induction false} TakenAsked(h: seq<Step>, r: Request)
    ensures Taken(h, Asked(r)) == Count(Replay(h).requested, r)
  {
    if h != [] {
      TakenAsked(h[..|h| - 1], r);
      var l, s := Replay(h[..|h| - 1]), h[|h| - 1];
      if s.Asked? {
        CountSnoc(l.requested, s.request, r);
      }
    }
  }

  lemma {:induction false} TakenRegistered(h: seq<Step>, t: Kind)
    ensures Taken(h, Registered(t)) > 0 <==> t in Replay(h).kinds
  {
    if h != [] {
      TakenRegistered(h[..|h| - 1], t);
    }
  }

  /** `rs` without the last occurrence of `r`. */
  function Drop(rs: seq<Request>, r: Request): seq<Request>
    requires r in rs
  {
    if rs[|rs| - 1] == r then rs[..|rs| - 1] else Drop(rs[..|rs| - 1], r) + [rs[|rs| - 1]]
  }

  lemma {:induction false} DropCounts(rs: seq<Request>, r: Request, q: Request, s: Step)
    requires r in rs
    ensures Count(Drop(rs, r), q) == Count(rs, q) - if q == r then 1 else 0
    ensures Nested(rs, s) == Nested(Drop(rs, r), s) + Listed(r.body, s)
  {
    var front, last := rs[..|rs| - 1], rs[|rs| - 1];
    if last != r {
      DropCounts(front, r, q, s);
      assert (Drop(front, r) + [last])[..|Drop(front, r)|] == Drop(front, r);
    }
  }

  /** More callbacks bring about at least as much. */
  lemma {:induction false} NestedGrows(rs: seq<Request>, us: seq<Request>, s: Step)
    requires forall r :: Count(rs, r) <= Count(us, r)
    ensures Nested(rs, s) <= Nested(us, s)
  {
    if rs != [] {
      var front, last := rs[..|rs| - 1], rs[|rs| - 1];
      CountMeansIn(rs, last);
      CountMeansIn(us, last);
      DropCounts(us, last, last, s);
      forall r
        ensures Count(front, r) <= Count(Drop(us, last), r)
      {
        DropCounts(us, last, r, s);
      }
      NestedGrows(front, Drop(us, last), s);
    }
  }

  /** The same types are there, and every request was made, called and kept pending as often. */
  ghost predicate SameOutcome(l: Ledger, m: Ledger) {
    && l.kinds == m.kinds
    && (forall r :: Count(l.requested, r) == Count(m.requested, r))
    && (forall r :: Count(l.invoked, r) == Count(m.invoked, r))
    && (forall r :: Count(l.required, r) == Count(m.required, r))
    && (forall r :: Count(l.optional, r) == Count(m.optional, r))
  }

  // ----- one order of the calls against another -----

  /** Both histories are made by the same calls, the second one to its end. */
  ghost predicate SameCalls(h: seq<Step>, g: seq<Step>, calls: seq<Action>, others: seq<Action>) {
    && Performs([], h, calls) && Performs([], g, others)
    && (forall s :: Listed(calls, s) == Listed(others, s))
    && Replay(g).inFlight == []
  }

  /** What happened up to a point of one history happens in the other one as well, as often. */
  lemma TakenWithin(h: seq<Step>, g: seq<Step>, calls: seq<Action>, others: seq<Action>, k: nat, s: Step)
    requires SameCalls(h, g, calls, others) && k <= |h| && !s.Called?
    requires forall r :: Count(Replay(h[..k]).invoked, r) <= Count(Replay(g).invoked, r)
    ensures Taken(h[..k], s) <= Taken(g, s)
  {
    assert DueLess([], h, calls, s) && DueLess([], g, others, s);
    NestedGrows(Replay(h[..k]).invoked, Replay(g).invoked, s);
  }

  /** A callback is called in the second history as often as it was asked for in the first one. */
  lemma CalledWithin(h: seq<Step>, g: seq<Step>, r: Request)
    requires Replay(h).kinds <= Replay(g).kinds && Replay(g).inFlight == []
    requires Count(Replay(h).requested, r) <= Count(Replay(g).requested, r)
    ensures Count(Replay(h).invoked, r) <= Count(Replay(g).invoked, r)
  {
    hide Replay, Count;
    var l, m := Replay(h), Replay(g);
    CountMeansIn(l.invoked, r);
    if r in l.invoked {
      AlwaysSorted(h);
      assert Ready(m.kinds, r.params);
      Conserved(h, r);
      Settled(g, r);
    }
  }

  /** At every point, one order has done nothing that the other one does not do. */
  lemma {:induction false} PrefixWithin(h: seq<Step>, g: seq<Step>, calls: seq<Action>, others: seq<Action>, k: nat)
    requires SameCalls(h, g, calls, others) && k <= |h|
    ensures Within(Replay(h[..k]), Replay(g))
  {
    if k > 0 {
      PrefixWithin(h, g, calls, others, k - 1);
      StepWithin(h, g, calls, others, k - 1);
    }
  }

  lemma StepWithin(h: seq<Step>, g: seq<Step>, calls: seq<Action>, others: seq<Action>, k: nat)
    requires SameCalls(h, g, calls, others) && k < |h| && Within(Replay(h[..k]), Replay(g))
    ensures Within(Replay(h[..k + 1]), Replay(g))
  {
    hide Count, Taken, Performs;
    var l, after, m := Replay(h[..k]), Replay(h[..k + 1]), Replay(g);
    assert h[..k + 1] == h[..k] + [h[k]];
    ReplaySnoc(h[..k], h[k]);
    match h[k]
    case Called =>
      assert after.kinds == l.kinds && after.requested == l.requested;
      forall r
        ensures Count(after.invoked, r) <= Count(m.invoked, r)
      {
        CalledWithin(h[..k + 1], g, r);
      }
    case Asked(q) =>
      forall r
        ensures Count(after.requested, r) <= Count(m.requested, r)
      {
        TakenWithin(h, g, calls, others, k + 1, Asked(r));
        TakenAsked(h[..k + 1], r);
        TakenAsked(g, r);
      }
    case Registered(t) =>
      TakenWithin(h, g, calls, others, k + 1, Registered(t));
      TakenRegistered(h[..k + 1], t);
      TakenRegistered(g, t);
  }

  /**
   * Two orders of the same calls, both run to their end, have the same outcome, what the callbacks did included.
   * The order of the callbacks themselves may differ.
   */
  lemma Confluent(h: seq<Step>, g: seq<Step>, calls: seq<Action>, others: seq<Action>)
    requires SameCalls(h, g, calls, others) && Replay(h).inFlight == []
    ensures SameOutcome(Replay(h), Replay(g))
  {
    assert h[..|h|] == h && g[..|g|] == g;
    PrefixWithin(h, g, calls, others, |h|);
    PrefixWithin(g, h, others, calls, |g|);
    forall r
      ensures Count(Replay(h).required, r) == Count(Replay(g).required, r)
      ensures Count(Replay(h).optional, r) == Count(Replay(g).optional, r)
    {
      OrderIndependent(h, g, r);
    }
  }

  /** Two instances set up by the same calls in different orders; neither panics if all features are honest. */
  method BothOrders(calls: seq<Action>, others: seq<Action>)
    returns (one: Instance, other: Instance, panicked: bool)
    requires forall s :: Listed(calls, s) == Listed(others, s)
    ensures one.Sound() && other.Sound()
    ensures HonestBody(calls) && HonestBody(others) ==> !panicked
    ensures !panicked ==> SameOutcome(one.Book(), other.Book())
    ensures !panicked ==> (one.pendingResolutions.Nil? <==> other.pendingResolutions.Nil?)
  {
    var p, q;
    one, p := RunCalls(calls);
    other, q := RunCalls(others);
    panicked := p || q;
    hide Replay, Count, Performs;
    if !panicked {
      Confluent(one.history, other.history, calls, others);
      SameEmpty(one.Book().required, other.Book().required);
    }
  }

  lemma SameEmpty(rs: seq<Request>, us: seq<Request>)
    requires forall r :: Count(rs, r) == Count(us, r)
    ensures rs == [] <==> us == []
  {
    if rs != [] {
      CountMeansIn(rs, rs[0]);
      CountMeansIn(us, rs[0]);
    }
    if us != [] {
      CountMeansIn(rs, us[0]);
      CountMeansIn(us, us[0]);
    }
  }

  method RunCalls(calls: seq<Action>) returns (instance: Instance, panicked: bool)
    ensures fresh(instance) && instance.Sound()
    ensures HonestBody(calls) ==> !panicked
    ensures !panicked ==> instance.Book().inFlight == [] && Performs([], instance.history, calls)
  {
    instance := new Instance();
    assert HonestSteps(instance.history) && AllHonest(instance.features);
    assert Left(instance.Book()) == 0;
    panicked := instance.Exec(calls, BodyWeight(calls));
  }
}
