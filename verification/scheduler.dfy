/** The watcher queue: `queueWatcher` and `flushSchedulerQueue`, whose queue is edited while it is drained. */
module Scheduler {
  import opened Common

  const MAX_UPDATE_COUNT: nat := 100

  // ----- what a flush amounts to -----

  /** Watchers, known by their ids, that user code queues while one watcher is handled. */
  datatype Turn = Turn(before: seq<nat>, run: seq<nat>)

  /**
   * How a flush ends: with nothing pending, at the limit on circular updates, which forgets what was
   * pending, or not within the given turns.
   */
  datatype Outcome = Drained | Limit(forgotten: set<nat>) | Unfinished

  function SetOf(s: seq<nat>): set<nat> {
    set x | x in s
  }

  ghost predicate IsMin(w: nat, s: set<nat>) {
    w in s && forall x :: x in s ==> w <= x
  }

  /** The least id of a set. */
  ghost function Min(s: set<nat>): (w: nat)
    requires s != {}
    ensures IsMin(w, s)
  {
    var x :| x in s;
    MinExists(s, x);
    var w :| IsMin(w, s);
    w
  }

  lemma MinExists(s: set<nat>, x: nat)
    requires x in s
    ensures exists w :: IsMin(w, s)
    decreases x
  {
    if !IsMin(x, s) {
      var y :| y in s && y < x;
      MinExists(s, y);
    }
  }

  /** Pending after the turn of watcher `w`: what `before` adds while `w` is still marked, then what `run` adds. */
  function AfterTurn(pending: set<nat>, w: nat, t: Turn): set<nat> {
    (pending + SetOf(t.before) - {w}) + SetOf(t.run)
  }

  function Count(circular: map<nat, nat>, w: nat): nat {
    if w in circular then circular[w] else 0
  }

  /** A flush as a set that always gives up its least id: which watchers run, and how it ends. */
  ghost function Drain(pending: set<nat>, circular: map<nat, nat>, turns: seq<Turn>): (seq<nat>, Outcome)
    decreases turns
  {
    if pending == {} then ([], Drained)
    else if turns == [] then ([], Unfinished)
    else
      var w := Min(pending);
      var rest := AfterTurn(pending, w, turns[0]);
      if w !in rest then
        var (ran, end) := Drain(rest, circular, turns[1..]);
        ([w] + ran, end)
      else if Count(circular, w) + 1 > MAX_UPDATE_COUNT then ([w], Limit(rest))
      else
        var (ran, end) := Drain(rest, circular[w := Count(circular, w) + 1], turns[1..]);
        ([w] + ran, end)
  }

  /** A flush that drains its queue has run every watcher that was queued at its start. */
  lemma {:induction false} PendingRuns(pending: set<nat>, circular: map<nat, nat>, turns: seq<Turn>, w: nat)
    requires Drain(pending, circular, turns).1 == Drained && w in pending
    ensures w in Drain(pending, circular, turns).0
    decreases turns
  {
    var m := Min(pending);
    var rest := AfterTurn(pending, m, turns[0]);
    if w != m {
      PendingRuns(rest, if m in rest then circular[m := Count(circular, m) + 1] else circular, turns[1..], w);
    }
  }

  /**
   * And every watcher that was queued on the way: one queued while turn `k` was handled runs in a
   * later turn, except that the watcher of that very turn needs no other when it is queued by its own `before`.
   */
  lemma {:induction false} QueuedRuns(pending: set<nat>, circular: map<nat, nat>, turns: seq<Turn>, k: nat, w: nat)
    requires Drain(pending, circular, turns).1 == Drained && k < |Drain(pending, circular, turns).0|
    requires k < |turns| && (w in turns[k].before || w in turns[k].run)
    ensures var ran := Drain(pending, circular, turns).0;
            w in ran[k + 1..] || (w == ran[k] && w !in turns[k].run)
    decreases turns
  {
    var m := Min(pending);
    var rest := AfterTurn(pending, m, turns[0]);
    var circular1 := if m in rest then circular[m := Count(circular, m) + 1] else circular;
    var ran := Drain(pending, circular, turns).0;
    assert ran[1..] == Drain(rest, circular1, turns[1..]).0;
    if k == 0 {
      if w in rest {
        PendingRuns(rest, circular1, turns[1..], w);
      }
    } else {
      QueuedRuns(rest, circular1, turns[1..], k - 1, w);
      assert ran[k + 1..] == ran[1..][k..];
    }
  }

  /** Watcher `w` was queued in one of the turns `k .. j`. */
  predicate QueuedBetween(turns: seq<Turn>, k: nat, j: nat, w: nat) {
    exists i :: k <= i < j && i < |turns| && (w in turns[i].before || w in turns[i].run)
  }

  lemma QueuedShift(turns: seq<Turn>, j: nat, w: nat)
    requires turns != [] && QueuedBetween(turns[1..], 0, j, w)
    ensures QueuedBetween(turns, 1, j + 1, w)
  {
    var i :| 0 <= i < j && i < |turns[1..]| && (w in turns[1..][i].before || w in turns[1..][i].run);
    assert turns[i + 1] == turns[1..][i];
  }

  /** What runs in turn `j` was pending at the start or has been queued since. */
  lemma {:induction false} RanWasQueued(pending: set<nat>, circular: map<nat, nat>, turns: seq<Turn>, j: nat)
    requires j < |Drain(pending, circular, turns).0|
    ensures var w := Drain(pending, circular, turns).0[j]; w in pending || QueuedBetween(turns, 0, j, w)
    decreases turns
  {
    if j > 0 {
      var m := Min(pending);
      var rest := AfterTurn(pending, m, turns[0]);
      var circular1 := if m in rest then circular[m := Count(circular, m) + 1] else circular;
      RanWasQueued(rest, circular1, turns[1..], j - 1);
      var w := Drain(pending, circular, turns).0[j];
      if w !in rest {
        QueuedShift(turns, j - 1, w);
      }
    }
  }

  /** A watcher runs behind one of a larger id only if it was queued in that turn or since. */
  lemma {:induction false} OutOfOrderQueued(pending: set<nat>, circular: map<nat, nat>, turns: seq<Turn>, k: nat,
                                            j: nat)
    requires k < j < |Drain(pending, circular, turns).0|
    ensures var ran := Drain(pending, circular, turns).0; ran[j] < ran[k] ==> QueuedBetween(turns, k, j, ran[j])
    decreases turns
  {
    var m := Min(pending);
    var rest := AfterTurn(pending, m, turns[0]);
    var circular1 := if m in rest then circular[m := Count(circular, m) + 1] else circular;
    if k == 0 {
      RanWasQueued(pending, circular, turns, j);
    } else {
      OutOfOrderQueued(rest, circular1, turns[1..], k - 1, j - 1);
      var ran := Drain(pending, circular, turns).0;
      if ran[j] < ran[k] {
        var i :| k - 1 <= i < j - 1 && i < |turns[1..]|
          && (ran[j] in turns[1..][i].before || ran[j] in turns[1..][i].run);
        assert turns[i + 1] == turns[1..][i];
      }
    }
  }

  lemma QuietTurn(pending: set<nat>, m: nat)
    requires m in pending
    ensures AfterTurn(pending, m, Turn([], [])) == pending - {m}
  {
  }

  lemma AscendingTail(m: nat, s: seq<nat>)
    requires Ascending([m] + s)
    ensures Ascending(s) && forall x :: x in s ==> m < x
  {
    var r := [m] + s;
    forall i, j | 0 <= i < j < |s|
      ensures s[i] < s[j]
    {
      assert r[i + 1] < r[j + 1];
    }
    forall x | x in s
      ensures m < x
    {
      var i :| 0 <= i < |s| && s[i] == x;
      assert r[0] < r[i + 1];
    }
  }

  lemma AscendingPush(m: nat, s: seq<nat>)
    requires Ascending(s) && forall x :: x in s ==> m < x
    ensures Ascending([m] + s)
  {
    var r := [m] + s;
    assert forall j :: 1 <= j < |r| ==> r[j] in s;
  }

  lemma AscendingCons(m: nat, s: seq<nat>)
    ensures Ascending([m] + s) <==> Ascending(s) && forall x :: x in s ==> m < x
  {
    if Ascending([m] + s) {
      AscendingTail(m, s);
    }
    if Ascending(s) && forall x :: x in s ==> m < x {
      AscendingPush(m, s);
    }
  }

  lemma QuietStep(pending: set<nat>, circular: map<nat, nat>, turns: seq<Turn>)
    requires pending != {} && turns != [] && turns[0] == Turn([], [])
    ensures var m := Min(pending);
            var ran := Drain(pending - {m}, circular, turns[1..]);
            Drain(pending, circular, turns) == ([m] + ran.0, ran.1)
  {
    QuietTurn(pending, Min(pending));
  }

  lemma PrependLeast(pending: set<nat>, m: nat, ran: seq<nat>, all: seq<nat>)
    requires IsMin(m, pending) && all == [m] + ran && Ascending(ran)
    requires forall x :: x in ran <==> x in pending - {m}
    ensures Ascending(all)
    ensures forall x :: x in all <==> x in pending
  {
    AscendingCons(m, ran);
  }

  /** While nothing is queued, a flush runs each pending watcher once, in ascending order of ids. */
  lemma {:induction false} QuietFlush(pending: set<nat>, circular: map<nat, nat>, turns: seq<Turn>)
    requires |turns| >= |pending| && forall k :: 0 <= k < |turns| ==> turns[k] == Turn([], [])
    ensures Drain(pending, circular, turns).1 == Drained && Ascending(Drain(pending, circular, turns).0)
    ensures forall x :: x in Drain(pending, circular, turns).0 <==> x in pending
    decreases turns
  {
    if pending != {} {
      var m := Min(pending);
      QuietStep(pending, circular, turns);
      var rest := pending - {m};
      assert |rest| == |pending| - 1;
      QuietFlush(rest, circular, turns[1..]);
      PrependLeast(pending, m, Drain(rest, circular, turns[1..]).0, Drain(pending, circular, turns).0);
    }
  }

  function Occurrences(s: seq<nat>, w: nat): nat {
    if s == [] then 0 else (if s[0] == w then 1 else 0) + Occurrences(s[1..], w)
  }

  lemma OccurrencesCons(m: nat, ran: seq<nat>, w: nat)
    ensures Occurrences([m] + ran, w) == (if m == w then 1 else 0) + Occurrences(ran, w)
  {
    assert ([m] + ran)[1..] == ran;
  }

  /**
   * The limit strikes at a watcher that has run more than a hundred times in this flush, or with what it brought along.
   */
  lemma {:induction false} LimitMeansManyRuns(pending: set<nat>, circular: map<nat, nat>, turns: seq<Turn>)
    requires forall w :: w in circular ==> circular[w] <= MAX_UPDATE_COUNT
    requires Drain(pending, circular, turns).1.Limit?
    ensures var (ran, end) := Drain(pending, circular, turns);
            && ran != [] && ran[|ran| - 1] in end.forgotten
            && Occurrences(ran, ran[|ran| - 1]) + Count(circular, ran[|ran| - 1]) > MAX_UPDATE_COUNT
    decreases turns
  {
    var m := Min(pending);
    var rest := AfterTurn(pending, m, turns[0]);
    if m in rest && Count(circular, m) + 1 > MAX_UPDATE_COUNT {
      assert [m][1..] == [];
    } else {
      var circular1 := if m in rest then circular[m := Count(circular, m) + 1] else circular;
      LimitMeansManyRuns(rest, circular1, turns[1..]);
      var (ran, end) := Drain(rest, circular1, turns[1..]);
      assert Drain(pending, circular, turns) == ([m] + ran, end);
      OccurrencesCons(m, ran, ran[|ran| - 1]);
    }
  }

  /** How often watcher `w` was queued again by its own run. */
  function SelfQueued(ran: seq<nat>, turns: seq<Turn>, w: nat): nat
    decreases ran
  {
    if ran == [] || turns == [] then 0
    else (if ran[0] == w && w in turns[0].run then 1 else 0) + SelfQueued(ran[1..], turns[1..], w)
  }

  lemma SelfQueuedCons(m: nat, ran: seq<nat>, turns: seq<Turn>, w: nat)
    requires turns != []
    ensures SelfQueued([m] + ran, turns, w)
         == (if m == w && w in turns[0].run then 1 else 0) + SelfQueued(ran, turns[1..], w)
  {
    assert ([m] + ran)[1..] == ran;
  }

  /**
   * The limit strikes exactly when a watcher has been queued by its own run for the hundred and first time, and it is
   * the last to run then.
   */
  lemma {:induction false} LimitExact(pending: set<nat>, circular: map<nat, nat>, turns: seq<Turn>, w: nat)
    requires forall x :: x in circular ==> circular[x] <= 100
    ensures var (ran, end) := Drain(pending, circular, turns);
      SelfQueued(ran, turns, w) + Count(circular, w) > 100 <==> end.Limit? && ran != [] && ran[|ran| - 1] == w
    ensures var (ran, end) := Drain(pending, circular, turns); SelfQueued(ran, turns, w) + Count(circular, w) <= 101
    ensures Drain(pending, circular, turns).1.Limit? ==> Drain(pending, circular, turns).0 != []
    decreases turns
  {
    if pending != {} && turns != [] {
      var m := Min(pending);
      var rest := AfterTurn(pending, m, turns[0]);
      if m in rest && Count(circular, m) + 1 > 100 {
        SelfQueuedCons(m, [], turns, w);
        assert [m] + [] == [m];
      } else {
        var circular1 := if m in rest then circular[m := Count(circular, m) + 1] else circular;
        LimitExact(rest, circular1, turns[1..], w);
        var (ran, end) := Drain(rest, circular1, turns[1..]);
        assert Drain(pending, circular, turns) == ([m] + ran, end);
        SelfQueuedCons(m, ran, turns, w);
      }
    }
  }

  // ----- the queue -----

  predicate Ascending(s: seq<nat>) {
    forall i, j :: 0 <= i < j < |s| ==> s[i] < s[j]
  }

  function Insert(s: seq<nat>, w: nat): seq<nat> {
    if s == [] || w <= s[0] then [w] + s else [s[0]] + Insert(s[1..], w)
  }

  /** `sort` by id. */
  function Sorted(s: seq<nat>): seq<nat> {
    if s == [] then [] else Insert(Sorted(s[1..]), s[0])
  }

  lemma {:induction false} InsertKeeps(s: seq<nat>, w: nat)
    requires Ascending(s) && w !in s
    ensures Ascending(Insert(s, w)) && forall x :: x in Insert(s, w) <==> x in s || x == w
  {
    AscendingCons(w, s);
    if s != [] {
      assert s == [s[0]] + s[1..];
      AscendingCons(s[0], s[1..]);
      if w > s[0] {
        InsertKeeps(s[1..], w);
        AscendingCons(s[0], Insert(s[1..], w));
      }
    }
  }

  lemma {:induction false} SortedKeeps(s: seq<nat>)
    requires Distinct(s)
    ensures Ascending(Sorted(s)) && forall x :: x in Sorted(s) <==> x in s
  {
    if s != [] {
      SortedKeeps(s[1..]);
      assert s == [s[0]] + s[1..];
      InsertKeeps(Sorted(s[1..]), s[0]);
    }
  }

  /** Putting `w` where everything behind is larger and nothing before is keeps the list ascending. */
  lemma SpliceKeeps(s: seq<nat>, k: nat, w: nat)
    requires k <= |s| && Ascending(s) && w !in s
    requires (forall j :: k <= j < |s| ==> s[j] > w) && (k == 0 || s[k - 1] <= w)
    ensures Ascending(s[..k] + [w] + s[k..])
  {
    assert k > 0 ==> s[k - 1] in s;
  }

  /**
   * The queue during a flush: what stands behind `index` is ascending, hence without duplicates, and
   * marked; so is the current watcher until it is about to run; nothing else is.
   */
  ghost predicate QueueOk(q: seq<nat>, index: nat, has: set<nat>, current: bool) {
    && index < |q| && Ascending(q[index + 1..])
    && has == SetOf(q[index + 1..]) + (if current then {q[index]} else {})
    && (current ==> q[index] !in q[index + 1..])
  }

  lemma SpliceQueue(q: seq<nat>, index: nat, i: nat, w: nat, has: set<nat>, current: bool)
    requires QueueOk(q, index, has, current) && w !in has && index <= i < |q|
    requires (forall j :: i < j < |q| ==> q[j] > w) && (i == index || q[i] <= w)
    ensures var r := q[..i + 1] + [w] + q[i + 1..];
            QueueOk(r, index, has + {w}, current) && r[index] == q[index]
  {
    var r, rest, k := q[..i + 1] + [w] + q[i + 1..], q[index + 1..], i - index;
    assert forall j :: 0 <= j < |rest| ==> rest[j] == q[index + 1 + j];
    SpliceKeeps(rest, k, w);
    var spliced := rest[..k] + [w] + rest[k..];
    assert r[index + 1..] == spliced;
    assert forall x :: x in spliced <==> x in SetOf(rest) + {w};
  }

  class Scheduler {
    var queue: seq<nat>
    /** Ids marked as queued. */
    var has: set<nat>
    var circular: map<nat, nat>
    var waiting: bool
    var flushing: bool
    var index: nat

    constructor ()
      ensures Idle() && queue == []
    {
      queue, has, circular, index := [], {}, map[], 0;
      waiting, flushing := false, false;
    }

    /** Between flushes: the marks are those of the queue, and a flush is scheduled if there is anything to do. */
    ghost predicate Idle()
      reads this
    {
      && !flushing && Distinct(queue) && has == SetOf(queue) && circular == map[]
      && (waiting <==> queue != [])
    }

    ghost predicate Draining(current: bool)
      reads this
    {
      flushing && waiting && QueueOk(queue, index, has, current)
    }

    /** The splice of `queueWatcher` during a flush: behind `index`, by id. */
    method SpliceIn(w: nat, ghost current: bool)
      requires Draining(current) && w !in has
      modifies this`queue, this`has
      ensures Draining(current) && has == old(has) + {w} && queue[index] == old(queue)[index]
    {
      var i := |queue| - 1;
      while i > index && queue[i] > w
        invariant index <= i < |queue|
        invariant forall j :: i < j < |queue| ==> queue[j] > w
      {
        i := i - 1;
      }
      SpliceQueue(queue, index, i, w, has, current);
      has := has + {w};
      queue := queue[..i + 1] + [w] + queue[i + 1..];
    }

    /** `queueWatcher`; `schedule` when it asks for a flush. */
    method QueueWatcher(w: nat, ghost current: bool) returns (schedule: bool)
      requires if flushing then Draining(current) else Idle()
      modifies this`queue, this`has, this`waiting
      ensures if flushing then Draining(current) else Idle()
      ensures has == old(has) + {w}
      ensures flushing ==> queue[index] == old(queue)[index] && !schedule
      ensures !flushing ==> queue == (if w in old(has) then old(queue) else old(queue) + [w])
      ensures !flushing ==> schedule == (old(queue) == [])
    {
      schedule := false;
      if w !in has {
        if !flushing {
          has := has + {w};
          queue := queue + [w];
        } else {
          SpliceIn(w, current);
        }
        if !waiting {
          waiting := true;
          schedule := true;
        }
      }
    }

    /** User code that queues watchers during a flush. */
    method QueueAll(ws: seq<nat>, ghost current: bool)
      requires Draining(current)
      modifies this`queue, this`has, this`waiting
      ensures Draining(current) && has == old(has) + SetOf(ws) && queue[index] == old(queue)[index]
    {
      var k := 0;
      while k < |ws|
        invariant 0 <= k <= |ws| && Draining(current)
        invariant has == old(has) + SetOf(ws[..k]) && queue[index] == old(queue)[index]
      {
        var _ := QueueWatcher(ws[k], current);
        assert ws[..k + 1] == ws[..k] + [ws[k]];
        k := k + 1;
      }
      assert ws[..k] == ws;
    }

    /** At the start of a turn, or at the end of the queue. */
    ghost predicate Ready()
      reads this
    {
      flushing && waiting && index <= |queue| && Ascending(queue[index..]) && has == SetOf(queue[index..])
    }

    lemma ReadyIsDraining()
      requires Ready() && index < |queue|
      ensures Draining(true) && IsMin(queue[index], has)
    {
      assert queue[index..] == [queue[index]] + queue[index + 1..];
      AscendingCons(queue[index], queue[index + 1..]);
    }

    /** One turn of the flush loop; `limit` when it breaks off. */
    method RunOne(t: Turn) returns (w: nat, limit: bool)
      requires Ready() && index < |queue|
      modifies this`queue, this`has, this`waiting, this`circular
      ensures Draining(false) && w == old(queue)[index] == queue[index]
      ensures IsMin(w, old(has)) && has == AfterTurn(old(has), w, t)
      ensures circular == if w in has then old(circular)[w := Count(old(circular), w) + 1] else old(circular)
      ensures limit <==> w in has && circular[w] > MAX_UPDATE_COUNT
    {
      ReadyIsDraining();
      w := queue[index];
      QueueAll(t.before, true);
      has := has - {w};
      QueueAll(t.run, false);
      assert circular == old(circular);
      limit := false;
      if w in has {
        circular := circular[w := Count(circular, w) + 1];
        limit := circular[w] > MAX_UPDATE_COUNT;
      }
    }

    /** The same turn beside the set. */
    method Turn(turns: seq<Turn>, k: nat, ghost all: (seq<nat>, Outcome), ghost ran: seq<nat>)
      returns (w: nat, limit: bool)
      requires Ready() && index < |queue| && k < |turns| && Along(all, ran, has, circular, turns, k)
      modifies this`queue, this`has, this`waiting, this`circular
      ensures Draining(false)
      ensures if limit then all == (ran + [w], Limit(has)) else Along(all, ran + [w], has, circular, turns, k + 1)
    {
      ghost var pending, circular0 := has, circular;
      w, limit := RunOne(turns[k]);
      DrainStep(all, ran, pending, circular0, turns, k, w, has, circular);
    }

    /** `resetSchedulerState`. */
    method Reset()
      modifies this
      ensures Idle() && queue == []
    {
      index, queue, has, circular := 0, [], {}, map[];
      waiting, flushing := false, false;
    }

    /**
     * `flushSchedulerQueue`, as far as the given turns of user code go: the queue that is spliced while it is
     * drained runs the same watchers, in the same order and to the same end, as a set that gives up its least id.
     */
    method Flush(turns: seq<Turn>) returns (ran: seq<nat>, ghost end: Outcome)
      requires Idle() && queue != []
      modifies this
      ensures (ran, end) == Drain(SetOf(old(queue)), map[], turns)
      ensures !end.Unfinished? ==> Idle() && queue == []
    {
      ghost var all := Drain(SetOf(queue), map[], turns);
      SortedKeeps(queue);
      flushing := true;
      queue := Sorted(queue);
      index := 0;
      ran := [];
      var k := 0;
      assert queue[0..] == queue && turns[0..] == turns && SetOf(queue) == SetOf(old(queue));
      while index < |queue| && k < |turns|
        invariant Ready() && Along(all, ran, has, circular, turns, k)
        decreases |turns| - k
      {
        var w, limit := Turn(turns, k, all, ran);
        ran := ran + [w];
        if limit {
          end := Limit(has);
          Reset();
          return;
        }
        index := index + 1;
        k := k + 1;
      }
      assert index < |queue| ==> queue[index] in has;
      Stopped(all, ran, has, circular, turns, k);
      end := all.1;
      if index == |queue| {
        Reset();
      }
    }
  }

  /** What has run so far is the beginning of `all`, and the rest of `all` is what the pending set still does. */
  ghost predicate Along(all: (seq<nat>, Outcome), ran: seq<nat>, pending: set<nat>, circular: map<nat, nat>,
                        turns: seq<Turn>, k: nat)
  {
    && k <= |turns|
    && all.0 == ran + Drain(pending, circular, turns[k..]).0 && all.1 == Drain(pending, circular, turns[k..]).1
  }

  /** One turn of the set, to `rest` and `circular1`. */
  lemma DrainStep(all: (seq<nat>, Outcome), ran: seq<nat>, pending: set<nat>, circular: map<nat, nat>, turns: seq<Turn>,
                  k: nat, w: nat, rest: set<nat>, circular1: map<nat, nat>)
    requires k < |turns| && IsMin(w, pending) && Along(all, ran, pending, circular, turns, k)
    requires rest == AfterTurn(pending, w, turns[k])
    requires circular1 == if w in rest then circular[w := Count(circular, w) + 1] else circular
    ensures if w in rest && circular1[w] > MAX_UPDATE_COUNT then all == (ran + [w], Limit(rest))
            else Along(all, ran + [w], rest, circular1, turns, k + 1)
  {
    assert turns[k..][0] == turns[k] && turns[k..][1..] == turns[k + 1..];
    assert Min(pending) == w;
  }

  lemma Stopped(all: (seq<nat>, Outcome), ran: seq<nat>, pending: set<nat>, circular: map<nat, nat>, turns: seq<Turn>,
                k: nat)
    requires Along(all, ran, pending, circular, turns, k) && (pending == {} || k == |turns|)
    ensures all == (ran, if pending == {} then Drained else Unfinished)
  {
    assert ran + [] == ran;
  }
}
