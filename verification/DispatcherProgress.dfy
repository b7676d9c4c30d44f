/** Progress of the dispatcher and its workers: without new intents every run ends, and where it
    ends every intent has been answered for. */
module DispatcherProgress {
  import opened Common
  import opened Contracts
  import opened Dispatcher

  /** The steps taken when no new intent arrives. */
  predicate Internal(e: Event) {
    !e.Take?
  }

  function PhaseWork(p: Phase): nat {
    match p
    case Waiting => 0
    case Running => 1
    case Draining => 2
  }

  /** How much one lane still has to do. */
  function LaneWork(l: Lane): nat {
    (if l.held.Some? then 1 else 0)
    + match l.worker
      case None => 0
      case Some(w) => 6 * |w.queue| + 2 * |w.pending| + PhaseWork(w.phase) + (if w.reporting then 1 else 0)
  }

  function TotalWork(s: System, order: seq<TargetKey>): nat {
    if order == [] then 0 else TotalWork(s, order[..|order| - 1]) + LaneWork(LaneOf(s, order[|order| - 1]))
  }

  // ----- Every step does some work -----

  lemma LaneStepWorks(s: System, e: Event)
    requires Enabled(s, e) && Internal(e) && !e.Forward?
    ensures LaneWork(LaneStep(s, e)) < LaneWork(s.lanes[e.k])
  {
  }

  lemma {:induction false} OneLaneWorks(s: System, order: seq<TargetKey>, k: TargetKey, l: Lane, blocked: Option<TargetKey>)
    requires forall i, j :: 0 <= i < j < |order| ==> order[i] != order[j]
    ensures var s' := System(s.taken, s.lanes[k := l], blocked);
            TotalWork(s', order) == TotalWork(s, order) + (if k in order then LaneWork(l) - LaneWork(LaneOf(s, k)) else 0)
    decreases |order|
  {
    hide LaneWork;
    if order == [] {
    } else {
      var init, last := order[..|order| - 1], order[|order| - 1];
      assert order == init + [last];
      assert k in order <==> k in init || k == last;
      OneLaneWorks(s, init, k, l, blocked);
      assert k == last ==> k !in init;
    }
  }

  lemma InternalStepWorks(s: System, e: Event, order: seq<TargetKey>)
    requires Enabled(s, e) && Internal(e) && IsEnumeration(order, s.lanes.Keys)
    ensures TotalWork(Step(s, e), order) < TotalWork(s, order)
    ensures Step(s, e).lanes.Keys == s.lanes.Keys && Step(s, e).taken == s.taken
  {
    hide TotalWork;
    if e.Forward? {
      var k := s.blocked.value;
      assert k in s.lanes;
      OneLaneWorks(s, order, k, Step(s, e).lanes[k], None);
    } else {
      hide LaneWork, LaneStep;
      LaneStepWorks(s, e);
      OneLaneWorks(s, order, e.k, LaneStep(s, e), s.blocked);
    }
  }

  // ----- As long as there is work, there is a step -----

  lemma {:induction false} BusyLane(s: System, order: seq<TargetKey>) returns (k: TargetKey)
    requires TotalWork(s, order) > 0
    ensures k in order && LaneWork(LaneOf(s, k)) > 0
    decreases |order|
  {
    hide LaneWork;
    var init, last := order[..|order| - 1], order[|order| - 1];
    if LaneWork(LaneOf(s, last)) > 0 {
      k := last;
    } else {
      k := BusyLane(s, init);
    }
  }

  lemma HeldTaken(taken: seq<RoutedIntent>, k: TargetKey, l: Lane)
    requires HistoryOk(taken, k, l.history) && PlacesOk(l) && l.held.Some?
    ensures l.held.value < |taken|
  {
    hide Local;
    var front := l.forwarded + HeldIds(l);
    assert front[|l.forwarded|] == l.held.value;
    assert l.history[..|front|][|l.forwarded|] == l.held.value;
    assert l.held.value in l.history;
  }

  lemma QueueTaken(taken: seq<RoutedIntent>, k: TargetKey, l: Lane)
    requires HistoryOk(taken, k, l.history) && PlacesOk(l) && l.worker.Some? && l.worker.value.queue != []
    ensures l.worker.value.queue[0] < |taken|
  {
    hide PlacesOk;
    var before := Ids(Groups(l.executed)) + Ids(l.worker.value.pending);
    assert Local(l) == before + l.worker.value.queue;
    assert Local(l)[|before|] == l.worker.value.queue[0];
    LocalInHistory(l, l.worker.value.queue[0]);
  }

  lemma LaneNotStuck(s: System, k: TargetKey) returns (e: Event)
    requires Inv(s) && k in s.lanes && LaneWork(s.lanes[k]) > 0
    ensures Internal(e) && Enabled(s, e)
  {
    hide HistoryOk, PlacesOk, FramesOk, GroupsOk;
    var l := s.lanes[k];
    assert LaneOk(s.taken, k, LaneOf(s, k));
    WorkerNotHeld(l);
    if l.held.Some? {
      HeldTaken(s.taken, k, l);
      assert LaneOf(s, k).held.Some? <==> s.blocked == Some(k);
      e := Forward;
    } else {
      var w := l.worker.value;
      match w.phase {
        case Draining => e := EndDrain(k);
        case Running =>
          e := if w.reporting then Report(k) else if w.pending != [] then Send(k, true) else EndBatch(k);
        case Waiting =>
          QueueTaken(s.taken, k, l);
          e := Receive(k);
      }
    }
  }

  lemma WorkerNotHeld(l: Lane)
    requires PlacesOk(l)
    ensures l.worker.Some? ==> l.held.None?
  {
    hide Local;
  }

  lemma NotStuck(s: System, order: seq<TargetKey>) returns (e: Event)
    requires Inv(s) && IsEnumeration(order, s.lanes.Keys) && TotalWork(s, order) > 0
    ensures Internal(e) && Enabled(s, e)
  {
    hide Inv, TotalWork, Enabled, LaneWork;
    var k := BusyLane(s, order);
    e := LaneNotStuck(s, k);
  }

  // ----- Where runs end -----

  /** Nothing is held, queued, pending or being reported. */
  ghost predicate Settled(s: System) {
    forall k :: k in s.lanes ==>
      && s.lanes[k].held.None?
      && (s.lanes[k].worker.Some? ==> s.lanes[k].worker.value == Worker([], [], Waiting, false))
  }

  lemma {:induction false} NoWorkSettles(s: System, order: seq<TargetKey>)
    requires TotalWork(s, order) == 0
    ensures forall k :: k in order ==> LaneWork(LaneOf(s, k)) == 0
    decreases |order|
  {
    hide LaneWork;
    if order == [] {
    } else {
      NoWorkSettles(s, order[..|order| - 1]);
      assert order == order[..|order| - 1] + [order[|order| - 1]];
    }
  }

  lemma SettledWithoutWork(s: System, order: seq<TargetKey>)
    requires IsEnumeration(order, s.lanes.Keys) && TotalWork(s, order) == 0
    ensures Settled(s)
  {
    hide TotalWork;
    NoWorkSettles(s, order);
    forall k | k in s.lanes
      ensures s.lanes[k].held.None?
      ensures s.lanes[k].worker.Some? ==> s.lanes[k].worker.value == Worker([], [], Waiting, false)
    {
      assert k in order;
      assert LaneWork(LaneOf(s, k)) == 0;
    }
  }

  /** Without new intents every run is bounded, in whatever order the steps are taken, and a
      run that cannot be continued has settled. */
  lemma {:induction false} LeftAloneSettles(s: System, es: seq<Event>, order: seq<TargetKey>)
    requires Inv(s) && IsEnumeration(order, s.lanes.Keys) && CanRun(s, es)
    requires forall e :: e in es ==> Internal(e)
    ensures |es| <= TotalWork(s, order)
    ensures RunAll(s, es).taken == s.taken
    ensures (forall e :: Internal(e) ==> !Enabled(RunAll(s, es), e)) ==> Settled(RunAll(s, es))
    decreases |es|
  {
    hide Inv, Enabled, Step, TotalWork, Settled, IsEnumeration;
    if es == [] {
      if forall e :: Internal(e) ==> !Enabled(s, e) {
        if TotalWork(s, order) > 0 {
          var e := NotStuck(s, order);
        }
        SettledWithoutWork(s, order);
      }
    } else {
      assert es[0] in es;
      InternalStepWorks(s, es[0], order);
      StepKeepsInv(s, es[0]);
      LeftAloneSettles(Step(s, es[0]), es[1..], order);
    }
  }

  lemma {:induction false} CanSettle(s: System, order: seq<TargetKey>) returns (es: seq<Event>)
    requires Inv(s) && IsEnumeration(order, s.lanes.Keys)
    ensures CanRun(s, es) && (forall e :: e in es ==> Internal(e))
    ensures Settled(RunAll(s, es)) && RunAll(s, es).taken == s.taken
    decreases TotalWork(s, order)
  {
    hide Inv, Enabled, Step, TotalWork, Settled, IsEnumeration;
    if TotalWork(s, order) == 0 {
      es := [];
      SettledWithoutWork(s, order);
    } else {
      var e := NotStuck(s, order);
      InternalStepWorks(s, e, order);
      StepKeepsInv(s, e);
      var rest := CanSettle(Step(s, e), order);
      es := [e] + rest;
      assert es[1..] == rest;
    }
  }

  /** What settling means for one lane: each intent taken for it was forwarded, dropped or
      executed, once, and every executed one was reported. */
  ghost predicate Answered(s: System, k: TargetKey) {
    var l := LaneOf(s, k);
    && (forall id :: 0 <= id < |s.taken| && KeyOf(s.taken[id]) == k ==>
          multiset(l.forwarded + l.dropped + Ids(Groups(l.executed)))[id] == 1)
    && FramesMatch(s.taken, l.forwarded, l.executed, l.frames)
  }

  lemma SettledIsAnswered(s: System, k: TargetKey)
    requires Inv(s) && Settled(s)
    ensures Answered(s, k)
  {
    hide Interleaved, FramesMatch, GroupsOk;
    var l := LaneOf(s, k);
    assert LaneOk(s.taken, k, l);
    assert Reported(l) == l.executed;
    SettledPlaces(l);
    forall id | 0 <= id < |s.taken| && KeyOf(s.taken[id]) == k
      ensures multiset(l.forwarded + l.dropped + Ids(Groups(l.executed)))[id] == 1
    {
      PlacesAreHistory(l);
      IncreasingCount(l.history, id);
    }
  }

  lemma SettledPlaces(l: Lane)
    requires l.held.None? && (l.worker.Some? ==> l.worker.value == Worker([], [], Waiting, false))
    ensures Places(l) == l.forwarded + l.dropped + Ids(Groups(l.executed))
  {
    var ids := Ids(Groups(l.executed));
    assert Ids([]) == [];
    assert Local(l) == ids;
    assert l.forwarded + [] + l.dropped + ids == l.forwarded + l.dropped + ids;
  }

  /** From every reachable state the system can finish by its own steps: then every intent
      ever taken has been forwarded, dropped on a full queue, or executed and reported. */
  lemma EveryIntentIsAnswered(es: seq<Event>) returns (rest: seq<Event>)
    requires CanRun(INITIAL, es)
    ensures CanRun(RunAll(INITIAL, es), rest) && (forall e :: e in rest ==> Internal(e))
    ensures RunAll(RunAll(INITIAL, es), rest).taken == RunAll(INITIAL, es).taken
    ensures forall k :: Answered(RunAll(RunAll(INITIAL, es), rest), k)
  {
    hide Inv, Enabled, Step, Settled, Answered;
    InitialInv();
    RunKeepsInv(INITIAL, es);
    var s := RunAll(INITIAL, es);
    var order := EnumerationExists(s.lanes.Keys);
    rest := CanSettle(s, order);
    RunKeepsInv(s, rest);
    forall k ensures Answered(RunAll(s, rest), k) {
      SettledIsAnswered(RunAll(s, rest), k);
    }
  }
}
