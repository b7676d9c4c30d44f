/** The dispatcher's accounts in terms of what happened to it: which intents came in, what the
    adapter lookups said, how full the queues were, and what the adapters answered. */
module DispatcherHistory {
  import opened Common
  import opened Contracts
  import opened Dispatcher

  lemma {:induction false} RunSnoc(s: System, es: seq<Event>)
    requires CanRun(s, es) && es != []
    ensures var n := |es| - 1;
            CanRun(s, es[..n]) && Enabled(RunAll(s, es[..n]), es[n]) && RunAll(s, es) == Step(RunAll(s, es[..n]), es[n])
    decreases |es|
  {
    hide Enabled, Step;
    var n := |es| - 1;
    if n == 0 {
      assert es[1..] == [] && es[..0] == [];
    } else {
      RunSnoc(Step(s, es[0]), es[1..]);
      assert es[..n][0] == es[0] && es[..n][1..] == es[1..][..n - 1];
    }
  }

  predicate Addressed(r: RoutedIntent, k: TargetKey) {
    r.serviceType == k.serviceType && r.serviceTarget == k.target
  }

  datatype Arrival = Arrival(r: RoutedIntent, adapter: bool)

  /** The intents the dispatcher took during the run, each with the answer of the lookup. */
  function Arrivals(es: seq<Event>): seq<Arrival> {
    if es == [] then []
    else
      var e := es[|es| - 1];
      Arrivals(es[..|es| - 1]) + (if e.Take? then [Arrival(e.r, e.adapter)] else [])
  }

  lemma StepTakes(s: System, e: Event)
    requires Enabled(s, e)
    ensures Step(s, e).taken == s.taken + (if e.Take? then [e.r] else [])
  {
    if !e.Take? {
      assert s.taken + [] == s.taken;
    }
  }

  /** The intents are numbered in the order in which they came in. */
  lemma {:induction false} TakenExactly(es: seq<Event>)
    requires CanRun(INITIAL, es)
    ensures var taken, came := RunAll(INITIAL, es).taken, Arrivals(es);
            |taken| == |came| && forall i :: 0 <= i < |came| ==> taken[i] == came[i].r
    decreases |es|
  {
    if es == [] {
    } else {
      hide Enabled, Step;
      var n := |es| - 1;
      RunSnoc(INITIAL, es);
      TakenExactly(es[..n]);
      StepTakes(RunAll(INITIAL, es[..n]), es[n]);
    }
  }

  // ----- Who gets an intent -----

  lemma StepWorker(s: System, e: Event, k: TargetKey)
    requires Enabled(s, e)
    ensures HasWorker(Step(s, e), k) <==> HasWorker(s, k) || (e.Take? && Addressed(e.r, k) && e.adapter)
  {
  }

  /** An adapter was there when one of the key's intents came in. */
  ghost predicate AdapterSeen(came: seq<Arrival>, k: TargetKey) {
    exists i :: 0 <= i < |came| && Addressed(came[i].r, k) && came[i].adapter
  }

  lemma SeenSnoc(came: seq<Arrival>, a: Arrival, k: TargetKey)
    ensures AdapterSeen(came + [a], k) <==> AdapterSeen(came, k) || (Addressed(a.r, k) && a.adapter)
  {
    hide Addressed;
    var more := came + [a];
    assert more[|came|] == a && forall i :: 0 <= i < |came| ==> more[i] == came[i];
  }

  /** A key has a worker if and only if an adapter was there when one of its intents came in. */
  lemma {:induction false} WorkerExactly(es: seq<Event>, k: TargetKey)
    requires CanRun(INITIAL, es)
    ensures HasWorker(RunAll(INITIAL, es), k) <==> AdapterSeen(Arrivals(es), k)
    decreases |es|
  {
    if es == [] {
    } else {
      hide Enabled, Step, HasWorker, Addressed, AdapterSeen;
      var n := |es| - 1;
      RunSnoc(INITIAL, es);
      WorkerExactly(es[..n], k);
      StepWorker(RunAll(INITIAL, es[..n]), es[n], k);
      if es[n].Take? {
        SeenSnoc(Arrivals(es[..n]), Arrival(es[n].r, es[n].adapter), k);
      } else {
        assert Arrivals(es[..n]) + [] == Arrivals(es[..n]);
      }
    }
  }

  /** The intent goes to the server: no adapter has been there for its key, up to this one. */
  ghost predicate Unserved(came: seq<Arrival>, k: TargetKey, id: nat) {
    && id < |came| && Addressed(came[id].r, k)
    && forall j :: 0 <= j <= id && Addressed(came[j].r, k) ==> !came[j].adapter
  }

  ghost predicate Forwards(s: System, k: TargetKey, id: nat) {
    id in LaneOf(s, k).forwarded || LaneOf(s, k).held == Some(id)
  }

  lemma StepForwards(s: System, e: Event, k: TargetKey, id: nat)
    requires Enabled(s, e) && Inv(s)
    ensures Forwards(Step(s, e), k, id) <==>
            Forwards(s, k, id) || (e.Take? && id == |s.taken| && Addressed(e.r, k) && !e.adapter && !HasWorker(s, k))
  {
    hide LaneOk;
    assert LaneOf(s, k).held.Some? <==> s.blocked == Some(k);
    if e.Take? && Addressed(e.r, k) {
      assert KeyOf(e.r) == k;
    }
  }

  lemma UnservedSnoc(came: seq<Arrival>, a: Arrival, k: TargetKey, id: nat)
    ensures Unserved(came + [a], k, id) <==>
            Unserved(came, k, id) || (id == |came| && Addressed(a.r, k) && !a.adapter && !AdapterSeen(came, k))
  {
    hide Addressed;
    var more := came + [a];
    assert more[|came|] == a && forall i :: 0 <= i < |came| ==> more[i] == came[i];
  }

  /** Exactly: an intent is forwarded, or waits for room to be, if and only if no adapter was
      there for its key when it came in, nor for any intent of the key before it. */
  lemma {:induction false} ForwardedExactly(es: seq<Event>, k: TargetKey, id: nat)
    requires CanRun(INITIAL, es)
    ensures Forwards(RunAll(INITIAL, es), k, id) <==> Unserved(Arrivals(es), k, id)
    decreases |es|
  {
    if es == [] {
    } else {
      hide Enabled, Step, HasWorker, Addressed, Forwards, Inv, Unserved, AdapterSeen;
      var n := |es| - 1;
      RunSnoc(INITIAL, es);
      var s := RunAll(INITIAL, es[..n]);
      ForwardedExactly(es[..n], k, id);
      InitialInv();
      RunKeepsInv(INITIAL, es[..n]);
      StepForwards(s, es[n], k, id);
      WorkerExactly(es[..n], k);
      TakenExactly(es[..n]);
      if es[n].Take? {
        UnservedSnoc(Arrivals(es[..n]), Arrival(es[n].r, es[n].adapter), k, id);
      } else {
        assert Arrivals(es[..n]) + [] == Arrivals(es[..n]);
      }
    }
  }

  /** The queue of the key's worker has 64 intents waiting. */
  ghost predicate QueueFull(s: System, k: TargetKey) {
    HasWorker(s, k) && |s.lanes[k].worker.value.queue| == 64
  }

  lemma TakeDrops(s: System, r: RoutedIntent, adapter: bool, k: TargetKey, id: nat)
    requires s.blocked.None? && LaneOf(s, k).held.None?
    requires LaneOf(s, k).worker.Some? ==> |LaneOf(s, k).worker.value.queue| <= 64
    ensures id in LaneOf(Step(s, Take(r, adapter)), k).dropped <==>
            id in LaneOf(s, k).dropped || (id == |s.taken| && Addressed(r, k) && QueueFull(s, k))
  {
    assert KeyOf(r) == k <==> Addressed(r, k);
  }

  lemma OtherKeepsDropped(s: System, e: Event, k: TargetKey)
    requires Enabled(s, e) && !e.Take?
    ensures LaneOf(Step(s, e), k).dropped == LaneOf(s, k).dropped
  {
    hide PushGroup;
  }

  lemma StepDrops(s: System, e: Event, k: TargetKey, id: nat)
    requires Enabled(s, e) && Inv(s)
    ensures id in LaneOf(Step(s, e), k).dropped <==>
            id in LaneOf(s, k).dropped || (e.Take? && id == |s.taken| && Addressed(e.r, k) && QueueFull(s, k))
  {
    hide HistoryOk, FramesOk, WorkerOk, Interleaved, Step, QueueFull, Addressed;
    assert LaneOk(s.taken, k, LaneOf(s, k));
    if e.Take? {
      TakeDrops(s, e.r, e.adapter, k, id);
    } else {
      OtherKeepsDropped(s, e, k);
    }
  }

  lemma DroppedWasTaken(s: System, k: TargetKey, id: nat)
    requires Inv(s) && id in LaneOf(s, k).dropped
    ensures id < |s.taken|
  {
    var l := LaneOf(s, k);
    assert LaneOk(s.taken, k, l);
    hide FramesOk, WorkerOk, Local;
    PlacesAreHistory(l);
    assert id in Places(l) && id in multiset(Places(l));
    assert id in multiset(l.history) && id in l.history;
  }

  /** Exactly: an intent is dropped if and only if the queue of its key's worker was full, with
      64 waiting, at the moment it came in. */
  lemma {:induction false} DroppedExactly(es: seq<Event>, n: nat)
    requires CanRun(INITIAL, es) && n < |es| && es[n].Take?
    ensures CanRun(INITIAL, es[..n])
    ensures var s, k := RunAll(INITIAL, es[..n]), TargetKey(es[n].r.serviceType, es[n].r.serviceTarget);
            && |s.taken| < |RunAll(INITIAL, es).taken|
            && (|s.taken| in LaneOf(RunAll(INITIAL, es), k).dropped <==> QueueFull(s, k))
    decreases |es|
  {
    hide Enabled, Step, HasWorker, QueueFull, Inv;
    var last := |es| - 1;
    var k := TargetKey(es[n].r.serviceType, es[n].r.serviceTarget);
    RunSnoc(INITIAL, es);
    var before := RunAll(INITIAL, es[..last]);
    InitialInv();
    RunKeepsInv(INITIAL, es[..last]);
    StepTakes(before, es[last]);
    if n == last {
      StepDrops(before, es[n], k, |before.taken|);
      if |before.taken| in LaneOf(before, k).dropped {
        DroppedWasTaken(before, k, |before.taken|);
      }
    } else {
      DroppedExactly(es[..last], n);
      assert es[..last][..n] == es[..n] && es[..last][n] == es[n];
      StepDrops(before, es[last], k, |RunAll(INITIAL, es[..n]).taken|);
    }
  }

  // ----- What the adapters answered -----

  /** The adapter's answers to the intents sent for the key, in order. */
  function Answers(es: seq<Event>, k: TargetKey): seq<bool> {
    if es == [] then []
    else
      var e := es[|es| - 1];
      Answers(es[..|es| - 1], k) + (if e.Send? && e.k == k then [e.ok] else [])
  }

  lemma StepAnswers(s: System, e: Event, k: TargetKey)
    requires Enabled(s, e)
    ensures var before, after := LaneOf(s, k).executed, LaneOf(Step(s, e), k).executed;
            if e.Send? && e.k == k then |after| == |before| + 1 && before <= after && after[|before|].ok == e.ok
            else after == before
  {
  }

  /** Every intent executed carries the adapter's own answer, and so does the Command that
      reports it. */
  lemma {:induction false} AnswersExactly(es: seq<Event>, k: TargetKey)
    requires CanRun(INITIAL, es)
    ensures var executed := LaneOf(RunAll(INITIAL, es), k).executed;
            |executed| == |Answers(es, k)| && forall i :: 0 <= i < |executed| ==> executed[i].ok == Answers(es, k)[i]
    decreases |es|
  {
    if es == [] {
    } else {
      hide Enabled, Step, LaneOf;
      var n := |es| - 1;
      RunSnoc(INITIAL, es);
      AnswersExactly(es[..n], k);
      StepAnswers(RunAll(INITIAL, es[..n]), es[n], k);
      var s, s' := RunAll(INITIAL, es[..n]), RunAll(INITIAL, es);
      if !(es[n].Send? && es[n].k == k) {
        assert Answers(es[..n], k) + [] == Answers(es[..n], k);
      }
    }
  }
}
