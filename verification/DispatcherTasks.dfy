/** The dispatcher loop and the worker loop as they run, each tied to the steps of
    the concurrent system. */
module DispatcherTasks {
  import opened Common
  import opened Contracts
  import opened Coalescing
  import opened Dispatcher

  /** The worker queues after the dispatcher handled `r`. */
  function QueuesAfter(workers: map<TargetKey, seq<Intent>>, r: RoutedIntent, adapter: bool): map<TargetKey, seq<Intent>> {
    var k := KeyOf(r);
    if k in workers then
      if |workers[k]| < QUEUE_CAPACITY then workers[k := workers[k] + [r.intent]] else workers
    else if adapter then workers[k := [r.intent]]
    else workers
  }

  /** What the dispatcher puts on the outbox for `r`. */
  function ForwardFrames(workers: map<TargetKey, seq<Intent>>, r: RoutedIntent, adapter: bool): seq<LaneFrame> {
    if KeyOf(r) !in workers && !adapter then [DispatchIntentFrame(r.intent)] else []
  }

  class DispatcherTask {
    var workers: map<TargetKey, seq<Intent>>
    var outbox: seq<LaneFrame>

    constructor ()
      ensures workers == map[] && outbox == []
    {
      workers, outbox := map[], [];
    }

    /** One turn of the dispatcher loop; `adapter` is the answer of the adapter lookup. */
    method Dispatch(r: RoutedIntent, adapter: bool)
      modifies this
      ensures workers == QueuesAfter(old(workers), r, adapter)
      ensures outbox == old(outbox) + ForwardFrames(old(workers), r, adapter)
    {
      var key := TargetKey(r.serviceType, r.serviceTarget);
      if key !in workers {
        if !adapter {
          outbox := outbox + [DispatchIntentFrame(r.intent)];
          return;
        }
        workers := workers[key := []];
      }
      var queue := workers[key];
      if |queue| < QUEUE_CAPACITY {
        workers := workers[key := queue + [r.intent]];
        assert key !in old(workers) ==> queue + [r.intent] == [r.intent];
      }
    }
  }

  function CommandFrames(xs: seq<Intent>, results: nat -> bool): (frames: seq<LaneFrame>)
    ensures |frames| == |xs|
    ensures forall i :: 0 <= i < |xs| ==> frames[i] == CommandFrame(xs[i], results(i))
  {
    seq(|xs|, i requires 0 <= i < |xs| => CommandFrame(xs[i], results(i)))
  }

  /** What the worker loop works on. */
  datatype Loop = Loop(queue: seq<Intent>, pending: seq<Intent>, phase: Phase, sent: seq<Intent>, frames: seq<LaneFrame>)

  /** How many portions of arrivals a drain sees that starts with `queued` intents. */
  function PortionsDrained(queued: nat, arrivals: seq<seq<Intent>>): (n: nat)
    ensures n <= |arrivals|
    decreases |arrivals|
  {
    if queued == 0 || arrivals == [] then 0
    else 1 + PortionsDrained(queued - 1 + |arrivals[0]|, arrivals[1..])
  }

  /** One turn: what was queued and what came before the drain ended is merged, sent and
      reported, the rest is queued. */
  function Turn(v: Loop, arrivals: seq<seq<Intent>>, results: nat -> bool): Loop {
    var n := PortionsDrained(|v.queue|, arrivals);
    var batch := Merge(v.queue + Flatten(arrivals[..n]));
    v.(queue := Flatten(arrivals[n..]), sent := v.sent + batch, frames := v.frames + CommandFrames(batch, results))
  }

  /** Nothing is lost or overtaken by a turn: what it merged and what is queued afterwards
      are what was queued before and what came in, in order. */
  lemma TurnLosesNothing(v: Loop, arrivals: seq<seq<Intent>>, results: nat -> bool)
    returns (merged: seq<Intent>)
    ensures merged + Turn(v, arrivals, results).queue == v.queue + Flatten(arrivals)
    ensures Turn(v, arrivals, results).sent == v.sent + Merge(merged) && |v.queue| <= |merged|
  {
    var n := PortionsDrained(|v.queue|, arrivals);
    merged := v.queue + Flatten(arrivals[..n]);
    FlattenConcat(arrivals[..n], arrivals[n..]);
    assert arrivals[..n] + arrivals[n..] == arrivals;
    Associative(v.queue, Flatten(arrivals[..n]), Flatten(arrivals[n..]));
  }

  class WorkerTask {
    var queue: seq<Intent>
    var sent: seq<Intent>
    var outbox: seq<LaneFrame>

    constructor (first: Intent)
      ensures queue == [first] && sent == [] && outbox == []
    {
      queue, sent, outbox := [first], [], [];
    }

    /** Drain the queue into merged intents. `arrivals` are the intents that come in meanwhile,
        in portions, one after each receive; the drain ends when it finds the queue empty. */
    method DrainQueue(arrivals: seq<seq<Intent>>) returns (batch: seq<Intent>, arrived: nat)
      requires queue != []
      modifies this`queue
      ensures queue == [] && arrived == PortionsDrained(|old(queue)|, arrivals)
      ensures batch == Merge(old(queue) + Flatten(arrivals[..arrived]))
    {
      hide SameDeltaKind, Push, Merge, Flatten, PortionsDrained;
      var pending := new PendingIntents();
      arrived := 0;
      ghost var start, taken: seq<Intent> := queue, [];
      PortionsAtEnds(arrivals);
      assert taken + queue == start + Flatten(arrivals[..0]) && arrivals[0..] == arrivals;
      while queue != []
        invariant fresh(pending) && 0 <= arrived <= |arrivals|
        invariant arrived + PortionsDrained(|queue|, arrivals[arrived..]) == PortionsDrained(|start|, arrivals)
        invariant taken + queue == start + Flatten(arrivals[..arrived])
        invariant pending.items == Merge(taken)
        decreases |arrivals| - arrived, |queue|
      {
        var next := queue[0];
        Received(start, taken, queue, arrivals, arrived);
        MergeSnoc(taken, next);
        queue := queue[1..];
        pending.PushMerged(next);
        taken := taken + [next];
        if arrived < |arrivals| {
          queue := queue + arrivals[arrived];
          arrived := arrived + 1;
        }
      }
      assert taken + [] == taken;
      PortionsAtEnds(arrivals[arrived..]);
      batch := pending.items;
    }

    /** Send a batch one intent at a time, reporting each with the adapter's answer. */
    method SendBatch(batch: seq<Intent>, results: nat -> bool)
      modifies this`sent, this`outbox
      ensures sent == old(sent) + batch
      ensures outbox == old(outbox) + CommandFrames(batch, results)
    {
      for j := 0 to |batch|
        invariant sent == old(sent) + batch[..j]
        invariant outbox == old(outbox) + CommandFrames(batch, results)[..j]
      {
        sent := sent + [batch[j]];
        outbox := outbox + [CommandFrame(batch[j], results(j))];
      }
      assert batch[..|batch|] == batch;
    }

    /** One turn of the worker loop, while `arrivals` come in: what was queued, and what came in
        before the drain ended, is merged, sent and reported; the rest waits for the next turn.
        Nothing is lost or overtaken. */
    method RunBatch(arrivals: seq<seq<Intent>>, results: nat -> bool)
      requires queue != []
      modifies this
      ensures Shown() == Turn(old(Shown()), arrivals, results)
    {
      hide Merge, Flatten;
      var batch, arrived := DrainQueue(arrivals);
      SendBatch(batch, results);
      queue := Flatten(arrivals[arrived..]);
    }

    /** The task's fields, waiting for the next turn. */
    function Shown(): Loop
      reads this
    {
      Loop(queue, [], Waiting, sent, outbox)
    }
  }

  lemma PortionsAtEnds(arrivals: seq<seq<Intent>>)
    ensures PortionsDrained(0, arrivals) == 0 && Flatten(arrivals[..0]) == [] && Merge([]) == []
  {
  }

  /** One receive of the drain, and what comes in after it. */
  lemma Received(start: seq<Intent>, taken: seq<Intent>, queue: seq<Intent>, arrivals: seq<seq<Intent>>, arrived: nat)
    requires queue != [] && arrived <= |arrivals| && taken + queue == start + Flatten(arrivals[..arrived])
    ensures (taken + [queue[0]]) + queue[1..] == start + Flatten(arrivals[..arrived])
    ensures arrived == |arrivals| ==>
              PortionsDrained(|queue|, arrivals[arrived..]) == PortionsDrained(|queue[1..]|, arrivals[arrived..])
    ensures arrived < |arrivals| ==>
              && (taken + [queue[0]]) + (queue[1..] + arrivals[arrived]) == start + Flatten(arrivals[..arrived + 1])
              && PortionsDrained(|queue|, arrivals[arrived..])
                 == 1 + PortionsDrained(|queue[1..] + arrivals[arrived]|, arrivals[arrived + 1..])
  {
    hide Flatten;
    assert queue == [queue[0]] + queue[1..];
    Associative(taken, [queue[0]], queue[1..]);
    if arrived < |arrivals| {
      FlattenSnoc(arrivals[..arrived], arrivals[arrived]);
      assert arrivals[..arrived + 1] == arrivals[..arrived] + [arrivals[arrived]];
      assert arrivals[arrived..][1..] == arrivals[arrived + 1..];
      Associative(taken + [queue[0]], queue[1..], arrivals[arrived]);
      Associative(start, Flatten(arrivals[..arrived]), arrivals[arrived]);
    }
  }

  lemma MergeSnoc(xs: seq<Intent>, x: Intent)
    ensures Merge(xs + [x]) == Push(Merge(xs), x)
  {
    assert (xs + [x])[..|xs|] == xs;
  }

  lemma {:induction false} FlattenConcat(a: seq<seq<Intent>>, b: seq<seq<Intent>>)
    ensures Flatten(a + b) == Flatten(a) + Flatten(b)
    decreases |a|
  {
    if a == [] {
      assert a + b == b;
      assert [] + Flatten(b) == Flatten(b);
    } else {
      assert (a + b)[1..] == a[1..] + b;
      FlattenConcat(a[1..], b);
      Associative(a[0], Flatten(a[1..]), Flatten(b));
    }
  }

  lemma FlattenSnoc(a: seq<seq<Intent>>, x: seq<Intent>)
    ensures Flatten(a + [x]) == Flatten(a) + x
  {
    FlattenConcat(a, [x]);
    assert [x][1..] == [];
    assert Flatten([x]) == x + [] == x;
  }

  // ----- The loops are the system's steps -----

  /** The queue of lane `k` as the dispatcher's worker map shows it. */
  ghost predicate ShowsQueue(workers: map<TargetKey, seq<Intent>>, taken: seq<RoutedIntent>, k: TargetKey, l: Lane) {
    && (k in workers <==> l.worker.Some?)
    && (l.worker.Some? ==>
          && InRange(taken, l.worker.value.queue)
          && workers[k] == Taken(taken, l.worker.value.queue))
  }

  /** If the dispatcher's worker map shows a queue before the loop body, it shows the queue
      after the system's `Take` step. */
  lemma DispatchRefinesTake(s: System, workers: map<TargetKey, seq<Intent>>, r: RoutedIntent, adapter: bool, k: TargetKey)
    requires s.blocked.None?
    requires ShowsQueue(workers, s.taken, k, LaneOf(s, k))
    ensures ShowsQueue(QueuesAfter(workers, r, adapter), s.taken + [r], k, LaneOf(Step(s, Take(r, adapter)), k))
  {
    var l := LaneOf(s, k);
    var taken' := s.taken + [r];
    if l.worker.Some? {
      var queue := l.worker.value.queue;
      assert Taken(taken', queue) == Taken(s.taken, queue);
      assert Taken(taken', queue + [|s.taken|]) == Taken(s.taken, queue) + [r.intent];
      assert |workers[k]| == |queue|;
    } else {
      assert Taken(taken', [|s.taken|]) == [r.intent];
    }
  }

  lemma {:induction false} RunConcatenation(s: System, a: seq<Event>, b: seq<Event>)
    requires CanRun(s, a) && CanRun(RunAll(s, a), b)
    ensures CanRun(s, a + b) && RunAll(s, a + b) == RunAll(RunAll(s, a), b)
    decreases |a|
  {
    hide Enabled, Step;
    if a == [] {
      assert a + b == b;
    } else {
      assert (a + b)[0] == a[0] && (a + b)[1..] == a[1..] + b;
      RunConcatenation(Step(s, a[0]), a[1..], b);
    }
  }

  lemma RunOne(s: System, e: Event, es: seq<Event>)
    requires Enabled(s, e) && CanRun(Step(s, e), es)
    ensures CanRun(s, [e] + es) && RunAll(s, [e] + es) == RunAll(Step(s, e), es)
  {
    hide Enabled, Step;
    assert ([e] + es)[1..] == es;
  }

  lemma DispatchFrames(s: System, workers: map<TargetKey, seq<Intent>>, r: RoutedIntent, adapter: bool)
    requires s.blocked.None? && LaneOf(s, KeyOf(r)).held.None?
    requires ShowsQueue(workers, s.taken, KeyOf(r), LaneOf(s, KeyOf(r)))
    ensures var k, s1 := KeyOf(r), Step(s, Take(r, adapter));
            && LaneOf(s1, k).frames == LaneOf(s, k).frames
            && (ForwardFrames(workers, r, adapter) == [] ==> s1.blocked.None?)
            && (ForwardFrames(workers, r, adapter) != [] ==>
                  && Enabled(s1, Forward)
                  && LaneOf(Step(s1, Forward), k) == LaneOf(s1, k).(
                       held := None, forwarded := LaneOf(s, k).forwarded + [|s.taken|],
                       frames := LaneOf(s, k).frames + ForwardFrames(workers, r, adapter)))
  {
  }

  /** One turn of the dispatcher loop is a run of the system: taking the intent, and waiting for
      room to forward it where there is no adapter. The worker map shows every lane's queue
      afterwards if it did before, and what the loop put on the outbox is what the intent's
      lane gained; no other lane gained anything. */
  lemma DispatchIsSteps(s: System, workers: map<TargetKey, seq<Intent>>, r: RoutedIntent, adapter: bool) returns (es: seq<Event>)
    requires Inv(s) && s.blocked.None?
    requires forall k :: ShowsQueue(workers, s.taken, k, LaneOf(s, k))
    ensures CanRun(s, es) && RunAll(s, es).blocked.None? && RunAll(s, es).taken == s.taken + [r]
    ensures forall k :: ShowsQueue(QueuesAfter(workers, r, adapter), s.taken + [r], k, LaneOf(RunAll(s, es), k))
    ensures forall k :: LaneOf(RunAll(s, es), k).frames ==
                        LaneOf(s, k).frames + (if k == KeyOf(r) then ForwardFrames(workers, r, adapter) else [])
  {
    hide LaneOk, Offer, QueuesAfter;
    var key := KeyOf(r);
    var frames := ForwardFrames(workers, r, adapter);
    assert LaneOf(s, key).held.None?;
    assert ShowsQueue(workers, s.taken, key, LaneOf(s, key));
    DispatchFrames(s, workers, r, adapter);
    var s1 := Step(s, Take(r, adapter));
    forall k ensures ShowsQueue(QueuesAfter(workers, r, adapter), s.taken + [r], k, LaneOf(s1, k)) {
      DispatchRefinesTake(s, workers, r, adapter, k);
    }
    if frames == [] {
      es := [Take(r, adapter)] + [];
      RunOne(s, Take(r, adapter), []);
    } else {
      RunOne(s1, Forward, []);
      RunOne(s, Take(r, adapter), [Forward] + []);
      es := [Take(r, adapter)] + ([Forward] + []);
    }
    var s2 := RunAll(s, es);
    forall k ensures ShowsQueue(QueuesAfter(workers, r, adapter), s.taken + [r], k, LaneOf(s2, k))
             ensures LaneOf(s2, k).frames == LaneOf(s, k).frames + (if k == key then frames else [])
    {
      assert ShowsQueue(QueuesAfter(workers, r, adapter), s.taken + [r], k, LaneOf(s1, k));
      assert k != key ==> LaneOf(s2, k) == LaneOf(s, k);
    }
  }

  // ----- The worker loop -----

  /** The lane of `k` shows what the worker loop works on. */
  ghost predicate Shows(s: System, k: TargetKey, v: Loop) {
    && s.blocked.None? && HasWorker(s, k)
    && var l := s.lanes[k]; var w := l.worker.value;
    && l.held.None? && InRange(s.taken, w.queue) && Taken(s.taken, w.queue) == v.queue
    && Intents(w.pending) == v.pending && w.phase == v.phase && !w.reporting
    && Intents(Groups(l.executed)) == v.sent && l.frames == v.frames
  }

  /** The run `es` takes `arrived` for lane `k` in, leaves that lane showing `v`, and leaves
      every other lane alone. */
  ghost predicate Reaches(s: System, es: seq<Event>, k: TargetKey, v: Loop, arrived: seq<Intent>) {
    && CanRun(s, es)
    && var s' := RunAll(s, es);
    && Shows(s', k, v) && s'.taken == s.taken + AddressedTo(k, arrived)
    && forall j :: j != k ==> LaneOf(s', j) == LaneOf(s, j)
  }

  function AddressedTo(k: TargetKey, xs: seq<Intent>): (rs: seq<RoutedIntent>)
    ensures |rs| == |xs| && forall i :: 0 <= i < |xs| ==> KeyOf(rs[i]) == k && rs[i].intent == xs[i]
  {
    seq(|xs|, i requires 0 <= i < |xs| => RoutedIntent(k.serviceType, k.target, xs[i]))
  }

  lemma ReachesSame(s: System, k: TargetKey, v: Loop)
    requires Shows(s, k, v)
    ensures Reaches(s, [], k, v, [])
  {
    assert s.taken + AddressedTo(k, []) == s.taken;
  }

  lemma ReachesThen(s: System, a: seq<Event>, k: TargetKey, v: Loop, arrived: seq<Intent>, b: seq<Event>, v': Loop, more: seq<Intent>)
    requires Reaches(s, a, k, v, arrived) && Reaches(RunAll(s, a), b, k, v', more)
    ensures Reaches(s, a + b, k, v', arrived + more)
  {
    hide CanRun, RunAll, Shows, LaneOf;
    RunConcatenation(s, a, b);
    assert AddressedTo(k, arrived + more) == AddressedTo(k, arrived) + AddressedTo(k, more);
    Associative(s.taken, AddressedTo(k, arrived), AddressedTo(k, more));
  }

  lemma ReachesNext(s: System, a: seq<Event>, k: TargetKey, v: Loop, arrived: seq<Intent>, b: seq<Event>, v': Loop)
    requires Reaches(s, a, k, v, arrived) && Reaches(RunAll(s, a), b, k, v', [])
    ensures Reaches(s, a + b, k, v', arrived)
  {
    hide Reaches;
    ReachesThen(s, a, k, v, arrived, b, v', []);
    assert arrived + [] == arrived;
  }

  /** One step that takes nothing in. */
  lemma ReachesByStep(s: System, e: Event, k: TargetKey, v: Loop)
    requires Enabled(s, e) && !e.Take? && !e.Forward? && e.k == k && Shows(Step(s, e), k, v)
    ensures Reaches(s, [e], k, v, [])
  {
    RunOne(s, e, []);
    assert [e] + [] == [e];
    assert s.taken + AddressedTo(k, []) == s.taken;
  }

  lemma ReceiveStep(s: System, k: TargetKey, v: Loop) returns (e: Event)
    requires Shows(s, k, v) && v.queue != []
    requires v.phase == Draining || (v.phase == Waiting && v.pending == [])
    ensures Reaches(s, [e], k, v.(queue := v.queue[1..], pending := Push(v.pending, v.queue[0]), phase := Draining), [])
  {
    hide Push, PushGroup;
    var w := s.lanes[k].worker.value;
    e := if v.phase == Draining then TryReceive(k) else Receive(k);
    PushGroupIsPush(w.pending, w.queue[0], v.queue[0]);
    assert v.pending == [] ==> w.pending == [];
    assert Taken(s.taken, w.queue[1..]) == v.queue[1..];
    ReachesByStep(s, e, k, v.(queue := v.queue[1..], pending := Push(v.pending, v.queue[0]), phase := Draining));
  }

  lemma ArriveStep(s: System, k: TargetKey, v: Loop, x: Intent) returns (e: Event)
    requires Shows(s, k, v) && |v.queue| < QUEUE_CAPACITY
    ensures Reaches(s, [e], k, v.(queue := v.queue + [x]), [x])
  {
    var r := RoutedIntent(k.serviceType, k.target, x);
    var w := s.lanes[k].worker.value;
    e := Take(r, true);
    assert KeyOf(r) == k;
    RunOne(s, e, []);
    assert [e] + [] == [e];
    assert AddressedTo(k, [x]) == [r];
    assert Taken(s.taken + [r], w.queue + [|s.taken|]) == v.queue + [x];
  }

  lemma {:induction false} ArriveSteps(s: System, k: TargetKey, v: Loop, xs: seq<Intent>) returns (es: seq<Event>)
    requires Shows(s, k, v) && |v.queue| + |xs| <= QUEUE_CAPACITY
    ensures Reaches(s, es, k, v.(queue := v.queue + xs), xs)
    decreases |xs|
  {
    hide Shows, CanRun, RunAll;
    if xs == [] {
      es := [];
      ReachesSame(s, k, v);
      assert v.queue + xs == v.queue;
    } else {
      var v1 := v.(queue := v.queue + [xs[0]]);
      var e := ArriveStep(s, k, v, xs[0]);
      var rest := ArriveSteps(RunAll(s, [e]), k, v1, xs[1..]);
      assert xs == [xs[0]] + xs[1..];
      Associative(v.queue, [xs[0]], xs[1..]);
      ReachesThen(s, [e], k, v1, [xs[0]], rest, v.(queue := v.queue + xs), xs[1..]);
      es := [e] + rest;
    }
  }

  /** The arrivals find room in the queue when they come, and those after the drain together. */
  predicate Fits(queued: nat, arrivals: seq<seq<Intent>>)
    decreases |arrivals|
  {
    if queued == 0 || arrivals == [] then |Flatten(arrivals)| <= QUEUE_CAPACITY
    else
      && queued - 1 + |arrivals[0]| <= QUEUE_CAPACITY
      && Fits(queued - 1 + |arrivals[0]|, arrivals[1..])
  }

  lemma PushAllCons(p: seq<Intent>, x: Intent, xs: seq<Intent>)
    ensures PushAll(p, [x] + xs) == PushAll(Push(p, x), xs)
  {
    hide Push;
    PushAllIsRun(p, [x] + xs);
    RunConcat(Push, p, [x], xs);
    PushAllIsRun(Push(p, x), xs);
    assert [x][..0] == [];
    assert Run(Push, p, [x]) == Push(p, x);
  }

  /** Receiving until the queue is found empty, while more comes in. */
  lemma {:induction false} DrainSteps(s: System, k: TargetKey, v: Loop, arrivals: seq<seq<Intent>>) returns (es: seq<Event>)
    requires Shows(s, k, v) && Fits(|v.queue|, arrivals)
    requires v.phase == Draining || (v.phase == Waiting && v.pending == [] && v.queue != [])
    ensures var came := Flatten(arrivals[..PortionsDrained(|v.queue|, arrivals)]);
            Reaches(s, es, k, v.(queue := [], pending := PushAll(v.pending, v.queue + came), phase := Draining), came)
    decreases |arrivals|, |v.queue|
  {
    hide Shows, CanRun, RunAll, Push, Reaches, Enabled, Step;
    if v.queue == [] {
      es := [];
      ReachesSame(s, k, v);
      assert arrivals[..0] == [] && v.queue + Flatten([]) == [];
      assert v.(queue := [], pending := PushAll(v.pending, []), phase := Draining) == v;
    } else {
      var x, q := v.queue[0], v.queue[1..];
      assert v.queue == [x] + q;
      var v1 := v.(queue := q, pending := Push(v.pending, x), phase := Draining);
      var e := ReceiveStep(s, k, v);
      assert Shows(RunAll(s, [e]), k, v1) by {
        ReachesShows(s, [e], k, v1, []);
      }
      if arrivals == [] {
        var rest := DrainSteps(RunAll(s, [e]), k, v1, []);
        var v2 := v1.(queue := [], pending := PushAll(v1.pending, q + []));
        ReachesNext(s, [e], k, v1, [], rest, v2);
        es := [e] + rest;
        assert q + [] == q && v.queue + [] == v.queue;
        PushAllCons(v.pending, x, q);
      } else {
        es := DrainOn(s, k, v, arrivals, e);
      }
    }
  }

  lemma ReachesShows(s: System, es: seq<Event>, k: TargetKey, v: Loop, arrived: seq<Intent>)
    requires Reaches(s, es, k, v, arrived)
    ensures CanRun(s, es) && Shows(RunAll(s, es), k, v)
  {
  }

  lemma {:induction false} DrainOn(s: System, k: TargetKey, v: Loop, arrivals: seq<seq<Intent>>, e: Event) returns (es: seq<Event>)
    requires v.queue != [] && arrivals != [] && Fits(|v.queue|, arrivals)
    requires Reaches(s, [e], k, v.(queue := v.queue[1..], pending := Push(v.pending, v.queue[0]), phase := Draining), [])
    ensures var came := Flatten(arrivals[..PortionsDrained(|v.queue|, arrivals)]);
            Reaches(s, es, k, v.(queue := [], pending := PushAll(v.pending, v.queue + came), phase := Draining), came)
    decreases |arrivals|, 0
  {
    hide Shows, CanRun, RunAll, Push, PushAll, Reaches;
    var x, q := v.queue[0], v.queue[1..];
    var v1 := v.(queue := q, pending := Push(v.pending, x), phase := Draining);
    ReachesShows(s, [e], k, v1, []);
    var arrive := ArriveSteps(RunAll(s, [e]), k, v1, arrivals[0]);
    var v2 := v1.(queue := q + arrivals[0]);
    ReachesThen(s, [e], k, v1, [], arrive, v2, arrivals[0]);
    assert [] + arrivals[0] == arrivals[0];
    ReachesShows(s, [e] + arrive, k, v2, arrivals[0]);
    var rest := DrainSteps(RunAll(s, [e] + arrive), k, v2, arrivals[1..]);
    var n := PortionsDrained(|v2.queue|, arrivals[1..]);
    var more := Flatten(arrivals[1..][..n]);
    var v3 := v2.(queue := [], pending := PushAll(v1.pending, v2.queue + more));
    ReachesThen(s, [e] + arrive, k, v2, arrivals[0], rest, v3, more);
    es := ([e] + arrive) + rest;
    assert arrivals[..n + 1] == [arrivals[0]] + arrivals[1..][..n];
    assert arrivals[..n + 1][1..] == arrivals[1..][..n];
    assert Flatten(arrivals[..n + 1]) == arrivals[0] + more;
    Associative(q, arrivals[0], more);
    Associative([x], q, arrivals[0] + more);
    assert v.queue == [x] + q;
    PushAllCons(v.pending, x, v2.queue + more);
  }

  lemma EndDrainStep(s: System, k: TargetKey, v: Loop)
    requires Shows(s, k, v) && v.phase == Draining
    ensures Reaches(s, [EndDrain(k)], k, v.(phase := Running), [])
  {
    ReachesByStep(s, EndDrain(k), k, v.(phase := Running));
  }

  lemma EndBatchStep(s: System, k: TargetKey, v: Loop)
    requires Shows(s, k, v) && v.phase == Running && v.pending == []
    ensures Reaches(s, [EndBatch(k)], k, v.(phase := Waiting), [])
  {
    ReachesByStep(s, EndBatch(k), k, v.(phase := Waiting));
  }

  /** Handing one intent to the adapter and reporting its answer. */
  lemma SendStep(s: System, k: TargetKey, v: Loop, ok: bool) returns (es: seq<Event>)
    requires Shows(s, k, v) && v.phase == Running && v.pending != []
    ensures var x := v.pending[0];
            Reaches(s, es, k, v.(pending := v.pending[1..], sent := v.sent + [x], frames := v.frames + [CommandFrame(x, ok)]), [])
  {
    var x, l := v.pending[0], s.lanes[k];
    var s1 := Step(s, Send(k, ok));
    var d := Done(l.worker.value.pending[0], ok);
    assert Intents(Groups(l.executed + [d])) == v.sent + [x];
    assert Intents(l.worker.value.pending[1..]) == v.pending[1..];
    RunOne(s1, Report(k), []);
    RunOne(s, Send(k, ok), [Report(k)] + []);
    es := [Send(k, ok)] + ([Report(k)] + []);
    assert s.taken + AddressedTo(k, []) == s.taken;
  }

  /** The answers after the first. */
  function Later(results: nat -> bool): nat -> bool {
    (i: nat) => results(i + 1)
  }

  lemma CommandFramesCons(xs: seq<Intent>, results: nat -> bool)
    requires xs != []
    ensures CommandFrames(xs, results) == [CommandFrame(xs[0], results(0))] + CommandFrames(xs[1..], Later(results))
  {
  }

  lemma {:induction false} SendSteps(s: System, k: TargetKey, v: Loop, results: nat -> bool) returns (es: seq<Event>)
    requires Shows(s, k, v) && v.phase == Running
    ensures Reaches(s, es, k, v.(pending := [], sent := v.sent + v.pending, frames := v.frames + CommandFrames(v.pending, results)), [])
    decreases |v.pending|
  {
    hide Shows, CanRun, RunAll, CommandFrames, Reaches;
    if v.pending == [] {
      es := [];
      ReachesSame(s, k, v);
      assert v.sent + [] == v.sent && v.frames + CommandFrames([], results) == v.frames;
      assert v.(pending := [], sent := v.sent + [], frames := v.frames + CommandFrames([], results)) == v;
    } else {
      var x, rest := v.pending[0], v.pending[1..];
      var later := Later(results);
      var v1 := v.(pending := rest, sent := v.sent + [x], frames := v.frames + [CommandFrame(x, results(0))]);
      var first := SendStep(s, k, v, results(0));
      ReachesShows(s, first, k, v1, []);
      var more := SendSteps(RunAll(s, first), k, v1, later);
      var v2 := v1.(pending := [], sent := v1.sent + rest, frames := v1.frames + CommandFrames(rest, later));
      ReachesNext(s, first, k, v1, [], more, v2);
      CommandFramesCons(v.pending, results);
      assert v.pending == [x] + rest;
      Associative(v.sent, [x], rest);
      Associative(v.frames, [CommandFrame(x, results(0))], CommandFrames(rest, later));
      es := first + more;
    }
  }

  /** From the end of the drain to the end of the turn. */
  lemma SecondHalf(s: System, k: TargetKey, v: Loop, late: seq<Intent>, results: nat -> bool) returns (es: seq<Event>)
    requires Shows(s, k, v) && v.phase == Draining && v.queue == [] && |late| <= QUEUE_CAPACITY
    ensures Reaches(s, es, k, Loop(late, [], Waiting, v.sent + v.pending, v.frames + CommandFrames(v.pending, results)), late)
  {
    hide Shows, CanRun, RunAll, CommandFrames, Reaches;
    var v1 := v.(phase := Running);
    EndDrainStep(s, k, v);
    ReachesShows(s, [EndDrain(k)], k, v1, []);
    var arrive := ArriveSteps(RunAll(s, [EndDrain(k)]), k, v1, late);
    var v2 := v1.(queue := late);
    assert v1.queue + late == late && [] + late == late;
    es := [EndDrain(k)] + arrive;
    ReachesThen(s, [EndDrain(k)], k, v1, [], arrive, v2, late);
    ReachesShows(s, es, k, v2, late);
    var send := SendSteps(RunAll(s, es), k, v2, results);
    var v3 := v2.(pending := [], sent := v.sent + v.pending, frames := v.frames + CommandFrames(v.pending, results));
    ReachesNext(s, es, k, v2, late, send, v3);
    es := es + send;
    ReachesShows(s, es, k, v3, late);
    EndBatchStep(RunAll(s, es), k, v3);
    ReachesNext(s, es, k, v3, late, [EndBatch(k)], v3.(phase := Waiting));
    es := es + [EndBatch(k)];
  }

  /** A turn of the worker loop is a run of the system, whatever comes in meanwhile: receiving,
      taking in, draining, sending and reporting step by step leave the lane as the loop leaves
      its fields, and touch no other lane. */
  lemma BatchIsSteps(s: System, k: TargetKey, v: Loop, arrivals: seq<seq<Intent>>, results: nat -> bool) returns (es: seq<Event>)
    requires Shows(s, k, v) && v.phase == Waiting && v.pending == [] && v.queue != []
    requires Fits(|v.queue|, arrivals)
    ensures Reaches(s, es, k, Turn(v, arrivals, results), Flatten(arrivals))
  {
    hide Shows, CanRun, RunAll, CommandFrames, Reaches, Fits, PushAll, Flatten;
    var n := PortionsDrained(|v.queue|, arrivals);
    var came, late := Flatten(arrivals[..n]), Flatten(arrivals[n..]);
    es := DrainSteps(s, k, v, arrivals);
    var v1 := v.(queue := [], pending := Merge(v.queue + came), phase := Draining);
    ReachesShows(s, es, k, v1, came);
    LateFits(|v.queue|, arrivals);
    var rest := SecondHalf(RunAll(s, es), k, v1, late, results);
    ReachesThen(s, es, k, v1, came, rest, Turn(v, arrivals, results), late);
    es := es + rest;
    FlattenConcat(arrivals[..n], arrivals[n..]);
    assert arrivals[..n] + arrivals[n..] == arrivals;
  }

  lemma {:induction false} LateFits(queued: nat, arrivals: seq<seq<Intent>>)
    requires Fits(queued, arrivals)
    ensures |Flatten(arrivals[PortionsDrained(queued, arrivals)..])| <= QUEUE_CAPACITY
    decreases |arrivals|
  {
    hide Flatten;
    if queued == 0 || arrivals == [] {
      assert arrivals[0..] == arrivals;
    } else {
      LateFits(queued - 1 + |arrivals[0]|, arrivals[1..]);
      var n := PortionsDrained(queued - 1 + |arrivals[0]|, arrivals[1..]);
      assert arrivals[n + 1..] == arrivals[1..][n..];
    }
  }
}
