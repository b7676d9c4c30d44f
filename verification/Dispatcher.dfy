/** The intent dispatcher and its target workers, as the steps of a concurrent system.

    Intents are numbered in the order the dispatcher takes them. One lane per
    (service_type, target) key records where each of its intents went. A step of a worker may
    happen at any moment, and a step that waits for room on the outbox may be delayed for
    any time, so every interleaving of the tasks is a run. */
module Dispatcher {
  import opened Common
  import opened Contracts
  import opened Coalescing

  const QUEUE_CAPACITY := 64

  datatype TargetKey = TargetKey(serviceType: string, target: string)

  function KeyOf(r: RoutedIntent): TargetKey {
    TargetKey(r.serviceType, r.serviceTarget)
  }

  /** One entry of a worker's drain buffer: the intent to run and the taken intents it stands for. */
  datatype Group = Group(ids: seq<nat>, intent: Intent)

  datatype Done = Done(group: Group, ok: bool)

  /** Frames the dispatcher and the worker of one key put on the outbox. On the wire the
      intent travels as `intent.Split()`. */
  datatype LaneFrame =
    | DispatchIntentFrame(intent: Intent)
    | CommandFrame(intent: Intent, ok: bool)

  datatype Phase = Waiting | Draining | Running

  datatype Worker = Worker(queue: seq<nat>, pending: seq<Group>, phase: Phase, reporting: bool)

  datatype Lane = Lane(
    history: seq<nat>,        // every intent taken for this key
    forwarded: seq<nat>,      // handed to the server as DispatchIntent
    held: Option<nat>,        // the dispatcher waits for outbox room to forward this one
    dropped: seq<nat>,        // the worker's queue was full
    worker: Option<Worker>,
    executed: seq<Done>,      // handed to the adapter, with the adapter's answer
    frames: seq<LaneFrame>)   // what this key put on the outbox

  datatype System = System(taken: seq<RoutedIntent>, lanes: map<TargetKey, Lane>, blocked: Option<TargetKey>)

  const NEW_LANE := Lane([], [], None, [], None, [], [])

  function LaneOf(s: System, k: TargetKey): Lane {
    if k in s.lanes then s.lanes[k] else NEW_LANE
  }

  function Ids(groups: seq<Group>): seq<nat> {
    if groups == [] then [] else Ids(groups[..|groups| - 1]) + groups[|groups| - 1].ids
  }

  function Intents(groups: seq<Group>): seq<Intent> {
    seq(|groups|, i requires 0 <= i < |groups| => groups[i].intent)
  }

  function Groups(done: seq<Done>): seq<Group> {
    seq(|done|, i requires 0 <= i < |done| => done[i].group)
  }

  function HeldIds(l: Lane): seq<nat> {
    if l.held.Some? then [l.held.value] else []
  }

  /** Everything the worker of this key accepted, in the order executed, pending, queued. */
  function Local(l: Lane): seq<nat> {
    Ids(Groups(l.executed)) + (if l.worker.Some? then Ids(l.worker.value.pending) + l.worker.value.queue else [])
  }

  predicate InRange(taken: seq<RoutedIntent>, ids: seq<nat>) {
    forall i :: 0 <= i < |ids| ==> ids[i] < |taken|
  }

  /** The taken intents behind a list of numbers. */
  function Taken(taken: seq<RoutedIntent>, ids: seq<nat>): seq<Intent>
    requires InRange(taken, ids)
  {
    seq(|ids|, i requires 0 <= i < |ids| => taken[ids[i]].intent)
  }

  /** `push_merged` with provenance. */
  function PushGroup(pending: seq<Group>, id: nat, x: Intent): seq<Group> {
    var n := |pending|;
    if n > 0 && SameDeltaKind(pending[n - 1].intent, x)
    then pending[..n - 1] + [Group(pending[n - 1].ids + [id], AddDeltas(pending[n - 1].intent, x))]
    else pending + [Group([id], x)]
  }

  // ----- Steps -----

  datatype Event =
    | Take(r: RoutedIntent, adapter: bool)  // `adapter`: is an adapter for r's service type there?
    | Forward
    | Receive(k: TargetKey)
    | TryReceive(k: TargetKey)
    | EndDrain(k: TargetKey)
    | Send(k: TargetKey, ok: bool)
    | Report(k: TargetKey)
    | EndBatch(k: TargetKey)

  ghost predicate HasWorker(s: System, k: TargetKey) {
    k in s.lanes && s.lanes[k].worker.Some?
  }

  ghost predicate Enabled(s: System, e: Event) {
    match e
    case Take(_, _) => s.blocked.None?
    case Forward => s.blocked.Some? && LaneOf(s, s.blocked.value).held.Some?
                    && LaneOf(s, s.blocked.value).held.value < |s.taken|
    case Receive(k) => HasWorker(s, k) && WorkerOf(s, k).phase == Waiting && QueueReady(s, k)
    case TryReceive(k) => HasWorker(s, k) && WorkerOf(s, k).phase == Draining && QueueReady(s, k)
    case EndDrain(k) => HasWorker(s, k) && WorkerOf(s, k).phase == Draining
    case Send(k, _) => HasWorker(s, k) && WorkerOf(s, k).phase == Running
                       && WorkerOf(s, k).pending != [] && !WorkerOf(s, k).reporting
    case Report(k) => HasWorker(s, k) && WorkerOf(s, k).reporting && s.lanes[k].executed != []
    case EndBatch(k) => HasWorker(s, k) && WorkerOf(s, k).phase == Running
                        && WorkerOf(s, k).pending == [] && !WorkerOf(s, k).reporting
  }

  function WorkerOf(s: System, k: TargetKey): Worker
    requires k in s.lanes && s.lanes[k].worker.Some?
  {
    s.lanes[k].worker.value
  }

  ghost predicate QueueReady(s: System, k: TargetKey)
    requires HasWorker(s, k)
  {
    WorkerOf(s, k).queue != [] && WorkerOf(s, k).queue[0] < |s.taken|
  }

  /** The dispatcher's treatment of intent `id` on its lane. */
  function Offer(l: Lane, id: nat, adapter: bool): Lane {
    var l := l.(history := l.history + [id]);
    match l.worker
    case Some(w) =>
      if |w.queue| < QUEUE_CAPACITY
      then l.(worker := Some(w.(queue := w.queue + [id])))
      else l.(dropped := l.dropped + [id])
    case None =>
      if adapter then l.(worker := Some(Worker([id], [], Waiting, false)))
      else l.(held := Some(id))
  }

  function ReportFrame(d: Done): LaneFrame {
    CommandFrame(d.group.intent, d.ok)
  }

  ghost function LaneStep(s: System, e: Event): Lane
    requires Enabled(s, e) && !e.Take? && !e.Forward?
  {
    var l := s.lanes[e.k];
    var w := l.worker.value;
    match e
    case Receive(_) =>
      l.(worker := Some(Worker(w.queue[1..], PushGroup([], w.queue[0], s.taken[w.queue[0]].intent), Draining, w.reporting)))
    case TryReceive(_) =>
      l.(worker := Some(w.(queue := w.queue[1..], pending := PushGroup(w.pending, w.queue[0], s.taken[w.queue[0]].intent))))
    case EndDrain(_) => l.(worker := Some(w.(phase := Running)))
    case Send(_, ok) =>
      l.(worker := Some(w.(pending := w.pending[1..], reporting := true)),
         executed := l.executed + [Done(w.pending[0], ok)])
    case Report(_) =>
      l.(worker := Some(w.(reporting := false)),
         frames := l.frames + [ReportFrame(l.executed[|l.executed| - 1])])
    case EndBatch(_) => l.(worker := Some(w.(phase := Waiting)))
  }

  ghost function Step(s: System, e: Event): System
    requires Enabled(s, e)
  {
    match e
    case Take(r, adapter) =>
      var k := KeyOf(r);
      var l := Offer(LaneOf(s, k), |s.taken|, adapter);
      System(s.taken + [r], s.lanes[k := l], if l.held.Some? then Some(k) else None)
    case Forward =>
      var k := s.blocked.value;
      var l := LaneOf(s, k);
      var id := l.held.value;
      s.(lanes := s.lanes[k := l.(held := None, forwarded := l.forwarded + [id],
                                  frames := l.frames + [DispatchIntentFrame(s.taken[id].intent)])],
         blocked := None)
    case _ => s.(lanes := s.lanes[e.k := LaneStep(s, e)])
  }

  const INITIAL := System([], map[], None)

  ghost predicate CanRun(s: System, es: seq<Event>)
    decreases |es|
  {
    es == [] || (Enabled(s, es[0]) && CanRun(Step(s, es[0]), es[1..]))
  }

  ghost function RunAll(s: System, es: seq<Event>): System
    requires CanRun(s, es)
    decreases |es|
  {
    if es == [] then s else RunAll(Step(s, es[0]), es[1..])
  }

  // ----- The invariant -----

  predicate Increasing(ids: seq<nat>) {
    forall i, j :: 0 <= i < j < |ids| ==> ids[i] < ids[j]
  }

  /** The group's intent is the merge of the taken intents it stands for. */
  ghost predicate GroupOk(taken: seq<RoutedIntent>, g: Group) {
    && g.ids != []
    && InRange(taken, g.ids)
    && Merge(Taken(taken, g.ids)) == [g.intent]
  }

  ghost predicate GroupsOk(taken: seq<RoutedIntent>, gs: seq<Group>) {
    forall i :: 0 <= i < |gs| ==> GroupOk(taken, gs[i])
  }

  /** `history` holds exactly the numbers of the taken intents for key `k`, in order. */
  ghost predicate HistoryOk(taken: seq<RoutedIntent>, k: TargetKey, history: seq<nat>) {
    && Increasing(history)
    && forall id :: id in history <==> 0 <= id < |taken| && KeyOf(taken[id]) == k
  }

  /** A history made of a front part and, after it, an interleaving of two ordered parts. */
  ghost predicate Interleaved(history: seq<nat>, front: seq<nat>, dropped: seq<nat>, local: seq<nat>) {
    && |front| <= |history|
    && history[..|front|] == front
    && multiset(history[|front|..]) == multiset(dropped) + multiset(local)
    && Increasing(dropped)
    && Increasing(local)
  }

  /** Forwards come first; what follows them was dropped or accepted by the worker, each
      kind in the order taken. */
  ghost predicate PlacesOk(l: Lane) {
    && Interleaved(l.history, l.forwarded + HeldIds(l), l.dropped, Local(l))
    && (l.worker.None? ==> l.dropped == [] && l.executed == [])
    && (l.worker.Some? ==> l.held.None? && |l.worker.value.queue| <= QUEUE_CAPACITY)
  }

  /** The commands reported so far: all executed ones but the one still being reported. */
  function Reported(l: Lane): seq<Done> {
    if l.worker.Some? && l.worker.value.reporting && l.executed != []
    then l.executed[..|l.executed| - 1] else l.executed
  }

  /** One DispatchIntent per forward, then one Command per reported intent. */
  ghost predicate FramesMatch(taken: seq<RoutedIntent>, forwarded: seq<nat>, reported: seq<Done>, frames: seq<LaneFrame>) {
    var f := |forwarded|;
    && |frames| == f + |reported|
    && (forall i :: 0 <= i < f ==> forwarded[i] < |taken| && frames[i] == DispatchIntentFrame(taken[forwarded[i]].intent))
    && (forall i :: 0 <= i < |reported| ==> frames[f + i] == ReportFrame(reported[i]))
  }

  ghost predicate FramesOk(taken: seq<RoutedIntent>, l: Lane) {
    FramesMatch(taken, l.forwarded, Reported(l), l.frames)
  }

  ghost predicate WorkerOk(taken: seq<RoutedIntent>, l: Lane) {
    && GroupsOk(taken, Groups(l.executed))
    && (l.worker.Some? ==>
          var w := l.worker.value;
          && GroupsOk(taken, w.pending)
          && (w.phase == Waiting ==> w.pending == [])
          && (w.phase != Running ==> !w.reporting)
          && (w.reporting ==> l.executed != []))
  }

  ghost predicate LaneOk(taken: seq<RoutedIntent>, k: TargetKey, l: Lane) {
    HistoryOk(taken, k, l.history) && PlacesOk(l) && FramesOk(taken, l) && WorkerOk(taken, l)
  }

  ghost predicate Inv(s: System) {
    && (forall k :: LaneOk(s.taken, k, LaneOf(s, k)))
    && (forall k :: LaneOf(s, k).held.Some? <==> s.blocked == Some(k))
  }

  // ----- Each step keeps the invariant -----

  lemma IdsSnoc(gs: seq<Group>, g: Group)
    ensures Ids(gs + [g]) == Ids(gs) + g.ids
  {
    assert (gs + [g])[..|gs|] == gs;
  }

  lemma IdsOfOne(g: Group)
    ensures Ids([g]) == g.ids
  {
    IdsSnoc([], g);
    assert [] + [g] == [g] && [] + g.ids == g.ids;
  }

  lemma {:induction false} IdsCons(g: Group, gs: seq<Group>)
    ensures Ids([g] + gs) == g.ids + Ids(gs)
    decreases |gs|
  {
    if gs == [] {
      IdsOfOne(g);
      assert [g] + gs == [g] && g.ids + [] == g.ids;
    } else {
      hide Ids;
      var init, last := gs[..|gs| - 1], gs[|gs| - 1];
      ConcatSnoc([g], gs);
      IdsCons(g, init);
      IdsSnoc([g] + init, last);
      IdsSnoc(init, last);
      Associative(g.ids, Ids(init), last.ids);
    }
  }

  lemma PushGroupIds(pending: seq<Group>, id: nat, x: Intent)
    ensures Ids(PushGroup(pending, id, x)) == Ids(pending) + [id]
  {
    hide Ids;
    var n := |pending|;
    if n > 0 && SameDeltaKind(pending[n - 1].intent, x) {
      var init, g := pending[..n - 1], pending[n - 1];
      assert pending == init + [g];
      IdsSnoc(init, g);
      IdsSnoc(init, Group(g.ids + [id], AddDeltas(g.intent, x)));
      Associative(Ids(init), g.ids, [id]);
    } else {
      IdsSnoc(pending, Group([id], x));
    }
  }

  /** Without the provenance it is `push_merged`. */
  lemma PushGroupIsPush(pending: seq<Group>, id: nat, x: Intent)
    ensures Intents(PushGroup(pending, id, x)) == Push(Intents(pending), x)
  {
  }

  lemma MergedGroupOk(taken: seq<RoutedIntent>, g: Group, id: nat)
    requires id < |taken| && GroupOk(taken, g) && SameDeltaKind(g.intent, taken[id].intent)
    ensures GroupOk(taken, Group(g.ids + [id], AddDeltas(g.intent, taken[id].intent)))
  {
    var x, ids := taken[id].intent, g.ids + [id];
    assert Taken(taken, ids) == Taken(taken, g.ids) + [x];
    assert Taken(taken, ids)[..|g.ids|] == Taken(taken, g.ids);
    assert Merge(Taken(taken, ids)) == Push([g.intent], x);
  }

  lemma NewGroupOk(taken: seq<RoutedIntent>, id: nat)
    requires id < |taken|
    ensures GroupOk(taken, Group([id], taken[id].intent))
  {
    var x := taken[id].intent;
    assert Taken(taken, [id]) == [x];
    assert [x][..|[x]| - 1] == [];
    assert PushAll([], []) == [];
    assert Merge([x]) == Push([], x);
  }

  lemma PushGroupOk(taken: seq<RoutedIntent>, pending: seq<Group>, id: nat)
    requires id < |taken| && GroupsOk(taken, pending)
    ensures GroupsOk(taken, PushGroup(pending, id, taken[id].intent))
  {
    hide GroupOk, SameDeltaKind;
    var n := |pending|;
    if n > 0 && SameDeltaKind(pending[n - 1].intent, taken[id].intent) {
      MergedGroupOk(taken, pending[n - 1], id);
    } else {
      NewGroupOk(taken, id);
    }
  }

  lemma GroupsOkGrow(taken: seq<RoutedIntent>, r: RoutedIntent, gs: seq<Group>)
    requires GroupsOk(taken, gs)
    ensures GroupsOk(taken + [r], gs)
  {
    forall i | 0 <= i < |gs| ensures GroupOk(taken + [r], gs[i]) {
      assert GroupOk(taken, gs[i]);
      assert Taken(taken + [r], gs[i].ids) == Taken(taken, gs[i].ids);
    }
  }

  predicate Before(history: seq<nat>, id: nat) {
    forall i :: 0 <= i < |history| ==> history[i] < id
  }

  lemma RestBefore(history: seq<nat>, front: seq<nat>, dropped: seq<nat>, local: seq<nat>, id: nat)
    requires Interleaved(history, front, dropped, local) && Before(history, id)
    ensures Before(dropped, id) && Before(local, id)
  {
    var rest := history[|front|..];
    forall i | 0 <= i < |dropped| ensures dropped[i] < id {
      assert dropped[i] in multiset(dropped);
      assert dropped[i] in multiset(rest);
    }
    forall i | 0 <= i < |local| ensures local[i] < id {
      assert local[i] in multiset(local);
      assert local[i] in multiset(rest);
    }
  }

  lemma InterleavedAccept(history: seq<nat>, front: seq<nat>, dropped: seq<nat>, local: seq<nat>, id: nat)
    requires Interleaved(history, front, dropped, local) && Before(history, id)
    ensures Interleaved(history + [id], front, dropped, local + [id])
  {
    RestBefore(history, front, dropped, local, id);
    assert (history + [id])[|front|..] == history[|front|..] + [id];
  }

  lemma InterleavedDrop(history: seq<nat>, front: seq<nat>, dropped: seq<nat>, local: seq<nat>, id: nat)
    requires Interleaved(history, front, dropped, local) && Before(history, id)
    ensures Interleaved(history + [id], front, dropped + [id], local)
  {
    RestBefore(history, front, dropped, local, id);
    assert (history + [id])[|front|..] == history[|front|..] + [id];
  }

  lemma InterleavedForward(history: seq<nat>, front: seq<nat>, id: nat)
    requires Interleaved(history, front, [], [])
    ensures Interleaved(history + [id], front + [id], [], [])
  {
    assert |multiset(history[|front|..])| == |history[|front|..]|;
    assert history == front;
    assert (history + [id])[|front| + 1..] == [];
  }

  lemma OfferPlaces(l: Lane, id: nat, adapter: bool)
    requires PlacesOk(l) && l.held.None? && Before(l.history, id)
    ensures PlacesOk(Offer(l, id, adapter))
  {
    var l' := Offer(l, id, adapter);
    var front := l.forwarded + HeldIds(l);
    assert front == l.forwarded;
    if l.worker.None? && !adapter {
      assert Local(l) == Local(l') == [];
      InterleavedForward(l.history, front, id);
    } else if l.worker.None? || |l.worker.value.queue| < QUEUE_CAPACITY {
      assert Local(l') == Local(l) + [id];
      InterleavedAccept(l.history, front, l.dropped, Local(l), id);
    } else {
      assert Local(l') == Local(l);
      InterleavedDrop(l.history, front, l.dropped, Local(l), id);
    }
  }

  lemma OfferHistory(taken: seq<RoutedIntent>, r: RoutedIntent, k: TargetKey, l: Lane, adapter: bool)
    requires HistoryOk(taken, k, l.history)
    ensures Before(l.history, |taken|)
    ensures HistoryOk(taken + [r], k, if KeyOf(r) == k then Offer(l, |taken|, adapter).history else l.history)
  {
    forall i | 0 <= i < |l.history| ensures l.history[i] < |taken| {
      assert l.history[i] in l.history;
    }
  }

  lemma OfferFrames(taken: seq<RoutedIntent>, r: RoutedIntent, l: Lane, adapter: bool)
    requires FramesOk(taken, l)
    ensures FramesOk(taken + [r], l) && FramesOk(taken + [r], Offer(l, |taken|, adapter))
  {
    var l' := Offer(l, |taken|, adapter);
    assert Reported(l') == Reported(l);
  }

  lemma OfferWorker(taken: seq<RoutedIntent>, r: RoutedIntent, l: Lane, adapter: bool)
    requires WorkerOk(taken, l)
    ensures WorkerOk(taken + [r], l) && WorkerOk(taken + [r], Offer(l, |taken|, adapter))
  {
    GroupsOkGrow(taken, r, Groups(l.executed));
    if l.worker.Some? {
      GroupsOkGrow(taken, r, l.worker.value.pending);
    }
  }

  lemma TakeKeepsLane(taken: seq<RoutedIntent>, r: RoutedIntent, adapter: bool, k: TargetKey, l: Lane)
    requires LaneOk(taken, k, l) && l.held.None?
    ensures LaneOk(taken + [r], k, if KeyOf(r) == k then Offer(l, |taken|, adapter) else l)
  {
    hide Interleaved, FramesOk, WorkerOk, HistoryOk;
    OfferHistory(taken, r, k, l, adapter);
    OfferFrames(taken, r, l, adapter);
    OfferWorker(taken, r, l, adapter);
    OfferPlaces(l, |taken|, adapter);
  }

  lemma ForwardKeepsLane(taken: seq<RoutedIntent>, k: TargetKey, l: Lane, l': Lane)
    requires LaneOk(taken, k, l) && l.held.Some? && l.held.value < |taken|
    requires l' == l.(held := None, forwarded := l.forwarded + [l.held.value],
                      frames := l.frames + [DispatchIntentFrame(taken[l.held.value].intent)])
    ensures LaneOk(taken, k, l')
  {
    assert l'.forwarded + HeldIds(l') == l.forwarded + HeldIds(l);
    assert Local(l') == Local(l);
    assert l.executed == [];
  }

  lemma ReceiveKeepsIds(pending: seq<Group>, queue: seq<nat>, x: Intent)
    requires queue != []
    ensures Ids(PushGroup(pending, queue[0], x)) + queue[1..] == Ids(pending) + queue
  {
    hide Ids, PushGroup;
    PushGroupIds(pending, queue[0], x);
    assert queue == [queue[0]] + queue[1..];
    Associative(Ids(pending), [queue[0]], queue[1..]);
  }

  lemma GroupsSnoc(done: seq<Done>, d: Done)
    ensures Groups(done + [d]) == Groups(done) + [d.group]
  {
  }

  lemma SendKeepsIds(executed: seq<Done>, pending: seq<Group>, ok: bool)
    requires pending != []
    ensures Ids(Groups(executed + [Done(pending[0], ok)])) + Ids(pending[1..]) == Ids(Groups(executed)) + Ids(pending)
  {
    hide Ids, Groups;
    var g, rest := pending[0], pending[1..];
    GroupsSnoc(executed, Done(g, ok));
    IdsSnoc(Groups(executed), g);
    assert pending == [g] + rest;
    IdsCons(g, rest);
    Associative(Ids(Groups(executed)), g.ids, Ids(rest));
  }

  /** Worker steps move intents along `executed, pending, queue` without reordering them. */
  lemma WorkerKeepsLocal(s: System, e: Event)
    requires Enabled(s, e) && !e.Take? && !e.Forward?
    requires WorkerOf(s, e.k).phase == Waiting ==> WorkerOf(s, e.k).pending == []
    ensures Local(LaneStep(s, e)) == Local(s.lanes[e.k])
  {
    hide PushGroup, Groups;
    var l := s.lanes[e.k];
    var w := l.worker.value;
    match e
    case Receive(_) =>
      ReceiveKeepsIds(w.pending, w.queue, s.taken[w.queue[0]].intent);
    case TryReceive(_) =>
      ReceiveKeepsIds(w.pending, w.queue, s.taken[w.queue[0]].intent);
    case Send(_, ok) =>
      SendKeepsIds(l.executed, w.pending, ok);
      assert Local(l) == Ids(Groups(l.executed)) + Ids(w.pending) + w.queue;
    case _ =>
  }

  lemma WorkerKeepsWorker(s: System, e: Event)
    requires Enabled(s, e) && !e.Take? && !e.Forward? && WorkerOk(s.taken, s.lanes[e.k])
    ensures WorkerOk(s.taken, LaneStep(s, e))
  {
    var l := s.lanes[e.k];
    var w := l.worker.value;
    match e
    case Receive(_) =>
      PushGroupOk(s.taken, w.pending, w.queue[0]);
    case TryReceive(_) =>
      PushGroupOk(s.taken, w.pending, w.queue[0]);
    case Send(_, ok) =>
      assert Groups(LaneStep(s, e).executed) == Groups(l.executed) + [w.pending[0]];
    case _ =>
  }

  lemma ReportMatches(taken: seq<RoutedIntent>, forwarded: seq<nat>, reported: seq<Done>, frames: seq<LaneFrame>, d: Done)
    requires FramesMatch(taken, forwarded, reported, frames)
    ensures FramesMatch(taken, forwarded, reported + [d], frames + [ReportFrame(d)])
  {
  }

  lemma WorkerKeepsFrames(s: System, e: Event)
    requires Enabled(s, e) && !e.Take? && !e.Forward?
    requires FramesOk(s.taken, s.lanes[e.k]) && WorkerOk(s.taken, s.lanes[e.k])
    ensures FramesOk(s.taken, LaneStep(s, e))
  {
    hide FramesMatch, GroupsOk, PushGroup;
    var l := s.lanes[e.k];
    var l' := LaneStep(s, e);
    if e.Send? {
      assert Reported(l') == l.executed == Reported(l);
    } else if e.Report? {
      var d := l.executed[|l.executed| - 1];
      assert Reported(l') == l.executed == Reported(l) + [d];
      ReportMatches(s.taken, l.forwarded, Reported(l), l.frames, d);
    } else {
      assert Reported(l') == Reported(l);
    }
  }

  lemma WorkerKeepsLane(s: System, e: Event)
    requires Enabled(s, e) && !e.Take? && !e.Forward? && LaneOk(s.taken, e.k, s.lanes[e.k])
    ensures LaneOk(s.taken, e.k, LaneStep(s, e))
    ensures LaneStep(s, e).held == s.lanes[e.k].held
  {
    WorkerKeepsLocal(s, e);
    WorkerKeepsWorker(s, e);
    WorkerKeepsFrames(s, e);
    var l := s.lanes[e.k];
    assert HeldIds(LaneStep(s, e)) == HeldIds(l);
  }

  lemma TakeKeepsInv(s: System, r: RoutedIntent, adapter: bool)
    requires Inv(s) && s.blocked.None?
    ensures Inv(Step(s, Take(r, adapter)))
  {
    hide LaneOk;
    var s' := Step(s, Take(r, adapter));
    forall k ensures LaneOk(s'.taken, k, LaneOf(s', k)) && (LaneOf(s', k).held.Some? <==> s'.blocked == Some(k)) {
      TakeKeepsLane(s.taken, r, adapter, k, LaneOf(s, k));
    }
  }

  /** A step that changes one lane and keeps the others. */
  lemma OneLaneKeepsInv(s: System, k0: TargetKey, l: Lane, blocked: Option<TargetKey>)
    requires Inv(s) && LaneOk(s.taken, k0, l)
    requires l.held.Some? <==> blocked == Some(k0)
    requires forall k :: k != k0 ==> (blocked == Some(k) <==> s.blocked == Some(k))
    ensures Inv(System(s.taken, s.lanes[k0 := l], blocked))
  {
    hide LaneOk;
    var s' := System(s.taken, s.lanes[k0 := l], blocked);
    forall k ensures LaneOk(s'.taken, k, LaneOf(s', k)) && (LaneOf(s', k).held.Some? <==> s'.blocked == Some(k)) {
      if k != k0 {
        assert LaneOf(s', k) == LaneOf(s, k);
      }
    }
  }

  lemma ForwardKeepsInv(s: System)
    requires Inv(s) && Enabled(s, Forward)
    ensures Inv(Step(s, Forward))
  {
    hide LaneOk;
    var s' := Step(s, Forward);
    var k0 := s.blocked.value;
    ForwardKeepsLane(s.taken, k0, LaneOf(s, k0), LaneOf(s', k0));
    OneLaneKeepsInv(s, k0, LaneOf(s', k0), None);
  }

  lemma WorkerKeepsInv(s: System, e: Event)
    requires Inv(s) && Enabled(s, e) && !e.Take? && !e.Forward?
    ensures Inv(Step(s, e))
  {
    hide LaneOk, LaneStep;
    assert LaneOf(s, e.k) == s.lanes[e.k];
    WorkerKeepsLane(s, e);
    OneLaneKeepsInv(s, e.k, LaneStep(s, e), s.blocked);
  }

  lemma StepKeepsInv(s: System, e: Event)
    requires Inv(s) && Enabled(s, e)
    ensures Inv(Step(s, e))
  {
    hide Inv, Step;
    if e.Take? {
      TakeKeepsInv(s, e.r, e.adapter);
    } else if e.Forward? {
      ForwardKeepsInv(s);
    } else {
      WorkerKeepsInv(s, e);
    }
  }

  lemma InitialInv()
    ensures Inv(INITIAL)
  {
    forall k ensures LaneOk(INITIAL.taken, k, LaneOf(INITIAL, k)) {
      assert LaneOf(INITIAL, k) == NEW_LANE;
      assert Local(NEW_LANE) == [];
    }
  }

  lemma {:induction false} RunKeepsInv(s: System, es: seq<Event>)
    requires Inv(s) && CanRun(s, es)
    ensures Inv(RunAll(s, es))
    decreases |es|
  {
    if es == [] {
    } else {
      StepKeepsInv(s, es[0]);
      RunKeepsInv(Step(s, es[0]), es[1..]);
    }
  }

  /** The invariant holds in every reachable state. */
  lemma ReachableInv(es: seq<Event>, k: TargetKey)
    requires CanRun(INITIAL, es)
    ensures LaneOk(RunAll(INITIAL, es).taken, k, LaneOf(RunAll(INITIAL, es), k))
  {
    hide LaneOk;
    InitialInv();
    RunKeepsInv(INITIAL, es);
  }

  // ----- What every run guarantees -----

  /** All the places an intent of this key can be. */
  function Places(l: Lane): seq<nat> {
    l.forwarded + HeldIds(l) + l.dropped + Local(l)
  }

  /** Conservation: in every reachable state each taken intent is in exactly one place, once. */
  lemma Conservation(es: seq<Event>, id: nat, k: TargetKey)
    requires CanRun(INITIAL, es)
    requires id < |RunAll(INITIAL, es).taken|
    ensures var s := RunAll(INITIAL, es);
            multiset(Places(LaneOf(s, k)))[id] ==
              if s.taken[id].serviceType == k.serviceType && s.taken[id].serviceTarget == k.target then 1 else 0
  {
    var s := RunAll(INITIAL, es);
    var l := LaneOf(s, k);
    assert HistoryOk(s.taken, k, l.history) && PlacesOk(l) by {
      ReachableInv(es, k);
    }
    PlacesAreHistory(l);
    IncreasingCount(l.history, id);
  }

  lemma PlacesAreHistory(l: Lane)
    requires PlacesOk(l)
    ensures multiset(Places(l)) == multiset(l.history)
  {
    hide Local;
    var front := l.forwarded + HeldIds(l);
    assert l.history == front + l.history[|front|..];
    assert Places(l) == front + (l.dropped + Local(l));
  }

  lemma {:induction false} IncreasingCount(ids: seq<nat>, id: nat)
    requires Increasing(ids)
    ensures multiset(ids)[id] == if id in ids then 1 else 0
    decreases |ids|
  {
    if ids == [] {
    } else {
      var n := |ids| - 1;
      IncreasingCount(ids[..n], id);
      assert ids == ids[..n] + [ids[n]];
    }
  }

  /** Order: per key, the forwards come before everything local; dropped and local intents
      each stay in the order taken. */
  lemma InOrder(es: seq<Event>, k: TargetKey)
    requires CanRun(INITIAL, es)
    ensures LaneInOrder(LaneOf(RunAll(INITIAL, es), k))
  {
    var s := RunAll(INITIAL, es);
    var l := LaneOf(s, k);
    assert Increasing(l.history) && PlacesOk(l) by {
      ReachableInv(es, k);
    }
    PlacesInOrder(l);
  }

  ghost predicate LaneInOrder(l: Lane) {
    && Increasing(l.forwarded + HeldIds(l)) && Increasing(l.dropped) && Increasing(Local(l))
    && (forall i, j :: i in l.forwarded && (j in l.dropped || j in Local(l)) ==> i < j)
    && (l.worker.None? ==> l.dropped == [] && Local(l) == [])
  }

  lemma PlacesInOrder(l: Lane)
    requires Increasing(l.history) && PlacesOk(l)
    ensures LaneInOrder(l)
  {
    var front := l.forwarded + HeldIds(l);
    assert Increasing(l.history[..|front|]);
    forall i, j | i in l.forwarded && (j in l.dropped || j in Local(l)) ensures i < j {
      FrontFirst(l.history, front, l.dropped, Local(l), i, j);
    }
  }

  lemma FrontFirst(history: seq<nat>, front: seq<nat>, dropped: seq<nat>, local: seq<nat>, i: nat, j: nat)
    requires Interleaved(history, front, dropped, local) && Increasing(history)
    requires i in front && (j in dropped || j in local)
    ensures i < j
  {
    assert j in multiset(dropped) + multiset(local);
    var rest := history[|front|..];
    assert j in multiset(rest);
    var x :| 0 <= x < |front| && front[x] == i;
    var y :| 0 <= y < |rest| && rest[y] == j;
    assert history[x] == i && history[|front| + y] == j;
  }

  lemma StepKeepsWorker(s: System, e: Event, k: TargetKey)
    requires Enabled(s, e) && HasWorker(s, k) && s.lanes[k].held.None?
    ensures HasWorker(Step(s, e), k)
    ensures Step(s, e).lanes[k].forwarded == s.lanes[k].forwarded
    ensures Step(s, e).lanes[k].held.None?
  {
  }

  /** Once a key has a worker it keeps it and is never forwarded again, whatever becomes of
      the adapter slot. */
  lemma {:induction false} WorkerStays(s: System, es: seq<Event>, k: TargetKey)
    requires CanRun(s, es) && HasWorker(s, k) && s.lanes[k].held.None?
    ensures HasWorker(RunAll(s, es), k)
    ensures RunAll(s, es).lanes[k].forwarded == s.lanes[k].forwarded
    decreases |es|
  {
    if es == [] {
    } else {
      hide Step, Enabled;
      StepKeepsWorker(s, es[0], k);
      WorkerStays(Step(s, es[0]), es[1..], k);
    }
  }

  /** The frame, split for the wire and reassembled by a peer edge, is the intent `x`. */
  predicate Arrives(f: LaneFrame, x: Intent) {
    f.DispatchIntentFrame? && Reassemble(f.intent.Split().0, f.intent.Split().1) == Ok(x)
  }

  /** Telemetry: the outbox got one DispatchIntent per forward, each reassembling to the
      intent taken, and one Command per intent handed to the adapter (but for the one being
      reported), in order; a forward yields no Command. */
  lemma Telemetry(es: seq<Event>, k: TargetKey)
    requires CanRun(INITIAL, es)
    ensures var s := RunAll(INITIAL, es); var l := LaneOf(s, k); var f := |l.forwarded|;
            && |l.executed| - 1 <= |l.frames| - f <= |l.executed| && f <= |l.frames| && InRange(s.taken, l.forwarded)
            && (forall i :: 0 <= i < |l.frames| - f ==>
                  l.frames[f + i] == CommandFrame(l.executed[i].group.intent, l.executed[i].ok))
            && forall i :: 0 <= i < f ==> Arrives(l.frames[i], s.taken[l.forwarded[i]].intent)
  {
    var s := RunAll(INITIAL, es);
    var l := LaneOf(s, k);
    assert FramesOk(s.taken, l) by {
      ReachableInv(es, k);
    }
    forall i | 0 <= i < |l.forwarded|
      ensures Arrives(l.frames[i], s.taken[l.forwarded[i]].intent)
    {
      ReassembleInvertsSplit(s.taken[l.forwarded[i]].intent);
    }
  }

  lemma {:induction false} IdsInRange(taken: seq<RoutedIntent>, gs: seq<Group>)
    requires GroupsOk(taken, gs)
    ensures InRange(taken, Ids(gs))
    decreases |gs|
  {
    if gs == [] {
    } else {
      var n := |gs| - 1;
      assert GroupOk(taken, gs[n]);
      IdsInRange(taken, gs[..n]);
    }
  }

  lemma {:induction false} GroupsMeaning<S(!new)>(taken: seq<RoutedIntent>, gs: seq<Group>, step: (S, Intent) -> S, x: S)
    requires Additive(step) && GroupsOk(taken, gs)
    ensures InRange(taken, Ids(gs))
    ensures Run(step, x, Intents(gs)) == Run(step, x, Taken(taken, Ids(gs)))
    decreases |gs|
  {
    IdsInRange(taken, gs);
    if gs == [] {
    } else {
      var n := |gs| - 1;
      var g := gs[n];
      IdsInRange(taken, gs[..n]);
      assert GroupOk(taken, g);
      GroupsMeaning(taken, gs[..n], step, x);
      var y := Run(step, x, Intents(gs[..n]));
      assert Intents(gs)[..n] == Intents(gs[..n]);
      assert Taken(taken, Ids(gs)) == Taken(taken, Ids(gs[..n])) + Taken(taken, g.ids);
      RunConcat(step, x, Taken(taken, Ids(gs[..n])), Taken(taken, g.ids));
      MergePreservesMeaning(step, y, Taken(taken, g.ids));
      assert [g.intent][..0] == [];
      assert Run(step, y, [g.intent]) == step(y, g.intent);
    }
  }

  lemma LocalInHistory(l: Lane, id: nat)
    requires PlacesOk(l) && id in Local(l)
    ensures id in l.history
  {
    hide Local;
    var rest := l.history[|l.forwarded + HeldIds(l)|..];
    assert id in multiset(Local(l));
    assert id in multiset(rest);
    assert id in rest;
  }

  lemma ExecutedAreLocal(taken: seq<RoutedIntent>, k: TargetKey, l: Lane)
    requires HistoryOk(taken, k, l.history) && PlacesOk(l)
    requires InRange(taken, Ids(Groups(l.executed)))
    ensures Increasing(Ids(Groups(l.executed)))
    ensures forall i :: 0 <= i < |Ids(Groups(l.executed))| ==> KeyOf(taken[Ids(Groups(l.executed))[i]]) == k
  {
    var ids := Ids(Groups(l.executed));
    var local := Local(l);
    assert ids == local[..|ids|];
    hide Ids, Groups, Local;
    assert Increasing(local);
    forall i | 0 <= i < |ids| ensures KeyOf(taken[ids[i]]) == k {
      assert local[i] == ids[i] && local[i] in local;
      LocalInHistory(l, local[i]);
    }
  }

  /** End to end: in every reachable state, what an additive service has become under the
      merged intents its worker sent is what the accepted intents, taken one by one in
      arrival order, would have made of it. */
  lemma ExecutionMeansHistory<S(!new)>(es: seq<Event>, k: TargetKey, step: (S, Intent) -> S, x: S)
    requires CanRun(INITIAL, es) && Additive(step)
    ensures var s := RunAll(INITIAL, es); var gs := Groups(LaneOf(s, k).executed);
            && InRange(s.taken, Ids(gs))
            && (forall i :: 0 <= i < |Ids(gs)| ==>
                  s.taken[Ids(gs)[i]].serviceType == k.serviceType && s.taken[Ids(gs)[i]].serviceTarget == k.target)
            && Increasing(Ids(gs))
            && Run(step, x, Intents(gs)) == Run(step, x, Taken(s.taken, Ids(gs)))
  {
    var s := RunAll(INITIAL, es);
    var l := LaneOf(s, k);
    assert HistoryOk(s.taken, k, l.history) && PlacesOk(l) && WorkerOk(s.taken, l) by {
      ReachableInv(es, k);
    }
    GroupsMeaning(s.taken, Groups(l.executed), step, x);
    hide HistoryOk, PlacesOk, WorkerOk;
    ExecutedAreLocal(s.taken, k, l);
  }
}
