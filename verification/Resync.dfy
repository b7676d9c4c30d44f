/** The resync protocol of the Linux and macOS agent: one state pump, the shared outbox, the
    WebSocket client's sessions and the server's view.

    The pump is any one of the agent's pumps; the others, and every other producer on the
    outbox, appear as foreign frames. A dropped session loses what it had not delivered. */
module Resync {
  import opened Common
  import opened LastWrite

  const OUTBOX_CAPACITY := 256
  const RESYNC_CAPACITY := 8

  /** Which pump: one per service adapter, one per input device. */
  datatype PumpId = ServicePump(serviceType: string) | DevicePump(deviceType: string, deviceId: string)

  /** The keys a pump writes. Raw input events bypass the device pump and are never replayed. */
  predicate Owns(p: PumpId, k: StateKey) {
    match p
    case ServicePump(st) => k.ServiceKey? && k.serviceType == st
    case DevicePump(dt, di) => k.DeviceKey? && k.deviceType == dt && k.deviceId == di && k.deviceProperty != "input"
  }

  predicate Foreign(p: PumpId, f: Frame) {
    f.StateFrame? ==> !Owns(p, f.key)
  }

  datatype World = World(
    pump: PumpId,
    last: map<StateKey, Json>,   // the pump's last-write-wins cache
    received: seq<Frame>,        // every update the pump has received, as frames
    todo: seq<Frame>,            // frames the pump is still putting on the outbox
    inbox: seq<nat>,             // reconnect notifications the pump has not handled
    handled: nat,                // the session whose notification it handled last
    outbox: seq<Frame>,
    epoch: nat,                  // the number of sessions so far
    up: bool,
    wire: seq<Frame>,            // sent in this session, not yet delivered
    view: map<StateKey, Json>)   // the server's view

  datatype Event =
    | Update(key: StateKey, value: Json)
    | Replayed(order: seq<StateKey>)     // the pump handles a notification; `order` is the hash map's
    | Enqueue                            // the pump's next frame gets room on the outbox
    | Produce(f: Frame)                  // another task puts a frame on the outbox
    | Connect
    | Drain                              // the session sends the outbox head
    | DrainLost                          // sending fails: the frame is gone, the session too
    | Deliver
    | Lose(delivered: nat)               // the session drops after that many more deliveries
    | Restart(view: map<StateKey, Json>) // the server restarts with some view

  ghost predicate Enabled(s: World, e: Event) {
    match e
    case Update(k, _) => s.todo == [] && Owns(s.pump, k)
    case Replayed(order) => s.todo == [] && s.inbox != [] && IsEnumeration(order, s.last.Keys)
    case Enqueue => s.todo != [] && |s.outbox| < OUTBOX_CAPACITY
    case Produce(f) => |s.outbox| < OUTBOX_CAPACITY && Foreign(s.pump, f)
    case Connect => !s.up
    case Drain => s.up && s.outbox != []
    case DrainLost => s.up && s.outbox != []
    case Deliver => s.up && s.wire != []
    case Lose(n) => s.up && n <= |s.wire|
    case Restart(_) => true
  }

  /** The broadcast channel keeps the newest notifications and drops the oldest. */
  function Notify(inbox: seq<nat>, epoch: nat): seq<nat> {
    var all := inbox + [epoch];
    if |all| > RESYNC_CAPACITY then all[|all| - RESYNC_CAPACITY..] else all
  }

  ghost function Step(s: World, e: Event): World
    requires Enabled(s, e)
  {
    match e
    case Update(k, v) =>
      s.(last := s.last[k := v], received := s.received + [StateFrame(k, v)], todo := [StateFrame(k, v)])
    case Replayed(order) =>
      s.(inbox := s.inbox[1..], handled := s.inbox[0], todo := Replay(s.last, order))
    case Enqueue => s.(todo := s.todo[1..], outbox := s.outbox + [s.todo[0]])
    case Produce(f) => s.(outbox := s.outbox + [f])
    case Connect =>
      s.(epoch := s.epoch + 1, up := true, wire := [], inbox := Notify(s.inbox, s.epoch + 1))
    case Drain => s.(outbox := s.outbox[1..], wire := s.wire + [s.outbox[0]])
    case DrainLost => s.(outbox := s.outbox[1..], wire := [], up := false)
    case Deliver => s.(wire := s.wire[1..], view := ApplyFrame(s.view, s.wire[0]))
    case Lose(n) => s.(view := ApplyAll(s.view, s.wire[..n]), wire := [], up := false)
    case Restart(v) => s.(view := v, wire := [], up := false)
  }

  /** A pump may subscribe at any time: before the first session, between two, during one,
      with frames of others already on the outbox and anything in the server's view. */
  ghost predicate Initial(s: World) {
    && s.last == map[] && s.received == [] && s.todo == [] && s.inbox == [] && s.handled == s.epoch
    && (forall f :: f in s.outbox + s.wire ==> Foreign(s.pump, f))
    && |s.outbox| <= OUTBOX_CAPACITY
  }

  ghost predicate CanRun(s: World, es: seq<Event>)
    decreases |es|
  {
    es == [] || (Enabled(s, es[0]) && CanRun(Step(s, es[0]), es[1..]))
  }

  ghost function RunAll(s: World, es: seq<Event>): World
    requires CanRun(s, es)
    decreases |es|
  {
    if es == [] then s else RunAll(Step(s, es[0]), es[1..])
  }

  // ----- The invariant -----

  /** Everything on its way from the pump to the server, in delivery order. */
  function InFlight(s: World): seq<Frame> {
    s.wire + s.outbox + s.todo
  }

  /** Is `k` going to read the pump's cached value once everything in flight is delivered? */
  predicate Settles(s: World, k: StateKey) {
    Final(s.view, InFlight(s), k) == Lookup(s.last, k)
  }

  ghost predicate CacheOk(s: World) {
    && (forall k :: Lookup(s.last, k) == LastOf(s.received, k))
    && (forall k :: k in s.last ==> Owns(s.pump, k))
  }

  /** The current session's notification is handled, or it is the newest one waiting. */
  ghost predicate NotifiedOk(s: World) {
    s.handled == s.epoch || (s.inbox != [] && s.inbox[|s.inbox| - 1] == s.epoch)
  }

  ghost predicate SettlesOk(s: World) {
    s.up && s.handled == s.epoch ==> forall k :: k in s.last ==> Settles(s, k)
  }

  /** Notifications wait in the order of their sessions, all newer than the one handled. */
  ghost predicate Waiting(inbox: seq<nat>, handled: nat, epoch: nat) {
    && handled <= epoch
    && (forall i :: 0 <= i < |inbox| ==> handled < inbox[i] <= epoch)
    && (forall i, j :: 0 <= i < j < |inbox| ==> inbox[i] < inbox[j])
  }

  ghost predicate InboxOk(s: World) {
    Waiting(s.inbox, s.handled, s.epoch)
  }

  ghost predicate Inv(s: World) {
    CacheOk(s) && NotifiedOk(s) && InboxOk(s) && SettlesOk(s)
  }

  lemma InitialInv(s: World)
    requires Initial(s)
    ensures Inv(s)
  {
  }

  lemma StepKeepsCache(s: World, e: Event)
    requires CacheOk(s) && Enabled(s, e)
    ensures CacheOk(Step(s, e))
  {
    if e.Update? {
      var f := StateFrame(e.key, e.value);
      forall k ensures Lookup(Step(s, e).last, k) == LastOf(s.received + [f], k) {
        LastOfConcat(s.received, [f], k);
        LastOfSingle(f, k);
      }
    }
  }

  lemma NotifyKeepsNewest(inbox: seq<nat>, handled: nat, epoch: nat)
    requires Waiting(inbox, handled, epoch)
    ensures var after := Notify(inbox, epoch + 1);
            Waiting(after, handled, epoch + 1) && after != [] && after[|after| - 1] == epoch + 1
  {
    var all := inbox + [epoch + 1];
    assert Waiting(all, handled, epoch + 1);
  }

  lemma HandleOldest(inbox: seq<nat>, handled: nat, epoch: nat)
    requires Waiting(inbox, handled, epoch) && inbox != [] && inbox[|inbox| - 1] == epoch
    ensures Waiting(inbox[1..], inbox[0], epoch)
    ensures inbox[0] == epoch || (inbox[1..] != [] && inbox[1..][|inbox| - 2] == epoch)
  {
  }

  lemma StepKeepsNotified(s: World, e: Event)
    requires NotifiedOk(s) && InboxOk(s) && Enabled(s, e)
    ensures NotifiedOk(Step(s, e)) && InboxOk(Step(s, e))
  {
    hide Notify;
    if e.Connect? {
      NotifyKeepsNewest(s.inbox, s.handled, s.epoch);
    } else if e.Replayed? {
      HandleOldest(s.inbox, s.handled, s.epoch);
    }
  }

  lemma UpdateSettles(view: map<StateKey, Json>, sent: seq<Frame>, last: map<StateKey, Json>, f: Frame, k: StateKey)
    requires f.StateFrame? && (k in last ==> Final(view, sent, k) == Lookup(last, k))
    requires k in last[f.key := f.value]
    ensures Final(view, sent + [f], k) == Lookup(last[f.key := f.value], k)
  {
    hide LastOf;
    LastOfConcat(sent, [f], k);
    LastOfSingle(f, k);
  }

  lemma ReplaySettles(view: map<StateKey, Json>, sent: seq<Frame>, last: map<StateKey, Json>, order: seq<StateKey>, k: StateKey)
    requires IsEnumeration(order, last.Keys) && (forall x :: x in order ==> x in last) && k in last
    ensures Final(view, sent + Replay(last, order), k) == Lookup(last, k)
  {
    hide LastOf, Replay, IsEnumeration;
    LastOfConcat(sent, Replay(last, order), k);
    ReplayRestores(last, order, k);
  }

  /** What the pump and the other tasks do leaves every key settled. */
  lemma TasksKeepSettles(s: World, e: Event, k: StateKey)
    requires CacheOk(s) && SettlesOk(s) && InboxOk(s) && Enabled(s, e)
    requires e.Update? || e.Replayed? || e.Enqueue? || e.Produce?
    requires Step(s, e).up && Step(s, e).handled == Step(s, e).epoch && k in Step(s, e).last
    ensures Settles(Step(s, e), k)
  {
    hide LastOf, Final, Replay, Waiting;
    var s' := Step(s, e);
    match e
    case Update(key, v) =>
      assert InFlight(s) == s.wire + s.outbox && InFlight(s') == InFlight(s) + [StateFrame(key, v)];
      assert k in s.last ==> Settles(s, k);
      UpdateSettles(s.view, InFlight(s), s.last, StateFrame(key, v), k);
    case Replayed(order) =>
      ReplaySettles(s.view, s.wire + s.outbox, s.last, order, k);
    case Enqueue =>
      assert s.todo == [s.todo[0]] + s.todo[1..];
      assert InFlight(s') == InFlight(s) && Settles(s, k);
    case Produce(f) =>
      assert Owns(s.pump, k) && Settles(s, k);
      assert InFlight(s') == s.wire + s.outbox + [f] + s.todo;
      FinalInsertOther(s.view, s.wire + s.outbox, f, s.todo, k);
  }

  /** ... and so does what the sessions do. */
  lemma SessionsKeepSettles(s: World, e: Event, k: StateKey)
    requires SettlesOk(s) && InboxOk(s) && Enabled(s, e)
    requires !e.Update? && !e.Replayed? && !e.Enqueue? && !e.Produce?
    requires Step(s, e).up && Step(s, e).handled == Step(s, e).epoch && k in Step(s, e).last
    ensures Settles(Step(s, e), k)
  {
    hide LastOf, Final, ApplyAll, ApplyFrame, Notify;
    var s' := Step(s, e);
    match e
    case Drain =>
      assert s.outbox == [s.outbox[0]] + s.outbox[1..];
      assert InFlight(s') == InFlight(s) && Settles(s, k);
    case Deliver =>
      assert InFlight(s) == [s.wire[0]] + InFlight(s') && Settles(s, k);
      FinalDeliver(s.view, s.wire[0], InFlight(s'), k);
    case _ =>
  }

  lemma StepKeepsSettles(s: World, e: Event, k: StateKey)
    requires CacheOk(s) && SettlesOk(s) && InboxOk(s) && Enabled(s, e)
    requires Step(s, e).up && Step(s, e).handled == Step(s, e).epoch && k in Step(s, e).last
    ensures Settles(Step(s, e), k)
  {
    hide CacheOk, SettlesOk, InboxOk, Enabled, Step, Settles;
    if e.Update? || e.Replayed? || e.Enqueue? || e.Produce? {
      TasksKeepSettles(s, e, k);
    } else {
      SessionsKeepSettles(s, e, k);
    }
  }

  lemma StepKeepsInv(s: World, e: Event)
    requires Inv(s) && Enabled(s, e)
    ensures Inv(Step(s, e))
  {
    hide CacheOk, NotifiedOk, InboxOk, Settles;
    StepKeepsCache(s, e);
    StepKeepsNotified(s, e);
    var s' := Step(s, e);
    if s'.up && s'.handled == s'.epoch {
      forall k | k in s'.last ensures Settles(s', k) {
        StepKeepsSettles(s, e, k);
      }
    }
  }

  lemma {:induction false} RunKeepsInv(s: World, es: seq<Event>)
    requires Inv(s) && CanRun(s, es)
    ensures Inv(RunAll(s, es))
    decreases |es|
  {
    if es == [] {
    } else {
      hide Inv, Enabled, Step;
      StepKeepsInv(s, es[0]);
      RunKeepsInv(Step(s, es[0]), es[1..]);
    }
  }

  // ----- Convergence -----

  /** A session is up, the pump has handled its notification, and nothing is in flight. */
  predicate Quiet(s: World) {
    s.up && s.handled == s.epoch && s.todo == [] && s.outbox == [] && s.wire == []
  }

  /** The server shows, under every key the pump ever wrote, the last value it wrote. */
  ghost predicate Converged(s: World) {
    forall k :: LastOf(s.received, k).Some? ==> Lookup(s.view, k) == LastOf(s.received, k)
  }

  lemma QuietConverges(s: World)
    requires Inv(s) && Quiet(s)
    ensures Converged(s)
  {
    forall k | LastOf(s.received, k).Some? ensures Lookup(s.view, k) == LastOf(s.received, k) {
      assert Settles(s, k);
      assert InFlight(s) == [];
    }
  }

  /** Safety over every run of updates, drains, lost frames, session losses, reconnects and
      server restarts: whenever the system is quiet, the server has converged. */
  lemma Convergence(s: World, es: seq<Event>)
    requires Initial(s) && CanRun(s, es) && Quiet(RunAll(s, es))
    ensures Converged(RunAll(s, es))
  {
    InitialInv(s);
    RunKeepsInv(s, es);
    QuietConverges(RunAll(s, es));
  }

  // ----- Progress -----

  /** The steps the system takes by itself when nothing new happens and nothing fails. */
  predicate Internal(e: Event) {
    e.Replayed? || e.Enqueue? || e.Drain? || e.Deliver?
  }

  /** How much work is left. */
  function Work(s: World): nat {
    |s.inbox| * (3 * |s.last| + 1) + 3 * |s.todo| + 2 * |s.outbox| + |s.wire|
  }

  lemma OneFewer(n: nat, c: nat)
    requires n > 0
    ensures n * c == (n - 1) * c + c
  {
  }

  lemma InternalStepWorks(s: World, e: Event)
    requires Enabled(s, e) && Internal(e)
    ensures Work(Step(s, e)) < Work(s)
    ensures Step(s, e).up == s.up && Step(s, e).received == s.received
  {
    hide IsEnumeration;
    if e.Replayed? {
      EnumerationLength(e.order, s.last.Keys);
      assert |s.last.Keys| == |s.last|;
      OneFewer(|s.inbox|, 3 * |s.last| + 1);
    }
  }

  /** As long as a session is up, the system is quiet or has an internal step to take. */
  lemma NotStuck(s: World) returns (e: Event)
    requires Inv(s) && s.up && !Quiet(s)
    ensures Internal(e) && Enabled(s, e)
  {
    if s.wire != [] {
      e := Deliver;
    } else if s.outbox != [] {
      e := Drain;
    } else if s.todo != [] {
      e := Enqueue;
    } else {
      var order := EnumerationExists(s.last.Keys);
      e := Replayed(order);
    }
  }

  /** Convergence is unavoidable: left alone with a session up, the system can take at most
      `Work` internal steps, in whatever order, and where it stops the server has converged. */
  lemma {:induction false} LeftAloneConverges(s: World, es: seq<Event>)
    requires Inv(s) && s.up && CanRun(s, es)
    requires forall e :: e in es ==> Internal(e)
    ensures |es| <= Work(s)
    ensures var s' := RunAll(s, es);
            (forall e :: Internal(e) ==> !Enabled(s', e)) ==> Converged(s') && s'.received == s.received
    decreases |es|
  {
    hide Enabled, Step;
    if es == [] {
      if forall e :: Internal(e) ==> !Enabled(s, e) {
        if !Quiet(s) {
          var e := NotStuck(s);
        }
        QuietConverges(s);
      }
    } else {
      assert es[0] in es;
      InternalStepWorks(s, es[0]);
      StepKeepsInv(s, es[0]);
      LeftAloneConverges(Step(s, es[0]), es[1..]);
    }
  }

  /** ... and such a run exists from every reachable state with a session up. */
  lemma {:induction false} CanConverge(s: World) returns (es: seq<Event>)
    requires Inv(s) && s.up
    ensures CanRun(s, es) && forall e :: e in es ==> Internal(e)
    ensures Quiet(RunAll(s, es)) && RunAll(s, es).received == s.received
    decreases Work(s)
  {
    hide Enabled, Step;
    if Quiet(s) {
      es := [];
    } else {
      var e := NotStuck(s);
      InternalStepWorks(s, e);
      StepKeepsInv(s, e);
      var rest := CanConverge(Step(s, e));
      es := [e] + rest;
      assert es[1..] == rest;
    }
  }

  // ----- The pump's task -----

  /** One state pump and the outbox it feeds. */
  class StatePump {
    var last: map<StateKey, Json>
    var outbox: seq<Frame>

    constructor ()
      ensures last == map[] && outbox == []
    {
      last, outbox := map[], [];
    }

    method OnUpdate(key: StateKey, value: Json)
      modifies this
      ensures last == old(last)[key := value]
      ensures outbox == old(outbox) + [StateFrame(key, value)]
    {
      var frame := StateFrame(key, value);
      last := last[key := value];
      outbox := outbox + [frame];
    }

    /** Replay every cached frame, in the hash map's order. */
    method OnResync() returns (order: seq<StateKey>)
      modifies this`outbox
      ensures IsEnumeration(order, last.Keys)
      ensures outbox == old(outbox) + Replay(last, order)
      ensures forall k :: k in last ==> LastOf(outbox, k) == Some(last[k])
    {
      order := [];
      var rest := last.Keys;
      while rest != {}
        invariant rest <= last.Keys
        invariant IsEnumeration(order, last.Keys - rest)
        invariant forall k :: k in order ==> k in last
        invariant outbox == old(outbox) + Replay(last, order)
        decreases rest
      {
        var key :| key in rest;
        outbox := outbox + [StateFrame(key, last[key])];
        rest := rest - {key};
        assert Replay(last, order + [key]) == Replay(last, order) + [StateFrame(key, last[key])];
        order := order + [key];
      }
      forall k | k in last ensures LastOf(outbox, k) == Some(last[k]) {
        LastOfConcat(old(outbox), Replay(last, order), k);
        ReplayRestores(last, order, k);
      }
    }
  }

  // ----- The pump's task is the protocol's steps -----

  /** With room on the outbox, a frame list that is still to be enqueued gets there whole. */
  lemma {:induction false} EnqueueIsSteps(s: World) returns (es: seq<Event>)
    requires |s.outbox| + |s.todo| <= OUTBOX_CAPACITY
    ensures CanRun(s, es) && RunAll(s, es) == s.(todo := [], outbox := s.outbox + s.todo)
    decreases |s.todo|
  {
    if s.todo == [] {
      es := [];
      assert s.outbox + s.todo == s.outbox;
    } else {
      var s' := Step(s, Enqueue);
      var rest := EnqueueIsSteps(s');
      es := [Enqueue] + rest;
      assert es[1..] == rest;
      assert s.todo == [s.todo[0]] + s.todo[1..];
      Associative(s.outbox, [s.todo[0]], s.todo[1..]);
    }
  }

  /** What `OnUpdate` does to cache and outbox is a run of the protocol. */
  lemma UpdateIsSteps(s: World, key: StateKey, value: Json) returns (es: seq<Event>)
    requires s.todo == [] && Owns(s.pump, key) && |s.outbox| < 256
    ensures CanRun(s, es)
    ensures var f := StateFrame(key, value);
            RunAll(s, es) == s.(last := s.last[key := value], received := s.received + [f], outbox := s.outbox + [f])
  {
    hide Owns;
    var rest := EnqueueIsSteps(Step(s, Update(key, value)));
    es := [Update(key, value)] + rest;
    assert es[1..] == rest;
  }

  /** ... and so is what `OnResync` does, for the order it meets the cache in. */
  lemma ResyncIsSteps(s: World, order: seq<StateKey>) returns (es: seq<Event>)
    requires s.todo == [] && s.inbox != [] && IsEnumeration(order, s.last.Keys)
    requires |s.outbox| + |order| <= 256
    ensures CanRun(s, es) && forall k :: k in order ==> k in s.last
    ensures RunAll(s, es) == s.(inbox := s.inbox[1..], handled := s.inbox[0], outbox := s.outbox + Replay(s.last, order))
  {
    var rest := EnqueueIsSteps(Step(s, Replayed(order)));
    es := [Replayed(order)] + rest;
    assert es[1..] == rest;
  }

  lemma {:induction false} RunConcatenation(s: World, a: seq<Event>, b: seq<Event>)
    requires CanRun(s, a) && CanRun(RunAll(s, a), b)
    ensures CanRun(s, a + b) && RunAll(s, a + b) == RunAll(RunAll(s, a), b)
    decreases |a|
  {
    hide Enabled, Step;
    if a == [] {
      assert a + b == b;
    } else {
      assert (a + b)[1..] == a[1..] + b;
      RunConcatenation(Step(s, a[0]), a[1..], b);
    }
  }

  ghost predicate AllOwned(p: PumpId, fs: seq<Frame>) {
    forall f :: f in fs ==> f.StateFrame? && Owns(p, f.key)
  }

  lemma RunOne(s: World, e: Event, es: seq<Event>)
    requires Enabled(s, e) && CanRun(Step(s, e), es)
    ensures CanRun(s, [e] + es) && RunAll(s, [e] + es) == RunAll(Step(s, e), es)
  {
    hide Enabled, Step;
    assert ([e] + es)[1..] == es;
  }

  /** One update all the way to the server. */
  lemma ReceiveOne(s: World, f: Frame) returns (es: seq<Event>)
    requires Quiet(s) && f.StateFrame? && Owns(s.pump, f.key)
    ensures CanRun(s, es)
    ensures RunAll(s, es) == s.(last := s.last[f.key := f.value], received := s.received + [f], view := ApplyFrame(s.view, f))
  {
    var s1 := Step(s, Update(f.key, f.value));
    var s2 := Step(s1, Enqueue);
    var s3 := Step(s2, Drain);
    RunOne(s3, Deliver, []);
    RunOne(s2, Drain, [Deliver] + []);
    RunOne(s1, Enqueue, [Drain] + ([Deliver] + []));
    RunOne(s, Update(f.key, f.value), [Enqueue] + ([Drain] + ([Deliver] + [])));
    es := [Update(f.key, f.value)] + ([Enqueue] + ([Drain] + ([Deliver] + [])));
  }

  /** From a quiet state any list of the pump's updates can be received and delivered. */
  lemma {:induction false} CanReceive(s: World, fs: seq<Frame>) returns (es: seq<Event>)
    requires Quiet(s) && AllOwned(s.pump, fs)
    ensures CanRun(s, es) && Quiet(RunAll(s, es))
    ensures RunAll(s, es).received == s.received + fs && RunAll(s, es).view == ApplyAll(s.view, fs)
    decreases |fs|
  {
    hide Enabled, Step, CanRun, RunAll;
    if fs == [] {
      es := Stay(s);
      assert s.received + fs == s.received;
    } else {
      assert fs[0] in fs;
      var first := ReceiveOne(s, fs[0]);
      var s1 := RunAll(s, first);
      var rest := CanReceive(s1, fs[1..]);
      RunConcatenation(s, first, rest);
      es := first + rest;
      assert fs == [fs[0]] + fs[1..];
      Associative(s.received, [fs[0]], fs[1..]);
    }
  }

  lemma Stay(s: World) returns (es: seq<Event>)
    ensures CanRun(s, es) && RunAll(s, es) == s
  {
    es := [];
  }

  // ----- What was received, and within what bounds -----

  /** The updates a pump receives during a run. */
  function Updates(es: seq<Event>): seq<Frame> {
    if es == [] then [] else (if es[0].Update? then [StateFrame(es[0].key, es[0].value)] else []) + Updates(es[1..])
  }

  lemma {:induction false} ReceivedExactly(s: World, es: seq<Event>)
    requires CanRun(s, es)
    ensures RunAll(s, es).received == s.received + Updates(es)
    decreases |es|
  {
    if es == [] {
      assert s.received + [] == s.received;
    } else {
      var s' := Step(s, es[0]);
      assert s'.received == s.received + (if es[0].Update? then [StateFrame(es[0].key, es[0].value)] else []);
      hide Step, Enabled;
      ReceivedExactly(s', es[1..]);
      Associative(s.received, if es[0].Update? then [StateFrame(es[0].key, es[0].value)] else [], Updates(es[1..]));
    }
  }

  /** Over every run the outbox holds at most 256 frames and at most eight notifications wait;
      only with nine does the oldest give way. */
  lemma {:induction false} BoundedQueues(s: World, es: seq<Event>)
    requires |s.outbox| <= 256 && |s.inbox| <= 8 && CanRun(s, es)
    ensures |RunAll(s, es).outbox| <= 256 && |RunAll(s, es).inbox| <= 8
    decreases |es|
  {
    if es == [] {
    } else {
      var s' := Step(s, es[0]);
      assert |s'.outbox| <= 256 && |s'.inbox| <= 8;
      hide Step, Enabled;
      BoundedQueues(s', es[1..]);
    }
  }

  lemma NotifyExactly(inbox: seq<nat>, epoch: nat)
    requires |inbox| <= 8
    ensures Notify(inbox, epoch) == (if |inbox| < 8 then inbox else inbox[1..]) + [epoch]
  {
  }

  /** Raw input is transient: it is in no pump's cache, in whatever reachable state. */
  lemma InputIsTransient(s: World, es: seq<Event>, deviceType: string, deviceId: string)
    requires Initial(s) && CanRun(s, es)
    ensures DeviceKey(deviceType, deviceId, "input") !in RunAll(s, es).last
  {
    InitialInv(s);
    RunKeepsInv(s, es);
  }

  /** No two pumps write one key; an adapter's pump writes all of its service's keys, a device's
      pump all of its device's but the raw input. */
  lemma OwnersExactly(p: PumpId, k: StateKey)
    ensures Owns(p, k) <==> match k
              case ServiceKey(serviceType, _, _, _) => p == ServicePump(serviceType)
              case DeviceKey(deviceType, deviceId, property) => property != "input" && p == DevicePump(deviceType, deviceId)
  {
  }
}
