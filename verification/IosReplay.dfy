/** The iOS client's WebSocket loop: one task that caches state commands, sends them, and
    replays its caches at the start of every session. */
module IosReplay {
  import opened Common
  import opened LastWrite

  /** Commands are written here as the frames they turn into; `OtherFrame` stands for the
      commands that are sent but never cached (edge status, intents, connection switches). */
  datatype World = World(
    cache: map<StateKey, Json>,  // the device-state and service-state caches together
    submitted: seq<Frame>,       // every command the app handed over
    outbox: seq<Frame>,          // not yet taken by the loop
    up: bool,
    replaying: seq<Frame>,       // cached frames the session still has to replay
    wire: seq<Frame>,
    view: map<StateKey, Json>)

  datatype Event =
    | Submit(f: Frame)
    | Connect(order: seq<StateKey>)      // hello sent; `order`: device caches first, then service caches
    | ReplaySend
    | ReplayLost
    | Send                               // steady state: take a command, cache it, send it
    | SendLost                           // ... or cache it and lose the frame and the session
    | Deliver
    | Lose(delivered: nat)
    | Restart(view: map<StateKey, Json>)

  /** Device-state entries are replayed before service-state entries. */
  predicate DeviceFirst(order: seq<StateKey>) {
    forall i, j :: 0 <= i < j < |order| && order[j].DeviceKey? ==> order[i].DeviceKey?
  }

  ghost predicate Enabled(s: World, e: Event) {
    match e
    case Submit(_) => true
    case Connect(order) => !s.up && IsEnumeration(order, s.cache.Keys) && DeviceFirst(order)
    case ReplaySend => s.up && s.replaying != []
    case ReplayLost => s.up && s.replaying != []
    case Send => s.up && s.replaying == [] && s.outbox != []
    case SendLost => s.up && s.replaying == [] && s.outbox != []
    case Deliver => s.up && s.wire != []
    case Lose(n) => s.up && n <= |s.wire|
    case Restart(_) => true
  }

  ghost function Step(s: World, e: Event): World
    requires Enabled(s, e)
  {
    match e
    case Submit(f) => s.(submitted := s.submitted + [f], outbox := s.outbox + [f])
    case Connect(order) => s.(up := true, replaying := Replay(s.cache, order), wire := [])
    case ReplaySend => s.(replaying := s.replaying[1..], wire := s.wire + [s.replaying[0]])
    case ReplayLost => s.(up := false, replaying := [], wire := [])
    case Send =>
      s.(outbox := s.outbox[1..], cache := ApplyFrame(s.cache, s.outbox[0]), wire := s.wire + [s.outbox[0]])
    case SendLost =>
      s.(outbox := s.outbox[1..], cache := ApplyFrame(s.cache, s.outbox[0]), up := false, wire := [])
    case Deliver => s.(wire := s.wire[1..], view := ApplyFrame(s.view, s.wire[0]))
    case Lose(n) => s.(view := ApplyAll(s.view, s.wire[..n]), up := false, replaying := [], wire := [])
    case Restart(v) => s.(view := v, up := false, replaying := [], wire := [])
  }

  /** The app starts with empty caches and no session; the server may show anything. */
  ghost predicate Initial(s: World) {
    s.cache == map[] && s.submitted == [] && s.outbox == [] && !s.up && s.replaying == [] && s.wire == []
  }

  ghost predicate CanRun(s: World, es: seq<Event>)
    decreases |es|
  {
    es == [] || (Enabled(s, es[0]) && CanRun(Step(s, es[0]), es[1..]))
  }

  ghost function RunAll(s: World, es: seq<Event>): World
    requires CanRun(s, es)
    decreases |es|
  {
    if es == [] then s else RunAll(Step(s, es[0]), es[1..])
  }

  /** Cache and waiting commands together are the fold of everything submitted, and whenever a
      session is up, what it has sent and still replays brings the server to the cache. */
  ghost predicate Inv(s: World) {
    && (forall k :: Final(s.cache, s.outbox, k) == LastOf(s.submitted, k))
    && (!s.up ==> s.replaying == [])
    && (s.up ==> forall k :: k in s.cache ==> OnItsWay(s, k))
  }

  lemma SendKeepsFold(s: World, k: StateKey)
    requires s.outbox != []
    ensures Final(ApplyFrame(s.cache, s.outbox[0]), s.outbox[1..], k) == Final(s.cache, s.outbox, k)
  {
    assert s.outbox == [s.outbox[0]] + s.outbox[1..];
    FinalDeliver(s.cache, s.outbox[0], s.outbox[1..], k);
  }

  lemma StepKeepsFold(s: World, e: Event, k: StateKey)
    requires Inv(s) && Enabled(s, e)
    ensures Final(Step(s, e).cache, Step(s, e).outbox, k) == LastOf(Step(s, e).submitted, k)
  {
    match e
    case Submit(f) =>
      LastOfConcat(s.outbox, [f], k);
      LastOfConcat(s.submitted, [f], k);
    case Send => SendKeepsFold(s, k);
    case SendLost => SendKeepsFold(s, k);
    case _ =>
  }

  lemma SendSettles(view: map<StateKey, Json>, sent: seq<Frame>, cache: map<StateKey, Json>, f: Frame, k: StateKey)
    requires k in cache ==> Final(view, sent, k) == Lookup(cache, k)
    requires k in ApplyFrame(cache, f)
    ensures Final(view, sent + [f], k) == Lookup(ApplyFrame(cache, f), k)
  {
    hide LastOf;
    LastOfConcat(sent, [f], k);
    LastOfSingle(f, k);
  }

  /** The server is on its way to showing the cache under `k`. */
  ghost predicate OnItsWay(s: World, k: StateKey) {
    Final(s.view, s.wire + s.replaying, k) == Lookup(s.cache, k)
  }

  lemma StepKeepsSession(s: World, e: Event, k: StateKey)
    requires (s.up ==> k in s.cache ==> OnItsWay(s, k)) && Enabled(s, e) && Step(s, e).up && k in Step(s, e).cache
    ensures OnItsWay(Step(s, e), k)
  {
    hide LastOf, Final, ApplyAll;
    var s' := Step(s, e);
    match e
    case Connect(order) =>
      assert s'.wire + s'.replaying == Replay(s.cache, order);
      ReplayShows(s.view, s.cache, order, k);
    case ReplaySend =>
      assert s.replaying == [s.replaying[0]] + s.replaying[1..];
      assert s'.wire + s'.replaying == s.wire + s.replaying;
    case Send =>
      assert s'.wire + s'.replaying == s.wire + s.replaying + [s.outbox[0]];
      SendSettles(s.view, s.wire + s.replaying, s.cache, s.outbox[0], k);
    case Deliver =>
      assert s.wire + s.replaying == [s.wire[0]] + (s'.wire + s'.replaying);
      FinalDeliver(s.view, s.wire[0], s'.wire + s'.replaying, k);
    case _ =>
  }

  lemma ReplayShows(view: map<StateKey, Json>, cache: map<StateKey, Json>, order: seq<StateKey>, k: StateKey)
    requires IsEnumeration(order, cache.Keys) && k in cache
    ensures Final(view, Replay(cache, order), k) == Lookup(cache, k)
  {
    hide LastOf;
    ReplayRestores(cache, order, k);
  }

  lemma StepKeepsInv(s: World, e: Event)
    requires Inv(s) && Enabled(s, e)
    ensures Inv(Step(s, e))
  {
    var s' := Step(s, e);
    forall k ensures Final(s'.cache, s'.outbox, k) == LastOf(s'.submitted, k) {
      StepKeepsFold(s, e, k);
    }
    if s'.up {
      forall k | k in s'.cache ensures OnItsWay(s', k) {
        StepKeepsSession(s, e, k);
      }
    }
  }

  lemma {:induction false} RunKeepsInv(s: World, es: seq<Event>)
    requires Inv(s) && CanRun(s, es)
    ensures Inv(RunAll(s, es))
    decreases |es|
  {
    if es == [] {
    } else {
      hide Inv, Enabled, Step;
      StepKeepsInv(s, es[0]);
      RunKeepsInv(Step(s, es[0]), es[1..]);
    }
  }

  /** A session is up, its replay is through and nothing is on the wire. */
  predicate Steady(s: World) {
    s.up && s.replaying == [] && s.wire == []
  }

  /** The server shows what the replay caches hold. */
  ghost predicate ShowsCache(s: World) {
    forall k :: k in s.cache ==> Lookup(s.view, k) == Lookup(s.cache, k)
  }

  /** The server shows the last value of every key the app ever submitted. */
  ghost predicate ShowsSubmitted(s: World) {
    forall k :: LastOf(s.submitted, k).Some? ==> Lookup(s.view, k) == LastOf(s.submitted, k)
  }

  lemma SteadyShows(s: World)
    requires Inv(s) && Steady(s)
    ensures ShowsCache(s) && (s.outbox == [] ==> ShowsSubmitted(s))
  {
    assert s.wire + s.replaying == [];
    assert forall k :: k in s.cache ==> OnItsWay(s, k);
    forall k | s.outbox == [] && LastOf(s.submitted, k).Some?
      ensures Lookup(s.view, k) == LastOf(s.submitted, k)
    {
      assert Final(s.cache, s.outbox, k) == LastOf(s.submitted, k);
    }
  }

  /** Over every run, including every lost frame: in steady state with nothing on the wire the
      server shows exactly what the replay caches hold; and once the outbox is empty too, it
      shows the last value of every key the app ever submitted. */
  lemma Convergence(s: World, es: seq<Event>)
    requires Initial(s) && CanRun(s, es) && Steady(RunAll(s, es))
    ensures ShowsCache(RunAll(s, es)) && (RunAll(s, es).outbox == [] ==> ShowsSubmitted(RunAll(s, es)))
  {
    assert Inv(s);
    RunKeepsInv(s, es);
    SteadyShows(RunAll(s, es));
  }

  // ----- A lost frame -----

  /** The app hands over no further command for `k`. */
  predicate Leaves(e: Event, k: StateKey) {
    e.Submit? ==> !Writes(e.f, k)
  }

  predicate NoneWrites(fs: seq<Frame>, k: StateKey) {
    forall i :: 0 <= i < |fs| ==> !Writes(fs[i], k)
  }

  lemma {:induction false} CachedValueStays(s: World, es: seq<Event>, k: StateKey, v: Json)
    requires CanRun(s, es) && Lookup(s.cache, k) == Some(v) && NoneWrites(s.outbox, k)
    requires forall e :: e in es ==> Leaves(e, k)
    ensures Lookup(RunAll(s, es).cache, k) == Some(v)
    decreases |es|
  {
    if es == [] {
    } else {
      var s' := Step(s, es[0]);
      assert es[0] in es;
      CachedValueStaysOnce(s, es[0], k, v);
      hide Step, Enabled, NoneWrites, Leaves;
      CachedValueStays(s', es[1..], k, v);
    }
  }

  lemma CachedValueStaysOnce(s: World, e: Event, k: StateKey, v: Json)
    requires Enabled(s, e) && Lookup(s.cache, k) == Some(v) && NoneWrites(s.outbox, k) && Leaves(e, k)
    ensures Lookup(Step(s, e).cache, k) == Some(v) && NoneWrites(Step(s, e).outbox, k)
  {
    hide Final, LastOf, ApplyAll, IsEnumeration, Replay;
  }

  /** A command whose frame is lost with the session is not lost: whatever happens afterwards,
      further losses, reconnects and server restarts included, as soon as the loop is steady
      again the server shows the command's value, unless the app has handed over a newer
      command for the key. */
  lemma LostFrameIsReplayed(s: World, k: StateKey, es: seq<Event>)
    requires Inv(s) && Enabled(s, SendLost) && Writes(s.outbox[0], k) && NoneWrites(s.outbox[1..], k)
    requires CanRun(Step(s, SendLost), es) && (forall e :: e in es ==> Leaves(e, k))
    requires Steady(RunAll(Step(s, SendLost), es))
    ensures Lookup(RunAll(Step(s, SendLost), es).view, k) == Some(s.outbox[0].value)
  {
    var lost := Step(s, SendLost);
    StepKeepsInv(s, SendLost);
    RunKeepsInv(lost, es);
    SteadyShows(RunAll(lost, es));
    CachedValueStays(lost, es, k, s.outbox[0].value);
  }

  // ----- Progress -----

  /** What the loop and the connection do when nothing new is handed over and nothing fails. */
  predicate Internal(e: Event) {
    e.ReplaySend? || e.Send? || e.Deliver?
  }

  function Work(s: World): nat {
    2 * |s.replaying| + 2 * |s.outbox| + |s.wire|
  }

  lemma InternalStepWorks(s: World, e: Event)
    requires Enabled(s, e) && Internal(e)
    ensures Work(Step(s, e)) < Work(s)
    ensures Step(s, e).up == s.up && Step(s, e).submitted == s.submitted
  {
  }

  lemma NotStuck(s: World) returns (e: Event)
    requires s.up && Work(s) > 0
    ensures Internal(e) && Enabled(s, e)
  {
    e := if s.wire != [] then Deliver else if s.replaying != [] then ReplaySend else Send;
  }

  /** Left alone with a session up, the loop takes at most `Work` steps, in whatever order,
      and where it stops the server shows everything submitted. */
  lemma {:induction false} LeftAloneConverges(s: World, es: seq<Event>)
    requires Inv(s) && s.up && CanRun(s, es)
    requires forall e :: e in es ==> Internal(e)
    ensures |es| <= Work(s)
    ensures var s' := RunAll(s, es);
            (forall e :: Internal(e) ==> !Enabled(s', e)) ==> ShowsSubmitted(s') && s'.submitted == s.submitted
    decreases |es|
  {
    if es == [] {
      if forall e :: Internal(e) ==> !Enabled(s, e) {
        if Work(s) > 0 {
          var e := NotStuck(s);
        }
        hide Inv;
        SteadyShows(s);
      }
    } else {
      hide Inv, Enabled, Step, Work, ShowsSubmitted;
      assert es[0] in es;
      InternalStepWorks(s, es[0]);
      StepKeepsInv(s, es[0]);
      LeftAloneConverges(Step(s, es[0]), es[1..]);
    }
  }

  lemma {:induction false} CanConvergeUp(s: World) returns (es: seq<Event>)
    requires Inv(s) && s.up
    ensures CanRun(s, es) && ShowsSubmitted(RunAll(s, es)) && RunAll(s, es).submitted == s.submitted
    ensures forall e :: e in es ==> Internal(e)
    decreases Work(s)
  {
    hide Inv, Enabled, Step, ShowsSubmitted;
    if Work(s) == 0 {
      es := [];
      SteadyShows(s);
    } else {
      var e := NotStuck(s);
      InternalStepWorks(s, e);
      StepKeepsInv(s, e);
      var rest := CanConvergeUp(Step(s, e));
      es := [e] + rest;
      assert es[1..] == rest;
    }
  }

  /** A reconnect has an order to replay in: some order of the device keys, then one of the
      service keys. */
  lemma ReplayOrderExists(cache: map<StateKey, Json>) returns (order: seq<StateKey>)
    ensures IsEnumeration(order, cache.Keys) && DeviceFirst(order)
  {
    var devices := map k | k in cache && k.DeviceKey? :: cache[k];
    var services := map k | k in cache && k.ServiceKey? :: cache[k];
    var a := EnumerationExists(devices.Keys);
    var b := EnumerationExists(services.Keys);
    assert devices + services == cache;
    EnumerateTwoCaches(devices, services, a, b);
    ReplayTwoCaches(devices, services, a, b);
    order := a + b;
  }

  /** From every reachable state, one connection that holds is enough: the server gets to show
      everything submitted by the loop's own steps. */
  lemma CanConverge(s: World) returns (es: seq<Event>)
    requires Inv(s)
    ensures CanRun(s, es) && ShowsSubmitted(RunAll(s, es)) && RunAll(s, es).submitted == s.submitted
    ensures forall i :: 0 <= i < |es| ==> Internal(es[i]) || (i == 0 && !s.up && es[i].Connect?)
  {
    if s.up {
      es := CanConvergeUp(s);
    } else {
      var order := ReplayOrderExists(s.cache);
      StepKeepsInv(s, Connect(order));
      hide Inv, ShowsSubmitted;
      var rest := CanConvergeUp(Step(s, Connect(order)));
      es := [Connect(order)] + rest;
      assert es[1..] == rest;
      forall i | 0 < i < |es| ensures Internal(es[i]) {
        assert es[i] == rest[i - 1];
      }
    }
  }

  // ----- The loop's own state -----

  predicate SplitByKind(devices: map<StateKey, Json>, services: map<StateKey, Json>) {
    && (forall k :: k in devices ==> k.DeviceKey?)
    && (forall k :: k in services ==> k.ServiceKey?)
  }

  lemma ReplayTwoCaches(devices: map<StateKey, Json>, services: map<StateKey, Json>, a: seq<StateKey>, b: seq<StateKey>)
    requires SplitByKind(devices, services)
    requires forall k :: k in a ==> k in devices
    requires forall k :: k in b ==> k in services
    ensures forall k :: k in a + b ==> k in devices + services
    ensures Replay(devices + services, a + b) == Replay(devices, a) + Replay(services, b)
    ensures DeviceFirst(a + b)
  {
  }

  lemma EnumerateTwoCaches(devices: map<StateKey, Json>, services: map<StateKey, Json>, a: seq<StateKey>, b: seq<StateKey>)
    requires SplitByKind(devices, services)
    requires IsEnumeration(a, devices.Keys) && IsEnumeration(b, services.Keys)
    ensures IsEnumeration(a + b, (devices + services).Keys)
  {
    forall i, j | 0 <= i < j < |a + b| ensures (a + b)[i] != (a + b)[j] {
      if i < |a| <= j {
        assert a[i] in a && b[j - |a|] in b;
      }
    }
  }

  lemma CacheWrite(devices: map<StateKey, Json>, services: map<StateKey, Json>, k: StateKey, v: Json)
    requires SplitByKind(devices, services)
    ensures k.DeviceKey? ==> devices[k := v] + services == (devices + services)[k := v]
    ensures k.ServiceKey? ==> devices + services[k := v] == (devices + services)[k := v]
  {
  }

  /** What the loop holds: the two caches as one, and every frame it ever sent. */
  datatype LoopState = LoopState(cache: map<StateKey, Json>, sent: seq<Frame>)

  /** A command is cached before it is sent, whatever the sending returns. */
  function Handled(l: LoopState, f: Frame, ok: bool): LoopState {
    LoopState(ApplyFrame(l.cache, f), if ok then l.sent + [f] else l.sent)
  }

  /** The first `n` cached values have been replayed. */
  function Replayed(l: LoopState, order: seq<StateKey>, n: nat): LoopState
    requires (forall k :: k in order ==> k in l.cache) && n <= |order|
  {
    l.(sent := l.sent + Replay(l.cache, order)[..n])
  }

  class WsLoop {
    var deviceStateCache: map<StateKey, Json>
    var serviceStateCache: map<StateKey, Json>
    var sent: seq<Frame>

    ghost predicate Valid()
      reads this
    {
      SplitByKind(deviceStateCache, serviceStateCache)
    }

    function State(): LoopState
      reads this
    {
      LoopState(deviceStateCache + serviceStateCache, sent)
    }

    constructor ()
      ensures Valid() && State() == LoopState(map[], [])
    {
      deviceStateCache, serviceStateCache, sent := map[], map[], [];
    }

    /** A command taken in steady state; `ok` says whether its frame could be sent. */
    method HandleCommand(f: Frame, ok: bool)
      requires Valid()
      modifies this
      ensures Valid() && State() == Handled(old(State()), f, ok)
    {
      ghost var devices, services := deviceStateCache, serviceStateCache;
      match f {
        case StateFrame(k, v) =>
          CacheWrite(devices, services, k, v);
          if k.DeviceKey? {
            deviceStateCache := deviceStateCache[k := v];
          } else {
            serviceStateCache := serviceStateCache[k := v];
          }
        case OtherFrame(_) =>
      }
      if ok {
        sent := sent + [f];
      }
    }

    /** Replay one cache in the hash map's order, stopping at the first frame that cannot be
        sent; `ok(n)` says whether the n-th frame can be. */
    method ReplayCache(cache: map<StateKey, Json>, ok: nat -> bool) returns (failed: bool, ghost order: seq<StateKey>, ghost n: nat)
      modifies this`sent
      ensures IsEnumeration(order, cache.Keys) && n <= |order|
      ensures failed <==> n < |order|
      ensures sent == old(sent) + Replay(cache, order)[..n]
    {
      order, n := [], 0;
      var rest := cache.Keys;
      while rest != {}
        invariant rest <= cache.Keys && n == |order|
        invariant IsEnumeration(order, cache.Keys - rest)
        invariant sent == old(sent) + Replay(cache, order)
        decreases rest
      {
        var key :| key in rest;
        if !ok(|sent|) {
          order := CompleteOrder(cache, order, rest);
          return true, order, n;
        }
        sent := sent + [StateFrame(key, cache[key])];
        rest := rest - {key};
        assert Replay(cache, order + [key]) == Replay(cache, order) + [StateFrame(key, cache[key])];
        order, n := order + [key], n + 1;
      }
      failed := false;
    }

    /** The replay at the start of a session: device state, then service state, in the order
        that the protocol's `Connect` step names, up to the first frame that cannot be sent. */
    method ReplayAll(ok: nat -> bool) returns (failed: bool, ghost order: seq<StateKey>, ghost n: nat)
      requires Valid()
      modifies this`sent
      ensures Valid()
      ensures IsEnumeration(order, old(State()).cache.Keys) && DeviceFirst(order)
      ensures n <= |order| && (failed <==> n < |order|)
      ensures State() == Replayed(old(State()), order, n)
    {
      hide IsEnumeration, DeviceFirst, SplitByKind, Replayed;
      ghost var more, m;
      failed, order, n := ReplayCache(deviceStateCache, ok);
      if failed {
        more := EnumerationExists(serviceStateCache.Keys);
        m := 0;
        KeysOfOrder(more, serviceStateCache);
        assert sent + Replay(serviceStateCache, more)[..m] == sent;
      } else {
        failed, more, m := ReplayCache(serviceStateCache, ok);
      }
      ReplayInTwo(deviceStateCache, serviceStateCache, order, more, n, m, old(sent));
      order, n := order + more, n + m;
    }
  }

  lemma KeysOfOrder(order: seq<StateKey>, cache: map<StateKey, Json>)
    requires IsEnumeration(order, cache.Keys)
    ensures forall k :: k in order ==> k in cache
  {
  }

  /** An order of some of the keys goes on to an order of all. */
  lemma CompleteOrder(cache: map<StateKey, Json>, order: seq<StateKey>, rest: set<StateKey>) returns (all: seq<StateKey>)
    requires rest <= cache.Keys && rest != {} && IsEnumeration(order, cache.Keys - rest)
    ensures IsEnumeration(all, cache.Keys) && |order| < |all|
    ensures Replay(cache, all)[..|order|] == Replay(cache, order)
  {
    var more := EnumerationExists(rest);
    all := order + more;
    var k :| k in rest;
    assert k in more;
    forall i, j | 0 <= i < j < |all| ensures all[i] != all[j] {
      if i < |order| <= j {
        assert order[i] in order && more[j - |order|] in more;
      }
    }
  }

  /** Replaying the device cache and then the service cache replays the two as one. */
  lemma ReplayInTwo(devices: map<StateKey, Json>, services: map<StateKey, Json>, a: seq<StateKey>, b: seq<StateKey>, n: nat, m: nat, sent: seq<Frame>)
    requires SplitByKind(devices, services)
    requires IsEnumeration(a, devices.Keys) && IsEnumeration(b, services.Keys)
    requires n <= |a| && m <= |b| && (n < |a| ==> m == 0)
    ensures (forall k :: k in a ==> k in devices) && (forall k :: k in b ==> k in services)
    ensures IsEnumeration(a + b, (devices + services).Keys) && DeviceFirst(a + b)
    ensures forall k :: k in a + b ==> k in devices + services
    ensures Replayed(LoopState(devices + services, sent), a + b, n + m)
            == LoopState(devices + services, (sent + Replay(devices, a)[..n]) + Replay(services, b)[..m])
  {
    KeysOfOrder(a, devices);
    KeysOfOrder(b, services);
    EnumerateTwoCaches(devices, services, a, b);
    hide IsEnumeration, DeviceFirst;
    ReplayTwoCaches(devices, services, a, b);
    hide SplitByKind;
    var first, second := Replay(devices, a), Replay(services, b);
    assert first[..n] + second[..m] == (first + second)[..n + m];
    Associative(sent, first[..n], second[..m]);
  }

  // ----- The loop is the protocol's steps -----

  /** The protocol's state as the loop shows it: the caches are the same, and what is on the
      wire is what was sent last. */
  ghost predicate Shows(l: LoopState, s: World) {
    && l.cache == s.cache
    && |s.wire| <= |l.sent| && l.sent[|l.sent| - |s.wire|..] == s.wire
  }

  /** The frame a step puts on the wire. */
  ghost function SentBy(s: World, e: Event): seq<Frame>
    requires Enabled(s, e)
  {
    match e
    case ReplaySend => [s.replaying[0]]
    case Send => [s.outbox[0]]
    case _ => []
  }

  /** Every frame put on the wire during a run, in order. */
  ghost function Transmitted(s: World, es: seq<Event>): seq<Frame>
    requires CanRun(s, es)
    decreases |es|
  {
    if es == [] then [] else SentBy(s, es[0]) + Transmitted(Step(s, es[0]), es[1..])
  }

  /** Sending some more frames of a replay. */
  lemma {:induction false} ReplaySome(s: World, n: nat) returns (es: seq<Event>)
    requires s.up && n <= |s.replaying|
    ensures CanRun(s, es) && RunAll(s, es) == s.(replaying := s.replaying[n..], wire := s.wire + s.replaying[..n])
    ensures Transmitted(s, es) == s.replaying[..n]
    decreases n
  {
    if n == 0 {
      es := [];
      assert s.wire + s.replaying[..0] == s.wire && s.replaying[0..] == s.replaying;
    } else {
      var s1 := Step(s, ReplaySend);
      var rest := ReplaySome(s1, n - 1);
      es := [ReplaySend] + rest;
      assert es[1..] == rest;
      assert s.replaying[..n] == [s.replaying[0]] + s1.replaying[..n - 1];
      assert s1.replaying[n - 1..] == s.replaying[n..];
      Associative(s.wire, [s.replaying[0]], s1.replaying[..n - 1]);
    }
  }

  lemma {:induction false} RunThenStep(s: World, es: seq<Event>, e: Event)
    requires CanRun(s, es) && Enabled(RunAll(s, es), e)
    ensures CanRun(s, es + [e]) && RunAll(s, es + [e]) == Step(RunAll(s, es), e)
    ensures Transmitted(s, es + [e]) == Transmitted(s, es) + SentBy(RunAll(s, es), e)
    decreases |es|
  {
    hide Enabled, Step, SentBy;
    if es == [] {
      assert es + [e] == [e] && [e][1..] == [];
      assert SentBy(s, e) + [] == [] + SentBy(s, e);
    } else {
      assert (es + [e])[1..] == es[1..] + [e];
      RunThenStep(Step(s, es[0]), es[1..], e);
      Associative(SentBy(s, es[0]), Transmitted(Step(s, es[0]), es[1..]), SentBy(RunAll(s, es), e));
    }
  }

  /** A replay, as `ReplayAll` performs it, is a run of the protocol, whether it gets through
      or fails part-way: afterwards the protocol's state is as the loop shows it, the loop has
      sent what the run put on the wire, and the session is up exactly if the replay got
      through. Nothing else has changed. */
  lemma ReplayIsSteps(l: LoopState, s: World, order: seq<StateKey>, n: nat) returns (es: seq<Event>)
    requires !s.up && Shows(l, s) && IsEnumeration(order, s.cache.Keys) && DeviceFirst(order) && n <= |order|
    ensures CanRun(s, es) && forall k :: k in order ==> k in l.cache
    ensures Shows(Replayed(l, order, n), RunAll(s, es))
    ensures Replayed(l, order, n).sent == l.sent + Transmitted(s, es)
    ensures RunAll(s, es) == s.(up := n == |order|, replaying := [], wire := if n == |order| then Replay(s.cache, order) else [])
  {
    var frames := Replay(s.cache, order);
    var s1 := Step(s, Connect(order));
    var sends := ReplaySome(s1, n);
    es := [Connect(order)] + sends;
    assert es[1..] == sends;
    assert [] + frames[..n] == frames[..n];
    if n < |order| {
      RunThenStep(s, es, ReplayLost);
      es := es + [ReplayLost];
    } else {
      assert frames[..n] == frames && frames[n..] == [];
    }
  }

  /** A command, as `HandleCommand` handles it in steady state, is one step of the protocol,
      with its frame sent, or lost together with the session: afterwards the protocol's state
      is as the loop shows it. */
  lemma CommandIsStep(l: LoopState, s: World, ok: bool)
    requires s.up && s.replaying == [] && s.outbox != [] && Shows(l, s)
    ensures var e := if ok then Send else SendLost;
            && Enabled(s, e) && Shows(Handled(l, s.outbox[0], ok), Step(s, e))
            && Handled(l, s.outbox[0], ok).sent == l.sent + SentBy(s, e)
            && Step(s, e).up == ok && Step(s, e).outbox == s.outbox[1..] && Step(s, e).replaying == []
  {
    if ok {
      var f := s.outbox[0];
      var sent := l.sent + [f];
      assert sent[|l.sent| - |s.wire|..] == l.sent[|l.sent| - |s.wire|..] + [f];
    }
  }

  // ----- What was submitted -----

  /** The commands the app hands over during a run. */
  function Submits(es: seq<Event>): seq<Frame> {
    if es == [] then [] else (if es[0].Submit? then [es[0].f] else []) + Submits(es[1..])
  }

  lemma {:induction false} SubmittedExactly(s: World, es: seq<Event>)
    requires CanRun(s, es)
    ensures RunAll(s, es).submitted == s.submitted + Submits(es)
    decreases |es|
  {
    if es == [] {
      assert s.submitted + [] == s.submitted;
    } else {
      var s' := Step(s, es[0]);
      assert s'.submitted == s.submitted + (if es[0].Submit? then [es[0].f] else []);
      hide Step, Enabled;
      SubmittedExactly(s', es[1..]);
      Associative(s.submitted, if es[0].Submit? then [es[0].f] else [], Submits(es[1..]));
    }
  }
}
