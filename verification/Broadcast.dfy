/** A bounded broadcast and the state pump's place in it. The channel keeps the newest updates;
    a receiver that has fallen further behind loses what is no longer kept and goes on with
    the oldest update that is. */
module Broadcast {
  import opened Common
  import opened LastWrite

  const CAPACITY := 256

  datatype Channel = Channel(
    sent: seq<Frame>,         // every update ever sent, the last `CAPACITY` of them kept
    start: Option<nat>,       // how many had been sent when the pump subscribed
    next: nat,                // the position the pump reads next
    received: seq<Frame>,
    missed: set<nat>)         // positions the pump will never read

  datatype Event =
    | Publish(f: Frame)
    | Subscribe
    | Receive

  const OPEN := Channel([], None, 0, [], {})

  /** The next update is no longer kept. */
  predicate Lagged(c: Channel) {
    c.next + CAPACITY < |c.sent|
  }

  function Positions(a: nat, b: nat): (r: set<nat>)
    ensures forall i :: i in r <==> a <= i < b
  {
    if b <= a then {} else Positions(a, b - 1) + {b - 1}
  }

  predicate Enabled(c: Channel, e: Event) {
    match e
    case Publish(_) => true
    case Subscribe => c.start.None?
    case Receive => c.start.Some? && c.next < |c.sent|
  }

  function Step(c: Channel, e: Event): Channel
    requires Enabled(c, e)
  {
    match e
    case Publish(f) => c.(sent := c.sent + [f])
    case Subscribe => c.(start := Some(|c.sent|), next := |c.sent|, missed := Positions(0, |c.sent|))
    case Receive =>
      if Lagged(c) then
        var oldest := |c.sent| - CAPACITY;
        c.(next := oldest, missed := c.missed + Positions(c.next, oldest))
      else c.(received := c.received + [c.sent[c.next]], next := c.next + 1)
  }

  ghost predicate CanRun(c: Channel, es: seq<Event>)
    decreases |es|
  {
    es == [] || (Enabled(c, es[0]) && CanRun(Step(c, es[0]), es[1..]))
  }

  ghost function RunAll(c: Channel, es: seq<Event>): Channel
    requires CanRun(c, es)
    decreases |es|
  {
    if es == [] then c else RunAll(Step(c, es[0]), es[1..])
  }

  /** The pump has subscribed, and has read all that it ever will of what was sent. */
  predicate CaughtUp(c: Channel) {
    c.start.Some? && c.next == |c.sent|
  }

  // ----- What is missed -----

  /** What is left when the updates at some positions are missed. */
  function Kept(fs: seq<Frame>, missed: set<nat>): seq<Frame> {
    if fs == [] then []
    else
      var n := |fs| - 1;
      Kept(fs[..n], missed) + (if n in missed then [] else [fs[n]])
  }

  lemma {:induction false} KeptAgrees(fs: seq<Frame>, a: set<nat>, b: set<nat>)
    requires forall i: nat :: i < |fs| ==> (i in a <==> i in b)
    ensures Kept(fs, a) == Kept(fs, b)
    decreases |fs|
  {
    if fs == [] {
    } else {
      KeptAgrees(fs[..|fs| - 1], a, b);
    }
  }

  lemma {:induction false} KeptSkips(fs: seq<Frame>, a: nat, b: nat, missed: set<nat>)
    requires a <= b <= |fs| && forall i: nat :: a <= i < b ==> i in missed
    ensures Kept(fs[..b], missed) == Kept(fs[..a], missed)
    decreases b
  {
    if a == b {
    } else {
      assert fs[..b][..b - 1] == fs[..b - 1];
      KeptSkips(fs, a, b - 1, missed);
      assert Kept(fs[..b - 1], missed) + [] == Kept(fs[..b - 1], missed);
    }
  }

  /** Only what was sent before the pump subscribed is missed, and what has been followed by
      as many further updates as the channel keeps; the pump has received the rest. */
  predicate Inv(c: Channel) {
    && (c.start.None? ==> c.next == 0 && c.missed == {})
    && (c.start.Some? ==> c.start.value <= c.next)
    && c.next <= |c.sent|
    && c.received == Kept(c.sent[..c.next], c.missed)
    && (c.start.Some? ==> forall i: nat :: i < c.start.value ==> i in c.missed)
    && forall i :: i in c.missed ==> i < c.next && ((c.start.Some? && i < c.start.value) || i + CAPACITY < |c.sent|)
  }

  lemma LagKeepsInv(c: Channel)
    requires Inv(c) && Enabled(c, Receive) && Lagged(c)
    ensures Inv(Step(c, Receive))
  {
    var c' := Step(c, Receive);
    KeptAgrees(c.sent[..c.next], c.missed, c'.missed);
    KeptSkips(c.sent, c.next, c'.next, c'.missed);
  }

  lemma ReadKeepsInv(c: Channel)
    requires Inv(c) && Enabled(c, Receive) && !Lagged(c)
    ensures Inv(Step(c, Receive))
  {
    assert c.sent[..c.next + 1][..c.next] == c.sent[..c.next];
  }

  lemma SubscribeKeepsInv(c: Channel)
    requires Inv(c) && Enabled(c, Subscribe)
    ensures Inv(Step(c, Subscribe))
  {
    var c' := Step(c, Subscribe);
    KeptAgrees(c.sent[..0], c.missed, c'.missed);
    KeptSkips(c.sent, 0, |c.sent|, c'.missed);
  }

  lemma StepKeepsInv(c: Channel, e: Event)
    requires Inv(c) && Enabled(c, e)
    ensures Inv(Step(c, e))
  {
    match e
    case Publish(f) => assert (c.sent + [f])[..c.next] == c.sent[..c.next];
    case Subscribe => SubscribeKeepsInv(c);
    case Receive =>
      hide Inv;
      if Lagged(c) {
        LagKeepsInv(c);
      } else {
        ReadKeepsInv(c);
      }
  }

  lemma {:induction false} RunKeepsInv(c: Channel, es: seq<Event>)
    requires Inv(c) && CanRun(c, es)
    ensures Inv(RunAll(c, es))
    decreases |es|
  {
    if es == [] {
    } else {
      hide Inv, Enabled, Step;
      StepKeepsInv(c, es[0]);
      RunKeepsInv(Step(c, es[0]), es[1..]);
    }
  }

  ghost predicate Reachable(c: Channel) {
    exists es :: CanRun(OPEN, es) && RunAll(OPEN, es) == c
  }

  lemma ReachableInv(c: Channel)
    requires Reachable(c)
    ensures Inv(c)
  {
    var es :| CanRun(OPEN, es) && RunAll(OPEN, es) == c;
    RunKeepsInv(OPEN, es);
  }

  // ----- Last writes -----

  /** The last update written to `k` is not missed. */
  predicate LastKept(fs: seq<Frame>, missed: set<nat>, k: StateKey) {
    if fs == [] then true
    else
      var n := |fs| - 1;
      if Writes(fs[n], k) then n !in missed else LastKept(fs[..n], missed, k)
  }

  lemma {:induction false} KeptFold(fs: seq<Frame>, missed: set<nat>, k: StateKey)
    requires LastKept(fs, missed, k)
    ensures LastOf(Kept(fs, missed), k) == LastOf(fs, k)
    decreases |fs|
  {
    if fs == [] {
    } else {
      var n := |fs| - 1;
      LastOfConcat(Kept(fs[..n], missed), [fs[n]], k);
      LastOfSingle(fs[n], k);
      if !Writes(fs[n], k) {
        KeptFold(fs[..n], missed, k);
        assert Kept(fs[..n], missed) + [] == Kept(fs[..n], missed);
      }
    }
  }

  /** A write to `k` is among the newest updates, those that the channel still keeps, and was
      sent after the pump subscribed. */
  ghost predicate InReach(fs: seq<Frame>, start: nat, k: StateKey) {
    exists p: nat :: start <= p < |fs| <= p + 256 && Writes(fs[p], k)
  }

  lemma {:induction false} LaterLastKept(fs: seq<Frame>, missed: set<nat>, k: StateKey, p: nat)
    requires p < |fs| && Writes(fs[p], k) && forall i :: i in missed ==> i < p
    ensures LastKept(fs, missed, k)
    decreases |fs|
  {
    var n := |fs| - 1;
    if Writes(fs[n], k) {
    } else {
      LaterLastKept(fs[..n], missed, k, p);
    }
  }

  /** What is within reach cannot be missed, however far the pump falls behind. */
  lemma ReachIsKept(c: Channel, k: StateKey)
    requires Reachable(c) && c.start.Some? && InReach(c.sent, c.start.value, k)
    ensures LastKept(c.sent, c.missed, k)
  {
    ReachableInv(c);
    var p: nat :| c.start.value <= p < |c.sent| <= p + CAPACITY && Writes(c.sent[p], k);
    LaterLastKept(c.sent, c.missed, k, p);
  }

  // ----- What can be missed -----

  lemma {:induction false} RunConcatenation(c: Channel, a: seq<Event>, b: seq<Event>)
    requires CanRun(c, a) && CanRun(RunAll(c, a), b)
    ensures CanRun(c, a + b) && RunAll(c, a + b) == RunAll(RunAll(c, a), b)
    decreases |a|
  {
    hide Enabled, Step;
    if a == [] {
      assert a + b == b;
    } else {
      assert (a + b)[0] == a[0] && (a + b)[1..] == a[1..] + b;
      RunConcatenation(Step(c, a[0]), a[1..], b);
    }
  }

  lemma ReachableStep(c: Channel, e: Event)
    requires Reachable(c) && Enabled(c, e)
    ensures Reachable(Step(c, e))
  {
    hide Enabled, Step;
    var es :| CanRun(OPEN, es) && RunAll(OPEN, es) == c;
    assert [e][1..] == [];
    assert CanRun(c, [e]) && RunAll(c, [e]) == Step(c, e);
    RunConcatenation(OPEN, es, [e]);
  }

  lemma {:induction false} PublishAll(c: Channel, fs: seq<Frame>)
    requires Reachable(c)
    ensures Reachable(c.(sent := c.sent + fs))
    decreases |fs|
  {
    hide Reachable;
    if fs == [] {
      assert c.sent + fs == c.sent;
    } else {
      ReachableStep(c, Publish(fs[0]));
      Associative(c.sent, [fs[0]], fs[1..]);
      assert fs == [fs[0]] + fs[1..];
      PublishAll(c.(sent := c.sent + [fs[0]]), fs[1..]);
    }
  }

  /** What a pump that subscribed after `start` updates can have missed of `n`. */
  predicate CanMiss(n: nat, start: nat, missed: set<nat>) {
    && start <= n
    && (forall i: nat :: i < start ==> i in missed)
    && (forall i :: i in missed ==> i < start || i + 256 < n)
  }

  function Below(missed: set<nat>, n: nat): set<nat> {
    set i | i in missed && i < n
  }

  function Upto(fs: seq<Frame>, n: nat): seq<Frame> {
    if n <= |fs| then fs[..n] else fs
  }

  lemma UptoNext(fs: seq<Frame>, n: nat)
    ensures n < |fs| ==> Upto(fs, n + 1) == Upto(fs, n) + [fs[n]]
    ensures n >= |fs| ==> Upto(fs, n + 1) == Upto(fs, n)
  {
  }

  /** A pump that lives on the edge: it reads every update as the last one still kept, or lets
      one more be sent and loses it. */
  lemma {:induction false} OnTheEdge(c: Channel, fs: seq<Frame>, missed: set<nat>) returns (c': Channel)
    requires Reachable(c) && c.start.Some? && c.start.value <= c.next <= |fs|
    requires c.sent == Upto(fs, c.next + CAPACITY) && c.missed == Below(missed, c.next)
    requires CanMiss(|fs|, c.start.value, missed)
    ensures Reachable(c') && CaughtUp(c') && c'.sent == fs && c'.start == c.start && c'.missed == missed
    decreases |fs| - c.next
  {
    hide Reachable;
    var p := c.next;
    if p == |fs| {
      assert Below(missed, p) == missed;
      c' := c;
    } else {
      hide Upto;
      UptoNext(fs, p + CAPACITY);
      var c1;
      if p in missed {
        ReachableStep(c, Publish(fs[p + CAPACITY]));
        var behind := Step(c, Publish(fs[p + CAPACITY]));
        LagsByOne(c, fs, p);
        ReachableStep(behind, Receive);
        c1 := Step(behind, Receive);
        assert Below(missed, p + 1) == Below(missed, p) + Positions(p, p + 1);
      } else {
        KeptAtEdge(c, fs, p);
        ReachableStep(c, Receive);
        c1 := Step(c, Receive);
        if p + CAPACITY < |fs| {
          ReachableStep(c1, Publish(fs[p + CAPACITY]));
          c1 := Step(c1, Publish(fs[p + CAPACITY]));
        }
        assert Below(missed, p + 1) == Below(missed, p);
      }
      c' := OnTheEdge(c1, fs, missed);
    }
  }

  lemma LagsByOne(c: Channel, fs: seq<Frame>, p: nat)
    requires c.start.Some? && c.next == p && p + CAPACITY < |fs| && c.sent == Upto(fs, p + CAPACITY)
    ensures var behind := c.(sent := c.sent + [fs[p + CAPACITY]]);
            Enabled(behind, Receive) && Step(behind, Receive) == behind.(next := p + 1, missed := c.missed + Positions(p, p + 1))
  {
  }

  lemma KeptAtEdge(c: Channel, fs: seq<Frame>, p: nat)
    requires c.start.Some? && c.next == p < |fs| && c.sent == Upto(fs, p + CAPACITY)
    ensures Enabled(c, Receive) && !Lagged(c)
  {
  }

  /** A pump that has caught up with what was sent. */
  ghost predicate Reaches(c: Channel, fs: seq<Frame>, start: nat, missed: set<nat>) {
    Reachable(c) && CaughtUp(c) && c.sent == fs && c.start == Some(start) && c.missed == missed
  }

  lemma CanBeMissed(fs: seq<Frame>, start: nat, missed: set<nat>) returns (c: Channel)
    requires CanMiss(|fs|, start, missed)
    ensures Reaches(c, fs, start, missed)
  {
    assert CanRun(OPEN, []) && RunAll(OPEN, []) == OPEN;
    assert Reachable(OPEN);
    hide Reachable;
    PublishAll(OPEN, fs[..start]);
    var c0 := OPEN.(sent := fs[..start]);
    assert [] + fs[..start] == fs[..start];
    ReachableStep(c0, Subscribe);
    var c1 := Step(c0, Subscribe);
    var all := Upto(fs, start + CAPACITY);
    PublishAll(c1, all[start..]);
    assert fs[..start] + all[start..] == all;
    assert Positions(0, start) == Below(missed, start);
    c := OnTheEdge(c1.(sent := all), fs, missed);
  }

  /** Over every run of the channel, and only so: a pump that has caught up has missed
      everything from before it subscribed, and beyond that any updates that have been
      followed by as many others as the channel keeps. */
  lemma MissedExactly(fs: seq<Frame>, start: nat, missed: set<nat>)
    ensures (exists c :: Reaches(c, fs, start, missed)) <==> CanMiss(|fs|, start, missed)
  {
    if c :| Reaches(c, fs, start, missed) {
      ReachableInv(c);
    }
    if CanMiss(|fs|, start, missed) {
      var c := CanBeMissed(fs, start, missed);
    }
  }

  // ----- What is received -----

  /** With the last write to `k` missed, and the one before it received. */
  lemma {:induction false} KeptUpTo(fs: seq<Frame>, missed: set<nat>, k: StateKey, q: nat)
    requires q < |fs| && Writes(fs[q], k) && q !in missed
    requires forall i: nat :: q < i < |fs| && Writes(fs[i], k) ==> i in missed
    ensures LastOf(Kept(fs, missed), k) == Some(fs[q].value)
    decreases |fs|
  {
    var n := |fs| - 1;
    if q == n {
      LastOfConcat(Kept(fs[..n], missed), [fs[n]], k);
      LastOfSingle(fs[n], k);
    } else {
      KeptUpTo(fs[..n], missed, k, q);
      LastOfConcat(Kept(fs[..n], missed), [fs[n]], k);
      LastOfSingle(fs[n], k);
      assert Kept(fs[..n], missed) + [] == Kept(fs[..n], missed);
    }
  }

  /** With every write to `k` missed. */
  lemma {:induction false} KeptNothing(fs: seq<Frame>, missed: set<nat>, k: StateKey)
    requires forall i: nat :: i < |fs| && Writes(fs[i], k) ==> i in missed
    ensures LastOf(Kept(fs, missed), k) == None
    decreases |fs|
  {
    if fs == [] {
    } else {
      var n := |fs| - 1;
      KeptNothing(fs[..n], missed, k);
      LastOfConcat(Kept(fs[..n], missed), [fs[n]], k);
      LastOfSingle(fs[n], k);
      assert Kept(fs[..n], missed) + [] == Kept(fs[..n], missed);
    }
  }

  /** Frames that do not write `k` change nothing about it, missed or not. */
  lemma {:induction false} KeptSilent(fs: seq<Frame>, more: seq<Frame>, missed: set<nat>, k: StateKey)
    requires fs <= more && forall i :: |fs| <= i < |more| ==> !Writes(more[i], k)
    ensures LastOf(Kept(more, missed), k) == LastOf(Kept(fs, missed), k)
    ensures LastOf(more, k) == LastOf(fs, k)
    decreases |more|
  {
    if |more| == |fs| {
      assert more == fs;
    } else {
      var n := |more| - 1;
      assert fs <= more[..n] && !Writes(more[n], k);
      KeptSilent(fs, more[..n], missed, k);
      LastOfConcat(Kept(more[..n], missed), [more[n]], k);
      LastOfSingle(more[n], k);
      assert Kept(more[..n], missed) + [] == Kept(more[..n], missed);
    }
  }

  /** What went through the channel is what was published during the run. */
  function Published(es: seq<Event>): seq<Frame> {
    if es == [] then [] else (if es[0].Publish? then [es[0].f] else []) + Published(es[1..])
  }

  lemma {:induction false} SentIsPublished(c: Channel, es: seq<Event>)
    requires CanRun(c, es)
    ensures RunAll(c, es).sent == c.sent + Published(es)
    decreases |es|
  {
    if es == [] {
      assert c.sent + [] == c.sent;
    } else {
      var c' := Step(c, es[0]);
      assert c'.sent == c.sent + (if es[0].Publish? then [es[0].f] else []);
      hide Step, Enabled;
      SentIsPublished(c', es[1..]);
      Associative(c.sent, if es[0].Publish? then [es[0].f] else [], Published(es[1..]));
    }
  }
}
