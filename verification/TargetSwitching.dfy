/** Target switching on an uncycled device: rounds of enter, press and applied switch. And the
    feedback rules that go with what is routed. */
module TargetSwitching {
  import opened Common
  import opened Contracts
  import opened Modular
  import opened Routing
  import opened BucketIndex
  import opened RoutedIntents
  import opened Outcomes

  predicate DistinctTargets(cs: seq<TargetCandidate>) {
    forall i, j :: 0 <= i < j < |cs| ==> cs[i].target != cs[j].target
  }

  /** `m` is the device's only mapping that the gesture makes enter selection. */
  ghost predicate SoleSwitch(bucket: seq<Mapping>, m: Mapping, g: InputPrimitive) {
    && m in bucket && Switchable(m, g)
    && forall x :: x in bucket && x != m ==> !Switchable(x, g)
  }

  ghost predicate Ready(e: Engine, flat: seq<Mapping>, k: DeviceKey, g: InputPrimitive, m: Mapping) {
    && Refines(e.byDevice, flat) && DistinctIds(flat)
    && k !in e.cycles && k !in e.selection
    && SoleSwitch(Bucket(e.byDevice, k), m, g)
    && DistinctTargets(m.targetCandidates)
  }

  /** One round: the gesture, a press, and the committed switch as the server applies it. */
  function Round(e: Engine, k: DeviceKey, g: InputPrimitive, order: seq<DeviceKey>): Engine
    requires k in e.selection ==> e.selection[k].Valid()
  {
    var e1 := RouteWithMode(e, k, g).0;
    if k in e1.selection && !e1.selection[k].Valid() then e1
    else
      var (e2, out) := RouteWithMode(e1, k, Press);
      if out.CommitSelection?
      then e2.(byDevice := TargetSwitched(e2.byDevice, order, out.mappingId, out.serviceTarget))
      else e2
  }

  /** The position of the current target among the candidates, -1 when it is none of them. */
  function CurrentIndex(m: Mapping): int {
    var i := PositionOf(m.targetCandidates, m.serviceTarget);
    if i.Some? then i.value else -1
  }

  function Retarget(m: Mapping, steps: int): Mapping
    requires m.targetCandidates != []
  {
    m.(serviceTarget := m.targetCandidates[(CurrentIndex(m) + steps) % |m.targetCandidates|].target)
  }

  lemma {:induction false} SoleIsFirst(bucket: seq<Mapping>, m: Mapping, g: InputPrimitive)
    requires SoleSwitch(bucket, m, g)
    ensures FirstSwitchable(bucket, g) == Some(m)
    decreases |bucket|
  {
    hide InputPrimitive.MatchesRoute, Switchable;
    if bucket[0] == m {
    } else {
      assert !Switchable(bucket[0], g);
      assert bucket == [bucket[0]] + bucket[1..];
      SoleIsFirst(bucket[1..], m, g);
    }
  }

  lemma IndexOfCandidate(m: Mapping, j: nat)
    requires j < |m.targetCandidates| && DistinctTargets(m.targetCandidates)
    ensures PositionOf(m.targetCandidates, m.targetCandidates[j].target) == Some(j)
  {
    var i := PositionOf(m.targetCandidates, m.targetCandidates[j].target);
    assert i.Some?;
    assert i.value == j;
  }

  lemma EnterIndex(m: Mapping)
    requires m.targetCandidates != []
    ensures EnterMode(m).cursor == (CurrentIndex(m) + 1) % |m.targetCandidates|
    ensures EnterMode(m).Valid()
  {
    ModSmall(0, |m.targetCandidates|);
  }

  /** What the two inputs of a round do: enter on the next candidate, commit it. */
  lemma RoundCommits(e: Engine, flat: seq<Mapping>, k: DeviceKey, g: InputPrimitive, m: Mapping, order: seq<DeviceKey>)
    requires Ready(e, flat, k, g, m)
    ensures Round(e, k, g, order) ==
            e.(byDevice := TargetSwitched(e.byDevice, order, m.mappingId, Retarget(m, 1).serviceTarget))
  {
    hide InputPrimitive.MatchesRoute, RouteMappings, Refines, TargetSwitched;
    SoleIsFirst(Bucket(e.byDevice, k), m, g);
    EnterIndex(m);
    var mode := EnterMode(m);
    var e1 := RouteWithMode(e, k, g).0;
    assert e1 == e.(selection := e.selection[k := mode]);
    var (e2, out) := RouteWithMode(e1, k, Press);
    assert e2.selection == e.selection;
    assert out == CommitSelection(m.edgeId, m.mappingId, mode.Current().target);
  }

  /** The same mapping with another target. */
  predicate SameButTarget(m: Mapping, m': Mapping) {
    m' == m.(serviceTarget := m'.serviceTarget)
  }

  lemma SwitchableAlike(m: Mapping, m': Mapping, g: InputPrimitive)
    requires SameButTarget(m, m')
    ensures Switchable(m', g) <==> Switchable(m, g)
  {
    hide InputPrimitive.MatchesRoute;
  }

  lemma StaysSole(bucket: seq<Mapping>, m: Mapping, m': Mapping, g: InputPrimitive)
    requires SoleSwitch(bucket, m, g) && SameButTarget(m, m')
    ensures SoleSwitch(WithoutId(bucket, m.mappingId) + [m'], m', g)
  {
    hide InputPrimitive.MatchesRoute, WithoutId;
    SwitchableAlike(m, m', g);
    hide Switchable, SameButTarget;
    forall x | x in WithoutId(bucket, m.mappingId) ensures x in bucket && x != m {
      InWithoutId(bucket, m.mappingId, x);
    }
  }

  lemma SwitchedBucket(e: Engine, flat: seq<Mapping>, k: DeviceKey, g: InputPrimitive, m: Mapping, m': Mapping)
    requires Ready(e, flat, k, g, m) && SameButTarget(m, m')
    ensures SoleSwitch(OfDevice(FlatUpsert(flat, m'), k), m', g)
  {
    var bucket := Bucket(e.byDevice, k);
    assert bucket == OfDevice(flat, k);
    hide OfDevice, WithoutId, SoleSwitch;
    InOfDevice(flat, k, m);
    assert m in OfDevice(flat, k) by {
      SoleIsIn(bucket, m, g);
    }
    OfDeviceSnoc(WithoutId(flat, m.mappingId), m', k);
    FiltersCommute(flat, m.mappingId, k);
    StaysSole(bucket, m, m', g);
  }

  lemma SoleIsIn(bucket: seq<Mapping>, m: Mapping, g: InputPrimitive)
    requires SoleSwitch(bucket, m, g)
    ensures m in bucket
  {
  }

  /** One round moves the mapping's target to the next candidate and leaves the engine ready
      for another. */
  lemma RoundAdvances(e: Engine, flat: seq<Mapping>, k: DeviceKey, g: InputPrimitive, m: Mapping, order: seq<DeviceKey>)
    requires Ready(e, flat, k, g, m) && IsEnumeration(order, e.byDevice.Keys)
    ensures Ready(Round(e, k, g, order), FlatUpsert(flat, Retarget(m, 1)), k, g, Retarget(m, 1))
    ensures Round(e, k, g, order).byDevice.Keys == e.byDevice.Keys
  {
    var m' := Retarget(m, 1);
    RoundCommits(e, flat, k, g, m, order);
    InOfDevice(flat, k, m);
    assert Bucket(e.byDevice, k) == OfDevice(flat, k);
    FindInSnapshot(e.byDevice, flat, order, m.mappingId);
    FindByIdUnique(flat, m);
    UpsertRefines(e.byDevice, flat, m');
    FlatUpsertDistinct(flat, m');
    SwitchedBucket(e, flat, k, g, m, m');
    assert Bucket(Upserted(e.byDevice, m'), k) == OfDevice(FlatUpsert(flat, m'), k);
    assert k in e.byDevice;
  }

  function Rounds(e: Engine, k: DeviceKey, g: InputPrimitive, orders: seq<seq<DeviceKey>>): Engine
    requires SelectionsValid(e)
    decreases |orders|
  {
    if orders == [] then e
    else
      var e' := Round(e, k, g, orders[0]);
      RoundKeepsValid(e, k, g, orders[0]);
      Rounds(e', k, g, orders[1..])
  }

  lemma RoundKeepsValid(e: Engine, k: DeviceKey, g: InputPrimitive, order: seq<DeviceKey>)
    requires SelectionsValid(e)
    ensures SelectionsValid(Round(e, k, g, order))
  {
    hide RouteWithMode;
    RouteWithModeKeepsValid(e, k, g);
    RouteWithModeKeepsValid(RouteWithMode(e, k, g).0, k, Press);
  }

  lemma RetargetTwice(m: Mapping, n: nat)
    requires m.targetCandidates != [] && DistinctTargets(m.targetCandidates)
    ensures Retarget(Retarget(m, 1), n) == Retarget(m, n + 1)
  {
    var c := |m.targetCandidates|;
    var j := (CurrentIndex(m) + 1) % c;
    IndexOfCandidate(m, j);
    assert CurrentIndex(Retarget(m, 1)) == j;
    ModAdd(CurrentIndex(m) + 1, n, c);
  }

  /** Round robin: whatever candidate (or none) is current, r rounds leave the target r
      candidates further on, modulo their number. */
  lemma {:induction false} RoundRobin(e: Engine, flat: seq<Mapping>, k: DeviceKey, g: InputPrimitive, m: Mapping, orders: seq<seq<DeviceKey>>)
    returns (flat': seq<Mapping>)
    requires SelectionsValid(e) && Ready(e, flat, k, g, m)
    requires orders != [] && forall i :: 0 <= i < |orders| ==> IsEnumeration(orders[i], e.byDevice.Keys)
    ensures m.targetCandidates != []
    ensures Ready(Rounds(e, k, g, orders), flat', k, g, Retarget(m, |orders|))
    decreases |orders|
  {
    hide Ready, InputPrimitive.MatchesRoute, Round, Retarget, SelectionsValid;
    ReadyCandidates(e, flat, k, g, m);
    var e', m' := Round(e, k, g, orders[0]), Retarget(m, 1);
    RoundAdvances(e, flat, k, g, m, orders[0]);
    RoundKeepsValid(e, k, g, orders[0]);
    flat' := FlatUpsert(flat, m');
    if |orders| == 1 {
      assert Rounds(e', k, g, orders[1..]) == e';
    } else {
      flat' := RoundRobin(e', flat', k, g, m', orders[1..]);
      RetargetTwice(m, |orders| - 1);
    }
  }

  lemma ReadyCandidates(e: Engine, flat: seq<Mapping>, k: DeviceKey, g: InputPrimitive, m: Mapping)
    requires Ready(e, flat, k, g, m)
    ensures m.targetCandidates != [] && DistinctTargets(m.targetCandidates) && k !in e.selection
  {
  }

  lemma IndexAfter(p: nat, r: nat, c: nat)
    requires p < c && 1 <= r <= c
    ensures (p + r) % c == if p + r < c then p + r else p + r - c
  {
    if p + r < c {
      ModSmall(p + r, c);
    } else {
      ModCycle(p + r - c, c);
      ModSmall(p + r - c, c);
    }
  }

  lemma RetargetMeets(m: Mapping, j: nat) returns (r: nat)
    requires j < |m.targetCandidates| && DistinctTargets(m.targetCandidates) && CurrentIndex(m) >= 0
    ensures Retarget(m, |m.targetCandidates|) == m
    ensures 1 <= r <= |m.targetCandidates|
    ensures forall r': nat :: 1 <= r' <= |m.targetCandidates| ==>
              (Retarget(m, r').serviceTarget == m.targetCandidates[j].target <==> r' == r)
  {
    var c := |m.targetCandidates|;
    var p := CurrentIndex(m);
    IndexAfter(p, c, c);
    r := if p < j then j - p else j + c - p;
    forall r': nat | 1 <= r' <= c
      ensures Retarget(m, r').serviceTarget == m.targetCandidates[j].target <==> r' == r
    {
      IndexAfter(p, r', c);
      TargetsDiffer(m, (p + r') % c, j);
    }
  }

  lemma TargetsDiffer(m: Mapping, i: nat, j: nat)
    requires i < |m.targetCandidates| && j < |m.targetCandidates| && DistinctTargets(m.targetCandidates)
    ensures m.targetCandidates[i].target == m.targetCandidates[j].target <==> i == j
  {
  }

  /** On the engine, with the current target a candidate: as many rounds as there are
      candidates bring the mapping back to where it began, and on the way every candidate is
      the target after exactly one number of rounds. */
  lemma EveryCandidateVisited(e: Engine, flat: seq<Mapping>, k: DeviceKey, g: InputPrimitive, m: Mapping, orders: seq<seq<DeviceKey>>, j: nat)
    returns (r: nat)
    requires SelectionsValid(e) && Ready(e, flat, k, g, m) && CurrentIndex(m) >= 0
    requires |orders| == |m.targetCandidates| && j < |m.targetCandidates|
    requires forall i :: 0 <= i < |orders| ==> IsEnumeration(orders[i], e.byDevice.Keys)
    ensures SoleSwitch(Bucket(Rounds(e, k, g, orders).byDevice, k), m, g)
    ensures 1 <= r <= |orders|
    ensures forall r': nat :: 1 <= r' <= |orders| ==>
              exists m' :: SoleSwitch(Bucket(Rounds(e, k, g, orders[..r']).byDevice, k), m', g) && SameButTarget(m, m')
                && (m'.serviceTarget == m.targetCandidates[j].target <==> r' == r)
  {
    hide InputPrimitive.MatchesRoute, Rounds, Retarget, SelectionsValid, SoleSwitch, Refines, CurrentIndex, DistinctIds, DistinctTargets, IsEnumeration;
    r := RetargetMeets(m, j);
    var _ := RoundRobin(e, flat, k, g, m, orders);
    forall r': nat | 1 <= r' <= |orders|
      ensures exists m' :: SoleSwitch(Bucket(Rounds(e, k, g, orders[..r']).byDevice, k), m', g) && SameButTarget(m, m')
                && (m'.serviceTarget == m.targetCandidates[j].target <==> r' == r)
    {
      var _ := RoundRobin(e, flat, k, g, m, orders[..r']);
      RetargetKeepsId(m, r');
      var m' := Retarget(m, r');
      assert SoleSwitch(Bucket(Rounds(e, k, g, orders[..r']).byDevice, k), m', g);
    }
  }

  lemma RetargetKeepsId(m: Mapping, n: int)
    requires m.targetCandidates != []
    ensures Retarget(m, n) == m.(serviceTarget := Retarget(m, n).serviceTarget)
  {
  }

  /** The candidate that is the target decides the service type and the routes. */
  function CandidateRoutes(m: Mapping, c: TargetCandidate): seq<Route> {
    if c.routes.Some? then c.routes.value else m.routes
  }

  lemma CandidateRouted(m: Mapping, j: nat, input: InputPrimitive)
    requires j < |m.targetCandidates| && DistinctTargets(m.targetCandidates)
    requires m.active && m.serviceTarget == m.targetCandidates[j].target
    ensures var c := m.targetCandidates[j];
            RouteOne(m, input, None) ==
              match FirstIntent(CandidateRoutes(m, c), input)
              case Some(i) => [RoutedIntent(CandidateType(m, c), c.target, i)]
              case None => []
  {
    hide InputPrimitive.MatchesRoute, BuildIntent;
    IndexOfCandidate(m, j);
  }

  lemma {:induction false} MemberRouted(ms: seq<Mapping>, m: Mapping, input: InputPrimitive, r: RoutedIntent)
    requires m in ms && r in RouteOne(m, input, None)
    ensures r in RouteMappings(ms, input, None)
    decreases |ms|
  {
    hide InputPrimitive.MatchesRoute, BuildIntent, RouteOne;
    var n := |ms| - 1;
    assert ms == ms[..n] + [ms[n]];
    if m == ms[n] {
    } else {
      MemberRouted(ms[..n], m, input, r);
    }
  }

  /** After any number of rounds on the engine, the device routes with the candidate that is
      now the target: an input for which the candidate's routes yield an intent emits it, with
      the candidate's service type and target; and an input that no mapping takes for a switch
      gesture is answered with exactly what is routed. */
  lemma CandidateInForce(e: Engine, flat: seq<Mapping>, k: DeviceKey, g: InputPrimitive, m: Mapping, orders: seq<seq<DeviceKey>>, input: InputPrimitive)
    requires SelectionsValid(e) && Ready(e, flat, k, g, m)
    requires orders != [] && forall i :: 0 <= i < |orders| ==> IsEnumeration(orders[i], e.byDevice.Keys)
    ensures m.targetCandidates != []
    ensures var e' := Rounds(e, k, g, orders);
            var c := m.targetCandidates[(CurrentIndex(m) + |orders|) % |m.targetCandidates|];
            var intent := FirstIntent(CandidateRoutes(m, c), input);
            && (intent.Some? ==> RoutedIntent(CandidateType(m, c), c.target, intent.value) in RouteInput(e', k, input))
            && k !in e'.cycles && k !in e'.selection
            && (FirstSwitchable(Bucket(e'.byDevice, k), input).None? ==> RouteWithMode(e', k, input).1 == Normal(RouteInput(e', k, input)))
  {
    hide InputPrimitive.MatchesRoute, BuildIntent, FirstIntent, Rounds, SelectionsValid, Refines, DistinctIds, RouteMappings, RouteOne, FirstSwitchable;
    ReadyCandidates(e, flat, k, g, m);
    var flat' := RoundRobin(e, flat, k, g, m, orders);
    var e', m' := Rounds(e, k, g, orders), Retarget(m, |orders|);
    var j := (CurrentIndex(m) + |orders|) % |m.targetCandidates|;
    RetargetKeepsId(m, |orders|);
    assert m'.serviceTarget == m.targetCandidates[j].target;
    CandidateRouted(m', j, input);
    var intent := FirstIntent(CandidateRoutes(m, m.targetCandidates[j]), input);
    if intent.Some? {
      MemberRouted(Bucket(e'.byDevice, k), m', input, RoutedIntent(CandidateType(m, m.targetCandidates[j]), m.targetCandidates[j].target, intent.value));
    }
  }

  // ----- Feedback covers routing -----

  /** A mapping that emits an intent covers the intent's service and target, through its own
      target or through the candidate whose overrides are in force. */
  lemma EmitterCovers(m: Mapping, input: InputPrimitive, filter: Option<Uuid>, r: RoutedIntent)
    requires r in RouteOne(m, input, filter)
    ensures Covers(m, r.serviceType, r.serviceTarget)
  {
    hide InputPrimitive.MatchesRoute, BuildIntent;
    var i := PositionOf(m.targetCandidates, m.serviceTarget);
    if i.Some? && m.targetCandidates[i.value].serviceType.Some? {
      assert CandidateType(m, m.targetCandidates[i.value]) == r.serviceType;
    }
  }

  /** Feedback covers routing: if an input on a device emits an intent for a service and
      target, then a feedback lookup for that device and pair finds rules, cross-service
      candidates included: those of the first mapping that names the pair, which is the one
      that spoke when no earlier one names it. */
  lemma FeedbackCoversRouting(e: Engine, k: DeviceKey, input: InputPrimitive, r: RoutedIntent) returns (first: nat, speaker: nat)
    requires r in RouteInput(e, k, input)
    ensures var bucket := Bucket(e.byDevice, k);
            && first <= speaker < |bucket|
            && Says(bucket[speaker], input, if k in e.cycles then e.cycles[k].activeMappingId else None, r)
            && FirstNames(bucket, r.serviceType, r.serviceTarget, first)
            && RulesForTarget(bucket, r.serviceType, r.serviceTarget) == Some(bucket[first].feedback)
            && ((forall n :: 0 <= n < speaker ==> !Names(bucket[n], r.serviceType, r.serviceTarget)) ==> first == speaker)
  {
    hide Says, RouteMappings, Names, Covers, RulesForTarget, RouteOne;
    var bucket, filter := Bucket(e.byDevice, k), ActiveFilter(e, k);
    var who := RouteExactly(e, k, input);
    var out := RouteInput(e, k, input);
    var t :| 0 <= t < |out| && out[t] == r;
    speaker := who[t];
    RouteOneExactly(bucket[speaker], input, filter, r);
    EmitterCovers(bucket[speaker], input, filter, r);
    CoversExactly(bucket[speaker], r.serviceType, r.serviceTarget);
    var i := RulesExactly(bucket, r.serviceType, r.serviceTarget);
    first := i;
  }
}
