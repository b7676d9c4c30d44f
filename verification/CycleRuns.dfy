/** Cycled devices: the orbit of the active mapping, isolation of the active mapping, and the
    agreement of the two platforms' input paths. */
module CycleRuns {
  import opened Common
  import opened Contracts
  import opened Modular
  import opened Routing
  import opened BucketIndex

  // ----- Orbit -----

  predicate DistinctUuids(ids: seq<Uuid>) {
    forall i, j :: 0 <= i < j < |ids| ==> ids[i] != ids[j]
  }

  predicate IsGesture(c: DeviceCycle, g: InputPrimitive) {
    c.cycleGesture.Some? && g.MatchesRoute(c.cycleGesture.value)
  }

  function Gesture(e: Engine, k: DeviceKey, g: InputPrimitive): Engine
    requires k in e.cycles
  {
    RouteWithMode(e, k, g).0
  }

  function Gestures(e: Engine, k: DeviceKey, g: InputPrimitive, n: nat): (r: Engine)
    requires k in e.cycles
    ensures k in r.cycles
  {
    if n == 0 then e else Gesture(Gestures(e, k, g, n - 1), k, g)
  }

  /** Every id is followed by the same id wherever it occurs. */
  ghost predicate SameSuccessors(ids: seq<Uuid>) {
    forall p, q :: 0 <= p < |ids| && 0 <= q < |ids| && ids[p] == ids[q] ==> ids[Wrap(p + 1, |ids|)] == ids[Wrap(q + 1, |ids|)]
  }

  lemma DistinctSuccessors(ids: seq<Uuid>)
    requires DistinctUuids(ids)
    ensures SameSuccessors(ids)
  {
    forall p, q | 0 <= p < |ids| && 0 <= q < |ids| && ids[p] == ids[q]
      ensures ids[Wrap(p + 1, |ids|)] == ids[Wrap(q + 1, |ids|)]
    {
      assert p == q;
    }
  }

  /** The id the gesture switches to is the one after the first occurrence of the active id. */
  lemma NextOf(c: DeviceCycle, q: nat) returns (first: nat)
    requires q < |c.mappingIds| && c.activeMappingId == Some(c.mappingIds[q])
    ensures first < |c.mappingIds| && c.mappingIds[first] == c.mappingIds[q]
    ensures NextActive(c) == Some(c.mappingIds[Wrap(first + 1, |c.mappingIds|)])
  {
    var i := IdPosition(c.mappingIds, c.mappingIds[q]);
    assert c.mappingIds[q] in c.mappingIds;
    first := i.value;
  }

  /** One gesture makes the next member active and changes nothing else. */
  lemma GestureOnce(e: Engine, k: DeviceKey, g: InputPrimitive, next: Uuid)
    requires k in e.cycles && IsGesture(e.cycles[k], g) && NextActive(e.cycles[k]) == Some(next)
    ensures Gesture(e, k, g) == WithActive(e, k, next)
  {
    hide InputPrimitive.MatchesRoute, RouteMappings, NextActive;
  }

  lemma WithActiveTwice(e: Engine, k: DeviceKey, a: Uuid, b: Uuid)
    requires k in e.cycles
    ensures WithActive(WithActive(e, k, a), k, b) == WithActive(e, k, b)
    ensures e.cycles[k].activeMappingId == Some(a) ==> WithActive(e, k, a) == e
  {
    if e.cycles[k].activeMappingId == Some(a) {
      assert e.cycles[k := e.cycles[k]] == e.cycles;
    }
  }

  lemma GestureKept(e: Engine, k: DeviceKey, g: InputPrimitive, id: Uuid)
    requires k in e.cycles && IsGesture(e.cycles[k], g)
    ensures IsGesture(WithActive(e, k, id).cycles[k], g)
  {
  }

  lemma GestureStep(e: Engine, k: DeviceKey, g: InputPrimitive, q: nat)
    requires k in e.cycles && IsGesture(e.cycles[k], g) && SameSuccessors(e.cycles[k].mappingIds)
    requires q < |e.cycles[k].mappingIds| && e.cycles[k].activeMappingId == Some(e.cycles[k].mappingIds[q])
    ensures var ids := e.cycles[k].mappingIds; Gesture(e, k, g) == WithActive(e, k, ids[Wrap(q + 1, |ids|)])
  {
    hide InputPrimitive.MatchesRoute, Gesture, NextActive, Wrap;
    var ids := e.cycles[k].mappingIds;
    var first := NextOf(e.cycles[k], q);
    assert ids[Wrap(first + 1, |ids|)] == ids[Wrap(q + 1, |ids|)];
    GestureOnce(e, k, g, ids[Wrap(q + 1, |ids|)]);
  }

  lemma OrbitStep(e: Engine, k: DeviceKey, g: InputPrimitive, q: nat)
    requires k in e.cycles && IsGesture(e.cycles[k], g) && SameSuccessors(e.cycles[k].mappingIds)
    requires q < |e.cycles[k].mappingIds|
    ensures var ids := e.cycles[k].mappingIds;
            Gesture(WithActive(e, k, ids[q]), k, g) == WithActive(e, k, ids[Wrap(q + 1, |ids|)])
  {
    hide IsGesture, SameSuccessors, Gesture, Wrap;
    var ids := e.cycles[k].mappingIds;
    GestureKept(e, k, g, ids[q]);
    GestureStep(WithActive(e, k, ids[q]), k, g, q);
    WithActiveTwice(e, k, ids[q], ids[Wrap(q + 1, |ids|)]);
  }

  /** From position p, n gestures leave the active mapping at position (p + n) mod the number
      of members, and change nothing else. */
  lemma {:induction false} Orbit(e: Engine, k: DeviceKey, g: InputPrimitive, p: nat, n: nat)
    requires k in e.cycles && IsGesture(e.cycles[k], g) && SameSuccessors(e.cycles[k].mappingIds)
    requires p < |e.cycles[k].mappingIds| && e.cycles[k].activeMappingId == Some(e.cycles[k].mappingIds[p])
    ensures var ids := e.cycles[k].mappingIds; Gestures(e, k, g, n) == WithActive(e, k, ids[Wrap(p + n, |ids|)])
  {
    hide IsGesture, SameSuccessors, Gesture, WithActive, Wrap;
    var ids := e.cycles[k].mappingIds;
    if n == 0 {
      WrapSmall(p, |ids|);
      WithActiveTwice(e, k, ids[p], ids[p]);
    } else {
      Orbit(e, k, g, p, n - 1);
      OrbitStep(e, k, g, Wrap(p + n - 1, |ids|));
      WrapAdd(p + n - 1, 1, |ids|);
    }
  }

  /** Started at any member, the gesture walks the listed order. */
  ghost predicate WalksInOrder(e: Engine, k: DeviceKey, g: InputPrimitive)
    requires k in e.cycles
  {
    var ids := e.cycles[k].mappingIds;
    forall p: nat, n: nat :: p < |ids| ==>
      Gestures(WithActive(e, k, ids[p]), k, g, n) == WithActive(e, k, ids[Wrap(p + n, |ids|)])
  }

  /** The walk follows the list, from every member and for any number of gestures, if and
      only if every id is followed by the same id wherever it occurs; distinct ids are. */
  lemma OrbitExactly(e: Engine, k: DeviceKey, g: InputPrimitive)
    requires k in e.cycles && IsGesture(e.cycles[k], g)
    ensures WalksInOrder(e, k, g) <==> SameSuccessors(e.cycles[k].mappingIds)
    ensures DistinctUuids(e.cycles[k].mappingIds) ==> SameSuccessors(e.cycles[k].mappingIds)
  {
    hide IsGesture, SameSuccessors, Gestures, Wrap, DistinctUuids;
    var ids := e.cycles[k].mappingIds;
    if SameSuccessors(ids) {
      forall p: nat, n: nat | p < |ids|
        ensures Gestures(WithActive(e, k, ids[p]), k, g, n) == WithActive(e, k, ids[Wrap(p + n, |ids|)])
      {
        WalkFrom(e, k, g, p, n);
      }
    }
    if WalksInOrder(e, k, g) {
      WalkSuccessors(e, k, g);
    }
    if DistinctUuids(ids) {
      DistinctSuccessors(ids);
    }
  }

  lemma WalkFrom(e: Engine, k: DeviceKey, g: InputPrimitive, p: nat, n: nat)
    requires k in e.cycles && IsGesture(e.cycles[k], g) && SameSuccessors(e.cycles[k].mappingIds)
    requires p < |e.cycles[k].mappingIds|
    ensures var ids := e.cycles[k].mappingIds;
            Gestures(WithActive(e, k, ids[p]), k, g, n) == WithActive(e, k, ids[Wrap(p + n, |ids|)])
  {
    hide IsGesture, SameSuccessors, Gestures, Wrap;
    var ids := e.cycles[k].mappingIds;
    var started := WithActive(e, k, ids[p]);
    GestureKept(e, k, g, ids[p]);
    Orbit(started, k, g, p, n);
    WithActiveTwice(e, k, ids[p], ids[Wrap(p + n, |ids|)]);
  }

  lemma WalkSuccessors(e: Engine, k: DeviceKey, g: InputPrimitive)
    requires k in e.cycles && WalksInOrder(e, k, g)
    ensures SameSuccessors(e.cycles[k].mappingIds)
  {
    hide Gestures, Wrap;
    var ids := e.cycles[k].mappingIds;
    forall p, q | 0 <= p < |ids| && 0 <= q < |ids| && ids[p] == ids[q]
      ensures ids[Wrap(p + 1, |ids|)] == ids[Wrap(q + 1, |ids|)]
    {
      var a := WithActive(e, k, ids[Wrap(p + 1, |ids|)]);
      var b := WithActive(e, k, ids[Wrap(q + 1, |ids|)]);
      assert Gestures(WithActive(e, k, ids[p]), k, g, 1) == a;
      assert Gestures(WithActive(e, k, ids[q]), k, g, 1) == b;
      assert a.cycles[k].activeMappingId == b.cycles[k].activeMappingId;
    }
  }

  lemma ActiveAfter(e: Engine, k: DeviceKey, g: InputPrimitive, p: nat, n: nat)
    requires k in e.cycles && IsGesture(e.cycles[k], g) && DistinctUuids(e.cycles[k].mappingIds)
    requires p < |e.cycles[k].mappingIds| && e.cycles[k].activeMappingId == Some(e.cycles[k].mappingIds[p])
    ensures var ids := e.cycles[k].mappingIds; Gestures(e, k, g, n).cycles[k].activeMappingId == Some(ids[Wrap(p + n, |ids|)])
  {
    hide IsGesture, DistinctUuids, Gestures, Wrap, SameSuccessors;
    DistinctSuccessors(e.cycles[k].mappingIds);
    Orbit(e, k, g, p, n);
  }

  /** As many gestures as there are members return to where they started, having made every
      member active exactly once on the way. */
  lemma FullTurn(e: Engine, k: DeviceKey, g: InputPrimitive, p: nat, member: nat)
    requires k in e.cycles && IsGesture(e.cycles[k], g) && DistinctUuids(e.cycles[k].mappingIds)
    requires p < |e.cycles[k].mappingIds| && e.cycles[k].activeMappingId == Some(e.cycles[k].mappingIds[p])
    requires member < |e.cycles[k].mappingIds|
    ensures var ids := e.cycles[k].mappingIds;
            && Gestures(e, k, g, |ids|) == e
            && exists n: nat :: n < |ids| && Gestures(e, k, g, n).cycles[k].activeMappingId == Some(ids[member])
                 && forall n': nat :: n' < |ids| && n' != n ==> Gestures(e, k, g, n').cycles[k].activeMappingId != Some(ids[member])
  {
    hide IsGesture, Gestures, Wrap, SameSuccessors;
    var ids := e.cycles[k].mappingIds;
    var c := |ids|;
    DistinctSuccessors(ids);
    Orbit(e, k, g, p, c);
    WrapTurn(p, c);
    WithActiveTwice(e, k, ids[p], ids[p]);
    var n := if p <= member then member - p else member + c - p;
    VisitedAt(p, n, member, c);
    ActiveAfter(e, k, g, p, n);
    forall n': nat | n' < c && n' != n
      ensures Gestures(e, k, g, n').cycles[k].activeMappingId != Some(ids[member])
    {
      ActiveAfter(e, k, g, p, n');
      VisitedOnce(p, n, n', member, c);
      var q := Wrap(p + n', c);
      assert q < member || member < q;
    }
  }

  lemma WrapTurn(p: nat, c: nat)
    requires p < c
    ensures Wrap(p + c, c) == p
  {
    ModCycle(p, c);
    ModSmall(p, c);
  }

  lemma VisitedAt(p: nat, n: nat, member: nat, c: nat)
    requires p < c && member < c && n == if p <= member then member - p else member + c - p
    ensures Wrap(p + n, c) == member
  {
    ModSmall(member, c);
    ModCycle(member, c);
  }

  lemma VisitedOnce(p: nat, n: nat, n': nat, member: nat, c: nat)
    requires p < c && member < c && n < c && n' < c && n != n' && Wrap(p + n, c) == member
    ensures Wrap(p + n', c) != member
  {
    DivMod(p + n, c);
    DivMod(p + n', c);
    var d := (p + n') / c - (p + n) / c;
    assert d * c == ((p + n') / c) * c - ((p + n) / c) * c;
    MultipleAtLeast(d, c);
  }

  /** Where an id has two successors the walk fails: in a cycle that lists `a` twice, a member
      after the second occurrence is never reached, because the position of the active id is
      its first one. */
  lemma {:induction false} RepeatedMemberStarves(e: Engine, k: DeviceKey, g: InputPrimitive, a: Uuid, b: Uuid, c: Uuid, n: nat)
    requires k in e.cycles && IsGesture(e.cycles[k], g)
    requires a != b && a != c && b != c
    requires e.cycles[k].mappingIds == [a, b, a, c] && e.cycles[k].activeMappingId == Some(a)
    ensures Gestures(e, k, g, n) == WithActive(e, k, if n % 2 == 0 then a else b)
  {
    hide IsGesture, Gesture, WithActive;
    if n == 0 {
      WithActiveTwice(e, k, a, a);
    } else {
      RepeatedMemberStarves(e, k, g, a, b, c, n - 1);
      RepeatedStep(e, k, g, a, b, c, n % 2 == 1);
    }
  }

  lemma RepeatedStep(e: Engine, k: DeviceKey, g: InputPrimitive, a: Uuid, b: Uuid, c: Uuid, first: bool)
    requires k in e.cycles && IsGesture(e.cycles[k], g)
    requires a != b && a != c && b != c && e.cycles[k].mappingIds == [a, b, a, c]
    ensures Gesture(WithActive(e, k, if first then a else b), k, g) == WithActive(e, k, if first then b else a)
  {
    hide InputPrimitive.MatchesRoute, Gesture, IdPosition;
    RepeatedPositions(a, b, c);
    var last, next := if first then a else b, if first then b else a;
    GestureOnce(WithActive(e, k, last), k, g, next);
    WithActiveTwice(e, k, last, next);
  }

  lemma RepeatedPositions(a: Uuid, b: Uuid, c: Uuid)
    requires a != b && a != c && b != c
    ensures IdPosition([a, b, a, c], a) == Some(0) && IdPosition([a, b, a, c], b) == Some(1)
  {
    assert [a, b, a, c][1..] == [b, a, c];
  }

  // ----- Isolation -----

  /** With an active filter, the whole list routes like the one mapping with that id. */
  lemma {:induction false} FilterIsolates(ms: seq<Mapping>, input: InputPrimitive, id: Uuid)
    requires DistinctIds(ms)
    ensures RouteMappings(ms, input, Some(id)) ==
            match FindById(ms, id) case Some(m) => RouteOne(m, input, None) case None => []
    decreases |ms|
  {
    hide InputPrimitive.MatchesRoute, BuildIntent, FirstIntent, FindById;
    if ms == [] {
      FindInNone(id);
    } else {
      var n := |ms| - 1;
      FilterIsolates(ms[..n], input, id);
      FindInLonger(ms, id);
    }
  }

  lemma FindInNone(id: Uuid)
    ensures FindById([], id) == None
  {
  }

  lemma FindInLonger(ms: seq<Mapping>, id: Uuid)
    requires ms != [] && DistinctIds(ms)
    ensures var n := |ms| - 1; var found := FindById(ms[..n], id);
            && (found.Some? ==> FindById(ms, id) == found && ms[n].mappingId != id)
            && (found.None? ==> FindById(ms, id) == if ms[n].mappingId == id then Some(ms[n]) else None)
  {
    hide FindById;
    var n := |ms| - 1;
    var found := FindById(ms[..n], id);
    if found.Some? {
      assert found.value in ms;
      FindByIdUnique(ms, found.value);
      var i :| 0 <= i < n && ms[..n][i] == found.value;
      assert ms[n].mappingId != id;
    } else if ms[n].mappingId == id {
      FindByIdUnique(ms, ms[n]);
    } else {
      forall m | m in ms ensures m.mappingId != id {
        if m != ms[n] {
          var i :| 0 <= i < n && ms[i] == m;
          assert ms[..n][i] in ms[..n];
        }
      }
    }
  }

  /** Isolation: on a cycled device with an active mapping, everything an input emits is what
      that mapping emits on its own, so at most one intent; the other members and the
      mappings outside the cycle stay dormant. */
  lemma ActiveMappingIsolated(e: Engine, k: DeviceKey, input: InputPrimitive, id: Uuid)
    requires k in e.cycles && e.cycles[k].activeMappingId == Some(id) && DistinctIds(Bucket(e.byDevice, k))
    ensures |RouteInput(e, k, input)| <= 1
    ensures forall r :: r in RouteInput(e, k, input) ==>
              exists m :: m in Bucket(e.byDevice, k) && m.mappingId == id && m.active && RouteInput(e, k, input) == RouteOne(m, input, None)
  {
    hide InputPrimitive.MatchesRoute, BuildIntent;
    FilterIsolates(Bucket(e.byDevice, k), input, id);
    var found := FindById(Bucket(e.byDevice, k), id);
    if found.Some? {
      assert RouteInput(e, k, input) == RouteOne(found.value, input, None);
    }
  }

  // ----- The two platforms -----

  /** The iOS input path: the cycle switch, then plain routing if it did not apply. */
  function IosPath(e: Engine, k: DeviceKey, input: InputPrimitive): (Engine, Outcome) {
    var (e', switched) := TryCycleSwitch(e, k, input);
    match switched
    case Some(id) => (e', CycleSwitch(k, id))
    case None => (e', Normal(RouteInput(e', k, input)))
  }

  /** The paths agree exactly where target selection plays no part: on an input met by a
      device that is not selecting, both give the same outcome and the same next state if
      and only if the device is cycled or no mapping makes the input enter selection. */
  lemma PathsAgreeExactly(e: Engine, k: DeviceKey, input: InputPrimitive)
    requires k !in e.selection
    ensures IosPath(e, k, input) == RouteWithMode(e, k, input) <==>
            k in e.cycles || FirstSwitchable(Bucket(e.byDevice, k), input).None?
  {
    hide InputPrimitive.MatchesRoute, RouteMappings;
    var m := FirstSwitchable(Bucket(e.byDevice, k), input);
    if k !in e.cycles && m.Some? {
      assert RouteWithMode(e, k, input).1.EnterSelection?;
    }
  }

  function RunIos(e: Engine, k: DeviceKey, inputs: seq<InputPrimitive>): (Engine, seq<Outcome>) {
    if inputs == [] then (e, [])
    else
      var (e1, outs) := RunIos(e, k, inputs[..|inputs| - 1]);
      var (e2, out) := IosPath(e1, k, inputs[|inputs| - 1]);
      (e2, outs + [out])
  }

  function RunLinux(e: Engine, k: DeviceKey, inputs: seq<InputPrimitive>): (r: (Engine, seq<Outcome>))
    requires k in e.cycles
    ensures k in r.0.cycles
  {
    if inputs == [] then (e, [])
    else
      var (e1, outs) := RunLinux(e, k, inputs[..|inputs| - 1]);
      var (e2, out) := RouteWithMode(e1, k, inputs[|inputs| - 1]);
      (e2, outs + [out])
  }

  /** On a cycled device, whatever is left in its selection slot, both platforms turn every
      sequence of inputs into the same outcomes and the same state. */
  lemma {:induction false} PathsAgreeOnRuns(e: Engine, k: DeviceKey, inputs: seq<InputPrimitive>)
    requires k in e.cycles
    ensures RunIos(e, k, inputs) == RunLinux(e, k, inputs)
    decreases |inputs|
  {
    hide InputPrimitive.MatchesRoute, RouteMappings;
    if inputs == [] {
    } else {
      PathsAgreeOnRuns(e, k, inputs[..|inputs| - 1]);
    }
  }
}
