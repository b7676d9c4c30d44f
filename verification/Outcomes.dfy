/** The outcome of an input, whatever state the engine is in, in terms of the configuration. */
module Outcomes {
  import opened Common
  import opened Contracts
  import opened Selection
  import opened Routing
  import opened RoutedIntents

  // ----- Cycled devices -----

  /** The input is the cycle's gesture and the active mapping is one of its members. */
  predicate Switches(c: DeviceCycle, input: InputPrimitive) {
    && c.cycleGesture.Some? && input.MatchesRoute(c.cycleGesture.value)
    && c.activeMappingId.Some? && c.activeMappingId.value in c.mappingIds
  }

  /** `next` follows the first occurrence of the active mapping, the first member the last. */
  predicate Follows(c: DeviceCycle, next: Uuid, p: nat) {
    var ids := c.mappingIds;
    && p < |ids| && c.activeMappingId == Some(ids[p]) && (forall i :: 0 <= i < p ==> ids[i] != ids[p])
    && next == if p == |ids| - 1 then ids[0] else ids[p + 1]
  }

  ghost predicate SwitchedTo(e: Engine, k: DeviceKey, next: Uuid, e': Engine) {
    && k in e.cycles && (exists p: nat :: Follows(e.cycles[k], next, p))
    && e' == Engine(e.byDevice, e.selection, e.cycles[k := e.cycles[k].(activeMappingId := Some(next))])
  }

  lemma NextFollows(c: DeviceCycle)
    ensures NextActive(c).Some? <==> c.activeMappingId.Some? && c.activeMappingId.value in c.mappingIds
    ensures NextActive(c).Some? ==> exists p: nat :: Follows(c, NextActive(c).value, p)
  {
    if c.activeMappingId.Some? && c.activeMappingId.value in c.mappingIds {
      var p := IdPosition(c.mappingIds, c.activeMappingId.value).value;
      assert forall i :: 0 <= i < p ==> c.mappingIds[i] == c.mappingIds[..p][i];
      if p < |c.mappingIds| - 1 {
        Modular.ModSmall(p + 1, |c.mappingIds|);
      } else {
        Modular.ModCycle(0, |c.mappingIds|);
        Modular.ModSmall(0, |c.mappingIds|);
      }
      assert Follows(c, NextActive(c).value, p);
    }
  }

  /** On a cycled device the input switches to the next member if and only if it is the gesture
      and there is one; otherwise the mappings speak, with an active one alone, and nothing
      changes. The device's selection, if any, is left alone. */
  lemma CycledExactly(e: Engine, k: DeviceKey, input: InputPrimitive)
    requires k in e.cycles
    ensures var c, (e', out) := e.cycles[k], RouteWithMode(e, k, input);
            if Switches(c, input) then out.CycleSwitch? && out.device == k && SwitchedTo(e, k, out.activeMappingId, e')
            else e' == e && out == Normal(RouteMappings(Bucket(e.byDevice, k), input, c.activeMappingId))
    ensures var c, (e', id) := e.cycles[k], TryCycleSwitch(e, k, input);
            if Switches(c, input) then id.Some? && SwitchedTo(e, k, id.value, e') else e' == e && id.None?
  {
    hide InputPrimitive.MatchesRoute, RouteMappings, NextActive, Follows;
    NextFollows(e.cycles[k]);
  }

  /** The member named becomes active if and only if it is one. */
  lemma SetExactly(e: Engine, k: DeviceKey, id: Uuid)
    ensures var (e', ok) := SetCycleActive(e, k, id);
            && (ok <==> k in e.cycles && id in e.cycles[k].mappingIds)
            && e' == if ok then Engine(e.byDevice, e.selection, e.cycles[k := e.cycles[k].(activeMappingId := Some(id))]) else e
  {
  }

  // ----- Devices that are selecting -----

  /** While selecting, a turn moves the cursor and shows the candidate it came to, or waits when
      it is less than a step; a press commits the candidate under the cursor; and any other
      input cancels. The latter two end the selection, and no other device is touched. */
  lemma SelectingExactly(e: Engine, k: DeviceKey, input: InputPrimitive)
    requires k !in e.cycles && k in e.selection && e.selection[k].Valid()
    ensures var mode, (e', out) := e.selection[k], RouteWithMode(e, k, input);
            match input
            case Rotate(delta) =>
              var mode' := Rotated(mode, delta);
              && e' == Engine(e.byDevice, e.selection[k := mode'], e.cycles)
              && mode'.cursor < |mode.candidates| && mode'.candidates == mode.candidates
              && (if -0.25 < mode.accumulator + delta < 0.25
                  then mode' == mode.(accumulator := mode.accumulator + delta) && out == Normal([])
                  else out == UpdateSelection(mode.mappingId, mode.candidates[mode'.cursor].glyph))
            case Press =>
              && e' == Engine(e.byDevice, e.selection - {k}, e.cycles)
              && out == CommitSelection(mode.edgeId, mode.mappingId, mode.candidates[mode.cursor].target)
            case _ =>
              && e' == Engine(e.byDevice, e.selection - {k}, e.cycles)
              && out == CancelSelection(mode.mappingId)
  {
    if input.Rotate? {
      TurnedExactly(e.selection[k], input.delta);
    }
  }

  lemma TurnedExactly(mode: SelectionMode, delta: real)
    requires mode.Valid()
    ensures var mode' := Rotated(mode, delta);
            && mode'.cursor < |mode.candidates| && mode'.candidates == mode.candidates
            && (-0.25 < mode.accumulator + delta < 0.25 <==> Steps(mode.accumulator + delta) == 0)
            && (Steps(mode.accumulator + delta) == 0 ==> mode' == mode.(accumulator := mode.accumulator + delta))
  {
    RotatedValid(mode, delta);
    Modular.ModSmall(mode.cursor, |mode.candidates|);
  }

  // ----- Other devices -----

  /** The first active mapping that has candidates and is bound to the input to switch them. */
  predicate OpensAt(ms: seq<Mapping>, input: InputPrimitive, i: nat) {
    i < |ms| && Opens(ms[i], input) && forall n :: 0 <= n < i ==> !Opens(ms[n], input)
  }

  predicate Opens(m: Mapping, input: InputPrimitive) {
    m.active && m.targetCandidates != [] && m.targetSwitchOn.Some? && input.MatchesRoute(m.targetSwitchOn.value)
  }

  /** One further than the current candidate, the first when there is none. */
  predicate StartsAt(m: Mapping, cursor: nat) {
    var n := |m.targetCandidates|;
    if exists j | 0 <= j < n :: CurrentCandidate(m, j) then
      exists j | 0 <= j < n :: CurrentCandidate(m, j) && cursor == if j == n - 1 then 0 else j + 1
    else cursor == 0
  }

  /** The selection that `m` opens on the device. */
  ghost predicate Opened(e: Engine, k: DeviceKey, m: Mapping, e': Engine, out: Outcome) {
    exists cursor: nat :: cursor < |m.targetCandidates| && StartsAt(m, cursor)
      && e' == Engine(e.byDevice, e.selection[k := SelectionMode(m.mappingId, m.edgeId, m.targetCandidates, cursor, 0.0)], e.cycles)
      && out == EnterSelection(m.edgeId, m.mappingId, m.targetCandidates[cursor].glyph)
  }

  lemma OpensExactly(m: Mapping, input: InputPrimitive)
    ensures Opens(m, input) <==> Switchable(m, input)
    ensures Opens(m, input) ==> m.targetCandidates != []
  {
  }

  lemma OpensLater(ms: seq<Mapping>, input: InputPrimitive, i: int)
    requires ms != [] && !Opens(ms[0], input)
    requires if i == -1 then forall n :: 0 <= n < |ms[1..]| ==> !Opens(ms[1..][n], input) else 0 <= i && OpensAt(ms[1..], input, i)
    ensures i == -1 ==> forall n :: 0 <= n < |ms| ==> !Opens(ms[n], input)
    ensures i >= 0 ==> i + 1 < |ms| && OpensAt(ms, input, i + 1) && ms[i + 1] == ms[1..][i]
  {
    hide Opens;
    var rest := ms[1..];
    assert forall n :: 0 < n < |ms| ==> ms[n] == rest[n - 1];
  }

  lemma {:induction false} FirstOpens(ms: seq<Mapping>, input: InputPrimitive) returns (i: int)
    ensures -1 <= i < |ms|
    ensures i == -1 ==> FirstSwitchable(ms, input).None? && forall n :: 0 <= n < |ms| ==> !Opens(ms[n], input)
    ensures i >= 0 ==> OpensAt(ms, input, i) && FirstSwitchable(ms, input) == Some(ms[i])
    ensures i >= 0 ==> ms[i].targetCandidates != []
    decreases |ms|
  {
    hide Opens, Switchable;
    if ms == [] {
      i := -1;
    } else {
      OpensExactly(ms[0], input);
      if Opens(ms[0], input) {
        i := 0;
      } else {
        assert FirstSwitchable(ms, input) == FirstSwitchable(ms[1..], input);
        hide FirstSwitchable;
        i := FirstOpens(ms[1..], input);
        OpensLater(ms, input, i);
        i := if i == -1 then -1 else i + 1;
      }
    }
  }

  lemma EnterStarts(m: Mapping)
    requires m.targetCandidates != []
    ensures EnterMode(m) == SelectionMode(m.mappingId, m.edgeId, m.targetCandidates, EnterMode(m).cursor, 0.0)
    ensures EnterMode(m).cursor < |m.targetCandidates| && StartsAt(m, EnterMode(m).cursor)
  {
    var n := |m.targetCandidates|;
    var p := PositionOf(m.targetCandidates, m.serviceTarget);
    if p.Some? {
      assert CurrentCandidate(m, p.value);
      if p.value < n - 1 {
        Modular.ModSmall(p.value + 1, n);
      } else {
        Modular.ModCycle(0, n);
        Modular.ModSmall(0, n);
      }
    }
  }

  /** On a device that neither cycles nor selects, the first mapping that the input opens for
      selection does so, starting on the candidate after its current one; otherwise every
      mapping speaks, and nothing changes. */
  lemma PlainExactly(e: Engine, k: DeviceKey, input: InputPrimitive)
    requires k !in e.cycles && k !in e.selection
    ensures var ms, (e', out) := Bucket(e.byDevice, k), RouteWithMode(e, k, input);
            if exists i: nat :: OpensAt(ms, input, i)
            then exists i: nat :: OpensAt(ms, input, i) && Opened(e, k, ms[i], e', out)
            else e' == e && out == Normal(RouteMappings(ms, input, None))
  {
    hide InputPrimitive.MatchesRoute, RouteMappings, FirstSwitchable, EnterMode, StartsAt, Opens, Switchable;
    var ms := Bucket(e.byDevice, k);
    var i := FirstOpens(ms, input);
    if i >= 0 {
      EnterStarts(ms[i]);
      var (e', out) := RouteWithMode(e, k, input);
      assert Opened(e, k, ms[i], e', out);
    }
  }

  /** `route`, which knows no selection: the mappings that have something to say speak, in the
      order of the device's list; on a cycled device the active one alone, if there is one. */
  lemma RouteExactly(e: Engine, k: DeviceKey, input: InputPrimitive) returns (who: seq<nat>)
    ensures SpeakInOrder(Bucket(e.byDevice, k), input, if k in e.cycles then e.cycles[k].activeMappingId else None, RouteInput(e, k, input), who)
  {
    who := RoutedInOrder(Bucket(e.byDevice, k), input, ActiveFilter(e, k));
  }

  // ----- Feedback rules -----

  /** An active mapping that names the pair itself, or by one of its candidates. */
  predicate Names(m: Mapping, serviceType: string, target: string) {
    && m.active
    && (|| (m.serviceType == serviceType && m.serviceTarget == target)
        || exists c | c in m.targetCandidates ::
             c.target == target && (c.serviceType == Some(serviceType) || (c.serviceType == None && m.serviceType == serviceType)))
  }

  predicate FirstNames(ms: seq<Mapping>, serviceType: string, target: string, i: nat) {
    i < |ms| && Names(ms[i], serviceType, target) && forall n :: 0 <= n < i ==> !Names(ms[n], serviceType, target)
  }

  lemma CoversExactly(m: Mapping, serviceType: string, target: string)
    ensures Covers(m, serviceType, target) <==> Names(m, serviceType, target)
  {
    if Names(m, serviceType, target) && !(m.serviceType == serviceType && m.serviceTarget == target) {
      var c :| c in m.targetCandidates
        && c.target == target && (c.serviceType == Some(serviceType) || (c.serviceType == None && m.serviceType == serviceType));
      var i :| 0 <= i < |m.targetCandidates| && m.targetCandidates[i] == c;
    }
  }

  /** The rules looked up for a service and target are those of the first active mapping of the
      device that names the pair, and there are none if and only if no mapping does. */
  lemma {:induction false} RulesExactly(ms: seq<Mapping>, serviceType: string, target: string) returns (i: int)
    ensures -1 <= i < |ms|
    ensures i == -1 ==> RulesForTarget(ms, serviceType, target).None? && forall n :: 0 <= n < |ms| ==> !Names(ms[n], serviceType, target)
    ensures i >= 0 ==> FirstNames(ms, serviceType, target, i) && RulesForTarget(ms, serviceType, target) == Some(ms[i].feedback)
    decreases |ms|
  {
    hide Names, Covers;
    if ms == [] {
      i := -1;
    } else {
      CoversExactly(ms[0], serviceType, target);
      var rest := ms[1..];
      if Covers(ms[0], serviceType, target) {
        i := 0;
      } else {
        i := RulesExactly(rest, serviceType, target);
        assert forall n :: 0 < n < |ms| ==> ms[n] == rest[n - 1];
        i := if i == -1 then -1 else i + 1;
      }
    }
  }
}
