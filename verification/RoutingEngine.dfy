/** The routing engine. Every method is one atomic step on the engine's maps. */
module RoutingEngine {
  import opened Common
  import opened Contracts
  import opened Selection
  import opened Routing

  class RoutingEngine {
    var byDevice: Buckets
    var selection: map<DeviceKey, SelectionMode>
    var cycles: map<DeviceKey, DeviceCycle>

    constructor ()
      ensures State() == EMPTY_ENGINE && Valid()
    {
      byDevice, selection, cycles := map[], map[], map[];
    }

    ghost predicate Valid()
      reads this
    {
      SelectionsValid(State())
    }

    function State(): Engine
      reads this
    {
      Engine(byDevice, selection, cycles)
    }

    // ----- Mappings -----

    method ReplaceAll(mappings: seq<Mapping>)
      modifies this`byDevice
      ensures byDevice == Group(mappings)
    {
      var grouped: Buckets := map[];
      for i := 0 to |mappings|
        invariant grouped == Group(mappings[..i])
      {
        var m := mappings[i];
        if m.device !in grouped {
          grouped := grouped[m.device := []];
        }
        grouped := grouped[m.device := grouped[m.device] + [m]];
        assert mappings[..i + 1][..i] == mappings[..i];
      }
      assert mappings[..|mappings|] == mappings;
      byDevice := grouped;
    }

    /** `retain` on every bucket in place. */
    method RetainOthersInPlace(id: Uuid)
      modifies this`byDevice
      ensures byDevice == RetainOthers(old(byDevice), id)
    {
      var todo := byDevice.Keys;
      while todo != {}
        invariant todo <= byDevice.Keys == old(byDevice).Keys
        invariant forall k :: k in byDevice ==>
          byDevice[k] == if k in todo then old(byDevice)[k] else WithoutId(old(byDevice)[k], id)
        decreases todo
      {
        var k :| k in todo;
        byDevice := byDevice[k := WithoutId(byDevice[k], id)];
        todo := todo - {k};
      }
    }

    method UpsertMapping(mapping: Mapping)
      modifies this`byDevice
      ensures byDevice == Upserted(old(byDevice), mapping)
    {
      RetainOthersInPlace(mapping.mappingId);
      if mapping.device !in byDevice {
        byDevice := byDevice[mapping.device := []];
      }
      byDevice := byDevice[mapping.device := byDevice[mapping.device] + [mapping]];
    }

    method RemoveMapping(id: Uuid)
      modifies this`byDevice
      ensures byDevice == Removed(old(byDevice), id)
    {
      RetainOthersInPlace(id);
      var todo := byDevice.Keys;
      var kept := byDevice;
      while todo != {}
        invariant todo <= byDevice.Keys && byDevice == RetainOthers(old(byDevice), id)
        invariant kept == map k | k in byDevice && (k in todo || byDevice[k] != []) :: byDevice[k]
        decreases todo
      {
        var k :| k in todo;
        if byDevice[k] == [] {
          kept := kept - {k};
        }
        todo := todo - {k};
      }
      byDevice := kept;
    }

    /** Every mapping held; `order` is the hash map's iteration order. */
    method TakeSnapshot() returns (all: seq<Mapping>, order: seq<DeviceKey>)
      ensures IsEnumeration(order, byDevice.Keys)
      ensures all == Snapshot(byDevice, order)
    {
      all, order := [], [];
      var todo := byDevice.Keys;
      while todo != {}
        invariant todo <= byDevice.Keys
        invariant IsEnumeration(order, byDevice.Keys - todo)
        invariant all == Snapshot(byDevice, order)
        decreases todo
      {
        var k :| k in todo;
        assert (order + [k])[..|order|] == order;
        all := all + byDevice[k];
        order := order + [k];
        todo := todo - {k};
      }
    }

    // ----- Cycles -----

    method ReplaceCycles(cs: seq<DeviceCycle>)
      modifies this`cycles
      ensures cycles == CyclesOf(cs)
    {
      var m: map<DeviceKey, DeviceCycle> := map[];
      for i := 0 to |cs|
        invariant m == CyclesOf(cs[..i])
      {
        m := m[cs[i].device := cs[i]];
        assert cs[..i + 1][..i] == cs[..i];
      }
      assert cs[..|cs|] == cs;
      cycles := m;
    }

    method UpsertCycle(cycle: DeviceCycle)
      modifies this`cycles
      ensures cycles == old(cycles)[cycle.device := cycle]
    {
      cycles := cycles[cycle.device := cycle];
    }

    method RemoveCycle(k: DeviceKey) returns (present: bool)
      modifies this`cycles
      ensures cycles == old(cycles) - {k} && present == (k in old(cycles))
    {
      present := k in cycles;
      cycles := cycles - {k};
    }

    /** Every cycle held, in the hash map's order. */
    method CyclesSnapshot() returns (all: seq<DeviceCycle>, order: seq<DeviceKey>)
      ensures IsEnumeration(order, cycles.Keys)
      ensures forall k :: k in order ==> k in cycles
      ensures all == ValuesIn(cycles, order)
    {
      order, all := [], [];
      var todo := cycles.Keys;
      while todo != {}
        invariant todo <= cycles.Keys
        invariant IsEnumeration(order, cycles.Keys - todo)
        invariant forall k :: k in order ==> k in cycles
        invariant all == ValuesIn(cycles, order)
        decreases todo
      {
        var k :| k in todo;
        all := all + [cycles[k]];
        order := order + [k];
        todo := todo - {k};
      }
    }

    method SetActive(k: DeviceKey, id: Uuid) returns (applied: bool)
      modifies this`cycles
      ensures (State(), applied) == SetCycleActive(old(State()), k, id)
    {
      if k !in cycles {
        return false;
      }
      var cycle := cycles[k];
      if id !in cycle.mappingIds {
        return false;
      }
      cycles := cycles[k := cycle.(activeMappingId := Some(id))];
      return true;
    }

    method TryCycleSwitch(k: DeviceKey, input: InputPrimitive) returns (switched: Option<Uuid>)
      modifies this`cycles
      ensures (State(), switched) == Routing.TryCycleSwitch(old(State()), k, input)
    {
      if k !in cycles {
        return None;
      }
      var cycle := cycles[k];
      if cycle.cycleGesture.None? {
        return None;
      }
      if !input.MatchesRoute(cycle.cycleGesture.value) {
        return None;
      }
      switched := NextActive(cycle);
      if switched.Some? {
        cycles := cycles[k := cycle.(activeMappingId := switched)];
      }
    }

    // ----- Routing -----

    /** The intent of the first matching route that yields one. */
    method IntentOf(routes: seq<Route>, input: InputPrimitive) returns (intent: Option<Intent>)
      ensures intent == FirstIntent(routes, input)
    {
      hide InputPrimitive.MatchesRoute, BuildIntent;
      var j := 0;
      while j < |routes|
        invariant 0 <= j <= |routes|
        invariant FirstIntent(routes, input) == FirstIntent(routes[j..], input)
      {
        if input.MatchesRoute(routes[j].input) {
          var built := BuildIntent(routes[j], input);
          if built.Some? {
            return built;
          }
        }
        j := j + 1;
      }
      return None;
    }

    method RouteList(mappings: seq<Mapping>, input: InputPrimitive, filter: Option<Uuid>) returns (out: seq<RoutedIntent>)
      ensures out == RouteMappings(mappings, input, filter)
    {
      hide FirstIntent;
      out := [];
      for i := 0 to |mappings|
        invariant out == RouteMappings(mappings[..i], input, filter)
      {
        var m := mappings[i];
        assert mappings[..i + 1][..i] == mappings[..i];
        if m.active && (filter.None? || m.mappingId == filter.value) {
          var (serviceType, routes) := m.EffectiveFor(m.serviceTarget);
          var intent := IntentOf(routes, input);
          if intent.Some? {
            out := out + [RoutedIntent(serviceType, m.serviceTarget, intent.value)];
          }
        }
      }
      assert mappings[..|mappings|] == mappings;
    }

    method Route(k: DeviceKey, input: InputPrimitive) returns (out: seq<RoutedIntent>)
      ensures out == RouteInput(State(), k, input)
    {
      if k !in byDevice {
        return [];
      }
      var filter := if k in cycles then cycles[k].activeMappingId else None;
      out := RouteList(byDevice[k], input, filter);
    }

    /** A cycled device: the cycle gesture switches the active mapping, anything else is
        routed to it. */
    method RouteCycled(k: DeviceKey, input: InputPrimitive) returns (outcome: Outcome)
      requires k in cycles && Valid()
      modifies this`cycles
      ensures (State(), outcome) == Routing.RouteWithMode(old(State()), k, input)
    {
      var cycle := cycles[k];
      if cycle.cycleGesture.Some? && input.MatchesRoute(cycle.cycleGesture.value) {
        var next := NextActive(cycle);
        if next.Some? {
          cycles := cycles[k := cycle.(activeMappingId := next)];
          return CycleSwitch(k, next.value);
        }
      }
      if k !in byDevice {
        return Normal([]);
      }
      var routed := RouteList(byDevice[k], input, cycle.activeMappingId);
      return Normal(routed);
    }

    /** A device in selection mode: rotation browses, a press commits, anything else cancels. */
    method RouteSelecting(k: DeviceKey, input: InputPrimitive) returns (outcome: Outcome)
      requires k in selection && Valid()
      modifies this`selection
      ensures (State(), outcome) == Selecting(old(State()), k, input)
    {
      var mode := selection[k];
      match input {
        case Rotate(delta) =>
          var mode', moved := Advance(mode, delta);
          selection := selection[k := mode'];
          if !moved {
            return Normal([]);
          }
          return UpdateSelection(mode'.mappingId, mode'.candidates[mode'.cursor].glyph);
        case Press =>
          selection := selection - {k};
          return CommitSelection(mode.edgeId, mode.mappingId, mode.candidates[mode.cursor].target);
        case _ =>
          selection := selection - {k};
          return CancelSelection(mode.mappingId);
      }
    }

    method FindSwitchable(mappings: seq<Mapping>, input: InputPrimitive) returns (found: Option<Mapping>)
      ensures found == FirstSwitchable(mappings, input)
    {
      hide InputPrimitive.MatchesRoute;
      var i := 0;
      while i < |mappings|
        invariant 0 <= i <= |mappings|
        invariant FirstSwitchable(mappings, input) == FirstSwitchable(mappings[i..], input)
      {
        var m := mappings[i];
        if m.active && m.targetSwitchOn.Some? && m.targetCandidates != [] && input.MatchesRoute(m.targetSwitchOn.value) {
          return Some(m);
        }
        i := i + 1;
      }
      return None;
    }

    /** A device not in selection mode. */
    method RouteUnselected(k: DeviceKey, input: InputPrimitive) returns (outcome: Outcome)
      modifies this`selection
      ensures (State(), outcome) == EnterOrRoute(old(State()), k, input)
    {
      hide InputPrimitive.MatchesRoute;
      if k !in byDevice {
        return Normal([]);
      }
      var found := FindSwitchable(byDevice[k], input);
      match found {
        case Some(m) =>
          var current := PositionOf(m.targetCandidates, m.serviceTarget);
          var cursor := if current.Some? then (current.value + 1) % |m.targetCandidates| else 0;
          var mode := SelectionMode(m.mappingId, m.edgeId, m.targetCandidates, cursor, 0.0);
          selection := selection[k := mode];
          return EnterSelection(m.edgeId, m.mappingId, mode.candidates[mode.cursor].glyph);
        case None =>
          var routed := RouteList(byDevice[k], input, None);
          return Normal(routed);
      }
    }

    method RouteWithMode(k: DeviceKey, input: InputPrimitive) returns (outcome: Outcome)
      requires Valid()
      modifies this`cycles, this`selection
      ensures (State(), outcome) == Routing.RouteWithMode(old(State()), k, input)
      ensures Valid()
    {
      RouteWithModeKeepsValid(State(), k, input);
      if k in cycles {
        outcome := RouteCycled(k, input);
      } else if k in selection {
        outcome := RouteSelecting(k, input);
      } else {
        outcome := RouteUnselected(k, input);
      }
    }

    // ----- Feedback lookup -----

    method RulesIn(mappings: seq<Mapping>, serviceType: string, target: string) returns (rules: Option<seq<FeedbackRule>>)
      ensures rules == RulesForTarget(mappings, serviceType, target)
    {
      var i := 0;
      while i < |mappings|
        invariant 0 <= i <= |mappings|
        invariant RulesForTarget(mappings, serviceType, target) == RulesForTarget(mappings[i..], serviceType, target)
      {
        var m := mappings[i];
        if m.active {
          if m.serviceType == serviceType && m.serviceTarget == target {
            return Some(m.feedback);
          }
          var j := 0;
          while j < |m.targetCandidates|
            invariant 0 <= j <= |m.targetCandidates|
            invariant forall n :: 0 <= n < j ==>
              !(CandidateType(m, m.targetCandidates[n]) == serviceType && m.targetCandidates[n].target == target)
          {
            var c := m.targetCandidates[j];
            var candidateType := if c.serviceType.Some? then c.serviceType.value else m.serviceType;
            if candidateType == serviceType && c.target == target {
              return Some(m.feedback);
            }
            j := j + 1;
          }
        }
        i := i + 1;
      }
      return None;
    }

    method FeedbackRulesForDeviceTarget(k: DeviceKey, serviceType: string, target: string) returns (rules: Option<seq<FeedbackRule>>)
      ensures rules == RulesForTarget(Bucket(byDevice, k), serviceType, target)
    {
      if k !in byDevice {
        return None;
      }
      rules := RulesIn(byDevice[k], serviceType, target);
    }

    /** Every device with a mapping for the pair, with its rules, in the hash map's order. */
    method FeedbackTargetsFor(serviceType: string, target: string) returns (out: seq<(DeviceKey, seq<FeedbackRule>)>)
      ensures forall k, rules :: (k, rules) in out <==> RulesForTarget(Bucket(byDevice, k), serviceType, target) == Some(rules)
      ensures forall i, j :: 0 <= i < j < |out| ==> out[i].0 != out[j].0
    {
      out := [];
      var todo := byDevice.Keys;
      while todo != {}
        invariant todo <= byDevice.Keys
        invariant forall k, rules :: (k, rules) in out <==>
          k in byDevice && k !in todo && RulesForTarget(byDevice[k], serviceType, target) == Some(rules)
        invariant forall i, j :: 0 <= i < j < |out| ==> out[i].0 != out[j].0
        decreases todo
      {
        var k :| k in todo;
        assert forall i :: 0 <= i < |out| ==> (out[i].0, out[i].1) in out;
        var rules := RulesIn(byDevice[k], serviceType, target);
        if rules.Some? {
          out := out + [(k, rules.value)];
        }
        todo := todo - {k};
      }
    }
  }
}
