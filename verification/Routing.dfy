/** What each routing-engine operation does to the engine's state, as functions on values. */
module Routing {
  import opened Common
  import opened Contracts
  import opened Selection

  datatype Outcome =
    | Normal(intents: seq<RoutedIntent>)
    | EnterSelection(edgeId: string, mappingId: Uuid, glyph: string)
    | UpdateSelection(mappingId: Uuid, glyph: string)
    | CommitSelection(edgeId: string, mappingId: Uuid, serviceTarget: string)
    | CancelSelection(mappingId: Uuid)
    | CycleSwitch(device: DeviceKey, activeMappingId: Uuid)

  type Buckets = map<DeviceKey, seq<Mapping>>

  datatype Engine = Engine(
    byDevice: Buckets,
    selection: map<DeviceKey, SelectionMode>,
    cycles: map<DeviceKey, DeviceCycle>)

  const EMPTY_ENGINE := Engine(map[], map[], map[])

  /** The mappings routed for a device; an empty bucket and a missing one look the same. */
  function Bucket(buckets: Buckets, k: DeviceKey): seq<Mapping> {
    if k in buckets then buckets[k] else []
  }

  // ----- Mapping updates -----

  function OfDevice(ms: seq<Mapping>, k: DeviceKey): seq<Mapping> {
    if ms == [] then []
    else OfDevice(ms[..|ms| - 1], k) + (if ms[|ms| - 1].device == k then [ms[|ms| - 1]] else [])
  }

  function WithoutId(ms: seq<Mapping>, id: Uuid): seq<Mapping> {
    if ms == [] then []
    else WithoutId(ms[..|ms| - 1], id) + (if ms[|ms| - 1].mappingId == id then [] else [ms[|ms| - 1]])
  }

  function AddToBucket(buckets: Buckets, m: Mapping): Buckets {
    buckets[m.device := Bucket(buckets, m.device) + [m]]
  }

  /** The buckets `replace_all` builds from a list. */
  function Group(ms: seq<Mapping>): Buckets {
    if ms == [] then map[] else AddToBucket(Group(ms[..|ms| - 1]), ms[|ms| - 1])
  }

  function RetainOthers(buckets: Buckets, id: Uuid): Buckets {
    map k | k in buckets :: WithoutId(buckets[k], id)
  }

  function Upserted(buckets: Buckets, m: Mapping): Buckets {
    AddToBucket(RetainOthers(buckets, m.mappingId), m)
  }

  function PruneEmpty(buckets: Buckets): Buckets {
    map k | k in buckets && buckets[k] != [] :: buckets[k]
  }

  function Removed(buckets: Buckets, id: Uuid): Buckets {
    PruneEmpty(RetainOthers(buckets, id))
  }

  /** A snapshot concatenates the buckets in the hash map's iteration order. */
  function Snapshot(buckets: Buckets, order: seq<DeviceKey>): seq<Mapping> {
    if order == [] then []
    else Snapshot(buckets, order[..|order| - 1]) + Bucket(buckets, order[|order| - 1])
  }

  /** The first mapping with this id. */
  function FindById(ms: seq<Mapping>, id: Uuid): (r: Option<Mapping>)
    ensures r.Some? ==> r.value in ms && r.value.mappingId == id
    ensures r.None? ==> forall m :: m in ms ==> m.mappingId != id
  {
    if ms == [] then None
    else if ms[0].mappingId == id then Some(ms[0])
    else FindById(ms[1..], id)
  }

  /** The server's `TargetSwitch` frame: re-upsert the mapping with another target. */
  function TargetSwitched(buckets: Buckets, order: seq<DeviceKey>, id: Uuid, target: string): Buckets {
    match FindById(Snapshot(buckets, order), id)
    case Some(m) => Upserted(buckets, m.(serviceTarget := target))
    case None => buckets
  }

  // ----- Cycles -----

  function CyclesOf(cs: seq<DeviceCycle>): map<DeviceKey, DeviceCycle> {
    if cs == [] then map[] else CyclesOf(cs[..|cs| - 1])[cs[|cs| - 1].device := cs[|cs| - 1]]
  }

  /** The first position of an id. */
  function IdPosition(ids: seq<Uuid>, id: Uuid): (i: Option<nat>)
    ensures i.Some? ==> i.value < |ids| && ids[i.value] == id && id !in ids[..i.value]
    ensures i.None? <==> id !in ids
  {
    if ids == [] then None
    else if ids[0] == id then Some(0)
    else
      var i := IdPosition(ids[1..], id);
      assert ids == [ids[0]] + ids[1..];
      if i.Some? then assert ids[..i.value + 1] == [ids[0]] + ids[1..][..i.value]; Some(i.value + 1) else None
  }

  function NextActive(c: DeviceCycle): Option<Uuid> {
    if c.activeMappingId.None? then None
    else
      var pos := IdPosition(c.mappingIds, c.activeMappingId.value);
      if pos.None? then None else Some(c.mappingIds[(pos.value + 1) % |c.mappingIds|])
  }

  /** The switch a cycled device makes on an input: its next active mapping when the input is
      the cycle's gesture and there is a next one. */
  function CycleStep(c: DeviceCycle, input: InputPrimitive): Option<Uuid> {
    if c.cycleGesture.Some? && input.MatchesRoute(c.cycleGesture.value) then NextActive(c) else None
  }

  function WithActive(e: Engine, k: DeviceKey, id: Uuid): Engine
    requires k in e.cycles
  {
    e.(cycles := e.cycles[k := e.cycles[k].(activeMappingId := Some(id))])
  }

  function SetCycleActive(e: Engine, k: DeviceKey, id: Uuid): (Engine, bool) {
    if k in e.cycles && id in e.cycles[k].mappingIds then (WithActive(e, k, id), true) else (e, false)
  }

  function TryCycleSwitch(e: Engine, k: DeviceKey, input: InputPrimitive): (Engine, Option<Uuid>) {
    if k !in e.cycles then (e, None)
    else
      match CycleStep(e.cycles[k], input)
      case Some(id) => (WithActive(e, k, id), Some(id))
      case None => (e, None)
  }

  function ActiveFilter(e: Engine, k: DeviceKey): Option<Uuid> {
    if k in e.cycles then e.cycles[k].activeMappingId else None
  }

  // ----- Routing -----

  /** The intent of the first route that matches and builds one. */
  function FirstIntent(routes: seq<Route>, input: InputPrimitive): Option<Intent> {
    if routes == [] then None
    else if input.MatchesRoute(routes[0].input) && BuildIntent(routes[0], input).Some? then BuildIntent(routes[0], input)
    else FirstIntent(routes[1..], input)
  }

  function RouteOne(m: Mapping, input: InputPrimitive, filter: Option<Uuid>): seq<RoutedIntent> {
    if !m.active || (filter.Some? && m.mappingId != filter.value) then []
    else
      var (serviceType, routes) := m.EffectiveFor(m.serviceTarget);
      match FirstIntent(routes, input)
      case Some(i) => [RoutedIntent(serviceType, m.serviceTarget, i)]
      case None => []
  }

  function RouteMappings(ms: seq<Mapping>, input: InputPrimitive, filter: Option<Uuid>): seq<RoutedIntent> {
    if ms == [] then []
    else RouteMappings(ms[..|ms| - 1], input, filter) + RouteOne(ms[|ms| - 1], input, filter)
  }

  function RouteInput(e: Engine, k: DeviceKey, input: InputPrimitive): seq<RoutedIntent> {
    RouteMappings(Bucket(e.byDevice, k), input, ActiveFilter(e, k))
  }

  // ----- Selection -----

  /** Does this input make this mapping enter target selection? */
  predicate Switchable(m: Mapping, input: InputPrimitive) {
    m.active && m.targetSwitchOn.Some? && m.targetCandidates != [] && input.MatchesRoute(m.targetSwitchOn.value)
  }

  function FirstSwitchable(ms: seq<Mapping>, input: InputPrimitive): (r: Option<Mapping>)
    ensures r.Some? ==> r.value in ms && Switchable(r.value, input)
  {
    if ms == [] then None
    else if Switchable(ms[0], input) then Some(ms[0])
    else FirstSwitchable(ms[1..], input)
  }

  /** Selection starts one step after the current target. */
  function EnterMode(m: Mapping): SelectionMode
    requires m.targetCandidates != []
  {
    var current := PositionOf(m.targetCandidates, m.serviceTarget);
    var cursor := if current.Some? then (current.value + 1) % |m.targetCandidates| else 0;
    SelectionMode(m.mappingId, m.edgeId, m.targetCandidates, cursor, 0.0)
  }

  function Selecting(e: Engine, k: DeviceKey, input: InputPrimitive): (Engine, Outcome)
    requires k in e.selection && e.selection[k].Valid()
  {
    var mode := e.selection[k];
    match input
    case Rotate(delta) =>
      var mode' := Rotated(mode, delta);
      RotatedValid(mode, delta);
      (e.(selection := e.selection[k := mode']),
       if Steps(mode.accumulator + delta) == 0 then Normal([]) else UpdateSelection(mode.mappingId, mode'.Current().glyph))
    case Press =>
      (e.(selection := e.selection - {k}), CommitSelection(mode.edgeId, mode.mappingId, mode.Current().target))
    case _ =>
      (e.(selection := e.selection - {k}), CancelSelection(mode.mappingId))
  }

  /** A device that is not selecting: enter selection when a mapping asks for it, else route. */
  function EnterOrRoute(e: Engine, k: DeviceKey, input: InputPrimitive): (Engine, Outcome) {
    match FirstSwitchable(Bucket(e.byDevice, k), input)
    case Some(m) =>
      var mode := EnterMode(m);
      (e.(selection := e.selection[k := mode]), EnterSelection(m.edgeId, m.mappingId, mode.Current().glyph))
    case None => (e, Normal(RouteMappings(Bucket(e.byDevice, k), input, None)))
  }

  ghost predicate SelectionsValid(e: Engine) {
    forall k :: k in e.selection ==> e.selection[k].Valid()
  }

  function RouteWithMode(e: Engine, k: DeviceKey, input: InputPrimitive): (Engine, Outcome)
    requires k !in e.cycles && k in e.selection ==> e.selection[k].Valid()
  {
    if k in e.cycles then
      match CycleStep(e.cycles[k], input)
      case Some(id) => (WithActive(e, k, id), CycleSwitch(k, id))
      case None => (e, Normal(RouteInput(e, k, input)))
    else if k in e.selection then Selecting(e, k, input)
    else EnterOrRoute(e, k, input)
  }

  lemma EnterModeValid(m: Mapping)
    requires m.targetCandidates != []
    ensures EnterMode(m).Valid()
  {
  }

  lemma EnterOrRouteKeepsValid(e: Engine, k: DeviceKey, input: InputPrimitive)
    requires SelectionsValid(e)
    ensures SelectionsValid(EnterOrRoute(e, k, input).0)
  {
    hide InputPrimitive.MatchesRoute, RouteMappings, EnterMode, SelectionMode.Valid, FirstSwitchable;
    var m := FirstSwitchable(Bucket(e.byDevice, k), input);
    if m.Some? {
      EnterModeValid(m.value);
    }
  }

  lemma RouteWithModeKeepsValid(e: Engine, k: DeviceKey, input: InputPrimitive)
    requires SelectionsValid(e)
    ensures SelectionsValid(RouteWithMode(e, k, input).0)
  {
    hide InputPrimitive.MatchesRoute, RouteMappings, EnterOrRoute, CycleStep, Rotated, SelectionMode.Valid;
    if k !in e.cycles {
      EnterOrRouteKeepsValid(e, k, input);
      if k in e.selection && input.Rotate? {
        RotatedValid(e.selection[k], input.delta);
      }
    }
  }

  // ----- Feedback lookup -----

  function CandidateType(m: Mapping, c: TargetCandidate): string {
    if c.serviceType.Some? then c.serviceType.value else m.serviceType
  }

  predicate Covers(m: Mapping, serviceType: string, target: string) {
    && m.active
    && (|| (m.serviceType == serviceType && m.serviceTarget == target)
        || exists i :: 0 <= i < |m.targetCandidates| && CandidateType(m, m.targetCandidates[i]) == serviceType
             && m.targetCandidates[i].target == target)
  }

  /** The feedback rules of the first mapping covering the pair. */
  function RulesForTarget(ms: seq<Mapping>, serviceType: string, target: string): Option<seq<FeedbackRule>> {
    if ms == [] then None
    else if Covers(ms[0], serviceType, target) then Some(ms[0].feedback)
    else RulesForTarget(ms[1..], serviceType, target)
  }
}
