/** The edge's replica of the server's configuration and its cache on disk, on the Linux and
    macOS agent and on iOS. */
module ConfigReplica {
  import opened Common
  import opened Contracts
  import opened Routing
  import opened BucketIndex
  import Engines = RoutingEngine

  datatype ServerFrame =
    | ConfigFull(config: EdgeConfig)
    | PatchUpsert(mapping: Option<Mapping>)   // an upsert may come without its payload
    | PatchDelete(id: Uuid)
    | TargetSwitch(switchId: Uuid, target: string)
    | GlyphsUpdate(glyphs: seq<Glyph>)
    | CycleUpsert(cycle: DeviceCycle)
    | CycleDelete(device: DeviceKey)
    | SwitchActive(switchDevice: DeviceKey, activeId: Uuid)
    | OtherFrame                              // device control, dispatch, state echo, ping

  function Registry(glyphs: seq<Glyph>): map<string, Glyph> {
    if glyphs == [] then map[] else Registry(glyphs[..|glyphs| - 1])[glyphs[|glyphs| - 1].name := glyphs[|glyphs| - 1]]
  }

  /** What a frame does to the routing engine. `order` is the bucket order of the snapshot a
      target switch looks through. */
  function EngineAfter(e: Engine, f: ServerFrame, order: seq<DeviceKey>): Engine {
    match f
    case ConfigFull(c) => e.(byDevice := Group(c.mappings), cycles := CyclesOf(c.deviceCycles))
    case PatchUpsert(Some(m)) => e.(byDevice := Upserted(e.byDevice, m))
    case PatchDelete(id) => e.(byDevice := Removed(e.byDevice, id))
    case TargetSwitch(id, target) => e.(byDevice := TargetSwitched(e.byDevice, order, id, target))
    case CycleUpsert(c) => e.(cycles := e.cycles[c.device := c])
    case CycleDelete(k) => e.(cycles := e.cycles - {k})
    case SwitchActive(k, id) => SetCycleActive(e, k, id).0
    case _ => e
  }

  // ----- The agent's replica -----

  datatype Disk = Missing | Corrupt | Stored(config: EdgeConfig)

  /** A save succeeds, or fails and leaves something behind (the file is not replaced atomically). */
  datatype SaveResult = Saved | Failed(left: Disk)

  datatype Replica = Replica(edgeId: string, engine: Engine, glyphs: map<string, Glyph>, disk: Disk)

  /** The hash-map iteration orders and the save outcome met while handling one frame. */
  datatype Choices = Choices(find: seq<DeviceKey>, save: seq<DeviceKey>, cycles: seq<DeviceKey>, saved: SaveResult)

  function Save(r: Replica, config: EdgeConfig, saved: SaveResult): Replica {
    match saved
    case Saved => r.(disk := Stored(config))
    case Failed(left) => r.(disk := left)
  }

  /** `refresh_cache`: save the engine's mappings and cycles with the glyphs saved before. */
  function Refreshed(r: Replica, c: Choices): Replica
    requires forall k :: k in c.cycles ==> k in r.engine.cycles
  {
    var glyphs := if r.disk.Stored? then r.disk.config.glyphs else [];
    Save(r, EdgeConfig(r.edgeId, Snapshot(r.engine.byDevice, c.save), glyphs, ValuesIn(r.engine.cycles, c.cycles)), c.saved)
  }

  /** Does handling this frame end in a `refresh_cache`? */
  predicate Refreshes(r: Replica, f: ServerFrame, order: seq<DeviceKey>) {
    match f
    case PatchUpsert(m) => m.Some?
    case PatchDelete(_) => true
    case TargetSwitch(id, _) => FindById(Snapshot(r.engine.byDevice, order), id).Some?
    case CycleUpsert(_) => true
    case CycleDelete(_) => true
    case SwitchActive(_, _) => true
    case _ => false
  }

  ghost predicate LegalChoices(r: Replica, f: ServerFrame, c: Choices) {
    var e := EngineAfter(r.engine, f, c.find);
    && IsEnumeration(c.find, r.engine.byDevice.Keys)
    && IsEnumeration(c.save, e.byDevice.Keys)
    && IsEnumeration(c.cycles, e.cycles.Keys)
  }

  function Handle(r: Replica, f: ServerFrame, c: Choices): Replica
    requires forall k :: k in c.cycles ==> k in EngineAfter(r.engine, f, c.find).cycles
  {
    var r' := r.(engine := EngineAfter(r.engine, f, c.find));
    match f
    case ConfigFull(config) => Save(r'.(glyphs := Registry(config.glyphs)), config, c.saved)
    case GlyphsUpdate(glyphs) => r'.(glyphs := Registry(glyphs))
    case _ => if Refreshes(r, f, c.find) then Refreshed(r', c) else r'
  }

  /** `prime_from_cache`: mappings and glyphs come back, cycles do not. */
  function Prime(r: Replica): Replica {
    match r.disk
    case Stored(config) =>
      r.(engine := r.engine.(byDevice := Group(config.mappings)), glyphs := Registry(config.glyphs))
    case _ => r
  }

  /** A process that has just started: nothing in memory, the old file on disk. */
  function Booted(edgeId: string, disk: Disk): Replica {
    Replica(edgeId, EMPTY_ENGINE, map[], disk)
  }

  // ----- Agreement with the disk -----

  ghost predicate Consistent(buckets: Buckets) {
    exists flat :: Refines(buckets, flat)
  }

  /** The cached mappings, grouped by device, are the engine's non-empty buckets. */
  ghost predicate Agrees(r: Replica) {
    r.disk.Stored? && Refines(r.engine.byDevice, r.disk.config.mappings)
  }

  lemma AgreesMeansSameBuckets(r: Replica)
    requires Agrees(r)
    ensures Group(r.disk.config.mappings) == PruneEmpty(r.engine.byDevice)
  {
    var ms := r.disk.config.mappings;
    GroupRefines(ms);
    SameRefinementSameBuckets(Group(ms), r.engine.byDevice, ms);
    assert PruneEmpty(Group(ms)) == Group(ms);
  }

  lemma EngineStaysConsistent(e: Engine, f: ServerFrame, order: seq<DeviceKey>)
    requires Consistent(e.byDevice)
    ensures Consistent(EngineAfter(e, f, order).byDevice)
  {
    var flat :| Refines(e.byDevice, flat);
    match f
    case ConfigFull(c) => GroupRefines(c.mappings);
    case PatchUpsert(Some(m)) => UpsertRefines(e.byDevice, flat, m);
    case PatchDelete(id) => RemoveRefines(e.byDevice, flat, id);
    case TargetSwitch(id, target) =>
      var found := FindById(Snapshot(e.byDevice, order), id);
      if found.Some? {
        UpsertRefines(e.byDevice, flat, found.value.(serviceTarget := target));
      }
    case _ =>
  }

  lemma RefreshAgrees(r: Replica, c: Choices)
    requires Consistent(r.engine.byDevice) && c.saved.Saved?
    requires IsEnumeration(c.save, r.engine.byDevice.Keys) && forall k :: k in c.cycles ==> k in r.engine.cycles
    ensures Agrees(Refreshed(r, c))
  {
    var flat :| Refines(r.engine.byDevice, flat);
    SnapshotRefines(r.engine.byDevice, flat, c.save);
  }

  /** Does handling this frame end in a save? */
  predicate Saves(r: Replica, f: ServerFrame, order: seq<DeviceKey>) {
    f.ConfigFull? || Refreshes(r, f, order)
  }

  /** One frame: a save that succeeds makes disk and engine agree whatever they were before,
      and a frame that does not save keeps an agreement. */
  lemma HandleAgrees(r: Replica, f: ServerFrame, c: Choices)
    requires Consistent(r.engine.byDevice) && LegalChoices(r, f, c)
    ensures Consistent(Handle(r, f, c).engine.byDevice)
    ensures Saves(r, f, c.find) && c.saved.Saved? ==> Agrees(Handle(r, f, c))
    ensures !Saves(r, f, c.find) && Agrees(r) ==> Agrees(Handle(r, f, c))
  {
    EngineStaysConsistent(r.engine, f, c.find);
    if Saves(r, f, c.find) && c.saved.Saved? {
      match f
      case ConfigFull(config) => GroupRefines(config.mappings);
      case _ => RefreshAgrees(r.(engine := EngineAfter(r.engine, f, c.find)), c);
    }
  }

  datatype Event =
    | Frame(f: ServerFrame, c: Choices)
    | LocalInput(k: DeviceKey, input: InputPrimitive)

  ghost predicate LegalEvent(r: Replica, ev: Event) {
    match ev
    case Frame(f, c) => LegalChoices(r, f, c)
    case LocalInput(k, _) => SelectionsValid(r.engine)
  }

  ghost function After(r: Replica, ev: Event): Replica
    requires LegalEvent(r, ev)
  {
    match ev
    case Frame(f, c) => Handle(r, f, c)
    case LocalInput(k, input) => r.(engine := RouteWithMode(r.engine, k, input).0)
  }

  ghost predicate LegalRun(r: Replica, evs: seq<Event>)
    decreases |evs|
  {
    evs == [] || (LegalEvent(r, evs[0]) && LegalRun(After(r, evs[0]), evs[1..]))
  }

  ghost function RunAll(r: Replica, evs: seq<Event>): Replica
    requires LegalRun(r, evs)
    decreases |evs|
  {
    if evs == [] then r else RunAll(After(r, evs[0]), evs[1..])
  }

  /** Is the cache known to be good: has the last save succeeded, or has there been none
      since a successful prime? */
  predicate GoodAfter(r: Replica, ev: Event, good: bool) {
    if ev.Frame? && Saves(r, ev.f, ev.c.find) then ev.c.saved.Saved? else good
  }

  ghost predicate GoodAtEnd(r: Replica, evs: seq<Event>, good: bool)
    requires LegalRun(r, evs)
    decreases |evs|
  {
    if evs == [] then good else GoodAtEnd(After(r, evs[0]), evs[1..], GoodAfter(r, evs[0], good))
  }

  lemma EventAgrees(r: Replica, ev: Event, good: bool)
    requires Consistent(r.engine.byDevice) && LegalEvent(r, ev) && (good ==> Agrees(r))
    ensures Consistent(After(r, ev).engine.byDevice) && (GoodAfter(r, ev, good) ==> Agrees(After(r, ev)))
  {
    if ev.Frame? {
      hide Agrees, Consistent, Saves;
      HandleAgrees(r, ev.f, ev.c);
    } else {
      InputKeepsBuckets(r.engine, ev.k, ev.input);
    }
  }

  lemma InputKeepsBuckets(e: Engine, k: DeviceKey, input: InputPrimitive)
    requires SelectionsValid(e)
    ensures RouteWithMode(e, k, input).0.byDevice == e.byDevice
  {
    hide InputPrimitive.MatchesRoute, RouteMappings;
  }

  lemma {:induction false} RunAgrees(r: Replica, evs: seq<Event>, good: bool)
    requires Consistent(r.engine.byDevice) && LegalRun(r, evs) && (good ==> Agrees(r))
    ensures GoodAtEnd(r, evs, good) ==> Agrees(RunAll(r, evs))
    decreases |evs|
  {
    if evs == [] {
    } else {
      hide Agrees, Consistent, LegalEvent, After, GoodAfter;
      EventAgrees(r, evs[0], good);
      RunAgrees(After(r, evs[0]), evs[1..], GoodAfter(r, evs[0], good));
    }
  }

  /** Cache agreement over every run, saves failing or not: started with or without priming,
      from any disk, whenever the last save so far succeeded, or none was made since a
      successful prime, the cached mappings grouped by device are the engine's non-empty
      buckets. */
  lemma DiskAgreement(edgeId: string, disk: Disk, primed: bool, evs: seq<Event>)
    requires LegalRun(if primed then Prime(Booted(edgeId, disk)) else Booted(edgeId, disk), evs)
    ensures var start := if primed then Prime(Booted(edgeId, disk)) else Booted(edgeId, disk);
            GoodAtEnd(start, evs, primed && disk.Stored?) ==> Agrees(RunAll(start, evs))
  {
    var start := if primed then Prime(Booted(edgeId, disk)) else Booted(edgeId, disk);
    var ms := if primed && disk.Stored? then disk.config.mappings else [];
    GroupRefines(ms);
    assert Refines(start.engine.byDevice, ms);
    RunAgrees(start, evs, primed && disk.Stored?);
  }

  // ----- Restarting from the disk -----

  lemma PrimedBuckets(r: Replica, k: DeviceKey)
    requires Agrees(r)
    ensures Bucket(Prime(Booted(r.edgeId, r.disk)).engine.byDevice, k) == Bucket(r.engine.byDevice, k)
  {
    GroupRefines(r.disk.config.mappings);
    assert Bucket(Group(r.disk.config.mappings), k) == OfDevice(r.disk.config.mappings, k);
    assert Bucket(r.engine.byDevice, k) == OfDevice(r.disk.config.mappings, k);
  }

  /** A restart without the server routes as before: on every device without a cycle and
      without an open selection, every input has the same outcome, and every feedback lookup
      the same answer. */
  lemma RestartRoutesAlike(r: Replica, k: DeviceKey, input: InputPrimitive)
    requires Agrees(r) && k !in r.engine.cycles && k !in r.engine.selection
    ensures var primed := Prime(Booted(r.edgeId, r.disk));
            && RouteWithMode(primed.engine, k, input).1 == RouteWithMode(r.engine, k, input).1
            && RouteInput(primed.engine, k, input) == RouteInput(r.engine, k, input)
            && forall st, t :: RulesForTarget(Bucket(primed.engine.byDevice, k), st, t) == RulesForTarget(Bucket(r.engine.byDevice, k), st, t)
  {
    hide InputPrimitive.MatchesRoute, RouteMappings;
    PrimedBuckets(r, k);
  }

  lemma {:induction false} FilterLosesNothingExactly(ms: seq<Mapping>, input: InputPrimitive, id: Uuid)
    ensures |RouteMappings(ms, input, Some(id))| <= |RouteMappings(ms, input, None)|
    ensures RouteMappings(ms, input, None) == RouteMappings(ms, input, Some(id)) <==>
            forall m :: m in ms && m.mappingId != id ==> RouteOne(m, input, None) == []
    decreases |ms|
  {
    hide InputPrimitive.MatchesRoute, BuildIntent, FirstIntent;
    if ms == [] {
    } else {
      var n := |ms| - 1;
      FilterLosesNothingExactly(ms[..n], input, id);
      var a, b := RouteMappings(ms[..n], input, None), RouteMappings(ms[..n], input, Some(id));
      var x, y := RouteOne(ms[n], input, None), RouteOne(ms[n], input, Some(id));
      assert |y| <= |x| && (x == y <==> ms[n].mappingId == id || x == []);
      assert ms == ms[..n] + [ms[n]];
      if a + x == b + y {
        assert |a| == |b|;
        assert a == (a + x)[..|a|] == (b + y)[..|b|] == b;
        assert x == (a + x)[|a|..] == (b + y)[|b|..] == y;
      }
    }
  }

  /** With an active mapping, do all other mappings of the device have nothing to say? */
  ghost predicate OthersSilent(ms: seq<Mapping>, active: Option<Uuid>, input: InputPrimitive) {
    active.Some? ==> forall m :: m in ms && m.mappingId != active.value ==> RouteOne(m, input, None) == []
  }

  lemma UnfilteredAlike(ms: seq<Mapping>, input: InputPrimitive, active: Option<Uuid>)
    ensures RouteMappings(ms, input, None) == RouteMappings(ms, input, active) <==> OthersSilent(ms, active, input)
  {
    hide InputPrimitive.MatchesRoute, BuildIntent, RouteOne, RouteMappings;
    if active.Some? {
      FilterLosesNothingExactly(ms, input, active.value);
    }
  }

  /** On a cycled device the restart forgets the cycle. The restarted agent answers an input
      as the running one would have, if and only if the input does not switch the cycle, no
      mapping of the device makes it enter target selection (which a cycle suppresses), and
      no mapping but the active one answers it. */
  lemma RestartForgetsCycle(r: Replica, k: DeviceKey, input: InputPrimitive)
    requires Agrees(r) && k in r.engine.cycles
    ensures var primed := Prime(Booted(r.edgeId, r.disk)); var bucket := Bucket(r.engine.byDevice, k);
            RouteWithMode(primed.engine, k, input).1 == RouteWithMode(r.engine, k, input).1 <==>
            && CycleStep(r.engine.cycles[k], input).None?
            && FirstSwitchable(bucket, input).None?
            && OthersSilent(bucket, r.engine.cycles[k].activeMappingId, input)
  {
    hide InputPrimitive.MatchesRoute, BuildIntent, RouteMappings, CycleStep, FirstSwitchable, OthersSilent, EnterMode, Agrees, Group;
    PrimedBuckets(r, k);
    PrimedIsPlain(r, k);
    var primed := Prime(Booted(r.edgeId, r.disk));
    var bucket := Bucket(r.engine.byDevice, k);
    UnfilteredAlike(bucket, input, r.engine.cycles[k].activeMappingId);
    assert RouteWithMode(primed.engine, k, input).1 == EnterOrRoute(primed.engine, k, input).1;
    assert FirstSwitchable(bucket, input).None? ==>
        EnterOrRoute(primed.engine, k, input).1 == Normal(RouteMappings(bucket, input, None));
  }

  lemma PrimedIsPlain(r: Replica, k: DeviceKey)
    requires Agrees(r)
    ensures var e := Prime(Booted(r.edgeId, r.disk)).engine; k !in e.cycles && k !in e.selection
  {
  }

  /** The gesture itself is such an input: the running agent switches the cycle, the restarted
      one has no cycle to switch, even where no mapping answers the gesture. */
  lemma RestartForgetsGesture(r: Replica, k: DeviceKey, a: Uuid, b: Uuid)
    requires Agrees(r) && k in r.engine.cycles && Bucket(r.engine.byDevice, k) == [] && a != b
    requires r.engine.cycles[k].mappingIds == [a, b] && r.engine.cycles[k].activeMappingId == Some(a)
    requires r.engine.cycles[k].cycleGesture == Some("press")
    ensures RouteWithMode(r.engine, k, Press).1 == CycleSwitch(k, b)
    ensures RouteWithMode(Prime(Booted(r.edgeId, r.disk)).engine, k, Press).1 == Normal([])
  {
    hide Agrees, Group;
    PrimedBuckets(r, k);
    PrimedIsPlain(r, k);
    assert IdPosition([a, b], a) == Some(0);
  }

  // ----- iOS -----

  /** Two files, each replaced atomically. */
  datatype IosDisk = IosDisk(mappings: Option<seq<Mapping>>, glyphs: Option<seq<Glyph>>)

  datatype IosReplica = IosReplica(engine: Engine, glyphs: map<string, Glyph>, disk: IosDisk)

  datatype IosChoices = IosChoices(find: seq<DeviceKey>, save: seq<DeviceKey>, names: seq<string>, mappingsSaved: bool, glyphsSaved: bool)

  predicate Persists(r: IosReplica, f: ServerFrame, order: seq<DeviceKey>) {
    match f
    case ConfigFull(_) => true
    case PatchUpsert(m) => m.Some?
    case PatchDelete(_) => true
    case TargetSwitch(id, _) => FindById(Snapshot(r.engine.byDevice, order), id).Some?
    case GlyphsUpdate(_) => true
    case _ => false
  }

  function GlyphsAfter(glyphs: map<string, Glyph>, f: ServerFrame): map<string, Glyph> {
    match f
    case ConfigFull(c) => Registry(c.glyphs)
    case GlyphsUpdate(gs) => Registry(gs)
    case _ => glyphs
  }

  function HandleIos(r: IosReplica, f: ServerFrame, c: IosChoices): IosReplica
    requires forall n :: n in c.names ==> n in GlyphsAfter(r.glyphs, f)
  {
    var e, g := EngineAfter(r.engine, f, c.find), GlyphsAfter(r.glyphs, f);
    IosReplica(e, g,
      if !Persists(r, f, c.find) then r.disk
      else IosDisk(if c.mappingsSaved then Some(Snapshot(e.byDevice, c.save)) else r.disk.mappings,
                   if c.glyphsSaved then Some(ValuesIn(g, c.names)) else r.disk.glyphs))
  }

  /** The mappings file mirrors the engine, the glyphs file the registry. */
  ghost predicate MappingsAgree(r: IosReplica) {
    r.disk.mappings.Some? && Refines(r.engine.byDevice, r.disk.mappings.value)
  }

  ghost predicate GlyphsAgree(r: IosReplica) {
    r.disk.glyphs.Some? && Registry(r.disk.glyphs.value) == r.glyphs
  }

  predicate NamedRight(glyphs: map<string, Glyph>) {
    forall n :: n in glyphs ==> glyphs[n].name == n
  }

  lemma {:induction false} RegistryNamedRight(glyphs: seq<Glyph>)
    ensures NamedRight(Registry(glyphs))
    decreases |glyphs|
  {
    if glyphs == [] {
    } else {
      RegistryNamedRight(glyphs[..|glyphs| - 1]);
    }
  }

  /** Reloading a saved registry restores it, whatever order it was saved in. */
  lemma {:induction false} RegistryOfSaved(glyphs: map<string, Glyph>, names: seq<string>)
    requires NamedRight(glyphs) && IsEnumeration(names, glyphs.Keys)
    ensures Registry(ValuesIn(glyphs, names)) == glyphs
    decreases |names|
  {
    var saved := ValuesIn(glyphs, names);
    if names == [] {
      assert glyphs.Keys == {};
    } else {
      var n := |names| - 1;
      var last := names[n];
      var rest := glyphs - {last};
      EnumerationDropLast(names, glyphs.Keys);
      assert rest.Keys == glyphs.Keys - {last};
      hide IsEnumeration;
      RegistryOfSaved(rest, names[..n]);
      assert saved[..n] == ValuesIn(rest, names[..n]);
      assert saved[n] == glyphs[last];
      assert glyphs == rest[last := glyphs[last]];
    }
  }

  ghost predicate LegalIosChoices(r: IosReplica, f: ServerFrame, c: IosChoices) {
    && IsEnumeration(c.find, r.engine.byDevice.Keys)
    && IsEnumeration(c.save, EngineAfter(r.engine, f, c.find).byDevice.Keys)
    && IsEnumeration(c.names, GlyphsAfter(r.glyphs, f).Keys)
  }

  /** On iOS every frame that persists makes each file whose write succeeds agree with memory,
      whatever it was before, and every other frame keeps both agreements. */
  lemma HandleIosAgrees(r: IosReplica, f: ServerFrame, c: IosChoices)
    requires Consistent(r.engine.byDevice) && NamedRight(r.glyphs) && LegalIosChoices(r, f, c)
    ensures Consistent(HandleIos(r, f, c).engine.byDevice) && NamedRight(HandleIos(r, f, c).glyphs)
    ensures Persists(r, f, c.find) && c.mappingsSaved ==> MappingsAgree(HandleIos(r, f, c))
    ensures Persists(r, f, c.find) && c.glyphsSaved ==> GlyphsAgree(HandleIos(r, f, c))
    ensures !Persists(r, f, c.find) && MappingsAgree(r) ==> MappingsAgree(HandleIos(r, f, c))
    ensures !Persists(r, f, c.find) && GlyphsAgree(r) ==> GlyphsAgree(HandleIos(r, f, c))
  {
    hide IsEnumeration, Refines, Snapshot, NamedRight;
    var e, g := EngineAfter(r.engine, f, c.find), GlyphsAfter(r.glyphs, f);
    EngineStaysConsistent(r.engine, f, c.find);
    if f.ConfigFull? {
      RegistryNamedRight(f.config.glyphs);
    } else if f.GlyphsUpdate? {
      RegistryNamedRight(f.glyphs);
    }
    if Persists(r, f, c.find) {
      var flat :| Refines(e.byDevice, flat);
      SnapshotRefines(e.byDevice, flat, c.save);
      RegistryOfSaved(g, c.names);
    }
  }

  /** `hydrate_from_cache` at launch: a missing or unreadable file leaves its part empty. */
  function Hydrated(disk: IosDisk): IosReplica {
    IosReplica(
      EMPTY_ENGINE.(byDevice := if disk.mappings.Some? then Group(disk.mappings.value) else map[]),
      if disk.glyphs.Some? then Registry(disk.glyphs.value) else map[],
      disk)
  }

  datatype IosEvent =
    | IosFrame(f: ServerFrame, c: IosChoices)
    | IosInput(k: DeviceKey, input: InputPrimitive)   // may switch the device's cycle

  ghost predicate LegalIos(r: IosReplica, ev: IosEvent) {
    ev.IosFrame? ==> LegalIosChoices(r, ev.f, ev.c)
  }

  ghost function AfterIos(r: IosReplica, ev: IosEvent): IosReplica
    requires LegalIos(r, ev)
  {
    match ev
    case IosFrame(f, c) => HandleIos(r, f, c)
    case IosInput(k, input) => r.(engine := TryCycleSwitch(r.engine, k, input).0)
  }

  ghost predicate LegalIosRun(r: IosReplica, evs: seq<IosEvent>)
    decreases |evs|
  {
    evs == [] || (LegalIos(r, evs[0]) && LegalIosRun(AfterIos(r, evs[0]), evs[1..]))
  }

  ghost function RunIos(r: IosReplica, evs: seq<IosEvent>): IosReplica
    requires LegalIosRun(r, evs)
    decreases |evs|
  {
    if evs == [] then r else RunIos(AfterIos(r, evs[0]), evs[1..])
  }

  /** Which files are known to be good: the last write of each succeeded, or there was none
      since a launch that found the file. */
  datatype Good = Good(mappings: bool, glyphs: bool)

  function GoodAfterIos(r: IosReplica, ev: IosEvent, good: Good): Good {
    if ev.IosFrame? && Persists(r, ev.f, ev.c.find) then Good(ev.c.mappingsSaved, ev.c.glyphsSaved) else good
  }

  ghost function GoodAtIosEnd(r: IosReplica, evs: seq<IosEvent>, good: Good): Good
    requires LegalIosRun(r, evs)
    decreases |evs|
  {
    if evs == [] then good else GoodAtIosEnd(AfterIos(r, evs[0]), evs[1..], GoodAfterIos(r, evs[0], good))
  }

  ghost predicate AgreesWhereGood(r: IosReplica, good: Good) {
    && Consistent(r.engine.byDevice) && NamedRight(r.glyphs)
    && (good.mappings ==> MappingsAgree(r))
    && (good.glyphs ==> GlyphsAgree(r))
  }

  lemma IosEventAgrees(r: IosReplica, ev: IosEvent, good: Good)
    requires LegalIos(r, ev) && AgreesWhereGood(r, good)
    ensures AgreesWhereGood(AfterIos(r, ev), GoodAfterIos(r, ev, good))
  {
    hide InputPrimitive.MatchesRoute, Consistent, NamedRight, Refines, EngineAfter, CycleStep, LegalIosChoices, Registry;
    if ev.IosFrame? {
      hide MappingsAgree, GlyphsAgree, Persists;
      HandleIosAgrees(r, ev.f, ev.c);
    }
  }

  lemma {:induction false} RunIosAgrees(r: IosReplica, evs: seq<IosEvent>, good: Good)
    requires AgreesWhereGood(r, good) && LegalIosRun(r, evs)
    ensures AgreesWhereGood(RunIos(r, evs), GoodAtIosEnd(r, evs, good))
    decreases |evs|
  {
    hide AgreesWhereGood, LegalIos, AfterIos, GoodAfterIos;
    if evs == [] {
    } else {
      IosEventAgrees(r, evs[0], good);
      RunIosAgrees(AfterIos(r, evs[0]), evs[1..], GoodAfterIos(r, evs[0], good));
    }
  }

  /** On iOS, over every run, writes failing or not: if the last write of the mappings file
      succeeded, or there was none since a launch that found it, the next launch restores
      every device's mappings in order; and likewise the glyphs file and the whole registry. */
  lemma IosDiskAgreement(disk: IosDisk, evs: seq<IosEvent>)
    requires LegalIosRun(Hydrated(disk), evs)
    ensures var r := RunIos(Hydrated(disk), evs);
            var good := GoodAtIosEnd(Hydrated(disk), evs, Good(disk.mappings.Some?, disk.glyphs.Some?));
            && (good.mappings ==> MappingsAgree(r) && forall k :: Bucket(Hydrated(r.disk).engine.byDevice, k) == Bucket(r.engine.byDevice, k))
            && (good.glyphs ==> Hydrated(r.disk).glyphs == r.glyphs)
  {
    hide Registry;
    var r0 := Hydrated(disk);
    var ms := if disk.mappings.Some? then disk.mappings.value else [];
    GroupRefines(ms);
    assert Refines(r0.engine.byDevice, ms);
    LaunchNamedRight(disk);
    var good := Good(disk.mappings.Some?, disk.glyphs.Some?);
    RunIosAgrees(r0, evs, good);
    var r := RunIos(r0, evs);
    if GoodAtIosEnd(r0, evs, good).mappings {
      GroupRefines(r.disk.mappings.value);
      HydrateSameBuckets(r);
    }
  }

  lemma LaunchNamedRight(disk: IosDisk)
    ensures NamedRight(Hydrated(disk).glyphs)
  {
    RegistryNamedRight(if disk.glyphs.Some? then disk.glyphs.value else []);
  }

  lemma HydrateSameBuckets(r: IosReplica)
    requires MappingsAgree(r) && Refines(Group(r.disk.mappings.value), r.disk.mappings.value)
    ensures forall k :: Bucket(Hydrated(r.disk).engine.byDevice, k) == Bucket(r.engine.byDevice, k)
  {
    var ms := r.disk.mappings.value;
    forall k ensures Bucket(Group(ms), k) == Bucket(r.engine.byDevice, k) {
      assert Bucket(Group(ms), k) == OfDevice(ms, k);
      assert Bucket(r.engine.byDevice, k) == OfDevice(ms, k);
    }
  }

  // ----- The client's frame handler -----

  class ConfigClient {
    const edgeId: string
    const engine: Engines.RoutingEngine
    var glyphs: map<string, Glyph>
    var disk: Disk

    constructor (edgeId: string, engine: Engines.RoutingEngine, disk: Disk)
      ensures this.edgeId == edgeId && this.engine == engine && this.disk == disk && glyphs == map[]
    {
      this.edgeId, this.engine, this.disk, this.glyphs := edgeId, engine, disk, map[];
    }

    function State(): Replica
      reads this, engine
    {
      Replica(edgeId, engine.State(), glyphs, disk)
    }

    method PrimeFromCache()
      modifies this, engine
      ensures State() == Prime(old(State()))
    {
      if disk.Stored? {
        engine.ReplaceAll(disk.config.mappings);
        glyphs := Registry(disk.config.glyphs);
      }
    }

    method SaveConfig(config: EdgeConfig, saved: SaveResult)
      modifies this`disk
      ensures State() == Save(old(State()), config, saved)
    {
      match saved {
        case Saved => disk := Stored(config);
        case Failed(left) => disk := left;
      }
    }

    method RefreshCache(saved: SaveResult) returns (save: seq<DeviceKey>, order: seq<DeviceKey>)
      modifies this`disk
      ensures IsEnumeration(save, engine.byDevice.Keys) && IsEnumeration(order, engine.cycles.Keys)
      ensures State() == Refreshed(old(State()), Choices([], save, order, saved))
    {
      var mappings, deviceCycles;
      mappings, save := engine.TakeSnapshot();
      deviceCycles, order := engine.CyclesSnapshot();
      var kept := if disk.Stored? then disk.config.glyphs else [];
      SaveConfig(EdgeConfig(edgeId, mappings, kept, deviceCycles), saved);
    }

    method ApplyFull(config: EdgeConfig)
      modifies this`glyphs, engine
      ensures State() == old(State()).(engine := EngineAfter(old(engine.State()), ConfigFull(config), []),
                                       glyphs := Registry(config.glyphs))
    {
      engine.ReplaceAll(config.mappings);
      engine.ReplaceCycles(config.deviceCycles);
      glyphs := Registry(config.glyphs);
    }

    /** What a frame does to the engine, and whether the cache is to be refreshed. */
    method ApplyPatch(f: ServerFrame) returns (refresh: bool, ghost find: seq<DeviceKey>)
      requires !f.ConfigFull? && !f.GlyphsUpdate?
      modifies engine
      ensures IsEnumeration(find, old(engine.byDevice.Keys))
      ensures engine.State() == EngineAfter(old(engine.State()), f, find)
      ensures refresh == Refreshes(old(State()), f, find)
    {
      find := EnumerationExists(engine.byDevice.Keys);
      refresh := true;
      match f {
        case PatchUpsert(None) =>
          refresh := false;
        case PatchUpsert(Some(m)) =>
          engine.UpsertMapping(m);
        case PatchDelete(id) =>
          engine.RemoveMapping(id);
        case TargetSwitch(id, target) =>
          var current, order := engine.TakeSnapshot();
          find := order;
          var found := FindById(current, id);
          refresh := found.Some?;
          if refresh {
            engine.UpsertMapping(found.value.(serviceTarget := target));
          }
        case CycleUpsert(cycle) =>
          engine.UpsertCycle(cycle);
        case CycleDelete(k) =>
          var _ := engine.RemoveCycle(k);
        case SwitchActive(k, id) =>
          var _ := engine.SetActive(k, id);
        case _ =>
          refresh := false;
      }
    }

    /** Every server frame. `c` says in what order the hash maps were met. */
    method HandleServerFrame(f: ServerFrame, saved: SaveResult) returns (ghost c: Choices)
      modifies this, engine
      ensures LegalChoices(old(State()), f, c) && c.saved == saved
      ensures State() == Handle(old(State()), f, c)
    {
      if f.ConfigFull? {
        ghost var find := EnumerationExists(engine.byDevice.Keys);
        ApplyFull(f.config);
        SaveConfig(f.config, saved);
        ghost var save := EnumerationExists(engine.byDevice.Keys);
        ghost var order := EnumerationExists(engine.cycles.Keys);
        c := Choices(find, save, order, saved);
      } else if f.GlyphsUpdate? {
        ghost var find := EnumerationExists(engine.byDevice.Keys);
        ghost var order := EnumerationExists(engine.cycles.Keys);
        glyphs := Registry(f.glyphs);
        c := Choices(find, find, order, saved);
      } else {
        var refresh;
        ghost var find;
        refresh, find := ApplyPatch(f);
        if refresh {
          var save, order := RefreshCache(saved);
          c := Choices(find, save, order, saved);
        } else {
          ghost var save := EnumerationExists(engine.byDevice.Keys);
          ghost var order := EnumerationExists(engine.cycles.Keys);
          c := Choices(find, save, order, saved);
        }
      }
    }
  }
}
