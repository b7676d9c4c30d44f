/** Whole runs of the configuration replica: the server's frames and local inputs as operations
    on the engine, the glyph registry, and what the cache holds after each frame. */
module ReplicaRuns {
  import opened Common
  import opened Contracts
  import opened Routing
  import opened BucketIndex
  import opened ConfigReplica
  import EngineRuns

  // ----- The engine -----

  /** What a frame tells the engine. */
  function OpsOf(f: ServerFrame, find: seq<DeviceKey>): seq<EngineRuns.Op> {
    match f
    case ConfigFull(c) => [EngineRuns.Configure(ReplaceAll(c.mappings)), EngineRuns.ReplaceCycles(c.deviceCycles)]
    case PatchUpsert(Some(m)) => [EngineRuns.Configure(Upsert(m))]
    case PatchDelete(id) => [EngineRuns.Configure(Delete(id))]
    case TargetSwitch(id, target) => [EngineRuns.Configure(SwitchTarget(id, target, find))]
    case CycleUpsert(c) => [EngineRuns.UpsertCycle(c)]
    case CycleDelete(k) => [EngineRuns.RemoveCycle(k)]
    case SwitchActive(k, id) => [EngineRuns.SetActive(k, id)]
    case _ => []
  }

  lemma FrameIsOps(e: Engine, f: ServerFrame, find: seq<DeviceKey>)
    requires SelectionsValid(e)
    ensures EngineAfter(e, f, find) == EngineRuns.ApplyAll(e, OpsOf(f, find))
  {
    hide Group, Upserted, Removed, TargetSwitched, SetCycleActive, SelectionsValid;
    match f
    case ConfigFull(c) =>
      var a, b := EngineRuns.Configure(ReplaceAll(c.mappings)), EngineRuns.ReplaceCycles(c.deviceCycles);
      assert [a, b][..1] == [a];
      EngineRuns.ApplyOne(e, a);
      EngineRuns.ApplyLast(e, [a, b]);
    case PatchUpsert(Some(m)) =>
      EngineRuns.ApplyOne(e, EngineRuns.Configure(Upsert(m)));
    case PatchDelete(id) =>
      EngineRuns.ApplyOne(e, EngineRuns.Configure(Delete(id)));
    case TargetSwitch(id, target) =>
      EngineRuns.ApplyOne(e, EngineRuns.Configure(SwitchTarget(id, target, find)));
    case CycleUpsert(c) => EngineRuns.ApplyOne(e, EngineRuns.UpsertCycle(c));
    case CycleDelete(k) => EngineRuns.ApplyOne(e, EngineRuns.RemoveCycle(k));
    case SwitchActive(k, id) => EngineRuns.ApplyOne(e, EngineRuns.SetActive(k, id));
    case _ =>
  }

  function OpsOfEvent(ev: Event): seq<EngineRuns.Op> {
    match ev
    case Frame(f, c) => OpsOf(f, c.find)
    case LocalInput(k, input) => [EngineRuns.Input(k, input)]
  }

  function OpsOfRun(evs: seq<Event>): seq<EngineRuns.Op> {
    if evs == [] then [] else OpsOfEvent(evs[0]) + OpsOfRun(evs[1..])
  }

  lemma EventIsOps(r: Replica, ev: Event)
    requires LegalEvent(r, ev) && SelectionsValid(r.engine)
    ensures After(r, ev).engine == EngineRuns.ApplyAll(r.engine, OpsOfEvent(ev))
  {
    hide EngineAfter, OpsOf, RouteWithMode, LegalChoices, Refreshes, Snapshot;
    match ev
    case Frame(f, c) => FrameIsOps(r.engine, f, c.find);
    case LocalInput(k, input) => EngineRuns.ApplyOne(r.engine, EngineRuns.Input(k, input));
  }

  /** A run of frames and inputs is, for the engine, the run of the operations they stand for. */
  lemma {:induction false} RunIsOps(r: Replica, evs: seq<Event>)
    requires ConfigReplica.LegalRun(r, evs) && SelectionsValid(r.engine)
    ensures RunAll(r, evs).engine == EngineRuns.ApplyAll(r.engine, OpsOfRun(evs))
    decreases |evs|
  {
    hide After, LegalEvent, OpsOfEvent, SelectionsValid;
    if evs == [] {
    } else {
      EventIsOps(r, evs[0]);
      RunIsOps(After(r, evs[0]), evs[1..]);
      EngineRuns.ApplyAllConcat(r.engine, OpsOfEvent(evs[0]), OpsOfRun(evs[1..]));
    }
  }

  function Started(edgeId: string, disk: Disk, primed: bool): Replica {
    if primed then Prime(Booted(edgeId, disk)) else Booted(edgeId, disk)
  }

  /** The operations since the process started, priming included. */
  function OpsSinceStart(disk: Disk, primed: bool, evs: seq<Event>): seq<EngineRuns.Op> {
    (if primed && disk.Stored? then [EngineRuns.Configure(ReplaceAll(disk.config.mappings))] else []) + OpsOfRun(evs)
  }

  lemma StartedIsOps(edgeId: string, disk: Disk, primed: bool, evs: seq<Event>)
    requires ConfigReplica.LegalRun(Started(edgeId, disk, primed), evs)
    ensures RunAll(Started(edgeId, disk, primed), evs).engine == EngineRuns.ApplyAll(EMPTY_ENGINE, OpsSinceStart(disk, primed, evs))
  {
    hide ConfigReplica.LegalRun, RunAll;
    RunIsOps(Started(edgeId, disk, primed), evs);
    if primed && disk.Stored? {
      var prime := EngineRuns.Configure(ReplaceAll(disk.config.mappings));
      EngineRuns.ApplyOne(EMPTY_ENGINE, prime);
      EngineRuns.ApplyAllConcat(EMPTY_ENGINE, [prime], OpsOfRun(evs));
    } else {
      assert [] + OpsOfRun(evs) == OpsOfRun(evs);
    }
  }

  /** Over every run of frames and inputs, started from any disk: each device's cycle is the
      one last sent for it since the start, but for its active mapping, which is the one last
      named by the server or reached by the gesture since. */
  lemma CyclesAreLastSent(edgeId: string, disk: Disk, primed: bool, evs: seq<Event>, k: DeviceKey) returns (sent: int, active: int)
    requires ConfigReplica.LegalRun(Started(edgeId, disk, primed), evs)
    ensures EngineRuns.LastSent(OpsSinceStart(disk, primed, evs), k, sent, active)
    ensures RunAll(Started(edgeId, disk, primed), evs).engine.cycles
            == EngineRuns.ApplyAll(EMPTY_ENGINE, OpsSinceStart(disk, primed, evs)).cycles
  {
    hide ConfigReplica.LegalRun, RunAll, EngineRuns.LastSent;
    StartedIsOps(edgeId, disk, primed, evs);
    sent, active := EngineRuns.CycleIsLastSent(OpsSinceStart(disk, primed, evs), k);
  }

  /** ... and each device's mappings are those of the plain map by id that the same updates
      leave. */
  lemma MappingsAreLastSent(edgeId: string, disk: Disk, primed: bool, evs: seq<Event>, m: Mapping, k: DeviceKey)
    requires ConfigReplica.LegalRun(Started(edgeId, disk, primed), evs)
    requires BucketIndex.LegalRun(map[], EngineRuns.Configures(OpsSinceStart(disk, primed, evs)))
    ensures m in Bucket(RunAll(Started(edgeId, disk, primed), evs).engine.byDevice, k) <==>
            m.device == k && Lookup(RunMap(map[], EngineRuns.Configures(OpsSinceStart(disk, primed, evs))), m.mappingId) == Some(m)
  {
    var ops := OpsSinceStart(disk, primed, evs);
    hide ConfigReplica.LegalRun, ConfigReplica.RunAll, OpsSinceStart;
    StartedIsOps(edgeId, disk, primed, evs);
    EngineRuns.BucketsAreConfigured(ops);
    IndexRefinesMap(EngineRuns.Configures(ops), m, k);
  }

  // ----- The glyph registry -----

  /** The last glyph of the list with the name is the one it stands for. */
  lemma {:induction false} RegistryExactly(glyphs: seq<Glyph>, name: string) returns (i: int)
    ensures -1 <= i < |glyphs| && forall n :: i < n < |glyphs| ==> glyphs[n].name != name
    ensures i == -1 ==> name !in Registry(glyphs)
    ensures i >= 0 ==> glyphs[i].name == name && name in Registry(glyphs) && Registry(glyphs)[name] == glyphs[i]
    decreases |glyphs|
  {
    if glyphs == [] {
      i := -1;
    } else if glyphs[|glyphs| - 1].name == name {
      i := |glyphs| - 1;
    } else {
      i := RegistryExactly(glyphs[..|glyphs| - 1], name);
      assert forall n :: 0 <= n < |glyphs| - 1 ==> glyphs[n] == glyphs[..|glyphs| - 1][n];
    }
  }

  /** The event brings a new list of glyphs. */
  predicate BringsGlyphs(ev: Event, glyphs: seq<Glyph>) {
    ev.Frame? && ((ev.f.ConfigFull? && ev.f.config.glyphs == glyphs) || (ev.f.GlyphsUpdate? && ev.f.glyphs == glyphs))
  }

  /** Over every run the registry is that of the glyphs last brought, by a full configuration
      or on their own, or the one it started with. */
  lemma {:induction false} GlyphsAreLastSent(r: Replica, evs: seq<Event>) returns (n: int)
    requires ConfigReplica.LegalRun(r, evs)
    ensures -1 <= n < |evs| && forall i, gs :: n < i < |evs| ==> !BringsGlyphs(evs[i], gs)
    ensures n == -1 ==> RunAll(r, evs).glyphs == r.glyphs
    ensures n >= 0 ==> exists gs :: BringsGlyphs(evs[n], gs) && RunAll(r, evs).glyphs == Registry(gs)
    decreases |evs|
  {
    if evs == [] {
      n := -1;
    } else {
      hide After, LegalEvent, BringsGlyphs, Registry;
      GlyphsBrought(r, evs[0]);
      n := GlyphsAreLastSent(After(r, evs[0]), evs[1..]);
      assert forall i :: 0 < i < |evs| ==> evs[i] == evs[1..][i - 1];
      if n >= 0 {
        n := n + 1;
      } else if exists gs :: BringsGlyphs(evs[0], gs) {
        n := 0;
      }
    }
  }

  lemma GlyphsBrought(r: Replica, ev: Event)
    requires LegalEvent(r, ev)
    ensures (forall gs :: !BringsGlyphs(ev, gs)) ==> After(r, ev).glyphs == r.glyphs
    ensures forall gs :: BringsGlyphs(ev, gs) ==> After(r, ev).glyphs == Registry(gs)
  {
    hide Registry, EngineAfter, RouteWithMode, Snapshot, LegalChoices;
    if ev.Frame? && ev.f.ConfigFull? {
      assert BringsGlyphs(ev, ev.f.config.glyphs);
    } else if ev.Frame? && ev.f.GlyphsUpdate? {
      assert BringsGlyphs(ev, ev.f.glyphs);
    }
  }

  // ----- The cache -----

  lemma {:induction false} InSnapshot(buckets: Buckets, order: seq<DeviceKey>, m: Mapping)
    ensures m in Snapshot(buckets, order) <==> exists k :: k in order && m in Bucket(buckets, k)
    decreases |order|
  {
    if order == [] {
    } else {
      var n := |order| - 1;
      InSnapshot(buckets, order[..n], m);
      assert order == order[..n] + [order[n]];
    }
  }

  /** Some device has a mapping with this id. */
  ghost predicate Configured(e: Engine, id: Uuid) {
    exists k, m :: m in Bucket(e.byDevice, k) && m.mappingId == id
  }

  /** The frames after which the agent writes its whole configuration anew. */
  ghost predicate Rewrites(r: Replica, f: ServerFrame) {
    || (f.PatchUpsert? && f.mapping.Some?) || f.PatchDelete? || f.CycleUpsert? || f.CycleDelete? || f.SwitchActive?
    || (f.TargetSwitch? && Configured(r.engine, f.switchId))
  }

  lemma RewritesExactly(r: Replica, f: ServerFrame, order: seq<DeviceKey>)
    requires IsEnumeration(order, r.engine.byDevice.Keys)
    ensures Refreshes(r, f, order) <==> Rewrites(r, f)
  {
    hide Bucket, Snapshot;
    if f.TargetSwitch? {
      var found := FindById(Snapshot(r.engine.byDevice, order), f.switchId);
      if found.Some? {
        InSnapshot(r.engine.byDevice, order, found.value);
      }
      if Configured(r.engine, f.switchId) {
        var k, m :| m in Bucket(r.engine.byDevice, k) && m.mappingId == f.switchId;
        InSnapshot(r.engine.byDevice, order, m);
        assert k in order by {
          MissingBucket(r.engine.byDevice, k, m);
        }
      }
    }
  }

  lemma MissingBucket(buckets: Buckets, k: DeviceKey, m: Mapping)
    requires m in Bucket(buckets, k)
    ensures k in buckets.Keys
  {
  }

  /** The configuration is the engine's: its mappings are the buckets', its cycles the engine's
      cycles, under the agent's own name. */
  ghost predicate Describes(config: EdgeConfig, r: Replica) {
    && config.edgeId == r.edgeId
    && (forall m :: m in config.mappings <==> exists k :: m in Bucket(r.engine.byDevice, k))
    && (forall c :: c in config.deviceCycles <==> exists k :: k in r.engine.cycles && r.engine.cycles[k] == c)
  }

  lemma RefreshedDescribes(r: Replica, c: Choices)
    requires IsEnumeration(c.save, r.engine.byDevice.Keys) && IsEnumeration(c.cycles, r.engine.cycles.Keys) && c.saved.Saved?
    ensures Refreshed(r, c).disk.Stored? && Describes(Refreshed(r, c).disk.config, r)
    ensures Refreshed(r, c).disk.config.glyphs == if r.disk.Stored? then r.disk.config.glyphs else []
  {
    hide Snapshot;
    var config := Refreshed(r, c).disk.config;
    forall m ensures m in config.mappings <==> exists k :: m in Bucket(r.engine.byDevice, k) {
      InSnapshot(r.engine.byDevice, c.save, m);
      assert forall k :: m in Bucket(r.engine.byDevice, k) ==> k in c.save;
    }
    forall x ensures x in config.deviceCycles <==> exists k :: k in r.engine.cycles && r.engine.cycles[k] == x {
      if k :| k in r.engine.cycles && r.engine.cycles[k] == x {
        var i :| 0 <= i < |c.cycles| && c.cycles[i] == k;
        assert config.deviceCycles[i] == x;
      }
    }
  }

  /** What each frame leaves in the cache: a full configuration is stored as it came; a frame
      that changes something stores the engine's mappings and cycles with the glyphs stored
      before; every other frame leaves the cache alone. A save that fails leaves what it leaves. */
  lemma CachedExactly(r: Replica, f: ServerFrame, c: Choices)
    requires LegalChoices(r, f, c)
    ensures var r' := Handle(r, f, c);
            if !f.ConfigFull? && !Rewrites(r, f) then r'.disk == r.disk
            else match c.saved
              case Failed(left) => r'.disk == left
              case Saved =>
                && r'.disk.Stored?
                && if f.ConfigFull? then r'.disk.config == f.config
                   else
                     && Describes(r'.disk.config, r')
                     && r'.disk.config.glyphs == if r.disk.Stored? then r.disk.config.glyphs else []
  {
    hide Rewrites, Refreshes, Describes, EngineAfter, Registry, Snapshot;
    RewritesExactly(r, f, c.find);
    var r1 := r.(engine := EngineAfter(r.engine, f, c.find));
    if !f.ConfigFull? && Refreshes(r, f, c.find) {
      assert !f.GlyphsUpdate? by {
        NoRefresh(r, f, c.find);
      }
      if c.saved.Saved? {
        RefreshedDescribes(r1, c);
        SameEngineDescribes(r1, Handle(r, f, c));
      }
    }
  }

  lemma NoRefresh(r: Replica, f: ServerFrame, order: seq<DeviceKey>)
    ensures f.GlyphsUpdate? ==> !Refreshes(r, f, order)
  {
  }

  lemma SameEngineDescribes(r: Replica, r': Replica)
    requires r'.engine == r.engine && r'.edgeId == r.edgeId
    ensures forall config :: Describes(config, r) ==> Describes(config, r')
  {
  }

  /** A frame that changes the engine is cached: nothing the server said is forgotten by a
      restart for want of a save. */
  lemma ChangesAreCached(r: Replica, f: ServerFrame, c: Choices)
    requires LegalChoices(r, f, c) && Handle(r, f, c).engine != r.engine
    ensures f.ConfigFull? || Rewrites(r, f)
  {
    RewritesExactly(r, f, c.find);
  }

  /** What a restart brings back: the stored mappings, device by device and in order, and the
      stored glyphs, by name; no cycle and no selection; nothing from a cache that is missing
      or unreadable. */
  lemma RestartExactly(edgeId: string, disk: Disk)
    ensures var r := Prime(Booted(edgeId, disk));
            && r.edgeId == edgeId && r.disk == disk && r.engine.cycles == map[] && r.engine.selection == map[]
            && match disk
               case Stored(config) =>
                 && (forall k :: Bucket(r.engine.byDevice, k) == OfDevice(config.mappings, k))
                 && r.glyphs == Registry(config.glyphs)
               case _ => r.engine.byDevice == map[] && r.glyphs == map[]
  {
    if disk.Stored? {
      GroupRefines(disk.config.mappings);
    }
  }

  // ----- iOS -----

  function IosOpsOf(ev: IosEvent): seq<EngineRuns.Op> {
    match ev
    case IosFrame(f, c) => OpsOf(f, c.find)
    case IosInput(k, input) => [EngineRuns.TryCycle(k, input)]
  }

  function IosOpsOfRun(evs: seq<IosEvent>): seq<EngineRuns.Op> {
    if evs == [] then [] else IosOpsOf(evs[0]) + IosOpsOfRun(evs[1..])
  }

  /** On iOS too a run is, for the engine, the run of the operations its frames and inputs
      stand for. */
  lemma {:induction false} IosRunIsOps(r: IosReplica, evs: seq<IosEvent>)
    requires LegalIosRun(r, evs) && SelectionsValid(r.engine)
    ensures RunIos(r, evs).engine == EngineRuns.ApplyAll(r.engine, IosOpsOfRun(evs))
    decreases |evs|
  {
    hide AfterIos, LegalIos, IosOpsOf, SelectionsValid;
    if evs == [] {
    } else {
      IosEventIsOps(r, evs[0]);
      IosRunIsOps(AfterIos(r, evs[0]), evs[1..]);
      EngineRuns.ApplyAllConcat(r.engine, IosOpsOf(evs[0]), IosOpsOfRun(evs[1..]));
    }
  }

  lemma IosEventIsOps(r: IosReplica, ev: IosEvent)
    requires LegalIos(r, ev) && SelectionsValid(r.engine)
    ensures AfterIos(r, ev).engine == EngineRuns.ApplyAll(r.engine, IosOpsOf(ev))
  {
    hide EngineAfter, OpsOf, TryCycleSwitch, LegalIosChoices, Persists, Snapshot;
    match ev
    case IosFrame(f, c) => FrameIsOps(r.engine, f, c.find);
    case IosInput(k, input) => EngineRuns.ApplyOne(r.engine, EngineRuns.TryCycle(k, input));
  }

  predicate BringsIosGlyphs(ev: IosEvent, glyphs: seq<Glyph>) {
    ev.IosFrame? && ((ev.f.ConfigFull? && ev.f.config.glyphs == glyphs) || (ev.f.GlyphsUpdate? && ev.f.glyphs == glyphs))
  }

  /** ... and its registry is that of the glyphs last brought. */
  lemma {:induction false} IosGlyphsAreLastSent(r: IosReplica, evs: seq<IosEvent>) returns (n: int)
    requires LegalIosRun(r, evs)
    ensures -1 <= n < |evs| && forall i, gs :: n < i < |evs| ==> !BringsIosGlyphs(evs[i], gs)
    ensures n == -1 ==> RunIos(r, evs).glyphs == r.glyphs
    ensures n >= 0 ==> exists gs :: BringsIosGlyphs(evs[n], gs) && RunIos(r, evs).glyphs == Registry(gs)
    decreases |evs|
  {
    if evs == [] {
      n := -1;
    } else {
      hide AfterIos, LegalIos, BringsIosGlyphs, Registry;
      IosGlyphsBrought(r, evs[0]);
      n := IosGlyphsAreLastSent(AfterIos(r, evs[0]), evs[1..]);
      assert forall i :: 0 < i < |evs| ==> evs[i] == evs[1..][i - 1];
      if n >= 0 {
        n := n + 1;
      } else if exists gs :: BringsIosGlyphs(evs[0], gs) {
        n := 0;
      }
    }
  }

  lemma IosGlyphsBrought(r: IosReplica, ev: IosEvent)
    requires LegalIos(r, ev)
    ensures (forall gs :: !BringsIosGlyphs(ev, gs)) ==> AfterIos(r, ev).glyphs == r.glyphs
    ensures forall gs :: BringsIosGlyphs(ev, gs) ==> AfterIos(r, ev).glyphs == Registry(gs)
  {
    hide Registry, EngineAfter, TryCycleSwitch, Snapshot, LegalIosChoices;
    if ev.IosFrame? && ev.f.ConfigFull? {
      assert BringsIosGlyphs(ev, ev.f.config.glyphs);
    } else if ev.IosFrame? && ev.f.GlyphsUpdate? {
      assert BringsIosGlyphs(ev, ev.f.glyphs);
    }
  }
}
