/** The bucket index against two simpler views of the configuration: the flat list of
    mappings, and the map from mapping id to mapping. */
module BucketIndex {
  import opened Common
  import opened Contracts
  import opened Routing

  predicate DistinctIds(ms: seq<Mapping>) {
    forall i, j :: 0 <= i < j < |ms| ==> ms[i].mappingId != ms[j].mappingId
  }

  /** Every bucket holds the device's mappings of the flat list, in the list's order. */
  ghost predicate Refines(buckets: Buckets, flat: seq<Mapping>) {
    forall k :: Bucket(buckets, k) == OfDevice(flat, k)
  }

  // ----- Filters -----

  lemma {:induction false} OfDeviceConcat(a: seq<Mapping>, b: seq<Mapping>, k: DeviceKey)
    ensures OfDevice(a + b, k) == OfDevice(a, k) + OfDevice(b, k)
    decreases |b|
  {
    if b == [] {
      assert a + b == a;
    } else {
      assert (a + b)[..|a + b| - 1] == a + b[..|b| - 1];
      OfDeviceConcat(a, b[..|b| - 1], k);
    }
  }

  lemma OfDeviceSnoc(ms: seq<Mapping>, m: Mapping, k: DeviceKey)
    ensures OfDevice(ms + [m], k) == OfDevice(ms, k) + (if m.device == k then [m] else [])
  {
    assert (ms + [m])[..|ms|] == ms;
  }

  lemma {:induction false} InOfDevice(ms: seq<Mapping>, k: DeviceKey, m: Mapping)
    ensures m in OfDevice(ms, k) <==> m in ms && m.device == k
    decreases |ms|
  {
    if ms == [] {
    } else {
      var n := |ms| - 1;
      InOfDevice(ms[..n], k, m);
      assert ms == ms[..n] + [ms[n]];
    }
  }

  lemma {:induction false} OfDeviceOfDevice(ms: seq<Mapping>, j: DeviceKey, k: DeviceKey)
    ensures OfDevice(OfDevice(ms, j), k) == if j == k then OfDevice(ms, k) else []
    decreases |ms|
  {
    if ms == [] {
    } else {
      var n := |ms| - 1;
      OfDeviceOfDevice(ms[..n], j, k);
      if ms[n].device == j {
        OfDeviceSnoc(OfDevice(ms[..n], j), ms[n], k);
      } else {
        assert OfDevice(ms, j) == OfDevice(ms[..n], j);
      }
    }
  }

  lemma WithoutIdSnoc(ms: seq<Mapping>, m: Mapping, id: Uuid)
    ensures WithoutId(ms + [m], id) == WithoutId(ms, id) + (if m.mappingId == id then [] else [m])
  {
    assert (ms + [m])[..|ms|] == ms;
  }

  lemma {:induction false} FiltersCommute(ms: seq<Mapping>, id: Uuid, k: DeviceKey)
    ensures OfDevice(WithoutId(ms, id), k) == WithoutId(OfDevice(ms, k), id)
    decreases |ms|
  {
    if ms == [] {
    } else {
      var n := |ms| - 1;
      FiltersCommute(ms[..n], id, k);
      if ms[n].mappingId != id {
        OfDeviceSnoc(WithoutId(ms[..n], id), ms[n], k);
      } else {
        assert WithoutId(ms, id) == WithoutId(ms[..n], id);
      }
      if ms[n].device == k {
        WithoutIdSnoc(OfDevice(ms[..n], k), ms[n], id);
      } else {
        assert OfDevice(ms, k) == OfDevice(ms[..n], k);
      }
    }
  }

  lemma {:induction false} InWithoutId(ms: seq<Mapping>, id: Uuid, m: Mapping)
    ensures m in WithoutId(ms, id) <==> m in ms && m.mappingId != id
    decreases |ms|
  {
    if ms == [] {
    } else {
      var n := |ms| - 1;
      InWithoutId(ms[..n], id, m);
      assert ms == ms[..n] + [ms[n]];
    }
  }

  lemma {:induction false} WithoutIdDistinct(ms: seq<Mapping>, id: Uuid)
    requires DistinctIds(ms)
    ensures DistinctIds(WithoutId(ms, id))
    decreases |ms|
  {
    if ms == [] {
    } else {
      var n := |ms| - 1;
      WithoutIdDistinct(ms[..n], id);
      var rest := WithoutId(ms[..n], id);
      forall i | 0 <= i < |rest| ensures rest[i].mappingId != ms[n].mappingId {
        InWithoutId(ms[..n], id, rest[i]);
        var j :| 0 <= j < n && ms[j] == rest[i];
      }
    }
  }

  // ----- Each update refines its flat counterpart -----

  function FlatUpsert(flat: seq<Mapping>, m: Mapping): seq<Mapping> {
    WithoutId(flat, m.mappingId) + [m]
  }

  function FlatSwitch(flat: seq<Mapping>, id: Uuid, target: string): seq<Mapping> {
    match FindById(flat, id)
    case Some(m) => FlatUpsert(flat, m.(serviceTarget := target))
    case None => flat
  }

  lemma {:induction false} GroupRefines(ms: seq<Mapping>)
    ensures Refines(Group(ms), ms)
    ensures forall k :: k in Group(ms) ==> Group(ms)[k] != []
    decreases |ms|
  {
    if ms == [] {
    } else {
      GroupRefines(ms[..|ms| - 1]);
    }
  }

  lemma RetainRefines(buckets: Buckets, flat: seq<Mapping>, id: Uuid)
    requires Refines(buckets, flat)
    ensures Refines(RetainOthers(buckets, id), WithoutId(flat, id))
  {
    forall k ensures Bucket(RetainOthers(buckets, id), k) == OfDevice(WithoutId(flat, id), k) {
      FiltersCommute(flat, id, k);
      assert Bucket(buckets, k) == OfDevice(flat, k);
    }
  }

  lemma UpsertRefines(buckets: Buckets, flat: seq<Mapping>, m: Mapping)
    requires Refines(buckets, flat)
    ensures Refines(Upserted(buckets, m), FlatUpsert(flat, m))
  {
    RetainRefines(buckets, flat, m.mappingId);
    var retained := RetainOthers(buckets, m.mappingId);
    var rest := WithoutId(flat, m.mappingId);
    forall k ensures Bucket(Upserted(buckets, m), k) == OfDevice(FlatUpsert(flat, m), k) {
      assert Bucket(retained, k) == OfDevice(rest, k);
      OfDeviceSnoc(rest, m, k);
    }
  }

  lemma RemoveRefines(buckets: Buckets, flat: seq<Mapping>, id: Uuid)
    requires Refines(buckets, flat)
    ensures Refines(Removed(buckets, id), WithoutId(flat, id))
    ensures forall k :: k in Removed(buckets, id) ==> Removed(buckets, id)[k] != []
  {
    RetainRefines(buckets, flat, id);
    var retained := RetainOthers(buckets, id);
    forall k ensures Bucket(Removed(buckets, id), k) == OfDevice(WithoutId(flat, id), k) {
      assert Bucket(retained, k) == OfDevice(WithoutId(flat, id), k);
    }
  }

  lemma {:induction false} SnapshotBuckets(buckets: Buckets, flat: seq<Mapping>, order: seq<DeviceKey>, k: DeviceKey)
    requires Refines(buckets, flat)
    requires forall i, j :: 0 <= i < j < |order| ==> order[i] != order[j]
    ensures OfDevice(Snapshot(buckets, order), k) == if k in order then Bucket(buckets, k) else []
    decreases |order|
  {
    if order == [] {
    } else {
      var n := |order| - 1;
      SnapshotBuckets(buckets, flat, order[..n], k);
      OfDeviceConcat(Snapshot(buckets, order[..n]), Bucket(buckets, order[n]), k);
      OfDeviceOfDevice(flat, order[n], k);
      assert order == order[..n] + [order[n]];
    }
  }

  /** A snapshot, in whatever order the hash map yields its buckets, is a flat list the
      buckets refine. */
  lemma SnapshotRefines(buckets: Buckets, flat: seq<Mapping>, order: seq<DeviceKey>)
    requires Refines(buckets, flat) && IsEnumeration(order, buckets.Keys)
    ensures Refines(buckets, Snapshot(buckets, order))
  {
    forall k ensures Bucket(buckets, k) == OfDevice(Snapshot(buckets, order), k) {
      SnapshotBuckets(buckets, flat, order, k);
      assert k in order <==> k in buckets.Keys;
    }
  }

  lemma SameRefinementSameBuckets(a: Buckets, b: Buckets, flat: seq<Mapping>)
    requires Refines(a, flat) && Refines(b, flat)
    ensures PruneEmpty(a) == PruneEmpty(b)
  {
    forall k ensures Bucket(a, k) == Bucket(b, k) {
      assert Bucket(a, k) == OfDevice(flat, k);
    }
    forall k ensures k in PruneEmpty(a) <==> k in PruneEmpty(b) {
      assert Bucket(a, k) == Bucket(b, k);
    }
    forall k | k in PruneEmpty(a) ensures PruneEmpty(a)[k] == PruneEmpty(b)[k] {
      assert Bucket(a, k) == Bucket(b, k);
    }
  }

  /** `replace_all` of `snapshot` restores every non-empty bucket with its order, for every
      enumeration order of the buckets. */
  lemma ReplaceAllOfSnapshot(buckets: Buckets, flat: seq<Mapping>, order: seq<DeviceKey>)
    requires Refines(buckets, flat) && IsEnumeration(order, buckets.Keys)
    ensures Group(Snapshot(buckets, order)) == PruneEmpty(buckets)
  {
    var all := Snapshot(buckets, order);
    SnapshotRefines(buckets, flat, order);
    GroupRefines(all);
    SameRefinementSameBuckets(Group(all), buckets, all);
    assert PruneEmpty(Group(all)) == Group(all);
  }

  lemma SameMembers(buckets: Buckets, a: seq<Mapping>, b: seq<Mapping>, m: Mapping)
    requires Refines(buckets, a) && Refines(buckets, b)
    ensures m in a <==> m in b
  {
    InOfDevice(a, m.device, m);
    InOfDevice(b, m.device, m);
    assert Bucket(buckets, m.device) == OfDevice(a, m.device) == OfDevice(b, m.device);
  }

  lemma FindByIdUnique(ms: seq<Mapping>, m: Mapping)
    requires DistinctIds(ms) && m in ms
    ensures FindById(ms, m.mappingId) == Some(m)
  {
    var found := FindById(ms, m.mappingId);
    if found.Some? {
      var i :| 0 <= i < |ms| && ms[i] == m;
      var j :| 0 <= j < |ms| && ms[j] == found.value;
    }
  }

  /** Ids being distinct, the snapshot's order does not matter to a lookup by id. */
  lemma FindInSnapshot(buckets: Buckets, flat: seq<Mapping>, order: seq<DeviceKey>, id: Uuid)
    requires Refines(buckets, flat) && DistinctIds(flat) && IsEnumeration(order, buckets.Keys)
    ensures FindById(Snapshot(buckets, order), id) == FindById(flat, id)
  {
    var all := Snapshot(buckets, order);
    SnapshotRefines(buckets, flat, order);
    var found := FindById(all, id);
    if found.Some? {
      SameMembers(buckets, all, flat, found.value);
      FindByIdUnique(flat, found.value);
    } else {
      var inFlat := FindById(flat, id);
      if inFlat.Some? {
        SameMembers(buckets, all, flat, inFlat.value);
      }
    }
  }

  // ----- Any sequence of configuration updates -----

  datatype ConfigOp =
    | ReplaceAll(mappings: seq<Mapping>)
    | Upsert(m: Mapping)
    | Delete(id: Uuid)
    | SwitchTarget(switchId: Uuid, target: string, order: seq<DeviceKey>)

  function ApplyOp(buckets: Buckets, op: ConfigOp): Buckets {
    match op
    case ReplaceAll(ms) => Group(ms)
    case Upsert(m) => Upserted(buckets, m)
    case Delete(id) => Removed(buckets, id)
    case SwitchTarget(id, target, order) => TargetSwitched(buckets, order, id, target)
  }

  function ApplyFlat(flat: seq<Mapping>, op: ConfigOp): seq<Mapping> {
    match op
    case ReplaceAll(ms) => ms
    case Upsert(m) => FlatUpsert(flat, m)
    case Delete(id) => WithoutId(flat, id)
    case SwitchTarget(id, target, _) => FlatSwitch(flat, id, target)
  }

  /** The same update on a plain map from id to mapping. */
  function ApplyMap(byId: map<Uuid, Mapping>, op: ConfigOp): map<Uuid, Mapping> {
    match op
    case ReplaceAll(ms) => map id | id in (set m | m in ms :: m.mappingId) && FindById(ms, id).Some? :: FindById(ms, id).value
    case Upsert(m) => byId[m.mappingId := m]
    case Delete(id) => byId - {id}
    case SwitchTarget(id, target, _) => if id in byId then byId[id := byId[id].(serviceTarget := target)] else byId
  }

  /** The server sends distinct ids; a snapshot enumerates the buckets there are. */
  ghost predicate LegalOp(buckets: Buckets, op: ConfigOp) {
    match op
    case ReplaceAll(ms) => DistinctIds(ms)
    case SwitchTarget(_, _, order) => IsEnumeration(order, buckets.Keys)
    case _ => true
  }

  ghost predicate LegalRun(buckets: Buckets, ops: seq<ConfigOp>)
    decreases |ops|
  {
    ops == [] || (LegalOp(buckets, ops[0]) && LegalRun(ApplyOp(buckets, ops[0]), ops[1..]))
  }

  function RunOps(buckets: Buckets, ops: seq<ConfigOp>): Buckets
    decreases |ops|
  {
    if ops == [] then buckets else RunOps(ApplyOp(buckets, ops[0]), ops[1..])
  }

  function RunFlat(flat: seq<Mapping>, ops: seq<ConfigOp>): seq<Mapping>
    decreases |ops|
  {
    if ops == [] then flat else RunFlat(ApplyFlat(flat, ops[0]), ops[1..])
  }

  function RunMap(byId: map<Uuid, Mapping>, ops: seq<ConfigOp>): map<Uuid, Mapping>
    decreases |ops|
  {
    if ops == [] then byId else RunMap(ApplyMap(byId, ops[0]), ops[1..])
  }

  lemma FlatUpsertDistinct(flat: seq<Mapping>, m: Mapping)
    requires DistinctIds(flat)
    ensures DistinctIds(FlatUpsert(flat, m))
  {
    WithoutIdDistinct(flat, m.mappingId);
    var rest := WithoutId(flat, m.mappingId);
    forall i | 0 <= i < |rest| ensures rest[i].mappingId != m.mappingId {
      InWithoutId(flat, m.mappingId, rest[i]);
    }
  }

  lemma OpRefines(buckets: Buckets, flat: seq<Mapping>, op: ConfigOp)
    requires Refines(buckets, flat) && DistinctIds(flat) && LegalOp(buckets, op)
    ensures Refines(ApplyOp(buckets, op), ApplyFlat(flat, op)) && DistinctIds(ApplyFlat(flat, op))
  {
    match op
    case ReplaceAll(ms) =>
      GroupRefines(ms);
    case Upsert(m) =>
      UpsertRefines(buckets, flat, m);
      FlatUpsertDistinct(flat, m);
    case Delete(id) =>
      RemoveRefines(buckets, flat, id);
      WithoutIdDistinct(flat, id);
    case SwitchTarget(id, target, order) =>
      FindInSnapshot(buckets, flat, order, id);
      var found := FindById(flat, id);
      if found.Some? {
        UpsertRefines(buckets, flat, found.value.(serviceTarget := target));
        FlatUpsertDistinct(flat, found.value.(serviceTarget := target));
      }
  }

  /** The map holds exactly the list's mappings under their ids. */
  ghost predicate Indexes(byId: map<Uuid, Mapping>, flat: seq<Mapping>) {
    forall m :: m in flat <==> Lookup(byId, m.mappingId) == Some(m)
  }

  ghost predicate IdsAgree(byId: map<Uuid, Mapping>) {
    forall id :: id in byId ==> byId[id].mappingId == id
  }

  lemma UpsertIndexes(byId: map<Uuid, Mapping>, flat: seq<Mapping>, m: Mapping)
    requires Indexes(byId, flat) && IdsAgree(byId)
    ensures Indexes(byId[m.mappingId := m], FlatUpsert(flat, m)) && IdsAgree(byId[m.mappingId := m])
  {
    forall x ensures x in FlatUpsert(flat, m) <==> Lookup(byId[m.mappingId := m], x.mappingId) == Some(x) {
      InWithoutId(flat, m.mappingId, x);
    }
  }

  lemma OpIndexes(byId: map<Uuid, Mapping>, flat: seq<Mapping>, op: ConfigOp)
    requires Indexes(byId, flat) && IdsAgree(byId) && DistinctIds(flat)
    requires op.ReplaceAll? ==> DistinctIds(op.mappings)
    ensures Indexes(ApplyMap(byId, op), ApplyFlat(flat, op)) && IdsAgree(ApplyMap(byId, op))
  {
    match op
    case ReplaceAll(ms) =>
      forall m ensures m in ms <==> Lookup(ApplyMap(byId, op), m.mappingId) == Some(m) {
        if m in ms {
          FindByIdUnique(ms, m);
        }
      }
    case Upsert(m) =>
      UpsertIndexes(byId, flat, m);
    case Delete(id) =>
      forall x ensures x in WithoutId(flat, id) <==> Lookup(byId - {id}, x.mappingId) == Some(x) {
        InWithoutId(flat, id, x);
      }
    case SwitchTarget(id, target, _) =>
      if id in byId {
        FindByIdUnique(flat, byId[id]);
        UpsertIndexes(byId, flat, byId[id].(serviceTarget := target));
      } else {
        assert FindById(flat, id).None?;
      }
  }

  lemma {:induction false} RunRefines(buckets: Buckets, flat: seq<Mapping>, byId: map<Uuid, Mapping>, ops: seq<ConfigOp>)
    requires Refines(buckets, flat) && DistinctIds(flat) && Indexes(byId, flat) && IdsAgree(byId)
    requires LegalRun(buckets, ops)
    ensures Refines(RunOps(buckets, ops), RunFlat(flat, ops)) && DistinctIds(RunFlat(flat, ops))
    ensures Indexes(RunMap(byId, ops), RunFlat(flat, ops))
    decreases |ops|
  {
    if ops == [] {
    } else {
      hide Refines, DistinctIds, Indexes, IdsAgree, ApplyOp, ApplyFlat, ApplyMap;
      OpRefines(buckets, flat, ops[0]);
      OpIndexes(byId, flat, ops[0]);
      RunRefines(ApplyOp(buckets, ops[0]), ApplyFlat(flat, ops[0]), ApplyMap(byId, ops[0]), ops[1..]);
    }
  }

  /** The bucket index refines a map from id to mapping: after any sequence of full
      configurations, upserts, deletes and target switches, a mapping sits in the bucket of
      its own device, and in no other, exactly when the map holds it under its id; and no
      bucket holds two mappings with one id. */
  lemma IndexRefinesMap(ops: seq<ConfigOp>, m: Mapping, k: DeviceKey)
    requires LegalRun(map[], ops)
    ensures m in Bucket(RunOps(map[], ops), k) <==> m.device == k && Lookup(RunMap(map[], ops), m.mappingId) == Some(m)
    ensures DistinctIds(Bucket(RunOps(map[], ops), k))
  {
    RunRefines(map[], [], map[], ops);
    var buckets, flat := RunOps(map[], ops), RunFlat([], ops);
    assert Bucket(buckets, k) == OfDevice(flat, k);
    InOfDevice(flat, k, m);
    OfDeviceDistinct(flat, k);
  }

  lemma {:induction false} OfDeviceDistinct(ms: seq<Mapping>, k: DeviceKey)
    requires DistinctIds(ms)
    ensures DistinctIds(OfDevice(ms, k))
    decreases |ms|
  {
    if ms == [] {
    } else {
      var n := |ms| - 1;
      OfDeviceDistinct(ms[..n], k);
      var rest := OfDevice(ms[..n], k);
      forall i | 0 <= i < |rest| ensures rest[i].mappingId != ms[n].mappingId {
        InOfDevice(ms[..n], k, rest[i]);
        var j :| 0 <= j < n && ms[j] == rest[i];
      }
    }
  }
}
