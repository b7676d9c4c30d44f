/** State frames and the last-write fold. The edge's state pumps, the Roon source-side
    dedup and the iOS replay cache all promise something about the last value written
    under each key, so they share this vocabulary. */
module LastWrite {
  import opened Common

  /** The replay keys: service state by (service_type, target, property, output_id),
      device state by (device_type, device_id, property). */
  datatype StateKey =
    | ServiceKey(serviceType: string, target: string, property: string, outputId: Option<string>)
    | DeviceKey(deviceType: string, deviceId: string, deviceProperty: string)

  /** An outbound frame: a state write, or anything the replay caches ignore
      (Hello, Command, DispatchIntent, Error, Pong, ...). */
  datatype Frame =
    | StateFrame(key: StateKey, value: Json)
    | OtherFrame(id: nat)

  /** The value of the last write to `k` in `frames`, if there is one. */
  function LastOf(frames: seq<Frame>, k: StateKey): Option<Json> {
    if frames == [] then None
    else
      var f := frames[|frames| - 1];
      if f.StateFrame? && f.key == k then Some(f.value) else LastOf(frames[..|frames| - 1], k)
  }

  /** What a view shows under `k` once `frames` have been applied to it in order. */
  function Final(view: map<StateKey, Json>, frames: seq<Frame>, k: StateKey): Option<Json> {
    var l := LastOf(frames, k);
    if l.Some? then l else Lookup(view, k)
  }

  function ApplyFrame(view: map<StateKey, Json>, f: Frame): map<StateKey, Json> {
    if f.StateFrame? then view[f.key := f.value] else view
  }

  /** The view after every frame, one at a time. */
  function ApplyAll(view: map<StateKey, Json>, frames: seq<Frame>): map<StateKey, Json>
    decreases |frames|
  {
    if frames == [] then view else ApplyAll(ApplyFrame(view, frames[0]), frames[1..])
  }

  lemma {:induction false} LastOfConcat(a: seq<Frame>, b: seq<Frame>, k: StateKey)
    ensures LastOf(a + b, k) == if LastOf(b, k).Some? then LastOf(b, k) else LastOf(a, k)
    decreases |b|
  {
    if b == [] {
      assert a + b == a;
    } else {
      assert (a + b)[..|a + b| - 1] == a + b[..|b| - 1];
      LastOfConcat(a, b[..|b| - 1], k);
    }
  }

  predicate Writes(f: Frame, k: StateKey) {
    f.StateFrame? && f.key == k
  }

  /** The fold means what its name says: it is the value of a write to `k` with no later
      one, and it is absent exactly when nothing writes `k`. */
  lemma {:induction false} LastOfIsLast(frames: seq<Frame>, k: StateKey) returns (i: int)
    ensures -1 <= i < |frames|
    ensures i == -1 <==> LastOf(frames, k).None?
    ensures i >= 0 ==> Writes(frames[i], k) && LastOf(frames, k) == Some(frames[i].value)
    ensures forall j :: i < j < |frames| ==> !Writes(frames[j], k)
    decreases |frames|
  {
    if frames == [] {
      i := -1;
    } else {
      var n := |frames| - 1;
      if Writes(frames[n], k) {
        i := n;
      } else {
        i := LastOfIsLast(frames[..n], k);
        assert forall j :: 0 <= j < n ==> frames[j] == frames[..n][j];
      }
    }
  }

  lemma LastOfSingle(f: Frame, k: StateKey)
    ensures LastOf([f], k) == if f.StateFrame? && f.key == k then Some(f.value) else None
  {
    assert [f][..0] == [];
  }

  /** Delivering the first frame now or counting it among the frames still to come
      leads to the same final view. */
  lemma FinalDeliver(view: map<StateKey, Json>, f: Frame, rest: seq<Frame>, k: StateKey)
    ensures Final(view, [f] + rest, k) == Final(ApplyFrame(view, f), rest, k)
  {
    LastOfConcat([f], rest, k);
    LastOfSingle(f, k);
  }

  /** Applying the frames one by one shows what the fold says. */
  lemma {:induction false} ApplyAllIsFinal(view: map<StateKey, Json>, frames: seq<Frame>, k: StateKey)
    ensures Lookup(ApplyAll(view, frames), k) == Final(view, frames, k)
    decreases |frames|
  {
    if frames == [] {
    } else {
      assert frames == [frames[0]] + frames[1..];
      FinalDeliver(view, frames[0], frames[1..], k);
      ApplyAllIsFinal(ApplyFrame(view, frames[0]), frames[1..], k);
    }
  }

  /** Frames that do not write `k` can be inserted anywhere. */
  lemma FinalInsertOther(view: map<StateKey, Json>, a: seq<Frame>, f: Frame, b: seq<Frame>, k: StateKey)
    requires !(f.StateFrame? && f.key == k)
    ensures Final(view, a + [f] + b, k) == Final(view, a + b, k)
  {
    LastOfConcat(a + [f], b, k);
    LastOfConcat(a, [f], k);
    LastOfSingle(f, k);
    LastOfConcat(a, b, k);
  }

  /** The frames that replay `cache` in the given iteration order. */
  function Replay(cache: map<StateKey, Json>, order: seq<StateKey>): (frames: seq<Frame>)
    requires forall k :: k in order ==> k in cache
    ensures |frames| == |order|
    ensures forall i :: 0 <= i < |frames| ==> frames[i] == StateFrame(order[i], cache[order[i]])
  {
    seq(|order|, i requires 0 <= i < |order| => StateFrame(order[i], cache[order[i]]))
  }

  /** Whatever the iteration order, a full replay writes the cached value of every key
      and nothing else. */
  lemma ReplayRestores(cache: map<StateKey, Json>, order: seq<StateKey>, k: StateKey)
    requires IsEnumeration(order, cache.Keys)
    ensures LastOf(Replay(cache, order), k) == Lookup(cache, k)
  {
    var frames := Replay(cache, order);
    var i := LastOfIsLast(frames, k);
    if k in cache {
      var j :| 0 <= j < |order| && order[j] == k;
      assert Writes(frames[j], k);
    }
  }
}
