/** The Roon adapter's source-side dedup: a zone's properties are published only when they
    changed since the last publication. */
module SourceDedup {
  import opened Common
  import opened LastWrite

  const ROON := "roon"

  datatype Output = Output(outputId: string, volume: Option<Json>)

  datatype Zone = Zone(
    zoneId: string,
    displayName: string,
    state: Json,
    nowPlaying: Option<Json>,
    outputs: seq<Output>)

  datatype ZoneEvent =
    | Subscribed                         // pairing with a core starts a new zone subscription
    | Zones(zones: seq<Zone>)            // Initial, Added and Changed are handled alike
    | Seeked
    | Removed(zoneIds: seq<string>)

  function ZoneKey(target: string, property: string, outputId: Option<string>): StateKey {
    ServiceKey(ROON, target, property, outputId)
  }

  function VolumeUpdates(target: string, outputs: seq<Output>): seq<Frame> {
    if outputs == [] then []
    else
      var o := outputs[|outputs| - 1];
      VolumeUpdates(target, outputs[..|outputs| - 1])
      + (if o.volume.Some? then [StateFrame(ZoneKey(target, "volume", Some(o.outputId)), o.volume.value)] else [])
  }

  function ZoneSummary(z: Zone): Json {
    JObject(map["display_name" := JString(z.displayName), "state" := z.state])
  }

  function HeaderUpdates(z: Zone): seq<Frame> {
    [StateFrame(ZoneKey(z.zoneId, "zone", None), ZoneSummary(z)),
     StateFrame(ZoneKey(z.zoneId, "playback", None), z.state)]
    + (if z.nowPlaying.Some? then [StateFrame(ZoneKey(z.zoneId, "now_playing", None), z.nowPlaying.value)] else [])
  }

  /** Every update a zone report offers, in the order it offers them. */
  function ZoneUpdates(z: Zone): seq<Frame> {
    HeaderUpdates(z) + VolumeUpdates(z.zoneId, z.outputs)
  }

  function Offered(zones: seq<Zone>): seq<Frame> {
    if zones == [] then [] else Offered(zones[..|zones| - 1]) + ZoneUpdates(zones[|zones| - 1])
  }

  function OfferedBy(e: ZoneEvent): seq<Frame> {
    if e.Zones? then Offered(e.zones) else []
  }

  function OfferedByAll(events: seq<ZoneEvent>): seq<Frame> {
    if events == [] then [] else OfferedByAll(events[..|events| - 1]) + OfferedBy(events[|events| - 1])
  }

  /** What the dedup has sent so far, and the values it remembers. */
  datatype Dedup = Dedup(lastSent: map<StateKey, Json>, emitted: seq<Frame>)

  function Offer(d: Dedup, f: Frame): Dedup {
    if f.StateFrame? && Lookup(d.lastSent, f.key) != Some(f.value)
    then Dedup(d.lastSent[f.key := f.value], d.emitted + [f])
    else d
  }

  function OfferAll(d: Dedup, fs: seq<Frame>): Dedup {
    if fs == [] then d else Offer(OfferAll(d, fs[..|fs| - 1]), fs[|fs| - 1])
  }

  /** Forget what was sent for removed zones. */
  function Forget(lastSent: map<StateKey, Json>, zoneIds: seq<string>): map<StateKey, Json> {
    map k | k in lastSent && !(k.ServiceKey? && k.target in zoneIds) :: lastSent[k]
  }

  function Handle(d: Dedup, e: ZoneEvent): Dedup {
    match e
    case Subscribed => d.(lastSent := map[])
    case Zones(zones) => OfferAll(d, Offered(zones))
    case Seeked => d
    case Removed(ids) => d.(lastSent := Forget(d.lastSent, ids))
  }

  function HandleAll(d: Dedup, events: seq<ZoneEvent>): Dedup {
    if events == [] then d else Handle(HandleAll(d, events[..|events| - 1]), events[|events| - 1])
  }

  // ----- Where volume commands go -----

  /** The primary output of every zone reported with outputs, later reports winning. */
  function Recorded(outputs: map<string, string>, zones: seq<Zone>): map<string, string> {
    if zones == [] then outputs
    else
      var m, z := Recorded(outputs, zones[..|zones| - 1]), zones[|zones| - 1];
      if z.outputs == [] then m else m[z.zoneId := z.outputs[0].outputId]
  }

  function OutputsAfter(outputs: map<string, string>, e: ZoneEvent): map<string, string> {
    match e
    case Zones(zones) => Recorded(outputs, zones)
    case Removed(ids) => outputs - (set id | id in ids)
    case _ => outputs
  }

  function OutputsAll(events: seq<ZoneEvent>): map<string, string> {
    if events == [] then map[] else OutputsAfter(OutputsAll(events[..|events| - 1]), events[|events| - 1])
  }

  predicate ReportsOutput(e: ZoneEvent, zone: string, output: string) {
    && e.Zones?
    && exists i :: 0 <= i < |e.zones| && e.zones[i].zoneId == zone && e.zones[i].outputs != []
         && e.zones[i].outputs[0].outputId == output
  }

  predicate Mentions(e: ZoneEvent, zone: string) {
    || (e.Removed? && zone in e.zoneIds)
    || (e.Zones? && exists i :: 0 <= i < |e.zones| && e.zones[i].zoneId == zone && e.zones[i].outputs != [])
  }

  lemma {:induction false} RecordedIs(outputs: map<string, string>, zones: seq<Zone>, zone: string)
    ensures zone in Recorded(outputs, zones) ==>
              var o := Recorded(outputs, zones)[zone];
              ReportsOutput(Zones(zones), zone, o) || (!Mentions(Zones(zones), zone) && zone in outputs && outputs[zone] == o)
    ensures zone !in Recorded(outputs, zones) ==> !Mentions(Zones(zones), zone) && zone !in outputs
    decreases |zones|
  {
    if zones == [] {
    } else {
      var init, z := zones[..|zones| - 1], zones[|zones| - 1];
      RecordedIs(outputs, init, zone);
      assert zones == init + [z];
      assert zones[|init|] == z;
      MentionsSnoc(init, z, zone);
      if zone in Recorded(outputs, init) {
        ReportsSnoc(init, z, zone, Recorded(outputs, init)[zone]);
      }
    }
  }

  lemma MentionsSnoc(init: seq<Zone>, z: Zone, zone: string)
    ensures Mentions(Zones(init + [z]), zone) <==> Mentions(Zones(init), zone) || (z.zoneId == zone && z.outputs != [])
  {
    var all := init + [z];
    assert all[|init|] == z && forall i :: 0 <= i < |init| ==> all[i] == init[i];
  }

  lemma ReportsSnoc(init: seq<Zone>, z: Zone, zone: string, output: string)
    ensures ReportsOutput(Zones(init), zone, output) ==> ReportsOutput(Zones(init + [z]), zone, output)
  {
    var all := init + [z];
    assert forall i :: 0 <= i < |init| ==> all[i] == init[i];
  }

  /** Volume commands for a zone go to a primary output the zone was last reported with, and
      only while it has not been removed since, over every sequence of events. */
  lemma {:induction false} OutputIsLastReported(events: seq<ZoneEvent>, zone: string) returns (n: int)
    ensures -1 <= n < |events| && forall i :: n < i < |events| ==> !Mentions(events[i], zone)
    ensures zone in OutputsAll(events) ==> n >= 0 && ReportsOutput(events[n], zone, OutputsAll(events)[zone])
    ensures zone !in OutputsAll(events) ==> n == -1 || (events[n].Removed? && zone in events[n].zoneIds)
    decreases |events|
  {
    if events == [] {
      n := -1;
    } else {
      hide Mentions, ReportsOutput, Recorded;
      var init, e := events[..|events| - 1], events[|events| - 1];
      n := OutputIsLastReported(init, zone);
      assert forall i :: 0 <= i < |init| ==> init[i] == events[i];
      EventMentions(OutputsAll(init), e, zone);
      if Mentions(e, zone) {
        n := |events| - 1;
      }
    }
  }

  lemma EventMentions(outputs: map<string, string>, e: ZoneEvent, zone: string)
    ensures !Mentions(e, zone) ==> Lookup(OutputsAfter(outputs, e), zone) == Lookup(outputs, zone)
    ensures Mentions(e, zone) && zone in OutputsAfter(outputs, e) ==> ReportsOutput(e, zone, OutputsAfter(outputs, e)[zone])
    ensures Mentions(e, zone) && zone !in OutputsAfter(outputs, e) ==> e.Removed? && zone in e.zoneIds
  {
    if e.Zones? {
      hide Recorded;
      RecordedIs(outputs, e.zones, zone);
    }
  }

  // ----- The adapter's loop -----

  class ZonePublisher {
    var lastSent: map<StateKey, Json>
    var emitted: seq<Frame>
    var zoneToOutput: map<string, string>

    constructor ()
      ensures State() == Dedup(map[], []) && zoneToOutput == map[]
    {
      lastSent, emitted, zoneToOutput := map[], [], map[];
    }

    function State(): Dedup
      reads this
    {
      Dedup(lastSent, emitted)
    }

    method SendIfChanged(key: StateKey, value: Json)
      modifies this
      ensures State() == Offer(old(State()), StateFrame(key, value)) && zoneToOutput == old(zoneToOutput)
    {
      if key in lastSent && lastSent[key] == value {
        return;
      }
      lastSent := lastSent[key := value];
      emitted := emitted + [StateFrame(key, value)];
    }

    method PublishHeader(zone: Zone)
      modifies this
      ensures State() == OfferAll(old(State()), HeaderUpdates(zone)) && zoneToOutput == old(zoneToOutput)
    {
      hide Offer;
      ghost var start, updates := State(), HeaderUpdates(zone);
      assert updates[..0] == [];
      SendIfChanged(ZoneKey(zone.zoneId, "zone", None), ZoneSummary(zone));
      OfferNext(start, updates, 0);
      SendIfChanged(ZoneKey(zone.zoneId, "playback", None), zone.state);
      OfferNext(start, updates, 1);
      if zone.nowPlaying.Some? {
        SendIfChanged(ZoneKey(zone.zoneId, "now_playing", None), zone.nowPlaying.value);
        OfferNext(start, updates, 2);
        assert updates[..3] == updates;
      } else {
        assert updates[..2] == updates;
      }
    }

    method PublishVolumes(target: string, outputs: seq<Output>)
      modifies this
      ensures State() == OfferAll(old(State()), VolumeUpdates(target, outputs)) && zoneToOutput == old(zoneToOutput)
    {
      hide Offer;
      for i := 0 to |outputs|
        invariant State() == OfferAll(old(State()), VolumeUpdates(target, outputs[..i]))
        invariant zoneToOutput == old(zoneToOutput)
      {
        ghost var before := VolumeUpdates(target, outputs[..i]);
        assert outputs[..i + 1][..i] == outputs[..i];
        if outputs[i].volume.Some? {
          var key := ZoneKey(target, "volume", Some(outputs[i].outputId));
          SendIfChanged(key, outputs[i].volume.value);
          OfferAllSnoc(old(State()), before, StateFrame(key, outputs[i].volume.value));
        } else {
          assert before + [] == before;
        }
      }
      assert outputs[..|outputs|] == outputs;
    }

    method PublishZone(zone: Zone)
      modifies this
      ensures State() == OfferAll(old(State()), ZoneUpdates(zone)) && zoneToOutput == old(zoneToOutput)
    {
      hide OfferAll, HeaderUpdates, VolumeUpdates;
      ghost var start := State();
      PublishHeader(zone);
      PublishVolumes(zone.zoneId, zone.outputs);
      OfferAllConcat(start, HeaderUpdates(zone), VolumeUpdates(zone.zoneId, zone.outputs));
    }

    method RecordOutputs(zones: seq<Zone>)
      modifies this`zoneToOutput
      ensures zoneToOutput == Recorded(old(zoneToOutput), zones)
    {
      for i := 0 to |zones|
        invariant zoneToOutput == Recorded(old(zoneToOutput), zones[..i])
      {
        assert zones[..i + 1][..i] == zones[..i];
        if zones[i].outputs != [] {
          zoneToOutput := zoneToOutput[zones[i].zoneId := zones[i].outputs[0].outputId];
        }
      }
      assert zones[..|zones|] == zones;
    }

    method ForgetOutputs(ids: seq<string>)
      modifies this`zoneToOutput
      ensures zoneToOutput == old(zoneToOutput) - (set id | id in ids)
    {
      for i := 0 to |ids|
        invariant zoneToOutput == old(zoneToOutput) - (set id | id in ids[..i])
      {
        assert ids[..i + 1] == ids[..i] + [ids[i]];
        zoneToOutput := zoneToOutput - {ids[i]};
      }
      assert ids[..|ids|] == ids;
    }

    method HandleEvent(event: ZoneEvent)
      modifies this
      ensures State() == Handle(old(State()), event)
      ensures zoneToOutput == OutputsAfter(old(zoneToOutput), event)
    {
      match event {
        case Subscribed =>
          lastSent := map[];
        case Zones(zones) =>
          RecordOutputs(zones);
          for i := 0 to |zones|
            invariant State() == OfferAll(old(State()), Offered(zones[..i]))
            invariant zoneToOutput == Recorded(old(zoneToOutput), zones)
          {
            PublishZone(zones[i]);
            OfferAllConcat(old(State()), Offered(zones[..i]), ZoneUpdates(zones[i]));
            assert zones[..i + 1][..i] == zones[..i];
          }
          assert zones[..|zones|] == zones;
        case Seeked =>
        case Removed(ids) =>
          ForgetOutputs(ids);
          lastSent := Forget(lastSent, ids);
      }
    }
  }

  lemma OfferNext(d: Dedup, fs: seq<Frame>, n: nat)
    requires n < |fs|
    ensures OfferAll(d, fs[..n + 1]) == Offer(OfferAll(d, fs[..n]), fs[n])
  {
    assert fs[..n + 1][..n] == fs[..n];
  }

  lemma OfferAllSnoc(d: Dedup, fs: seq<Frame>, f: Frame)
    ensures OfferAll(d, fs + [f]) == Offer(OfferAll(d, fs), f)
  {
    assert (fs + [f])[..|fs|] == fs;
  }

  lemma {:induction false} OfferAllConcat(d: Dedup, a: seq<Frame>, b: seq<Frame>)
    ensures OfferAll(d, a + b) == OfferAll(OfferAll(d, a), b)
    decreases |b|
  {
    if b == [] {
      assert a + b == a;
    } else {
      var n := |b| - 1;
      OfferAllConcat(d, a, b[..n]);
      assert (a + b)[..|a + b| - 1] == a + b[..n];
    }
  }

  // ----- What dedup preserves -----

  /** The emitted updates fold to what the offered ones fold to, and what is remembered is
      what was last emitted. */
  ghost predicate Faithful(d: Dedup, offered: seq<Frame>) {
    && (forall k :: LastOf(d.emitted, k) == LastOf(offered, k))
    && (forall k :: k in d.lastSent ==> LastOf(d.emitted, k) == Some(d.lastSent[k]))
  }

  lemma OfferFaithful(d: Dedup, offered: seq<Frame>, f: Frame)
    requires Faithful(d, offered)
    ensures Faithful(Offer(d, f), offered + [f])
  {
    forall k ensures LastOf(Offer(d, f).emitted, k) == LastOf(offered + [f], k)
             ensures k in Offer(d, f).lastSent ==> LastOf(Offer(d, f).emitted, k) == Some(Offer(d, f).lastSent[k])
    {
      LastOfConcat(offered, [f], k);
      LastOfConcat(d.emitted, [f], k);
      LastOfSingle(f, k);
    }
  }

  lemma {:induction false} OfferAllFaithful(d: Dedup, offered: seq<Frame>, fs: seq<Frame>)
    requires Faithful(d, offered)
    ensures Faithful(OfferAll(d, fs), offered + fs)
    decreases |fs|
  {
    if fs == [] {
      assert offered + fs == offered;
    } else {
      var n := |fs| - 1;
      OfferAllFaithful(d, offered, fs[..n]);
      OfferFaithful(OfferAll(d, fs[..n]), offered + fs[..n], fs[n]);
      assert offered + fs == offered + fs[..n] + [fs[n]];
    }
  }

  /** Dedup loses nothing: over any sequence of zone events, removals and new
      subscriptions included, a subscriber
      that folds the emitted updates knows what one that saw every offered update would know. */
  lemma {:induction false} DedupLosesNothing(events: seq<ZoneEvent>)
    ensures Faithful(HandleAll(Dedup(map[], []), events), OfferedByAll(events))
    decreases |events|
  {
    if events == [] {
    } else {
      var n := |events| - 1;
      var d := HandleAll(Dedup(map[], []), events[..n]);
      DedupLosesNothing(events[..n]);
      if events[n].Zones? {
        OfferAllFaithful(d, OfferedByAll(events[..n]), Offered(events[n].zones));
      } else {
        assert OfferedByAll(events) == OfferedByAll(events[..n]);
      }
    }
  }

  /** The event offers nothing but `v` for `k`, and forgets nothing about it. */
  ghost predicate Repeats(e: ZoneEvent, k: StateKey, v: Json) {
    && !e.Subscribed?
    && (e.Removed? && k.ServiceKey? ==> k.target !in e.zoneIds)
    && RepeatsIn(OfferedBy(e), k, v)
  }

  ghost predicate RepeatsIn(fs: seq<Frame>, k: StateKey, v: Json) {
    forall i :: 0 <= i < |fs| && Writes(fs[i], k) ==> fs[i].value == v
  }

  /** `more` goes on from `emitted` without writing `k`. */
  ghost predicate SilentSince(emitted: seq<Frame>, more: seq<Frame>, k: StateKey) {
    emitted <= more && forall i :: |emitted| <= i < |more| ==> !Writes(more[i], k)
  }

  lemma {:induction false} OfferAllSilent(d: Dedup, fs: seq<Frame>, k: StateKey, v: Json)
    requires Lookup(d.lastSent, k) == Some(v) && RepeatsIn(fs, k, v)
    ensures Lookup(OfferAll(d, fs).lastSent, k) == Some(v) && SilentSince(d.emitted, OfferAll(d, fs).emitted, k)
    decreases |fs|
  {
    if fs == [] {
    } else {
      var init, f := fs[..|fs| - 1], fs[|fs| - 1];
      assert forall i :: 0 <= i < |init| ==> init[i] == fs[i];
      OfferAllSilent(d, init, k, v);
      hide OfferAll, RepeatsIn;
      assert Writes(f, k) ==> f.value == v by {
        if Writes(f, k) {
          RepeatsAt(fs, |fs| - 1, k, v);
        }
      }
    }
  }

  lemma RepeatsAt(fs: seq<Frame>, i: nat, k: StateKey, v: Json)
    requires RepeatsIn(fs, k, v) && i < |fs| && Writes(fs[i], k)
    ensures fs[i].value == v
  {
  }

  /** What was sent is not sent again: from the moment the dedup remembers `v` for `k`, and for
      as long as the zone reports nothing else there, nothing is emitted for `k`, however often
      it is reported. */
  lemma {:induction false} RepeatsAreSilent(d: Dedup, events: seq<ZoneEvent>, k: StateKey, v: Json)
    requires Lookup(d.lastSent, k) == Some(v) && forall e :: e in events ==> Repeats(e, k, v)
    ensures Lookup(HandleAll(d, events).lastSent, k) == Some(v)
    ensures SilentSince(d.emitted, HandleAll(d, events).emitted, k)
    decreases |events|
  {
    if events == [] {
    } else {
      var init, e := events[..|events| - 1], events[|events| - 1];
      assert e in events && forall x :: x in init ==> x in events;
      RepeatsAreSilent(d, init, k, v);
      var d1 := HandleAll(d, init);
      hide HandleAll, RepeatsIn;
      if e.Zones? {
        OfferAllSilent(d1, Offered(e.zones), k, v);
        hide OfferAll;
        assert HandleAll(d, events) == OfferAll(d1, Offered(e.zones)) by {
          HandleLast(d, events);
        }
      } else {
        HandleLast(d, events);
      }
    }
  }

  lemma HandleLast(d: Dedup, events: seq<ZoneEvent>)
    requires events != []
    ensures HandleAll(d, events) == Handle(HandleAll(d, events[..|events| - 1]), events[|events| - 1])
  {
  }

  lemma {:induction false} HandleConcat(d: Dedup, a: seq<ZoneEvent>, b: seq<ZoneEvent>)
    ensures HandleAll(d, a + b) == HandleAll(HandleAll(d, a), b)
    decreases |b|
  {
    if b == [] {
      assert a + b == a;
    } else {
      assert (a + b)[..|a + b| - 1] == a + b[..|b| - 1];
      HandleConcat(d, a, b[..|b| - 1]);
      hide Handle;
    }
  }

  /** The last value written to `k` before position `i`. */
  function Previous(fs: seq<Frame>, i: nat, k: StateKey): Option<Json>
    requires i <= |fs|
  {
    LastOf(fs[..i], k)
  }

  /** No key of target `t` is sent the value it was last sent. */
  ghost predicate NoRepeats(fs: seq<Frame>, t: string) {
    forall i :: 0 <= i < |fs| && fs[i].StateFrame? && fs[i].key.ServiceKey? && fs[i].key.target == t ==>
      Previous(fs, i, fs[i].key) != Some(fs[i].value)
  }

  /** What is remembered for target `t` is everything emitted for it since position `from`. */
  ghost predicate Remembers(d: Dedup, from: nat, t: string)
    requires from <= |d.emitted|
  {
    forall k: StateKey :: k.ServiceKey? && k.target == t && LastOf(d.emitted[from..], k).Some? ==>
      Lookup(d.lastSent, k) == LastOf(d.emitted[from..], k)
  }

  lemma OfferNoRepeat(d: Dedup, from: nat, t: string, f: Frame)
    requires from <= |d.emitted| && Remembers(d, from, t) && NoRepeats(d.emitted[from..], t)
    ensures from <= |Offer(d, f).emitted|
    ensures Remembers(Offer(d, f), from, t) && NoRepeats(Offer(d, f).emitted[from..], t)
  {
    var d' := Offer(d, f);
    if d' != d {
      var before, after := d.emitted[from..], d'.emitted[from..];
      assert after == before + [f];
      forall k: StateKey | k.ServiceKey? && k.target == t && LastOf(after, k).Some?
        ensures Lookup(d'.lastSent, k) == LastOf(after, k)
      {
        LastOfConcat(before, [f], k);
        LastOfSingle(f, k);
      }
      forall i | 0 <= i < |after| && after[i].StateFrame? && after[i].key.ServiceKey? && after[i].key.target == t
        ensures Previous(after, i, after[i].key) != Some(after[i].value)
      {
        if i < |before| {
          assert after[..i] == before[..i] && after[i] == before[i];
        } else {
          assert after[..i] == before;
        }
      }
    }
  }

  lemma {:induction false} OfferAllNoRepeat(d: Dedup, from: nat, t: string, fs: seq<Frame>)
    requires from <= |d.emitted| && Remembers(d, from, t) && NoRepeats(d.emitted[from..], t)
    ensures from <= |OfferAll(d, fs).emitted|
    ensures Remembers(OfferAll(d, fs), from, t) && NoRepeats(OfferAll(d, fs).emitted[from..], t)
    decreases |fs|
  {
    if fs == [] {
    } else {
      var n := |fs| - 1;
      OfferAllNoRepeat(d, from, t, fs[..n]);
      OfferNoRepeat(OfferAll(d, fs[..n]), from, t, fs[n]);
    }
  }

  /** Within a subscription and between two removals of a target, no key of it is sent the same
      value twice in a row. */
  lemma {:induction false} NoRepeatsBetweenRemovals(d: Dedup, t: string, events: seq<ZoneEvent>)
    requires forall e :: e in events ==> !e.Subscribed? && (e.Removed? ==> t !in e.zoneIds)
    ensures |d.emitted| <= |HandleAll(d, events).emitted|
    ensures NoRepeats(HandleAll(d, events).emitted[|d.emitted|..], t)
    ensures Remembers(HandleAll(d, events), |d.emitted|, t)
    decreases |events|
  {
    var from := |d.emitted|;
    if events == [] {
      assert d.emitted[from..] == [];
    } else {
      var n := |events| - 1;
      forall e | e in events[..n] ensures !e.Subscribed? && (e.Removed? ==> t !in e.zoneIds) {
        assert e in events;
      }
      NoRepeatsBetweenRemovals(d, t, events[..n]);
      var d1 := HandleAll(d, events[..n]);
      assert events[n] in events;
      if events[n].Zones? {
        OfferAllNoRepeat(d1, from, t, Offered(events[n].zones));
      }
    }
  }

  /** A key of which nothing is remembered gets all it is offered. */
  lemma {:induction false} FreshKeyIsSent(d: Dedup, fs: seq<Frame>, k: StateKey)
    requires k !in d.lastSent
    ensures d.emitted <= OfferAll(d, fs).emitted
    ensures LastOf(OfferAll(d, fs).emitted[|d.emitted|..], k) == LastOf(fs, k) == Lookup(OfferAll(d, fs).lastSent, k)
    decreases |fs|
  {
    var from := |d.emitted|;
    if fs == [] {
      assert d.emitted[from..] == [];
    } else {
      var init, f := fs[..|fs| - 1], fs[|fs| - 1];
      FreshKeyIsSent(d, init, k);
      var d1 := OfferAll(d, init);
      var d2 := Offer(d1, f);
      assert OfferAll(d, fs) == d2;
      if d2 != d1 {
        assert d2.emitted[from..] == d1.emitted[from..] + [f];
        LastOfConcat(d1.emitted[from..], [f], k);
        LastOfSingle(f, k);
      }
    }
  }

  /** After a new subscription, and for a removed zone that comes back, the next report is sent
      whatever was sent before. */
  lemma FirstReportIsSent(d: Dedup, e: ZoneEvent, zones: seq<Zone>, k: StateKey)
    requires e.Subscribed? || (e.Removed? && k.ServiceKey? && k.target in e.zoneIds)
    ensures var sent := HandleAll(d, [e, Zones(zones)]).emitted;
            d.emitted <= sent && LastOf(sent[|d.emitted|..], k) == LastOf(Offered(zones), k)
  {
    hide OfferAll, Offered, LastOf;
    assert [e, Zones(zones)][..1] == [e] && [e][..0] == [];
    assert HandleAll(d, [e]) == Handle(HandleAll(d, []), e);
    var d1 := Handle(d, e);
    FreshKeyIsSent(d1, Offered(zones), k);
  }

  // ----- What a zone report says -----

  /** The volume of an output in a report: the last one listed with a volume. */
  function VolumeIn(outputs: seq<Output>, id: string): Option<Json> {
    if outputs == [] then None
    else
      var o := outputs[|outputs| - 1];
      if o.outputId == id && o.volume.Some? then o.volume else VolumeIn(outputs[..|outputs| - 1], id)
  }

  /** The value a report of the zone gives a key, if any. */
  function Reported(z: Zone, k: StateKey): Option<Json> {
    if !k.ServiceKey? || k.serviceType != "roon" || k.target != z.zoneId then None
    else if k.property == "volume" then
      (if k.outputId.Some? then VolumeIn(z.outputs, k.outputId.value) else None)
    else if k.outputId.Some? then None
    else if k.property == "zone" then Some(JObject(map["display_name" := JString(z.displayName), "state" := z.state]))
    else if k.property == "playback" then Some(z.state)
    else if k.property == "now_playing" then z.nowPlaying
    else None
  }

  lemma {:induction false} VolumesReported(target: string, outputs: seq<Output>, k: StateKey)
    ensures LastOf(VolumeUpdates(target, outputs), k) ==
            if k.ServiceKey? && k.serviceType == "roon" && k.target == target && k.property == "volume" && k.outputId.Some?
            then VolumeIn(outputs, k.outputId.value) else None
    decreases |outputs|
  {
    if outputs == [] {
    } else {
      var init, o := outputs[..|outputs| - 1], outputs[|outputs| - 1];
      VolumesReported(target, init, k);
      var before := VolumeUpdates(target, init);
      if o.volume.Some? {
        var f := StateFrame(ZoneKey(target, "volume", Some(o.outputId)), o.volume.value);
        LastOfConcat(before, [f], k);
        LastOfSingle(f, k);
      } else {
        assert before + [] == before;
      }
    }
  }

  lemma PropertiesDiffer()
    ensures "zone" != "playback" && "zone" != "now_playing" && "playback" != "now_playing"
    ensures "volume" != "zone" && "volume" != "playback" && "volume" != "now_playing"
  {
    assert "zone"[0] == 'z' && "playback"[0] == 'p' && "now_playing"[0] == 'n' && "volume"[0] == 'v';
  }

  lemma HeaderReported(z: Zone, k: StateKey)
    ensures LastOf(HeaderUpdates(z), k) ==
            if k == ServiceKey("roon", z.zoneId, "zone", None)
            then Some(JObject(map["display_name" := JString(z.displayName), "state" := z.state]))
            else if k == ServiceKey("roon", z.zoneId, "playback", None) then Some(z.state)
            else if k == ServiceKey("roon", z.zoneId, "now_playing", None) then z.nowPlaying
            else None
  {
    hide LastOf;
    PropertiesDiffer();
    var a := StateFrame(ZoneKey(z.zoneId, "zone", None), ZoneSummary(z));
    var b := StateFrame(ZoneKey(z.zoneId, "playback", None), z.state);
    LastOfSingle(a, k);
    LastOfSingle(b, k);
    LastOfConcat([a], [b], k);
    assert [a, b] == [a] + [b];
    if z.nowPlaying.Some? {
      var c := StateFrame(ZoneKey(z.zoneId, "now_playing", None), z.nowPlaying.value);
      LastOfSingle(c, k);
      LastOfConcat([a, b], [c], k);
    } else {
      assert [a, b] + [] == [a, b];
    }
  }

  /** A zone report offers exactly its summary, its playback state, what is playing if anything
      is, and the volume of every output that has one, each under its own key. */
  lemma ReportedExactly(z: Zone, k: StateKey)
    ensures LastOf(ZoneUpdates(z), k) == Reported(z, k)
  {
    hide LastOf, HeaderUpdates, VolumeUpdates, ZoneSummary;
    PropertiesDiffer();
    HeaderReported(z, k);
    VolumesReported(z.zoneId, z.outputs, k);
    LastOfConcat(HeaderUpdates(z), VolumeUpdates(z.zoneId, z.outputs), k);
  }

  /** The event reports a value for the key: the one of the last zone in it that does. */
  ghost predicate Reports(e: ZoneEvent, k: StateKey, v: Json) {
    && e.Zones?
    && exists i :: 0 <= i < |e.zones| && Reported(e.zones[i], k) == Some(v) && forall n :: i < n < |e.zones| ==> Reported(e.zones[n], k).None?
  }

  lemma {:induction false} OfferedExactly(zones: seq<Zone>, k: StateKey) returns (i: int)
    ensures -1 <= i < |zones| && forall n :: i < n < |zones| ==> Reported(zones[n], k).None?
    ensures i == -1 ==> LastOf(Offered(zones), k).None?
    ensures i >= 0 ==> Reported(zones[i], k).Some? && LastOf(Offered(zones), k) == Reported(zones[i], k)
    decreases |zones|
  {
    hide LastOf, Reported, ZoneUpdates;
    if zones == [] {
      i := -1;
      assert LastOf([], k).None? by {
        NothingWritten(k);
      }
    } else {
      var init, z := zones[..|zones| - 1], zones[|zones| - 1];
      i := OfferedExactly(init, k);
      assert forall n :: 0 <= n < |init| ==> init[n] == zones[n];
      ReportedExactly(z, k);
      LastOfConcat(Offered(init), ZoneUpdates(z), k);
      if Reported(z, k).Some? {
        i := |zones| - 1;
      }
    }
  }

  lemma NothingWritten(k: StateKey)
    ensures LastOf([], k).None?
  {
  }

  lemma ReportsExactly(e: ZoneEvent, k: StateKey, v: Json)
    ensures LastOf(OfferedBy(e), k) == Some(v) <==> Reports(e, k, v)
  {
    hide Reported, LastOf;
    NothingWritten(k);
    if e.Zones? {
      var i := OfferedExactly(e.zones, k);
      if Reports(e, k, v) {
        var j :| 0 <= j < |e.zones| && Reported(e.zones[j], k) == Some(v) && forall n :: j < n < |e.zones| ==> Reported(e.zones[n], k).None?;
        assert i == j;
      }
    }
  }

  /** What the updates of a run come to: under each key the value reported last, in the terms of
      the zone reports themselves. */
  lemma {:induction false} LatestIsReported(events: seq<ZoneEvent>, k: StateKey) returns (n: int)
    ensures -1 <= n < |events| && forall i, v :: n < i < |events| ==> !Reports(events[i], k, v)
    ensures n == -1 ==> LastOf(OfferedByAll(events), k).None?
    ensures n >= 0 ==> exists v :: Reports(events[n], k, v) && LastOf(OfferedByAll(events), k) == Some(v)
    decreases |events|
  {
    hide LastOf, Reports, OfferedBy;
    if events == [] {
      n := -1;
      NothingWritten(k);
    } else {
      var init, e := events[..|events| - 1], events[|events| - 1];
      n := LatestIsReported(init, k);
      assert forall i :: 0 <= i < |init| ==> init[i] == events[i];
      LastOfConcat(OfferedByAll(init), OfferedBy(e), k);
      var last := LastOf(OfferedBy(e), k);
      if last.Some? {
        ReportsExactly(e, k, last.value);
        n := |events| - 1;
      } else {
        forall v ensures !Reports(e, k, v) {
          ReportsExactly(e, k, v);
        }
      }
    }
  }
}
