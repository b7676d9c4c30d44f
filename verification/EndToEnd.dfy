/** From the Roon adapter's zone events to the server's view: the source-side dedup, the
    broadcast, the state pump, the outbox and the sessions taken together.

    While no session is up the outbox fills and the pump waits for room; the broadcast goes on
    and may leave the pump behind. Neither the dedup nor the replay on reconnect brings back
    what the pump has missed. */
module EndToEnd {
  import opened Common
  import opened LastWrite
  import SourceDedup
  import opened Broadcast
  import opened Resync

  const NOTHING_SENT := SourceDedup.Dedup(map[], [])

  /** What the dedup has let through. */
  function Emitted(events: seq<SourceDedup.ZoneEvent>): seq<Frame> {
    SourceDedup.HandleAll(NOTHING_SENT, events).emitted
  }

  /** The channel carried what the adapter emitted, and the pump received what it could. */
  ghost predicate Received(s: World, events: seq<SourceDedup.ZoneEvent>, c: Channel) {
    Reachable(c) && CaughtUp(c) && c.sent == Emitted(events) && s.received == c.received
  }

  lemma ReceivedKept(s: World, events: seq<SourceDedup.ZoneEvent>, c: Channel)
    requires Received(s, events, c)
    ensures s.received == Kept(Emitted(events), c.missed)
  {
    ReachableInv(c);
    assert c.sent[..c.next] == c.sent;
  }

  /** Whatever the adapter suppressed, whatever the sessions lost, however often the server
      restarted and however far the pump fell behind: when the system is quiet, the server
      shows the latest value the zones reported, under every key with an update among the
      newest that the channel keeps, and under every other whose last update the pump read
      in time. */
  lemma ServerShowsLatestZones(s: World, es: seq<Resync.Event>, events: seq<SourceDedup.ZoneEvent>, c: Channel)
    requires Initial(s) && Resync.CanRun(s, es)
    requires Quiet(Resync.RunAll(s, es)) && Received(Resync.RunAll(s, es), events, c)
    ensures var offered, view := SourceDedup.OfferedByAll(events), Resync.RunAll(s, es).view;
            && (forall k :: InReach(c.sent, c.start.value, k) ==> LastOf(offered, k).Some? && Lookup(view, k) == LastOf(offered, k))
            && (forall k :: LastOf(offered, k).Some? && LastKept(c.sent, c.missed, k) ==> Lookup(view, k) == LastOf(offered, k))
  {
    hide LastKept, InReach, Reachable, Quiet;
    Convergence(s, es);
    SourceDedup.DedupLosesNothing(events);
    ReceivedKept(Resync.RunAll(s, es), events, c);
    forall k | LastKept(c.sent, c.missed, k) ensures LastOf(Kept(c.sent, c.missed), k) == LastOf(c.sent, k) {
      KeptFold(c.sent, c.missed, k);
    }
    forall k | InReach(c.sent, c.start.value, k) ensures LastKept(c.sent, c.missed, k) && LastOf(c.sent, k).Some? {
      ReachIsKept(c, k);
      InReachWritten(c.sent, c.start.value, k);
    }
  }

  lemma InReachWritten(fs: seq<Frame>, start: nat, k: StateKey)
    requires InReach(fs, start, k)
    ensures LastOf(fs, k).Some?
  {
    var i := LastOfIsLast(fs, k);
  }

  /** With a session up that state is always within reach, and nothing but the system's own
      steps is needed to get there. */
  lemma ServerWillShowLatestZones(s: World, es: seq<Resync.Event>, events: seq<SourceDedup.ZoneEvent>, c: Channel) returns (rest: seq<Resync.Event>)
    requires Initial(s) && Resync.CanRun(s, es) && Resync.RunAll(s, es).up && Received(Resync.RunAll(s, es), events, c)
    ensures (forall e :: e in rest ==> Internal(e)) && Resync.CanRun(Resync.RunAll(s, es), rest)
    ensures var offered, view := SourceDedup.OfferedByAll(events), Resync.RunAll(Resync.RunAll(s, es), rest).view;
            && (forall k :: InReach(c.sent, c.start.value, k) ==> LastOf(offered, k).Some? && Lookup(view, k) == LastOf(offered, k))
            && (forall k :: LastOf(offered, k).Some? && LastKept(c.sent, c.missed, k) ==> Lookup(view, k) == LastOf(offered, k))
  {
    InitialInv(s);
    Resync.RunKeepsInv(s, es);
    rest := CanConverge(Resync.RunAll(s, es));
    Resync.RunConcatenation(s, es, rest);
    ServerShowsLatestZones(s, es + rest, events, c);
  }

  // ----- What the server can be relied on to show -----

  /** After every run of channel, pump, outbox and sessions in which the pump subscribed after
      `start` updates, a quiet server shows the latest value reported for `k`. */
  ghost predicate Reliable(events: seq<SourceDedup.ZoneEvent>, start: nat, k: StateKey) {
    forall s: World, es: seq<Resync.Event>, c: Channel ::
      Initial(s) && Resync.CanRun(s, es) && Quiet(Resync.RunAll(s, es))
      && Received(Resync.RunAll(s, es), events, c) && c.start == Some(start) ==>
        Lookup(Resync.RunAll(s, es).view, k) == LastOf(SourceDedup.OfferedByAll(events), k)
  }

  /** Any updates that the channel can lose to the pump are lost in some run of the system. */
  lemma RunMissing(events: seq<SourceDedup.ZoneEvent>, start: nat, missed: set<nat>, view: map<StateKey, Json>)
    returns (s: World, es: seq<Resync.Event>, c: Channel)
    requires CanMiss(|Emitted(events)|, start, missed)
    ensures Initial(s) && Resync.CanRun(s, es) && Quiet(Resync.RunAll(s, es))
    ensures Received(Resync.RunAll(s, es), events, c) && c.start == Some(start) && c.missed == missed
    ensures Resync.RunAll(s, es).view == ApplyAll(view, Kept(Emitted(events), missed))
  {
    hide CanMiss, Emitted, Reachable, AllOwned;
    c := CanBeMissed(Emitted(events), start, missed);
    s := World(ServicePump(SourceDedup.ROON), map[], [], [], [], 1, [], 1, true, [], view);
    var fs := Kept(Emitted(events), missed);
    EmittedOwned(events);
    KeptOwned(Emitted(events), missed);
    es := CanReceive(s, fs);
    assert s.received + fs == fs;
    ReceivedOf(c);
  }

  lemma ReceivedOf(c: Channel)
    requires Reachable(c) && CaughtUp(c)
    ensures c.received == Kept(c.sent, c.missed)
  {
    ReachableInv(c);
    assert c.sent[..c.next] == c.sent;
  }

  /** Exactly: a quiet server can be relied on to show the latest value reported for a key if
      and only if one of the newest updates that the channel keeps writes the key, sent after
      the pump subscribed. */
  lemma ServerShowsLatestExactly(events: seq<SourceDedup.ZoneEvent>, start: nat, k: StateKey)
    requires start <= |Emitted(events)|
    ensures Reliable(events, start, k) <==> InReach(Emitted(events), start, k)
  {
    hide InReach, Received, Quiet, Initial, Emitted;
    if InReach(Emitted(events), start, k) {
      forall s: World, es: seq<Resync.Event>, c: Channel
        | Initial(s) && Resync.CanRun(s, es) && Quiet(Resync.RunAll(s, es))
          && Received(Resync.RunAll(s, es), events, c) && c.start == Some(start)
        ensures Lookup(Resync.RunAll(s, es).view, k) == LastOf(SourceDedup.OfferedByAll(events), k)
      {
        ReceivedSent(Resync.RunAll(s, es), events, c);
        ServerShowsLatestZones(s, es, events, c);
      }
    } else {
      var s, es, c := OutOfReach(events, start, k);
    }
  }

  lemma ReceivedSent(s: World, events: seq<SourceDedup.ZoneEvent>, c: Channel)
    requires Received(s, events, c)
    ensures c.sent == Emitted(events)
  {
  }

  /** Everything that is out of reach: from before the pump subscribed, or no longer kept. */
  function Beyond(n: nat, start: nat): (missed: set<nat>)
    requires start <= n
    ensures CanMiss(n, start, missed)
    ensures forall i: nat :: i < n && i !in missed ==> start <= i && n <= i + CAPACITY
  {
    Positions(0, if n <= start + CAPACITY then start else n - CAPACITY)
  }

  /** A run that misses all of it, of a server that showed something else before. */
  lemma OutOfReach(events: seq<SourceDedup.ZoneEvent>, start: nat, k: StateKey) returns (s: World, es: seq<Resync.Event>, c: Channel)
    requires start <= |Emitted(events)| && !InReach(Emitted(events), start, k)
    ensures Initial(s) && Resync.CanRun(s, es) && Quiet(Resync.RunAll(s, es))
    ensures Received(Resync.RunAll(s, es), events, c) && c.start == Some(start)
    ensures Lookup(Resync.RunAll(s, es).view, k) != LastOf(SourceDedup.OfferedByAll(events), k)
  {
    hide Initial, Received, Quiet, Emitted, LastOf, ApplyAll, Kept, CanMiss;
    var fs := Emitted(events);
    var missed := Beyond(|fs|, start);
    var latest := LastOf(SourceDedup.OfferedByAll(events), k);
    var view := if latest.Some? then map[] else map[k := JNull];
    s, es, c := RunMissing(events, start, missed, view);
    KeptNothing(fs, missed, k);
    ApplyAllIsFinal(view, Kept(fs, missed), k);
  }

  /** What it shows instead: whenever the last update for `k` is out of reach, there is a run
      that misses this one alone and leaves the server with the one before it. */
  lemma OverrunLeavesOlder(events: seq<SourceDedup.ZoneEvent>, k: StateKey, q: nat, p: nat)
    returns (s: World, es: seq<Resync.Event>, c: Channel)
    requires var fs := Emitted(events);
             && q < p < |fs| && Writes(fs[q], k) && Writes(fs[p], k) && p + 256 < |fs|
             && forall i :: q < i < |fs| && i != p ==> !Writes(fs[i], k)
    ensures Initial(s) && Resync.CanRun(s, es) && Quiet(Resync.RunAll(s, es))
    ensures Received(Resync.RunAll(s, es), events, c) && c.start == Some(0) && c.missed == {p}
    ensures Lookup(Resync.RunAll(s, es).view, k) == Some(Emitted(events)[q].value)
    ensures LastOf(SourceDedup.OfferedByAll(events), k) == Some(Emitted(events)[p].value)
  {
    hide Initial, Received, Quiet, Emitted, ApplyAll, Kept;
    var fs := Emitted(events);
    s, es, c := RunMissing(events, 0, {p}, map[]);
    KeptUpTo(fs, {p}, k, q);
    ApplyAllIsFinal(map[], Kept(fs, {p}), k);
    EmittedFold(events, k);
    var i := LastOfIsLast(fs, k);
    assert i == p;
  }

  lemma EmittedFold(events: seq<SourceDedup.ZoneEvent>, k: StateKey)
    ensures LastOf(Emitted(events), k) == LastOf(SourceDedup.OfferedByAll(events), k)
  {
    SourceDedup.DedupLosesNothing(events);
  }

  /** A missed update is not repaired: if the last update the dedup let through for `k` was
      missed, and an older one with another value received, then for as long as the zone
      reports nothing new there, whatever else happens, reconnects and replays included, a
      quiet server shows the older value. */
  lemma MissedUpdateStaysMissed(s: World, es: seq<Resync.Event>, before: seq<SourceDedup.ZoneEvent>, later: seq<SourceDedup.ZoneEvent>, c: Channel,
                                k: StateKey, latest: Json, older: Json)
    requires Initial(s) && Resync.CanRun(s, es) && Quiet(Resync.RunAll(s, es))
    requires Received(Resync.RunAll(s, es), before + later, c)
    requires Lookup(SourceDedup.HandleAll(NOTHING_SENT, before).lastSent, k) == Some(latest)
    requires LastOf(Kept(Emitted(before), c.missed), k) == Some(older) && older != latest
    requires forall e :: e in later ==> SourceDedup.Repeats(e, k, latest)
    ensures LastOf(SourceDedup.OfferedByAll(before + later), k) == Some(latest)
    ensures Lookup(Resync.RunAll(s, es).view, k) == Some(older)
  {
    var d := SourceDedup.HandleAll(NOTHING_SENT, before);
    SourceDedup.HandleConcat(NOTHING_SENT, before, later);
    SourceDedup.RepeatsAreSilent(d, later, k, latest);
    SourceDedup.DedupLosesNothing(before);
    SourceDedup.DedupLosesNothing(before + later);
    KeptSilent(Emitted(before), Emitted(before + later), c.missed, k);
    ReceivedKept(Resync.RunAll(s, es), before + later, c);
    Convergence(s, es);
  }

  // ----- A stale server -----

  function Playing(state: string): SourceDedup.ZoneEvent {
    SourceDedup.Zones([SourceDedup.Zone("z", "Zone", JString(state), None, [])])
  }

  /** The paused zone again, at some volume. */
  function AtVolume(n: nat): SourceDedup.ZoneEvent {
    SourceDedup.Zones([SourceDedup.Zone("z", "Zone", JString("paused"), None, [SourceDedup.Output("o", Some(JNumber(n as real)))])])
  }

  const SUMMARY := SourceDedup.ZoneKey("z", "zone", None)
  const PLAYBACK := SourceDedup.ZoneKey("z", "playback", None)
  const VOLUME := SourceDedup.ZoneKey("z", "volume", Some("o"))

  function SummaryFrame(state: string): Frame {
    StateFrame(SUMMARY, JObject(map["display_name" := JString("Zone"), "state" := JString(state)]))
  }

  function PlaybackFrame(state: string): Frame {
    StateFrame(PLAYBACK, JString(state))
  }

  function VolumeFrame(n: nat): Frame {
    StateFrame(VOLUME, JNumber(n as real))
  }

  lemma OfferedByPlaying(state: string)
    ensures SourceDedup.OfferedBy(Playing(state)) == [SummaryFrame(state), PlaybackFrame(state)]
  {
    var zs := Playing(state).zones;
    assert zs[..0] == [];
    assert SourceDedup.VolumeUpdates("z", []) == [];
    assert SourceDedup.Offered([]) == [];
  }

  lemma OfferedAtVolume(n: nat)
    ensures SourceDedup.OfferedBy(AtVolume(n)) == [SummaryFrame("paused"), PlaybackFrame("paused"), VolumeFrame(n)]
  {
    var zs := AtVolume(n).zones;
    var os := zs[0].outputs;
    assert zs[..0] == [] && os[..0] == [];
    assert SourceDedup.VolumeUpdates("z", []) == [];
    assert SourceDedup.VolumeUpdates("z", os) == [VolumeFrame(n)];
    assert SourceDedup.Offered([]) == [];
  }

  lemma OfferTwo(d: SourceDedup.Dedup, a: Frame, b: Frame)
    ensures SourceDedup.OfferAll(d, [a, b]) == SourceDedup.Offer(SourceDedup.Offer(d, a), b)
  {
    hide SourceDedup.Offer;
    assert [a, b][..1] == [a] && [a][..0] == [];
    assert SourceDedup.OfferAll(d, [a]) == SourceDedup.Offer(SourceDedup.OfferAll(d, []), a);
  }

  lemma OfferThree(d: SourceDedup.Dedup, a: Frame, b: Frame, c: Frame)
    ensures SourceDedup.OfferAll(d, [a, b, c]) == SourceDedup.Offer(SourceDedup.Offer(SourceDedup.Offer(d, a), b), c)
  {
    hide SourceDedup.Offer;
    assert [a, b, c][..2] == [a, b];
    OfferTwo(d, a, b);
  }

  /** Two keys offered twice with changed values are sent both times. */
  lemma ChangesAreSent(a: Frame, b: Frame, c: Frame, d: Frame)
    requires a.StateFrame? && b.StateFrame? && c.StateFrame? && d.StateFrame?
    requires a.key == c.key && b.key == d.key && a.key != b.key && a.value != c.value && b.value != d.value
    ensures SourceDedup.OfferAll(SourceDedup.OfferAll(NOTHING_SENT, [a, b]), [c, d])
            == SourceDedup.Dedup(map[a.key := c.value, b.key := d.value], [a, b, c, d])
  {
    OfferTwo(NOTHING_SENT, a, b);
    OfferTwo(SourceDedup.OfferAll(NOTHING_SENT, [a, b]), c, d);
  }

  lemma KeysDiffer()
    ensures SUMMARY != PLAYBACK && SUMMARY != VOLUME && PLAYBACK != VOLUME
    ensures JString("playing") != JString("paused")
  {
    assert "zone"[0] != "playback"[0] && "playing"[1] != "paused"[1];
  }

  lemma SummariesDiffer()
    ensures SummaryFrame("playing").value != SummaryFrame("paused").value
  {
    KeysDiffer();
    assert SummaryFrame("playing").value.fields["state"] == JString("playing");
    assert SummaryFrame("paused").value.fields["state"] == JString("paused");
  }

  lemma HandleTwo(a: SourceDedup.ZoneEvent, b: SourceDedup.ZoneEvent)
    ensures SourceDedup.HandleAll(NOTHING_SENT, [a, b]) == SourceDedup.Handle(SourceDedup.Handle(NOTHING_SENT, a), b)
  {
    hide SourceDedup.Handle;
    var none := NOTHING_SENT;
    assert [a, b][..1] == [a] && [a][..0] == [];
    assert SourceDedup.HandleAll(none, [a]) == SourceDedup.Handle(SourceDedup.HandleAll(none, []), a);
  }

  lemma PlayedThenPaused()
    ensures SourceDedup.HandleAll(NOTHING_SENT, [Playing("playing"), Playing("paused")])
            == SourceDedup.Dedup(map[SUMMARY := SummaryFrame("paused").value, PLAYBACK := JString("paused")],
                           [SummaryFrame("playing"), PlaybackFrame("playing"), SummaryFrame("paused"), PlaybackFrame("paused")])
  {
    hide SourceDedup.OfferAll, SourceDedup.Offered, SourceDedup.HandleAll;
    OfferedByPlaying("playing");
    OfferedByPlaying("paused");
    HandleTwo(Playing("playing"), Playing("paused"));
    KeysDiffer();
    SummariesDiffer();
    ChangesAreSent(SummaryFrame("playing"), PlaybackFrame("playing"), SummaryFrame("paused"), PlaybackFrame("paused"));
  }

  /** The zone's summary and playback were last sent as paused, its volume with `volume`. */
  predicate SentPaused(d: SourceDedup.Dedup, volume: Option<Json>) {
    && Lookup(d.lastSent, SUMMARY) == Some(SummaryFrame("paused").value)
    && Lookup(d.lastSent, PLAYBACK) == Some(JString("paused"))
    && Lookup(d.lastSent, VOLUME) == volume
  }

  lemma VolumeIsSent(d: SourceDedup.Dedup, volume: Option<Json>, n: nat)
    requires SentPaused(d, volume) && volume != Some(JNumber(n as real))
    ensures var d' := SourceDedup.Handle(d, AtVolume(n));
            d'.emitted == d.emitted + [VolumeFrame(n)] && SentPaused(d', Some(JNumber(n as real)))
  {
    hide SourceDedup.OfferAll, SourceDedup.Offered;
    KeysDiffer();
    OfferedAtVolume(n);
    OfferThree(d, SummaryFrame("paused"), PlaybackFrame("paused"), VolumeFrame(n));
  }

  function Rising(n: nat): (events: seq<SourceDedup.ZoneEvent>)
    ensures |events| == n
  {
    if n == 0 then [] else Rising(n - 1) + [AtVolume(n - 1)]
  }

  function VolumeFrames(n: nat): (frames: seq<Frame>)
    ensures |frames| == n && forall i :: 0 <= i < n ==> frames[i] == VolumeFrame(i)
  {
    if n == 0 then [] else VolumeFrames(n - 1) + [VolumeFrame(n - 1)]
  }

  function LastVolume(n: nat): Option<Json> {
    if n == 0 then None else Some(JNumber((n - 1) as real))
  }

  /** Of a zone that stays paused, only the volumes are sent. */
  lemma {:induction false} OnlyVolumesSent(d: SourceDedup.Dedup, n: nat)
    requires SentPaused(d, None)
    ensures SentPaused(SourceDedup.HandleAll(d, Rising(n)), LastVolume(n))
    ensures SourceDedup.HandleAll(d, Rising(n)).emitted == d.emitted + VolumeFrames(n)
    decreases n
  {
    hide SourceDedup.Handle, SentPaused;
    if n == 0 {
      assert d.emitted + [] == d.emitted;
    } else {
      OnlyVolumesSent(d, n - 1);
      assert Rising(n)[..n - 1] == Rising(n - 1) && Rising(n)[n - 1] == AtVolume(n - 1);
      SourceDedup.HandleLast(d, Rising(n));
      hide SourceDedup.HandleAll, AtVolume, VolumeFrame;
      VolumeIsSent(SourceDedup.HandleAll(d, Rising(n - 1)), LastVolume(n - 1), n - 1);
      Associative(d.emitted, VolumeFrames(n - 1), [VolumeFrame(n - 1)]);
    }
  }

  lemma EmittedByPaused(n: nat)
    ensures var fs := Emitted([Playing("playing"), Playing("paused")] + Rising(n));
            && |fs| == 4 + n && fs[1] == PlaybackFrame("playing") && fs[3] == PlaybackFrame("paused")
            && forall i :: 1 < i < |fs| && i != 3 ==> !Writes(fs[i], PLAYBACK)
  {
    hide SourceDedup.HandleAll;
    var before := [Playing("playing"), Playing("paused")];
    var d := SourceDedup.HandleAll(NOTHING_SENT, before);
    PlayedThenPaused();
    KeysDiffer();
    OnlyVolumesSent(d, n);
    SourceDedup.HandleConcat(NOTHING_SENT, before, Rising(n));
    var fs := Emitted(before + Rising(n));
    assert forall i :: 0 <= i < 4 ==> fs[i] == d.emitted[i];
  }

  /** A stale server: a zone plays and pauses, and then its volume changes as often as the
      channel keeps updates. The pump may miss the pause, and nothing else; then, although
      every report says that the zone is paused, the quiet server shows it playing. */
  lemma StaleServer(n: nat) returns (s: World, es: seq<Resync.Event>, c: Channel)
    requires n >= 256
    ensures var events := [Playing("playing"), Playing("paused")] + Rising(n);
            && Initial(s) && Resync.CanRun(s, es) && Quiet(Resync.RunAll(s, es))
            && Received(Resync.RunAll(s, es), events, c) && c.start == Some(0) && c.missed == {3}
            && LastOf(SourceDedup.OfferedByAll(events), PLAYBACK) == Some(JString("paused"))
            && Lookup(Resync.RunAll(s, es).view, PLAYBACK) == Some(JString("playing"))
  {
    hide Initial, Received, Quiet, Emitted;
    EmittedByPaused(n);
    s, es, c := OverrunLeavesOlder([Playing("playing"), Playing("paused")] + Rising(n), PLAYBACK, 1, 3);
  }

  // ----- The pump's own keys -----

  lemma {:induction false} KeptOwned(fs: seq<Frame>, missed: set<nat>)
    requires AllOwned(ServicePump(SourceDedup.ROON), fs)
    ensures AllOwned(ServicePump(SourceDedup.ROON), Kept(fs, missed))
    decreases |fs|
  {
    if fs == [] {
    } else {
      assert fs[|fs| - 1] in fs && forall f :: f in fs[..|fs| - 1] ==> f in fs;
      KeptOwned(fs[..|fs| - 1], missed);
    }
  }

  lemma {:induction false} EmittedOwned(events: seq<SourceDedup.ZoneEvent>)
    ensures AllOwned(ServicePump(SourceDedup.ROON), Emitted(events))
    decreases |events|
  {
    if events == [] {
    } else {
      var init, e := events[..|events| - 1], events[|events| - 1];
      EmittedOwned(init);
      SourceDedup.HandleLast(NOTHING_SENT, events);
      if e.Zones? {
        OfferedOwned(e.zones);
        OfferAllOwned(SourceDedup.HandleAll(NOTHING_SENT, init), SourceDedup.Offered(e.zones));
      }
    }
  }

  lemma {:induction false} OfferAllOwned(d: SourceDedup.Dedup, fs: seq<Frame>)
    requires AllOwned(ServicePump(SourceDedup.ROON), d.emitted) && AllOwned(ServicePump(SourceDedup.ROON), fs)
    ensures AllOwned(ServicePump(SourceDedup.ROON), SourceDedup.OfferAll(d, fs).emitted)
    decreases |fs|
  {
    if fs == [] {
    } else {
      assert fs[|fs| - 1] in fs && forall f :: f in fs[..|fs| - 1] ==> f in fs;
      OfferAllOwned(d, fs[..|fs| - 1]);
    }
  }

  lemma {:induction false} OfferedOwned(zones: seq<SourceDedup.Zone>)
    ensures AllOwned(ServicePump(SourceDedup.ROON), SourceDedup.Offered(zones))
    decreases |zones|
  {
    if zones == [] {
    } else {
      hide SourceDedup.VolumeUpdates;
      OfferedOwned(zones[..|zones| - 1]);
      VolumesOwned(zones[|zones| - 1].zoneId, zones[|zones| - 1].outputs);
    }
  }

  lemma {:induction false} VolumesOwned(target: string, outputs: seq<SourceDedup.Output>)
    ensures AllOwned(ServicePump(SourceDedup.ROON), SourceDedup.VolumeUpdates(target, outputs))
    decreases |outputs|
  {
    if outputs == [] {
    } else {
      VolumesOwned(target, outputs[..|outputs| - 1]);
    }
  }
}
