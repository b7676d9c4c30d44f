/** The feedback pump and the LEDs it draws on. A plan the filter lets through is drawn at once,
    or starts a scroll: a spawned animation that goes on drawing, frame by frame, until it
    ends or another plan for its slot supersedes it. Several keys and several scrolls share
    one LED, so what is visible is what was drawn last, by whichever of them. Other writers draw
    on it too: the device's other pumps, selection and cycle glyphs. */
module FeedbackPump {
  import opened Common
  import opened Feedback

  datatype Led = PumpLed | DeviceLed(deviceId: string)

  /** Where a running scroll is kept: the desktop pump serves one device and keeps one per
      property, the iOS pump one per device and property. */
  datatype Slot = PropertySlot(property: string) | DeviceSlot(deviceId: string, deviceProperty: string)

  function LedOf(key: Key): Led {
    match key
    case PropertyTarget(_, _) => PumpLed
    case DeviceProperty(d, _) => DeviceLed(d)
  }

  function SlotOf(key: Key): Slot {
    match key
    case PropertyTarget(p, _) => PropertySlot(p)
    case DeviceProperty(d, p) => DeviceSlot(d, p)
  }

  /** A plan that is drawn in one frame, if there is one to draw (a named glyph may be missing
      from the registry), or a scrolling text. */
  datatype Plan = Still(drawable: bool) | Scroll

  datatype Event =
    | Offer(r: Render, plan: Plan)   // a state update, resolved to a plan
    | Tick(slot: Slot)               // the slot's scroll, if it runs, draws its next frame
    | End(slot: Slot)                // ... or has drawn its last one
    | Cover(led: Led)                // another writer draws on the LED, or its display goes dark

  /** `shown` holds, for every LED that shows one of the pump's frames, the plan it belongs to. */
  datatype Panel = Panel(filter: Filter, running: map<Slot, Render>, shown: map<Led, Render>)

  const DARK := Panel(FRESH, map[], map[])

  /** The plan whose frame this event draws. */
  function Drawn(p: Panel, e: Event): Option<Render> {
    match e
    case Offer(r, plan) => if plan.Still? && plan.drawable && Accepts(p.filter, r) then Some(r) else None
    case Tick(slot) => Lookup(p.running, slot)
    case _ => None
  }

  function RunningAfter(p: Panel, e: Event): map<Slot, Render> {
    match e
    case Offer(r, plan) =>
      if !Accepts(p.filter, r) then p.running
      else if plan.Scroll? then p.running[SlotOf(r.key) := r]
      else p.running - {SlotOf(r.key)}
    case End(slot) => p.running - {slot}
    case _ => p.running
  }

  function ShownAfter(p: Panel, e: Event): map<Led, Render> {
    match Drawn(p, e)
    case Some(x) => p.shown[LedOf(x.key) := x]
    case None => if e.Cover? then p.shown - {e.led} else p.shown
  }

  function Step(p: Panel, e: Event): Panel {
    Panel(if e.Offer? then After(p.filter, e.r) else p.filter, RunningAfter(p, e), ShownAfter(p, e))
  }

  function Run(p: Panel, es: seq<Event>): Panel {
    if es == [] then p else Step(Run(p, es[..|es| - 1]), es[|es| - 1])
  }

  lemma RunSnoc(p: Panel, es: seq<Event>, e: Event)
    ensures Run(p, es + [e]) == Step(Run(p, es), e)
  {
    assert (es + [e])[..|es|] == es;
  }

  // ----- The pump's loop -----

  /** The desktop pump: its filter, the scrolls it has spawned by property, and the LED. */
  class DesktopPump {
    const filter: DesktopFilter
    var animations: map<Slot, Render>
    var shown: map<Led, Render>

    constructor ()
      ensures State() == DARK && fresh(filter)
    {
      filter := new DesktopFilter();
      animations, shown := map[], map[];
    }

    function State(): Panel
      reads this, filter
    {
      Panel(filter.State(), animations, shown)
    }

    /** One update that resolved to a plan. */
    method OnPlan(property: string, target: string, sig: string, plan: Plan, now: nat)
      modifies this, filter
      ensures State() == Step(old(State()), Offer(Render(now, PropertyTarget(property, target), sig), plan))
    {
      hide Accepts, After;
      var ok := filter.ShouldRender(property, target, sig, now);
      if !ok {
        return;
      }
      var r := Render(now, PropertyTarget(property, target), sig);
      animations := animations - {PropertySlot(property)};
      match plan {
        case Scroll =>
          animations := animations[PropertySlot(property) := r];
        case Still(drawable) =>
          if drawable {
            shown := shown[PumpLed := r];
          }
      }
    }
  }

  /** The iOS pump serves every device. */
  class IosPump {
    const filter: IosFilter
    var animations: map<Slot, Render>
    var shown: map<Led, Render>

    constructor ()
      ensures State() == DARK && fresh(filter)
    {
      filter := new IosFilter();
      animations, shown := map[], map[];
    }

    function State(): Panel
      reads this, filter
    {
      Panel(filter.State(), animations, shown)
    }

    method OnPlan(deviceId: string, property: string, sig: string, plan: Plan, now: nat)
      modifies this, filter
      ensures State() == Step(old(State()), Offer(Render(now, DeviceProperty(deviceId, property), sig), plan))
    {
      hide Accepts, After;
      var ok := filter.ShouldRender(deviceId, property, sig, now);
      if !ok {
        return;
      }
      var r := Render(now, DeviceProperty(deviceId, property), sig);
      animations := animations - {DeviceSlot(deviceId, property)};
      match plan {
        case Scroll =>
          animations := animations[DeviceSlot(deviceId, property) := r];
        case Still(drawable) =>
          if drawable {
            shown := shown[DeviceLed(deviceId) := r];
          }
      }
    }
  }

  // ----- What an update does -----

  /** The frames offered during a run. */
  function Offered(es: seq<Event>): seq<Render> {
    if es == [] then []
    else Offered(es[..|es| - 1]) + (if es[|es| - 1].Offer? then [es[|es| - 1].r] else [])
  }

  lemma {:induction false} FilterOfOffers(es: seq<Event>)
    ensures Run(DARK, es).filter == RunAll(FRESH, Offered(es))
    decreases |es|
  {
    hide After, RunningAfter, ShownAfter;
    if es == [] {
    } else {
      var init, e := es[..|es| - 1], es[|es| - 1];
      FilterOfOffers(init);
      if e.Offer? {
        assert (Offered(init) + [e.r])[..|Offered(init)|] == Offered(init);
      } else {
        assert Offered(init) + [] == Offered(init);
      }
    }
  }

  /** Over every run, an update that is due after the writes of its key takes its slot's scroll
      away, and is drawn, or starts to scroll, or cannot be drawn; one that is not due changes
      nothing. */
  lemma OfferExactly(before: seq<Event>, r: Render, plan: Plan)
    ensures var p, p' := Run(DARK, before), Run(DARK, before + [Offer(r, plan)]);
            if !Due(Writes(Offered(before), r.key), r) then p' == p
            else match plan
              case Still(drawable) =>
                && p'.running == p.running - {SlotOf(r.key)}
                && p'.shown == if drawable then p.shown[LedOf(r.key) := r] else p.shown
              case Scroll => p'.running == p.running[SlotOf(r.key) := r] && p'.shown == p.shown
  {
    hide Accepts, Due, Writes;
    RunSnoc(DARK, before, Offer(r, plan));
    FilterOfOffers(before);
    AcceptsExactly(Offered(before), r);
    if !Accepts(Run(DARK, before).filter, r) {
      assert After(Run(DARK, before).filter, r) == Run(DARK, before).filter;
    }
  }

  /** The desktop pump draws on one LED and keeps one scroll per property, whatever the target;
      on iOS each device has its LED, and each of its properties its scroll. */
  lemma SharedExactly(a: Key, b: Key)
    ensures LedOf(a) == LedOf(b) <==> match (a, b)
              case (PropertyTarget(_, _), PropertyTarget(_, _)) => true
              case (DeviceProperty(d, _), DeviceProperty(d', _)) => d == d'
              case _ => false
    ensures SlotOf(a) == SlotOf(b) <==> match (a, b)
              case (PropertyTarget(p, _), PropertyTarget(p', _)) => p == p'
              case (DeviceProperty(d, p), DeviceProperty(d', p')) => d == d' && p == p'
              case _ => false
  {
  }

  // ----- What is visible -----

  predicate Shows(p: Panel, key: Key, sig: string) {
    && LedOf(key) in p.shown
    && p.shown[LedOf(key)].key == key && p.shown[LedOf(key)].sig == sig
  }

  /** Is the frame that `r` asks for on its LED? */
  predicate Visible(p: Panel, r: Render) {
    Shows(p, r.key, r.sig)
  }

  /** The event draws what `r` asks for. */
  predicate DrawsIt(p: Panel, e: Event, r: Render) {
    var x := Drawn(p, e);
    x.Some? && x.value.key == r.key && x.value.sig == r.sig
  }

  /** The event draws something else on the LED of `r`, or another writer does. */
  predicate DrawsOver(p: Panel, e: Event, r: Render) {
    var x := Drawn(p, e);
    || e == Cover(LedOf(r.key))
    || (x.Some? && LedOf(x.value.key) == LedOf(r.key) && !(x.value.key == r.key && x.value.sig == r.sig))
  }

  /** One event: what `r` asks for is visible afterwards if and only if the event draws it, or
      it was visible and the event does not draw over it. */
  lemma StepShowsExactly(p: Panel, e: Event, r: Render)
    ensures Visible(Step(p, e), r) <==> DrawsIt(p, e, r) || (Visible(p, r) && !DrawsOver(p, e, r))
  {
  }

  /** The events from `n` on draw nothing else on the LED of `r`. */
  ghost predicate Uncovered(p: Panel, es: seq<Event>, n: nat, r: Render) {
    forall j :: n <= j < |es| ==> !DrawsOver(Run(p, es[..j]), es[j], r)
  }

  ghost predicate DrawnAndKept(p: Panel, es: seq<Event>, i: nat, r: Render) {
    i < |es| && DrawsIt(Run(p, es[..i]), es[i], r) && Uncovered(p, es, i + 1, r)
  }

  /** What `r` asks for was drawn at some point, and nothing else on its LED since. */
  ghost predicate DrawnLast(p: Panel, es: seq<Event>, r: Render) {
    exists i: nat :: DrawnAndKept(p, es, i, r)
  }

  lemma UncoveredSnoc(p: Panel, es: seq<Event>, i: nat, r: Render)
    requires es != [] && i <= |es| - 1
    ensures var n := |es| - 1;
            Uncovered(p, es, i, r) <==> Uncovered(p, es[..n], i, r) && !DrawsOver(Run(p, es[..n]), es[n], r)
  {
    hide DrawsOver, Run;
    var n := |es| - 1;
    assert forall j :: 0 <= j < n ==> es[..n][..j] == es[..j] && es[..n][j] == es[j];
  }

  lemma KeptSnoc(p: Panel, es: seq<Event>, i: nat, r: Render)
    requires es != [] && i < |es| - 1
    ensures var n := |es| - 1;
            DrawnAndKept(p, es, i, r) <==> DrawnAndKept(p, es[..n], i, r) && !DrawsOver(Run(p, es[..n]), es[n], r)
  {
    hide DrawsOver, DrawsIt, Run, Uncovered;
    var n := |es| - 1;
    assert es[..n][..i] == es[..i] && es[..n][i] == es[i];
    UncoveredSnoc(p, es, i + 1, r);
  }

  lemma DrawnLastSnoc(p: Panel, es: seq<Event>, r: Render)
    requires es != []
    ensures var n := |es| - 1; var before := Run(p, es[..n]);
            DrawnLast(p, es, r) <==> DrawsIt(before, es[n], r) || (DrawnLast(p, es[..n], r) && !DrawsOver(before, es[n], r))
  {
    hide DrawsOver, DrawsIt, Run, DrawnAndKept;
    var n := |es| - 1;
    assert DrawnAndKept(p, es, n, r) <==> DrawsIt(Run(p, es[..n]), es[n], r) by {
      LastKept(p, es, r);
    }
    if DrawnLast(p, es, r) {
      var i: nat :| DrawnAndKept(p, es, i, r);
      KeptInRange(p, es, i, r);
      if i < n {
        KeptSnoc(p, es, i, r);
      }
    }
    if DrawnLast(p, es[..n], r) {
      var i: nat :| DrawnAndKept(p, es[..n], i, r);
      KeptInRange(p, es[..n], i, r);
      KeptSnoc(p, es, i, r);
    }
  }

  lemma KeptInRange(p: Panel, es: seq<Event>, i: nat, r: Render)
    requires DrawnAndKept(p, es, i, r)
    ensures i < |es|
  {
  }

  lemma LastKept(p: Panel, es: seq<Event>, r: Render)
    requires es != []
    ensures DrawnAndKept(p, es, |es| - 1, r) <==> DrawsIt(Run(p, es[..|es| - 1]), es[|es| - 1], r)
  {
    hide DrawsIt, Run, DrawsOver;
  }

  /** Over every run of offers, scroll frames and other writers' frames: what `r` asks for is on
      its LED in the end if and only if it was drawn, by an offer or by a frame of its scroll,
      and nothing else was drawn there since; or it was there from the start and nothing else
      was ever drawn. */
  lemma {:induction false} VisibleExactly(p: Panel, es: seq<Event>, r: Render)
    ensures Visible(Run(p, es), r) <==> DrawnLast(p, es, r) || (Visible(p, r) && Uncovered(p, es, 0, r))
    decreases |es|
  {
    hide Visible, DrawsIt, DrawsOver, DrawnAndKept, Step;
    if es == [] {
      assert !DrawnLast(p, es, r) by {
        if DrawnLast(p, es, r) {
          var i: nat :| DrawnAndKept(p, es, i, r);
          KeptInRange(p, es, i, r);
        }
      }
    } else {
      hide Uncovered, DrawnLast;
      var n := |es| - 1;
      VisibleExactly(p, es[..n], r);
      StepShowsExactly(Run(p, es[..n]), es[n], r);
      UncoveredSnoc(p, es, 0, r);
      DrawnLastSnoc(p, es, r);
      NotBoth(Run(p, es[..n]), es[n], r);
    }
  }

  lemma NotBoth(p: Panel, e: Event, r: Render)
    ensures !(DrawsIt(p, e, r) && DrawsOver(p, e, r))
  {
  }

  // ----- What the dedup skips -----

  /** The key's own scroll is running. */
  predicate Scrolling(p: Panel, key: Key) {
    SlotOf(key) in p.running && p.running[SlotOf(key)].key == key
  }

  /** A running scroll is the plan its key last got through the filter. */
  ghost predicate ScrollsCurrent(p: Panel) {
    forall slot :: slot in p.running ==>
      && SlotOf(p.running[slot].key) == slot
      && Lookup(p.filter.lastSig, p.running[slot].key) == Some(p.running[slot].sig)
  }

  lemma AfterMeans(f: Filter, r: Render)
    ensures After(f, r).lastSig == if Accepts(f, r) then f.lastSig[r.key := r.sig] else f.lastSig
    ensures !Accepts(f, r) ==> After(f, r) == f
    ensures Lookup(f.lastSig, r.key) == Some(r.sig) ==> !Accepts(f, r)
  {
  }

  lemma StepKeepsScrolls(p: Panel, e: Event)
    requires ScrollsCurrent(p)
    ensures ScrollsCurrent(Step(p, e))
  {
    hide Accepts, After, ShownAfter;
    if e.Offer? {
      AfterMeans(p.filter, e.r);
    }
  }

  lemma {:induction false} RunKeepsScrolls(es: seq<Event>)
    ensures ScrollsCurrent(Run(DARK, es))
    decreases |es|
  {
    if es == [] {
    } else {
      hide ScrollsCurrent, Step;
      RunKeepsScrolls(es[..|es| - 1]);
      StepKeepsScrolls(Run(DARK, es[..|es| - 1]), es[|es| - 1]);
    }
  }

  /** The key was last let through with this signature: the dedup skips it. */
  predicate Skipped(p: Panel, r: Render) {
    Lookup(p.filter.lastSig, r.key) == Some(r.sig)
  }

  lemma SkippedChangesNothing(p: Panel, r: Render, plan: Plan)
    requires Skipped(p, r)
    ensures Step(p, Offer(r, plan)) == p
  {
    hide After, Accepts;
    AfterMeans(p.filter, r);
  }

  /** Nothing is offered, and no other writer draws on the LED: running scrolls draw, and end. */
  ghost predicate OnlyScrolls(es: seq<Event>, led: Led) {
    forall e :: e in es ==> !e.Offer? && e != Cover(led)
  }

  /** Another key's scroll is running on the LED of `r`. */
  predicate OtherScroll(p: Panel, r: Render) {
    exists slot :: slot in p.running && LedOf(p.running[slot].key) == LedOf(r.key) && p.running[slot].key != r.key
  }

  /** The frame of `r` stays on its LED until something is offered or another writer draws. */
  ghost predicate StaysVisible(p: Panel, r: Render) {
    forall es :: OnlyScrolls(es, LedOf(r.key)) ==> Visible(Run(p, es), r)
  }

  lemma ScrollStepKeeps(p: Panel, e: Event, r: Render)
    requires ScrollsCurrent(p) && Skipped(p, r) && Visible(p, r) && !OtherScroll(p, r) && !e.Offer? && e != Cover(LedOf(r.key))
    ensures Visible(Step(p, e), r) && !OtherScroll(Step(p, e), r)
    ensures Step(p, e).filter == p.filter
  {
  }

  lemma {:induction false} ScrollRunKeeps(p: Panel, es: seq<Event>, r: Render)
    requires ScrollsCurrent(p) && Skipped(p, r) && Visible(p, r) && !OtherScroll(p, r) && OnlyScrolls(es, LedOf(r.key))
    ensures var q := Run(p, es);
            ScrollsCurrent(q) && Skipped(q, r) && Visible(q, r) && !OtherScroll(q, r)
    decreases |es|
  {
    if es == [] {
    } else {
      hide ScrollsCurrent, Visible, OtherScroll, Step;
      var init, e := es[..|es| - 1], es[|es| - 1];
      assert e in es && forall x :: x in init ==> x in es;
      ScrollRunKeeps(p, init, r);
      StepKeepsScrolls(Run(p, init), e);
      ScrollStepKeeps(Run(p, init), e, r);
    }
  }

  lemma CoveredDoesNotStay(p: Panel, r: Render)
    requires OtherScroll(p, r)
    ensures !StaysVisible(p, r)
  {
    var slot :| slot in p.running && LedOf(p.running[slot].key) == LedOf(r.key) && p.running[slot].key != r.key;
    var es := [Tick(slot)];
    assert es[..0] == [];
    assert OnlyScrolls(es, LedOf(r.key)) && !Visible(Run(p, es), r);
  }

  /** In every reachable state of pump, scrolls and LEDs: a frame that the dedup skips because
      its key was last let through the same is on its LED, and stays there until something is
      offered or another writer draws, if and only if it is there now and no other key's scroll
      runs on that LED. */
  lemma SkippedStaysVisibleExactly(before: seq<Event>, r: Render, plan: Plan)
    requires Skipped(Run(DARK, before), r)
    ensures StaysVisible(Run(DARK, before + [Offer(r, plan)]), r) <==>
            Visible(Run(DARK, before), r) && !OtherScroll(Run(DARK, before), r)
  {
    hide Visible, OtherScroll, Step;
    var p := Run(DARK, before);
    RunKeepsScrolls(before);
    RunSnoc(DARK, before, Offer(r, plan));
    SkippedChangesNothing(p, r, plan);
    if StaysVisible(p, r) {
      assert OnlyScrolls([], LedOf(r.key)) && Run(p, []) == p;
      if OtherScroll(p, r) {
        CoveredDoesNotStay(p, r);
      }
    }
    if Visible(p, r) && !OtherScroll(p, r) {
      forall es | OnlyScrolls(es, LedOf(r.key)) ensures Visible(Run(p, es), r) {
        ScrollRunKeeps(p, es, r);
      }
    }
  }

  // ----- When the key decides -----

  /** The LED shows an older frame of the key: its newer plan is a scroll yet to draw. */
  predicate Pending(p: Panel, key: Key) {
    && LedOf(key) in p.shown && p.shown[LedOf(key)].key == key
    && Lookup(p.filter.lastSig, key) != Some(p.shown[LedOf(key)].sig)
  }

  /** The event takes a scroll away that has yet to draw over an older frame of its key. */
  predicate Abandons(p: Panel, e: Event) {
    match e
    case Offer(r, _) => Accepts(p.filter, r) && SlotOf(r.key) in p.running && p.running[SlotOf(r.key)].key != r.key
                        && Pending(p, p.running[SlotOf(r.key)].key)
    case End(slot) => slot in p.running && Pending(p, p.running[slot].key)
    case _ => false
  }

  /** The plan can be drawn and no scroll is abandoned before its first frame. */
  predicate Smooth(p: Panel, e: Event) {
    (e.Offer? && e.plan.Still? ==> e.plan.drawable) && !Abandons(p, e)
  }

  ghost predicate SmoothRun(es: seq<Event>) {
    forall j :: 0 <= j < |es| ==> Smooth(Run(DARK, es[..j]), es[j])
  }

  /** What an LED shows is what its key last got through the filter, but for a scroll of that
      key which has yet to draw. */
  ghost predicate LedsCurrent(p: Panel) {
    forall led :: led in p.shown ==>
      LedOf(p.shown[led].key) == led && (Pending(p, p.shown[led].key) ==> Scrolling(p, p.shown[led].key))
  }

  lemma OfferKeepsLeds(p: Panel, r: Render, plan: Plan)
    requires ScrollsCurrent(p) && LedsCurrent(p) && Smooth(p, Offer(r, plan)) && Accepts(p.filter, r)
    ensures LedsCurrent(Step(p, Offer(r, plan)))
  {
    hide Accepts, After;
    AfterMeans(p.filter, r);
    var q := Step(p, Offer(r, plan));
    forall led | led in q.shown
      ensures LedOf(q.shown[led].key) == led && (Pending(q, q.shown[led].key) ==> Scrolling(q, q.shown[led].key))
    {
      var key := q.shown[led].key;
      if key != r.key {
        assert q.shown[led] == p.shown[led];
        assert Pending(q, key) ==> Pending(p, key) && Scrolling(p, key);
      }
    }
  }

  lemma StepKeepsLeds(p: Panel, e: Event)
    requires ScrollsCurrent(p) && LedsCurrent(p) && Smooth(p, e)
    ensures LedsCurrent(Step(p, e))
  {
    hide Accepts, After;
    if e.Offer? {
      AfterMeans(p.filter, e.r);
      if Accepts(p.filter, e.r) {
        OfferKeepsLeds(p, e.r, e.plan);
      } else {
        assert Step(p, e) == p;
      }
    }
  }

  lemma {:induction false} RunKeepsLeds(es: seq<Event>)
    requires SmoothRun(es)
    ensures LedsCurrent(Run(DARK, es))
    decreases |es|
  {
    if es == [] {
    } else {
      hide LedsCurrent, Smooth, Step;
      var init := es[..|es| - 1];
      assert forall j :: 0 <= j < |init| ==> init[..j] == es[..j] && init[j] == es[j];
      RunKeepsLeds(init);
      RunKeepsScrolls(init);
      StepKeepsLeds(Run(DARK, init), es[|es| - 1]);
    }
  }

  /** Over every smooth run: a skipped frame whose key is not scrolling is visible if and only
      if the LED shows a frame of that key at all. */
  lemma SkippedIsVisibleExactly(before: seq<Event>, r: Render)
    requires SmoothRun(before) && Skipped(Run(DARK, before), r) && !Scrolling(Run(DARK, before), r.key)
    ensures var shown := Run(DARK, before).shown;
            Visible(Run(DARK, before), r) <==> LedOf(r.key) in shown && shown[LedOf(r.key)].key == r.key
  {
    hide Run;
    RunKeepsLeds(before);
  }

  /** ... and one whose own scroll is running is drawn by that scroll's next frame. */
  lemma OwnScrollDraws(before: seq<Event>, r: Render)
    requires Skipped(Run(DARK, before), r) && Scrolling(Run(DARK, before), r.key)
    ensures Visible(Run(DARK, before + [Tick(SlotOf(r.key))]), r)
  {
    hide Run;
    RunKeepsScrolls(before);
    RunSnoc(DARK, before, Tick(SlotOf(r.key)));
  }

  // ----- Inputs -----

  const VOLUME := PropertyTarget("volume", "zone")
  const PLAYBACK := PropertyTarget("playback", "zone")
  const TITLE := PropertyTarget("now_playing", "zone")

  lemma KeysDiffer()
    ensures "volume" != "playback" && "volume" != "now_playing" && "playback" != "now_playing"
  {
    assert "volume"[0] != "playback"[0] && "volume"[0] != "now_playing"[0] && "playback"[0] != "now_playing"[0];
  }

  /** A title scrolls; a volume bar is drawn over it; the same volume is reported again and
      skipped while the bar is visible; the scroll's next frame covers the bar. */
  lemma ScrollCoversSkippedVolume()
    ensures var title := Render(0, TITLE, "scroll:Veins");
            var bar, again := Render(200_000_000, VOLUME, "vol:3:up"), Render(400_000_000, VOLUME, "vol:3:up");
            var p := Step(Step(DARK, Offer(title, Scroll)), Offer(bar, Still(true)));
            && Visible(p, again) && Step(p, Offer(again, Still(true))) == p
            && Step(p, Tick(PropertySlot("now_playing"))).shown[PumpLed] == title
  {
    KeysDiffer();
  }

  /** Playback is drawn, a title scrolls over it, playback is reported again: it is skipped, and
      the LED goes on showing the title. */
  lemma SkippedMayBeCovered()
    ensures var play, title := Render(0, PLAYBACK, "play"), Render(1, TITLE, "scroll:Veins");
            var p := Step(Step(Step(DARK, Offer(play, Still(true))), Offer(title, Scroll)), Tick(PropertySlot("now_playing")));
            Step(p, Offer(play, Still(true))) == p && p.shown[PumpLed] == title
  {
    KeysDiffer();
  }

  /** A named glyph that the registry lacks is let through without being drawn; once the
      registry has it, the same frame is skipped and still not drawn. */
  lemma LateGlyphIsNeverDrawn(p: Panel, r: Render, later: nat)
    requires Accepts(p.filter, r)
    ensures var again := r.(at := later);
            Step(Step(p, Offer(r, Still(false))), Offer(again, Still(true))).shown == p.shown
  {
  }

  /** A volume change 50 ms after another one is not drawn, and the LED keeps showing the
      older volume when nothing follows. */
  lemma LastVolumeMayBeLost()
    ensures var older, newer := Render(0, VOLUME, "vol:3:up"), Render(50_000_000, VOLUME, "vol:4:up");
            var p := Step(Step(DARK, Offer(older, Still(true))), Offer(newer, Still(true)));
            p.shown == map[PumpLed := older] && !Skipped(Step(DARK, Offer(older, Still(true))), newer)
  {
    assert "vol:3:up"[4] != "vol:4:up"[4];
  }

  /** On the desktop two zones share one slot: a second zone's title takes the first one's
      scroll away before it drew, and the first zone's title, reported again, is skipped. */
  lemma AbandonedScrollIsNeverDrawn()
    ensures var first := Render(0, PropertyTarget("now_playing", "a"), "scroll:A");
            var second := Render(1, PropertyTarget("now_playing", "b"), "scroll:B");
            var p := Step(Step(DARK, Offer(first, Scroll)), Offer(second, Scroll));
            && Step(p, Offer(first, Scroll)) == p && p.shown == map[] && p.running == map[PropertySlot("now_playing") := second]
  {
    assert "a"[0] != "b"[0];
  }
}
