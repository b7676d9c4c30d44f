/** What an input yields: the bindings it answers to, the intent a route makes of it, and which
    mappings of a device speak, in which order. */
module RoutedIntents {
  import opened Common
  import opened Contracts
  import opened Routing

  // ----- The wire form of an intent -----

  /** The names and fields that peers and the server know the intents by. */
  lemma PlaybackWireForms()
    ensures Play.Split() == ("play", JObject(map[])) && Pause.Split() == ("pause", JObject(map[]))
    ensures PlayPause.Split() == ("play_pause", JObject(map[])) && Stop.Split() == ("stop", JObject(map[]))
    ensures Next.Split() == ("next", JObject(map[])) && Previous.Split() == ("previous", JObject(map[]))
  {
  }

  lemma SwitchWireForms()
    ensures Mute.Split() == ("mute", JObject(map[])) && Unmute.Split() == ("unmute", JObject(map[]))
    ensures PowerToggle.Split() == ("power_toggle", JObject(map[]))
    ensures PowerOn.Split() == ("power_on", JObject(map[])) && PowerOff.Split() == ("power_off", JObject(map[]))
  {
  }

  lemma DeltaWireForms(x: real)
    ensures VolumeChange(x).Split() == ("volume_change", JObject(map["delta" := JNumber(x)]))
    ensures BrightnessChange(x).Split() == ("brightness_change", JObject(map["delta" := JNumber(x)]))
    ensures ColorTemperatureChange(x).Split() == ("color_temperature_change", JObject(map["delta" := JNumber(x)]))
    ensures SeekRelative(x).Split() == ("seek_relative", JObject(map["seconds" := JNumber(x)]))
  {
  }

  lemma AbsoluteWireForms(x: real)
    ensures VolumeSet(x).Split() == ("volume_set", JObject(map["value" := JNumber(x)]))
    ensures BrightnessSet(x).Split() == ("brightness_set", JObject(map["value" := JNumber(x)]))
    ensures SeekAbsolute(x).Split() == ("seek_absolute", JObject(map["seconds" := JNumber(x)]))
  {
  }

  predicate Numbered(i: Intent) {
    || i.VolumeChange? || i.VolumeSet? || i.SeekRelative? || i.SeekAbsolute?
    || i.BrightnessChange? || i.BrightnessSet? || i.ColorTemperatureChange?
  }

  /** The names that come with a number. */
  predicate NumberedWord(name: string) {
    || name == "volume_change" || name == "volume_set" || name == "seek_relative" || name == "seek_absolute"
    || name == "brightness_change" || name == "brightness_set" || name == "color_temperature_change"
  }

  lemma NumberedWords(name: string, params: Json)
    requires Reassemble(name, params).Ok? && Numbered(Reassemble(name, params).value)
    ensures NumberedWord(name)
  {
    hide NumberField, WithNumber;
  }

  lemma NumberedName(name: string, params: Json)
    requires Reassemble(name, params).Ok? && NumberedWord(name)
    ensures Reassemble(name, params).value.Name() == name
  {
    hide NumberField;
  }

  lemma UnnumberedName(name: string, params: Json)
    requires Reassemble(name, params).Ok? && !Numbered(Reassemble(name, params).value)
    ensures Reassemble(name, params).value.Name() == name
  {
    hide NumberField;
  }

  lemma ReassembledName(name: string, params: Json)
    requires Reassemble(name, params).Ok?
    ensures Reassemble(name, params).value.Name() == name
  {
    hide Reassemble, Numbered, Intent.Name;
    if Numbered(Reassemble(name, params).value) {
      NumberedWords(name, params);
      NumberedName(name, params);
    } else {
      UnnumberedName(name, params);
    }
  }

  lemma ReassembledGiven(name: string, params: Json)
    requires Reassemble(name, params).Ok?
    ensures Given(Reassemble(name, params).value.Params(), params)
  {
    hide NumberField, Given;
    forall v ensures Given(map["delta" := JNumber(v)], params) <==> NumberField(params, "delta") == Ok(v) {
      NumberGiven(params, "delta", v);
    }
    forall v ensures Given(map["value" := JNumber(v)], params) <==> NumberField(params, "value") == Ok(v) {
      NumberGiven(params, "value", v);
    }
    forall v ensures Given(map["seconds" := JNumber(v)], params) <==> NumberField(params, "seconds") == Ok(v) {
      NumberGiven(params, "seconds", v);
    }
    assert Given(map[], params) by {
      NothingGiven(params);
    }
  }

  lemma NothingGiven(params: Json)
    ensures Given(map[], params)
  {
  }

  /** Exactly: a peer reads an intent off the wire if and only if it goes by the intent's name
      and gives its number, when it has one; anything else is an error. */
  lemma ReassembleExactly(name: string, params: Json, i: Intent)
    ensures Reassemble(name, params) == Ok(i) <==> i.Name() == name && Given(i.Params(), params)
  {
    hide Reassemble, Intent.Name, Intent.Params, Given;
    if Reassemble(name, params) == Ok(i) {
      ReassembledName(name, params);
      ReassembledGiven(name, params);
    }
    if i.Name() == name && Given(i.Params(), params) {
      ReassembleGiven(i, params);
    }
  }

  // ----- What a route makes of an input -----

  /** The intent a route asks for by name; an older spelling is still understood. */
  function WireName(route: Route): string {
    if route.intent == "playpause" then "play_pause" else route.intent
  }

  /** The names of the intents that carry the amount turned or slid. */
  predicate Continuous(name: string) {
    name == "volume_change" || name == "brightness_change" || name == "color_temperature_change" || name == "seek_relative"
  }

  predicate Plain(name: string) {
    || name == "play" || name == "pause" || name == "play_pause" || name == "stop" || name == "next" || name == "previous"
    || name == "mute" || name == "unmute" || name == "power_toggle" || name == "power_on" || name == "power_off"
  }

  /** The amount an input turns or slides by, times the route's damping when that is a number. */
  ghost predicate Amount(route: Route, input: InputPrimitive, x: real) {
    exists turned ::
      && (input == Rotate(turned) || input == Slide(turned))
      && x == if "damping" in route.params && route.params["damping"].JNumber? then turned * route.params["damping"].n else turned
  }

  /** The fields a route and an input give an intent of the route's name. */
  ghost predicate Fields(route: Route, input: InputPrimitive, fields: map<string, Json>) {
    if Continuous(route.intent) then
      exists x :: Amount(route, input, x) && fields == map[(if route.intent == "seek_relative" then "seconds" else "delta") := JNumber(x)]
    else if route.intent == "volume_set" then
      "value" in route.params && route.params["value"].JNumber? && fields == map["value" := route.params["value"]]
    else
      Plain(WireName(route)) && fields == map[]
  }

  lemma FieldsUnique(route: Route, input: InputPrimitive, f: map<string, Json>, g: map<string, Json>)
    requires Fields(route, input, f) && Fields(route, input, g)
    ensures f == g
  {
    hide Continuous, Plain;
    if Continuous(route.intent) {
      var x :| Amount(route, input, x) && f == map[(if route.intent == "seek_relative" then "seconds" else "delta") := JNumber(x)];
      var y :| Amount(route, input, y) && g == map[(if route.intent == "seek_relative" then "seconds" else "delta") := JNumber(y)];
      AmountUnique(route, input, x, y);
    }
  }

  lemma AmountUnique(route: Route, input: InputPrimitive, x: real, y: real)
    requires Amount(route, input, x) && Amount(route, input, y)
    ensures x == y
  {
  }

  lemma ContinuousName(route: Route, input: InputPrimitive)
    requires Continuous(route.intent) && BuildIntent(route, input).Some?
    ensures BuildIntent(route, input).value.Name() == WireName(route)
  {
    hide Intent.Name, WireName;
    NotOlder(route);
    var x := input.ContinuousValue().value * Damping(route);
    DeltaWireForms(x);
    var i := BuildIntent(route, input).value;
    assert i == VolumeChange(x) || i == BrightnessChange(x) || i == ColorTemperatureChange(x) || i == SeekRelative(x);
    hide BuildIntent;
  }

  lemma NotOlder(route: Route)
    requires Continuous(route.intent)
    ensures WireName(route) == route.intent
  {
  }

  lemma ContinuousFields(route: Route, input: InputPrimitive)
    requires Continuous(route.intent) && BuildIntent(route, input).Some?
    ensures Fields(route, input, BuildIntent(route, input).value.Params())
  {
    hide Plain, Intent.Name, WireName;
    var turned := input.ContinuousValue().value;
    assert Amount(route, input, turned * Damping(route));
  }

  lemma PlainBuilt(route: Route, input: InputPrimitive)
    requires !Continuous(route.intent) && route.intent != "volume_set" && BuildIntent(route, input).Some?
    ensures var i := BuildIntent(route, input).value;
            i.Name() == WireName(route) && i.Params() == map[]
  {
    hide Damping, Scaled;
  }

  lemma PlainName(route: Route, input: InputPrimitive)
    requires !Continuous(route.intent) && route.intent != "volume_set" && BuildIntent(route, input).Some?
    ensures Plain(WireName(route))
  {
    hide Damping, Scaled, Intent.Name;
  }

  lemma BuiltDiscrete(route: Route, input: InputPrimitive)
    requires !Continuous(route.intent) && BuildIntent(route, input).Some?
    ensures var i := BuildIntent(route, input).value;
            i.Name() == WireName(route) && Fields(route, input, i.Params())
  {
    hide Amount, Damping;
    if route.intent != "volume_set" {
      hide BuildIntent, Continuous, Plain, Intent.Name, Intent.Params, WireName;
      PlainBuilt(route, input);
      PlainName(route, input);
    } else {
      hide Plain;
    }
  }

  lemma BuiltFields(route: Route, input: InputPrimitive)
    ensures BuildIntent(route, input).Some? ==>
              var i := BuildIntent(route, input).value;
              i.Name() == WireName(route) && Fields(route, input, i.Params())
  {
    hide BuildIntent, Continuous, Fields, Intent.Name, Intent.Params, WireName;
    if BuildIntent(route, input).Some? {
      if Continuous(route.intent) {
        ContinuousName(route, input);
        ContinuousFields(route, input);
      } else {
        BuiltDiscrete(route, input);
      }
    }
  }

  lemma FieldsAreBuilt(route: Route, input: InputPrimitive, fields: map<string, Json>)
    requires Fields(route, input, fields)
    ensures BuildIntent(route, input).Some?
  {
  }

  /** Exactly: a matching route makes the intent `i` of an input if and only if `i` goes by the
      route's name on the wire and carries what the route and the input give: the amount
      turned or slid, damped, for the four continuous intents, the route's own number for
      `volume_set`, nothing otherwise. */
  lemma BuildIntentExactly(route: Route, input: InputPrimitive, i: Intent)
    ensures BuildIntent(route, input) == Some(i) <==> i.Name() == WireName(route) && Fields(route, input, i.Params())
  {
    hide BuildIntent, Fields, Intent.Name, Intent.Params, WireName, Reassemble;
    BuiltFields(route, input);
    if i.Name() == WireName(route) && Fields(route, input, i.Params()) {
      FieldsAreBuilt(route, input, i.Params());
      var built := BuildIntent(route, input).value;
      FieldsUnique(route, input, i.Params(), built.Params());
      ReassembleInvertsSplit(i);
      ReassembleInvertsSplit(built);
    }
  }

  /** ... and it makes none if and only if it goes by no name that routes know, or wants an
      amount from an input that has none, or a number that it does not have. */
  lemma BuildsNothingExactly(route: Route, input: InputPrimitive)
    ensures BuildIntent(route, input).None? <==>
            || (Continuous(route.intent) && !input.Rotate? && !input.Slide?)
            || (route.intent == "volume_set" && !("value" in route.params && route.params["value"].JNumber?))
            || (!Continuous(route.intent) && route.intent != "volume_set" && !Plain(WireName(route)))
  {
    hide BuildIntent, Plain, Intent.Name, Intent.Params, WireName;
    BuiltFields(route, input);
    assert Continuous(route.intent) ==> route.intent != "volume_set";
    if BuildIntent(route, input).None? {
      hide Continuous;
      if Continuous(route.intent) && (input.Rotate? || input.Slide?) {
        var x := AmountOf(route, input);
        FieldsAreBuilt(route, input, map[(if route.intent == "seek_relative" then "seconds" else "delta") := JNumber(x)]);
      } else if route.intent == "volume_set" && "value" in route.params && route.params["value"].JNumber? {
        FieldsAreBuilt(route, input, map["value" := route.params["value"]]);
      } else if !Continuous(route.intent) && route.intent != "volume_set" && Plain(WireName(route)) {
        FieldsAreBuilt(route, input, map[]);
      }
    }
  }

  lemma AmountOf(route: Route, input: InputPrimitive) returns (x: real)
    requires input.Rotate? || input.Slide?
    ensures Amount(route, input, x)
  {
    var turned := if input.Rotate? then input.delta else input.slideValue;
    assert input == Rotate(turned) || input == Slide(turned);
    x := if "damping" in route.params && route.params["damping"].JNumber? then turned * route.params["damping"].n else turned;
  }

  // ----- Which mappings speak -----

  /** The first of the routes that answers the input with an intent answers it with `i`. */
  ghost predicate Answers(routes: seq<Route>, input: InputPrimitive, i: Intent) {
    exists j: nat :: j < |routes| && AnswersAt(routes, input, i, j)
  }

  predicate AnswersAt(routes: seq<Route>, input: InputPrimitive, i: Intent, j: nat)
    requires j < |routes|
  {
    && Fires(routes[j], input) && BuildIntent(routes[j], input) == Some(i)
    && forall n :: 0 <= n < j ==> !Fires(routes[n], input)
  }

  predicate Fires(route: Route, input: InputPrimitive) {
    input.MatchesRoute(route.input) && BuildIntent(route, input).Some?
  }

  lemma {:induction false} FirstFires(routes: seq<Route>, input: InputPrimitive) returns (j: int)
    ensures -1 <= j < |routes|
    ensures j == -1 ==> FirstIntent(routes, input).None? && forall n :: 0 <= n < |routes| ==> !Fires(routes[n], input)
    ensures j >= 0 ==> Fires(routes[j], input) && FirstIntent(routes, input) == BuildIntent(routes[j], input)
    ensures j >= 0 ==> forall n :: 0 <= n < j ==> !Fires(routes[n], input)
    decreases |routes|
  {
    hide BuildIntent, InputPrimitive.MatchesRoute;
    if routes == [] {
      j := -1;
    } else if Fires(routes[0], input) {
      j := 0;
    } else {
      hide Fires;
      var rest := routes[1..];
      j := FirstFires(rest, input);
      assert forall n :: 0 < n < |routes| ==> routes[n] == rest[n - 1];
      assert FirstIntent(routes, input) == FirstIntent(rest, input) by {
        NotFirst(routes, input);
      }
      j := if j == -1 then -1 else j + 1;
    }
  }

  lemma NotFirst(routes: seq<Route>, input: InputPrimitive)
    requires routes != [] && !Fires(routes[0], input)
    ensures FirstIntent(routes, input) == FirstIntent(routes[1..], input)
  {
  }

  lemma FirstIntentExactly(routes: seq<Route>, input: InputPrimitive, i: Intent)
    ensures FirstIntent(routes, input) == Some(i) <==> Answers(routes, input, i)
  {
    hide BuildIntent, Fires, FirstIntent;
    var j := FirstFires(routes, input);
    assert FirstIntent(routes, input) == Some(i) ==> j >= 0;
    if j >= 0 && FirstIntent(routes, input) == Some(i) {
      assert AnswersAt(routes, input, i, j);
    }
    if Answers(routes, input, i) {
      var n: nat :| n < |routes| && AnswersAt(routes, input, i, n);
      assert n == j;
    }
  }

  /** The first candidate that is the mapping's current target. */
  predicate CurrentCandidate(m: Mapping, j: int) {
    && 0 <= j < |m.targetCandidates| && m.targetCandidates[j].target == m.serviceTarget
    && forall n :: 0 <= n < j ==> m.targetCandidates[n].target != m.serviceTarget
  }

  /** What the mapping says for itself: an active one that the filter lets through answers for
      its target, by the current candidate's service type and routes where it has its own. */
  ghost predicate Says(m: Mapping, input: InputPrimitive, filter: Option<Uuid>, r: RoutedIntent) {
    && m.active && (filter == None || filter == Some(m.mappingId)) && r.serviceTarget == m.serviceTarget
    && if exists j :: CurrentCandidate(m, j) then
         exists j :: CurrentCandidate(m, j) && SaysAs(m, m.targetCandidates[j], input, r)
       else r.serviceType == m.serviceType && Answers(m.routes, input, r.intent)
  }

  ghost predicate SaysAs(m: Mapping, c: TargetCandidate, input: InputPrimitive, r: RoutedIntent) {
    && r.serviceType == (match c.serviceType case Some(t) => t case None => m.serviceType)
    && Answers(match c.routes case Some(rs) => rs case None => m.routes, input, r.intent)
  }

  lemma EffectiveExactly(m: Mapping)
    ensures forall j :: CurrentCandidate(m, j) ==>
              var c := m.targetCandidates[j];
              m.EffectiveFor(m.serviceTarget) ==
                ((match c.serviceType case Some(t) => t case None => m.serviceType),
                 (match c.routes case Some(rs) => rs case None => m.routes))
    ensures (forall j :: !CurrentCandidate(m, j)) ==> m.EffectiveFor(m.serviceTarget) == (m.serviceType, m.routes)
  {
    var i := PositionOf(m.targetCandidates, m.serviceTarget);
    if i.Some? {
      assert CurrentCandidate(m, i.value);
    }
  }

  lemma SaysAsCurrent(m: Mapping, input: InputPrimitive, filter: Option<Uuid>, r: RoutedIntent)
    ensures Says(m, input, filter, r) <==>
            && m.active && (filter == None || filter == Some(m.mappingId)) && r.serviceTarget == m.serviceTarget
            && r.serviceType == m.EffectiveFor(m.serviceTarget).0
            && Answers(m.EffectiveFor(m.serviceTarget).1, input, r.intent)
  {
    hide Answers, Mapping.EffectiveFor, CurrentCandidate;
    EffectiveExactly(m);
  }

  lemma RouteOneExactly(m: Mapping, input: InputPrimitive, filter: Option<Uuid>, r: RoutedIntent)
    ensures RouteOne(m, input, filter) == [r] <==> Says(m, input, filter, r)
  {
    hide Answers, Says, FirstIntent, Mapping.EffectiveFor;
    SaysAsCurrent(m, input, filter, r);
    FirstIntentExactly(m.EffectiveFor(m.serviceTarget).1, input, r.intent);
  }

  lemma AtMostOne(m: Mapping, input: InputPrimitive, filter: Option<Uuid>)
    ensures |RouteOne(m, input, filter)| <= 1
  {
    hide FirstIntent;
  }

  /** The mappings of a list that speak, in the order of the list, one intent each. */
  ghost predicate SpeakInOrder(ms: seq<Mapping>, input: InputPrimitive, filter: Option<Uuid>, out: seq<RoutedIntent>, who: seq<nat>) {
    && |who| == |out|
    && (forall t :: 0 <= t < |who| ==> who[t] < |ms| && Says(ms[who[t]], input, filter, out[t]))
    && (forall t, u :: 0 <= t < u < |who| ==> who[t] < who[u])
    && (forall i, r :: 0 <= i < |ms| && Says(ms[i], input, filter, r) ==> i in who)
  }

  lemma OneMoreSilent(ms: seq<Mapping>, m: Mapping, input: InputPrimitive, filter: Option<Uuid>, out: seq<RoutedIntent>, who: seq<nat>)
    requires SpeakInOrder(ms, input, filter, out, who) && forall r :: !Says(m, input, filter, r)
    ensures SpeakInOrder(ms + [m], input, filter, out, who)
  {
    hide Says;
  }

  lemma OneMoreSpeaks(ms: seq<Mapping>, m: Mapping, input: InputPrimitive, filter: Option<Uuid>, out: seq<RoutedIntent>, who: seq<nat>, r: RoutedIntent)
    requires SpeakInOrder(ms, input, filter, out, who) && Says(m, input, filter, r)
    ensures SpeakInOrder(ms + [m], input, filter, out + [r], who + [|ms|])
  {
    hide Says;
    var all, more := ms + [m], who + [|ms|];
    assert more[|who|] == |ms|;
    forall i, x | 0 <= i < |all| && Says(all[i], input, filter, x) ensures i in more {
      if i < |ms| {
        assert Says(ms[i], input, filter, x) && i in who;
      }
    }
  }

  /** Exactly the mappings that have something to say speak, in the order of the list. */
  lemma {:induction false} RoutedInOrder(ms: seq<Mapping>, input: InputPrimitive, filter: Option<Uuid>) returns (who: seq<nat>)
    ensures SpeakInOrder(ms, input, filter, RouteMappings(ms, input, filter), who)
    decreases |ms|
  {
    hide Says, RouteOne;
    if ms == [] {
      who := [];
    } else {
      hide SpeakInOrder;
      var init, m := ms[..|ms| - 1], ms[|ms| - 1];
      assert ms == init + [m];
      who := RoutedInOrder(init, input, filter);
      var before, said := RouteMappings(init, input, filter), RouteOne(m, input, filter);
      AtMostOne(m, input, filter);
      if said == [] {
        forall r ensures !Says(m, input, filter, r) {
          RouteOneExactly(m, input, filter, r);
        }
        OneMoreSilent(init, m, input, filter, before, who);
        assert before + [] == before;
      } else {
        assert said == [said[0]];
        RouteOneExactly(m, input, filter, said[0]);
        OneMoreSpeaks(init, m, input, filter, before, who, said[0]);
        who := who + [|init|];
      }
    }
  }
}
