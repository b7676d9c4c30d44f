/** Device inputs, service intents and the configuration entities exchanged with the server. */
module Contracts {
  import opened Common

  type Uuid = nat
  type U8 = x: int | 0 <= x < 256

  datatype Direction = Up | Down | Left | Right
  datatype TouchArea = TopArea | BottomArea | LeftArea | RightArea

  datatype InputPrimitive =
    | Rotate(delta: real)
    | Press
    | Release
    | LongPress
    | Swipe(direction: Direction)
    | Slide(slideValue: real)
    | Hover(proximity: real)
    | Touch(area: TouchArea)
    | LongTouch(longArea: TouchArea)
    | KeyPress(key: nat)
    | Button(id: U8)
    | Fly(flyDirection: Direction)
  {
    function ContinuousValue(): Option<real> {
      match this
      case Rotate(d) => Some(d)
      case Slide(v) => Some(v)
      case _ => None
    }

    /** Does this input trigger a route, selection or cycle binding written as `s`? */
    predicate MatchesRoute(s: string) {
      match this
      case Rotate(_) => s == "rotate"
      case Press => s == "press"
      case Release => s == "release"
      case LongPress => s == "long_press"
      case Slide(_) => s == "slide"
      case Hover(_) => s == "hover"
      case Swipe(d) =>
        s == (match d case Up => "swipe_up" case Down => "swipe_down" case Left => "swipe_left" case Right => "swipe_right")
      case Touch(a) =>
        s == (match a case TopArea => "touch_top" case BottomArea => "touch_bottom"
              case LeftArea => "touch_left" case RightArea => "touch_right")
      case LongTouch(a) =>
        s == (match a case TopArea => "long_touch_top" case BottomArea => "long_touch_bottom"
              case LeftArea => "long_touch_left" case RightArea => "long_touch_right")
      case Button(id) => |s| >= 7 && s[..7] == "button_" && ParseU8(s[7..]) == Some(id)
      case Fly(d) => (d == Left && s == "fly_left") || (d == Right && s == "fly_right")
      case KeyPress(_) => false
    }
  }

  /** The value of a run of ASCII digits; nothing when another character occurs. */
  function ParseDigits(s: string): Option<nat> {
    if s == "" then Some(0)
    else
      var c := s[|s| - 1];
      var high := ParseDigits(s[..|s| - 1]);
      if high.Some? && '0' <= c <= '9' then Some(10 * high.value + (c as int - '0' as int)) else None
  }

  /** Rust's `str::parse::<u8>`: an optional leading plus, at least one digit, at most 255. */
  function ParseU8(s: string): Option<nat> {
    var digits := if |s| > 1 && s[0] == '+' then s[1..] else s;
    if digits == "" then None
    else
      var v := ParseDigits(digits);
      if v.Some? && v.value < 256 then v else None
  }

  datatype Intent =
    | Play | Pause | PlayPause | Stop | Next | Previous
    | VolumeChange(delta: real)
    | VolumeSet(value: real)
    | Mute | Unmute
    | SeekRelative(seconds: real)
    | SeekAbsolute(position: real)
    | BrightnessChange(brightnessDelta: real)
    | BrightnessSet(brightness: real)
    | ColorTemperatureChange(temperatureDelta: real)
    | PowerToggle | PowerOn | PowerOff
  {
    function Name(): string {
      match this
      case Play => "play"
      case Pause => "pause"
      case PlayPause => "play_pause"
      case Stop => "stop"
      case Next => "next"
      case Previous => "previous"
      case VolumeChange(_) => "volume_change"
      case VolumeSet(_) => "volume_set"
      case Mute => "mute"
      case Unmute => "unmute"
      case SeekRelative(_) => "seek_relative"
      case SeekAbsolute(_) => "seek_absolute"
      case BrightnessChange(_) => "brightness_change"
      case BrightnessSet(_) => "brightness_set"
      case ColorTemperatureChange(_) => "color_temperature_change"
      case PowerToggle => "power_toggle"
      case PowerOn => "power_on"
      case PowerOff => "power_off"
    }

    function Params(): map<string, Json> {
      match this
      case VolumeChange(d) => map["delta" := JNumber(d)]
      case VolumeSet(v) => map["value" := JNumber(v)]
      case SeekRelative(s) => map["seconds" := JNumber(s)]
      case SeekAbsolute(s) => map["seconds" := JNumber(s)]
      case BrightnessChange(d) => map["delta" := JNumber(d)]
      case BrightnessSet(v) => map["value" := JNumber(v)]
      case ColorTemperatureChange(d) => map["delta" := JNumber(d)]
      case _ => map[]
    }

    /** The wire form of an intent: its snake-case name and its remaining fields. */
    function Split(): (string, Json) {
      (Name(), JObject(Params()))
    }
  }

  /** A numeric field of a parameter object. */
  function NumberField(params: Json, name: string): Result<real> {
    if params.JObject? && name in params.fields && params.fields[name].JNumber?
    then Ok(params.fields[name].n)
    else Err
  }

  function WithNumber(r: Result<real>, make: real -> Intent): Result<Intent> {
    match r case Ok(v) => Ok(make(v)) case Err => Err
  }

  /** Rebuild an intent from its wire form; unknown names and missing or non-numeric
      fields are errors, other fields are ignored. */
  function Reassemble(name: string, params: Json): Result<Intent> {
    if name == "play" then Ok(Play)
    else if name == "pause" then Ok(Pause)
    else if name == "play_pause" then Ok(PlayPause)
    else if name == "stop" then Ok(Stop)
    else if name == "next" then Ok(Next)
    else if name == "previous" then Ok(Previous)
    else if name == "volume_change" then WithNumber(NumberField(params, "delta"), v => VolumeChange(v))
    else if name == "volume_set" then WithNumber(NumberField(params, "value"), v => VolumeSet(v))
    else if name == "mute" then Ok(Mute)
    else if name == "unmute" then Ok(Unmute)
    else if name == "seek_relative" then WithNumber(NumberField(params, "seconds"), v => SeekRelative(v))
    else if name == "seek_absolute" then WithNumber(NumberField(params, "seconds"), v => SeekAbsolute(v))
    else if name == "brightness_change" then WithNumber(NumberField(params, "delta"), v => BrightnessChange(v))
    else if name == "brightness_set" then WithNumber(NumberField(params, "value"), v => BrightnessSet(v))
    else if name == "color_temperature_change" then WithNumber(NumberField(params, "delta"), v => ColorTemperatureChange(v))
    else if name == "power_toggle" then Ok(PowerToggle)
    else if name == "power_on" then Ok(PowerOn)
    else if name == "power_off" then Ok(PowerOff)
    else Err
  }

  datatype Route = Route(input: string, intent: string, params: map<string, Json>)

  /** A concrete intent destined for one service target. */
  datatype RoutedIntent = RoutedIntent(serviceType: string, serviceTarget: string, intent: Intent)

  datatype FeedbackRule = FeedbackRule(state: string, feedbackType: string, mapping: Json)

  datatype TargetCandidate = TargetCandidate(
    target: string,
    displayLabel: string,
    glyph: string,
    serviceType: Option<string>,
    routes: Option<seq<Route>>)

  /** The key of an engine bucket, cycle or selection. */
  datatype DeviceKey = DeviceKey(deviceType: string, deviceId: string)

  datatype Mapping = Mapping(
    mappingId: Uuid,
    edgeId: string,
    device: DeviceKey,
    serviceType: string,
    serviceTarget: string,
    routes: seq<Route>,
    feedback: seq<FeedbackRule>,
    active: bool,
    targetCandidates: seq<TargetCandidate>,
    targetSwitchOn: Option<string>)
  {
    /** The service type and routes in force while `target` is the mapping's target. */
    function EffectiveFor(target: string): (string, seq<Route>) {
      var i := PositionOf(targetCandidates, target);
      if i.None? then (serviceType, routes)
      else
        var c := targetCandidates[i.value];
        (if c.serviceType.Some? then c.serviceType.value else serviceType,
         if c.routes.Some? then c.routes.value else routes)
    }
  }

  /** The index of the first candidate for `target`. */
  function PositionOf(candidates: seq<TargetCandidate>, target: string): (i: Option<nat>)
    ensures i.Some? ==> i.value < |candidates| && candidates[i.value].target == target
    ensures i.Some? ==> forall j :: 0 <= j < i.value ==> candidates[j].target != target
    ensures i.None? ==> forall j :: 0 <= j < |candidates| ==> candidates[j].target != target
  {
    if candidates == [] then None
    else if candidates[0].target == target then Some(0)
    else
      var i := PositionOf(candidates[1..], target);
      assert forall j :: 1 <= j < |candidates| ==> candidates[j] == candidates[1..][j - 1];
      if i.Some? then Some(i.value + 1) else None
  }

  datatype DeviceCycle = DeviceCycle(
    device: DeviceKey,
    mappingIds: seq<Uuid>,
    activeMappingId: Option<Uuid>,
    cycleGesture: Option<string>)

  datatype Glyph = Glyph(name: string, pattern: string, builtin: bool)

  datatype EdgeConfig = EdgeConfig(
    edgeId: string,
    mappings: seq<Mapping>,
    glyphs: seq<Glyph>,
    deviceCycles: seq<DeviceCycle>)

  function Damping(route: Route): real {
    if "damping" in route.params && route.params["damping"].JNumber? then route.params["damping"].n else 1.0
  }

  function Scaled(input: InputPrimitive, damping: real, make: real -> Intent): Option<Intent> {
    match input.ContinuousValue() case Some(v) => Some(make(v * damping)) case None => None
  }

  /** The intent a matching route produces for an input, if any. */
  function BuildIntent(route: Route, input: InputPrimitive): Option<Intent> {
    var name := route.intent;
    var damping := Damping(route);
    if name == "play" then Some(Play)
    else if name == "pause" then Some(Pause)
    else if name == "play_pause" || name == "playpause" then Some(PlayPause)
    else if name == "stop" then Some(Stop)
    else if name == "next" then Some(Next)
    else if name == "previous" then Some(Previous)
    else if name == "mute" then Some(Mute)
    else if name == "unmute" then Some(Unmute)
    else if name == "power_toggle" then Some(PowerToggle)
    else if name == "power_on" then Some(PowerOn)
    else if name == "power_off" then Some(PowerOff)
    else if name == "volume_change" then Scaled(input, damping, v => VolumeChange(v))
    else if name == "volume_set" then
      if "value" in route.params && route.params["value"].JNumber? then Some(VolumeSet(route.params["value"].n)) else None
    else if name == "seek_relative" then Scaled(input, damping, v => SeekRelative(v))
    else if name == "brightness_change" then Scaled(input, damping, v => BrightnessChange(v))
    else if name == "color_temperature_change" then Scaled(input, damping, v => ColorTemperatureChange(v))
    else None
  }

  /** The parameters give every one of these fields; others are ignored. */
  predicate Given(fields: map<string, Json>, params: Json) {
    forall f :: f in fields ==> params.JObject? && f in params.fields && params.fields[f] == fields[f]
  }

  lemma NumberGiven(params: Json, field: string, v: real)
    ensures Given(map[field := JNumber(v)], params) <==> NumberField(params, field) == Ok(v)
  {
    assert field in map[field := JNumber(v)];
  }

  lemma ReassemblePlain(i: Intent, params: Json)
    requires !i.VolumeChange? && !i.VolumeSet? && !i.SeekRelative? && !i.SeekAbsolute?
    requires !i.BrightnessChange? && !i.BrightnessSet? && !i.ColorTemperatureChange?
    ensures Reassemble(i.Name(), params) == Ok(i)
  {
    hide NumberField, WithNumber;
  }

  lemma ReassembleNumber(i: Intent, params: Json, field: string, v: real)
    requires i.Params() == map[field := JNumber(v)] && Given(i.Params(), params)
    ensures Reassemble(i.Name(), params) == Ok(i)
  {
    hide NumberField, Given;
    NumberGiven(params, field, v);
    assert field in i.Params() && i.Params()[field] == JNumber(v);
  }

  /** A peer reads the intent off the wire from its name and its fields, whatever else comes
      with them. */
  lemma ReassembleGiven(i: Intent, params: Json)
    requires Given(i.Params(), params)
    ensures Reassemble(i.Name(), params) == Ok(i)
  {
    hide Reassemble, Intent.Name, Given;
    match i
    case VolumeChange(d) => ReassembleNumber(i, params, "delta", d);
    case VolumeSet(v) => ReassembleNumber(i, params, "value", v);
    case SeekRelative(s) => ReassembleNumber(i, params, "seconds", s);
    case SeekAbsolute(s) => ReassembleNumber(i, params, "seconds", s);
    case BrightnessChange(d) => ReassembleNumber(i, params, "delta", d);
    case BrightnessSet(v) => ReassembleNumber(i, params, "value", v);
    case ColorTemperatureChange(d) => ReassembleNumber(i, params, "delta", d);
    case _ => ReassemblePlain(i, params);
  }

  /** An intent forwarded through the server arrives at the peer edge as the intent that
      was routed here. */
  lemma ReassembleInvertsSplit(i: Intent)
    ensures Reassemble(i.Split().0, i.Split().1) == Ok(i)
  {
    hide Reassemble, Intent.Name, Intent.Params;
    ReassembleGiven(i, JObject(i.Params()));
  }
}
