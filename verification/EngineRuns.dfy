/** Whole runs of the engine: any interleaving of configuration updates, cycle updates and
    inputs, over all devices. */
module EngineRuns {
  import opened Common
  import opened Contracts
  import opened Selection
  import opened Routing
  import opened BucketIndex
  import opened Outcomes

  datatype Op =
    | Configure(op: ConfigOp)
    | ReplaceCycles(cycles: seq<DeviceCycle>)
    | UpsertCycle(cycle: DeviceCycle)
    | RemoveCycle(device: DeviceKey)
    | SetActive(device: DeviceKey, id: Uuid)
    | TryCycle(device: DeviceKey, input: InputPrimitive)
    | Input(device: DeviceKey, input: InputPrimitive)

  /** The engine after one operation. */
  function Apply(e: Engine, op: Op): (e': Engine)
    requires SelectionsValid(e)
    ensures SelectionsValid(e')
  {
    match op
    case Configure(c) => e.(byDevice := ApplyOp(e.byDevice, c))
    case ReplaceCycles(cs) => e.(cycles := CyclesOf(cs))
    case UpsertCycle(c) => e.(cycles := e.cycles[c.device := c])
    case RemoveCycle(k) => e.(cycles := e.cycles - {k})
    case SetActive(k, id) => SetCycleActive(e, k, id).0
    case TryCycle(k, input) => TryCycleSwitch(e, k, input).0
    case Input(k, input) => RouteWithModeKeepsValid(e, k, input); RouteWithMode(e, k, input).0
  }

  function ApplyAll(e: Engine, ops: seq<Op>): (e': Engine)
    requires SelectionsValid(e)
    ensures SelectionsValid(e')
  {
    if ops == [] then e else Apply(ApplyAll(e, ops[..|ops| - 1]), ops[|ops| - 1])
  }

  // ----- Selection sessions -----

  /** What an observer of one device's outcomes knows: no selection is open, or one is, with
      the identity and candidates it was entered with and the glyph last shown on the LED.
      `Broken` records an outcome that does not fit. */
  datatype Session =
    | Closed
    | Open(mappingId: Uuid, edgeId: string, candidates: seq<TargetCandidate>, shown: string)
    | Broken

  predicate Shows(candidates: seq<TargetCandidate>, glyph: string) {
    exists i :: 0 <= i < |candidates| && candidates[i].glyph == glyph
  }

  /** The committed target is the target of a candidate whose glyph is the one on the LED. */
  predicate Committed(candidates: seq<TargetCandidate>, shown: string, target: string) {
    exists i :: 0 <= i < |candidates| && candidates[i].glyph == shown && candidates[i].target == target
  }

  /** How the session changes with the outcome of an input, given the engine it met. */
  function Observe(s: Session, e: Engine, k: DeviceKey, input: InputPrimitive, outcome: Outcome): Session {
    match outcome
    case EnterSelection(edge, id, glyph) =>
      var m := FirstSwitchable(Bucket(e.byDevice, k), input);
      if s.Closed? && m.Some? && m.value.mappingId == id && m.value.edgeId == edge && Shows(m.value.targetCandidates, glyph)
      then Open(id, edge, m.value.targetCandidates, glyph) else Broken
    case UpdateSelection(id, glyph) =>
      if s.Open? && s.mappingId == id && Shows(s.candidates, glyph) then s.(shown := glyph) else Broken
    case CommitSelection(edge, id, target) =>
      if s.Open? && s.mappingId == id && s.edgeId == edge && Committed(s.candidates, s.shown, target) then Closed else Broken
    case CancelSelection(id) =>
      if s.Open? && s.mappingId == id then Closed else Broken
    case Normal(intents) =>
      if s.Open? && k !in e.cycles && intents != [] then Broken else s
    case CycleSwitch(device, _) =>
      if device == k && k in e.cycles then s else Broken
  }

  function ObserveOp(s: Session, e: Engine, k: DeviceKey, op: Op): Session
    requires SelectionsValid(e)
  {
    if op.Input? && op.device == k then Observe(s, e, k, op.input, RouteWithMode(e, k, op.input).1) else s
  }

  function ObserveAll(e: Engine, k: DeviceKey, ops: seq<Op>): Session
    requires SelectionsValid(e)
  {
    if ops == [] then Closed
    else ObserveOp(ObserveAll(e, k, ops[..|ops| - 1]), ApplyAll(e, ops[..|ops| - 1]), k, ops[|ops| - 1])
  }

  /** The engine's selection for `k` and the observer's session are the same thing. */
  predicate InStep(e: Engine, k: DeviceKey, s: Session) {
    if k in e.selection then
      var mode := e.selection[k];
      mode.Valid() && s == Open(mode.mappingId, mode.edgeId, mode.candidates, mode.Current().glyph)
    else s == Closed
  }

  lemma SelectingStaysInStep(e: Engine, k: DeviceKey, input: InputPrimitive, s: Session)
    requires k in e.selection && k !in e.cycles && InStep(e, k, s)
    ensures InStep(Selecting(e, k, input).0, k, Observe(s, e, k, input, Selecting(e, k, input).1))
  {
    var mode := e.selection[k];
    if input.Rotate? {
      var mode' := Rotated(mode, input.delta);
      RotatedValid(mode, input.delta);
      if Steps(mode.accumulator + input.delta) == 0 {
        Modular.ModSmall(mode.cursor, |mode.candidates|);
      }
      assert mode'.Current().glyph == mode'.candidates[mode'.cursor].glyph;
    } else if input.Press? {
      assert mode.Current() == mode.candidates[mode.cursor];
    }
  }

  lemma EnteringStaysInStep(e: Engine, k: DeviceKey, input: InputPrimitive, s: Session)
    requires k !in e.selection && k !in e.cycles && InStep(e, k, s)
    ensures InStep(EnterOrRoute(e, k, input).0, k, Observe(s, e, k, input, EnterOrRoute(e, k, input).1))
  {
    hide InputPrimitive.MatchesRoute, RouteMappings;
    var m := FirstSwitchable(Bucket(e.byDevice, k), input);
    if m.Some? {
      var mode := EnterMode(m.value);
      assert mode.Valid();
      assert mode.Current() == mode.candidates[mode.cursor];
    }
  }

  lemma InputStaysInStep(e: Engine, k: DeviceKey, input: InputPrimitive, s: Session)
    requires SelectionsValid(e) && InStep(e, k, s)
    ensures InStep(RouteWithMode(e, k, input).0, k, Observe(s, e, k, input, RouteWithMode(e, k, input).1))
  {
    hide InputPrimitive.MatchesRoute, RouteMappings, Selecting, EnterOrRoute;
    if k !in e.cycles {
      if k in e.selection {
        SelectingStaysInStep(e, k, input, s);
      } else {
        EnteringStaysInStep(e, k, input, s);
      }
    }
  }

  /** Inputs of other devices and updates of any kind leave a device's selection alone. */
  lemma OthersLeaveSelection(e: Engine, op: Op, k: DeviceKey)
    requires SelectionsValid(e) && !(op.Input? && op.device == k)
    ensures Lookup(Apply(e, op).selection, k) == Lookup(e.selection, k)
  {
    hide InputPrimitive.MatchesRoute, RouteMappings, ApplyOp;
  }

  /** Selection traces are well bracketed. Over every run, for every device: an Enter never
      meets an open selection; every Update, Commit and Cancel belongs to the open one and
      carries its Enter's mapping id; a commit carries its edge id and the target of the
      candidate whose glyph the LED shows; while selecting on an uncycled device no intent is
      emitted; and the engine holds a selection exactly while one is open. */
  lemma {:induction false} SelectionsWellBracketed(ops: seq<Op>, k: DeviceKey)
    ensures SelectionsValid(EMPTY_ENGINE)
    ensures InStep(ApplyAll(EMPTY_ENGINE, ops), k, ObserveAll(EMPTY_ENGINE, k, ops))
    ensures ObserveAll(EMPTY_ENGINE, k, ops) != Broken
    decreases |ops|
  {
    if ops == [] {
    } else {
      hide Observe, RouteWithMode;
      var n := |ops| - 1;
      SelectionsWellBracketed(ops[..n], k);
      var e, s, op := ApplyAll(EMPTY_ENGINE, ops[..n]), ObserveAll(EMPTY_ENGINE, k, ops[..n]), ops[n];
      if op.Input? && op.device == k {
        InputStaysInStep(e, k, op.input, s);
      } else {
        OthersLeaveSelection(e, op, k);
      }
    }
  }

  // ----- Cycles over runs -----

  /** The server's promise about a cycle: its active mapping is one of its members. */
  predicate WellFormed(c: DeviceCycle) {
    c.activeMappingId.Some? ==> c.activeMappingId.value in c.mappingIds
  }

  predicate CyclesWellFormed(e: Engine) {
    forall k :: k in e.cycles ==> e.cycles[k].device == k && WellFormed(e.cycles[k])
  }

  predicate SendsWellFormed(op: Op) {
    && (op.ReplaceCycles? ==> forall i :: 0 <= i < |op.cycles| ==> WellFormed(op.cycles[i]))
    && (op.UpsertCycle? ==> WellFormed(op.cycle))
  }

  lemma {:induction false} CyclesOfWellFormed(cs: seq<DeviceCycle>)
    requires forall i :: 0 <= i < |cs| ==> WellFormed(cs[i])
    ensures forall k :: k in CyclesOf(cs) ==> CyclesOf(cs)[k].device == k && WellFormed(CyclesOf(cs)[k])
    decreases |cs|
  {
    if cs == [] {
    } else {
      CyclesOfWellFormed(cs[..|cs| - 1]);
    }
  }

  lemma OpKeepsCycles(e: Engine, op: Op)
    requires SelectionsValid(e) && CyclesWellFormed(e) && SendsWellFormed(op)
    ensures CyclesWellFormed(Apply(e, op))
  {
    hide InputPrimitive.MatchesRoute, RouteMappings, ApplyOp, Selecting, EnterOrRoute;
    match op
    case ReplaceCycles(cs) => CyclesOfWellFormed(cs);
    case Input(k, input) =>
      if k !in e.cycles {
        assert Apply(e, op).cycles == e.cycles by {
          SelectionKeepsCycles(e, k, input);
        }
      }
    case _ =>
  }

  lemma SelectionKeepsCycles(e: Engine, k: DeviceKey, input: InputPrimitive)
    ensures k in e.selection && e.selection[k].Valid() ==> Selecting(e, k, input).0.cycles == e.cycles
    ensures EnterOrRoute(e, k, input).0.cycles == e.cycles
  {
  }

  /** Active stays a member: given well-formed cycles from the server, every engine step keeps
      every cycle's active mapping among its members. */
  lemma {:induction false} ActiveStaysMember(ops: seq<Op>)
    requires forall i :: 0 <= i < |ops| ==> SendsWellFormed(ops[i])
    ensures SelectionsValid(EMPTY_ENGINE)
    ensures CyclesWellFormed(ApplyAll(EMPTY_ENGINE, ops))
    decreases |ops|
  {
    if ops == [] {
      assert CyclesWellFormed(EMPTY_ENGINE);
    } else {
      hide CyclesWellFormed, SendsWellFormed, Apply;
      var n := |ops| - 1;
      forall i | 0 <= i < n ensures SendsWellFormed(ops[..n][i]) {
        assert ops[..n][i] == ops[i];
      }
      ActiveStaysMember(ops[..n]);
      OpKeepsCycles(ApplyAll(EMPTY_ENGINE, ops[..n]), ops[n]);
    }
  }

  // ----- What a cycle is after a run -----

  /** The last cycle of the list for the device is the one it gets. */
  lemma {:induction false} CyclesOfExactly(cs: seq<DeviceCycle>, k: DeviceKey) returns (i: int)
    ensures -1 <= i < |cs| && forall n :: i < n < |cs| ==> cs[n].device != k
    ensures i == -1 ==> k !in CyclesOf(cs)
    ensures i >= 0 ==> cs[i].device == k && k in CyclesOf(cs) && CyclesOf(cs)[k] == cs[i]
    decreases |cs|
  {
    if cs == [] {
      i := -1;
    } else if cs[|cs| - 1].device == k {
      i := |cs| - 1;
    } else {
      i := CyclesOfExactly(cs[..|cs| - 1], k);
      assert forall n :: 0 <= n < |cs| - 1 ==> cs[n] == cs[..|cs| - 1][n];
    }
  }

  /** The operation says what the device's cycle is, or that there is none. */
  predicate Sends(op: Op, k: DeviceKey) {
    op.ReplaceCycles? || (op.UpsertCycle? && op.cycle.device == k) || (op.RemoveCycle? && op.device == k)
  }

  ghost predicate SentBy(op: Op, k: DeviceKey, c: DeviceCycle) {
    && c.device == k
    && match op
       case UpsertCycle(sent) => c == sent
       case ReplaceCycles(cs) => exists i :: 0 <= i < |cs| && c == cs[i] && forall n :: i < n < |cs| ==> cs[n].device != k
       case _ => false
  }

  /** The operation makes `id` the active mapping of the cycle `c` has become: the server or a
      client names a member, or the gesture moves on to it. */
  ghost predicate Activates(c: DeviceCycle, op: Op, k: DeviceKey, id: Uuid) {
    match op
    case SetActive(d, named) => d == k && id == named && id in c.mappingIds
    case TryCycle(d, input) => d == k && Switches(c, input) && exists p: nat :: Follows(c, id, p)
    case Input(d, input) => d == k && Switches(c, input) && exists p: nat :: Follows(c, id, p)
    case _ => false
  }

  lemma FollowsOne(c: DeviceCycle, a: Uuid, b: Uuid, p: nat, q: nat)
    requires Follows(c, a, p) && Follows(c, b, q)
    ensures a == b
  {
  }

  lemma SentCycle(e: Engine, op: Op, k: DeviceKey)
    requires SelectionsValid(e) && Sends(op, k)
    ensures k in Apply(e, op).cycles ==> SentBy(op, k, Apply(e, op).cycles[k])
    ensures k !in Apply(e, op).cycles ==> forall c :: !SentBy(op, k, c)
  {
    if op.ReplaceCycles? {
      var i := CyclesOfExactly(op.cycles, k);
    }
  }

  lemma OtherCycle(e: Engine, op: Op, k: DeviceKey)
    requires SelectionsValid(e) && !Sends(op, k)
    ensures k in Apply(e, op).cycles <==> k in e.cycles
    ensures k in e.cycles ==>
              var c, c' := e.cycles[k], Apply(e, op).cycles[k];
              || (exists id :: Activates(c, op, k, id) && c' == c.(activeMappingId := Some(id)))
              || (c' == c && forall id :: !Activates(c, op, k, id))
  {
    hide InputPrimitive.MatchesRoute, RouteMappings, ApplyOp, Selecting, EnterOrRoute, Follows, Switches, NextActive, CycleStep, RouteWithMode, TryCycleSwitch;
    if k in e.cycles {
      match op
      case SetActive(d, id) => SetExactly(e, d, id);
      case TryCycle(d, input) => TriedCycle(e, k, d, input);
      case Input(d, input) => TriedCycle(e, k, d, input);
      case _ =>
    } else if op.Input? || op.TryCycle? {
      InputKeepsOtherCycles(e, op.device, op.input, k);
    }
  }

  lemma InputKeepsOtherCycles(e: Engine, d: DeviceKey, input: InputPrimitive, k: DeviceKey)
    requires SelectionsValid(e) && (k != d || k !in e.cycles)
    ensures Lookup(RouteWithMode(e, d, input).0.cycles, k) == Lookup(e.cycles, k)
    ensures Lookup(TryCycleSwitch(e, d, input).0.cycles, k) == Lookup(e.cycles, k)
  {
    hide InputPrimitive.MatchesRoute, RouteMappings, NextActive, Selecting, EnterOrRoute;
    if d !in e.cycles {
      SelectionKeepsCycles(e, d, input);
    }
  }

  lemma TriedCycle(e: Engine, k: DeviceKey, d: DeviceKey, input: InputPrimitive)
    requires SelectionsValid(e) && k in e.cycles
    ensures k in RouteWithMode(e, d, input).0.cycles && k in TryCycleSwitch(e, d, input).0.cycles
    ensures RouteWithMode(e, d, input).0.cycles[k] == TryCycleSwitch(e, d, input).0.cycles[k]
    ensures var c, c' := e.cycles[k], TryCycleSwitch(e, d, input).0.cycles[k];
            if d == k && Switches(c, input)
            then exists id :: c' == c.(activeMappingId := Some(id)) && exists p: nat :: Follows(c, id, p)
            else c' == c
  {
    hide InputPrimitive.MatchesRoute, Follows, Switches, RouteWithMode, TryCycleSwitch;
    if d == k {
      CycledExactly(e, k, input);
      if Switches(e.cycles[k], input) {
        var a, b := RouteWithMode(e, k, input).1.activeMappingId, TryCycleSwitch(e, k, input).1.value;
        var p: nat :| Follows(e.cycles[k], a, p);
        var q: nat :| Follows(e.cycles[k], b, q);
        FollowsOne(e.cycles[k], a, b, p, q);
      }
    } else {
      InputKeepsOtherCycles(e, d, input, k);
    }
  }

  /** The device's cycle as the run left it: members and gesture are those last sent for the
      device; the active mapping is the one last named or reached by the gesture since, else
      the one sent. */
  ghost predicate LastSent(ops: seq<Op>, k: DeviceKey, sent: int, active: int) {
    && -1 <= sent <= active < |ops| && (forall n :: sent < n < |ops| ==> !Sends(ops[n], k))
    && var e := ApplyAll(EMPTY_ENGINE, ops);
       if k !in e.cycles then sent == -1 || forall c :: !SentBy(ops[sent], k, c)
       else
         && sent >= 0
         && (exists c :: SentBy(ops[sent], k, c) && e.cycles[k] == c.(activeMappingId := e.cycles[k].activeMappingId)
                         && (active == sent ==> e.cycles[k].activeMappingId == c.activeMappingId))
         && (active > sent ==> ActivatedAt(ops, k, active, e.cycles[k].activeMappingId))
         && forall n, id :: active < n < |ops| ==> !ActivatedAt(ops, k, n, Some(id))
  }

  /** The `n`-th operation of the run makes this mapping active. */
  ghost predicate ActivatedAt(ops: seq<Op>, k: DeviceKey, n: int, id: Option<Uuid>)
    requires 0 <= n < |ops|
  {
    var e := ApplyAll(EMPTY_ENGINE, ops[..n]);
    id.Some? && k in e.cycles && Activates(e.cycles[k], ops[n], k, id.value)
  }

  lemma ActivatedEarlier(ops: seq<Op>, k: DeviceKey, n: int, id: Option<Uuid>)
    requires ops != [] && 0 <= n < |ops| - 1
    ensures ActivatedAt(ops[..|ops| - 1], k, n, id) <==> ActivatedAt(ops, k, n, id)
  {
    assert ops[..|ops| - 1][n] == ops[n] && ops[..|ops| - 1][..n] == ops[..n];
  }

  lemma SentLast(ops: seq<Op>, k: DeviceKey)
    requires ops != [] && Sends(ops[|ops| - 1], k)
    ensures LastSent(ops, k, |ops| - 1, |ops| - 1)
  {
    hide Sends, SentBy, Activates, Apply;
    var n := |ops| - 1;
    SentCycle(ApplyAll(EMPTY_ENGINE, ops[..n]), ops[n], k);
  }

  lemma OtherLast(ops: seq<Op>, k: DeviceKey, sent: int, active: int) returns (active': int)
    requires ops != [] && !Sends(ops[|ops| - 1], k) && LastSent(ops[..|ops| - 1], k, sent, active)
    ensures LastSent(ops, k, sent, active')
  {
    hide Sends, SentBy, Activates, Apply;
    var n := |ops| - 1;
    var init := ops[..n];
    var e, op := ApplyAll(EMPTY_ENGINE, init), ops[n];
    assert forall i :: 0 <= i < n ==> init[i] == ops[i];
    OtherCycle(e, op, k);
    forall i, id | 0 <= i < n ensures ActivatedAt(init, k, i, id) <==> ActivatedAt(ops, k, i, id) {
      ActivatedEarlier(ops, k, i, id);
    }
    var e' := ApplyAll(EMPTY_ENGINE, ops);
    active' := active;
    if k in e.cycles {
      var c, c' := e.cycles[k], e'.cycles[k];
      assert forall id :: ActivatedAt(ops, k, n, Some(id)) <==> Activates(c, op, k, id);
      hide ActivatedAt;
      if exists id :: Activates(c, op, k, id) && c' == c.(activeMappingId := Some(id)) {
        active' := n;
      }
    }
  }

  /** Over every run of configuration updates, cycle updates and inputs, each device's cycle
      is the one last sent for it, but for its active mapping. */
  lemma {:induction false} CycleIsLastSent(ops: seq<Op>, k: DeviceKey) returns (sent: int, active: int)
    ensures LastSent(ops, k, sent, active)
    decreases |ops|
  {
    if ops == [] {
      sent, active := -1, -1;
    } else {
      hide Sends, LastSent;
      sent, active := CycleIsLastSent(ops[..|ops| - 1], k);
      if Sends(ops[|ops| - 1], k) {
        SentLast(ops, k);
        sent, active := |ops| - 1, |ops| - 1;
      } else {
        active := OtherLast(ops, k, sent, active);
      }
    }
  }

  // ----- Runs in parts -----

  lemma {:induction false} ApplyAllConcat(e: Engine, a: seq<Op>, b: seq<Op>)
    requires SelectionsValid(e)
    ensures ApplyAll(e, a + b) == ApplyAll(ApplyAll(e, a), b)
    decreases |b|
  {
    hide Apply, SelectionsValid;
    if b == [] {
      assert a + b == a;
    } else {
      assert (a + b)[..|a + b| - 1] == a + b[..|b| - 1];
      ApplyAllConcat(e, a, b[..|b| - 1]);
    }
  }

  lemma ApplyOne(e: Engine, op: Op)
    requires SelectionsValid(e)
    ensures ApplyAll(e, [op]) == Apply(e, op)
  {
    hide Apply;
    assert [op][..0] == [];
  }

  /** The configuration updates of a run. */
  function Configures(ops: seq<Op>): seq<ConfigOp> {
    if ops == [] then []
    else Configures(ops[..|ops| - 1]) + (if ops[|ops| - 1].Configure? then [ops[|ops| - 1].op] else [])
  }

  lemma {:induction false} RunOpsSnoc(buckets: Buckets, ops: seq<ConfigOp>, op: ConfigOp)
    ensures BucketIndex.RunOps(buckets, ops + [op]) == ApplyOp(BucketIndex.RunOps(buckets, ops), op)
    decreases |ops|
  {
    hide ApplyOp;
    if ops == [] {
      assert ops + [op] == [op] && [op][1..] == [];
      assert BucketIndex.RunOps(ApplyOp(buckets, op), []) == ApplyOp(buckets, op);
    } else {
      assert (ops + [op])[0] == ops[0] && (ops + [op])[1..] == ops[1..] + [op];
      RunOpsSnoc(ApplyOp(buckets, ops[0]), ops[1..], op);
    }
  }

  /** The buckets are those of the configuration updates alone: no input and no cycle update
      changes them. */
  lemma {:induction false} BucketsAreConfigured(ops: seq<Op>)
    ensures ApplyAll(EMPTY_ENGINE, ops).byDevice == BucketIndex.RunOps(map[], Configures(ops))
    decreases |ops|
  {
    if ops == [] {
    } else {
      var init, op := ops[..|ops| - 1], ops[|ops| - 1];
      BucketsAreConfigured(init);
      var e := ApplyAll(EMPTY_ENGINE, init);
      hide ApplyOp, RouteWithMode, TryCycleSwitch, ApplyAll, BucketIndex.RunOps;
      if op.Configure? {
        RunOpsSnoc(map[], Configures(init), op.op);
        assert ApplyAll(EMPTY_ENGINE, ops) == Apply(e, op) by {
          ApplyLast(EMPTY_ENGINE, ops);
        }
      } else {
        ApplyLast(EMPTY_ENGINE, ops);
        assert Configures(init) + [] == Configures(init);
        OthersKeepBuckets(e, op);
      }
    }
  }

  lemma ApplyLast(e: Engine, ops: seq<Op>)
    requires SelectionsValid(e) && ops != []
    ensures ApplyAll(e, ops) == Apply(ApplyAll(e, ops[..|ops| - 1]), ops[|ops| - 1])
  {
  }

  lemma OthersKeepBuckets(e: Engine, op: Op)
    requires SelectionsValid(e) && !op.Configure?
    ensures Apply(e, op).byDevice == e.byDevice
  {
    hide InputPrimitive.MatchesRoute, RouteMappings, FirstSwitchable, EnterMode, Rotated, Steps, CycleStep;
  }

  // ----- Empty buckets -----

  /** Two engines that differ at most in buckets that are there but empty. */
  ghost predicate Alike(a: Engine, b: Engine) {
    PruneEmpty(a.byDevice) == PruneEmpty(b.byDevice) && a.selection == b.selection && a.cycles == b.cycles
  }

  /** Every input is answered alike, every cycle operation and every lookup too. */
  ghost predicate AnswerAlike(a: Engine, b: Engine)
    requires SelectionsValid(a) && SelectionsValid(b)
  {
    && (forall k, input :: RouteWithMode(a, k, input).1 == RouteWithMode(b, k, input).1)
    && (forall k, input :: RouteInput(a, k, input) == RouteInput(b, k, input))
    && (forall k, input :: TryCycleSwitch(a, k, input).1 == TryCycleSwitch(b, k, input).1)
    && (forall k, id :: SetCycleActive(a, k, id).1 == SetCycleActive(b, k, id).1)
    && (forall k, serviceType, target ::
          RulesForTarget(Bucket(a.byDevice, k), serviceType, target) == RulesForTarget(Bucket(b.byDevice, k), serviceType, target))
  }

  lemma PrunedAlike(a: Buckets, b: Buckets)
    ensures PruneEmpty(a) == PruneEmpty(b) <==> forall k :: Bucket(a, k) == Bucket(b, k)
  {
    if PruneEmpty(a) == PruneEmpty(b) {
      forall k ensures Bucket(a, k) == Bucket(b, k) {
        assert Bucket(a, k) == Bucket(PruneEmpty(a), k) && Bucket(b, k) == Bucket(PruneEmpty(b), k);
      }
    }
    if forall k :: Bucket(a, k) == Bucket(b, k) {
      forall k ensures k in PruneEmpty(a) <==> k in PruneEmpty(b)
               ensures k in PruneEmpty(a) ==> PruneEmpty(a)[k] == PruneEmpty(b)[k]
      {
        assert Bucket(a, k) == Bucket(b, k);
      }
    }
  }

  lemma EnterAlike(a: Engine, b: Engine, k: DeviceKey, input: InputPrimitive)
    requires Bucket(a.byDevice, k) == Bucket(b.byDevice, k) && a.selection == b.selection
    ensures EnterOrRoute(a, k, input).1 == EnterOrRoute(b, k, input).1
    ensures EnterOrRoute(a, k, input).0 == a.(selection := EnterOrRoute(b, k, input).0.selection)
  {
    hide InputPrimitive.MatchesRoute, RouteMappings, FirstSwitchable, EnterMode;
  }

  lemma SelectingAlike(a: Engine, b: Engine, k: DeviceKey, input: InputPrimitive)
    requires a.selection == b.selection && k in a.selection && a.selection[k].Valid()
    ensures Selecting(a, k, input).1 == Selecting(b, k, input).1
    ensures Selecting(a, k, input).0 == a.(selection := Selecting(b, k, input).0.selection)
  {
    hide Rotated, Steps;
  }

  lemma InputAlike(a: Engine, b: Engine, k: DeviceKey, input: InputPrimitive)
    requires SelectionsValid(a) && SelectionsValid(b) && Alike(a, b)
    ensures RouteWithMode(a, k, input).1 == RouteWithMode(b, k, input).1
    ensures Alike(RouteWithMode(a, k, input).0, RouteWithMode(b, k, input).0)
  {
    hide InputPrimitive.MatchesRoute, RouteMappings, Selecting, EnterOrRoute, CycleStep, PruneEmpty, SelectionMode.Valid;
    PrunedAlike(a.byDevice, b.byDevice);
    assert Bucket(a.byDevice, k) == Bucket(b.byDevice, k);
    if k !in a.cycles {
      if k in a.selection {
        SelectingAlike(a, b, k, input);
        SelectingAlike(b, a, k, input);
      } else {
        EnterAlike(a, b, k, input);
        EnterAlike(b, a, k, input);
      }
    }
  }

  lemma AlikeAnswer(a: Engine, b: Engine)
    requires SelectionsValid(a) && SelectionsValid(b) && Alike(a, b)
    ensures AnswerAlike(a, b)
  {
    PrunedAlike(a.byDevice, b.byDevice);
    forall k, input ensures RouteWithMode(a, k, input).1 == RouteWithMode(b, k, input).1 {
      InputAlike(a, b, k, input);
    }
    hide InputPrimitive.MatchesRoute, RouteMappings, RouteWithMode, CycleStep, PruneEmpty, Alike, RulesForTarget, SelectionsValid;
  }

  /** The same operation on either engine: a target switch takes its snapshot in whatever
      order that engine's hash map yields. */
  predicate SameOp(x: Op, y: Op) {
    if x.Configure? && x.op.SwitchTarget?
    then y.Configure? && y.op.SwitchTarget? && y.op.switchId == x.op.switchId && y.op.target == x.op.target
    else x == y
  }

  ghost predicate Legal(e: Engine, op: Op) {
    op.Configure? ==> LegalOp(e.byDevice, op.op)
  }

  ghost predicate Lists(e: Engine, flat: seq<Mapping>) {
    Refines(e.byDevice, flat) && DistinctIds(flat)
  }

  function FlatAfter(flat: seq<Mapping>, op: Op): seq<Mapping> {
    if op.Configure? then ApplyFlat(flat, op.op) else flat
  }

  lemma OpKeepsList(e: Engine, flat: seq<Mapping>, op: Op)
    requires SelectionsValid(e) && Lists(e, flat) && Legal(e, op)
    ensures Lists(Apply(e, op), FlatAfter(flat, op))
  {
    if op.Configure? {
      OpRefines(e.byDevice, flat, op.op);
    } else {
      hide InputPrimitive.MatchesRoute, RouteMappings, ApplyOp, Refines, DistinctIds;
    }
  }

  lemma OpStaysAlike(a: Engine, b: Engine, flat: seq<Mapping>, x: Op, y: Op)
    requires SelectionsValid(a) && SelectionsValid(b) && Alike(a, b) && Lists(a, flat)
    requires SameOp(x, y) && Legal(a, x) && Legal(b, y)
    ensures Alike(Apply(a, x), Apply(b, y))
  {
    if x.Configure? {
      PrunedAlike(a.byDevice, b.byDevice);
      assert Lists(b, flat) by {
        assert forall k :: Bucket(a.byDevice, k) == OfDevice(flat, k);
      }
      OpKeepsList(a, flat, x);
      OpKeepsList(b, flat, y);
      SameRefinementSameBuckets(Apply(a, x).byDevice, Apply(b, y).byDevice, FlatAfter(flat, x));
    } else if x.Input? {
      InputAlike(a, b, x.device, x.input);
    } else {
      hide InputPrimitive.MatchesRoute, PruneEmpty, CyclesOf, NextActive;
    }
  }

  ghost predicate LegalAll(e: Engine, ops: seq<Op>)
    requires SelectionsValid(e)
  {
    if ops == [] then true
    else LegalAll(e, ops[..|ops| - 1]) && Legal(ApplyAll(e, ops[..|ops| - 1]), ops[|ops| - 1])
  }

  /** A bucket that is there but empty cannot be told from one that is not there: two engines
      that differ only so answer everything alike after any run of the same operations,
      whatever orders their hash maps yield, and still differ only so. */
  lemma {:induction false} EmptyBucketsUnobservable(a: Engine, b: Engine, flat: seq<Mapping>, xs: seq<Op>, ys: seq<Op>)
    returns (flat': seq<Mapping>)
    requires SelectionsValid(a) && SelectionsValid(b) && Alike(a, b) && Lists(a, flat)
    requires |xs| == |ys| && (forall i :: 0 <= i < |xs| ==> SameOp(xs[i], ys[i]))
    requires LegalAll(a, xs) && LegalAll(b, ys)
    ensures Alike(ApplyAll(a, xs), ApplyAll(b, ys)) && AnswerAlike(ApplyAll(a, xs), ApplyAll(b, ys))
    ensures Lists(ApplyAll(a, xs), flat')
    decreases |xs|
  {
    hide Alike, AnswerAlike, Lists, Legal, SameOp, Apply;
    if xs == [] {
      flat' := flat;
    } else {
      var n := |xs| - 1;
      var init := EmptyBucketsUnobservable(a, b, flat, xs[..n], ys[..n]);
      flat' := FlatAfter(init, xs[n]);
      OpKeepsList(ApplyAll(a, xs[..n]), init, xs[n]);
      OpStaysAlike(ApplyAll(a, xs[..n]), ApplyAll(b, ys[..n]), init, xs[n], ys[n]);
    }
    AlikeAnswer(ApplyAll(a, xs), ApplyAll(b, ys));
  }
}
