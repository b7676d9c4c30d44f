/** Target-selection mode: a cursor over candidates driven by accumulated rotation.
    Rotation amounts are reals: f64 rounding is not modelled. */
module Selection {
  import opened Common
  import opened Contracts
  import opened Modular

  const SELECTION_ROTATION_STEP := 0.25

  datatype SelectionMode = SelectionMode(
    mappingId: Uuid,
    edgeId: string,
    candidates: seq<TargetCandidate>,
    cursor: nat,
    accumulator: real)
  {
    predicate Valid() {
      && cursor < |candidates|
      && -SELECTION_ROTATION_STEP < accumulator < SELECTION_ROTATION_STEP
    }

    function Current(): TargetCandidate
      requires cursor < |candidates|
    {
      candidates[cursor]
    }
  }

  /** The rotation that makes `k` steps. */
  function Turn(k: int): real {
    k as real * 0.25
  }

  lemma TurnAdd(j: int, k: int)
    ensures Turn(j + k) == Turn(j) + Turn(k)
    ensures Turn(0) == 0.0 && Turn(1) == SELECTION_ROTATION_STEP
  {
  }

  /** Rounding toward zero. */
  function Trunc(x: real): int {
    if x >= 0.0 then x.Floor else -((-x).Floor)
  }

  /** The whole steps contained in an amount of rotation. */
  function Steps(amount: real): int {
    Trunc(amount / 0.25)
  }

  /** `mode` after rotating by `delta`: the cursor moves by the whole steps accumulated, the
      rest stays in the accumulator. */
  function Rotated(mode: SelectionMode, delta: real): SelectionMode
    requires mode.candidates != []
  {
    var total := mode.accumulator + delta;
    mode.(cursor := Wrap(mode.cursor + Steps(total), |mode.candidates|),
          accumulator := total - Turn(Steps(total)))
  }

  /** `SelectionMode::advance`: step the cursor once per full rotation step, forwards or
      backwards, and say whether it moved. */
  method Advance(mode: SelectionMode, delta: real) returns (mode': SelectionMode, moved: bool)
    requires mode.candidates != [] ==> mode.Valid()
    ensures mode.candidates == [] ==> mode' == mode && !moved
    ensures mode.candidates != [] ==>
              && mode' == Rotated(mode, delta)
              && (moved <==> Steps(mode.accumulator + delta) != 0)
              && mode'.Valid()
  {
    mode' := mode;
    moved := false;
    var n := |mode.candidates|;
    if n == 0 {
      return;
    }
    var cursor, accumulator := mode.cursor, mode.accumulator + delta;
    ghost var total, k := accumulator, 0;
    ModSmall(cursor, n);
    while accumulator >= SELECTION_ROTATION_STEP
      invariant accumulator == total - Turn(k)
      invariant k >= 0 && (k > 0 ==> accumulator >= 0.0)
      invariant cursor == (mode.cursor + k) % n
      invariant moved <==> k != 0
      decreases (accumulator / 0.25).Floor
    {
      ModAdd(mode.cursor + k, 1, n);
      cursor := (cursor + 1) % n;
      accumulator := accumulator - SELECTION_ROTATION_STEP;
      moved := true;
      k := k + 1;
    }
    while accumulator <= -SELECTION_ROTATION_STEP
      invariant accumulator == total - Turn(k)
      invariant accumulator < SELECTION_ROTATION_STEP
      invariant k > 0 ==> accumulator >= 0.0
      invariant k < 0 ==> accumulator <= 0.0
      invariant cursor == (mode.cursor + k) % n
      invariant moved <==> k != 0
      decreases (-accumulator / 0.25).Floor
    {
      ModAdd(mode.cursor + k, n - 1, n);
      ModCycle(mode.cursor + k - 1, n);
      cursor := (cursor + n - 1) % n;
      accumulator := accumulator + SELECTION_ROTATION_STEP;
      moved := true;
      k := k - 1;
    }
    StepsUnique(total, k);
    mode' := mode.(cursor := cursor, accumulator := accumulator);
  }

  /** The whole steps are the only ones that leave less than a step, on the side turned to. */
  lemma StepsUnique(total: real, k: int)
    requires -SELECTION_ROTATION_STEP < total - Turn(k) < SELECTION_ROTATION_STEP
    requires k > 0 ==> total - Turn(k) >= 0.0
    requires k < 0 ==> total - Turn(k) <= 0.0
    ensures k == Steps(total)
  {
  }

  lemma RotatedValid(mode: SelectionMode, delta: real)
    requires mode.Valid()
    ensures Rotated(mode, delta).Valid()
  {
  }

  // ----- Whole runs of rotations -----

  function RotatedAll(mode: SelectionMode, deltas: seq<real>): SelectionMode
    requires mode.candidates != []
    ensures RotatedAll(mode, deltas).candidates == mode.candidates
  {
    if deltas == [] then mode else Rotated(RotatedAll(mode, deltas[..|deltas| - 1]), deltas[|deltas| - 1])
  }

  function Sum(deltas: seq<real>): real {
    if deltas == [] then 0.0 else Sum(deltas[..|deltas| - 1]) + deltas[|deltas| - 1]
  }

  /** The net steps the cursor took over a run. */
  function NetSteps(mode: SelectionMode, deltas: seq<real>): int
    requires mode.candidates != []
  {
    if deltas == [] then 0
    else
      var n := |deltas| - 1;
      NetSteps(mode, deltas[..n]) + Steps(RotatedAll(mode, deltas[..n]).accumulator + deltas[n])
  }

  /** One rotation: what was turned is the steps taken plus what waits. */
  lemma RotatedOnce(mode: SelectionMode, delta: real)
    requires mode.Valid()
    ensures var k := Steps(mode.accumulator + delta);
            && Rotated(mode, delta).Valid()
            && Turn(k) + Rotated(mode, delta).accumulator == mode.accumulator + delta
            && Rotated(mode, delta).cursor == Wrap(mode.cursor + k, |mode.candidates|)
  {
    RotatedValid(mode, delta);
  }

  /** Rotation is conserved over any run: what was turned is the net steps taken plus what
      waits in the accumulator, and what waits is less than a step. The cursor shows the net
      steps modulo the number of candidates. */
  lemma {:induction false} RotationConserved(mode: SelectionMode, deltas: seq<real>)
    requires mode.Valid()
    ensures RotatedAll(mode, deltas).Valid()
    ensures Turn(NetSteps(mode, deltas)) + RotatedAll(mode, deltas).accumulator
            == mode.accumulator + Sum(deltas)
    ensures RotatedAll(mode, deltas).cursor == Wrap(mode.cursor + NetSteps(mode, deltas), |mode.candidates|)
    decreases |deltas|
  {
    hide Steps, Rotated, SelectionMode.Valid, Wrap, Turn;
    var c := |mode.candidates|;
    ValidNonEmpty(mode);
    if deltas == [] {
      WrapSmall(mode.cursor, c);
      TurnAdd(0, 0);
    } else {
      var n := |deltas| - 1;
      var before := NetSteps(mode, deltas[..n]);
      var m := RotatedAll(mode, deltas[..n]);
      var k := Steps(m.accumulator + deltas[n]);
      RotationConserved(mode, deltas[..n]);
      RotatedOnce(m, deltas[n]);
      WrapAdd(mode.cursor + before, k, c);
      TurnAdd(before, k);
    }
  }

  lemma ValidNonEmpty(mode: SelectionMode)
    requires mode.Valid()
    ensures mode.candidates != [] && mode.cursor < |mode.candidates|
  {
  }

  /** From a fresh selection, the net displacement is within one step of the ideal one. */
  lemma WithinOneStep(mode: SelectionMode, deltas: seq<real>)
    requires mode.Valid() && mode.accumulator == 0.0
    ensures -1.0 < NetSteps(mode, deltas) as real - Sum(deltas) / SELECTION_ROTATION_STEP < 1.0
  {
    RotationConserved(mode, deltas);
  }

  /** Turning back by what was turned puts the cursor back, however both turns were cut. */
  lemma TurningBackReturns(mode: SelectionMode, deltas: seq<real>)
    requires mode.Valid() && mode.accumulator == 0.0 && Sum(deltas) == 0.0
    ensures RotatedAll(mode, deltas) == mode
  {
    RotationConserved(mode, deltas);
    KeepsIdentity(mode, deltas);
    var net := NetSteps(mode, deltas);
    hide Sum, NetSteps, RotatedAll;
    assert -1.0 < net as real < 1.0;
    assert net == 0;
    WrapSmall(mode.cursor, |mode.candidates|);
  }

  lemma {:induction false} KeepsIdentity(mode: SelectionMode, deltas: seq<real>)
    requires mode.candidates != []
    ensures RotatedAll(mode, deltas).mappingId == mode.mappingId && RotatedAll(mode, deltas).edgeId == mode.edgeId
    decreases |deltas|
  {
    if deltas == [] {
    } else {
      KeepsIdentity(mode, deltas[..|deltas| - 1]);
    }
  }

  /** An amount of rotation forwards, or backwards; standing still counts as both. */
  predicate Turns(amount: real, forward: bool) {
    if forward then amount >= 0.0 else amount <= 0.0
  }

  lemma SplitForward(a: real, b: real)
    requires a >= 0.0 && b >= 0.0
    ensures Steps(a) + Steps(a - Turn(Steps(a)) + b) == Steps(a + b)
    ensures 0.0 <= a - Turn(Steps(a)) < SELECTION_ROTATION_STEP
  {
    var k := Steps(a);
    var rest := a - Turn(k) + b;
    assert rest / 0.25 == (a + b) / 0.25 - k as real;
  }

  lemma StepsBack(a: real)
    ensures Steps(-a) == -Steps(a) && Turn(-Steps(a)) == -Turn(Steps(a))
  {
    assert (-a) / 0.25 == -(a / 0.25);
  }

  lemma SplitSteps(a: real, b: real, forward: bool)
    requires Turns(a, forward) && Turns(b, forward)
    ensures Steps(a) + Steps(a - Turn(Steps(a)) + b) == Steps(a + b)
    ensures Turns(a - Turn(Steps(a)), forward)
  {
    hide Steps, Turn;
    if forward {
      SplitForward(a, b);
    } else {
      SplitForward(-a, -b);
      StepsBack(a);
      StepsBack(a + b);
      StepsBack(a - Turn(Steps(a)) + b);
      assert -a + -b == -(a + b);
      assert -a - Turn(Steps(-a)) + -b == -(a - Turn(Steps(a)) + b);
    }
  }

  lemma RotatedTwice(mode: SelectionMode, a: real, b: real, forward: bool)
    requires mode.Valid() && Turns(mode.accumulator, forward) && Turns(a, forward) && Turns(b, forward)
    ensures Rotated(Rotated(mode, a), b) == Rotated(mode, a + b)
  {
    hide Steps, Trunc, Wrap, Turn;
    var n := |mode.candidates|;
    var t := mode.accumulator + a;
    var m := Rotated(mode, a);
    var first, second := Steps(t), Steps(m.accumulator + b);
    SplitSteps(t, b, forward);
    assert mode.accumulator + (a + b) == t + b;
    WrapAdd(mode.cursor + first, second, n);
    TurnAdd(first, second);
  }

  lemma RotatedByNothing(mode: SelectionMode)
    requires mode.Valid()
    ensures Rotated(mode, 0.0) == mode
  {
    WrapSmall(mode.cursor, |mode.candidates|);
  }

  /** Turning in one direction, forwards or backwards, only the total matters: however the
      encoder cuts the turn into events, the cursor and the accumulator end where a single
      event would leave them. */
  lemma {:induction false} OneDirectionIgnoresCutting(mode: SelectionMode, deltas: seq<real>, forward: bool)
    requires mode.Valid() && Turns(mode.accumulator, forward)
    requires forall i :: 0 <= i < |deltas| ==> Turns(deltas[i], forward)
    ensures RotatedAll(mode, deltas) == Rotated(mode, Sum(deltas))
    ensures Turns(Sum(deltas), forward)
    decreases |deltas|
  {
    hide Rotated;
    if deltas == [] {
      RotatedByNothing(mode);
    } else {
      var n := |deltas| - 1;
      OneDirectionIgnoresCutting(mode, deltas[..n], forward);
      RotatedTwice(mode, Sum(deltas[..n]), deltas[n], forward);
    }
  }

  // ----- Turning both ways -----

  /** The last amount turned by during a run, counting what waited at its start, that does not
      lie strictly between `lo` and `hi`. */
  function LastOutside(mode: SelectionMode, deltas: seq<real>, lo: real, hi: real): Option<real> {
    var turned := mode.accumulator + Sum(deltas);
    if !(lo < turned < hi) then Some(turned)
    else if deltas == [] then None
    else LastOutside(mode, deltas[..|deltas| - 1], lo, hi)
  }

  /** The cutting into events does not show: the turn ends on a step, or it came into the
      step it ends in from the side of the start, or it never left that step. */
  predicate CuttingHidden(mode: SelectionMode, deltas: seq<real>) {
    var turned := mode.accumulator + Sum(deltas);
    var k := Steps(turned);
    if turned == Turn(k) then true
    else if turned > 0.0 then
      var o := LastOutside(mode, deltas, Turn(k), Turn(k + 1));
      o.Some? ==> o.value <= Turn(k)
    else
      var o := LastOutside(mode, deltas, Turn(k - 1), Turn(k));
      o.Some? ==> o.value >= Turn(k)
  }

  /** Where one more event leaves the net steps, seen from the boundary between `m` and the
      step after it: inside that step the side stays, elsewhere the amount turned decides. */
  lemma SideOf(net: int, turned: real, m: int)
    ensures Turn(m) < turned < Turn(m + 1) ==>
              (net + Steps(turned - Turn(net)) <= m <==> net <= m)
    ensures turned <= Turn(m) ==> net + Steps(turned - Turn(net)) <= m
    ensures turned >= Turn(m + 1) ==> net + Steps(turned - Turn(net)) > m
  {
    var x := turned - Turn(net);
    assert x / 0.25 == turned / 0.25 - net as real;
  }

  /** The net steps of any run, from the amounts turned alone: they are at most `m` exactly
      if the last amount outside the step after `m` lies below it, or if every amount was
      inside and the run started from there. */
  lemma {:induction false} NetStepsAtMost(mode: SelectionMode, deltas: seq<real>, m: int)
    requires mode.Valid()
    ensures var o := LastOutside(mode, deltas, Turn(m), Turn(m + 1));
            NetSteps(mode, deltas) <= m <==> if o.Some? then o.value <= Turn(m) else 0 <= m
    decreases |deltas|
  {
    ValidNonEmpty(mode);
    if deltas == [] {
    } else {
      hide Steps, Turn, Rotated;
      var init := deltas[..|deltas| - 1];
      NetStepsAtMost(mode, init, m);
      RotationConserved(mode, init);
      SideOf(NetSteps(mode, init), mode.accumulator + Sum(deltas), m);
    }
  }

  lemma TurnInjective(j: int, k: int)
    ensures Turn(j) == Turn(k) ==> j == k
    ensures Turn(j) <= Turn(k) ==> j <= k
  {
  }

  /** The steps of an amount are those nearest to it on the side of the start. */
  lemma StepsAround(turned: real)
    ensures var k := Steps(turned);
            && (turned > 0.0 ==> Turn(k) <= turned < Turn(k + 1) && 0 <= k)
            && (turned < 0.0 ==> Turn(k - 1) < turned <= Turn(k) && k <= 0)
            && (turned == 0.0 ==> turned == Turn(k))
  {
  }

  lemma {:induction false} LastOutsideLies(mode: SelectionMode, deltas: seq<real>, lo: real, hi: real)
    ensures var o, turned := LastOutside(mode, deltas, lo, hi), mode.accumulator + Sum(deltas);
            && (o.Some? ==> !(lo < o.value < hi))
            && (!(lo < turned < hi) ==> o == Some(turned))
    decreases |deltas|
  {
    if deltas == [] {
    } else {
      LastOutsideLies(mode, deltas[..|deltas| - 1], lo, hi);
    }
  }

  /** The net steps lie where the amount turned says, give or take the step in progress. */
  lemma NetStepsNear(mode: SelectionMode, deltas: seq<real>)
    requires mode.Valid()
    ensures Turn(NetSteps(mode, deltas) - 1) < mode.accumulator + Sum(deltas) < Turn(NetSteps(mode, deltas) + 1)
  {
    hide NetSteps, Sum, RotatedAll;
    RotationConserved(mode, deltas);
  }

  lemma NetStepsOnStep(mode: SelectionMode, deltas: seq<real>, k: int)
    requires mode.Valid() && mode.accumulator + Sum(deltas) == Turn(k)
    ensures NetSteps(mode, deltas) == k
  {
    hide NetSteps, Sum;
    NetStepsNear(mode, deltas);
  }

  lemma NetStepsForward(mode: SelectionMode, deltas: seq<real>, k: int)
    requires mode.Valid() && 0 <= k && Turn(k) < mode.accumulator + Sum(deltas) < Turn(k + 1)
    ensures var o := LastOutside(mode, deltas, Turn(k), Turn(k + 1));
            NetSteps(mode, deltas) == k <==> (o.Some? ==> o.value <= Turn(k))
  {
    hide NetSteps, Sum, LastOutside;
    NetStepsNear(mode, deltas);
    assert k <= NetSteps(mode, deltas);
    NetStepsAtMost(mode, deltas, k);
  }

  lemma NetStepsBackward(mode: SelectionMode, deltas: seq<real>, k: int)
    requires mode.Valid() && k <= 0 && Turn(k - 1) < mode.accumulator + Sum(deltas) < Turn(k)
    ensures var o := LastOutside(mode, deltas, Turn(k - 1), Turn(k));
            NetSteps(mode, deltas) == k <==> (o.Some? ==> o.value >= Turn(k))
  {
    hide NetSteps, Sum, LastOutside;
    NetStepsNear(mode, deltas);
    assert NetSteps(mode, deltas) <= k;
    NetStepsAtMost(mode, deltas, k - 1);
    LastOutsideLies(mode, deltas, Turn(k - 1), Turn(k));
  }

  lemma NetStepsAreSteps(mode: SelectionMode, deltas: seq<real>)
    requires mode.Valid()
    ensures NetSteps(mode, deltas) == Steps(mode.accumulator + Sum(deltas)) <==> CuttingHidden(mode, deltas)
  {
    hide Steps, NetSteps, Sum, LastOutside, Turn;
    var turned := mode.accumulator + Sum(deltas);
    var k := Steps(turned);
    StepsAround(turned);
    if turned == Turn(k) {
      NetStepsOnStep(mode, deltas, k);
    } else if turned > 0.0 {
      NetStepsForward(mode, deltas, k);
    } else {
      NetStepsBackward(mode, deltas, k);
    }
  }

  /** Whichever ways the wheel turns: the cursor and the accumulator end where one event of
      the whole amount would leave them, if and only if the cutting does not show in the
      amounts turned. */
  lemma CuttingExactly(mode: SelectionMode, deltas: seq<real>)
    requires mode.Valid()
    ensures RotatedAll(mode, deltas) == Rotated(mode, Sum(deltas)) <==> CuttingHidden(mode, deltas)
  {
    hide CuttingHidden, Steps;
    RotationConserved(mode, deltas);
    KeepsIdentity(mode, deltas);
    NetStepsAreSteps(mode, deltas);
    TurnInjective(NetSteps(mode, deltas), Steps(mode.accumulator + Sum(deltas)));
  }

  /** An input where it does show: a step forwards and most of a step back leave the cursor
      one further than their sum does. */
  lemma BothWaysFeelCutting(mode: SelectionMode)
    requires mode.Valid() && mode.cursor == 0 && mode.accumulator == 0.0 && |mode.candidates| == 2
    ensures RotatedAll(mode, [0.25, -0.125]).cursor == 1 && Rotated(mode, 0.25 + -0.125).cursor == 0
  {
    assert [0.25, -0.125][..1] == [0.25] && [0.25][..0] == [];
    assert RotatedAll(mode, [0.25]) == Rotated(mode, 0.25);
  }
}
