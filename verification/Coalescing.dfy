/** Coalescing of continuous deltas on a target worker's queue, and what it preserves. */
module Coalescing {
  import opened Contracts

  /** Do two intents belong to the same continuous-delta kind? */
  predicate SameDeltaKind(a: Intent, b: Intent) {
    || (a.VolumeChange? && b.VolumeChange?)
    || (a.BrightnessChange? && b.BrightnessChange?)
    || (a.ColorTemperatureChange? && b.ColorTemperatureChange?)
    || (a.SeekRelative? && b.SeekRelative?)
  }

  /** Two deltas of one kind as a single delta. */
  function AddDeltas(a: Intent, b: Intent): Intent
    requires SameDeltaKind(a, b)
  {
    match a
    case VolumeChange(d) => VolumeChange(d + b.delta)
    case BrightnessChange(d) => BrightnessChange(d + b.brightnessDelta)
    case ColorTemperatureChange(d) => ColorTemperatureChange(d + b.temperatureDelta)
    case SeekRelative(d) => SeekRelative(d + b.seconds)
  }

  /** Append `x`, merging it into the tail when both are deltas of one kind. */
  function Push(pending: seq<Intent>, x: Intent): seq<Intent> {
    var n := |pending|;
    if n > 0 && SameDeltaKind(pending[n - 1], x)
    then pending[..n - 1] + [AddDeltas(pending[n - 1], x)]
    else pending + [x]
  }

  /** Push every intent of `xs` in turn. */
  function PushAll(pending: seq<Intent>, xs: seq<Intent>): seq<Intent> {
    if xs == [] then pending else Push(PushAll(pending, xs[..|xs| - 1]), xs[|xs| - 1])
  }

  function Merge(xs: seq<Intent>): seq<Intent> {
    PushAll([], xs)
  }

  /** The batches a worker runs, each merged on its own. */
  function MergeBatches(batches: seq<seq<Intent>>): seq<Intent> {
    if batches == [] then [] else Merge(batches[0]) + MergeBatches(batches[1..])
  }

  function Flatten(batches: seq<seq<Intent>>): seq<Intent> {
    if batches == [] then [] else batches[0] + Flatten(batches[1..])
  }

  /** A target worker's drain buffer. */
  class PendingIntents {
    var items: seq<Intent>

    constructor ()
      ensures items == []
    {
      items := [];
    }

    method PushMerged(x: Intent)
      modifies this
      ensures items == Push(old(items), x)
    {
      var n := |items|;
      if n > 0 {
        var tail := items[n - 1];
        match (tail, x) {
          case (VolumeChange(a), VolumeChange(b)) =>
            items := items[n - 1 := VolumeChange(a + b)];
          case (BrightnessChange(a), BrightnessChange(b)) =>
            items := items[n - 1 := BrightnessChange(a + b)];
          case (ColorTemperatureChange(a), ColorTemperatureChange(b)) =>
            items := items[n - 1 := ColorTemperatureChange(a + b)];
          case (SeekRelative(a), SeekRelative(b)) =>
            items := items[n - 1 := SeekRelative(a + b)];
          case _ =>
            items := items + [x];
        }
      } else {
        items := items + [x];
      }
    }
  }

  // ----- What a service does with intents -----

  /** Run a list of intents on a service whose behaviour is `step`. */
  function Run<S>(step: (S, Intent) -> S, s: S, xs: seq<Intent>): S {
    if xs == [] then s else step(Run(step, s, xs[..|xs| - 1]), xs[|xs| - 1])
  }

  /** Each continuous-delta kind acts additively: two deltas in a row do what their sum does. */
  ghost predicate Additive<S(!new)>(step: (S, Intent) -> S) {
    && (forall s, a, b {:trigger step(step(s, VolumeChange(a)), VolumeChange(b))} ::
          step(step(s, VolumeChange(a)), VolumeChange(b)) == step(s, VolumeChange(a + b)))
    && (forall s, a, b {:trigger step(step(s, BrightnessChange(a)), BrightnessChange(b))} ::
          step(step(s, BrightnessChange(a)), BrightnessChange(b)) == step(s, BrightnessChange(a + b)))
    && (forall s, a, b {:trigger step(step(s, ColorTemperatureChange(a)), ColorTemperatureChange(b))} ::
          step(step(s, ColorTemperatureChange(a)), ColorTemperatureChange(b)) == step(s, ColorTemperatureChange(a + b)))
    && (forall s, a, b {:trigger step(step(s, SeekRelative(a)), SeekRelative(b))} ::
          step(step(s, SeekRelative(a)), SeekRelative(b)) == step(s, SeekRelative(a + b)))
  }

  lemma AdditiveMerge<S(!new)>(step: (S, Intent) -> S, s: S, a: Intent, b: Intent)
    requires Additive(step) && SameDeltaKind(a, b)
    ensures step(step(s, a), b) == step(s, AddDeltas(a, b))
  {
    match a
    case VolumeChange(d) => assert b == VolumeChange(b.delta);
    case BrightnessChange(d) => assert b == BrightnessChange(b.brightnessDelta);
    case ColorTemperatureChange(d) => assert b == ColorTemperatureChange(b.temperatureDelta);
    case SeekRelative(d) => assert b == SeekRelative(b.seconds);
  }

  lemma {:induction false} RunConcat<S>(step: (S, Intent) -> S, s: S, xs: seq<Intent>, ys: seq<Intent>)
    ensures Run(step, s, xs + ys) == Run(step, Run(step, s, xs), ys)
    decreases |ys|
  {
    if ys == [] {
      assert xs + ys == xs;
    } else {
      assert (xs + ys)[..|xs + ys| - 1] == xs + ys[..|ys| - 1];
      RunConcat(step, s, xs, ys[..|ys| - 1]);
    }
  }

  lemma RunPush<S(!new)>(step: (S, Intent) -> S, s: S, pending: seq<Intent>, x: Intent)
    requires Additive(step)
    ensures Run(step, s, Push(pending, x)) == step(Run(step, s, pending), x)
  {
    var n := |pending|;
    if n > 0 && SameDeltaKind(pending[n - 1], x) {
      var merged := AddDeltas(pending[n - 1], x);
      assert (pending[..n - 1] + [merged])[..n - 1] == pending[..n - 1];
      AdditiveMerge(step, Run(step, s, pending[..n - 1]), pending[n - 1], x);
    } else {
      assert (pending + [x])[..n] == pending;
    }
  }

  lemma {:induction false} RunPushAll<S(!new)>(step: (S, Intent) -> S, s: S, pending: seq<Intent>, xs: seq<Intent>)
    requires Additive(step)
    ensures Run(step, s, PushAll(pending, xs)) == Run(step, Run(step, s, pending), xs)
    decreases |xs|
  {
    if xs == [] {
    } else {
      RunPush(step, s, PushAll(pending, xs[..|xs| - 1]), xs[|xs| - 1]);
      RunPushAll(step, s, pending, xs[..|xs| - 1]);
    }
  }

  /** Coalescing preserves meaning: on every additive service, the merged list reaches the
      state the original list reaches. */
  lemma MergePreservesMeaning<S(!new)>(step: (S, Intent) -> S, s: S, xs: seq<Intent>)
    requires Additive(step)
    ensures Run(step, s, Merge(xs)) == Run(step, s, xs)
  {
    RunPushAll(step, s, [], xs);
  }

  /** ... and so does every way of cutting the stream into drained batches. */
  lemma {:induction false} BatchesPreserveMeaning<S(!new)>(step: (S, Intent) -> S, s: S, batches: seq<seq<Intent>>)
    requires Additive(step)
    ensures Run(step, s, MergeBatches(batches)) == Run(step, s, Flatten(batches))
    decreases |batches|
  {
    if batches == [] {
    } else {
      MergePreservesMeaning(step, s, batches[0]);
      BatchesPreserveMeaning(step, Run(step, s, batches[0]), batches[1..]);
      RunConcat(step, s, Merge(batches[0]), MergeBatches(batches[1..]));
      RunConcat(step, s, batches[0], Flatten(batches[1..]));
    }
  }

  // ----- Merging as a normal form -----

  lemma PushTwice(p: seq<Intent>, a: Intent, b: Intent)
    requires SameDeltaKind(a, b)
    ensures Push(Push(p, a), b) == Push(p, AddDeltas(a, b))
  {
    var q := Push(p, a);
    assert SameDeltaKind(q[|q| - 1], b);
    if |p| > 0 && SameDeltaKind(p[|p| - 1], a) {
      assert q[..|q| - 1] == p[..|p| - 1];
    } else {
      assert q[..|q| - 1] == p;
    }
  }

  /** Pushing is itself an additive service: the freest one. */
  lemma PushIsAdditive()
    ensures Additive(Push)
  {
    hide Push;
    forall p, a, b {:trigger Push(Push(p, VolumeChange(a)), VolumeChange(b))}
      ensures Push(Push(p, VolumeChange(a)), VolumeChange(b)) == Push(p, VolumeChange(a + b))
    {
      PushTwice(p, VolumeChange(a), VolumeChange(b));
    }
    forall p, a, b {:trigger Push(Push(p, BrightnessChange(a)), BrightnessChange(b))}
      ensures Push(Push(p, BrightnessChange(a)), BrightnessChange(b)) == Push(p, BrightnessChange(a + b))
    {
      PushTwice(p, BrightnessChange(a), BrightnessChange(b));
    }
    forall p, a, b {:trigger Push(Push(p, ColorTemperatureChange(a)), ColorTemperatureChange(b))}
      ensures Push(Push(p, ColorTemperatureChange(a)), ColorTemperatureChange(b)) == Push(p, ColorTemperatureChange(a + b))
    {
      PushTwice(p, ColorTemperatureChange(a), ColorTemperatureChange(b));
    }
    forall p, a, b {:trigger Push(Push(p, SeekRelative(a)), SeekRelative(b))}
      ensures Push(Push(p, SeekRelative(a)), SeekRelative(b)) == Push(p, SeekRelative(a + b))
    {
      PushTwice(p, SeekRelative(a), SeekRelative(b));
    }
  }

  lemma {:induction false} PushAllIsRun(p: seq<Intent>, xs: seq<Intent>)
    ensures PushAll(p, xs) == Run(Push, p, xs)
    decreases |xs|
  {
    if xs == [] {
    } else {
      PushAllIsRun(p, xs[..|xs| - 1]);
    }
  }

  /** No additive service over histories of intents, started anywhere, tells the lists apart. */
  ghost predicate Indistinguishable(xs: seq<Intent>, ys: seq<Intent>) {
    forall step: (seq<Intent>, Intent) -> seq<Intent>, s: seq<Intent> {:trigger Run(step, s, xs)} ::
      Additive(step) ==> Run(step, s, xs) == Run(step, s, ys)
  }

  /** Merging keeps exactly the meaning: two lists have the same merged form if and only if
      no additive service can tell them apart. (The service that records what it is sent,
      merging as it goes, is enough to separate any two.) */
  lemma MergeIsComplete(xs: seq<Intent>, ys: seq<Intent>)
    ensures Merge(xs) == Merge(ys) <==> Indistinguishable(xs, ys)
  {
    if Merge(xs) == Merge(ys) {
      forall step: (seq<Intent>, Intent) -> seq<Intent>, s: seq<Intent> | Additive(step)
        ensures Run(step, s, xs) == Run(step, s, ys)
      {
        MergePreservesMeaning(step, s, xs);
        MergePreservesMeaning(step, s, ys);
      }
    }
    if Indistinguishable(xs, ys) {
      IndistinguishableMerges(xs, ys);
    }
  }

  lemma IndistinguishableMerges(xs: seq<Intent>, ys: seq<Intent>)
    requires Indistinguishable(xs, ys)
    ensures Merge(xs) == Merge(ys)
  {
    PushIsAdditive();
    var step: (seq<Intent>, Intent) -> seq<Intent> := Push;
    assert Run(step, [], xs) == Run(step, [], ys);
    PushAllIsRun([], xs);
    PushAllIsRun([], ys);
  }

  /** Merging is a monoid homomorphism onto merged lists, hence idempotent: merging what was
      already merged in pieces changes nothing. */
  lemma MergeHomomorphism(xs: seq<Intent>, ys: seq<Intent>)
    ensures Merge(xs + ys) == Merge(Merge(xs) + Merge(ys)) == PushAll(Merge(xs), ys)
    ensures Merge(Merge(xs)) == Merge(xs)
  {
    PushIsAdditive();
    PushAllIsRun([], xs + ys);
    RunConcat(Push, [], xs, ys);
    PushAllIsRun([], xs);
    PushAllIsRun(Merge(xs), ys);
    var mx, my := Merge(xs), Merge(ys);
    PushAllIsRun([], mx + my);
    RunConcat(Push, [], mx, my);
    PushAllIsRun([], mx);
    MergePreservesMeaning(Push, [], xs);
    MergePreservesMeaning(Push, mx, ys);
  }

  /** No two neighbours are deltas of one kind. */
  predicate Merged(xs: seq<Intent>) {
    forall i :: 0 < i < |xs| ==> !SameDeltaKind(xs[i - 1], xs[i])
  }

  lemma MergedByKind(xs: seq<Intent>)
    ensures Merged(xs) <==>
            forall i :: 0 < i < |xs| ==>
              && !(xs[i - 1].VolumeChange? && xs[i].VolumeChange?)
              && !(xs[i - 1].BrightnessChange? && xs[i].BrightnessChange?)
              && !(xs[i - 1].ColorTemperatureChange? && xs[i].ColorTemperatureChange?)
              && !(xs[i - 1].SeekRelative? && xs[i].SeekRelative?)
  {
  }

  predicate IsDelta(x: Intent) {
    x.VolumeChange? || x.BrightnessChange? || x.ColorTemperatureChange? || x.SeekRelative?
  }

  /** The non-delta intents of a list, in order. */
  function Discrete(xs: seq<Intent>): seq<Intent> {
    if xs == [] then []
    else Discrete(xs[..|xs| - 1]) + (if IsDelta(xs[|xs| - 1]) then [] else [xs[|xs| - 1]])
  }

  lemma PushShape(p: seq<Intent>, x: Intent)
    requires Merged(p)
    ensures Merged(Push(p, x)) && |Push(p, x)| <= |p| + 1
    ensures Discrete(Push(p, x)) == Discrete(p + [x])
  {
    var n := |p|;
    assert (p + [x])[..n] == p;
    if n > 0 && SameDeltaKind(p[n - 1], x) {
      assert Push(p, x)[..n - 1] == p[..n - 1];
    }
  }

  lemma {:induction false} MergeIsMerged(xs: seq<Intent>)
    ensures Merged(Merge(xs))
    ensures |Merge(xs)| <= |xs|
    ensures Discrete(Merge(xs)) == Discrete(xs)
    decreases |xs|
  {
    if xs == [] {
    } else {
      hide Push, Merged, SameDeltaKind, IsDelta;
      var init, x := xs[..|xs| - 1], xs[|xs| - 1];
      MergeIsMerged(init);
      PushShape(Merge(init), x);
      assert (Merge(init) + [x])[..|Merge(init)|] == Merge(init);
    }
  }

  /** The shape of a merged list: no two neighbours are volume changes, nor brightness changes,
      nor colour temperature changes, nor relative seeks; it is not longer; and everything else
      stays, in order. */
  lemma MergeShape(xs: seq<Intent>)
    ensures var m := Merge(xs);
            && |m| <= |xs| && Discrete(m) == Discrete(xs)
            && forall i :: 0 < i < |m| ==>
                 && !(m[i - 1].VolumeChange? && m[i].VolumeChange?)
                 && !(m[i - 1].BrightnessChange? && m[i].BrightnessChange?)
                 && !(m[i - 1].ColorTemperatureChange? && m[i].ColorTemperatureChange?)
                 && !(m[i - 1].SeekRelative? && m[i].SeekRelative?)
  {
    hide Merge, Merged;
    MergeIsMerged(xs);
    MergedByKind(Merge(xs));
  }

  /** A list without mergeable neighbours is left as it is, so coalescing is the identity
      exactly on merged lists. */
  lemma {:induction false} MergeFixpoint(xs: seq<Intent>)
    ensures Merge(xs) == xs <==> Merged(xs)
    decreases |xs|
  {
    MergeIsMerged(xs);
    if xs == [] {
    } else if Merged(xs) {
      MergeFixpoint(xs[..|xs| - 1]);
    }
  }

  // ----- Totals -----

  /** What a list asks for in all, of each continuous kind. */
  datatype Totals = Totals(volume: real, brightness: real, temperature: real, seek: real)

  function Plus(a: Totals, b: Totals): Totals {
    Totals(a.volume + b.volume, a.brightness + b.brightness, a.temperature + b.temperature, a.seek + b.seek)
  }

  function TotalOf(x: Intent): Totals {
    match x
    case VolumeChange(d) => Totals(d, 0.0, 0.0, 0.0)
    case BrightnessChange(d) => Totals(0.0, d, 0.0, 0.0)
    case ColorTemperatureChange(d) => Totals(0.0, 0.0, d, 0.0)
    case SeekRelative(d) => Totals(0.0, 0.0, 0.0, d)
    case _ => Totals(0.0, 0.0, 0.0, 0.0)
  }

  function TotalsOf(xs: seq<Intent>): Totals {
    if xs == [] then Totals(0.0, 0.0, 0.0, 0.0) else Plus(TotalsOf(xs[..|xs| - 1]), TotalOf(xs[|xs| - 1]))
  }

  lemma PushKeepsTotals(p: seq<Intent>, x: Intent)
    ensures TotalsOf(Push(p, x)) == Plus(TotalsOf(p), TotalOf(x))
  {
    var n := |p|;
    if n > 0 && SameDeltaKind(p[n - 1], x) {
      assert Push(p, x)[..n - 1] == p[..n - 1];
    } else {
      assert (p + [x])[..n] == p;
    }
  }

  lemma {:induction false} PushAllKeepsTotals(p: seq<Intent>, xs: seq<Intent>)
    ensures TotalsOf(PushAll(p, xs)) == Plus(TotalsOf(p), TotalsOf(xs))
    decreases |xs|
  {
    if xs == [] {
    } else {
      hide Push, TotalOf;
      PushAllKeepsTotals(p, xs[..|xs| - 1]);
      PushKeepsTotals(PushAll(p, xs[..|xs| - 1]), xs[|xs| - 1]);
    }
  }

  /** Merging keeps the total asked for of every continuous kind. */
  lemma MergeKeepsTotals(xs: seq<Intent>)
    ensures TotalsOf(Merge(xs)) == TotalsOf(xs)
  {
    PushAllKeepsTotals([], xs);
  }

  lemma {:induction false} TotalsConcat(xs: seq<Intent>, ys: seq<Intent>)
    ensures TotalsOf(xs + ys) == Plus(TotalsOf(xs), TotalsOf(ys))
    decreases |ys|
  {
    if ys == [] {
      assert xs + ys == xs;
    } else {
      hide TotalOf;
      assert (xs + ys)[..|xs + ys| - 1] == xs + ys[..|ys| - 1];
      TotalsConcat(xs, ys[..|ys| - 1]);
    }
  }

  /** ... and so does every way of cutting the stream into batches. */
  lemma {:induction false} BatchesKeepTotals(batches: seq<seq<Intent>>)
    ensures TotalsOf(MergeBatches(batches)) == TotalsOf(Flatten(batches))
    decreases |batches|
  {
    if batches == [] {
    } else {
      hide TotalsOf, Merge;
      MergeKeepsTotals(batches[0]);
      BatchesKeepTotals(batches[1..]);
      TotalsConcat(Merge(batches[0]), MergeBatches(batches[1..]));
      TotalsConcat(batches[0], Flatten(batches[1..]));
    }
  }
}
