/// The contract shared by the visualizers (src/visualizer.rs): `draw` receives
/// the transform of both channels and the two vectors of bar heights that
/// persist between frames. This module holds what the `draw` bodies of
/// src/frequency_range_visualizer.rs and
/// src/frequency_holographic_glow_visualizer.rs have in common, without the
/// Cairo calls: the `f32 as usize` index cast, the target height of one bar and
/// the smoothing loop over one channel's bars, with the properties the
/// smoothing keeps over one tick and over many.
module Visualizer {
  import opened Settings
  import opened FftUtils

  /** A value of the transform (`Complex32`). */
  datatype Complex = Complex(re: real, im: real)

  /** The largest `usize` on a 64-bit target. */
  const UsizeMax: nat := 0xFFFF_FFFF_FFFF_FFFF

  /** Rust's `f32 as usize` on a finite value: rounds toward zero, a negative
      value becomes 0 and a value beyond the range saturates at `usize::MAX`. */
  function AsUsize(x: real): (k: nat)
    ensures k <= UsizeMax
    ensures x < 1.0 ==> k == 0
    ensures 0.0 <= x < UsizeMax as real ==> k as real <= x < k as real + 1.0
    ensures x >= UsizeMax as real ==> k == UsizeMax
  {
    if x < 0.0 then 0 else if x >= UsizeMax as real then UsizeMax else x.Floor
  }

  /** The cast never reverses an order. */
  lemma AsUsizeMonotone(x: real, y: real)
    requires x <= y
    ensures AsUsize(x) <= AsUsize(y)
  {
  }

  /** The cast of a non-negative value never exceeds it. */
  lemma AsUsizeBelow(x: real)
    requires x >= 0.0
    ensures AsUsize(x) as real <= x
  {
  }

  /** Rust's `f32` quotient `numerator / denominator` cast to `usize`. A zero
      denominator gives an infinity (saturating at `usize::MAX`) for a positive
      numerator, and negative infinity or NaN (both cast to 0) otherwise. */
  function CastQuotient(numerator: real, denominator: real): (k: nat)
    ensures denominator == 0.0 ==> (k == UsizeMax <==> numerator > 0.0)
    ensures denominator == 0.0 && numerator <= 0.0 ==> k == 0
  {
    if denominator == 0.0 then (if numerator > 0.0 then UsizeMax else 0)
    else AsUsize(numerator / denominator)
  }

  /** The floor added to a magnitude before its logarithm is taken (`1e-6`). */
  const Epsilon: real := 0.000001

  /** The height bar `bin` aims for:
      `max(log10(norm * gain + 1e-6), 0) * scale_factor`. The logarithm and the
      norm (the Euclidean norm of a complex value) are parameters of the model. */
  function TargetHeight(bin: Complex, v: VisualizerSettings, norm: Complex -> real, log10: real -> real): (h: real)
    ensures v.scaleFactor >= 0.0 ==> h >= 0.0
    ensures log10(norm(bin) * v.gain + Epsilon) <= 0.0 ==> h == 0.0
  {
    var level := Max(log10(norm(bin) * v.gain + Epsilon), 0.0);
    if v.scaleFactor >= 0.0 then
      MulLeft(0.0, level, v.scaleFactor);
      level * v.scaleFactor
    else
      level * v.scaleFactor
  }

  /** What the model assumes of the norm parameter: it is never negative. */
  ghost predicate IsNorm(norm: Complex -> real)
  {
    forall z :: norm(z) >= 0.0
  }

  /** What the model assumes of the logarithm parameter: it is 0 at 1 and never
      decreases on the positive reals. */
  ghost predicate IsLog10(log10: real -> real)
  {
    log10(1.0) == 0.0 && forall x, y :: 0.0 < x <= y ==> log10(x) <= log10(y)
  }

  /** A bin too quiet to lift `norm * gain + 1e-6` above 1 is drawn at the
      baseline; in particular a bin of magnitude zero gives height 0, which is
      what the `1e-6` floor and the clamp are for. */
  lemma QuietBinAtBaseline(bin: Complex, v: VisualizerSettings, norm: Complex -> real, log10: real -> real)
    requires IsNorm(norm) && IsLog10(log10) && v.gain >= 0.0
    requires norm(bin) * v.gain + Epsilon <= 1.0
    ensures TargetHeight(bin, v, norm, log10) == 0.0
  {
    var x := norm(bin) * v.gain + Epsilon;
    MulLeft(0.0, norm(bin), v.gain);
    assert 0.0 < x <= 1.0;
    assert log10(x) <= log10(1.0);
  }

  /** A silent bin (magnitude 0) at gain 1 and scale factor 100 aims for the
      baseline: `max(log10(1e-6), 0) * 100 == 0`. */
  lemma SilentBinScenario(bin: Complex, factor: real, norm: Complex -> real, log10: real -> real)
    requires IsNorm(norm) && IsLog10(log10) && norm(bin) == 0.0
    ensures TargetHeight(bin, VisualizerSettings(1.0, 100.0, factor, 1.0, 0.5), norm, log10) == 0.0
  {
    QuietBinAtBaseline(bin, VisualizerSettings(1.0, 100.0, factor, 1.0, 0.5), norm, log10);
  }

  /** The heights after one tick: bar `i` below `|bins|` takes one
      interpolation step toward the target of bin `i`; every other bar keeps
      its height. */
  function SmoothedHeights(previous: seq<real>, bins: seq<Complex>, v: VisualizerSettings,
                           norm: Complex -> real, log10: real -> real): (heights: seq<real>)
    ensures |heights| == |previous|
    ensures forall i :: |bins| <= i < |previous| ==> heights[i] == previous[i]
  {
    seq(|previous|, i requires 0 <= i < |previous| =>
      if i < |bins| then Interpolate(previous[i], TargetHeight(bins[i], v, norm, log10), v.interpolationFactor)
      else previous[i])
  }

  /** The indices `draw` slices and writes with are all in range: the slice
      `[lo, hi)` of both transforms exists (the code panics when `lo > hi`
      instead of drawing nothing) and both height vectors hold `hi - lo` bars. */
  predicate DrawInBounds(indices: (nat, nat), leftBins: nat, rightBins: nat, leftBars: nat, rightBars: nat)
  {
    indices.0 <= indices.1 <= leftBins && indices.1 <= rightBins &&
    indices.1 - indices.0 <= leftBars && indices.1 - indices.0 <= rightBars
  }

  /** The bar loop of `draw` for one channel: for each selected bin, in order,
      `previous_heights[i] = interpolate(previous_heights[i], target, factor)`. */
  method SmoothBars(bins: seq<Complex>, previousHeights: array<real>, v: VisualizerSettings,
                    norm: Complex -> real, log10: real -> real)
    requires |bins| <= previousHeights.Length
    modifies previousHeights
    ensures previousHeights[..] == SmoothedHeights(old(previousHeights[..]), bins, v, norm, log10)
  {
    var numBars := |bins|;
    for i := 0 to numBars
      invariant forall k :: 0 <= k < i ==>
        previousHeights[k] == Interpolate(old(previousHeights[k]), TargetHeight(bins[k], v, norm, log10), v.interpolationFactor)
      invariant forall k :: i <= k < previousHeights.Length ==> previousHeights[k] == old(previousHeights[k])
    {
      var targetHeight := TargetHeight(bins[i], v, norm, log10);
      previousHeights[i] := Interpolate(previousHeights[i], targetHeight, v.interpolationFactor);
    }
  }

  /** Factor 0: the heights never move, whatever the spectrum. */
  lemma FrozenAtZeroFactor(previous: seq<real>, bins: seq<Complex>, v: VisualizerSettings,
                           norm: Complex -> real, log10: real -> real)
    requires v.interpolationFactor == 0.0
    ensures SmoothedHeights(previous, bins, v, norm, log10) == previous
  {
  }

  /** Factor 1: every selected bar jumps to its target. */
  lemma SnapsAtUnitFactor(previous: seq<real>, bins: seq<Complex>, v: VisualizerSettings,
                          norm: Complex -> real, log10: real -> real)
    requires v.interpolationFactor == 1.0
    ensures forall i :: 0 <= i < |bins| && i < |previous| ==>
      SmoothedHeights(previous, bins, v, norm, log10)[i] == TargetHeight(bins[i], v, norm, log10)
  {
  }

  predicate AllNonNegative(heights: seq<real>)
  {
    forall i :: 0 <= i < |heights| ==> heights[i] >= 0.0
  }

  /** Bar heights handed to the renderer are never negative: with a
      non-negative scale factor and a factor in [0, 1], non-negative heights
      stay non-negative. */
  lemma HeightsStayNonNegative(previous: seq<real>, bins: seq<Complex>, v: VisualizerSettings,
                               norm: Complex -> real, log10: real -> real)
    requires AllNonNegative(previous) && v.scaleFactor >= 0.0 && InUnit(v.interpolationFactor)
    ensures AllNonNegative(SmoothedHeights(previous, bins, v, norm, log10))
  {
  }

  /** Each selected bar closes the gap to its target by the factor, without
      overshooting. */
  lemma HeightsApproachTargets(previous: seq<real>, bins: seq<Complex>, v: VisualizerSettings,
                               norm: Complex -> real, log10: real -> real)
    requires InUnit(v.interpolationFactor)
    ensures forall i :: 0 <= i < |bins| && i < |previous| ==>
      var target := TargetHeight(bins[i], v, norm, log10);
      Abs(target - SmoothedHeights(previous, bins, v, norm, log10)[i]) ==
        (1.0 - v.interpolationFactor) * Abs(target - previous[i])
  {
    forall i | 0 <= i < |bins| && i < |previous|
      ensures var target := TargetHeight(bins[i], v, norm, log10);
        Abs(target - SmoothedHeights(previous, bins, v, norm, log10)[i]) ==
          (1.0 - v.interpolationFactor) * Abs(target - previous[i])
    {
      InterpolateDistance(previous[i], TargetHeight(bins[i], v, norm, log10), v.interpolationFactor);
    }
  }

  /** The height of one bar after one tick per entry of `targets`, starting
      from `current`: the smoothing is driven by the tick count. */
  function Track(current: real, targets: seq<real>, factor: real): real
    decreases |targets|
  {
    if targets == [] then current
    else Interpolate(Track(current, targets[..|targets| - 1], factor), targets[|targets| - 1], factor)
  }

  /** One tick against a target at signed gap `p * a` leaves a gap of
      `((1 - factor) * p) * a`. */
  lemma GapStep(h: real, target: real, factor: real, p: real, a: real)
    requires target - h == p * a
    ensures target - Interpolate(h, target, factor) == ((1.0 - factor) * p) * a
  {
    assert target - Interpolate(h, target, factor) == (1.0 - factor) * (target - h);
    Associate(1.0 - factor, p, a);
  }

  lemma Associate(x: real, y: real, z: real)
    ensures x * (y * z) == (x * y) * z
  {
  }

  function Pow(b: real, k: nat): real
  {
    if k == 0 then 1.0 else b * Pow(b, k - 1)
  }

  /** Factor 0: a bar never leaves its initial height, whatever the targets. */
  lemma {:induction false} TrackFrozen(current: real, targets: seq<real>, factor: real)
    requires factor == 0.0
    ensures Track(current, targets, factor) == current
    decreases |targets|
  {
    if targets != [] {
      TrackFrozen(current, targets[..|targets| - 1], factor);
    }
  }

  /** Factor 1: after any tick a bar stands at that tick's target. */
  lemma TrackSnaps(current: real, targets: seq<real>, factor: real)
    requires factor == 1.0 && targets != []
    ensures Track(current, targets, factor) == targets[|targets| - 1]
  {
  }

  /** From a non-negative start, non-negative targets keep a bar non-negative
      over any number of ticks. */
  lemma {:induction false} TrackNonNegative(current: real, targets: seq<real>, factor: real)
    requires current >= 0.0 && InUnit(factor)
    requires forall i :: 0 <= i < |targets| ==> targets[i] >= 0.0
    ensures Track(current, targets, factor) >= 0.0
    decreases |targets|
  {
    if targets != [] {
      TrackNonNegative(current, targets[..|targets| - 1], factor);
    }
  }

  /** One smoothing pass is one tick of `Track` for every selected bar, so the
      multi-tick properties below describe the heights `draw` leaves frame
      after frame. */
  lemma SmoothedIsOneTick(previous: seq<real>, bins: seq<Complex>, v: VisualizerSettings,
                          norm: Complex -> real, log10: real -> real, i: nat)
    requires i < |bins| && i < |previous|
    ensures SmoothedHeights(previous, bins, v, norm, log10)[i] ==
      Track(previous[i], [TargetHeight(bins[i], v, norm, log10)], v.interpolationFactor)
  {
    var t := [TargetHeight(bins[i], v, norm, log10)];
    assert t[..|t| - 1] == [];
  }

  /** A factor in [0, 1] gives a contraction `(1 - factor)^k` in [0, 1]: the
      gap to a steady target never grows. */
  lemma {:induction false} PowInUnit(b: real, k: nat)
    requires InUnit(b)
    ensures InUnit(Pow(b, k))
  {
    if k > 0 {
      PowInUnit(b, k - 1);
      MulUnit(Pow(b, k - 1), b);
    }
  }

  /** The last target drives the last tick. */
  lemma TrackLast(current: real, before: seq<real>, x: real, factor: real)
    ensures Track(current, before + [x], factor) == Interpolate(Track(current, before, factor), x, factor)
  {
    var targets := before + [x];
    assert targets[..|targets| - 1] == before;
  }

  lemma PowSucc(b: real, k: nat)
    ensures Pow(b, k + 1) == b * Pow(b, k)
  {
  }

  /** One more tick against the target keeps the geometric law. */
  lemma ConvergeStep(current: real, target: real, before: seq<real>, factor: real)
    requires target - Track(current, before, factor) == Pow(1.0 - factor, |before|) * (target - current)
    ensures target - Track(current, before + [target], factor) ==
      Pow(1.0 - factor, |before| + 1) * (target - current)
  {
    TrackLast(current, before, target, factor);
    PowSucc(1.0 - factor, |before|);
    GapStep(Track(current, before, factor), target, factor, Pow(1.0 - factor, |before|), target - current);
  }

  /** Against a steady target, the gap after `k` ticks is `(1 - factor)^k`
      times the initial one; for a factor in (0, 1] it shrinks geometrically. */
  lemma {:induction false} TrackConverges(current: real, target: real, targets: seq<real>, factor: real)
    requires forall i :: 0 <= i < |targets| ==> targets[i] == target
    ensures target - Track(current, targets, factor) == Pow(1.0 - factor, |targets|) * (target - current)
    decreases |targets|
  {
    if targets != [] {
      var before := targets[..|targets| - 1];
      TrackConverges(current, target, before, factor);
      assert targets == before + [target];
      ConvergeStep(current, target, before, factor);
    }
  }
}
