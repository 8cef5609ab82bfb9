/// The per-frame glue of `initialize_visualizer` (src/lib.rs): the choice of
/// visualizer, the smoothing state it allocates once, and the draw callback
/// that snapshots the capture buffers, lifts them to complex numbers,
/// transforms them and hands them to the visualizer. The transform is a
/// parameter of the model that preserves length; the window, the timer, the
/// grid and the locks are not modelled.
module Lib {
  import opened Settings
  import opened FftUtils
  import opened Visualizer
  import opened Audio
  import Range = FrequencyRangeVisualizer
  import Glow = HolographicGlowVisualizer

  /** The visualizers the callback can dispatch to. */
  datatype VisualizerKind = FrequencyRange | HolographicGlow

  /** The visualizer name `initialize_visualizer` uses. */
  const VisualizerType: string := "frequency"

  /** The `match` on the visualizer name: only `"holographic_glow"` selects
      the glow visualizer; `"frequency"` and every unknown name fall back to the
      frequency-range visualizer. */
  function SelectVisualizer(name: string): (kind: VisualizerKind)
    ensures kind == HolographicGlow <==> name == "holographic_glow"
  {
    if name == "frequency" then FrequencyRange
    else if name == "holographic_glow" then HolographicGlow
    else FrequencyRange
  }

  /** The name the source hard-codes selects the frequency-range visualizer. */
  lemma ConfiguredVisualizer()
    ensures SelectVisualizer(VisualizerType) == FrequencyRange
  {
  }

  /** `Complex32::new(x, 0.0)` over a whole buffer. */
  function Lift(samples: seq<real>): (lifted: seq<Complex>)
    ensures |lifted| == |samples|
    ensures forall i :: 0 <= i < |lifted| ==> lifted[i].im == 0.0
  {
    seq(|samples|, i requires 0 <= i < |samples| => Complex(samples[i], 0.0))
  }

  /** The real parts of a buffer of complex values. */
  function RealParts(values: seq<Complex>): (parts: seq<real>)
    ensures |parts| == |values|
  {
    seq(|values|, i requires 0 <= i < |values| => values[i].re)
  }

  /** The lift loses nothing: the real parts of the lifted buffer are the
      samples. */
  lemma LiftRoundTrip(samples: seq<real>)
    ensures RealParts(Lift(samples)) == samples
  {
  }

  /** Lifting a buffer of real numbers is the only way to reach a buffer with
      no imaginary part: such a buffer is the lift of its real parts. */
  lemma RealBufferIsLift(values: seq<Complex>)
    requires forall i :: 0 <= i < |values| ==> values[i].im == 0.0
    ensures Lift(RealParts(values)) == values
  {
  }

  /** What the model assumes of the transform parameter (`plan_fft_forward` of
      `size` followed by `process`): the output is as long as the input. */
  ghost predicate PreservesLength(fft: (nat, seq<Complex>) -> seq<Complex>)
  {
    forall size, input :: |fft(size, input)| == |input|
  }

  /** One channel of a tick: snapshot, lift, transform. */
  function Spectrum(fft: (nat, seq<Complex>) -> seq<Complex>, size: nat, samples: seq<real>): seq<Complex>
  {
    fft(size, Lift(samples))
  }

  /** A buffer of `size` complex zeros. */
  function Zeros(size: nat): (zeros: seq<Complex>)
    ensures |zeros| == size
  {
    seq(size, _ => Complex(0.0, 0.0))
  }

  /** The transform of silence is silence, as for any discrete Fourier
      transform. */
  ghost predicate MapsSilenceToSilence(fft: (nat, seq<Complex>) -> seq<Complex>)
  {
    forall size :: fft(size, Zeros(size)) == Zeros(size)
  }

  /** Silent capture buffers give a zero spectrum, hence a baseline target for
      every bin: bars fed only silence settle at height 0. */
  lemma SilenceTargetsBaseline(fft: (nat, seq<Complex>) -> seq<Complex>, size: nat, samples: seq<real>,
                               v: VisualizerSettings, norm: Complex -> real, log10: real -> real)
    requires MapsSilenceToSilence(fft) && IsLog10(log10) && norm(Complex(0.0, 0.0)) == 0.0
    requires |samples| == size && forall i :: 0 <= i < size ==> samples[i] == 0.0
    ensures |Spectrum(fft, size, samples)| == size
    ensures forall k :: 0 <= k < size ==> TargetHeight(Spectrum(fft, size, samples)[k], v, norm, log10) == 0.0
  {
    assert Lift(samples) == Zeros(size);
    var spectrum := Spectrum(fft, size, samples);
    assert spectrum == Zeros(size);
    forall k | 0 <= k < size
      ensures TargetHeight(spectrum[k], v, norm, log10) == 0.0
    {
      assert spectrum[k] == Complex(0.0, 0.0);
      assert 0.0 < norm(spectrum[k]) * v.gain + Epsilon <= 1.0;
      assert log10(norm(spectrum[k]) * v.gain + Epsilon) <= log10(1.0);
    }
  }

  /** The indices a tick draws with are in range: transforms of `fft.size`
      bins and smoothing states of `fft.size / 2` bars. */
  predicate TickInBounds(settings: Settings)
  {
    var size := settings.fft.size;
    DrawInBounds(Range.GetFrequencyIndices(settings.fft, size), size, size, size / 2, size / 2)
  }

  /** A positive sample rate with `min_frequency <= max_frequency <=
      sample_rate / 2` keeps every tick in range. */
  predicate NyquistRange(fft: FftSettings)
  {
    fft.sampleRate > 0.0 && fft.minFrequency <= fft.maxFrequency <= fft.sampleRate / 2.0
  }

  /** Below the Nyquist limit a tick never indexes out of range: the selected
      bins fit the transform and the bars fit the smoothing state. */
  lemma NyquistRangeIsInBounds(settings: Settings)
    requires NyquistRange(settings.fft)
    ensures TickInBounds(settings)
  {
  }

  /** Above the Nyquist limit the state is too short: 1024 bins at 48 kHz
      with `max_frequency` at the full 48 kHz select bins up to 1024 while the
      state holds 512 bars. */
  lemma FullBandOverrunsState()
    ensures !TickInBounds(Settings(FftSettings(1024, 48000.0, 0.0, 48000.0),
                                   VisualizerSettings(1.0, 1.0, 0.5, 1.0, 0.5)))
  {
    var fft := FftSettings(1024, 48000.0, 0.0, 48000.0);
    assert 48000.0 * 1024.0 / 48000.0 == 1024.0;
    Range.FrequencyIndexIsCast(fft.maxFrequency, 1024, fft.sampleRate);
    assert Range.GetFrequencyIndices(fft, 1024).1 == 1024;
  }

  /** The state of the draw callback: the settings, the visualizer chosen once,
      and the two height vectors that persist from frame to frame. */
  class Visualization {
    const settings: Settings
    const kind: VisualizerKind
    const previousHeightsLeft: array<real>
    const previousHeightsRight: array<real>

    /** The height vectors are distinct and hold `fft.size / 2` bars each. */
    ghost predicate Valid()
      reads this
    {
      previousHeightsLeft != previousHeightsRight &&
      previousHeightsLeft.Length == settings.fft.size / 2 &&
      previousHeightsRight.Length == settings.fft.size / 2
    }

    /** `initialize_visualizer`: the visualizer named by `VisualizerType`, and
        `vec![0.0; fft.size / 2]` for each channel. */
    constructor (settings: Settings)
      ensures Valid() && this.settings == settings
      ensures kind == SelectVisualizer(VisualizerType)
      ensures fresh(previousHeightsLeft) && fresh(previousHeightsRight)
      ensures forall i :: 0 <= i < previousHeightsLeft.Length ==>
        previousHeightsLeft[i] == 0.0 && previousHeightsRight[i] == 0.0
    {
      this.settings := settings;
      kind := SelectVisualizer(VisualizerType);
      var numBars := settings.fft.size / 2;
      previousHeightsLeft := new real[numBars](_ => 0.0);
      previousHeightsRight := new real[numBars](_ => 0.0);
    }

    /** The draw callback: snapshot both capture buffers, lift them, transform
        both with size `fft.size`, and let the chosen visualizer move the bars.
        Only the height vectors change, and heights handed to the renderer stay
        non-negative from tick to tick. */
    method Tick(audio: AudioData, fft: (nat, seq<Complex>) -> seq<Complex>,
                norm: Complex -> real, log10: real -> real)
      requires Valid() && audio.Valid() && audio.leftBuffer.Length == settings.fft.size
      requires PreservesLength(fft)
      requires TickInBounds(settings)
      modifies previousHeightsLeft, previousHeightsRight
      ensures var size := settings.fft.size;
        var (minIndex, maxIndex) := Range.GetFrequencyIndices(settings.fft, size);
        previousHeightsLeft[..] ==
          SmoothedHeights(old(previousHeightsLeft[..]),
                          Spectrum(fft, size, old(audio.leftBuffer[..]))[minIndex..maxIndex],
                          settings.visualizer, norm, log10) &&
        previousHeightsRight[..] ==
          SmoothedHeights(old(previousHeightsRight[..]),
                          Spectrum(fft, size, old(audio.rightBuffer[..]))[minIndex..maxIndex],
                          settings.visualizer, norm, log10)
      ensures settings.visualizer.scaleFactor >= 0.0 && InUnit(settings.visualizer.interpolationFactor) ==>
        (old(AllNonNegative(previousHeightsLeft[..])) ==> AllNonNegative(previousHeightsLeft[..])) &&
        (old(AllNonNegative(previousHeightsRight[..])) ==> AllNonNegative(previousHeightsRight[..]))
    {
      var inputLeft := audio.leftBuffer[..];
      var inputRight := audio.rightBuffer[..];
      var fftLeft := fft(settings.fft.size, Lift(inputLeft));
      var fftRight := fft(settings.fft.size, Lift(inputRight));
      if kind == HolographicGlow {
        Glow.Draw(settings, fftLeft, fftRight, previousHeightsLeft, previousHeightsRight, norm, log10);
      } else {
        Range.Draw(settings, fftLeft, fftRight, previousHeightsLeft, previousHeightsRight, norm, log10);
      }
      var (minIndex, maxIndex) := Range.GetFrequencyIndices(settings.fft, settings.fft.size);
      if settings.visualizer.scaleFactor >= 0.0 && InUnit(settings.visualizer.interpolationFactor) {
        if old(AllNonNegative(previousHeightsLeft[..])) {
          HeightsStayNonNegative(old(previousHeightsLeft[..]), fftLeft[minIndex..maxIndex], settings.visualizer, norm, log10);
        }
        if old(AllNonNegative(previousHeightsRight[..])) {
          HeightsStayNonNegative(old(previousHeightsRight[..]), fftRight[minIndex..maxIndex], settings.visualizer, norm, log10);
        }
      }
    }
  }
}
