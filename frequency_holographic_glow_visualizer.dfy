/// `HolographicGlowVisualizer` (src/frequency_holographic_glow_visualizer.rs):
/// the same bin selection and smoothing as the frequency-range visualizer,
/// drawn with radial gradients. The gradients, the bar geometry and the Cairo
/// calls are not modelled.
module HolographicGlowVisualizer {
  import opened Settings
  import opened Visualizer
  import Range = FrequencyRangeVisualizer

  /** `get_frequency_indices`, written out again as the source does: it selects
      exactly the bins the frequency-range visualizer selects, so every property
      proved there (order, bounds, the 1024-bin, 48 kHz, 20 Hz to 20 kHz
      configuration) holds here. */
  function GetFrequencyIndices(fft: FftSettings, fftSize: nat): (indices: (nat, nat))
    ensures indices == Range.GetFrequencyIndices(fft, fftSize)
  {
    var numeratorMin, numeratorMax := fft.minFrequency * fftSize as real, fft.maxFrequency * fftSize as real;
    Range.FrequencyIndexIsCast(fft.minFrequency, fftSize, fft.sampleRate);
    Range.FrequencyIndexIsCast(fft.maxFrequency, fftSize, fft.sampleRate);
    (CastQuotient(numeratorMin, fft.sampleRate), CastQuotient(numeratorMax, fft.sampleRate))
  }

  /** The smoothing part of `draw`: bins `[min_index, max_index)` of both
      transforms, left bars first, then right bars, each moved one step toward
      its target. The slices and the writes must be in range; the code panics
      otherwise. */
  method Draw(settings: Settings, fftLeft: seq<Complex>, fftRight: seq<Complex>,
              previousHeightsLeft: array<real>, previousHeightsRight: array<real>,
              norm: Complex -> real, log10: real -> real)
    requires DrawInBounds(GetFrequencyIndices(settings.fft, |fftLeft|), |fftLeft|, |fftRight|,
                          previousHeightsLeft.Length, previousHeightsRight.Length)
    requires previousHeightsLeft != previousHeightsRight
    modifies previousHeightsLeft, previousHeightsRight
    ensures var (minIndex, maxIndex) := GetFrequencyIndices(settings.fft, |fftLeft|);
      previousHeightsLeft[..] ==
        SmoothedHeights(old(previousHeightsLeft[..]), fftLeft[minIndex..maxIndex], settings.visualizer, norm, log10) &&
      previousHeightsRight[..] ==
        SmoothedHeights(old(previousHeightsRight[..]), fftRight[minIndex..maxIndex], settings.visualizer, norm, log10)
  {
    var fftSize := |fftLeft|;
    var (minIndex, maxIndex) := GetFrequencyIndices(settings.fft, fftSize);
    var left := fftLeft[minIndex..maxIndex];
    var right := fftRight[minIndex..maxIndex];
    SmoothBars(left, previousHeightsLeft, settings.visualizer, norm, log10);
    SmoothBars(right, previousHeightsRight, settings.visualizer, norm, log10);
  }
}
