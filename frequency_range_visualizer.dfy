/// `FrequencyRangeVisualizer` (src/frequency_range_visualizer.rs): maps the
/// configured frequency range onto transform bins and, each frame, moves the
/// bar heights of both channels one smoothing step toward the selected bins.
/// The bar geometry and the Cairo calls of `draw` are not modelled.
module FrequencyRangeVisualizer {
  import opened Settings
  import opened FftUtils
  import opened Visualizer

  /** The bin of frequency `frequency` in a transform of `fftSize` bins:
      `(frequency * fft_size / sample_rate) as usize`. */
  function FrequencyIndex(frequency: real, fftSize: nat, sampleRate: real): (index: nat)
    ensures sampleRate > 0.0 ==> index == AsUsize(frequency * fftSize as real / sampleRate)
    ensures sampleRate > 0.0 && frequency >= 0.0 && frequency * fftSize as real / sampleRate < UsizeMax as real ==>
      index as real <= frequency * fftSize as real / sampleRate < index as real + 1.0
  {
    CastQuotient(frequency * fftSize as real, sampleRate)
  }

  lemma FrequencyIndexIsCast(frequency: real, fftSize: nat, sampleRate: real)
    ensures FrequencyIndex(frequency, fftSize, sampleRate) == CastQuotient(frequency * fftSize as real, sampleRate)
  {
  }

  /** A frequency at or below 0 Hz, including a negative one, selects bin 0. */
  lemma NonPositiveFrequencyIndex(frequency: real, fftSize: nat, sampleRate: real)
    requires frequency <= 0.0 && sampleRate >= 0.0
    ensures FrequencyIndex(frequency, fftSize, sampleRate) == 0
  {
    MulLeft(frequency, 0.0, fftSize as real);
  }

  /** `get_frequency_indices`: the bins of the lowest and of the highest
      configured frequency, `[min_index, max_index)` being the bars drawn. With
      a positive sample rate and an ordered range the slice is never inverted;
      a range up to the sample rate stays within the transform, and a range up
      to half the sample rate within its first half. */
  function GetFrequencyIndices(fft: FftSettings, fftSize: nat): (indices: (nat, nat))
    ensures indices.0 == FrequencyIndex(fft.minFrequency, fftSize, fft.sampleRate)
    ensures indices.1 == FrequencyIndex(fft.maxFrequency, fftSize, fft.sampleRate)
    ensures fft.sampleRate > 0.0 && fft.minFrequency <= fft.maxFrequency ==> indices.0 <= indices.1
    ensures fft.sampleRate > 0.0 && fft.maxFrequency <= fft.sampleRate ==> indices.1 <= fftSize
    ensures fft.sampleRate > 0.0 && fft.maxFrequency <= fft.sampleRate / 2.0 ==> indices.1 <= fftSize / 2
  {
    IndexBounds(fft, fftSize);
    (FrequencyIndex(fft.minFrequency, fftSize, fft.sampleRate),
     FrequencyIndex(fft.maxFrequency, fftSize, fft.sampleRate))
  }

  /** Dividing an inequality by a positive value keeps it. */
  lemma DivMonotone(a: real, b: real, c: real)
    requires a <= b && c > 0.0
    ensures a / c <= b / c
  {
    assert a / c == a * (1.0 / c);
    assert b / c == b * (1.0 / c);
    MulLeft(a, b, 1.0 / c);
  }

  lemma MulMonotoneStrict(x: real, y: real, c: real)
    requires x < y && c > 0.0
    ensures x * c < y * c
  {
  }

  /** The index grows with the frequency, so a range with
      `min_frequency <= max_frequency` never selects an inverted slice. */
  lemma IndexMonotone(f: real, g: real, fftSize: nat, sampleRate: real)
    requires sampleRate > 0.0 && f <= g
    ensures FrequencyIndex(f, fftSize, sampleRate) <= FrequencyIndex(g, fftSize, sampleRate)
  {
    var x, y := f * fftSize as real / sampleRate, g * fftSize as real / sampleRate;
    assert FrequencyIndex(f, fftSize, sampleRate) == AsUsize(x);
    assert FrequencyIndex(g, fftSize, sampleRate) == AsUsize(y);
    MulLeft(f, g, fftSize as real);
    DivMonotone(f * fftSize as real, g * fftSize as real, sampleRate);
    AsUsizeMonotone(x, y);
  }

  /** A frequency no higher than `limit * sample_rate` has an index no higher
      than `limit * fft_size`. */
  lemma IndexBelowFraction(frequency: real, fftSize: nat, sampleRate: real, limit: real)
    requires sampleRate > 0.0 && limit >= 0.0 && frequency <= limit * sampleRate
    ensures FrequencyIndex(frequency, fftSize, sampleRate) as real <= limit * fftSize as real
  {
    var x := frequency * fftSize as real / sampleRate;
    MulLeft(frequency, limit * sampleRate, fftSize as real);
    DivMonotone(frequency * fftSize as real, limit * sampleRate * fftSize as real, sampleRate);
    assert limit * sampleRate * fftSize as real / sampleRate == limit * fftSize as real;
    assert x <= limit * fftSize as real;
    if x >= 0.0 {
      AsUsizeBelow(x);
    }
  }

  /** With `max_frequency <= sample_rate / 2` (the Nyquist limit) the index
      is at most `fft_size / 2`. */
  lemma IndexBelowHalf(frequency: real, fftSize: nat, sampleRate: real)
    requires sampleRate > 0.0 && frequency <= sampleRate / 2.0
    ensures FrequencyIndex(frequency, fftSize, sampleRate) <= fftSize / 2
  {
    IndexBelowFraction(frequency, fftSize, sampleRate, 0.5);
    assert fftSize == 2 * (fftSize / 2) + fftSize % 2;
  }

  /** The order and bound facts `get_frequency_indices` promises, for the
      indices of the two ends of the configured range. */
  lemma IndexBounds(fft: FftSettings, fftSize: nat)
    ensures fft.sampleRate > 0.0 && fft.minFrequency <= fft.maxFrequency ==>
      FrequencyIndex(fft.minFrequency, fftSize, fft.sampleRate) <= FrequencyIndex(fft.maxFrequency, fftSize, fft.sampleRate)
    ensures fft.sampleRate > 0.0 && fft.maxFrequency <= fft.sampleRate ==>
      FrequencyIndex(fft.maxFrequency, fftSize, fft.sampleRate) <= fftSize
    ensures fft.sampleRate > 0.0 && fft.maxFrequency <= fft.sampleRate / 2.0 ==>
      FrequencyIndex(fft.maxFrequency, fftSize, fft.sampleRate) <= fftSize / 2
  {
    if fft.sampleRate > 0.0 {
      if fft.minFrequency <= fft.maxFrequency {
        IndexMonotone(fft.minFrequency, fft.maxFrequency, fftSize, fft.sampleRate);
      }
      if fft.maxFrequency <= fft.sampleRate {
        IndexBelowFraction(fft.maxFrequency, fftSize, fft.sampleRate, 1.0);
      }
      if fft.maxFrequency <= fft.sampleRate / 2.0 {
        IndexBelowHalf(fft.maxFrequency, fftSize, fft.sampleRate);
      }
    }
  }

  /** A zero sample rate casts an infinite quotient: any positive maximum
      frequency saturates `max_index` at `usize::MAX`. */
  lemma ZeroSampleRateSaturates(fft: FftSettings, fftSize: nat)
    requires fft.sampleRate == 0.0 && fft.maxFrequency > 0.0 && fftSize > 0
    ensures GetFrequencyIndices(fft, fftSize).1 == UsizeMax
  {
    MulMonotoneStrict(0.0, fft.maxFrequency, fftSize as real);
  }

  /** A 1024-bin, 48 kHz, 20 Hz to 20 kHz configuration selects bins
      `[0, 426)`, so 426 bars are drawn. */
  lemma DefaultRange()
    ensures GetFrequencyIndices(FftSettings(1024, 48000.0, 20.0, 20000.0), 1024) == (0, 426)
  {
    var fft := FftSettings(1024, 48000.0, 20.0, 20000.0);
    assert 20.0 * 1024.0 / 48000.0 < 1.0;
    assert 426.0 <= 20000.0 * 1024.0 / 48000.0 < 427.0;
  }

  /** An inverted range (1000 Hz to 20 Hz over 1024 bins at 48 kHz) gives
      `min_index > max_index`: whatever the transform and state lengths, the
      slices of `draw` are out of bounds, so it panics instead of drawing
      nothing. */
  lemma InvertedRangeBreaksSlice()
    ensures var indices := GetFrequencyIndices(FftSettings(1024, 48000.0, 1000.0, 20.0), 1024);
      indices.0 > indices.1 &&
      forall rightBins, leftBars, rightBars :: !DrawInBounds(indices, 1024, rightBins, leftBars, rightBars)
  {
    assert 21.0 <= 1000.0 * 1024.0 / 48000.0 < 22.0;
    assert 20.0 * 1024.0 / 48000.0 < 1.0;
  }

  /** The smoothing part of `draw`: select bins `[min_index, max_index)` of both
      transforms, then move left bar `i` one step toward the target of left bin
      `min_index + i`, then do the same for the right channel. The slices and
      the writes must be in range; the code panics otherwise. */
  method Draw(settings: Settings, fftLeft: seq<Complex>, fftRight: seq<Complex>,
              previousHeightsLeft: array<real>, previousHeightsRight: array<real>,
              norm: Complex -> real, log10: real -> real)
    requires DrawInBounds(GetFrequencyIndices(settings.fft, |fftLeft|), |fftLeft|, |fftRight|,
                          previousHeightsLeft.Length, previousHeightsRight.Length)
    requires previousHeightsLeft != previousHeightsRight
    modifies previousHeightsLeft, previousHeightsRight
    ensures var (minIndex, maxIndex) := GetFrequencyIndices(settings.fft, |fftLeft|);
      previousHeightsLeft[..] ==
        SmoothedHeights(old(previousHeightsLeft[..]), fftLeft[minIndex..maxIndex], settings.visualizer, norm, log10) &&
      previousHeightsRight[..] ==
        SmoothedHeights(old(previousHeightsRight[..]), fftRight[minIndex..maxIndex], settings.visualizer, norm, log10)
  {
    var fftSize := |fftLeft|;
    var (minIndex, maxIndex) := GetFrequencyIndices(settings.fft, fftSize);
    var left := fftLeft[minIndex..maxIndex];
    var right := fftRight[minIndex..maxIndex];
    SmoothBars(left, previousHeightsLeft, settings.visualizer, norm, log10);
    SmoothBars(right, previousHeightsRight, settings.visualizer, norm, log10);
  }
}
