# sonic_spectra spectral pipeline in Dafny

This project models the real-time spectral pipeline of sonic_spectra, a Rust
audio visualizer, and proves properties of the model. The pipeline has five
parts:

- **Capture** (`Audio`). The input-stream callback de-interleaves each hardware
  buffer into the fixed-length left and right sample buffers of `AudioData`.
  Mono input is duplicated to both channels. Stereo input is split. When the
  hardware delivers fewer frames than needed, the remaining tail is filled
  with silence.
- **Bin selection** (`FrequencyRangeVisualizer.GetFrequencyIndices` and its
  duplicate in `HolographicGlowVisualizer`). Maps the configured frequency range
  to transform bins `[min_index, max_index)` with the saturating
  `f32 as usize` cast.
- **Smoothing** (`Visualizer.SmoothBars`, used by both `Draw` methods). Moves
  every selected bar one interpolation step toward
  `max(log10(norm * gain + 1e-6), 0) * scale_factor`, in place, left channel
  then right.
- **Colour and interpolation helpers** (`FftUtils`). `interpolate`,
  `hsl_to_rgb` and `get_color_for_frequency`, over exact reals.
- **Tick glue** (`Lib`). Allocates the smoothing state once. On each frame,
  snapshots the capture buffers, lifts them to complex numbers, transforms them
  and dispatches to the chosen visualizer.

The state the source mutates in place is modelled imperatively:

- the two capture buffers are `array<real>` fields of `Audio.AudioData`;
- the two height vectors are `array<real>` fields of `Lib.Visualization`;
- the callback, `SmoothBars`, both `Draw` methods and `Tick` are methods with
  `modifies` clauses.

Each of those methods is proved against a specification function:
`CapturedLeft`/`CapturedRight` for the callback, and `SmoothedHeights` for the
smoothing. The properties the source and its documentation promise are proved
as lemmas about those functions.

Some parts of the system are parameters of the model:

- the logarithm;
- the complex norm;
- the forward transform. Its only assumption is `PreservesLength`.
  `MapsSilenceToSilence` is assumed only where the silent-input property needs
  it.

All arithmetic is over `real` and unbounded `nat`. The `f32 as usize` cast is
written out as `AsUsize`: it truncates toward zero, maps negatives to 0 and
saturates at `usize::MAX`. A quotient by a zero sample rate is written out as
`CastQuotient`: infinities and NaN cast as Rust casts them.

Three places where the code behaves in ways a reader might not expect:

- **Inverted range.** An inverted range with `min_index > max_index` makes
  `draw` panic on the slice; it does not draw zero bars. `Draw` therefore
  requires the slice bounds (`DrawInBounds`).
  `InvertedRangeBreaksSlice` exhibits such a configuration.
- **Cut frame.** With two or more channels, the callback reads `data[idx + 1]`
  after checking only `idx < data.len()`. It therefore indexes past the end of
  `data` exactly when the last sample of `data` is the first sample of one of
  the first `fft_size` frames (`CallbackPanics`). A cut later in the buffer,
  or a cut after a frame's second sample, does no harm. The callback's
  precondition is the negation of `CallbackPanics`;
  `CallbackPanicsIffTruncatedFrame` characterises it.
- **Smoothing-state length.** The smoothing state is allocated with
  `fft.size / 2` bars, not one per selected bin. Only the first
  `max_index - min_index` bars are written.

## Model

| member | source | states |
|---|---|---|
| FftUtils.RemTwo | src/fft_utils.rs:32 | Rust's float `% 2.0` keeps the sign of the dividend: in [0, 2) for non-negative input, in (-2, 0] otherwise |
| FftUtils.Chroma | src/fft_utils.rs:31 | zero saturation gives chroma 0; for saturation and lightness in [0, 1] the chroma lies in [0, min(2l, 2 - 2l)] |
| FftUtils.HueWeight | src/fft_utils.rs:32 | the blend factor of the second component is in [0, 1] for every non-negative hue |
| FftUtils.HslToRgb | src/fft_utils.rs:30-52 | zero saturation yields the grey (l, l, l) |
| FftUtils.HslToRgbInUnit | src/fft_utils.rs:26-51 | for hue >= 0 and saturation, lightness in [0, 1] every RGB component is in [0, 1] |
| FftUtils.FrequencyHue | src/fft_utils.rs:13-14 | the hue of bar `index` of `total_bars` is in [0, 360) for index < total_bars, and 0 for the first bar |
| FftUtils.ColorForFrequency | src/fft_utils.rs:8-16 | every component of a bar's colour is in [0, 1]; the first bar is pure red |
| FftUtils.Interpolate | src/fft_utils.rs:59-67 | factor 0 keeps the current value, factor 1 jumps to the target, the target is a fixed point, and a factor in [0, 1] stays between current and target |
| FftUtils.InterpolateDistance | src/fft_utils.rs:59-67 | with a factor in [0, 1] the distance to the target becomes exactly (1 - factor) times the old distance: no overshoot |
| Audio.CallbackPanicsIffTruncatedFrame | src/audio.rs:64-74 | the callback's out-of-range read of `data[idx + 1]` happens exactly when one of the first `fft_size` frames of a multi-channel buffer has its first sample but not its second |
| Audio.CompleteFrames | src/audio.rs:64-74 | outside that case every frame the callback reads for a multi-channel buffer has both samples inside `data` |
| Audio.WholeFramesNeverPanic | src/audio.rs:64-74 | a buffer of whole frames (length a multiple of the channel count) never triggers the out-of-range read |
| Audio.LongBufferNeverPanics | src/audio.rs:64-74 | a buffer of at least `fft_size` frames never triggers it, whatever follows |
| Audio.HalfFramePanics | src/audio.rs:66-73 | a three-sample stereo buffer with two frames requested does trigger it |
| Audio.CapturedLeft | src/audio.rs:64-79 | the left buffer after a callback has the same length and holds its old values from `fft_size` on |
| Audio.CapturedRight | src/audio.rs:64-79 | the right buffer after a callback has the same length and holds its old values from `fft_size` on |
| Audio.MonoDuplicates | src/audio.rs:65-70 | mono input never panics, gives equal left and right buffers, and copies `data[i]` to both for every delivered frame |
| Audio.StereoSplits | src/audio.rs:71-73 | with two or more channels, frame `i` gives `data[i*channels]` on the left and `data[i*channels + 1]` on the right, both in range |
| Audio.ShortBufferZeroFills | src/audio.rs:75-78 | frames not delivered read as 0.0 on both channels |
| Audio.ZeroFillIsSuffix | src/audio.rs:64-78 | with at least one channel, once a frame is missing every later frame up to `fft_size` is 0.0 on both channels |
| Audio.LaterFramesIgnored | src/audio.rs:64-65 | samples beyond the first `fft_size` frames never influence either buffer |
| Audio.ZeroChannelsKeepBuffers | src/audio.rs:65-74 | with zero channels and non-empty data neither branch writes: both buffers keep their contents |
| Audio.MonoScenario | src/audio.rs:64-70 | mono `[0.5, 0.5, 0.5]` with three frames fills both buffers with `[0.5, 0.5, 0.5]` |
| Audio.AudioData.constructor | src/audio.rs:20-25 | `AudioData::new(n)` allocates two fresh, distinct, zero-filled buffers of length n |
| Audio.AudioData.Callback | src/audio.rs:62-80 | the loop leaves exactly `CapturedLeft`/`CapturedRight` of the old buffers in place; lengths never change |
| Visualizer.AsUsize | src/frequency_range_visualizer.rs:39-40 | `f32 as usize`: 0 below 1, the floor on [0, usize::MAX), and `usize::MAX` beyond |
| Visualizer.CastQuotient | src/frequency_range_visualizer.rs:39-40 | a zero sample rate saturates the index at `usize::MAX` exactly for a positive numerator and gives 0 otherwise |
| Visualizer.TargetHeight | src/frequency_range_visualizer.rs:86-87 | the target is non-negative for a non-negative scale factor, and 0 whenever the logarithm is not positive |
| Visualizer.QuietBinAtBaseline | src/frequency_range_visualizer.rs:86-87 | a bin with `norm * gain + 1e-6 <= 1` aims for height 0 |
| Visualizer.SilentBinScenario | src/frequency_holographic_glow_visualizer.rs:86-87 | magnitude 0 at gain 1 and scale factor 100 gives target 0 |
| Visualizer.SmoothedHeights | src/frequency_range_visualizer.rs:85-93 | one smoothing pass keeps the length of the state and every bar from `num_bars` on |
| Visualizer.SmoothBars | src/frequency_range_visualizer.rs:85-93 | the loop over one channel leaves exactly `SmoothedHeights` of the old state in the vector |
| Visualizer.FrozenAtZeroFactor | src/frequency_range_visualizer.rs:89-93 | with factor 0 a pass changes no bar, whatever the spectrum |
| Visualizer.SnapsAtUnitFactor | src/frequency_range_visualizer.rs:89-93 | with factor 1 every selected bar takes its target |
| Visualizer.HeightsStayNonNegative | src/frequency_range_visualizer.rs:87-93 | non-negative heights stay non-negative for scale factor >= 0 and factor in [0, 1] |
| Visualizer.HeightsApproachTargets | src/frequency_range_visualizer.rs:89-93 | each selected bar's distance to its target shrinks by exactly the factor 1 - factor |
| Visualizer.TrackFrozen | src/frequency_range_visualizer.rs:89-93 | with factor 0 a bar never moves over any number of ticks |
| Visualizer.TrackSnaps | src/frequency_range_visualizer.rs:89-93 | with factor 1 a bar stands at the last tick's target |
| Visualizer.TrackNonNegative | src/frequency_range_visualizer.rs:89-93 | from a non-negative start, non-negative targets keep a bar non-negative over any number of ticks |
| Visualizer.TrackConverges | src/frequency_range_visualizer.rs:89-93 | against a steady target the gap after k ticks is (1 - factor)^k times the initial gap |
| Visualizer.SmoothedIsOneTick | src/frequency_range_visualizer.rs:85-93 | bar i after one smoothing pass is one tick of `Track` from its old height toward bin i's target, which ties the multi-tick lemmas to `draw` |
| Visualizer.PowInUnit | src/frequency_range_visualizer.rs:89-93 | for a factor in [0, 1] the contraction (1 - factor)^k lies in [0, 1], so the gap never grows |
| FrequencyRangeVisualizer.FrequencyIndex | src/frequency_range_visualizer.rs:39-40 | with a positive sample rate the index is the cast of `freq * fft_size / sample_rate`; for non-negative frequencies below saturation it is its floor |
| FrequencyRangeVisualizer.GetFrequencyIndices | src/frequency_range_visualizer.rs:34-43 | with sample rate > 0: min <= max gives min_index <= max_index (the slice is never inverted); max <= sample rate gives max_index <= fft_size (the slice lies within the transform); max <= sample_rate / 2 gives max_index <= fft_size / 2 |
| FrequencyRangeVisualizer.IndexBounds | src/frequency_range_visualizer.rs:39-42 | the order and bound facts above, for the indices of the two ends of the range |
| FrequencyRangeVisualizer.IndexBelowHalf | src/frequency_range_visualizer.rs:40 | a frequency at most half the sample rate gets an index at most fft_size / 2 |
| FrequencyRangeVisualizer.NonPositiveFrequencyIndex | src/frequency_range_visualizer.rs:39-40 | a frequency at or below 0 Hz selects bin 0 |
| FrequencyRangeVisualizer.IndexMonotone | src/frequency_range_visualizer.rs:39-40 | a higher frequency never gets a lower index |
| FrequencyRangeVisualizer.ZeroSampleRateSaturates | src/frequency_range_visualizer.rs:39-40 | a zero sample rate with a positive maximum frequency saturates max_index at `usize::MAX` |
| FrequencyRangeVisualizer.DefaultRange | src/frequency_range_visualizer.rs:34-43 | 1024 bins, 48 kHz, 20 Hz to 20 kHz select bins [0, 426) |
| FrequencyRangeVisualizer.InvertedRangeBreaksSlice | src/frequency_range_visualizer.rs:75-79 | min 1000 Hz above max 20 Hz gives min_index > max_index, so the slice panics |
| FrequencyRangeVisualizer.Draw | src/frequency_range_visualizer.rs:67-145 | both height vectors become `SmoothedHeights` of their old contents over bins `[min_index, max_index)` of their own channel |
| HolographicGlowVisualizer.GetFrequencyIndices | src/frequency_holographic_glow_visualizer.rs:34-43 | the duplicated mapping selects exactly the bins of the frequency-range visualizer |
| HolographicGlowVisualizer.Draw | src/frequency_holographic_glow_visualizer.rs:67-187 | both height vectors become `SmoothedHeights` of their old contents over the selected bins, each channel independently |
| Lib.SelectVisualizer | src/lib.rs:114-118 | only the name `"holographic_glow"` selects the glow visualizer; all other names select the frequency-range one |
| Lib.ConfiguredVisualizer | src/lib.rs:112-118 | the hard-coded name `"frequency"` selects the frequency-range visualizer |
| Lib.Lift | src/lib.rs:139-146 | the lift keeps the length and sets every imaginary part to 0 |
| Lib.LiftRoundTrip | src/lib.rs:139-146 | the real parts of the lifted buffer are the samples |
| Lib.RealBufferIsLift | src/lib.rs:139-146 | a buffer with no imaginary part is the lift of its real parts |
| Lib.SilenceTargetsBaseline | src/lib.rs:135-158 | for a transform mapping silence to silence, silent capture buffers give target height 0 for every bin |
| Lib.NyquistRangeIsInBounds | src/lib.rs:120-122 | with sample rate > 0 and min <= max <= sample_rate / 2 every slice and every write of a tick is in range |
| Lib.FullBandOverrunsState | src/lib.rs:120-122 | a maximum frequency at the full sample rate selects more bins than the `fft.size / 2` state holds |
| Lib.Visualization.constructor | src/lib.rs:112-122 | the kind is the one the configured name selects, and both height vectors are fresh, distinct, zero-filled and of length `fft.size / 2` |
| Lib.Visualization.Tick | src/lib.rs:131-170 | the height vectors become `SmoothedHeights` over the selected bins of the transformed snapshot of each capture buffer, and non-negative heights stay non-negative |

## Left out

- GTK and Cairo rendering is not part of this model: the bar geometry, colours passed to `set_source_rgba`, radial gradients, `fill`, and the whole of `src/grid.rs`. These are drawing side effects.
- The window, CSS loading, key handling, the 30 ms redraw timer and `handle_exit` in `src/lib.rs` are left out. They are I/O and lifecycle plumbing.
- cpal device lookup, stream configuration, stream build and play errors, the capture thread and its sleep loop (`src/audio.rs:33-60`, `82-104`) are left out. They are I/O.
- Mutex locking is left out, because the model is sequential. In the source the lock taken at `src/lib.rs:135` stays held through the transform and the draw.
- rustfft's planner and `process` are foreign code. The transform is a parameter assumed to preserve length. `Lib.SilenceTargetsBaseline` assumes in addition that it maps silence to silence, because DFT values are not modelled.
- Logarithm and complex norm are parameters. `IsLog10` and `IsNorm` state what is assumed of them. `Lib.SilenceTargetsBaseline` additionally assumes that the norm of the complex zero is 0.
- f32 rounding, NaN and infinities of the arithmetic are not modelled. All arithmetic is exact. The only exception is the index cast, which is written out.
- Settings loading from TOML and `generate_frequencies` in `src/settings.rs` are left out. The settings are plain datatypes.
- Audio.AudioData.Callback: requires `!CallbackPanics`. The source has no such guard; it panics on that input.
- FrequencyRangeVisualizer.Draw: requires the slice and write bounds. The source panics when they fail.
- HolographicGlowVisualizer.Draw: requires the slice and write bounds. The source panics when they fail.
- Lib.Visualization.Tick: requires the slice and write bounds (`TickInBounds`). The source panics when they fail.
- FftUtils.ColorForFrequency: requires `totalBars > 0`. The source only calls it inside loops over the bars, where that holds. A zero count would divide by zero in f32.
- FftUtils.HslToRgbInUnit: requires a non-negative hue, which every caller supplies.
