/// The configuration records of the visualizer (src/settings.rs), as immutable
/// values. Loading them from the TOML file and the grid section are not modelled;
/// the f32 fields are exact reals.
module Settings {

  /** Transform and frequency-range settings (`FFTSettings`). */
  datatype FftSettings = FftSettings(
    size: nat,
    sampleRate: real,
    minFrequency: real,
    maxFrequency: real)

  /** Bar appearance and smoothing settings (`VisualizerSettings`). */
  datatype VisualizerSettings = VisualizerSettings(
    gain: real,
    scaleFactor: real,
    interpolationFactor: real,
    alpha: real,
    smoothFactor: real)

  /** The root record (`Settings`), without its grid section. */
  datatype Settings = Settings(fft: FftSettings, visualizer: VisualizerSettings)
}
