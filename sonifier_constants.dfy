// The module-level constants of the sonifier that the modelled code reads.
// The sonifier re-assigns its own sample rate and cell duration after the
// configuration import, so these are the values every cell is rendered with.
module SonifierConstants {
  import opened Numeric

  /** `SAMPLE_RATE` as re-assigned by the sonifier (samples per second). */
  const SampleRate: real := 11025.0

  /** `DURATION_PER_GRID_CELL` in seconds. */
  const CellDuration: real := 6.0

  /** `int(SAMPLE_RATE * DURATION_PER_GRID_CELL)`: the samples of one rendered cell. */
  const CellSamples: nat := 66150

  lemma CellSamplesValue()
    ensures Trunc(SampleRate * CellDuration) == CellSamples
  {
  }
}
