# Project S.O.N.A.R. — a verified model of the sonification pipeline's core

Project S.O.N.A.R. turns archaeological survey transects into sound. A
LiDAR terrain model (DTM) is cut into square grid cells. Each cell's
terrain, vegetation (NDVI, EVI), water (NDWI) and hydrology are rendered
as a six-second audio layer mix. The cell chunks are concatenated into one
track per transect, normalized, and indexed by a JSON log of `CellGeom`
records: each record holds the cell's box and its audio interval. Three
downstream stages read this log:

- anomaly detection lines per-embedding outlier scores up with the cells;
- motif recognition compares each anomalous cell with a library of known
  archaeological signatures by dynamic time warping;
- an interactive map colours each cell by its state.

This project models the integer, index and decision logic that holds these
stages together, and proves what each stage promises its neighbours. The
waveforms themselves are not modelled: sample values are abstract reals or
parameters. Floating-point numbers are exact reals. NaN is `Option`, and
`float('inf')` is the `Extended` datatype.

The modules follow the program:

- `TransectIndex` (transect_index.dfy) is the transect loop as a class:
  - cells are visited row-major in steps of `pixels_per_grid_cell`, with
    clamped edge windows;
  - one chunk path and one `CellGeom` are appended per cell;
  - the running audio length advances.
- `SynthesisEnvelope` is `generate_adsr_sine_wave`: its sample-count
  adjustment, and the envelope written slice by slice into an `array`.
- `SynthesisPulses` is `generate_pulse` and `generate_rich_pulse`. Each
  adds clipped clicks into a pre-sized `array`.
- `CellBuffers` holds `ensure_length`, `convert_float_to_int16` and the
  placement of the two chord hits.
- `CellDecisions` holds the per-cell decision tables and the output name:
  - validity, NDWI (`calculate_ndwi_s2`), the water gain table and the D8 pan;
  - scale, chord and melody root;
  - the anomaly rectangles and the overlay branch;
  - the file suffix.
- `Alignment` is `get_aligned_cell` with its module-level CRS transformer
  cache, modelled as a class holding a `map`.
- `Normalization` is the two-pass block normalization and its silent
  fallback.
- `AnomalyDetection`, `MotifLibrary`, `MotifRecognition`, `DtwUtils`,
  `AudioUtils`, `GeoUtils` and `MapVisualization` model the files of the
  same names.
- `Numeric`, `NumpyArrays`, `Rasters`, `Wrappers` and `SonifierConstants`
  are shared helpers. They cover Python `int()` truncation, numpy slice and
  broadcast rules, `np.linspace`, NaN-skipping means, `Option`, and the
  constants.

Foreign calls are parameters, and the model says nothing about what they
compute:

- pyproj, and rasterio's `windows.from_bounds`;
- `fastdtw` and `euclidean`;
- the IsolationForest's scores and predictions;
- the length of a rendered cell as pydub reports it;
- the tone and click waveforms.

## Model

| member | source | states |
|---|---|---|
| SonifierConstants.CellSamplesValue | models/sonification.py:102-103 | A six-second cell at the sonifier's own 11025 Hz rate has exactly 66150 samples. |
| TransectIndex.ToDict | models/sonification.py:40-48 | The dictionary has exactly the six `CellGeom` keys. |
| TransectIndex.FromDict | models/sonification.py:31-38 | A record can be rebuilt from a dictionary exactly when all six keys are present. |
| TransectIndex.ToDictRoundTrip | models/sonification.py:31-48 | Rebuilding a `CellGeom` from its `to_dict` gives the same record. |
| TransectIndex.FromDictRoundTrip | models/sonification.py:40-48 | A dictionary with exactly the six keys is the `to_dict` of the record rebuilt from it. |
| TransectIndex.RowOfCellsLength | models/sonification.py:864 | A row of cells from column `col` has `ceil((C - col) / p)` windows, and none when `col >= C`. |
| TransectIndex.CellsFromLength | models/sonification.py:863-864 | The rows from `row` on hold `ceil((R - row) / p) * ceil(C / p)` windows. |
| TransectIndex.CellsCount | models/sonification.py:863-868 | The traversal visits exactly `ceil(R/p) * ceil(C/p)` cells. |
| TransectIndex.CellsInOrder | models/sonification.py:863-868 | Cells come rows-outer, columns-inner, strictly increasing. Each window starts on a multiple of p and is `[r, min(r+p, R)) x [c, min(c+p, C))` inside the raster. |
| TransectIndex.SilentCell | models/sonification.py:920 | An invalid cell's audio is all zeros, `int(SAMPLE_RATE * DURATION_PER_GRID_CELL)` samples long. |
| TransectIndex.CellMs | models/sonification.py:928 | An invalid cell always lasts exactly 6000 ms. |
| TransectIndex.Log | models/sonification.py:863-1136 | The geometry log holds one record per visited cell. |
| TransectIndex.Chunks | models/sonification.py:926 | The chunk list holds one path per visited cell. |
| TransectIndex.ChunksAt | models/sonification.py:923-926 | Chunk k is named after cell k's pixel offsets `(row, col)`. |
| TransectIndex.LogTimes | models/sonification.py:929-930 | The first record starts at the initial offset, the last ends at the offset plus the summed cell lengths, consecutive records abut, and each lasts its cell's length. |
| TransectIndex.LogBoxes | models/sonification.py:929 | Record k's box is the master bounds of cell k. |
| TransectIndex.LogTiming | models/sonification.py:929-930 | The contiguity and the box facts together, for the whole log. |
| TransectIndex.LogMonotone | models/sonification.py:929-930 | With non-negative segment lengths, start times never decrease and every interval is properly ordered. |
| TransectIndex.ChunksDistinct | models/sonification.py:923-926 | Two cells of one traversal never share a chunk file name. |
| TransectIndex.LogAppend | models/sonification.py:1134-1136 | The log of two runs of cells is the first log followed by the second, the second starting where the first ended. |
| TransectIndex.TotalMsAppend | models/sonification.py:1136 | The running length is additive over consecutive runs of cells. |
| TransectIndex.TransectAssembly.constructor | models/sonification.py:851-853 | Both lists start empty, and the running length starts at 0. |
| TransectIndex.TransectAssembly.AppendCell | models/sonification.py:926-930 | A cell appends exactly one chunk and one record starting at the old running length, then advances the length by the cell's duration. |
| TransectIndex.TransectAssembly.VisitCell | models/sonification.py:865-1136 | Visiting one more cell keeps the state equal to the log of all cells visited so far. |
| TransectIndex.TransectAssembly.SonifyRow | models/sonification.py:864-1136 | One row of cells extends both lists by that row's chunks and log, and the length by that row's total. |
| TransectIndex.TransectAssembly.VisitRow | models/sonification.py:863-1136 | One more row keeps the state equal to the log of all rows visited so far. |
| TransectIndex.TransectAssembly.Sonify | models/sonification.py:863-1136 | The whole traversal leaves exactly the row-major cells' chunks, their contiguous log and the summed length. |
| SynthesisEnvelope.AdsrCountsTile | models/sonification.py:400-418 | After the adjustment, the four phase counts are non-negative and sum to `int(sample_rate * duration)`. |
| SynthesisEnvelope.AttackStep | models/sonification.py:421-422 | The attack write keeps the buffer's length whenever numpy accepts it. |
| SynthesisEnvelope.DecayStep | models/sonification.py:424-425 | The decay write keeps the buffer's length whenever numpy accepts it. |
| SynthesisEnvelope.SustainStep | models/sonification.py:427 | The sustain write keeps the buffer's length. |
| SynthesisEnvelope.ReleaseStep | models/sonification.py:429-430 | The release write keeps the buffer's length whenever numpy accepts it. |
| SynthesisEnvelope.AdsrEnvelope | models/sonification.py:420-430 | A built envelope has exactly `total_samples` samples. |
| SynthesisEnvelope.AttackStepAt | models/sonification.py:421-422 | On tiling counts, the attack write is accepted. It puts the 0-to-1 ramp on `[0, a)`, or 1.0 at sample 0 when `a == 0`, and leaves the rest unchanged. |
| SynthesisEnvelope.DecayStepAt | models/sonification.py:424-425 | The decay write is accepted. It puts the 1-to-sustain ramp on `[a, a+d)`, or sustain at sample `a` when `d == 0`, and leaves the rest unchanged. |
| SynthesisEnvelope.SustainStepAt | models/sonification.py:427 | The sustain write sets exactly `[a+d, a+d+s)` to the sustain level. |
| SynthesisEnvelope.ReleaseStepAt | models/sonification.py:429-430 | The release write is accepted. It puts the sustain-to-0 ramp on the last r samples, or 0.0 on the last sample when `r == 0`, and leaves the rest unchanged. |
| SynthesisEnvelope.AdsrEnvelopeShape | models/sonification.py:420-430 | On tiling counts, every envelope sample has the value of its phase. |
| SynthesisEnvelope.AdsrLastSample | models/sonification.py:429-430 | A non-empty envelope ends at 0.0, except with exactly one release sample: there it ends at the sustain level. |
| SynthesisEnvelope.AdsrEnvelopeRange | models/sonification.py:420-430 | With sustain in [0, 1], every envelope sample lies in [0, 1]. |
| SynthesisEnvelope.AdsrSineWaveLength | models/sonification.py:399-432 | For non-negative parameters, the tone always exists and has `int(sample_rate * duration)` samples. |
| SynthesisEnvelope.WriteAttackDecay | models/sonification.py:420-425 | The in-place attack and decay writes succeed exactly when both steps are accepted, and then leave the buffer at their result. |
| SynthesisEnvelope.WriteSustainRelease | models/sonification.py:427-430 | The in-place sustain and release writes leave the buffer at the release step's result whenever it is accepted. |
| SynthesisEnvelope.WriteEnvelope | models/sonification.py:420-430 | Filling a zeroed array gives the envelope function's result. |
| SynthesisEnvelope.GenerateAdsrSineWave | models/sonification.py:399-432 | The method returns the tone times that envelope. |
| SynthesisPulses.OverlayAt | models/sonification.py:485-487 | After the clipped additions, each sample is its old value plus the samples of every click covering it. |
| SynthesisPulses.OverlayCons | models/sonification.py:485-487 | Placing clicks one after another is the same as adding each into the buffer in turn. |
| SynthesisPulses.RichClickCount | models/sonification.py:665-667 | A positive tempo and duration give at least one click. |
| SynthesisPulses.RichPlanWithin | models/sonification.py:669-694 | Every planned rich click starts inside the buffer and lasts more than 0 and at most 0.05 s. |
| SynthesisPulses.RichPulse | models/sonification.py:657-695 | The rich pulse exists when the sample count is non-negative, and then has exactly `int(sr * duration)` samples. |
| SynthesisPulses.RichPulseSilent | models/sonification.py:661 | A non-positive tempo gives all zeros of the full length. |
| SynthesisPulses.RichPulseFirstClick | models/sonification.py:666-682 | A positive tempo and duration write a first click at sample 0, lasting `min(0.05, duration)`. |
| SynthesisPulses.RichPulseAt | models/sonification.py:669-694 | Each rich-pulse sample is the sum of the planned clicks covering it. |
| SynthesisPulses.AddRichClicks | models/sonification.py:669-694 | The in-place click loop leaves the buffer at the overlay of the plan, with every start inside the buffer. |
| SynthesisPulses.GenerateRichPulse | models/sonification.py:657-695 | The method returns the rich pulse function's result. |
| SynthesisPulses.PulsePlanWithin | models/sonification.py:479-487 | Every planned beat click starts before the buffer's end and lasts more than 0 and at most `click_duration`. |
| SynthesisPulses.Pulse | models/sonification.py:471-488 | The pulse exists when the sample count is non-negative, and then has exactly `int(sr * duration)` samples. |
| SynthesisPulses.PulseFirstClick | models/sonification.py:477-484 | With a positive tempo and a non-empty buffer, the first click is at sample 0 and lasts `min(click_duration, duration)`. |
| SynthesisPulses.PulseSilent | models/sonification.py:473 | A non-positive tempo gives all zeros of the full length. |
| SynthesisPulses.PulseAt | models/sonification.py:479-487 | Each pulse sample is the sum of the planned clicks covering it. |
| SynthesisPulses.AddBeatClicks | models/sonification.py:479-487 | The in-place beat loop leaves the buffer at the overlay of the plan. |
| SynthesisPulses.GeneratePulse | models/sonification.py:471-488 | The method returns the pulse function's result. |
| CellBuffers.EnsureLength | models/sonification.py:856-861 | The output has exactly the target length. The first `min(len, target)` samples are kept, and padded positions are 0. |
| CellBuffers.EnsureLengthKeeps | models/sonification.py:861 | An array of the target length is returned unchanged. |
| CellBuffers.EnsureLengthIdempotent | models/sonification.py:856-861 | Applying `ensure_length` twice with one target equals applying it once. |
| CellBuffers.EnsureLengthUnique | models/sonification.py:856-861 | Any array with the target length, the kept prefix and zero padding is the result, so the contract determines it. |
| CellBuffers.Int16Sample | models/sonification.py:517-519 | A converted sample lies in [-32767, 32767], and anything beyond ±1 saturates to the extreme. |
| CellBuffers.Int16Monotone | models/sonification.py:517-519 | The conversion preserves order. |
| CellBuffers.Int16Sign | models/sonification.py:517-519 | The conversion preserves sign, and 0.0 stays 0. |
| CellBuffers.ConvertFloatToInt16 | models/sonification.py:517-519 | The array keeps its length, and every sample fits int16 without wrap-around. |
| CellBuffers.PlacedHits | models/sonification.py:993-1002 | The melody buffer after any number of hits keeps the cell's sample count. |
| CellBuffers.ChordMelody | models/sonification.py:987-1002 | The melody layer has exactly the cell's sample count. |
| CellBuffers.ChordToneLength | models/sonification.py:490-496 | Each chord tone of a 3 s hit has exactly half a cell's samples. |
| CellBuffers.ChordHitsTile | models/sonification.py:993-1002 | Two full-length hits tile the melody layer: it is hit 0 followed by hit 1. |
| CellBuffers.PlaceChordHits | models/sonification.py:987-1002 | The in-place hit loop over a zeroed buffer gives the melody layer. |
| CellDecisions.CategoriesDisjoint | models/sonification.py:86-88 | No transect is in two of the archaeological, jungle and city lists. |
| CellDecisions.ValidityIgnoresNdvi | models/sonification.py:896 | A cell is valid exactly when its DTM and flow-accumulation windows are non-empty and not all NaN. The NDVI test never fails. |
| CellDecisions.PixelNdwi | models/sonification.py:531-533 | A pixel's NDWI is defined exactly when both bands are and their sum is non-zero. |
| CellDecisions.BandNdwi | models/sonification.py:531-533 | The NDWI array has one entry per pixel of the green band. |
| CellDecisions.NdwiDefinedWhen | models/sonification.py:527-534 | The cell NDWI is defined exactly when the data is a stack of at least 8 bands and some pixel's NDWI is defined. |
| CellDecisions.PixelNdwiWithin | models/sonification.py:531-533 | For non-negative bands, a defined pixel NDWI lies in [-1, 1]. |
| CellDecisions.NdwiWithin | models/sonification.py:527-534 | For non-negative bands, a defined cell NDWI lies in [-1, 1]. |
| CellDecisions.WaterGains | models/sonification.py:1012-1021 | NDWI above 0.2 sets the four land layers to -15 dB and hydro to +5 dB. Otherwise, an undefined NDWI included, the gains are -6, -12, -9, -4 and -5. |
| CellDecisions.WaterSuppressesLand | models/sonification.py:1012-1021 | Water turns every land layer down and hydro up, relative to land, and an undefined NDWI counts as land. |
| CellDecisions.PanFor | models/sonification.py:1039-1052 | The pan always lies in [-1, 1]. |
| CellDecisions.PanMatchesTable | models/sonification.py:1039-1052 | The eight D8 codes pan as tabled. Any other mean direction (non-integral, non-positive, unknown or NaN) pans to centre. |
| CellDecisions.PanMirrors | models/sonification.py:1044-1051 | Mirroring a D8 direction east-west negates its pan. |
| CellDecisions.AnomalyRect | models/sonification.py:1056-1086 | Every hard-coded anomaly region is 5 x 5 cells. |
| CellDecisions.AnomalyOnlyArchaeological | models/sonification.py:1056-1086 | Only archaeological transects have anomaly cells. |
| CellDecisions.AnomalyCellPixels | models/sonification.py:1057-1086 | A cell is an anomaly cell exactly when its pixel offsets lie in the region scaled by p. |
| CellDecisions.JungleOverlayNeverTaken | models/sonification.py:1089-1122 | The jungle overlay branch is never taken, and every anomaly cell gets the archaeological overlay. |
| CellDecisions.FileSuffix | models/sonification.py:1143-1147 | The suffix is "_Archaeological", "_Jungle" or "" exactly by the transect's category. |
| CellDecisions.OutputFileName | models/sonification.py:1153 | The output file name starts with the transect id and has the expected length. |
| CellDecisions.OutputNamesDiffer | models/sonification.py:1143-1153 | Distinct transect ids never share an output file when they have equal length or the same category. |
| CellDecisions.PitchFactor | models/sonification.py:941-942 | The pitch interpolation factor lies in [0, 1]. |
| CellDecisions.ScaleForMajorIff | models/sonification.py:941-946 | The major scale is chosen exactly when the mean NDVI is below 0.3. |
| CellDecisions.ChordDensity | models/sonification.py:986 | The chord density lies in [0, 1]. |
| CellDecisions.ChordIntervalsShape | models/sonification.py:987-991 | The intervals start at the root and strictly increase, with one more per threshold passed (0.3, 0.6, 0.8). |
| CellDecisions.ChordIntervalsGrow | models/sonification.py:987-991 | A denser chord extends a sparser one: its intervals are a prefix. |
| CellDecisions.ArgMinFrom | models/sonification.py:982 | `np.argmin` returns the first index of least pitch-class distance. |
| CellDecisions.MelodyRootAsWrittenTooHigh | models/sonification.py:982-984 | As written, the root lies more than four octaves above the target (see Findings). |
| CellDecisions.MelodyRootExample | models/sonification.py:980-984 | On the minor pentatonic scale, target 45 gives 106 as written and 46 as intended. |
| CellDecisions.MelodyRootNearTarget | models/sonification.py:980-984 | The corrected root has the nearest scale note's pitch class in the target's octave, and lies within an octave of the target. |
| Alignment.MasterCellBoundsOrdered | models/sonification.py:601-603 | Under a north-up master transform, a cell's bounds are ordered and span p pixels in each direction. |
| Alignment.Limits | models/sonification.py:623-624 | Row and column limits exist exactly for data of at least two dimensions, and are its row and column counts. |
| Alignment.ClampWindow | models/sonification.py:626-636 | The clamped window is `[max(0, off), min(limit, off + len))` on each axis, non-empty and inside the limits. It is rejected exactly when either side is empty. |
| Alignment.CropPlane | models/sonification.py:639-640 | The crop has the window's rows, each the window's column slice. |
| Alignment.Crop | models/sonification.py:639-640 | Cropping keeps the array's dimension, and crops every band by the same window. |
| Alignment.TransformerCache.constructor | models/sonification.py:584 | The cache starts empty. |
| Alignment.TransformerCache.GetAlignedCell | models/sonification.py:589-654 | The call returns the aligned cell for the cache's old entries, and leaves the cache as the cache rule says. |
| Alignment.AlignedCellEmptyCases | models/sonification.py:597-654 | A missing raster, profile or CRS, a failed creation or bounds transform, and 1-D data all give the empty array. |
| Alignment.ExtractWithinExtent | models/sonification.py:619-654 | A missing or degenerate window gives the empty array. Any other result is a crop of a window inside the raster's extent and holds a number. |
| Alignment.AlignedCellWithinExtent | models/sonification.py:589-654 | A non-empty result is a crop of the raster inside its extent, and holds data. |
| Alignment.CacheNeverReplaced | models/sonification.py:606-610 | An existing cache entry is never replaced. The only key ever added is the call's own, and only when creation succeeded. |
| Alignment.CacheIsMemo | models/sonification.py:606-610 | With a cache consistent with creation, a call returns what it would with an empty cache, and the cache stays consistent. |
| Normalization.MaxAbsIsMax | models/sonification.py:1181-1184 | The peak bounds every magnitude and is attained when the track is non-empty. |
| Normalization.MaxAbsAppend | models/sonification.py:1181-1184 | The peak of two concatenated parts is the larger of their peaks, which is why a block-wise running max works. |
| Normalization.BlockAt | models/sonification.py:1181 | Every block read is non-empty and at most 4096 samples. |
| Normalization.PeakAmplitude | models/sonification.py:1176-1184 | The block-by-block running max equals the peak magnitude of the whole track. |
| Normalization.NormalizationFactor | models/sonification.py:1185-1193 | The factor is positive. A failed scan gives 0.95, and a peak at most 1e-6 gives 1.0. |
| Normalization.Scaled | models/sonification.py:1200-1203 | Scaling keeps the length and multiplies each sample by the factor. |
| Normalization.NormalizeBlocks | models/sonification.py:1200-1203 | The block-by-block second pass writes the whole track scaled. |
| Normalization.NormalizeTrack | models/sonification.py:1175-1203 | The two passes write the track scaled by the factor chosen from its peak, or from the failed scan. |
| Normalization.MaxAbsIsPeak | models/sonification.py:1181-1184 | The running max is a peak in the all-bounds, attained sense. |
| Normalization.PeakIsMaxAbs | models/sonification.py:1181-1184 | Every such peak equals the running max, so the peak is unique. |
| Normalization.PeakScaled | models/sonification.py:1202 | Scaling by a positive factor scales the peak by that factor. |
| Normalization.PeakNormalized | models/sonification.py:1190-1203 | A track whose peak exceeds 1e-6 is written with peak exactly 0.95. |
| Normalization.NormalizedPeak | models/sonification.py:1185-1203 | A non-silent track's new peak is 0.95, and a silent one is written unchanged. |
| Normalization.NormalizationKeepsOrder | models/sonification.py:1200-1203 | Normalization keeps every sample's sign and the order between any two samples. |
| Normalization.SilentFallback | models/sonification.py:1211-1222 | The silent placeholder holds only zeros. |
| Normalization.SilentFallbackLength | models/sonification.py:1211-1222 | For n cells of 6000 ms, the placeholder has exactly n cells' worth of samples. |
| Rasters.CountDefinedZero | models/sonification.py:534 | No defined pixel exactly when every pixel is NaN. |
| Rasters.NanMean | models/sonification.py:534 | `np.nanmean` is NaN exactly when every pixel is NaN. |
| Rasters.SumDefinedWithin | models/sonification.py:534 | The NaN-skipping sum lies between count times the lower bound and count times the upper bound. |
| Rasters.NanMeanWithin | models/sonification.py:534 | The NaN-skipping mean of values in [lo, hi] lies in [lo, hi]. |
| AnomalyDetection.Flags | models/anomaly_detection.py:110 | Flag k is true exactly when prediction k is -1. |
| AnomalyDetection.EmbeddingCountFrames | models/anomaly_detection.py:143-145 | Embedding k belongs to the count exactly when its 0.96 s frame on a 0.5 s hop fits in the cell's audio. |
| AnomalyDetection.SixSecondCell | models/anomaly_detection.py:143-145 | A six-second cell gets 11 embeddings. |
| AnomalyDetection.EmbeddingCountZero | models/anomaly_detection.py:143-145 | A cell gets no embeddings exactly when it is shorter than one frame. |
| AnomalyDetection.Cursor | models/anomaly_detection.py:135-172 | The cursor never exceeds the score count. |
| AnomalyDetection.CursorIsClampedTotal | models/anomaly_detection.py:148-172 | The cursor before cell i is the sum of the earlier cells' counts, clamped to the score count. |
| AnomalyDetection.CursorMonotone | models/anomaly_detection.py:148-172 | The cursor never decreases. |
| AnomalyDetection.CursorExhausted | models/anomaly_detection.py:148-172 | Once the scores are used up, every later cell gets an empty slice. |
| AnomalyDetection.SlicesConsecutive | models/anomaly_detection.py:148-172 | Each cell's slice starts where the previous one ended, and is at most that cell's count long. |
| AnomalyDetection.CellRecord | models/anomaly_detection.py:150-171 | A cell is anomalous exactly when some flag in its slice is set. The id and geometry are copied, and an empty slice gives mean 0.0. |
| AnomalyDetection.AlignCells | models/anomaly_detection.py:137-172 | The cursor loop emits one record per geometry, in order, each the record of its slice. |
| AnomalyDetection.DetectTransect | models/anomaly_detection.py:97-172 | A transect without embeddings is skipped. Otherwise there is one record per geometry, over the flags `prediction == -1`. |
| AnomalyDetection.AnomalousIffOutlierInSlice | models/anomaly_detection.py:110-171 | Record i has `cell_id == i` and its own geometry, and is anomalous exactly when some prediction in its clamped slice is -1. |
| AnomalyDetection.MeanScoreWithin | models/anomaly_detection.py:157 | When the scores lie in [lo, hi] around 0, so does every cell's mean score. |
| MotifLibrary.AddMotif | models/motif_recognition.py:139-141 | Adding a motif adds its type to the dictionary's keys. |
| MotifLibrary.AddMotifLookup | models/motif_recognition.py:139-141 | After adding, the type's list ends with the new motif, and every other type's list is unchanged. |
| MotifLibrary.AddMotifKeepsUnique | models/motif_recognition.py:139-141 | Keys stay unique. |
| MotifLibrary.AddMotifKeepsOrder | models/motif_recognition.py:139-141 | Existing keys keep their insertion order, and a new key goes at the end. |
| MotifLibrary.Improve | models/motif_recognition.py:214-216 | The best is replaced exactly on a strictly smaller distance. |
| MotifLibrary.FirstMinSnoc | utils/dtw_utils.py:16-19 | One more candidate updates the search's result by one comparison. |
| MotifLibrary.FirstMinIsFirstMinimum | utils/dtw_utils.py:14-19 | The search returns the minimum distance. It is the initial match exactly when nothing beats it, and otherwise the first candidate reaching the minimum. |
| MotifLibrary.BelowThresholdIffSome | utils/dtw_utils.py:14-20 | Starting from inf, the best is below a threshold exactly when some candidate is. |
| MotifLibrary.NoFiniteKeepsInit | utils/dtw_utils.py:13-19 | If every distance is inf, the initial type survives. |
| MotifLibrary.FirstMinReachesCandidate | models/motif_recognition.py:193-216 | A best that beats its start is the first nearest candidate. |
| MotifRecognition.EmbeddingRange | models/motif_recognition.py:77-104 | The slice lies in `[0, N)`. It is empty exactly for no embeddings, a zero total or start `>= N`, and otherwise starts at the start index and holds at least one row. |
| MotifRecognition.EmbeddingsForTimeRange | models/motif_recognition.py:64-104 | The result is the rows of that slice. |
| MotifRecognition.SonifiedCellRange | models/motif_recognition.py:86-104 | Cell k of six-second cells takes rows `[12k-1, 12k+12)`, or `[0, 12)` for k = 0. |
| MotifRecognition.RangeWithinArray | models/motif_recognition.py:95-104 | A start inside the array gives a non-empty slice within bounds. |
| MotifRecognition.LibraryGroupsByType | models/motif_recognition.py:109-144 | The built library has unique keys, and each type's list is exactly its non-empty segments, in definition order. |
| MotifRecognition.BuildLibrary | models/motif_recognition.py:109-148 | The script stops exactly when no motif could be loaded, and otherwise yields the built library. |
| MotifRecognition.SegmentDistance | models/motif_recognition.py:204-212 | The distance is finite exactly for two sequences longer than one (DTW) or two single embeddings (Euclidean). |
| MotifRecognition.BestMatch | models/motif_recognition.py:193-216 | The double loop leaves the first minimum over all motifs, starting from ("Unknown", inf). |
| MotifRecognition.RecordOf | models/motif_recognition.py:219-250 | An anomalous record is matched exactly when the best distance is below 75. Its type is the best type or "No_Match", and its score is None exactly for inf. A normal record gets "Not_Anomalous", None and False, and a match implies an anomaly. |
| MotifRecognition.RecognizeTransect | models/motif_recognition.py:179-250 | There is one result per input record, in order, each the record of its cell's best match. |
| MotifRecognition.MatchedIffSomeMotifClose | models/motif_recognition.py:193-250 | A cell is matched exactly when it is anomalous, its segment is non-empty, and some motif is closer than 75. |
| MotifRecognition.MatchedTypeIsNearest | models/motif_recognition.py:193-250 | A match reports the first nearest motif's type and distance. |
| DtwUtils.DtwDistance | utils/dtw_utils.py:5-10 | The distance is inf exactly when either sequence is empty, and otherwise the DTW value. |
| DtwUtils.RowCandidates | utils/dtw_utils.py:15-17 | One type's motifs yield one `(type, distance)` each, in order. |
| DtwUtils.ScanMotifs | utils/dtw_utils.py:15-19 | The inner loop extends the running search by one type's candidates. |
| DtwUtils.MotifMatch | utils/dtw_utils.py:12-21 | The result is the first minimum over every motif of every type, from ("No_Match", inf), and `is_match` is exactly `distance < threshold`. |
| DtwUtils.IsMatchIffSomeClose | utils/dtw_utils.py:12-21 | A match exists exactly when some motif is closer than the threshold. |
| DtwUtils.CandidatesOfEmpty | utils/dtw_utils.py:5-8 | An empty candidate is at inf from every motif. |
| DtwUtils.EmptyCandidateNoMatch | utils/dtw_utils.py:12-21 | An empty candidate, or an empty library, yields ("No_Match", inf). |
| AudioUtils.SampleTimes | utils/audio_utils.py:9 | The time grid has exactly the requested number of points. |
| AudioUtils.SampleTimesWithin | utils/audio_utils.py:9 | Every sample time lies in `[0, duration)`, since the endpoint is excluded. |
| AudioUtils.SampleTimesEvenlySpaced | utils/audio_utils.py:9 | Consecutive sample times are `duration / num` apart. |
| AudioUtils.GenerateSine | utils/audio_utils.py:8-10 | The tone has `int(sr * duration)` samples, each the waveform at its time, and none when that count is negative. |
| AudioUtils.GenerateSineLength | utils/audio_utils.py:8-10 | A non-negative rate and duration always give `int(sr * duration)` samples. |
| AudioUtils.AttackStep | utils/audio_utils.py:19 | An accepted attack write keeps the buffer's length. |
| AudioUtils.DecayStep | utils/audio_utils.py:20 | An accepted decay write keeps the buffer's length. |
| AudioUtils.SustainStep | utils/audio_utils.py:21 | The sustain write keeps the buffer's length. |
| AudioUtils.ReleaseStepAsWritten | utils/audio_utils.py:22 | An accepted release write keeps the buffer's length. |
| AudioUtils.ReleaseStep | utils/audio_utils.py:22 | The corrected release write agrees with the original except for `r == 0`, where it leaves the buffer alone. |
| AudioUtils.EnvelopeAsWritten | utils/audio_utils.py:13-22 | A built envelope has the signal's length. |
| AudioUtils.Envelope | utils/audio_utils.py:13-22 | A corrected envelope has the signal's length. |
| AudioUtils.AdsrEnvelopeAsWritten | utils/audio_utils.py:12-23 | The output has the input signal's length. |
| AudioUtils.AdsrEnvelope | utils/audio_utils.py:12-23 | The corrected output has the input signal's length. |
| AudioUtils.AsWrittenAgreesWithRelease | utils/audio_utils.py:12-23 | With a release of at least one sample, the original and the corrected envelope agree. |
| AudioUtils.AttackStepAt | utils/audio_utils.py:19 | When the phases fit, the attack write is accepted, ramps `[0, a)` from 0 to 1, and leaves the rest. |
| AudioUtils.DecayStepAt | utils/audio_utils.py:20 | The decay write is accepted, ramps `[a, a+d)` from 1 to sustain, and leaves the rest. |
| AudioUtils.SustainStepAt | utils/audio_utils.py:21 | The sustain write sets exactly `[a+d, a+d+s)`. |
| AudioUtils.ReleaseStepAt | utils/audio_utils.py:22 | The release write is accepted and ramps the last r samples from sustain to 0. |
| AudioUtils.EnvelopeIsShape | utils/audio_utils.py:13-22 | When `a + d + r <= len`, the four slices partition the buffer, and each sample has its phase's value. |
| AudioUtils.AdsrEnvelopeShape | utils/audio_utils.py:12-23 | Each output sample is the signal times its phase's envelope value. |
| AudioUtils.EnvelopeRange | utils/audio_utils.py:13-22 | With sustain in [0, 1], every envelope value lies in [0, 1]. |
| AudioUtils.EnvelopeEndsSilent | utils/audio_utils.py:22 | With at least two release samples, the envelope ends at 0. |
| AudioUtils.ZeroReleaseRaises | utils/audio_utils.py:22 | As written, a zero-length release on a non-empty signal raises, while the corrected envelope exists (see Findings). |
| AudioUtils.ZeroReleaseExample | utils/audio_utils.py:12-23 | A one-second 44100 Hz signal with `release=0` raises as written, and is enveloped when corrected. |
| AudioUtils.ApplyAdsrEnvelope | utils/audio_utils.py:12-23 | The in-place writes into a buffer of ones compute the original function, error cases included. |
| AudioUtils.NormalizeAudio | utils/audio_utils.py:25-26 | An empty signal raises. Otherwise the length is kept. |
| AudioUtils.NormalizedBelowOne | utils/audio_utils.py:25-26 | Every normalized sample has magnitude strictly below 1. |
| AudioUtils.NormalizeAudioKeepsOrder | utils/audio_utils.py:25-26 | Normalization keeps each sample's sign and the order between samples. |
| AudioUtils.ResampledLength | utils/audio_utils.py:33 | Resampling raises exactly when the original rate is zero. |
| AudioUtils.ResampleSameRate | utils/audio_utils.py:33 | Resampling to the same rate keeps the length. |
| AudioUtils.ResampleDown | utils/audio_utils.py:33 | Down-sampling never lengthens. |
| AudioUtils.ResampleOneSecond | utils/audio_utils.py:33 | One second of audio becomes exactly `target_sr` samples. |
| GeoUtils.GetCellBounds | utils/geo_utils.py:13-15 | The box starts at `(x_min, y_min)`, and its width and height are the cell size. |
| GeoUtils.CellBoundsAdjacent | utils/geo_utils.py:13-15 | Neighbouring grid cells share their edges. |
| GeoUtils.ColumnOfPoint | utils/geo_utils.py:13-15 | A point lies in column i's half-open span exactly when i is the floor of its offset in cells. |
| GeoUtils.Ndvi | utils/geo_utils.py:27-29 | NDVI is undefined exactly when the guarded denominator is zero. |
| GeoUtils.Ndwi | utils/geo_utils.py:31-33 | NDWI is undefined exactly when the guarded denominator is zero. |
| GeoUtils.NdviBounded | utils/geo_utils.py:27-29 | For non-negative bands, NDVI is defined and strictly inside (-1, 1). |
| GeoUtils.NdwiBounded | utils/geo_utils.py:31-33 | For non-negative bands, NDWI is defined and strictly inside (-1, 1). |
| GeoUtils.NdviEqualBands | utils/geo_utils.py:27-29 | Equal bands give NDVI 0. |
| GeoUtils.NdwiIsNegatedNdvi | utils/geo_utils.py:27-33 | `ndwi(x, y) == -ndvi(x, y)`, both defined or neither. |
| GeoUtils.NdviBands | utils/geo_utils.py:27-29 | The NDVI array is elementwise. |
| GeoUtils.NdwiBands | utils/geo_utils.py:31-33 | The NDWI array is elementwise. |
| GeoUtils.NdviBandsBounded | utils/geo_utils.py:27-29 | For reflectance bands, every NDVI value is defined and inside (-1, 1). |
| MapVisualization.FirstWithIdIsFirst | models/map_visualization.py:92-97 | The lookup finds nothing exactly when no result has the id, and otherwise finds the earliest one that does. |
| MapVisualization.GetMotifInfo | models/map_visualization.py:92-97 | The early-return loop returns the first result with the cell's id. |
| MapVisualization.StyleCell | models/map_visualization.py:147-180 | Outline equals fill. The colour is blue exactly for a non-anomalous cell, orange for an unmatched anomaly and red for a matched one. The tooltip says "Anomaly" exactly for anomalies. |
| MapVisualization.StyleOf | models/map_visualization.py:147-180 | The same rule, as a value. |
| MapVisualization.DrawCells | models/map_visualization.py:140-184 | One entry per cell, in order. A cell is drawn with its style unless its transform or its popup fails. |
| MapVisualization.RecognizedRecordDrawable | models/map_visualization.py:163-169 | Every record the motif stage writes can be formatted, since a matched anomaly always has a score. |
| MapVisualization.RedIffMatchedAnomaly | models/map_visualization.py:147-169 | A cell is red exactly when the first record with its id is a matched anomaly. |

## Left out

- The sonifier does not reach the model at five points:
  - raster reading and mosaicking, and nodata replacement;
  - the coordinate transform and `windows.from_bounds` with its rounding, which are uninterpreted parameters that may fail;
  - `visualize_geospatial_data`;
  - directory creation and clean-up;
  - the shadowed configuration constants of `config.py`, whose effective values are used instead.
- Waveform sample values are left out because they are floating-point signal processing and randomness:
  - `sin`, `exp` and `midi_to_hz`;
  - dB-to-linear gain;
  - noise and detuning, and the Butterworth filter;
  - the glissando;
  - the sum inside `generate_chord`.
  
  Tones and clicks are parameters, and gains are given in dB.
- `calculate_slope`, `calculate_roughness`, `get_nan_percentage`, and the EVI, BSI and brightness means feed only waveform parameters, so they are left out. NDVI is taken as an optional mean.
- pydub's `pan`, `overlay` and `export`, and soundfile reads and writes, are left out. The length of a valid cell's exported segment is an input, `segmentMs`. The overlay decision is modelled, but the mixing is not.
- The JSON files are modelled as their record values: `TransectIndex.ToDict` and `FromDict` cover the log, and records are datatypes.
- CellDecisions.NdwiWithin and CellDecisions.BandNdwi require the green and NIR bands to have one shape. Numpy broadcasting of unequal shapes is not modelled, and a stack's bands always share a shape.
- AudioUtils.ResampledLength: models only the output length of `scipy.signal.resample`, not its samples.
- `write_audio` and `utils/logger.py` are I/O.
- IsolationForest training and prediction are left out: scores and predictions are inputs. VGGish embeddings are given arrays.
- Folium maps, the popup's HTML and the tooltip's cell number are display code, and `get_transect_list_notebook` is a directory listing. The map colour and state word are modelled.
- `config.py`, `data_loader.py`, `main.py` and `models/vggish_embedding.py` are not part of this model.
- Floats are exact reals, so float32 rounding is not modelled. NaN propagation is modelled only where the source tests for it, through `Option`.
- Sequential file I/O is left out: `Normalization.NormalizeTrack` takes the whole track as a sequence, and the peak scan's possible failure is a boolean input.
- SynthesisPulses.RichPulseFirstClick and SynthesisPulses.PulseFirstClick state where the first click starts and how long it lasts. They do not state that its samples are non-zero, since the click waveform is a parameter.

## Findings

| source | as written | input that shows it | evidently intended | confidence | as-written member | corrected member |
|---|---|---|---|---|---|---|
| models/sonification.py:982-984 | The melody root is the absolute scale note (60-72) plus `octave * 12`, so it lies four to six octaves above the target. | Minor pentatonic scale, target MIDI 45.0: the nearest pitch class comes from 70, so the root is 70 + 36 = 106. | The pitch class of the nearest note in the target's octave: 10 + 36 = 46. | not executed | CellDecisions.MelodyRootAsWritten (CellDecisions.MelodyRootAsWrittenTooHigh, CellDecisions.MelodyRootExample) | CellDecisions.MelodyRoot (CellDecisions.MelodyRootNearTarget) |
| utils/audio_utils.py:22 | `env[-r:]` with `r == 0` is `env[0:]`, the whole array, so assigning the 0-length `np.linspace(sustain, 0, 0)` raises a broadcast error. | A 44100-sample signal, sr 44100, attack 0.01, decay 0.1, sustain 0.7, release 0.0. | No release ramp when `r == 0`. | not executed | AudioUtils.EnvelopeAsWritten (AudioUtils.ZeroReleaseRaises, AudioUtils.ZeroReleaseExample) | AudioUtils.Envelope (AudioUtils.EnvelopeIsShape) |

Three further points where the code does not do what a reader might expect
are stated as proved properties rather than corrected:

- With exactly one release sample, `generate_adsr_sine_wave` ends at the
  sustain level, not at 0 (`SynthesisEnvelope.AdsrLastSample`).
- The anomaly stage gives a six-second cell 11 embeddings
  (`AnomalyDetection.SixSecondCell`). The motif stage's time-range slice for
  the same cell has 13 rows, one of them shared with its predecessor
  (`MotifRecognition.SonifiedCellRange`).
- The motif stage starts its search from "Unknown", and `motif_match` from
  "No_Match". The name is never reported unless a distance beats inf.
