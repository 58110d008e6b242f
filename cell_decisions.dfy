// The per-cell and per-transect decisions of the sonifier: whether a cell
// is rendered at all, its NDWI, the water-body gain table, the D8 pan, the
// musical scale, chord and melody root, the hard-coded anomaly rectangles and
// which overlay they trigger, and the output file suffix.
module CellDecisions {
  import opened Wrappers
  import opened Numeric
  import opened Rasters

  // ----- transect categories (models/sonification.py:86-88) -----

  const ArchaeologicalTransects: seq<string> := ["BR_AC_10", "BR_RO_05", "BR_PA_02", "BR_AC_07", "BR_AC_09"]
  const JungleTransects: seq<string> := ["BR_AM_04", "BR_PA_04", "BR_RO_03", "BR_MT_01"]
  const CityTransects: seq<string> := ["BR_AM_03"]

  /** No transect belongs to two categories. */
  lemma CategoriesDisjoint(t: string)
    ensures !(t in ArchaeologicalTransects && t in JungleTransects)
    ensures !(t in ArchaeologicalTransects && t in CityTransects)
    ensures !(t in JungleTransects && t in CityTransects)
  {
  }

  // ----- validity (models/sonification.py:896, 912-916) -----

  /**
   * `is_valid_cell`. `mean_ndvi` is the cell's NDVI mean with NaN already
   * replaced by 0.0 (line 896), so its NaN test can never fail.
   */
  predicate IsValidCell(dtm: Pixels, ndviCell: Option<real>, flowAcc: Pixels) {
    var meanNdvi: Option<real> := Some(ndviCell.GetOr(0.0));
    dtm.HasData() && meanNdvi.Some? && flowAcc.HasData()
  }

  /**
   * Validity depends only on the DTM and flow-accumulation windows each
   * holding at least one number; the NDVI plays no part.
   */
  lemma ValidityIgnoresNdvi(dtm: Pixels, ndviCell: Option<real>, flowAcc: Pixels)
    ensures IsValidCell(dtm, ndviCell, flowAcc) <==>
      (dtm.Size() > 0 && exists i :: 0 <= i < |dtm.Values()| && dtm.Values()[i].Some?) &&
      (flowAcc.Size() > 0 && exists i :: 0 <= i < |flowAcc.Values()| && flowAcc.Values()[i].Some?)
  {
  }

  // ----- calculate_ndwi_s2 (models/sonification.py:527-534) -----

  /** Two band planes of one shape: as many rows, each as long as its counterpart. */
  predicate SameShape(a: seq<seq<Pixel>>, b: seq<seq<Pixel>>) {
    |a| == |b| && forall i :: 0 <= i < |a| ==> |a[i]| == |b[i]|
  }

  lemma {:induction false} ConcatSameLength(a: seq<seq<Pixel>>, b: seq<seq<Pixel>>)
    requires SameShape(a, b)
    ensures |Concat(a)| == |Concat(b)|
    decreases |a|
  {
    if a != [] {
      ConcatSameLength(a[1..], b[1..]);
    }
  }

  /** One pixel of NDWI, `(green - nir) / (green + nir)`, NaN for a zero denominator or a NaN band. */
  function PixelNdwi(green: Pixel, nir: Pixel): (r: Pixel)
    ensures r.Some? <==> green.Some? && nir.Some? && green.value + nir.value != 0.0
  {
    if green.Some? && nir.Some? && green.value + nir.value != 0.0 then
      Some((green.value - nir.value) / (green.value + nir.value))
    else None
  }

  /** The NDWI of two equally shaped bands, pixel by pixel, in row-major order. */
  function BandNdwi(green: seq<seq<Pixel>>, nir: seq<seq<Pixel>>): (r: seq<Pixel>)
    requires SameShape(green, nir)
    ensures |r| == |Concat(green)|
  {
    ConcatSameLength(green, nir);
    var g := Concat(green);
    var n := Concat(nir);
    seq(|g|, i requires 0 <= i < |g| => PixelNdwi(g[i], n[i]))
  }

  /**
   * `calculate_ndwi_s2`: the nan-mean of the NDWI of band 2 (green) against
   * band 6 (near infrared); NaN for a missing window, one with fewer than
   * three dimensions or fewer than eight bands, or one with no defined pixel.
   */
  function CalculateNdwiS2(cell: Option<Pixels>): (r: Option<real>)
    requires cell.Some? && cell.value.Stack? && |cell.value.bands| >= 8 ==>
      SameShape(cell.value.bands[2], cell.value.bands[6])
  {
    if cell.None? || cell.value.Ndim() < 3 then None
    else if |cell.value.bands| < 8 then None
    else NanMean(BandNdwi(cell.value.bands[2], cell.value.bands[6]))
  }

  /**
   * An NDWI is reported only for a band stack with at least eight bands in
   * which some pixel has both bands defined with a non-zero sum.
   */
  lemma NdwiDefinedWhen(cell: Option<Pixels>)
    requires cell.Some? && cell.value.Stack? && |cell.value.bands| >= 8 ==>
      SameShape(cell.value.bands[2], cell.value.bands[6])
    ensures CalculateNdwiS2(cell).Some? <==>
      cell.Some? && cell.value.Stack? && |cell.value.bands| >= 8 &&
      exists i :: 0 <= i < |BandNdwi(cell.value.bands[2], cell.value.bands[6])| &&
        BandNdwi(cell.value.bands[2], cell.value.bands[6])[i].Some?
  {
  }

  /** A ratio `(g - n) / (g + n)` of non-negative bands lies in [-1, 1]. */
  lemma PixelNdwiWithin(green: Pixel, nir: Pixel)
    requires green.Some? ==> green.value >= 0.0
    requires nir.Some? ==> nir.value >= 0.0
    ensures PixelNdwi(green, nir).Some? ==> -1.0 <= PixelNdwi(green, nir).value <= 1.0
  {
    if PixelNdwi(green, nir).Some? {
      var g, n := green.value, nir.value;
      QuotientWithin(g - n, g + n, -1.0, 1.0);
    }
  }

  /** With non-negative reflectances the cell's NDWI, when defined, lies in [-1, 1]. */
  lemma NdwiWithin(cell: Option<Pixels>)
    requires cell.Some? && cell.value.Stack? && |cell.value.bands| >= 8 ==>
      SameShape(cell.value.bands[2], cell.value.bands[6])
    requires cell.Some? && cell.value.Stack? && |cell.value.bands| >= 8 ==>
      (forall i :: 0 <= i < |Concat(cell.value.bands[2])| && Concat(cell.value.bands[2])[i].Some? ==>
         Concat(cell.value.bands[2])[i].value >= 0.0) &&
      (forall i :: 0 <= i < |Concat(cell.value.bands[6])| && Concat(cell.value.bands[6])[i].Some? ==>
         Concat(cell.value.bands[6])[i].value >= 0.0)
    ensures CalculateNdwiS2(cell).Some? ==> -1.0 <= CalculateNdwiS2(cell).value <= 1.0
  {
    if CalculateNdwiS2(cell).Some? {
      var green, nir := cell.value.bands[2], cell.value.bands[6];
      ConcatSameLength(green, nir);
      var ratios := BandNdwi(green, nir);
      forall i | 0 <= i < |ratios| && ratios[i].Some?
        ensures -1.0 <= ratios[i].value <= 1.0
      {
        PixelNdwiWithin(Concat(green)[i], Concat(nir)[i]);
      }
      NanMeanWithin(ratios, -1.0, 1.0);
    }
  }

  // ----- water-body gains (models/sonification.py:1012-1021) -----

  const NdwiWaterThreshold: real := 0.2
  const WaterBodySuppressionDb: real := -15.0
  const HydroBoostDb: real := 5.0

  /** The gains, in dB, of the five layers of a cell. */
  datatype Gains = Gains(topo: real, percussion: real, roughness: real, melody: real, hydro: real)

  /** `mean_ndwi > NDWI_WATER_THRESHOLD`; a NaN NDWI compares false. */
  predicate IsWater(ndwi: Option<real>) {
    ndwi.Some? && ndwi.value > NdwiWaterThreshold
  }

  /**
   * The gain table: over water the four land layers are suppressed to -15 dB
   * and the hydro drone boosted to +5 dB; elsewhere the land layers get
   * -6, -12, -9 and -4 dB and the drone keeps its initial -5 dB.
   */
  function WaterGains(ndwi: Option<real>): (g: Gains)
    ensures IsWater(ndwi) ==> g == Gains(WaterBodySuppressionDb, WaterBodySuppressionDb,
                                         WaterBodySuppressionDb, WaterBodySuppressionDb, HydroBoostDb)
    ensures !IsWater(ndwi) ==> g == Gains(-6.0, -12.0, -9.0, -4.0, -5.0)
  {
    var initial := Gains(0.0, 0.0, 0.0, 0.0, -5.0);
    if IsWater(ndwi) then
      initial.(topo := WaterBodySuppressionDb, percussion := WaterBodySuppressionDb,
               roughness := WaterBodySuppressionDb, melody := WaterBodySuppressionDb, hydro := HydroBoostDb)
    else initial.(topo := -6.0, percussion := -12.0, roughness := -9.0, melody := -4.0)
  }

  /**
   * Water lowers every land layer below its land gain and raises the drone
   * above its land gain, and an undefined NDWI is treated as land.
   */
  lemma WaterSuppressesLand(ndwi: Option<real>)
    ensures IsWater(ndwi) ==>
      var w, land := WaterGains(ndwi), WaterGains(None);
      w.topo < land.topo && w.percussion < land.percussion && w.roughness < land.roughness &&
      w.melody < land.melody && w.hydro > land.hydro
    ensures ndwi.None? ==> WaterGains(ndwi) == WaterGains(Some(0.0))
  {
  }

  // ----- D8 pan (models/sonification.py:1040-1051) -----

  /** The pan of each D8 flow-direction code. */
  const D8Pan: map<int, real> := map[1 := 1.0, 2 := 0.7, 4 := 0.0, 8 := -0.7, 16 := -1.0, 32 := -0.7, 64 := 0.0, 128 := 0.7]

  /** The pan of a mean flow direction; a NaN mean is `None`. */
  function PanFor(meanFlowDir: Option<real>): (pan: real)
    ensures -1.0 <= pan <= 1.0
  {
    if meanFlowDir.Some? && meanFlowDir.value > 0.0 then
      var d := meanFlowDir.value;
      if d == 1.0 then 1.0
      else if d == 2.0 then 0.7
      else if d == 4.0 then 0.0
      else if d == 8.0 then -0.7
      else if d == 16.0 then -1.0
      else if d == 32.0 then -0.7
      else if d == 64.0 then 0.0
      else if d == 128.0 then 0.7
      else 0.0
    else 0.0
  }

  /**
   * The pan is the table entry of a mean that is exactly a D8 code, and
   * centre (0.0) for anything else: NaN, non-positive, fractional or unknown.
   */
  lemma PanMatchesTable(meanFlowDir: Option<real>)
    ensures PanFor(meanFlowDir) ==
      if meanFlowDir.Some? && meanFlowDir.value.Floor as real == meanFlowDir.value && meanFlowDir.value.Floor in D8Pan
      then D8Pan[meanFlowDir.value.Floor] else 0.0
  {
  }

  /** The code of the mirror image of a flow direction across the north-south axis. */
  function MirrorEastWest(code: int): int {
    match code
    case 1 => 16
    case 16 => 1
    case 2 => 8
    case 8 => 2
    case 128 => 32
    case 32 => 128
    case _ => code
  }

  /** Mirrored flow directions pan to opposite sides. */
  lemma PanMirrors(code: int)
    requires code in D8Pan
    ensures MirrorEastWest(code) in D8Pan
    ensures PanFor(Some(MirrorEastWest(code) as real)) == -PanFor(Some(code as real))
  {
  }

  // ----- anomaly rectangles and overlay (models/sonification.py:1057-1122) -----

  /** A half-open rectangle of cell indices, `[rowLo, rowHi) x [colLo, colHi)`. */
  datatype CellRect = CellRect(rowLo: nat, rowHi: nat, colLo: nat, colHi: nat) {
    predicate Contains(row: nat, col: nat) {
      rowLo <= row < rowHi && colLo <= col < colHi
    }
  }

  /** The hard-coded anomaly area of a transect, if it has one. */
  function AnomalyRect(transect: string): (r: Option<CellRect>)
    ensures r.Some? ==> r.value.rowHi - r.value.rowLo == 5 && r.value.colHi - r.value.colLo == 5
  {
    if transect == "BR_AC_10" then Some(CellRect(4, 9, 6, 11))
    else if transect == "BR_RO_05" then Some(CellRect(10, 15, 12, 17))
    else if transect == "BR_PA_02" then Some(CellRect(25, 30, 8, 13))
    else if transect == "BR_AC_07" then Some(CellRect(5, 10, 5, 10))
    else if transect == "BR_AC_09" then Some(CellRect(7, 12, 7, 12))
    else None
  }

  /** `is_anomaly_cell`: the cell's grid indices `row_idx // p`, `col_idx // p` fall in the transect's rectangle. */
  predicate IsAnomalyCell(transect: string, rowIdx: nat, colIdx: nat, p: nat)
    requires p > 0
  {
    var rect := AnomalyRect(transect);
    rect.Some? && rect.value.Contains(rowIdx / p, colIdx / p)
  }

  /** Only the five archaeological transects have anomaly cells. */
  lemma AnomalyOnlyArchaeological(transect: string, rowIdx: nat, colIdx: nat, p: nat)
    requires p > 0
    ensures IsAnomalyCell(transect, rowIdx, colIdx, p) ==> transect in ArchaeologicalTransects
  {
  }

  /** Floor division by `p` lands in `[lo, hi)` exactly when the number lands in `[lo * p, hi * p)`. */
  lemma DivIn(x: nat, p: nat, lo: nat, hi: nat)
    requires p > 0
    ensures lo <= x / p < hi <==> lo * p <= x < hi * p
  {
    var q := x / p;
    assert q * p <= x < q * p + p;
    if lo <= q {
      assert lo * p <= q * p by { MulMonotone(lo, q, p); }
    }
    if q < hi {
      assert (q + 1) * p <= hi * p by { MulMonotone(q + 1, hi, p); }
    }
    if lo * p <= x && lo > q {
      MulMonotone(q + 1, lo, p);
    }
    if x < hi * p && q >= hi {
      MulMonotone(hi, q, p);
    }
  }

  /** In pixel terms an anomaly cell is one whose top-left pixel lies in the rectangle scaled by `p`. */
  lemma AnomalyCellPixels(transect: string, rowIdx: nat, colIdx: nat, p: nat)
    requires p > 0 && AnomalyRect(transect).Some?
    ensures var rect := AnomalyRect(transect).value;
      IsAnomalyCell(transect, rowIdx, colIdx, p) <==>
        rect.rowLo * p <= rowIdx < rect.rowHi * p && rect.colLo * p <= colIdx < rect.colHi * p
  {
    var rect := AnomalyRect(transect).value;
    DivIn(rowIdx, p, rect.rowLo, rect.rowHi);
    DivIn(colIdx, p, rect.colLo, rect.colHi);
  }

  /** Which extra layer an anomaly cell gets. */
  datatype AnomalyOverlay = NoOverlay | ArchaeologicalOverlay | JungleOverlay

  /** Lines 1089-1122: the siren overlay for archaeological sites, the subtle one for jungle sites. */
  function OverlayFor(transect: string, isAnomaly: bool): AnomalyOverlay {
    if !isAnomaly then NoOverlay
    else if transect in ArchaeologicalTransects then ArchaeologicalOverlay
    else if transect in JungleTransects then JungleOverlay
    else NoOverlay
  }

  /**
   * The jungle overlay is never taken: an anomaly cell always belongs to an
   * archaeological transect, so every anomaly cell gets the siren.
   */
  lemma JungleOverlayNeverTaken(transect: string, rowIdx: nat, colIdx: nat, p: nat)
    requires p > 0
    ensures OverlayFor(transect, IsAnomalyCell(transect, rowIdx, colIdx, p)) != JungleOverlay
    ensures IsAnomalyCell(transect, rowIdx, colIdx, p) ==>
      OverlayFor(transect, true) == ArchaeologicalOverlay
  {
    AnomalyOnlyArchaeological(transect, rowIdx, colIdx, p);
  }

  // ----- output file name (models/sonification.py:1143-1153) -----

  /** The suffix of the output file: by category, empty for cities and unknown transects. */
  function FileSuffix(transect: string): (s: string)
    ensures s == "_Archaeological" <==> transect in ArchaeologicalTransects
    ensures s == "_Jungle" <==> transect in JungleTransects
    ensures s == "" <==> !(transect in ArchaeologicalTransects) && !(transect in JungleTransects)
  {
    CategoriesDisjoint(transect);
    if transect in ArchaeologicalTransects then "_Archaeological"
    else if transect in JungleTransects then "_Jungle"
    else ""
  }

  /** The final output file's name within the transect's directory. */
  function OutputFileName(transect: string): (name: string)
    ensures |name| == |transect| + |"_full_sonification_SOTA"| + |FileSuffix(transect)| + |".wav"|
    ensures name[..|transect|] == transect
  {
    transect + "_full_sonification_SOTA" + FileSuffix(transect) + ".wav"
  }

  /**
   * Distinct transects get distinct output names when their ids have the same
   * length (the names then differ in that prefix) or the same category (the
   * names are the ids followed by one fixed string).
   */
  lemma OutputNamesDiffer(a: string, b: string)
    requires a != b && (|a| == |b| || FileSuffix(a) == FileSuffix(b))
    ensures OutputFileName(a) != OutputFileName(b)
  {
    if |a| == |b| {
      assert OutputFileName(a)[..|a|] == a;
      assert OutputFileName(b)[..|b|] == b;
    } else {
      assert |OutputFileName(a)| != |OutputFileName(b)|;
    }
  }

  // ----- scale, chord and melody root (models/sonification.py:939-991) -----

  const MajorScale: seq<int> := [60, 62, 64, 65, 67, 69, 71, 72]
  const MinorPentatonic: seq<int> := [60, 63, 65, 67, 70, 72]

  /** `pitch_interpolation_factor`: 1 minus the clipped NDVI mapped from [-0.2, 0.8] onto [0, 1]. */
  function PitchFactor(meanNdvi: real): (f: real)
    ensures 0.0 <= f <= 1.0
  {
    1.0 - Interp(Clip(meanNdvi, -0.2, 0.8), -0.2, 0.8, 0.0, 1.0)
  }

  /** Line 946: the major scale when the pitch factor exceeds one half, else the minor pentatonic. */
  function ScaleFor(meanNdvi: real): seq<int> {
    if PitchFactor(meanNdvi) > 0.5 then MajorScale else MinorPentatonic
  }

  /** The major scale is chosen exactly for an NDVI below 0.3. */
  lemma ScaleForMajorIff(meanNdvi: real)
    ensures ScaleFor(meanNdvi) == MajorScale <==> meanNdvi < 0.3
  {
    var c := Clip(meanNdvi, -0.2, 0.8);
    if -0.2 < c < 0.8 {
      assert Interp(c, -0.2, 0.8, 0.0, 1.0) == (c + 0.2) / 1.0;
    }
    assert MajorScale != MinorPentatonic by {
      assert |MajorScale| != |MinorPentatonic|;
    }
  }

  /** `evi_chord_density`: the EVI mapped from [0, 0.8] onto [0, 1]. */
  function ChordDensity(meanEvi: real): (d: real)
    ensures 0.0 <= d <= 1.0
  {
    Interp(meanEvi, 0.0, 0.8, 0.0, 1.0)
  }

  /**
   * Lines 988-991: the root, then the third (`third`, drawn from {3, 4}) above
   * a density of 0.3, the fifth above 0.6 and the minor seventh above 0.8.
   */
  function ChordIntervals(density: real, third: int): seq<int> {
    [0] + (if density > 0.3 then [third] else []) + (if density > 0.6 then [7] else []) + (if density > 0.8 then [10] else [])
  }

  /** The intervals start at the root, ascend strictly, and number one more than the thresholds passed. */
  lemma ChordIntervalsShape(density: real, third: int)
    requires third == 3 || third == 4
    ensures var iv := ChordIntervals(density, third);
      iv[0] == 0 &&
      (forall i, j :: 0 <= i < j < |iv| ==> iv[i] < iv[j]) &&
      |iv| == 1 + (if density > 0.3 then 1 else 0) + (if density > 0.6 then 1 else 0) + (if density > 0.8 then 1 else 0)
  {
  }

  /** A denser cell's chord extends a sparser cell's chord: the sparser one is a prefix. */
  lemma ChordIntervalsGrow(d1: real, d2: real, third: int)
    requires d1 <= d2
    ensures ChordIntervals(d1, third) <= ChordIntervals(d2, third)
  {
  }

  /** Python's `x % 12` on a float: the non-negative remainder of floor division. */
  function Mod12(x: real): (r: real)
    ensures 0.0 <= r < 12.0
  {
    x - 12.0 * (x / 12.0).Floor as real
  }

  /** How far a scale note's pitch class is from the target's, `|note % 12 - target % 12|`. */
  function PitchClassGap(note: int, target: real): real {
    Abs((note % 12) as real - Mod12(target))
  }

  /** `np.argmin` over the gaps of `scale[from..]`: the first index whose gap is smallest. */
  function ArgMinFrom(scale: seq<int>, target: real, from: nat): (j: nat)
    requires from < |scale|
    ensures from <= j < |scale|
    ensures forall k :: from <= k < |scale| ==> PitchClassGap(scale[j], target) <= PitchClassGap(scale[k], target)
    ensures forall k :: from <= k < j ==> PitchClassGap(scale[k], target) > PitchClassGap(scale[j], target)
    decreases |scale| - from
  {
    if from == |scale| - 1 then from
    else
      var rest := ArgMinFrom(scale, target, from + 1);
      if PitchClassGap(scale[from], target) <= PitchClassGap(scale[rest], target) then from else rest
  }

  /** `int(target // 12)`: the octave of the target. */
  function Octave(target: real): int {
    (target / 12.0).Floor
  }

  /**
   * Lines 982-984 as written: the nearest scale note itself (an absolute
   * MIDI note of the scale around middle C) plus the target's octave.
   */
  function MelodyRootAsWritten(scale: seq<int>, target: real): int
    requires |scale| > 0
  {
    scale[ArgMinFrom(scale, target, 0)] + Octave(target) * 12
  }

  /**
   * As written, the root lands at least four octaves above the target for
   * both scales, whose notes all lie at or above MIDI 60.
   */
  lemma MelodyRootAsWrittenTooHigh(scale: seq<int>, target: real)
    requires |scale| > 0 && forall k :: 0 <= k < |scale| ==> scale[k] >= 60
    ensures MelodyRootAsWritten(scale, target) as real > target + 48.0
  {
    assert (Octave(target) * 12) as real > target - 12.0;
  }

  /** For MIDI 45, the top of the lowest melody range, the written code gives MIDI 106 where 46 is meant. */
  lemma MelodyRootExample()
    ensures MelodyRootAsWritten(MinorPentatonic, 45.0) == 106
    ensures MelodyRoot(MinorPentatonic, 45.0) == 46
  {
    assert Mod12(45.0) == 9.0;
    assert ArgMinFrom(MinorPentatonic, 45.0, 5) == 5;
    assert ArgMinFrom(MinorPentatonic, 45.0, 4) == 4;
    assert ArgMinFrom(MinorPentatonic, 45.0, 3) == 4;
    assert ArgMinFrom(MinorPentatonic, 45.0, 2) == 4;
    assert ArgMinFrom(MinorPentatonic, 45.0, 1) == 4;
    assert ArgMinFrom(MinorPentatonic, 45.0, 0) == 4;
  }

  /**
   * The evidently intended root: the pitch class of the nearest scale note,
   * placed in the target's octave.
   */
  function MelodyRoot(scale: seq<int>, target: real): int
    requires |scale| > 0
  {
    scale[ArgMinFrom(scale, target, 0)] % 12 + Octave(target) * 12
  }

  /**
   * The corrected root is a note of the scale's pitch classes in the same
   * octave as the target, so it lies within an octave of it.
   */
  lemma MelodyRootNearTarget(scale: seq<int>, target: real)
    requires |scale| > 0
    ensures var j := ArgMinFrom(scale, target, 0);
      MelodyRoot(scale, target) % 12 == scale[j] % 12 &&
      MelodyRoot(scale, target) / 12 == Octave(target) &&
      target - 12.0 < MelodyRoot(scale, target) as real < target + 12.0
  {
    var j := ArgMinFrom(scale, target, 0);
    var pc := scale[j] % 12;
    var o := Octave(target);
    assert MelodyRoot(scale, target) == pc + o * 12;
    assert (pc + o * 12) / 12 == o;
    assert (pc + o * 12) % 12 == pc;
  }
}
