// `get_aligned_cell` (models/sonification.py:589-654): cut out of a raster
// the window that covers one master grid cell, after carrying the cell's
// bounds over into the raster's coordinate reference system. The CRS
// transformers are memoised in a module-level cache keyed by the pair of CRS
// strings. The coordinate transform, the transformer's creation and
// `windows.from_bounds` with its rounding are foreign code and appear here as
// functions that may fail (`None`).
module Alignment {
  import opened Wrappers
  import opened Numeric
  import opened Rasters

  /** A rasterio affine transform: `x = a*col + b*row + c`, `y = d*col + e*row + f`. */
  datatype Affine = Affine(a: real, b: real, c: real, d: real, e: real, f: real) {
    /** `transform * (col, row)`. */
    function Apply(col: real, row: real): (real, real) {
      (a * col + b * row + c, d * col + e * row + f)
    }

    /** A north-up transform: no rotation, columns run east and rows run south. */
    predicate NorthUp() {
      a > 0.0 && b == 0.0 && d == 0.0 && e < 0.0
    }
  }

  /** `(min_x, min_y, max_x, max_y)`. */
  datatype Bounds = Bounds(minX: real, minY: real, maxX: real, maxY: real)

  /** A raster's profile: `str(crs)` when it has one, and its transform. */
  datatype Profile = Profile(crs: Option<string>, transform: Affine)

  /** The master DTM's profile; its CRS is read with `[...]`, so it is always there. */
  datatype MasterProfile = MasterProfile(crs: string, transform: Affine)

  /** A rounded rasterio window. */
  datatype Window = Window(colOff: int, rowOff: int, width: int, height: int)

  /** A handle to a pyproj transformer. */
  datatype Transformer = Transformer(handle: nat)

  /** A window clamped to the raster: rows `[rowStart, rowEnd)`, columns `[colStart, colEnd)`. */
  datatype PixelWindow = PixelWindow(rowStart: nat, rowEnd: nat, colStart: nat, colEnd: nat)

  /**
   * The foreign calls: `Transformer.from_crs`, `transform_bounds`, and
   * `windows.from_bounds` followed by `round_offsets().round_lengths()`.
   * A raised exception is `None`.
   */
  datatype Foreign = Foreign(
    create: (string, string) -> Option<Transformer>,
    transformBounds: (Transformer, Bounds) -> Option<Bounds>,
    windowFor: (Bounds, Affine) -> Option<Window>)

  type CacheKey = (string, string)

  /** Lines 602-603: the master cell's corners are the transform at `(col, row)` and `(col + p, row + p)`. */
  function MasterCellBounds(t: Affine, rowIdx: nat, colIdx: nat, p: nat): Bounds {
    var (minX, maxY) := t.Apply(colIdx as real, rowIdx as real);
    var (maxX, minY) := t.Apply((colIdx + p) as real, (rowIdx + p) as real);
    Bounds(minX, minY, maxX, maxY)
  }

  /** Under a north-up master transform a cell of positive size has properly ordered bounds. */
  lemma MasterCellBoundsOrdered(t: Affine, rowIdx: nat, colIdx: nat, p: nat)
    requires t.NorthUp() && p > 0
    ensures var bb := MasterCellBounds(t, rowIdx, colIdx, p);
      bb.minX < bb.maxX && bb.minY < bb.maxY &&
      bb.maxX - bb.minX == t.a * p as real && bb.maxY - bb.minY == -t.e * p as real
  {
    var bb := MasterCellBounds(t, rowIdx, colIdx, p);
    assert bb.maxX - bb.minX == t.a * p as real;
    assert bb.maxY - bb.minY == -t.e * p as real;
    MulPos(t.a, p as real);
    MulPos(-t.e, p as real);
  }

  /**
   * Lines 623-624: `(rows_limit, cols_limit)`; a one-dimensional array has
   * no `shape[1]`, and the `IndexError` ends in the empty result.
   */
  function Limits(data: Pixels): (r: Option<(nat, nat)>)
    ensures r.Some? <==> data.Ndim() >= 2
    ensures r.Some? ==> r.value == (data.Rows(), data.Cols())
  {
    if data.Flat? then None else Some((data.Rows(), data.Cols()))
  }

  /**
   * Lines 626-629 and 635: each side of the window is clamped to
   * `[max(0, off), min(limit, off + len))`, and a window with nothing left on
   * either side is rejected.
   */
  function ClampWindow(w: Window, rowsLimit: nat, colsLimit: nat): (r: Option<PixelWindow>)
    ensures r.Some? ==> r.value.rowEnd <= rowsLimit && r.value.colEnd <= colsLimit
    ensures r.Some? ==> r.value.rowStart < r.value.rowEnd && r.value.colStart < r.value.colEnd
    ensures r.None? <==>
      MaxInt(0, w.colOff) >= MinInt(colsLimit, w.colOff + w.width) ||
      MaxInt(0, w.rowOff) >= MinInt(rowsLimit, w.rowOff + w.height)
    ensures r.Some? ==> r.value == PixelWindow(MaxInt(0, w.rowOff), MinInt(rowsLimit, w.rowOff + w.height),
                                               MaxInt(0, w.colOff), MinInt(colsLimit, w.colOff + w.width))
  {
    var colStart := MaxInt(0, w.colOff);
    var rowStart := MaxInt(0, w.rowOff);
    var colEnd := MinInt(colsLimit, w.colOff + w.width);
    var rowEnd := MinInt(rowsLimit, w.rowOff + w.height);
    if colStart >= colEnd || rowStart >= rowEnd then None
    else Some(PixelWindow(rowStart, rowEnd, colStart, colEnd))
  }

  /** `plane[rowStart:rowEnd, colStart:colEnd]`. */
  function CropPlane(rows: seq<seq<Pixel>>, w: PixelWindow): (r: seq<seq<Pixel>>)
    requires w.rowStart <= w.rowEnd <= |rows| && w.colStart <= w.colEnd
    requires forall i :: 0 <= i < |rows| ==> w.colEnd <= |rows[i]|
    ensures |r| == w.rowEnd - w.rowStart
    ensures forall i :: 0 <= i < |r| ==> r[i] == rows[w.rowStart + i][w.colStart..w.colEnd]
  {
    seq(w.rowEnd - w.rowStart, i requires 0 <= i < w.rowEnd - w.rowStart => rows[w.rowStart + i][w.colStart..w.colEnd])
  }

  /** A window lies inside the array's extent. */
  predicate Inside(data: Pixels, w: PixelWindow) {
    w.rowStart < w.rowEnd <= data.Rows() && w.colStart < w.colEnd <= data.Cols()
  }

  /** Lines 639-640: `data[:, rs:re, cs:ce]` for a band stack, `data[rs:re, cs:ce]` for a plane. */
  function Crop(data: Pixels, w: PixelWindow): (r: Pixels)
    requires data.Rectangular() && !data.Flat? && Inside(data, w)
    ensures r.Ndim() == data.Ndim()
    ensures r.Plane? ==> CropPlane(data.rows, w) == r.rows
    ensures r.Stack? ==> (|r.bands| == |data.bands| &&
      forall b :: 0 <= b < |r.bands| ==> r.bands[b] == CropPlane(data.bands[b], w))
  {
    match data
    case Plane(rows) => Plane(CropPlane(rows, w))
    case Stack(bands) =>
      Stack(seq(|bands|, b requires 0 <= b < |bands| => CropPlane(bands[b], w)))
  }

  /** Lines 619-647: locate the window, clamp it, crop, and reject an empty or all-NaN crop. */
  function Extract(data: Pixels, window: Option<Window>): (r: Pixels)
    requires data.Rectangular()
  {
    if window.None? || Limits(data).None? then Flat
    else
      var (rowsLimit, colsLimit) := Limits(data).value;
      var clamped := ClampWindow(window.value, rowsLimit, colsLimit);
      if clamped.None? then Flat
      else
        var extracted := Crop(data, clamped.value);
        if extracted.Size() == 0 || extracted.AllNan() then Flat else extracted
  }

  /** The transformer for a key: the cached one, or a freshly created one. */
  function Lookup(entries: map<CacheKey, Transformer>, key: CacheKey, create: (string, string) -> Option<Transformer>): Option<Transformer> {
    if key in entries then Some(entries[key]) else create(key.0, key.1)
  }

  /** Does the call get as far as the cache? Not when the raster, its profile or its CRS is missing. */
  predicate ReachesCache(data: Option<Pixels>, profile: Option<Profile>) {
    data.Some? && profile.Some? && profile.value.crs.Some?
  }

  /**
   * The result of `get_aligned_cell` given the cache's entries before the
   * call. A transformer that cannot be created gives the empty array, which
   * line 609's handler returns.
   */
  function AlignedCell(entries: map<CacheKey, Transformer>, data: Option<Pixels>, profile: Option<Profile>,
                       master: MasterProfile, rowIdx: nat, colIdx: nat, p: nat, foreign: Foreign): Pixels
    requires data.Some? ==> data.value.Rectangular()
  {
    if !ReachesCache(data, profile) then Flat
    else
      var key := (master.crs, profile.value.crs.value);
      var transformer := Lookup(entries, key, foreign.create);
      if transformer.None? then Flat
      else
        var bounds := foreign.transformBounds(transformer.value, MasterCellBounds(master.transform, rowIdx, colIdx, p));
        if bounds.None? then Flat
        else Extract(data.value, foreign.windowFor(bounds.value, profile.value.transform))
  }

  /** Lines 606-609: the cache after the call; a new transformer is stored only when it was created. */
  function CacheAfter(entries: map<CacheKey, Transformer>, data: Option<Pixels>, profile: Option<Profile>,
                      master: MasterProfile, foreign: Foreign): map<CacheKey, Transformer>
  {
    if !ReachesCache(data, profile) then entries
    else
      var key := (master.crs, profile.value.crs.value);
      if key in entries then entries
      else
        var created := foreign.create(key.0, key.1);
        if created.None? then entries else entries[key := created.value]
  }

  /** `crs_transformers_cache` and `get_aligned_cell`, which reads and fills it. */
  class TransformerCache {
    var entries: map<CacheKey, Transformer>

    constructor ()
      ensures entries == map[]
    {
      entries := map[];
    }

    method GetAlignedCell(data: Option<Pixels>, profile: Option<Profile>, master: MasterProfile,
                          rowIdx: nat, colIdx: nat, p: nat, foreign: Foreign) returns (cell: Pixels)
      requires data.Some? ==> data.value.Rectangular()
      modifies this
      ensures cell == AlignedCell(old(entries), data, profile, master, rowIdx, colIdx, p, foreign)
      ensures entries == CacheAfter(old(entries), data, profile, master, foreign)
    {
      if data.None? || profile.None? || profile.value.crs.None? {
        return Flat;
      }
      var masterBounds := MasterCellBounds(master.transform, rowIdx, colIdx, p);
      var key := (master.crs, profile.value.crs.value);
      if key !in entries {
        var created := foreign.create(key.0, key.1);
        if created.None? {
          return Flat;
        }
        entries := entries[key := created.value];
      }
      var transformer := entries[key];
      var transformed := foreign.transformBounds(transformer, masterBounds);
      if transformed.None? {
        return Flat;
      }
      cell := Extract(data.value, foreign.windowFor(transformed.value, profile.value.transform));
    }
  }

  /** Every way the call can fail gives the empty array. */
  lemma AlignedCellEmptyCases(entries: map<CacheKey, Transformer>, data: Option<Pixels>, profile: Option<Profile>,
                              master: MasterProfile, rowIdx: nat, colIdx: nat, p: nat, foreign: Foreign)
    requires data.Some? ==> data.value.Rectangular()
    ensures !ReachesCache(data, profile) ==> AlignedCell(entries, data, profile, master, rowIdx, colIdx, p, foreign) == Flat
    ensures ReachesCache(data, profile) ==>
      var key := (master.crs, profile.value.crs.value);
      var cell := AlignedCell(entries, data, profile, master, rowIdx, colIdx, p, foreign);
      (key !in entries && foreign.create(master.crs, profile.value.crs.value).None? ==> cell == Flat) &&
      (var t := Lookup(entries, key, foreign.create);
       t.Some? && foreign.transformBounds(t.value, MasterCellBounds(master.transform, rowIdx, colIdx, p)).None? ==>
         cell == Flat)
    ensures data.Some? && data.value.Flat? ==> AlignedCell(entries, data, profile, master, rowIdx, colIdx, p, foreign) == Flat
  {
  }

  /**
   * The clamped window and the crop: a degenerate window, a missing window
   * and an all-NaN crop give the empty array; any other result is the crop of
   * a window inside the raster's extent and holds at least one number.
   */
  lemma ExtractWithinExtent(data: Pixels, window: Option<Window>)
    requires data.Rectangular()
    ensures window.None? ==> Extract(data, window) == Flat
    ensures window.Some? && !data.Flat? && ClampWindow(window.value, data.Rows(), data.Cols()).None? ==>
      Extract(data, window) == Flat
    ensures Extract(data, window) != Flat ==>
      window.Some? && !data.Flat? &&
      var w := ClampWindow(window.value, data.Rows(), data.Cols());
      w.Some? && Inside(data, w.value) &&
      Extract(data, window) == Crop(data, w.value) && Extract(data, window).HasData()
  {
  }

  /** A non-empty result of `get_aligned_cell` is a crop of the raster inside its extent holding data. */
  lemma AlignedCellWithinExtent(entries: map<CacheKey, Transformer>, data: Option<Pixels>, profile: Option<Profile>,
                                master: MasterProfile, rowIdx: nat, colIdx: nat, p: nat, foreign: Foreign)
    requires data.Some? ==> data.value.Rectangular()
    ensures var cell := AlignedCell(entries, data, profile, master, rowIdx, colIdx, p, foreign);
      cell != Flat ==>
        data.Some? && !data.value.Flat? && cell.HasData() &&
        exists w :: Inside(data.value, w) && cell == Crop(data.value, w)
  {
    var cell := AlignedCell(entries, data, profile, master, rowIdx, colIdx, p, foreign);
    if cell != Flat {
      var key := (master.crs, profile.value.crs.value);
      var t := Lookup(entries, key, foreign.create).value;
      var bounds := foreign.transformBounds(t, MasterCellBounds(master.transform, rowIdx, colIdx, p)).value;
      var window := foreign.windowFor(bounds, profile.value.transform);
      ExtractWithinExtent(data.value, window);
      var w := ClampWindow(window.value, data.value.Rows(), data.value.Cols()).value;
      assert Inside(data.value, w) && cell == Crop(data.value, w);
    }
  }

  /**
   * The cache only grows: an existing entry is never replaced, the only key
   * that can appear is the call's own, and it appears only when the
   * transformer was created.
   */
  lemma CacheNeverReplaced(entries: map<CacheKey, Transformer>, data: Option<Pixels>, profile: Option<Profile>,
                           master: MasterProfile, foreign: Foreign)
    ensures var after := CacheAfter(entries, data, profile, master, foreign);
      (forall k :: k in entries ==> k in after && after[k] == entries[k]) &&
      (forall k :: k in after && k !in entries ==>
         ReachesCache(data, profile) && k == (master.crs, profile.value.crs.value) &&
         foreign.create(k.0, k.1) == Some(after[k]))
  {
  }

  /** Every cached transformer is the one creation would give for its key. */
  predicate Consistent(entries: map<CacheKey, Transformer>, create: (string, string) -> Option<Transformer>) {
    forall k :: k in entries ==> create(k.0, k.1) == Some(entries[k])
  }

  /**
   * The cache is a memo: while it agrees with creation, a call returns what
   * it would return with an empty cache, and it still agrees afterwards.
   */
  lemma CacheIsMemo(entries: map<CacheKey, Transformer>, data: Option<Pixels>, profile: Option<Profile>,
                    master: MasterProfile, rowIdx: nat, colIdx: nat, p: nat, foreign: Foreign)
    requires data.Some? ==> data.value.Rectangular()
    requires Consistent(entries, foreign.create)
    ensures AlignedCell(entries, data, profile, master, rowIdx, colIdx, p, foreign) ==
            AlignedCell(map[], data, profile, master, rowIdx, colIdx, p, foreign)
    ensures Consistent(CacheAfter(entries, data, profile, master, foreign), foreign.create)
  {
    if ReachesCache(data, profile) {
      var key := (master.crs, profile.value.crs.value);
      assert Lookup(entries, key, foreign.create) == Lookup(map[], key, foreign.create);
    }
  }
}
