// The standalone geospatial helpers (utils/geo_utils.py): the square box of
// a grid cell, and the NDVI and NDWI band indices with `1e-10` added to the
// denominator. Raster reading, reprojection, slope and roughness are not
// modelled.
module GeoUtils {
  import opened Wrappers
  import opened Numeric

  /** The `1e-10` added to the denominator of both indices. */
  const Epsilon: real := 0.0000000001

  /** A shapely `box(minx, miny, maxx, maxy)`. */
  datatype Box = Box(minX: real, minY: real, maxX: real, maxY: real)

  /** Lines 13-15: the cell whose lower-left corner is `(xMin, yMin)`, `cellSize` on each side. */
  function GetCellBounds(xMin: real, yMin: real, cellSize: real): (b: Box)
    ensures b.minX == xMin && b.minY == yMin
    ensures b.maxX - b.minX == cellSize && b.maxY - b.minY == cellSize
  {
    Box(xMin, yMin, xMin + cellSize, yMin + cellSize)
  }

  /** Cells laid on a grid of step `cellSize` share their edges: each one starts where its neighbour ends. */
  lemma CellBoundsAdjacent(x0: real, y0: real, cellSize: real, i: int, j: int)
    ensures GetCellBounds(x0 + (i + 1) as real * cellSize, y0 + j as real * cellSize, cellSize).minX ==
      GetCellBounds(x0 + i as real * cellSize, y0 + j as real * cellSize, cellSize).maxX
    ensures GetCellBounds(x0 + i as real * cellSize, y0 + (j + 1) as real * cellSize, cellSize).minY ==
      GetCellBounds(x0 + i as real * cellSize, y0 + j as real * cellSize, cellSize).maxY
  {
    assert (i + 1) as real * cellSize == i as real * cellSize + cellSize;
    assert (j + 1) as real * cellSize == j as real * cellSize + cellSize;
  }

  lemma ScaleKeepsOrder(x: real, y: real, c: real)
    requires c > 0.0
    ensures (x < y) <==> (x * c < y * c)
  {
    if x < y {
      MulPos(y - x, c);
    } else {
      MulNonneg(x - y, c);
    }
  }

  lemma AtOrAfterStart(x0: real, c: real, ir: real, px: real, q: real)
    requires c > 0.0 && px == x0 + q * c
    ensures (x0 + ir * c <= px) <==> (ir <= q)
  {
    ScaleKeepsOrder(q, ir, c);
  }

  lemma BeforeEnd(x0: real, c: real, px: real, q: real, hi: real)
    requires c > 0.0 && px == x0 + q * c
    ensures (px < x0 + hi * c) <==> (q < hi)
  {
    ScaleKeepsOrder(q, hi, c);
  }

  lemma OffsetInSpan(x0: real, c: real, ir: real, px: real, q: real)
    requires c > 0.0 && px == x0 + q * c
    ensures (x0 + ir * c <= px && px < x0 + ir * c + c) <==> (ir <= q && q < ir + 1.0)
  {
    AtOrAfterStart(x0, c, ir, px, q);
    BeforeEnd(x0, c, px, q, ir + 1.0);
    assert (ir + 1.0) * c == ir * c + c;
  }

  /**
   * On a grid of positive step, an x coordinate lies in the half-open span
   * of column `i` exactly when `i` is the floor of its offset in cells, so
   * every point belongs to one column only.
   */
  lemma ColumnOfPoint(x0: real, cellSize: real, i: int, px: real)
    requires cellSize > 0.0
    ensures var b := GetCellBounds(x0 + i as real * cellSize, 0.0, cellSize);
      (b.minX <= px < b.maxX) <==> i == ((px - x0) / cellSize).Floor
  {
    var q := (px - x0) / cellSize;
    assert px == x0 + q * cellSize;
    OffsetInSpan(x0, cellSize, i as real, px, q);
  }

  /**
   * Lines 27-29: `(nir - red) / (nir + red + 1e-10)`; a zero denominator
   * gives numpy's `inf` or `nan`, modelled as None.
   */
  function Ndvi(red: real, nir: real): (r: Option<real>)
    ensures r.None? <==> nir + red + Epsilon == 0.0
  {
    var denominator := nir + red + Epsilon;
    if denominator == 0.0 then None else Some((nir - red) / denominator)
  }

  /** Lines 31-33: `(green - nir) / (green + nir + 1e-10)`, None for a zero denominator. */
  function Ndwi(green: real, nir: real): (r: Option<real>)
    ensures r.None? <==> green + nir + Epsilon == 0.0
  {
    var denominator := green + nir + Epsilon;
    if denominator == 0.0 then None else Some((green - nir) / denominator)
  }

  lemma DivStrictlyWithin(x: real, c: real)
    requires Abs(x) < c
    ensures -1.0 < x / c < 1.0
  {
    if x != 0.0 {
      RatioBelowOne(Abs(x), c);
      assert Abs(x / c) == Abs(x) / c;
    }
  }

  /** For non-negative bands NDVI is always defined and strictly between -1 and 1. */
  lemma NdviBounded(red: real, nir: real)
    requires red >= 0.0 && nir >= 0.0
    ensures Ndvi(red, nir).Some?
    ensures -1.0 < Ndvi(red, nir).value < 1.0
  {
    DivStrictlyWithin(nir - red, nir + red + Epsilon);
  }

  /** For non-negative bands NDWI is always defined and strictly between -1 and 1. */
  lemma NdwiBounded(green: real, nir: real)
    requires green >= 0.0 && nir >= 0.0
    ensures Ndwi(green, nir).Some?
    ensures -1.0 < Ndwi(green, nir).value < 1.0
  {
    DivStrictlyWithin(green - nir, green + nir + Epsilon);
  }

  /** Equal bands give an NDVI of 0 whenever it is defined. */
  lemma NdviEqualBands(band: real)
    ensures Ndvi(band, band).Some? ==> Ndvi(band, band).value == 0.0
    ensures band >= 0.0 ==> Ndvi(band, band) == Some(0.0)
  {
  }

  /** NDWI of `(x, y)` is minus NDVI of `(x, y)`: the same formula with the difference reversed. */
  lemma NdwiIsNegatedNdvi(x: real, y: real)
    ensures Ndwi(x, y).Some? <==> Ndvi(x, y).Some?
    ensures Ndwi(x, y).Some? ==> Ndwi(x, y).value == -Ndvi(x, y).value
  {
    var c := x + y + Epsilon;
    if c != 0.0 {
      assert (x - y) / c == -((y - x) / c);
    }
  }

  /** `ndvi` on two band arrays of one shape, element by element. */
  function NdviBands(red: seq<real>, nir: seq<real>): (r: seq<Option<real>>)
    requires |red| == |nir|
    ensures |r| == |red|
    ensures forall k :: 0 <= k < |r| ==> r[k] == Ndvi(red[k], nir[k])
  {
    seq(|red|, k requires 0 <= k < |red| => Ndvi(red[k], nir[k]))
  }

  /** `ndwi` on two band arrays of one shape, element by element. */
  function NdwiBands(green: seq<real>, nir: seq<real>): (r: seq<Option<real>>)
    requires |green| == |nir|
    ensures |r| == |green|
    ensures forall k :: 0 <= k < |r| ==> r[k] == Ndwi(green[k], nir[k])
  {
    seq(|green|, k requires 0 <= k < |green| => Ndwi(green[k], nir[k]))
  }

  /** Reflectance bands (non-negative) give an NDVI array with every value defined and inside (-1, 1). */
  lemma NdviBandsBounded(red: seq<real>, nir: seq<real>)
    requires |red| == |nir|
    requires forall k :: 0 <= k < |red| ==> red[k] >= 0.0 && nir[k] >= 0.0
    ensures forall k :: 0 <= k < |red| ==>
      NdviBands(red, nir)[k].Some? && -1.0 < NdviBands(red, nir)[k].value < 1.0
  {
    forall k | 0 <= k < |red|
      ensures Ndvi(red[k], nir[k]).Some? && -1.0 < Ndvi(red[k], nir[k]).value < 1.0
    {
      NdviBounded(red[k], nir[k]);
    }
  }
}
