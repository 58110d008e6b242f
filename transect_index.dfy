// The transect loop of the sonifier (models/sonification.py:863-931,
// 1125-1136) as a state machine: it walks the master DTM row by row in steps
// of `pixels_per_grid_cell`, renders every cell, and for every cell, valid or
// not, appends one temporary chunk file and one `CellGeom` whose audio
// interval starts where the previous one ended. The rendered audio itself is
// not modelled: whether a cell is valid and how long a valid cell's exported
// segment lasts are inputs.
module TransectIndex {
  import opened Wrappers
  import opened Numeric
  import opened NumpyArrays
  import opened SonifierConstants
  import opened Alignment

  // ----- CellGeom (models/sonification.py:31-48) -----

  /** A cell's bounding box in the master CRS and its interval in the transect's audio, in milliseconds. */
  datatype CellGeom = CellGeom(minX: real, minY: real, maxX: real, maxY: real, audioStartMs: real, audioEndMs: real)

  const GeomKeys: set<string> := {"minx", "miny", "maxx", "maxy", "audio_start_ms", "audio_end_ms"}

  /** `to_dict`. */
  function ToDict(g: CellGeom): (d: map<string, real>)
    ensures d.Keys == GeomKeys
  {
    map["minx" := g.minX, "miny" := g.minY, "maxx" := g.maxX, "maxy" := g.maxY,
        "audio_start_ms" := g.audioStartMs, "audio_end_ms" := g.audioEndMs]
  }

  /** Reading a record back, as the downstream stages do with `geom['minx']` and the like; a missing key fails. */
  function FromDict(d: map<string, real>): (g: Option<CellGeom>)
    ensures g.Some? <==> GeomKeys <= d.Keys
  {
    if GeomKeys <= d.Keys then
      Some(CellGeom(d["minx"], d["miny"], d["maxx"], d["maxy"], d["audio_start_ms"], d["audio_end_ms"]))
    else None
  }

  /** `to_dict` loses nothing: reading the dictionary back gives the geometry. */
  lemma ToDictRoundTrip(g: CellGeom)
    ensures FromDict(ToDict(g)) == Some(g)
  {
  }

  /** ... and a dictionary with exactly the six keys is the `to_dict` of what it reads back as. */
  lemma FromDictRoundTrip(d: map<string, real>)
    requires d.Keys == GeomKeys
    ensures FromDict(d).Some? && ToDict(FromDict(d).value) == d
  {
    var back := ToDict(FromDict(d).value);
    assert forall k :: k in d ==> back[k] == d[k];
  }

  // ----- traversal (lines 863-868) -----

  /** A cell's pixel window `[row, rowEnd) x [col, colEnd)` of the master DTM. */
  datatype CellWindow = CellWindow(row: nat, col: nat, rowEnd: nat, colEnd: nat)

  /** The window of the cell whose top-left pixel is `(row, col)`, clamped at the raster's edges. */
  function WindowAt(row: nat, col: nat, rows: nat, cols: nat, p: nat): CellWindow {
    CellWindow(row, col, MinInt(row + p, rows), MinInt(col + p, cols))
  }

  /** The inner loop from column `col` on: `for col_idx in range(col, cols, p)`. */
  function RowOfCells(row: nat, col: nat, rows: nat, cols: nat, p: nat): seq<CellWindow>
    requires p > 0
    decreases cols - col
  {
    if col >= cols then [] else [WindowAt(row, col, rows, cols, p)] + RowOfCells(row, col + p, rows, cols, p)
  }

  /** The outer loop from row `row` on: `for row_idx in range(row, rows, p)`, each row's cells in turn. */
  function CellsFrom(row: nat, rows: nat, cols: nat, p: nat): seq<CellWindow>
    requires p > 0
    decreases rows - row
  {
    if row >= rows then [] else RowOfCells(row, 0, rows, cols, p) + CellsFrom(row + p, rows, cols, p)
  }

  /** Every cell of a `rows x cols` DTM in visiting order. */
  function Cells(rows: nat, cols: nat, p: nat): seq<CellWindow>
    requires p > 0
  {
    CellsFrom(0, rows, cols, p)
  }

  /** `(n + p) // p == n // p + 1`, so `ceil` drops by one per step. */
  lemma CeilDivStep(n: nat, p: nat)
    requires p > 0 && n > p
    ensures CeilDiv(n, p) == 1 + CeilDiv(n - p, p)
  {
    DivAddStep(n - p + p - 1, p);
  }

  lemma CeilDivOne(n: nat, p: nat)
    requires p > 0 && 0 < n <= p
    ensures CeilDiv(n, p) == 1
  {
    DivUnique(n + p - 1, p, 1, n - 1);
  }

  /** A row from column `col` has `ceil((cols - col) / p)` cells. */
  lemma {:induction false} RowOfCellsLength(row: nat, col: nat, rows: nat, cols: nat, p: nat)
    requires p > 0
    ensures |RowOfCells(row, col, rows, cols, p)| == if col >= cols then 0 else CeilDiv(cols - col, p)
    decreases cols - col
  {
    if col < cols {
      RowOfCellsLength(row, col + p, rows, cols, p);
      if cols - col > p {
        CeilDivStep(cols - col, p);
      } else {
        CeilDivOne(cols - col, p);
      }
    }
  }

  lemma {:induction false} CellsFromLength(row: nat, rows: nat, cols: nat, p: nat)
    requires p > 0
    ensures |CellsFrom(row, rows, cols, p)| == (if row >= rows then 0 else CeilDiv(rows - row, p)) * CeilDiv(cols, p)
    decreases rows - row
  {
    var n := CeilDiv(cols, p);
    if row < rows {
      CellsFromLength(row + p, rows, cols, p);
      RowOfCellsLength(row, 0, rows, cols, p);
      var rest := |CellsFrom(row + p, rows, cols, p)|;
      assert |CellsFrom(row, rows, cols, p)| == n + rest;
      if rows - row > p {
        CeilDivStep(rows - row, p);
        var k := CeilDiv(rows - row - p, p);
        assert rest == k * n;
        assert (1 + k) * n == n + k * n;
      } else {
        CeilDivOne(rows - row, p);
        assert rest == 0;
      }
    } else {
      assert |CellsFrom(row, rows, cols, p)| == 0;
    }
  }

  /** One more row of cells visited. */
  lemma TraversalStep(done: seq<CellWindow>, row: nat, rows: nat, cols: nat, p: nat)
    requires p > 0 && row < rows
    ensures done + CellsFrom(row, rows, cols, p) ==
            (done + RowOfCells(row, 0, rows, cols, p)) + CellsFrom(row + p, rows, cols, p)
  {
  }

  /** Past the last row nothing is left to visit. */
  lemma TraversalDone(done: seq<CellWindow>, row: nat, rows: nat, cols: nat, p: nat)
    requires p > 0 && row >= rows
    ensures done + CellsFrom(row, rows, cols, p) == done
  {
  }

  /** Exactly `ceil(rows / p) * ceil(cols / p)` cells are visited. */
  lemma CellsCount(rows: nat, cols: nat, p: nat)
    requires p > 0
    ensures |Cells(rows, cols, p)| == CeilDiv(rows, p) * CeilDiv(cols, p)
  {
    CellsFromLength(0, rows, cols, p);
  }

  /** A window of the loop: its top-left pixel on the `p` grid, nowhere empty, at most `p` wide, inside the raster. */
  predicate GridWindow(w: CellWindow, rows: nat, cols: nat, p: nat)
    requires p > 0
  {
    w.row % p == 0 && w.col % p == 0 &&
    w.row < w.rowEnd <= rows && w.col < w.colEnd <= cols &&
    w.rowEnd == MinInt(w.row + p, rows) && w.colEnd == MinInt(w.col + p, cols)
  }

  /** `a` is visited before `b` in row-major order. */
  predicate Before(a: CellWindow, b: CellWindow) {
    a.row < b.row || (a.row == b.row && a.col < b.col)
  }

  predicate RowMajor(cells: seq<CellWindow>) {
    forall i, j :: 0 <= i < j < |cells| ==> Before(cells[i], cells[j])
  }

  lemma {:induction false} RowOfCellsShape(row: nat, col: nat, rows: nat, cols: nat, p: nat)
    requires p > 0 && row % p == 0 && col % p == 0 && row < rows
    ensures var r := RowOfCells(row, col, rows, cols, p);
      RowMajor(r) &&
      forall k :: 0 <= k < |r| ==> r[k].row == row && r[k].col >= col && GridWindow(r[k], rows, cols, p)
    decreases cols - col
  {
    if col < cols {
      DivAddStep(col, p);
      RowOfCellsShape(row, col + p, rows, cols, p);
      var r := RowOfCells(row, col, rows, cols, p);
      assert r == [WindowAt(row, col, rows, cols, p)] + RowOfCells(row, col + p, rows, cols, p);
      assert forall k :: 1 <= k < |r| ==> r[k] == RowOfCells(row, col + p, rows, cols, p)[k - 1];
    }
  }

  lemma {:induction false} CellsFromShape(row: nat, rows: nat, cols: nat, p: nat)
    requires p > 0 && row % p == 0
    ensures var c := CellsFrom(row, rows, cols, p);
      RowMajor(c) && forall k :: 0 <= k < |c| ==> c[k].row >= row && GridWindow(c[k], rows, cols, p)
    decreases rows - row
  {
    if row < rows {
      DivAddStep(row, p);
      CellsFromShape(row + p, rows, cols, p);
      RowOfCellsShape(row, 0, rows, cols, p);
      var first := RowOfCells(row, 0, rows, cols, p);
      var rest := CellsFrom(row + p, rows, cols, p);
      var c := first + rest;
      forall i, j | 0 <= i < j < |c|
        ensures Before(c[i], c[j])
      {
        if j < |first| {
        } else if i >= |first| {
          assert c[i] == rest[i - |first|] && c[j] == rest[j - |first|];
        } else {
          assert c[j] == rest[j - |first|];
        }
      }
    }
  }

  /**
   * Cells are visited rows outer, columns inner: strictly increasing in
   * `(row, col)`, each on the `p` grid with the window
   * `[r, min(r + p, rows)) x [c, min(c + p, cols))`, never empty and inside the raster.
   */
  lemma CellsInOrder(rows: nat, cols: nat, p: nat)
    requires p > 0
    ensures var c := Cells(rows, cols, p);
      RowMajor(c) && forall k :: 0 <= k < |c| ==> GridWindow(c[k], rows, cols, p)
  {
    CellsFromShape(0, rows, cols, p);
  }

  // ----- the geometry index (lines 918-931, 1125-1136) -----

  /** `DURATION_PER_GRID_CELL * 1000`: the fixed length of an invalid cell, in milliseconds. */
  const InvalidCellMs: real := CellDuration * 1000.0

  /** The silent audio written for an invalid cell. */
  function SilentCell(): (a: seq<real>)
    ensures |a| == Trunc(SampleRate * CellDuration)
    ensures forall k :: 0 <= k < |a| ==> a[k] == 0.0
  {
    CellSamplesValue();
    Zeros(CellSamples)
  }

  /** How long a cell lasts in the transect's audio: 6000 ms when invalid, the exported segment's length otherwise. */
  function CellMs(w: CellWindow, isValid: (nat, nat) -> bool, segmentMs: (nat, nat) -> real): (ms: real)
    ensures !isValid(w.row, w.col) ==> ms == 6000.0
  {
    if isValid(w.row, w.col) then segmentMs(w.row, w.col) else InvalidCellMs
  }

  /** The total length of the cells' audio. */
  function TotalMs(cells: seq<CellWindow>, isValid: (nat, nat) -> bool, segmentMs: (nat, nat) -> real): real
    decreases |cells|
  {
    if cells == [] then 0.0 else CellMs(cells[0], isValid, segmentMs) + TotalMs(cells[1..], isValid, segmentMs)
  }

  /** The `CellGeom` of a cell starting at `startMs`; its box is the master transform at its corners. */
  function GeomAt(w: CellWindow, startMs: real, t: Affine, p: nat, isValid: (nat, nat) -> bool,
                  segmentMs: (nat, nat) -> real): CellGeom
  {
    var bb := MasterCellBounds(t, w.row, w.col, p);
    CellGeom(bb.minX, bb.minY, bb.maxX, bb.maxY, startMs, startMs + CellMs(w, isValid, segmentMs))
  }

  /** The records the cells append, the first one starting at `startMs`. */
  function Log(cells: seq<CellWindow>, startMs: real, t: Affine, p: nat, isValid: (nat, nat) -> bool,
               segmentMs: (nat, nat) -> real): (r: seq<CellGeom>)
    ensures |r| == |cells|
    decreases |cells|
  {
    if cells == [] then []
    else [GeomAt(cells[0], startMs, t, p, isValid, segmentMs)] +
         Log(cells[1..], startMs + CellMs(cells[0], isValid, segmentMs), t, p, isValid, segmentMs)
  }

  /** The temporary chunk of each cell, `cell_{row}_{col}.wav`, named by its pair of indices. */
  function Chunks(cells: seq<CellWindow>): (r: seq<(nat, nat)>)
    ensures |r| == |cells|
    decreases |cells|
  {
    if cells == [] then [] else [(cells[0].row, cells[0].col)] + Chunks(cells[1..])
  }

  lemma {:induction false} ChunksAt(cells: seq<CellWindow>)
    ensures forall k :: 0 <= k < |cells| ==> Chunks(cells)[k] == (cells[k].row, cells[k].col)
    decreases |cells|
  {
    if cells != [] {
      ChunksAt(cells[1..]);
      var r := Chunks(cells);
      var rest := Chunks(cells[1..]);
      assert r == [(cells[0].row, cells[0].col)] + rest;
      forall k | 0 <= k < |cells|
        ensures r[k] == (cells[k].row, cells[k].col)
      {
        if k > 0 {
          assert r[k] == rest[k - 1];
          assert cells[k] == cells[1..][k - 1];
        }
      }
    }
  }

  /** The timing half of `LogTiming`. */
  lemma {:induction false} LogTimes(cells: seq<CellWindow>, startMs: real, t: Affine, p: nat,
                                    isValid: (nat, nat) -> bool, segmentMs: (nat, nat) -> real)
    ensures var g := Log(cells, startMs, t, p, isValid, segmentMs);
      (|g| > 0 ==> g[0].audioStartMs == startMs && g[|g| - 1].audioEndMs == startMs + TotalMs(cells, isValid, segmentMs)) &&
      (forall k :: 0 <= k < |g| - 1 ==> g[k].audioEndMs == g[k + 1].audioStartMs) &&
      (forall k :: 0 <= k < |g| ==> g[k].audioEndMs - g[k].audioStartMs == CellMs(cells[k], isValid, segmentMs))
    decreases |cells|
  {
    if cells != [] {
      var d := CellMs(cells[0], isValid, segmentMs);
      LogTimes(cells[1..], startMs + d, t, p, isValid, segmentMs);
      var g := Log(cells, startMs, t, p, isValid, segmentMs);
      var rest := Log(cells[1..], startMs + d, t, p, isValid, segmentMs);
      assert g == [GeomAt(cells[0], startMs, t, p, isValid, segmentMs)] + rest;
      assert forall k :: 1 <= k < |g| ==> g[k] == rest[k - 1] && cells[k] == cells[1..][k - 1];
    }
  }

  /** The geometry half of `LogTiming`. */
  lemma {:induction false} LogBoxes(cells: seq<CellWindow>, startMs: real, t: Affine, p: nat,
                                    isValid: (nat, nat) -> bool, segmentMs: (nat, nat) -> real)
    ensures var g := Log(cells, startMs, t, p, isValid, segmentMs);
      forall k :: 0 <= k < |g| ==>
         var bb := MasterCellBounds(t, cells[k].row, cells[k].col, p);
         g[k].minX == bb.minX && g[k].minY == bb.minY && g[k].maxX == bb.maxX && g[k].maxY == bb.maxY
    decreases |cells|
  {
    if cells != [] {
      var d := CellMs(cells[0], isValid, segmentMs);
      LogBoxes(cells[1..], startMs + d, t, p, isValid, segmentMs);
      var g := Log(cells, startMs, t, p, isValid, segmentMs);
      var rest := Log(cells[1..], startMs + d, t, p, isValid, segmentMs);
      assert g == [GeomAt(cells[0], startMs, t, p, isValid, segmentMs)] + rest;
      assert forall k :: 1 <= k < |g| ==> g[k] == rest[k - 1] && cells[k] == cells[1..][k - 1];
    }
  }

  /**
   * The geometry log is contiguous: it starts at `startMs`, each record ends
   * where the next begins, each lasts its cell's duration (6000 ms when
   * invalid), each box is the master transform at the cell's corners, and the
   * last ends at the total.
   */
  lemma LogTiming(cells: seq<CellWindow>, startMs: real, t: Affine, p: nat,
                  isValid: (nat, nat) -> bool, segmentMs: (nat, nat) -> real)
    ensures var g := Log(cells, startMs, t, p, isValid, segmentMs);
      (|g| > 0 ==> g[0].audioStartMs == startMs && g[|g| - 1].audioEndMs == startMs + TotalMs(cells, isValid, segmentMs)) &&
      (forall k :: 0 <= k < |g| - 1 ==> g[k].audioEndMs == g[k + 1].audioStartMs) &&
      (forall k :: 0 <= k < |g| ==> g[k].audioEndMs - g[k].audioStartMs == CellMs(cells[k], isValid, segmentMs)) &&
      (forall k :: 0 <= k < |g| ==>
         var bb := MasterCellBounds(t, cells[k].row, cells[k].col, p);
         g[k].minX == bb.minX && g[k].minY == bb.minY && g[k].maxX == bb.maxX && g[k].maxY == bb.maxY)
  {
    LogTimes(cells, startMs, t, p, isValid, segmentMs);
    LogBoxes(cells, startMs, t, p, isValid, segmentMs);
  }

  /** With non-negative segment lengths the records never go back in time. */
  lemma {:induction false} LogMonotone(cells: seq<CellWindow>, startMs: real, t: Affine, p: nat,
                                       isValid: (nat, nat) -> bool, segmentMs: (nat, nat) -> real)
    requires forall r, c :: segmentMs(r, c) >= 0.0
    ensures var g := Log(cells, startMs, t, p, isValid, segmentMs);
      forall i, j :: 0 <= i <= j < |g| ==> startMs <= g[i].audioStartMs <= g[i].audioEndMs <= g[j].audioEndMs
    decreases |cells|
  {
    if cells != [] {
      var d := CellMs(cells[0], isValid, segmentMs);
      LogMonotone(cells[1..], startMs + d, t, p, isValid, segmentMs);
      var g := Log(cells, startMs, t, p, isValid, segmentMs);
      var rest := Log(cells[1..], startMs + d, t, p, isValid, segmentMs);
      assert forall k :: 1 <= k < |g| ==> g[k] == rest[k - 1];
      if |rest| > 0 {
        LogTiming(cells[1..], startMs + d, t, p, isValid, segmentMs);
      }
    }
  }

  /** Two cells never share a chunk file, since the cells are visited in strictly increasing order. */
  lemma ChunksDistinct(rows: nat, cols: nat, p: nat)
    requires p > 0
    ensures var ch := Chunks(Cells(rows, cols, p));
      forall i, j :: 0 <= i < j < |ch| ==> ch[i] != ch[j]
  {
    CellsInOrder(rows, cols, p);
    ChunksAt(Cells(rows, cols, p));
  }

  lemma {:induction false} TotalMsAppend(a: seq<CellWindow>, b: seq<CellWindow>, isValid: (nat, nat) -> bool,
                                         segmentMs: (nat, nat) -> real)
    ensures TotalMs(a + b, isValid, segmentMs) == TotalMs(a, isValid, segmentMs) + TotalMs(b, isValid, segmentMs)
    decreases |a|
  {
    if a != [] {
      assert (a + b)[1..] == a[1..] + b;
      TotalMsAppend(a[1..], b, isValid, segmentMs);
    } else {
      assert a + b == b;
    }
  }

  /** The records of two runs of cells: the second run starts where the first one's audio ends. */
  lemma {:induction false} LogAppend(a: seq<CellWindow>, b: seq<CellWindow>, startMs: real, t: Affine, p: nat,
                                     isValid: (nat, nat) -> bool, segmentMs: (nat, nat) -> real)
    ensures Log(a + b, startMs, t, p, isValid, segmentMs) ==
            Log(a, startMs, t, p, isValid, segmentMs) + Log(b, startMs + TotalMs(a, isValid, segmentMs), t, p, isValid, segmentMs)
    decreases |a|
  {
    if a != [] {
      assert (a + b)[1..] == a[1..] + b;
      assert (a + b)[0] == a[0];
      LogAppend(a[1..], b, startMs + CellMs(a[0], isValid, segmentMs), t, p, isValid, segmentMs);
    } else {
      assert a + b == b;
    }
  }

  /** One more cell: its record starts where the earlier cells' audio ends. */
  lemma LogSnoc(done: seq<CellWindow>, w: CellWindow, startMs: real, t: Affine, p: nat,
                isValid: (nat, nat) -> bool, segmentMs: (nat, nat) -> real)
    ensures Log(done + [w], startMs, t, p, isValid, segmentMs) ==
            Log(done, startMs, t, p, isValid, segmentMs) + [GeomAt(w, startMs + TotalMs(done, isValid, segmentMs), t, p, isValid, segmentMs)]
    ensures TotalMs(done + [w], isValid, segmentMs) == TotalMs(done, isValid, segmentMs) + CellMs(w, isValid, segmentMs)
  {
    LogAppend(done, [w], startMs, t, p, isValid, segmentMs);
    TotalMsAppend(done, [w], isValid, segmentMs);
    assert [w][1..] == [];
  }

  lemma {:induction false} ChunksAppend(a: seq<CellWindow>, b: seq<CellWindow>)
    ensures Chunks(a + b) == Chunks(a) + Chunks(b)
    decreases |a|
  {
    if a != [] {
      assert (a + b)[1..] == a[1..] + b;
      assert (a + b)[0] == a[0];
      ChunksAppend(a[1..], b);
    } else {
      assert a + b == b;
    }
  }

  /** Appending the records of a further run of cells keeps the log equal to the log of all cells so far. */
  lemma LogStep(geoms0: seq<CellGeom>, done: seq<CellWindow>, cells: seq<CellWindow>, ms0: real,
                before: seq<CellGeom>, msBefore: real, after: seq<CellGeom>, t: Affine, p: nat,
                isValid: (nat, nat) -> bool, segmentMs: (nat, nat) -> real)
    requires before == geoms0 + Log(done, ms0, t, p, isValid, segmentMs)
    requires msBefore == ms0 + TotalMs(done, isValid, segmentMs)
    requires after == before + Log(cells, msBefore, t, p, isValid, segmentMs)
    ensures after == geoms0 + Log(done + cells, ms0, t, p, isValid, segmentMs)
  {
    LogAppend(done, cells, ms0, t, p, isValid, segmentMs);
  }

  /** The lists the transect loop builds: chunk files, geometry records, and the running audio length. */
  class TransectAssembly {
    var chunkPaths: seq<(nat, nat)>
    var geometries: seq<CellGeom>
    var currentMs: real

    /** Lines 851-853: both lists empty and `current_audio_duration_ms = 0`. */
    constructor ()
      ensures chunkPaths == [] && geometries == [] && currentMs == 0.0
    {
      chunkPaths := [];
      geometries := [];
      currentMs := 0.0;
    }

    /** Lines 926-930 and 1131-1136: append the cell's chunk and record, then advance the running length. */
    method AppendCell(w: CellWindow, t: Affine, p: nat, isValid: (nat, nat) -> bool, segmentMs: (nat, nat) -> real)
      modifies this
      ensures chunkPaths == old(chunkPaths) + [(w.row, w.col)]
      ensures geometries == old(geometries) + [GeomAt(w, old(currentMs), t, p, isValid, segmentMs)]
      ensures currentMs == old(currentMs) + CellMs(w, isValid, segmentMs)
    {
      var bb := MasterCellBounds(t, w.row, w.col, p);
      var cellMs: real;
      if isValid(w.row, w.col) {
        cellMs := segmentMs(w.row, w.col);
      } else {
        cellMs := InvalidCellMs;
      }
      chunkPaths := chunkPaths + [(w.row, w.col)];
      geometries := geometries + [CellGeom(bb.minX, bb.minY, bb.maxX, bb.maxY, currentMs, currentMs + cellMs)];
      currentMs := currentMs + cellMs;
    }

    /** One pass of the inner loop, extending the lists built from the cells visited so far. */
    method VisitCell(w: CellWindow, t: Affine, p: nat, isValid: (nat, nat) -> bool, segmentMs: (nat, nat) -> real,
                     ghost done: seq<CellWindow>, ghost paths0: seq<(nat, nat)>, ghost geoms0: seq<CellGeom>, ghost ms0: real)
      requires chunkPaths == paths0 + Chunks(done)
      requires geometries == geoms0 + Log(done, ms0, t, p, isValid, segmentMs)
      requires currentMs == ms0 + TotalMs(done, isValid, segmentMs)
      modifies this
      ensures chunkPaths == paths0 + Chunks(done + [w])
      ensures geometries == geoms0 + Log(done + [w], ms0, t, p, isValid, segmentMs)
      ensures currentMs == ms0 + TotalMs(done + [w], isValid, segmentMs)
    {
      AppendCell(w, t, p, isValid, segmentMs);
      LogSnoc(done, w, ms0, t, p, isValid, segmentMs);
      ChunksAppend(done, [w]);
      assert Chunks([w]) == [(w.row, w.col)];
    }

    /** Lines 864-1136: the inner loop over the cells of one row of cells. */
    method SonifyRow(row: nat, rows: nat, cols: nat, p: nat, t: Affine, isValid: (nat, nat) -> bool,
                     segmentMs: (nat, nat) -> real)
      requires p > 0
      modifies this
      ensures chunkPaths == old(chunkPaths) + Chunks(RowOfCells(row, 0, rows, cols, p))
      ensures geometries == old(geometries) + Log(RowOfCells(row, 0, rows, cols, p), old(currentMs), t, p, isValid, segmentMs)
      ensures currentMs == old(currentMs) + TotalMs(RowOfCells(row, 0, rows, cols, p), isValid, segmentMs)
    {
      ghost var paths0, geoms0, ms0 := chunkPaths, geometries, currentMs;
      ghost var done: seq<CellWindow> := [];
      var col := 0;
      while col < cols
        invariant done + RowOfCells(row, col, rows, cols, p) == RowOfCells(row, 0, rows, cols, p)
        invariant chunkPaths == paths0 + Chunks(done)
        invariant geometries == geoms0 + Log(done, ms0, t, p, isValid, segmentMs)
        invariant currentMs == ms0 + TotalMs(done, isValid, segmentMs)
        decreases cols - col
      {
        var w := WindowAt(row, col, rows, cols, p);
        assert RowOfCells(row, col, rows, cols, p) == [w] + RowOfCells(row, col + p, rows, cols, p);
        VisitCell(w, t, p, isValid, segmentMs, done, paths0, geoms0, ms0);
        done := done + [w];
        col := col + p;
      }
      assert RowOfCells(row, col, rows, cols, p) == [];
      assert done == RowOfCells(row, 0, rows, cols, p);
    }

    /** One pass of the outer loop, extending the lists built from the cells visited so far. */
    method VisitRow(row: nat, rows: nat, cols: nat, p: nat, t: Affine, isValid: (nat, nat) -> bool,
                    segmentMs: (nat, nat) -> real, ghost done: seq<CellWindow>, ghost paths0: seq<(nat, nat)>,
                    ghost geoms0: seq<CellGeom>, ghost ms0: real)
      requires p > 0
      requires chunkPaths == paths0 + Chunks(done)
      requires geometries == geoms0 + Log(done, ms0, t, p, isValid, segmentMs)
      requires currentMs == ms0 + TotalMs(done, isValid, segmentMs)
      modifies this
      ensures chunkPaths == paths0 + Chunks(done + RowOfCells(row, 0, rows, cols, p))
      ensures geometries == geoms0 + Log(done + RowOfCells(row, 0, rows, cols, p), ms0, t, p, isValid, segmentMs)
      ensures currentMs == ms0 + TotalMs(done + RowOfCells(row, 0, rows, cols, p), isValid, segmentMs)
    {
      ghost var cells := RowOfCells(row, 0, rows, cols, p);
      ghost var geomsBefore, msBefore := geometries, currentMs;
      SonifyRow(row, rows, cols, p, t, isValid, segmentMs);
      LogStep(geoms0, done, cells, ms0, geomsBefore, msBefore, geometries, t, p, isValid, segmentMs);
      TotalMsAppend(done, cells, isValid, segmentMs);
      ChunksAppend(done, cells);
    }

    /** Lines 863-1136: the nested loop over every cell of a `rows x cols` master DTM. */
    method Sonify(rows: nat, cols: nat, p: nat, t: Affine, isValid: (nat, nat) -> bool, segmentMs: (nat, nat) -> real)
      requires p > 0
      modifies this
      ensures chunkPaths == old(chunkPaths) + Chunks(Cells(rows, cols, p))
      ensures geometries == old(geometries) + Log(Cells(rows, cols, p), old(currentMs), t, p, isValid, segmentMs)
      ensures currentMs == old(currentMs) + TotalMs(Cells(rows, cols, p), isValid, segmentMs)
    {
      ghost var paths0, geoms0, ms0 := chunkPaths, geometries, currentMs;
      ghost var done: seq<CellWindow> := [];
      var row := 0;
      while row < rows
        invariant done + CellsFrom(row, rows, cols, p) == Cells(rows, cols, p)
        invariant chunkPaths == paths0 + Chunks(done)
        invariant geometries == geoms0 + Log(done, ms0, t, p, isValid, segmentMs)
        invariant currentMs == ms0 + TotalMs(done, isValid, segmentMs)
        decreases rows - row
      {
        TraversalStep(done, row, rows, cols, p);
        VisitRow(row, rows, cols, p, t, isValid, segmentMs, done, paths0, geoms0, ms0);
        done := done + RowOfCells(row, 0, rows, cols, p);
        row := row + p;
      }
      TraversalDone(done, row, rows, cols, p);
    }
  }
}
