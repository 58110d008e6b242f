// Raster windows as the sonifier handles them: an empty result
// (`np.array([])`), a single-band plane, or a band stack, whose pixels may be
// NaN. NaN is `None`. The means the pipeline takes (`np.nanmean`) skip NaN
// and are themselves NaN when nothing is left.
module Rasters {
  import opened Wrappers
  import opened Numeric

  /** A pixel: a number, or NaN. */
  type Pixel = Option<real>

  /** The shapes of numpy array the pipeline meets. */
  datatype Pixels =
    | Flat                                   // np.array([]): one dimension, no elements
    | Plane(rows: seq<seq<Pixel>>)           // rows x cols
    | Stack(bands: seq<seq<seq<Pixel>>>)     // bands x rows x cols
  {
    /** `ndim`. */
    function Ndim(): nat {
      match this
      case Flat => 1
      case Plane(_) => 2
      case Stack(_) => 3
    }

    /** Every element, in row-major (C) order. */
    function Values(): seq<Pixel> {
      match this
      case Flat => []
      case Plane(rows) => Concat(rows)
      case Stack(bands) => ConcatPlanes(bands)
    }

    /** `size`. */
    function Size(): nat {
      |Values()|
    }

    /** `np.all(np.isnan(a))`, which holds for an empty array. */
    predicate AllNan() {
      forall i :: 0 <= i < |Values()| ==> Values()[i].None?
    }

    /** `a.size > 0 and not np.all(np.isnan(a))`. */
    predicate HasData() {
      Size() > 0 && !AllNan()
    }

    /** `shape[-2]`: the rows of a plane or of every band (0 for an empty stack). */
    function Rows(): nat {
      match this
      case Flat => 0
      case Plane(rows) => |rows|
      case Stack(bands) => if |bands| > 0 then |bands[0]| else 0
    }

    /** `shape[-1]`: the columns of every row (0 when there are no rows). */
    function Cols(): nat {
      match this
      case Flat => 0
      case Plane(rows) => if |rows| > 0 then |rows[0]| else 0
      case Stack(bands) => if |bands| > 0 && |bands[0]| > 0 then |bands[0][0]| else 0
    }

    /** A numpy array is rectangular: every band has `Rows()` rows and every row `Cols()` columns. */
    predicate Rectangular() {
      match this
      case Flat => true
      case Plane(rows) => forall i :: 0 <= i < |rows| ==> |rows[i]| == Cols()
      case Stack(bands) =>
        (forall b :: 0 <= b < |bands| ==> |bands[b]| == Rows()) &&
        (forall b, i :: 0 <= b < |bands| && 0 <= i < |bands[b]| ==> |bands[b][i]| == Cols())
    }
  }

  function Concat(rows: seq<seq<Pixel>>): seq<Pixel>
    decreases |rows|
  {
    if rows == [] then [] else rows[0] + Concat(rows[1..])
  }

  function ConcatPlanes(bands: seq<seq<seq<Pixel>>>): seq<Pixel>
    decreases |bands|
  {
    if bands == [] then [] else Concat(bands[0]) + ConcatPlanes(bands[1..])
  }

  /** How many of the values are numbers. */
  function CountDefined(vs: seq<Pixel>): (n: nat)
    ensures n <= |vs|
    decreases |vs|
  {
    if vs == [] then 0 else (if vs[0].Some? then 1 else 0) + CountDefined(vs[1..])
  }

  /** The sum of the values that are numbers. */
  function SumDefined(vs: seq<Pixel>): real
    decreases |vs|
  {
    if vs == [] then 0.0 else (if vs[0].Some? then vs[0].value else 0.0) + SumDefined(vs[1..])
  }

  /** No value is a number exactly when none of them is counted. */
  lemma {:induction false} CountDefinedZero(vs: seq<Pixel>)
    ensures CountDefined(vs) == 0 <==> forall i :: 0 <= i < |vs| ==> vs[i].None?
    decreases |vs|
  {
    if vs != [] {
      CountDefinedZero(vs[1..]);
      assert forall i :: 1 <= i < |vs| ==> vs[i] == vs[1..][i - 1];
    }
  }

  /** `np.nanmean`: the mean of the numbers, NaN when there are none. */
  function NanMean(vs: seq<Pixel>): (m: Option<real>)
    ensures m.None? <==> forall i :: 0 <= i < |vs| ==> vs[i].None?
  {
    CountDefinedZero(vs);
    if CountDefined(vs) == 0 then None else Some(SumDefined(vs) / CountDefined(vs) as real)
  }

  /** Every defined value lies in `[lo, hi]`. */
  predicate DefinedWithin(vs: seq<Pixel>, lo: real, hi: real) {
    forall i :: 0 <= i < |vs| && vs[i].Some? ==> lo <= vs[i].value <= hi
  }

  /** `x` added once per defined value: `CountDefined(vs) * x` built up by addition. */
  function RepeatDefined(vs: seq<Pixel>, x: real): real
    decreases |vs|
  {
    if vs == [] then 0.0 else (if vs[0].Some? then x else 0.0) + RepeatDefined(vs[1..], x)
  }

  lemma {:induction false} RepeatDefinedIsProduct(vs: seq<Pixel>, x: real)
    ensures RepeatDefined(vs, x) == CountDefined(vs) as real * x
    decreases |vs|
  {
    if vs != [] {
      RepeatDefinedIsProduct(vs[1..], x);
      var b := CountDefined(vs[1..]);
      if vs[0].Some? {
        assert CountDefined(vs) == b + 1;
        assert (b + 1) as real * x == b as real * x + x;
      } else {
        assert CountDefined(vs) == b;
      }
    }
  }

  lemma {:induction false} SumDefinedRepeatWithin(vs: seq<Pixel>, lo: real, hi: real)
    requires DefinedWithin(vs, lo, hi)
    ensures RepeatDefined(vs, lo) <= SumDefined(vs) <= RepeatDefined(vs, hi)
    decreases |vs|
  {
    if vs != [] {
      assert DefinedWithin(vs[1..], lo, hi) by {
        forall i | 0 <= i < |vs[1..]| && vs[1..][i].Some?
          ensures lo <= vs[1..][i].value <= hi
        {
          assert vs[1..][i] == vs[i + 1];
        }
      }
      SumDefinedRepeatWithin(vs[1..], lo, hi);
    }
  }

  /** The sum of `n` defined values in `[lo, hi]` lies in `[n * lo, n * hi]`. */
  lemma SumDefinedWithin(vs: seq<Pixel>, lo: real, hi: real)
    requires DefinedWithin(vs, lo, hi)
    ensures CountDefined(vs) as real * lo <= SumDefined(vs) <= CountDefined(vs) as real * hi
  {
    SumDefinedRepeatWithin(vs, lo, hi);
    RepeatDefinedIsProduct(vs, lo);
    RepeatDefinedIsProduct(vs, hi);
  }

  /** A nan-mean of values in `[lo, hi]` is itself in `[lo, hi]`. */
  lemma NanMeanWithin(vs: seq<Pixel>, lo: real, hi: real)
    requires DefinedWithin(vs, lo, hi) && NanMean(vs).Some?
    ensures lo <= NanMean(vs).value <= hi
  {
    SumDefinedWithin(vs, lo, hi);
    QuotientWithin(SumDefined(vs), CountDefined(vs) as real, lo, hi);
  }
}
