// The few numpy array operations the pipeline is built from, with numpy's
// own rules: Python slice bounds (negative indices count from the end and
// every bound is clamped), broadcasting of a one-element array over a slice,
// `np.linspace` with its endpoint, `np.zeros`, and the clipped `+=` that
// places a short segment into a longer pre-sized buffer.
module NumpyArrays {
  import opened Wrappers
  import opened Numeric

  /** One bound of a Python slice normalised against the length `len`. */
  function Bound(i: int, len: nat): (b: nat)
    ensures b <= len
    ensures 0 <= i <= len ==> b == i
  {
    if i < 0 then (if i + len < 0 then 0 else i + len)
    else if i > len then len
    else i
  }

  /** A half-open range of indices `[lo, hi)`. */
  datatype Span = Span(lo: nat, hi: nat)

  /** The indices that `a[start:stop]` selects in an array of length `len`. */
  function SliceSpan(len: nat, start: int, stop: int): (s: Span)
    ensures s.lo <= s.hi <= len
    ensures 0 <= start <= stop <= len ==> s == Span(start, stop)
  {
    var lo := Bound(start, len);
    var hi := Bound(stop, len);
    Span(lo, if hi < lo then lo else hi)
  }

  /**
   * numpy stores `m` values into a slice of `width` positions only when the
   * two agree or a single value is broadcast; otherwise it raises ValueError.
   */
  predicate Broadcasts(m: nat, width: nat) {
    m == width || m == 1
  }

  /** The array after `a[sp.lo:sp.hi] = vals` succeeded. */
  function Assigned(a: seq<real>, sp: Span, vals: seq<real>): (r: seq<real>)
    requires sp.lo <= sp.hi <= |a| && Broadcasts(|vals|, sp.hi - sp.lo)
    ensures |r| == |a|
  {
    seq(|a|, k requires 0 <= k < |a| =>
      if sp.lo <= k < sp.hi then (if |vals| == 1 then vals[0] else vals[k - sp.lo]) else a[k])
  }

  /** `a[start:stop] = vals`, or None where numpy raises. */
  function SetSlice(a: seq<real>, start: int, stop: int, vals: seq<real>): (r: Option<seq<real>>)
    ensures r.Some? <==> Broadcasts(|vals|, SliceSpan(|a|, start, stop).hi - SliceSpan(|a|, start, stop).lo)
    ensures r.Some? ==> |r.value| == |a|
  {
    var sp := SliceSpan(|a|, start, stop);
    if Broadcasts(|vals|, sp.hi - sp.lo) then Some(Assigned(a, sp, vals)) else None
  }

  /** `a[start:stop] = v` for a scalar `v`, which numpy always accepts. */
  function FillSlice(a: seq<real>, start: int, stop: int, v: real): (r: seq<real>)
    ensures |r| == |a|
  {
    Assigned(a, SliceSpan(|a|, start, stop), [v])
  }

  /** The in-place slice assignment that `SetSlice` describes. */
  method AssignSlice(a: array<real>, start: int, stop: int, vals: seq<real>) returns (ok: bool)
    modifies a
    ensures ok == SetSlice(old(a[..]), start, stop, vals).Some?
    ensures ok ==> a[..] == SetSlice(old(a[..]), start, stop, vals).value
    ensures !ok ==> a[..] == old(a[..])
  {
    var sp := SliceSpan(a.Length, start, stop);
    if !Broadcasts(|vals|, sp.hi - sp.lo) {
      return false;
    }
    ghost var before := a[..];
    var k := sp.lo;
    while k < sp.hi
      invariant sp.lo <= k <= sp.hi
      invariant forall j :: 0 <= j < a.Length ==>
        a[j] == (if sp.lo <= j < k then (if |vals| == 1 then vals[0] else vals[j - sp.lo]) else before[j])
    {
      a[k] := if |vals| == 1 then vals[0] else vals[k - sp.lo];
      k := k + 1;
    }
    assert a[..] == Assigned(before, sp, vals);
    ok := true;
  }

  /** `np.zeros(n)`. */
  function Zeros(n: nat): (r: seq<real>)
    ensures |r| == n
  {
    seq(n, _ => 0.0)
  }

  /** `np.ones(n)`. */
  function Ones(n: nat): (r: seq<real>)
    ensures |r| == n
  {
    seq(n, _ => 1.0)
  }

  /** `np.linspace(start, stop, num)`: `num` evenly spaced values, both ends included. */
  function Linspace(start: real, stop: real, num: nat): (r: seq<real>)
    ensures |r| == num
  {
    seq(num, k requires 0 <= k < num =>
      if num == 1 then start else start + (k as real) * (stop - start) / ((num - 1) as real))
  }

  /** The ends of a linspace: one value is `start`; two or more run from `start` to `stop`. */
  lemma LinspaceEnds(start: real, stop: real, num: nat)
    requires num >= 1
    ensures Linspace(start, stop, num)[0] == start
    ensures num >= 2 ==> Linspace(start, stop, num)[num - 1] == stop
  {
    if num >= 2 {
      var n := (num - 1) as real;
      assert Linspace(start, stop, num)[num - 1] == start + n * (stop - start) / n;
      assert n * (stop - start) / n == stop - start;
    }
  }

  lemma DivMulSwap(a: real, b: real, n: real)
    requires n != 0.0
    ensures a * b / n == (a / n) * b
  {
  }

  /** Every value of a linspace lies between its two ends. */
  lemma LinspaceWithin(start: real, stop: real, num: nat, k: nat)
    requires k < num
    ensures Min(start, stop) <= Linspace(start, stop, num)[k] <= Max(start, stop)
  {
    if num > 1 {
      var n := (num - 1) as real;
      var v := Linspace(start, stop, num)[k];
      assert v == start + (k as real) * (stop - start) / n;
      if k == num - 1 {
        LinspaceEnds(start, stop, num);
      } else if k > 0 {
        var t := (k as real) / n;
        RatioBelowOne(k as real, n);
        DivMulSwap(k as real, stop - start, n);
        assert v == start + t * (stop - start);
        InterpolantBetween(t, start, stop);
      }
    }
  }

  /**
   * `buf[start:end] += seg` when the segment fits, else
   * `buf[start:len] += seg[:len - start]`: every write is clipped at the end of
   * the buffer and nothing outside the segment's span changes.
   */
  function AddedAt(buf: seq<real>, start: nat, seg: seq<real>): (r: seq<real>)
    requires start <= |buf|
    ensures |r| == |buf|
  {
    seq(|buf|, k requires 0 <= k < |buf| =>
      if start <= k < start + |seg| then buf[k] + seg[k - start] else buf[k])
  }

  /** The clipped in-place `+=` of `AddedAt`. */
  method AddClipped(a: array<real>, start: nat, seg: seq<real>)
    requires start <= a.Length
    modifies a
    ensures a[..] == AddedAt(old(a[..]), start, seg)
  {
    ghost var before := a[..];
    var end := start + |seg|;
    var stop := if end <= a.Length then end else a.Length;
    var k := start;
    while k < stop
      invariant start <= k <= stop
      invariant forall j :: 0 <= j < a.Length ==>
        a[j] == (if start <= j < k then before[j] + seg[j - start] else before[j])
    {
      a[k] := a[k] + seg[k - start];
      k := k + 1;
    }
    assert a[..] == AddedAt(before, start, seg);
  }

  /** Elementwise product of two arrays of one length (`wave * envelope`). */
  function Times(a: seq<real>, b: seq<real>): (r: seq<real>)
    requires |a| == |b|
    ensures |r| == |a|
  {
    seq(|a|, k requires 0 <= k < |a| => a[k] * b[k])
  }
}
