// The motif library both matchers search (models/motif_recognition.py:109,
// utils/dtw_utils.py:12-21): a dictionary from motif type to a list of
// embedding sequences, iterated in insertion order, and the running
// best-so-far search over it that replaces the best only on a strictly
// smaller distance, so the first motif reaching the minimum wins.
module MotifLibrary {
  import opened Numeric

  /** One 128-dimensional VGGish embedding. */
  type Embedding = seq<real>

  /** The embeddings of one stretch of audio, in time order (the rows of an `N x 128` array). */
  type Embeddings = seq<Embedding>

  /** One `motif_type: [list_of_motif_embeddings]` item of the dictionary. */
  datatype LibraryEntry = LibraryEntry(motifType: string, motifs: seq<Embeddings>)

  /** The dictionary as its items in insertion order. */
  type Library = seq<LibraryEntry>

  /** The dictionary's keys. */
  function Types(lib: Library): set<string>
    decreases |lib|
  {
    if lib == [] then {} else {lib[0].motifType} + Types(lib[1..])
  }

  /** No motif type appears twice, as in a dictionary. */
  predicate KeysUnique(lib: Library)
    decreases |lib|
  {
    lib == [] || (lib[0].motifType !in Types(lib[1..]) && KeysUnique(lib[1..]))
  }

  /** `motif_library.get(t, [])`. */
  function Lookup(lib: Library, t: string): seq<Embeddings>
    decreases |lib|
  {
    if lib == [] then [] else if lib[0].motifType == t then lib[0].motifs else Lookup(lib[1..], t)
  }

  /**
   * `if t not in lib: lib[t] = []` then `lib[t].append(m)`: an existing
   * type's list grows in place, a new type goes to the end.
   */
  function AddMotif(lib: Library, t: string, m: Embeddings): (r: Library)
    ensures Types(r) == Types(lib) + {t}
    decreases |lib|
  {
    if lib == [] then [LibraryEntry(t, [m])]
    else if lib[0].motifType == t then [lib[0].(motifs := lib[0].motifs + [m])] + lib[1..]
    else [lib[0]] + AddMotif(lib[1..], t, m)
  }

  /** After the update, looking up `t` finds `m` at the end of its list, and every other type is unchanged. */
  lemma {:induction false} AddMotifLookup(lib: Library, t: string, m: Embeddings, u: string)
    requires KeysUnique(lib)
    ensures Lookup(AddMotif(lib, t, m), u) == if u == t then Lookup(lib, u) + [m] else Lookup(lib, u)
    decreases |lib|
  {
    if lib != [] {
      var r := AddMotif(lib, t, m);
      assert r[1..] == (if lib[0].motifType == t then lib[1..] else AddMotif(lib[1..], t, m));
      if lib[0].motifType != t {
        AddMotifLookup(lib[1..], t, m, u);
      } else if u == t {
        assert r[0].motifType == u;
      } else {
        assert r[0].motifType != u;
      }
    }
  }

  lemma {:induction false} AddMotifKeepsUnique(lib: Library, t: string, m: Embeddings)
    requires KeysUnique(lib)
    ensures KeysUnique(AddMotif(lib, t, m))
    decreases |lib|
  {
    if lib != [] {
      var r := AddMotif(lib, t, m);
      if lib[0].motifType == t {
        assert r[1..] == lib[1..];
      } else {
        assert r[1..] == AddMotif(lib[1..], t, m);
        AddMotifKeepsUnique(lib[1..], t, m);
      }
    }
  }

  /** The update keeps every existing key in its place and adds at most one, at the end. */
  lemma {:induction false} AddMotifKeepsOrder(lib: Library, t: string, m: Embeddings)
    ensures var r := AddMotif(lib, t, m);
      |r| == (if t in Types(lib) then |lib| else |lib| + 1) &&
      (forall i :: 0 <= i < |lib| ==> r[i].motifType == lib[i].motifType) &&
      (t !in Types(lib) ==> r[|lib|] == LibraryEntry(t, [m]))
    decreases |lib|
  {
    if lib != [] {
      var r := AddMotif(lib, t, m);
      if lib[0].motifType != t {
        AddMotifKeepsOrder(lib[1..], t, m);
        assert r == [lib[0]] + AddMotif(lib[1..], t, m);
        assert forall i :: 1 <= i < |lib| ==> lib[i] == lib[1..][i - 1];
      }
    }
  }

  /** The best match so far: a type and its distance. */
  datatype Match = Match(motifType: string, distance: Extended)

  /** `if dist < best_distance: best = (motif_type, dist)`. */
  function Improve(best: Match, t: string, d: Extended): (r: Match)
    ensures d.Below(best.distance) ==> r == Match(t, d)
    ensures !d.Below(best.distance) ==> r == best
  {
    if d.Below(best.distance) then Match(t, d) else best
  }

  /** The search over `(type, distance)` candidates in iteration order, from `init`. */
  function FirstMin(init: Match, cands: seq<(string, Extended)>): Match
    decreases |cands|
  {
    if cands == [] then init
    else
      var last := cands[|cands| - 1];
      Improve(FirstMin(init, cands[..|cands| - 1]), last.0, last.1)
  }

  lemma FirstMinSnoc(init: Match, cands: seq<(string, Extended)>, c: (string, Extended))
    ensures FirstMin(init, cands + [c]) == Improve(FirstMin(init, cands), c.0, c.1)
  {
    assert (cands + [c])[..|cands|] == cands;
  }

  lemma AtMostTransitive(a: Extended, b: Extended, c: Extended)
    requires a.AtMost(b) && b.AtMost(c)
    ensures a.AtMost(c)
  {
  }

  /**
   * The search returns the minimum: its distance is at most the initial one
   * and every candidate's; it is the initial match exactly when no candidate
   * is strictly below the initial distance, and otherwise it is the first
   * candidate strictly below everything before it.
   */
  lemma {:induction false} FirstMinIsFirstMinimum(init: Match, cands: seq<(string, Extended)>)
    ensures var r := FirstMin(init, cands);
      r.distance.AtMost(init.distance) &&
      (forall k :: 0 <= k < |cands| ==> r.distance.AtMost(cands[k].1)) &&
      ((exists k :: 0 <= k < |cands| && cands[k].1.Below(init.distance)) <==> r.distance.Below(init.distance)) &&
      (r.distance.Below(init.distance) ==>
        exists k :: 0 <= k < |cands| && r == Match(cands[k].0, cands[k].1) &&
          forall j :: 0 <= j < k ==> r.distance.Below(cands[j].1))
      && (!r.distance.Below(init.distance) ==> r == init)
    decreases |cands|
  {
    if cands != [] {
      var n := |cands| - 1;
      var pre := cands[..n];
      FirstMinIsFirstMinimum(init, pre);
      var p := FirstMin(init, pre);
      var r := FirstMin(init, cands);
      assert r == Improve(p, cands[n].0, cands[n].1);
      assert forall k :: 0 <= k < n ==> cands[k] == pre[k];
      if cands[n].1.Below(p.distance) {
        assert r == Match(cands[n].0, cands[n].1);
        forall k | 0 <= k < |cands|
          ensures r.distance.AtMost(cands[k].1)
        {
          if k < n {
            AtMostTransitive(r.distance, p.distance, cands[k].1);
          }
        }
        forall j | 0 <= j < n
          ensures r.distance.Below(cands[j].1)
        {
          assert p.distance.AtMost(pre[j].1);
        }
        AtMostTransitive(r.distance, p.distance, init.distance);
      } else {
        assert r == p;
        if p.distance.Below(init.distance) {
          var k :| 0 <= k < |pre| && p == Match(pre[k].0, pre[k].1) &&
            forall j :: 0 <= j < k ==> p.distance.Below(pre[j].1);
          assert r == Match(cands[k].0, cands[k].1);
        } else {
          assert !cands[n].1.Below(init.distance);
        }
      }
    }
  }

  /** Starting from `inf`, the best distance is below a threshold exactly when some candidate's is. */
  lemma BelowThresholdIffSome(t0: string, cands: seq<(string, Extended)>, threshold: real)
    ensures FirstMin(Match(t0, Infinity), cands).distance.Below(Finite(threshold)) <==>
      exists k :: 0 <= k < |cands| && cands[k].1.Below(Finite(threshold))
  {
    var r := FirstMin(Match(t0, Infinity), cands);
    FirstMinIsFirstMinimum(Match(t0, Infinity), cands);
    if r.distance.Below(Finite(threshold)) {
      assert r.distance.Below(Infinity);
      var k :| 0 <= k < |cands| && r == Match(cands[k].0, cands[k].1) &&
        forall j :: 0 <= j < k ==> r.distance.Below(cands[j].1);
      assert cands[k].1.Below(Finite(threshold));
    }
  }

  /** Starting from `inf`, no finite candidate leaves the initial type in place. */
  lemma NoFiniteKeepsInit(t0: string, cands: seq<(string, Extended)>)
    requires forall k :: 0 <= k < |cands| ==> cands[k].1 == Infinity
    ensures FirstMin(Match(t0, Infinity), cands) == Match(t0, Infinity)
  {
    FirstMinIsFirstMinimum(Match(t0, Infinity), cands);
  }

  /** Candidate `k` is at the minimum distance, and strictly closer than every earlier one. */
  predicate FirstNearest(cands: seq<(string, Extended)>, k: int) {
    0 <= k < |cands| &&
    (forall j :: 0 <= j < |cands| ==> cands[k].1.AtMost(cands[j].1)) &&
    (forall j :: 0 <= j < k ==> cands[k].1.Below(cands[j].1))
  }

  /** A search that beats its initial distance ends on candidate `k`, the first nearest one. */
  lemma FirstMinReachesCandidate(init: Match, cands: seq<(string, Extended)>) returns (k: nat)
    requires FirstMin(init, cands).distance.Below(init.distance)
    ensures FirstNearest(cands, k)
    ensures cands[k] == (FirstMin(init, cands).motifType, FirstMin(init, cands).distance)
  {
    var r := FirstMin(init, cands);
    FirstMinIsFirstMinimum(init, cands);
    k :| 0 <= k < |cands| && r == Match(cands[k].0, cands[k].1) &&
      forall j :: 0 <= j < k ==> r.distance.Below(cands[j].1);
  }
}
