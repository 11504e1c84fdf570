/**
 * The sample arithmetic shared by the live view
 * (software/cs/gui/live_view/LiveDataWindow.py) and the label view
 * (software/cs/gui/label_view/DataWindow.py): `np.searchsorted` on the time
 * axis, the visible-range slice, the three reduction methods of
 * `downsample_visible`, the final sort by time of the live view, and the two
 * nearest-sample searches used to snap comments.
 *
 * A recording is a sequence of (time, voltage) samples; the source keeps the
 * same data as two parallel arrays of equal length.
 */
module Sampling {
  import opened Wrappers
  import opened PyValue
  import opened NatArith

  /** One sample: (time in seconds, voltage). */
  type Point = (real, real)

  function Abs(x: real): real { if x < 0.0 then -x else x }

  function Times(ps: seq<Point>): (r: seq<real>)
    ensures |r| == |ps| && forall i :: 0 <= i < |ps| ==> r[i] == ps[i].0
  {
    seq(|ps|, i requires 0 <= i < |ps| => ps[i].0)
  }

  /** The samples of two parallel columns. */
  function Zip(times: seq<real>, volts: seq<real>): (ps: seq<Point>)
    requires |times| == |volts|
    ensures |ps| == |times|
    ensures forall i :: 0 <= i < |ps| ==> ps[i] == (times[i], volts[i])
  {
    seq(|times|, i requires 0 <= i < |times| => (times[i], volts[i]))
  }

  /** The voltage column of a run of samples. */
  function Volts(ps: seq<Point>): (r: seq<real>)
    ensures |r| == |ps| && forall i :: 0 <= i < |ps| ==> r[i] == ps[i].1
  {
    seq(|ps|, i requires 0 <= i < |ps| => ps[i].1)
  }

  /** Appending a run of samples to both columns appends it to the zipped recording. */
  lemma ZipAppend(times: seq<real>, volts: seq<real>, ps: seq<Point>)
    requires |times| == |volts|
    ensures Zip(times + Times(ps), volts + Volts(ps)) == Zip(times, volts) + ps
  {
    var z := Zip(times + Times(ps), volts + Volts(ps));
    var w := Zip(times, volts) + ps;
    assert |z| == |w|;
    forall i | 0 <= i < |z| ensures z[i] == w[i] {
      if i >= |times| {
        assert (times + Times(ps))[i] == ps[i - |times|].0;
        assert (volts + Volts(ps))[i] == ps[i - |times|].1;
      }
    }
  }

  predicate Sorted(xs: seq<real>)
  {
    forall i, j :: 0 <= i < j < |xs| ==> xs[i] <= xs[j]
  }

  predicate SortedByTime(ps: seq<Point>)
  {
    forall i, j :: 0 <= i < j < |ps| ==> ps[i].0 <= ps[j].0
  }

  // ---------------------------------------------------------------------------
  // np.searchsorted

  /** `np.searchsorted(xs, v, side="left")`: the first index whose value is at least `v`. */
  function SearchLeft(xs: seq<real>, v: real): (r: nat)
    ensures r <= |xs|
    ensures forall i :: 0 <= i < r ==> xs[i] < v
    ensures r < |xs| ==> xs[r] >= v
    ensures Sorted(xs) ==> forall i :: r <= i < |xs| ==> xs[i] >= v
  {
    if |xs| == 0 || xs[0] >= v then 0
    else
      var k := SearchLeft(xs[1..], v);
      assert forall i :: 1 <= i < 1 + k ==> xs[i] == xs[1..][i - 1];
      1 + k
  }

  /** `np.searchsorted(xs, v, side="right")`: the first index whose value exceeds `v`. */
  function SearchRight(xs: seq<real>, v: real): (r: nat)
    ensures r <= |xs|
    ensures forall i :: 0 <= i < r ==> xs[i] <= v
    ensures r < |xs| ==> xs[r] > v
    ensures Sorted(xs) ==> forall i :: r <= i < |xs| ==> xs[i] > v
  {
    if |xs| == 0 || xs[0] > v then 0
    else
      var k := SearchRight(xs[1..], v);
      assert forall i :: 1 <= i < 1 + k ==> xs[i] == xs[1..][i - 1];
      1 + k
  }

  // ---------------------------------------------------------------------------
  // The visible slice

  /**
   * The bounds of the visible slice: the samples from `lo` to `hi`, widened
   * by one sample on each side (within the recording) when at most 250
   * samples fall in the range.
   */
  function SliceBounds(ps: seq<Point>, range: Option<(real, real)>): (b: (nat, nat))
    ensures b.0 <= |ps| && b.1 <= |ps|
    ensures range.None? ==> b == (0, |ps|)
  {
    match range
    case None => (0, |ps|)
    case Some(r) =>
      var left := SearchLeft(Times(ps), r.0);
      var right := SearchRight(Times(ps), r.1);
      if right - left <= 250 then (if left >= 1 then left - 1 else 0, if right + 1 <= |ps| then right + 1 else |ps|)
      else (left, right)
  }

  /** `x[left_idx:right_idx]`, which is empty when the bounds cross. */
  function VisibleSlice(ps: seq<Point>, range: Option<(real, real)>): seq<Point>
  {
    var b := SliceBounds(ps, range);
    if b.0 < b.1 then ps[b.0..b.1] else []
  }

  /**
   * On a recording sorted by time, the slice holds every sample whose time
   * lies in [lo, hi], and any other sample in it is the one extra sample
   * just before or just after the range, kept when the range is small.
   */
  lemma VisibleSliceCovers(ps: seq<Point>, lo: real, hi: real)
    requires SortedByTime(ps)
    ensures var b := SliceBounds(ps, Some((lo, hi)));
      && (forall i :: 0 <= i < |ps| && lo <= ps[i].0 <= hi ==> b.0 <= i < b.1)
      && (forall i :: b.0 <= i < b.1 && !(lo <= ps[i].0 <= hi) ==>
            (i + 1 == SearchLeft(Times(ps), lo) && ps[i].0 < lo) || (i == SearchRight(Times(ps), hi) && ps[i].0 > hi))
  {
    assert Sorted(Times(ps));
  }

  // ---------------------------------------------------------------------------
  // Reduction

  /** `x[::stride]`: every `stride`-th sample, starting with the first. */
  function EveryNth(ps: seq<Point>, stride: nat): (r: seq<Point>)
    requires stride > 0
    ensures |r| <= |ps|
    decreases |ps|
  {
    if |ps| == 0 then []
    else [ps[0]] + EveryNth(ps[if stride <= |ps| then stride else |ps|..], stride)
  }

  /** `x[::stride]` holds exactly the samples at multiples of the stride, in order. */
  lemma {:induction false} EveryNthPicks(ps: seq<Point>, stride: nat, j: nat)
    requires stride > 0
    ensures j < |EveryNth(ps, stride)| <==> j * stride < |ps|
    ensures j < |EveryNth(ps, stride)| ==> EveryNth(ps, stride)[j] == ps[j * stride]
    decreases j
  {
    var r := EveryNth(ps, stride);
    if j == 0 {
      assert j * stride == 0;
    } else if |ps| > 0 {
      MulSucc(j - 1, stride);
      var k := (j - 1) * stride;
      assert j * stride == k + stride;
      if stride <= |ps| {
        var t := ps[stride..];
        EveryNthPicks(t, stride, j - 1);
        assert r == [ps[0]] + EveryNth(t, stride);
        if j < |r| {
          assert r[j] == EveryNth(t, stride)[j - 1];
          assert t[k] == ps[k + stride];
        }
      } else {
        assert r == [ps[0]] + EveryNth([], stride);
        assert j * stride >= stride;
      }
    }
  }

  function MaxY(w: seq<Point>): real
    requires |w| > 0
  {
    if |w| == 1 then w[0].1
    else
      var m := MaxY(w[1..]);
      if w[0].1 >= m then w[0].1 else m
  }

  function MinY(w: seq<Point>): real
    requires |w| > 0
  {
    if |w| == 1 then w[0].1
    else
      var m := MinY(w[1..]);
      if w[0].1 <= m then w[0].1 else m
  }

  /** The window's maximum and minimum voltages are voltages of the window that bound all the others. */
  lemma {:induction false} ExtremesOfWindow(w: seq<Point>)
    requires |w| > 0
    ensures exists i :: 0 <= i < |w| && w[i].1 == MaxY(w)
    ensures exists i :: 0 <= i < |w| && w[i].1 == MinY(w)
    ensures forall i :: 0 <= i < |w| ==> MinY(w) <= w[i].1 <= MaxY(w)
  {
    if |w| > 1 {
      ExtremesOfWindow(w[1..]);
      assert forall i :: 1 <= i < |w| ==> w[i] == w[1..][i - 1];
      var k :| 0 <= k < |w[1..]| && w[1..][k].1 == MaxY(w[1..]);
      assert w[k + 1].1 == MaxY(w[1..]);
      var l :| 0 <= l < |w[1..]| && w[1..][l].1 == MinY(w[1..]);
      assert w[l + 1].1 == MinY(w[1..]);
      if w[0].1 >= MaxY(w[1..]) { assert w[0].1 == MaxY(w); } else { assert w[k + 1].1 == MaxY(w); }
      if w[0].1 <= MinY(w[1..]) { assert w[0].1 == MinY(w); } else { assert w[l + 1].1 == MinY(w); }
    } else {
      assert w[0].1 == MaxY(w) && w[0].1 == MinY(w);
    }
  }

  function SumY(w: seq<Point>): real
  {
    if |w| == 0 then 0.0 else w[0].1 + SumY(w[1..])
  }

  /** The mean voltage of a window. */
  function MeanY(w: seq<Point>): real
    requires |w| > 0
  {
    SumY(w) / (|w| as real)
  }

  /** The sum of a window lies between its size times its minimum and its size times its maximum. */
  lemma {:induction false} SumBetween(w: seq<Point>, lo: real, hi: real)
    requires forall i :: 0 <= i < |w| ==> lo <= w[i].1 <= hi
    ensures (|w| as real) * lo <= SumY(w) <= (|w| as real) * hi
  {
    if |w| > 0 {
      SumBetween(w[1..], lo, hi);
      assert forall i :: 0 <= i < |w[1..]| ==> w[1..][i] == w[i + 1];
    }
  }

  /** A window's mean lies within any bounds on its voltages, in particular between its minimum and its maximum. */
  lemma MeanBetween(w: seq<Point>, lo: real, hi: real)
    requires |w| > 0 && forall i :: 0 <= i < |w| ==> lo <= w[i].1 <= hi
    ensures lo <= MeanY(w) <= hi
  {
    SumBetween(w, lo, hi);
    DivBetween(lo, hi, SumY(w), |w| as real);
  }

  /**
   * Mean mode: one point per whole window of `stride` samples, at the time of
   * the window's sample `stride // 2` with the window's mean voltage.
   */
  function MeanWindows(ps: seq<Point>, stride: nat): (r: seq<Point>)
    requires stride > 0
    decreases |ps|
  {
    if |ps| < stride then []
    else [(ps[stride / 2].0, MeanY(ps[..stride]))] + MeanWindows(ps[stride..], stride)
  }

  /**
   * Peak mode: two points per whole window of `stride` samples, both at the
   * time of the window's sample `stride // 2`, the first with the window's
   * maximum voltage and the second with its minimum.
   */
  function PeakWindows(ps: seq<Point>, stride: nat): (r: seq<Point>)
    requires stride > 0
    decreases |ps|
  {
    if |ps| < stride then []
    else
      var w := ps[..stride];
      [(ps[stride / 2].0, MaxY(w)), (ps[stride / 2].0, MinY(w))] + PeakWindows(ps[stride..], stride)
  }

  /** Peak mode emits pairs: both points of a pair share a time, and the first voltage is at least the second. */
  lemma {:induction false} PeakPairs(ps: seq<Point>, stride: nat)
    requires stride > 0
    ensures var r := PeakWindows(ps, stride);
      && |r| % 2 == 0
      && forall k :: 0 <= k < |r| - 1 && k % 2 == 0 ==> r[k].0 == r[k + 1].0 && r[k + 1].1 <= r[k].1
    decreases |ps|
  {
    if |ps| >= stride {
      var rest := PeakWindows(ps[stride..], stride);
      PeakPairs(ps[stride..], stride);
      ExtremesOfWindow(ps[..stride]);
      var r := PeakWindows(ps, stride);
      assert forall k :: 2 <= k < |r| ==> r[k] == rest[k - 2];
    }
  }

  /** As numpy reshapes them: `n // stride` windows, and two points per window in peak mode. */
  lemma {:induction false} WindowCounts(ps: seq<Point>, stride: nat)
    requires stride > 0
    ensures |MeanWindows(ps, stride)| == |ps| / stride
    ensures |PeakWindows(ps, stride)| == 2 * (|ps| / stride)
    decreases |ps|
  {
    DivIsDiv(|ps|, stride);
    if |ps| >= stride {
      WindowCounts(ps[stride..], stride);
      DivIsDiv(|ps| - stride, stride);
    }
  }

  /** A slice of `ps[d..]` is the slice of `ps` shifted by `d`. */
  lemma SliceOfSuffix(ps: seq<Point>, d: nat, a: nat, len: nat)
    requires d + a + len <= |ps|
    ensures ps[d..][a..a + len] == ps[d + a..d + a + len]
  {
    var u, v := ps[d..][a..a + len], ps[d + a..d + a + len];
    forall i | 0 <= i < len ensures u[i] == v[i] {
      assert u[i] == ps[d + a + i];
    }
  }

  /** Where window `j` starts: `j * stride` samples in, counted one window at a time. */
  function Offset(j: nat, stride: nat): nat
  {
    if j == 0 then 0 else Offset(j - 1, stride) + stride
  }

  lemma {:induction false} OffsetIsProduct(j: nat, stride: nat)
    ensures Offset(j, stride) == j * stride
  {
    if j > 0 {
      OffsetIsProduct(j - 1, stride);
      MulSucc(j - 1, stride);
    }
  }

  /**
   * Peak mode's layout: slot `2j + slot` holds the maximum (slot 0) or the
   * minimum (slot 1) of the `stride` samples from offset `j*stride`, at the
   * time of the sample `stride // 2` into that window.
   */
  lemma {:induction false} PeakLayout(ps: seq<Point>, stride: nat, j: nat, slot: nat)
    requires stride > 0 && Offset(j, stride) + stride <= |ps| && slot < 2
    ensures 2 * j + slot < |PeakWindows(ps, stride)|
    ensures var a := Offset(j, stride);
      var w := ps[a..a + stride];
      PeakWindows(ps, stride)[2 * j + slot] == (ps[a + stride / 2].0, if slot == 0 then MaxY(w) else MinY(w))
  {
    var a := Offset(j, stride);
    PeakWindowAt(ps, stride, j, slot);
    var u := ps[a..];
    assert u[..stride] == ps[a..a + stride];
    assert u[stride / 2] == ps[a + stride / 2];
  }

  /** Window `j` of peak mode is the first window of the samples from its offset on. */
  lemma {:induction false} PeakWindowAt(ps: seq<Point>, stride: nat, j: nat, slot: nat)
    requires stride > 0 && Offset(j, stride) + stride <= |ps| && slot < 2
    ensures 2 * j + slot < |PeakWindows(ps, stride)|
    ensures PeakWindows(ps, stride)[2 * j + slot] == PeakWindows(ps[Offset(j, stride)..], stride)[slot]
    decreases j
  {
    if j == 0 {
      assert ps[0..] == ps;
    } else {
      var t := ps[stride..];
      var b := Offset(j - 1, stride);
      assert Offset(j, stride) == b + stride;
      PeakWindowAt(t, stride, j - 1, slot);
      PeakWindowsShift(ps, stride, 2 * j + slot);
      assert t[b..] == ps[b + stride..];
    }
  }

  /** Past the first window, peak mode's points are those of the samples after it. */
  lemma PeakWindowsShift(ps: seq<Point>, stride: nat, k: nat)
    requires stride > 0 && |ps| >= stride && k >= 2
    ensures k < |PeakWindows(ps, stride)| <==> k - 2 < |PeakWindows(ps[stride..], stride)|
    ensures k < |PeakWindows(ps, stride)| ==> PeakWindows(ps, stride)[k] == PeakWindows(ps[stride..], stride)[k - 2]
  {
  }

  /** Mean mode's layout: point `j` is the mean of the `stride` samples from offset `j*stride`, at the time of the sample `stride // 2` into them. */
  lemma {:induction false} MeanLayout(ps: seq<Point>, stride: nat, j: nat)
    requires stride > 0 && Offset(j, stride) + stride <= |ps|
    ensures j < |MeanWindows(ps, stride)|
    ensures var a := Offset(j, stride);
      MeanWindows(ps, stride)[j] == (ps[a + stride / 2].0, MeanY(ps[a..a + stride]))
  {
    var a := Offset(j, stride);
    MeanWindowAt(ps, stride, j);
    var u := ps[a..];
    assert u[..stride] == ps[a..a + stride];
    assert u[stride / 2] == ps[a + stride / 2];
  }

  /** Window `j` of mean mode is the first window of the samples from its offset on. */
  lemma {:induction false} MeanWindowAt(ps: seq<Point>, stride: nat, j: nat)
    requires stride > 0 && Offset(j, stride) + stride <= |ps|
    ensures j < |MeanWindows(ps, stride)|
    ensures MeanWindows(ps, stride)[j] == MeanWindows(ps[Offset(j, stride)..], stride)[0]
    decreases j
  {
    if j == 0 {
      assert ps[0..] == ps;
    } else {
      var t := ps[stride..];
      var b := Offset(j - 1, stride);
      assert Offset(j, stride) == b + stride;
      MeanWindowAt(t, stride, j - 1);
      MeanWindowsShift(ps, stride, j);
      assert t[b..] == ps[b + stride..];
    }
  }

  /** Past the first window, mean mode's points are those of the samples after it. */
  lemma MeanWindowsShift(ps: seq<Point>, stride: nat, j: nat)
    requires stride > 0 && |ps| >= stride && j >= 1
    ensures j < |MeanWindows(ps, stride)| <==> j - 1 < |MeanWindows(ps[stride..], stride)|
    ensures j < |MeanWindows(ps, stride)| ==> MeanWindows(ps, stride)[j] == MeanWindows(ps[stride..], stride)[j - 1]
  {
  }

  /** The trailing samples that do not fill a window change nothing. */
  lemma {:induction false} WindowsIgnoreTail(ps: seq<Point>, tail: seq<Point>, stride: nat, k: nat)
    requires stride > 0 && |ps| == k * stride && |tail| < stride
    ensures PeakWindows(ps + tail, stride) == PeakWindows(ps, stride)
    ensures MeanWindows(ps + tail, stride) == MeanWindows(ps, stride)
    decreases k
  {
    if k == 0 {
      assert ps + tail == tail;
    } else {
      MulSucc(k - 1, stride);
      assert (ps + tail)[stride..] == ps[stride..] + tail;
      assert (ps + tail)[..stride] == ps[..stride];
      WindowsIgnoreTail(ps[stride..], tail, stride, k - 1);
    }
  }

  /** The peak stride: `max(1, n // (max_points // 2))`. */
  function PeakStride(n: nat, maxPoints: nat): (s: nat)
    requires maxPoints / 2 > 0
    ensures s >= 1 && (n > maxPoints ==> s <= n)
  {
    DivIsDiv(n, maxPoints / 2);
    if n / (maxPoints / 2) >= 1 then n / (maxPoints / 2) else 1
  }

  /** The subsampling and mean stride, `n // max_points`, is positive below `n`. */
  lemma StrideFits(n: nat, maxPoints: nat)
    requires 0 < maxPoints < n
    ensures 1 <= n / maxPoints <= n
  {
    DivIsDiv(n, maxPoints);
  }

  /**
   * The reduction branch of `downsample_visible`, for a slice of more than
   * `maxPoints` samples: "subsampling", "mean" or "peak"; any other name is a
   * ValueError, and a zero divisor a ZeroDivisionError.
   */
  function Reduce(ps: seq<Point>, maxPoints: nat, mode: string): (r: Result<seq<Point>, Exception>)
    requires |ps| > maxPoints
    ensures mode != "subsampling" && mode != "mean" && mode != "peak" ==> r == Err(ValueError)
    ensures r.Err? ==> r.error == ValueError || r.error == ZeroDivisionError
    ensures r.Err? && r.error == ZeroDivisionError <==> (mode == "peak" && maxPoints < 2) || ((mode == "subsampling" || mode == "mean") && maxPoints == 0)
  {
    if mode == "subsampling" then
      if maxPoints == 0 then Err(ZeroDivisionError)
      else
        StrideFits(|ps|, maxPoints);
        Ok(EveryNth(ps, |ps| / maxPoints))
    else if mode == "mean" then
      if maxPoints == 0 then Err(ZeroDivisionError)
      else
        StrideFits(|ps|, maxPoints);
        Ok(MeanWindows(ps, |ps| / maxPoints))
    else if mode == "peak" then
      if maxPoints / 2 == 0 then Err(ZeroDivisionError)
      else Ok(PeakWindows(ps, PeakStride(|ps|, maxPoints)))
    else Err(ValueError)
  }

  /** On a recording sorted by time, subsampling keeps the order. */
  lemma {:induction false} EveryNthSorted(ps: seq<Point>, stride: nat)
    requires stride > 0 && SortedByTime(ps)
    ensures SortedByTime(EveryNth(ps, stride))
    ensures forall k :: 0 <= k < |EveryNth(ps, stride)| ==> ps[0].0 <= EveryNth(ps, stride)[k].0
    decreases |ps|
  {
    if |ps| > 0 {
      var t := ps[if stride <= |ps| then stride else |ps|..];
      EveryNthSorted(t, stride);
      if |t| > 0 {
        assert ps[0].0 <= t[0].0;
      }
    }
  }

  /** On a recording sorted by time, mean mode keeps the order. */
  lemma {:induction false} MeanWindowsSorted(ps: seq<Point>, stride: nat)
    requires stride > 0 && SortedByTime(ps)
    ensures SortedByTime(MeanWindows(ps, stride))
    ensures forall k :: 0 <= k < |MeanWindows(ps, stride)| ==> ps[0].0 <= MeanWindows(ps, stride)[k].0
    decreases |ps|
  {
    if |ps| >= stride {
      var t := ps[stride..];
      MeanWindowsSorted(t, stride);
      if |t| > 0 {
        assert ps[stride / 2].0 <= t[0].0;
      }
    }
  }

  /** On a recording sorted by time, peak mode keeps the order. */
  lemma {:induction false} PeakWindowsSorted(ps: seq<Point>, stride: nat)
    requires stride > 0 && SortedByTime(ps)
    ensures SortedByTime(PeakWindows(ps, stride))
    ensures forall k :: 0 <= k < |PeakWindows(ps, stride)| ==> ps[0].0 <= PeakWindows(ps, stride)[k].0
    decreases |ps|
  {
    if |ps| >= stride {
      var t := ps[stride..];
      PeakWindowsSorted(t, stride);
      if |t| > 0 {
        assert ps[stride / 2].0 <= t[0].0;
      }
    }
  }

  // ---------------------------------------------------------------------------
  // The final sort of the live view

  function Insert(p: Point, ps: seq<Point>): (r: seq<Point>)
    ensures |r| == |ps| + 1 && multiset(r) == multiset(ps) + multiset{p}
    ensures r[0] == p || (|ps| > 0 && r[0] == ps[0])
  {
    if |ps| == 0 || p.0 <= ps[0].0 then [p] + ps
    else
      assert ps == [ps[0]] + ps[1..];
      [ps[0]] + Insert(p, ps[1..])
  }

  /** Inserting into a time-sorted recording keeps it sorted. */
  lemma {:induction false} InsertSorted(p: Point, ps: seq<Point>)
    requires SortedByTime(ps)
    ensures SortedByTime(Insert(p, ps))
    decreases |ps|
  {
    if |ps| > 0 && p.0 > ps[0].0 {
      var rest := Insert(p, ps[1..]);
      InsertSorted(p, ps[1..]);
      assert forall i :: 0 <= i < |rest| ==> ps[0].0 <= rest[i].0 by {
        assert ps[0].0 <= rest[0].0;
        forall i | 0 <= i < |rest| ensures ps[0].0 <= rest[i].0 {
          if i > 0 { assert rest[0].0 <= rest[i].0; }
        }
      }
      var r := Insert(p, ps);
      assert r == [ps[0]] + rest;
      forall i, j | 0 <= i < j < |r| ensures r[i].0 <= r[j].0 {
        if i > 0 { assert r[i] == rest[i - 1] && r[j] == rest[j - 1]; }
        else { assert r[j] == rest[j - 1]; }
      }
    }
  }

  /**
   * `np.argsort` on the times, applied to times and voltages together. The
   * result is sorted and a permutation; `argsort`'s default sort is not
   * stable, so points with equal times may come out in another order than
   * this insertion sort gives.
   */
  function SortByTime(ps: seq<Point>): (r: seq<Point>)
    ensures SortedByTime(r) && multiset(r) == multiset(ps)
    ensures SortedByTime(ps) ==> r == ps
  {
    if |ps| == 0 then []
    else
      assert ps == [ps[0]] + ps[1..];
      InsertSorted(ps[0], SortByTime(ps[1..]));
      Insert(ps[0], SortByTime(ps[1..]))
  }

  // ---------------------------------------------------------------------------
  // The two downsamplers

  /** LiveDataWindow's `downsample_visible`: the slice as it is when small enough, else reduced and sorted by time. */
  function LiveDownsample(ps: seq<Point>, range: Option<(real, real)>, maxPoints: nat, mode: string): (r: Result<seq<Point>, Exception>)
    ensures |VisibleSlice(ps, range)| <= maxPoints ==> r == Ok(VisibleSlice(ps, range))
    ensures |VisibleSlice(ps, range)| > maxPoints ==>
      r == (match Reduce(VisibleSlice(ps, range), maxPoints, mode)
            case Ok(out) => Ok(SortByTime(out))
            case Err(e) => Err(e))
    ensures r.Ok? ==> SortedByTime(r.value) || |VisibleSlice(ps, range)| <= maxPoints
  {
    var s := VisibleSlice(ps, range);
    if |s| <= maxPoints then Ok(s)
    else
      var out :- Reduce(s, maxPoints, mode);
      Ok(SortByTime(out))
  }

  /** DataWindow's `downsample_visible`: the slice as it is when small enough or shorter than two samples, else reduced. */
  function LabelDownsample(ps: seq<Point>, range: Option<(real, real)>, maxPoints: nat, mode: string): (r: Result<seq<Point>, Exception>)
    ensures |VisibleSlice(ps, range)| <= maxPoints || |VisibleSlice(ps, range)| < 2 ==> r == Ok(VisibleSlice(ps, range))
    ensures |VisibleSlice(ps, range)| > maxPoints && |VisibleSlice(ps, range)| >= 2 ==> r == Reduce(VisibleSlice(ps, range), maxPoints, mode)
  {
    var s := VisibleSlice(ps, range);
    if |s| <= maxPoints || |s| < 2 then Ok(s)
    else Reduce(s, maxPoints, mode)
  }

  /** A slice of a recording sorted by time is sorted by time. */
  lemma VisibleSliceSorted(ps: seq<Point>, range: Option<(real, real)>)
    requires SortedByTime(ps)
    ensures SortedByTime(VisibleSlice(ps, range))
  {
    var b := SliceBounds(ps, range);
    if b.0 < b.1 {
      SliceSorted(ps, b.0, b.1);
      assert VisibleSlice(ps, range) == ps[b.0..b.1];
    } else {
      assert VisibleSlice(ps, range) == [];
    }
  }

  lemma SliceSorted(ps: seq<Point>, lo: nat, hi: nat)
    requires SortedByTime(ps) && lo <= hi <= |ps|
    ensures SortedByTime(ps[lo..hi])
  {
    var s := ps[lo..hi];
    forall i, j | 0 <= i < j < |s| ensures s[i].0 <= s[j].0 {
      assert s[i] == ps[lo + i] && s[j] == ps[lo + j];
    }
  }

  /** Every reduction of a recording sorted by time is itself sorted by time. */
  lemma ReduceSorted(ps: seq<Point>, maxPoints: nat, mode: string)
    requires |ps| > maxPoints && SortedByTime(ps)
    ensures Reduce(ps, maxPoints, mode).Ok? ==> SortedByTime(Reduce(ps, maxPoints, mode).value)
  {
    if Reduce(ps, maxPoints, mode).Ok? {
      if mode == "subsampling" {
        StrideFits(|ps|, maxPoints);
        EveryNthSorted(ps, |ps| / maxPoints);
      } else if mode == "mean" {
        StrideFits(|ps|, maxPoints);
        MeanWindowsSorted(ps, |ps| / maxPoints);
      } else {
        PeakWindowsSorted(ps, PeakStride(|ps|, maxPoints));
      }
    }
  }

  /**
   * On a recording sorted by time the live view's final sort changes
   * nothing, so both windows render the same points (when at least one
   * point may be drawn). With `SortByTime` standing for `argsort`, this holds
   * up to the order of points with equal times, which an unstable sort may
   * swap.
   */
  lemma DownsamplersAgreeOnSortedData(ps: seq<Point>, range: Option<(real, real)>, maxPoints: nat, mode: string)
    requires SortedByTime(ps) && maxPoints >= 1
    ensures LiveDownsample(ps, range, maxPoints, mode) == LabelDownsample(ps, range, maxPoints, mode)
  {
    var s := VisibleSlice(ps, range);
    VisibleSliceSorted(ps, range);
    if |s| > maxPoints {
      ReduceSorted(s, maxPoints, mode);
    }
  }

  // ---------------------------------------------------------------------------
  // Nearest samples

  /** LiveDataWindow's `find_nearest_time`: the neighbours of the insertion point, ties going to the earlier one; an empty axis is an IndexError. */
  function NearestTime(xs: seq<real>, t: real): (r: Result<real, Exception>)
    ensures r.Err? <==> |xs| == 0
    ensures r.Err? ==> r.error == IndexError
    ensures r.Ok? ==> r.value in xs
  {
    if |xs| == 0 then Err(IndexError)
    else
      var idx := SearchLeft(xs, t);
      if idx == 0 then Ok(xs[0])
      else if idx >= |xs| then Ok(xs[|xs| - 1])
      else if Abs(xs[idx] - t) < Abs(t - xs[idx - 1]) then Ok(xs[idx])
      else Ok(xs[idx - 1])
  }

  /** On a sorted axis the snapped time is a nearest one, and the earliest of the nearest. */
  lemma NearestTimeIsNearest(xs: seq<real>, t: real)
    requires Sorted(xs) && |xs| > 0
    ensures forall y :: y in xs ==> Abs(NearestTime(xs, t).value - t) <= Abs(y - t)
    ensures forall y :: y in xs && Abs(y - t) == Abs(NearestTime(xs, t).value - t) ==> NearestTime(xs, t).value <= y
  {
    var idx := SearchLeft(xs, t);
    forall y | y in xs ensures Abs(NearestTime(xs, t).value - t) <= Abs(y - t) {
      var k :| 0 <= k < |xs| && xs[k] == y;
      if 0 < idx < |xs| {
        if k < idx { assert xs[k] <= xs[idx - 1]; } else { assert xs[idx] <= xs[k]; }
      } else if idx == 0 {
        assert xs[0] <= xs[k];
      } else {
        assert xs[k] <= xs[|xs| - 1];
      }
    }
    forall y | y in xs && Abs(y - t) == Abs(NearestTime(xs, t).value - t) ensures NearestTime(xs, t).value <= y {
      var k :| 0 <= k < |xs| && xs[k] == y;
      if 0 < idx < |xs| {
        if k < idx { assert xs[k] <= xs[idx - 1]; } else { assert xs[idx] <= xs[k]; }
      } else if idx == 0 {
        assert xs[0] <= xs[k];
      }
    }
  }

  /** The first index at or after `k` of a sample nearest to `t`. */
  function ArgNearestFrom(xs: seq<real>, t: real, k: nat): (i: nat)
    requires k < |xs|
    ensures k <= i < |xs|
    ensures forall j :: k <= j < |xs| ==> Abs(xs[i] - t) <= Abs(xs[j] - t)
    ensures forall j :: k <= j < i ==> Abs(xs[j] - t) > Abs(xs[i] - t)
    decreases |xs| - k
  {
    if k == |xs| - 1 then k
    else
      var rest := ArgNearestFrom(xs, t, k + 1);
      if Abs(xs[k] - t) <= Abs(xs[rest] - t) then k else rest
  }

  /** DataWindow's `find_nearest_idx_time`: `idxmin` of the distances (the first nearest row) and its time; no rows is a ValueError. */
  function NearestIndex(xs: seq<real>, t: real): (r: Result<(nat, real), Exception>)
    ensures r.Err? <==> |xs| == 0
    ensures r.Err? ==> r.error == ValueError
    ensures r.Ok? ==> r.value.0 < |xs| && r.value.1 == xs[r.value.0]
    ensures r.Ok? ==> forall j :: 0 <= j < |xs| ==> Abs(r.value.1 - t) <= Abs(xs[j] - t)
    ensures r.Ok? ==> forall j :: 0 <= j < r.value.0 ==> Abs(xs[j] - t) > Abs(r.value.1 - t)
  {
    if |xs| == 0 then Err(ValueError)
    else
      var i := ArgNearestFrom(xs, t, 0);
      Ok((i, xs[i]))
  }

  /** On a sorted axis the two windows snap a time to the same sample time. */
  lemma NearestSearchesAgree(xs: seq<real>, t: real)
    requires Sorted(xs) && |xs| > 0
    ensures NearestTime(xs, t) == Ok(NearestIndex(xs, t).value.1)
  {
    NearestTimeIsNearest(xs, t);
    var a := NearestTime(xs, t).value;
    var (i, b) := NearestIndex(xs, t).value;
    var k :| 0 <= k < |xs| && xs[k] == a;
    assert Abs(a - t) <= Abs(b - t);
    assert a <= b;
    assert i <= k;
    assert b <= a;
  }
}
