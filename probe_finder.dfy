/**
 * The probe extraction of the model evaluation script
 * (machine-learning/sharpshooter/model_evaluation.py): `leak_probe_finder`
 * finds the maximal runs of consecutive samples whose label is a probing
 * label (anything but N or Z, in either case), and `process_df` cuts one
 * probe out of a recording per run and names it after the file.
 *
 * A recording is a sequence of rows of any type with a label cell per row.
 * A missing label (NaN) is text "nan" once converted with `astype(str)`,
 * so it counts as probing.
 */
module ProbeFinder {
  import PyText

  /** A label cell: a label, or NaN for an unlabelled sample. */
  type Cell = Option<string>

  datatype Option<T> = None | Some(value: T)

  /** `astype(str)` of one cell. */
  function AsText(c: Cell): string
  {
    match c
    case None => "nan"
    case Some(s) => s
  }

  /** The mask: the upper-cased text is neither "N" nor "Z". */
  predicate IsProbing(c: Cell)
  {
    PyText.Upper(AsText(c)) != "N" && PyText.Upper(AsText(c)) != "Z"
  }

  /** Exactly N, n, Z and z are non-probing; NaN is probing. */
  lemma NonProbingLabels(c: Cell)
    ensures !IsProbing(c) <==> c == Some("N") || c == Some("n") || c == Some("Z") || c == Some("z")
  {
    var u := PyText.Upper(AsText(c));
    if c == Some("N") || c == Some("n") || c == Some("Z") || c == Some("z") {
      assert u == [PyText.UpperChar(c.value[0])];
    }
    if !IsProbing(c) {
      assert |AsText(c)| == 1;
      assert u[0] == PyText.UpperChar(AsText(c)[0]);
      assert AsText(c) == [AsText(c)[0]];
    }
  }

  // ---------------------------------------------------------------------------
  // leak_probe_finder

  /** `mask`: whether each label is probing. */
  function Mask(labels: seq<Cell>): (m: seq<bool>)
    ensures |m| == |labels| && forall x :: 0 <= x < |labels| ==> m[x] == IsProbing(labels[x])
  {
    seq(|labels|, x requires 0 <= x < |labels| => IsProbing(labels[x]))
  }

  /** The entries of `p` strictly increase. */
  predicate Increasing(p: seq<nat>)
  {
    forall x, y :: 0 <= x < y < |p| ==> p[x] < p[y]
  }

  /** Every entry of `p` is the index of a set entry of `mask`. */
  predicate AllSet(mask: seq<bool>, p: seq<nat>)
  {
    forall t :: 0 <= t < |p| ==> p[t] < |mask| && mask[p[t]]
  }

  /** `np.where(mask)[0]` from index `k` on: the set indices, in increasing order. */
  function SetIndicesFrom(mask: seq<bool>, k: nat): (p: seq<nat>)
    requires k <= |mask|
    ensures forall i :: 0 <= i < |p| ==> k <= p[i] < |mask|
    decreases |mask| - k
  {
    if k == |mask| then []
    else if mask[k] then [k] + SetIndicesFrom(mask, k + 1)
    else SetIndicesFrom(mask, k + 1)
  }

  /** The set indices from `k` on are indices of set entries, in increasing order. */
  lemma {:induction false} SetIndicesSound(mask: seq<bool>, k: nat)
    requires k <= |mask|
    ensures AllSet(mask, SetIndicesFrom(mask, k)) && Increasing(SetIndicesFrom(mask, k))
    decreases |mask| - k
  {
    if k < |mask| {
      SetIndicesSound(mask, k + 1);
    }
  }

  /** Every set entry from index `k` on is among the set indices. */
  lemma {:induction false} SetIndicesComplete(mask: seq<bool>, k: nat, x: nat)
    requires k <= x < |mask|
    ensures mask[x] ==> x in SetIndicesFrom(mask, k)
    decreases x - k
  {
    if k < x {
      SetIndicesComplete(mask, k + 1, x);
    }
  }

  /** The index after position `x` is more than one above the index at `x`. */
  predicate Jump(p: seq<nat>, x: nat)
  {
    x + 1 < |p| && p[x + 1] > p[x] + 1
  }

  /** `np.where(np.diff(p) > 1)[0]` from position `j` on: the positions after which the indices jump. */
  function BreaksFrom(p: seq<nat>, j: nat): (b: seq<nat>)
    ensures forall i :: 0 <= i < |b| ==> j <= b[i] && b[i] + 1 < |p|
    decreases |p| - j
  {
    if j + 1 >= |p| then []
    else if Jump(p, j) then [j] + BreaksFrom(p, j + 1)
    else BreaksFrom(p, j + 1)
  }

  /** The breaks from position `j` on are positions of jumps, in increasing order. */
  lemma {:induction false} BreaksSound(p: seq<nat>, j: nat)
    ensures AtJumps(p, BreaksFrom(p, j)) && Increasing(BreaksFrom(p, j))
    decreases |p| - j
  {
    if j + 1 < |p| {
      BreaksSound(p, j + 1);
    }
  }

  /** Every jump from position `j` on is among the breaks. */
  lemma {:induction false} BreaksComplete(p: seq<nat>, j: nat, x: nat)
    requires j <= x
    ensures Jump(p, x) ==> x in BreaksFrom(p, j)
    decreases x - j
  {
    if j < x && j + 1 < |p| {
      BreaksComplete(p, j + 1, x);
    }
  }

  /** Each entry of `b` is a position of `p` after which the indices jump. */
  predicate AtJumps(p: seq<nat>, b: seq<nat>)
  {
    forall t :: 0 <= t < |b| ==> b[t] + 1 < |p| && p[b[t]] + 1 < p[b[t] + 1]
  }

  /** Every position of `p` after which the indices jump is in `b`. */
  ghost predicate HasAllJumps(p: seq<nat>, b: seq<nat>)
  {
    forall x {:trigger Jump(p, x)} :: Jump(p, x) ==> x in b
  }

  /** The breaks of `p` are at its jumps, in increasing order, and they are all of its jumps. */
  lemma BreaksAreJumps(p: seq<nat>)
    ensures AtJumps(p, BreaksFrom(p, 0)) && Increasing(BreaksFrom(p, 0)) && HasAllJumps(p, BreaksFrom(p, 0))
  {
    var b := BreaksFrom(p, 0);
    BreaksSound(p, 0);
    forall x | Jump(p, x) ensures x in b {
      BreaksComplete(p, 0, x);
    }
  }

  /** The first position of run `i` among the set indices. */
  function Lo(b: seq<nat>, i: nat): nat
    requires i <= |b|
  {
    if i == 0 then 0 else b[i - 1] + 1
  }

  /** The last position of run `i` among the `n` set indices. */
  function Hi(b: seq<nat>, n: nat, i: nat): int
    requires i <= |b|
  {
    if i < |b| then b[i] else n - 1
  }

  /**
   * The runs of set indices `p` broken after positions `b`, as
   * `leak_probe_finder` zips them: the run starts are the first set index
   * and each index after a break, the run ends each index before a break
   * and the last set index; run `i` spans positions Lo to Hi.
   */
  function Zipped(p: seq<nat>, b: seq<nat>): (segs: seq<(nat, nat)>)
    requires |p| > 0
    requires forall t :: 0 <= t < |b| ==> b[t] + 1 < |p|
    ensures |segs| == |b| + 1
    ensures forall i :: 0 <= i <= |b| ==> segs[i] == (p[Lo(b, i)], p[Hi(b, |p|, i)])
  {
    var starts := [p[0]] + seq(|b|, i requires 0 <= i < |b| => p[b[i] + 1]);
    var ends := seq(|b|, i requires 0 <= i < |b| => p[b[i]]) + [p[|p| - 1]];
    seq(|b| + 1, i requires 0 <= i < |b| + 1 => (starts[i], ends[i]))
  }

  /** The runs of consecutive indices among the set indices `p`: nothing when there are none. */
  function RunsOf(p: seq<nat>): seq<(nat, nat)>
  {
    if |p| == 0 then [] else Zipped(p, BreaksFrom(p, 0))
  }

  /** The runs of set entries of a mask. */
  function Runs(mask: seq<bool>): seq<(nat, nat)>
  {
    RunsOf(SetIndicesFrom(mask, 0))
  }

  /** `leak_probe_finder`: the runs of probing labels. */
  function LeakProbeFinder(labels: seq<Cell>): seq<(nat, nat)>
  {
    Runs(Mask(labels))
  }

  /** Inside a run the set indices go up by exactly one. */
  lemma {:induction false} RunIsConsecutive(p: seq<nat>, b: seq<nat>, i: nat, d: nat)
    requires Increasing(p) && HasAllJumps(p, b) && Increasing(b)
    requires i <= |b|
    requires Lo(b, i) + d <= Hi(b, |p|, i) < |p|
    ensures p[Lo(b, i) + d] == p[Lo(b, i)] + d
  {
    if d > 0 {
      RunIsConsecutive(p, b, i, d - 1);
      var j := Lo(b, i) + d - 1;
      assert !Jump(p, j);
      assert p[j] < p[j + 1];
    }
  }

  /** Run `i` of set indices `p` of `mask` is an inclusive run of set entries. */
  lemma ZippedRunInside(mask: seq<bool>, p: seq<nat>, b: seq<nat>, i: nat)
    requires |p| > 0 && AllSet(mask, p) && Increasing(p)
    requires AtJumps(p, b) && HasAllJumps(p, b) && Increasing(b)
    requires i <= |b|
    ensures Zipped(p, b)[i].0 <= Zipped(p, b)[i].1 < |mask|
    ensures forall x :: Zipped(p, b)[i].0 <= x <= Zipped(p, b)[i].1 ==> mask[x]
  {
    var lo, hi := Lo(b, i), Hi(b, |p|, i);
    if 0 < i < |b| {
      assert b[i - 1] < b[i];
    }
    var s, e := p[lo], p[hi];
    RunIsConsecutive(p, b, i, hi - lo);
    forall x | s <= x <= e ensures mask[x] {
      RunIsConsecutive(p, b, i, x - s);
    }
  }

  /**
   * The indices just outside run `i` of set indices `p` broken after the
   * jumps `b` are not among the set indices.
   */
  lemma ZippedRunBounded(p: seq<nat>, b: seq<nat>, i: nat)
    requires |p| > 0 && Increasing(p) && AtJumps(p, b) && Increasing(b)
    requires i <= |b|
    ensures forall t :: 0 <= t < |p| ==> p[t] + 1 != Zipped(p, b)[i].0 && p[t] != Zipped(p, b)[i].1 + 1
  {
    var lo, hi := Lo(b, i), Hi(b, |p|, i);
    if 0 < i < |b| {
      assert b[i - 1] < b[i];
    }
    var s, e := p[lo], p[hi];
    forall t | 0 <= t < |p| ensures p[t] + 1 != s {
      if t < lo {
        assert p[t] <= p[lo - 1] < p[lo] - 1;
      } else if t > lo {
        assert p[t] > p[lo];
      }
    }
    forall t | 0 <= t < |p| ensures p[t] != e + 1 {
      if t > hi {
        assert p[t] >= p[hi + 1] > p[hi] + 1;
      } else if t < hi {
        assert p[t] < p[hi];
      }
    }
  }

  /** Later runs of `p` broken after `b` start more than one index after earlier runs end. */
  lemma ZippedRunsOrdered(p: seq<nat>, b: seq<nat>, i: nat, j: nat)
    requires |p| > 0 && Increasing(p) && AtJumps(p, b) && Increasing(b)
    requires i < j <= |b|
    ensures Zipped(p, b)[i].1 + 1 < Zipped(p, b)[j].0
  {
    if i < j - 1 {
      assert b[i] < b[j - 1];
      assert p[b[i] + 1] < p[b[j - 1] + 1];
    }
  }

  /** Every set index of `p` lies in some run of `p` broken after `b`. */
  lemma ZippedRunsCover(p: seq<nat>, b: seq<nat>, t: nat)
    requires t < |p| && Increasing(p) && AtJumps(p, b) && Increasing(b)
    ensures exists i :: 0 <= i <= |b| && Zipped(p, b)[i].0 <= p[t] <= Zipped(p, b)[i].1
  {
    // The run holding position t is the one after the breaks that come before t.
    var i := 0;
    while i < |b| && b[i] < t
      invariant 0 <= i <= |b|
      invariant i > 0 ==> b[i - 1] < t
    {
      i := i + 1;
    }
    if Lo(b, i) < t {
      assert p[Lo(b, i)] < p[t];
    }
    if t < Hi(b, |p|, i) {
      assert p[t] < p[Hi(b, |p|, i)];
    }
    assert Zipped(p, b)[i].0 <= p[t] <= Zipped(p, b)[i].1;
  }

  /** Each run of the set indices `p` of `mask` is an inclusive run of set entries. */
  lemma IndexRunInside(mask: seq<bool>, p: seq<nat>, i: nat)
    requires AllSet(mask, p) && Increasing(p)
    requires i < |RunsOf(p)|
    ensures RunsOf(p)[i].0 <= RunsOf(p)[i].1 < |mask|
    ensures forall x :: RunsOf(p)[i].0 <= x <= RunsOf(p)[i].1 ==> mask[x]
  {
    BreaksAreJumps(p);
    ZippedRunInside(mask, p, BreaksFrom(p, 0), i);
  }

  /** The indices just outside each run of the set indices `p` are not among them. */
  lemma IndexRunBounded(p: seq<nat>, i: nat)
    requires Increasing(p)
    requires i < |RunsOf(p)|
    ensures forall t :: 0 <= t < |p| ==> p[t] + 1 != RunsOf(p)[i].0 && p[t] != RunsOf(p)[i].1 + 1
  {
    var b := BreaksFrom(p, 0);
    BreaksAreJumps(p);
    ZippedRunBounded(p, b, i);
    assert RunsOf(p)[i] == Zipped(p, b)[i];
  }

  /** Each run is an inclusive run of set entries within the mask. */
  lemma RunIsSet(mask: seq<bool>, i: nat)
    requires i < |Runs(mask)|
    ensures Runs(mask)[i].0 <= Runs(mask)[i].1 < |mask|
    ensures forall x :: Runs(mask)[i].0 <= x <= Runs(mask)[i].1 ==> mask[x]
  {
    SetIndicesSound(mask, 0);
    IndexRunInside(mask, SetIndicesFrom(mask, 0), i);
  }

  /**
   * Each run is maximal: the entry before its start and the entry after
   * its end are not set (or lie outside the mask).
   */
  lemma RunIsMaximal(mask: seq<bool>, i: nat)
    requires i < |Runs(mask)|
    ensures 0 < Runs(mask)[i].0 ==> !mask[Runs(mask)[i].0 - 1]
    ensures Runs(mask)[i].1 + 1 < |mask| ==> !mask[Runs(mask)[i].1 + 1]
  {
    var p := SetIndicesFrom(mask, 0);
    var (s, e) := Runs(mask)[i];
    SetIndicesSound(mask, 0);
    IndexRunBounded(p, i);
    if 0 < s {
      SetIndicesComplete(mask, 0, s - 1);
    }
    if e + 1 < |mask| {
      SetIndicesComplete(mask, 0, e + 1);
    }
  }

  /** The runs come in increasing order with at least one unset entry between any two. */
  lemma RunsOrdered(mask: seq<bool>, i: nat, j: nat)
    requires i < j < |Runs(mask)|
    ensures Runs(mask)[i].1 + 1 < Runs(mask)[j].0
  {
    var p := SetIndicesFrom(mask, 0);
    SetIndicesSound(mask, 0);
    BreaksAreJumps(p);
    ZippedRunsOrdered(p, BreaksFrom(p, 0), i, j);
  }

  /** Every set entry lies in some run. */
  lemma RunsCover(mask: seq<bool>, x: nat)
    requires x < |mask| && mask[x]
    ensures exists i :: 0 <= i < |Runs(mask)| && Runs(mask)[i].0 <= x <= Runs(mask)[i].1
  {
    var p := SetIndicesFrom(mask, 0);
    SetIndicesComplete(mask, 0, x);
    var t :| 0 <= t < |p| && p[t] == x;
    var b := BreaksFrom(p, 0);
    SetIndicesSound(mask, 0);
    BreaksAreJumps(p);
    ZippedRunsCover(p, b, t);
    var i :| 0 <= i <= |b| && Zipped(p, b)[i].0 <= x <= Zipped(p, b)[i].1;
    assert Runs(mask)[i] == Zipped(p, b)[i];
  }

  /**
   * Each pair `leak_probe_finder` returns is a maximal inclusive run of
   * probing labels: no N or Z label lies inside, and the labels just
   * outside are N or Z (or lie outside the recording).
   */
  lemma SegmentIsMaximalRun(labels: seq<Cell>, i: nat)
    requires i < |LeakProbeFinder(labels)|
    ensures LeakProbeFinder(labels)[i].0 <= LeakProbeFinder(labels)[i].1 < |labels|
    ensures forall x :: LeakProbeFinder(labels)[i].0 <= x <= LeakProbeFinder(labels)[i].1 ==> IsProbing(labels[x])
    ensures 0 < LeakProbeFinder(labels)[i].0 ==> !IsProbing(labels[LeakProbeFinder(labels)[i].0 - 1])
    ensures LeakProbeFinder(labels)[i].1 + 1 < |labels| ==> !IsProbing(labels[LeakProbeFinder(labels)[i].1 + 1])
  {
    RunIsSet(Mask(labels), i);
    RunIsMaximal(Mask(labels), i);
  }

  /** The pairs come in increasing order and are disjoint, with an N or Z label between any two. */
  lemma SegmentsOrdered(labels: seq<Cell>, i: nat, j: nat)
    requires i < j < |LeakProbeFinder(labels)|
    ensures LeakProbeFinder(labels)[i].1 + 1 < LeakProbeFinder(labels)[j].0
  {
    RunsOrdered(Mask(labels), i, j);
  }

  /** Every probing index lies in exactly one pair. */
  lemma ProbingIndexCovered(labels: seq<Cell>, x: nat)
    requires x < |labels| && IsProbing(labels[x])
    ensures exists i :: 0 <= i < |LeakProbeFinder(labels)| && LeakProbeFinder(labels)[i].0 <= x <= LeakProbeFinder(labels)[i].1
    ensures forall i, j ::
      (&& 0 <= i < |LeakProbeFinder(labels)| && 0 <= j < |LeakProbeFinder(labels)|
       && LeakProbeFinder(labels)[i].0 <= x <= LeakProbeFinder(labels)[i].1
       && LeakProbeFinder(labels)[j].0 <= x <= LeakProbeFinder(labels)[j].1) ==> i == j
  {
    var segs := LeakProbeFinder(labels);
    RunsCover(Mask(labels), x);
    forall i1, j1 | 0 <= i1 < |segs| && 0 <= j1 < |segs| && segs[i1].0 <= x <= segs[i1].1 && segs[j1].0 <= x <= segs[j1].1
      ensures i1 == j1
    {
      if i1 < j1 {
        SegmentsOrdered(labels, i1, j1);
      } else if j1 < i1 {
        SegmentsOrdered(labels, j1, i1);
      }
    }
  }

  /** The finder returns nothing exactly when every label is N or Z, in either case. */
  lemma FinderEmptyIffNoProbing(labels: seq<Cell>)
    ensures LeakProbeFinder(labels) == [] <==> forall x :: 0 <= x < |labels| ==> !IsProbing(labels[x])
  {
    if exists x :: 0 <= x < |labels| && IsProbing(labels[x]) {
      var x :| 0 <= x < |labels| && IsProbing(labels[x]);
      RunsCover(Mask(labels), x);
    }
    if LeakProbeFinder(labels) != [] {
      SegmentIsMaximalRun(labels, 0);
      assert IsProbing(labels[LeakProbeFinder(labels)[0].0]);
    }
  }

  // ---------------------------------------------------------------------------
  // process_df and get_probes

  /** A recording: its rows, the label of each row, its file and that file's stem. */
  datatype Frame<R> = Frame(rows: seq<R>, labels: seq<Cell>, file: string, stem: string)

  /** A probe: rows cut from a recording, tagged with the file and the probe's number. */
  datatype Probe<R> = Probe(rows: seq<R>, file: string, probeIndex: nat)

  function Min(a: int, b: int): int { if a <= b then a else b }

  /** `df.iloc[s:e]`: the rows from `s` up to but not including `e`, clipped to the frame. */
  function ILoc<R>(rows: seq<R>, s: nat, e: nat): (r: seq<R>)
    ensures s <= e <= |rows| ==> r == rows[s..e]
  {
    var hi := Min(e, |rows|);
    if s < hi then rows[s..hi] else []
  }

  /** `f"{stem}_{i}"`. */
  function ProbeName(stem: string, i: nat): string
  {
    stem + "_" + PyText.IntToDecimal(i)
  }

  /** The probe cut for each of the runs `segs`, numbered in run order. */
  function ProbesFrom<R>(f: Frame<R>, segs: seq<(nat, nat)>): (r: seq<Probe<R>>)
    ensures |r| == |segs|
  {
    seq(|segs|, i requires 0 <= i < |segs| => Probe(ILoc(f.rows, segs[i].0, segs[i].1), f.file, i))
  }

  /** The names of `n` probes of the file with stem `stem`, numbered in order. */
  function NamesFrom(stem: string, n: nat): (r: seq<string>)
    ensures |r| == n
  {
    seq(n, i requires 0 <= i < n => ProbeName(stem, i))
  }

  /** The probes `process_df` returns, one per run, in run order. */
  function ProbesOf<R>(f: Frame<R>): seq<Probe<R>>
  {
    ProbesFrom(f, LeakProbeFinder(f.labels))
  }

  /** The names `process_df` returns, numbered in run order. */
  function NamesOf<R>(f: Frame<R>): seq<string>
  {
    NamesFrom(f.stem, |LeakProbeFinder(f.labels)|)
  }

  /**
   * Because the slice end is exclusive, a probe is its run without the
   * run's last sample: the probe followed by that sample is the whole run,
   * and a run of one sample gives an empty probe.
   */
  lemma ProbeOmitsLastSample<R>(f: Frame<R>, i: nat)
    requires |f.labels| == |f.rows| && i < |LeakProbeFinder(f.labels)|
    ensures var (s, e) := LeakProbeFinder(f.labels)[i];
      && s <= e < |f.rows|
      && ProbesOf(f)[i].rows + [f.rows[e]] == f.rows[s..e + 1]
      && |ProbesOf(f)[i].rows| == e - s
      && (s == e ==> ProbesOf(f)[i].rows == [])
  {
    SegmentIsMaximalRun(f.labels, i);
    var (s, e) := LeakProbeFinder(f.labels)[i];
    assert f.rows[s..e + 1] == f.rows[s..e] + [f.rows[e]];
  }

  /** Different probes of one file get different names. */
  lemma ProbeNamesDistinct(stem: string, i: nat, j: nat)
    requires i != j
    ensures ProbeName(stem, i) != ProbeName(stem, j)
  {
    var k := |stem| + 1;
    assert ProbeName(stem, i)[k..] == PyText.NatToDecimal(i);
    assert ProbeName(stem, j)[k..] == PyText.NatToDecimal(j);
  }

  /** The loop of `process_df`: one probe and one name per run in `segs`, in run order. */
  method CutProbes<R>(f: Frame<R>, segs: seq<(nat, nat)>) returns (probes: seq<Probe<R>>, names: seq<string>)
    ensures probes == ProbesFrom(f, segs) && names == NamesFrom(f.stem, |segs|)
  {
    probes := [];
    names := [];
    var i := 0;
    while i < |segs|
      invariant 0 <= i <= |segs|
      invariant probes == ProbesFrom(f, segs)[..i] && names == NamesFrom(f.stem, |segs|)[..i]
    {
      var (s, e) := segs[i];
      probes := probes + [Probe(ILoc(f.rows, s, e), f.file, i)];
      names := names + [ProbeName(f.stem, i)];
      i := i + 1;
    }
  }

  /** `process_df`: one probe and one name per run found in the labels, in run order. */
  method ProcessDf<R>(f: Frame<R>) returns (probes: seq<Probe<R>>, names: seq<string>)
    ensures probes == ProbesOf(f) && names == NamesOf(f)
  {
    probes, names := CutProbes(f, LeakProbeFinder(f.labels));
  }

  /** The probes of several recordings, concatenated in the given order. */
  function AllProbes<R>(dfs: seq<Frame<R>>, order: seq<nat>): seq<Probe<R>>
    requires forall t :: 0 <= t < |order| ==> order[t] < |dfs|
  {
    if order == [] then [] else AllProbes(dfs, order[..|order| - 1]) + ProbesOf(dfs[order[|order| - 1]])
  }

  function AllNames<R>(dfs: seq<Frame<R>>, order: seq<nat>): seq<string>
    requires forall t :: 0 <= t < |order| ==> order[t] < |dfs|
  {
    if order == [] then [] else AllNames(dfs, order[..|order| - 1]) + NamesOf(dfs[order[|order| - 1]])
  }

  /** The probe and name lists stay aligned: one name per probe. */
  lemma {:induction false} AllNamesAligned<R>(dfs: seq<Frame<R>>, order: seq<nat>)
    requires forall t :: 0 <= t < |order| ==> order[t] < |dfs|
    ensures |AllNames(dfs, order)| == |AllProbes(dfs, order)|
  {
    if order != [] {
      AllNamesAligned(dfs, order[..|order| - 1]);
    }
  }

  /**
   * `get_probes`: every recording is processed and the results are
   * appended in the order the work completes, which is `order`, a
   * permutation of the recordings chosen by the thread pool.
   */
  method GetProbes<R>(dfs: seq<Frame<R>>, order: seq<nat>) returns (allProbes: seq<Probe<R>>, allNames: seq<string>)
    requires |order| == |dfs|
    requires forall t :: 0 <= t < |order| ==> order[t] < |dfs|
    requires forall t, u :: 0 <= t < u < |order| ==> order[t] != order[u]
    ensures allProbes == AllProbes(dfs, order) && allNames == AllNames(dfs, order)
    ensures |allNames| == |allProbes|
  {
    allProbes := [];
    allNames := [];
    var t := 0;
    while t < |order|
      invariant 0 <= t <= |order|
      invariant allProbes == AllProbes(dfs, order[..t]) && allNames == AllNames(dfs, order[..t])
    {
      var probes, names := ProcessDf(dfs[order[t]]);
      assert order[..t + 1][..t] == order[..t];
      allProbes := allProbes + probes;
      allNames := allNames + names;
      t := t + 1;
    }
    assert order[..|order|] == order;
    AllNamesAligned(dfs, order);
  }
}
