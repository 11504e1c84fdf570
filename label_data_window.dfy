/**
 * The data side of the labelling window
 * (software/cs/gui/label_view/DataWindow.py): the recording's data frame
 * (time, voltage, comments and labels columns), the label areas built from
 * the label transitions, the search for the label area under a position,
 * the recomputation of the labels column from the areas, the comment
 * dictionary kept beside the comments column, and the downsampled copy
 * that is drawn.
 *
 * Rows of the data frame are numbered from 0, so a row label is a row
 * position. An empty cell (None or NaN) is `None`. Label areas are reduced
 * to their start, duration and label; their drawing is not modelled.
 */
module LabelView {
  import opened Wrappers
  import opened PyValue
  import opened Sampling

  /** A label area: the label holds from `start` for `duration` seconds. */
  datatype Area = Area(start: real, duration: real, labelName: string)

  function End(a: Area): real { a.start + a.duration }

  /** A label transition: from this time on the recording carries this label (or none). */
  type Transition = (real, Option<string>)

  /** One entry of the duration list: (start time, duration, label). */
  type Span = (real, real, Option<string>)

  // ---------------------------------------------------------------------------
  // Label durations (plot_transitions)

  /** Python's `max` of a non-empty sequence. */
  function MaxOf(xs: seq<real>): (m: real)
    requires |xs| > 0
    ensures forall i :: 0 <= i < |xs| ==> xs[i] <= m
    ensures exists i :: 0 <= i < |xs| && xs[i] == m
  {
    if |xs| == 1 then xs[0]
    else
      var r := MaxOf(xs[1..]);
      assert forall i :: 1 <= i < |xs| ==> xs[i] == xs[1..][i - 1];
      if xs[0] >= r then xs[0] else r
  }

  /**
   * The duration list: each transition lasts until the next one, and the
   * last one until `last`.
   */
  function DurationsFrom(ts: seq<Transition>, last: real): (r: seq<Span>)
    requires |ts| > 0
    ensures |r| == |ts|
    ensures forall i :: 0 <= i < |ts| ==> r[i].0 == ts[i].0 && r[i].2 == ts[i].1
    ensures forall i :: 0 <= i < |ts| - 1 ==> r[i].1 == ts[i + 1].0 - ts[i].0
    ensures r[|ts| - 1].1 == last - ts[|ts| - 1].0
  {
    if |ts| == 1 then [(ts[0].0, last - ts[0].0, ts[0].1)]
    else
      var rest := DurationsFrom(ts[1..], last);
      assert forall i :: 1 <= i < |ts| ==> ts[i] == ts[1..][i - 1];
      [(ts[0].0, ts[1].0 - ts[0].0, ts[0].1)] + rest
  }

  /**
   * The durations `plot_transitions` computes from the transitions and the
   * recording's times: the last label lasts until the latest time. No
   * transitions is an IndexError (`transitions[-1]`), and no times a
   * ValueError (`max` of an empty sequence).
   */
  function Durations(ts: seq<Transition>, times: seq<real>): (r: Result<seq<Span>, Exception>)
    ensures ts == [] <==> r == Err(IndexError)
    ensures ts != [] && times == [] <==> r == Err(ValueError)
    ensures r.Ok? ==> |r.value| == |ts|
  {
    if ts == [] then Err(IndexError)
    else if times == [] then Err(ValueError)
    else Ok(DurationsFrom(ts, MaxOf(times)))
  }

  function SumDurations(ds: seq<Span>): real
  {
    if ds == [] then 0.0 else ds[0].1 + SumDurations(ds[1..])
  }

  /** The durations add up to the time from the first transition to `last`. */
  lemma {:induction false} DurationsTelescope(ts: seq<Transition>, last: real)
    requires |ts| > 0
    ensures SumDurations(DurationsFrom(ts, last)) == last - ts[0].0
    decreases |ts|
  {
    var ds := DurationsFrom(ts, last);
    if |ts| > 1 {
      DurationsTelescope(ts[1..], last);
      assert ds[1..] == DurationsFrom(ts[1..], last);
    }
  }

  /** With transitions in time order, ending by `last`, no duration is negative. */
  lemma DurationsNonNegative(ts: seq<Transition>, last: real)
    requires |ts| > 0
    requires forall i :: 0 <= i < |ts| - 1 ==> ts[i].0 <= ts[i + 1].0
    requires ts[|ts| - 1].0 <= last
    ensures forall i :: 0 <= i < |ts| ==> DurationsFrom(ts, last)[i].1 >= 0.0
  {
  }

  /** The label areas: one per duration entry with a label, in order; an entry without a label makes none. */
  function AreasOf(ds: seq<Span>): (r: seq<Area>)
    ensures |r| <= |ds|
    ensures (forall i :: 0 <= i < |ds| ==> ds[i].2.Some?) ==>
      |r| == |ds| && forall i :: 0 <= i < |ds| ==> r[i] == Area(ds[i].0, ds[i].1, ds[i].2.value)
    ensures (forall i :: 0 <= i < |ds| ==> ds[i].2.None?) ==> r == []
  {
    if ds == [] then []
    else
      var rest := AreasOf(ds[1..]);
      assert forall i :: 1 <= i < |ds| ==> ds[i] == ds[1..][i - 1];
      if ds[0].2.None? then rest else [Area(ds[0].0, ds[0].1, ds[0].2.value)] + rest
  }

  /** Each area ends where the next begins. */
  predicate Contiguous(areas: seq<Area>)
  {
    forall i :: 0 <= i < |areas| - 1 ==> End(areas[i]) == areas[i + 1].start
  }

  /**
   * When every transition carries a label, the areas tile the recording
   * without gaps from the first transition to `last`.
   */
  lemma AreasTile(ts: seq<Transition>, last: real)
    requires |ts| > 0 && forall i :: 0 <= i < |ts| ==> ts[i].1.Some?
    ensures var areas := AreasOf(DurationsFrom(ts, last));
      && |areas| == |ts| && Contiguous(areas)
      && areas[0].start == ts[0].0 && End(areas[|areas| - 1]) == last
  {
    var ds := DurationsFrom(ts, last);
    var areas := AreasOf(ds);
    forall i | 0 <= i < |areas| - 1 ensures End(areas[i]) == areas[i + 1].start {
      assert areas[i] == Area(ds[i].0, ds[i].1, ds[i].2.value);
    }
  }

  // ---------------------------------------------------------------------------
  // The label area under a position (get_closest_label_area)

  function Ends(areas: seq<Area>): (r: seq<real>)
    ensures |r| == |areas| && forall i :: 0 <= i < |areas| ==> r[i] == End(areas[i])
  {
    seq(|areas|, i requires 0 <= i < |areas| => End(areas[i]))
  }

  function Min(a: nat, b: nat): nat { if a <= b then a else b }

  /**
   * `get_closest_label_area`: nothing when there are no areas or `x` lies
   * before the first start or after the last end; otherwise the first area
   * that ends at or after `x`.
   */
  function ClosestLabelArea(areas: seq<Area>, x: real): (r: Option<nat>)
    ensures r.None? <==> areas == [] || x < areas[0].start || x > End(areas[|areas| - 1])
    ensures r.Some? ==> r.value < |areas| && x <= End(areas[r.value])
    ensures r.Some? ==> forall j :: 0 <= j < r.value ==> End(areas[j]) < x
  {
    if areas == [] then None
    else if x < areas[0].start || x > End(areas[|areas| - 1]) then None
    else
      var idx := SearchLeft(Ends(areas), x);
      Some(Min(idx, |areas| - 1))
  }

  /** On areas that tile the recording, the area found is the one that covers `x`. */
  lemma ClosestAreaCovers(areas: seq<Area>, x: real)
    requires Contiguous(areas)
    requires ClosestLabelArea(areas, x).Some?
    ensures var i := ClosestLabelArea(areas, x).value; areas[i].start <= x <= End(areas[i])
  {
    var i := ClosestLabelArea(areas, x).value;
    if i > 0 {
      assert End(areas[i - 1]) < x;
    }
  }

  // ---------------------------------------------------------------------------
  // The labels column (update_labels_column)

  /**
   * The rows area `i` paints: from the first row at or after its start, up
   * to the first row at or after its end, or after its end for the last
   * area.
   */
  function RowSpan(times: seq<real>, areas: seq<Area>, i: nat): (nat, nat)
    requires i < |areas|
  {
    (SearchLeft(times, areas[i].start),
     if i == |areas| - 1 then SearchRight(times, End(areas[i])) else SearchLeft(times, End(areas[i])))
  }

  /** The row spans of all areas, in order. */
  function RowSpans(times: seq<real>, areas: seq<Area>): (r: seq<(nat, nat)>)
    ensures |r| == |areas| && forall i :: 0 <= i < |areas| ==> r[i] == RowSpan(times, areas, i)
  {
    seq(|areas|, i requires 0 <= i < |areas| => RowSpan(times, areas, i))
  }

  function Names(areas: seq<Area>): (r: seq<string>)
    ensures |r| == |areas| && forall i :: 0 <= i < |areas| ==> r[i] == areas[i].labelName
  {
    seq(|areas|, i requires 0 <= i < |areas| => areas[i].labelName)
  }

  /** `labels_array[lo:hi] = label`. */
  function Paint(col: seq<Option<string>>, lo: nat, hi: nat, labelName: string): (r: seq<Option<string>>)
    ensures |r| == |col|
    ensures forall k :: 0 <= k < |col| ==> r[k] == if lo <= k < hi then Some(labelName) else col[k]
  {
    seq(|col|, k requires 0 <= k < |col| => if lo <= k < hi then Some(labelName) else col[k])
  }

  /** A column of `len` rows, NaN at first, after painting the first `n` spans with their names. */
  function Painted(len: nat, spans: seq<(nat, nat)>, names: seq<string>, n: nat): (r: seq<Option<string>>)
    requires n <= |spans| && |names| == |spans|
    ensures |r| == len
  {
    if n == 0 then seq(len, _ => None)
    else Paint(Painted(len, spans, names, n - 1), spans[n - 1].0, spans[n - 1].1, names[n - 1])
  }

  /** The labels column `update_labels_column` computes from the time column and the areas. */
  function LabelsColumn(times: seq<real>, areas: seq<Area>): seq<Option<string>>
  {
    Painted(|times|, RowSpans(times, areas), Names(areas), |areas|)
  }

  /** The last of the first `n` spans that includes row `k`. */
  function LastCover(spans: seq<(nat, nat)>, n: nat, k: nat): (r: Option<nat>)
    requires n <= |spans|
    ensures r.Some? ==> r.value < n && spans[r.value].0 <= k < spans[r.value].1
    ensures r.Some? ==> forall j :: r.value < j < n ==> !(spans[j].0 <= k < spans[j].1)
    ensures r.None? ==> forall j :: 0 <= j < n ==> !(spans[j].0 <= k < spans[j].1)
  {
    if n == 0 then None
    else if spans[n - 1].0 <= k < spans[n - 1].1 then Some(n - 1)
    else LastCover(spans, n - 1, k)
  }

  /** Each row carries the name of the last span covering it, and NaN when none does. */
  lemma {:induction false} PaintedIsLastCover(len: nat, spans: seq<(nat, nat)>, names: seq<string>, n: nat, k: nat)
    requires n <= |spans| && |names| == |spans| && k < len
    ensures Painted(len, spans, names, n)[k] == match LastCover(spans, n, k)
      case None => None
      case Some(i) => Some(names[i])
  {
    if n > 0 {
      PaintedIsLastCover(len, spans, names, n - 1, k);
    }
  }

  /**
   * Row `k` of the labels column holds the label of the last area whose
   * rows include it, and NaN when no area's rows do.
   */
  lemma LabelsColumnCell(times: seq<real>, areas: seq<Area>, k: nat)
    requires k < |times|
    ensures LabelsColumn(times, areas)[k] == match LastCover(RowSpans(times, areas), |areas|, k)
      case None => None
      case Some(i) => Some(areas[i].labelName)
  {
    PaintedIsLastCover(|times|, RowSpans(times, areas), Names(areas), |areas|, k);
  }

  /**
   * On a time column in order, area `i` covers exactly the rows with
   * start <= t < end, and start <= t <= end for the last area.
   */
  lemma InRowSpanByTime(times: seq<real>, areas: seq<Area>, i: nat, k: nat)
    requires Sorted(times) && i < |areas| && k < |times|
    ensures RowSpan(times, areas, i).0 <= k < RowSpan(times, areas, i).1 <==>
      areas[i].start <= times[k] && (if i == |areas| - 1 then times[k] <= End(areas[i]) else times[k] < End(areas[i]))
  {
  }

  // ---------------------------------------------------------------------------
  // The comments column

  /** `df.loc[df['time'] == t, 'comments'] = None`. */
  function ClearAt(times: seq<real>, col: seq<Option<string>>, t: real): (r: seq<Option<string>>)
    requires |col| == |times|
    ensures |r| == |col|
    ensures forall k :: 0 <= k < |col| ==> r[k] == if times[k] == t then None else col[k]
  {
    seq(|col|, k requires 0 <= k < |col| => if times[k] == t then None else col[k])
  }

  /** The comments of the first `n` rows by time; a later row with the same time wins. */
  function ColumnComments(times: seq<real>, col: seq<Option<string>>, n: nat): map<real, string>
    requires n <= |times| && |col| == |times|
  {
    if n == 0 then map[]
    else
      var m := ColumnComments(times, col, n - 1);
      if col[n - 1].Some? then m[times[n - 1] := col[n - 1].value] else m
  }

  /** Every comment read from the column sits on a row with that time and that text, and every commented row is read. */
  lemma {:induction false} ColumnCommentsAgree(times: seq<real>, col: seq<Option<string>>, n: nat)
    requires n <= |times| && |col| == |times|
    ensures forall t :: t in ColumnComments(times, col, n) ==>
      exists k :: 0 <= k < n && times[k] == t && col[k] == Some(ColumnComments(times, col, n)[t])
    ensures forall k :: 0 <= k < n && col[k].Some? ==> times[k] in ColumnComments(times, col, n)
  {
    if n > 0 {
      ColumnCommentsAgree(times, col, n - 1);
      var m := ColumnComments(times, col, n);
      forall t | t in m
        ensures exists k :: 0 <= k < n && times[k] == t && col[k] == Some(m[t])
      {
        if col[n - 1].Some? && t == times[n - 1] {
          assert times[n - 1] == t && col[n - 1] == Some(m[t]);
        } else {
          assert t in ColumnComments(times, col, n - 1) && m[t] == ColumnComments(times, col, n - 1)[t];
          var k :| 0 <= k < n - 1 && times[k] == t && col[k] == Some(ColumnComments(times, col, n - 1)[t]);
          assert col[k] == Some(m[t]);
        }
      }
    }
  }

  /** The maximum number of drawn points and the reduction every caller of `downsample_visible` uses. */
  const MaxRendered: nat := 4000
  const RenderMode: string := "peak"

  class LabelWindow {
    /** Whether a data frame is loaded (`df` is not None). */
    var loaded: bool
    /** The frame's columns: time, voltage, comments and labels. */
    var times: seq<real>
    var volts: seq<real>
    var commentColumn: seq<Option<string>>
    var labelColumn: seq<Option<string>>
    /** `comments`: comment text by time. */
    var comments: map<real, string>
    /** `labels`: the label areas, in order. */
    var labels: seq<Area>
    /** `xy_data`: the downsampled copy that is drawn. */
    var rendered: seq<Point>

    ghost predicate Valid()
      reads this
    {
      |volts| == |times| && |commentColumn| == |times| && |labelColumn| == |times| && (!loaded ==> times == [])
    }

    /** Every comment sits on a row of the frame with its time and its text. */
    ghost predicate CommentsInColumn()
      reads this
      requires Valid()
    {
      forall t :: t in comments ==> exists k :: 0 <= k < |times| && times[k] == t && commentColumn[k] == Some(comments[t])
    }

    /** A window with no recording: no frame, no comments, no labels. */
    constructor ()
      ensures Valid() && CommentsInColumn()
      ensures !loaded && times == [] && comments == map[] && labels == [] && rendered == []
    {
      loaded := false;
      times := [];
      volts := [];
      commentColumn := [];
      labelColumn := [];
      comments := map[];
      labels := [];
      rendered := [];
    }

    /**
     * The frame part of `plot_recording`: the recording's frame is taken
     * over, with an empty comments column when it has none, and the whole
     * recording is downsampled for drawing.
     */
    method PlotRecording(ts: seq<real>, vs: seq<real>, commentCol: Option<seq<Option<string>>>, labelCol: seq<Option<string>>)
      requires |vs| == |ts| && |labelCol| == |ts|
      requires commentCol.Some? ==> |commentCol.value| == |ts|
      modifies this
      ensures Valid() && loaded
      ensures times == ts && volts == vs && labelColumn == labelCol
      ensures commentCol.Some? ==> commentColumn == commentCol.value
      ensures commentCol.None? ==> forall k :: 0 <= k < |commentColumn| ==> commentColumn[k] == None
      ensures rendered == LabelDownsample(Zip(ts, vs), None, MaxRendered, RenderMode).value
      ensures comments == old(comments) && labels == old(labels)
    {
      loaded := true;
      times := ts;
      volts := vs;
      labelColumn := labelCol;
      commentColumn := if commentCol.Some? then commentCol.value else seq(|ts|, _ => None);
      var raised := DownsampleVisible(None, MaxRendered, RenderMode);
    }

    /**
     * `downsample_visible`: the drawn copy becomes the visible slice, left
     * as it is when it has at most `maxPoints` or fewer than two samples and
     * reduced otherwise; a reduction that raises leaves the drawn copy as it
     * was.
     */
    method DownsampleVisible(range: Option<(real, real)>, maxPoints: nat, mode: string) returns (raised: Option<Exception>)
      requires Valid()
      modifies this
      ensures Valid()
      ensures LabelDownsample(Zip(times, volts), range, maxPoints, mode).Ok? ==>
        raised == None && rendered == LabelDownsample(Zip(times, volts), range, maxPoints, mode).value
      ensures LabelDownsample(Zip(times, volts), range, maxPoints, mode).Err? ==>
        raised == Some(LabelDownsample(Zip(times, volts), range, maxPoints, mode).error) && rendered == old(rendered)
      ensures loaded == old(loaded) && times == old(times) && volts == old(volts)
      ensures commentColumn == old(commentColumn) && labelColumn == old(labelColumn)
      ensures comments == old(comments) && labels == old(labels)
    {
      var r := LabelDownsample(Zip(times, volts), range, maxPoints, mode);
      match r {
        case Ok(out) =>
          rendered := out;
          raised := None;
        case Err(e) =>
          raised := Some(e);
      }
    }

    /**
     * `plot_comments`: every commented row adds its text under its time to
     * the comment dictionary, which is not cleared first.
     */
    method PlotComments()
      requires Valid()
      modifies this
      ensures Valid()
      ensures comments == old(comments) + ColumnComments(times, commentColumn, |times|)
      ensures old(comments) == map[] ==> CommentsInColumn()
      ensures loaded == old(loaded) && times == old(times) && volts == old(volts)
      ensures commentColumn == old(commentColumn) && labelColumn == old(labelColumn)
      ensures labels == old(labels) && rendered == old(rendered)
    {
      var i := 0;
      while i < |times|
        invariant 0 <= i <= |times|
        invariant Valid() && times == old(times) && commentColumn == old(commentColumn)
        invariant loaded == old(loaded) && volts == old(volts) && labelColumn == old(labelColumn)
        invariant labels == old(labels) && rendered == old(rendered)
        invariant comments == old(comments) + ColumnComments(times, commentColumn, i)
      {
        if commentColumn[i].Some? {
          comments := comments[times[i] := commentColumn[i].value];
        }
        i := i + 1;
      }
      if old(comments) == map[] {
        ColumnCommentsAgree(times, commentColumn, |times|);
        assert comments == ColumnComments(times, commentColumn, |times|);
      }
    }

    /** `isna().all()` on the label column: no entry holds a label. */
    predicate AllUnlabelled()
      reads this
    {
      forall i :: 0 <= i < |labelColumn| ==> labelColumn[i].None?
    }

    /**
     * `plot_transitions`: the old areas are dropped; when the label column
     * holds no label at all nothing else happens; otherwise one area is
     * made, in order, for each labelled entry of the duration list.
     */
    method PlotTransitions(transitions: seq<Transition>) returns (raised: Option<Exception>)
      requires Valid()
      modifies this
      ensures Valid()
      ensures AllUnlabelled() ==> raised == None && labels == []
      ensures !AllUnlabelled() && Durations(transitions, times).Err? ==>
        raised == Some(Durations(transitions, times).error) && labels == []
      ensures !AllUnlabelled() && Durations(transitions, times).Ok? ==>
        raised == None && labels == AreasOf(Durations(transitions, times).value)
      ensures loaded == old(loaded) && times == old(times) && volts == old(volts)
      ensures commentColumn == old(commentColumn) && labelColumn == old(labelColumn)
      ensures comments == old(comments) && rendered == old(rendered)
    {
      labels := [];
      if AllUnlabelled() {
        return None;
      }
      var r := Durations(transitions, times);
      if r.Err? {
        return Some(r.error);
      }
      var ds := r.value;
      var i := |ds|;
      var areas: seq<Area> := [];
      // The areas are collected back to front so that each step extends AreasOf of a suffix.
      while i > 0
        invariant 0 <= i <= |ds|
        invariant areas == AreasOf(ds[i..])
      {
        i := i - 1;
        assert ds[i..][1..] == ds[i + 1..];
        if ds[i].2.Some? {
          areas := [Area(ds[i].0, ds[i].1, ds[i].2.value)] + areas;
        }
      }
      assert ds[0..] == ds;
      labels := areas;
      raised := None;
    }

    /**
     * `update_labels_column`: without a frame nothing happens; otherwise the
     * labels column is rebuilt from NaN by painting each area's rows with its
     * label, in order, so a later area overwrites an earlier one.
     */
    method UpdateLabelsColumn()
      requires Valid()
      modifies this
      ensures Valid()
      ensures !loaded ==> labelColumn == old(labelColumn)
      ensures loaded ==> labelColumn == LabelsColumn(times, labels)
      ensures loaded == old(loaded) && times == old(times) && volts == old(volts) && commentColumn == old(commentColumn)
      ensures comments == old(comments) && labels == old(labels) && rendered == old(rendered)
    {
      if !loaded {
        return;
      }
      labelColumn := BuildLabelsColumn(|times|, RowSpans(times, labels), Names(labels));
    }

    /** The loop of `update_labels_column` over a fresh array of NaN. */
    static method BuildLabelsColumn(len: nat, spans: seq<(nat, nat)>, names: seq<string>) returns (col: seq<Option<string>>)
      requires |names| == |spans|
      ensures col == Painted(len, spans, names, |spans|)
    {
      var column := new Option<string>[len](_ => None);
      var i := 0;
      while i < |spans|
        invariant 0 <= i <= |spans|
        invariant column[..] == Painted(len, spans, names, i)
      {
        var lo := spans[i].0;
        var hi := spans[i].1;
        if lo < hi {
          Fill(column, lo, hi, names[i]);
        } else {
          assert Paint(column[..], lo, hi, names[i]) == column[..];
        }
        i := i + 1;
      }
      col := column[..];
    }

    /** `column[lo:hi] = label`, with `hi` clipped to the column as numpy does. */
    static method Fill(column: array<Option<string>>, lo: nat, hi: nat, labelName: string)
      requires lo < hi
      modifies column
      ensures column[..] == Paint(old(column[..]), lo, hi, labelName)
    {
      var k := lo;
      while k < hi && k < column.Length
        invariant lo <= k <= hi
        invariant forall j :: 0 <= j < column.Length ==>
          column[j] == if lo <= j < k then Some(labelName) else old(column[j])
      {
        column[k] := Some(labelName);
        k := k + 1;
      }
    }

    /** `find_nearest_idx_time` on the loaded frame: without a frame it is a TypeError. */
    function NearestRow(t: real): (r: Result<(nat, real), Exception>)
      reads this
      requires Valid()
      ensures !loaded ==> r == Err(TypeError)
      ensures loaded ==> r == NearestIndex(times, t)
      ensures r.Ok? ==> r.value.0 < |times| && times[r.value.0] == r.value.1
    {
      if !loaded then Err(TypeError) else NearestIndex(times, t)
    }

    /**
     * `move_comment`: the nearest row to the click is found first (no frame
     * or no rows raises and changes nothing), then the text of the old time
     * is looked up (a KeyError changes nothing); the rows at the old time
     * lose their comment, the nearest row gets the text, and the dictionary
     * entry moves from the old time to that row's time.
     */
    method MoveComment(oldTime: real, clickTime: real) returns (raised: Option<Exception>)
      requires Valid()
      modifies this
      ensures Valid()
      ensures loaded == old(loaded) && times == old(times) && volts == old(volts) && labelColumn == old(labelColumn)
      ensures labels == old(labels) && rendered == old(rendered)
      ensures NearestRow(clickTime).Err? ==>
        raised == Some(NearestRow(clickTime).error) && comments == old(comments) && commentColumn == old(commentColumn)
      ensures NearestRow(clickTime).Ok? && oldTime !in old(comments) ==>
        raised == Some(KeyError) && comments == old(comments) && commentColumn == old(commentColumn)
      ensures NearestRow(clickTime).Ok? && oldTime in old(comments) ==>
        var (row, newTime) := NearestRow(clickTime).value;
        && raised == None
        && commentColumn == ClearAt(times, old(commentColumn), oldTime)[row := Some(old(comments)[oldTime])]
        && comments == (old(comments) - {oldTime})[newTime := old(comments)[oldTime]]
      ensures old(CommentsInColumn()) ==> CommentsInColumn()
    {
      var nearest := NearestRow(clickTime);
      if nearest.Err? {
        return Some(nearest.error);
      }
      var (row, newTime) := nearest.value;
      if oldTime !in comments {
        return Some(KeyError);
      }
      var text := comments[oldTime];
      ghost var before := comments;
      commentColumn := ClearAt(times, commentColumn, oldTime)[row := Some(text)];
      comments := (comments - {oldTime})[newTime := text];
      raised := None;
      if old(CommentsInColumn()) {
        forall t | t in comments
          ensures exists k :: 0 <= k < |times| && times[k] == t && commentColumn[k] == Some(comments[t])
        {
          if t == newTime {
            assert times[row] == t && commentColumn[row] == Some(comments[t]);
          } else {
            assert t in before && t != oldTime;
            var k :| 0 <= k < |times| && times[k] == t && old(commentColumn)[k] == Some(before[t]);
            assert commentColumn[k] == Some(comments[t]);
          }
        }
      }
    }

    /**
     * `edit_comment`: the nearest row to the comment's time gets the new
     * text first; only then is the time looked up in the dictionary, so a
     * KeyError leaves the column changed and the dictionary as it was.
     */
    method EditComment(time: real, newText: string) returns (raised: Option<Exception>)
      requires Valid()
      modifies this
      ensures Valid()
      ensures loaded == old(loaded) && times == old(times) && volts == old(volts) && labelColumn == old(labelColumn)
      ensures labels == old(labels) && rendered == old(rendered)
      ensures NearestRow(time).Err? ==>
        raised == Some(NearestRow(time).error) && comments == old(comments) && commentColumn == old(commentColumn)
      ensures NearestRow(time).Ok? ==> commentColumn == old(commentColumn)[NearestRow(time).value.0 := Some(newText)]
      ensures NearestRow(time).Ok? && time !in old(comments) ==> raised == Some(KeyError) && comments == old(comments)
      ensures NearestRow(time).Ok? && time in old(comments) ==> raised == None && comments == old(comments)[time := newText]
      ensures old(CommentsInColumn()) && raised == None ==> CommentsInColumn()
    {
      var nearest := NearestRow(time);
      if nearest.Err? {
        return Some(nearest.error);
      }
      var row := nearest.value.0;
      commentColumn := commentColumn[row := Some(newText)];
      if time !in comments {
        return Some(KeyError);
      }
      ghost var before := comments;
      comments := comments[time := newText];
      raised := None;
      if old(CommentsInColumn()) {
        var w :| 0 <= w < |times| && times[w] == time && old(commentColumn)[w] == Some(before[time]);
        // A row at exactly `time` exists, so the nearest row is at distance 0 and has that time.
        assert Abs(times[row] - time) <= Abs(times[w] - time);
        assert times[row] == time;
        forall t | t in comments
          ensures exists k :: 0 <= k < |times| && times[k] == t && commentColumn[k] == Some(comments[t])
        {
          if t == time {
            assert times[row] == t && commentColumn[row] == Some(comments[t]);
          } else {
            var k :| 0 <= k < |times| && times[k] == t && old(commentColumn)[k] == Some(before[t]);
            assert commentColumn[k] == Some(comments[t]);
          }
        }
      }
    }

    /**
     * `delete_comment`: the rows at that time lose their comment (without a
     * frame this is an AttributeError and nothing changes); then the time is
     * removed from the dictionary, a KeyError when it is missing.
     */
    method DeleteComment(time: real) returns (raised: Option<Exception>)
      requires Valid()
      modifies this
      ensures Valid()
      ensures loaded == old(loaded) && times == old(times) && volts == old(volts) && labelColumn == old(labelColumn)
      ensures labels == old(labels) && rendered == old(rendered)
      ensures !loaded ==> raised == Some(AttributeError) && comments == old(comments) && commentColumn == old(commentColumn)
      ensures loaded ==> commentColumn == ClearAt(times, old(commentColumn), time)
      ensures loaded && time !in old(comments) ==> raised == Some(KeyError) && comments == old(comments)
      ensures loaded && time in old(comments) ==> raised == None && comments == old(comments) - {time}
      ensures old(CommentsInColumn()) ==> CommentsInColumn()
    {
      if !loaded {
        return Some(AttributeError);
      }
      commentColumn := ClearAt(times, commentColumn, time);
      if time !in comments {
        raised := Some(KeyError);
      } else {
        comments := comments - {time};
        raised := None;
      }
      if old(CommentsInColumn()) {
        forall t | t in comments
          ensures exists k :: 0 <= k < |times| && times[k] == t && commentColumn[k] == Some(comments[t])
        {
          var k :| 0 <= k < |times| && times[k] == t && old(commentColumn)[k] == Some(old(comments)[t]);
          assert commentColumn[k] == Some(comments[t]);
        }
      }
    }
  }
}
