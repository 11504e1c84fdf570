/**
 * The data side of the live waveform window
 * (software/cs/gui/live_view/LiveDataWindow.py): the buffer of incoming
 * samples and its transfer into the full recording, the periodic backup
 * that appends only what was not yet saved, the rendered (downsampled)
 * copy of the visible range, and the comment dictionary with its add,
 * move, edit and delete operations.
 *
 * The recording is kept, as in the source, as two parallel columns of
 * times and voltages. Comment markers are reduced to their text, keyed by
 * time. Dialogs are reduced to whether they were accepted and the text
 * typed into them. Locks, timers and the background save thread are not
 * modelled: every operation runs as one step.
 */
module LiveView {
  import opened Wrappers
  import opened PyValue
  import PyText
  import opened Sampling

  /**
   * `add_comment_dialog`: nothing when the dialog is cancelled or the text is
   * blank, otherwise the stripped text.
   */
  function CommentDialog(accepted: bool, text: string): (r: Option<string>)
    ensures r.None? <==> !accepted || PyText.Strip(text) == ""
    ensures r.Some? ==> r.value == PyText.Strip(text) && r.value != ""
  {
    if !accepted then None
    else
      var t := PyText.Strip(text);
      if t != "" then Some(t) else None
  }

  /** The maximum number of rendered points and the reduction every caller of `downsample_visible` uses. */
  const MaxRendered: nat := 4000
  const RenderMode: string := "peak"

  class LiveWindow {
    /** `xy_data`: the whole recording, as a time column and a voltage column. */
    var times: seq<real>
    var volts: seq<real>
    /** `buffer_data`: samples received since the last transfer. */
    var buffer: seq<Point>
    /** `xy_rendered`: the downsampled copy of the visible range that is drawn. */
    var rendered: seq<Point>
    /** `comments`: comment text by time. */
    var comments: map<real, string>
    var currentTime: real
    /** `data_modified`: something changed since the last backup. */
    var dataModified: bool
    /** `last_saved_data_index`: how many samples the waveform backup holds. */
    var lastSavedIndex: nat
    /** The rows appended to the waveform backup file so far, across its renames. */
    var backup: seq<Point>
    /** The content of the comments backup file, rewritten on each save. */
    var savedComments: map<real, string>

    /** The columns have equal length and the backup holds exactly the first `lastSavedIndex` samples, each once. */
    ghost predicate Valid()
      reads this
    {
      |times| == |volts| && lastSavedIndex <= |times| && backup == Zip(times, volts)[..lastSavedIndex]
    }

    /** A fresh window: no samples, no comments, nothing backed up. */
    constructor ()
      ensures Valid()
      ensures times == [] && volts == [] && buffer == [] && rendered == [] && comments == map[]
      ensures currentTime == 0.0 && !dataModified && lastSavedIndex == 0 && backup == [] && savedComments == map[]
    {
      times := [];
      volts := [];
      buffer := [];
      rendered := [];
      comments := map[];
      currentTime := 0.0;
      dataModified := false;
      lastSavedIndex := 0;
      backup := [];
      savedComments := map[];
    }

    /**
     * The data feed of the live tab: one received sample is appended to
     * `buffer_data` and its time becomes `current_time`, where a live
     * comment is placed.
     */
    method Receive(p: Point)
      requires Valid()
      modifies this
      ensures Valid()
      ensures buffer == old(buffer) + [p] && currentTime == p.0
      ensures times == old(times) && volts == old(volts) && rendered == old(rendered) && comments == old(comments)
      ensures dataModified == old(dataModified)
      ensures lastSavedIndex == old(lastSavedIndex) && backup == old(backup) && savedComments == old(savedComments)
    {
      buffer := buffer + [p];
      currentTime := p.0;
    }

    /**
     * `integrate_buffer_to_np`: the buffered samples are appended, in order,
     * to the recording and the buffer is emptied; an empty buffer changes
     * nothing, not even the modified flag.
     */
    method IntegrateBuffer()
      requires Valid()
      modifies this
      ensures Valid()
      ensures old(buffer) == [] ==> times == old(times) && volts == old(volts) && dataModified == old(dataModified)
      ensures old(buffer) != [] ==> Zip(times, volts) == Zip(old(times), old(volts)) + old(buffer) && dataModified
      ensures buffer == []
      ensures rendered == old(rendered) && comments == old(comments) && currentTime == old(currentTime)
      ensures lastSavedIndex == old(lastSavedIndex) && backup == old(backup) && savedComments == old(savedComments)
    {
      if buffer == [] {
        return;
      }
      var incoming := buffer;
      buffer := [];
      dataModified := true;
      ZipAppend(times, volts, incoming);
      assert Zip(times + Times(incoming), volts + Volts(incoming))[..lastSavedIndex] == Zip(times, volts)[..lastSavedIndex];
      times := times + Times(incoming);
      volts := volts + Volts(incoming);
    }

    /**
     * `periodic_save_in_background`: the samples after `lastSavedIndex`, if
     * any, are appended to the waveform backup and the index moves to the
     * end; a non-empty comment dictionary replaces the comments backup.
     * Afterwards the backup holds the whole recording.
     */
    method PeriodicSave()
      requires Valid()
      modifies this
      ensures Valid()
      ensures backup == Zip(times, volts) && lastSavedIndex == |times|
      ensures times == old(times) && volts == old(volts) && buffer == old(buffer) && rendered == old(rendered)
      ensures comments == old(comments) && currentTime == old(currentTime)
      ensures backup == old(backup) + Zip(times, volts)[old(lastSavedIndex)..]
      ensures comments != map[] ==> savedComments == comments
      ensures comments == map[] ==> savedComments == old(savedComments)
      ensures !dataModified
    {
      var rows := Zip(times, volts)[lastSavedIndex..];
      if rows != [] {
        backup := backup + rows;
        lastSavedIndex := |times|;
      }
      assert Zip(times, volts) == Zip(times, volts)[..old(lastSavedIndex)] + rows;
      if comments != map[] {
        savedComments := comments;
      }
      dataModified := false;
    }

    /** `trigger_periodic_save`: a backup runs only when something changed since the last one. */
    method TriggerPeriodicSave()
      requires Valid()
      modifies this
      ensures Valid()
      ensures !old(dataModified) ==> backup == old(backup) && lastSavedIndex == old(lastSavedIndex) && savedComments == old(savedComments)
      ensures old(dataModified) ==> backup == Zip(times, volts) && !dataModified
      ensures times == old(times) && volts == old(volts) && buffer == old(buffer) && rendered == old(rendered)
      ensures comments == old(comments) && currentTime == old(currentTime)
    {
      if dataModified {
        PeriodicSave();
      }
    }

    /**
     * `downsample_visible` with the visible range, the point budget and the
     * reduction method: the rendered copy becomes the downsampled slice, or
     * stays as it was when the reduction raises. On a recording in time
     * order the rendered copy is in time order.
     */
    method DownsampleVisible(range: Option<(real, real)>, maxPoints: nat, mode: string) returns (raised: Option<Exception>)
      requires Valid()
      modifies this
      ensures Valid()
      ensures LiveDownsample(Zip(times, volts), range, maxPoints, mode).Ok? ==>
        raised == None && rendered == LiveDownsample(Zip(times, volts), range, maxPoints, mode).value
      ensures LiveDownsample(Zip(times, volts), range, maxPoints, mode).Err? ==>
        raised == Some(LiveDownsample(Zip(times, volts), range, maxPoints, mode).error) && rendered == old(rendered)
      ensures Sorted(times) && raised == None ==> SortedByTime(rendered)
      ensures times == old(times) && volts == old(volts) && buffer == old(buffer) && comments == old(comments)
      ensures currentTime == old(currentTime) && dataModified == old(dataModified)
      ensures lastSavedIndex == old(lastSavedIndex) && backup == old(backup) && savedComments == old(savedComments)
    {
      var ps := Zip(times, volts);
      var r := LiveDownsample(ps, range, maxPoints, mode);
      match r {
        case Ok(out) =>
          rendered := out;
          raised := None;
          if Sorted(times) {
            assert SortedByTime(ps);
            VisibleSliceSorted(ps, range);
          }
        case Err(e) =>
          raised := Some(e);
      }
    }

    /**
     * `timed_plot_update`: the buffer is moved into the recording and the
     * visible range is rendered again with the window's own budget of 4000
     * points in peak mode, which never raises. A recording received in time
     * order is rendered in time order.
     */
    method TimedPlotUpdate(range: Option<(real, real)>)
      requires Valid()
      modifies this
      ensures Valid()
      ensures Zip(times, volts) == Zip(old(times), old(volts)) + old(buffer) && buffer == []
      ensures rendered == LiveDownsample(Zip(times, volts), range, MaxRendered, RenderMode).value
      ensures Sorted(times) ==> SortedByTime(rendered)
      ensures comments == old(comments) && currentTime == old(currentTime)
      ensures lastSavedIndex == old(lastSavedIndex) && backup == old(backup) && savedComments == old(savedComments)
    {
      IntegrateBuffer();
      var raised := DownsampleVisible(range, MaxRendered, RenderMode);
    }

    /**
     * `add_comment_at_click`: the click is snapped to the nearest rendered
     * time (an empty rendering raises IndexError before the dialog opens);
     * an accepted, non-blank text is stored there and marks the data
     * modified.
     */
    method AddCommentAtClick(clickTime: real, accepted: bool, text: string) returns (raised: Option<Exception>)
      requires Valid()
      modifies this
      ensures Valid()
      ensures rendered == [] ==> raised == Some(IndexError) && comments == old(comments) && dataModified == old(dataModified)
      ensures rendered != [] ==> raised == None
      ensures rendered != [] && CommentDialog(accepted, text).Some? ==>
        comments == old(comments)[NearestTime(Times(rendered), clickTime).value := CommentDialog(accepted, text).value] && dataModified
      ensures CommentDialog(accepted, text).None? ==> comments == old(comments) && dataModified == old(dataModified)
      ensures times == old(times) && volts == old(volts) && buffer == old(buffer) && rendered == old(rendered)
      ensures currentTime == old(currentTime)
      ensures lastSavedIndex == old(lastSavedIndex) && backup == old(backup) && savedComments == old(savedComments)
    {
      var snapped := NearestTime(Times(rendered), clickTime);
      if snapped.Err? {
        return Some(snapped.error);
      }
      raised := None;
      var t := CommentDialog(accepted, text);
      if t.None? {
        return;
      }
      comments := comments[snapped.value := t.value];
      dataModified := true;
    }

    /** `add_comment_live`: an accepted, non-blank text is stored at the current time. */
    method AddCommentLive(accepted: bool, text: string)
      requires Valid()
      modifies this
      ensures Valid()
      ensures CommentDialog(accepted, text).Some? ==>
        comments == old(comments)[currentTime := CommentDialog(accepted, text).value] && dataModified
      ensures CommentDialog(accepted, text).None? ==> comments == old(comments) && dataModified == old(dataModified)
      ensures times == old(times) && volts == old(volts) && buffer == old(buffer) && rendered == old(rendered)
      ensures currentTime == old(currentTime)
      ensures lastSavedIndex == old(lastSavedIndex) && backup == old(backup) && savedComments == old(savedComments)
    {
      var t := CommentDialog(accepted, text);
      if t.None? {
        return;
      }
      comments := comments[currentTime := t.value];
      dataModified := true;
    }

    /**
     * `move_comment`: a missing time raises KeyError and changes nothing;
     * otherwise the comment is popped first and then snapped to the nearest
     * rendered time, keeping its text. An empty rendering raises IndexError
     * after the pop, so the comment is lost and the data is not marked
     * modified.
     */
    method MoveComment(oldTime: real, clickTime: real) returns (raised: Option<Exception>)
      requires Valid()
      modifies this
      ensures Valid()
      ensures oldTime !in old(comments) ==> raised == Some(KeyError) && comments == old(comments) && dataModified == old(dataModified)
      ensures oldTime in old(comments) && rendered == [] ==>
        raised == Some(IndexError) && comments == old(comments) - {oldTime} && dataModified == old(dataModified)
      ensures oldTime in old(comments) && rendered != [] ==>
        raised == None && dataModified &&
        comments == (old(comments) - {oldTime})[NearestTime(Times(rendered), clickTime).value := old(comments)[oldTime]]
      ensures times == old(times) && volts == old(volts) && buffer == old(buffer) && rendered == old(rendered)
      ensures currentTime == old(currentTime)
      ensures lastSavedIndex == old(lastSavedIndex) && backup == old(backup) && savedComments == old(savedComments)
    {
      if oldTime !in comments {
        return Some(KeyError);
      }
      var text := comments[oldTime];
      comments := comments - {oldTime};
      var snapped := NearestTime(Times(rendered), clickTime);
      if snapped.Err? {
        return Some(snapped.error);
      }
      comments := comments[snapped.value := text];
      dataModified := true;
      raised := None;
    }

    /** `edit_comment`: the text at an existing time is replaced; a missing time raises KeyError. */
    method EditComment(time: real, newText: string) returns (raised: Option<Exception>)
      requires Valid()
      modifies this
      ensures Valid()
      ensures time !in old(comments) ==> raised == Some(KeyError) && comments == old(comments) && dataModified == old(dataModified)
      ensures time in old(comments) ==> raised == None && comments == old(comments)[time := newText] && dataModified
      ensures comments.Keys == old(comments).Keys
      ensures times == old(times) && volts == old(volts) && buffer == old(buffer) && rendered == old(rendered)
      ensures currentTime == old(currentTime)
      ensures lastSavedIndex == old(lastSavedIndex) && backup == old(backup) && savedComments == old(savedComments)
    {
      if time !in comments {
        return Some(KeyError);
      }
      comments := comments[time := newText];
      dataModified := true;
      raised := None;
    }

    /** `delete_comment`: the time is removed from the dictionary; a missing time raises KeyError. */
    method DeleteComment(time: real) returns (raised: Option<Exception>)
      requires Valid()
      modifies this
      ensures Valid()
      ensures time !in old(comments) ==> raised == Some(KeyError) && comments == old(comments) && dataModified == old(dataModified)
      ensures time in old(comments) ==> raised == None && comments == old(comments) - {time} && dataModified
      ensures time !in comments
      ensures times == old(times) && volts == old(volts) && buffer == old(buffer) && rendered == old(rendered)
      ensures currentTime == old(currentTime)
      ensures lastSavedIndex == old(lastSavedIndex) && backup == old(backup) && savedComments == old(savedComments)
    {
      if time !in comments {
        return Some(KeyError);
      }
      comments := comments - {time};
      dataModified := true;
      raised := None;
    }
  }
}
