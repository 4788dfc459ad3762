/** The timeline's editing rules: cursor position to time, the clamps applied
    while a line or one of its edges is dragged, and the drag state. */
module LyricTimeline {
  import opened Wrappers
  import opened Numbers
  import opened LyricSync

  /** The part of a line being dragged: its start handle, its end handle or
      the whole line. */
  datatype DragType = Start | End | Move

  /** The timeline element's bounding box, horizontally. */
  datatype Rect = Rect(left: real, width: real)

  /** The shortest a line can be dragged to. */
  const MinLineLength: real := 0.1

  /** `getTimeFromPosition`: the cursor's fraction of the timeline width,
      scaled to the duration and clamped to `[0, duration]`; 0 when the
      timeline is not mounted. */
  function TimeFromPosition(clientX: real, timeline: Option<Rect>, duration: real): (t: real)
    requires timeline.Some? ==> timeline.value.width > 0.0
    ensures 0.0 <= t
    ensures duration >= 0.0 ==> t <= duration
    ensures timeline.Some? && duration >= 0.0 ==>
              var position := Position(clientX, timeline.value);
              0.0 <= position <= 1.0 ==> t == position * duration
  {
    match timeline
    case None => 0.0
    case Some(rect) => ClampedScale(Position(clientX, rect), duration)
  }

  /** The cursor's offset into the timeline, as a fraction of its width. */
  function Position(clientX: real, rect: Rect): real
    requires rect.width > 0.0
  {
    (clientX - rect.left) / rect.width
  }

  /** `Math.max(0, Math.min(duration, position * duration))` */
  function ClampedScale(position: real, duration: real): (t: real)
    ensures 0.0 <= t
    ensures duration >= 0.0 ==> t <= duration
    ensures 0.0 <= position <= 1.0 && duration >= 0.0 ==> t == position * duration
  {
    ScaleWithin(position, duration);
    Clamp(position * duration, duration)
  }

  /** `Math.max(0, Math.min(duration, x))` */
  function Clamp(x: real, duration: real): (t: real)
    ensures 0.0 <= t
    ensures duration >= 0.0 ==> t <= duration
    ensures 0.0 <= x <= duration ==> t == x
  {
    Max(0.0, Min(duration, x))
  }

  lemma ScaleWithin(p: real, d: real)
    ensures 0.0 <= p <= 1.0 && d >= 0.0 ==> 0.0 <= p * d <= d
  {
    if 0.0 <= p <= 1.0 && d > 0.0 {
      MulMonotone(p, 1.0, d);
      MulMonotone(0.0, p, d);
    }
  }

  /** The new times of `line` when the cursor is at `time`: a start drag
      moves only the start, kept at least 0.1 s before the end and not below
      0; an end drag moves only the end, kept at least 0.1 s after the start
      and not past the duration unless that minimum forces it; a move keeps
      the length and fits the start into `[0, duration - length]`. */
  function DraggedTimes(line: LyricLine, dragType: DragType, time: real, duration: real): (r: TimingUpdate)
    ensures r.id == line.id
    ensures dragType == Start ==>
              && r.endTime == line.endTime
              && r.startTime >= 0.0
              && (line.endTime >= MinLineLength ==> r.startTime <= r.endTime - MinLineLength)
              && (0.0 <= time <= line.endTime - MinLineLength ==> r.startTime == time)
    ensures dragType == End ==>
              && r.startTime == line.startTime
              && r.endTime >= r.startTime + MinLineLength
              && (line.startTime + MinLineLength <= duration ==> r.endTime <= duration)
              && (line.startTime + MinLineLength <= time <= duration ==> r.endTime == time)
    ensures dragType == Move ==>
              && r.endTime - r.startTime == line.endTime - line.startTime
              && r.startTime >= 0.0
              && (line.endTime - line.startTime <= duration ==> r.endTime <= duration)
              && (0.0 <= time <= duration - (line.endTime - line.startTime) ==> r.startTime == time)
  {
    match dragType
    case Start => TimingUpdate(line.id, Max(0.0, Min(time, line.endTime - MinLineLength)), line.endTime)
    case End => TimingUpdate(line.id, line.startTime, Max(line.startTime + MinLineLength, Min(time, duration)))
    case Move =>
      var lyricDuration := line.endTime - line.startTime;
      var newStartTime := Max(0.0, Min(time, duration - lyricDuration));
      TimingUpdate(line.id, newStartTime, newStartTime + lyricDuration)
  }

  /** JavaScript truthiness of an optional id: `null` and `""` are falsy. */
  predicate IsSet(id: Option<string>) {
    id.Some? && id.value != ""
  }

  /** `handleMouseMove` once the cursor time is known: no update without a
      drag in progress or when the dragged id names no line; otherwise one
      update, for the dragged id, with the clamped times of the first line
      holding it. */
  function MoveUpdate(draggedLyric: Option<string>, dragType: Option<DragType>, time: real,
                      duration: real, lyrics: seq<LyricLine>): (r: Option<TimingUpdate>)
    ensures r.Some? <==> IsSet(draggedLyric) && dragType.Some? && FindById(lyrics, draggedLyric.value).Some?
    ensures r.Some? ==> r.value.id == draggedLyric.value
    ensures r.Some? ==> r.value == DraggedTimes(lyrics[IndexOfId(lyrics, draggedLyric.value)], dragType.value, time, duration)
  {
    if !IsSet(draggedLyric) || dragType.None? then None
    else
      match FindById(lyrics, draggedLyric.value)
      case None => None
      case Some(line) => Some(DraggedTimes(line, dragType.value, time, duration))
  }

  /** The drag and selection state of the timeline. */
  class TimelineState {
    var draggedLyric: Option<string>
    var dragType: Option<DragType>
    var selectedLyric: Option<string>

    constructor ()
      ensures draggedLyric.None? && dragType.None? && selectedLyric.None?
    {
      draggedLyric := None;
      dragType := None;
      selectedLyric := None;
    }

    /** `handleLyricMouseDown`: start dragging `lyricId` and select it. */
    method MouseDown(lyricId: string, kind: DragType)
      modifies this
      ensures draggedLyric == Some(lyricId) && dragType == Some(kind) && selectedLyric == Some(lyricId)
    {
      draggedLyric := Some(lyricId);
      dragType := Some(kind);
      selectedLyric := Some(lyricId);
    }

    /** `handleMouseUp`: end the drag; the selection stays. */
    method MouseUp()
      modifies this`draggedLyric, this`dragType
      ensures draggedLyric.None? && dragType.None?
    {
      draggedLyric := None;
      dragType := None;
    }

    /** A click on a line selects it. */
    method ClickLyric(lyricId: string)
      modifies this`selectedLyric
      ensures selectedLyric == Some(lyricId)
    {
      selectedLyric := Some(lyricId);
    }

    /** `handleTimelineClick`: seek to the clicked time unless a drag is in progress. */
    method TimelineClick(clientX: real, timeline: Option<Rect>, duration: real) returns (seek: Option<real>)
      requires timeline.Some? ==> timeline.value.width > 0.0
      ensures seek.None? <==> IsSet(draggedLyric)
      ensures seek.Some? ==> seek.value == TimeFromPosition(clientX, timeline, duration)
    {
      if IsSet(draggedLyric) {
        return None;
      }
      var time := TimeFromPosition(clientX, timeline, duration);
      seek := Some(time);
    }

    /** `handleMouseMove`: the update it issues, if any. */
    method MouseMove(clientX: real, timeline: Option<Rect>, duration: real, lyrics: seq<LyricLine>)
      returns (update: Option<TimingUpdate>)
      requires timeline.Some? ==> timeline.value.width > 0.0
      ensures update == MoveUpdate(draggedLyric, dragType, TimeFromPosition(clientX, timeline, duration), duration, lyrics)
    {
      if !IsSet(draggedLyric) || dragType.None? {
        return None;
      }
      var time := TimeFromPosition(clientX, timeline, duration);
      var lyric := FindById(lyrics, draggedLyric.value);
      if lyric.None? {
        return None;
      }
      update := Some(DraggedTimes(lyric.value, dragType.value, time, duration));
    }
  }

  /** A drag from mouse-down to mouse-up leaves the line selected and no drag
      in progress, so the next timeline click seeks again. */
  method DragGesture(state: TimelineState, lyricId: string, kind: DragType)
    modifies state
    ensures state.selectedLyric == Some(lyricId) && state.draggedLyric.None? && state.dragType.None?
  {
    state.MouseDown(lyricId, kind);
    state.MouseUp();
  }
}
