/** The frame-by-frame renderer of the exported video: per frame, the
    background gradient, the cover's pulse amplitude, the lyric shown and
    the played part of the waveform bar, and the progress reports. */
module VideoExporter {
  import opened Wrappers
  import opened Numbers
  import opened LyricSync
  import VideoProcessor

  /** `getVideoBitrate`, in bits per second: the kilobit rates of the
      quality table, scaled to bits. */
  function VideoBitrate(q: VideoProcessor.Quality): (bps: nat)
    ensures bps == VideoProcessor.SettingOf(q).bitrateKbps * 1000
  {
    match q
    case Low => 1000000
    case Medium => 2500000
    case High => 5000000
  }

  /** The renderer's fixed frame rate. */
  const Fps: real := 30.0

  /** The gradient's fallback colours. */
  const FirstFallback: string := "#8B5CF6"
  const SecondFallback: string := "#EC4899"

  /** What the renderer reads from the processed audio and the editor. */
  datatype ExportData = ExportData(
    duration: real,
    colours: seq<string>,
    waveform: seq<real>,
    lyrics: seq<LyricLine>)

  /** `Math.ceil(duration * fps)`; not positive for an empty clip. */
  function TotalFrames(duration: real): (n: int)
    ensures n > 0 <==> duration > 0.0
  {
    Ceil(duration * Fps)
  }

  /** The time frame `k` shows. */
  function FrameTime(k: nat): real {
    VideoProcessor.FrameTime(k, Fps)
  }

  /** Every frame the renderer draws shows a moment inside the clip. */
  lemma FrameInClip(duration: real, k: nat)
    requires k < TotalFrames(duration)
    ensures 0.0 <= FrameTime(k) < duration
  {
    VideoProcessor.FrameBeforeEnd(duration, Fps, k);
  }

  // ---------------------------------------------------------------- gradient

  /** `colorIndex`; `None` stands for the `NaN` an empty palette gives. */
  function GradientIndex(t: real, n: nat): (i: Option<int>)
    ensures i.Some? <==> n > 0
    ensures i.Some? && t >= 0.0 ==> 0 <= i.value < n
  {
    if n == 0 then None else Some(Floor(JsRem(t * 0.5, n as real)))
  }

  /** `(colorIndex + 1) % length` with JavaScript's remainder. */
  function NextIndex(i: int, n: nat): int
    requires n > 0
  {
    Floor(JsRem((i + 1) as real, n as real))
  }

  /** `colours[i] || fallback`: the fallback for a missing index and for
      an empty colour string. */
  function ColourOr(colours: seq<string>, i: Option<int>, fallback: string): (c: string)
    ensures i.Some? && 0 <= i.value < |colours| && colours[i.value] != "" ==> c == colours[i.value]
    ensures !(i.Some? && 0 <= i.value < |colours| && colours[i.value] != "") ==> c == fallback
  {
    if i.Some? && 0 <= i.value < |colours| && colours[i.value] != "" then colours[i.value] else fallback
  }

  datatype Gradient = Gradient(from: string, to: string)

  /** The two stops of the background gradient at time `t`. */
  function GradientAt(colours: seq<string>, t: real): (r: Gradient)
    ensures r.from == FirstFallback || r.from in colours
    ensures r.to == SecondFallback || r.to in colours
    ensures colours == [] ==> r == Gradient(FirstFallback, SecondFallback)
  {
    var i := GradientIndex(t, |colours|);
    var j := if i.Some? then Some(NextIndex(i.value, |colours|)) else None;
    Gradient(ColourOr(colours, i, FirstFallback), ColourOr(colours, j, SecondFallback))
  }

  /** Over a palette of non-empty colours the gradient runs from one colour
      to the next one round the palette. */
  lemma {:induction false} GradientCycles(colours: seq<string>, t: real)
    requires t >= 0.0 && |colours| > 0
    requires forall k :: 0 <= k < |colours| ==> colours[k] != ""
    ensures GradientIndex(t, |colours|).Some?
    ensures var i := GradientIndex(t, |colours|).value;
      0 <= i < |colours| &&
      GradientAt(colours, t) == Gradient(colours[i], colours[(i + 1) % |colours|])
  {
    var n := |colours|;
    var i := GradientIndex(t, n).value;
    JsRemOfNats(i + 1, n);
    var m := (i + 1) % n;
    assert Floor(m as real) == m;
    assert NextIndex(i, n) == m;
  }

  /** An empty palette falls back to the two default colours. */
  lemma GradientFallback(t: real)
    ensures GradientAt([], t) == Gradient(FirstFallback, SecondFallback)
  {
  }

  // ---------------------------------------------------------------- amplitude

  /** `waveformIndex`; `None` stands for the non-finite value of a
      zero-length clip. */
  function WaveformIndex(t: real, duration: real, n: nat): (i: Option<int>)
    ensures i.Some? <==> duration != 0.0
  {
    if duration == 0.0 then None else Some(WaveformSlot(t, duration, n))
  }

  /** `Math.floor((t / duration) * n)` for a non-zero duration. */
  function WaveformSlot(t: real, duration: real, n: nat): int
    requires duration != 0.0
  {
    Floor(t / duration * n as real)
  }

  /** `waveformData[waveformIndex] || 0` */
  function AmplitudeAt(waveform: seq<real>, t: real, duration: real): (a: real)
    ensures a == 0.0 || a in waveform
  {
    var i := WaveformIndex(t, duration, |waveform|);
    if i.None? then 0.0 else OrElse(At(waveform, i.value), 0.0)
  }

  /** Inside the clip the amplitude is the sample at the proportional
      position of the waveform. */
  lemma AmplitudeInClip(waveform: seq<real>, t: real, duration: real)
    requires 0.0 <= t < duration && |waveform| > 0
    ensures var i := WaveformSlot(t, duration, |waveform|);
      0 <= i < |waveform| && AmplitudeAt(waveform, t, duration) == waveform[i]
  {
    var n := |waveform| as real;
    var p := t / duration;
    assert 0.0 <= p < 1.0;
    MulStrictMonotone(p, 1.0, n);
  }

  /** Before the start of the clip and from its end on, the amplitude falls
      back to zero. */
  lemma AmplitudeOutsideClip(waveform: seq<real>, t: real, duration: real)
    requires duration > 0.0 && (t < 0.0 || t >= duration)
    ensures AmplitudeAt(waveform, t, duration) == 0.0
  {
    var n := |waveform| as real;
    var p := t / duration;
    if t >= duration {
      assert p >= 1.0;
      MulMonotone(1.0, p, n + 1.0);
      assert p * n >= n;
    } else {
      assert p < 0.0;
    }
  }

  // ---------------------------------------------------------------- lyric

  /** The lyric drawn at `t` is the first one whose closed interval holds
      `t`. */
  lemma DrawnLyricIsFirstActive(lyrics: seq<LyricLine>, t: real, k: nat)
    requires k < |lyrics| && IsActive(lyrics[k], t)
    requires forall j :: 0 <= j < k ==> !IsActive(lyrics[j], t)
    ensures FindActive(lyrics, t) == Some(lyrics[k])
  {
    var f := FirstActiveIndex(lyrics, t);
    assert f != -1;
  }

  // ---------------------------------------------------------------- waveform

  /** `index / length <= currentTime / duration`; a zero-length clip gives
      an infinite progress for `t > 0` and `NaN` for `t == 0`. */
  predicate BarPlayed(index: nat, n: nat, t: real, duration: real)
    requires index < n
  {
    if duration == 0.0 then t > 0.0 else index as real / n as real <= t / duration
  }

  /** The colour of each bar: played or not. */
  function PlayedBars(waveform: seq<real>, t: real, duration: real): seq<bool> {
    seq(|waveform|, i requires 0 <= i < |waveform| => BarPlayed(i, |waveform|, t, duration))
  }

  /** `renderWaveform`: decides, bar by bar, whether it is drawn as played. */
  method RenderWaveform(waveform: seq<real>, t: real, duration: real) returns (played: seq<bool>)
    ensures |played| == |waveform|
    ensures forall i :: 0 <= i < |waveform| ==> played[i] == BarPlayed(i, |waveform|, t, duration)
  {
    var progress := if duration == 0.0 then 0.0 else t / duration;
    played := [];
    var index := 0;
    while index < |waveform|
      invariant 0 <= index <= |waveform|
      invariant |played| == index
      invariant forall i :: 0 <= i < index ==> played[i] == BarPlayed(i, |waveform|, t, duration)
    {
      var barPlayed;
      if duration == 0.0 {
        barPlayed := t > 0.0;
      } else {
        barPlayed := index as real / |waveform| as real <= progress;
      }
      played := played + [barPlayed];
      index := index + 1;
    }
  }

  /** The played bars form a prefix of the waveform. */
  lemma PlayedIsPrefix(i: nat, j: nat, n: nat, t: real, duration: real)
    requires i <= j < n && BarPlayed(j, n, t, duration)
    ensures BarPlayed(i, n, t, duration)
  {
    if duration != 0.0 {
      var r := 1.0 / n as real;
      MulMonotone(i as real, j as real, r);
    }
  }

  /** Once the clip's end is reached, every bar is played. */
  lemma AllPlayedAtEnd(i: nat, n: nat, t: real, duration: real)
    requires i < n && duration > 0.0 && t >= duration
    ensures BarPlayed(i, n, t, duration)
  {
    assert i as real / n as real < 1.0;
    assert t / duration >= 1.0;
  }

  // ---------------------------------------------------------------- frames

  /** What one frame shows. */
  datatype Frame = Frame(
    time: real,
    gradient: Gradient,
    amplitude: real,
    lyric: Option<LyricLine>,
    played: seq<bool>)

  /** Frame `k` of the export. */
  function FrameAt(data: ExportData, k: nat): (r: Frame)
    ensures r.time == FrameTime(k)
    ensures r.amplitude == 0.0 || r.amplitude in data.waveform
    ensures r.lyric.Some? ==> r.lyric.value in data.lyrics && IsActive(r.lyric.value, r.time)
    ensures r.lyric.None? <==> forall j :: 0 <= j < |data.lyrics| ==> !IsActive(data.lyrics[j], r.time)
    ensures |r.played| == |data.waveform|
  {
    var t := FrameTime(k);
    Frame(t, GradientAt(data.colours, t), AmplitudeAt(data.waveform, t, data.duration),
      FindActive(data.lyrics, t), PlayedBars(data.waveform, t, data.duration))
  }

  /** The first `count` frames. */
  function FramesUpTo(data: ExportData, count: nat): seq<Frame> {
    seq(count, k requires 0 <= k => FrameAt(data, k))
  }

  lemma FramesUpToNext(data: ExportData, count: nat)
    ensures FramesUpTo(data, count + 1) == FramesUpTo(data, count) + [FrameAt(data, count)]
  {
  }

  /** The value `onProgress` receives once `k` of `total` frames are drawn. */
  function Progress(k: nat, total: int): real
    requires total > 0
  {
    k as real / total as real * 100.0
  }

  /** The `count` progress reports made after the first `count` frames. */
  function ProgressUpTo(count: nat, total: int): seq<real>
    requires count == 0 || total > 0
  {
    seq(count, i requires 0 <= i < count => Progress(i + 1, total))
  }

  /** Every report made during an export: one per frame. */
  function ProgressReports(total: int): (reports: seq<real>)
    ensures |reports| == MaxInt(total, 0)
  {
    if total <= 0 then [] else ProgressUpTo(total, total)
  }

  /** The progress reports strictly increase, stay within (0, 100] and the
      last one is exactly 100. */
  lemma ProgressReportsRise(total: int, i: nat, j: nat)
    requires i < j < |ProgressReports(total)|
    ensures 0.0 < ProgressReports(total)[i] < ProgressReports(total)[j] <= 100.0
  {
    var r := ProgressReports(total);
    var m := 100.0 / total as real;
    assert r[i] == (i + 1) as real * m;
    assert r[j] == (j + 1) as real * m;
    assert j + 1 <= total;
    MulStrictMonotone((i + 1) as real, (j + 1) as real, m);
    MulMonotone((j + 1) as real, total as real, m);
  }

  lemma ProgressReportsEnd(total: int)
    requires total > 0
    ensures ProgressReports(total)[total - 1] == 100.0
  {
    assert ProgressReports(total)[total - 1] == Progress(total, total);
    var n := total as real;
    assert n / n == 1.0;
  }

  /** The state of `renderVideoFrames` between animation frames: the frame
      counter and what has been drawn and reported so far. */
  class FrameRenderer {
    const data: ExportData
    const totalFrames: int
    var currentFrame: nat
    var frames: seq<Frame>
    var progress: seq<real>
    var finished: bool

    ghost predicate Valid()
      reads this
    {
      totalFrames == TotalFrames(data.duration) &&
      currentFrame <= MaxInt(totalFrames, 0) &&
      frames == FramesUpTo(data, currentFrame) &&
      progress == ProgressUpTo(currentFrame, totalFrames) &&
      (finished ==> currentFrame == MaxInt(totalFrames, 0))
    }

    constructor(data: ExportData)
      ensures Valid()
      ensures this.data == data && currentFrame == 0 && !finished
    {
      this.data := data;
      totalFrames := TotalFrames(data.duration);
      currentFrame := 0;
      frames := [];
      progress := [];
      finished := false;
    }

    /** `renderFrame`: finishes once every frame is drawn; otherwise draws
        the current frame, advances the counter and reports progress. */
    method RenderFrame()
      requires Valid()
      modifies this`currentFrame, this`frames, this`progress, this`finished
      ensures Valid()
      ensures old(currentFrame) >= totalFrames ==>
        finished && currentFrame == old(currentFrame) &&
        frames == old(frames) && progress == old(progress)
      ensures old(currentFrame) < totalFrames ==>
        currentFrame == old(currentFrame) + 1 && finished == old(finished) &&
        frames == old(frames) + [FrameAt(data, old(currentFrame))] &&
        progress == old(progress) + [Progress(currentFrame, totalFrames)]
    {
      if currentFrame >= totalFrames {
        finished := true;
        return;
      }
      var currentTime := FrameTime(currentFrame);
      var gradient := GradientAt(data.colours, currentTime);
      var amplitude := AmplitudeAt(data.waveform, currentTime, data.duration);
      var lyric := FindActive(data.lyrics, currentTime);
      var played := RenderWaveform(data.waveform, currentTime, data.duration);
      assert played == PlayedBars(data.waveform, currentTime, data.duration);
      FramesUpToNext(data, currentFrame);
      frames := frames + [Frame(currentTime, gradient, amplitude, lyric, played)];
      currentFrame := currentFrame + 1;
      progress := progress + [Progress(currentFrame, totalFrames)];
    }

    /** Requests animation frames until the renderer finishes. */
    method Run()
      requires Valid()
      modifies this`currentFrame, this`frames, this`progress, this`finished
      ensures Valid() && finished
      ensures frames == FramesUpTo(data, MaxInt(totalFrames, 0))
      ensures progress == ProgressReports(totalFrames)
    {
      while !finished
        invariant Valid()
        decreases MaxInt(totalFrames, 0) - currentFrame, !finished
      {
        RenderFrame();
      }
      assert currentFrame == MaxInt(totalFrames, 0);
      if totalFrames <= 0 {
        assert progress == [];
      }
    }
  }

  /** `renderVideoFrames`: every frame of the clip, in order, and the
      progress reported after each. */
  method RenderVideoFrames(data: ExportData) returns (frames: seq<Frame>, progress: seq<real>)
    ensures frames == FramesUpTo(data, MaxInt(TotalFrames(data.duration), 0))
    ensures progress == ProgressReports(TotalFrames(data.duration))
  {
    var renderer := new FrameRenderer(data);
    renderer.Run();
    frames, progress := renderer.frames, renderer.progress;
  }

  /** Each drawn frame shows a moment inside the clip at which, over a
      non-empty waveform, the cover pulses with an actual sample. */
  lemma DrawnFramesInClip(data: ExportData, k: nat)
    requires k < TotalFrames(data.duration) && |data.waveform| > 0
    ensures var f := FrameAt(data, k);
      0.0 <= f.time < data.duration &&
      var i := WaveformSlot(f.time, data.duration, |data.waveform|);
      0 <= i < |data.waveform| && f.amplitude == data.waveform[i]
  {
    var f := FrameAt(data, k);
    assert f.time == FrameTime(k);
    assert f.amplitude == AmplitudeAt(data.waveform, FrameTime(k), data.duration);
    FrameInClip(data.duration, k);
    AmplitudeInClip(data.waveform, FrameTime(k), data.duration);
  }
}
