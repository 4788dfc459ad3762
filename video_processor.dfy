/** Export parameters: the format and quality tables, the export-time
    estimate and the frame schedule of the canvas capture. */
module VideoProcessor {
  import opened Numbers

  datatype Format = Vertical | Horizontal

  datatype VideoConfig = VideoConfig(width: nat, height: nat, fps: nat, format: Format)

  /** `VIDEO_CONFIGS[format]` */
  function ConfigOf(format: Format): (c: VideoConfig)
    ensures c.format == format && c.fps == 30
    ensures format == Vertical <==> c.width < c.height
  {
    match format
    case Vertical => VideoConfig(1080, 1920, 30, Vertical)
    case Horizontal => VideoConfig(1920, 1080, 30, Horizontal)
  }

  /** The two formats are the same frame turned on its side. */
  lemma ConfigsTransposed()
    ensures ConfigOf(Vertical).width == ConfigOf(Horizontal).height
    ensures ConfigOf(Vertical).height == ConfigOf(Horizontal).width
    ensures ConfigOf(Vertical).fps == ConfigOf(Horizontal).fps == 30
  {
  }

  datatype Quality = Low | Medium | High

  /** Position of a quality from lowest to highest. */
  function Rank(q: Quality): (r: nat)
    ensures r < 3
  {
    match q
    case Low => 0
    case Medium => 1
    case High => 2
  }

  /** An entry of `QUALITY_SETTINGS`; the bitrate string `"<n>k"` is kept
      as its number of kilobits per second. */
  datatype QualitySetting = QualitySetting(bitrateKbps: nat, crf: nat)

  /** `QUALITY_SETTINGS[quality]` */
  function SettingOf(q: Quality): (r: QualitySetting)
    ensures 1000 <= r.bitrateKbps <= 5000 && 18 <= r.crf <= 28
    ensures q == Low <==> r.bitrateKbps == 1000
    ensures q == High <==> r.crf == 18
  {
    match q
    case Low => QualitySetting(1000, 28)
    case Medium => QualitySetting(2500, 23)
    case High => QualitySetting(5000, 18)
  }

  /** A higher quality spends more bits and compresses less. */
  lemma {:induction false} QualityOrdered(a: Quality, b: Quality)
    ensures Rank(a) < Rank(b) <==> SettingOf(a).bitrateKbps < SettingOf(b).bitrateKbps
    ensures Rank(a) < Rank(b) <==> SettingOf(a).crf > SettingOf(b).crf
  {
    match a
    case Low =>
    case Medium =>
    case High =>
  }

  /** The `qualityMultiplier` table. */
  function Multiplier(q: Quality): (m: real)
    ensures m >= 1.0
  {
    match q
    case Low => 1.0
    case Medium => 1.5
    case High => 2.5
  }

  /** `estimateExportTime(duration, quality)`, in whole seconds. */
  function EstimateExportTime(duration: real, q: Quality): (r: int)
    ensures r >= 5
  {
    var baseTime := Max(duration * 0.5, 5.0);
    MulMonotone(5.0, baseTime, Multiplier(q));
    Ceil(baseTime * Multiplier(q))
  }

  /** A longer clip never has a shorter estimate. */
  lemma EstimateMonotoneInDuration(d1: real, d2: real, q: Quality)
    requires d1 <= d2
    ensures EstimateExportTime(d1, q) <= EstimateExportTime(d2, q)
  {
    var b1, b2 := Max(d1 * 0.5, 5.0), Max(d2 * 0.5, 5.0);
    MulMonotone(b1, b2, Multiplier(q));
    CeilMonotone(b1 * Multiplier(q), b2 * Multiplier(q));
  }

  /** For a fixed clip, a higher quality never has a shorter estimate. */
  lemma EstimateMonotoneInQuality(d: real, a: Quality, b: Quality)
    requires Rank(a) <= Rank(b)
    ensures EstimateExportTime(d, a) <= EstimateExportTime(d, b)
  {
    var base := Max(d * 0.5, 5.0);
    assert Multiplier(a) <= Multiplier(b);
    MulMonotoneLeft(base, Multiplier(a), Multiplier(b));
    CeilMonotone(base * Multiplier(a), base * Multiplier(b));
  }

  lemma MulMonotoneLeft(c: real, a: real, b: real)
    requires c > 0.0 && a <= b
    ensures c * a <= c * b
  {
    MulMonotone(a, b, c);
  }

  /** Up to ten seconds the estimate is the five-second minimum scaled by
      the quality: 5, 8 or 13 seconds. */
  lemma EstimateOfShortClip(d: real, q: Quality)
    requires d <= 10.0
    ensures EstimateExportTime(d, q) == [5, 8, 13][Rank(q)]
  {
    assert Max(d * 0.5, 5.0) == 5.0;
    match q
    case Low =>
    case Medium => assert 5.0 * 1.5 == 7.5;
    case High => assert 5.0 * 2.5 == 12.5;
  }

  /** The demo cap on captured frames. */
  const MaxCapturedFrames: nat := 300

  /** How many frames `captureCanvasFrames` renders: none without a 2D
      context, otherwise `min(ceil(duration * fps), 300)`, and none when
      that is not positive. */
  function CapturedFrameCount(duration: real, fps: real, hasContext: bool): (n: nat)
    ensures n <= MaxCapturedFrames
    ensures n > 0 ==> hasContext && duration * fps > 0.0
  {
    if !hasContext then 0 else MaxInt(0, MinInt(Ceil(duration * fps), MaxCapturedFrames))
  }

  /** The time, in seconds, at which frame `k` is rendered. */
  function FrameTime(k: nat, fps: real): real
    requires fps != 0.0
  {
    k as real / fps
  }

  /** A positive frame count needs a non-zero frame rate. */
  lemma PositiveCountRate(duration: real, fps: real, total: int)
    requires total == MinInt(Ceil(duration * fps), MaxCapturedFrames) && total > 0
    ensures fps != 0.0
  {
  }

  /** `captureCanvasFrames`: each captured frame is identified by the time it
      was rendered at; frame `k` is rendered at `k / fps`. */
  method CaptureCanvasFrames(duration: real, fps: real, hasContext: bool) returns (frames: seq<real>)
    ensures |frames| == CapturedFrameCount(duration, fps, hasContext)
    ensures forall k :: 0 <= k < |frames| ==> fps != 0.0 && frames[k] == FrameTime(k, fps)
  {
    frames := [];
    var totalFrames := MinInt(Ceil(duration * fps), MaxCapturedFrames);
    if !hasContext || totalFrames <= 0 {
      return;
    }
    PositiveCountRate(duration, fps, totalFrames);
    var frame := 0;
    while frame < totalFrames
      invariant 0 <= frame <= totalFrames
      invariant |frames| == frame
      invariant forall k :: 0 <= k < frame ==> frames[k] == FrameTime(k, fps)
    {
      var time := FrameTime(frame, fps);
      frames := frames + [time];
      frame := frame + 1;
    }
  }

  /** At a positive frame rate, each of the first `ceil(duration * fps)`
      frames lies inside the clip, and the frames are one frame interval
      apart. */
  lemma FrameBeforeEnd(duration: real, fps: real, k: nat)
    requires fps > 0.0 && k < Ceil(duration * fps)
    ensures 0.0 <= FrameTime(k, fps) < duration
    ensures FrameTime(k + 1, fps) - FrameTime(k, fps) == 1.0 / fps
  {
    var x := duration * fps;
    assert (k as real) < x;
    var q := FrameTime(k, fps);
    assert q * fps == k as real;
    if q >= duration {
      MulMonotone(duration, q, fps);
      assert false;
    }
  }

  /** Every captured frame lies inside the clip. */
  lemma CapturedFramesInClip(duration: real, fps: real, hasContext: bool, k: nat)
    requires fps > 0.0 && k < CapturedFrameCount(duration, fps, hasContext)
    ensures 0.0 <= FrameTime(k, fps) < duration
    ensures FrameTime(k + 1, fps) - FrameTime(k, fps) == 1.0 / fps
  {
    FrameBeforeEnd(duration, fps, k);
  }
}
