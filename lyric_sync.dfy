/** The lyric timing store of the `useLyricSync` hook: a sequence of lyric
    lines with start and end times in seconds, how lyric text becomes timed
    lines (an even split of the audio, or a distribution over detected beats),
    retiming one line by id, and the queries "which line is sung at time t" and
    "which lines come next". */
module LyricSync {
  import opened Wrappers
  import opened Numbers
  import opened Strings

  datatype LyricLine = LyricLine(id: string, text: string, startTime: real, endTime: real)

  /** One call `onUpdateLyric(id, startTime, endTime)`, which the components
      route to `updateLyricTiming`. */
  datatype TimingUpdate = TimingUpdate(id: string, startTime: real, endTime: real)

  /** The id given to the line at `index`: `line-0`, `line-1`, ... */
  function LineId(index: nat): string {
    "line-" + NatToString(index)
  }

  lemma LineIdInjective(i: nat, j: nat)
    requires LineId(i) == LineId(j)
    ensures i == j
  {
    assert LineId(i)[5..] == NatToString(i);
    assert LineId(j)[5..] == NatToString(j);
    NatToStringInjective(i, j);
  }

  ghost predicate UniqueIds(lyrics: seq<LyricLine>) {
    forall i, j :: 0 <= i < j < |lyrics| ==> lyrics[i].id != lyrics[j].id
  }

  lemma LineIdsDistinct(n: nat)
    ensures forall i, j :: 0 <= i < j < n ==> LineId(i) != LineId(j)
  {
    forall i, j | 0 <= i < j < n ensures LineId(i) != LineId(j) {
      if LineId(i) == LineId(j) {
        LineIdInjective(i, j);
      }
    }
  }

  // ---------------------------------------------------------------------------
  // parseLyrics: an even split of the audio duration

  /** Line `i` of `n` in an even split of `duration` spans
      `[i * duration / n, (i + 1) * duration / n]`. */
  function EvenSplit(lines: seq<string>, duration: real): (r: seq<LyricLine>)
    ensures |r| == |lines|
    ensures forall i :: 0 <= i < |r| ==> r[i].id == LineId(i) && r[i].text == lines[i]
    ensures forall i :: 0 <= i < |r| ==>
              r[i].startTime == i as real * (duration / |r| as real) &&
              r[i].endTime == (i + 1) as real * (duration / |r| as real)
  {
    var n := |lines|;
    if n == 0 then []
    else
      var average := duration / n as real;
      seq(n, i requires 0 <= i < n =>
        LyricLine(LineId(i), lines[i], i as real * average, (i + 1) as real * average))
  }

  /** Parsed lines have distinct ids. */
  lemma EvenSplitUniqueIds(lines: seq<string>, duration: real)
    ensures UniqueIds(EvenSplit(lines, duration))
  {
    LineIdsDistinct(|lines|);
  }

  /** The lines `parseLyrics` produces: every non-blank line of the text,
      trimmed and in order, evenly timed over the audio. */
  function EvenlyTimed(lyricsText: string, audioDuration: real): (r: seq<LyricLine>)
    ensures |r| == |NonBlankLines(lyricsText)|
    ensures forall i :: 0 <= i < |r| ==> r[i].id == LineId(i) && r[i].text == NonBlankLines(lyricsText)[i]
  {
    EvenSplit(NonBlankLines(lyricsText), audioDuration)
  }

  /** The evenly timed lines cover the audio: the first starts at 0 and the
      last ends at `duration`. */
  lemma EvenSplitCovers(lines: seq<string>, duration: real)
    ensures var r := EvenSplit(lines, duration);
            r != [] ==> r[0].startTime == 0.0 && r[|r| - 1].endTime == duration
  {
    var r := EvenSplit(lines, duration);
    var n := |r|;
    if n > 0 {
      var average := duration / n as real;
      assert r[n - 1].endTime == n as real * average;
    }
  }

  /** Each evenly timed line ends where the next one starts. */
  lemma EvenSplitAdjacent(lines: seq<string>, duration: real)
    ensures var r := EvenSplit(lines, duration);
            forall i :: 0 <= i < |r| - 1 ==> r[i].endTime == r[i + 1].startTime
  {
  }

  /** Each evenly timed line lasts `duration / n`. */
  lemma EvenSplitLengths(lines: seq<string>, duration: real)
    ensures var r := EvenSplit(lines, duration);
            forall i :: 0 <= i < |r| ==> r[i].endTime - r[i].startTime == duration / |r| as real
  {
    var r := EvenSplit(lines, duration);
    var n := |r|;
    if n > 0 {
      forall i | 0 <= i < n ensures r[i].endTime - r[i].startTime == duration / n as real {
        NextMultiple(i, duration / n as real);
      }
    }
  }

  lemma NextMultiple(i: nat, x: real)
    ensures (i + 1) as real * x - i as real * x == x
  {
  }

  // ---------------------------------------------------------------------------
  // autoSyncWithBeats: lines distributed over the detected beats

  /** `Math.max(1, Math.floor(beats.length / lines.length))` */
  function BeatsPerLine(lineCount: nat, beatCount: nat): (r: nat)
    requires lineCount > 0
    ensures r >= 1
    ensures beatCount >= lineCount ==> r == beatCount / lineCount
  {
    MaxInt(1, beatCount / lineCount)
  }

  function StartBeatIndex(index: nat, lineCount: nat, beatCount: nat): nat
    requires lineCount > 0
  {
    index * BeatsPerLine(lineCount, beatCount)
  }

  function EndBeatIndex(index: nat, lineCount: nat, beatCount: nat): int
    requires lineCount > 0
  {
    MinInt(StartBeatIndex(index, lineCount, beatCount) + BeatsPerLine(lineCount, beatCount),
           beatCount - 1)
  }

  /** Where the beat indices of line `index` fall: the end index never passes
      the last beat, and when there are at least as many beats as lines both
      indices lie in the beat list, in order, and a line ends no later than the
      next one starts. */
  lemma BeatIndexBounds(index: nat, lineCount: nat, beatCount: nat)
    requires index < lineCount && beatCount > 0
    ensures EndBeatIndex(index, lineCount, beatCount) <= beatCount - 1
    ensures beatCount >= lineCount ==>
              StartBeatIndex(index, lineCount, beatCount) < beatCount &&
              EndBeatIndex(index, lineCount, beatCount) >= StartBeatIndex(index, lineCount, beatCount) &&
              EndBeatIndex(index, lineCount, beatCount) <= StartBeatIndex(index + 1, lineCount, beatCount)
  {
    if beatCount >= lineCount {
      var b := BeatsPerLine(lineCount, beatCount);
      assert b == beatCount / lineCount;
      MulLeInt(index + 1, lineCount, b);
      assert lineCount * b <= beatCount;
      assert (index + 1) * b == index * b + b;
      assert StartBeatIndex(index + 1, lineCount, beatCount) == (index + 1) * b;
    }
  }

  /** The start time `autoSyncWithBeats` gives line `index` of `n`: the beat at
      its start index, or `index * 3` when that beat is missing or zero. */
  function BeatStart(beats: seq<real>, index: nat, n: nat): real
    requires n > 0
  {
    OrElse(At(beats, StartBeatIndex(index, n, |beats|)), index as real * 3.0)
  }

  /** The end time: the beat at its end index, or `(index + 1) * 3`. */
  function BeatEnd(beats: seq<real>, index: nat, n: nat): real
    requires n > 0
  {
    OrElse(At(beats, EndBeatIndex(index, n, |beats|)), (index + 1) as real * 3.0)
  }

  /** Lines timed by `BeatStart` and `BeatEnd`. */
  function BeatSplit(lines: seq<string>, beats: seq<real>): (r: seq<LyricLine>)
    requires lines != []
    ensures |r| == |lines|
    ensures forall i :: 0 <= i < |r| ==>
              r[i] == LyricLine(LineId(i), lines[i], BeatStart(beats, i, |lines|), BeatEnd(beats, i, |lines|))
  {
    var n := |lines|;
    seq(n, i requires 0 <= i < n =>
      LyricLine(LineId(i), lines[i], BeatStart(beats, i, n), BeatEnd(beats, i, n)))
  }

  /** Beat-timed lines have distinct ids. */
  lemma BeatSplitUniqueIds(lines: seq<string>, beats: seq<real>)
    requires lines != []
    ensures UniqueIds(BeatSplit(lines, beats))
  {
    LineIdsDistinct(|lines|);
  }

  /** The lines `autoSyncWithBeats` produces: every non-blank line, trimmed and
      in order, distributed over the beats; nothing without lines or beats. */
  function BeatTimed(lyricsText: string, beats: seq<real>): (r: seq<LyricLine>)
    ensures r == [] <==> NonBlankLines(lyricsText) == [] || beats == []
    ensures r != [] ==> |r| == |NonBlankLines(lyricsText)|
    ensures forall i :: 0 <= i < |r| ==> r[i].id == LineId(i) && r[i].text == NonBlankLines(lyricsText)[i]
  {
    var lines := NonBlankLines(lyricsText);
    if lines == [] || beats == [] then [] else BeatSplit(lines, beats)
  }

  /** A beat index that is out of range, or a beat that is zero, falls back to
      the three-second grid; a non-zero beat in range is used as it is. */
  lemma BeatFallback(beats: seq<real>, index: nat, n: nat)
    requires n > 0
    ensures var k := StartBeatIndex(index, n, |beats|);
            BeatStart(beats, index, n) ==
              if k < |beats| && beats[k] != 0.0 then beats[k] else index as real * 3.0
    ensures var k := EndBeatIndex(index, n, |beats|);
            BeatEnd(beats, index, n) ==
              if 0 <= k < |beats| && beats[k] != 0.0 then beats[k] else (index + 1) as real * 3.0
  {
  }

  ghost predicate StrictlyIncreasing(s: seq<real>) {
    forall j, k :: 0 <= j < k < |s| ==> s[j] < s[k]
  }

  /** Beats as beat detection delivers them: positive and increasing. */
  ghost predicate DetectedBeats(beats: seq<real>) {
    StrictlyIncreasing(beats) && forall j :: 0 <= j < |beats| ==> beats[j] > 0.0
  }

  /** With at least as many detected beats as lines, line `i` starts and ends
      on a beat, and does not end before it starts. */
  lemma BeatLineOnBeats(beats: seq<real>, i: nat, n: nat)
    requires i < n <= |beats| && DetectedBeats(beats)
    ensures StartBeatIndex(i, n, |beats|) < |beats| && 0 <= EndBeatIndex(i, n, |beats|) < |beats|
    ensures BeatStart(beats, i, n) == beats[StartBeatIndex(i, n, |beats|)]
    ensures BeatEnd(beats, i, n) == beats[EndBeatIndex(i, n, |beats|)]
    ensures BeatStart(beats, i, n) <= BeatEnd(beats, i, n)
  {
    BeatIndexBounds(i, n, |beats|);
  }

  /** With at least as many detected beats as lines, every line starts and ends
      on a beat and does not end before it starts. */
  lemma BeatSplitOnBeats(lines: seq<string>, beats: seq<real>)
    requires lines != [] && |beats| >= |lines| && DetectedBeats(beats)
    ensures var r := BeatSplit(lines, beats);
            forall i :: 0 <= i < |r| ==>
              StartBeatIndex(i, |lines|, |beats|) < |beats| &&
              0 <= EndBeatIndex(i, |lines|, |beats|) < |beats| &&
              r[i].startTime == beats[StartBeatIndex(i, |lines|, |beats|)] &&
              r[i].endTime == beats[EndBeatIndex(i, |lines|, |beats|)] &&
              r[i].startTime <= r[i].endTime
  {
    var r := BeatSplit(lines, beats);
    forall i | 0 <= i < |r|
      ensures StartBeatIndex(i, |lines|, |beats|) < |beats|
      ensures 0 <= EndBeatIndex(i, |lines|, |beats|) < |beats|
      ensures r[i].startTime == beats[StartBeatIndex(i, |lines|, |beats|)]
      ensures r[i].endTime == beats[EndBeatIndex(i, |lines|, |beats|)]
      ensures r[i].startTime <= r[i].endTime
    {
      BeatLineOnBeats(beats, i, |lines|);
    }
  }

  /** With at least as many detected beats as lines, the lines do not overlap:
      each ends no later than the next one starts. */
  lemma BeatSplitOrdered(lines: seq<string>, beats: seq<real>)
    requires lines != [] && |beats| >= |lines| && DetectedBeats(beats)
    ensures var r := BeatSplit(lines, beats);
            forall i :: 0 <= i < |r| - 1 ==> r[i].endTime <= r[i + 1].startTime
  {
    var r := BeatSplit(lines, beats);
    var n := |lines|;
    forall i | 0 <= i < n - 1 ensures r[i].endTime <= r[i + 1].startTime {
      BeatLineOnBeats(beats, i, n);
      BeatLineOnBeats(beats, i + 1, n);
      BeatIndexBounds(i, n, |beats|);
    }
  }

  // ---------------------------------------------------------------------------
  // updateLyricTiming

  /** `lyrics.map(l => l.id === id ? {...l, startTime, endTime} : l)` */
  function Retimed(lyrics: seq<LyricLine>, id: string, startTime: real, endTime: real): (r: seq<LyricLine>)
    ensures |r| == |lyrics|
    ensures forall k :: 0 <= k < |r| ==> r[k].id == lyrics[k].id && r[k].text == lyrics[k].text
    ensures forall k :: 0 <= k < |r| && lyrics[k].id == id ==>
              r[k].startTime == startTime && r[k].endTime == endTime
    ensures forall k :: 0 <= k < |r| && lyrics[k].id != id ==> r[k] == lyrics[k]
  {
    seq(|lyrics|, k requires 0 <= k < |lyrics| =>
      if lyrics[k].id == id then lyrics[k].(startTime := startTime, endTime := endTime) else lyrics[k])
  }

  /** The later of two retimings of the same id wins. */
  lemma RetimedOverwrites(lyrics: seq<LyricLine>, id: string, s1: real, e1: real, s2: real, e2: real)
    ensures Retimed(Retimed(lyrics, id, s1, e1), id, s2, e2) == Retimed(lyrics, id, s2, e2)
  {
  }

  /** Retimings of different ids commute. */
  lemma RetimedCommute(lyrics: seq<LyricLine>, a: string, sa: real, ea: real, b: string, sb: real, eb: real)
    requires a != b
    ensures Retimed(Retimed(lyrics, a, sa, ea), b, sb, eb) == Retimed(Retimed(lyrics, b, sb, eb), a, sa, ea)
  {
  }

  /** A sequence of `onUpdateLyric` calls, applied to the store one after another. */
  function ApplyUpdates(lyrics: seq<LyricLine>, updates: seq<TimingUpdate>): (r: seq<LyricLine>)
    ensures |r| == |lyrics|
    ensures forall k :: 0 <= k < |r| ==> r[k].id == lyrics[k].id && r[k].text == lyrics[k].text
    decreases |updates|
  {
    if updates == [] then lyrics
    else
      var u := updates[0];
      ApplyUpdates(Retimed(lyrics, u.id, u.startTime, u.endTime), updates[1..])
  }

  // ---------------------------------------------------------------------------
  // getCurrentLyric

  /** The closed interval `[startTime, endTime]` of `line` contains `t`. */
  predicate IsActive(line: LyricLine, t: real) {
    line.startTime <= t <= line.endTime
  }

  /** The position of the first line active at `t`, or -1. */
  function FirstActiveIndex(lyrics: seq<LyricLine>, t: real): (k: int)
    ensures -1 <= k < |lyrics|
    ensures k >= 0 ==> IsActive(lyrics[k], t)
    ensures forall j :: 0 <= j < |lyrics| && (k == -1 || j < k) ==> !IsActive(lyrics[j], t)
  {
    if lyrics == [] then -1
    else if IsActive(lyrics[0], t) then 0
    else
      var k := FirstActiveIndex(lyrics[1..], t);
      if k == -1 then -1 else k + 1
  }

  /** `lyrics.find(l => t >= l.startTime && t <= l.endTime)` */
  function FindActive(lyrics: seq<LyricLine>, t: real): (r: Option<LyricLine>)
    ensures r.Some? ==> r.value in lyrics && IsActive(r.value, t)
    ensures r.Some? ==> r.value == lyrics[FirstActiveIndex(lyrics, t)]
    ensures r.None? <==> forall j :: 0 <= j < |lyrics| ==> !IsActive(lyrics[j], t)
  {
    var k := FirstActiveIndex(lyrics, t);
    if k < 0 then None else Some(lyrics[k])
  }

  /** `lyrics.findIndex(l => l.id === id)` */
  function IndexOfId(lyrics: seq<LyricLine>, id: string): (k: int)
    ensures -1 <= k < |lyrics|
    ensures k >= 0 ==> lyrics[k].id == id
    ensures forall j :: 0 <= j < |lyrics| && (k == -1 || j < k) ==> lyrics[j].id != id
  {
    if lyrics == [] then -1
    else if lyrics[0].id == id then 0
    else
      var k := IndexOfId(lyrics[1..], id);
      if k == -1 then -1 else k + 1
  }

  /** `lyrics.find(l => l.id === id)` */
  function FindById(lyrics: seq<LyricLine>, id: string): (r: Option<LyricLine>)
    ensures r.Some? <==> exists j :: 0 <= j < |lyrics| && lyrics[j].id == id
    ensures r.Some? ==> r.value == lyrics[IndexOfId(lyrics, id)]
  {
    var k := IndexOfId(lyrics, id);
    if k < 0 then None else Some(lyrics[k])
  }

  // ---------------------------------------------------------------------------
  // getUpcomingLyrics

  /** `lyrics.filter(l => l.startTime > t)` */
  function StartingAfter(lyrics: seq<LyricLine>, t: real): (r: seq<LyricLine>)
    ensures |r| <= |lyrics|
    ensures forall k :: 0 <= k < |r| ==> r[k] in lyrics && r[k].startTime > t
    ensures forall j :: 0 <= j < |lyrics| && lyrics[j].startTime > t ==> lyrics[j] in r
  {
    if lyrics == [] then []
    else
      var rest := StartingAfter(lyrics[1..], t);
      assert forall j :: 1 <= j < |lyrics| ==> lyrics[j] == lyrics[1..][j - 1];
      (if lyrics[0].startTime > t then [lyrics[0]] else []) + rest
  }

  /** The filter keeps the order of the lines: it distributes over concatenation. */
  lemma {:induction false} StartingAfterAppend(a: seq<LyricLine>, b: seq<LyricLine>, t: real)
    ensures StartingAfter(a + b, t) == StartingAfter(a, t) + StartingAfter(b, t)
  {
    if a == [] {
      assert a + b == b;
    } else {
      assert (a + b)[0] == a[0];
      assert (a + b)[1..] == a[1..] + b;
      StartingAfterAppend(a[1..], b, t);
      var x: seq<LyricLine> := if a[0].startTime > t then [a[0]] else [];
      assert x + (StartingAfter(a[1..], t) + StartingAfter(b, t))
          == (x + StartingAfter(a[1..], t)) + StartingAfter(b, t);
    }
  }

  /** The default `count` of `getUpcomingLyrics`. */
  const DefaultUpcomingCount: int := 3

  /** Called without a count, the hook lists at most three lines: the first
      three (or fewer) that start after `t`, in order. */
  lemma UpcomingByDefault(lyrics: seq<LyricLine>, t: real)
    ensures var r := Upcoming(lyrics, t, DefaultUpcomingCount);
            && |r| == MinInt(3, |StartingAfter(lyrics, t)|)
            && r == StartingAfter(lyrics, t)[..|r|]
  {
  }

  /** The end index `arr.slice(0, end)` stops at, for an array of length `len`
      (a negative `end` counts back from the end). */
  function SliceEnd(len: nat, end: int): (r: nat)
    ensures r <= len
    ensures end >= 0 ==> r == MinInt(end, len)
  {
    if end >= 0 then MinInt(end, len) else MaxInt(0, len + end)
  }

  /** `lyrics.filter(l => l.startTime > t).slice(0, count)`: the first `count`
      lines that start after `t`, in order. */
  function Upcoming(lyrics: seq<LyricLine>, t: real, count: int): (r: seq<LyricLine>)
    ensures count >= 0 ==> |r| == MinInt(count, |StartingAfter(lyrics, t)|)
    ensures |r| <= |StartingAfter(lyrics, t)| && r == StartingAfter(lyrics, t)[..|r|]
    ensures forall k :: 0 <= k < |r| ==> r[k] in lyrics && r[k].startTime > t
  {
    var after := StartingAfter(lyrics, t);
    after[..SliceEnd(|after|, count)]
  }

  // ---------------------------------------------------------------------------
  // The hook's state

  class LyricStore {
    var lyrics: seq<LyricLine>
    var currentLyricIndex: int
    var isAutoSyncEnabled: bool

    constructor ()
      ensures lyrics == [] && currentLyricIndex == -1 && isAutoSyncEnabled
    {
      lyrics := [];
      currentLyricIndex := -1;
      isAutoSyncEnabled := true;
    }

    /** `parseLyrics`: store and return the evenly timed lines; text without a
        non-blank line returns `[]` and leaves the store as it was. */
    method ParseLyrics(lyricsText: string, audioDuration: real) returns (parsed: seq<LyricLine>)
      modifies this`lyrics
      ensures parsed == EvenlyTimed(lyricsText, audioDuration)
      ensures parsed == [] <==> NonBlankLines(lyricsText) == []
      ensures lyrics == if parsed == [] then old(lyrics) else parsed
    {
      parsed := EvenlyTimed(lyricsText, audioDuration);
      if parsed != [] {
        lyrics := parsed;
      }
    }

    /** `autoSyncWithBeats`: store and return the beat-timed lines; no lines or
        no beats returns `[]` and leaves the store as it was. */
    method AutoSyncWithBeats(lyricsText: string, beats: seq<real>) returns (synced: seq<LyricLine>)
      modifies this`lyrics
      ensures synced == BeatTimed(lyricsText, beats)
      ensures synced == [] <==> NonBlankLines(lyricsText) == [] || beats == []
      ensures lyrics == if synced == [] then old(lyrics) else synced
    {
      synced := BeatTimed(lyricsText, beats);
      if synced != [] {
        lyrics := synced;
      }
    }

    /** `updateLyricTiming` */
    method UpdateLyricTiming(id: string, startTime: real, endTime: real)
      modifies this`lyrics
      ensures lyrics == Retimed(old(lyrics), id, startTime, endTime)
    {
      lyrics := Retimed(lyrics, id, startTime, endTime);
    }

    /** `getCurrentLyric`: the first line active at `currentTime`, recording in
        `currentLyricIndex` the first position holding that line's id, or -1. */
    method GetCurrentLyric(currentTime: real) returns (current: Option<LyricLine>)
      modifies this`currentLyricIndex
      ensures current == FindActive(lyrics, currentTime)
      ensures currentLyricIndex == if current.Some? then IndexOfId(lyrics, current.value.id) else -1
      ensures currentLyricIndex <= FirstActiveIndex(lyrics, currentTime)
      ensures UniqueIds(lyrics) ==> currentLyricIndex == FirstActiveIndex(lyrics, currentTime)
    {
      current := FindActive(lyrics, currentTime);
      currentLyricIndex := if current.Some? then IndexOfId(lyrics, current.value.id) else -1;
    }

    /** `getUpcomingLyrics` */
    function UpcomingLyrics(currentTime: real, count: int): (r: seq<LyricLine>)
      reads this
      ensures r == Upcoming(lyrics, currentTime, count)
    {
      Upcoming(lyrics, currentTime, count)
    }

    method SetAutoSyncEnabled(enabled: bool)
      modifies this`isAutoSyncEnabled
      ensures isAutoSyncEnabled == enabled
    {
      isAutoSyncEnabled := enabled;
    }
  }
}
