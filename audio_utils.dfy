/** The signal rules of `audioUtils`: the greedy beat picker over the waveform
    envelope, the fixed-block partition that builds the envelope, and the
    colour histogram that picks the dominant colours of the cover image. */
module AudioUtils {
  import opened Wrappers
  import opened Numbers
  import opened Strings

  // ---------------------------------------------------------------------------
  // detectBeats

  /** A point must exceed this amplitude to count as a beat. */
  const BeatThreshold: real := 0.6
  /** Accepted beats are at least this many seconds apart. */
  const MinBeatInterval: real := 0.3

  /** The time of waveform point `i` of `n` over `duration` seconds. */
  function PointTime(i: nat, n: nat, duration: real): real
    requires n > 0
  {
    (i as real / n as real) * duration
  }

  /** Interior point `i` is above the threshold and strictly above both neighbours. */
  predicate IsPeak(waveform: seq<real>, i: nat)
    requires 1 <= i < |waveform| - 1
  {
    waveform[i] > BeatThreshold && waveform[i] > waveform[i - 1] && waveform[i] > waveform[i + 1]
  }

  /** The state of the beat loop: the beats accepted so far and `lastBeat`. */
  datatype BeatScan = BeatScan(beats: seq<real>, lastBeat: real)

  /** One past the last index the loop visits (it visits `1 .. |waveform| - 2`). */
  function LoopEnd(waveform: seq<real>): nat {
    if |waveform| >= 2 then |waveform| - 1 else 1
  }

  /** The loop's treatment of point `i`: a peak far enough from the last
      accepted beat is appended and becomes the last beat; anything else
      changes nothing. */
  function BeatStep(waveform: seq<real>, duration: real, i: nat, s: BeatScan): (r: BeatScan)
    requires 1 <= i < |waveform| - 1
    ensures r == s || (&& IsPeak(waveform, i) && r.lastBeat == PointTime(i, |waveform|, duration)
                       && r.lastBeat - s.lastBeat >= MinBeatInterval && r.beats == s.beats + [r.lastBeat])
    ensures IsPeak(waveform, i) && PointTime(i, |waveform|, duration) - s.lastBeat >= MinBeatInterval ==> r != s
  {
    if IsPeak(waveform, i) then
      var t := PointTime(i, |waveform|, duration);
      if t - s.lastBeat >= MinBeatInterval then BeatScan(s.beats + [t], t) else s
    else s
  }

  /** The loop state once the points `1 .. i - 1` have been visited. */
  function ScanTo(waveform: seq<real>, duration: real, i: nat): BeatScan
    requires 1 <= i <= LoopEnd(waveform)
    decreases i
  {
    if i == 1 then BeatScan([], 0.0)
    else BeatStep(waveform, duration, i - 1, ScanTo(waveform, duration, i - 1))
  }

  /** What `detectBeats` returns. */
  function Beats(waveform: seq<real>, duration: real): (r: seq<real>)
    ensures |waveform| < 3 ==> r == []
  {
    ScanTo(waveform, duration, LoopEnd(waveform)).beats
  }

  method DetectBeats(waveformData: seq<real>, duration: real) returns (beats: seq<real>)
    ensures beats == Beats(waveformData, duration)
  {
    beats := [];
    var lastBeat := 0.0;
    var i := 1;
    while i < |waveformData| - 1
      invariant 1 <= i <= LoopEnd(waveformData)
      invariant BeatScan(beats, lastBeat) == ScanTo(waveformData, duration, i)
    {
      assert ScanTo(waveformData, duration, i + 1) == BeatStep(waveformData, duration, i, BeatScan(beats, lastBeat));
      var current := waveformData[i];
      var prev := waveformData[i - 1];
      var next := waveformData[i + 1];
      if current > BeatThreshold && current > prev && current > next {
        var timePosition := (i as real / |waveformData| as real) * duration;
        if timePosition - lastBeat >= MinBeatInterval {
          beats := beats + [timePosition];
          lastBeat := timePosition;
        }
      }
      i := i + 1;
    }
  }

  /** The last accepted beat, or 0 before any: the initial `lastBeat`. */
  function LastOrZero(beats: seq<real>): real {
    if beats == [] then 0.0 else beats[|beats| - 1]
  }

  /** Consecutive beats are at least `MinBeatInterval` apart, and so is the
      first from time 0. */
  ghost predicate Spaced(beats: seq<real>) {
    (beats != [] ==> beats[0] >= MinBeatInterval) &&
    forall k :: 0 < k < |beats| ==> beats[k] - beats[k - 1] >= MinBeatInterval
  }

  /** `t` is the time of an interior peak of the waveform. */
  ghost predicate IsPeakTime(waveform: seq<real>, duration: real, t: real) {
    exists j :: 1 <= j < |waveform| - 1 && IsPeak(waveform, j) && t == PointTime(j, |waveform|, duration)
  }

  /** What the loop keeps true: `lastBeat` is the last accepted beat (so a
      dropped peak never moves it), the beats are spaced, and each is the time
      of a peak. */
  lemma {:induction false} ScanInvariant(waveform: seq<real>, duration: real, i: nat)
    requires 1 <= i <= LoopEnd(waveform)
    ensures var s := ScanTo(waveform, duration, i);
            && s.lastBeat == LastOrZero(s.beats)
            && Spaced(s.beats)
            && forall k :: 0 <= k < |s.beats| ==> IsPeakTime(waveform, duration, s.beats[k])
    decreases i
  {
    if i > 1 {
      ScanInvariant(waveform, duration, i - 1);
      var s := ScanTo(waveform, duration, i - 1);
      var s' := ScanTo(waveform, duration, i);
      if s' != s {
        var t := PointTime(i - 1, |waveform|, duration);
        assert s'.beats == s.beats + [t] && t - LastOrZero(s.beats) >= MinBeatInterval;
        assert IsPeakTime(waveform, duration, t);
        forall k | 0 <= k < |s'.beats| ensures IsPeakTime(waveform, duration, s'.beats[k]) {
          if k < |s.beats| {
            assert s'.beats[k] == s.beats[k];
          }
        }
      }
    }
  }

  /** Beat detection's output: every beat is the time `(i / n) * duration` of
      an interior peak, the first is at least 0.3 s (since `lastBeat` starts at
      0) and consecutive beats are at least 0.3 s apart. */
  lemma BeatsAreSpacedPeaks(waveform: seq<real>, duration: real)
    ensures var beats := Beats(waveform, duration);
            && Spaced(beats)
            && forall k :: 0 <= k < |beats| ==> IsPeakTime(waveform, duration, beats[k])
  {
    ScanInvariant(waveform, duration, LoopEnd(waveform));
  }

  /** Spaced beats increase strictly, by at least `MinBeatInterval` per step. */
  lemma {:induction false} SpacedIncreasing(beats: seq<real>, j: nat, k: nat)
    requires Spaced(beats) && j < k < |beats|
    ensures beats[k] - beats[j] >= MinBeatInterval * (k - j) as real
    ensures beats[j] < beats[k]
    decreases k - j
  {
    if j + 1 < k {
      SpacedIncreasing(beats, j, k - 1);
    }
  }

  /** The output of beat detection is strictly increasing and positive. */
  lemma BeatsIncreasing(waveform: seq<real>, duration: real)
    ensures var beats := Beats(waveform, duration);
            (forall j, k :: 0 <= j < k < |beats| ==> beats[j] < beats[k]) &&
            (forall k :: 0 <= k < |beats| ==> beats[k] >= MinBeatInterval)
  {
    var beats := Beats(waveform, duration);
    BeatsAreSpacedPeaks(waveform, duration);
    forall j, k | 0 <= j < k < |beats| ensures beats[j] < beats[k] {
      SpacedIncreasing(beats, j, k);
    }
    forall k | 0 <= k < |beats| ensures beats[k] >= MinBeatInterval {
      if k > 0 {
        SpacedIncreasing(beats, 0, k);
      }
    }
  }

  /** The fate of interior point `i`: it is appended exactly when it is a peak
      at least 0.3 s after the last beat accepted before it; otherwise the
      beats so far are unchanged. */
  lemma PeakAcceptance(waveform: seq<real>, duration: real, i: nat)
    requires 1 <= i < |waveform| - 1
    ensures var before := ScanTo(waveform, duration, i).beats;
            var after := ScanTo(waveform, duration, i + 1).beats;
            var t := PointTime(i, |waveform|, duration);
            after == if IsPeak(waveform, i) && t - LastOrZero(before) >= MinBeatInterval
                     then before + [t] else before
  {
    ScanInvariant(waveform, duration, i);
  }

  /** The beats accepted by any point of the loop are a prefix of the output:
      an accepted beat is never withdrawn. */
  lemma {:induction false} ScanPrefix(waveform: seq<real>, duration: real, i: nat)
    requires 1 <= i <= LoopEnd(waveform)
    ensures var before := ScanTo(waveform, duration, i).beats;
            var beats := Beats(waveform, duration);
            |before| <= |beats| && beats[..|before|] == before
    decreases LoopEnd(waveform) - i
  {
    if i < LoopEnd(waveform) {
      ScanPrefix(waveform, duration, i + 1);
      var before := ScanTo(waveform, duration, i).beats;
      var next := ScanTo(waveform, duration, i + 1).beats;
      var beats := Beats(waveform, duration);
      assert |before| <= |next| && next[..|before|] == before;
      assert beats[..|next|] == next;
      assert beats[..|before|] == next[..|before|];
    }
  }

  // ---------------------------------------------------------------------------
  // generateWaveformData: the block partition behind each envelope point

  /** The number of envelope points `generateWaveformData` makes by default. */
  const DefaultWaveformPoints: nat := 1000

  /** The sum of the squares of the samples. */
  function SumSquares(s: seq<real>): (r: real)
    ensures r >= 0.0
  {
    if s == [] then 0.0 else SumSquares(s[..|s| - 1]) + s[|s| - 1] * s[|s| - 1]
  }

  lemma {:induction false} SumSquaresAppend(a: seq<real>, b: seq<real>)
    ensures SumSquares(a + b) == SumSquares(a) + SumSquares(b)
    decreases |b|
  {
    if b != [] {
      var b' := b[..|b| - 1];
      assert (a + b)[..|a + b| - 1] == a + b';
      SumSquaresAppend(a, b');
    } else {
      assert a + b == a;
    }
  }

  lemma MulSucc(a: nat, b: nat)
    ensures (a + 1) * b == a * b + b
  {
  }

  /** Whole blocks of `size` samples fit `points` times into `len` samples
      when `size` is `len / points`. */
  lemma BlocksFit(len: nat, points: nat)
    requires points > 0
    ensures points * (len / points) <= len
  {
  }

  /** The sums of squares of `count` consecutive blocks of `size` samples,
      block `i` starting at sample `i * size`. */
  function Blocks(samples: seq<real>, size: nat, count: nat): (r: seq<real>)
    requires count * size <= |samples|
    ensures |r| == count
  {
    seq(count, i requires 0 <= i < count =>
      MulLeInt(i + 1, count, size);
      MulSucc(i, size);
      SumSquares(samples[i * size .. i * size + size]))
  }

  /** The partition `generateWaveformData` sums over: `points` blocks of
      `|samples| / points` samples each; samples past the last whole block
      belong to no block. */
  function BlockSums(samples: seq<real>, points: nat): (r: seq<real>)
    ensures |r| == points
  {
    if points == 0 then []
    else
      BlocksFit(|samples|, points);
      Blocks(samples, |samples| / points, points)
  }

  /** With the default 1000 points, a clip of fewer than 1000 samples has
      empty blocks: every point sums to 0. */
  lemma ShortClipBlocks(samples: seq<real>)
    requires |samples| < DefaultWaveformPoints
    ensures BlockSums(samples, DefaultWaveformPoints) == seq(DefaultWaveformPoints, _ => 0.0)
  {
    var r := BlockSums(samples, DefaultWaveformPoints);
    assert |samples| / DefaultWaveformPoints == 0;
    forall i | 0 <= i < DefaultWaveformPoints ensures r[i] == 0.0 {
      assert samples[i * 0 .. i * 0 + 0] == [];
    }
  }

  /** The nested loop of `generateWaveformData` before the square root: one sum
      of squares per block, for `points` blocks. */
  method WaveformBlockSums(channelData: seq<real>, points: nat) returns (sums: seq<real>)
    ensures sums == BlockSums(channelData, points)
  {
    sums := [];
    if points == 0 {
      return;
    }
    var blockSize := |channelData| / points;
    BlocksFit(|channelData|, points);
    ghost var blocks := Blocks(channelData, blockSize, points);
    var i := 0;
    while i < points
      invariant 0 <= i <= points
      invariant sums == blocks[..i]
    {
      var start := i * blockSize;
      var end := start + blockSize;
      MulLeInt(i + 1, points, blockSize);
      MulSucc(i, blockSize);
      var sum := BlockSquares(channelData, start, end);
      assert blocks[..i + 1] == sums + [sum];
      sums := sums + [sum];
      i := i + 1;
    }
    assert blocks[..points] == blocks;
  }

  /** The inner loop: the sum of the squares of the samples in `[start, end)`,
      stopping early at the end of the data. */
  method BlockSquares(channelData: seq<real>, start: nat, end: nat) returns (sum: real)
    requires start <= end
    ensures sum == SumSquares(channelData[MinInt(start, |channelData|)..MinInt(end, |channelData|)])
  {
    sum := 0.0;
    var j := start;
    if start >= |channelData| {
      return;
    }
    while j < end && j < |channelData|
      invariant start <= j <= MinInt(end, |channelData|)
      invariant sum == SumSquares(channelData[start..j])
    {
      assert channelData[start..j + 1] == channelData[start..j] + [channelData[j]];
      sum := sum + channelData[j] * channelData[j];
      j := j + 1;
    }
  }

  /** The sum of a sequence of reals. */
  function Sum(s: seq<real>): real {
    if s == [] then 0.0 else Sum(s[..|s| - 1]) + s[|s| - 1]
  }

  /** The blocks tile the samples: together they account for exactly the
      squares of the first `points * (|samples| / points)` samples, each once. */
  lemma BlockSumsTile(samples: seq<real>, points: nat)
    requires points > 0
    ensures points * (|samples| / points) <= |samples|
    ensures Sum(BlockSums(samples, points)) == SumSquares(samples[..points * (|samples| / points)])
  {
    BlocksFit(|samples|, points);
    var size := |samples| / points;
    BlocksTilePrefix(samples, size, points, points);
    assert Blocks(samples, size, points)[..points] == Blocks(samples, size, points);
  }

  lemma {:induction false} BlocksTilePrefix(samples: seq<real>, size: nat, count: nat, k: nat)
    requires count * size <= |samples| && k <= count
    ensures k * size <= |samples|
    ensures Sum(Blocks(samples, size, count)[..k]) == SumSquares(samples[..k * size])
    decreases k
  {
    MulLeInt(k, count, size);
    if k == 0 {
      assert samples[..0 * size] == [];
    } else {
      var lo := (k - 1) * size;
      var hi := k * size;
      MulSucc(k - 1, size);
      BlocksTilePrefix(samples, size, count, k - 1);
      var sums := Blocks(samples, size, count);
      assert sums[..k][..k - 1] == sums[..k - 1];
      assert sums[..k][k - 1] == SumSquares(samples[lo..hi]);
      assert samples[..hi] == samples[..lo] + samples[lo..hi];
      SumSquaresAppend(samples[..lo], samples[lo..hi]);
    }
  }

  // ---------------------------------------------------------------------------
  // extractColorsFromImage

  /** A channel byte of the RGBA image data. */
  type Byte = x: int | 0 <= x < 256

  /** Each channel is floored to a multiple of 32, leaving eight levels. */
  function Quantise(v: Byte): (r: nat)
    ensures r % 32 == 0 && r <= 224
    ensures r <= v < r + 32
  {
    (v / 32) * 32
  }

  /** The map key of a colour: the CSS string `rgb(r,g,b)`. */
  function ColourKey(r: nat, g: nat, b: nat): string {
    "rgb(" + NatToString(r) + "," + NatToString(g) + "," + NatToString(b) + ")"
  }

  /** The key of the pixel whose red byte is at offset `i`; alpha is ignored. */
  function PixelKey(data: seq<Byte>, i: nat): string
    requires i + 2 < |data|
  {
    ColourKey(Quantise(data[i]), Quantise(data[i + 1]), Quantise(data[i + 2]))
  }

  /** The key of every pixel, four bytes per pixel, in image order. */
  function PixelKeys(data: seq<Byte>): (r: seq<string>)
    ensures |r| == |data| / 4
  {
    seq(|data| / 4, k requires 0 <= k < |data| / 4 => PixelKey(data, 4 * k))
  }

  /** The colour map: keys in first-insertion order (a JavaScript `Map`
      iterates in that order) and the count of each key. */
  datatype Histogram = Histogram(order: seq<string>, counts: map<string, nat>)

  /** `colorMap.set(key, (colorMap.get(key) || 0) + 1)`: an existing key keeps its
      place and gains one; a new key goes last with count 1. */
  function Record(h: Histogram, key: string): (r: Histogram)
    ensures key in r.counts && r.counts[key] == (if key in h.counts then h.counts[key] else 0) + 1
    ensures r.counts == h.counts[key := r.counts[key]]
  {
    if key in h.counts then Histogram(h.order, h.counts[key := h.counts[key] + 1])
    else Histogram(h.order + [key], h.counts[key := 1])
  }

  /** The colour map after recording `keys` in turn into an empty map. */
  function Tally(keys: seq<string>): (h: Histogram)
    ensures forall c :: c in h.order ==> c in h.counts
    decreases |keys|
  {
    if keys == [] then Histogram([], map[]) else Record(Tally(keys[..|keys| - 1]), keys[|keys| - 1])
  }

  ghost predicate Distinct<T>(s: seq<T>) {
    forall j, k :: 0 <= j < k < |s| ==> s[j] != s[k]
  }

  /** The colour map's contents: its keys are exactly the keys seen, listed
      once each in `order`, and each key's count is the number of pixels with
      that key. */
  lemma {:induction false} TallyCounts(keys: seq<string>)
    ensures var h := Tally(keys);
            && (forall c :: c in h.counts <==> c in h.order)
            && (forall c :: c in h.order <==> c in keys)
            && Distinct(h.order)
            && (forall c :: c in h.counts ==> h.counts[c] == multiset(keys)[c])
    decreases |keys|
  {
    if keys != [] {
      var init := keys[..|keys| - 1];
      var key := keys[|keys| - 1];
      assert keys == init + [key];
      TallyCounts(init);
      var h := Tally(init);
      forall c ensures c in keys <==> c in init || c == key {
      }
      if key !in h.counts {
        forall j, k | 0 <= j < k < |h.order| + 1 ensures (h.order + [key])[j] != (h.order + [key])[k] {
          if k == |h.order| {
            assert (h.order + [key])[j] == h.order[j] && h.order[j] in h.order;
          }
        }
      }
    }
  }

  /** The total of the counts of the keys in `order`. */
  function CountSum(order: seq<string>, counts: map<string, nat>): nat
    requires forall c :: c in order ==> c in counts
  {
    if order == [] then 0 else CountSum(order[..|order| - 1], counts) + counts[order[|order| - 1]]
  }

  lemma {:induction false} CountSumUpdate(order: seq<string>, counts: map<string, nat>, key: string, v: nat)
    requires forall c :: c in order ==> c in counts
    requires key in counts
    requires Distinct(order)
    ensures CountSum(order, counts[key := v]) ==
            if key in order then CountSum(order, counts) - counts[key] + v else CountSum(order, counts)
    decreases |order|
  {
    if order != [] {
      var init := order[..|order| - 1];
      var last := order[|order| - 1];
      assert order == init + [last];
      assert last !in init by {
        forall k | 0 <= k < |init| ensures init[k] != last {
          assert init[k] == order[k];
        }
      }
      CountSumUpdate(init, counts, key, v);
    }
  }

  lemma {:induction false} CountSumFresh(order: seq<string>, counts: map<string, nat>, key: string, v: nat)
    requires forall c :: c in order ==> c in counts
    requires key !in order
    ensures CountSum(order, counts[key := v]) == CountSum(order, counts)
    decreases |order|
  {
    if order != [] {
      var init := order[..|order| - 1];
      assert order == init + [order[|order| - 1]];
      CountSumFresh(init, counts, key, v);
    }
  }

  /** Every pixel is counted exactly once: the counts add up to the number of
      pixels recorded. */
  lemma {:induction false} TallyTotal(keys: seq<string>)
    ensures CountSum(Tally(keys).order, Tally(keys).counts) == |keys|
    decreases |keys|
  {
    TallyCounts(keys);
    if keys != [] {
      var init := keys[..|keys| - 1];
      var key := keys[|keys| - 1];
      TallyCounts(init);
      TallyTotal(init);
      var h := Tally(init);
      if key in h.counts {
        CountSumUpdate(h.order, h.counts, key, h.counts[key] + 1);
      } else {
        CountSumFresh(h.order, h.counts, key, 1);
        assert (h.order + [key])[..|h.order|] == h.order;
      }
    }
  }

  /** Recording the key of pixel `n` extends the tally of the pixels before it. */
  lemma CountStep(data: seq<Byte>, n: nat, before: Histogram, key: string)
    requires |data| % 4 == 0 && n < |data| / 4
    requires before == Tally(PixelKeys(data)[..n])
    requires key == ColourKey(Quantise(data[4 * n]), Quantise(data[4 * n + 1]), Quantise(data[4 * n + 2]))
    ensures Record(before, key) == Tally(PixelKeys(data)[..n + 1])
  {
    KeyOfPixel(data, n, key);
    PrefixSnoc(PixelKeys(data), n);
    TallySnoc(PixelKeys(data)[..n], key);
  }

  lemma KeyOfPixel(data: seq<Byte>, n: nat, key: string)
    requires |data| % 4 == 0 && n < |data| / 4
    requires key == ColourKey(Quantise(data[4 * n]), Quantise(data[4 * n + 1]), Quantise(data[4 * n + 2]))
    ensures PixelKeys(data)[n] == key
  {
  }

  lemma PrefixSnoc(keys: seq<string>, n: nat)
    requires n < |keys|
    ensures keys[..n + 1] == keys[..n] + [keys[n]]
  {
  }

  lemma TallySnoc(keys: seq<string>, key: string)
    ensures Tally(keys + [key]) == Record(Tally(keys), key)
  {
    assert (keys + [key])[..|keys|] == keys;
  }

  /** The pixel whose red byte is at `i == 4 * n` lies wholly inside the data. */
  lemma PixelStep(len: nat, i: nat, n: nat)
    requires len % 4 == 0 && i == 4 * n && i < len
    ensures n < len / 4 && i + 3 < len
  {
  }

  /** Once `i == 4 * n` reaches the end, all `len / 4` pixels are done. */
  lemma PixelEnd(len: nat, i: nat, n: nat)
    requires len % 4 == 0 && i == 4 * n && n <= len / 4 && i >= len
    ensures n == len / 4
  {
  }

  /** The counting loop over the image bytes, four at a time. */
  method CountColours(data: seq<Byte>) returns (h: Histogram)
    requires |data| % 4 == 0
    ensures h == Tally(PixelKeys(data))
  {
    ghost var keys := PixelKeys(data);
    var order: seq<string> := [];
    var counts: map<string, nat> := map[];
    var i := 0;
    ghost var n := 0;
    while i < |data|
      invariant 0 <= n <= |keys| && i == 4 * n
      invariant Histogram(order, counts) == Tally(keys[..n])
    {
      PixelStep(|data|, i, n);
      var r := Quantise(data[i]);
      var g := Quantise(data[i + 1]);
      var b := Quantise(data[i + 2]);
      var colour := ColourKey(r, g, b);
      ghost var before := Histogram(order, counts);
      CountStep(data, n, before, colour);
      if colour in counts {
        counts := counts[colour := counts[colour] + 1];
      } else {
        order := order + [colour];
        counts := counts[colour := 1];
      }
      assert Histogram(order, counts) == Record(before, colour);
      i := i + 4;
      n := n + 1;
    }
    PixelEnd(|data|, i, n);
    assert keys[..n] == keys;
    h := Histogram(order, counts);
  }

  // Ranking

  /** A map entry `[colour, count]`. */
  datatype Entry = Entry(colour: string, count: nat)

  /** `Array.from(colorMap.entries())`: the entries in insertion order. */
  function Entries(h: Histogram): (r: seq<Entry>)
    requires forall c :: c in h.order ==> c in h.counts
    ensures |r| == |h.order|
  {
    seq(|h.order|, k requires 0 <= k < |h.order| => Entry(h.order[k], h.counts[h.order[k]]))
  }

  ghost predicate SortedByCount(s: seq<Entry>) {
    forall j, k :: 0 <= j < k < |s| ==> s[j].count >= s[k].count
  }

  /** Inserts `e` after every entry whose count is at least its own, so that
      entries of equal count keep their relative order. */
  function InsertByCount(e: Entry, s: seq<Entry>): (r: seq<Entry>)
    ensures multiset(r) == multiset(s) + multiset{e}
  {
    if s == [] then [e]
    else if s[0].count >= e.count then
      assert s == [s[0]] + s[1..];
      [s[0]] + InsertByCount(e, s[1..])
    else [e] + s
  }

  lemma {:induction false} InsertByCountSorted(e: Entry, s: seq<Entry>)
    requires SortedByCount(s)
    ensures SortedByCount(InsertByCount(e, s))
    decreases |s|
  {
    if s != [] && s[0].count >= e.count {
      InsertByCountSorted(e, s[1..]);
      var rest := InsertByCount(e, s[1..]);
      forall x: Entry | x in multiset(rest) ensures s[0].count >= x.count {
        assert x in multiset(s[1..]) + multiset{e};
        if x in multiset(s[1..]) {
          var k :| 0 <= k < |s[1..]| && s[1..][k] == x;
          assert s[k + 1] == x;
        }
      }
      forall k | 0 <= k < |rest| ensures s[0].count >= rest[k].count {
        assert rest[k] in multiset(rest);
      }
    }
  }

  /** `.sort((a, b) => b[1] - a[1])`: a stable sort by descending count. */
  function SortByCount(es: seq<Entry>): (r: seq<Entry>)
    ensures multiset(r) == multiset(es)
    decreases |es|
  {
    if es == [] then []
    else
      assert es == es[..|es| - 1] + [es[|es| - 1]];
      InsertByCount(es[|es| - 1], SortByCount(es[..|es| - 1]))
  }

  lemma {:induction false} SortByCountSorted(es: seq<Entry>)
    ensures SortedByCount(SortByCount(es))
    decreases |es|
  {
    if es != [] {
      SortByCountSorted(es[..|es| - 1]);
      InsertByCountSorted(es[|es| - 1], SortByCount(es[..|es| - 1]));
    }
  }

  /** All the map entries, ranked by descending count. */
  function Ranked(keys: seq<string>): (r: seq<Entry>)
    ensures multiset(r) == multiset(Entries(Tally(keys)))
  {
    TallyTotal(keys);
    SortByCount(Entries(Tally(keys)))
  }

  /** The number of colours kept. */
  const TopCount: nat := 3

  /** `.slice(0, 3)` of the ranked entries. */
  function TopEntries(keys: seq<string>): (r: seq<Entry>)
    ensures |r| <= TopCount
  {
    Ranked(keys)[..MinInt(TopCount, |Ranked(keys)|)]
  }

  lemma {:induction false} DistinctMultiplicity<T>(s: seq<T>, x: T)
    requires Distinct(s)
    ensures multiset(s)[x] <= 1
    decreases |s|
  {
    if s != [] {
      var init := s[..|s| - 1];
      assert s == init + [s[|s| - 1]];
      DistinctMultiplicity(init, x);
      if x == s[|s| - 1] {
        assert x !in init by {
          forall k | 0 <= k < |init| ensures init[k] != x {
            assert init[k] == s[k];
          }
        }
      }
    }
  }

  lemma RepeatMultiplicity<T>(s: seq<T>, j: nat, k: nat)
    requires j < k < |s| && s[j] == s[k]
    ensures multiset(s)[s[j]] >= 2
  {
    assert s == s[..k] + s[k..];
    assert s[j] == s[..k][j];
    assert s[k] == s[k..][0];
  }

  /** An entry of the map carries the current count of its colour. */
  lemma EntryMember(h: Histogram, e: Entry)
    requires forall c :: c in h.order ==> c in h.counts
    requires e in Entries(h)
    ensures e.colour in h.order && e.count == h.counts[e.colour]
  {
    var k :| 0 <= k < |Entries(h)| && Entries(h)[k] == e;
  }

  /** Each ranked entry is a pixel colour with its true pixel count. */
  lemma RankedCounts(keys: seq<string>)
    ensures var ranked := Ranked(keys);
            forall k :: 0 <= k < |ranked| ==>
              ranked[k].colour in keys && ranked[k].count == multiset(keys)[ranked[k].colour]
  {
    var h := Tally(keys);
    TallyCounts(keys);
    TallyTotal(keys);
    var ranked := Ranked(keys);
    forall k | 0 <= k < |ranked| ensures ranked[k].colour in keys && ranked[k].count == multiset(keys)[ranked[k].colour] {
      assert ranked[k] in multiset(Entries(h));
      EntryMember(h, ranked[k]);
    }
  }

  /** No colour is ranked twice. */
  lemma RankedDistinct(keys: seq<string>)
    ensures var ranked := Ranked(keys);
            forall j, k :: 0 <= j < k < |ranked| ==> ranked[j].colour != ranked[k].colour
  {
    var h := Tally(keys);
    TallyCounts(keys);
    TallyTotal(keys);
    var es := Entries(h);
    var ranked := Ranked(keys);
    assert Distinct(es) by {
      forall j, k | 0 <= j < k < |es| ensures es[j] != es[k] {
        assert es[j].colour == h.order[j] && es[k].colour == h.order[k];
      }
    }
    forall j, k | 0 <= j < k < |ranked| ensures ranked[j].colour != ranked[k].colour {
      assert ranked[j] in multiset(es) && ranked[k] in multiset(es);
      EntryMember(h, ranked[j]);
      EntryMember(h, ranked[k]);
      if ranked[j].colour == ranked[k].colour {
        RepeatMultiplicity(ranked, j, k);
        DistinctMultiplicity(es, ranked[j]);
        assert false;
      }
    }
  }

  /** Every pixel colour is ranked somewhere. */
  lemma RankedComplete(keys: seq<string>, c: string) returns (m: nat)
    requires c in keys
    ensures m < |Ranked(keys)| && Ranked(keys)[m].colour == c
  {
    var h := Tally(keys);
    TallyCounts(keys);
    TallyTotal(keys);
    var es := Entries(h);
    var idx :| 0 <= idx < |h.order| && h.order[idx] == c;
    assert es[idx] in multiset(Ranked(keys));
    m :| 0 <= m < |Ranked(keys)| && Ranked(keys)[m] == es[idx];
  }

  /** The colours `extractColorsFromImage` keeps are the most frequent ones:
      distinct pixel colours, each with its true pixel count, in non-increasing
      order of count, and any colour left out is no more frequent than the
      third; none are kept only when there are no pixels. */
  lemma TopEntriesMostFrequent(keys: seq<string>)
    ensures var top := TopEntries(keys);
            && (top == [] <==> keys == [])
            && (forall k :: 0 <= k < |top| ==> top[k].colour in keys && top[k].count == multiset(keys)[top[k].colour])
            && (forall j, k :: 0 <= j < k < |top| ==> top[j].count >= top[k].count && top[j].colour != top[k].colour)
            && (forall c :: c in keys && (forall k :: 0 <= k < |top| ==> top[k].colour != c) ==>
                  |top| == TopCount && multiset(keys)[c] <= top[TopCount - 1].count)
  {
    TopEntriesTrue(keys);
    TopEntriesLeaveLess(keys);
  }

  /** The kept entries are distinct pixel colours with their true counts, in
      non-increasing order; there are none exactly when there are no pixels. */
  lemma TopEntriesTrue(keys: seq<string>)
    ensures var top := TopEntries(keys);
            && (top == [] <==> keys == [])
            && (forall k :: 0 <= k < |top| ==> top[k].colour in keys && top[k].count == multiset(keys)[top[k].colour])
            && (forall j, k :: 0 <= j < k < |top| ==> top[j].count >= top[k].count && top[j].colour != top[k].colour)
  {
    var ranked := Ranked(keys);
    var top := TopEntries(keys);
    RankedCounts(keys);
    RankedDistinct(keys);
    SortByCountSorted(Entries(Tally(keys)));
    if keys != [] {
      var m := RankedComplete(keys, keys[0]);
    }
    assert forall k :: 0 <= k < |top| ==> top[k] == ranked[k];
  }

  /** A colour that is left out is no more frequent than the third kept one. */
  lemma TopEntriesLeaveLess(keys: seq<string>)
    ensures var top := TopEntries(keys);
            forall c :: c in keys && (forall k :: 0 <= k < |top| ==> top[k].colour != c) ==>
              |top| == TopCount && multiset(keys)[c] <= top[TopCount - 1].count
  {
    var top := TopEntries(keys);
    forall c | c in keys && (forall k :: 0 <= k < |top| ==> top[k].colour != c)
      ensures |top| == TopCount && multiset(keys)[c] <= top[TopCount - 1].count
    {
      LeftOutLess(keys, c);
    }
  }

  lemma LeftOutLess(keys: seq<string>, c: string)
    requires c in keys && forall k :: 0 <= k < |TopEntries(keys)| ==> TopEntries(keys)[k].colour != c
    ensures |TopEntries(keys)| == TopCount && multiset(keys)[c] <= TopEntries(keys)[TopCount - 1].count
  {
    var ranked := Ranked(keys);
    var top := TopEntries(keys);
    RankedCounts(keys);
    SortByCountSorted(Entries(Tally(keys)));
    var m := RankedComplete(keys, c);
    assert forall k :: 0 <= k < |top| ==> top[k] == ranked[k];
    assert ranked[m].colour == c;
    assert m >= |top|;
    assert |top| == TopCount;
    assert ranked[TopCount - 1] == top[TopCount - 1];
    assert ranked[TopCount - 1].count >= ranked[m].count;
  }

  /** The colours used when the image yields none. */
  const FallbackColours: seq<string> := ["#8B5CF6", "#EC4899"]

  /** The colours `extractColorsFromImage` resolves to: fallback without image
      data, else the three most frequent keys, else fallback when there were
      no pixels. */
  function DominantColours(imageData: Option<seq<Byte>>): (r: seq<string>)
    ensures 1 <= |r| <= TopCount
  {
    match imageData
    case None => FallbackColours
    case Some(data) =>
      var top := TopEntries(PixelKeys(data));
      if top == [] then FallbackColours else seq(|top|, k requires 0 <= k < |top| => top[k].colour)
  }

  /** The image-data path of `extractColorsFromImage`: count, rank, keep three. */
  method ExtractColours(imageData: Option<seq<Byte>>) returns (colours: seq<string>)
    requires imageData.Some? ==> |imageData.value| % 4 == 0
    ensures colours == DominantColours(imageData)
  {
    if imageData.None? {
      return FallbackColours;
    }
    var colourMap := CountColours(imageData.value);
    TallyTotal(PixelKeys(imageData.value));
    var sorted := SortByCount(Entries(colourMap));
    assert sorted == Ranked(PixelKeys(imageData.value));
    var top := sorted[..MinInt(TopCount, |sorted|)];
    var sortedColours := seq(|top|, k requires 0 <= k < |top| => top[k].colour);
    colours := if |sortedColours| > 0 then sortedColours else FallbackColours;
  }

  /** The fallback pair is returned exactly when there is no image data or
      no pixel; otherwise every colour returned is the colour key of some
      pixel, and none twice. */
  lemma DominantColoursFallback(imageData: Option<seq<Byte>>)
    ensures var r := DominantColours(imageData);
            && (r == FallbackColours <==> imageData.None? || |imageData.value| < 4)
            && (imageData.Some? && |imageData.value| >= 4 ==>
                  (forall k :: 0 <= k < |r| ==> r[k] in PixelKeys(imageData.value)) &&
                  (forall j, k :: 0 <= j < k < |r| ==> r[j] != r[k]))
  {
    if imageData.Some? {
      if |imageData.value| >= 4 {
        DominantOfPixels(imageData.value);
      } else {
        TopEntriesMostFrequent(PixelKeys(imageData.value));
      }
    }
  }

  lemma DominantOfPixels(data: seq<Byte>)
    requires |data| >= 4
    ensures var r := DominantColours(Some(data));
            && r != FallbackColours
            && (forall k :: 0 <= k < |r| ==> r[k] in PixelKeys(data))
            && (forall j, k :: 0 <= j < k < |r| ==> r[j] != r[k])
  {
    var keys := PixelKeys(data);
    TopEntriesMostFrequent(keys);
    assert keys != [];
    var r := DominantColours(Some(data));
    var top := TopEntries(keys);
    assert r[0] == top[0].colour && r[0] in keys;
    PixelKeyShape(data, r[0]);
  }

  /** Every pixel key is the CSS string `rgb(r,g,b)` of three quantised
      channels, so it is never one of the `#...` fallback colours. */
  lemma PixelKeyShape(data: seq<Byte>, c: string)
    requires c in PixelKeys(data)
    ensures exists r: nat, g: nat, b: nat ::
              && r % 32 == 0 && r <= 224 && g % 32 == 0 && g <= 224 && b % 32 == 0 && b <= 224
              && c == ColourKey(r, g, b)
    ensures |c| >= 4 && c[..4] == "rgb("
    ensures c !in FallbackColours
  {
    var k :| 0 <= k < |PixelKeys(data)| && PixelKeys(data)[k] == c;
    var r, g, b := Quantise(data[4 * k]), Quantise(data[4 * k + 1]), Quantise(data[4 * k + 2]);
    assert c == ColourKey(r, g, b);
    ColourKeyShape(r, g, b);
  }

  lemma ColourKeyShape(r: nat, g: nat, b: nat)
    ensures var c := ColourKey(r, g, b);
            |c| >= 4 && c[..4] == "rgb(" && c !in FallbackColours
  {
    var c := ColourKey(r, g, b);
    assert c[..4] == "rgb(";
    assert c[0] == 'r';
  }
}
