# Lyric timing core of a browser music-video maker

The application turns an audio file, a cover image and a lyric text into a
lyric video. This project models in Dafny the sequential logic under its
views. The model has five parts, plus two modules of JavaScript string and
number rules that the five share:

- **The lyric timing store** (`useLyricSync`): `LyricSync` and its class
  `LyricStore`.
  - Lyric text becomes trimmed, non-blank lines with ids `line-0`, `line-1`, ….
  - The lines are timed by an even split of the audio, or distributed over
    detected beats.
  - One line is retimed by id.
  - The store answers "which line is sung at time t" and "which lines come
    next".
- **The signal rules** (`audioUtils`): `AudioUtils`.
  - The greedy beat picker over the waveform envelope.
  - The fixed-block partition that builds the envelope.
  - The colour histogram of the cover image: channels quantised to
    multiples of 32, counted, and the three most frequent kept.
- **The AI sync** (`geminiAI`): `GeminiAI`.
  - The demo scheduler: an even split, or lines placed on beats.
  - The structural validation of the model's JSON answer, and the fallback
    to the demo.
  - The beat list written into the prompt.
- **The timing editors** (`LyricTimeline`, `LyricEditor`): `LyricTimeline` and
  `LyricEditor`.
  - Cursor position to time, and the clamps applied while a line or one of
    its edges is dragged.
  - The drag and edit state machines.
  - The `M:SS.CC` notation and its reader.
  - The positional application of AI results.
- **The export parameters** (`videoProcessor`, `videoExporter`): `VideoProcessor`
  and `VideoExporter`.
  - The format and quality tables, the export-time estimate and the bitrate.
  - The capture schedule.
  - The frame-by-frame renderer, modelled as the class `FrameRenderer` with
    its frame counter. For each frame it computes the background gradient,
    the cover's pulse amplitude, the lyric shown, the played waveform bars
    and the progress reports.
- **JavaScript rules** (`Strings`, `Numbers`, `Wrappers`):
  - `split`, `trim`, `join`, `padStart`, `toString`, `toFixed(2)` and
    `Number(...)` on strings;
  - `Math.floor` and `Math.ceil`, JavaScript's truncating `%`, and array
    indexing that may be `undefined`;
  - `x || d`.

JavaScript numbers are exact `real`s. Where the source produces `NaN`, the
model produces `None`. Where the source mutates hook or component state, the
model has a class whose methods `modify` those fields. The browser,
network and JSON parser appear as parameters:
- whether a 2D context exists;
- the model's generated text;
- a `jsonParse` function;
- the awaited AI results.

## Model

| member | source | states |
|---|---|---|
| LyricSync.LineIdInjective | src/hooks/useLyricSync.ts:36 | two lines whose `line-<index>` ids are equal have the same index |
| LyricSync.LineIdsDistinct | src/hooks/useLyricSync.ts:35-40 | the ids given to the lines of one parse are pairwise distinct |
| LyricSync.EvenSplit | src/hooks/useLyricSync.ts:33-40 | one lyric per input line, in order, with the line's text and id `line-i`; line i of n spans `[i * d / n, (i + 1) * d / n]` |
| LyricSync.EvenSplitUniqueIds | src/hooks/useLyricSync.ts:35-40 | parsed lyrics have distinct ids, so retiming one id touches one line |
| LyricSync.EvenSplitCovers | src/hooks/useLyricSync.ts:33-40 | the even split starts at 0 and its last line ends exactly at the audio duration |
| LyricSync.EvenSplitAdjacent | src/hooks/useLyricSync.ts:33-40 | each evenly timed line ends where the next one starts (no gap, no overlap) |
| LyricSync.EvenSplitLengths | src/hooks/useLyricSync.ts:33-40 | every evenly timed line lasts `duration / n` |
| LyricSync.EvenlyTimed | src/hooks/useLyricSync.ts:25-40 | one line per non-blank input line, in order, with id `line-i` and the trimmed text of line i |
| LyricSync.BeatsPerLine | src/hooks/useLyricSync.ts:58 | at least one beat per line, and `beats / lines` (floored) when there are enough beats |
| LyricSync.BeatIndexBounds | src/hooks/useLyricSync.ts:58-62 | the end beat index never passes the last beat; with at least as many beats as lines the start index is in range, the end index is not before it, and no later than the next line's start index |
| LyricSync.BeatSplit | src/hooks/useLyricSync.ts:60-70 | one lyric per line, in order, with id `line-i`, timed by the beats at its start and end indices |
| LyricSync.BeatSplitUniqueIds | src/hooks/useLyricSync.ts:60-70 | beat-timed lyrics have distinct ids |
| LyricSync.BeatFallback | src/hooks/useLyricSync.ts:67-68 | an out-of-range beat index or a zero beat falls back to `index * 3` (start) and `(index + 1) * 3` (end); a non-zero beat in range is used as it is |
| LyricSync.BeatLineOnBeats | src/hooks/useLyricSync.ts:58-68 | with at least as many increasing positive beats as lines, line i starts and ends on a beat and does not end before it starts |
| LyricSync.BeatSplitOnBeats | src/hooks/useLyricSync.ts:60-70 | with at least as many detected beats as lines, every line starts and ends on an actual beat, in order |
| LyricSync.BeatSplitOrdered | src/hooks/useLyricSync.ts:60-70 | with at least as many detected beats as lines, beat-timed lines do not overlap |
| LyricSync.BeatTimed | src/hooks/useLyricSync.ts:49-70 | no lines exactly when there is no non-blank line or no beat; otherwise one line per non-blank line, in order, with id `line-i` and the trimmed text of line i |
| LyricSync.Retimed | src/hooks/useLyricSync.ts:80-84 | length, order, ids and texts are kept; lines with the id get the new times; every other line is unchanged |
| LyricSync.RetimedOverwrites | src/hooks/useLyricSync.ts:79-85 | of two retimings of the same id the later one wins |
| LyricSync.RetimedCommute | src/hooks/useLyricSync.ts:79-85 | retimings of different ids may be applied in either order |
| LyricSync.ApplyUpdates | src/hooks/useLyricSync.ts:79-85 | a run of updates keeps length, order, ids and texts |
| LyricSync.FirstActiveIndex | src/hooks/useLyricSync.ts:91-93 | the position of a line whose closed interval holds t, with no such line before it; -1 exactly when none holds t |
| LyricSync.FindActive | src/hooks/useLyricSync.ts:91-93 | a found line is one of the lyrics, is active at t and is the first active line; nothing is found exactly when no line is active |
| LyricSync.IndexOfId | src/hooks/useLyricSync.ts:95 | the first position holding the id, or -1 when no line holds it |
| LyricSync.FindById | src/components/LyricTimeline.tsx:72 | a line is found exactly when some line has the id, and it is the first such line |
| LyricSync.StartingAfter | src/hooks/useLyricSync.ts:105-106 | the filter keeps exactly the lines starting after t |
| LyricSync.StartingAfterAppend | src/hooks/useLyricSync.ts:105-106 | the filter distributes over concatenation, so it keeps the order of the lines |
| LyricSync.SliceEnd | src/hooks/useLyricSync.ts:107 | `slice(0, end)` stops within the array, at `end` when that is within it |
| LyricSync.Upcoming | src/hooks/useLyricSync.ts:104-108 | at most `count` lines, each starting after t, forming a prefix of the filtered list in order |
| LyricSync.UpcomingByDefault | src/hooks/useLyricSync.ts:104-108 | called without a count, the first `min(3, k)` of the k lines starting after t, in order |
| LyricSync.LyricStore.constructor | src/hooks/useLyricSync.ts:18-20 | no lyrics, index -1, auto-sync enabled |
| LyricSync.LyricStore.ParseLyrics | src/hooks/useLyricSync.ts:25-44 | the result is the evenly timed non-blank lines; it is empty exactly when there is no non-blank line, and then the store is unchanged; otherwise the store holds the result |
| LyricSync.LyricStore.AutoSyncWithBeats | src/hooks/useLyricSync.ts:49-74 | the result is the beat-timed lines; it is empty exactly when there are no lines or no beats, and then the store is unchanged; otherwise the store holds the result |
| LyricSync.LyricStore.UpdateLyricTiming | src/hooks/useLyricSync.ts:79-85 | the stored lyrics become their retiming by id |
| LyricSync.LyricStore.GetCurrentLyric | src/hooks/useLyricSync.ts:90-99 | returns the first active line, or none; records the first position holding its id, or -1; with distinct ids that is the position of the active line itself |
| LyricSync.LyricStore.UpcomingLyrics | src/hooks/useLyricSync.ts:104-108 | the next `count` lines of the store that start after t |
| LyricSync.LyricStore.SetAutoSyncEnabled | src/hooks/useLyricSync.ts:20 | sets the auto-sync flag |
| AudioUtils.Beats | src/lib/audioUtils.ts:110-134 | fewer than three waveform points give no beats |
| AudioUtils.DetectBeats | src/lib/audioUtils.ts:110-134 | the loop with its `lastBeat` variable computes exactly the specified beat list |
| AudioUtils.BeatStep | src/lib/audioUtils.ts:118-130 | one step either changes nothing, or appends point i's time, which becomes `lastBeat`, for a peak at least 0.3 s after the previous `lastBeat`; such a peak is always appended |
| AudioUtils.ScanInvariant | src/lib/audioUtils.ts:115-131 | at every step `lastBeat` is the last accepted beat (0 before any), the beats are spaced, and each is the time of a peak |
| AudioUtils.BeatsAreSpacedPeaks | src/lib/audioUtils.ts:113-129 | every beat is the time `(i / n) * duration` of an interior point above 0.6 and above both neighbours; the first is at least 0.3 s and consecutive beats are at least 0.3 s apart |
| AudioUtils.SpacedIncreasing | src/lib/audioUtils.ts:126-128 | spaced beats grow by at least 0.3 s per step, so they strictly increase |
| AudioUtils.BeatsIncreasing | src/lib/audioUtils.ts:113-129 | the detected beats strictly increase and are all at least 0.3 s |
| AudioUtils.PeakAcceptance | src/lib/audioUtils.ts:123-129 | point i is appended exactly when it is a peak at least 0.3 s after the last accepted beat; otherwise the beats, and so `lastBeat`, are unchanged |
| AudioUtils.ScanPrefix | src/lib/audioUtils.ts:117-131 | beats accepted so far are a prefix of the final output: an accepted beat is never withdrawn |
| AudioUtils.SumSquares | src/lib/audioUtils.ts:46-51 | a sum of squares is non-negative |
| AudioUtils.Blocks | src/lib/audioUtils.ts:43-55 | one sum per block |
| AudioUtils.BlockSums | src/lib/audioUtils.ts:40-55 | exactly `points` values |
| AudioUtils.WaveformBlockSums | src/lib/audioUtils.ts:38-55 | the nested loop computes, for each of the `points` blocks, the sum of squares of block i's samples `[i * size, (i + 1) * size)` with `size = floor(len / points)` |
| AudioUtils.BlockSquares | src/lib/audioUtils.ts:46-51 | the inner loop sums the squares of the samples in `[start, end)` that exist |
| AudioUtils.BlockSumsTile | src/lib/audioUtils.ts:40-55 | the blocks tile the first `points * size` samples: together they count each of those samples exactly once |
| AudioUtils.ShortClipBlocks | src/lib/audioUtils.ts:38-51 | with the default 1000 points, a clip of fewer than 1000 samples gives 1000 zero sums |
| AudioUtils.BlocksTilePrefix | src/lib/audioUtils.ts:43-51 | the first k blocks account for exactly the squares of the first `k * size` samples |
| AudioUtils.Quantise | src/lib/audioUtils.ts:86-88 | a quantised channel is one of 0, 32, …, 224, and the largest such value not above the byte |
| AudioUtils.PixelKeys | src/lib/audioUtils.ts:85-90 | one colour key per four-byte pixel |
| AudioUtils.Record | src/lib/audioUtils.ts:91 | the key's count becomes its previous count (0 when absent) plus one; every other count is unchanged |
| AudioUtils.Tally | src/lib/audioUtils.ts:82-92 | every key in the map's order has a count |
| AudioUtils.TallyCounts | src/lib/audioUtils.ts:82-92 | the map holds exactly the keys seen, once each in insertion order, each with its number of pixels |
| AudioUtils.TallyTotal | src/lib/audioUtils.ts:85-92 | the counts add up to the number of pixels |
| AudioUtils.CountColours | src/lib/audioUtils.ts:82-92 | the loop over the image bytes, four at a time, builds exactly the tally of the pixel keys |
| AudioUtils.Entries | src/lib/audioUtils.ts:95 | one entry per map key |
| AudioUtils.InsertByCount | src/lib/audioUtils.ts:96 | insertion adds exactly the one entry |
| AudioUtils.InsertByCountSorted | src/lib/audioUtils.ts:96 | insertion keeps entries in non-increasing count order |
| AudioUtils.SortByCount | src/lib/audioUtils.ts:96 | the sort is a permutation of the entries |
| AudioUtils.SortByCountSorted | src/lib/audioUtils.ts:96 | the sorted entries are in non-increasing count order |
| AudioUtils.Ranked | src/lib/audioUtils.ts:95-96 | the ranking is a permutation of the map entries |
| AudioUtils.TopEntries | src/lib/audioUtils.ts:95-97 | at most three entries are kept |
| AudioUtils.RankedCounts | src/lib/audioUtils.ts:95-96 | every ranked entry is a pixel colour with its true pixel count |
| AudioUtils.RankedDistinct | src/lib/audioUtils.ts:95-96 | no colour is ranked twice |
| AudioUtils.RankedComplete | src/lib/audioUtils.ts:95-96 | every pixel colour is ranked somewhere |
| AudioUtils.TopEntriesMostFrequent | src/lib/audioUtils.ts:95-98 | the kept colours are distinct pixel colours in non-increasing count order; any colour left out is no more frequent than the third kept; none are kept exactly when there are no pixels |
| AudioUtils.DominantColours | src/lib/audioUtils.ts:76-100 | one to three colours |
| AudioUtils.ExtractColours | src/lib/audioUtils.ts:76-100 | counting, ranking and keeping three gives the specified colours, with the fallback when there is no image data |
| AudioUtils.DominantColoursFallback | src/lib/audioUtils.ts:77-100 | the two default colours come back exactly when there is no image data or no pixel; otherwise every colour is the key of some pixel, and none appears twice |
| AudioUtils.DominantOfPixels | src/lib/audioUtils.ts:95-100 | with at least one pixel the result is not the fallback pair; its colours are distinct pixel keys |
| AudioUtils.PixelKeyShape | src/lib/audioUtils.ts:86-90 | every pixel key is `rgb(r,g,b)` with each channel a multiple of 32 no greater than 224; so it starts with `rgb(` and equals neither fallback colour |
| AudioUtils.ColourKeyShape | src/lib/audioUtils.ts:90 | a key written by the `rgb(${r},${g},${b})` template starts with `rgb(` and equals neither fallback colour |
| GeminiAI.DemoEvenSplit | src/lib/geminiAI.ts:146-154 | one entry per line |
| GeminiAI.DemoBeatSplit | src/lib/geminiAI.ts:138-145 | one entry per line |
| GeminiAI.DemoSchedule | src/lib/geminiAI.ts:133-155 | one entry per line |
| GeminiAI.DemoAISync | src/lib/geminiAI.ts:130-156 | one entry per non-blank line |
| GeminiAI.DemoAISyncLines | src/lib/geminiAI.ts:131-141 | one entry per non-blank line, text trimmed, in order; no entries exactly when there are no such lines |
| GeminiAI.DemoScheduleTexts | src/lib/geminiAI.ts:138-154 | entry i carries line i's text in both branches |
| GeminiAI.DemoEvenSplitTimes | src/lib/geminiAI.ts:146-154 | with fewer beats than lines, line i starts at `i * d / n` and ends at `(i + 1) * d / n - 0.2`, so 0.2 s before the next starts |
| GeminiAI.EvenLineTimes | src/lib/geminiAI.ts:147-152 | `i * (d / n)` is `i * d / n`, for both times of an evenly split line |
| GeminiAI.DemoBeatSplitTimes | src/lib/geminiAI.ts:138-145 | with enough beats, line i starts on beat i (or `i * d / n` when that beat is 0) and ends on beat i + 1 when present and non-zero (else `(i + 1) * d / n - 0.2`) |
| GeminiAI.DemoBeatSplitOnBeats | src/lib/geminiAI.ts:138-145 | with positive beats there is no fallback: lines sit on consecutive beats |
| GeminiAI.LastIndexOf | src/lib/geminiAI.ts:102 | the last occurrence of a character, or -1 |
| GeminiAI.ExtractJsonSpan | src/lib/geminiAI.ts:102-105 | a match found runs from a `{` to a `}` |
| GeminiAI.ExtractJsonSpanSpec | src/lib/geminiAI.ts:102-105 | a span exists exactly when some `{` precedes some `}`, and it runs from the first `{` to the last `}` |
| GeminiAI.CheckEntries | src/lib/geminiAI.ts:115-119 | an accepted list has one lyric per entry; a rejection always names an invalid entry |
| GeminiAI.CheckEntriesSpec | src/lib/geminiAI.ts:115-119 | the entries pass exactly when each has a truthy text and numeric times; each then becomes its own lyric; otherwise the first invalid entry is named |
| GeminiAI.ValidateParsed | src/lib/geminiAI.ts:110-121 | rejected as an invalid structure exactly when `lyrics` is missing or not an array; any other rejection names an invalid entry |
| GeminiAI.CheckResponse | src/lib/geminiAI.ts:102-121 | "no JSON" exactly when no span is found; "unparsable" exactly when a span is found and does not parse |
| GeminiAI.ParseGeminiResponse | src/lib/geminiAI.ts:99-126 | every failure surfaces as the single message "Failed to parse AI response"; it succeeds exactly when the check does |
| GeminiAI.ParseGeminiResponseSpec | src/lib/geminiAI.ts:99-126 | a response is accepted exactly when its span parses to a value whose `lyrics` is an array of valid entries, and then the lyrics are those entries in order |
| GeminiAI.SyncLyricsWithAudio | src/lib/geminiAI.ts:20-59 | missing or empty generated text gives the demo sync; otherwise the answer is the checked lyrics when the check accepts the text, and the demo sync when it rejects it |
| GeminiAI.SyncFallsBack | src/lib/geminiAI.ts:49-58 | for non-empty generated text: a parse failure, which is always "Failed to parse AI response", is caught and gives the demo sync; a successful parse is the answer |
| GeminiAI.BeatStrings | src/lib/geminiAI.ts:67 | the first `min(20, n)` beats in order, beat k written as `beats[k].toFixed(2)`; none contains a comma and each ends in a digit |
| GeminiAI.JoinCommaCount | src/lib/geminiAI.ts:67 | joining comma-free values with `", "` puts exactly one comma between neighbours |
| GeminiAI.BeatList | src/lib/geminiAI.ts:67 | with more than 20 beats the list ends in `...` |
| GeminiAI.BeatListShape | src/lib/geminiAI.ts:67 | the prompt lists `min(20, n)` beat values (one comma fewer), nothing for no beats, and ends with `...` exactly when there are more than 20 beats |
| LyricTimeline.TimeFromPosition | src/components/LyricTimeline.tsx:44-49 | the time is always within `[0, duration]`; it is the cursor's fraction of the width scaled to the duration when that fraction is within the timeline; 0 when the timeline is not there |
| LyricTimeline.ClampedScale | src/components/LyricTimeline.tsx:48 | within `[0, duration]`, and the fraction's time itself when the fraction is in `[0, 1]` |
| LyricTimeline.Clamp | src/components/LyricTimeline.tsx:48 | within `[0, duration]`, and unchanged when already inside |
| LyricTimeline.DraggedTimes | src/components/LyricTimeline.tsx:75-90 | a start drag moves only the start, not below 0 and at least 0.1 s before the end when the end allows; an end drag moves only the end, at least 0.1 s after the start and not past the duration unless that minimum forces it; a move keeps the length, keeps the start at or after 0, and the end within the duration when the length fits; each follows the cursor when the cursor is inside the bounds |
| LyricTimeline.MoveUpdate | src/components/LyricTimeline.tsx:68-93 | an update is issued exactly when a drag is in progress and its id names a line; it is for the dragged id, with the clamped times of the first line with that id |
| LyricTimeline.TimelineState.constructor | src/components/LyricTimeline.tsx:33-35 | nothing dragged or selected |
| LyricTimeline.TimelineState.MouseDown | src/components/LyricTimeline.tsx:61-66 | the line is dragged and selected, with the given drag type |
| LyricTimeline.TimelineState.MouseUp | src/components/LyricTimeline.tsx:95-98 | the drag ends and the selection stays |
| LyricTimeline.TimelineState.ClickLyric | src/components/LyricTimeline.tsx:176-179 | the clicked line is selected |
| LyricTimeline.TimelineState.TimelineClick | src/components/LyricTimeline.tsx:55-59 | a seek happens exactly when no drag is in progress, to the cursor's time |
| LyricTimeline.TimelineState.MouseMove | src/components/LyricTimeline.tsx:68-93 | the update issued is the one specified for the current drag state at the cursor's time |
| LyricTimeline.DragGesture | src/components/LyricTimeline.tsx:61-98 | after mouse-down then mouse-up the line stays selected and no drag is in progress |
| LyricEditor.FormatTimeShape | src/components/LyricEditor.tsx:43-48 | a non-negative time is written `M:SS.CC`: minutes, then seconds below 60 and hundredths below 100 as exactly two digits each |
| LyricEditor.FormatTime | src/components/LyricEditor.tsx:43-48 | every formatted time has at least the seven characters of `M:SS.CC` |
| LyricEditor.FieldBounds | src/components/LyricEditor.tsx:44-46 | minutes are non-negative, seconds below 60 and hundredths below 100 |
| LyricEditor.FormatHundredths | src/components/LyricEditor.tsx:43-48 | a whole number of hundredths is written with its whole minutes, the seconds within the minute and the hundredths within the second |
| LyricEditor.Plus | src/components/LyricEditor.tsx:53 | a sum is `NaN` when either side is |
| LyricEditor.ParseTime | src/components/LyricEditor.tsx:50-54 | a number exactly when both the `mins:secs` part and the hundredths part read as numbers |
| LyricEditor.ParseOfPieces | src/components/LyricEditor.tsx:50-53 | a text with one point reads as its clock part plus its hundredths part |
| LyricEditor.ParseOfWhole | src/components/LyricEditor.tsx:50-53 | a text without a point reads as its clock part |
| LyricEditor.ParseClock | src/components/LyricEditor.tsx:50-54 | `M:SS.CC` reads back as `M * 60 + SS + CC / 100` |
| LyricEditor.ParseWholeClock | src/components/LyricEditor.tsx:50-53 | a text without a point reads `M:S` as `M * 60 + S` |
| LyricEditor.ParseFormatTime | src/components/LyricEditor.tsx:43-54 | reading back the notation of a non-negative whole number of hundredths gives that time |
| LyricEditor.ParseSignedClock | src/components/LyricEditor.tsx:50-54 | a minute count typed with a sign reads as that signed count of minutes plus the seconds and hundredths |
| LyricEditor.ReadsBack | src/components/LyricEditor.tsx:50-54 | a notation whose fields add up to t reads back as t |
| LyricEditor.PositionalUpdates | src/components/LyricEditor.tsx:90-95 | result i retimes `lyrics[i]`; results past the last lyric issue nothing |
| LyricEditor.ApplyAIResults | src/components/LyricEditor.tsx:90-95 | the `forEach` loop issues exactly the positional updates, in order |
| LyricEditor.ApplyAIResultsPositional | src/components/LyricEditor.tsx:90-104 | over lyrics with distinct ids, applying the updates gives lyric i the times of result i; surplus results are ignored and surplus lyrics untouched |
| LyricEditor.EditorState.constructor | src/components/LyricEditor.tsx:38-40 | no edit, not syncing |
| LyricEditor.EditorState.EditLyric | src/components/LyricEditor.tsx:56-58 | the line becomes the edit |
| LyricEditor.EditorState.SaveLyric | src/components/LyricEditor.tsx:60-65 | with an edit: exactly one update, for the edited id and times, then no edit; without one: no update and no change |
| LyricEditor.EditorState.TimeChange | src/components/LyricEditor.tsx:67-75 | the parsed time, clamped to `[0, duration]`, goes into the edited field only; nothing changes without an edit |
| LyricEditor.EditorState.AISync | src/components/LyricEditor.tsx:81-113 | results are applied by position; a failure falls back to auto-sync; the syncing flag ends false |
| LyricEditor.AISyncResults | src/components/LyricEditor.tsx:84-105 | the awaited results never fail; without a key they are the demo sync |
| Strings.Trim | src/hooks/useLyricSync.ts:28-29 | a trimmed string neither starts nor ends with whitespace and is no longer than the original |
| Strings.TrimBlank | src/hooks/useLyricSync.ts:28 | a line trims to nothing exactly when it is all whitespace |
| Strings.TrimIdempotent | src/hooks/useLyricSync.ts:28-29 | trimming twice is trimming once |
| Strings.Split | src/components/LyricEditor.tsx:51-52 | a split has at least one piece |
| Strings.JoinSplit | src/hooks/useLyricSync.ts:27 | joining the pieces of a split with the separator gives the text back |
| Strings.SplitJoin | src/hooks/useLyricSync.ts:27 | splitting a join of separator-free pieces gives the pieces back |
| Strings.NonBlank | src/hooks/useLyricSync.ts:26-29 | the kept lines are non-empty and trimmed, and no more than the input lines |
| Strings.NonBlankAppend | src/hooks/useLyricSync.ts:26-29 | the filter distributes over concatenation, so it keeps the order of the lines |
| Strings.NonBlankEmpty | src/hooks/useLyricSync.ts:26-31 | nothing is left exactly when every line is blank |
| Strings.NonBlankKeeps | src/hooks/useLyricSync.ts:26-29 | every non-blank line appears, trimmed, in the result |
| Strings.NatToString | src/components/LyricEditor.tsx:47 | decimal digits, at least one, with no leading zero |
| Strings.DigitsValueOfNat | src/components/LyricEditor.tsx:47-53 | reading back the decimal notation of n gives n |
| Strings.NatToStringInjective | src/hooks/useLyricSync.ts:36 | different numbers have different notations |
| Strings.IntToString | src/components/LyricEditor.tsx:47 | a negative integer is written with a minus sign before its magnitude |
| Strings.PadStart2 | src/components/LyricEditor.tsx:47 | the string padded on the left with `0` to length two |
| Strings.TwoDigitsValue | src/components/LyricEditor.tsx:47 | a number below 100, padded, is two digits that read back as the number |
| Strings.NumberOf | src/components/LyricEditor.tsx:52-53 | a blank string reads as 0, and a negative value comes only from a text starting with `-` |
| Strings.NumberOfInt | src/components/LyricEditor.tsx:52-53 | `Number` reads back an integer's text, a negative one with its `-`, and a non-negative one also with a leading `+` |
| Strings.NumberOfNat | src/components/LyricEditor.tsx:47-53 | `Number` reads back what `toString` writes, with or without zero padding |
| Strings.ToFixed2 | src/lib/geminiAI.ts:67 | at least four characters, no comma, ending in a digit |
| Strings.ToFixed2Hundredths | src/lib/geminiAI.ts:67 | a whole number of hundredths is written exactly |
| Numbers.Floor | src/components/LyricEditor.tsx:44 | the greatest integer not above x |
| Numbers.Ceil | src/lib/videoProcessor.ts:105 | the least integer not below x |
| Numbers.JsRem | src/components/LyricEditor.tsx:45-46 | for a non-negative dividend and positive divisor, a remainder in `[0, m)` |
| Numbers.At | src/lib/videoExporter.ts:128 | an index within the array gives its element; any other is `undefined` |
| Numbers.OrElse | src/lib/videoExporter.ts:128 | `x || d` is d, or x when x is present and non-zero |
| VideoProcessor.ConfigOf | src/lib/videoProcessor.ts:15-28 | each format has its own config at 30 fps, and only the vertical one is taller than wide |
| VideoProcessor.ConfigsTransposed | src/lib/videoProcessor.ts:15-28 | the two formats are width/height transposes of each other, both at 30 fps |
| VideoProcessor.SettingOf | src/lib/videoProcessor.ts:30-34 | bitrates from 1000 to 5000 kbps and crf from 18 to 28; only low has 1000 kbps and only high has crf 18 |
| VideoProcessor.QualityOrdered | src/lib/videoProcessor.ts:30-34 | from low to high quality the bitrate rises and the crf falls, in both directions |
| VideoProcessor.Multiplier | src/lib/videoProcessor.ts:99-103 | every quality multiplier is at least 1 |
| VideoProcessor.EstimateExportTime | src/lib/videoProcessor.ts:97-106 | every estimate is at least 5 seconds |
| VideoProcessor.EstimateMonotoneInDuration | src/lib/videoProcessor.ts:98-105 | a longer clip never has a shorter estimate |
| VideoProcessor.EstimateMonotoneInQuality | src/lib/videoProcessor.ts:99-105 | a higher quality never has a shorter estimate |
| VideoProcessor.EstimateOfShortClip | src/lib/videoProcessor.ts:98-105 | up to 10 seconds the estimate depends only on quality: 5, 8 or 13 |
| VideoProcessor.CapturedFrameCount | src/lib/videoProcessor.ts:74-79 | at most 300 frames, and some only with a context and a positive `duration * fps` |
| VideoProcessor.CaptureCanvasFrames | src/lib/videoProcessor.ts:66-92 | the loop captures the specified number of frames, frame k at time `k / fps` |
| VideoProcessor.FrameBeforeEnd | src/lib/videoProcessor.ts:79-80 | each of the first `ceil(duration * fps)` frames lies inside the clip, one frame interval after the previous |
| VideoProcessor.CapturedFramesInClip | src/lib/videoProcessor.ts:74-85 | every captured frame lies inside the clip, one frame interval apart |
| VideoExporter.VideoBitrate | src/lib/videoExporter.ts:215-222 | the bitrate of each quality is the quality table's kilobit rate in bits: 1,000,000, 2,500,000 or 5,000,000 |
| VideoExporter.TotalFrames | src/lib/videoExporter.ts:91 | there is a frame to draw exactly when the clip has positive duration |
| VideoExporter.FrameInClip | src/lib/videoExporter.ts:91-103 | every frame drawn shows a moment inside the clip |
| VideoExporter.GradientIndex | src/lib/videoExporter.ts:110 | defined exactly for a non-empty palette, and then in range for a non-negative time |
| VideoExporter.ColourOr | src/lib/videoExporter.ts:111-112 | the palette colour when present and non-empty, else the fallback |
| VideoExporter.GradientCycles | src/lib/videoExporter.ts:110-112 | over a palette of non-empty colours the gradient runs from a colour in range to the next one round the palette |
| VideoExporter.GradientFallback | src/lib/videoExporter.ts:110-112 | an empty palette gives the two default colours |
| VideoExporter.GradientAt | src/lib/videoExporter.ts:110-112 | each end of the gradient is a palette colour or its fallback; an empty palette gives both fallbacks |
| VideoExporter.WaveformIndex | src/lib/videoExporter.ts:127 | an index exists exactly when the duration is non-zero |
| VideoExporter.AmplitudeAt | src/lib/videoExporter.ts:127-128 | the amplitude is a waveform sample or 0 |
| VideoExporter.AmplitudeInClip | src/lib/videoExporter.ts:127-128 | inside the clip the amplitude is the sample at index `floor(t / duration * n)`, which is in range |
| VideoExporter.AmplitudeOutsideClip | src/lib/videoExporter.ts:127-128 | before the clip and from its end on, the lookup is out of range and the amplitude is 0 |
| VideoExporter.DrawnLyricIsFirstActive | src/lib/videoExporter.ts:138-140 | the lyric drawn is the first whose closed interval holds the frame time |
| VideoExporter.RenderWaveform | src/lib/videoExporter.ts:182-213 | the loop marks bar i played exactly when `i / n <= t / duration` |
| VideoExporter.PlayedIsPrefix | src/lib/videoExporter.ts:202-207 | if a bar is played, so is every bar before it: the played bars form a prefix |
| VideoExporter.AllPlayedAtEnd | src/lib/videoExporter.ts:193-207 | from the clip's end on, every bar is played |
| VideoExporter.FramesUpToNext | src/lib/videoExporter.ts:97-167 | one more frame drawn appends that frame |
| VideoExporter.ProgressReports | src/lib/videoExporter.ts:163-164 | one report per frame |
| VideoExporter.ProgressReportsRise | src/lib/videoExporter.ts:163-164 | the reports strictly increase and stay within `(0, 100]` |
| VideoExporter.ProgressReportsEnd | src/lib/videoExporter.ts:163-164 | the last report is exactly 100 |
| VideoExporter.FrameAt | src/lib/videoExporter.ts:103-161 | frame k shows time `k / 30`; its amplitude is a waveform sample or 0; the lyric shown is one of the lyrics and active then, and none is shown exactly when no lyric is active; there is one bar per waveform point |
| VideoExporter.FrameRenderer.constructor | src/lib/videoExporter.ts:90-92 | the counter starts at 0 with nothing drawn or reported |
| VideoExporter.FrameRenderer.RenderFrame | src/lib/videoExporter.ts:97-168 | past the last frame it finishes and changes nothing else; otherwise it draws the current frame, advances the counter by one and reports the new progress; the drawn frames and reports always match the counter |
| VideoExporter.FrameRenderer.Run | src/lib/videoExporter.ts:96-171 | repeated frames end finished, with every frame of the clip drawn in order and one progress report per frame |
| VideoExporter.RenderVideoFrames | src/lib/videoExporter.ts:79-180 | the export draws frames `0 .. ceil(duration * 30) - 1` in order and reports progress after each |
| VideoExporter.DrawnFramesInClip | src/lib/videoExporter.ts:103-128 | each drawn frame shows a moment inside the clip at which the cover pulses with an actual waveform sample |

## Left out

- Floating point: JavaScript numbers are exact reals. Rounding, `Infinity` and `NaN` inside arithmetic are not modelled. `NaN` from `Number(...)` and `undefined` operands is modelled as `None`.
- LyricEditor.EditorState.TimeChange: text that does not parse leaves the edit unchanged. The source stores `NaN` there, since `Math.max(0, Math.min(duration, NaN))` is `NaN`, and a real cannot hold it. Text that `Number` reads as a value the model reads as `NaN` (see `Strings.NumberOf`) also leaves the edit unchanged; for example `Infinity:00` sets the field to the duration in the source.
- Strings.NumberOf: reads blank strings and integer numerals with at most one leading sign. Exponents (`1e1`), the `0x`, `0o` and `0b` prefixes and `Infinity` read as `NaN` here, although a user can type them into the time fields and `Number` reads them as values. Decimal points are not read either, but `parseTime` never passes one to `Number`: it splits the text at `.` first, so `1.5:00` has no seconds and is `NaN` in the source as well.
- LyricTimeline.TimeFromPosition: requires a positive timeline width. A zero-width element gives a non-finite position in the source.
- AudioUtils.ExtractColours: requires the image data to be a whole number of four-byte pixels, as `ImageData` always is.
- AudioUtils.WaveformBlockSums: stops at the sums of squares. The square root of `sum / blockSize` and the division by the maximum are floating-point steps. Fewer samples than points (`blockSize` 0) is covered by the sums, but not the resulting division by zero.
- VideoExporter.VideoBitrate: the `default` branch of `getVideoBitrate` is not modelled, because the quality type admits only the three named values.
- VideoProcessor.SettingOf: the bitrate strings `"1000k"` and so on are kept as their kilobit numbers.
- VideoProcessor.CaptureCanvasFrames: a frame is identified by the time it is rendered at. The `renderFrame` callback, `getImageData` and the catch that returns `[]` when either throws are not modelled.
- VideoExporter.FrameRenderer.Run: the `requestAnimationFrame` chain is a loop. The cover image load and its error, the missing-context error and every canvas draw call are not modelled. This includes the sine pulse, rotation, scale and font-size arithmetic.
- GeminiAI.SyncLyricsWithAudio: the `fetch` request, the HTTP status and `response.json()` are summarised by the `generatedText` parameter (None for any failure). `JSON.parse` is the `jsonParse` parameter.
- GeminiAI: the rest of `createSyncPrompt` is fixed prose, and only the beat list is modelled.
- Lyric word timing (the optional `words` of a line) is not modelled; no core operation reads it.
- `exportLyrics` (the `toFixed(2)` rendering of the stored times) is not modelled.
- `getPositionFromTime` in the timeline (a percentage used only for layout) and the timeline's copy of `formatTime`, which `LyricEditor.FormatTime` covers, are not modelled separately.
- Not modelled:
  - the views and their JSX (`Upload`, `ExportDialog`, `Features`, `Hero`, `Index`, `VideoPreview`, `DragDropUpload`, `VideoCanvas`);
  - `useAudioProcessor`;
  - Web Audio decoding;
  - `generateVideo`, `createVideoBlob` and MediaRecorder;
  - `downloadBlob` and `downloadVideoBlob`;
  - timers, promises and React effect ordering.
  These are browser I/O or user-interface code.
