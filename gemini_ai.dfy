/** The deterministic part of the AI sync: the demo scheduler used whenever
    the model service is unavailable, the structural check of the model's
    answer, and the beat list written into the prompt. */
module GeminiAI {
  import opened Wrappers
  import opened Numbers
  import opened Strings

  /** A value `JSON.parse` can produce. */
  datatype Json =
    | JNull
    | JBool(b: bool)
    | JNumber(n: real)
    | JString(s: string)
    | JArray(items: seq<Json>)
    | JObject(fields: map<string, Json>)

  /** One timed line of a `GeminiResponse`. The text is whatever the answer
      held there (the validator demands only that it be truthy). */
  datatype AILyric = AILyric(text: Json, startTime: real, endTime: real)

  // ---------------------------------------------------------------------------
  // createDemoAISync

  /** The gap left before the next line when a line's end is computed. */
  const LineGap: real := 0.2

  /** Fewer beats than lines: line `i` of `n` runs from `i * d / n` to
      `(i + 1) * d / n - 0.2`. */
  function EvenLine(lines: seq<string>, duration: real, i: nat): AILyric
    requires i < |lines|
  {
    var timePerLine := duration / |lines| as real;
    AILyric(JString(lines[i]), i as real * timePerLine, (i + 1) as real * timePerLine - LineGap)
  }

  function DemoEvenSplit(lines: seq<string>, duration: real): (r: seq<AILyric>)
    ensures |r| == |lines|
  {
    seq(|lines|, i requires 0 <= i < |lines| => EvenLine(lines, duration, i))
  }

  /** At least as many beats as lines: line `i` starts on beat `i` and ends on
      beat `i + 1`; a zero or missing beat falls back to the even-split time
      (JavaScript `||`). */
  function BeatLine(lines: seq<string>, duration: real, beats: seq<real>, i: nat): AILyric
    requires i < |lines|
  {
    var n := |lines| as real;
    AILyric(JString(lines[i]),
            OrElse(At(beats, i), i as real * duration / n),
            OrElse(At(beats, i + 1), (i + 1) as real * duration / n - LineGap))
  }

  function DemoBeatSplit(lines: seq<string>, duration: real, beats: seq<real>): (r: seq<AILyric>)
    ensures |r| == |lines|
  {
    seq(|lines|, i requires 0 <= i < |lines| => BeatLine(lines, duration, beats, i))
  }

  /** The demo schedule for the non-blank lines: none for no lines, the beat
      split when there are at least as many beats as lines, else the even split. */
  function DemoSchedule(lines: seq<string>, duration: real, beats: seq<real>): (r: seq<AILyric>)
    ensures |r| == |lines|
  {
    if |lines| == 0 then []
    else if |beats| >= |lines| then DemoBeatSplit(lines, duration, beats)
    else DemoEvenSplit(lines, duration)
  }

  /** `createDemoAISync(lyrics, duration, beats).lyrics` */
  function DemoAISync(lyrics: string, duration: real, beats: seq<real>): (r: seq<AILyric>)
    ensures |r| == |NonBlankLines(lyrics)|
  {
    DemoSchedule(NonBlankLines(lyrics), duration, beats)
  }

  /** One entry per non-blank line, trimmed, in order, and none when there are
      no such lines. */
  lemma DemoAISyncLines(lyrics: string, duration: real, beats: seq<real>)
    ensures var lines := NonBlankLines(lyrics);
            var r := DemoAISync(lyrics, duration, beats);
            && (r == [] <==> lines == [])
            && forall i :: 0 <= i < |r| ==> r[i].text == JString(lines[i]) && IsTrimmedLine(lines[i])
  {
    var lines := NonBlankLines(lyrics);
    DemoScheduleTexts(lines, duration, beats);
  }

  lemma DemoScheduleTexts(lines: seq<string>, duration: real, beats: seq<real>)
    ensures var r := DemoSchedule(lines, duration, beats);
            forall i :: 0 <= i < |r| ==> r[i].text == JString(lines[i])
  {
  }

  /** Even-split branch: line `i` starts at `i * d / n`, and every line ends
      0.2 s before the next one starts. */
  lemma DemoEvenSplitTimes(lines: seq<string>, duration: real, beats: seq<real>)
    requires |beats| < |lines|
    ensures var n := |lines|;
            var r := DemoSchedule(lines, duration, beats);
            && (forall i :: 0 <= i < n ==> r[i].startTime == i as real * duration / n as real)
            && (forall i :: 0 <= i < n ==> r[i].endTime == (i + 1) as real * duration / n as real - LineGap)
            && (forall i :: 0 < i < n ==> r[i - 1].endTime + LineGap == r[i].startTime)
  {
    var n := |lines|;
    var r := DemoSchedule(lines, duration, beats);
    forall i | 0 <= i < n
      ensures r[i].startTime == i as real * duration / n as real
      ensures r[i].endTime == (i + 1) as real * duration / n as real - LineGap
    {
      assert r[i] == EvenLine(lines, duration, i);
      EvenLineTimes(lines, duration, i);
    }
    forall i | 0 < i < n ensures r[i - 1].endTime + LineGap == r[i].startTime {
      assert r[i - 1] == EvenLine(lines, duration, i - 1) && r[i] == EvenLine(lines, duration, i);
    }
  }

  lemma EvenLineTimes(lines: seq<string>, duration: real, i: nat)
    requires i < |lines|
    ensures var n := |lines| as real;
            && EvenLine(lines, duration, i).startTime == i as real * duration / n
            && EvenLine(lines, duration, i).endTime == (i + 1) as real * duration / n - LineGap
  {
    var n := |lines| as real;
    assert EvenLine(lines, duration, i).startTime == i as real * duration / n by {
      DivScale(i as real, duration, n);
    }
    assert EvenLine(lines, duration, i).endTime == (i + 1) as real * duration / n - LineGap by {
      DivScale((i + 1) as real, duration, n);
    }
  }

  lemma DivScale(a: real, d: real, n: real)
    requires n > 0.0
    ensures a * (d / n) == a * d / n
  {
  }

  /** Beat branch: line `i` starts on beat `i`, or at `i * d / n` when that beat
      is 0; it ends on beat `i + 1` when that beat exists and is non-zero, and
      otherwise at `(i + 1) * d / n - 0.2`. */
  lemma DemoBeatSplitTimes(lines: seq<string>, duration: real, beats: seq<real>, i: nat)
    requires |lines| > 0 && |beats| >= |lines| && i < |lines|
    ensures var n := |lines| as real;
            var r := DemoSchedule(lines, duration, beats)[i];
            && r.startTime == (if beats[i] != 0.0 then beats[i] else i as real * duration / n)
            && r.endTime == (if i + 1 < |beats| && beats[i + 1] != 0.0 then beats[i + 1]
                             else (i + 1) as real * duration / n - LineGap)
  {
    assert DemoSchedule(lines, duration, beats)[i] == BeatLine(lines, duration, beats, i);
  }

  /** With genuine detected beats (all positive) there are no fallbacks: the
      lines sit on consecutive beats, and only a last line without a further
      beat ends on the even-split time. */
  lemma DemoBeatSplitOnBeats(lines: seq<string>, duration: real, beats: seq<real>)
    requires |lines| > 0 && |beats| >= |lines|
    requires forall k :: 0 <= k < |beats| ==> beats[k] > 0.0
    ensures var r := DemoSchedule(lines, duration, beats);
            && (forall i :: 0 <= i < |r| ==> r[i].startTime == beats[i])
            && (forall i :: 0 <= i < |r| && i + 1 < |beats| ==> r[i].endTime == beats[i + 1])
  {
    var r := DemoSchedule(lines, duration, beats);
    forall i | 0 <= i < |r| ensures r[i].startTime == beats[i] && (i + 1 < |beats| ==> r[i].endTime == beats[i + 1]) {
      DemoBeatSplitTimes(lines, duration, beats, i);
    }
  }

  // ---------------------------------------------------------------------------
  // parseGeminiResponse

  /** The index of the last `c` in `s`, or -1. */
  function LastIndexOf(s: string, c: char): (i: int)
    ensures -1 <= i < |s|
    ensures i >= 0 ==> s[i] == c
    ensures forall k :: i < k < |s| ==> s[k] != c
  {
    if s == [] then -1 else if s[|s| - 1] == c then |s| - 1 else LastIndexOf(s[..|s| - 1], c)
  }

  /** `response.match(/\{[\s\S]*\}/)`: the greedy match runs from the first `{`
      to the last `}` after it; there is none when no `}` follows a `{`. */
  function ExtractJsonSpan(response: string): (r: Option<string>)
    ensures r.Some? ==> |r.value| >= 2 && r.value[0] == '{' && r.value[|r.value| - 1] == '}'
  {
    var first := IndexOf(response, '{');
    var last := LastIndexOf(response, '}');
    if first < last then Some(response[first..last + 1]) else None
  }

  /** The span exists exactly when some `{` comes before some `}`, and it then
      begins at the first `{` and ends at the last `}`. */
  lemma ExtractJsonSpanSpec(response: string)
    ensures ExtractJsonSpan(response).Some? <==>
            exists p, q :: 0 <= p < q < |response| && response[p] == '{' && response[q] == '}'
    ensures ExtractJsonSpan(response).Some? ==>
            exists p, q :: 0 <= p < q < |response| && ExtractJsonSpan(response).value == response[p..q + 1]
              && response[p] == '{' && response[q] == '}'
              && (forall k :: 0 <= k < p ==> response[k] != '{')
              && (forall k :: q < k < |response| ==> response[k] != '}')
  {
    var first := IndexOf(response, '{');
    var last := LastIndexOf(response, '}');
    if exists p, q :: 0 <= p < q < |response| && response[p] == '{' && response[q] == '}' {
      var p, q :| 0 <= p < q < |response| && response[p] == '{' && response[q] == '}';
      assert first <= p;
      assert q <= last;
    }
  }

  /** Property access: `undefined` (None) unless `v` is an object holding `key`.
      Reading a property of `null` throws instead, which ends in the same
      failure as `undefined` does below. */
  function Member(v: Json, key: string): Option<Json> {
    if v.JObject? && key in v.fields then Some(v.fields[key]) else None
  }

  /** JavaScript truthiness (`undefined` is None). */
  predicate Truthy(v: Option<Json>) {
    match v
    case None => false
    case Some(JNull) => false
    case Some(JBool(b)) => b
    case Some(JNumber(n)) => n != 0.0
    case Some(JString(s)) => s != ""
    case Some(_) => true
  }

  /** `typeof v === 'number'` */
  predicate IsNumber(v: Option<Json>) {
    v.Some? && v.value.JNumber?
  }

  /** An entry passes when its `text` is truthy and both times are numbers. */
  predicate ValidEntry(v: Json) {
    Truthy(Member(v, "text")) && IsNumber(Member(v, "startTime")) && IsNumber(Member(v, "endTime"))
  }

  function EntryOf(v: Json): AILyric
    requires ValidEntry(v)
  {
    AILyric(Member(v, "text").value, Member(v, "startTime").value.n, Member(v, "endTime").value.n)
  }

  /** Why a response was rejected, before the catch replaces the reason. */
  datatype Rejection = NoJson | Unparsable | InvalidStructure | InvalidEntry(index: nat)

  /** The `forEach` check from entry `from` on: the first invalid entry
      throws. */
  function CheckEntries(items: seq<Json>, from: nat): (r: Result<seq<AILyric>, Rejection>)
    requires from <= |items|
    ensures r.Ok? ==> |r.value| == |items| - from
    ensures r.Err? ==> r.error.InvalidEntry?
    decreases |items| - from
  {
    if from == |items| then Ok([])
    else if !ValidEntry(items[from]) then Err(InvalidEntry(from))
    else
      match CheckEntries(items, from + 1)
      case Ok(rest) => Ok([EntryOf(items[from])] + rest)
      case Err(e) => Err(e)
  }

  /** The entries pass exactly when every one is valid, and then each becomes
      its own lyric; otherwise the rejection names the first invalid one. */
  lemma {:induction false} CheckEntriesSpec(items: seq<Json>, from: nat)
    requires from <= |items|
    ensures var r := CheckEntries(items, from);
            && (r.Ok? <==> forall k :: from <= k < |items| ==> ValidEntry(items[k]))
            && (r.Ok? ==> forall k :: from <= k < |items| ==> r.value[k - from] == EntryOf(items[k]))
            && (r.Err? ==> r.error.InvalidEntry? && from <= r.error.index < |items|
                           && !ValidEntry(items[r.error.index])
                           && forall k :: from <= k < r.error.index ==> ValidEntry(items[k]))
    decreases |items| - from
  {
    if from < |items| && ValidEntry(items[from]) {
      CheckEntriesSpec(items, from + 1);
    }
  }

  /** The whole check, on the parsed value. */
  function ValidateParsed(parsed: Json): (r: Result<seq<AILyric>, Rejection>)
    ensures r == Err(InvalidStructure) <==>
            !(Member(parsed, "lyrics").Some? && Member(parsed, "lyrics").value.JArray?)
    ensures r.Err? ==> r.error.InvalidStructure? || r.error.InvalidEntry?
  {
    match Member(parsed, "lyrics")
    case Some(JArray(items)) => CheckEntries(items, 0)
    case _ => Err(InvalidStructure)
  }

  /** The one message every failure surfaces as. */
  const ParseFailure: string := "Failed to parse AI response"

  /** Extraction, parsing and validation, with the reason kept. `jsonParse`
      stands for `JSON.parse`, None meaning it throws. */
  function CheckResponse(response: string, jsonParse: string -> Option<Json>): (r: Result<seq<AILyric>, Rejection>)
    ensures r == Err(NoJson) <==> ExtractJsonSpan(response).None?
    ensures r == Err(Unparsable) <==>
            ExtractJsonSpan(response).Some? && jsonParse(ExtractJsonSpan(response).value).None?
  {
    match ExtractJsonSpan(response)
    case None => Err(NoJson)
    case Some(span) =>
      match jsonParse(span)
      case None => Err(Unparsable)
      case Some(parsed) => ValidateParsed(parsed)
  }

  /** `parseGeminiResponse`: every failure is rethrown as one message. */
  function ParseGeminiResponse(response: string, jsonParse: string -> Option<Json>): (r: Result<seq<AILyric>, string>)
    ensures r.Err? ==> r.error == ParseFailure
    ensures r.Ok? <==> CheckResponse(response, jsonParse).Ok?
  {
    match CheckResponse(response, jsonParse)
    case Ok(lyrics) => Ok(lyrics)
    case Err(_) => Err(ParseFailure)
  }

  /** A response is accepted exactly when it holds a `{...}` span that parses
      to a value whose `lyrics` is an array of valid entries; the accepted
      lyrics are those entries, in order. */
  lemma ParseGeminiResponseSpec(response: string, jsonParse: string -> Option<Json>)
    ensures var r := ParseGeminiResponse(response, jsonParse);
            var span := ExtractJsonSpan(response);
            && (r.Ok? <==>
                  span.Some? && jsonParse(span.value).Some?
                  && Member(jsonParse(span.value).value, "lyrics").Some?
                  && Member(jsonParse(span.value).value, "lyrics").value.JArray?
                  && var items := Member(jsonParse(span.value).value, "lyrics").value.items;
                     forall k :: 0 <= k < |items| ==> ValidEntry(items[k]))
            && (r.Ok? ==>
                  var items := Member(jsonParse(span.value).value, "lyrics").value.items;
                  |r.value| == |items| && forall k :: 0 <= k < |items| ==> r.value[k] == EntryOf(items[k]))
  {
    var span := ExtractJsonSpan(response);
    if span.Some? && jsonParse(span.value).Some? {
      var lyrics := Member(jsonParse(span.value).value, "lyrics");
      if lyrics.Some? && lyrics.value.JArray? {
        CheckEntriesSpec(lyrics.value.items, 0);
      }
    }
  }

  // ---------------------------------------------------------------------------
  // syncLyricsWithAudio, without the network

  /** The service's answer: the model's text when the request succeeded and
      the answer held one (`generatedText`), parsed; the demo sync when
      anything failed. It never fails itself. */
  function SyncLyricsWithAudio(lyrics: string, duration: real, beats: seq<real>,
                               generatedText: Option<string>, jsonParse: string -> Option<Json>): (r: seq<AILyric>)
    ensures (generatedText.None? || generatedText.value == "") ==> r == DemoAISync(lyrics, duration, beats)
    ensures generatedText.Some? && generatedText.value != "" ==>
            var checked := CheckResponse(generatedText.value, jsonParse);
            && (checked.Ok? ==> r == checked.value)
            && (checked.Err? ==> r == DemoAISync(lyrics, duration, beats))
  {
    if generatedText.None? || generatedText.value == "" then DemoAISync(lyrics, duration, beats)
    else
      match ParseGeminiResponse(generatedText.value, jsonParse)
      case Ok(parsed) => parsed
      case Err(_) => DemoAISync(lyrics, duration, beats)
  }

  /** The catch around `parseGeminiResponse`: a non-empty answer whose parse
      throws (with its one message) gives the demo sync, and one whose parse
      returns gives exactly the parsed lyrics. */
  lemma SyncFallsBack(lyrics: string, duration: real, beats: seq<real>,
                      text: string, jsonParse: string -> Option<Json>)
    requires text != ""
    ensures var r := SyncLyricsWithAudio(lyrics, duration, beats, Some(text), jsonParse);
            var parsed := ParseGeminiResponse(text, jsonParse);
            && (parsed.Err? ==> parsed.error == ParseFailure && r == DemoAISync(lyrics, duration, beats))
            && (parsed.Ok? ==> r == parsed.value)
  {
  }

  // ---------------------------------------------------------------------------
  // The beat list of createSyncPrompt

  /** How many beats the prompt lists. */
  const ListedBeats: nat := 20

  /** The formatted first 20 beats. */
  function BeatStrings(beats: seq<real>): (r: seq<string>)
    ensures |r| == MinInt(ListedBeats, |beats|)
    ensures forall k :: 0 <= k < |r| ==> r[k] == ToFixed2(beats[k])
    ensures forall k :: 0 <= k < |r| ==> ',' !in r[k] && |r[k]| >= 1 && IsDigit(r[k][|r[k]| - 1])
  {
    seq(MinInt(ListedBeats, |beats|), k requires 0 <= k < MinInt(ListedBeats, |beats|) => ToFixed2(beats[k]))
  }

  /** `beats.slice(0, 20).map(b => b.toFixed(2)).join(', ')` followed by `...`
      when there are more than 20 beats. */
  function BeatList(beats: seq<real>): (r: string)
    ensures |beats| > ListedBeats ==> EndsWithEllipsis(r)
  {
    Join(BeatStrings(beats), ", ") + (if |beats| > ListedBeats then "..." else "")
  }

  predicate EndsWithEllipsis(s: string) {
    |s| >= 3 && s[|s| - 3..] == "..."
  }

  /** The listed values are separated by exactly one comma each. */
  lemma {:induction false} JoinCommaCount(parts: seq<string>)
    requires |parts| >= 1
    requires forall k :: 0 <= k < |parts| ==> ',' !in parts[k]
    ensures multiset(Join(parts, ", "))[','] == |parts| - 1
  {
    if |parts| > 1 {
      JoinCommaCount(parts[1..]);
      assert parts[0] in parts;
      assert multiset(parts[0])[','] == 0;
      assert Join(parts, ", ") == parts[0] + ", " + Join(parts[1..], ", ");
    } else {
      assert multiset(parts[0])[','] == 0;
    }
  }

  /** A join ends with its last part. */
  lemma {:induction false} JoinEndsWithLast(parts: seq<string>, sep: string)
    requires |parts| >= 1
    ensures var s := Join(parts, sep);
            |parts[|parts| - 1]| <= |s| && s[|s| - |parts[|parts| - 1]|..] == parts[|parts| - 1]
  {
    if |parts| > 1 {
      JoinEndsWithLast(parts[1..], sep);
      var s := Join(parts, sep);
      var rest := Join(parts[1..], sep);
      var last := parts[|parts| - 1];
      assert parts[1..][|parts| - 2] == last;
      assert s == parts[0] + sep + rest;
      assert s[|s| - |last|..] == rest[|rest| - |last|..];
    }
  }

  /** The prompt lists `min(20, n)` beat values (one comma fewer) and
      ends with `...` exactly when there are more than 20 beats. */
  lemma BeatListShape(beats: seq<real>)
    ensures beats != [] ==> multiset(BeatList(beats))[','] == MinInt(ListedBeats, |beats|) - 1
    ensures beats == [] ==> BeatList(beats) == ""
    ensures EndsWithEllipsis(BeatList(beats)) <==> |beats| > ListedBeats
  {
    var parts := BeatStrings(beats);
    var suffix := if |beats| > ListedBeats then "..." else "";
    assert BeatList(beats) == Join(parts, ", ") + suffix;
    if beats == [] {
      assert parts == [] && suffix == "";
    } else {
      ListedShape(parts, suffix);
    }
  }

  lemma ListedShape(parts: seq<string>, suffix: string)
    requires suffix == "..." || suffix == ""
    requires forall k :: 0 <= k < |parts| ==> ',' !in parts[k] && |parts[k]| >= 1 && IsDigit(parts[k][|parts[k]| - 1])
    ensures parts != [] ==> multiset(Join(parts, ", ") + suffix)[','] == |parts| - 1
    ensures parts == [] ==> Join(parts, ", ") + suffix == suffix
    ensures parts != [] ==> (EndsWithEllipsis(Join(parts, ", ") + suffix) <==> suffix == "...")
  {
    if parts != [] {
      JoinCommaCount(parts);
      JoinEndsWithLast(parts, ", ");
      ListedEndsWithDigit(Join(parts, ", "), parts[|parts| - 1]);
      SuffixShape(Join(parts, ", "), suffix);
    }
  }

  lemma ListedEndsWithDigit(listed: string, last: string)
    requires |last| >= 1 && IsDigit(last[|last| - 1])
    requires |last| <= |listed| && listed[|listed| - |last|..] == last
    ensures IsDigit(listed[|listed| - 1])
  {
    assert listed[|listed| - 1] == listed[|listed| - |last|..][|last| - 1];
  }

  lemma SuffixShape(listed: string, suffix: string)
    requires suffix == "..." || suffix == ""
    requires listed != [] && IsDigit(listed[|listed| - 1])
    ensures multiset(listed + suffix)[','] == multiset(listed)[',']
    ensures EndsWithEllipsis(listed + suffix) <==> suffix == "..."
  {
    var s := listed + suffix;
    if suffix == "" {
      assert s == listed;
      if |s| >= 3 {
        assert s[|s| - 3..][2] == s[|s| - 1];
      }
    } else {
      assert s[|s| - 3..] == suffix;
    }
  }
}
