/** The editor's rules: the `M:SS.CC` clock notation and its reader, the
    edit-in-progress state, and the positional application of AI results. */
module LyricEditor {
  import opened Wrappers
  import opened Numbers
  import opened Strings
  import opened LyricSync
  import opened GeminiAI

  // ---------------------------------------------------------------------------
  // formatTime

  /** Minutes, seconds and hundredths written as `M:SS.CC`: seconds and
      hundredths through `toString().padStart(2, '0')`. */
  function Clock(mins: int, secs: int, hundredths: int): string {
    IntToString(mins) + ":" + PadStart2(IntToString(secs)) + "." + PadStart2(IntToString(hundredths))
  }

  /** `formatTime(seconds)` (the editor and the timeline define the same one). */
  function FormatTime(seconds: real): (r: string)
    ensures |r| >= 7
  {
    Clock(Floor(seconds / 60.0), Floor(JsRem(seconds, 60.0)), Floor(JsRem(seconds, 1.0) * 100.0))
  }

  /** `n.toString().padStart(2, '0')` */
  function TwoDigits(n: nat): string {
    PadStart2(NatToString(n))
  }

  /** For a non-negative time the notation is `M:SS.CC`: whole minutes, then
      the seconds within the minute and the hundredths within the second,
      each as exactly two digits. */
  lemma FormatTimeShape(seconds: real)
    requires seconds >= 0.0
    ensures var mins := Floor(seconds / 60.0);
            var secs := Floor(JsRem(seconds, 60.0));
            var hundredths := Floor(JsRem(seconds, 1.0) * 100.0);
            && mins >= 0 && 0 <= secs < 60 && 0 <= hundredths < 100
            && FormatTime(seconds) == NatToString(mins) + ":" + TwoDigits(secs) + "." + TwoDigits(hundredths)
            && |TwoDigits(secs)| == 2 && AllDigits(TwoDigits(secs))
            && |TwoDigits(hundredths)| == 2 && AllDigits(TwoDigits(hundredths))
  {
    var mins := Floor(seconds / 60.0);
    var secs := Floor(JsRem(seconds, 60.0));
    var hundredths := Floor(JsRem(seconds, 1.0) * 100.0);
    FieldBounds(seconds);
    ClockOfNats(mins, secs, hundredths);
    TwoDigitsNumber(secs);
    TwoDigitsNumber(hundredths);
  }

  lemma FieldBounds(seconds: real)
    requires seconds >= 0.0
    ensures Floor(seconds / 60.0) >= 0
    ensures 0 <= Floor(JsRem(seconds, 60.0)) < 60
    ensures 0 <= Floor(JsRem(seconds, 1.0) * 100.0) < 100
  {
    HundredthsBound(JsRem(seconds, 1.0));
  }

  lemma HundredthsBound(f: real)
    requires 0.0 <= f < 1.0
    ensures 0 <= Floor(f * 100.0) < 100
  {
  }

  lemma FloorShift(x: real, n: int)
    ensures Floor(x - n as real) == Floor(x) - n
  {
  }

  lemma NestedDiv(h: nat)
    ensures (h / 100) / 60 == h / 6000
    ensures (h / 6000) * 60 + (h / 100) % 60 == h / 100
  {
  }

  /** The time of `h` hundredths of a second, and the three fields its
      notation should show. */
  function TimeOfHundredths(h: nat): real {
    h as real / 100.0
  }

  function MinutesOf(h: nat): nat {
    h / 6000
  }

  function SecondsOf(h: nat): (s: nat)
    ensures s < 60
  {
    (h / 100) % 60
  }

  function CentisOf(h: nat): (c: nat)
    ensures c < 100
  {
    h % 100
  }

  /** The notation of `h` hundredths of a second shows its whole minutes,
      the whole seconds within the minute and the hundredths within the
      second. */
  lemma FormatHundredths(h: nat)
    ensures FormatTime(TimeOfHundredths(h)) == Clock(MinutesOf(h), SecondsOf(h), CentisOf(h))
  {
    MinutesOfHundredths(h);
    SecondsOfHundredths(h);
    FractionOfHundredths(h);
  }

  lemma MinutesOfHundredths(h: nat)
    ensures Floor((h as real / 100.0) / 60.0) == h / 6000
  {
    assert (h as real / 100.0) / 60.0 == h as real / 6000.0;
    FloorOfQuotient(h, 6000);
  }

  lemma SecondsOfHundredths(h: nat)
    ensures Floor(JsRem(h as real / 100.0, 60.0)) == (h / 100) % 60
  {
    var x := h as real / 100.0;
    MinutesOfHundredths(h);
    var q := h / 6000;
    assert Trunc(x / 60.0) == q;
    assert JsRem(x, 60.0) == x - (60 * q) as real;
    FloorShift(x, 60 * q);
    FloorOfQuotient(h, 100);
    NestedDiv(h);
  }

  lemma FractionOfHundredths(h: nat)
    ensures Floor(JsRem(h as real / 100.0, 1.0) * 100.0) == h % 100
  {
    var x := h as real / 100.0;
    FloorOfQuotient(h, 100);
    assert Trunc(x / 1.0) == h / 100;
    var w := (h / 100) as real;
    assert JsRem(x, 1.0) == x - w;
    assert (x - w) * 100.0 == h as real - w * 100.0;
    assert h as real - w * 100.0 == (h % 100) as real;
  }

  // ---------------------------------------------------------------------------
  // parseTime

  /** `Number(ms) / 100` when the part after the point is non-empty, 0 when it
      is empty or absent (both falsy); None is `NaN`. */
  function FractionOf(ms: string): Option<real> {
    if ms == "" then Some(0.0)
    else
      match NumberOf(ms)
      case None => None
      case Some(v) => Some(v / 100.0)
  }

  /** `time.split(':').map(Number)` and `mins * 60 + secs`: a missing `secs`
      is `undefined`, so the sum is `NaN` (None). Parts after a second `:`
      are ignored. */
  function ClockOf(time: string): Option<real> {
    var clock := Split(time, ':');
    var mins := NumberOf(clock[0]);
    var secs := if |clock| > 1 then NumberOf(clock[1]) else None;
    if mins.Some? && secs.Some? then Some(mins.value * 60.0 + secs.value) else None
  }

  /** `timeStr.split('.')`: the part before the first point. */
  function TimePart(timeStr: string): string {
    Split(timeStr, '.')[0]
  }

  /** The part after the first point, `""` when there is none (`undefined`
      and `""` are both falsy). */
  function MsPart(timeStr: string): string {
    var parts := Split(timeStr, '.');
    if |parts| > 1 then parts[1] else ""
  }

  /** `a + b` where either may be `NaN`. */
  function Plus(a: Option<real>, b: Option<real>): (r: Option<real>)
    ensures r.Some? <==> a.Some? && b.Some?
    ensures r.Some? ==> r.value == a.value + b.value
  {
    if a.Some? && b.Some? then Some(a.value + b.value) else None
  }

  /** `parseTime(timeStr)`: the part before the first `.` is read as
      `mins:secs`, the part after it as hundredths; parts after a second `.`
      are ignored. */
  function ParseTime(timeStr: string): (r: Option<real>)
    ensures r.Some? <==> ClockOf(TimePart(timeStr)).Some? && FractionOf(MsPart(timeStr)).Some?
  {
    Plus(ClockOf(TimePart(timeStr)), FractionOf(MsPart(timeStr)))
  }

  lemma DigitsHaveNoChar(s: string, c: char)
    requires AllDigits(s) && !IsDigit(c)
    ensures c !in s
  {
  }

  /** Text of the form `A:B.C` splits into its three parts. */
  lemma ClockSplits(a: string, b: string, c: string)
    requires AllDigits(a) && AllDigits(b) && AllDigits(c)
    ensures Split(a + ":" + b + "." + c, '.') == [a + ":" + b, c]
    ensures Split(a + ":" + b, ':') == [a, b]
  {
    FractionSplits(a + ":" + b, a, b, c);
    ColonSplits(a, b);
  }

  lemma FractionSplits(left: string, a: string, b: string, c: string)
    requires AllDigits(a) && AllDigits(b) && AllDigits(c) && left == a + ":" + b
    ensures Split(left + "." + c, '.') == [left, c]
  {
    DigitsHaveNoChar(a, '.');
    DigitsHaveNoChar(b, '.');
    DigitsHaveNoChar(c, '.');
    assert '.' !in a + ":";
    assert '.' !in left;
    assert Join([left, c], ".") == left + "." + c;
    SplitJoin([left, c], '.');
  }

  lemma ColonSplits(a: string, b: string)
    requires AllDigits(a) && AllDigits(b)
    ensures Split(a + ":" + b, ':') == [a, b]
  {
    DigitsHaveNoChar(a, ':');
    DigitsHaveNoChar(b, ':');
    assert Join([a, b], ":") == a + ":" + b;
    SplitJoin([a, b], ':');
  }

  /** A `mins:secs` text of two numbers reads as `mins * 60 + secs`. */
  lemma {:induction false} ClockOfPieces(time: string, mins: string, secs: string, x: real, y: real)
    requires Split(time, ':') == [mins, secs]
    requires NumberOf(mins) == Some(x) && NumberOf(secs) == Some(y)
    ensures ClockOf(time) == Some(x * 60.0 + y)
  {
    var clock := Split(time, ':');
    assert clock[0] == mins && |clock| > 1 && clock[1] == secs;
  }

  /** A time text with one point reads as the sum of its two parts. */
  lemma {:induction false} ParseOfPieces(text: string, time: string, ms: string)
    requires Split(text, '.') == [time, ms]
    ensures ParseTime(text) == Plus(ClockOf(time), FractionOf(ms))
  {
    assert TimePart(text) == time;
    assert MsPart(text) == ms;
  }

  /** A time text without a point reads as its clock part. */
  lemma {:induction false} ParseOfWhole(text: string, time: string)
    requires Split(text, '.') == [time]
    ensures ParseTime(text) == Plus(ClockOf(time), FractionOf(""))
  {
    assert TimePart(text) == time;
    assert MsPart(text) == "";
  }

  lemma PlusSome(a: Option<real>, b: Option<real>, x: real, y: real)
    requires a == Some(x) && b == Some(y)
    ensures Plus(a, b) == Some(x + y)
  {
  }

  lemma FractionOfDigits(c: string, v: real)
    requires c != "" && NumberOf(c) == Some(v)
    ensures FractionOf(c) == Some(v / 100.0)
  {
  }

  /** A text that splits into `a`, `b` and `c` around its colon and point
      reads as `a * 60 + b + c / 100`. */
  lemma {:induction false} ParseOfSplits(text: string, time: string, a: string, b: string, c: string, x: real, y: real, z: real)
    requires Split(text, '.') == [time, c] && Split(time, ':') == [a, b] && c != ""
    requires NumberOf(a) == Some(x) && NumberOf(b) == Some(y) && NumberOf(c) == Some(z)
    ensures ParseTime(text) == Some(x * 60.0 + y + z / 100.0)
  {
    ClockOfPieces(time, a, b, x, y);
    ParseOfClock(text, time, c, x * 60.0 + y, z);
  }

  /** A text whose clock part reads as `w` and whose fraction digits read as
      `z` reads as `w + z / 100`. */
  lemma {:induction false} ParseOfClock(text: string, time: string, c: string, w: real, z: real)
    requires Split(text, '.') == [time, c] && c != ""
    requires ClockOf(time) == Some(w) && NumberOf(c) == Some(z)
    ensures ParseTime(text) == Some(w + z / 100.0)
  {
    ParseOfPieces(text, time, c);
    PlusFraction(ClockOf(time), c, w, z);
    SameValue(ParseTime(text), Plus(ClockOf(time), FractionOf(c)), w + z / 100.0);
  }

  lemma SameValue(p: Option<real>, q: Option<real>, v: real)
    requires p == q && q.Some? && q.value == v
    ensures p == Some(v)
  {
  }

  lemma PlusFraction(clock: Option<real>, c: string, w: real, z: real)
    requires c != "" && NumberOf(c) == Some(z) && clock == Some(w)
    ensures Plus(clock, FractionOf(c)) == Some(w + z / 100.0)
  {
    FractionOfDigits(c, z);
    PlusSome(clock, FractionOf(c), w, z / 100.0);
  }

  /** The three fields of an `A:B.C` text: digit strings (the last one
      non-empty) and what `Number` reads from each. */
  predicate ClockFields(a: string, b: string, c: string, x: real, y: real, z: real) {
    && AllDigits(a) && AllDigits(b) && AllDigits(c) && c != ""
    && NumberOf(a) == Some(x) && NumberOf(b) == Some(y) && NumberOf(c) == Some(z)
  }

  /** `A:B.C` for digit strings reads as `A * 60 + B + C / 100`. */
  lemma {:induction false} ParseClockText(a: string, b: string, c: string, x: real, y: real, z: real)
    requires ClockFields(a, b, c, x, y, z)
    ensures ParseTime(a + ":" + b + "." + c) == Some(x * 60.0 + y + z / 100.0)
  {
    ClockSplits(a, b, c);
    ParseOfSplits(a + ":" + b + "." + c, a + ":" + b, a, b, c, x, y, z);
  }

  lemma TwoDigitsNumber(n: nat)
    requires n < 100
    ensures |TwoDigits(n)| == 2 && AllDigits(TwoDigits(n))
    ensures NumberOf(TwoDigits(n)) == Some(n as real)
  {
    TwoDigitsValue(n);
    NumberOfNat(n);
  }

  lemma ClockFieldsRead(mins: nat, secs: nat, hundredths: nat)
    requires secs < 100 && hundredths < 100
    ensures ClockFields(NatToString(mins), TwoDigits(secs), TwoDigits(hundredths), mins as real, secs as real, hundredths as real)
  {
    NumberOfNat(mins);
    TwoDigitsNumber(secs);
    TwoDigitsNumber(hundredths);
  }

  /** Reading `M:SS.CC` back gives `M * 60 + SS + CC / 100`. */
  lemma ParseClock(mins: nat, secs: nat, hundredths: nat)
    requires secs < 100 && hundredths < 100
    ensures ParseTime(NatToString(mins) + ":" + TwoDigits(secs) + "." + TwoDigits(hundredths))
            == Some(mins as real * 60.0 + secs as real + hundredths as real / 100.0)
  {
    ClockFieldsRead(mins, secs, hundredths);
    ParseClockOfFields(mins, secs, hundredths);
  }

  lemma ParseClockOfFields(mins: nat, secs: nat, hundredths: nat)
    requires secs < 100 && hundredths < 100
    requires ClockFields(NatToString(mins), TwoDigits(secs), TwoDigits(hundredths), mins as real, secs as real, hundredths as real)
    ensures ParseTime(NatToString(mins) + ":" + TwoDigits(secs) + "." + TwoDigits(hundredths))
            == Some(mins as real * 60.0 + secs as real + hundredths as real / 100.0)
  {
    ParseClockText(NatToString(mins), TwoDigits(secs), TwoDigits(hundredths), mins as real, secs as real, hundredths as real);
  }

  /** A minute count typed with a sign reads as that signed count: `-1:00.00`
      is -60 seconds, which `handleTimeChange` then clamps to 0. */
  lemma ParseSignedClock(mins: int, secs: nat, hundredths: nat)
    requires secs < 100 && hundredths < 100
    ensures ParseTime(IntToString(mins) + ":" + TwoDigits(secs) + "." + TwoDigits(hundredths))
            == Some(mins as real * 60.0 + secs as real + hundredths as real / 100.0)
  {
    SignedFieldsRead(mins, secs, hundredths);
    ParseSignedOfFields(mins, secs, hundredths);
  }

  /** The fields of a signed `A:B.C` text: a numeral with perhaps a minus,
      then digit strings (the last one non-empty), and what `Number` reads
      from each. */
  predicate SignedClockFields(a: string, b: string, c: string, x: real, y: real, z: real) {
    && (forall k :: 0 <= k < |a| ==> a[k] == '-' || IsDigit(a[k]))
    && AllDigits(b) && AllDigits(c) && c != ""
    && NumberOf(a) == Some(x) && NumberOf(b) == Some(y) && NumberOf(c) == Some(z)
  }

  lemma SignedFieldsRead(mins: int, secs: nat, hundredths: nat)
    requires secs < 100 && hundredths < 100
    ensures SignedClockFields(IntToString(mins), TwoDigits(secs), TwoDigits(hundredths), mins as real, secs as real, hundredths as real)
  {
    NumberOfInt(mins);
    TwoDigitsNumber(secs);
    TwoDigitsNumber(hundredths);
    IntToStringChars(mins);
  }

  lemma ParseSignedOfFields(mins: int, secs: nat, hundredths: nat)
    requires SignedClockFields(IntToString(mins), TwoDigits(secs), TwoDigits(hundredths), mins as real, secs as real, hundredths as real)
    ensures ParseTime(IntToString(mins) + ":" + TwoDigits(secs) + "." + TwoDigits(hundredths))
            == Some(mins as real * 60.0 + secs as real + hundredths as real / 100.0)
  {
    ParseSignedText(IntToString(mins), TwoDigits(secs), TwoDigits(hundredths), mins as real, secs as real, hundredths as real);
  }

  lemma {:induction false} ParseSignedText(a: string, b: string, c: string, x: real, y: real, z: real)
    requires SignedClockFields(a, b, c, x, y, z)
    ensures ParseTime(a + ":" + b + "." + c) == Some(x * 60.0 + y + z / 100.0)
  {
    SignedClockSplits(a, b, c);
    ParseOfSplits(a + ":" + b + "." + c, a + ":" + b, a, b, c, x, y, z);
  }

  lemma SignedClockSplits(a: string, b: string, c: string)
    requires forall k :: 0 <= k < |a| ==> a[k] == '-' || IsDigit(a[k])
    requires AllDigits(b) && AllDigits(c)
    ensures Split(a + ":" + b + "." + c, '.') == [a + ":" + b, c]
    ensures Split(a + ":" + b, ':') == [a, b]
  {
    SignedLeftFree(a, b);
    PointSplits(a + ":" + b, c);
    SignedColonSplits(a, b);
  }

  /** The clock part of a signed text holds no point. */
  lemma SignedLeftFree(a: string, b: string)
    requires forall k :: 0 <= k < |a| ==> a[k] == '-' || IsDigit(a[k])
    requires AllDigits(b)
    ensures '.' !in a + ":" + b
  {
    var left := a + ":" + b;
    assert forall k :: 0 <= k < |left| ==> left[k] == (if k < |a| then a[k] else if k == |a| then ':' else b[k - |a| - 1]);
  }

  lemma PointSplits(left: string, c: string)
    requires '.' !in left && AllDigits(c)
    ensures Split(left + "." + c, '.') == [left, c]
  {
    DigitsHaveNoChar(c, '.');
    assert Join([left, c], ".") == left + "." + c;
    SplitJoin([left, c], '.');
  }

  lemma SignedColonSplits(a: string, b: string)
    requires forall k :: 0 <= k < |a| ==> a[k] == '-' || IsDigit(a[k])
    requires AllDigits(b)
    ensures Split(a + ":" + b, ':') == [a, b]
  {
    assert ':' !in a;
    DigitsHaveNoChar(b, ':');
    assert Join([a, b], ":") == a + ":" + b;
    SplitJoin([a, b], ':');
  }

  /** Text of the form `A:B` splits once, on the colon. */
  lemma WholeClockSplits(a: string, b: string)
    requires AllDigits(a) && AllDigits(b)
    ensures Split(a + ":" + b, '.') == [a + ":" + b]
    ensures Split(a + ":" + b, ':') == [a, b]
  {
    DigitsHaveNoChar(a, '.');
    DigitsHaveNoChar(b, '.');
    DigitsHaveNoChar(a, ':');
    DigitsHaveNoChar(b, ':');
    var text := a + ":" + b;
    assert '.' !in text by {
      assert forall k :: 0 <= k < |text| ==> text[k] == (if k < |a| then a[k] else if k == |a| then ':' else b[k - |a| - 1]);
    }
    SplitJoin([text], '.');
    assert Join([a, b], ":") == text;
    SplitJoin([a, b], ':');
  }

  /** A text that splits into `a` and `b` around its colon, with no point,
      reads as `a * 60 + b`. */
  lemma {:induction false} ParseWholeOfSplits(text: string, time: string, a: string, b: string, x: real, y: real)
    requires Split(text, '.') == [time] && Split(time, ':') == [a, b]
    requires NumberOf(a) == Some(x) && NumberOf(b) == Some(y)
    ensures ParseTime(text) == Some(x * 60.0 + y)
  {
    ParseOfWhole(text, time);
    ClockOfPieces(time, a, b, x, y);
    assert FractionOf("") == Some(0.0);
    PlusSome(ClockOf(time), FractionOf(""), x * 60.0 + y, 0.0);
  }

  /** `A:B` for digit strings reads as `A * 60 + B`. */
  lemma {:induction false} ParseWholeClockText(a: string, b: string, x: real, y: real)
    requires AllDigits(a) && AllDigits(b)
    requires NumberOf(a) == Some(x) && NumberOf(b) == Some(y)
    ensures ParseTime(a + ":" + b) == Some(x * 60.0 + y)
  {
    WholeClockSplits(a, b);
    ParseWholeOfSplits(a + ":" + b, a + ":" + b, a, b, x, y);
  }

  /** Without a point, `M:S` reads as `M * 60 + S`. */
  lemma ParseWholeClock(mins: nat, secs: nat)
    ensures ParseTime(NatToString(mins) + ":" + NatToString(secs)) == Some(mins as real * 60.0 + secs as real)
  {
    NumberOfNat(mins);
    NumberOfNat(secs);
    ParseWholeClockText(NatToString(mins), NatToString(secs), mins as real, secs as real);
  }

  /** The notation of a time that is a whole number of hundredths reads back
      as that time. */
  lemma ParseFormatTime(h: nat)
    ensures ParseTime(FormatTime(TimeOfHundredths(h))) == Some(TimeOfHundredths(h))
  {
    FormatHundredths(h);
    HundredthsSum(h);
    ReadsBack(TimeOfHundredths(h), FormatTime(TimeOfHundredths(h)), MinutesOf(h), SecondsOf(h), CentisOf(h));
  }

  /** A notation whose fields add up to `t` reads back as `t`. */
  lemma ReadsBack(t: real, text: string, mins: nat, secs: nat, hundredths: nat)
    requires secs < 100 && hundredths < 100
    requires text == Clock(mins, secs, hundredths)
    requires mins as real * 60.0 + secs as real + hundredths as real / 100.0 == t
    ensures ParseTime(text) == Some(t)
  {
    ClockOfNats(mins, secs, hundredths);
    ParseClock(mins, secs, hundredths);
    SameValue(ParseTime(text), Some(mins as real * 60.0 + secs as real + hundredths as real / 100.0), t);
  }

  lemma ClockOfNats(mins: nat, secs: nat, hundredths: nat)
    requires secs < 100 && hundredths < 100
    ensures Clock(mins, secs, hundredths) == NatToString(mins) + ":" + TwoDigits(secs) + "." + TwoDigits(hundredths)
  {
  }

  lemma HundredthsSum(h: nat)
    ensures MinutesOf(h) as real * 60.0 + SecondsOf(h) as real + CentisOf(h) as real / 100.0 == TimeOfHundredths(h)
  {
    NestedDiv(h);
    var w := h / 100;
    assert (h / 6000) * 60 + (h / 100) % 60 == w;
    assert w * 100 + h % 100 == h;
    assert (h / 6000) as real * 60.0 + ((h / 100) % 60) as real == w as real;
    assert w as real + (h % 100) as real / 100.0 == (w * 100 + h % 100) as real / 100.0;
  }

  // ---------------------------------------------------------------------------
  // handleAISync: the result-application loop

  /** The updates the loop issues: result `i` retimes `lyrics[i]`; results
      past the last lyric are skipped. */
  function PositionalUpdates(lyrics: seq<LyricLine>, results: seq<AILyric>): (r: seq<TimingUpdate>)
    ensures |r| == MinInt(|lyrics|, |results|)
    ensures forall i :: 0 <= i < |r| ==>
              r[i] == TimingUpdate(lyrics[i].id, results[i].startTime, results[i].endTime)
  {
    seq(MinInt(|lyrics|, |results|), i requires 0 <= i < MinInt(|lyrics|, |results|) =>
      TimingUpdate(lyrics[i].id, results[i].startTime, results[i].endTime))
  }

  /** `result.lyrics.forEach((aiLyric, index) => ...)`: the `onUpdateLyric`
      calls, in order. */
  method ApplyAIResults(lyrics: seq<LyricLine>, results: seq<AILyric>) returns (updates: seq<TimingUpdate>)
    ensures updates == PositionalUpdates(lyrics, results)
  {
    updates := [];
    var index := 0;
    while index < |results|
      invariant 0 <= index <= |results|
      invariant updates == PositionalUpdates(lyrics, results[..index])
    {
      var aiLyric := results[index];
      if index < |lyrics| {
        var existingLyric := lyrics[index];
        updates := updates + [TimingUpdate(existingLyric.id, aiLyric.startTime, aiLyric.endTime)];
      }
      index := index + 1;
      assert results[..index][..index - 1] == results[..index - 1];
    }
    assert results[..|results|] == results;
  }

  /** The first `j` lyrics take the times of the results, the rest are unchanged. */
  function RetimedPrefix(lyrics: seq<LyricLine>, results: seq<AILyric>, j: nat): (r: seq<LyricLine>)
    requires j <= |lyrics| && j <= |results|
    ensures |r| == |lyrics|
  {
    seq(|lyrics|, k requires 0 <= k < |lyrics| =>
      if k < j then lyrics[k].(startTime := results[k].startTime, endTime := results[k].endTime) else lyrics[k])
  }

  lemma {:induction false} ApplyPositionalFrom(lyrics: seq<LyricLine>, results: seq<AILyric>, j: nat)
    requires UniqueIds(lyrics)
    requires j <= MinInt(|lyrics|, |results|)
    ensures ApplyUpdates(RetimedPrefix(lyrics, results, j), PositionalUpdates(lyrics, results)[j..])
            == RetimedPrefix(lyrics, results, MinInt(|lyrics|, |results|))
    decreases MinInt(|lyrics|, |results|) - j
  {
    var updates := PositionalUpdates(lyrics, results);
    var current := RetimedPrefix(lyrics, results, j);
    if j == |updates| {
      assert updates[j..] == [];
    } else {
      var u := updates[j];
      assert updates[j..][0] == u && updates[j..][1..] == updates[j + 1..];
      var next := Retimed(current, u.id, u.startTime, u.endTime);
      forall k | 0 <= k < |lyrics| ensures next[k] == RetimedPrefix(lyrics, results, j + 1)[k] {
        assert current[k].id == lyrics[k].id;
        if k != j {
          assert lyrics[k].id != lyrics[j].id;
        }
      }
      assert next == RetimedPrefix(lyrics, results, j + 1);
      ApplyPositionalFrom(lyrics, results, j + 1);
    }
  }

  /** Applied to lyrics with distinct ids, the AI results retime the lyrics
      position by position: result `i` goes to `lyrics[i]`, surplus results
      are ignored and surplus lyrics are untouched. */
  lemma ApplyAIResultsPositional(lyrics: seq<LyricLine>, results: seq<AILyric>)
    requires UniqueIds(lyrics)
    ensures var r := ApplyUpdates(lyrics, PositionalUpdates(lyrics, results));
            && |r| == |lyrics|
            && (forall k :: 0 <= k < |lyrics| && k < |results| ==>
                  r[k] == lyrics[k].(startTime := results[k].startTime, endTime := results[k].endTime))
            && (forall k :: |results| <= k < |lyrics| ==> r[k] == lyrics[k])
  {
    assert RetimedPrefix(lyrics, results, 0) == lyrics;
    assert PositionalUpdates(lyrics, results)[0..] == PositionalUpdates(lyrics, results);
    ApplyPositionalFrom(lyrics, results, 0);
  }

  // ---------------------------------------------------------------------------
  // The editor's state

  /** Which time of the edited line a field edits. */
  datatype TimeField = StartField | EndField

  /** What `handleAISync` did: the updates it issued, or the fallback to
      `onAutoSync` after a failure. */
  datatype AISyncOutcome = Applied(updates: seq<TimingUpdate>) | AutoSynced

  class EditorState {
    var editingLyric: Option<LyricLine>
    var isAISyncing: bool

    constructor ()
      ensures editingLyric.None? && !isAISyncing
    {
      editingLyric := None;
      isAISyncing := false;
    }

    /** `handleEditLyric` */
    method EditLyric(lyric: LyricLine)
      modifies this`editingLyric
      ensures editingLyric == Some(lyric)
    {
      editingLyric := Some(lyric);
    }

    /** `handleSaveLyric`: one update, for the edited line, then no edit; no
        update and no change without an edit. */
    method SaveLyric() returns (update: Option<TimingUpdate>)
      modifies this`editingLyric
      ensures old(editingLyric).None? ==> update.None? && editingLyric.None?
      ensures old(editingLyric).Some? ==>
                var l := old(editingLyric).value;
                update == Some(TimingUpdate(l.id, l.startTime, l.endTime)) && editingLyric.None?
    {
      if editingLyric.None? {
        return None;
      }
      var l := editingLyric.value;
      update := Some(TimingUpdate(l.id, l.startTime, l.endTime));
      editingLyric := None;
    }

    /** `handleTimeChange`: the parsed time, clamped to `[0, duration]`, goes
        into the edited field only; nothing happens without an edit, or here
        when the text does not parse. */
    method TimeChange(field: TimeField, value: string, duration: real)
      modifies this`editingLyric
      ensures old(editingLyric).None? || ParseTime(value).None? ==> editingLyric == old(editingLyric)
      ensures old(editingLyric).Some? && ParseTime(value).Some? ==>
                var l := old(editingLyric).value;
                var t := Max(0.0, Min(duration, ParseTime(value).value));
                editingLyric == Some(if field == StartField then l.(startTime := t) else l.(endTime := t))
    {
      if editingLyric.None? {
        return;
      }
      var time := ParseTime(value);
      if time.None? {
        return;
      }
      var clamped := Max(0.0, Min(duration, time.value));
      var l := editingLyric.value;
      editingLyric := Some(if field == StartField then l.(startTime := clamped) else l.(endTime := clamped));
    }

    /** `handleAISync` once the results are known: `results` is the awaited
        sync, or the failure it threw. The results are applied by position;
        a failure falls back to `onAutoSync`; either way `isAISyncing` ends
        false. */
    method AISync(lyrics: seq<LyricLine>, results: Result<seq<AILyric>, string>) returns (outcome: AISyncOutcome)
      modifies this`isAISyncing
      ensures results.Ok? ==> outcome == Applied(PositionalUpdates(lyrics, results.value))
      ensures results.Err? ==> outcome == AutoSynced
      ensures !isAISyncing
    {
      isAISyncing := true;
      if results.Ok? {
        var updates := ApplyAIResults(lyrics, results.value);
        outcome := Applied(updates);
      } else {
        outcome := AutoSynced;
      }
      isAISyncing := false;
    }
  }

  /** The results `handleAISync` awaits: the service when a key is entered,
      the demo sync otherwise. Neither path fails, so the results are always
      there and the `onAutoSync` fallback is never taken. */
  function AISyncResults(apiKey: string, lyricsText: string, duration: real, beats: seq<real>,
                         generatedText: Option<string>, jsonParse: string -> Option<Json>): (r: Result<seq<AILyric>, string>)
    ensures r.Ok?
    ensures Trim(apiKey) == "" ==> r == Ok(DemoAISync(lyricsText, duration, beats))
  {
    if Trim(apiKey) != "" then Ok(SyncLyricsWithAudio(lyricsText, duration, beats, generatedText, jsonParse))
    else Ok(DemoAISync(lyricsText, duration, beats))
  }
}
