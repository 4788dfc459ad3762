/** The JavaScript string operations the core relies on: `split`, `trim`,
    `padStart`, `join`, decimal rendering of integers and `Number(...)` on
    strings. Strings are sequences of UTF-16 code units, written `string`. */
module Strings {
  import opened Wrappers
  import opened Numbers

  /** The characters `String.prototype.trim` removes: ECMAScript WhiteSpace
      (tab, vertical tab, form feed, space, no-break space, byte order mark and
      the Unicode space separators) and LineTerminator. */
  predicate IsWhitespace(c: char) {
    var k := c as int;
    k == 0x09 || k == 0x0A || k == 0x0B || k == 0x0C || k == 0x0D || k == 0x20 ||
    k == 0xA0 || k == 0x1680 || (0x2000 <= k <= 0x200A) || k == 0x2028 ||
    k == 0x2029 || k == 0x202F || k == 0x205F || k == 0x3000 || k == 0xFEFF
  }

  function TrimStart(s: string): (r: string)
    ensures |r| <= |s| && r == s[|s| - |r|..]
    ensures forall k :: 0 <= k < |s| - |r| ==> IsWhitespace(s[k])
    ensures r != [] ==> !IsWhitespace(r[0])
  {
    if s != [] && IsWhitespace(s[0]) then TrimStart(s[1..]) else s
  }

  function TrimEnd(s: string): (r: string)
    ensures |r| <= |s| && r == s[..|r|]
    ensures forall k :: |r| <= k < |s| ==> IsWhitespace(s[k])
    ensures r != [] ==> !IsWhitespace(r[|r| - 1])
  {
    if s != [] && IsWhitespace(s[|s| - 1]) then TrimEnd(s[..|s| - 1]) else s
  }

  /** `s.trim()`: the part of `s` between its leading and trailing whitespace. */
  function Trim(s: string): (r: string)
    ensures r != [] ==> !IsWhitespace(r[0]) && !IsWhitespace(r[|r| - 1])
    ensures |r| <= |s|
  {
    var t := TrimStart(s);
    var r := TrimEnd(t);
    assert r != [] ==> r[0] == t[0];
    r
  }

  /** A string trims to nothing exactly when it is all whitespace. */
  lemma TrimBlank(s: string)
    ensures Trim(s) == [] <==> forall k :: 0 <= k < |s| ==> IsWhitespace(s[k])
  {
    var t := TrimStart(s);
    if Trim(s) == [] {
      forall k | 0 <= k < |s| ensures IsWhitespace(s[k]) {
        if k >= |s| - |t| {
          assert s[k] == t[k - (|s| - |t|)];
        }
      }
    } else {
      var r := Trim(s);
      assert r[0] == t[0] == s[|s| - |t|];
    }
  }

  /** Trimming a trimmed string changes nothing. */
  lemma TrimIdempotent(s: string)
    ensures Trim(Trim(s)) == Trim(s)
  {
    var r := Trim(s);
    if r != [] {
      assert TrimStart(r) == r;
      assert TrimEnd(r) == r;
    }
  }

  /** A string that neither starts nor ends with whitespace is its own trim. */
  lemma TrimOfUnpadded(s: string)
    requires s != [] ==> !IsWhitespace(s[0]) && !IsWhitespace(s[|s| - 1])
    ensures Trim(s) == s
  {
    if s != [] {
      assert TrimStart(s) == s;
      assert TrimEnd(s) == s;
    }
  }

  /** Position of the first `c` in `s`, or `|s|` when there is none. */
  function IndexOf(s: string, c: char): (i: nat)
    ensures i <= |s|
    ensures i < |s| ==> s[i] == c
    ensures forall k :: 0 <= k < i ==> s[k] != c
  {
    if s == [] then 0 else if s[0] == c then 0 else 1 + IndexOf(s[1..], c)
  }

  /** `s.split(sep)` for a one-character separator: the pieces between the
      separators, so `"a\nb\n"` gives `["a", "b", ""]` and `""` gives `[""]`. */
  function Split(s: string, sep: char): (parts: seq<string>)
    ensures |parts| >= 1
    decreases |s|
  {
    var i := IndexOf(s, sep);
    if i == |s| then [s] else [s[..i]] + Split(s[i + 1..], sep)
  }

  /** `parts.join(sep)` */
  function Join(parts: seq<string>, sep: string): string
  {
    if |parts| == 0 then "" else if |parts| == 1 then parts[0]
    else parts[0] + sep + Join(parts[1..], sep)
  }

  /** Joining the pieces of a split with its separator gives the string back. */
  lemma {:induction false} JoinSplit(s: string, sep: char)
    ensures Join(Split(s, sep), [sep]) == s
    decreases |s|
  {
    var i := IndexOf(s, sep);
    if i < |s| {
      var rest := s[i + 1..];
      JoinSplit(rest, sep);
      var tail := Split(rest, sep);
      assert Split(s, sep) == [s[..i]] + tail;
      assert s == s[..i] + [sep] + rest;
    }
  }

  /** Splitting a join of separator-free pieces gives the pieces back. */
  lemma {:induction false} SplitJoin(parts: seq<string>, sep: char)
    requires |parts| >= 1
    requires forall k :: 0 <= k < |parts| ==> sep !in parts[k]
    ensures Split(Join(parts, [sep]), sep) == parts
  {
    var s := Join(parts, [sep]);
    if |parts| == 1 {
      assert IndexOf(s, sep) == |s|;
    } else {
      var head, tail := parts[0], parts[1..];
      var rest := Join(tail, [sep]);
      assert s == head + ([sep] + rest);
      IndexOfAfterFree(head, [sep] + rest, sep);
      assert IndexOf(s, sep) == |head|;
      assert s[..|head|] == head;
      assert s[|head| + 1..] == rest;
      assert Split(s, sep) == [head] + Split(rest, sep);
      assert forall k :: 0 <= k < |tail| ==> tail[k] == parts[k + 1];
      SplitJoin(tail, sep);
      assert parts == [head] + tail;
    }
  }

  lemma IndexOfAfterFree(a: string, b: string, c: char)
    requires c !in a && b != [] && b[0] == c
    ensures IndexOf(a + b, c) == |a|
  {
    forall k | 0 <= k < |a| ensures (a + b)[k] != c {
      assert (a + b)[k] == a[k] && a[k] in a;
    }
    assert (a + b)[|a|] == c;
  }

  /** A line as the lyric code keeps it: not empty, and already trimmed. */
  predicate IsTrimmedLine(t: string) {
    t != "" && Trim(t) == t
  }

  /** The lines that are not blank, each trimmed, in order. */
  function NonBlank(lines: seq<string>): (r: seq<string>)
    ensures |r| <= |lines|
    ensures forall k :: 0 <= k < |r| ==> IsTrimmedLine(r[k])
  {
    if lines == [] then []
    else
      var t := Trim(lines[0]);
      var rest := NonBlank(lines[1..]);
      TrimIdempotent(lines[0]);
      assert t != "" ==> IsTrimmedLine(t);
      (if t == "" then [] else [t]) + rest
  }

  /** `text.split('\n').filter(l => l.trim()).map(l => l.trim())` */
  function NonBlankLines(text: string): seq<string>
  {
    NonBlank(Split(text, '\n'))
  }

  /** Filtering a line in front of others. */
  lemma NonBlankCons(lines: seq<string>)
    requires lines != []
    ensures NonBlank(lines) == (if Trim(lines[0]) == "" then [] else [Trim(lines[0])]) + NonBlank(lines[1..])
  {
  }

  /** Filtering distributes over concatenation, so the order of the lines is kept. */
  lemma {:induction false} NonBlankAppend(a: seq<string>, b: seq<string>)
    ensures NonBlank(a + b) == NonBlank(a) + NonBlank(b)
  {
    if a != [] {
      var ab := a + b;
      assert ab[0] == a[0];
      assert ab[1..] == a[1..] + b;
      NonBlankAppend(a[1..], b);
      NonBlankCons(ab);
      NonBlankCons(a);
    } else {
      assert a + b == b;
    }
  }

  /** Exactly the non-blank lines survive: nothing is left iff every line is blank. */
  lemma {:induction false} NonBlankEmpty(lines: seq<string>)
    ensures NonBlank(lines) == [] <==> forall k :: 0 <= k < |lines| ==> Trim(lines[k]) == ""
  {
    if lines != [] {
      NonBlankEmpty(lines[1..]);
      assert forall k :: 1 <= k < |lines| ==> lines[k] == lines[1..][k - 1];
    }
  }

  /** A line that is not blank appears, trimmed, in the result. */
  lemma {:induction false} NonBlankKeeps(lines: seq<string>, k: nat)
    requires k < |lines| && Trim(lines[k]) != ""
    ensures Trim(lines[k]) in NonBlank(lines)
  {
    if k > 0 {
      assert lines[1..][k - 1] == lines[k];
      NonBlankKeeps(lines[1..], k - 1);
    }
  }

  // ---------------------------------------------------------------------------
  // Decimal notation

  predicate IsDigit(c: char) {
    '0' <= c <= '9'
  }

  predicate AllDigits(s: string) {
    forall k :: 0 <= k < |s| ==> IsDigit(s[k])
  }

  function DigitChar(d: nat): (c: char)
    requires d < 10
    ensures IsDigit(c)
  {
    ('0' as int + d) as char
  }

  function DigitValue(c: char): (d: nat)
    requires IsDigit(c)
    ensures d < 10 && DigitChar(d) == c
  {
    c as int - '0' as int
  }

  /** `n.toString()` for a non-negative integer: its decimal digits, no leading zero. */
  function NatToString(n: nat): (s: string)
    ensures |s| >= 1 && AllDigits(s)
    ensures (|s| == 1) == (n < 10)
    ensures |s| >= 2 ==> s[0] != '0'
  {
    if n < 10 then [DigitChar(n)] else NatToString(n / 10) + [DigitChar(n % 10)]
  }

  /** The value of a string of decimal digits (`""` is 0). */
  function DigitsValue(s: string): nat
    requires AllDigits(s)
  {
    if s == [] then 0 else DigitsValue(s[..|s| - 1]) * 10 + DigitValue(s[|s| - 1])
  }

  /** Reading back the decimal notation of `n` gives `n`. */
  lemma {:induction false} DigitsValueOfNat(n: nat)
    ensures DigitsValue(NatToString(n)) == n
  {
    if n >= 10 {
      DigitsValueOfNat(n / 10);
      var s := NatToString(n);
      assert s[..|s| - 1] == NatToString(n / 10);
    }
  }

  /** Different numbers have different decimal notations. */
  lemma NatToStringInjective(a: nat, b: nat)
    requires NatToString(a) == NatToString(b)
    ensures a == b
  {
    DigitsValueOfNat(a);
    DigitsValueOfNat(b);
  }

  /** `i.toString()` for an integer. */
  function IntToString(i: int): (s: string)
    ensures i >= 0 ==> s == NatToString(i)
    ensures i < 0 ==> s == "-" + NatToString(-i)
  {
    if i < 0 then "-" + NatToString(-i) else NatToString(i)
  }

  /** `s.padStart(2, '0')` */
  function PadStart2(s: string): (r: string)
    ensures |r| == if |s| >= 2 then |s| else 2
    ensures r[|r| - |s|..] == s
    ensures forall k :: 0 <= k < |r| - |s| ==> r[k] == '0'
  {
    if |s| >= 2 then s else if |s| == 1 then "0" + s else "00"
  }

  /** The two-digit, zero-padded notation of a number below 100. */
  lemma TwoDigitsValue(n: nat)
    requires n < 100
    ensures var s := PadStart2(NatToString(n));
            |s| == 2 && AllDigits(s) && DigitsValue(s) == n
  {
    if n < 10 {
      OneDigitPadded(n);
    } else {
      DigitsValueOfNat(n);
    }
  }

  lemma OneDigitPadded(n: nat)
    requires n < 10
    ensures PadStart2(NatToString(n)) == ['0', DigitChar(n)]
    ensures AllDigits(['0', DigitChar(n)]) && DigitsValue(['0', DigitChar(n)]) == n
  {
    var s := ['0', DigitChar(n)];
    assert s[..1] == ['0'];
    assert ['0'][..0] == [];
    assert DigitsValue(['0']) == 0;
  }

  /** `Number(s)` on a string, for integer numerals: surrounding whitespace
      is ignored, a blank string is 0, decimal digits after an optional `+`
      or `-` are that signed value, and anything else is `NaN` (`None`). */
  function NumberOf(s: string): (r: Option<real>)
    ensures Trim(s) == "" ==> r == Some(0.0)
    ensures r.Some? && r.value < 0.0 ==> Trim(s) != "" && Trim(s)[0] == '-'
  {
    var t := Trim(s);
    if t == [] then Some(0.0) else Numeral(t)
  }

  predicate IsSign(c: char) {
    c == '-' || c == '+'
  }

  /** A non-empty numeral: digits, or one sign followed by a numeral that
      has no sign of its own. */
  function Numeral(t: string): (r: Option<real>)
    ensures r.Some? && r.value < 0.0 ==> t != [] && t[0] == '-'
    decreases |t|
  {
    if t == [] then None
    else if AllDigits(t) then Some(DigitsValue(t) as real)
    else if IsSign(t[0]) && |t| >= 2 && !IsSign(t[1]) then
      match Numeral(t[1..])
      case Some(v) => Some(if t[0] == '-' then -v else v)
      case None => None
    else None
  }

  /** `Number` reads back what `toString` writes, with or without zero padding. */
  lemma NumberOfNat(n: nat)
    ensures NumberOf(NatToString(n)) == Some(n as real)
    ensures n < 100 ==> NumberOf(PadStart2(NatToString(n))) == Some(n as real)
  {
    var s := NatToString(n);
    assert !IsWhitespace(s[0]) && !IsWhitespace(s[|s| - 1]);
    TrimOfUnpadded(s);
    DigitsValueOfNat(n);
    if n < 100 {
      TwoDigitsValue(n);
      var p := PadStart2(s);
      assert IsDigit(p[0]) && IsDigit(p[1]);
      TrimOfUnpadded(p);
    }
  }

  /** `Number` reads back what `toString` writes for any integer, and
      accepts an explicit `+` as well. */
  lemma NumberOfInt(i: int)
    ensures NumberOf(IntToString(i)) == Some(i as real)
    ensures i >= 0 ==> NumberOf("+" + NatToString(i)) == Some(i as real)
  {
    if i >= 0 {
      NumberOfNat(i);
      SignedNumeral('+', i);
      assert "+" + NatToString(i) == ['+'] + NatToString(i);
    } else {
      SignedNumeral('-', -i);
      assert IntToString(i) == ['-'] + NatToString(-i);
    }
  }

  lemma SignedNumeral(sign: char, n: nat)
    requires sign == '-' || sign == '+'
    ensures NumberOf([sign] + NatToString(n)) == Some(if sign == '-' then -(n as real) else n as real)
  {
    DigitsValueOfNat(n);
    SignedDigitsRead(sign, NatToString(n), n);
  }

  lemma SignedDigitsRead(sign: char, d: string, n: nat)
    requires sign == '-' || sign == '+'
    requires d != [] && AllDigits(d) && DigitsValue(d) == n
    ensures NumberOf([sign] + d) == Some(if sign == '-' then -(n as real) else n as real)
  {
    var s := [sign] + d;
    assert s[0] == sign && s[1..] == d && !IsSign(s[1]);
    assert !AllDigits(s) by {
      assert !IsDigit(s[0]);
    }
    assert Numeral(d) == Some(n as real);
    SignedTrim(sign, d);
  }

  lemma SignedTrim(sign: char, d: string)
    requires sign == '-' || sign == '+'
    requires d != [] && AllDigits(d)
    ensures Trim([sign] + d) == [sign] + d
  {
    var s := [sign] + d;
    assert s[|s| - 1] == d[|d| - 1];
    TrimOfUnpadded(s);
  }

  /** An integer's text holds only digits and perhaps a leading minus. */
  lemma IntToStringChars(i: int)
    ensures forall k :: 0 <= k < |IntToString(i)| ==> IntToString(i)[k] == '-' || IsDigit(IntToString(i)[k])
  {
    if i < 0 {
      var d := NatToString(-i);
      assert forall k :: 1 <= k < |IntToString(i)| ==> IntToString(i)[k] == d[k - 1];
    }
  }

  /** `n` hundredths written with two decimals: the whole part, a point and
      the two-digit remainder. */
  function Hundredths(n: nat): (s: string)
    ensures |s| >= 4 && IsDigit(s[|s| - 1])
    ensures ',' !in s
  {
    var whole := NatToString(n / 100);
    var frac := PadStart2(NatToString(n % 100));
    HundredthsDigits(n);
    whole + "." + frac
  }

  lemma HundredthsDigits(n: nat)
    ensures var whole := NatToString(n / 100);
            var frac := PadStart2(NatToString(n % 100));
            var s := whole + "." + frac;
            |frac| == 2 && AllDigits(frac) && ',' !in s && IsDigit(s[|s| - 1])
  {
    TwoDigitsValue(n % 100);
    PointedDigits(NatToString(n / 100), PadStart2(NatToString(n % 100)));
  }

  lemma PointedDigits(whole: string, frac: string)
    requires AllDigits(whole) && AllDigits(frac) && |frac| == 2
    ensures ',' !in whole + "." + frac
    ensures IsDigit((whole + "." + frac)[|whole| + 2])
  {
    DigitsHaveNoComma(whole);
    DigitsHaveNoComma(frac);
    assert whole + "." + frac == whole + ("." + frac);
  }

  lemma DigitsHaveNoComma(s: string)
    requires AllDigits(s)
    ensures ',' !in s
  {
  }

  /** `x.toFixed(2)` in exact arithmetic, for `|x| < 1e21`: a minus sign for a
      negative `x`, then `|x|` rounded to hundredths, ties away from zero. */
  function ToFixed2(x: real): (s: string)
    ensures |s| >= 4 && IsDigit(s[|s| - 1])
    ensures ',' !in s
  {
    if x < 0.0 then MinusSign(Hundredths(Floor(-x * 100.0 + 0.5)))
    else Hundredths(Floor(x * 100.0 + 0.5))
  }

  function MinusSign(s: string): (r: string)
    ensures |r| == |s| + 1 && r[|r| - 1] == if s == [] then '-' else s[|s| - 1]
    ensures ',' !in s ==> ',' !in r
  {
    assert forall k :: 1 <= k < |s| + 1 ==> ("-" + s)[k] == s[k - 1];
    "-" + s
  }

  /** A non-negative whole number of hundredths is written exactly. */
  lemma ToFixed2Hundredths(h: nat)
    ensures ToFixed2(h as real / 100.0) == Hundredths(h)
  {
    var x := h as real / 100.0;
    assert x * 100.0 + 0.5 == h as real + 0.5;
    var n := Floor(x * 100.0 + 0.5);
    assert n == h;
    assert !(x < 0.0);
    assert ToFixed2(x) == Hundredths(n);
  }
}
