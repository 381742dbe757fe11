/**
  The time strings of the pipeline (src/utils.py, with identical copies in
  main.py): reading a `H:M:S.f`, `M:S.f` or plain-seconds string as
  milliseconds, and printing milliseconds as the `MM:SS,mmm` form used in the
  context sent to the transcription service and the `HH:MM:SS,mmm` form of
  the subtitle file. Times are whole milliseconds.
*/
module TimeFormat {
  import opened Common
  import opened Decimal

  // ---------------------------------------------------------------------
  // Reading

  /** Every `,` becomes `.`. */
  function CommasToPoints(s: string): (r: string)
  {
    if |s| == 0 then [] else [if s[0] == ',' then '.' else s[0]] + CommasToPoints(s[1..])
  }

  /** Every occurrence of `c` is deleted. */
  function DropChar(s: string, c: char): (r: string)
    ensures c !in r
    ensures c !in s ==> r == s
  {
    if |s| == 0 then []
    else if s[0] == c then DropChar(s[1..], c)
    else [s[0]] + DropChar(s[1..], c)
  }

  /** `int(p)` on the digit-only fields that reach it. */
  function WholeNumber(p: string): Option<nat>
  {
    var t := Trim(p);
    if |t| > 0 && AllDigits(t) then Some(ValueOf(t)) else None
  }

  /** The milliseconds of a decimal fraction: its first three digits, padded
      with zeros; further digits fall below a millisecond. */
  function FractionMs(f: string): (ms: nat)
    requires AllDigits(f)
    ensures ms < 1000
  {
    var three := (f + "000")[..3];
    assert AllDigits(three);
    ValueOfBound(three);
    ValueOf(three)
  }

  /** `float(p) * 1000` for `D`, `D.`, `D.D` and `.D` (D a run of digits). */
  function SecondsMs(p: string): Option<nat>
  {
    var t := Trim(p);
    var halves := Split(t, '.');
    if |halves| == 1 then
      if |t| > 0 && AllDigits(t) then Some(ValueOf(t) * 1000) else None
    else if |halves| == 2 then
      var whole := halves[0];
      var frac := halves[1];
      if AllDigits(whole) && AllDigits(frac) && |whole| + |frac| > 0 then
        Some(ValueOf(whole) * 1000 + FractionMs(frac))
      else None
    else None
  }

  /** The text `parse_time_to_ms` splits: stripped, commas read as points, and
      the seconds suffix `s` removed. */
  function Normalize(ts: string): string
  {
    DropChar(CommasToPoints(Trim(ts)), 's')
  }

  /** `parse_time_to_ms`: three colon-separated fields are hours, minutes and
      seconds, two are minutes and seconds, one is seconds; `None` stands
      for the exception the original raises on anything else. */
  function ParseTimeToMs(ts: string): Option<nat>
  {
    var t := Normalize(ts);
    var parts := Split(t, ':');
    if |parts| == 3 then
      match (WholeNumber(parts[0]), WholeNumber(parts[1]), SecondsMs(parts[2]))
      case (Some(h), Some(m), Some(s)) => Some((h * 3600 + m * 60) * 1000 + s)
      case _ => None
    else if |parts| == 2 then
      match (WholeNumber(parts[0]), SecondsMs(parts[1]))
      case (Some(m), Some(s)) => Some(m * 60 * 1000 + s)
      case _ => None
    else
      SecondsMs(t)
  }

  // ---------------------------------------------------------------------
  // Printing

  /** `ms_to_mm_ss_mmm`: minutes (not wrapped at an hour, floored for a
      negative time), seconds and milliseconds. */
  function MsToMmSsMmm(ms: int): string
  {
    var minutes := ms / 60000;
    var rest := ms % 60000;
    ZeroPadInt(minutes, 2) + ":" + ZeroPad(rest / 1000, 2) + "," + ZeroPad(rest % 1000, 3)
  }

  /** `ms_to_srt_time`: hours (not wrapped at a day), minutes, seconds and
      milliseconds. */
  function MsToSrtTime(ms: nat): string
  {
    var total := ms / 1000;
    ZeroPad(total / 3600, 2) + ":" + ZeroPad(total % 3600 / 60, 2) + ":" +
    ZeroPad(total % 60, 2) + "," + ZeroPad(ms % 1000, 3)
  }

  // ---------------------------------------------------------------------
  // What the reader accepts

  lemma {:induction false} CommasToPointsAppend(a: string, b: string)
    ensures CommasToPoints(a + b) == CommasToPoints(a) + CommasToPoints(b)
  {
    if |a| > 0 {
      assert (a + b)[1..] == a[1..] + b;
      CommasToPointsAppend(a[1..], b);
    } else {
      assert a + b == b;
    }
  }

  lemma {:induction false} CommasToPointsWithoutComma(a: string)
    requires ',' !in a
    ensures CommasToPoints(a) == a
  {
    if |a| > 0 {
      assert a[0] != ',';
      assert ',' !in a[1..];
      CommasToPointsWithoutComma(a[1..]);
      assert [a[0]] + a[1..] == a;
    }
  }

  lemma {:induction false} DigitsFree(s: string)
    requires AllDigits(s)
    ensures ',' !in s && '.' !in s && ':' !in s && 's' !in s
    ensures |s| > 0 ==> !IsSpace(s[0]) && !IsSpace(s[|s| - 1])
  {
    forall i | 0 <= i < |s|
      ensures s[i] != ',' && s[i] != '.' && s[i] != ':' && s[i] != 's' && !IsSpace(s[i])
    {
      assert IsDigit(s[i]);
    }
  }

  lemma {:induction false} TrimmedText(t: string)
    requires |t| > 0 && !IsSpace(t[0]) && !IsSpace(t[|t| - 1])
    ensures Trim(t) == t
  {
    TrimOfTrimmed(t);
  }

  /** Trimmed text with no comma and no `s` is already normal. */
  lemma {:induction false} NormalizePlain(t: string)
    requires |t| > 0 && !IsSpace(t[0]) && !IsSpace(t[|t| - 1])
    requires ',' !in t && 's' !in t
    ensures Normalize(t) == t
  {
    TrimmedText(t);
    CommasToPointsWithoutComma(t);
  }

  /** Seconds with a fraction: `W.F` reads as W seconds plus the first three
      digits of F as milliseconds. */
  lemma {:induction false} SecondsWithFraction(w: string, f: string)
    requires |w| > 0 && AllDigits(w) && AllDigits(f)
    ensures SecondsMs(w + "." + f) == Some(ValueOf(w) * 1000 + FractionMs(f))
  {
    NumberIsTrimmed(w, f);
    NumberHalves(w, f);
    SecondsOfTwoHalves(w + "." + f, w, f);
  }

  lemma {:induction false} NumberIsTrimmed(w: string, f: string)
    requires |w| > 0 && AllDigits(w) && AllDigits(f)
    ensures Trim(w + "." + f) == w + "." + f
  {
    DigitsFree(w);
    DigitsFree(f);
    var t := w + "." + f;
    assert t[0] == w[0];
    assert !IsSpace(t[|t| - 1]) by {
      if |f| == 0 { assert t[|t| - 1] == '.'; } else { assert t[|t| - 1] == f[|f| - 1]; }
    }
    TrimmedText(t);
  }

  lemma {:induction false} NumberHalves(w: string, f: string)
    requires AllDigits(w) && AllDigits(f)
    ensures Split(w + "." + f, '.') == [w, f]
  {
    DigitsFree(w);
    DigitsFree(f);
    SplitAfterHead(w, '.', f);
    SplitWithoutSep(f, '.');
  }

  lemma {:induction false} SecondsOfTwoHalves(t: string, w: string, f: string)
    requires Trim(t) == t && Split(t, '.') == [w, f]
    requires |w| > 0 && AllDigits(w) && AllDigits(f)
    ensures SecondsMs(t) == Some(ValueOf(w) * 1000 + FractionMs(f))
  {
  }

  lemma {:induction false} WholeSeconds(w: string)
    requires |w| > 0 && AllDigits(w)
    ensures SecondsMs(w) == Some(ValueOf(w) * 1000)
  {
    DigitsFree(w);
    TrimmedText(w);
    SplitWithoutSep(w, '.');
  }

  lemma {:induction false} WholeNumberOf(d: string)
    requires |d| > 0 && AllDigits(d)
    ensures WholeNumber(d) == Some(ValueOf(d))
  {
    DigitsFree(d);
    TrimmedText(d);
  }

  /** The decimal point may be written `.` or `,`; after normalising, the
      text is the same with a `.`. */
  lemma {:induction false} NormalizeClock(pre: string, point: char, f: string)
    requires point == '.' || point == ','
    requires |pre| > 0 && !IsSpace(pre[0]) && ',' !in pre && 's' !in pre
    requires AllDigits(f)
    ensures Normalize(pre + [point] + f) == pre + "." + f
  {
    DigitsFree(f);
    ClockIsTrimmed(pre, point, f);
    CommasToPointsAppend(pre + [point], f);
    CommasToPointsAppend(pre, [point]);
    CommasToPointsWithoutComma(pre);
    CommasToPointsWithoutComma(f);
    assert CommasToPoints([point]) == ".";
    assert 's' !in pre + "." + f;
  }

  lemma {:induction false} ClockIsTrimmed(pre: string, point: char, f: string)
    requires point == '.' || point == ','
    requires |pre| > 0 && !IsSpace(pre[0])
    requires AllDigits(f)
    ensures Trim(pre + [point] + f) == pre + [point] + f
  {
    DigitsFree(f);
    var t := pre + [point] + f;
    assert t[0] == pre[0];
    assert t[|t| - 1] == if |f| == 0 then point else f[|f| - 1];
    TrimmedText(t);
  }

  /** `H:M:S.f` (or `H:M:S,f`) is (H * 3600 + M * 60 + S.f) * 1000. */
  lemma {:induction false} ParseHoursMinutesSeconds(h: string, m: string, w: string, point: char, f: string)
    requires |h| > 0 && |m| > 0 && |w| > 0
    requires AllDigits(h) && AllDigits(m) && AllDigits(w) && AllDigits(f)
    requires point == '.' || point == ','
    ensures ParseTimeToMs(h + ":" + m + ":" + w + [point] + f)
         == Some((ValueOf(h) * 3600 + ValueOf(m) * 60 + ValueOf(w)) * 1000 + FractionMs(f))
  {
    ThreeClockFields(h, m, w, point, f);
    ParseOfThreeFields(h + ":" + m + ":" + w + [point] + f, h, m, w, f,
                       (ValueOf(h) * 3600 + ValueOf(m) * 60 + ValueOf(w)) * 1000 + FractionMs(f));
  }

  lemma {:induction false} ParseOfThreeFields(ts: string, h: string, m: string, w: string, f: string, total: nat)
    requires |h| > 0 && |m| > 0 && |w| > 0
    requires AllDigits(h) && AllDigits(m) && AllDigits(w) && AllDigits(f)
    requires Split(Normalize(ts), ':') == [h, m, w + "." + f]
    requires total == (ValueOf(h) * 3600 + ValueOf(m) * 60 + ValueOf(w)) * 1000 + FractionMs(f)
    ensures ParseTimeToMs(ts) == Some(total)
  {
    WholeNumberOf(h);
    WholeNumberOf(m);
    SecondsWithFraction(w, f);
    var secMs := ValueOf(w) * 1000 + FractionMs(f);
    HoursArithmetic(ValueOf(h), ValueOf(m), ValueOf(w), FractionMs(f));
    ThreeFieldsTotal(ts, h, m, w + "." + f, ValueOf(h), ValueOf(m), secMs);
  }

  lemma {:induction false} ThreeFieldsTotal(ts: string, h: string, m: string, sec: string, hours: int, mins: int, secMs: int)
    requires Split(Normalize(ts), ':') == [h, m, sec]
    requires WholeNumber(h) == Some(hours) && WholeNumber(m) == Some(mins) && SecondsMs(sec) == Some(secMs)
    ensures ParseTimeToMs(ts) == Some((hours * 3600 + mins * 60) * 1000 + secMs)
  {
  }

  lemma {:induction false} HoursArithmetic(hours: int, mins: int, secs: int, frac: int)
    ensures (hours * 3600 + mins * 60) * 1000 + (secs * 1000 + frac) == (hours * 3600 + mins * 60 + secs) * 1000 + frac
  {
  }

  lemma {:induction false} ThreeClockFields(h: string, m: string, w: string, point: char, f: string)
    requires |h| > 0
    requires AllDigits(h) && AllDigits(m) && AllDigits(w) && AllDigits(f)
    requires point == '.' || point == ','
    ensures Split(Normalize(h + ":" + m + ":" + w + [point] + f), ':') == [h, m, w + "." + f]
  {
    DigitsFree(h);
    DigitsFree(m);
    DigitsFree(w);
    DigitsFree(f);
    var pre := h + ":" + m + ":" + w;
    assert pre[0] == h[0];
    NormalizeClock(pre, point, f);
    assert pre + "." + f == h + ":" + m + ":" + (w + "." + f);
    ThreeFields(h, m, w + "." + f);
  }

  /** `M:S.f` (or `M:S,f`) is (M * 60 + S.f) * 1000. */
  lemma {:induction false} ParseMinutesSeconds(m: string, w: string, point: char, f: string)
    requires |m| > 0 && |w| > 0
    requires AllDigits(m) && AllDigits(w) && AllDigits(f)
    requires point == '.' || point == ','
    ensures var r := ParseTimeToMs(m + ":" + w + [point] + f);
      r.Some? && r.value == (ValueOf(m) * 60 + ValueOf(w)) * 1000 + FractionMs(f)
  {
    TwoClockFields(m, w, point, f);
    ParseOfTwoFields(m + ":" + w + [point] + f, m, w, f, (ValueOf(m) * 60 + ValueOf(w)) * 1000 + FractionMs(f));
  }

  lemma {:induction false} ParseOfTwoFields(ts: string, m: string, w: string, f: string, total: nat)
    requires |m| > 0 && |w| > 0
    requires AllDigits(m) && AllDigits(w) && AllDigits(f)
    requires Split(Normalize(ts), ':') == [m, w + "." + f]
    requires total == (ValueOf(m) * 60 + ValueOf(w)) * 1000 + FractionMs(f)
    ensures ParseTimeToMs(ts) == Some(total)
  {
    WholeNumberOf(m);
    SecondsWithFraction(w, f);
    var secMs := ValueOf(w) * 1000 + FractionMs(f);
    MinutesArithmetic(ValueOf(m), ValueOf(w), FractionMs(f));
    TwoFieldsTotal(ts, m, w + "." + f, ValueOf(m), secMs);
  }

  lemma {:induction false} TwoFieldsTotal(ts: string, m: string, sec: string, mins: int, secMs: int)
    requires Split(Normalize(ts), ':') == [m, sec]
    requires WholeNumber(m) == Some(mins) && SecondsMs(sec) == Some(secMs)
    ensures ParseTimeToMs(ts) == Some(mins * 60 * 1000 + secMs)
  {
  }

  lemma {:induction false} MinutesArithmetic(mins: int, secs: int, frac: int)
    ensures mins * 60 * 1000 + (secs * 1000 + frac) == (mins * 60 + secs) * 1000 + frac
  {
  }

  lemma {:induction false} TwoClockFields(m: string, w: string, point: char, f: string)
    requires |m| > 0
    requires AllDigits(m) && AllDigits(w) && AllDigits(f)
    requires point == '.' || point == ','
    ensures Split(Normalize(m + ":" + w + [point] + f), ':') == [m, w + "." + f]
  {
    DigitsFree(m);
    DigitsFree(w);
    DigitsFree(f);
    var pre := m + ":" + w;
    assert pre[0] == m[0];
    NormalizeClock(pre, point, f);
    assert pre + "." + f == m + ":" + (w + "." + f);
    TwoFields(m, w + "." + f);
  }

  /** A colon-free `S.f` (or `S,f`) is S.f * 1000. */
  lemma {:induction false} ParseSeconds(w: string, point: char, f: string)
    requires |w| > 0 && AllDigits(w) && AllDigits(f)
    requires point == '.' || point == ','
    ensures ParseTimeToMs(w + [point] + f) == Some(ValueOf(w) * 1000 + FractionMs(f))
  {
    DigitsFree(w);
    NormalizeClock(w, point, f);
    SecondsField(w, f);
    SecondsWithFraction(w, f);
  }

  lemma {:induction false} SecondsField(w: string, f: string)
    requires AllDigits(w) && AllDigits(f)
    ensures Split(w + "." + f, ':') == [w + "." + f]
  {
    DigitsFree(w);
    DigitsFree(f);
    SplitWithoutSep(w + "." + f, ':');
  }

  lemma {:induction false} TwoFields(m: string, sec: string)
    requires AllDigits(m) && ':' !in sec
    ensures Split(m + ":" + sec, ':') == [m, sec]
  {
    DigitsFree(m);
    SplitAfterHead(m, ':', sec);
    SplitWithoutSep(sec, ':');
  }

  lemma {:induction false} ThreeFields(h: string, m: string, sec: string)
    requires AllDigits(h) && AllDigits(m) && ':' !in sec
    ensures Split(h + ":" + m + ":" + sec, ':') == [h, m, sec]
  {
    DigitsFree(h);
    assert h + ":" + m + ":" + sec == h + [':'] + (m + ":" + sec);
    SplitAfterHead(h, ':', m + ":" + sec);
    TwoFields(m, sec);
  }

  lemma {:induction false} SeparatorInJoin(parts: seq<string>, sep: char)
    requires |parts| > 1
    ensures sep in Join(parts, sep)
  {
    var j := Join(parts, sep);
    assert j == parts[0] + [sep] + Join(parts[1..], sep);
    assert j[|parts[0]|] == sep;
  }

  lemma {:induction false} VisibleCharSurvivesTrim(t: string, c: char)
    requires c in t && !IsSpace(c)
    ensures c in Trim(t)
  {
    var i :| 0 <= i < |t| && t[i] == c;
    var l := TrimLeft(t);
    TrimLeftCut(t);
    assert i >= |t| - |l|;
    assert l[i - (|t| - |l|)] == c;
    var r := TrimRight(l);
    TrimRightCut(l);
    assert i - (|t| - |l|) < |r|;
    assert r[i - (|t| - |l|)] == c;
  }

  /** More than three colon-separated fields is an error. */
  lemma {:induction false} ParseRejectsManyFields(ts: string)
    requires |Split(Normalize(ts), ':')| > 3
    ensures ParseTimeToMs(ts) == None
  {
    var t := Normalize(ts);
    SplitJoin(t, ':');
    SeparatorInJoin(Split(t, ':'), ':');
    VisibleCharSurvivesTrim(t, ':');
    var u := Trim(t);
    var halves := Split(u, '.');
    SplitJoin(u, '.');
    if |halves| == 1 {
      assert halves[0] == u;
      var i :| 0 <= i < |u| && u[i] == ':';
      assert !IsDigit(u[i]);
    } else if |halves| == 2 {
      assert u == halves[0] + "." + halves[1];
      var i :| 0 <= i < |u| && u[i] == ':';
      assert u[|halves[0]|] == '.';
      if i < |halves[0]| {
        ColonNotDigits(halves[0], i);
      } else {
        ColonNotDigits(halves[1], i - |halves[0]| - 1);
      }
    }
  }

  lemma {:induction false} ColonNotDigits(s: string, i: int)
    requires 0 <= i < |s| && s[i] == ':'
    ensures !AllDigits(s)
  {
    assert !IsDigit(s[i]);
  }

  // ---------------------------------------------------------------------
  // Round trips through the reader

  lemma {:induction false} FractionOfThreeDigits(f: string)
    requires |f| == 3 && AllDigits(f)
    ensures FractionMs(f) == ValueOf(f)
  {
    assert (f + "000")[..3] == f;
  }

  /** Reading back a `MM:SS,mmm` time gives the milliseconds it came from,
      however many minutes there are. */
  lemma {:induction false} MmSsMmmRoundTrip(ms: nat)
    ensures ParseTimeToMs(MsToMmSsMmm(ms)) == Some(ms)
  {
    var a := ZeroPad(ms / 60000, 2);
    var b := ZeroPad(ms % 60000 / 1000, 2);
    var c := ZeroPad(ms % 60000 % 1000, 3);
    MmSsMmmSplit(ms);
    MmSsFieldValues(ms);
    ParseOfTwoFields(MsToMmSsMmm(ms), a, b, c, ms);
  }

  /** The printed time splits into its minute and seconds fields. */
  lemma {:induction false} MmSsMmmSplit(ms: nat)
    ensures Split(Normalize(MsToMmSsMmm(ms)), ':')
         == [ZeroPad(ms / 60000, 2), ZeroPad(ms % 60000 / 1000, 2) + "." + ZeroPad(ms % 60000 % 1000, 3)]
  {
    var a := ZeroPad(ms / 60000, 2);
    var b := ZeroPad(ms % 60000 / 1000, 2);
    var c := ZeroPad(ms % 60000 % 1000, 3);
    assert MsToMmSsMmm(ms) == a + ":" + b + [','] + c;
    TwoClockFields(a, b, ',', c);
  }

  /** The printed fields of a non-negative `ms` read back as `ms`. */
  lemma {:induction false} MmSsFieldValues(ms: nat)
    ensures (ValueOf(ZeroPad(ms / 60000, 2)) * 60 + ValueOf(ZeroPad(ms % 60000 / 1000, 2))) * 1000
            + FractionMs(ZeroPad(ms % 60000 % 1000, 3)) == ms
  {
    var rest := ms % 60000;
    ZeroPadExactWidth(rest % 1000, 3);
    ValueOfZeroPad(ms / 60000, 2);
    ValueOfZeroPad(rest / 1000, 2);
    ValueOfZeroPad(rest % 1000, 3);
    FractionOfThreeDigits(ZeroPad(rest % 1000, 3));
    assert rest == rest / 1000 * 1000 + rest % 1000;
    assert ms == ms / 60000 * 60000 + rest;
  }

  /** Reading back an `HH:MM:SS,mmm` time gives the milliseconds it came
      from, however many hours there are. */
  lemma {:induction false} SrtTimeRoundTrip(ms: nat)
    ensures ParseTimeToMs(MsToSrtTime(ms)) == Some(ms)
  {
    var total := ms / 1000;
    var h := ZeroPad(total / 3600, 2);
    var m := ZeroPad(total % 3600 / 60, 2);
    var s := ZeroPad(total % 60, 2);
    var f := ZeroPad(ms % 1000, 3);
    SrtTimeSplit(ms);
    SrtFieldValues(ms);
    ParseOfThreeFields(MsToSrtTime(ms), h, m, s, f, ms);
  }

  /** The printed time splits into its hour, minute and seconds fields. */
  lemma {:induction false} SrtTimeSplit(ms: nat)
    ensures Split(Normalize(MsToSrtTime(ms)), ':')
         == [ZeroPad(ms / 1000 / 3600, 2), ZeroPad(ms / 1000 % 3600 / 60, 2), ZeroPad(ms / 1000 % 60, 2) + "." + ZeroPad(ms % 1000, 3)]
  {
    var total := ms / 1000;
    var h := ZeroPad(total / 3600, 2);
    var m := ZeroPad(total % 3600 / 60, 2);
    var s := ZeroPad(total % 60, 2);
    var f := ZeroPad(ms % 1000, 3);
    SrtTimeFields(ms);
    ThreeClockFields(h, m, s, ',', f);
  }

  lemma {:induction false} SrtTimeFields(ms: nat)
    ensures MsToSrtTime(ms) == ZeroPad(ms / 1000 / 3600, 2) + ":" + ZeroPad(ms / 1000 % 3600 / 60, 2) + ":"
                              + ZeroPad(ms / 1000 % 60, 2) + [','] + ZeroPad(ms % 1000, 3)
  {
  }

  /** The printed fields of `ms` read back as `ms`. */
  lemma {:induction false} SrtFieldValues(ms: nat)
    ensures (ValueOf(ZeroPad(ms / 1000 / 3600, 2)) * 3600 + ValueOf(ZeroPad(ms / 1000 % 3600 / 60, 2)) * 60
             + ValueOf(ZeroPad(ms / 1000 % 60, 2))) * 1000 + FractionMs(ZeroPad(ms % 1000, 3)) == ms
  {
    var total := ms / 1000;
    ZeroPadExactWidth(ms % 1000, 3);
    ValueOfZeroPad(total / 3600, 2);
    ValueOfZeroPad(total % 3600 / 60, 2);
    ValueOfZeroPad(total % 60, 2);
    ValueOfZeroPad(ms % 1000, 3);
    FractionOfThreeDigits(ZeroPad(ms % 1000, 3));
    SrtArithmetic(ms);
  }

  lemma {:induction false} SrtArithmetic(ms: nat)
    ensures (ms / 1000 / 3600 * 3600 + ms / 1000 % 3600 / 60 * 60 + ms / 1000 % 60) * 1000 + ms % 1000 == ms
  {
    var total := ms / 1000;
    var h, rest := total / 3600, total % 3600;
    var m, s := rest / 60, rest % 60;
    assert total == h * 3600 + rest;
    assert rest == m * 60 + s;
    assert total % 60 == s by {
      assert total == (h * 60 + m) * 60 + s && 0 <= s < 60;
    }
    assert ms == total * 1000 + ms % 1000;
  }

  /** Printing is injective on subtitle times: the file never shows two
      different times the same way. */
  lemma {:induction false} SrtTimeInjective(a: nat, b: nat)
    requires MsToSrtTime(a) == MsToSrtTime(b)
    ensures a == b
  {
    SrtTimeRoundTrip(a);
    SrtTimeRoundTrip(b);
  }

  // ---------------------------------------------------------------------
  // Worked values

  lemma {:induction false} SrtTimeExampleHour()
    ensures MsToSrtTime(3661000) == "01:01:01,000"
  {
    assert 3661000 / 1000 == 3661 && 3661000 % 1000 == 0;
    assert 3661 / 3600 == 1 && 3661 % 3600 == 61 && 61 / 60 == 1 && 3661 % 60 == 1;
    SrtTimeOfParts(3661000, 1, 1, 1, 0);
    PadDigit(1);
    PadZero3();
    assert "01" + ":" + "01" + ":" + "01" + "," + "000" == "01:01:01,000";
  }

  lemma {:induction false} SrtTimeExampleMillis()
    ensures MsToSrtTime(999) == "00:00:00,999"
  {
    SrtTimeOfParts(999, 0, 0, 0, 999);
    PadDigit(0);
    assert NatToString(999) == "999";
    assert "00" + ":" + "00" + ":" + "00" + "," + "999" == "00:00:00,999";
  }

  /** Hours are not wrapped at a day. */
  lemma {:induction false} SrtTimeExampleDay()
    ensures MsToSrtTime(90000000) == "25:00:00,000"
  {
    SrtTimeOfParts(90000000, 25, 0, 0, 0);
    assert NatToString(25) == "25";
    PadDigit(0);
    PadZero3();
    assert "25" + ":" + "00" + ":" + "00" + "," + "000" == "25:00:00,000";
  }

  /** `ms_to_srt_time` of a time whose hours, minutes, seconds and
      milliseconds are known. */
  lemma {:induction false} SrtTimeOfParts(ms: nat, h: nat, m: nat, s: nat, f: nat)
    requires ms / 1000 / 3600 == h && ms / 1000 % 3600 / 60 == m && ms / 1000 % 60 == s && ms % 1000 == f
    ensures MsToSrtTime(ms) == ZeroPad(h, 2) + ":" + ZeroPad(m, 2) + ":" + ZeroPad(s, 2) + "," + ZeroPad(f, 3)
  {
  }

  lemma {:induction false} MmSsMmmExampleSeconds()
    ensures MsToMmSsMmm(1250) == "00:01,250"
  {
    PadDigit(0);
    PadDigit(1);
    assert NatToString(250) == "250";
    MmSsMmmOfFields(1250, "00", "01", "250");
    assert "00" + ":" + "01" + "," + "250" == "00:01,250";
  }

  lemma {:induction false} MmSsMmmExampleTenths()
    ensures MsToMmSsMmm(3100) == "00:03,100"
  {
    PadDigit(0);
    PadDigit(3);
    assert NatToString(100) == "100";
    MmSsMmmOfFields(3100, "00", "03", "100");
    assert "00" + ":" + "03" + "," + "100" == "00:03,100";
  }

  /** Minutes are not wrapped at an hour. */
  lemma {:induction false} MmSsMmmExampleLong()
    ensures MsToMmSsMmm(3723004) == "62:03,004"
  {
    PadDigit(3);
    assert NatToString(62) == "62";
    assert NatToString(4) == "4" && Zeros(2) == "00";
    MmSsMmmOfFields(3723004, "62", "03", "004");
    assert "62" + ":" + "03" + "," + "004" == "62:03,004";
  }

  /** A negative time is floored: -500 ms is minute -1, second 59. */
  lemma {:induction false} MmSsMmmExampleNegative()
    ensures MsToMmSsMmm(-500) == "-1:59,500"
  {
    PadDigitOne(1);
    assert NatToString(59) == "59";
    assert NatToString(500) == "500";
    MmSsMmmOfFields(-500, "-1", "59", "500");
    assert "-1" + ":" + "59" + "," + "500" == "-1:59,500";
  }

  lemma {:induction false} MmSsMmmOfFields(ms: int, m: string, s: string, f: string)
    requires ZeroPadInt(ms / 60000, 2) == m
    requires ZeroPad(ms % 60000 / 1000, 2) == s && ZeroPad(ms % 60000 % 1000, 3) == f
    ensures MsToMmSsMmm(ms) == m + ":" + s + "," + f
  {
  }

  /** A single digit padded to two places gets one leading zero. */
  lemma {:induction false} PadDigit(n: nat)
    requires n < 10
    ensures ZeroPad(n, 2) == ['0', DigitChar(n)]
  {
    assert NatToString(n) == [DigitChar(n)];
    assert Zeros(1) == "0";
  }

  /** A single digit needs no padding to one place. */
  lemma {:induction false} PadDigitOne(n: nat)
    requires n < 10
    ensures ZeroPad(n, 1) == [DigitChar(n)]
  {
    assert NatToString(n) == [DigitChar(n)];
  }

  lemma {:induction false} PadZero3()
    ensures ZeroPad(0, 3) == "000"
  {
    assert NatToString(0) == "0";
    assert Zeros(2) == "00";
  }
}
