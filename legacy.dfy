/**
  The first version of the tool, the single script main.py: its own ASS
  reader (a `[Events]` section, a `Format:` header naming the columns, then
  `Dialogue:` lines), its centisecond time parser, its English-track
  picker, and the chunk loop of `main`, which skips a chunk whose
  transcription fails and carries on with the next one, with neither
  validation nor retries. Grouping, the answer parser (its `Legacy`
  dialect), cache paths and the SRT writer are shared with the current
  pipeline's modules.
*/
module Legacy {
  import opened Common
  import opened Decimal
  import CueFilter
  import Transcript
  import TimeFormat
  import TrackSelection
  import Clustering
  import CachePaths
  import Pipeline
  import SrtWriter

  // ---------------------------------------------------------------------
  // clean_ass_text, as written and as intended

  /** Where the `.*?` of a `{{` group opened before `i` stops: at the first
      `}}` at or after `i`, at a line feed, or at the end of the text. */
  function PairEnd(s: string, i: nat): (k: nat)
    requires i <= |s|
    ensures i <= k <= |s|
    ensures k < |s| ==> s[k] == '\n' || (s[k] == '}' && k + 1 < |s| && s[k + 1] == '}')
    decreases |s| - i
  {
    if i == |s| || s[i] == '\n' || (s[i] == '}' && i + 1 < |s| && s[i + 1] == '}') then i
    else PairEnd(s, i + 1)
  }

  /** A `{{…}}` group on one line starts at `i`. */
  predicate PairAt(s: string, i: nat)
    requires i < |s|
  {
    i + 1 < |s| && s[i] == '{' && s[i + 1] == '{' &&
    PairEnd(s, i + 2) < |s| && s[PairEnd(s, i + 2)] == '}'
  }

  /** The pattern `\{{.*?\}}` of main.py: its second `{` and `}` are
      literal characters too, so it removes `{{…}}` groups only. */
  function StripDoubleTags(s: string): string
    decreases |s|
  {
    if |s| == 0 then []
    else if PairAt(s, 0) then StripDoubleTags(s[PairEnd(s, 2) + 2..])
    else [s[0]] + StripDoubleTags(s[1..])
  }

  /** `clean_ass_text` of main.py as written: double-brace groups removed,
      the ASS line breaks turned into spaces, the ends stripped. */
  function CleanAssTextAsWritten(s: string): string
  {
    Trim(CueFilter.Breaks(StripDoubleTags(s)))
  }

  /** `clean_ass_text` as intended: the single-brace override blocks
      `{…}` are removed, as the current pipeline does. Inner whitespace is
      still not collapsed. */
  function CleanAssText(s: string): string
  {
    Trim(CueFilter.Breaks(CueFilter.StripTags(s)))
  }

  /** No `{` is followed, anywhere later, by a `}`: no override block is
      left. */
  predicate Closed(r: string)
  {
    forall i, j :: 0 <= i < j < |r| && r[i] == '{' ==> r[j] != '}'
  }

  /** As written, a text without two braces in a row is not touched. */
  lemma {:induction false} StripDoubleTagsWithoutPair(s: string)
    requires forall i :: 0 <= i < |s| - 1 ==> !(s[i] == '{' && s[i + 1] == '{')
    ensures StripDoubleTags(s) == s
    decreases |s|
  {
    if |s| > 0 {
      assert !PairAt(s, 0);
      StripDoubleTagsWithoutPair(s[1..]);
      assert [s[0]] + s[1..] == s;
    }
  }

  /** The discrepancy: as written, the italics tag of `{\i1}Hi` survives
      cleaning, so it ends up in the English context. */
  lemma {:induction false} OverrideTagSurvives()
    ensures CleanAssTextAsWritten("{\\i1}Hi") == "{\\i1}Hi"
    ensures !Closed(CleanAssTextAsWritten("{\\i1}Hi"))
  {
    var s := "{\\i1}Hi";
    assert CleanAssTextAsWritten(s) == s by {
      StripDoubleTagsWithoutPair(s);
      BreaksOfTag();
      TrimOfTrimmed(s);
    }
    assert s[0] == '{' && s[4] == '}';
  }

  lemma {:induction false} BreaksOfTag()
    ensures CueFilter.Breaks("{\\i1}Hi") == "{\\i1}Hi"
  {
    var s := "{\\i1}Hi";
    CueFilter.ReplaceEscapeWithout(s[2..], 'N');
    CueFilter.ReplaceEscapeWithout(s[2..], 'n');
    assert CueFilter.ReplaceEscape(s, 'N') == [s[0]] + CueFilter.ReplaceEscape(s[1..], 'N');
    assert CueFilter.ReplaceEscape(s[1..], 'N') == [s[1]] + CueFilter.ReplaceEscape(s[2..], 'N');
    assert [s[0]] + ([s[1]] + s[2..]) == s;
    assert CueFilter.ReplaceEscape(s, 'n') == [s[0]] + CueFilter.ReplaceEscape(s[1..], 'n');
    assert CueFilter.ReplaceEscape(s[1..], 'n') == [s[1]] + CueFilter.ReplaceEscape(s[2..], 'n');
  }

  /** As intended, the same line cleans to its words. */
  lemma {:induction false} OverrideTagRemoved()
    ensures CleanAssText("{\\i1}Hi") == "Hi"
  {
    var s := "{\\i1}Hi";
    assert CueFilter.TagEnd(s, 4) == 4;
    assert CueFilter.TagEnd(s, 1) == 4;
    assert CueFilter.StripTags(s) == CueFilter.StripTags("Hi");
    CueFilter.StripTagsWithoutBrace("Hi");
    CueFilter.BreaksWithoutBackslash("Hi");
    TrimOfTrimmed("Hi");
  }

  /** As intended, no override block is left on a line once it is cleaned. */
  lemma {:induction false} CleanAssTextClosed(s: string)
    requires '\n' !in s
    ensures Closed(CleanAssText(s))
  {
    var t := CueFilter.StripTags(s);
    CueFilter.StripTagsLeavesNoTag(s);
    CueFilter.StripTagsKeepsOut(s, '\n');
    NoTagClosed(t);
    var b := CueFilter.ReplaceEscape(t, 'N');
    ReplaceEscapeClosed(t, 'N');
    ReplaceEscapeClosed(b, 'n');
    var x := CueFilter.Breaks(t);
    var a := CueFilter.TrimSlice(x);
    assert forall i :: 0 <= i < |Trim(x)| ==> Trim(x)[i] == x[a + i];
  }

  /** Without line feeds, a text with no complete `{…}` block has no `{`
      before a `}`. */
  lemma {:induction false} NoTagClosed(r: string)
    requires '\n' !in r
    requires forall i :: 0 <= i < |r| ==> !CueFilter.TagAt(r, i)
    ensures Closed(r)
  {
    forall i, j | 0 <= i < j < |r| && r[i] == '{'
      ensures r[j] != '}'
    {
      ClosingBraceMakesTag(r, i, j);
    }
  }

  /** On a text without line feeds, a `{` with a `}` after it opens a
      complete block. */
  lemma {:induction false} ClosingBraceMakesTag(r: string, i: nat, j: nat)
    requires '\n' !in r && i < j < |r| && r[i] == '{'
    ensures r[j] == '}' ==> CueFilter.TagAt(r, i)
  {
    if r[j] == '}' {
      TagEndAtMost(r, i + 1, j);
    }
  }

  /** A `}` at `j` stops the tag scan from `i` there or earlier. */
  lemma {:induction false} TagEndAtMost(s: string, i: nat, j: nat)
    requires i <= j < |s| && s[j] == '}'
    ensures CueFilter.TagEnd(s, i) <= j
    decreases j - i
  {
    if i < j && s[i] != '}' && s[i] != '\n' {
      TagEndAtMost(s, i + 1, j);
    }
  }

  /** Turning escapes into spaces leaves a closed text closed. */
  lemma {:induction false} ReplaceEscapeClosed(s: string, c: char)
    requires Closed(s)
    ensures Closed(CueFilter.ReplaceEscape(s, c))
    decreases |s|
  {
    if |s| >= 2 && s[0] == '\\' && s[1] == c {
      ClosedTail(s, 2);
      ReplaceEscapeClosed(s[2..], c);
      ClosedCons(' ', CueFilter.ReplaceEscape(s[2..], c));
    } else if |s| > 0 {
      ClosedTail(s, 1);
      ReplaceEscapeClosed(s[1..], c);
      if s[0] == '{' {
        assert forall j :: 1 <= j < |s| ==> s[j] != '}';
        assert '}' !in s[1..];
        ReplaceEscapeKeepsOut(s[1..], c, '}');
      }
      ClosedCons(s[0], CueFilter.ReplaceEscape(s[1..], c));
    }
  }

  lemma {:induction false} ClosedTail(s: string, k: nat)
    requires Closed(s) && k <= |s|
    ensures Closed(s[k..])
  {
    var t := s[k..];
    assert forall i :: 0 <= i < |t| ==> t[i] == s[k + i];
  }

  lemma {:induction false} ClosedCons(c: char, t: string)
    requires Closed(t) && (c == '{' ==> '}' !in t)
    ensures Closed([c] + t)
  {
    var r := [c] + t;
    assert forall i :: 1 <= i < |r| ==> r[i] == t[i - 1];
  }

  /** Turning escapes into spaces brings in no character but the space. */
  lemma {:induction false} ReplaceEscapeKeepsOut(s: string, c: char, x: char)
    requires x != ' ' && x !in s
    ensures x !in CueFilter.ReplaceEscape(s, c)
    decreases |s|
  {
    if |s| >= 2 && s[0] == '\\' && s[1] == c {
      assert x !in s[2..];
      ReplaceEscapeKeepsOut(s[2..], c, x);
    } else if |s| > 0 {
      assert x !in s[1..];
      ReplaceEscapeKeepsOut(s[1..], c, x);
    }
  }

  // ---------------------------------------------------------------------
  // parse_ass_time

  /** `parse_ass_time("H:MM:SS.cc")`: the milliseconds of an ASS time, the
      last field counted in centiseconds; `None` where main.py raises (too
      few `:` fields, no `.` in the seconds field, a field `int` rejects).
      Fields after the third `:` field and the second `.` field are
      ignored. */
  function ParseAssTime(ts: string): Option<int>
  {
    var parts := Split(ts, ':');
    if |parts| < 3 then None
    else
      var secs := Split(parts[2], '.');
      if |secs| < 2 then None
      else
        match (ParseInt(parts[0]), ParseInt(parts[1]), ParseInt(secs[0]), ParseInt(secs[1]))
        case (Some(h), Some(m), Some(s), Some(cc)) => Some((h * 3600 + m * 60 + s) * 1000 + cc * 10)
        case _ => None
  }

  /** An ASS time as subtitle files write it: `H:MM:SS.cc`. */
  function AssTime(h: nat, m: nat, s: nat, cc: nat): string
  {
    NatToString(h) + ":" + ZeroPad(m, 2) + ":" + ZeroPad(s, 2) + "." + ZeroPad(cc, 2)
  }

  /** Digit fields read as hours, minutes, seconds and centiseconds. */
  lemma {:induction false} ParseAssTimeOfDigits(h: string, m: string, s: string, cc: string)
    requires |h| > 0 && |m| > 0 && |s| > 0 && |cc| > 0
    requires AllDigits(h) && AllDigits(m) && AllDigits(s) && AllDigits(cc)
    ensures var r := ParseAssTime(h + ":" + m + ":" + s + "." + cc);
      r.Some? && r.value == (ValueOf(h) * 3600 + ValueOf(m) * 60 + ValueOf(s)) * 1000 + ValueOf(cc) * 10
  {
    var sec := s + "." + cc;
    FractionSplit(s, cc);
    ClockSplit(h, m, sec);
    ParseIntOfDigits(h);
    ParseIntOfDigits(m);
    ParseIntOfDigits(s);
    ParseIntOfDigits(cc);
    assert h + ":" + m + ":" + s + "." + cc == h + ":" + m + ":" + sec;
  }

  /** The three `:` fields of a time whose hours and minutes are digits. */
  lemma {:induction false} ClockSplit(h: string, m: string, sec: string)
    requires AllDigits(h) && AllDigits(m) && ':' !in sec
    ensures Split(h + ":" + m + ":" + sec, ':') == [h, m, sec]
  {
    DigitsHaveNo(h, ':');
    DigitsHaveNo(m, ':');
    assert h + ":" + m + ":" + sec == h + [':'] + (m + [':'] + sec);
    SplitAfterHead(h, ':', m + [':'] + sec);
    SplitAfterHead(m, ':', sec);
    SplitWithoutSep(sec, ':');
  }

  /** The two `.` fields of a seconds field of digits. */
  lemma {:induction false} FractionSplit(s: string, cc: string)
    requires AllDigits(s) && AllDigits(cc)
    ensures ':' !in s + "." + cc
    ensures Split(s + "." + cc, '.') == [s, cc]
  {
    DigitsHaveNo(s, ':');
    DigitsHaveNo(s, '.');
    DigitsHaveNo(cc, ':');
    DigitsHaveNo(cc, '.');
    assert s + "." + cc == s + ['.'] + cc;
    SplitAfterHead(s, '.', cc);
    SplitWithoutSep(cc, '.');
  }

  lemma {:induction false} DigitsHaveNo(d: string, c: char)
    requires AllDigits(d) && !IsDigit(c)
    ensures c !in d
  {
  }

  /** Reading a written ASS time gives back its milliseconds. */
  lemma {:induction false} ParseAssTimeRoundTrip(h: nat, m: nat, s: nat, cc: nat)
    ensures var r := ParseAssTime(AssTime(h, m, s, cc));
      r.Some? && r.value == (h * 3600 + m * 60 + s) * 1000 + cc * 10
  {
    var a, b, c, d := NatToString(h), ZeroPad(m, 2), ZeroPad(s, 2), ZeroPad(cc, 2);
    ValueOfNatToString(h);
    ValueOfZeroPad(m, 2);
    ValueOfZeroPad(s, 2);
    ValueOfZeroPad(cc, 2);
    ParseAssTimeOfDigits(a, b, c, d);
  }

  /** A time with no `.` in its seconds field is rejected, which aborts the
      whole read. */
  lemma {:induction false} ParseAssTimeNeedsCentiseconds(h: string, m: string, s: string)
    requires ':' !in h && ':' !in m && ':' !in s && '.' !in s
    ensures ParseAssTime(h + ":" + m + ":" + s) == None
  {
    assert h + ":" + m + ":" + s == h + [':'] + (m + [':'] + s);
    SplitAfterHead(h, ':', m + [':'] + s);
    SplitAfterHead(m, ':', s);
    SplitWithoutSep(s, ':');
    SplitWithoutSep(s, '.');
  }

  // ---------------------------------------------------------------------
  // get_dialogue_from_ass

  /** What the line loop carries: whether a `[Events]` line was seen, the
      column names of the last `Format:` line, and the events kept so far. */
  datatype AssReader = AssReader(inEvents: bool, cols: seq<string>, events: seq<Event>)

  const Fresh := AssReader(false, [], [])

  /** `[c.strip() for c in parts]`. */
  function StripAll(parts: seq<string>): (r: seq<string>)
    ensures |r| == |parts|
  {
    seq(|parts|, k requires 0 <= k < |parts| => Trim(parts[k]))
  }

  /** The value of `key` among the first `n` column/value pairs: the last
      pair of that name, as building a dict from them keeps. */
  function FieldIn(cols: seq<string>, parts: seq<string>, key: string, n: nat): Option<string>
    requires n <= |cols| && n <= |parts|
  {
    if n == 0 then None
    else if cols[n - 1] == key then Some(parts[n - 1])
    else FieldIn(cols, parts, key, n - 1)
  }

  /** `dict(zip(cols, parts)).get(key)`: `zip` stops at the shorter list. */
  function Field(cols: seq<string>, parts: seq<string>, key: string): Option<string>
  {
    FieldIn(cols, parts, key, if |cols| <= |parts| then |cols| else |parts|)
  }

  /** `.get(key, '')`. */
  function FieldOr(cols: seq<string>, parts: seq<string>, key: string): string
  {
    match Field(cols, parts, key)
    case Some(v) => v
    case None => ""
  }

  const KeptStyles: seq<string> := ["default", "alt", "italics"]
  const SongWords: seq<string> := ["op", "ed", "song", "sign", "title"]

  /** What a `Dialogue:` line comes to: skipped, kept as an event, or the
      end of the whole read (a missing or malformed time raises). */
  datatype LineVerdict = Skip | Keep(event: Event) | Abort

  /** The verdict on a `Dialogue:` line split into its columns: the cleaned
      text must be non-empty and the lowercased style one of the three
      dialogue styles; only then are the times read. */
  function DialogueVerdict(cols: seq<string>, parts: seq<string>, clean: string -> string): LineVerdict
  {
    var style := Lower(FieldOr(cols, parts, "Style"));
    var text := clean(FieldOr(cols, parts, "Text"));
    if |text| > 0 && style in KeptStyles && !CueFilter.ContainsAny(style, SongWords) then
      match (Field(cols, parts, "Start"), Field(cols, parts, "End"))
      case (Some(s), Some(e)) =>
        (match (ParseAssTime(s), ParseAssTime(e))
         case (Some(a), Some(b)) => Keep(Event(a, b, text))
         case _ => Abort)
      case _ => Abort
    else Skip
  }

  /** One line of the file through the loop: `None` once the read has
      aborted. */
  function AssStep(r: AssReader, line: string, clean: string -> string): Option<AssReader>
  {
    var l := Trim(line);
    if |l| == 0 then Some(r)
    else if StartsWith(l, "[Events]") then Some(r.(inEvents := true))
    else if !r.inEvents then Some(r)
    else if StartsWith(l, "Format:") then Some(r.(cols := StripAll(Split(l[7..], ','))))
    else if StartsWith(l, "Dialogue:") then
      match DialogueVerdict(r.cols, SplitAtMost(l[9..], ',', |r.cols| - 1), clean)
      case Skip => Some(r)
      case Keep(e) => Some(r.(events := r.events + [e]))
      case Abort => None
    else Some(r)
  }

  /** The reader after the given lines, from `r`. */
  function ReadAss(r: AssReader, lines: seq<string>, clean: string -> string): Option<AssReader>
  {
    if |lines| == 0 then Some(r)
    else
      match ReadAss(r, lines[..|lines| - 1], clean)
      case None => None
      case Some(x) => AssStep(x, lines[|lines| - 1], clean)
  }

  /** The events `get_dialogue_from_ass` returns for the lines of the file,
      `None` when it raises. */
  function AssDialogue(lines: seq<string>, clean: string -> string): Option<seq<Event>>
  {
    match ReadAss(Fresh, lines, clean)
    case None => None
    case Some(x) => Some(x.events)
  }

  /** `get_dialogue_from_ass` over the lines of the extracted file, with
      the text cleaner as a parameter. */
  method GetDialogueFromAss(lines: seq<string>, clean: string -> string) returns (events: Option<seq<Event>>)
    ensures events == AssDialogue(lines, clean)
  {
    var inEvents := false;
    var formatCols: seq<string> := [];
    var kept: seq<Event> := [];
    for i := 0 to |lines|
      invariant ReadAss(Fresh, lines[..i], clean) == Some(AssReader(inEvents, formatCols, kept))
    {
      ReadAssSnoc(lines, i, clean);
      var ok;
      ok, inEvents, formatCols, kept := ReadLine(inEvents, formatCols, kept, lines[i], clean);
      if !ok {
        AbortAt(lines, i + 1, clean);
        return None;
      }
    }
    assert lines[..|lines|] == lines;
    return Some(kept);
  }

  /** The body of the line loop: `ok` is false when the line aborts the
      read. */
  method ReadLine(inEvents: bool, formatCols: seq<string>, kept: seq<Event>, rawLine: string, clean: string -> string)
    returns (ok: bool, inEvents': bool, formatCols': seq<string>, kept': seq<Event>)
    ensures var next := AssStep(AssReader(inEvents, formatCols, kept), rawLine, clean);
      if ok then next == Some(AssReader(inEvents', formatCols', kept')) else next.None?
  {
    ghost var r := AssReader(inEvents, formatCols, kept);
    ok, inEvents', formatCols', kept' := true, inEvents, formatCols, kept;
    var line := Trim(rawLine);
    if |line| == 0 {
      assert AssStep(r, rawLine, clean) == Some(r);
    } else if StartsWith(line, "[Events]") {
      inEvents' := true;
      assert AssStep(r, rawLine, clean) == Some(r.(inEvents := true));
    } else if inEvents {
      if StartsWith(line, "Format:") {
        formatCols' := StripAll(Split(line[7..], ','));
        assert AssStep(r, rawLine, clean) == Some(r.(cols := formatCols'));
      } else if StartsWith(line, "Dialogue:") {
        var parts := SplitAtMost(line[9..], ',', |formatCols| - 1);
        var verdict := DialogueVerdict(formatCols, parts, clean);
        if verdict.Abort? {
          ok := false;
          assert AssStep(r, rawLine, clean) == None;
        } else if verdict.Keep? {
          kept' := kept + [verdict.event];
          assert AssStep(r, rawLine, clean) == Some(r.(events := kept'));
        } else {
          assert AssStep(r, rawLine, clean) == Some(r);
        }
      } else {
        assert AssStep(r, rawLine, clean) == Some(r);
      }
    } else {
      assert AssStep(r, rawLine, clean) == Some(r);
    }
  }

  /** Reading one more line steps the reader left by the lines before it. */
  lemma {:induction false} ReadAssSnoc(lines: seq<string>, i: nat, clean: string -> string)
    requires i < |lines|
    ensures ReadAss(Fresh, lines[..i + 1], clean) ==
      match ReadAss(Fresh, lines[..i], clean)
      case None => None
      case Some(x) => AssStep(x, lines[i], clean)
  {
    assert lines[..i + 1][..i] == lines[..i];
  }

  /** Reading `a + b` is reading `a`, then `b` from where `a` left off. */
  lemma {:induction false} ReadAssAppend(r: AssReader, a: seq<string>, b: seq<string>, clean: string -> string)
    ensures ReadAss(r, a + b, clean) ==
      match ReadAss(r, a, clean)
      case None => None
      case Some(x) => ReadAss(x, b, clean)
    decreases |b|
  {
    if |b| == 0 {
      assert a + b == a;
    } else {
      assert (a + b)[..|a + b| - 1] == a + b[..|b| - 1];
      ReadAssAppend(r, a, b[..|b| - 1], clean);
    }
  }

  /** A malformed time ends the read: no later line brings it back. */
  lemma {:induction false} AbortIsFinal(r: AssReader, a: seq<string>, b: seq<string>, clean: string -> string)
    requires ReadAss(r, a, clean) == None
    ensures ReadAss(r, a + b, clean) == None
  {
    ReadAssAppend(r, a, b, clean);
  }

  /** A read that aborts within the first `i` lines aborts the whole read. */
  lemma {:induction false} AbortAt(lines: seq<string>, i: nat, clean: string -> string)
    requires i <= |lines| && ReadAss(Fresh, lines[..i], clean) == None
    ensures AssDialogue(lines, clean) == None
  {
    AbortIsFinal(Fresh, lines[..i], lines[i..], clean);
    assert lines[..i] + lines[i..] == lines;
  }

  /** Lines before the first `[Events]` line change nothing. */
  lemma {:induction false} BeforeEventsIgnored(pre: seq<string>, rest: seq<string>, clean: string -> string)
    requires forall k :: 0 <= k < |pre| ==> !StartsWith(Trim(pre[k]), "[Events]")
    ensures ReadAss(Fresh, pre + rest, clean) == ReadAss(Fresh, rest, clean)
  {
    OutsideEventsUnchanged(pre, clean);
    ReadAssAppend(Fresh, pre, rest, clean);
  }

  lemma {:induction false} OutsideEventsUnchanged(pre: seq<string>, clean: string -> string)
    requires forall k :: 0 <= k < |pre| ==> !StartsWith(Trim(pre[k]), "[Events]")
    ensures ReadAss(Fresh, pre, clean) == Some(Fresh)
  {
    if |pre| > 0 {
      OutsideEventsUnchanged(pre[..|pre| - 1], clean);
    }
  }

  /** The read only ever appends events, each with non-empty text, and
      keeps the order of the lines. */
  lemma {:induction false} ReadAssAppends(r: AssReader, lines: seq<string>, clean: string -> string)
    requires ReadAss(r, lines, clean).Some?
    ensures var x := ReadAss(r, lines, clean).value;
      |r.events| <= |x.events| && x.events[..|r.events|] == r.events &&
      forall k :: |r.events| <= k < |x.events| ==> |x.events[k].text| > 0
  {
    if |lines| > 0 {
      var p := lines[..|lines| - 1];
      ReadAssAppends(r, p, clean);
      var y := ReadAss(r, p, clean).value;
      var l := Trim(lines[|lines| - 1]);
      if |l| > 0 && !StartsWith(l, "[Events]") && y.inEvents && !StartsWith(l, "Format:") && StartsWith(l, "Dialogue:") {
        var v := DialogueVerdict(y.cols, SplitAtMost(l[9..], ',', |y.cols| - 1), clean);
        if v.Keep? {
          KeptHasText(y.cols, SplitAtMost(l[9..], ',', |y.cols| - 1), clean);
          var x := y.events + [v.event];
          assert x[..|y.events|] == y.events;
          assert x[..|r.events|] == y.events[..|r.events|];
        }
      }
    }
  }

  /** A `Dialogue:` line is kept exactly when its cleaned text is non-empty,
      its lowercased style is one of the three dialogue styles and both of
      its times parse; the event holds those times and that text. It is
      skipped exactly when the text or the style fails, and otherwise a
      missing or malformed time aborts the read. */
  lemma {:induction false} DialogueVerdictCases(cols: seq<string>, parts: seq<string>, clean: string -> string)
    ensures var text := clean(FieldOr(cols, parts, "Text"));
      var style := Lower(FieldOr(cols, parts, "Style"));
      var start, end := Field(cols, parts, "Start"), Field(cols, parts, "End");
      var v := DialogueVerdict(cols, parts, clean);
      (v.Skip? <==> !(|text| > 0 && style in KeptStyles)) &&
      (v.Keep? <==> (|text| > 0 && style in KeptStyles && start.Some? && end.Some? &&
                     ParseAssTime(start.value).Some? && ParseAssTime(end.value).Some?)) &&
      (v.Keep? ==> v.event == Event(ParseAssTime(start.value).value, ParseAssTime(end.value).value, text))
  {
    var style := Lower(FieldOr(cols, parts, "Style"));
    if style in KeptStyles {
      KeptStylesAreNotSongs(style);
    }
  }

  lemma {:induction false} KeptHasText(cols: seq<string>, parts: seq<string>, clean: string -> string)
    ensures DialogueVerdict(cols, parts, clean).Keep? ==> |DialogueVerdict(cols, parts, clean).event.text| > 0
  {
  }

  /** The `Dialogue:` payload splits into exactly the columns before the
      text, then the text with all its commas: `len(cols) - 1` splits. */
  lemma {:induction false} TextKeepsCommas(fields: seq<string>, text: string)
    requires forall k :: 0 <= k < |fields| ==> ',' !in fields[k]
    ensures SplitAtMost(Join(fields + [text], ','), ',', |fields + [text]| - 1) == fields + [text]
  {
    if |fields| > 0 {
      var tail := fields[1..];
      TextKeepsCommas(tail, text);
      assert fields + [text] == [fields[0]] + (tail + [text]);
      assert (fields + [text])[1..] == tail + [text];
      JoinCons(fields[0], tail + [text], ',');
      SplitAtMostAfterHead(fields[0], ',', Join(tail + [text], ','), |fields|);
    }
  }

  /** A head without the separator becomes the first part and uses one
      split. */
  lemma {:induction false} SplitAtMostAfterHead(a: string, sep: char, b: string, n: int)
    requires sep !in a && n >= 1
    ensures SplitAtMost(a + [sep] + b, sep, n) == [a] + SplitAtMost(b, sep, n - 1)
  {
    var s := a + [sep] + b;
    if |a| == 0 {
      assert s[1..] == b;
    } else {
      assert s[1..] == a[1..] + [sep] + b;
      assert sep !in a[1..];
      SplitAtMostAfterHead(a[1..], sep, b, n);
      assert [a[0]] + a[1..] == a;
    }
  }

  /** The second style test never removes anything: none of the three
      dialogue styles holds a song, sign or title word. */
  lemma {:induction false} KeptStylesAreNotSongs(style: string)
    requires style in KeptStyles
    ensures !CueFilter.ContainsAny(style, SongWords)
  {
    forall k | 0 <= k < |SongWords|
      ensures !Contains(style, SongWords[k])
    {
      ContainsOccurs(style, SongWords[k]);
      NoSongWordIn(style, SongWords[k]);
    }
  }

  /** `t` occurs in `s` at `i`, compared character by character from `k`. */
  predicate MatchFrom(s: string, t: string, i: nat, k: nat)
    requires i + |t| <= |s| && k <= |t|
    decreases |t| - k
  {
    k == |t| || (s[i + k] == t[k] && MatchFrom(s, t, i, k + 1))
  }

  /** `t` occurs in `s` at `i` or later. */
  predicate OccursFrom(s: string, t: string, i: nat)
    decreases |s| - i
  {
    i + |t| <= |s| && (MatchFrom(s, t, i, 0) || OccursFrom(s, t, i + 1))
  }

  lemma {:induction false} NoSongWordIn(s: string, w: string)
    requires s in KeptStyles && w in SongWords
    ensures !OccursFrom(s, w, 0)
  {
  }

  lemma {:induction false} ContainsOccurs(s: string, t: string)
    ensures Contains(s, t) ==> OccursFrom(s, t, 0)
  {
    if Contains(s, t) {
      var j := ContainsWitness(s, t);
      OccursOfMatch(s, t, 0, j);
    }
  }

  lemma {:induction false} OccursOfMatch(s: string, t: string, i: nat, j: nat)
    requires i <= j && j + |t| <= |s| && s[j..j + |t|] == t
    ensures OccursFrom(s, t, i)
    decreases j - i
  {
    if i < j {
      OccursOfMatch(s, t, i + 1, j);
    } else {
      MatchOfSlice(s, t, j, 0);
    }
  }

  lemma {:induction false} MatchOfSlice(s: string, t: string, i: nat, k: nat)
    requires i + |t| <= |s| && k <= |t| && s[i..i + |t|] == t
    ensures MatchFrom(s, t, i, k)
    decreases |t| - k
  {
    if k < |t| {
      assert s[i..i + |t|][k] == s[i + k];
      MatchOfSlice(s, t, i, k + 1);
    }
  }

  // ---------------------------------------------------------------------
  // parse_timestamps of main.py: the `Legacy` dialect

  /** An answer line with a comma inside its times. */
  const CommaLine := "[00:01,250 - 00:03,100] x"

  /** The older parser allows only `:` and `.` inside a time, so on a line
      written with decimal commas the first pair it finds is `250 - 00:03`:
      the line reads as 250 s to 3 s, with the text `,100] x`. */
  lemma {:induction false} CommaSplitsTime(offset: int)
    ensures Transcript.ParseLine(CommaLine, offset, Transcript.Legacy) ==
      Some(Event(250000 + offset, 3000 + offset, ",100] x"))
  {
    CommaLineFields();
  }

  lemma {:induction false} CommaLineFields()
    ensures Transcript.LineFields(CommaLine, Transcript.Legacy) == Some(Event(250000, 3000, ",100] x"))
  {
    CommaLineText();
    CommaLineSearch();
    WholeSecondsExample();
    ClockExample("00:03");
    LegacyLineFields(CommaLine, Transcript.Match("250", "00:03", 18), 250000, 3000);
  }

  lemma {:induction false} CommaLineText()
    ensures TimeFormat.DropChar(Trim(CommaLine), '`') == CommaLine
    ensures TrimLeftOf(Trim(CommaLine[18..]), Transcript.Lead) == ",100] x"
  {
    CommaLineTrimmed();
    CommaLineContent();
  }

  lemma {:induction false} CommaLineTrimmed()
    ensures TimeFormat.DropChar(Trim(CommaLine), '`') == CommaLine
  {
    TimeFormat.TrimmedText(CommaLine);
    assert '`' !in CommaLine;
  }

  lemma {:induction false} CommaLineContent()
    ensures TrimLeftOf(Trim(CommaLine[18..]), Transcript.Lead) == ",100] x"
  {
  }

  lemma {:induction false} LegacyLineFields(line: string, m: Transcript.Match, s: nat, e: nat)
    requires TimeFormat.DropChar(Trim(line), '`') == line && |line| > 0
    requires m.end <= |line| && Transcript.Search(line, 0, Transcript.Legacy) == Some(m)
    requires TimeFormat.ParseTimeToMs(m.first) == Some(s) && TimeFormat.ParseTimeToMs(m.second) == Some(e)
    requires |TrimLeftOf(Trim(line[m.end..]), Transcript.Lead)| > 0
    ensures Transcript.LineFields(line, Transcript.Legacy) == Some(Event(s, e, TrimLeftOf(Trim(line[m.end..]), Transcript.Lead)))
  {
  }

  /** The search passes over `00:01` (stopped by the comma) and matches at
      `250`. */
  lemma {:induction false} CommaLineSearch()
    ensures Transcript.Search(CommaLine, 0, Transcript.Legacy) == Some(Transcript.Match("250", "00:03", 18))
  {
    CommaLineMisses();
    SearchSkips(CommaLine, 0, 7, Transcript.Legacy);
    CommaLineMatch();
  }

  lemma {:induction false} CommaLineMisses()
    ensures forall k :: 0 <= k < 7 ==> Transcript.MatchFrom(CommaLine, k, Transcript.Legacy).None?
  {
    forall k | 0 <= k < 7
      ensures Transcript.MatchFrom(CommaLine, k, Transcript.Legacy).None?
    {
      if k == 1 || k == 2 || k == 4 || k == 5 {
        RunTo6(k + 1);
        MissAt(k, 6);
      } else {
        assert !IsDigit(CommaLine[k]);
      }
    }
  }

  /** The time runs inside `00:01` all stop at its comma. */
  lemma {:induction false} RunTo6(i: nat)
    requires i == 2 || i == 3 || i == 5 || i == 6
    ensures Transcript.ClassRun(CommaLine, i, Transcript.Legacy) == 6
  {
    if i == 2 {
      assert Transcript.ClassRun(CommaLine, 2, Transcript.Legacy) == 6;
    } else if i == 3 {
      assert Transcript.ClassRun(CommaLine, 3, Transcript.Legacy) == 6;
    } else if i == 5 {
      assert Transcript.ClassRun(CommaLine, 5, Transcript.Legacy) == 6;
    }
  }

  /** A time run from `k` stopped at `j` by a character other than `-` or
      whitespace. */
  lemma {:induction false} MissAt(k: nat, j: nat)
    requires k < j < |CommaLine| && IsDigit(CommaLine[k])
    requires Transcript.ClassRun(CommaLine, k + 1, Transcript.Legacy) == j
    requires !IsSpace(CommaLine[j]) && CommaLine[j] != '-'
    ensures Transcript.MatchFrom(CommaLine, k, Transcript.Legacy).None?
  {
  }

  lemma {:induction false} CommaLineMatch()
    ensures Transcript.MatchFrom(CommaLine, 7, Transcript.Legacy) == Some(Transcript.Match("250", "00:03", 18))
  {
    FirstRun();
    SecondRun();
    Gap(10, 11);
    Gap(12, 13);
    assert CommaLine[7..10] == "250";
    assert CommaLine[13..18] == "00:03";
  }

  lemma {:induction false} FirstRun()
    ensures Transcript.ClassRun(CommaLine, 8, Transcript.Legacy) == 10
  {
    assert CommaLine[8] == '5' && CommaLine[9] == '0' && CommaLine[10] == ' ';
    assert Transcript.ClassRun(CommaLine, 10, Transcript.Legacy) == 10;
    assert Transcript.ClassRun(CommaLine, 9, Transcript.Legacy) == 10;
  }

  lemma {:induction false} SecondRun()
    ensures Transcript.ClassRun(CommaLine, 14, Transcript.Legacy) == 18
  {
    assert CommaLine[14..19] == "0:03,";
    assert Transcript.ClassRun(CommaLine, 18, Transcript.Legacy) == 18;
    assert Transcript.ClassRun(CommaLine, 17, Transcript.Legacy) == 18;
    assert Transcript.ClassRun(CommaLine, 16, Transcript.Legacy) == 18;
    assert Transcript.ClassRun(CommaLine, 15, Transcript.Legacy) == 18;
  }

  lemma {:induction false} Gap(i: nat, j: nat)
    requires (i == 10 && j == 11) || (i == 12 && j == 13)
    ensures Transcript.SpaceRun(CommaLine, i) == j
  {
    if i == 10 {
      assert Transcript.SpaceRun(CommaLine, 10) == 11;
    } else {
      assert Transcript.SpaceRun(CommaLine, 12) == 13;
    }
  }

  /** Positions where no match starts are passed over. */
  lemma {:induction false} SearchSkips(l: string, i: nat, j: nat, d: Transcript.Dialect)
    requires i <= j <= |l|
    requires forall k :: i <= k < j ==> Transcript.MatchFrom(l, k, d).None?
    ensures Transcript.Search(l, i, d) == Transcript.Search(l, j, d)
    decreases j - i
  {
    if i < j {
      SearchSkips(l, i + 1, j, d);
    }
  }

  lemma {:induction false} WholeSecondsExample()
    ensures TimeFormat.ParseTimeToMs("250") == Some(250000)
  {
    TimeFormat.NormalizePlain("250");
    SplitWithoutSep("250", ':');
    TimeFormat.WholeSeconds("250");
    assert ValueOf("250") == 250 by {
      assert "250"[..2] == "25" && "25"[..1] == "2";
    }
  }

  lemma {:induction false} ClockExample(ts: string)
    requires ts == "00:03"
    ensures TimeFormat.ParseTimeToMs(ts) == Some(3000)
  {
    var m, sec := "00", "03";
    ClockExampleFields(ts, m, sec);
    ClockExampleMinutes(m);
    ClockExampleSeconds(sec);
    TimeFormat.TwoFieldsTotal(ts, m, sec, 0, 3000);
  }

  lemma {:induction false} ClockExampleFields(ts: string, m: string, sec: string)
    requires ts == "00:03" && m == "00" && sec == "03"
    ensures Split(TimeFormat.Normalize(ts), ':') == [m, sec]
  {
    TimeFormat.NormalizePlain("00:03");
    TimeFormat.TwoFields("00", "03");
  }

  lemma {:induction false} ClockExampleMinutes(m: string)
    requires m == "00"
    ensures TimeFormat.WholeNumber(m) == Some(0)
  {
    TimeFormat.WholeNumberOf("00");
    assert ValueOf("00") == 0 by {
      assert "00"[..1] == "0";
    }
  }

  lemma {:induction false} ClockExampleSeconds(sec: string)
    requires sec == "03"
    ensures TimeFormat.SecondsMs(sec) == Some(3000)
  {
    TimeFormat.WholeSeconds("03");
    assert ValueOf("03") == 3 by {
      assert "03"[..1] == "0";
    }
  }

  // ---------------------------------------------------------------------
  // get_best_english_track

  /** An English subtitle candidate: its stream index and score. */
  datatype EnglishTrack = EnglishTrack(index: int, score: int)

  /** A dialogue track up, signs and songs down. */
  function EnglishScore(title: string): int
  {
    (if Contains(title, "dialogue") then 10 else 0) +
    (if Contains(title, "signs") || Contains(title, "song") then -5 else 0)
  }

  /** A subtitle stream tagged English. */
  predicate IsEnglishSubtitle(s: TrackSelection.Stream)
  {
    s.codecType == "subtitle" && Lower(TrackSelection.Tag(s, "language")) in ["eng", "en"]
  }

  function EnglishCandidate(s: TrackSelection.Stream): EnglishTrack
  {
    EnglishTrack(s.index, EnglishScore(Lower(TrackSelection.Tag(s, "title"))))
  }

  /** The candidates of the English subtitle streams, in probe order. */
  function EnglishCandidates(ss: seq<TrackSelection.Stream>): seq<EnglishTrack>
  {
    if |ss| == 0 then []
    else
      EnglishCandidates(ss[..|ss| - 1]) +
      (if IsEnglishSubtitle(ss[|ss| - 1]) then [EnglishCandidate(ss[|ss| - 1])] else [])
  }

  /** The head of the candidates sorted by descending score, a stable
      sort: a later candidate displaces an earlier one only with a
      strictly higher score. */
  function FirstBestEnglish(cs: seq<EnglishTrack>): EnglishTrack
    requires |cs| > 0
  {
    if |cs| == 1 then cs[0]
    else
      var b := FirstBestEnglish(cs[..|cs| - 1]);
      if cs[|cs| - 1].score > b.score then cs[|cs| - 1] else b
  }

  /** `get_best_english_track`: the stream index of the chosen track, or
      `None` when the probe printed nothing or no English subtitle stream
      exists. */
  method GetBestEnglishTrack(probe: Option<seq<TrackSelection.Stream>>) returns (index: Option<int>)
    ensures probe.None? ==> index.None?
    ensures probe.Some? ==> (index.None? <==> |EnglishCandidates(probe.value)| == 0)
    ensures index.Some? ==> index.value == FirstBestEnglish(EnglishCandidates(probe.value)).index
  {
    if probe.None? {
      return None;
    }
    var streams := probe.value;
    var tracks: seq<EnglishTrack> := [];
    for i := 0 to |streams|
      invariant tracks == EnglishCandidates(streams[..i])
    {
      assert streams[..i + 1][..i] == streams[..i];
      var stream := streams[i];
      if stream.codecType == "subtitle" {
        var lang := Lower(TrackSelection.Tag(stream, "language"));
        var title := Lower(TrackSelection.Tag(stream, "title"));
        if lang in ["eng", "en"] {
          var score := 0;
          if Contains(title, "dialogue") {
            score := score + 10;
          }
          if Contains(title, "signs") || Contains(title, "song") {
            score := score - 5;
          }
          tracks := tracks + [EnglishTrack(stream.index, score)];
        }
      }
    }
    assert streams[..|streams|] == streams;
    if |tracks| == 0 {
      return None;
    }
    return Some(FirstBestEnglish(tracks).index);
  }

  /** The chosen track is the first candidate of the highest score. */
  lemma {:induction false} FirstBestEnglishIsFirstMaximum(cs: seq<EnglishTrack>) returns (i: nat)
    requires |cs| > 0
    ensures i < |cs| && cs[i] == FirstBestEnglish(cs)
    ensures forall j :: 0 <= j < |cs| ==> cs[j].score <= cs[i].score
    ensures forall j :: 0 <= j < i ==> cs[j].score < cs[i].score
  {
    if |cs| == 1 {
      i := 0;
    } else {
      var p := cs[..|cs| - 1];
      var k := FirstBestEnglishIsFirstMaximum(p);
      assert forall j :: 0 <= j < |p| ==> p[j] == cs[j];
      if cs[|cs| - 1].score > p[k].score {
        i := |cs| - 1;
      } else {
        i := k;
      }
    }
  }

  /** There is a candidate exactly when the probe lists an English
      subtitle stream, and each candidate comes from one. */
  lemma {:induction false} EnglishCandidatesOfStreams(ss: seq<TrackSelection.Stream>)
    ensures |EnglishCandidates(ss)| > 0 <==> exists i :: 0 <= i < |ss| && IsEnglishSubtitle(ss[i])
    ensures forall c :: c in EnglishCandidates(ss) ==>
      exists i :: 0 <= i < |ss| && IsEnglishSubtitle(ss[i]) && c == EnglishCandidate(ss[i])
  {
    if |ss| > 0 {
      var p := ss[..|ss| - 1];
      EnglishCandidatesOfStreams(p);
      assert forall i :: 0 <= i < |p| ==> p[i] == ss[i];
      if exists i :: 0 <= i < |ss| && IsEnglishSubtitle(ss[i]) {
        var i :| 0 <= i < |ss| && IsEnglishSubtitle(ss[i]);
        if i < |p| {
          assert IsEnglishSubtitle(p[i]);
        }
      }
    }
  }

  // ---------------------------------------------------------------------
  // The chunk loop of main

  /** The audio padding around a chunk, in milliseconds. */
  const Padding: nat := 700

  /** The target chunk length of main.py, in seconds. */
  const TargetSeconds: int := 60

  /** What the loop has built: the subtitles, the cache directory (file
      name to content), and the numbers of the chunks sent to the
      service. */
  datatype LoopState = LoopState(subs: seq<Event>, cache: map<string, string>, sent: seq<nat>)

  predicate NonEmptyClusters(cs: seq<seq<Event>>)
  {
    forall k :: 0 <= k < |cs| ==> |cs[k]| > 0
  }

  /** The cache file of a chunk: named after its padded range. */
  function ChunkKey(video: string, cluster: seq<Event>): string
    requires |cluster| > 0
  {
    CachePaths.CachePath(video, Pipeline.PaddedStart(cluster, Padding), Pipeline.PaddedEnd(cluster, Padding))
  }

  /** Chunk number `i`: a cached answer is read back; otherwise the chunk
      is sent, and the service's answer (`world(i)`, `None` for an
      exception) is cached and read, or the chunk is skipped. (Clusters
      are never empty; an empty one would change nothing.) */
  function ChunkStep(video: string, world: nat -> Option<string>, st: LoopState, i: nat, cluster: seq<Event>): LoopState
  {
    if |cluster| == 0 then st
    else
      var start := Pipeline.PaddedStart(cluster, Padding);
      var key := ChunkKey(video, cluster);
      if key in st.cache then
        st.(subs := st.subs + Transcript.ParseTranscript(st.cache[key], start, Transcript.Legacy))
      else
        match world(i)
        case None => st.(sent := st.sent + [i])
        case Some(raw) =>
          LoopState(st.subs + Transcript.ParseTranscript(raw, start, Transcript.Legacy), st.cache[key := raw], st.sent + [i])
  }

  /** The loop over the chunks numbered from `first`, with the chunk step
      `step`. */
  function Loop(step: (LoopState, nat, seq<Event>) -> LoopState, st: LoopState, first: nat,
                clusters: seq<seq<Event>>): LoopState
  {
    if |clusters| == 0 then st
    else
      var n := |clusters| - 1;
      step(Loop(step, st, first, clusters[..n]), first + n, clusters[n])
  }

  function StepOf(video: string, world: nat -> Option<string>): (LoopState, nat, seq<Event>) -> LoopState
  {
    (st: LoopState, i: nat, cluster: seq<Event>) => ChunkStep(video, world, st, i, cluster)
  }

  /** The chunk loop of `main` from the state `st`. */
  function ChunkLoop(video: string, world: nat -> Option<string>, st: LoopState, first: nat,
                     clusters: seq<seq<Event>>): LoopState
  {
    Loop(StepOf(video, world), st, first, clusters)
  }

  /** The body of the loop for chunk `i`. */
  method ProcessChunk(video: string, world: nat -> Option<string>, st: LoopState, i: nat, cluster: seq<Event>)
    returns (next: LoopState)
    requires |cluster| > 0
    ensures next == ChunkStep(video, world, st, i, cluster)
  {
    var startMs := cluster[0].start - Padding;
    if startMs < 0 {
      startMs := 0;
    }
    var endMs := cluster[|cluster| - 1].end + Padding;
    var cachePath := CachePaths.CachePath(video, startMs, endMs);
    var cache := st.cache;
    var sent := st.sent;
    var raw: string;
    if cachePath in cache {
      raw := cache[cachePath];
    } else {
      sent := sent + [i];
      var answer := world(i);
      if answer.None? {
        return st.(sent := sent);
      }
      raw := answer.value;
      cache := cache[cachePath := raw];
    }
    var parsed := Transcript.ParseTimestamps(raw, startMs, Transcript.Legacy);
    next := LoopState(st.subs + parsed, cache, sent);
  }

  /** The loop of `main` over the chunks, from an empty subtitle list and
      the cache directory as found. */
  method TranscribeChunks(video: string, world: nat -> Option<string>, cache0: map<string, string>, clusters: seq<seq<Event>>)
    returns (fin: LoopState)
    requires NonEmptyClusters(clusters)
    ensures fin == ChunkLoop(video, world, LoopState([], cache0, []), 0, clusters)
  {
    fin := LoopState([], cache0, []);
    for i := 0 to |clusters|
      invariant fin == ChunkLoop(video, world, LoopState([], cache0, []), 0, clusters[..i])
    {
      assert clusters[..i + 1][..i] == clusters[..i];
      fin := ProcessChunk(video, world, fin, i, clusters[i]);
    }
    assert clusters[..|clusters|] == clusters;
  }

  /** Running the loop over `a + b` runs it over `a`, then over `b`
      numbered on from there. */
  lemma {:induction false} LoopAppend(step: (LoopState, nat, seq<Event>) -> LoopState, st: LoopState, first: nat,
                                      a: seq<seq<Event>>, b: seq<seq<Event>>)
    ensures Loop(step, st, first, a + b) == Loop(step, Loop(step, st, first, a), first + |a|, b)
    decreases |b|
  {
    if |b| == 0 {
      assert a + b == a;
    } else {
      assert (a + b)[..|a + b| - 1] == a + b[..|b| - 1];
      LoopAppend(step, st, first, a, b[..|b| - 1]);
    }
  }

  /** Chunk `k` leaves the state as `x`: the rest of the loop runs from
      there. */
  lemma {:induction false} LoopThrough(step: (LoopState, nat, seq<Event>) -> LoopState, st: LoopState, first: nat,
                                       cs: seq<seq<Event>>, k: nat)
    requires k < |cs|
    ensures Loop(step, st, first, cs) ==
      Loop(step, step(Loop(step, st, first, cs[..k]), first + k, cs[k]), first + k + 1, cs[k + 1..])
  {
    assert cs == cs[..k + 1] + cs[k + 1..];
    LoopAppend(step, st, first, cs[..k + 1], cs[k + 1..]);
    assert cs[..k + 1][..k] == cs[..k];
  }

  /** A chunk missing from the cache whose transcription raises only has
      its number recorded as sent. */
  lemma {:induction false} FailedStep(video: string, world: nat -> Option<string>, x: LoopState, i: nat, c: seq<Event>)
    requires |c| > 0 && ChunkKey(video, c) !in x.cache && world(i).None?
    ensures StepOf(video, world)(x, i, c) == x.(sent := x.sent + [i])
  {
  }

  /** A failed chunk is skipped and nothing else: the chunks after it run
      exactly as they would have from the state before it, with its
      number recorded as sent. */
  lemma {:induction false} FailureSkipsOnlyItsChunk(video: string, world: nat -> Option<string>, st: LoopState, first: nat,
                                                    cs: seq<seq<Event>>, k: nat)
    requires k < |cs| && |cs[k]| > 0
    requires ChunkKey(video, cs[k]) !in ChunkLoop(video, world, st, first, cs[..k]).cache
    requires world(first + k).None?
    ensures var mid := ChunkLoop(video, world, st, first, cs[..k]);
      ChunkLoop(video, world, st, first, cs) ==
      ChunkLoop(video, world, mid.(sent := mid.sent + [first + k]), first + k + 1, cs[k + 1..])
  {
    var step := StepOf(video, world);
    var mid := Loop(step, st, first, cs[..k]);
    FailedStep(video, world, mid, first + k, cs[k]);
    LoopSkipping(step, st, first, cs, k, mid.(sent := mid.sent + [first + k]));
  }

  /** When chunk `k` leaves the state as `x`, the rest of the loop runs from
      there. */
  lemma {:induction false} LoopSkipping(step: (LoopState, nat, seq<Event>) -> LoopState, st: LoopState, first: nat,
                                        cs: seq<seq<Event>>, k: nat, x: LoopState)
    requires k < |cs| && step(Loop(step, st, first, cs[..k]), first + k, cs[k]) == x
    ensures Loop(step, st, first, cs) == Loop(step, x, first + k + 1, cs[k + 1..])
  {
    LoopThrough(step, st, first, cs, k);
  }

  /** The numbers `first`, …, `first + n - 1`. */
  function Numbers(first: nat, n: nat): (r: seq<nat>)
    ensures |r| == n && forall k :: 0 <= k < n ==> r[k] == first + k
  {
    if n == 0 then [] else Numbers(first, n - 1) + [first + n - 1]
  }

  /** The last chunk runs from the state the others leave. */
  lemma {:induction false} LoopLast(step: (LoopState, nat, seq<Event>) -> LoopState, st: LoopState, first: nat,
                                    cs: seq<seq<Event>>)
    requires |cs| > 0
    ensures Loop(step, st, first, cs) ==
      step(Loop(step, st, first, cs[..|cs| - 1]), first + |cs| - 1, cs[|cs| - 1])
  {
  }

  lemma {:induction false} NumbersSnoc(first: nat, n: nat)
    ensures Numbers(first, n + 1) == Numbers(first, n) + [first + n]
  {
  }

  /** When every transcription raises and nothing is cached, every chunk
      is still sent, in order, and nothing else changes. */
  lemma {:induction false} AllFailedAllSent(video: string, world: nat -> Option<string>, st: LoopState, first: nat,
                                            cs: seq<seq<Event>>)
    requires NonEmptyClusters(cs)
    requires forall i: nat :: first <= i < first + |cs| ==> world(i).None?
    requires forall k :: 0 <= k < |cs| ==> ChunkKey(video, cs[k]) !in st.cache
    ensures ChunkLoop(video, world, st, first, cs) == st.(sent := st.sent + Numbers(first, |cs|))
  {
    if |cs| > 0 {
      var n := |cs| - 1;
      var p := cs[..n];
      forall k | 0 <= k < |p|
        ensures |p[k]| > 0 && ChunkKey(video, p[k]) !in st.cache
      {
        assert p[k] == cs[k];
      }
      AllFailedAllSent(video, world, st, first, p);
      var mid := ChunkLoop(video, world, st, first, p);
      LoopLast(StepOf(video, world), st, first, cs);
      FailedStep(video, world, mid, first + n, cs[n]);
      NumbersSnoc(first, n);
      assert st.sent + Numbers(first, |cs|) == (st.sent + Numbers(first, n)) + [first + n];
    }
  }

  /** `b` extends `a`: the subtitles and the sent chunks only grow, every
      cached answer stays, and no subtitle with a negative time appears. */
  predicate Extends(a: LoopState, b: LoopState)
  {
    |a.subs| <= |b.subs| && b.subs[..|a.subs|] == a.subs &&
    |a.sent| <= |b.sent| && b.sent[..|a.sent|] == a.sent &&
    (forall key :: key in a.cache ==> key in b.cache && b.cache[key] == a.cache[key]) &&
    (NonNegative(a.subs) ==> NonNegative(b.subs))
  }

  lemma {:induction false} ExtendsTrans(a: LoopState, b: LoopState, c: LoopState)
    requires Extends(a, b) && Extends(b, c)
    ensures Extends(a, c)
  {
    assert c.subs[..|a.subs|] == c.subs[..|b.subs|][..|a.subs|];
    assert c.sent[..|a.sent|] == c.sent[..|b.sent|][..|a.sent|];
  }

  lemma {:induction false} LoopExtends(step: (LoopState, nat, seq<Event>) -> LoopState, st: LoopState, first: nat,
                                       cs: seq<seq<Event>>)
    requires forall x: LoopState, i: nat, c: seq<Event> :: Extends(x, step(x, i, c))
    ensures Extends(st, Loop(step, st, first, cs))
  {
    if |cs| > 0 {
      var n := |cs| - 1;
      LoopExtends(step, st, first, cs[..n]);
      var mid := Loop(step, st, first, cs[..n]);
      ExtendsTrans(st, mid, step(mid, first + n, cs[n]));
    }
  }

  /** One chunk extends the state: its answer is read with the chunk's
      padded start, never negative, as offset. */
  lemma {:induction false} StepExtends(video: string, world: nat -> Option<string>, x: LoopState, i: nat, c: seq<Event>)
    ensures Extends(x, StepOf(video, world)(x, i, c))
  {
    if |c| > 0 {
      var start := Pipeline.PaddedStart(c, Padding);
      var key := ChunkKey(video, c);
      var raw := if key in x.cache then x.cache[key] else if world(i).Some? then world(i).value else "";
      Transcript.ParseTranscriptFrom(raw, start, Transcript.Legacy);
      var add := Transcript.ParseTranscript(raw, start, Transcript.Legacy);
      if NonNegative(x.subs) {
        NonNegativeConcat(x.subs, add);
      }
      assert (x.subs + add)[..|x.subs|] == x.subs;
      assert (x.sent + [i])[..|x.sent|] == x.sent;
    }
  }

  /** Unlike the current pipeline, main.py never deletes a cache file and
      never stops early: the loop only adds subtitles, cached answers and
      sent chunks, and every subtitle it adds has non-negative times. */
  lemma {:induction false} ChunkLoopExtends(video: string, world: nat -> Option<string>, st: LoopState, first: nat,
                                            cs: seq<seq<Event>>)
    ensures Extends(st, ChunkLoop(video, world, st, first, cs))
  {
    forall x: LoopState, i: nat, c: seq<Event>
      ensures Extends(x, StepOf(video, world)(x, i, c))
    {
      StepExtends(video, world, x, i, c);
    }
    LoopExtends(StepOf(video, world), st, first, cs);
  }

  lemma {:induction false} NonNegativeConcat(a: seq<Event>, b: seq<Event>)
    requires NonNegative(a) && forall i :: 0 <= i < |b| ==> b[i].start >= 0 && b[i].end >= 0
    ensures NonNegative(a + b)
  {
    var c := a + b;
    assert forall i :: |a| <= i < |c| ==> c[i] == b[i - |a|];
  }

  // ---------------------------------------------------------------------
  // main

  /** `main(video_file)` as written: main.py:30's pattern cleans the
      dialogue, so single-brace override tags stay in the text sent as
      context. */
  method Generate(video: string, probe: Option<seq<TrackSelection.Stream>>, assLines: seq<string>,
                  world: nat -> Option<string>, cache0: map<string, string>)
    returns (srt: Option<string>, cache: map<string, string>, sent: seq<nat>)
    ensures probe.None? || |EnglishCandidates(probe.value)| == 0 ==>
      srt.None? && cache == cache0 && sent == []
    ensures probe.Some? && |EnglishCandidates(probe.value)| > 0 && AssDialogue(assLines, CleanAssTextAsWritten).None? ==>
      srt.None? && cache == cache0 && sent == []
    ensures probe.Some? && |EnglishCandidates(probe.value)| > 0 && AssDialogue(assLines, CleanAssTextAsWritten).Some? ==>
      var clusters := Clustering.Group(AssDialogue(assLines, CleanAssTextAsWritten).value, TargetSeconds);
      var fin := ChunkLoop(video, world, LoopState([], cache0, []), 0, clusters);
      srt == Some(SrtWriter.Blocks(fin.subs, 1)) && cache == fin.cache && sent == fin.sent
  {
    srt, cache, sent := GenerateWith(CleanAssTextAsWritten, video, probe, assLines, world, cache0);
  }

  /** `main(video_file)` with the cleaner corrected to remove `{…}`
      override blocks. */
  method GenerateCorrected(video: string, probe: Option<seq<TrackSelection.Stream>>, assLines: seq<string>,
                           world: nat -> Option<string>, cache0: map<string, string>)
    returns (srt: Option<string>, cache: map<string, string>, sent: seq<nat>)
    ensures probe.None? || |EnglishCandidates(probe.value)| == 0 ==>
      srt.None? && cache == cache0 && sent == []
    ensures probe.Some? && |EnglishCandidates(probe.value)| > 0 && AssDialogue(assLines, CleanAssText).None? ==>
      srt.None? && cache == cache0 && sent == []
    ensures probe.Some? && |EnglishCandidates(probe.value)| > 0 && AssDialogue(assLines, CleanAssText).Some? ==>
      var clusters := Clustering.Group(AssDialogue(assLines, CleanAssText).value, TargetSeconds);
      var fin := ChunkLoop(video, world, LoopState([], cache0, []), 0, clusters);
      srt == Some(SrtWriter.Blocks(fin.subs, 1)) && cache == fin.cache && sent == fin.sent
  {
    srt, cache, sent := GenerateWith(CleanAssText, video, probe, assLines, world, cache0);
  }

  /** The body of `main(video_file)`, for a given text cleaner. Its inputs
      are the probe of the video, the lines of the English track it
      extracts, the service's answer for each chunk number and the cache
      directory as found. It returns the SRT text written (`None` when
      `main` returns or raises before writing), the cache directory
      afterwards and the chunks sent. Without an English track nothing
      happens; a malformed ASS time raises before any chunk is sent;
      otherwise every chunk is tried, failures are skipped, and the SRT
      file is written even when it is empty. */
  method GenerateWith(clean: string -> string, video: string, probe: Option<seq<TrackSelection.Stream>>,
                      assLines: seq<string>, world: nat -> Option<string>, cache0: map<string, string>)
    returns (srt: Option<string>, cache: map<string, string>, sent: seq<nat>)
    ensures probe.None? || |EnglishCandidates(probe.value)| == 0 ==>
      srt.None? && cache == cache0 && sent == []
    ensures probe.Some? && |EnglishCandidates(probe.value)| > 0 && AssDialogue(assLines, clean).None? ==>
      srt.None? && cache == cache0 && sent == []
    ensures probe.Some? && |EnglishCandidates(probe.value)| > 0 && AssDialogue(assLines, clean).Some? ==>
      var clusters := Clustering.Group(AssDialogue(assLines, clean).value, TargetSeconds);
      var fin := ChunkLoop(video, world, LoopState([], cache0, []), 0, clusters);
      srt == Some(SrtWriter.Blocks(fin.subs, 1)) && cache == fin.cache && sent == fin.sent
  {
    srt := None;
    cache := cache0;
    sent := [];
    var track := GetBestEnglishTrack(probe);
    if track.None? {
      return;
    }
    var events := GetDialogueFromAss(assLines, clean);
    if events.None? {
      return;
    }
    var clusters := Clustering.GroupEvents(events.value, TargetSeconds);
    var fin := TranscribeChunks(video, world, cache0, clusters);
    ChunkLoopExtends(video, world, LoopState([], cache0, []), 0, clusters);
    var out := SrtWriter.RenderSrt(fin.subs);
    srt := Some(out);
    cache := fin.cache;
    sent := fin.sent;
  }
}
