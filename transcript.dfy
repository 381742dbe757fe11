/**
  Reading the transcription service's answer (`parse_timestamps` in
  src/utils.py and its older copy in main.py).

  Every line of the answer is searched for the leftmost `time - time` pair;
  the rest of the line, with leading `]`, `:` and spaces removed, is the
  text. The two copies of the parser differ in the characters a time may
  hold (the current one also allows `,`) and in whether whitespace between
  Japanese characters is removed from the text.
*/
module Transcript {
  import opened Common
  import opened Decimal
  import opened TimeFormat
  import opened JapaneseSpaces

  /** Which copy of the parser: src/utils.py or main.py. */
  datatype Dialect = Current | Legacy

  // ---------------------------------------------------------------------
  // The `(\d+[:\d\.,]*)\s*-\s*(\d+[:\d\.,]*)` search

  /** The characters of the bracketed class of a time group. */
  predicate TimeChar(c: char, d: Dialect)
  {
    IsDigit(c) || c == ':' || c == '.' || (d == Current && c == ',')
  }

  /** The end of the longest run of time characters starting at `i`. */
  function ClassRun(l: string, i: nat, d: Dialect): (j: nat)
    requires i <= |l|
    ensures i <= j <= |l|
    ensures j < |l| ==> !TimeChar(l[j], d)
    decreases |l| - i
  {
    if i < |l| && TimeChar(l[i], d) then ClassRun(l, i + 1, d) else i
  }

  /** The end of the longest run of whitespace starting at `i`. */
  function SpaceRun(l: string, i: nat): (j: nat)
    requires i <= |l|
    ensures i <= j <= |l|
    ensures j < |l| ==> !IsSpace(l[j])
    decreases |l| - i
  {
    if i < |l| && IsSpace(l[i]) then SpaceRun(l, i + 1) else i
  }

  /** The two captured times of a match, and where the match ends. */
  datatype Match = Match(first: string, second: string, end: nat)

  /** The match of the pattern that starts exactly at `i`, if any. Greedy
      runs are final here: giving characters back never lets the next
      element of the pattern match, since `-` is neither a time character
      nor whitespace, and whitespace is not a digit. */
  function MatchFrom(l: string, i: nat, d: Dialect): (m: Option<Match>)
    requires i <= |l|
    ensures m.Some? ==> i < m.value.end <= |l|
  {
    if i < |l| && IsDigit(l[i]) then
      var j1 := ClassRun(l, i + 1, d);
      var j2 := SpaceRun(l, j1);
      if j2 < |l| && l[j2] == '-' then
        var j3 := SpaceRun(l, j2 + 1);
        if j3 < |l| && IsDigit(l[j3]) then
          var j4 := ClassRun(l, j3 + 1, d);
          Some(Match(l[i..j1], l[j3..j4], j4))
        else None
      else None
    else None
  }

  /** `re.search`: the match at the leftmost position `>= i` that has one. */
  function Search(l: string, i: nat, d: Dialect): (m: Option<Match>)
    requires i <= |l|
    ensures m.Some? ==> m.value.end <= |l|
    decreases |l| - i
  {
    var here := MatchFrom(l, i, d);
    if here.Some? || i == |l| then here else Search(l, i + 1, d)
  }

  // ---------------------------------------------------------------------
  // One line, and the whole answer

  /** The characters `lstrip(']: ')` removes. */
  const Lead: set<char> := {']', ':', ' '}

  /** The times (relative to the chunk) and the text one line of the answer
      holds, or `None` when the line is blank, has no time pair, has a time
      that does not parse, or has no text. */
  function LineFields(line: string, d: Dialect): (r: Option<Event>)
    ensures r.Some? ==> r.value.start >= 0 && r.value.end >= 0 && |r.value.text| > 0
  {
    var l := DropChar(Trim(line), '`');
    if |l| == 0 then None
    else
      match Search(l, 0, d)
      case None => None
      case Some(m) =>
        var content := TrimLeftOf(Trim(l[m.end..]), Lead);
        match (ParseTimeToMs(m.first), ParseTimeToMs(m.second))
        case (Some(s), Some(e)) =>
          if |content| == 0 then None
          else
            var text := if d == Current then RemoveJapaneseSpaces(content) else content;
            if |text| == 0 then None else Some(Event(s, e, text))
        case _ => None
  }

  /** What one line contributes: its event, both times moved by `offset`. */
  function ParseLine(line: string, offset: int, d: Dialect): Option<Event>
  {
    Moved(LineFields(line, d), offset)
  }

  /** An optional event with both times moved by `k`. */
  function Moved(f: Option<Event>, k: int): (r: Option<Event>)
    ensures r.Some? <==> f.Some?
    ensures r.Some? ==> r.value == Event(f.value.start + k, f.value.end + k, f.value.text)
  {
    match f
    case None => None
    case Some(e) => Some(Event(e.start + k, e.end + k, e.text))
  }

  function Events(r: Option<Event>): seq<Event>
  {
    if r.Some? then [r.value] else []
  }

  /** What a line-by-line reader collects: the event of each line that has
      one, in line order. */
  function Collect(lines: seq<string>, parse: string -> Option<Event>): (es: seq<Event>)
    ensures |es| <= |lines|
  {
    if |lines| == 0 then []
    else Collect(lines[..|lines| - 1], parse) + Events(parse(lines[|lines| - 1]))
  }

  /** The line reader of `parse_timestamps`. */
  function LineParser(offset: int, d: Dialect): string -> Option<Event>
  {
    line => ParseLine(line, offset, d)
  }

  /** `parse_timestamps(text, offset)` as a value. */
  function ParseTranscript(text: string, offset: int, d: Dialect): seq<Event>
  {
    Collect(SplitLines(text), LineParser(offset, d))
  }

  /** `parse_timestamps`: split the answer into lines, then run the line
      loop with this dialect's line reader. */
  method ParseTimestamps(text: string, offset: int, d: Dialect) returns (results: seq<Event>)
    ensures results == ParseTranscript(text, offset, d)
  {
    results := CollectLoop(SplitLines(text), LineParser(offset, d));
  }

  /** The line loop of `parse_timestamps`: each line's event, if it has
      one, is appended to the result list. */
  method CollectLoop(lines: seq<string>, parse: string -> Option<Event>) returns (results: seq<Event>)
    ensures results == Collect(lines, parse)
  {
    results := [];
    var i := 0;
    while i < |lines|
      invariant 0 <= i <= |lines|
      invariant results == Collect(lines[..i], parse)
    {
      assert lines[..i + 1][..i] == lines[..i];
      var parsed := parse(lines[i]);
      if parsed.Some? {
        results := results + [parsed.value];
      }
      i := i + 1;
    }
    assert lines[..i] == lines;
  }

  // ---------------------------------------------------------------------
  // Order and offset

  /** The events of two blocks of lines are the events of the first block
      followed by those of the second: surviving lines keep their order. */
  lemma {:induction false} CollectAppend(a: seq<string>, b: seq<string>, parse: string -> Option<Event>)
    ensures Collect(a + b, parse) == Collect(a, parse) + Collect(b, parse)
    decreases |b|
  {
    if |b| == 0 {
      assert a + b == a;
    } else {
      assert (a + b)[..|a + b| - 1] == a + b[..|b| - 1];
      CollectAppend(a, b[..|b| - 1], parse);
    }
  }

  /** A reader whose events are another reader's, shifted, collects the
      other reader's events, shifted. */
  lemma {:induction false} CollectShift(lines: seq<string>, f: string -> Option<Event>, g: string -> Option<Event>, k: int)
    requires forall l :: Events(g(l)) == Shift(Events(f(l)), k)
    ensures Collect(lines, g) == Shift(Collect(lines, f), k)
    decreases |lines|
  {
    if |lines| > 0 {
      var init := lines[..|lines| - 1];
      CollectShift(init, f, g, k);
      var a := Collect(init, f);
      var e := Events(f(lines[|lines| - 1]));
      assert Shift(a + e, k) == Shift(a, k) + Shift(e, k);
    }
  }

  lemma {:induction false} MovedShift(f: Option<Event>, k: int)
    ensures Events(Moved(f, k)) == Shift(Events(Moved(f, 0)), k)
  {
  }

  /** The offset is added to both times of every event and changes nothing
      else: parsing with an offset is parsing at zero, then shifting. */
  lemma {:induction false} ParseTranscriptOffset(text: string, offset: int, d: Dialect)
    ensures ParseTranscript(text, offset, d) == Shift(ParseTranscript(text, 0, d), offset)
  {
    var f := LineParser(0, d);
    var g := LineParser(offset, d);
    forall l
      ensures Events(g(l)) == Shift(Events(f(l)), offset)
    {
      MovedShift(LineFields(l, d), offset);
    }
    CollectShift(SplitLines(text), f, g, offset);
  }

  /** A reader that finds one given event on each line collects exactly
      those events. */
  lemma {:induction false} CollectEach(lines: seq<string>, parse: string -> Option<Event>, es: seq<Event>)
    requires |lines| == |es|
    requires forall i :: 0 <= i < |lines| ==> parse(lines[i]) == Some(es[i])
    ensures Collect(lines, parse) == es
    decreases |lines|
  {
    if |lines| > 0 {
      var n := |lines| - 1;
      CollectEach(lines[..n], parse, es[..n]);
      assert es == es[..n] + [es[n]];
    }
  }

  /** Every event read with offset `offset` starts and ends at or after
      `offset`: the times written in an answer line are never negative. */
  lemma {:induction false} ParseTranscriptFrom(text: string, offset: int, d: Dialect)
    ensures var es := ParseTranscript(text, offset, d);
      forall i :: 0 <= i < |es| ==> es[i].start >= offset && es[i].end >= offset
  {
    ParseTranscriptOffset(text, offset, d);
    ParseTranscriptNonNegative(text, d);
    ShiftFrom(ParseTranscript(text, 0, d), offset);
  }

  lemma {:induction false} ParseTranscriptNonNegative(text: string, d: Dialect)
    ensures NonNegative(ParseTranscript(text, 0, d))
  {
    var parse := LineParser(0, d);
    forall l
      ensures parse(l).Some? ==> parse(l).value.start >= 0 && parse(l).value.end >= 0
    {
    }
    CollectNonNegative(SplitLines(text), parse);
    assert ParseTranscript(text, 0, d) == Collect(SplitLines(text), parse);
  }

  lemma {:induction false} CollectNonNegative(lines: seq<string>, parse: string -> Option<Event>)
    requires forall l :: parse(l).Some? ==> parse(l).value.start >= 0 && parse(l).value.end >= 0
    ensures NonNegative(Collect(lines, parse))
    decreases |lines|
  {
    if |lines| > 0 {
      var a := Collect(lines[..|lines| - 1], parse);
      var b := Events(parse(lines[|lines| - 1]));
      CollectNonNegative(lines[..|lines| - 1], parse);
      assert Collect(lines, parse) == a + b;
      var es: seq<Event> := a + b;
      forall i | 0 <= i < |es|
        ensures es[i].start >= 0 && es[i].end >= 0
      {
        if i < |a| {
          assert es[i] == a[i];
        } else {
          assert parse(lines[|lines| - 1]).Some?;
          assert es[i] == b[i - |a|] == parse(lines[|lines| - 1]).value;
        }
      }
    }
  }

  lemma {:induction false} ShiftFrom(es: seq<Event>, k: int)
    requires NonNegative(es)
    ensures var r := Shift(es, k);
      forall i :: 0 <= i < |r| ==> r[i].start >= k && r[i].end >= k
  {
  }
}
