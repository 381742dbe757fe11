/**
  The English cue filter of the current pipeline (src/media_utils.py):
  cleaning an ASS event's text (`clean_ass_text`), the share-of-ASCII-letters
  test (`is_mostly_english`), and the loop of `get_dialogue_from_ass` that
  sorts every event of the loaded track into one of six outcomes, keeps the
  dialogue and counts the rest.

  The three regular expressions of `clean_ass_text` are written out as
  scanners: `\\p[1-9]` is `HasDrawing`, the non-greedy `\{.*?\}` (whose `.`
  does not match a line feed) is `StripTags`, and `\s+` is `Collapse`.
*/
module CueFilter {
  import opened Common
  import opened Decimal

  // ---------------------------------------------------------------------
  // clean_ass_text

  /** A drawing command `\p1` … `\p9` starts at `i`. */
  predicate DrawingAt(s: string, i: nat)
    requires i + 2 < |s|
  {
    s[i] == '\\' && s[i + 1] == 'p' && '1' <= s[i + 2] <= '9'
  }

  /** `re.search(r'\\p[1-9]', s)` finds a match. */
  predicate HasDrawing(s: string)
  {
    exists i: nat :: i + 2 < |s| && DrawingAt(s, i)
  }

  /** Where the `.*?` of a tag opened before `i` stops: the first `}` or line
      feed at or after `i`, or the end of the text. */
  function TagEnd(s: string, i: nat): (k: nat)
    requires i <= |s|
    ensures i <= k <= |s|
    ensures k < |s| ==> s[k] == '}' || s[k] == '\n'
    ensures forall j :: i <= j < k ==> s[j] != '}' && s[j] != '\n'
    decreases |s| - i
  {
    if i == |s| || s[i] == '}' || s[i] == '\n' then i else TagEnd(s, i + 1)
  }

  /** An override block `{…}` on one line starts at `i`. */
  predicate TagAt(s: string, i: nat)
    requires i < |s|
  {
    s[i] == '{' && TagEnd(s, i + 1) < |s| && s[TagEnd(s, i + 1)] == '}'
  }

  /** `re.sub(r'\{.*?\}', '', s)`: scanning from the left, each `{` that is
      closed by a `}` before the end of its line is removed together with
      everything up to and including the first such `}`. */
  function StripTags(s: string): string
    decreases |s|
  {
    if |s| == 0 then []
    else if TagAt(s, 0) then StripTags(s[TagEnd(s, 1) + 1..])
    else [s[0]] + StripTags(s[1..])
  }

  /** `s.replace('\\' + [c], ' ')`: every two-character escape `\c`, taken
      left to right without overlap, becomes one space. */
  function ReplaceEscape(s: string, c: char): string
    decreases |s|
  {
    if |s| >= 2 && s[0] == '\\' && s[1] == c then [' '] + ReplaceEscape(s[2..], c)
    else if |s| == 0 then []
    else [s[0]] + ReplaceEscape(s[1..], c)
  }

  /** The ASS line breaks `\N` and `\n` turned into spaces, in that order. */
  function Breaks(s: string): string
  {
    ReplaceEscape(ReplaceEscape(s, 'N'), 'n')
  }

  /** `re.sub(r'\s+', ' ', s)`: every run of whitespace becomes one space. */
  function Collapse(s: string): string
    decreases |s|
  {
    if |s| == 0 then []
    else if IsSpace(s[0]) then [' '] + Collapse(TrimLeft(s[1..]))
    else [s[0]] + Collapse(s[1..])
  }

  /** `clean_ass_text`: a drawing gives the empty text; otherwise the tags
      are removed, the ASS line breaks become spaces, whitespace runs are
      collapsed and the ends stripped. */
  function CleanAssText(s: string): string
  {
    if HasDrawing(s) then [] else Trim(Collapse(Breaks(StripTags(s))))
  }

  /** Tidy text: no whitespace at either end, no whitespace but the plain
      space, and never two spaces in a row. */
  predicate Tidy(r: string)
  {
    (r == [] || (!IsSpace(r[0]) && !IsSpace(r[|r| - 1]))) &&
    (forall i :: 0 <= i < |r| && IsSpace(r[i]) ==> r[i] == ' ') &&
    (forall i :: 0 <= i < |r| - 1 && IsSpace(r[i]) ==> !IsSpace(r[i + 1]))
  }

  /** The whitespace is plain single spaces between other characters. */
  predicate SingleSpaced(r: string)
  {
    (forall i :: 0 <= i < |r| && IsSpace(r[i]) ==> r[i] == ' ') &&
    (forall i :: 0 <= i < |r| - 1 && IsSpace(r[i]) ==> !IsSpace(r[i + 1]))
  }

  // ---------------------------------------------------------------------
  // What cleaning promises

  /** Cleaned text is always tidy: stripped, with single plain spaces. */
  lemma {:induction false} CleanAssTextTidy(s: string)
    ensures Tidy(CleanAssText(s))
  {
    if !HasDrawing(s) {
      var x := Collapse(Breaks(StripTags(s)));
      CollapseSingleSpaced(Breaks(StripTags(s)));
      var a := TrimSlice(x);
      SingleSpacedSlice(x, a, a + |Trim(x)|);
    }
  }

  /** Outside drawings, cleaning keeps every visible character of the text
      left once the tags are gone and the line breaks are spaces, in order:
      collapsing and stripping only touch whitespace. */
  lemma {:induction false} CleanAssTextVisible(s: string)
    requires !HasDrawing(s)
    ensures Visible(CleanAssText(s)) == Visible(Breaks(StripTags(s)))
  {
    var x := Collapse(Breaks(StripTags(s)));
    TrimKeepsVisible(x);
    CollapseVisible(Breaks(StripTags(s)));
  }

  /** No complete one-line `{…}` block is left after tag removal. */
  lemma {:induction false} StripTagsLeavesNoTag(s: string)
    ensures forall i :: 0 <= i < |StripTags(s)| ==> !TagAt(StripTags(s), i)
    decreases |s|
  {
    if |s| > 0 {
      if TagAt(s, 0) {
        StripTagsLeavesNoTag(s[TagEnd(s, 1) + 1..]);
      } else {
        var t := StripTags(s[1..]);
        var r := [s[0]] + t;
        StripTagsLeavesNoTag(s[1..]);
        forall i | 0 <= i < |r|
          ensures !TagAt(r, i)
        {
          if i == 0 {
            if s[0] == '{' {
              OpenAfterBrace(s, t);
            }
          } else {
            TagAtCons(s[0], t, i);
          }
        }
      }
    }
  }

  /** A `{` that opens no tag is followed by an open line, which stays open
      once the tags after it are removed. */
  lemma {:induction false} OpenAfterBrace(s: string, t: string)
    requires |s| > 0 && s[0] == '{' && !TagAt(s, 0) && t == StripTags(s[1..])
    ensures !TagAt([s[0]] + t, 0)
  {
    TagEndTail(s, 1);
    assert OpenLine(s[1..]);
    OpenLineKept(s[1..]);
    var r := [s[0]] + t;
    TagEndTail(r, 1);
    assert r[1..] == t;
  }

  lemma {:induction false} TagAtCons(c: char, t: string, i: nat)
    requires 1 <= i < |t| + 1
    ensures TagAt([c] + t, i) == TagAt(t, i - 1)
  {
    var r := [c] + t;
    TagEndTail(r, i + 1);
    assert r[1..] == t;
  }

  /** Text without `{` has no tags to remove. */
  lemma {:induction false} StripTagsWithoutBrace(s: string)
    requires '{' !in s
    ensures StripTags(s) == s
  {
    if |s| > 0 {
      assert '{' !in s[1..];
      StripTagsWithoutBrace(s[1..]);
      assert [s[0]] + s[1..] == s;
    }
  }

  /** The line has not been closed by a `}` before it ends. */
  predicate OpenLine(s: string)
  {
    TagEnd(s, 0) == |s| || s[TagEnd(s, 0)] == '\n'
  }

  /** Tag removal leaves a line without `}` without one: no tag can end on
      it, so its characters are copied. */
  lemma {:induction false} OpenLineKept(s: string)
    requires OpenLine(s)
    ensures OpenLine(StripTags(s))
    decreases |s|
  {
    if |s| > 0 && s[0] != '\n' {
      TagEndTail(s, 1);
      OpenLineKept(s[1..]);
      var r := StripTags(s);
      assert r == [s[0]] + StripTags(s[1..]);
      TagEndTail(r, 1);
      assert r[1..] == StripTags(s[1..]);
    }
  }

  /** Dropping the first character moves every stop one place left. */
  lemma {:induction false} TagEndTail(s: string, i: nat)
    requires 1 <= i <= |s|
    ensures TagEnd(s, i) == TagEnd(s[1..], i - 1) + 1
    decreases |s| - i
  {
    if i < |s| && s[i] != '}' && s[i] != '\n' {
      TagEndTail(s, i + 1);
    }
  }

  /** No escape `\c` occurs in `s`. */
  predicate NoEscape(s: string, c: char)
  {
    forall i :: 0 <= i < |s| - 1 ==> !(s[i] == '\\' && s[i + 1] == c)
  }

  lemma {:induction false} ReplaceEscapeHead(s: string, c: char)
    requires |s| > 0
    ensures |ReplaceEscape(s, c)| > 0
    ensures ReplaceEscape(s, c)[0] == ' ' || ReplaceEscape(s, c)[0] == s[0]
  {
  }

  /** Replacing `\c` leaves no `\c` behind, and brings in no escape `\b`
      that was not there before. */
  lemma {:induction false} ReplaceEscapeRemoves(s: string, c: char, b: char)
    requires c != ' ' && b != ' '
    requires b == c || NoEscape(s, b)
    ensures NoEscape(ReplaceEscape(s, c), b)
    decreases |s|
  {
    if |s| >= 2 && s[0] == '\\' && s[1] == c {
      var t := ReplaceEscape(s[2..], c);
      ReplaceEscapeRemoves(s[2..], c, b);
      assert ([' '] + t)[1..] == t;
    } else if |s| > 0 {
      var t := ReplaceEscape(s[1..], c);
      ReplaceEscapeRemoves(s[1..], c, b);
      var r := [s[0]] + t;
      assert r[1..] == t;
      if |s| >= 2 {
        ReplaceEscapeHead(s[1..], c);
        assert r[1] == ' ' || r[1] == s[1];
      }
    }
  }

  /** After the line breaks are turned into spaces, neither `\N` nor `\n`
      is left. */
  lemma {:induction false} BreaksLeaveNoEscape(s: string)
    ensures NoEscape(Breaks(s), 'N') && NoEscape(Breaks(s), 'n')
  {
    ReplaceEscapeRemoves(s, 'N', 'N');
    ReplaceEscapeRemoves(ReplaceEscape(s, 'N'), 'n', 'N');
    ReplaceEscapeRemoves(ReplaceEscape(s, 'N'), 'n', 'n');
  }

  /** Text without a backslash has no line breaks to replace. */
  lemma {:induction false} BreaksWithoutBackslash(s: string)
    requires '\\' !in s
    ensures Breaks(s) == s
  {
    ReplaceEscapeWithout(s, 'N');
    ReplaceEscapeWithout(s, 'n');
  }

  lemma {:induction false} ReplaceEscapeWithout(s: string, c: char)
    requires '\\' !in s
    ensures ReplaceEscape(s, c) == s
  {
    if |s| > 0 {
      assert '\\' !in s[1..];
      ReplaceEscapeWithout(s[1..], c);
      assert [s[0]] + s[1..] == s;
    }
  }

  lemma {:induction false} CollapseHead(s: string)
    requires |s| > 0
    ensures |Collapse(s)| > 0
    ensures Collapse(s)[0] == (if IsSpace(s[0]) then ' ' else s[0])
  {
  }

  /** Collapsing leaves single plain spaces. */
  lemma {:induction false} CollapseSingleSpaced(s: string)
    ensures SingleSpaced(Collapse(s))
    decreases |s|
  {
    if |s| > 0 {
      var rest := if IsSpace(s[0]) then TrimLeft(s[1..]) else s[1..];
      var t := Collapse(rest);
      var r := Collapse(s);
      assert r == [r[0]] + t;
      CollapseSingleSpaced(rest);
      if |t| > 0 {
        CollapseHead(rest);
      }
      forall i | 0 <= i < |r| && IsSpace(r[i])
        ensures r[i] == ' '
      {
        if i > 0 {
          assert r[i] == t[i - 1];
        }
      }
      forall i | 0 <= i < |r| - 1 && IsSpace(r[i])
        ensures !IsSpace(r[i + 1])
      {
        if i > 0 {
          assert r[i] == t[i - 1] && r[i + 1] == t[i];
        }
      }
    }
  }

  /** Collapsing only rewrites whitespace. */
  lemma {:induction false} CollapseVisible(s: string)
    ensures Visible(Collapse(s)) == Visible(s)
    decreases |s|
  {
    if |s| > 0 {
      if IsSpace(s[0]) {
        var t := Collapse(TrimLeft(s[1..]));
        CollapseVisible(TrimLeft(s[1..]));
        TrimLeftKeepsVisible(s[1..]);
        VisibleAppend([' '], t);
      } else {
        var t := Collapse(s[1..]);
        CollapseVisible(s[1..]);
        VisibleAppend([s[0]], t);
      }
    }
  }

  /** Stripping cuts a slice out of the text. */
  lemma {:induction false} TrimSlice(s: string) returns (a: nat)
    ensures a + |Trim(s)| <= |s| && Trim(s) == s[a..a + |Trim(s)|]
  {
    var l := TrimLeft(s);
    TrimLeftCut(s);
    TrimRightCut(l);
    a := |s| - |l|;
  }

  lemma {:induction false} SingleSpacedSlice(s: string, a: nat, b: nat)
    requires SingleSpaced(s) && a <= b <= |s|
    ensures SingleSpaced(s[a..b])
  {
    var r := s[a..b];
    assert forall i :: 0 <= i < |r| ==> r[i] == s[a + i];
  }

  // ---------------------------------------------------------------------
  // is_mostly_english

  predicate IsAsciiLetter(c: char)
  {
    'a' <= c <= 'z' || 'A' <= c <= 'Z'
  }

  /** Non-ASCII characters that are not word characters: the Latin-1
      signs, the general punctuation and currency blocks, the arrow,
      mathematical, technical, box-drawing, geometric, miscellaneous
      symbol, dingbat and braille blocks (U+2190 to U+2BFF, less the
      numbers enclosed in circles and parentheses), the CJK and fullwidth
      punctuation. */
  predicate IsNonAsciiSymbol(c: char)
  {
    ('\U{80}' <= c <= '\U{BF}' && c !in {'\U{AA}', '\U{B2}', '\U{B3}', '\U{B5}', '\U{B9}', '\U{BA}', '\U{BC}', '\U{BD}', '\U{BE}'}) ||
    c == '\U{D7}' || c == '\U{F7}' ||
    ('\U{2000}' <= c <= '\U{206F}') || ('\U{20A0}' <= c <= '\U{20FF}') ||
    ('\U{2190}' <= c <= '\U{245F}') || ('\U{2500}' <= c <= '\U{2775}') || ('\U{2794}' <= c <= '\U{2BFF}') ||
    ('\U{3000}' <= c <= '\U{3004}') || ('\U{3008}' <= c <= '\U{3020}') || c == '\U{30FB}' ||
    ('\U{FF01}' <= c <= '\U{FF0F}') || ('\U{FF1A}' <= c <= '\U{FF20}') ||
    ('\U{FF3B}' <= c <= '\U{FF40}') || ('\U{FF5B}' <= c <= '\U{FF65}')
  }

  /** `\w`: ASCII letters, digits and `_`, and the non-ASCII characters
      other than whitespace and the symbols above. */
  predicate IsWordChar(c: char)
  {
    if c < '\U{80}' then IsAsciiLetter(c) || IsDigit(c) || c == '_'
    else !IsSpace(c) && !IsNonAsciiSymbol(c)
  }

  /** Survives `re.sub(r'[0-9\W_]+', '', text)`. */
  predicate IsLetter(c: char)
  {
    IsWordChar(c) && !IsDigit(c) && c != '_'
  }

  /** The text with digits, `_` and every non-word character removed. */
  function Letters(s: string): (r: string)
    ensures |r| <= |s|
    ensures forall i :: 0 <= i < |r| ==> IsLetter(r[i])
  {
    if |s| == 0 then [] else Letters(s[..|s| - 1]) + (if IsLetter(s[|s| - 1]) then [s[|s| - 1]] else [])
  }

  /** `sum(1 for c in text if ord(c) < 128)`. */
  function AsciiCount(s: string): (n: nat)
    ensures n <= |s|
  {
    if |s| == 0 then 0 else AsciiCount(s[..|s| - 1]) + (if s[|s| - 1] < '\U{80}' then 1 else 0)
  }

  /** `is_mostly_english`: more than four in five of the letters left are
      ASCII (`ascii_count / len(text) > 0.8`, cross-multiplied). */
  predicate IsMostlyEnglish(s: string)
  {
    |s| > 0 && |Letters(s)| > 0 && 5 * AsciiCount(Letters(s)) > 4 * |Letters(s)|
  }

  /** The ASCII letters of the text, in order. */
  function AsciiLetters(s: string): (r: string)
    ensures |r| <= |Letters(s)|
  {
    if |s| == 0 then []
    else AsciiLetters(s[..|s| - 1]) + (if IsAsciiLetter(s[|s| - 1]) then [s[|s| - 1]] else [])
  }

  /** The ASCII characters left by the removal are exactly the ASCII
      letters of the text. */
  lemma {:induction false} AsciiCountOfLetters(s: string)
    ensures AsciiCount(Letters(s)) == |AsciiLetters(s)|
  {
    if |s| > 0 {
      var p := s[..|s| - 1];
      var c := s[|s| - 1];
      AsciiCountOfLetters(p);
      if IsLetter(c) {
        var l := Letters(p) + [c];
        assert Letters(s) == l;
        assert l[..|l| - 1] == Letters(p);
        assert AsciiCount(l) == AsciiCount(Letters(p)) + (if c < '\U{80}' then 1 else 0);
      } else {
        assert Letters(s) == Letters(p);
        assert AsciiLetters(s) == AsciiLetters(p);
      }
    }
  }

  /** The test in terms of the text itself: the text is mostly English
      exactly when its ASCII letters are more than four fifths of its
      letters. */
  lemma {:induction false} MostlyEnglishByLetters(s: string)
    ensures IsMostlyEnglish(s) <==> 5 * |AsciiLetters(s)| > 4 * |Letters(s)|
  {
    AsciiCountOfLetters(s);
  }

  /** Letters, digits and punctuation in `b` that the removal drops do not
      change the verdict on `a`. */
  lemma {:induction false} DroppedCharactersIgnored(a: string, b: string)
    requires |a| > 0
    requires forall i :: 0 <= i < |b| ==> !IsLetter(b[i])
    ensures IsMostlyEnglish(a + b) <==> IsMostlyEnglish(a)
    decreases |b|
  {
    if |b| > 0 {
      var b' := b[..|b| - 1];
      assert (a + b)[..|a + b| - 1] == a + b';
      DroppedCharactersIgnored(a, b');
      assert !IsLetter((a + b)[|a + b| - 1]);
      assert Letters(a + b) == Letters(a + b');
    } else {
      assert a + b == a;
    }
  }

  /** Text without any ASCII letter is never mostly English. */
  lemma {:induction false} NoAsciiLetterNotEnglish(s: string)
    requires forall i :: 0 <= i < |s| ==> !IsAsciiLetter(s[i])
    ensures !IsMostlyEnglish(s)
  {
    NoAsciiLetters(s);
    MostlyEnglishByLetters(s);
  }

  lemma {:induction false} NoAsciiLetters(s: string)
    requires forall i :: 0 <= i < |s| ==> !IsAsciiLetter(s[i])
    ensures AsciiLetters(s) == []
  {
    if |s| > 0 {
      NoAsciiLetters(s[..|s| - 1]);
    }
  }

  /** Text whose letters are all ASCII, with at least one letter, is
      mostly English. */
  lemma {:induction false} AsciiTextIsEnglish(s: string)
    requires forall i :: 0 <= i < |s| ==> IsLetter(s[i]) ==> IsAsciiLetter(s[i])
    requires exists i :: 0 <= i < |s| && IsAsciiLetter(s[i])
    ensures IsMostlyEnglish(s)
  {
    AllLettersAscii(s);
    MostlyEnglishByLetters(s);
  }

  /** Music notes around an English line are not letters, so the line
      counts as English. */
  lemma {:induction false} MusicNotesIgnored()
    ensures IsMostlyEnglish("\U{266A} Hi \U{266A}")
  {
    var s := "\U{266A} Hi \U{266A}";
    assert IsAsciiLetter(s[2]);
    AsciiTextIsEnglish(s);
  }

  lemma {:induction false} AllLettersAscii(s: string)
    requires forall i :: 0 <= i < |s| ==> IsLetter(s[i]) ==> IsAsciiLetter(s[i])
    ensures AsciiLetters(s) == Letters(s)
    ensures (exists i :: 0 <= i < |s| && IsAsciiLetter(s[i])) ==> |Letters(s)| > 0
  {
    if |s| > 0 {
      var p := s[..|s| - 1];
      AllLettersAscii(p);
      if exists i :: 0 <= i < |s| && IsAsciiLetter(s[i]) {
        var i :| 0 <= i < |s| && IsAsciiLetter(s[i]);
        if i < |s| - 1 {
          assert IsAsciiLetter(p[i]);
        }
      }
    }
  }

  /** Four ASCII letters in five are not enough: the share must be above
      80 percent. */
  lemma {:induction false} FourFifthsNotEnough(s: string)
    requires |Letters(s)| == 5 && |AsciiLetters(s)| == 4
    ensures !IsMostlyEnglish(s)
  {
    MostlyEnglishByLetters(s);
  }

  // ---------------------------------------------------------------------
  // get_dialogue_from_ass

  /** An event of the loaded subtitle track: its style name, its times in
      milliseconds and its raw ASS text. */
  datatype AssEvent = AssEvent(style: string, start: int, end: int, text: string)

  /** What the filter does with one event, in the order the tests run. */
  datatype Verdict = StyleSkipped | Positioned | Drawing | Empty | NonEnglish | Kept

  /** The `stats` counters. */
  datatype Stats = Stats(total: nat, style: nat, pos: nat, drawing: nat, empty: nat, nonEnglish: nat, kept: nat)

  /** Style names that mark songs, signs and other non-dialogue. */
  const StyleBlacklist: seq<string> := ["op", "ed", "song", "sign", "title", "credit", "note"]

  /** Typesetting tags that mark positioned or animated text. */
  const TypesettingTags: seq<string> := ["\\pos", "\\move", "\\fad", "\\fade"]

  /** `any(x in s for x in xs)`. */
  predicate ContainsAny(s: string, xs: seq<string>)
  {
    exists k :: 0 <= k < |xs| && Contains(s, xs[k])
  }

  /** The verdict on one event. */
  function Classify(e: AssEvent): Verdict
  {
    if ContainsAny(Lower(e.style), StyleBlacklist) then StyleSkipped
    else if ContainsAny(e.text, TypesettingTags) then Positioned
    else
      var clean := CleanAssText(e.text);
      if clean == [] && HasDrawing(e.text) then Drawing
      else if clean == [] then Empty
      else if !IsMostlyEnglish(clean) then NonEnglish
      else Kept
  }

  /** The counters after one more event with the given verdict. */
  function Count(st: Stats, v: Verdict): Stats
  {
    var st := st.(total := st.total + 1);
    match v
    case StyleSkipped => st.(style := st.style + 1)
    case Positioned => st.(pos := st.pos + 1)
    case Drawing => st.(drawing := st.drawing + 1)
    case Empty => st.(empty := st.empty + 1)
    case NonEnglish => st.(nonEnglish := st.nonEnglish + 1)
    case Kept => st.(kept := st.kept + 1)
  }

  /** The counters after the given events. */
  function Tally(es: seq<AssEvent>): Stats
  {
    if |es| == 0 then Stats(0, 0, 0, 0, 0, 0, 0)
    else Count(Tally(es[..|es| - 1]), Classify(es[|es| - 1]))
  }

  /** The dialogue line made from a kept event. */
  function Line(e: AssEvent): Event
  {
    Event(e.start, e.end, CleanAssText(e.text))
  }

  /** The dialogue lines of the kept events, in track order. */
  function Dialogue(es: seq<AssEvent>): seq<Event>
  {
    if |es| == 0 then []
    else Dialogue(es[..|es| - 1]) + (if Classify(es[|es| - 1]) == Kept then [Line(es[|es| - 1])] else [])
  }

  /** `get_dialogue_from_ass` on the loaded track (`None` when loading
      failed): each event is counted once and tested in turn against the
      style blacklist, the typesetting tags, the drawing commands, emptiness
      and the English share; the survivors are returned with their cleaned
      text. */
  method GetDialogue(loaded: Option<seq<AssEvent>>) returns (events: seq<Event>, stats: Stats)
    ensures loaded.None? ==> events == [] && stats == Stats(0, 0, 0, 0, 0, 0, 0)
    ensures loaded.Some? ==> events == Dialogue(loaded.value) && stats == Tally(loaded.value)
  {
    events := [];
    stats := Stats(0, 0, 0, 0, 0, 0, 0);
    if loaded.None? {
      return;
    }
    var subs := loaded.value;
    for i := 0 to |subs|
      invariant events == Dialogue(subs[..i]) && stats == Tally(subs[..i])
    {
      DialogueSnoc(subs, i);
      var line;
      stats, line := FilterEvent(subs[i], stats);
      if line.Some? {
        events := events + [line.value];
      }
    }
    assert subs[..|subs|] == subs;
  }

  /** One pass of the loop of `get_dialogue_from_ass`: the event is
      counted, tested in turn against the style blacklist, the typesetting
      tags, the drawing commands, emptiness and the English share, and its
      dialogue line is returned when it passes them all. */
  method FilterEvent(event: AssEvent, before: Stats) returns (stats: Stats, line: Option<Event>)
    ensures stats == Count(before, Classify(event))
    ensures line.Some? <==> Classify(event) == Kept
    ensures line.Some? ==> line.value == Line(event)
  {
    line := None;
    stats := before.(total := before.total + 1);
    var style := Lower(event.style);
    var textRaw := event.text;
    if ContainsAny(style, StyleBlacklist) {
      stats := stats.(style := stats.style + 1);
      return;
    }
    if ContainsAny(textRaw, TypesettingTags) {
      stats := stats.(pos := stats.pos + 1);
      return;
    }
    var cleanText := CleanAssText(textRaw);
    if cleanText == [] && HasDrawing(textRaw) {
      stats := stats.(drawing := stats.drawing + 1);
      return;
    }
    if cleanText == [] {
      stats := stats.(empty := stats.empty + 1);
      return;
    }
    if !IsMostlyEnglish(cleanText) {
      stats := stats.(nonEnglish := stats.nonEnglish + 1);
      return;
    }
    line := Some(Event(event.start, event.end, cleanText));
    stats := stats.(kept := stats.kept + 1);
  }

  /** One more event adds its line when it is kept, and counts its verdict. */
  lemma {:induction false} DialogueSnoc(es: seq<AssEvent>, i: nat)
    requires i < |es|
    ensures Dialogue(es[..i + 1]) == Dialogue(es[..i]) + (if Classify(es[i]) == Kept then [Line(es[i])] else [])
    ensures Tally(es[..i + 1]) == Count(Tally(es[..i]), Classify(es[i]))
  {
    assert es[..i + 1][..i] == es[..i];
  }

  // ---------------------------------------------------------------------
  // What the filter promises

  /** Every event is counted once, under exactly one verdict. */
  lemma {:induction false} TallyBalanced(es: seq<AssEvent>)
    ensures Tally(es).total == |es|
    ensures Tally(es).total == Tally(es).style + Tally(es).pos + Tally(es).drawing +
                               Tally(es).empty + Tally(es).nonEnglish + Tally(es).kept
  {
    if |es| > 0 {
      TallyBalanced(es[..|es| - 1]);
    }
  }

  /** The `kept` counter is the number of dialogue lines returned. */
  lemma {:induction false} KeptCounted(es: seq<AssEvent>)
    ensures |Dialogue(es)| == Tally(es).kept
  {
    if |es| > 0 {
      KeptCounted(es[..|es| - 1]);
    }
  }

  /** The positions of the kept events. */
  function KeptIndices(es: seq<AssEvent>): seq<nat>
  {
    if |es| == 0 then []
    else KeptIndices(es[..|es| - 1]) + (if Classify(es[|es| - 1]) == Kept then [|es| - 1] else [])
  }

  /** The kept positions are in range, strictly increasing, all kept, and
      every kept position is among them. */
  lemma {:induction false} KeptIndicesShape(es: seq<AssEvent>)
    ensures forall j :: 0 <= j < |KeptIndices(es)| ==>
      KeptIndices(es)[j] < |es| && Classify(es[KeptIndices(es)[j]]) == Kept
    ensures forall j, k :: 0 <= j < k < |KeptIndices(es)| ==> KeptIndices(es)[j] < KeptIndices(es)[k]
  {
    if |es| > 0 {
      var n := |es| - 1;
      var p := es[..n];
      KeptIndicesShape(p);
      var kp, k := KeptIndices(p), KeptIndices(es);
      forall i | 0 <= i < n
        ensures p[i] == es[i]
      {
      }
      if Classify(es[n]) == Kept {
        assert k == kp + [n];
      } else {
        assert k == kp;
      }
    }
  }

  /** Every kept position is among the kept positions. */
  lemma {:induction false} KeptIndicesComplete(es: seq<AssEvent>)
    ensures forall i :: 0 <= i < |es| && Classify(es[i]) == Kept ==> i in KeptIndices(es)
  {
    forall i | 0 <= i < |es| && Classify(es[i]) == Kept
      ensures i in KeptIndices(es)
    {
      KeptIndexListed(es, i);
    }
  }

  /** A kept position `i` is listed. */
  lemma {:induction false} KeptIndexListed(es: seq<AssEvent>, i: nat)
    requires i < |es| && Classify(es[i]) == Kept
    ensures i in KeptIndices(es)
    decreases |es|
  {
    var n := |es| - 1;
    var p := es[..n];
    var kp, k := KeptIndices(p), KeptIndices(es);
    if i < n {
      assert p[i] == es[i];
      KeptIndexListed(p, i);
      KeptIndicesGrow(es);
      var j :| 0 <= j < |kp| && kp[j] == i;
      assert k[j] == i;
    } else {
      KeptIndicesLastKept(es);
    }
  }

  /** The kept positions of a prefix start the kept positions of the whole. */
  lemma {:induction false} KeptIndicesGrow(es: seq<AssEvent>)
    requires |es| > 0
    ensures KeptIndices(es[..|es| - 1]) <= KeptIndices(es)
  {
    KeptIndicesLast(es);
  }

  /** A kept last event is the last kept position. */
  lemma {:induction false} KeptIndicesLastKept(es: seq<AssEvent>)
    requires |es| > 0 && Classify(es[|es| - 1]) == Kept
    ensures |es| - 1 in KeptIndices(es)
  {
    KeptIndicesLast(es);
    var k := KeptIndices(es);
    assert k[|k| - 1] == |es| - 1;
  }

  /** The last event adds its own position exactly when it is kept. */
  lemma {:induction false} KeptIndicesLast(es: seq<AssEvent>)
    requires |es| > 0
    ensures KeptIndices(es) ==
      KeptIndices(es[..|es| - 1]) + (if Classify(es[|es| - 1]) == Kept then [|es| - 1] else [])
  {
  }

  /** Dialogue line `j` is the line of the `j`-th kept event. */
  lemma {:induction false} DialogueAtKept(es: seq<AssEvent>)
    ensures |KeptIndices(es)| == |Dialogue(es)|
    ensures forall j :: 0 <= j < |KeptIndices(es)| ==>
      KeptIndices(es)[j] < |es| && Dialogue(es)[j] == Line(es[KeptIndices(es)[j]])
  {
    if |es| > 0 {
      var n := |es| - 1;
      var p := es[..n];
      DialogueAtKept(p);
      var kp, dp := KeptIndices(p), Dialogue(p);
      var k, d := KeptIndices(es), Dialogue(es);
      forall i | 0 <= i < n
        ensures p[i] == es[i]
      {
      }
      if Classify(es[n]) == Kept {
        assert k == kp + [n] && d == dp + [Line(es[n])];
      } else {
        assert k == kp && d == dp;
      }
    }
  }

  /** The dialogue is the kept events, in track order, with their times
      copied and their text cleaned; every kept event is there. */
  lemma {:induction false} DialogueIsKeptSubsequence(es: seq<AssEvent>)
    ensures |KeptIndices(es)| == |Dialogue(es)|
    ensures forall j :: 0 <= j < |KeptIndices(es)| ==> KeptIndices(es)[j] < |es|
    ensures forall j, k :: 0 <= j < k < |KeptIndices(es)| ==> KeptIndices(es)[j] < KeptIndices(es)[k]
    ensures forall j :: 0 <= j < |KeptIndices(es)| ==>
      Classify(es[KeptIndices(es)[j]]) == Kept && Dialogue(es)[j] == Line(es[KeptIndices(es)[j]])
    ensures forall i :: 0 <= i < |es| && Classify(es[i]) == Kept ==> i in KeptIndices(es)
  {
    KeptIndicesShape(es);
    KeptIndicesComplete(es);
    DialogueAtKept(es);
  }

  /** Every dialogue line is tidy, non-empty and mostly English. */
  lemma {:induction false} DialogueTexts(es: seq<AssEvent>)
    ensures forall j :: 0 <= j < |Dialogue(es)| ==>
      Dialogue(es)[j].text != [] && Tidy(Dialogue(es)[j].text) && IsMostlyEnglish(Dialogue(es)[j].text)
  {
    DialogueIsKeptSubsequence(es);
    forall j | 0 <= j < |Dialogue(es)|
      ensures Tidy(Dialogue(es)[j].text)
    {
      CleanAssTextTidy(es[KeptIndices(es)[j]].text);
    }
  }

  /** The drawing test reduces to the drawing regex: cleaning empties every
      drawing, so an unpositioned event of an allowed style is a drawing
      exactly when its raw text holds `\p1` … `\p9`. */
  lemma {:induction false} DrawingVerdict(e: AssEvent)
    requires !ContainsAny(Lower(e.style), StyleBlacklist) && !ContainsAny(e.text, TypesettingTags)
    ensures Classify(e) == Drawing <==> HasDrawing(e.text)
  {
  }

  /** Every drawing command and typesetting tag starts with a backslash:
      text without one is neither positioned nor a drawing, and cleaning it
      only removes tags and tidies whitespace. */
  lemma {:induction false} TextWithoutBackslash(t: string)
    requires '\\' !in t
    ensures !HasDrawing(t) && !ContainsAny(t, TypesettingTags)
    ensures CleanAssText(t) == Trim(Collapse(StripTags(t)))
  {
    forall k | 0 <= k < |TypesettingTags|
      ensures !Contains(t, TypesettingTags[k])
    {
      NoBackslashNoTag(t, TypesettingTags[k]);
    }
    StripTagsKeepsOut(t, '\\');
    BreaksWithoutBackslash(StripTags(t));
  }

  lemma {:induction false} NoBackslashNoTag(t: string, x: string)
    requires |x| > 0 && x[0] == '\\' && '\\' !in t
    ensures !Contains(t, x)
    decreases |t|
  {
    if |t| > 0 {
      assert '\\' !in t[1..];
      NoBackslashNoTag(t[1..], x);
      if |x| <= |t| {
        assert t[..|x|][0] == t[0];
      }
    }
  }

  /** Tag removal brings in no new character. */
  lemma {:induction false} StripTagsKeepsOut(s: string, c: char)
    requires c !in s
    ensures c !in StripTags(s)
    decreases |s|
  {
    if |s| > 0 {
      if TagAt(s, 0) {
        assert c !in s[TagEnd(s, 1) + 1..];
        StripTagsKeepsOut(s[TagEnd(s, 1) + 1..], c);
      } else {
        assert c !in s[1..];
        StripTagsKeepsOut(s[1..], c);
      }
    }
  }

  /** The style test looks for substrings: a style named `Top` contains
      `op` and is skipped like an opening song. */
  lemma {:induction false} StyleTopSkipped(st: string, e: AssEvent)
    requires st == "Top" && e.style == st
    ensures Classify(e) == StyleSkipped
  {
    assert Lower(st) == "top";
    ContainsAt("top", "op", 1);
    assert StyleBlacklist[0] == "op";
  }
}
