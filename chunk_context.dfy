/**
  The English context sent with a chunk (`_process_chunk` in src/core.py):
  one line `[MM:SS,mmm - MM:SS,mmm] text` per cue of the cluster, times
  relative to the chunk's padded start, joined with newlines. The
  transcription service is asked to answer in the same shape, and the
  lemmas here show that the answer reader of src/utils.py reads this shape
  back exactly.
*/
module ChunkContext {
  import opened Common
  import opened Decimal
  import opened TimeFormat
  import opened JapaneseSpaces
  import opened Transcript

  /** The line `[MM:SS,mmm - MM:SS,mmm] text` of a cue. */
  function Stamped(r: Event): string
  {
    Bracketed(MsToMmSsMmm(r.start), MsToMmSsMmm(r.end), r.text)
  }

  /** The line `[A - B] T`. */
  function Bracketed(a: string, b: string, t: string): (l: string)
    ensures |l| == |a| + |b| + |t| + 6
  {
    Head(a, b) + Tail(t)
  }

  /** `[A - B`: the part of a bracketed line the time search reads. */
  function Head(a: string, b: string): (h: string)
    ensures |h| == |a| + |b| + 4
  {
    "[" + a + " - " + b
  }

  /** `] T`: what follows the second time. */
  function Tail(t: string): (u: string)
    ensures |u| == |t| + 2
  {
    "] " + t
  }

  /** The context lines of a cluster, one per cue, in cue order: each cue
      stamped with its times relative to the chunk's padded start `base`. */
  function ContextLines(cluster: seq<Event>, base: int): (ls: seq<string>)
    ensures |ls| == |cluster|
  {
    var rel := Shift(cluster, -base);
    seq(|rel|, i requires 0 <= i < |rel| => Stamped(rel[i]))
  }

  /** The context of a cluster: its lines joined with newlines. */
  function Context(cluster: seq<Event>, base: int): string
  {
    Join(ContextLines(cluster, base), '\n')
  }

  /** A time group: a digit, then time characters. */
  predicate TimeGroup(s: string, d: Dialect)
  {
    |s| > 0 && IsDigit(s[0]) && forall i {:trigger s[i]} :: 0 <= i < |s| ==> TimeChar(s[i], d)
  }

  /** A text that survives the line reader's stripping: one line, already
      stripped, not starting with `]` or `:`, without backquotes. */
  predicate PlainLine(t: string)
  {
    |t| > 0 && NoLineBreak(t) && '`' !in t && !IsSpace(t[0]) && !IsSpace(t[|t| - 1]) && t[0] !in Lead
  }

  /** ... and holds no whitespace the Japanese-space removal deletes. */
  predicate PlainText(t: string)
  {
    PlainLine(t) && RemoveJapaneseSpaces(t) == t
  }

  lemma {:induction false} ClassRunTo(l: string, i: nat, j: nat, d: Dialect)
    requires i <= j <= |l|
    requires forall k :: i <= k < j ==> TimeChar(l[k], d)
    requires j == |l| || !TimeChar(l[j], d)
    ensures ClassRun(l, i, d) == j
    decreases j - i
  {
    if i < j {
      ClassRunTo(l, i + 1, j, d);
    }
  }

  /** The pattern matches at 1 when `A - B` sits there, followed by a
      character that cannot extend B. */
  lemma {:induction false} MatchAfterBracket(l: string, a: string, b: string, d: Dialect)
    requires TimeGroup(a, d) && TimeGroup(b, d)
    requires |a| + |b| + 4 < |l|
    requires l[1..|a| + 1] == a && l[|a| + 4..|a| + |b| + 4] == b
    requires l[|a| + 1] == ' ' && l[|a| + 2] == '-' && l[|a| + 3] == ' '
    requires !TimeChar(l[|a| + |b| + 4], d)
    ensures MatchFrom(l, 1, d) == Some(Match(a, b, |a| + |b| + 4))
  {
    var n := |a|;
    assert forall k :: 2 <= k < n + 1 ==> l[k] == a[k - 1];
    assert forall k :: n + 5 <= k < n + 4 + |b| ==> l[k] == b[k - n - 4];
    ClassRunTo(l, 2, n + 1, d);
    ClassRunTo(l, n + 5, n + 4 + |b|, d);
    assert SpaceRun(l, n + 2) == n + 2;
    assert SpaceRun(l, n + 1) == n + 2;
    assert SpaceRun(l, n + 4) == n + 4;
    assert SpaceRun(l, n + 3) == n + 4;
  }

  /** Where the pieces of `[A - B…` sit. */
  lemma {:induction false} HeadPieces(l: string, a: string, b: string, rest: string)
    requires l == Head(a, b) + rest && |rest| > 0
    ensures l[0] == '[' && l[|a| + |b| + 4] == rest[0]
    ensures l[1..|a| + 1] == a && l[|a| + 4..|a| + |b| + 4] == b
    ensures l[|a| + 1] == ' ' && l[|a| + 2] == '-' && l[|a| + 3] == ' '
  {
    var n := |a|;
    assert l == "[" + a + " - " + b + rest;
    assert forall k :: 1 <= k < n + 1 ==> l[k] == a[k - 1];
    assert forall k :: n + 4 <= k < n + 4 + |b| ==> l[k] == b[k - n - 4];
  }

  /** In `[A - B…` the search finds the groups A and B. */
  lemma {:induction false} SearchBracketed(l: string, a: string, b: string, rest: string, d: Dialect)
    requires l == Head(a, b) + rest
    requires TimeGroup(a, d) && TimeGroup(b, d)
    requires |rest| > 0 && !TimeChar(rest[0], d)
    ensures Search(l, 0, d) == Some(Match(a, b, |a| + |b| + 4))
  {
    HeadPieces(l, a, b, rest);
    MatchAfterBracket(l, a, b, d);
    assert MatchFrom(l, 0, d) == None;
  }

  /** A printed non-negative `MM:SS,mmm` time is a time group. */
  lemma {:induction false} MmSsMmmIsTimeGroup(ms: nat)
    ensures TimeGroup(MsToMmSsMmm(ms), Current)
  {
    var a := ZeroPad(ms / 60000, 2);
    var b := ZeroPad(ms % 60000 / 1000, 2);
    var c := ZeroPad(ms % 60000 % 1000, 3);
    var s := a + ":" + b + "," + c;
    assert MsToMmSsMmm(ms) == s;
    assert forall i :: 0 <= i < |a| ==> s[i] == a[i];
    assert forall i :: |a| + 1 <= i < |a| + 1 + |b| ==> s[i] == b[i - |a| - 1];
    assert forall i :: |a| + |b| + 2 <= i < |s| ==> s[i] == c[i - |a| - |b| - 2];
  }

  lemma {:induction false} TimeGroupPlain(s: string, d: Dialect)
    requires TimeGroup(s, d)
    ensures NoLineBreak(s) && '`' !in s
  {
    assert forall i :: 0 <= i < |s| ==> !IsLineBreak(s[i]) && s[i] != '`' by {
      forall i | 0 <= i < |s|
        ensures !IsLineBreak(s[i]) && s[i] != '`'
      {
        assert TimeChar(s[i], d);
      }
    }
  }

  /** A bracketed line `[A - B] T` is a single line without backquotes. */
  lemma {:induction false} BracketedIsLine(a: string, b: string, t: string)
    requires TimeGroup(a, Current) && TimeGroup(b, Current) && PlainLine(t)
    ensures NoLineBreak(Bracketed(a, b, t)) && '`' !in Bracketed(a, b, t)
  {
    TimeGroupPlain(a, Current);
    TimeGroupPlain(b, Current);
    assert NoLineBreak("[") && NoLineBreak(" - ") && NoLineBreak("] ");
    NoLineBreakConcat("[", a);
    NoLineBreakConcat("[" + a, " - ");
    NoLineBreakConcat("[" + a + " - ", b);
    NoLineBreakConcat("] ", t);
    NoLineBreakConcat(Head(a, b), Tail(t));
  }

  /** Stripping and dropping backquotes leave a bracketed line alone. */
  lemma {:induction false} BracketedStripped(a: string, b: string, t: string)
    requires TimeGroup(a, Current) && TimeGroup(b, Current) && PlainLine(t)
    ensures DropChar(Trim(Bracketed(a, b, t)), '`') == Bracketed(a, b, t)
  {
    var l := Bracketed(a, b, t);
    BracketedIsLine(a, b, t);
    assert l[0] == '[' && l[|l| - 1] == t[|t| - 1];
    TrimOfTrimmed(l);
  }

  /** Once the times are found, the text is what follows `] `. */
  lemma {:induction false} TailContent(t: string)
    requires PlainLine(t)
    ensures TrimLeftOf(Trim(Tail(t)), Lead) == t
  {
    var u := Tail(t);
    TrimOfTrimmed(u);
    assert u[1..] == " " + t;
    assert (" " + t)[1..] == t;
    assert TrimLeftOf(t, Lead) == t;
    assert TrimLeftOf(" " + t, Lead) == t;
  }

  /** How the line reader takes `[A - B] T` apart. */
  lemma {:induction false} BracketedShape(a: string, b: string, t: string)
    requires TimeGroup(a, Current) && TimeGroup(b, Current) && PlainLine(t)
    ensures Search(Bracketed(a, b, t), 0, Current) == Some(Match(a, b, |a| + |b| + 4))
    ensures TrimLeftOf(Trim(Bracketed(a, b, t)[|a| + |b| + 4..]), Lead) == t
  {
    var h, u := Head(a, b), Tail(t);
    assert u[0] == ']';
    SearchBracketed(Bracketed(a, b, t), a, b, u, Current);
    assert (h + u)[|h|..] == u;
    TailContent(t);
  }

  /** The line reader on a line whose pieces are known. */
  lemma {:induction false} LineFieldsOf(l: string, m: Match, t: string, x: nat, y: nat, d: Dialect)
    requires |l| > 0 && DropChar(Trim(l), '`') == l
    requires Search(l, 0, d) == Some(m) && m.end <= |l|
    requires TrimLeftOf(Trim(l[m.end..]), Lead) == t && |t| > 0
    requires ParseTimeToMs(m.first) == Some(x) && ParseTimeToMs(m.second) == Some(y)
    requires d == Current ==> RemoveJapaneseSpaces(t) == t
    ensures LineFields(l, d) == Some(Event(x, y, t))
  {
  }

  /** `[A - B] T` reads back as the times of A and B and the text T. */
  lemma {:induction false} BracketedFields(a: string, b: string, t: string, x: nat, y: nat)
    requires TimeGroup(a, Current) && TimeGroup(b, Current) && PlainText(t)
    requires ParseTimeToMs(a) == Some(x) && ParseTimeToMs(b) == Some(y)
    ensures LineFields(Bracketed(a, b, t), Current) == Some(Event(x, y, t))
  {
    BracketedStripped(a, b, t);
    BracketedShape(a, b, t);
    LineFieldsOf(Bracketed(a, b, t), Match(a, b, |a| + |b| + 4), t, x, y, Current);
  }

  /** A stamped line is a single non-empty line. */
  lemma {:induction false} StampedIsLine(r: Event)
    requires r.start >= 0 && r.end >= 0 && PlainLine(r.text)
    ensures NoLineBreak(Stamped(r)) && |Stamped(r)| > 0
  {
    MmSsMmmIsTimeGroup(r.start);
    MmSsMmmIsTimeGroup(r.end);
    BracketedIsLine(MsToMmSsMmm(r.start), MsToMmSsMmm(r.end), r.text);
  }

  /** A stamped line reads back as the cue it was printed from. */
  lemma {:induction false} StampedFields(r: Event)
    requires r.start >= 0 && r.end >= 0 && PlainText(r.text)
    ensures LineFields(Stamped(r), Current) == Some(r)
  {
    MmSsMmmIsTimeGroup(r.start);
    MmSsMmmIsTimeGroup(r.end);
    MmSsMmmRoundTrip(r.start);
    MmSsMmmRoundTrip(r.end);
    BracketedFields(MsToMmSsMmm(r.start), MsToMmSsMmm(r.end), r.text, r.start, r.end);
  }

  /** Moving every cue back by `k` undoes moving it forward by `k`. */
  lemma {:induction false} ShiftBack(es: seq<Event>, k: int)
    ensures Shift(Shift(es, -k), k) == es
  {
    var r := Shift(Shift(es, -k), k);
    forall i | 0 <= i < |es|
      ensures r[i] == es[i]
    {
    }
  }

  /** The whole context of a cluster, read back with the chunk's start as
      offset, is the cluster: the context is written in the format the
      answer is parsed in. */
  lemma {:induction false} ContextRoundTrip(cluster: seq<Event>, base: int)
    requires forall i :: 0 <= i < |cluster| ==>
      cluster[i].start >= base && cluster[i].end >= base && PlainText(cluster[i].text)
    ensures ParseTranscript(Context(cluster, base), base, Current) == cluster
  {
    var rel := Shift(cluster, -base);
    var ls := ContextLines(cluster, base);
    var parse := LineParser(0, Current);
    forall k | 0 <= k < |ls|
      ensures |ls[k]| > 0 && NoLineBreak(ls[k]) && parse(ls[k]) == Some(rel[k])
    {
      var r := rel[k];
      assert ls[k] == Stamped(r);
      StampedIsLine(r);
      StampedFields(r);
    }
    SplitLinesOfJoin(ls);
    CollectEach(ls, parse, rel);
    ParseTranscriptOffset(Context(cluster, base), base, Current);
    ShiftBack(cluster, base);
  }

  /** An answer of one line whose fields are known, read with no offset,
      is that one cue. */
  lemma {:induction false} SingleLineAnswer(l: string, r: Event, d: Dialect)
    requires |l| > 0 && NoLineBreak(l) && LineFields(l, d) == Some(r)
    ensures ParseTranscript(l, 0, d) == [r]
  {
    SplitLinesOfLine(l);
    assert [l][..0] == [];
  }

  lemma ExampleText(t: string)
    requires t == "こんにちは"
    ensures PlainText(t)
  {
    assert NoSpace(t);
    RemoveJapaneseSpacesOfNoSpace(t);
  }

  lemma ExampleLine(r: Event, l: string)
    requires r == Event(1250, 3100, "こんにちは") && l == "[00:01,250 - 00:03,100] こんにちは"
    ensures Stamped(r) == l
  {
    MmSsMmmExampleSeconds();
    MmSsMmmExampleTenths();
    ExampleBracketed(MsToMmSsMmm(r.start), MsToMmSsMmm(r.end), r.text, l);
  }

  lemma ExampleBracketed(a: string, b: string, t: string, l: string)
    requires a == "00:01,250" && b == "00:03,100" && t == "こんにちは"
    requires l == "[00:01,250 - 00:03,100] こんにちは"
    ensures Bracketed(a, b, t) == l
  {
  }

  /** The answer line `[00:01,250 - 00:03,100] こんにちは`, read with no
      offset, gives one cue from 1250 to 3100 ms. */
  lemma {:induction false} ParseExample(l: string)
    requires l == "[00:01,250 - 00:03,100] こんにちは"
    ensures ParseTranscript(l, 0, Current) == [Event(1250, 3100, "こんにちは")]
  {
    var r := Event(1250, 3100, "こんにちは");
    ExampleText(r.text);
    ExampleLine(r, l);
    StampedFields(r);
    StampedIsLine(r);
    SingleLineAnswer(Stamped(r), r, Current);
  }
}
