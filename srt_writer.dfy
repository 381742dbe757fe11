/**
  Writing the generated subtitles as SRT (`SubtitleJob._save_srt` in
  src/core.py; the output loop of `main` in main.py is the same): one block
  per subtitle, numbered from 1 in list order, holding the number, the
  `HH:MM:SS,mmm --> HH:MM:SS,mmm` time line, the text and a blank line.

  The file is modelled as the text written to it. A small SRT reader is
  defined beside the writer to state what the text means: it reads back
  the very subtitles that were written.
*/
module SrtWriter {
  import opened Common
  import opened Decimal
  import opened TimeFormat

  /** `f"{a} --> {b}"`: the time line of a block. */
  function Arrow(a: string, b: string): string
  {
    a + " --> " + b
  }

  /** A block: its number, time line and text on their own lines, then a
      blank line. */
  function Layout(n: string, t: string, x: string): string
  {
    n + "\n" + t + "\n" + x + "\n\n"
  }

  /** The block of the subtitle numbered `k`. */
  function Block(k: nat, e: Event): string
    requires e.start >= 0 && e.end >= 0
  {
    Layout(NatToString(k), Arrow(MsToSrtTime(e.start), MsToSrtTime(e.end)), e.text)
  }

  /** `Block` for a printable subtitle; nothing for any other. */
  function BlockOf(k: nat, e: Event): string
  {
    if e.start >= 0 && e.end >= 0 then Block(k, e) else []
  }

  /** The pieces `f(k, xs[0])`, `f(k + 1, xs[1])`, … one after another. */
  function Joined<T>(xs: seq<T>, k: nat, f: (nat, T) -> string): string
  {
    if |xs| == 0 then [] else f(k, xs[0]) + Joined(xs[1..], k + 1, f)
  }

  /** The blocks of `subs`, numbered from `k`. */
  function Blocks(subs: seq<Event>, k: nat): string
  {
    Joined(subs, k, BlockOf)
  }

  /** `_save_srt`: the text written to the output file. */
  method RenderSrt(subs: seq<Event>) returns (out: string)
    requires NonNegative(subs)
    ensures out == Blocks(subs, 1)
  {
    out := [];
    for k := 0 to |subs|
      invariant out == Joined(subs[..k], 1, BlockOf)
    {
      var block := RenderBlock(k + 1, subs[k]);
      JoinedStep(subs, k, 1, BlockOf, out, block);
      out := out + block;
    }
    assert subs[..|subs|] == subs;
  }

  /** One block, written piece by piece as `_save_srt` writes it. */
  method RenderBlock(k: nat, sub: Event) returns (block: string)
    requires sub.start >= 0 && sub.end >= 0
    ensures block == BlockOf(k, sub)
  {
    var num, from, to := NatToString(k), MsToSrtTime(sub.start), MsToSrtTime(sub.end);
    block := num + "\n";
    block := block + from + " --> " + to + "\n";
    block := block + sub.text + "\n\n";
    LayoutPieces(num, from, to, sub.text);
  }

  /** The block written piece by piece is the block's layout. */
  lemma {:induction false} LayoutPieces(n: string, a: string, b: string, x: string)
    ensures n + "\n" + a + " --> " + b + "\n" + x + "\n\n" == Layout(n, Arrow(a, b), x)
  {
  }

  /** One more piece extends the join of a prefix by one element. */
  lemma {:induction false} JoinedStep<T>(xs: seq<T>, i: nat, k: nat, f: (nat, T) -> string, acc: string, piece: string)
    requires i < |xs| && acc == Joined(xs[..i], k, f) && piece == f(k + i, xs[i])
    ensures acc + piece == Joined(xs[..i + 1], k, f)
  {
    JoinedAppend(xs[..i], xs[i], k, f);
    assert xs[..i + 1] == xs[..i] + [xs[i]];
  }

  lemma {:induction false} JoinedAppend<T>(xs: seq<T>, x: T, k: nat, f: (nat, T) -> string)
    ensures Joined(xs + [x], k, f) == Joined(xs, k, f) + f(k + |xs|, x)
    decreases |xs|
  {
    if |xs| == 0 {
      assert [] + [x] == [x];
      assert [x][1..] == [];
    } else {
      assert (xs + [x])[1..] == xs[1..] + [x];
      JoinedAppend(xs[1..], x, k + 1, f);
    }
  }

  // ---------------------------------------------------------------------
  // Reading the text back

  /** One block's lines: the expected number, the time line, the text. */
  function ReadCue(num: string, times: string, text: string, k: nat): Option<Event>
  {
    if |num| > 0 && AllDigits(num) && ValueOf(num) == k then
      var parts := Split(times, ' ');
      if |parts| == 3 && parts[1] == "-->" then
        match (ParseTimeToMs(parts[0]), ParseTimeToMs(parts[2]))
        case (Some(s), Some(e)) => Some(Event(s, e, text))
        case _ => None
      else None
    else None
  }

  /** Blocks of four lines, the last one blank, numbered from `k`. */
  function ReadBlocks(lines: seq<string>, k: nat): Option<seq<Event>>
    decreases |lines|
  {
    if |lines| == 0 then Some([])
    else if |lines| < 4 || lines[3] != [] then None
    else
      match ReadCue(lines[0], lines[1], lines[2], k)
      case None => None
      case Some(e) =>
        match ReadBlocks(lines[4..], k + 1)
        case None => None
        case Some(rest) => Some([e] + rest)
  }

  /** An SRT reader for files of one-line subtitles. */
  function ReadSrt(text: string): Option<seq<Event>>
  {
    ReadBlocks(SplitLines(text), 1)
  }

  /** Subtitles of one non-empty line each, at printable times. */
  predicate OneLineCues(subs: seq<Event>)
  {
    NonNegative(subs) &&
    forall i :: 0 <= i < |subs| ==> |subs[i].text| > 0 && NoLineBreak(subs[i].text)
  }

  /** Reading the written file gives back the subtitles, in order: the
      blocks are numbered 1, 2, … and each time line shows its cue's own
      start and end. */
  lemma {:induction false} RenderedReadsBack(subs: seq<Event>)
    requires OneLineCues(subs)
    ensures ReadSrt(Blocks(subs, 1)) == Some(subs)
  {
    BlocksReadBack(subs, 1);
  }

  lemma {:induction false} BlocksReadBack(subs: seq<Event>, k: nat)
    requires OneLineCues(subs)
    ensures ReadBlocks(SplitLines(Blocks(subs, k)), k) == Some(subs)
    decreases |subs|
  {
    if |subs| > 0 {
      var e := subs[0];
      assert OneLineCues(subs[1..]) by {
        assert forall i :: 0 <= i < |subs| - 1 ==> subs[1..][i] == subs[i + 1];
      }
      BlocksReadBack(subs[1..], k + 1);
      assert e.start >= 0 && e.end >= 0 && |e.text| > 0 && NoLineBreak(e.text);
      BlockReadsBack(k, e, Blocks(subs[1..], k + 1), subs[1..]);
      assert [e] + subs[1..] == subs;
    }
  }

  /** One block followed by blocks that read back. */
  lemma {:induction false} BlockReadsBack(k: nat, e: Event, rest: string, tail: seq<Event>)
    requires e.start >= 0 && e.end >= 0 && |e.text| > 0 && NoLineBreak(e.text)
    requires ReadBlocks(SplitLines(rest), k + 1) == Some(tail)
    ensures ReadBlocks(SplitLines(BlockOf(k, e) + rest), k) == Some([e] + tail)
  {
    var n := NatToString(k);
    var t := Arrow(MsToSrtTime(e.start), MsToSrtTime(e.end));
    DigitsHaveNoLineBreak(n);
    ArrowOfTimes(e.start, e.end);
    LayoutLines(n, t, e.text, rest);
    CueReadsBack(k, e);
    var lines := SplitLines(BlockOf(k, e) + rest);
    assert lines[4..] == SplitLines(rest);
  }

  /** A block splits into its number, its time line, its text and a blank
      line. */
  lemma {:induction false} LayoutLines(n: string, t: string, x: string, rest: string)
    requires |n| > 0 && |t| > 0 && |x| > 0
    requires NoLineBreak(n) && NoLineBreak(t) && NoLineBreak(x)
    ensures SplitLines(Layout(n, t, x) + rest) == [n, t, x, []] + SplitLines(rest)
  {
    assert Layout(n, t, x) + rest == n + ['\n'] + (t + ['\n'] + (x + ['\n'] + (['\n'] + rest)));
    BlankLine(rest);
    SplitLinesPrefix(x, ['\n'] + rest);
    SplitLinesPrefix(t, x + ['\n'] + (['\n'] + rest));
    SplitLinesPrefix(n, t + ['\n'] + (x + ['\n'] + (['\n'] + rest)));
  }

  lemma {:induction false} BlankLine(rest: string)
    ensures SplitLines(['\n'] + rest) == [[]] + SplitLines(rest)
  {
    assert (['\n'] + rest)[1..] == rest;
  }

  lemma {:induction false} DigitsHaveNoLineBreak(n: string)
    requires |n| > 0 && AllDigits(n)
    ensures NoLineBreak(n)
  {
    assert forall i :: 0 <= i < |n| ==> IsDigit(n[i]);
  }

  /** The characters of a printed time. */
  predicate ClockChars(s: string)
  {
    forall i :: 0 <= i < |s| ==> IsDigit(s[i]) || s[i] == ':' || s[i] == ','
  }

  lemma {:induction false} ClockCharsConcat(a: string, b: string)
    requires ClockChars(a) && ClockChars(b)
    ensures ClockChars(a + b)
  {
    assert forall i :: 0 <= i < |a| ==> (a + b)[i] == a[i];
    assert forall i :: |a| <= i < |a + b| ==> (a + b)[i] == b[i - |a|];
  }

  lemma {:induction false} SrtTimeClockChars(ms: nat)
    ensures ClockChars(MsToSrtTime(ms))
  {
    var total := ms / 1000;
    SrtTimeFields(ms);
    ClockFields(ZeroPad(total / 3600, 2), ZeroPad(total % 3600 / 60, 2), ZeroPad(total % 60, 2), ZeroPad(ms % 1000, 3));
  }

  lemma {:induction false} ClockFields(h: string, m: string, s: string, f: string)
    requires AllDigits(h) && AllDigits(m) && AllDigits(s) && AllDigits(f)
    ensures ClockChars(h + ":" + m + ":" + s + [','] + f)
  {
    assert ClockChars(h) && ClockChars(m) && ClockChars(s) && ClockChars(f);
    assert ClockChars(":") && ClockChars([',']);
    ClockCharsConcat(h, ":");
    ClockCharsConcat(h + ":", m);
    ClockCharsConcat(h + ":" + m, ":");
    ClockCharsConcat(h + ":" + m + ":", s);
    ClockCharsConcat(h + ":" + m + ":" + s, [',']);
    ClockCharsConcat(h + ":" + m + ":" + s + [','], f);
  }

  /** A time line holds no line break, and its spaces are the two around
      the arrow. */
  lemma {:induction false} ArrowShape(a: string, b: string)
    requires ClockChars(a) && ClockChars(b)
    ensures NoLineBreak(Arrow(a, b)) && |Arrow(a, b)| > 0
    ensures Split(Arrow(a, b), ' ') == [a, "-->", b]
  {
    assert ' ' !in a && ' ' !in b by {
      assert forall i :: 0 <= i < |a| ==> a[i] != ' ';
      assert forall i :: 0 <= i < |b| ==> b[i] != ' ';
    }
    assert Arrow(a, b) == a + [' '] + ("-->" + [' '] + b);
    SplitAfterHead(a, ' ', "-->" + [' '] + b);
    assert "-->" + [' '] + b == "-->" + [' '] + b;
    SplitAfterHead("-->", ' ', b);
    SplitWithoutSep(b, ' ');
    var t := Arrow(a, b);
    forall i | 0 <= i < |t|
      ensures !IsLineBreak(t[i])
    {
      if i < |a| {
        assert t[i] == a[i];
      } else if i >= |a| + 5 {
        assert t[i] == b[i - |a| - 5];
      } else {
        assert t[i] == " --> "[i - |a|];
      }
    }
  }

  lemma {:induction false} ArrowOfTimes(start: nat, end: nat)
    ensures var t := Arrow(MsToSrtTime(start), MsToSrtTime(end));
      NoLineBreak(t) && |t| > 0 && Split(t, ' ') == [MsToSrtTime(start), "-->", MsToSrtTime(end)]
  {
    SrtTimeClockChars(start);
    SrtTimeClockChars(end);
    ArrowShape(MsToSrtTime(start), MsToSrtTime(end));
  }

  /** A block's lines read back as its subtitle. */
  lemma {:induction false} CueReadsBack(k: nat, e: Event)
    requires e.start >= 0 && e.end >= 0
    ensures ReadCue(NatToString(k), Arrow(MsToSrtTime(e.start), MsToSrtTime(e.end)), e.text, k) == Some(e)
  {
    ValueOfNatToString(k);
    ArrowOfTimes(e.start, e.end);
    SrtTimeRoundTrip(e.start);
    SrtTimeRoundTrip(e.end);
  }
}
