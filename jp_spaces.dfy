/**
  `remove_japanese_spaces` (src/utils.py): three regular-expression
  substitutions that delete a whitespace run sitting between two Japanese
  characters, or between a Japanese character and ASCII punctuation. Each
  substitution is modelled as the left-to-right scan the regular-expression
  engine performs: the lookbehind reads the character just before the
  current position in that pass's input, `\s+` is greedy and gives characters
  back until the lookahead holds, and after a match the scan resumes at its
  end.
*/
module JapaneseSpaces {
  import opened Common

  datatype CharClass = Japanese | Punctuation

  /** The Japanese ranges of the original: hiragana, katakana, CJK ideographs,
      CJK symbols and punctuation (which holds the ideographic space), and
      the half- and full-width forms. */
  predicate IsJapanese(c: char)
  {
    ('\U{3040}' <= c <= '\U{309F}') || ('\U{30A0}' <= c <= '\U{30FF}') ||
    ('\U{4E00}' <= c <= '\U{9FFF}') || ('\U{3000}' <= c <= '\U{303F}') ||
    ('\U{FF00}' <= c <= '\U{FFEF}')
  }

  /** The ASCII punctuation of the second and third substitutions. */
  predicate IsPunctuation(c: char)
  {
    c == '!' || c == '?' || c == '.' || c == ',' || c == ':' || c == ';'
  }

  predicate InClass(c: char, k: CharClass)
  {
    match k
    case Japanese => IsJapanese(c)
    case Punctuation => IsPunctuation(c)
  }

  /** The number of leading whitespace characters of `t`. */
  function RunLength(t: string): (n: nat)
    ensures n <= |t|
    ensures n < |t| ==> !IsSpace(t[n])
  {
    if |t| == 0 || !IsSpace(t[0]) then 0 else 1 + RunLength(t[1..])
  }

  lemma {:induction false} RunLengthSpaces(t: string, i: int)
    requires 0 <= i < RunLength(t)
    ensures IsSpace(t[i])
  {
    if i > 0 {
      RunLengthSpaces(t[1..], i - 1);
    }
  }

  /** The greedy `\s+(?=B)`: the longest `k <= limit` for which `t[k]`
      exists and is in class `b`, or 0 when there is none. */
  function LongestBefore(t: string, limit: nat, b: CharClass): (k: nat)
    ensures k <= limit
    ensures k > 0 ==> k < |t| && InClass(t[k], b)
  {
    if limit == 0 then 0
    else if limit < |t| && InClass(t[limit], b) then limit
    else LongestBefore(t, limit - 1, b)
  }

  /** The length of the `\s+(?=B)` match at the start of `t`, 0 for none. */
  function MatchLength(t: string, b: CharClass): (k: nat)
    ensures k <= RunLength(t)
    ensures k > 0 ==> k < |t| && InClass(t[k], b)
  {
    LongestBefore(t, RunLength(t), b)
  }

  /** The length of the match of `(?<=A)\s+(?=B)` at the start of `t` when
      the character before `t` is `prev`; 0 when there is none. */
  function MatchAt(prev: Option<char>, t: string, a: CharClass, b: CharClass): (k: nat)
    ensures k <= |t|
  {
    if prev.Some? && InClass(prev.value, a) then MatchLength(t, b) else 0
  }

  /** `re.sub(r'(?<=A)\s+(?=B)', '', …)` on the rest `t` of the input, when
      the character before `t` in the input is `prev`. */
  function Scan(prev: Option<char>, t: string, a: CharClass, b: CharClass): (r: string)
    decreases |t|
  {
    if |t| == 0 then []
    else
      var k := MatchAt(prev, t, a, b);
      if k > 0 then Scan(Some(t[k - 1]), t[k..], a, b)
      else [t[0]] + Scan(Some(t[0]), t[1..], a, b)
  }

  function Substitute(s: string, a: CharClass, b: CharClass): string
  {
    Scan(None, s, a, b)
  }

  /** `remove_japanese_spaces`: an empty text is returned as it is; otherwise
      the three substitutions run in order. */
  function RemoveJapaneseSpaces(s: string): string
  {
    if |s| == 0 then s
    else
      var s1 := Substitute(s, Japanese, Japanese);
      var s2 := Substitute(s1, Japanese, Punctuation);
      Substitute(s2, Punctuation, Japanese)
  }

  // ---------------------------------------------------------------------
  // Only whitespace is removed

  lemma {:induction false} VisibleOfRun(t: string, k: nat)
    requires k <= RunLength(t)
    ensures Visible(t) == Visible(t[k..])
  {
    forall i | 0 <= i < k
      ensures IsSpace(t[..k][i])
    {
      RunLengthSpaces(t, i);
    }
    VisibleOfAllSpace(t[..k]);
    assert t == t[..k] + t[k..];
    VisibleAppend(t[..k], t[k..]);
  }

  /** A pass keeps every non-whitespace character, in order, and adds
      nothing. */
  lemma {:induction false} ScanVisible(prev: Option<char>, t: string, a: CharClass, b: CharClass)
    ensures Visible(Scan(prev, t, a, b)) == Visible(t)
    ensures |Scan(prev, t, a, b)| <= |t|
    decreases |t|
  {
    if |t| > 0 {
      var k := MatchAt(prev, t, a, b);
      if k > 0 {
        ScanVisible(Some(t[k - 1]), t[k..], a, b);
        VisibleOfRun(t, k);
      } else {
        ScanVisible(Some(t[0]), t[1..], a, b);
        assert t == [t[0]] + t[1..];
        VisibleAppend([t[0]], t[1..]);
        VisibleAppend([t[0]], Scan(Some(t[0]), t[1..], a, b));
      }
    }
  }

  /** The whole function deletes whitespace only: the visible characters
      come out unchanged and in order. */
  lemma {:induction false} RemoveJapaneseSpacesVisible(s: string)
    ensures Visible(RemoveJapaneseSpaces(s)) == Visible(s)
    ensures |RemoveJapaneseSpaces(s)| <= |s|
  {
    if |s| > 0 {
      var s1 := Substitute(s, Japanese, Japanese);
      var s2 := Substitute(s1, Japanese, Punctuation);
      ScanVisible(None, s, Japanese, Japanese);
      ScanVisible(None, s1, Japanese, Punctuation);
      ScanVisible(None, s2, Punctuation, Japanese);
    }
  }

  /** A text without whitespace comes out unchanged. */
  lemma {:induction false} RemoveJapaneseSpacesOfNoSpace(s: string)
    requires NoSpace(s)
    ensures RemoveJapaneseSpaces(s) == s
  {
    RemoveJapaneseSpacesVisible(s);
    VisibleOfNoSpace(s);
    var r := RemoveJapaneseSpaces(s);
    NoSpaceOfShorterVisible(r, s);
  }

  /** A string at most as long as its visible part holds no whitespace. */
  lemma {:induction false} NoSpaceOfShorterVisible(r: string, s: string)
    requires Visible(r) == s && |r| <= |s|
    ensures r == s
  {
    VisibleLength(r);
  }

  lemma {:induction false} VisibleLength(r: string)
    requires |Visible(r)| >= |r|
    ensures Visible(r) == r
  {
    if |r| > 0 {
      VisibleLength(r[1..]);
    }
  }

  // ---------------------------------------------------------------------
  // Where a run goes

  predicate AllSpace(w: string)
  {
    forall i {:trigger IsSpace(w[i])} :: 0 <= i < |w| ==> IsSpace(w[i])
  }

  predicate NoneIn(w: string, k: CharClass)
  {
    forall i {:trigger InClass(w[i], k)} :: 0 <= i < |w| ==> !InClass(w[i], k)
  }

  lemma {:induction false} RunLengthAtMost(t: string, i: int)
    requires 0 <= i < |t| && !IsSpace(t[i])
    ensures RunLength(t) <= i
  {
    if i > 0 && IsSpace(t[0]) {
      RunLengthAtMost(t[1..], i - 1);
    }
  }

  lemma {:induction false} RunLengthOfRun(w: string, t: string)
    requires AllSpace(w) && |t| > 0 && !IsSpace(t[0])
    ensures RunLength(w + t) == |w|
  {
    if |w| > 0 {
      assert IsSpace(w[0]);
      assert (w + t)[1..] == w[1..] + t;
      RunLengthOfRun(w[1..], t);
    } else {
      assert w + t == t;
    }
  }

  lemma {:induction false} RunLengthAppend(x: string, rest: string)
    requires RunLength(x) < |x|
    ensures RunLength(x + rest) == RunLength(x)
  {
    if IsSpace(x[0]) {
      assert (x + rest)[1..] == x[1..] + rest;
      RunLengthAppend(x[1..], rest);
    }
  }

  lemma {:induction false} LongestBeforeAppend(x: string, rest: string, limit: nat, b: CharClass)
    requires limit < |x|
    ensures LongestBefore(x + rest, limit, b) == LongestBefore(x, limit, b)
  {
    if limit > 0 {
      assert (x + rest)[limit] == x[limit];
      LongestBeforeAppend(x, rest, limit - 1, b);
    }
  }

  lemma {:induction false} LongestBeforeNone(w: string, t: string, limit: nat, b: CharClass)
    requires NoneIn(w, b) && |t| > 0 && !InClass(t[0], b) && limit <= |w|
    ensures LongestBefore(w + t, limit, b) == 0
  {
    if limit > 0 {
      if limit < |w| {
        assert (w + t)[limit] == w[limit];
        assert !InClass(w[limit], b);
      } else {
        assert (w + t)[limit] == t[0];
      }
      LongestBeforeNone(w, t, limit - 1, b);
    }
  }

  /** The characters after a run decide nothing once the run is over. */
  lemma {:induction false} MatchLengthAppend(x: string, rest: string, b: CharClass)
    requires RunLength(x) < |x|
    ensures MatchLength(x + rest, b) == MatchLength(x, b)
  {
    RunLengthAppend(x, rest);
    LongestBeforeAppend(x, rest, RunLength(x), b);
  }

  /** A whitespace run followed by a character of class `b` matches whole. */
  lemma {:induction false} MatchLengthOfRun(w: string, t: string, b: CharClass)
    requires AllSpace(w) && |t| > 0 && !IsSpace(t[0]) && InClass(t[0], b)
    ensures MatchLength(w + t, b) == |w|
  {
    RunLengthOfRun(w, t);
    if |w| > 0 {
      assert (w + t)[|w|] == t[0];
    }
  }

  /** A run holding no character of class `b`, followed by a character
      outside `b`, does not match at all. */
  lemma {:induction false} MatchLengthNone(w: string, t: string, b: CharClass)
    requires AllSpace(w) && NoneIn(w, b) && |t| > 0 && !IsSpace(t[0]) && !InClass(t[0], b)
    ensures MatchLength(w + t, b) == 0
  {
    RunLengthOfRun(w, t);
    LongestBeforeNone(w, t, |w|, b);
  }

  lemma {:induction false} ScanHead(prev: Option<char>, t: string, a: CharClass, b: CharClass)
    requires |t| > 0 && !IsSpace(t[0])
    ensures Scan(prev, t, a, b) == [t[0]] + Scan(Some(t[0]), t[1..], a, b)
  {
  }

  /** `r` is non-empty and ends with `c`. */
  predicate LastIs(r: string, c: char)
  {
    |r| > 0 && r[|r| - 1] == c
  }

  lemma {:induction false} ScanLast(prev: Option<char>, t: string, a: CharClass, b: CharClass)
    requires |t| > 0 && !IsSpace(t[|t| - 1])
    ensures LastIs(Scan(prev, t, a, b), t[|t| - 1])
    decreases |t|, 1
  {
    RunLengthAtMost(t, |t| - 1);
    var k := MatchAt(prev, t, a, b);
    if k > 0 {
      ScanLastMatched(prev, t, a, b);
    } else if |t| > 1 {
      ScanLastCopied(prev, t, a, b);
    }
  }

  lemma {:induction false} ScanLastMatched(prev: Option<char>, t: string, a: CharClass, b: CharClass)
    requires 0 < MatchAt(prev, t, a, b) < |t| && !IsSpace(t[|t| - 1])
    ensures LastIs(Scan(prev, t, a, b), t[|t| - 1])
    decreases |t|, 0
  {
    var k := MatchAt(prev, t, a, b);
    ScanLast(Some(t[k - 1]), t[k..], a, b);
  }

  lemma {:induction false} ScanLastCopied(prev: Option<char>, t: string, a: CharClass, b: CharClass)
    requires MatchAt(prev, t, a, b) == 0 && 1 < |t| && !IsSpace(t[|t| - 1])
    ensures LastIs(Scan(prev, t, a, b), t[|t| - 1])
    decreases |t|, 0
  {
    var rest := Scan(Some(t[0]), t[1..], a, b);
    ScanLast(Some(t[0]), t[1..], a, b);
    assert Scan(prev, t, a, b) == [t[0]] + rest;
  }

  /** A pass splits at a non-whitespace character: what lies before it is
      scanned as if the text ended there. */
  lemma {:induction false} ScanSplit(prev: Option<char>, x: string, rest: string, a: CharClass, b: CharClass)
    requires |x| > 0 && !IsSpace(x[|x| - 1])
    ensures Scan(prev, x + rest, a, b) == Scan(prev, x, a, b) + Scan(Some(x[|x| - 1]), rest, a, b)
    decreases |x|, 1
  {
    RunLengthAtMost(x, |x| - 1);
    MatchLengthAppend(x, rest, b);
    var k := MatchAt(prev, x, a, b);
    if k > 0 {
      ScanSplitMatched(prev, x, rest, a, b);
    } else if |x| == 1 {
      ScanSplitSingle(prev, x, rest, a, b);
    } else {
      ScanSplitCopied(prev, x, rest, a, b);
    }
  }

  lemma {:induction false} ScanSplitSingle(prev: Option<char>, x: string, rest: string, a: CharClass, b: CharClass)
    requires |x| == 1 && MatchAt(prev, x, a, b) == 0 && MatchAt(prev, x + rest, a, b) == 0
    ensures Scan(prev, x + rest, a, b) == Scan(prev, x, a, b) + Scan(Some(x[0]), rest, a, b)
  {
    var y := x + rest;
    ScanCopies(prev, x, a, b);
    ScanCopies(prev, y, a, b);
    assert x[1..] == [] && y[1..] == rest && y[0] == x[0];
  }

  /** A character no match starts at is copied, and the pass goes on after
      it. */
  lemma {:induction false} ScanCopies(prev: Option<char>, t: string, a: CharClass, b: CharClass)
    requires |t| > 0 && MatchAt(prev, t, a, b) == 0
    ensures Scan(prev, t, a, b) == [t[0]] + Scan(Some(t[0]), t[1..], a, b)
  {
  }

  lemma {:induction false} ScanSplitMatched(prev: Option<char>, x: string, rest: string, a: CharClass, b: CharClass)
    requires |x| > 0 && !IsSpace(x[|x| - 1])
    requires 0 < MatchAt(prev, x, a, b) < |x|
    requires MatchAt(prev, x + rest, a, b) == MatchAt(prev, x, a, b)
    ensures Scan(prev, x + rest, a, b) == Scan(prev, x, a, b) + Scan(Some(x[|x| - 1]), rest, a, b)
    decreases |x|, 0
  {
    var k := MatchAt(prev, x, a, b);
    var x' := x[k..];
    assert (x + rest)[k..] == x' + rest;
    assert (x + rest)[k - 1] == x[k - 1];
    assert x'[|x'| - 1] == x[|x| - 1];
    ScanSplit(Some(x[k - 1]), x', rest, a, b);
  }

  lemma {:induction false} ScanSplitCopied(prev: Option<char>, x: string, rest: string, a: CharClass, b: CharClass)
    requires 1 < |x| && !IsSpace(x[|x| - 1])
    requires MatchAt(prev, x, a, b) == 0 && MatchAt(prev, x + rest, a, b) == 0
    ensures Scan(prev, x + rest, a, b) == Scan(prev, x, a, b) + Scan(Some(x[|x| - 1]), rest, a, b)
    decreases |x|, 0
  {
    var x' := x[1..];
    assert (x + rest)[1..] == x' + rest;
    assert (x + rest)[0] == x[0];
    assert x'[|x'| - 1] == x[|x| - 1];
    ScanSplit(Some(x[0]), x', rest, a, b);
    var p, q := Scan(Some(x[0]), x', a, b), Scan(Some(x[|x| - 1]), rest, a, b);
    assert [x[0]] + (p + q) == ([x[0]] + p) + q;
  }

  /** A run that is never matched is copied through. */
  lemma {:induction false} ScanKeepsRun(prev: Option<char>, w: string, t: string, a: CharClass, b: CharClass)
    requires AllSpace(w) && NoneIn(w, a) && |t| > 0 && !IsSpace(t[0])
    requires prev.None? || !InClass(prev.value, a) || MatchLength(w + t, b) == 0
    ensures Scan(prev, w + t, a, b) == w + Scan(if |w| == 0 then prev else Some(w[|w| - 1]), t, a, b)
    decreases |w|, 1
  {
    if |w| == 0 {
      assert w + t == t;
    } else {
      ScanKeepsRunStep(prev, w, t, a, b);
    }
  }

  lemma {:induction false} ScanKeepsRunStep(prev: Option<char>, w: string, t: string, a: CharClass, b: CharClass)
    requires AllSpace(w) && NoneIn(w, a) && |w| > 0 && |t| > 0 && !IsSpace(t[0])
    requires prev.None? || !InClass(prev.value, a) || MatchLength(w + t, b) == 0
    ensures Scan(prev, w + t, a, b) == w + Scan(Some(w[|w| - 1]), t, a, b)
    decreases |w|, 0
  {
    var w' := w[1..];
    assert (w + t)[0] == w[0];
    assert (w + t)[1..] == w' + t;
    assert MatchAt(prev, w + t, a, b) == 0;
    assert Scan(prev, w + t, a, b) == [w[0]] + Scan(Some(w[0]), w' + t, a, b);
    if |w'| == 0 {
      assert w' + t == t;
      assert w == [w[0]];
    } else {
      assert !InClass(w[0], a);
      assert AllSpace(w') && NoneIn(w', a) by {
        assert forall i :: 0 <= i < |w'| ==> w'[i] == w[i + 1];
      }
      ScanKeepsRunStep(Some(w[0]), w', t, a, b);
      var r := Scan(Some(w[|w| - 1]), t, a, b);
      assert w'[|w'| - 1] == w[|w| - 1];
      assert [w[0]] + (w' + r) == ([w[0]] + w') + r;
      assert w == [w[0]] + w';
    }
  }

  /** A run between a character of class `a` and one of class `b` is
      deleted. */
  lemma {:induction false} ScanDropsRun(x: char, w: string, t: string, a: CharClass, b: CharClass)
    requires InClass(x, a) && |w| > 0 && AllSpace(w)
    requires |t| > 0 && !IsSpace(t[0]) && InClass(t[0], b)
    ensures Scan(Some(x), w + t, a, b) == Scan(Some(w[|w| - 1]), t, a, b)
  {
    MatchLengthOfRun(w, t, b);
    assert (w + t)[|w|..] == t;
    assert (w + t)[|w| - 1] == w[|w| - 1];
  }

  // ---------------------------------------------------------------------
  // Whole passes

  predicate Bounded(s: string)
  {
    |s| > 0 && !IsSpace(s[0]) && !IsSpace(s[|s| - 1])
  }

  lemma {:induction false} SubstituteBounded(s: string, a: CharClass, b: CharClass)
    requires Bounded(s)
    ensures Bounded(Substitute(s, a, b))
    ensures Substitute(s, a, b)[0] == s[0]
    ensures Substitute(s, a, b)[|Substitute(s, a, b)| - 1] == s[|s| - 1]
  {
    ScanHead(None, s, a, b);
    ScanLast(None, s, a, b);
    assert LastIs(Substitute(s, a, b), s[|s| - 1]);
  }

  /** A pass over two texts that meet at non-whitespace characters is the
      two passes side by side. */
  lemma {:induction false} SubstituteJoins(x: string, y: string, a: CharClass, b: CharClass)
    requires Bounded(x) && Bounded(y)
    ensures Substitute(x + y, a, b) == Substitute(x, a, b) + Substitute(y, a, b)
  {
    ScanSplit(None, x, y, a, b);
    ScanHead(Some(x[|x| - 1]), y, a, b);
    ScanHead(None, y, a, b);
  }

  /** The run between `x` and `y` is deleted when `x` ends in class `a` and
      `y` starts in class `b`. */
  lemma {:induction false} SubstituteDrops(x: string, w: string, y: string, a: CharClass, b: CharClass)
    requires Bounded(x) && Bounded(y) && |w| > 0 && AllSpace(w)
    requires InClass(x[|x| - 1], a) && InClass(y[0], b)
    ensures Substitute(x + w + y, a, b) == Substitute(x, a, b) + Substitute(y, a, b)
  {
    assert x + w + y == x + (w + y);
    ScanSplit(None, x, w + y, a, b);
    ScanDropsRun(x[|x| - 1], w, y, a, b);
    ScanHead(Some(w[|w| - 1]), y, a, b);
    ScanHead(None, y, a, b);
  }

  /** The run between `x` and `y` is kept when it holds no character of
      class `a` and is not matched at its start. */
  lemma {:induction false} SubstituteKeeps(x: string, w: string, y: string, a: CharClass, b: CharClass)
    requires Bounded(x) && Bounded(y) && AllSpace(w) && NoneIn(w, a)
    requires !InClass(x[|x| - 1], a) || MatchLength(w + y, b) == 0
    ensures Substitute(x + w + y, a, b) == Substitute(x, a, b) + w + Substitute(y, a, b)
  {
    KeepsAfter(x[|x| - 1], w, y, a, b);
    assert x + w + y == x + (w + y);
    ScanSplit(None, x, w + y, a, b);
    var p, q := Substitute(x, a, b), Substitute(y, a, b);
    assert p + (w + q) == p + w + q;
  }

  /** After a character `c` that the run may not follow, the run is copied
      and the text after it is scanned as a text of its own. */
  lemma {:induction false} KeepsAfter(c: char, w: string, y: string, a: CharClass, b: CharClass)
    requires Bounded(y) && AllSpace(w) && NoneIn(w, a)
    requires !InClass(c, a) || MatchLength(w + y, b) == 0
    ensures Scan(Some(c), w + y, a, b) == w + Substitute(y, a, b)
  {
    var before := if |w| == 0 then Some(c) else Some(w[|w| - 1]);
    ScanKeepsRun(Some(c), w, y, a, b);
    ScanHead(before, y, a, b);
    ScanHead(None, y, a, b);
  }

  // ---------------------------------------------------------------------
  // The function as a whole

  /** The pairs of neighbours between which the original deletes a run:
      Japanese on both sides, or Japanese on one side and ASCII punctuation
      on the other. */
  predicate Flanked(left: char, right: char)
  {
    (IsJapanese(left) && (IsJapanese(right) || IsPunctuation(right))) ||
    (IsPunctuation(left) && IsJapanese(right))
  }

  lemma {:induction false} SpacesAreNotPunctuation(w: string)
    requires AllSpace(w)
    ensures NoneIn(w, Punctuation)
  {
    forall i | 0 <= i < |w|
      ensures !InClass(w[i], Punctuation)
    {
      assert IsSpace(w[i]);
    }
  }

  lemma {:induction false} PassesBounded(x: string)
    requires Bounded(x)
    ensures var x1 := Substitute(x, Japanese, Japanese);
            var x2 := Substitute(x1, Japanese, Punctuation);
            Bounded(x1) && Bounded(x2) && x1[0] == x2[0] == x[0] &&
            x1[|x1| - 1] == x2[|x2| - 1] == x[|x| - 1] &&
            RemoveJapaneseSpaces(x) == Substitute(x2, Punctuation, Japanese)
  {
    var x1 := Substitute(x, Japanese, Japanese);
    SubstituteBounded(x, Japanese, Japanese);
    SubstituteBounded(x1, Japanese, Punctuation);
  }

  /** A whitespace run between two flanking characters disappears, and the
      two sides are processed as if they stood alone. The run may hold the
      ideographic space only between two Japanese characters. */
  lemma {:induction false} RunRemovedWhenFlanked(x: string, w: string, y: string)
    requires Bounded(x) && Bounded(y) && |w| > 0 && AllSpace(w)
    requires Flanked(x[|x| - 1], y[0])
    requires NoneIn(w, Japanese) || (IsJapanese(x[|x| - 1]) && IsJapanese(y[0]))
    ensures RemoveJapaneseSpaces(x + w + y) == RemoveJapaneseSpaces(x) + RemoveJapaneseSpaces(y)
  {
    var xl, y0 := x[|x| - 1], y[0];
    PassesBounded(x);
    PassesBounded(y);
    var x1, y1 := Substitute(x, Japanese, Japanese), Substitute(y, Japanese, Japanese);
    var x2, y2 := Substitute(x1, Japanese, Punctuation), Substitute(y1, Japanese, Punctuation);
    if IsJapanese(xl) && IsJapanese(y0) {
      SubstituteDrops(x, w, y, Japanese, Japanese);
      SubstituteJoins(x1, y1, Japanese, Punctuation);
      SubstituteJoins(x2, y2, Punctuation, Japanese);
    } else if IsJapanese(xl) {
      MatchLengthNone(w, y, Japanese);
      SubstituteKeeps(x, w, y, Japanese, Japanese);
      assert x1 + w + y1 == Substitute(x + w + y, Japanese, Japanese);
      SubstituteDrops(x1, w, y1, Japanese, Punctuation);
      SubstituteJoins(x2, y2, Punctuation, Japanese);
    } else {
      SpacesAreNotPunctuation(w);
      SubstituteKeeps(x, w, y, Japanese, Japanese);
      SubstituteKeeps(x1, w, y1, Japanese, Punctuation);
      assert x2 + w + y2 == Substitute(Substitute(x + w + y, Japanese, Japanese), Japanese, Punctuation);
      SubstituteDrops(x2, w, y2, Punctuation, Japanese);
    }
  }

  /** Between any other pair of neighbours the run is kept as it is. */
  lemma {:induction false} RunKeptUnlessFlanked(x: string, w: string, y: string)
    requires Bounded(x) && Bounded(y) && AllSpace(w) && NoneIn(w, Japanese)
    requires !Flanked(x[|x| - 1], y[0])
    ensures RemoveJapaneseSpaces(x + w + y) == RemoveJapaneseSpaces(x) + w + RemoveJapaneseSpaces(y)
  {
    var xl, y0 := x[|x| - 1], y[0];
    PassesBounded(x);
    PassesBounded(y);
    SpacesAreNotPunctuation(w);
    var x1, y1 := Substitute(x, Japanese, Japanese), Substitute(y, Japanese, Japanese);
    var x2, y2 := Substitute(x1, Japanese, Punctuation), Substitute(y1, Japanese, Punctuation);
    if IsJapanese(xl) {
      MatchLengthNone(w, y, Japanese);
      MatchLengthNone(w, y1, Punctuation);
    } else if IsPunctuation(xl) {
      MatchLengthNone(w, y2, Japanese);
    }
    SubstituteKeeps(x, w, y, Japanese, Japanese);
    SubstituteKeeps(x1, w, y1, Japanese, Punctuation);
    SubstituteKeeps(x2, w, y2, Punctuation, Japanese);
  }

  lemma {:induction false} ExampleBetweenJapanese(s: string)
    requires s == "日本 語"
    ensures RemoveJapaneseSpaces(s) == "日本語"
  {
    var x, w, y := "日本", " ", "語";
    assert AllSpace(w);
    assert s == x + w + y;
    RunRemovedWhenFlanked(x, w, y);
    RemoveJapaneseSpacesOfNoSpace(x);
    RemoveJapaneseSpacesOfNoSpace(y);
  }

  lemma {:induction false} ExampleBeforePunctuation(s: string)
    requires s == "はい !"
    ensures RemoveJapaneseSpaces(s) == "はい!"
  {
    var x, w, y := "はい", " ", "!";
    assert AllSpace(w) && NoneIn(w, Japanese);
    assert s == x + w + y;
    RunRemovedWhenFlanked(x, w, y);
    RemoveJapaneseSpacesOfNoSpace(x);
    RemoveJapaneseSpacesOfNoSpace(y);
  }

  lemma {:induction false} ExampleEnglishKept(s: string)
    requires s == "ok go"
    ensures RemoveJapaneseSpaces(s) == s
  {
    var x, w, y := "ok", " ", "go";
    assert AllSpace(w) && NoneIn(w, Japanese);
    assert s == x + w + y;
    RunKeptUnlessFlanked(x, w, y);
    RemoveJapaneseSpacesOfNoSpace(x);
    RemoveJapaneseSpacesOfNoSpace(y);
  }

  /** The ideographic space is both whitespace and Japanese: after it, the
      ordinary space before `日` is removed, and the ideographic space
      itself is kept because `a` is not Japanese. */
  lemma {:induction false} ExampleIdeographicSpace()
    ensures RemoveJapaneseSpaces("a\U{3000} 日") == "a\U{3000}日"
  {
    var s := "a\U{3000} 日";
    var r := "a\U{3000}日";
    var t := s[2..];
    assert t == " 日" && IsSpace(t[0]) && !IsSpace(t[1]);
    assert RunLength(t[1..]) == 0;
    assert RunLength(t) == 1;
    assert MatchAt(Some('\U{3000}'), t, Japanese, Japanese) == 1;
    assert Substitute(s, Japanese, Japanese) == r;
    assert Substitute(r, Japanese, Punctuation) == r;
    assert Substitute(r, Punctuation, Japanese) == r;
  }
}
