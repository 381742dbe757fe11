/**
  Shared vocabulary of the chunk pipeline: the optional/result wrappers, the
  subtitle event record, and the handful of string builtins the pipeline leans
  on (whitespace classes, stripping, splitting on a separator, splitting into
  lines, substring search, ASCII lower-casing), each written out with the
  semantics of the corresponding text builtin of the original program.
*/
module Common {

  datatype Option<+T> = None | Some(value: T)

  /** One timed subtitle line: a cue of the English track or a line of the
      Japanese transcript, times in integer milliseconds. */
  datatype Event = Event(start: int, end: int, text: string)

  /** Every event moved later by `k` milliseconds. */
  function Shift(es: seq<Event>, k: int): (r: seq<Event>)
    ensures |r| == |es|
    ensures forall i :: 0 <= i < |es| ==> r[i] == Event(es[i].start + k, es[i].end + k, es[i].text)
  {
    seq(|es|, i requires 0 <= i < |es| => Event(es[i].start + k, es[i].end + k, es[i].text))
  }

  /** No event has a negative time. */
  predicate NonNegative(es: seq<Event>)
  {
    forall i :: 0 <= i < |es| ==> es[i].start >= 0 && es[i].end >= 0
  }

  // ---------------------------------------------------------------------
  // Character classes

  /** The characters the original runtime treats as whitespace (`\s` in its
      regular expressions, and what `strip()` removes). */
  predicate IsSpace(c: char)
  {
    ('\t' <= c <= '\r') || ('\U{1C}' <= c <= '\U{1F}') || c == ' ' ||
    c == '\U{85}' || c == '\U{A0}' || c == '\U{1680}' ||
    ('\U{2000}' <= c <= '\U{200A}') || c == '\U{2028}' || c == '\U{2029}' ||
    c == '\U{202F}' || c == '\U{205F}' || c == '\U{3000}'
  }

  /** The characters at which the runtime's `splitlines()` ends a line. */
  predicate IsLineBreak(c: char)
  {
    ('\n' <= c <= '\r') || ('\U{1C}' <= c <= '\U{1E}') ||
    c == '\U{85}' || c == '\U{2028}' || c == '\U{2029}'
  }

  lemma {:induction false} LineBreakIsSpace(c: char)
    requires IsLineBreak(c)
    ensures IsSpace(c)
  {
  }

  predicate NoSpace(s: string)
  {
    forall i {:trigger IsSpace(s[i])} :: 0 <= i < |s| ==> !IsSpace(s[i])
  }

  predicate NoLineBreak(s: string)
  {
    forall i {:trigger IsLineBreak(s[i])} :: 0 <= i < |s| ==> !IsLineBreak(s[i])
  }

  lemma {:induction false} NoLineBreakConcat(x: string, y: string)
    requires NoLineBreak(x) && NoLineBreak(y)
    ensures NoLineBreak(x + y)
  {
    forall i | 0 <= i < |x + y|
      ensures !IsLineBreak((x + y)[i])
    {
      if i < |x| {
        assert (x + y)[i] == x[i];
      } else {
        assert (x + y)[i] == y[i - |x|];
      }
    }
  }

  /** The non-whitespace characters of `s`, in order. */
  function Visible(s: string): (r: string)
    ensures NoSpace(r)
    ensures |r| <= |s|
  {
    if |s| == 0 then []
    else if IsSpace(s[0]) then Visible(s[1..])
    else [s[0]] + Visible(s[1..])
  }

  lemma {:induction false} VisibleAppend(a: string, b: string)
    ensures Visible(a + b) == Visible(a) + Visible(b)
  {
    if |a| == 0 {
      assert a + b == b;
    } else {
      assert (a + b)[1..] == a[1..] + b;
      VisibleAppend(a[1..], b);
    }
  }

  lemma {:induction false} VisibleOfNoSpace(s: string)
    requires NoSpace(s)
    ensures Visible(s) == s
  {
    if |s| > 0 {
      VisibleOfNoSpace(s[1..]);
    }
  }

  lemma {:induction false} VisibleOfAllSpace(s: string)
    requires forall i :: 0 <= i < |s| ==> IsSpace(s[i])
    ensures Visible(s) == []
  {
    if |s| > 0 {
      VisibleOfAllSpace(s[1..]);
    }
  }

  // ---------------------------------------------------------------------
  // Stripping

  /** `s.lstrip()`: drops the leading whitespace. */
  function TrimLeft(s: string): (r: string)
    ensures |r| <= |s|
    ensures r == [] || !IsSpace(r[0])
  {
    if |s| > 0 && IsSpace(s[0]) then TrimLeft(s[1..]) else s
  }

  /** What `lstrip()` removed is a whitespace prefix; the rest is kept. */
  lemma {:induction false} TrimLeftCut(s: string)
    ensures TrimLeft(s) == s[|s| - |TrimLeft(s)|..]
    ensures forall i :: 0 <= i < |s| - |TrimLeft(s)| ==> IsSpace(s[i])
  {
    if |s| > 0 && IsSpace(s[0]) {
      TrimLeftCut(s[1..]);
    }
  }

  /** `s.rstrip()`: drops the trailing whitespace. */
  function TrimRight(s: string): (r: string)
    ensures |r| <= |s|
    ensures r == [] || !IsSpace(r[|r| - 1])
  {
    if |s| > 0 && IsSpace(s[|s| - 1]) then TrimRight(s[..|s| - 1]) else s
  }

  /** What `rstrip()` removed is a whitespace suffix; the rest is kept. */
  lemma {:induction false} TrimRightCut(s: string)
    ensures TrimRight(s) == s[..|TrimRight(s)|]
    ensures forall i :: |TrimRight(s)| <= i < |s| ==> IsSpace(s[i])
  {
    if |s| > 0 && IsSpace(s[|s| - 1]) {
      TrimRightCut(s[..|s| - 1]);
    }
  }

  /** `s.strip()`. */
  function Trim(s: string): (r: string)
    ensures r == [] || (!IsSpace(r[0]) && !IsSpace(r[|r| - 1]))
    ensures |r| <= |s|
  {
    var l := TrimLeft(s);
    TrimRightCut(l);
    TrimRight(l)
  }

  /** Stripping only ever removes whitespace. */
  lemma {:induction false} TrimKeepsVisible(s: string)
    ensures Visible(Trim(s)) == Visible(s)
  {
    TrimLeftKeepsVisible(s);
    TrimRightKeepsVisible(TrimLeft(s));
  }

  lemma {:induction false} TrimLeftKeepsVisible(s: string)
    ensures Visible(TrimLeft(s)) == Visible(s)
  {
    var l := TrimLeft(s);
    TrimLeftCut(s);
    var cut := s[..|s| - |l|];
    assert s == cut + l;
    VisibleAppend(cut, l);
    VisibleOfAllSpace(cut);
  }

  lemma {:induction false} TrimRightKeepsVisible(s: string)
    ensures Visible(TrimRight(s)) == Visible(s)
  {
    var r := TrimRight(s);
    TrimRightCut(s);
    var cut := s[|r|..];
    assert s == r + cut;
    VisibleAppend(r, cut);
    VisibleOfAllSpace(cut);
  }

  lemma {:induction false} TrimOfTrimmed(s: string)
    requires s == [] || (!IsSpace(s[0]) && !IsSpace(s[|s| - 1]))
    ensures Trim(s) == s
  {
  }

  /** `s.lstrip(chars)`: drops leading characters that belong to `cs`. */
  function TrimLeftOf(s: string, cs: set<char>): (r: string)
    ensures |r| <= |s|
    ensures r == [] || r[0] !in cs
  {
    if |s| > 0 && s[0] in cs then TrimLeftOf(s[1..], cs) else s
  }

  /** What `lstrip(chars)` removed is a prefix drawn from `cs`. */
  lemma {:induction false} TrimLeftOfCut(s: string, cs: set<char>)
    ensures TrimLeftOf(s, cs) == s[|s| - |TrimLeftOf(s, cs)|..]
    ensures forall i :: 0 <= i < |s| - |TrimLeftOf(s, cs)| ==> s[i] in cs
  {
    if |s| > 0 && s[0] in cs {
      TrimLeftOfCut(s[1..], cs);
    }
  }

  // ---------------------------------------------------------------------
  // Splitting and joining

  /** The inverse of splitting: the parts glued with the separator. */
  function Join(parts: seq<string>, sep: char): string
  {
    if |parts| == 0 then []
    else if |parts| == 1 then parts[0]
    else parts[0] + [sep] + Join(parts[1..], sep)
  }

  /** `s.split(sep)`: every occurrence of `sep` ends a part. */
  function Split(s: string, sep: char): (parts: seq<string>)
    ensures |parts| >= 1
  {
    if |s| == 0 then [[]]
    else
      var rest := Split(s[1..], sep);
      if s[0] == sep then [[]] + rest else [[s[0]] + rest[0]] + rest[1..]
  }

  /** Splitting loses nothing: no part holds the separator, and gluing the
      parts back with it gives the original text. */
  lemma {:induction false} SplitJoin(s: string, sep: char)
    ensures forall k :: 0 <= k < |Split(s, sep)| ==> sep !in Split(s, sep)[k]
    ensures Join(Split(s, sep), sep) == s
  {
    if |s| > 0 {
      var rest := Split(s[1..], sep);
      SplitJoin(s[1..], sep);
      if s[0] != sep {
        assert Join([[s[0]] + rest[0]] + rest[1..], sep) == [s[0]] + Join(rest, sep);
      }
    }
  }

  lemma {:induction false} SplitWithoutSep(a: string, sep: char)
    requires sep !in a
    ensures Split(a, sep) == [a]
  {
    if |a| > 0 {
      assert sep !in a[1..];
      SplitWithoutSep(a[1..], sep);
      assert [a[0]] + a[1..] == a;
    }
  }

  /** A separator-free head becomes the first part. */
  lemma {:induction false} SplitAfterHead(a: string, sep: char, b: string)
    requires sep !in a
    ensures Split(a + [sep] + b, sep) == [a] + Split(b, sep)
  {
    var s := a + [sep] + b;
    if |a| == 0 {
      assert s[1..] == b;
    } else {
      assert s[1..] == a[1..] + [sep] + b;
      assert sep !in a[1..];
      SplitAfterHead(a[1..], sep, b);
      assert [a[0]] + a[1..] == a;
    }
  }

  /** `s.split(sep, n)`: at most `n` splits from the left when `n >= 0`,
      all of them when `n < 0`; the last part keeps the remaining
      separators. */
  function SplitAtMost(s: string, sep: char, n: int): (parts: seq<string>)
    ensures 1 <= |parts|
    ensures n >= 0 ==> |parts| <= n + 1
    decreases |s|
  {
    if n < 0 then Split(s, sep)
    else if n == 0 then [s]
    else if |s| == 0 then [[]]
    else if s[0] == sep then [[]] + SplitAtMost(s[1..], sep, n - 1)
    else
      var rest := SplitAtMost(s[1..], sep, n);
      [[s[0]] + rest[0]] + rest[1..]
  }

  /** Splitting at most `n` times loses nothing either. */
  lemma {:induction false} SplitAtMostJoin(s: string, sep: char, n: int)
    ensures Join(SplitAtMost(s, sep, n), sep) == s
    decreases |s|
  {
    if n < 0 {
      SplitJoin(s, sep);
    } else if n > 0 && |s| > 0 {
      if s[0] == sep {
        SplitAtMostJoin(s[1..], sep, n - 1);
        var rest := SplitAtMost(s[1..], sep, n - 1);
        assert SplitAtMost(s, sep, n) == [[]] + rest;
        JoinCons([], rest, sep);
      } else {
        var rest := SplitAtMost(s[1..], sep, n);
        SplitAtMostJoin(s[1..], sep, n);
        JoinHeadChar(s[0], rest, sep);
      }
    }
  }

  /** Only the last part may keep separators, and only once all `n` splits
      are used. */
  lemma {:induction false} SplitAtMostParts(s: string, sep: char, n: int)
    ensures forall k :: 0 <= k < |SplitAtMost(s, sep, n)| - 1 ==> sep !in SplitAtMost(s, sep, n)[k]
    ensures n < 0 || |SplitAtMost(s, sep, n)| <= n ==> sep !in SplitAtMost(s, sep, n)[|SplitAtMost(s, sep, n)| - 1]
    decreases |s|
  {
    if n < 0 {
      SplitJoin(s, sep);
    } else if n > 0 && |s| > 0 {
      if s[0] == sep {
        SplitAtMostParts(s[1..], sep, n - 1);
      } else {
        SplitAtMostParts(s[1..], sep, n);
      }
    }
  }

  lemma {:induction false} JoinCons(p: string, rest: seq<string>, sep: char)
    requires |rest| >= 1
    ensures Join([p] + rest, sep) == p + [sep] + Join(rest, sep)
  {
    assert ([p] + rest)[1..] == rest;
  }

  lemma {:induction false} JoinHeadChar(c: char, rest: seq<string>, sep: char)
    requires |rest| >= 1
    ensures Join([[c] + rest[0]] + rest[1..], sep) == [c] + Join(rest, sep)
  {
    if |rest| > 1 {
      assert ([[c] + rest[0]] + rest[1..])[1..] == rest[1..];
    }
  }

  /** `s.splitlines()`: line breaks end lines, `\r\n` counts as one, and a
      break at the very end does not open an empty last line. */
  function SplitLines(s: string): (lines: seq<string>)
    ensures forall k :: 0 <= k < |lines| ==> NoLineBreak(lines[k])
    decreases |s|
  {
    if |s| == 0 then []
    else if IsLineBreak(s[0]) then
      var skip := if s[0] == '\r' && |s| > 1 && s[1] == '\n' then 2 else 1;
      [[]] + SplitLines(s[skip..])
    else
      var rest := SplitLines(s[1..]);
      if |rest| == 0 then [[s[0]]] else [[s[0]] + rest[0]] + rest[1..]
  }

  /** Lines joined with `\n` split back into the same lines, as long as no
      line is empty and none holds a line break of its own. */
  lemma {:induction false} SplitLinesOfJoin(lines: seq<string>)
    requires forall k :: 0 <= k < |lines| ==> |lines[k]| > 0 && NoLineBreak(lines[k])
    ensures SplitLines(Join(lines, '\n')) == lines
    decreases |lines|, if |lines| == 0 then 0 else |lines[0]|
  {
    if |lines| == 0 {
    } else if |lines| == 1 {
      SplitLinesOfLine(lines[0]);
    } else {
      var l := lines[0];
      var rest := Join(lines[1..], '\n');
      assert Join(lines, '\n') == l + ['\n'] + rest;
      SplitLinesOfJoin(lines[1..]);
      SplitLinesPrefix(l, rest);
    }
  }

  lemma {:induction false} SplitLinesOfLine(l: string)
    requires |l| > 0 && NoLineBreak(l)
    ensures SplitLines(l) == [l]
  {
    assert !IsLineBreak(l[0]);
    if |l| == 1 {
      assert [l[0]] == l;
    } else {
      SplitLinesOfLine(l[1..]);
      assert [l[0]] + l[1..] == l;
    }
  }

  lemma {:induction false} SplitLinesPrefix(l: string, rest: string)
    requires |l| > 0 && NoLineBreak(l)
    ensures SplitLines(l + ['\n'] + rest) == [l] + SplitLines(rest)
  {
    var s := l + ['\n'] + rest;
    assert !IsLineBreak(s[0]);
    if |l| == 1 {
      assert s[1..] == ['\n'] + rest;
      assert (['\n'] + rest)[1..] == rest;
      assert SplitLines(s[1..]) == [[]] + SplitLines(rest);
      assert [s[0]] + [] == l;
    } else {
      assert s[1..] == l[1..] + ['\n'] + rest;
      assert !IsLineBreak(s[0]);
      SplitLinesPrefix(l[1..], rest);
      assert [l[0]] + l[1..] == l;
    }
  }

  // ---------------------------------------------------------------------
  // Searching and case

  /** `t in s` for strings: `t` occurs in `s` as a contiguous block. */
  predicate Contains(s: string, t: string)
    decreases |s|
  {
    |t| <= |s| && (s[..|t|] == t || Contains(s[1..], t))
  }

  lemma {:induction false} ContainsAt(s: string, t: string, i: nat)
    requires i + |t| <= |s| && s[i..i + |t|] == t
    ensures Contains(s, t)
    decreases i
  {
    if i > 0 {
      assert s[1..][i - 1..i - 1 + |t|] == s[i..i + |t|];
      ContainsAt(s[1..], t, i - 1);
    }
  }

  lemma {:induction false} ContainsWitness(s: string, t: string) returns (i: nat)
    requires Contains(s, t)
    ensures i + |t| <= |s| && s[i..i + |t|] == t
    decreases |s|
  {
    if s[..|t|] == t {
      i := 0;
    } else {
      var j := ContainsWitness(s[1..], t);
      i := j + 1;
      assert s[i..i + |t|] == s[1..][j..j + |t|];
    }
  }

  predicate StartsWith(s: string, prefix: string)
  {
    |prefix| <= |s| && s[..|prefix|] == prefix
  }

  function LowerChar(c: char): char
  {
    if 'A' <= c <= 'Z' then (c as int + 32) as char else c
  }

  /** `s.lower()` on the ASCII letters. */
  function Lower(s: string): (r: string)
    ensures |r| == |s|
    ensures forall i :: 0 <= i < |s| ==> r[i] == LowerChar(s[i])
  {
    seq(|s|, i requires 0 <= i < |s| => LowerChar(s[i]))
  }

  /** The concatenation of a sequence of sequences. */
  function Flatten<T>(xss: seq<seq<T>>): seq<T>
  {
    if |xss| == 0 then [] else xss[0] + Flatten(xss[1..])
  }

  lemma {:induction false} FlattenAppend<T>(a: seq<seq<T>>, b: seq<seq<T>>)
    ensures Flatten(a + b) == Flatten(a) + Flatten(b)
  {
    if |a| == 0 {
      assert a + b == b;
    } else {
      assert (a + b)[1..] == a[1..] + b;
      FlattenAppend(a[1..], b);
    }
  }
}
