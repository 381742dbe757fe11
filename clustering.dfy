/**
  Grouping the English cues into transcription chunks (`group_events` in
  src/media_utils.py; main.py has the same loop with a fixed 60-second
  target). Cues are taken in order; a cue opens a new chunk when the chunk
  would otherwise last longer than the target and the silence before the
  cue is longer than two seconds.

  Durations are compared in whole milliseconds: `(x / 1000.0) > target` is
  `x > target * 1000`.
*/
module Clustering {
  import opened Common

  /** `MAX_GAP_SECONDS`, in milliseconds. */
  const MaxGapMs: int := 2000

  /** `curr` (following `prev`) opens a new chunk after the chunk that
      started with `first`. */
  predicate Splits(first: Event, prev: Event, curr: Event, targetSeconds: int)
  {
    curr.end - first.start > targetSeconds * 1000 && curr.start - prev.end > MaxGapMs
  }

  /** The chunks of `es`, built cue by cue. */
  function Group(es: seq<Event>, targetSeconds: int): (cs: seq<seq<Event>>)
    ensures |cs| == 0 <==> |es| == 0
    ensures forall k :: 0 <= k < |cs| ==> |cs[k]| > 0
  {
    if |es| == 0 then []
    else if |es| == 1 then [[es[0]]]
    else
      var cs := Group(es[..|es| - 1], targetSeconds);
      var last := cs[|cs| - 1];
      var curr := es[|es| - 1];
      if Splits(last[0], es[|es| - 2], curr, targetSeconds) then cs + [[curr]]
      else cs[..|cs| - 1] + [last + [curr]]
  }

  /** `group_events`. */
  method GroupEvents(events: seq<Event>, targetSeconds: int) returns (clusters: seq<seq<Event>>)
    ensures clusters == Group(events, targetSeconds)
  {
    clusters := [];
    if |events| == 0 {
      return;
    }
    var current := [events[0]];
    assert events[..1] == [events[0]];
    for i := 1 to |events|
      invariant |current| > 0
      invariant clusters + [current] == Group(events[..i], targetSeconds)
    {
      var prev := events[i - 1];
      var curr := events[i];
      var gap := curr.start - prev.end;
      var duration := curr.end - current[0].start;
      if duration > targetSeconds * 1000 && gap > MaxGapMs {
        GroupOpens(events, i, targetSeconds, clusters, current);
        clusters := clusters + [current];
        current := [curr];
      } else {
        GroupJoins(events, i, targetSeconds, clusters, current);
        current := current + [curr];
      }
    }
    clusters := clusters + [current];
    assert events[..|events|] == events;
  }

  /** A cue that meets the split test opens a chunk of its own. */
  lemma {:induction false} GroupOpens(es: seq<Event>, i: nat, t: int, init: seq<seq<Event>>, last: seq<Event>)
    requires 1 <= i < |es| && |last| > 0 && init + [last] == Group(es[..i], t)
    requires Splits(last[0], es[i - 1], es[i], t)
    ensures Group(es[..i + 1], t) == init + [last] + [[es[i]]]
  {
    var p := es[..i + 1];
    assert p[..|p| - 1] == es[..i] && p[|p| - 1] == es[i] && p[|p| - 2] == es[i - 1];
  }

  /** Any other cue joins the last chunk. */
  lemma {:induction false} GroupJoins(es: seq<Event>, i: nat, t: int, init: seq<seq<Event>>, last: seq<Event>)
    requires 1 <= i < |es| && |last| > 0 && init + [last] == Group(es[..i], t)
    requires !Splits(last[0], es[i - 1], es[i], t)
    ensures Group(es[..i + 1], t) == init + [last + [es[i]]]
  {
    var p := es[..i + 1];
    assert p[..|p| - 1] == es[..i] && p[|p| - 1] == es[i] && p[|p| - 2] == es[i - 1];
    var cs := init + [last];
    assert cs[..|cs| - 1] == init && cs[|cs| - 1] == last;
    GroupJoinsLast(p, t);
  }

  lemma {:induction false} GroupJoinsLast(p: seq<Event>, t: int)
    requires |p| >= 2
    requires var cs := Group(p[..|p| - 1], t); !Splits(cs[|cs| - 1][0], p[|p| - 2], p[|p| - 1], t)
    ensures var cs := Group(p[..|p| - 1], t); Group(p, t) == cs[..|cs| - 1] + [cs[|cs| - 1] + [p[|p| - 1]]]
  {
  }

  // ---------------------------------------------------------------------
  // What grouping promises

  /** The last cue is at the end of the last chunk. */
  lemma {:induction false} GroupLast(es: seq<Event>, t: int)
    requires |es| > 0
    ensures var cs := Group(es, t); cs[|cs| - 1][|cs[|cs| - 1]| - 1] == es[|es| - 1]
  {
  }

  /** Grouping is a partition: the chunks, in order, are the cues. */
  lemma {:induction false} GroupPartition(es: seq<Event>, t: int)
    ensures Flatten(Group(es, t)) == es
  {
    if |es| == 1 {
      assert Flatten([[es[0]]]) == [es[0]] + Flatten<Event>([]);
    } else if |es| > 1 {
      var p := es[..|es| - 1];
      GroupPartition(p, t);
      FlattenAddCue(Group(p, t), es[|es| - 1]);
      assert p + [es[|es| - 1]] == es;
    }
  }

  /** Adding a cue as a chunk of its own, or at the end of the last chunk,
      adds it at the end of the cues. */
  lemma {:induction false} FlattenAddCue(cs: seq<seq<Event>>, c: Event)
    requires |cs| > 0
    ensures Flatten(cs + [[c]]) == Flatten(cs) + [c]
    ensures Flatten(cs[..|cs| - 1] + [cs[|cs| - 1] + [c]]) == Flatten(cs) + [c]
  {
    var init := cs[..|cs| - 1];
    var last := cs[|cs| - 1];
    assert cs == init + [last];
    FlattenAppend(init, [last]);
    FlattenOne(last);
    FlattenAppend(cs, [[c]]);
    FlattenOne([c]);
    FlattenAppend(init, [last + [c]]);
    FlattenOne(last + [c]);
  }

  lemma {:induction false} FlattenOne<T>(x: seq<T>)
    ensures Flatten([x]) == x
  {
    assert [x][1..] == [];
  }

  /** The rule every chunking of the cues obeys: chunks are non-empty, no
      cue inside a chunk meets the split test, and every chunk after the
      first opens with a cue that does. */
  predicate Chunked(cs: seq<seq<Event>>, t: int)
  {
    (forall k :: 0 <= k < |cs| ==> |cs[k]| > 0) &&
    (forall k, j :: 0 <= k < |cs| && 0 < j < |cs[k]| ==> !Splits(cs[k][0], cs[k][j - 1], cs[k][j], t)) &&
    (forall k :: 0 < k < |cs| ==> OpensChunk(cs[k - 1], cs[k], t))
  }

  /** `next` starts with a cue that splits it from `before`. */
  predicate OpensChunk(before: seq<Event>, next: seq<Event>, t: int)
  {
    |before| > 0 && |next| > 0 && Splits(before[0], before[|before| - 1], next[0], t)
  }

  /** Grouping follows the rule. */
  lemma {:induction false} GroupChunked(es: seq<Event>, t: int)
    ensures Chunked(Group(es, t), t)
  {
    if |es| > 1 {
      var p := es[..|es| - 1];
      var cs := Group(p, t);
      GroupChunked(p, t);
      GroupLast(p, t);
      var curr := es[|es| - 1];
      assert p[|p| - 1] == es[|es| - 2];
      if Splits(cs[|cs| - 1][0], es[|es| - 2], curr, t) {
        ChunkedOpen(cs, curr, t);
      } else {
        ChunkedExtend(cs, curr, t);
      }
    }
  }

  lemma {:induction false} ChunkedOpen(cs: seq<seq<Event>>, c: Event, t: int)
    requires Chunked(cs, t) && |cs| > 0
    requires OpensChunk(cs[|cs| - 1], [c], t)
    ensures Chunked(cs + [[c]], t)
  {
    var r := cs + [[c]];
    assert forall k :: 0 <= k < |cs| ==> r[k] == cs[k];
  }

  lemma {:induction false} ChunkedExtend(cs: seq<seq<Event>>, c: Event, t: int)
    requires Chunked(cs, t) && |cs| > 0
    requires var last := cs[|cs| - 1]; !Splits(last[0], last[|last| - 1], c, t)
    ensures Chunked(cs[..|cs| - 1] + [cs[|cs| - 1] + [c]], t)
  {
    var last := cs[|cs| - 1];
    var r := cs[..|cs| - 1] + [last + [c]];
    assert forall k :: 0 <= k < |cs| - 1 ==> r[k] == cs[k];
    assert r[|cs| - 1] == last + [c];
    forall k, j | 0 <= k < |r| && 0 < j < |r[k]|
      ensures !Splits(r[k][0], r[k][j - 1], r[k][j], t)
    {
      if k == |cs| - 1 && j < |last| {
        assert r[k][j] == last[j] && r[k][j - 1] == last[j - 1] && r[k][0] == last[0];
      }
    }
    forall k | 0 < k < |r|
      ensures OpensChunk(r[k - 1], r[k], t)
    {
      assert OpensChunk(cs[k - 1], cs[k], t);
      if k == |cs| - 1 {
        assert r[k][0] == cs[k][0];
      }
    }
  }

  /** Grouping is the only chunking of the cues that follows the rule. */
  lemma {:induction false} ChunkedIsGroup(cs: seq<seq<Event>>, es: seq<Event>, t: int)
    requires Chunked(cs, t) && Flatten(cs) == es
    ensures cs == Group(es, t)
    decreases |es|
  {
    if |cs| > 0 {
      var init := cs[..|cs| - 1];
      var last := cs[|cs| - 1];
      if |last| == 1 && |init| == 0 {
        FlattenLast(cs);
        assert init == [] && Flatten(init) == [];
        assert es == last && last == [es[0]];
        assert cs == [last];
      } else if |last| == 1 {
        InitChunked(cs, es, t);
        ChunkedIsGroup(init, es[..|es| - 1], t);
        FlattenLast(cs);
        ChunkedLastOpens(cs, t);
        OpenedIsGroup(cs, es, t);
      } else {
        var cs' := init + [last[..|last| - 1]];
        ShortenedChunked(cs, es, t);
        ChunkedIsGroup(cs', es[..|es| - 1], t);
        FlattenLast(cs);
        ChunkedLastJoins(cs, t);
        ExtendedIsGroup(cs, es, t);
      }
    }
  }

  /** The chunks before a one-cue last chunk are a chunking of the cues
      before the last. */
  lemma {:induction false} InitChunked(cs: seq<seq<Event>>, es: seq<Event>, t: int)
    requires Chunked(cs, t) && Flatten(cs) == es
    requires |cs| > 1 && |cs[|cs| - 1]| == 1
    ensures |es| > 0 && Chunked(cs[..|cs| - 1], t) && Flatten(cs[..|cs| - 1]) == es[..|es| - 1]
  {
    var init := cs[..|cs| - 1];
    FlattenLast(cs);
    ChunkedPrefix(cs, t);
    NonEmptyFlatten(init);
  }

  /** Without the last cue of a last chunk of two or more, the chunks are a
      chunking of the cues before the last. */
  lemma {:induction false} ShortenedChunked(cs: seq<seq<Event>>, es: seq<Event>, t: int)
    requires Chunked(cs, t) && Flatten(cs) == es
    requires |cs| > 0 && |cs[|cs| - 1]| > 1
    ensures var last := cs[|cs| - 1]; var cs' := cs[..|cs| - 1] + [last[..|last| - 1]];
      |es| > 0 && Chunked(cs', t) && Flatten(cs') == es[..|es| - 1]
  {
    var init := cs[..|cs| - 1];
    var last := cs[|cs| - 1];
    var cs' := init + [last[..|last| - 1]];
    FlattenLast(cs);
    ChunkedDropLast(cs, t);
    FlattenLast(cs');
    assert cs'[..|cs'| - 1] == init;
    assert last[..|last| - 1] + [last[|last| - 1]] == last;
  }

  lemma {:induction false} FlattenLast<T>(cs: seq<seq<T>>)
    requires |cs| > 0
    ensures Flatten(cs) == Flatten(cs[..|cs| - 1]) + cs[|cs| - 1]
  {
    assert cs == cs[..|cs| - 1] + [cs[|cs| - 1]];
    FlattenAppend(cs[..|cs| - 1], [cs[|cs| - 1]]);
    FlattenOne(cs[|cs| - 1]);
  }

  lemma {:induction false} ChunkedPrefix(cs: seq<seq<Event>>, t: int)
    requires Chunked(cs, t) && |cs| > 0
    ensures Chunked(cs[..|cs| - 1], t)
  {
    var init := cs[..|cs| - 1];
    assert forall k :: 0 <= k < |init| ==> init[k] == cs[k];
  }

  /** The last chunk holds only the last cue, which passed the split test. */
  lemma {:induction false} OpenedIsGroup(cs: seq<seq<Event>>, es: seq<Event>, t: int)
    requires |cs| > 1 && |cs[|cs| - 1]| == 1 && OpensChunk(cs[|cs| - 2], cs[|cs| - 1], t)
    requires es == Flatten(cs[..|cs| - 1]) + cs[|cs| - 1]
    requires cs[..|cs| - 1] == Group(es[..|es| - 1], t)
    ensures cs == Group(es, t)
  {
    var init := cs[..|cs| - 1];
    var p := es[..|es| - 1];
    LastOne(Flatten(init), cs[|cs| - 1], es);
    GroupLast(p, t);
    assert es[|es| - 2] == p[|p| - 1];
    GroupOpensAt(es, t, init);
    RebuiltOne(cs);
  }

  /** `p + [x]` is `p` followed by `x`. */
  lemma {:induction false} LastOne<T>(p: seq<T>, q: seq<T>, s: seq<T>)
    requires s == p + q && |q| == 1
    ensures |s| > 0 && s[..|s| - 1] == p && s[|s| - 1] == q[0]
  {
  }

  /** The grouping of all the cues, when the last one opens a chunk after
      the grouping of the cues before it. */
  lemma {:induction false} GroupOpensAt(es: seq<Event>, t: int, init: seq<seq<Event>>)
    requires |es| > 1 && |init| > 0 && init == Group(es[..|es| - 1], t)
    requires Splits(init[|init| - 1][0], es[|es| - 2], es[|es| - 1], t)
    ensures Group(es, t) == init + [[es[|es| - 1]]]
  {
  }

  /** A sequence whose last sequence has one element is its front, then
      that element alone. */
  lemma {:induction false} RebuiltOne<T>(cs: seq<seq<T>>)
    requires |cs| > 0 && |cs[|cs| - 1]| == 1
    ensures cs == cs[..|cs| - 1] + [[cs[|cs| - 1][0]]]
  {
    assert [cs[|cs| - 1][0]] == cs[|cs| - 1];
  }

  /** In a chunking, the last chunk opens after the one before it. */
  lemma {:induction false} ChunkedLastOpens(cs: seq<seq<Event>>, t: int)
    requires Chunked(cs, t) && |cs| > 1
    ensures OpensChunk(cs[|cs| - 2], cs[|cs| - 1], t)
  {
    var k := |cs| - 1;
    assert 0 < k < |cs|;
  }

  /** The last chunk grew by the last cue, which failed the split test. */
  lemma {:induction false} ExtendedIsGroup(cs: seq<seq<Event>>, es: seq<Event>, t: int)
    requires |cs| > 0 && |cs[|cs| - 1]| > 1
    requires var last := cs[|cs| - 1]; !Splits(last[0], last[|last| - 2], last[|last| - 1], t)
    requires es == Flatten(cs[..|cs| - 1]) + cs[|cs| - 1]
    requires var last := cs[|cs| - 1]; cs[..|cs| - 1] + [last[..|last| - 1]] == Group(es[..|es| - 1], t)
    ensures cs == Group(es, t)
  {
    var init := cs[..|cs| - 1];
    var last := cs[|cs| - 1];
    var short := last[..|last| - 1];
    LastTwo(Flatten(init), last, es);
    GroupJoinsAt(es, t, init, short);
    Rebuilt(cs);
  }

  /** A sequence of non-empty sequences is its front, then its last
      sequence's front with its last element put back. */
  lemma {:induction false} Rebuilt<T>(cs: seq<seq<T>>)
    requires |cs| > 0 && |cs[|cs| - 1]| > 0
    ensures var last := cs[|cs| - 1];
      cs == cs[..|cs| - 1] + [last[..|last| - 1] + [last[|last| - 1]]]
  {
    var last := cs[|cs| - 1];
    assert last[..|last| - 1] + [last[|last| - 1]] == last;
  }

  /** The last two elements of `p + q` are those of `q`. */
  lemma {:induction false} LastTwo<T>(p: seq<T>, q: seq<T>, s: seq<T>)
    requires s == p + q && |q| >= 2
    ensures |s| >= 2 && s[|s| - 2] == q[|q| - 2] && s[|s| - 1] == q[|q| - 1]
  {
  }

  /** The grouping of all the cues, when the last one joins the last chunk
      of the grouping of the cues before it. */
  lemma {:induction false} GroupJoinsAt(es: seq<Event>, t: int, init: seq<seq<Event>>, last: seq<Event>)
    requires |es| > 1 && |last| > 0 && init + [last] == Group(es[..|es| - 1], t)
    requires !Splits(last[0], es[|es| - 2], es[|es| - 1], t)
    ensures Group(es, t) == init + [last + [es[|es| - 1]]]
  {
    GroupJoins(es, |es| - 1, t, init, last);
    assert es[..|es|] == es;
  }

  /** In a chunking, the last cue of a last chunk of two or more cues does
      not split from the one before it. */
  lemma {:induction false} ChunkedLastJoins(cs: seq<seq<Event>>, t: int)
    requires Chunked(cs, t) && |cs| > 0 && |cs[|cs| - 1]| > 1
    ensures var last := cs[|cs| - 1]; !Splits(last[0], last[|last| - 2], last[|last| - 1], t)
  {
    var k, j := |cs| - 1, |cs[|cs| - 1]| - 1;
    assert 0 <= k < |cs| && 0 < j < |cs[k]|;
  }

  lemma {:induction false} NonEmptyFlatten(cs: seq<seq<Event>>)
    requires |cs| > 0 && forall k :: 0 <= k < |cs| ==> |cs[k]| > 0
    ensures |Flatten(cs)| > 0
  {
  }

  /** Dropping the last cue of a chunking of two or more cues in its last
      chunk keeps the rule. */
  lemma {:induction false} ChunkedDropLast(cs: seq<seq<Event>>, t: int)
    requires Chunked(cs, t) && |cs| > 0 && |cs[|cs| - 1]| > 1
    ensures var last := cs[|cs| - 1]; Chunked(cs[..|cs| - 1] + [last[..|last| - 1]], t)
  {
    var last := cs[|cs| - 1];
    var short := last[..|last| - 1];
    var r := cs[..|cs| - 1] + [short];
    assert forall k :: 0 <= k < |cs| - 1 ==> r[k] == cs[k];
    forall k, j | 0 <= k < |r| && 0 < j < |r[k]|
      ensures !Splits(r[k][0], r[k][j - 1], r[k][j], t)
    {
      if k == |cs| - 1 {
        assert r[k][j] == last[j] && r[k][j - 1] == last[j - 1] && r[k][0] == last[0];
      }
    }
    forall k | 0 < k < |r|
      ensures OpensChunk(r[k - 1], r[k], t)
    {
      assert OpensChunk(cs[k - 1], cs[k], t);
      if k == |cs| - 1 {
        assert r[k][0] == cs[k][0];
      }
    }
  }

  /** Two cues four seconds apart, the second ending six seconds after the
      first starts, make two chunks when the target is one second and one
      chunk when it is ten. */
  lemma {:induction false} SplitExample(a: Event, b: Event)
    requires a == Event(0, 1000, "Hello") && b == Event(5000, 6000, "Bye")
    ensures Group([a, b], 1) == [[a], [b]]
    ensures Group([a, b], 10) == [[a, b]]
  {
    assert [a, b][..1] == [a];
    assert Group([a], 10) == [[a]];
    assert !Splits(a, a, b, 10);
    assert [a] + [b] == [a, b];
    assert [[a]][..0] == [];
  }
}
