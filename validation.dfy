/**
  The plausibility check a parsed chunk must pass before it is accepted
  (`validate_chunk` in src/utils.py, called with its default thresholds):
  every cue lasts more than nothing and at most 10 seconds, and is read at
  no more than 25 and no fewer than 0.2 characters per second.

  The characters-per-second rates are compared by cross-multiplication on
  whole milliseconds: `len / (d / 1000) > 25` is `1000 * len > 25 * d` and
  `len / (d / 1000) < 0.2` is `5 * 1000 * len < d`.
*/
module Validation {
  import opened Common

  /** `max_duration`, in milliseconds. */
  const MaxDurationMs: nat := 10000
  /** `cps_threshold`: the most characters per second. */
  const MaxCps: nat := 25
  /** `min_cps_threshold` is 0.2, the inverse of 5 seconds per character. */
  const SecondsPerCharAtMinCps: nat := 5

  /** Why a cue is rejected, in the order the checks run. */
  datatype Rejection = NonPositiveDuration | TooLong | TooFast | TooSlow

  /** The first check a cue fails, or `None` when it passes them all. */
  function Check(e: Event): (r: Option<Rejection>)
  {
    var d := e.end - e.start;
    var n := |e.text|;
    if d <= 0 then Some(NonPositiveDuration)
    else if d > MaxDurationMs then Some(TooLong)
    else if 1000 * n > MaxCps * d then Some(TooFast)
    else if SecondsPerCharAtMinCps * 1000 * n < d then Some(TooSlow)
    else None
  }

  /** A cue of plausible timing: positive duration of at most 10 s, read at
      between 0.2 and 25 characters per second (both bounds allowed). */
  predicate Plausible(e: Event)
  {
    var d := e.end - e.start;
    0 < d <= MaxDurationMs && 1000 * |e.text| <= MaxCps * d && d <= SecondsPerCharAtMinCps * 1000 * |e.text|
  }

  /** Every cue of the chunk is plausible. */
  predicate Valid(subs: seq<Event>)
  {
    forall i :: 0 <= i < |subs| ==> Plausible(subs[i])
  }

  /** A cue fails some check exactly when it is not plausible. */
  lemma {:induction false} CheckPasses(e: Event)
    ensures Check(e).None? <==> Plausible(e)
  {
  }

  /** `validate_chunk`: the first failing cue ends the loop with `False`;
      a chunk whose every cue passes, the empty chunk included, gives
      `True`. */
  method ValidateChunk(subs: seq<Event>) returns (ok: bool)
    ensures ok <==> Valid(subs)
    ensures !ok ==> exists i :: 0 <= i < |subs| && Check(subs[i]).Some?
  {
    var i := 0;
    while i < |subs|
      invariant 0 <= i <= |subs|
      invariant forall j :: 0 <= j < i ==> Plausible(subs[j])
    {
      var sub := subs[i];
      var duration := sub.end - sub.start;
      if duration <= 0 {
        return false;
      }
      if duration > MaxDurationMs {
        return false;
      }
      var textLen := |sub.text|;
      if 1000 * textLen > MaxCps * duration {
        return false;
      }
      if SecondsPerCharAtMinCps * 1000 * textLen < duration {
        return false;
      }
      i := i + 1;
    }
    return true;
  }

  /** A chunk is valid exactly when both of its parts are. */
  lemma {:induction false} ValidAppend(a: seq<Event>, b: seq<Event>)
    ensures Valid(a + b) <==> Valid(a) && Valid(b)
  {
    if Valid(a) && Valid(b) {
      forall i | 0 <= i < |a + b|
        ensures Plausible((a + b)[i])
      {
        if i < |a| {
          assert (a + b)[i] == a[i];
        } else {
          assert (a + b)[i] == b[i - |a|];
        }
      }
    }
    if Valid(a + b) {
      forall i | 0 <= i < |a|
        ensures Plausible(a[i])
      {
        assert (a + b)[i] == a[i];
      }
      forall i | 0 <= i < |b|
        ensures Plausible(b[i])
      {
        assert (a + b)[|a| + i] == b[i];
      }
    }
  }

  /** Only durations and text lengths are checked: moving a chunk in time
      does not change its verdict. */
  lemma {:induction false} ValidShift(es: seq<Event>, k: int)
    ensures Valid(Shift(es, k)) <==> Valid(es)
  {
    var r := Shift(es, k);
    assert forall i :: 0 <= i < |es| ==> r[i].end - r[i].start == es[i].end - es[i].start && r[i].text == es[i].text;
  }

  /** At 1000 ms, 25 characters are read at the limit and pass; 26 are
      too fast. */
  lemma CpsBoundary(t25: string, t26: string)
    requires |t25| == 25 && |t26| == 26
    ensures Plausible(Event(0, 1000, t25))
    ensures Check(Event(0, 1000, t26)) == Some(TooFast)
  {
  }

  /** Ten seconds is the longest a cue may last. */
  lemma DurationBoundary(t: string)
    requires 2 <= |t| <= 250
    ensures Plausible(Event(0, 10000, t))
    ensures Check(Event(0, 10001, t)) == Some(TooLong)
  {
  }
}
