/**
  Choosing the subtitle and audio streams of the video
  (`MediaProcessor.get_best_subtitle_track` and `get_best_audio_track` in
  src/media_utils.py). Each walks the probed streams, scores every stream of
  the wanted kind, and returns the first of the best-scored candidates as a
  stable descending sort would put it first.

  The probe itself is an input: `None` when the probe command or the
  decoding of its JSON output failed, otherwise the streams in probe order.
*/
module TrackSelection {
  import opened Common
  import opened Decimal

  /** A probed stream: its index, its `codec_type` and its tags. */
  datatype Stream = Stream(index: int, codecType: string, tags: map<string, string>)

  /** `tags.get(key, "")`. */
  function Tag(s: Stream, key: string): string
  {
    if key in s.tags then s.tags[key] else ""
  }

  /** A scored subtitle candidate. The score is exact: rounding of the
      floating-point `frames / 20` is not modelled. */
  datatype SubtitleTrack = SubtitleTrack(index: int, score: real, frames: int, lang: string, title: string)

  /** A scored audio candidate. */
  datatype AudioTrack = AudioTrack(index: int, score: int, lang: string, title: string)

  // ---------------------------------------------------------------------
  // Subtitle track

  /** The `NUMBER_OF_FRAMES` tag as an integer, 0 when absent or not a
      number. */
  function Frames(s: Stream): int
  {
    if "NUMBER_OF_FRAMES" in s.tags then
      match ParseInt(s.tags["NUMBER_OF_FRAMES"])
      case Some(n) => n
      case None => 0
    else 0
  }

  /** English first, then Japanese. */
  function SubtitleLanguageBonus(lang: string): int
  {
    if lang == "eng" || lang == "en" then 10
    else if lang == "jpn" || lang == "ja" then 5
    else 0
  }

  /** Full dialogue tracks up, signs and songs down. */
  function SubtitleTitleBonus(title: string): int
  {
    (if Contains(title, "dialogue") || Contains(title, "full") then 5 else 0) +
    (if Contains(title, "sign") || Contains(title, "song") then -10 else 0)
  }

  function SubtitleScore(lang: string, title: string, frames: int): real
  {
    (SubtitleLanguageBonus(lang) + SubtitleTitleBonus(title)) as real + frames as real / 20.0
  }

  /** The candidate built from a subtitle stream. */
  function SubtitleCandidate(s: Stream): SubtitleTrack
  {
    var lang := Lower(Tag(s, "language"));
    var title := Lower(Tag(s, "title"));
    var frames := Frames(s);
    SubtitleTrack(s.index, SubtitleScore(lang, title, frames), frames, lang, title)
  }

  /** The candidates of the subtitle streams, in probe order. */
  function SubtitleCandidates(ss: seq<Stream>): seq<SubtitleTrack>
  {
    if |ss| == 0 then []
    else
      SubtitleCandidates(ss[..|ss| - 1]) +
      (if ss[|ss| - 1].codecType == "subtitle" then [SubtitleCandidate(ss[|ss| - 1])] else [])
  }

  /** The head of the candidates sorted by descending score: a later
      candidate displaces an earlier one only with a strictly higher
      score. */
  function FirstBestSubtitle(cs: seq<SubtitleTrack>): SubtitleTrack
    requires |cs| > 0
  {
    if |cs| == 1 then cs[0]
    else
      var b := FirstBestSubtitle(cs[..|cs| - 1]);
      if cs[|cs| - 1].score > b.score then cs[|cs| - 1] else b
  }

  /** `get_best_subtitle_track`. */
  method SelectSubtitleTrack(probe: Option<seq<Stream>>) returns (best: Option<SubtitleTrack>)
    ensures probe.None? ==> best.None?
    ensures probe.Some? && |SubtitleCandidates(probe.value)| == 0 ==> best.None?
    ensures probe.Some? && |SubtitleCandidates(probe.value)| > 0 ==>
      best == Some(FirstBestSubtitle(SubtitleCandidates(probe.value)))
  {
    if probe.None? {
      return None;
    }
    var streams := probe.value;
    var candidates := [];
    for i := 0 to |streams|
      invariant candidates == SubtitleCandidates(streams[..i])
    {
      assert streams[..i + 1][..i] == streams[..i];
      var stream := streams[i];
      if stream.codecType == "subtitle" {
        var candidate := ScoreSubtitleStream(stream);
        candidates := candidates + [candidate];
      }
    }
    assert streams[..|streams|] == streams;
    if |candidates| == 0 {
      return None;
    }
    return Some(FirstBestSubtitle(candidates));
  }

  /** The body of the subtitle loop: the score built up tag by tag. */
  method ScoreSubtitleStream(stream: Stream) returns (c: SubtitleTrack)
    ensures c == SubtitleCandidate(stream)
  {
    var lang := Lower(Tag(stream, "language"));
    var title := Lower(Tag(stream, "title"));
    var frames := Frames(stream);
    var score := 0;
    if lang == "eng" || lang == "en" {
      score := score + 10;
    } else if lang == "jpn" || lang == "ja" {
      score := score + 5;
    }
    if Contains(title, "dialogue") || Contains(title, "full") {
      score := score + 5;
    }
    if Contains(title, "sign") || Contains(title, "song") {
      score := score - 10;
    }
    var total := score as real + frames as real / 20.0;
    c := SubtitleTrack(stream.index, total, frames, lang, title);
  }

  /** The chosen subtitle track is the first candidate of the highest
      score: none scores more, and every earlier one scores less. */
  lemma {:induction false} FirstBestSubtitleIsFirstMaximum(cs: seq<SubtitleTrack>) returns (i: nat)
    requires |cs| > 0
    ensures i < |cs| && cs[i] == FirstBestSubtitle(cs)
    ensures forall j :: 0 <= j < |cs| ==> cs[j].score <= cs[i].score
    ensures forall j :: 0 <= j < i ==> cs[j].score < cs[i].score
  {
    if |cs| == 1 {
      i := 0;
    } else {
      var p := cs[..|cs| - 1];
      var k := FirstBestSubtitleIsFirstMaximum(p);
      assert forall j :: 0 <= j < |p| ==> p[j] == cs[j];
      if cs[|cs| - 1].score > p[k].score {
        i := |cs| - 1;
      } else {
        i := k;
      }
    }
  }

  /** There is a subtitle candidate exactly when the probe lists a
      subtitle stream, and each candidate is scored from such a stream. */
  lemma {:induction false} SubtitleCandidatesOfStreams(ss: seq<Stream>)
    ensures |SubtitleCandidates(ss)| > 0 <==> exists i :: 0 <= i < |ss| && ss[i].codecType == "subtitle"
    ensures forall c :: c in SubtitleCandidates(ss) ==>
      exists i :: 0 <= i < |ss| && ss[i].codecType == "subtitle" && c == SubtitleCandidate(ss[i])
  {
    if |ss| > 0 {
      var p := ss[..|ss| - 1];
      SubtitleCandidatesOfStreams(p);
      assert forall i :: 0 <= i < |p| ==> p[i] == ss[i];
      if exists i :: 0 <= i < |ss| && ss[i].codecType == "subtitle" {
        var i :| 0 <= i < |ss| && ss[i].codecType == "subtitle";
        if i < |p| {
          assert p[i].codecType == "subtitle";
        }
      }
    }
  }

  /** An English track outscores a Japanese one with the same title and
      frame count, which outscores a track in any other language. */
  lemma {:induction false} LanguageOrder(title: string, frames: int, other: string)
    requires other != "eng" && other != "en" && other != "jpn" && other != "ja"
    ensures SubtitleScore("eng", title, frames) > SubtitleScore("jpn", title, frames) > SubtitleScore(other, title, frames)
  {
  }

  /** Frames count as much as the tags: a Japanese track with 400 more
      frames beats an English one with the same title. */
  lemma {:induction false} FramesOutweighLanguage(title: string, frames: int)
    ensures SubtitleScore("jpn", title, frames + 400) > SubtitleScore("eng", title, frames)
  {
  }

  // ---------------------------------------------------------------------
  // Audio track

  function AudioScore(lang: string, title: string): int
  {
    if lang == "jpn" || lang == "ja" then 10
    else if Contains(title, "japanese") then 5
    else 0
  }

  function AudioCandidate(s: Stream): AudioTrack
  {
    var lang := Lower(Tag(s, "language"));
    var title := Lower(Tag(s, "title"));
    AudioTrack(s.index, AudioScore(lang, title), lang, title)
  }

  /** The candidates of the audio streams, in probe order. */
  function AudioCandidates(ss: seq<Stream>): seq<AudioTrack>
  {
    if |ss| == 0 then []
    else
      AudioCandidates(ss[..|ss| - 1]) +
      (if ss[|ss| - 1].codecType == "audio" then [AudioCandidate(ss[|ss| - 1])] else [])
  }

  /** `a` sorts before `b` under the key `(score, -index)`, descending. */
  predicate Ahead(a: AudioTrack, b: AudioTrack)
  {
    a.score > b.score || (a.score == b.score && a.index < b.index)
  }

  /** The head of the candidates sorted by descending `(score, -index)`. */
  function FirstBestAudio(cs: seq<AudioTrack>): AudioTrack
    requires |cs| > 0
  {
    if |cs| == 1 then cs[0]
    else
      var b := FirstBestAudio(cs[..|cs| - 1]);
      if Ahead(cs[|cs| - 1], b) then cs[|cs| - 1] else b
  }

  /** `get_best_audio_track`. */
  method SelectAudioTrack(probe: Option<seq<Stream>>) returns (best: Option<AudioTrack>)
    ensures probe.None? ==> best.None?
    ensures probe.Some? && |AudioCandidates(probe.value)| == 0 ==> best.None?
    ensures probe.Some? && |AudioCandidates(probe.value)| > 0 ==>
      best == Some(FirstBestAudio(AudioCandidates(probe.value)))
  {
    if probe.None? {
      return None;
    }
    var streams := probe.value;
    var candidates := [];
    for i := 0 to |streams|
      invariant candidates == AudioCandidates(streams[..i])
    {
      assert streams[..i + 1][..i] == streams[..i];
      var stream := streams[i];
      if stream.codecType == "audio" {
        var lang := Lower(Tag(stream, "language"));
        var title := Lower(Tag(stream, "title"));
        var score := 0;
        if lang == "jpn" || lang == "ja" {
          score := score + 10;
        } else if Contains(title, "japanese") {
          score := score + 5;
        }
        candidates := candidates + [AudioTrack(stream.index, score, lang, title)];
      }
    }
    assert streams[..|streams|] == streams;
    if |candidates| == 0 {
      return None;
    }
    return Some(FirstBestAudio(candidates));
  }

  /** The chosen audio track has the highest score, the lowest index among
      the tracks of that score, and comes first among candidates equal to
      it on both. */
  lemma {:induction false} FirstBestAudioIsFirstMaximum(cs: seq<AudioTrack>) returns (i: nat)
    requires |cs| > 0
    ensures i < |cs| && cs[i] == FirstBestAudio(cs)
    ensures forall j :: 0 <= j < |cs| ==> !Ahead(cs[j], cs[i])
    ensures forall j :: 0 <= j < i ==> Ahead(cs[i], cs[j])
  {
    if |cs| == 1 {
      i := 0;
    } else {
      var p := cs[..|cs| - 1];
      var k := FirstBestAudioIsFirstMaximum(p);
      assert forall j :: 0 <= j < |p| ==> p[j] == cs[j];
      if Ahead(cs[|cs| - 1], p[k]) {
        i := |cs| - 1;
      } else {
        i := k;
      }
    }
  }

  /** There is an audio candidate exactly when the probe lists an audio
      stream. */
  lemma {:induction false} AudioCandidatesOfStreams(ss: seq<Stream>)
    ensures |AudioCandidates(ss)| > 0 <==> exists i :: 0 <= i < |ss| && ss[i].codecType == "audio"
  {
    if |ss| > 0 {
      var p := ss[..|ss| - 1];
      AudioCandidatesOfStreams(p);
      if exists i :: 0 <= i < |ss| && ss[i].codecType == "audio" {
        var i :| 0 <= i < |ss| && ss[i].codecType == "audio";
        if i < |p| {
          assert p[i].codecType == "audio";
        }
      }
    }
  }
}
