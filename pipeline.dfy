/**
  The job that turns a video's English subtitle track into a Japanese one
  (`SubtitleJob` in src/core.py): pick the tracks, keep the dialogue cues,
  group them into chunks, transcribe chunk by chunk through a file cache
  with a bounded number of attempts, and write the accepted subtitles as
  SRT.

  The outside world is an input. The stream probe and the decoded
  subtitle track are parameters of `Run`. The cache directory is a map from
  cache path to file contents. Each trip to the transcription service (one
  per attempt that misses the cache) has its outcome given by the oracle
  `world`, indexed by the number of contexts sent so far.
*/
module Pipeline {
  import opened Common
  import opened Transcript
  import opened Validation
  import opened ChunkContext
  import opened CachePaths
  import opened CueFilter
  import opened Clustering
  import opened TrackSelection
  import opened SrtWriter

  /** What one trip for a chunk that is not cached turns into. */
  datatype Fetch =
    | AudioFailed                    // cutting the chunk's audio raised
    | ServiceFailed(rateLimited: bool) // the transcriber raised, rate limit or otherwise
    | WriteFailed                    // the answer came back, writing it to the cache raised
    | Fetched(raw: string)           // the answer, written to the cache

  /** The job's settings: the video, the chunk target in seconds, the
      optional chunk limit, the attempts per chunk, the audio padding in
      milliseconds and the transcription oracle. */
  datatype JobConfig = JobConfig(
    video: string, chunkSize: int, limit: Option<int>,
    maxRetries: nat, padding: nat, world: nat -> Fetch)

  /** The part of the job's state the chunk loop changes. */
  datatype JobState = JobState(
    finalSubs: seq<Event>, stop: bool, cache: map<string, string>, sent: seq<string>)

  /** What the attempts for one chunk leave behind. */
  datatype Outcome = Outcome(
    result: Option<seq<Event>>, cache: map<string, string>, sent: seq<string>, stop: bool)

  // ---------------------------------------------------------------------
  // One chunk

  /** The padded start of a chunk's audio, never before 0. */
  function PaddedStart(cluster: seq<Event>, padding: nat): int
    requires |cluster| > 0
  {
    if cluster[0].start - padding > 0 then cluster[0].start - padding else 0
  }

  /** The padded end of a chunk's audio. */
  function PaddedEnd(cluster: seq<Event>, padding: nat): int
    requires |cluster| > 0
  {
    cluster[|cluster| - 1].end + padding
  }

  /** The padded range holds the first cue's start and the last cue's end
      with `padding` to spare, cut at 0 on the left, and is no wider than
      their span plus twice the padding. */
  lemma {:induction false} PaddedRange(cluster: seq<Event>, padding: nat)
    requires |cluster| > 0
    ensures var s, e := PaddedStart(cluster, padding), PaddedEnd(cluster, padding);
      s >= 0 && (cluster[0].start >= 0 ==> s <= cluster[0].start) &&
      (s == 0 || s == cluster[0].start - padding) &&
      (cluster[0].start >= padding ==> s == cluster[0].start - padding) &&
      e - padding == cluster[|cluster| - 1].end &&
      e - s <= cluster[|cluster| - 1].end - cluster[0].start + 2 * padding
  {
  }

  /** The attempts left for a chunk, `n` of them: with the chunk's cache
      path `key`, the context `ctx` sent with each trip, and the reader
      `read` of its answers. */
  function Attempts(world: nat -> Fetch, n: nat, key: string, ctx: string, read: string -> seq<Event>,
                    cache: map<string, string>, sent: seq<string>): Outcome
    decreases n, 1
  {
    if n == 0 then Outcome(None, cache, sent, false)
    else if key in cache then Judge(world, n, key, ctx, read, cache[key], cache, sent)
    else
      match world(|sent|)
      case AudioFailed => Outcome(None, cache, sent, true)
      case ServiceFailed(_) => Outcome(None, cache, sent + [ctx], true)
      case WriteFailed => Outcome(None, cache, sent + [ctx], true)
      case Fetched(raw) => Judge(world, n, key, ctx, read, raw, cache[key := raw], sent + [ctx])
  }

  /** An attempt's answer `raw`: an empty one is skipped, a valid one is
      the chunk's result, an invalid one loses its cache file. */
  function Judge(world: nat -> Fetch, n: nat, key: string, ctx: string, read: string -> seq<Event>, raw: string,
                 cache: map<string, string>, sent: seq<string>): Outcome
    requires n > 0
    decreases n, 0
  {
    if raw == [] then Attempts(world, n - 1, key, ctx, read, cache, sent)
    else
      var subs := read(raw);
      if Valid(subs) then Outcome(Some(subs), cache, sent, false)
      else Attempts(world, n - 1, key, ctx, read, cache - {key}, sent)
  }

  /** An attempt with a cached answer judges that answer. */
  lemma {:induction false} AttemptCached(world: nat -> Fetch, n: nat, key: string, ctx: string,
                                         read: string -> seq<Event>, cache: map<string, string>, sent: seq<string>)
    requires n > 0 && key in cache
    ensures Attempts(world, n, key, ctx, read, cache, sent) == Judge(world, n, key, ctx, read, cache[key], cache, sent)
  {
  }

  /** An attempt whose trip fails stops the job; the context counts as sent
      once the audio was cut. */
  lemma {:induction false} AttemptFailed(world: nat -> Fetch, n: nat, key: string, ctx: string,
                                         read: string -> seq<Event>, cache: map<string, string>, sent: seq<string>)
    requires n > 0 && key !in cache && !world(|sent|).Fetched?
    ensures Attempts(world, n, key, ctx, read, cache, sent) ==
      Outcome(None, cache, if world(|sent|).AudioFailed? then sent else sent + [ctx], true)
  {
  }

  /** An attempt whose trip brings an answer caches and judges it. */
  lemma {:induction false} AttemptFetched(world: nat -> Fetch, n: nat, key: string, ctx: string,
                                          read: string -> seq<Event>, cache: map<string, string>, sent: seq<string>)
    requires n > 0 && key !in cache && world(|sent|).Fetched?
    ensures var raw := world(|sent|).raw;
      Attempts(world, n, key, ctx, read, cache, sent) ==
        Judge(world, n, key, ctx, read, raw, cache[key := raw], sent + [ctx])
  {
  }

  /** An empty answer is passed over. */
  lemma {:induction false} JudgeEmpty(world: nat -> Fetch, n: nat, key: string, ctx: string,
                                      read: string -> seq<Event>, cache: map<string, string>, sent: seq<string>)
    requires n > 0
    ensures Judge(world, n, key, ctx, read, [], cache, sent) == Attempts(world, n - 1, key, ctx, read, cache, sent)
  {
  }

  /** A non-empty answer is accepted when valid, or loses its cache file. */
  lemma {:induction false} JudgeAnswer(world: nat -> Fetch, n: nat, key: string, ctx: string,
                                       read: string -> seq<Event>, raw: string,
                                       cache: map<string, string>, sent: seq<string>)
    requires n > 0 && raw != []
    ensures Judge(world, n, key, ctx, read, raw, cache, sent) ==
      if Valid(read(raw)) then Outcome(Some(read(raw)), cache, sent, false)
      else Attempts(world, n - 1, key, ctx, read, cache - {key}, sent)
  {
  }

  /** `parse_timestamps(raw, base)`: answer times are relative to the
      chunk's padded start `base`. */
  function Reader(base: int): string -> seq<Event>
  {
    raw => ParseTranscript(raw, base, Current)
  }

  /** All the attempts for a chunk. */
  function ChunkOutcome(cfg: JobConfig, cluster: seq<Event>, cache: map<string, string>, sent: seq<string>): Outcome
    requires |cluster| > 0
  {
    var start := PaddedStart(cluster, cfg.padding);
    var end := PaddedEnd(cluster, cfg.padding);
    Attempts(cfg.world, cfg.maxRetries, CachePath(cfg.video, start, end),
             Context(cluster, start), Reader(start), cache, sent)
  }

  /** The attempts of a chunk, with its padded start and cache path named. */
  lemma {:induction false} ChunkOutcomeIsAttempts(cfg: JobConfig, cluster: seq<Event>, cache: map<string, string>,
                                                  sent: seq<string>, start: int, key: string)
    requires |cluster| > 0
    requires start == PaddedStart(cluster, cfg.padding)
    requires key == CachePath(cfg.video, start, PaddedEnd(cluster, cfg.padding))
    ensures ChunkOutcome(cfg, cluster, cache, sent) ==
      Attempts(cfg.world, cfg.maxRetries, key, Context(cluster, start), Reader(start), cache, sent)
  {
  }

  /** `n` copies of the context `ctx`. */
  function Repeat(ctx: string, n: nat): (r: seq<string>)
    ensures |r| == n && forall j :: 0 <= j < n ==> r[j] == ctx
  {
    seq(n, _ => ctx)
  }

  /** What the attempts can do: every trip sends the chunk's context and
      there are at most `n` of them; only the chunk's own cache file
      changes; an accepted result is valid, is read from the answer that
      stays cached for the chunk, and does not stop the job; a stopped
      chunk has no result. */
  lemma {:induction false} AttemptsShape(world: nat -> Fetch, n: nat, key: string, ctx: string, read: string -> seq<Event>,
                                         cache: map<string, string>, sent: seq<string>)
    ensures var o := Attempts(world, n, key, ctx, read, cache, sent);
      |sent| <= |o.sent| <= |sent| + n && o.sent == sent + Repeat(ctx, |o.sent| - |sent|) &&
      o.cache - {key} == cache - {key} &&
      (o.result.Some? ==>
        !o.stop && key in o.cache && o.cache[key] != [] &&
        o.result.value == read(o.cache[key]) && Valid(o.result.value)) &&
      (o.stop ==> o.result.None?)
    decreases n
  {
    if n > 0 {
      var c, s := cache, sent;
      var raw := [];
      if key in cache {
        raw := cache[key];
      } else {
        match world(|sent|)
        case Fetched(r) =>
          raw := r;
          c, s := cache[key := r], sent + [ctx];
          assert s == sent + Repeat(ctx, 1);
        case _ =>
          assert sent + [ctx] == sent + Repeat(ctx, 1);
          return;
      }
      assert Attempts(world, n, key, ctx, read, cache, sent) == Judge(world, n, key, ctx, read, raw, c, s);
      assert c - {key} == cache - {key};
      if raw == [] {
        AttemptsShape(world, n - 1, key, ctx, read, c, s);
        RepeatAfter(sent, s, ctx, Attempts(world, n - 1, key, ctx, read, c, s).sent);
      } else if !Valid(read(raw)) {
        AttemptsShape(world, n - 1, key, ctx, read, c - {key}, s);
        assert c - {key} - {key} == c - {key};
        RepeatAfter(sent, s, ctx, Attempts(world, n - 1, key, ctx, read, c - {key}, s).sent);
      } else {
        assert s == sent + Repeat(ctx, |s| - |sent|);
      }
    } else {
      assert sent == sent + Repeat(ctx, 0);
    }
  }

  /** Copies of `ctx` after copies of `ctx` are copies of `ctx`. */
  lemma {:induction false} RepeatAfter(a: seq<string>, b: seq<string>, ctx: string, c: seq<string>)
    requires |a| <= |b| <= |c|
    requires b == a + Repeat(ctx, |b| - |a|) && c == b + Repeat(ctx, |c| - |b|)
    ensures c == a + Repeat(ctx, |c| - |a|)
  {
    assert forall j :: 0 <= j < |c| ==> c[j] == (a + Repeat(ctx, |c| - |a|))[j] by {
      forall j | 0 <= j < |c|
        ensures c[j] == (a + Repeat(ctx, |c| - |a|))[j]
      {
        if j < |b| {
          assert c[j] == b[j];
        }
      }
    }
  }

  /** A chunk every one of whose `n` trips brings back a non-empty answer
      that fails validation costs exactly `n` trips, each sending the
      chunk's context; its cache file is removed after each rejection, so
      none is left, and the job goes on. */
  lemma {:induction false} AllRejected(world: nat -> Fetch, n: nat, key: string, ctx: string, read: string -> seq<Event>,
                                       cache: map<string, string>, sent: seq<string>)
    requires key !in cache
    requires forall j :: |sent| <= j < |sent| + n ==>
      world(j).Fetched? && world(j).raw != [] && !Valid(read(world(j).raw))
    ensures Attempts(world, n, key, ctx, read, cache, sent) == Outcome(None, cache, sent + Repeat(ctx, n), false)
    decreases n
  {
    if n == 0 {
      assert sent + Repeat(ctx, 0) == sent;
    } else {
      var raw := world(|sent|).raw;
      assert world(|sent|).Fetched? && raw != [] && !Valid(read(raw));
      var c := cache[key := raw];
      assert c - {key} == cache;
      AllRejected(world, n - 1, key, ctx, read, cache, sent + [ctx]);
      assert sent + [ctx] + Repeat(ctx, n - 1) == sent + Repeat(ctx, n);
    }
  }

  /** When `r` trips are rejected and the next one raises, the chunk stops
      the job with no result: `r` contexts are sent, one more when the
      error came from the transcriber or the cache write, and the chunk's
      cache file is gone. */
  lemma {:induction false} StopAfterRejections(world: nat -> Fetch, n: nat, r: nat, key: string, ctx: string, read: string -> seq<Event>,
                                               cache: map<string, string>, sent: seq<string>)
    requires r < n && key !in cache
    requires forall j :: |sent| <= j < |sent| + r ==>
      world(j).Fetched? && world(j).raw != [] && !Valid(read(world(j).raw))
    requires !world(|sent| + r).Fetched?
    ensures Attempts(world, n, key, ctx, read, cache, sent) ==
      Outcome(None, cache, sent + Repeat(ctx, if world(|sent| + r).AudioFailed? then r else r + 1), true)
    decreases r
  {
    if r == 0 {
      assert sent + Repeat(ctx, 0) == sent;
      assert sent + Repeat(ctx, 1) == sent + [ctx];
    } else {
      var raw := world(|sent|).raw;
      assert world(|sent|).Fetched? && raw != [] && !Valid(read(raw));
      assert cache[key := raw] - {key} == cache;
      StopAfterRejections(world, n - 1, r - 1, key, ctx, read, cache, sent + [ctx]);
      var k := if world(|sent| + r).AudioFailed? then r else r + 1;
      assert sent + [ctx] + Repeat(ctx, k - 1) == sent + Repeat(ctx, k);
    }
  }

  /** A cached answer that is non-empty and valid is the chunk's result at
      once: nothing is sent and the cache stays as it is. */
  lemma {:induction false} CachedAccepted(world: nat -> Fetch, n: nat, key: string, ctx: string, read: string -> seq<Event>,
                                          cache: map<string, string>, sent: seq<string>)
    requires n > 0 && key in cache && cache[key] != []
    requires Valid(read(cache[key]))
    ensures Attempts(world, n, key, ctx, read, cache, sent) ==
      Outcome(Some(read(cache[key])), cache, sent, false)
  {
  }

  /** An empty answer is cached and never removed: the first trip sends
      the context, the remaining attempts read the empty file, and the
      chunk has no result without stopping the job. */
  lemma {:induction false} EmptyAnswer(world: nat -> Fetch, n: nat, key: string, ctx: string, read: string -> seq<Event>,
                                       cache: map<string, string>, sent: seq<string>)
    requires n > 0 && key !in cache && world(|sent|) == Fetched([])
    ensures Attempts(world, n, key, ctx, read, cache, sent) == Outcome(None, cache[key := []], sent + [ctx], false)
  {
    EmptyCached(world, n - 1, key, ctx, read, cache[key := []], sent + [ctx]);
  }

  lemma {:induction false} EmptyCached(world: nat -> Fetch, n: nat, key: string, ctx: string, read: string -> seq<Event>,
                                       cache: map<string, string>, sent: seq<string>)
    requires key in cache && cache[key] == []
    ensures Attempts(world, n, key, ctx, read, cache, sent) == Outcome(None, cache, sent, false)
    decreases n
  {
    if n > 0 {
      EmptyCached(world, n - 1, key, ctx, read, cache, sent);
    }
  }

  // ---------------------------------------------------------------------
  // The chunk loop

  /** The loop stops before chunk `i`: the job was stopped, or the limit
      is reached. */
  predicate Halted(limit: Option<int>, st: JobState, i: int)
  {
    st.stop || (limit.Some? && i >= limit.value)
  }

  /** One chunk: its attempts, and a non-empty result appended. (Clusters
      are never empty; an empty one would change nothing.) */
  function ChunkStep(cfg: JobConfig, st: JobState, cluster: seq<Event>): JobState
  {
    if |cluster| == 0 then st
    else Applied(st, ChunkOutcome(cfg, cluster, st.cache, st.sent))
  }

  /** The state after a chunk with outcome `o`: its cache and contexts,
      the stop flag raised when `o` raises it, and its result appended. */
  function Applied(st: JobState, o: Outcome): JobState
  {
    JobState(Extended(st.finalSubs, o.result), st.stop || o.stop, o.cache, o.sent)
  }

  /** `if chunk_subs: final_subs.extend(chunk_subs)`. */
  function Extended(subs: seq<Event>, chunkSubs: Option<seq<Event>>): seq<Event>
  {
    if chunkSubs.Some? && |chunkSubs.value| > 0 then subs + chunkSubs.value else subs
  }

  /** The chunk loop of `run` with the chunk step `step`: chunk `i` is
      skipped once the loop halts before it. */
  function Loop(limit: Option<int>, step: (JobState, seq<Event>) -> JobState,
                st: JobState, clusters: seq<seq<Event>>): JobState
  {
    if |clusters| == 0 then st
    else
      var n := |clusters| - 1;
      var prev := Loop(limit, step, st, clusters[..n]);
      if Halted(limit, prev, n) then prev else step(prev, clusters[n])
  }

  function StepOf(cfg: JobConfig): (JobState, seq<Event>) -> JobState
  {
    (st, cluster) => ChunkStep(cfg, st, cluster)
  }

  /** The chunk loop over `clusters` from the state `st`. */
  function Chunks(cfg: JobConfig, st: JobState, clusters: seq<seq<Event>>): JobState
  {
    Loop(cfg.limit, StepOf(cfg), st, clusters)
  }

  /** Once the loop halts before chunk `i`, no later chunk changes
      anything: nothing more is sent, cached or appended. */
  lemma {:induction false} LoopHalted(limit: Option<int>, step: (JobState, seq<Event>) -> JobState,
                                      st: JobState, clusters: seq<seq<Event>>, i: nat, j: nat)
    requires i <= j <= |clusters|
    requires Halted(limit, Loop(limit, step, st, clusters[..i]), i)
    ensures Loop(limit, step, st, clusters[..j]) == Loop(limit, step, st, clusters[..i])
    decreases j
  {
    if j > i {
      LoopHalted(limit, step, st, clusters, i, j - 1);
      assert clusters[..j][..j - 1] == clusters[..j - 1];
    }
  }

  /** A stop ends the run: when the job is stopped after chunk `i`, the
      remaining chunks are not processed. */
  lemma {:induction false} NothingAfterStop(limit: Option<int>, step: (JobState, seq<Event>) -> JobState,
                                            st: JobState, clusters: seq<seq<Event>>, i: nat)
    requires i <= |clusters|
    requires Loop(limit, step, st, clusters[..i]).stop
    ensures Loop(limit, step, st, clusters) == Loop(limit, step, st, clusters[..i])
  {
    LoopHalted(limit, step, st, clusters, i, |clusters|);
    assert clusters[..|clusters|] == clusters;
  }

  /** With a limit of `l` chunks, only the first `l` clusters are
      processed. */
  lemma {:induction false} WithinLimit(l: int, step: (JobState, seq<Event>) -> JobState,
                                       st: JobState, clusters: seq<seq<Event>>)
    requires 0 <= l <= |clusters|
    ensures Loop(Some(l), step, st, clusters) == Loop(Some(l), step, st, clusters[..l])
  {
    LoopHalted(Some(l), step, st, clusters, l, |clusters|);
    assert clusters[..|clusters|] == clusters;
  }

  /** `b` follows `a` by appending only: the subtitles of `a` stay first and
      what is added passed validation and has no negative time; the
      contexts of `a` stay first; a stopped job stays stopped. */
  predicate Appends(a: JobState, b: JobState)
  {
    |a.finalSubs| <= |b.finalSubs| && b.finalSubs[..|a.finalSubs|] == a.finalSubs &&
    Valid(b.finalSubs[|a.finalSubs|..]) && NonNegative(b.finalSubs[|a.finalSubs|..]) &&
    |a.sent| <= |b.sent| && b.sent[..|a.sent|] == a.sent &&
    (a.stop ==> b.stop)
  }

  lemma {:induction false} AppendsTrans(a: JobState, b: JobState, c: JobState)
    requires Appends(a, b) && Appends(b, c)
    ensures Appends(a, c)
  {
    var x := b.finalSubs[|a.finalSubs|..];
    var y := c.finalSubs[|b.finalSubs|..];
    assert c.finalSubs[|a.finalSubs|..] == x + y;
    ValidAppend(x, y);
    NonNegativeAppend(x, y);
  }

  /** A loop whose every step only appends only appends. */
  lemma {:induction false} LoopAppends(limit: Option<int>, step: (JobState, seq<Event>) -> JobState,
                                       st: JobState, clusters: seq<seq<Event>>)
    requires forall s: JobState, c: seq<Event> :: Appends(s, step(s, c))
    ensures Appends(st, Loop(limit, step, st, clusters))
    decreases |clusters|
  {
    if |clusters| == 0 {
      assert st.finalSubs[|st.finalSubs|..] == [];
    } else {
      var n := |clusters| - 1;
      var prev := Loop(limit, step, st, clusters[..n]);
      LoopAppends(limit, step, st, clusters[..n]);
      if !Halted(limit, prev, n) {
        AppendsTrans(st, prev, step(prev, clusters[n]));
      }
    }
  }

  /** One chunk only appends valid subtitles with no negative time, and
      only adds contexts. */
  lemma {:induction false} StepAppends(cfg: JobConfig, st: JobState, cluster: seq<Event>)
    ensures Appends(st, ChunkStep(cfg, st, cluster))
  {
    if |cluster| == 0 {
      assert st.finalSubs[|st.finalSubs|..] == [];
    } else {
      var start := PaddedStart(cluster, cfg.padding);
      var key := CachePath(cfg.video, start, PaddedEnd(cluster, cfg.padding));
      var ctx := Context(cluster, start);
      var o := ChunkOutcome(cfg, cluster, st.cache, st.sent);
      ChunkOutcomeIsAttempts(cfg, cluster, st.cache, st.sent, start, key);
      AttemptsShape(cfg.world, cfg.maxRetries, key, ctx, Reader(start), st.cache, st.sent);
      if o.result.Some? {
        ParseTranscriptFrom(o.cache[key], start, Current);
      }
      OutcomeAppends(st, o);
      ChunkStepOf(cfg, st, cluster, o);
    }
  }

  /** A state extended by an outcome whose result is valid and has no
      negative time, and whose contexts extend the state's, only appends. */
  lemma {:induction false} OutcomeAppends(st: JobState, o: Outcome)
    requires o.result.Some? ==> Valid(o.result.value) && NonNegative(o.result.value)
    requires |st.sent| <= |o.sent| && o.sent[..|st.sent|] == st.sent
    ensures Appends(st, Applied(st, o))
  {
    if o.result.Some? && |o.result.value| > 0 {
      assert (st.finalSubs + o.result.value)[|st.finalSubs|..] == o.result.value;
    } else {
      assert st.finalSubs[|st.finalSubs|..] == [];
    }
  }

  /** The chunk loop of a job only appends. */
  lemma {:induction false} ChunksAppend(cfg: JobConfig, st: JobState, clusters: seq<seq<Event>>)
    ensures Appends(st, Chunks(cfg, st, clusters))
  {
    var step := StepOf(cfg);
    forall s: JobState, c: seq<Event>
      ensures Appends(s, step(s, c))
    {
      StepAppends(cfg, s, c);
    }
    LoopAppends(cfg.limit, step, st, clusters);
  }

  /** The first chunk of a loop that has not halted is processed. */
  lemma {:induction false} LoopFirst(limit: Option<int>, step: (JobState, seq<Event>) -> JobState,
                                     st: JobState, clusters: seq<seq<Event>>)
    requires |clusters| > 0 && !Halted(limit, st, 0)
    ensures Loop(limit, step, st, clusters[..1]) == step(st, clusters[0])
  {
    assert clusters[..1][..0] == [];
  }

  /** A transcription error on the first chunk ends the run after one
      trip: the job is stopped, one context is sent, nothing is added and
      the cache is as it was. */
  lemma {:induction false} FirstChunkErrorStops(cfg: JobConfig, st: JobState, clusters: seq<seq<Event>>)
    requires |clusters| > 0 && |clusters[0]| > 0
    requires !st.stop && cfg.maxRetries > 0 && (cfg.limit.None? || cfg.limit.value > 0)
    requires CachePath(cfg.video, PaddedStart(clusters[0], cfg.padding), PaddedEnd(clusters[0], cfg.padding)) !in st.cache
    requires cfg.world(|st.sent|).ServiceFailed?
    ensures var r := Chunks(cfg, st, clusters);
      r.stop && r.finalSubs == st.finalSubs && r.cache == st.cache &&
      r.sent == st.sent + [Context(clusters[0], PaddedStart(clusters[0], cfg.padding))]
  {
    ErrorStep(cfg, st, clusters[0]);
    assert StepOf(cfg)(st, clusters[0]) == ChunkStep(cfg, st, clusters[0]);
    LoopFirst(cfg.limit, StepOf(cfg), st, clusters);
    NothingAfterStop(cfg.limit, StepOf(cfg), st, clusters, 1);
  }

  lemma {:induction false} ErrorStep(cfg: JobConfig, st: JobState, c: seq<Event>)
    requires |c| > 0 && cfg.maxRetries > 0
    requires CachePath(cfg.video, PaddedStart(c, cfg.padding), PaddedEnd(c, cfg.padding)) !in st.cache
    requires cfg.world(|st.sent|).ServiceFailed?
    ensures ChunkStep(cfg, st, c) == JobState(st.finalSubs, true, st.cache, st.sent + [Context(c, PaddedStart(c, cfg.padding))])
  {
    var o := Outcome(None, st.cache, st.sent + [Context(c, PaddedStart(c, cfg.padding))], true);
    ErrorOutcome(cfg, c, st.cache, st.sent);
    ChunkStepOf(cfg, st, c, o);
    AppliedNothing(st, o);
  }

  /** An outcome without subtitles adds nothing to the state. */
  lemma {:induction false} AppliedNothing(st: JobState, o: Outcome)
    requires o.result.None?
    ensures Applied(st, o) == JobState(st.finalSubs, st.stop || o.stop, o.cache, o.sent)
  {
  }

  /** The outcome of a chunk whose first trip fails at the service. */
  lemma {:induction false} ErrorOutcome(cfg: JobConfig, c: seq<Event>, cache: map<string, string>, sent: seq<string>)
    requires |c| > 0 && cfg.maxRetries > 0
    requires CachePath(cfg.video, PaddedStart(c, cfg.padding), PaddedEnd(c, cfg.padding)) !in cache
    requires cfg.world(|sent|).ServiceFailed?
    ensures ChunkOutcome(cfg, c, cache, sent) == Outcome(None, cache, sent + [Context(c, PaddedStart(c, cfg.padding))], true)
  {
    var start := PaddedStart(c, cfg.padding);
    var key := CachePath(cfg.video, start, PaddedEnd(c, cfg.padding));
    AttemptFailed(cfg.world, cfg.maxRetries, key, Context(c, start), Reader(start), cache, sent);
    ChunkOutcomeIsAttempts(cfg, c, cache, sent, start, key);
  }

  /** A single chunk whose every trip is rejected by validation costs
      exactly `maxRetries` trips, adds nothing, leaves the cache as it was,
      and the job goes on. */
  lemma {:induction false} RetriesExhausted(cfg: JobConfig, st: JobState, cluster: seq<Event>)
    requires |cluster| > 0 && !st.stop && (cfg.limit.None? || cfg.limit.value > 0)
    requires CachePath(cfg.video, PaddedStart(cluster, cfg.padding), PaddedEnd(cluster, cfg.padding)) !in st.cache
    requires forall j :: |st.sent| <= j < |st.sent| + cfg.maxRetries ==>
      cfg.world(j).Fetched? && cfg.world(j).raw != [] &&
      !Valid(ParseTranscript(cfg.world(j).raw, PaddedStart(cluster, cfg.padding), Current))
    ensures var r := Chunks(cfg, st, [cluster]);
      !r.stop && r.finalSubs == st.finalSubs && r.cache == st.cache &&
      |r.sent| == |st.sent| + cfg.maxRetries
  {
    var step := StepOf(cfg);
    LoopSingle(cfg.limit, step, st, cluster);
    RejectedStep(cfg, st, cluster);
  }

  /** A loop over one chunk that does not halt first runs that chunk. */
  lemma {:induction false} LoopSingle(limit: Option<int>, step: (JobState, seq<Event>) -> JobState,
                                      st: JobState, cluster: seq<Event>)
    requires !Halted(limit, st, 0)
    ensures Loop(limit, step, st, [cluster]) == step(st, cluster)
  {
    LoopFirst(limit, step, st, [cluster]);
    assert [cluster][..1] == [cluster];
  }

  /** The chunk step of a chunk whose every trip is rejected. */
  lemma {:induction false} RejectedStep(cfg: JobConfig, st: JobState, cluster: seq<Event>)
    requires |cluster| > 0
    requires CachePath(cfg.video, PaddedStart(cluster, cfg.padding), PaddedEnd(cluster, cfg.padding)) !in st.cache
    requires forall j :: |st.sent| <= j < |st.sent| + cfg.maxRetries ==>
      cfg.world(j).Fetched? && cfg.world(j).raw != [] &&
      !Valid(ParseTranscript(cfg.world(j).raw, PaddedStart(cluster, cfg.padding), Current))
    ensures var r := StepOf(cfg)(st, cluster);
      r.stop == st.stop && r.finalSubs == st.finalSubs && r.cache == st.cache &&
      |r.sent| == |st.sent| + cfg.maxRetries
  {
    RejectedOutcome(cfg, cluster, st.cache, st.sent);
    assert StepOf(cfg)(st, cluster) == ChunkStep(cfg, st, cluster);
  }

  /** The attempts of a chunk whose every trip is rejected. */
  lemma {:induction false} RejectedOutcome(cfg: JobConfig, cluster: seq<Event>, cache: map<string, string>,
                                           sent: seq<string>)
    requires |cluster| > 0
    requires CachePath(cfg.video, PaddedStart(cluster, cfg.padding), PaddedEnd(cluster, cfg.padding)) !in cache
    requires forall j :: |sent| <= j < |sent| + cfg.maxRetries ==>
      cfg.world(j).Fetched? && cfg.world(j).raw != [] &&
      !Valid(ParseTranscript(cfg.world(j).raw, PaddedStart(cluster, cfg.padding), Current))
    ensures ChunkOutcome(cfg, cluster, cache, sent) ==
      Outcome(None, cache, sent + Repeat(Context(cluster, PaddedStart(cluster, cfg.padding)), cfg.maxRetries), false)
  {
    var start := PaddedStart(cluster, cfg.padding);
    var key := CachePath(cfg.video, start, PaddedEnd(cluster, cfg.padding));
    var read := Reader(start);
    assert forall j :: |sent| <= j < |sent| + cfg.maxRetries ==> !Valid(read(cfg.world(j).raw));
    AllRejected(cfg.world, cfg.maxRetries, key, Context(cluster, start), read, cache, sent);
  }

  // ---------------------------------------------------------------------
  // The job

  class SubtitleJob {
    const video: string
    const chunkSize: int
    const limit: Option<int>
    const maxRetries: nat
    const padding: nat
    const world: nat -> Fetch

    /** The subtitles accepted so far, in chunk order. */
    var finalSubs: seq<Event>
    var stopRequested: bool
    /** The cache directory: cache path to file contents. */
    var cache: map<string, string>
    /** The contexts sent to the transcription service, in order. */
    var sent: seq<string>
    /** The SRT text written to the output file, if one was written. */
    var srt: Option<string>

    function Config(): JobConfig
    {
      JobConfig(video, chunkSize, limit, maxRetries, padding, world)
    }

    function State(): JobState
      reads this
    {
      JobState(finalSubs, stopRequested, cache, sent)
    }

    /** A new job over a cache directory as found on disk. */
    constructor(video: string, chunkSize: int, limit: Option<int>, maxRetries: nat, padding: nat,
                world: nat -> Fetch, cache: map<string, string>)
      ensures this.video == video && this.chunkSize == chunkSize && this.limit == limit
      ensures this.maxRetries == maxRetries && this.padding == padding && this.world == world
      ensures finalSubs == [] && !stopRequested && this.cache == cache && sent == [] && srt == None
    {
      this.video := video;
      this.chunkSize := chunkSize;
      this.limit := limit;
      this.maxRetries := maxRetries;
      this.padding := padding;
      this.world := world;
      finalSubs := [];
      stopRequested := false;
      this.cache := cache;
      sent := [];
      srt := None;
    }

    /** `_process_chunk`: the chunk's audio range, padded by `padding` on
        both sides, names its cache file; then the attempts. */
    method ProcessChunk(cluster: seq<Event>) returns (chunkSubs: Option<seq<Event>>)
      requires |cluster| > 0
      modifies this
      ensures var o := ChunkOutcome(Config(), cluster, old(cache), old(sent));
        chunkSubs == o.result && cache == o.cache && sent == o.sent &&
        stopRequested == (old(stopRequested) || o.stop)
      ensures finalSubs == old(finalSubs) && srt == old(srt)
    {
      var startMs := if cluster[0].start - padding > 0 then cluster[0].start - padding else 0;
      var endMs := cluster[|cluster| - 1].end + padding;
      var cachePath := CachePath(video, startMs, endMs);
      ChunkOutcomeIsAttempts(Config(), cluster, cache, sent, startMs, cachePath);
      chunkSubs := AttemptLoop(cluster, startMs, cachePath, Context(cluster, startMs));
    }

    /** The attempt loop of `_process_chunk`: up to `maxRetries` attempts,
        each reading the chunk's cache file or, when there is none, making
        one trip and caching its answer; an error stops the job. The
        context `ctx` is the one built from `cluster` and `startMs`. */
    method AttemptLoop(cluster: seq<Event>, startMs: int, cachePath: string, ctx: string)
      returns (chunkSubs: Option<seq<Event>>)
      modifies this
      ensures var o := Attempts(world, maxRetries, cachePath, ctx, Reader(startMs), old(cache), old(sent));
        chunkSubs == o.result && cache == o.cache && sent == o.sent &&
        stopRequested == (old(stopRequested) || o.stop)
      ensures finalSubs == old(finalSubs) && srt == old(srt)
    {
      var files, trips, stop;
      chunkSubs, files, trips, stop := RunAttempts(startMs, cachePath, ctx, cache, sent);
      cache, sent := files, trips;
      stopRequested := stopRequested || stop;
    }

    /** The loop itself, over the cache directory `files0` and the
        contexts `trips0` sent so far: its result, cache, contexts and stop
        flag are the outcome of the attempts. */
    method RunAttempts(startMs: int, cachePath: string, ctx: string, files0: map<string, string>, trips0: seq<string>)
      returns (chunkSubs: Option<seq<Event>>, files: map<string, string>, trips: seq<string>, stop: bool)
      ensures Outcome(chunkSubs, files, trips, stop) ==
        Attempts(world, maxRetries, cachePath, ctx, Reader(startMs), files0, trips0)
    {
      ghost var total := Attempts(world, maxRetries, cachePath, ctx, Reader(startMs), files0, trips0);
      files, trips := files0, trips0;
      stop := false;
      chunkSubs := None;
      var attempt := 0;
      while attempt < maxRetries
        invariant 0 <= attempt <= maxRetries
        invariant Attempts(world, maxRetries - attempt, cachePath, ctx, Reader(startMs), files, trips) == total
        invariant chunkSubs.None? && !stop
      {
        var more;
        files, trips, chunkSubs, stop, more := Attempt(maxRetries - attempt, cachePath, ctx, startMs, files, trips);
        if !more {
          return;
        }
        attempt := attempt + 1;
      }
    }

    /** One turn of the attempt loop, `n` attempts being left: read the
        chunk's cache file or make one trip and cache its answer, then judge
        the answer. `more` says whether the loop goes on to the next
        attempt. */
    method Attempt(n: nat, cachePath: string, ctx: string, startMs: int,
                   files0: map<string, string>, trips0: seq<string>)
      returns (files: map<string, string>, trips: seq<string>, chunkSubs: Option<seq<Event>>, stop: bool, more: bool)
      requires n > 0
      ensures more ==> chunkSubs.None? && !stop
      ensures more ==>
        Attempts(world, n, cachePath, ctx, Reader(startMs), files0, trips0) ==
        Attempts(world, n - 1, cachePath, ctx, Reader(startMs), files, trips)
      ensures !more ==>
        Attempts(world, n, cachePath, ctx, Reader(startMs), files0, trips0) == Outcome(chunkSubs, files, trips, stop)
    {
      ghost var read := Reader(startMs);
      files, trips, chunkSubs, stop, more := files0, trips0, None, false, true;
      var rawText: string;
      if cachePath in files {
        AttemptCached(world, n, cachePath, ctx, read, files, trips);
        rawText := files[cachePath];
      } else {
        var fetched := world(|trips|);
        if fetched.AudioFailed? {
          AttemptFailed(world, n, cachePath, ctx, read, files, trips);
          stop, more := true, false;
          return;
        }
        trips := trips + [ctx];
        if fetched.ServiceFailed? || fetched.WriteFailed? {
          AttemptFailed(world, n, cachePath, ctx, read, files, trips0);
          stop, more := true, false;
          return;
        }
        AttemptFetched(world, n, cachePath, ctx, read, files, trips0);
        rawText := fetched.raw;
        files := files[cachePath := rawText];
      }
      if rawText == [] {
        JudgeEmpty(world, n, cachePath, ctx, read, files, trips);
      } else {
        JudgeAnswer(world, n, cachePath, ctx, read, rawText, files, trips);
        var subs := ParseTimestamps(rawText, startMs, Current);
        assert subs == read(rawText);
        var ok := ValidateChunk(subs);
        if ok {
          chunkSubs, more := Some(subs), false;
          return;
        }
        files := files - {cachePath};
      }
    }

    /** `run`: no subtitle track, no work; otherwise the dialogue cues are
        grouped into chunks, the chunks are processed in order until the
        job is stopped or the limit is reached, and the SRT is written when
        some subtitle was accepted. */
    method Run(probe: Option<seq<Stream>>, loaded: Option<seq<AssEvent>>)
      requires NonNegative(finalSubs)
      modifies this
      ensures NonNegative(finalSubs)
      ensures probe.None? || |SubtitleCandidates(probe.value)| == 0 ==>
        State() == old(State()) && srt == old(srt)
      ensures probe.Some? && |SubtitleCandidates(probe.value)| > 0 ==>
        var events := if loaded.Some? then Dialogue(loaded.value) else [];
        var r := Chunks(Config(), old(State()), Group(events, chunkSize));
        State() == r &&
        srt == (if |r.finalSubs| > 0 then Some(Blocks(r.finalSubs, 1)) else old(srt))
    {
      var bestSub := SelectSubtitleTrack(probe);
      if bestSub.None? {
        return;
      }
      var bestAudio := SelectAudioTrack(probe);
      var events, stats := GetDialogue(loaded);
      var clusters := GroupEvents(events, chunkSize);
      ProcessClusters(clusters);
      if |finalSubs| > 0 {
        SaveSrt();
      }
    }

    /** The chunk loop of `run`: stop when the job is stopped or the limit
        is reached, otherwise process the chunk and append its subtitles. */
    method ProcessClusters(clusters: seq<seq<Event>>)
      requires forall k :: 0 <= k < |clusters| ==> |clusters[k]| > 0
      requires NonNegative(finalSubs)
      modifies this
      ensures State() == Loop(limit, StepOf(Config()), old(State()), clusters)
      ensures NonNegative(finalSubs) && srt == old(srt)
    {
      ghost var st := State();
      ghost var step := StepOf(Config());
      assert clusters[..0] == [];
      for i := 0 to |clusters|
        invariant State() == Loop(limit, step, st, clusters[..i])
        invariant srt == old(srt)
        invariant NonNegative(finalSubs)
      {
        assert clusters[..i + 1][..i] == clusters[..i];
        if stopRequested || (limit.Some? && i >= limit.value) {
          LoopHalted(limit, step, st, clusters, i, |clusters|);
          assert clusters[..|clusters|] == clusters;
          return;
        }
        ghost var before := State();
        StepKeepsNonNegative(Config(), before, clusters[i]);
        ProcessAndAppend(clusters[i]);
        assert State() == step(before, clusters[i]);
      }
      assert clusters[..|clusters|] == clusters;
    }

    /** One turn of the chunk loop: process the chunk, and append its
        subtitles when it has some. */
    method ProcessAndAppend(cluster: seq<Event>)
      requires |cluster| > 0
      modifies this
      ensures State() == ChunkStep(Config(), old(State()), cluster)
      ensures srt == old(srt)
    {
      ChunkStepOf(Config(), State(), cluster, ChunkOutcome(Config(), cluster, cache, sent));
      var chunkSubs := ProcessChunk(cluster);
      finalSubs := Extended(finalSubs, chunkSubs);
    }

    /** `_save_srt`: the output file holds the SRT blocks of `finalSubs`. */
    method SaveSrt()
      requires NonNegative(finalSubs)
      modifies this
      ensures srt == Some(Blocks(finalSubs, 1))
      ensures State() == old(State())
    {
      var text := RenderSrt(finalSubs);
      srt := Some(text);
    }
  }

  /** A chunk step in terms of the chunk's outcome `o`. */
  lemma {:induction false} ChunkStepOf(cfg: JobConfig, st: JobState, cluster: seq<Event>, o: Outcome)
    requires |cluster| > 0 && o == ChunkOutcome(cfg, cluster, st.cache, st.sent)
    ensures ChunkStep(cfg, st, cluster) == Applied(st, o)
  {
  }

  /** A chunk step keeps every time non-negative. */
  lemma {:induction false} StepKeepsNonNegative(cfg: JobConfig, st: JobState, cluster: seq<Event>)
    requires NonNegative(st.finalSubs)
    ensures NonNegative(ChunkStep(cfg, st, cluster).finalSubs)
  {
    var r := ChunkStep(cfg, st, cluster);
    StepAppends(cfg, st, cluster);
    assert r.finalSubs == st.finalSubs + r.finalSubs[|st.finalSubs|..];
    NonNegativeAppend(st.finalSubs, r.finalSubs[|st.finalSubs|..]);
  }

  lemma {:induction false} NonNegativeAppend(a: seq<Event>, b: seq<Event>)
    requires NonNegative(a) && NonNegative(b)
    ensures NonNegative(a + b)
  {
    var all := a + b;
    forall k | 0 <= k < |all|
      ensures all[k].start >= 0 && all[k].end >= 0
    {
      if k < |a| {
        assert all[k] == a[k];
      } else {
        assert all[k] == b[k - |a|];
      }
    }
  }
}
