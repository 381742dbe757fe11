# JimakuGen chunk pipeline, modelled in Dafny

JimakuGen makes Japanese subtitles for a video. It reads the video's English
subtitle track and keeps the dialogue cues. It groups those cues into chunks
of about a minute. It sends each chunk's audio to a transcription service,
with the chunk's English lines as context. It reads back the service's
`[start - end] text` answer and checks that the timing is plausible. The
accepted cues are written as an SRT file.

This project models that pipeline, in two versions.

The current pipeline:

- src/utils.py: time parsing and printing, Japanese-space removal, the
  answer parser, the chunk validator and the cache path.
- src/media_utils.py: cue cleaning and filtering, the chunker, and
  subtitle and audio track selection.
- src/core.py: the class `SubtitleJob`, with its chunk loop, stop flag,
  chunk limit, retry and cache logic, and SRT writer.

The first version, the script main.py:

- its own ASS reader and centisecond time parser;
- its English-track picker;
- a chunk loop that skips a failed chunk and goes on with the next one.

Times are whole milliseconds (`int`). The outside world is an input:

- the stream probe;
- the loaded subtitle track (or, for main.py, the lines of the extracted
  ASS file);
- the cache directory, as a map from path to contents;
- an oracle giving the outcome of each call to the transcription service.

| file | module | models |
|---|---|---|
| common.dfy | `Common` | the `Event` cue, string stripping, `split`, `splitlines`, `lower` |
| decimal.dfy | `Decimal` | printing and reading decimal numbers, zero padding, `int()` |
| time_format.dfy | `TimeFormat` | `parse_time_to_ms`, `ms_to_mm_ss_mmm`, `ms_to_srt_time` |
| jp_spaces.dfy | `JapaneseSpaces` | `remove_japanese_spaces` as three scanner passes |
| transcript.dfy | `Transcript` | `parse_timestamps`, in its current and older (main.py) dialects |
| chunk_context.dfy | `ChunkContext` | the English context of a chunk, and that the parser reads it back |
| validation.dfy | `Validation` | `validate_chunk` |
| cache_path.dfy | `CachePaths` | `get_cache_path` (the path string) |
| cue_filter.dfy | `CueFilter` | `clean_ass_text`, `is_mostly_english`, the `get_dialogue_from_ass` filter loop |
| clustering.dfy | `Clustering` | `group_events` |
| track_select.dfy | `TrackSelection` | `get_best_subtitle_track`, `get_best_audio_track` |
| srt_writer.dfy | `SrtWriter` | `_save_srt`, and an SRT reader that states what the output means |
| pipeline.dfy | `Pipeline` | `SubtitleJob`: `run`, `_process_chunk`, `_save_srt` |
| legacy.dfy | `Legacy` | main.py: `clean_ass_text`, `parse_ass_time`, `get_dialogue_from_ass`, `get_best_english_track`, `main` |

Constants follow the code:

- `MAX_GAP_SECONDS` is 2 s.
- The chunk target is 60 s in main.py and a parameter of `SubtitleJob`.
- The audio padding and the retry count are parameters of `SubtitleJob`.
  src/core.py:8 imports `AUDIO_PADDING_MS` and `MAX_RETRIES` from
  src/config.py, but src/config.py defines neither. The only value given
  for the retry count is the comment at tests/test_retry.py:84, which
  expects three attempts.
- main.py pads by the literal 700 ms (main.py:184).
- `validate_chunk`'s default `max_duration` is 10 s (src/utils.py:82).
- The drop cascade of `get_dialogue_from_ass` has five categories: style,
  typesetting tag, drawing, empty and non-English.
- In main.py, `parse_ass_time` raises on a malformed time and nothing in
  main.py catches it, so the whole read ends (`Legacy.AbortIsFinal`).
- main.py's `clean_ass_text` pattern only removes `{{…}}` groups; see
  Findings.

## Model

| member | source | states |
|---|---|---|
| Common.TrimKeepsVisible | src/utils.py:66 | `strip()` removes whitespace only: every other character survives, in order |
| Common.SplitJoin | src/utils.py:22 | `split(sep)` loses nothing: no part holds the separator, and joining the parts with it gives back the text |
| Common.SplitAtMostJoin | main.py:60 | `split(',', n)` loses nothing: joining the parts with `,` gives back the text |
| Common.SplitAtMostParts | main.py:60 | with at most `n` splits, only the last part can keep separators, and only once all `n` splits are used |
| Common.SplitLinesOfJoin | src/utils.py:65 | `splitlines()` of non-empty one-line strings joined by `\n` gives back those lines |
| Decimal.ValueOfNatToString | src/utils.py:18 | reading back a printed non-negative number gives the number |
| Decimal.NatToStringInjective | src/utils.py:18 | different numbers print differently |
| Decimal.IntToStringInjective | src/utils.py:18 | different integers, signs included, print differently |
| Decimal.ValueOfZeroPad | src/utils.py:39 | a zero-padded field (`:02`, `:03`) reads back as its number |
| Decimal.ZeroPadExactWidth | src/utils.py:39 | a number below 10^w padded to width w is exactly w characters long |
| Decimal.ParseIntOfDigits | src/utils.py:24 | `int()` of a non-empty digit string is its decimal value |
| TimeFormat.ParseHoursMinutesSeconds | src/utils.py:20-24 | `H:M:S.f`, with `.` or `,` as the point, is (H·3600 + M·60 + S)·1000 plus the fraction's milliseconds |
| TimeFormat.ParseMinutesSeconds | src/utils.py:20-26 | `M:S.f` is (M·60 + S)·1000 plus the fraction's milliseconds |
| TimeFormat.ParseSeconds | src/utils.py:20-28 | a colon-free `S.f` is S·1000 plus the fraction's milliseconds |
| TimeFormat.ParseRejectsManyFields | src/utils.py:20-28 | more than three `:` fields is an error (`None`); the same function is repeated at main.py:107-115 |
| TimeFormat.NormalizeClock | src/utils.py:21 | a decimal comma reads the same as a decimal point |
| TimeFormat.SecondsWithFraction | src/utils.py:24 | `W.F` seconds is W·1000 ms plus the first three digits of F |
| TimeFormat.MmSsMmmRoundTrip | src/utils.py:20-34 | `parse_time_to_ms(ms_to_mm_ss_mmm(ms)) == ms` for every non-negative ms, minutes unwrapped |
| TimeFormat.MmSsMmmExampleSeconds | src/utils.py:30-34 | 1250 ms prints as `00:01,250` |
| TimeFormat.MmSsMmmExampleTenths | src/utils.py:30-34 | 3100 ms prints as `00:03,100` |
| TimeFormat.MmSsMmmExampleLong | src/utils.py:30-34 | minutes are not wrapped at an hour: 3723004 ms is `62:03,004` |
| TimeFormat.MmSsMmmExampleNegative | src/utils.py:30-34 | a negative time is floored: -500 ms is `-1:59,500` |
| TimeFormat.SrtTimeRoundTrip | src/utils.py:36-39 | `parse_time_to_ms(ms_to_srt_time(ms)) == ms` for every non-negative ms, hours unwrapped; the same function is repeated at main.py:163-166 |
| TimeFormat.SrtTimeInjective | src/utils.py:36-39 | two different times never print the same |
| TimeFormat.SrtTimeExampleHour | src/utils.py:36-39 | 3661000 ms is `01:01:01,000` |
| TimeFormat.SrtTimeExampleMillis | src/utils.py:36-39 | 999 ms is `00:00:00,999` |
| TimeFormat.SrtTimeExampleDay | src/utils.py:36-39 | hours are not wrapped at a day: 90000000 ms is `25:00:00,000` |
| JapaneseSpaces.RemoveJapaneseSpacesVisible | src/utils.py:41-61 | only whitespace is deleted: the other characters come out unchanged and in order |
| JapaneseSpaces.RemoveJapaneseSpacesOfNoSpace | src/utils.py:41-61 | a text without whitespace, the empty text included, comes out unchanged |
| JapaneseSpaces.RunRemovedWhenFlanked | src/utils.py:50-59 | a whitespace run between two Japanese characters, or between a Japanese character and `!?.,:;` on either side, is removed, and the two sides are processed independently; a run holding the ideographic space U+3000 is covered only between two Japanese characters |
| JapaneseSpaces.RunKeptUnlessFlanked | src/utils.py:50-59 | a whitespace run without the ideographic space U+3000, between any other pair of neighbours, is kept exactly |
| JapaneseSpaces.ScanVisible | src/utils.py:53 | one `re.sub` pass deletes whitespace only, and never lengthens the text |
| JapaneseSpaces.SubstituteDrops | src/utils.py:53 | a pass deletes the run between a character of the lookbehind class and one of the lookahead class |
| JapaneseSpaces.SubstituteKeeps | src/utils.py:53 | a pass keeps a run that its lookbehind and lookahead do not both match |
| JapaneseSpaces.ExampleBetweenJapanese | src/utils.py:53 | `日本 語` becomes `日本語` |
| JapaneseSpaces.ExampleBeforePunctuation | src/utils.py:58 | `はい !` becomes `はい!` |
| JapaneseSpaces.ExampleEnglishKept | src/utils.py:41-61 | `ok go` is unchanged |
| JapaneseSpaces.ExampleIdeographicSpace | src/utils.py:50-53 | the ideographic space counts as Japanese: in `a`, U+3000, space, `日`, the ordinary space is removed and U+3000 is kept |
| Transcript.LineFields | src/utils.py:66-78 | a line that yields a cue yields non-negative times and non-empty text |
| Transcript.ParseTimestamps | src/utils.py:63-80 | `parse_timestamps` is the line-by-line collection of each line's cue, in line order |
| Transcript.CollectLoop | src/utils.py:65-78 | the result-appending loop collects each line's cue, if it has one, in line order |
| Transcript.CollectAppend | src/utils.py:65-79 | the cues of two blocks of lines are those of the first, then those of the second: order is kept and no line affects another |
| Transcript.ParseTranscriptOffset | src/utils.py:73-74 | the offset is added to both times of every cue and changes nothing else |
| Transcript.ParseTranscriptFrom | src/utils.py:73-74 | every cue read with offset `o` starts and ends at or after `o` |
| Transcript.ParseTranscriptNonNegative | src/utils.py:73-74 | read with no offset, no cue has a negative time |
| ChunkContext.ContextRoundTrip | src/core.py:121 | the English context of a chunk, read by `parse_timestamps` with the padded start as offset, gives back the chunk's cues |
| ChunkContext.StampedFields | src/core.py:121 | one `[MM:SS,mmm - MM:SS,mmm] text` context line reads back as its cue |
| ChunkContext.BracketedFields | src/utils.py:68-78 | `[A - B] T` reads as the times of A and B and the text T |
| ChunkContext.SearchBracketed | src/utils.py:68 | the time-pair search finds A and B in `[A - B…` |
| ChunkContext.MmSsMmmIsTimeGroup | src/utils.py:68 | a printed `MM:SS,mmm` time is one time group of the pattern |
| ChunkContext.TailContent | src/utils.py:71 | the text is what follows the second time, with leading `]`, `:` and spaces removed |
| ChunkContext.ExampleLine | src/core.py:121 | the cue 1250–3100 ms `こんにちは` gives the context line `[00:01,250 - 00:03,100] こんにちは` |
| ChunkContext.ParseExample | src/utils.py:63-80 | `[00:01,250 - 00:03,100] こんにちは` at offset 0 yields exactly one cue, (1250, 3100, `こんにちは`) |
| Validation.CheckPasses | src/utils.py:82-105 | a cue fails some check exactly when its duration is not in (0, 10 s] or it is read at more than 25 or fewer than 0.2 characters per second |
| Validation.ValidateChunk | src/utils.py:82-105 | the result is true exactly when every cue is plausible, the empty chunk included; false names a failing cue |
| Validation.ValidAppend | src/utils.py:83-105 | a chunk is valid exactly when both of its parts are |
| Validation.ValidShift | src/utils.py:84 | moving a chunk in time does not change its verdict |
| Validation.CpsBoundary | src/utils.py:94-99 | 25 characters over 1000 ms pass; 26 are too fast |
| Validation.DurationBoundary | src/utils.py:89-92 | 10000 ms passes; 10001 ms is too long |
| CachePaths.Basename | src/utils.py:16 | the basename is a slash-free suffix of the path |
| CachePaths.CachePathShape | src/utils.py:15-18 | the path is `cache/<basename>/<start>_<end>.txt`, or `cache/<start>_<end>.txt` for an empty basename |
| CachePaths.BasenameAfterSlash | src/utils.py:16 | the basename of `x/y` is `y` when `y` holds no slash |
| CachePaths.FileNameHasNoSlash | src/utils.py:18 | a chunk file name is a single path component |
| CachePaths.ChunkFileNameInjective | src/utils.py:18 | different (start, end) pairs, negative ones included, get different file names |
| CachePaths.CachePathInjective | src/utils.py:15-18 | two chunks share a cache file only when their videos have the same basename and they have the same start and end; the same function is repeated at main.py:24-27 |
| CachePaths.CachePathExample | src/utils.py:15-18 | `/media/show.mkv`, 1250, 3100 gives `cache/show.mkv/1250_3100.txt` |
| CueFilter.TagEnd | src/media_utils.py:25 | the lazy `.*?` of a tag stops at the first `}` or line feed, or at the end of the text |
| CueFilter.CleanAssTextTidy | src/media_utils.py:19-28 | cleaned text is stripped, and holds no whitespace but single plain spaces |
| CueFilter.CleanAssTextVisible | src/media_utils.py:23-28 | without a drawing, cleaning keeps every visible character left after tag removal and break replacement |
| CueFilter.StripTagsLeavesNoTag | src/media_utils.py:25 | no complete one-line `{…}` block is left after tag removal |
| CueFilter.StripTagsWithoutBrace | src/media_utils.py:25 | text without `{` is not touched by tag removal |
| CueFilter.StripTagsKeepsOut | src/media_utils.py:25 | tag removal brings in no new character |
| CueFilter.ReplaceEscapeRemoves | src/media_utils.py:26 | replacing `\c` leaves no `\c`, and creates no other escape |
| CueFilter.BreaksLeaveNoEscape | src/media_utils.py:26 | after the break replacement neither `\N` nor `\n` is left |
| CueFilter.BreaksWithoutBackslash | src/media_utils.py:26 | text without a backslash has no breaks to replace |
| CueFilter.CollapseSingleSpaced | src/media_utils.py:27 | `\s+` → ` ` leaves single plain spaces |
| CueFilter.CollapseVisible | src/media_utils.py:27 | collapsing only rewrites whitespace |
| CueFilter.Letters | src/media_utils.py:32 | the removal keeps only letters, and never lengthens the text |
| CueFilter.AsciiCount | src/media_utils.py:34 | the ASCII count is at most the length |
| CueFilter.AsciiCountOfLetters | src/media_utils.py:32-34 | the ASCII characters left after the removal are exactly the ASCII letters of the text |
| CueFilter.MostlyEnglishByLetters | src/media_utils.py:30-35 | mostly English exactly when 5·(ASCII letters) > 4·(letters), which is false for empty text or text with no letters |
| CueFilter.DroppedCharactersIgnored | src/media_utils.py:32 | digits, `_` and non-word characters do not change the verdict |
| CueFilter.NoAsciiLetterNotEnglish | src/media_utils.py:30-35 | text without an ASCII letter is never mostly English |
| CueFilter.AsciiTextIsEnglish | src/media_utils.py:30-35 | text with at least one letter, all of them ASCII, is mostly English |
| CueFilter.MusicNotesIgnored | src/media_utils.py:32 | `♪ Hi ♪` is mostly English: the removal drops the music notes as non-word characters |
| CueFilter.FourFifthsNotEnough | src/media_utils.py:35 | a share of exactly 0.8 fails: it must exceed 0.8 |
| CueFilter.FilterEvent | src/media_utils.py:57-98 | one event is counted under the verdict the filter gives it, and yields its cleaned cue exactly when it is kept |
| CueFilter.GetDialogue | src/media_utils.py:37-100 | the loop returns the kept events' cues and the counters over every event; a failed load gives nothing and zero counters |
| CueFilter.TallyBalanced | src/media_utils.py:41-97 | every event is counted in `total` and in exactly one category, so `total` is their sum |
| CueFilter.KeptCounted | src/media_utils.py:92-97 | the `kept` counter is the number of cues returned |
| CueFilter.DialogueIsKeptSubsequence | src/media_utils.py:57-97 | the cues are the kept events, in track order, with their times copied and their text cleaned; every kept event is there |
| CueFilter.DialogueTexts | src/media_utils.py:82-96 | every returned text is non-empty, tidy and mostly English |
| CueFilter.DrawingVerdict | src/media_utils.py:74-80 | an unpositioned event of an allowed style is a drawing exactly when its raw text holds `\p1`…`\p9` |
| CueFilter.TextWithoutBackslash | src/media_utils.py:23-28 | text without a backslash is neither positioned nor a drawing, and cleaning it only removes tags and tidies whitespace |
| CueFilter.StyleTopSkipped | src/media_utils.py:63-66 | the style test looks for substrings: style `Top` holds `op` and is skipped |
| Clustering.Group | src/media_utils.py:195-208 | there are no chunks exactly when there are no cues, and no chunk is empty |
| Clustering.GroupEvents | src/media_utils.py:194-210 | the loop computes the cue-by-cue grouping; main.py:90-105 repeats the loop with a fixed 60 s target |
| Clustering.GroupPartition | src/media_utils.py:194-208 | the chunks, concatenated in order, are the cues |
| Clustering.GroupChunked | src/media_utils.py:198-207 | a chunk splits from the previous one exactly when its first cue is more than the target after the chunk's start and more than 2 s after the previous cue |
| Clustering.ChunkedIsGroup | src/media_utils.py:194-208 | the grouping is the only partition into chunks that follows that rule |
| Clustering.GroupLast | src/media_utils.py:208 | the last cue closes the last chunk |
| Clustering.SplitExample | src/media_utils.py:203 | cues [0,1000] and [5000,6000] split with a 1 s target but not with 10 s |
| TrackSelection.SelectSubtitleTrack | src/media_utils.py:107-145 | `None` for a failed probe or no subtitle stream; otherwise the first of the best-scored candidates |
| TrackSelection.ScoreSubtitleStream | src/media_utils.py:118-142 | a subtitle stream's score is built tag by tag: language, title words, frames/20 |
| TrackSelection.FirstBestSubtitleIsFirstMaximum | src/media_utils.py:144-145 | no candidate scores more than the pick, and every earlier one scores less (the stable descending sort) |
| TrackSelection.SubtitleCandidatesOfStreams | src/media_utils.py:116-144 | there is a candidate exactly when the probe lists a subtitle stream, and each candidate comes from one |
| TrackSelection.LanguageOrder | src/media_utils.py:129-130 | with equal title and frames, English outscores Japanese, which outscores any other language |
| TrackSelection.FramesOutweighLanguage | src/media_utils.py:129-134 | 400 more frames outweigh the English bonus |
| TrackSelection.SelectAudioTrack | src/media_utils.py:147-175 | `None` for a failed probe or no audio stream; otherwise the first candidate under the key (score, −index), descending |
| TrackSelection.FirstBestAudioIsFirstMaximum | src/media_utils.py:174-175 | the pick has the highest score and the lowest index among that score, and no candidate sorts before it |
| TrackSelection.AudioCandidatesOfStreams | src/media_utils.py:156-174 | there is an audio candidate exactly when the probe lists an audio stream |
| SrtWriter.RenderSrt | src/core.py:148-151 | the written text is the blocks of the subtitles, numbered from 1, in list order |
| SrtWriter.RenderBlock | src/core.py:151 | one block is written piece by piece as the number, the time line, the text and a blank line |
| SrtWriter.RenderedReadsBack | src/core.py:148-151 | reading the written file back gives the subtitles, numbered 1, 2, …, in order, each with its own times; main.py:215-218 writes the blocks the same way |
| SrtWriter.CueReadsBack | src/core.py:151 | one block's lines read back as its subtitle |
| SrtWriter.LayoutLines | src/core.py:151 | a block splits into exactly four lines, the last one blank |
| SrtWriter.ArrowShape | src/core.py:151 | the time line is the two times around ` --> ` |
| Pipeline.PaddedRange | src/core.py:104-105 | the audio range is [max(0, first start − padding), last end + padding] |
| Pipeline.AttemptsShape | src/core.py:109-146 | at most `maxRetries` calls, each sending the chunk's context; only the chunk's cache file changes; an accepted result is valid and read from the cached answer; a stop gives no result |
| Pipeline.AllRejected | src/core.py:109-146 | when every answer is non-empty and rejected: exactly `maxRetries` calls, no cache file left, no result, no stop |
| Pipeline.StopAfterRejections | src/core.py:119-133 | an exception ends the chunk and stops the job, with no result; the context counts as sent unless the audio cut failed |
| Pipeline.CachedAccepted | src/core.py:111-140 | a non-empty, valid cached answer is the result at once: nothing is sent and the cache is unchanged |
| Pipeline.EmptyAnswer | src/core.py:123-137 | an empty answer is cached and never removed: one call, no result, no stop |
| Pipeline.EmptyCached | src/core.py:111-137 | an empty cached answer costs no call and gives no result |
| Pipeline.LoopHalted | src/core.py:80-84 | once the loop halts, no later chunk sends, caches or appends anything |
| Pipeline.NothingAfterStop | src/core.py:81 | after a stop, the remaining chunks are not processed |
| Pipeline.WithinLimit | src/core.py:82-84 | with a limit of `l`, only the first `l` chunks are processed |
| Pipeline.StepAppends | src/core.py:86-88 | a chunk only appends valid subtitles with non-negative times, and only adds contexts |
| Pipeline.ChunksAppend | src/core.py:80-88 | the chunk loop only appends, so earlier subtitles keep their place and order |
| Pipeline.FirstChunkErrorStops | src/core.py:119-133 | a service error on the first chunk stops the run after one call, with nothing added and the cache unchanged |
| Pipeline.RetriesExhausted | src/core.py:109-146 | a chunk whose every answer is rejected costs exactly `maxRetries` calls, adds nothing, leaves the cache as it was and does not stop the job |
| Pipeline.SubtitleJob.constructor | src/core.py:17-32 | a new job has no subtitles, no stop, no calls sent, no output, and the cache as found |
| Pipeline.SubtitleJob.ProcessChunk | src/core.py:103-146 | the chunk's result, cache, calls and stop flag are those of its attempts on its padded range's cache path |
| Pipeline.SubtitleJob.AttemptLoop | src/core.py:109-146 | the attempt loop's result, cache, calls and stop flag are those of the attempts function |
| Pipeline.SubtitleJob.RunAttempts | src/core.py:109-146 | the `for attempt in range(MAX_RETRIES)` loop, from a given cache directory and list of sent contexts, yields the outcome of the attempts function |
| Pipeline.SubtitleJob.Attempt | src/core.py:110-142 | one turn: an error ends the attempts with the job stopped, an accepted answer ends them with its subtitles, and otherwise the remaining attempts continue from the new cache and contexts |
| Pipeline.SubtitleJob.ProcessClusters | src/core.py:80-88 | the loop's state is the chunk loop over the clusters, halting on stop or limit |
| Pipeline.SubtitleJob.ProcessAndAppend | src/core.py:86-88 | one turn processes the chunk and appends its subtitles |
| Pipeline.SubtitleJob.SaveSrt | src/core.py:148-151 | the output holds the SRT blocks of the subtitles, numbered from 1 |
| Pipeline.SubtitleJob.Run | src/core.py:55-101 | no subtitle track: nothing changes; otherwise the dialogue is grouped, the chunks processed, and the SRT written only when some subtitle was accepted |
| Legacy.StripDoubleTagsWithoutPair | main.py:30 | as written, text without `{{` is not touched by the tag removal |
| Legacy.OverrideTagSurvives | main.py:29-33 | as written, `{\i1}Hi` cleans to itself: the override tag survives |
| Legacy.OverrideTagRemoved | main.py:29-33 | as intended, `{\i1}Hi` cleans to `Hi` |
| Legacy.CleanAssTextClosed | main.py:29-33 | as intended, no `{` is followed by a `}` in a cleaned one-line text |
| Legacy.ParseAssTimeOfDigits | main.py:35-42 | `H:M:S.cc` of digit fields is (H·3600 + M·60 + S)·1000 + cc·10 |
| Legacy.ParseAssTimeRoundTrip | main.py:35-42 | a written `H:MM:SS.cc` time reads back as its milliseconds |
| Legacy.ParseAssTimeNeedsCentiseconds | main.py:39-41 | a seconds field without `.` is an error |
| Legacy.GetDialogueFromAss | main.py:44-69 | the line loop computes the reader's events, or `None` when a time raises |
| Legacy.ReadLine | main.py:50-68 | one line steps the reader as the reader's step function does: blank and unknown lines change nothing, `[Events]` opens the section, `Format:` sets the columns, a kept `Dialogue:` line adds its event, a bad time aborts |
| Legacy.ReadAssAppend | main.py:49-68 | reading `a + b` is reading `a`, then `b` from there |
| Legacy.AbortIsFinal | main.py:66-67 | a malformed time ends the whole read; no later line brings it back |
| Legacy.BeforeEventsIgnored | main.py:52-55 | lines before the first `[Events]` line change nothing |
| Legacy.ReadAssAppends | main.py:64-68 | the read only appends events with non-empty text, in file order |
| Legacy.DialogueVerdictCases | main.py:62-68 | a `Dialogue:` line is kept exactly when its text is non-empty, its style is `default`, `alt` or `italics` and both times parse; skipped exactly when text or style fails; otherwise the read aborts |
| Legacy.KeptHasText | main.py:63-64 | a kept event has non-empty text |
| Legacy.TextKeepsCommas | main.py:57-61 | with `len(cols) − 1` splits, the last column keeps all its commas |
| Legacy.KeptStylesAreNotSongs | main.py:64-65 | the second style test never removes anything: no kept style holds a song, sign or title word |
| Legacy.CommaSplitsTime | main.py:117-132 | `[00:01,250 - 00:03,100] x` reads as 250000 to 3000 ms (plus the offset), with text `,100] x` |
| Legacy.CommaLineSearch | main.py:122 | the older pattern passes over `00:01` and first matches `250 - 00:03` |
| Legacy.GetBestEnglishTrack | main.py:71-88 | `None` exactly when the probe printed nothing or lists no English subtitle stream; otherwise the index of the first best-scored one |
| Legacy.FirstBestEnglishIsFirstMaximum | main.py:87-88 | no English track scores more than the pick, and every earlier one scores less |
| Legacy.EnglishCandidatesOfStreams | main.py:77-86 | there is a candidate exactly when the probe lists an English subtitle stream |
| Legacy.ProcessChunk | main.py:184-213 | one chunk: a cache hit is read; otherwise the answer is cached and read, or on an exception the chunk is skipped |
| Legacy.TranscribeChunks | main.py:182-213 | the loop's final state is the chunk loop over all clusters from an empty list |
| Legacy.FailedStep | main.py:203-209 | a failed uncached chunk only records that it was sent |
| Legacy.FailureSkipsOnlyItsChunk | main.py:203-213 | a failed chunk is skipped and nothing else: later chunks run as they would have without it |
| Legacy.AllFailedAllSent | main.py:183-209 | when every call fails and nothing is cached, every chunk is still tried, in order, and nothing else changes |
| Legacy.StepExtends | main.py:183-213 | one chunk only adds subtitles with non-negative times, cached answers and sent chunks |
| Legacy.ChunkLoopExtends | main.py:182-213 | the loop never deletes a cache file and never stops early; its subtitles keep their order |
| Legacy.Generate | main.py:168-221 | with main.py:30's cleaner as written: no English track or a malformed ASS time means nothing is written or sent; otherwise the SRT of the chunk loop's subtitles is always written, even when empty |
| Legacy.GenerateCorrected | main.py:168-221 | the same run with the corrected cleaner `Legacy.CleanAssText`, which removes single-brace override blocks |

## Left out

- I/O and the media backend. Running ffprobe and ffmpeg, `pysubs2.load`,
  temporary directories, cleanup, logging and `print` are not modelled.
  Their results are inputs:
  - the decoded probe: `None` for a failure, or for main.py's empty
    output;
  - the loaded event list, or the lines of the extracted ASS file.
- A probe whose JSON does not decode: main.py raises. The model treats the
  probe as already decoded.
- An ASS file that ffmpeg failed to write: main.py raises on opening it.
  The model takes the file's lines as given.
- Exceptions that escape `SubtitleJob.run` are not modelled. For example,
  an exception from `extract_subtitles`.
- The transcription service (src/transcriber.py, main.py's
  `transcribe_chunk`, its upload polling and its 429 sleep-and-retry loop)
  is an oracle.
  - In `SubtitleJob`, the oracle is indexed by the number of calls made so
    far.
  - In main.py, it is indexed by the chunk number, with `None` for an
    exception.
  - The rate-limit and other errors lead to the same outcome in
    `_process_chunk`, so they are one case.
- Which audio track is used, the model name and the series context are
  passed to the service and do not affect the modelled state.
- The cache directory is a map from cache path to contents. The model
  leaves out:
  - creating the directories;
  - a read that fails;
  - a partially written file.
- Legacy.ChunkStep: main.py's cache write can fail after the answer
  arrives. The program then skips the chunk, and that case is not
  modelled.
- main.py's English context (`[{s:.1f}s] text`) is not modelled. It
  formats floats and only goes to the service.
- The output path is not modelled: `_default_output_path`, the `-o`
  option, and main.py's replacement of `.mkv`. The SRT file is the text
  written to it.
- `_load_context` (reading the series context file) is not modelled. It is
  file I/O whose result only goes to the service.
- Floating point. Times are whole milliseconds.
  - `parse_time_to_ms` keeps at most three fraction digits, where the
    original keeps sub-millisecond float parts.
  - The validator's and chunker's float divisions are integer
    cross-multiplications. Float rounding exactly at a threshold is not
    modelled.
  - Subtitle scores are exact reals.
- Decimal.ParseInt accepts optional surrounding whitespace, a sign and
  ASCII digits. Python's `int()` also accepts `_` between digits and
  non-ASCII digits.
- Common.Lower folds ASCII letters only. Python's `lower()` folds all of
  Unicode.
- CueFilter.IsWordChar approximates Python's Unicode `\w`, which matches
  the characters for which `str.isalnum()` holds, and `_`. All non-ASCII
  characters count as word characters except whitespace and the listed
  punctuation and symbol blocks. Other non-alphanumeric characters, such as
  combining marks and symbols outside those blocks, are wrongly counted as
  letters.
- JapaneseSpaces.RunRemovedWhenFlanked / JapaneseSpaces.RunKeptUnlessFlanked:
  no general statement covers a whitespace run that holds the ideographic
  space U+3000, except between two Japanese characters. U+3000 is both
  whitespace and in the Japanese range, so it can act as the lookbehind
  for the rest of its own run. For example, `は`, U+3000, `!` becomes
  `は!`, and `a`, U+3000, space, `日` becomes `a`, U+3000, `日`. Only
  the second is proved, as an example.
- Transcript.LineFields / TimeFormat.ParseTimeToMs: the timestamp scanner
  and parser accept ASCII digits only. Python's `\d`, `int()` and
  `float()` also accept other Unicode decimal digits, such as fullwidth
  `１２`. Those digits have many ranges and each needs its own value
  table.
- Regular expressions are written out as dedicated scanners for the
  patterns in the code, not as a general regex engine.
- main.py's module-level setup is not modelled: the API-key check with its
  exit, `genai.configure`, and the `__main__` argument handling.
- The src/cli.py front end and `process_video`'s logging setup are not
  modelled.

## Findings

| source | as written | input that shows it | evidently intended | confidence | as-written member | corrected member |
|---|---|---|---|---|---|---|
| main.py:30 | `re.sub(r'\{{.*?\}}', '', text)`: in a raw string, `\{{` is a literal `{` followed by a literal `{`, so only `{{…}}` groups are removed | the ASS text `{\i1}Hi` cleans to `{\i1}Hi`, and the override tag reaches the English context | remove the single-brace override blocks `{…}`, as src/media_utils.py:25 does, so `{\i1}Hi` cleans to `Hi` | not executed | Legacy.OverrideTagSurvives | Legacy.CleanAssTextClosed |

`Legacy.CleanAssTextAsWritten` models the line as written.
`Legacy.CleanAssText` is the corrected cleaner. `Legacy.Generate` reads the
ASS file with the cleaner as written, as main.py does.
`Legacy.GenerateCorrected` reads it with the corrected cleaner.
`Legacy.OverrideTagRemoved` shows the corrected cleaner on the same input.
