# auto-highlighter, modelled in Dafny

auto-highlighter finds the loud (or bright) moments of a video and cuts a short
clip around each of them. This project models its decision logic:

- **Audio analyser** (`highlighter/audio.py`). The soundtrack is read one second
  at a time. Each second is split into `accuracy` chunks, and every chunk gets a
  decibel reading. Readings that are minus infinity or not positive are dropped.
  A second is loud when a remaining reading reaches the target decibel. The
  first loud reading is recorded under the second's key, unless a second
  already in the capture ledger lies within `start_point` seconds before it
  (the cooldown). The scan stops early when the maximum number of highlights is
  reached, or when a read fails. Every accepted second gets one clip job,
  `[second - start_point, second + end_point]`. `get_ref` gives each second's
  mean level and the loudest reading seen.
- **Video analyser** (`highlighter/video.py`). Frames are read one by one.
  Every `fps`-th frame starts a new second, counted from 1, whose brightness is
  compared with the target. The cooldown and the clip window are the same as
  for audio. The depth limit is checked at every sampled second, before the
  brightness. A keyboard interrupt ends the scan with what it has built.
- **Legacy script** (`main.py`):
  - a hand-written command-line parser;
  - an older detector that splits each second into 1000 chunks and has no
    cooldown;
  - a `compile` step that sorts the highlighted seconds, runs two "removal"
    passes over them, and cuts one clip per remaining run of consecutive
    seconds.

Modules:

- `Text`: `str(int)`, `str(timedelta)`, `str.replace`.
- `Highlights`: the insertion-ordered result dictionary, the highlight record,
  the cooldown rule and the clip job.
- `Samples`: `np.array_split`, decibel readings, the filter of usable readings.
- `Audio`, `Video`, `LegacyArguments`, `LegacyAnalysis`: the four programs
  above.

Each analyser is a specification function (`RunFrom`, `Records`, `ClipsFrom`,
`Pass`) together with an imperative method with the source's loops. Each
method's postcondition ties its result to the specification function. Lemmas
then state what the source promises about that function.

Floating-point arithmetic (RMS to decibels, luminance) is a parameter
(`loudness`, `luminance`, `meanOf`). A reading is `NaN`, `NegInf` or
`Finite(db)`, with IEEE comparison semantics. File, audio and video I/O are
input sequences (`Window`, `Frame`). An unreadable window or an `Interrupt`
frame stands for an exception. The external `ffmpeg` runs are the `ClipJob`s
the analysers produce.

Points where the code's behaviour is easy to misread:

- `np.array_split` gives the extra samples to the *first* chunks, not to the
  last one (`Samples.Split`, `Samples.SplitSizes`).
- Suppression applies when the gap to a captured second is *at most*
  `start_point`, because `range(i - start_point, i)` is used. It does not
  require the gap to be strictly smaller.
- Reaching the maximum depth does not stop the scan at once:
  - the audio scan returns at the next loud second;
  - the video scan returns at the next sampled second.
- The video second counter starts at 1 on frame 0.

## Model

| member | source | states |
|---|---|---|
| Text.DigitsRoundTrip | highlighter/audio.py:57-59 | the decimal rendering of a second has no leading zero and reads back as the same number |
| Text.ClockRoundTrip | highlighter/audio.py:136-147 | within a day, str(timedelta(seconds=s)) is H:MM:SS, and that clock string denotes exactly s |
| Text.ReplaceChar | highlighter/audio.py:25 | replacing one character keeps the length, and changes exactly the positions holding that character |
| Text.Digits | highlighter/audio.py:59 | `str(int)` of a second: a non-empty string of decimal digits with no leading zero (its round trip is Text.DigitsRoundTrip) |
| Text.Timedelta | highlighter/audio.py:57 | definition of `str(timedelta(seconds=s))`: `H:MM:SS`, preceded by `N day(s), ` from one day on (its meaning is Text.ClockRoundTrip) |
| Highlights.Insert | highlighter/audio.py:143-147 | assigning a key keeps the dict well formed, stores the value under the key, leaves every other key present or absent as before and with its value, and puts a new key last in insertion order while an existing key keeps its place |
| Highlights.SizeIsKeyCount | highlighter/audio.py:122 | len(list(result.keys())) is the number of entries |
| Highlights.SpacedAppend | highlighter/audio.py:129-141 | a second that no captured second covers keeps the accepted seconds increasing and more than start_point apart |
| Highlights.ClipFor | highlighter/audio.py:59 | the clip window contains the second and is start_point + end_point long |
| Highlights.ClipFileName | highlighter/audio.py:57-59 | definition: `{second}-({timedelta with colons as spaces}).mp4` (its properties are Highlights.ClipFileNameLeadsWithSecond and Highlights.ClipDestinationsDistinct) |
| Highlights.ClipFileNameLeadsWithSecond | highlighter/audio.py:57-59 | a clip's file name starts with its second, which reads back from it |
| Highlights.ClipDestinationsDistinct | highlighter/audio.py:59 | two different accepted seconds never write to the same output file |
| Samples.Balanced | highlighter/audio.py:53-54 | array_split's section sizes: n sections, summing to the buffer length, the first len % n one longer |
| Samples.Sections | highlighter/audio.py:53-54 | the sections have the requested sizes and concatenate back to the buffer |
| Samples.Split | highlighter/audio.py:53-54 | a section count below one fails; otherwise exactly that many chunks that rebuild the buffer in order |
| Samples.SplitSizes | highlighter/audio.py:53-54 | chunk sizes differ by at most one, the longer ones come first, and each is len // n or one more |
| Samples.UsableReadings | highlighter/audio.py:66-72 | the kept readings are positive finite levels that occur among the chunk levels, no more of them than chunks |
| Samples.UsableKept | highlighter/audio.py:68-71 | every usable chunk level contributes its reading: nothing usable is dropped |
| Samples.UsableReadingsSingle | highlighter/audio.py:69-71 | one chunk yields its reading exactly when the level is not minus infinity and is above 0, and nothing otherwise |
| Samples.ChunkLevel | highlighter/audio.py:69 | definition: an empty chunk is NaN (mean of nothing), an all-zero chunk is minus infinity (log of 0), any other chunk the loudness of its samples |
| Samples.Usable | highlighter/audio.py:70 | definition: `not result == -inf and result > 0` under IEEE comparison (NaN is never usable) |
| Samples.UsableReadingsAppend | highlighter/audio.py:68-71 | the filter works chunk by chunk: it commutes with concatenation |
| Samples.SilentChunkUnusable | highlighter/audio.py:69-70 | an all-zero or empty chunk never yields a reading |
| Samples.DecibelsFromChunks | highlighter/audio.py:66-72 | the loop returns exactly the usable readings of the chunks, in order |
| Samples.MaxOf | highlighter/audio.py:115 | max of a non-empty list is one of its elements and no element exceeds it |
| Samples.FirstWhere | highlighter/audio.py:119-128 | the first index satisfying the test: all earlier ones fail it |
| Audio.Settings | highlighter/audio.py:17-35 | a maximum depth that is absent or 0 means no limit; the output and video paths keep their length and contain no backslash |
| Audio.Stream | highlighter/audio.py:109-113 | one reading list (or a failure) per second of the file |
| Audio.Readings | highlighter/audio.py:111-113 | definition: an unreadable second or a split below one section fails; otherwise the usable readings of the `accuracy` chunks |
| Audio.Judge | highlighter/audio.py:115-151 | definition of the verdict for one second: quiet without a loud reading, halt at the depth limit, suppress when a captured second lies in `[i - start_point, i)`, else accept the first loud reading (proved in Audio.SecondDecision) |
| Audio.Apply | highlighter/audio.py:128-151 | definition of a verdict's effect: accept records the second, appends it to the ledger and issues its clip unless already captured; suppress only appends to the ledger; quiet changes nothing |
| Audio.RunFrom | highlighter/audio.py:109-158 | definition of the scan from second i: stops with `Exhausted` after the last second, `Aborted` at an unreadable one, `MaxReached` on a halt, otherwise applies the verdict and goes on (Audio.Analyze is proved equal to it) |
| Audio.FirstLoud | highlighter/audio.py:119-128 | the index of the first reading at or above the target: every earlier reading is below it |
| Audio.LoudIffMax | highlighter/audio.py:115-128 | the max(decibels) guard passes exactly when the inner loop finds a reading at or above the target |
| Audio.Analyze | highlighter/audio.py:102-158 | the result dict, the clip jobs and the stop reason are exactly those of the scan specification over the file's seconds |
| Audio.ReadDecibels | highlighter/audio.py:111-113 | one second read, split into `accuracy` chunks and turned into its usable readings; no readings when the read or the split raises |
| Audio.ScanLoudSecond | highlighter/audio.py:119-151 | the inner loop halts exactly on the depth limit and otherwise performs the judged step (suppress or accept) |
| Audio.SecondDecision | highlighter/audio.py:115-151 | a quiet second changes nothing; the depth limit is checked only for a loud second; a loud second joins the ledger; it is suppressed iff a captured second lies in [i - start_point, i); otherwise it is recorded with its first loud reading and its clip |
| Audio.StepKeepsGood | highlighter/audio.py:119-152 | one second keeps the invariant: well-formed dict, increasing spaced keys, ledger below the next second, one clip per key |
| Audio.AcceptKeepsGood | highlighter/audio.py:135-151 | accepting an uncovered second below the depth limit keeps that invariant |
| Audio.RunKeepsGood | highlighter/audio.py:109-158 | the invariant holds when the scan stops, whatever the reason |
| Audio.AnalyzeGuarantees | highlighter/audio.py:102-158 | keys are distinct, increasing and more than start_point apart, and all are seconds of the file; the clip jobs are one per key in order; at most maximum_depth highlights |
| Audio.RunExtends | highlighter/audio.py:102-158 | the scan only adds: ledger, key order and clips extend what they were |
| Audio.StopReasons | highlighter/audio.py:121-126 | a stop is caused by a failed read at that second, or by the depth limit reached at a loud second, or by running out of seconds after reading all of them |
| Audio.AbortReason | highlighter/audio.py:109-113 | an aborted scan names an unreadable second, and every second before it from the start was read |
| Audio.HaltReason | highlighter/audio.py:119-126 | a scan stopped by the depth limit names a read, loud second at which the dict holds exactly maximum_depth entries |
| Audio.ExhaustReason | highlighter/audio.py:109-113 | a scan that ran out of seconds read every one of them |
| Audio.ScanToFirstLoud | highlighter/audio.py:115-151 | with only quiet seconds before the first loud one, the scan reaches it and accepts it with its first loud reading |
| Audio.LastLoud | highlighter/audio.py:128-151 | a loud last second followed by quiet ones is suppressed when covered and accepted otherwise, and the scan then runs out of seconds |
| Audio.AbortKeepsPrefix | highlighter/audio.py:153-155 | a failed read returns exactly what the seconds before it had built |
| Audio.QuietStretch | highlighter/audio.py:115-117 | quiet seconds are skipped without effect |
| Audio.TwoLoudSeconds | highlighter/audio.py:128-151 | two loud seconds: both are recorded iff they are more than start_point apart, else only the first |
| Audio.TenSecondExample | highlighter/audio.py:102-158 | seconds 3 and 7 loud, start/end 2: records [3, 7] with clips [1, 5] and [5, 9] |
| Audio.ReadSecond | highlighter/audio.py:166-170 | a second yields accuracy levels, or fails for an unreadable window or accuracy below one |
| Audio.LevelRows | highlighter/audio.py:166-170 | one row of levels per second |
| Audio.PeakFrom | highlighter/audio.py:173-175 | definition of the running peak: each level strictly above it replaces it (its meaning is Audio.PeakFromBounds) |
| Audio.RefFrom | highlighter/audio.py:160-180 | definition of get_ref from second i: fails at a second that cannot be read or split, else appends the second's mean and raises the peak (its meaning is Audio.ReferenceFacts) |
| Audio.PeakFromBounds | highlighter/audio.py:173-175 | the running peak never drops, no level in the row exceeds it, and it is the start value or one of the levels |
| Audio.PeakIsGreatest | highlighter/audio.py:162-175 | the peak over the seconds is at least -0.0, no level exceeds it, and unless it stays at 0 it is a level that occurred |
| Audio.RefFromFails | highlighter/audio.py:166-170 | the reference fails exactly when a later second is unreadable or the split count is below one |
| Audio.RefFromAverages | highlighter/audio.py:171-177 | one average per second, each the mean of that second's levels |
| Audio.RefFromPeak | highlighter/audio.py:173-175 | the returned peak is the peak over all seconds |
| Audio.ReferenceFacts | highlighter/audio.py:160-180 | get_ref: fails iff a second is unreadable (or accuracy < 1 on a non-empty file); else one mean per second and the greatest reading, bounded below by 0 and by every level |
| Audio.GetRef | highlighter/audio.py:160-180 | the loop returns exactly the reference specification |
| Audio.ReadLevels | highlighter/audio.py:167-170 | the per-second read returns exactly ReadSecond |
| Audio.RaisePeak | highlighter/audio.py:173-175 | the inner loop returns the running peak over the levels |
| Video.Settings | highlighter/video.py:13-31 | a maximum depth that is absent or 0 means no limit; the other settings are kept as given |
| Video.SampledCount | highlighter/video.py:49-52 | definition: the number of frames among the first n with `frame_count % fps == 0` (its closed form is Video.SampledCountIsCeiling) |
| Video.Judge | highlighter/video.py:78-94 | definition of the verdict for a sampled second: halt at the depth limit first, dark below the target, suppress when a captured second lies in `[second - start_point, second)`, else accept (proved in Video.SecondDecision) |
| Video.Apply | highlighter/video.py:84-100 | definition of a verdict's effect: every applied verdict sets the counter; accept records the luminance, appends to the ledger and issues the clip; suppress only appends to the ledger |
| Video.RunFrom | highlighter/video.py:48-108 | definition of the scan from frame n: `Exhausted` after the last frame, `Interrupted` at an interrupt, `Crashed` for fps 0, unsampled frames skipped, `MaxReached` on a halt (Video.Analyze is proved equal to it) |
| Video.Analyze | highlighter/video.py:35-109 | the result dict, clip jobs and stop reason are exactly those of the frame-scan specification |
| Video.CounterCountsSampledFrames | highlighter/video.py:43-52 | the second counter equals the number of sampled frames among those read |
| Video.SampledCountIsCeiling | highlighter/video.py:49-52 | for positive fps, the sampled frames among the first n number ceil(n / fps) |
| Video.UnsampledFramesIgnored | highlighter/video.py:48-53 | frames that are not sampled never influence the scan |
| Video.SecondDecision | highlighter/video.py:78-100 | the depth limit is checked first; a dark second only advances the counter; a bright second joins the ledger; it is suppressed iff a captured second lies in [second - start_point, second); otherwise it is recorded under a new, larger key with its clip |
| Video.AcceptKeepsGood | highlighter/video.py:89-100 | accepting keeps the scan invariant |
| Video.AcceptedLedger | highlighter/video.py:89-94 | an accepted second is a new key appended to the key order, and the ledger stays increasing |
| Video.AcceptedOrder | highlighter/video.py:84-94 | accepted seconds stay more than start_point apart and within the depth limit |
| Video.StepKeepsGood | highlighter/video.py:49-106 | one sampled frame keeps the invariant |
| Video.AdvanceKeepsGood | highlighter/video.py:52 | advancing the counter keeps the invariant |
| Video.RunKeepsGood | highlighter/video.py:48-109 | the invariant holds when the scan stops |
| Video.AnalyzeGuarantees | highlighter/video.py:35-109 | keys are distinct, increasing, more than start_point apart, within [1, last second]; one clip per key in order; at most maximum_depth highlights |
| Video.RunCapturesPositive | highlighter/video.py:44-52 | seconds are counted from 1: no captured second is 0 |
| Video.InterruptKeepsPrefix | highlighter/video.py:107-108 | an interrupt returns exactly what the frames before it had built |
| LegacyArguments.SeekOf | main.py:78-81 | there is a following argument iff index + 1 is in range, and then it is that argument |
| LegacyArguments.Parse | main.py:18-76 | every exit has status 1, and the option checks themselves raise nothing the model tracks (the console's markup errors and an `OSError` from `Path.exists` are the exceptions, see Left out) |
| LegacyArguments.ArgumentParser.constructor | main.py:18-34 | drops the program name and leaves exactly the parse outcome of the remaining arguments |
| LegacyArguments.ArgumentParser.Seek | main.py:78-81 | returns the following argument without moving the cursor |
| LegacyArguments.ArgumentParser.Next | main.py:83-88 | past the end: nothing; at the last argument: IndexError after the index moves; otherwise the index moves by one and current is the next argument |
| LegacyArguments.ArgumentParser.Run | main.py:36-76 | the match on the current argument leaves exactly the parse outcome |
| LegacyArguments.NoArgumentsExit | main.py:25-27 | no arguments: exit status 1 |
| LegacyArguments.UnknownOptionExits | main.py:74-76 | an unrecognised first argument: exit status 1 |
| LegacyArguments.TargetOptionAlwaysExits | main.py:38-49 | `-t` always exits with status 1 and never changes the target (see Findings) |
| LegacyArguments.VideoOption | main.py:51-70 | `-i PATH` keeps running iff PATH is non-empty and exists, and then PATH is the video |
| LegacyArguments.HelpKeepsDefaults | main.py:71-73 | `-h` keeps running with the defaults |
| LegacyArguments.LaterArgumentsIgnored | main.py:36-76 | only the first option (and its value) is looked at |
| LegacyArguments.DecimalOfWhole | main.py:45 | the intended number check reads an integer string as its value |
| LegacyArguments.DecimalOfParts | main.py:45 | a whole.fraction string reads as its decimal value |
| LegacyArguments.DecimalOfFraction | main.py:45 | the decimal of n.m is n + m / 10^digits(m) |
| LegacyArguments.IntendedTargetAccepted | main.py:38-50 | with the intended check, `-t N` keeps running with target N |
| LegacyArguments.IntendedTargetRejectsNonNumbers | main.py:45-47 | with the intended check, `-t` followed by a non-number exits with status 1 |
| LegacyAnalysis.SecondRow | main.py:119-120 | a second is split into 1000 chunk levels |
| LegacyAnalysis.Rows | main.py:128-132 | one row of levels per second |
| LegacyAnalysis.Crossing | main.py:135-136 | the first reading at or above the target: all earlier ones are below it |
| LegacyAnalysis.Records | main.py:122-154 | definition of the legacy dict over the seconds so far: a second with a crossing chunk is inserted with that chunk's index and level (its meaning is LegacyAnalysis.RecordsMeaning) |
| LegacyAnalysis.RecordsMeaning | main.py:122-154 | the dict has a key exactly for each second with a reading at or above the target, in increasing order, storing that second's first such reading |
| LegacyAnalysis.Analyze | main.py:122-154 | the nested loops return exactly that dict |
| LegacyAnalysis.SplitIntoMilliseconds | main.py:129-132 | one second split into 1000 chunks, with the level of every chunk |
| LegacyAnalysis.RecordSecond | main.py:135-149 | a loud second is recorded with its first loud reading and joins the ledger (replacing the previous second); a quiet one changes nothing |
| LegacyAnalysis.LedgerStep | main.py:137-143 | the ledger holds exactly the recorded seconds whose successor is not recorded |
| LegacyAnalysis.IndexOf | main.py:139 | list.index: the first position of the value |
| LegacyAnalysis.SortedKeys | main.py:166 | sorted(keys): increasing, holding exactly the keys |
| LegacyAnalysis.RemoveFirst | main.py:172 | list.remove of a present value shortens the list by one and keeps only elements of the input (compile removes only values it has just read from the list, so the `ValueError` for an absent value never arises); RemoveFirstExact gives the exact result |
| LegacyAnalysis.RemoveFirstExact | main.py:172 | list.remove of a present value deletes exactly its first occurrence (the position list.index finds) and keeps every other element in order |
| LegacyAnalysis.RemoveFirstAt | main.py:172 | on an increasing list, remove deletes the element at its position |
| LegacyAnalysis.DropKeepsIncreasing | main.py:172 | deleting one element keeps the list increasing |
| LegacyAnalysis.Sweep | main.py:170-172 | the inner `enumerate` loop from position k: a point in `[second, second + 20)` is removed and the next position is visited, so the point that shifts into its slot is skipped; every point it keeps was in the input, and it is no longer than the input |
| LegacyAnalysis.Pass | main.py:169-172 | one removal pass: a sweep for the point at each position of the shrinking list; every point it keeps was in the input, and it is no longer than the input |
| LegacyAnalysis.Pruned | main.py:166-177 | definition: the two removal passes over the sorted keys (proved an increasing subset in LegacyAnalysis.PrunedIsSortedSubset) |
| LegacyAnalysis.SweepKeepsIncreasing | main.py:170-172 | one enumerate sweep keeps the list increasing |
| LegacyAnalysis.PassKeepsIncreasing | main.py:169-172 | one removal pass keeps the list increasing |
| LegacyAnalysis.PrunedIsSortedSubset | main.py:166-177 | after both passes the points are an increasing selection of the keys |
| LegacyAnalysis.FirstPointDropped | main.py:169-172 | the first pass removes the smallest key itself |
| LegacyAnalysis.LoneHighlightDropped | main.py:169-177 | a single highlight is removed entirely |
| LegacyAnalysis.SpreadHighlightsExample | main.py:169-177 | keys 0, 30, 60, 90 leave only 90 |
| LegacyAnalysis.RemovalPass | main.py:169-172 | the nested loops mutating the list compute exactly one removal pass |
| LegacyAnalysis.Bound | main.py:198 | every point lies below the bound |
| LegacyAnalysis.Streak | main.py:194-201 | the run of consecutive points starting at a second: all inside it are points and the next is not |
| LegacyAnalysis.ClipsFrom | main.py:180-204 | definition of the clip loop from position j: a point whose predecessor is captured is skipped, any other gets `[t - 10, t + 20 + run]` and the ledger gains it and its run (LegacyAnalysis.ClipLoop is proved equal to it) |
| LegacyAnalysis.ClipLoop | main.py:180-206 | the clip loop produces exactly the clip specification |
| LegacyAnalysis.ClipPoint | main.py:181-201 | one point of the clip loop: the clip specification from this point is the job it emits (none for a skipped point) followed by the specification from the next point over the ledger it leaves |
| LegacyAnalysis.Lengthen | main.py:193-201 | the end offset is 20 plus the length of the run after the second, and the ledger gains that run |
| LegacyAnalysis.ClipsAroundPoints | main.py:180-204 | every clip is for a point, starts 10 s before it, and ends 20 s after its run of consecutive points |
| LegacyAnalysis.FirstPointClipped | main.py:180-204 | the first remaining point always gets a clip |
| LegacyAnalysis.SuccessorsNotClipped | main.py:184-186 | a point whose predecessor is a point never gets its own clip |
| LegacyAnalysis.Compile | main.py:156-206 | the clips are those of the pruned, sorted keys |
| LegacyAnalysis.LoneHighlightNoClip | main.py:156-206 | a single highlight produces no clip (see Findings) |
| LegacyAnalysis.KeepFromSpaced | main.py:169-177 | corrected thinning: the kept seconds are increasing and at least 20 apart |
| LegacyAnalysis.KeepFromCovers | main.py:169-177 | corrected thinning: every second lies within 20 s after a kept one |
| LegacyAnalysis.DedupeFacts | main.py:169-177 | corrected thinning keeps a subset, spaced at least 20 s, including the first key, and covering every key |
| LegacyAnalysis.ClipsFromLone | main.py:180-204 | a point with no neighbours gets the plain window [t - 10, t + 20] |
| LegacyAnalysis.SpacedNeighbours | main.py:184 | in spaced points no point follows another one second later |
| LegacyAnalysis.SpacedClipsFrom | main.py:180-204 | spaced points each get exactly their plain window, in order |
| LegacyAnalysis.SpacedClips | main.py:180-204 | spaced points get one plain clip each |
| LegacyAnalysis.SpacedClipsCover | main.py:180-204 | every second near a kept point lies inside some clip |
| LegacyAnalysis.IntendedClipsCoverHighlights | main.py:166-204 | corrected compile: every highlighted second lies inside some clip |
| LegacyAnalysis.SpacedClipsPlain | main.py:190-204 | clips of spaced points are plain windows around a point |
| LegacyAnalysis.IntendedClipsArePlainWindows | main.py:166-204 | corrected compile: every clip is [t - 10, t + 20] around a highlighted second |
| LegacyAnalysis.DestinationsDistinct | main.py:204 | clips for different seconds go to different files |

## Left out

- The floating-point maths is a parameter of the model: RMS to decibels, `np.mean` of readings, luminance from RGB. Comparisons against readings follow IEEE semantics for NaN and minus infinity.
- Reading the wave file, unpacking it with `struct`, and decoding frames with OpenCV. Each is an input sequence of windows or frames.
- Which exceptions the audio analyser's bare `except` catches. Any of them is a `Window.Unreadable`.
- `convert_from_video` and the ffmpeg process runs are left out. The model produces the clip jobs and never runs them.
- The threads that extract audio clips are left out. Clip jobs are modelled as issued in order.
- Progress bars, log warnings and console output are left out. Apart from the markup errors named under LegacyArguments.Parse, they change no state the model tracks.
- `compile`'s JSON dump into `highlights.json` is left out, and so is the `FileExistsError` its `'x'` open raises on a second run.
- The legacy script's top-level statements (the ffmpeg conversion, building the analyser) are left out. So are `highlighter/__init__.py`, `common.py` and `dataset.py`: they are not part of this model.
- The legacy `AudioAnalysis.__init__` and `_read` are left out. A read failure there is not caught, so the legacy detector is modelled on readable seconds only.
- Video: a keyboard interrupt is modelled only between frames, as an `Interrupt` frame.
- Video: a frame rate of 0 is a `Crashed` stop, because the `ZeroDivisionError` is not caught.
- Audio.PeakIsGreatest: the starting peak `-0.0` is modelled as `0.0`. The sign of zero is not observable through the comparisons the code makes.
- LegacyArguments.ArgumentParser.constructor: it requires a non-empty `argv`. Python always provides the program name; `pop(0)` on an empty list is not modelled.
- The `keywords`, `prioritize_speed`, `seek` and `temp_dir` attributes are left out. No modelled operation reads them.
- LegacyArguments.Parse: an argument that holds rich markup the console cannot close (such as `[/]`) makes `console.print` raise a `MarkupError` at main.py:66 or main.py:75, which nothing catches. The model gives `Exited(1)` there, not `Crashed`. The exit status is 1 either way.
- LegacyArguments.Parse: `pathlib.Path(video_path).exists()` at main.py:65 returns False only for a missing file or a bad name. Any other `OSError` it meets (permission denied on a directory of the path, a name too long) propagates and ends the script with a traceback. The model's `pathExists` is a total predicate, so such a path counts as missing and the model gives `Exited(1)` instead of an uncaught error. The exit status is 1 either way.
- Video.Analyze, LegacyAnalysis.Compile: the model assumes every ffmpeg launch succeeds, as on Windows with ffmpeg on the `PATH`. Both pass one command string to `subprocess.Popen` without `shell=True` (video.py:95-97, main.py:203-204), and neither catches a failed launch: video.py:107 catches only `KeyboardInterrupt`, and `compile` has no `try`. When the launch fails (on POSIX the whole string is taken as the program name, so it always does), the first accepted second or the first clip raises `FileNotFoundError`, `analyze` returns nothing and `compile` stops. The model instead issues every clip job and goes on. The audio analyser splits its command with `shlex.split` and launches it in a thread, so a failed launch there does not stop the scan, and the audio model does not need this assumption.
- LegacyArguments.ParseIntended: it accepts only unsigned decimals (`digits` or `digits.digits`), not the whole syntax of Python's `float()`.
- The `-i` option's `isinstance(video_path, str)` check is always true for command-line strings, so the model has no branch for it.

## Findings

| source | as written | input that shows it | evidently intended | confidence | as-written member | corrected member |
|---|---|---|---|---|---|---|
| main.py:45 | the `-t` value is checked with `isinstance(target_decibel, float)`, but command-line arguments are always strings, so the check always fails | `main.py -t 90` exits with status 1 and the target stays 85.0 | convert the argument to a number, and exit only when it is not one | high (not executed) | LegacyArguments.TargetOptionAlwaysExits | LegacyArguments.IntendedTargetAccepted |
| main.py:169-177 | each removal pass deletes points in `[second, second + 20)`, starting with `second` itself, while iterating over the list it mutates, so it skips the point that shifts into each removed slot | one highlight at second 42 yields no clip; highlights at 0, 30, 60, 90 yield only the clip at 90 | keep `second` and drop only the later points within 20 s, so each cluster keeps one anchor and every highlight lies inside a clip | medium (not executed) | LegacyAnalysis.LoneHighlightNoClip | LegacyAnalysis.IntendedClipsCoverHighlights |
