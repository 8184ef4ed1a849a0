# 720p HEVC server — a Dafny model of its decision logic

The service takes a YouTube URL and runs a three-stage pipeline:

1. **Download.** Seven download strategies are tried in turn. Each one is an attempt with
   the extractor library, and each attempt classifies its own faults.
2. **Transcode.** An encoder pass produces 720p HEVC. It probes the input first, picks one of
   three command lines, and judges the exit status and the output file.
3. **Upload.** The result goes to the hosting service. A size ceiling and a trial read come
   first, then at most three calls, and the final fault is classified.

Around the pipeline the service also has:

- an HTTP front with a URL check, a health report and a response mapping;
- a cookie-file validator and a request-header generator;
- an encoder capability checker that recommends encoder settings;
- a start-up script that checks dependencies and the `.env` file;
- a settings object with a process-wide cache.

This project models that decision logic in Dafny and proves what it promises. Everything the
service asks of the outside world becomes an input value of the model:

- the extractor, the probe and the encoder;
- the hosting service and the file system;
- the clock and randomness.

Modules, one per component:

| module | file | models |
|---|---|---|
| `Download` | `download.dfy` | the strategies, one attempt with its fault tables and file choice, the fallback loop |
| `Transcode` | `transcode.dfy` | probe verdict, command choice and command lines, exit classification, output checks |
| `Upload` | `upload.dfy` | public id, size ceiling, retry loop, fault classification |
| `Pipeline` | `pipeline.dfy` | the coordinator: stages in order, short-circuit, clean-up |
| `Api` | `api.dfy` | URL validator, health report and status loop, `/process` response |
| `YoutubeUtils` | `youtube.dfy` | cookie validation, request headers, connectivity report |
| `FfmpegCheck` | `ffmpeg_check.dfy` | speed-test thresholds, capability check, recommended settings |
| `Runner` | `runner.dfy` | dependency check, `.env` check, start-up order |
| `Config` | `config.dfy` | settings validation, the settings cache |
| `Phrases` | `phrases.dfy` | ordered, case-insensitive phrase tables (first match wins) |
| `Strings`, `Seqs`, `Wrappers` | `strings.dfy`, `seqs.dfy`, `wrappers.dfy` | Python string operations (`in`, `lower`, `strip`, `split`, `join`, `str(int)`), sequence filters and searches, `Option`/`Result` |

Loops in the source are methods with loop invariants, each proved equal to a specification
function. The lemmas state the properties of those functions:

- `Download.DownloadWithFallbacks` is proved against `Download.Fallback`.
- `Upload.UploadWithRetry` is proved against `Upload.RetryOutcome`.
- `Api.ComputeStatus` is proved against `Api.OverallStatus`.
- `Runner.CheckEnvFile` is proved against `Runner.FlaggedVars`.

Objects updated in place are classes; the settings cache is `Config.SettingsCache`. Sleeps and
the clean-up call become ghost counters and ghost flags.

Where the service's written design and its code differ, the model follows the code:

- A missing cookie file makes the cookie strategy an ordinary failed attempt with the error
  `Cookies file not available`. It is not skipped.
- A non-zero exit status from the stream probe is fatal. It is not treated as "proceed
  anyway".
- A separately downloaded audio track takes precedence over both other command lines, even
  when the probe found no video stream.
- Sanitising an id replaces each disallowed character with its own underscore, so the length
  is kept: `abc 123!@#` becomes `abc_123___`.

## Model

| member | source | states |
|---|---|---|
| `Download.CollectDownloaded` | backend/video_processor.py:482-485 | the media files of the listing are exactly those ending in one of the ten extensions, in listing order |
| `Download.SelectDownloadChoosesFirstMedia` | backend/video_processor.py:494-510 | a chosen file is the first media file of the listing, it has at least 1024 bytes, and the result is its path in the workspace |
| `Download.SelectDownloadRefusals` | backend/video_processor.py:487-498 | without a media file the choice fails, saying "only images" exactly when some file ends in `.mhtml` and "no files downloaded" exactly when none does; with one, it refuses for size exactly when the first is under 1024 bytes |
| `Download.MhtmlCheckUnreachable` | backend/video_processor.py:500-502 | the `.mhtml` check on the chosen file never fires, because a chosen file ends in a media extension |
| `Download.SizeFloorBoundary` | backend/video_processor.py:497-498 | a 1023-byte media file is refused as empty or corrupted and a 1024-byte one is taken |
| `Download.DownloadWithOptions` | backend/video_processor.py:403-545 | one attempt never lets an exception escape: every fault ends in a failure text |
| `Download.VideoUnavailableMatchesFirstRow` | backend/video_processor.py:441-447 | a message containing `video unavailable` matches the access-restriction group, which contains `unavailable` |
| `Download.MetadataVideoUnavailableShadowed` | backend/video_processor.py:440-449 | a metadata fault mentioning `video unavailable` is answered `Access restricted: <message>` |
| `Download.MetadataNeverSaysUnavailable` | backend/video_processor.py:448-449 | the metadata handler never answers `Video is unavailable or deleted` |
| `Download.StrategyOutcomes` | backend/video_processor.py:86-94 | there is one outcome per strategy of the fixed list of seven |
| `Download.StrategiesContained` | backend/video_processor.py:126-401 | no strategy raises, and a success is marked audio-only exactly when it comes from the last strategy |
| `Download.MissingCookiesIsAFailure` | backend/video_processor.py:174-219 | without a cookie file the cookie strategy fails with `Cookies file not available` |
| `Download.DownloadWithFallbacks` | backend/video_processor.py:82-124 | the loop returns the first success or the prefixed last error, makes exactly the attempts up to the first success, and waits once before every attempt but the first |
| `Download.FirstSuccessWins` | backend/video_processor.py:104-110 | the first successful strategy's download is returned and no later strategy runs |
| `Download.AllFailedReportsLast` | backend/video_processor.py:111-124 | when all strategies fail, all of them run and the error is `All download strategies failed. Last error: ` followed by the last strategy's error |
| `Download.LaterOutcomesIrrelevant` | backend/video_processor.py:104-110 | outcomes after the first success do not change the result or the number of attempts |
| `Download.AudioOnlyOnlyAsLastResort` | backend/video_processor.py:364-401 | an audio-only download means every strategy was tried |
| `Phrases.ClassifyPicks` | backend/video_processor.py:440-479 | a table answers with the reply of the first row that matches the lower-cased message |
| `Phrases.ClassifyNone` | backend/video_processor.py:452 | a message that matches no row is not answered by the table; it is re-raised |
| `Phrases.ClassifySome` | backend/video_processor.py:512-543 | an answered message matched the row whose reply it got |
| `Transcode.ProbeRefusals` | backend/video_processor.py:555-598 | the probe refuses exactly on a non-zero exit or a readable answer with neither a video nor an audio stream; a readable answer with a stream is accepted reporting exactly which of the two it lists; an unreadable answer, a timeout or another probe exception guesses video from the extension and assumes audio |
| `Transcode.GroupOptions` | backend/video_processor.py:608-612 | the shared option groups set libx265, CRF 28, AAC, 96k and the 720-line scale |
| `Transcode.StillImageCommandTargets` | backend/video_processor.py:601-620 | the still-picture command runs the encoder on the input over a lavfi black 1280x720 source with `-shortest`, as HEVC CRF 28 with the medium preset and 96k AAC, with `+faststart`, progress on `pipe:1`, and ends with `-y` and the output path |
| `Transcode.SingleInputCommandTargets` | backend/video_processor.py:621-639 | the single-input command encodes the input as HEVC CRF 28 with the medium preset and 96k AAC, scales to `-2:720`, sets `+faststart` and `-avoid_negative_ts make_zero`, reports progress on `pipe:1`, and ends with `-y` and the output path |
| `Transcode.SeparateAudioCommandTargets` | backend/video_processor.py:641-662 | the two-input command takes the picture from input 0 and the sound from input 1, encodes as HEVC CRF 28 with the medium preset and 96k AAC at 720 lines, sets `+faststart` and `-avoid_negative_ts make_zero`, reports progress on `pipe:1`, and ends with `-y` and the output path |
| `Transcode.ShapePrecedence` | backend/video_processor.py:600-662 | the separate-audio command is chosen exactly when an audio path is given, exists and the input is not audio; audio input always gets the still picture |
| `Transcode.MissingEncoderFirst` | backend/video_processor.py:884-886 | an error text naming libx265 with `not found` or `unknown encoder` is reported as the missing HEVC encoder before any other class |
| `Transcode.UnrecognisedExit` | backend/video_processor.py:899-902 | an unrecognised failure with a non-blank error text quotes exactly its first 200 characters (all of it when shorter); a blank text reports the return code |
| `Transcode.TranscodeSucceedsExactly` | backend/video_processor.py:904-918 | the stage succeeds exactly when the probe accepts, the encoder exits with 0 and leaves an output of at least 1024 bytes, and the result is the fixed output path |
| `Transcode.AsWrittenFailsWhenEncoderSpeaks` | backend/video_processor.py:869-870 | as written, after an accepted probe every encoder run that exited having printed anything fails with the `'str' object has no attribute 'decode'` error |
| `Transcode.DecodeOnTextCounterexample` | backend/video_processor.py:707-836 | a status-0 run printing `progress=end` with a 2048-byte output fails as written and succeeds when its text is taken as text |
| `Transcode.AsWrittenAgreesWhenSilent` | backend/video_processor.py:868-918 | when the encoder printed nothing, the as-written and the corrected stage agree |
| `Upload.Sanitize` | backend/video_processor.py:933 | the sanitised id has the original's length and only characters of `[A-Za-z0-9_-]`; `Upload.SanitizeProps` says which character replaces a disallowed one |
| `Upload.SanitizeProps` | backend/video_processor.py:933 | a character is kept exactly when it is allowed, every disallowed character becomes `_`, and sanitising twice changes nothing |
| `Upload.SanitizeExample` | backend/video_processor.py:933 | `abc 123!@#` becomes `abc_123___` |
| `Upload.PublicIdShape` | backend/video_processor.py:930-934 | the public id is `youtube_hevc_720p/` followed by a slash-free name as long as the id, or as `unknown` when there is no id |
| `Upload.RoundedTenthsNearest` | backend/video_processor.py:945 | the size in megabytes shown in the too-large message is within half a tenth of the exact size, with ties to the even tenth |
| `Upload.CeilingIsStrict` | backend/video_processor.py:939-953 | the checks before any call fail exactly when the size exceeds `max_video_size_mb * 1024 * 1024` or the trial read fails; a file of exactly the ceiling goes on to the read |
| `Upload.TooLargeExample` | backend/video_processor.py:942-946 | a 600 MiB file under a 500 MB ceiling gets `Video file too large (600.0MB > 500MB)` |
| `Upload.UploadWithRetry` | backend/video_processor.py:955-993 | the loop returns the first call that delivers a URL or the last call's error, makes at most three calls, and waits after every failed call but the last |
| `Upload.UploadToCloudinary` | backend/video_processor.py:924-1009 | no upload call is made when a check before the calls fails; otherwise the result is the retry loop's |
| `Upload.FirstDeliveryWins` | backend/video_processor.py:972-986 | the first delivering call's URL, size and id are returned and no later call is made |
| `Upload.OnlyLastFaultReported` | backend/video_processor.py:988-993 | earlier faults are retried and forgotten: only the third call decides the error |
| `Upload.MissingUrlIsFailure` | backend/video_processor.py:972-977 | answers without a secure URL count as failed calls and end with `Upload failed - no secure URL returned` |
| `Upload.TimeoutFirst` | backend/video_processor.py:997-998 | a message containing `timeout` is reported as an upload timeout before any other class |
| `Upload.CredentialsNeedBoth` | backend/video_processor.py:1001-1002 | the invalid-credentials text needs both `invalid` and `credentials` in the message |
| `Pipeline.ProcessVideo` | backend/video_processor.py:33-80 | the coordinator's result is `Process`; it runs the stages `StagesRun` and cleans up exactly when the workspace was created |
| `Pipeline.TranscodeAndUpload` | backend/video_processor.py:48-72 | after a download, the upload runs only when the transcode succeeded |
| `Pipeline.StagesShortCircuit` | backend/video_processor.py:43-62 | the stages run are a prefix of download, transcode, upload and stop at the first failure; a success ran all three |
| `Pipeline.SuccessRecord` | backend/video_processor.py:64-71 | a success takes its URL and size from the upload and its duration, id and title from the download's metadata; the uploaded file is the workspace's output of at least 1024 bytes |
| `Pipeline.FailureComesFromAStage` | backend/video_processor.py:38-76 | every failure carries the error of the stage that failed, or of creating the workspace |
| `Pipeline.DefaultCeiling` | backend/config.py:17 | with the default `max_video_size_mb` of 500, the upload checks take a readable file of exactly 524288000 bytes and refuse one of 524288001 bytes as `Video file too large (500.0MB > 500MB)` |
| `Api.ValidateYoutubeUrl` | backend/main.py:57-69 | an accepted URL is returned unchanged |
| `Api.ValidateExactly` | backend/main.py:58-69 | a URL is accepted exactly when it names a listed domain and is neither a playlist nor a channel URL; the domain test comes first, then the playlist test, then the channel test |
| `Api.DomainTestIsTwoDomains` | backend/main.py:59-61 | the five-domain test is the same as asking for `youtube.com` or `youtu.be` |
| `Api.DomainAnywhere` | backend/main.py:59-62 | the domain test is plain containment: `youtu.be` anywhere in the text passes it |
| `Api.ComputeStatus` | backend/main.py:181-191 | the status loop computes `OverallStatus` |
| `Api.StatusExactly` | backend/main.py:182-191 | degraded exactly when libx265 is missing; otherwise unhealthy exactly when a critical dependency is absent or has one of the four down values |
| `Api.OddEncoderFailuresIgnored` | backend/main.py:112-134 | a timed-out encoder probe or one that raised something else does not make the service unhealthy |
| `Api.ConstructedSettingsConfigureCloudinary` | backend/main.py:163-172 | settings that passed their own validation always report Cloudinary as configured |
| `Api.CommentHeaderLooksEmpty` | backend/main.py:147-160 | a cookie file opening with a comment line is reported as an empty template, while the validator judges it by the lines after the header |
| `Api.HealthCheck` | backend/main.py:100-201 | without a processor the report is unhealthy with the configuration error; otherwise it holds the dependency entries, the overall status and each advice exactly when its condition holds |
| `Api.ToResponse` | backend/main.py:215-264 | every response is success or failure, and it carries an error exactly when it is a failure |
| `Api.ResponseCopies` | backend/main.py:231-253 | a success with a URL copies URL, duration, size, id and title with no error; any other status passes the error on, or `Unknown error occurred` when there is none |
| `Api.PipelineResponse` | backend/main.py:228-253 | for every coordinator run the endpoint answers success exactly when the run succeeded, with its fields, and a failed run's error is passed on |
| `YoutubeUtils.SignificantLines` | backend/youtube_utils.py:180 | the significant lines are the stripped lines that are non-empty and not comments, and every such line is among them |
| `YoutubeUtils.FoundNeedsLines` | backend/youtube_utils.py:185-186 | cookies are found only when there are significant lines, and at most four are found |
| `YoutubeUtils.ValidateCookiesVerdict` | backend/youtube_utils.py:162-198 | the file is valid exactly when it can be read and at least three of the four important cookies are found |
| `YoutubeUtils.ValidateCookiesMessages` | backend/youtube_utils.py:172-198 | the message names the test that failed: a missing file, a read error (with its text), a file of only comments or blank lines, or no important cookie at all |
| `YoutubeUtils.ValidateCookiesCounts` | backend/youtube_utils.py:188-195 | with k of the four important cookies found, the message is `Only k/4 critical cookies found` for 1 ≤ k < 3 and `Found k/4 critical cookies` for k ≥ 3 |
| `YoutubeUtils.FoundCookiesExactly` | backend/youtube_utils.py:185-186 | an important cookie is reported exactly when it is named on some significant line, in the fixed order |
| `YoutubeUtils.CommentHeaderIgnored` | backend/youtube_utils.py:180 | a comment line at the top of the file does not change the verdict or the message |
| `YoutubeUtils.AgentCandidates` | backend/youtube_utils.py:65 | the candidate user agents are listed agents whose `Mobile` mark matches the request, and there are none exactly when no listed agent matches |
| `YoutubeUtils.Pick` | backend/youtube_utils.py:65-75 | a random choice returns a member of the list it chose from |
| `YoutubeUtils.FixedHeaders` | backend/youtube_utils.py:64-77 | the fixed headers carry the chosen agent and referrer, language, fetch site and cache control from their lists, and no `DNT` or `TE` |
| `YoutubeUtils.GetHttpHeaders` | backend/youtube_utils.py:57-86 | the headers fail exactly when no agent suits the platform; otherwise the agent suits it, `DNT: 1` is present exactly when the first roll is below 0.5, and `TE: Trailers` exactly when the second is below 0.3 |
| `YoutubeUtils.CheckConnectivity` | backend/youtube_utils.py:200-271 | YouTube counts as accessible exactly when the probe extracted or raised a download error; a download error naming any listed bot phrase, in any capitalisation, sets bot detection with the `YouTube bot detection is active: ` message; any other fault leaves the report pessimistic with its error; the cookie fields are the validator's |
| `FfmpegCheck.RunEncodingTest` | backend/check_ffmpeg.py:123-206 | the speed test computes `EncodingTest`, whose completion, constraint, preset and codec rules are the lemmas below |
| `FfmpegCheck.ConstrainedExactly` | backend/check_ffmpeg.py:187-190 | the test completes exactly when the H.264 run, and with HEVC support also the HEVC run, measured; the machine is constrained exactly when the test completed with an H.264 rate below 15; without a rate, `medium` and `libx264` stay |
| `FfmpegCheck.PresetMonotone` | backend/check_ffmpeg.py:187-199 | a faster machine never gets a faster preset |
| `FfmpegCheck.HevcExactly` | backend/check_ffmpeg.py:192-200 | libx265 is recommended exactly with HEVC support, a non-zero HEVC rate and either H.264 in [30, 60) with HEVC at least 15 or H.264 at least 60 with HEVC at least 30; otherwise libx264 |
| `FfmpegCheck.AsWrittenNeverRecommends` | backend/check_ffmpeg.py:162 | as written, every finished H.264 run makes the check raise `KeyError`, and otherwise the defaults stay |
| `FfmpegCheck.HevcSupportCounterexample` | backend/check_ffmpeg.py:197 | at 45 H.264 and 20 HEVC frames per second the check as written raises; the corrected check recommends `fast` with `libx265` |
| `FfmpegCheck.GetRecommendedSettings` | backend/check_ffmpeg.py:208-258 | without ffmpeg only the status and message; a constrained machine gets libx264, ultrafast, CRF 28, `-2:480`, one thread; otherwise codec and preset from the test, CRF 23 exactly for libx264, at most two threads, and the container status and `veryfast` only in a container |
| `Runner.MissingOf` | backend/run.py:14-21 | the missing dependencies are exactly those whose run exited with an error or was not found, in order; none exactly when none such |
| `Runner.CheckDependencies` | backend/run.py:9-31 | the check computes `DependencyVerdict`, and when it returns, its list of missing dependencies is `MissingOf` |
| `Runner.DependencyVerdictExactly` | backend/run.py:9-31 | the check returns true exactly when every dependency ran, and returns false exactly when one is missing and none raised anything else |
| `Runner.CheckEnvFile` | backend/run.py:33-58 | a missing `.env` fails before any variable is checked; otherwise the flagged variables in the order of the required list, passing exactly when there are none |
| `Runner.PlaceholderIsAnAssignment` | backend/run.py:50 | a placeholder assignment `VAR=your_` also contains `VAR=`, so a variable is flagged when it is unassigned or assigned the placeholder |
| `Runner.EnvOkExactly` | backend/run.py:40-58 | the `.env` check passes exactly when the file exists and assigns every required variable something other than the placeholder |
| `Runner.Start` | backend/run.py:60-70 | start-up checks dependencies first and the environment only after they pass, and ends as `StartOutcomeOf` says |
| `Runner.StartOrder` | backend/run.py:64-70 | the server starts exactly when every dependency ran and the `.env` passes; any failing check exits with status 1 |
| `Config.Defaults` | backend/config.py:15-18 | the defaults are no debug, a 500 MB ceiling and no temporary directory |
| `Config.MissingAmong` | backend/config.py:29-35 | the reported names are exactly the variables of the falsy credentials, in order |
| `Config.Construct` | backend/config.py:24-37 | construction succeeds exactly when all three credentials are truthy; otherwise it raises `Missing required environment variables: ` and the names joined by `, ` |
| `Config.MissingByAppends` | backend/config.py:29-35 | the list of missing names is what the three conditional appends build |
| `Config.MissingExactly` | backend/config.py:28-35 | a credential is reported exactly when it is falsy, and none is reported exactly when construction succeeds |
| `Config.MissingCloudNameMessage` | backend/config.py:30-37 | with only the cloud name missing, the message names that variable alone |
| `Config.AllMissingNames` | backend/config.py:29-35 | with every credential missing, all three names are reported in order |
| `Config.AllMissingMessage` | backend/config.py:37 | with every credential missing, the message lists the three names, comma-separated, in order |
| `Config.SettingsCache.constructor` | backend/config.py:40 | the cache starts empty |
| `Config.SettingsCache.GetSettings` | backend/config.py:42-46 | once the cache holds settings every call returns them and constructs nothing; at most one construction succeeds, and a failing one leaves the cache empty |

## Left out

- The extractor library, the stream probe, the encoder, the hosting service's client, the
  file system, `tempfile` and `os.listdir`. What each one answers during a run is an input
  value (`Attempt`, `ProbeRun`, `EncoderRun`, `OutputFile`, `UploadCall`, `World`).
- The extractor options each strategy sets (user agents, innertube keys, formats), the
  options added to every attempt (`ydl_opts.update`), and the header and user-agent literals
  of the header module. They are configuration data, not behaviour.
- Randomised delays and `asyncio.sleep`. Two of them are counted by ghost counters: `delays`
  counts the pause before every download strategy but the first
  (`backend/video_processor.py:104-106`), and `waits` counts the five-second pauses between
  upload attempts (`:975`, `:991`). The others are not counted: the random pause of 0.5 to 2
  seconds inside each download attempt (`:455`) and the one-second pause before clean-up
  (`:1017`). Random choices are given as draws; `random.choice` takes its index modulo the
  list length.
- The thread-pool wait around the encoder and its 30-minute timeout. These are concurrency;
  only the timed-out outcome is modelled, as an input case. The encoder process is never
  terminated by the code.
- The live progress parsing and printing of the encoder worker, which uses floating-point
  rates and console output. The parsing can affect the outcome: `int(value)` for `frame` and
  `out_time_ms` and `float(value)` for `fps` (`backend/video_processor.py:807-812`) raise on a
  value such as `N/A`, which the encoder writes for `out_time_ms` before it knows an output
  timestamp. The worker then reports status -1 with the exception's text (`:834-836`), and the
  stage fails. The model covers that case through the input `Exited(-1, None, Some(msg))`, but
  it does not derive it from the encoder's progress lines.
- Windows path and quoting adjustments for the encoder command.
- The walk over the workspace in the clean-up. Clean-up is modelled only as "was invoked".
- The upload stage is given the encoder output's size; the file it reads is the one the
  transcode produced.
- An `id` key that is present but `None` in the metadata, which makes the sanitising raise.
  The model takes a missing id as `unknown`.
- `Upload.RoundedTenthsNearest`: rounds the exact quotient. Python formats the nearest
  double, which is the same value for sizes below 2^53 bytes only.
- Python's `lower()` and `strip()` are modelled on ASCII letters and on Python's whitespace
  set. No other Unicode case mapping is modelled.
- The health check's process and import probes, which become the inputs `FfmpegProbe`,
  `ffprobeRan` and `ytDlpVersion`. The order of keys in the report dictionary is not
  modelled.
- The Cloudinary value `error` in the health report, which the code can produce only when
  its settings access raises. The model takes the settings as loaded or not.
- `check_ffmpeg`: `splitlines()[0]` on an empty version output raises `IndexError`, which is
  not modelled. Neither are the encoder list extraction and `h264_support`/`aac_support`,
  which nothing reads.
- `get_system_info`'s `/proc` parsing and the encoding test's subprocesses. Their results
  (CPU count, container flag, frames per second) are inputs.
- `generate_cookies_file` and the network part of the connectivity check. The probe's result
  is an input.
- FastAPI routing, CORS, response models, uvicorn start-up, logging, console output and the
  pydantic loading of the environment and `.env`.
- `Api.ToResponse`: the HTTP status code and the fixed `processing_info` texts are reduced to
  the tag `InfoBlock`.

## Findings

| source | as written | input that shows it | evidently intended | confidence | as-written member | corrected member |
|---|---|---|---|---|---|---|
| backend/video_processor.py:869-870 | the encoder worker opens its pipes in text mode and returns `str`, yet the stage calls `.decode('utf-8', ...)` on any non-empty output, which raises `AttributeError`; the last handler reports `Processing failed: 'str' object has no attribute 'decode'` | an encoder that exits with 0 after writing `progress=end` (the command always asks for progress on standard output) and leaves a 2048-byte output | take the text as it is, then judge the status and the output file | not executed | `Transcode.TranscodeAsWritten` (shown by `Transcode.DecodeOnTextCounterexample`) | `Transcode.Transcode` (proved in `Transcode.TranscodeSucceedsExactly`, used by `Pipeline.Process`) |
| backend/check_ffmpeg.py:162 | `run_encoding_test` reads `results["hevc_support"]` from its own results, which never have that key, so it raises `KeyError`; `check_ffmpeg` does not catch that, so a machine whose H.264 run finishes never gets a recommendation | `ffmpeg -version` exits with 0, the encoder list names libx265, and the H.264 run measures 45 frames per second | use the HEVC support `check_ffmpeg` detected, giving `fast` with `libx265` when HEVC reaches 20 frames per second | not executed | `FfmpegCheck.CheckFfmpegAsWritten` (shown by `FfmpegCheck.HevcSupportCounterexample`) | `FfmpegCheck.CheckFfmpeg` (thresholds proved in `FfmpegCheck.HevcExactly`) |
