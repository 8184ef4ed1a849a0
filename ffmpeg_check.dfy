/** The encoder capability checker (`check_ffmpeg.py`): an encoding speed test picks a preset
    and a codec, and the recommended settings are derived from it, the CPU count and whether
    the service runs in a container. */
module FfmpegCheck {
  import opened Wrappers
  import opened Strings

  // ---------------------------------------------------------------------------------------
  // Encoding speed test (`run_encoding_test`)
  // ---------------------------------------------------------------------------------------

  /** One timed encoding run: it either finishes, with the frames per second read from its
      progress output (`None` when no rate could be read), or raises a subprocess error (a
      timeout, say), whose message is given. */
  datatype EncodingRun = Measured(fps: Option<real>) | RunRaised(msg: string)

  datatype TestResults = TestResults(
    performanceTest: string, fpsH264: Option<real>, fpsHevc: Option<real>,
    preset: string, codec: string, resourceConstrained: bool)

  /** The results before any run. */
  const Untested := TestResults("not_run", None, None, "medium", "libx264", false)

  /** Python truthiness of an optional rate: `None` and `0.0` are falsy. */
  predicate Falsy(fps: Option<real>) {
    fps.None? || fps.value == 0.0
  }

  /** The preset for a measured H.264 rate: faster presets for slower machines. */
  function PresetFor(h264Fps: real): string {
    if h264Fps < 15.0 then "ultrafast"
    else if h264Fps < 30.0 then "veryfast"
    else if h264Fps < 60.0 then "fast"
    else "medium"
  }

  /** The codec for a measured H.264 rate: HEVC only on machines fast enough for it. */
  function CodecFor(h264Fps: real, hevcSupport: bool, hevcFps: Option<real>): string {
    if h264Fps < 30.0 then "libx264"
    else if h264Fps < 60.0 then (if !hevcSupport || Falsy(hevcFps) || hevcFps.value < 15.0 then "libx264" else "libx265")
    else if !hevcSupport || Falsy(hevcFps) || hevcFps.value < 30.0 then "libx264"
    else "libx265"
  }

  /** The outcome of the speed test, given whether the encoder supports HEVC (the HEVC run
      takes place only then). A run that raises ends the test with `failed: <message>` and the
      initial recommendations. */
  function EncodingTest(h264: EncodingRun, hevcSupport: bool, hevc: EncodingRun): TestResults {
    if h264.RunRaised? then Untested.(performanceTest := "failed: " + h264.msg)
    else if hevcSupport && hevc.RunRaised? then Untested.(performanceTest := "failed: " + hevc.msg)
    else
      var hevcFps := if hevcSupport then hevc.fps else None;
      var done := Untested.(performanceTest := "completed", fpsH264 := h264.fps, fpsHevc := hevcFps);
      match h264.fps
      case None => done
      case Some(f) =>
        done.(preset := PresetFor(f), codec := CodecFor(f, hevcSupport, hevcFps), resourceConstrained := f < 15.0)
  }

  /** `run_encoding_test`, with the HEVC support the checker detected as an input. */
  method RunEncodingTest(h264: EncodingRun, hevcSupport: bool, hevc: EncodingRun) returns (results: TestResults)
    ensures results == EncodingTest(h264, hevcSupport, hevc)
  {
    results := Untested;
    if h264.RunRaised? {
      results := results.(performanceTest := "failed: " + h264.msg);
      return;
    }
    var h264Fps := h264.fps;
    var hevcFps: Option<real> := None;
    if hevcSupport {
      if hevc.RunRaised? {
        results := results.(performanceTest := "failed: " + hevc.msg);
        return;
      }
      hevcFps := hevc.fps;
    }
    results := results.(fpsH264 := h264Fps, fpsHevc := hevcFps, performanceTest := "completed");
    if h264Fps.Some? {
      var f := h264Fps.value;
      if f < 15.0 {
        results := results.(resourceConstrained := true, preset := "ultrafast", codec := "libx264");
      } else if f < 30.0 {
        results := results.(preset := "veryfast", codec := "libx264");
      } else if f < 60.0 {
        var codec := if !hevcSupport || Falsy(hevcFps) || hevcFps.value < 15.0 then "libx264" else "libx265";
        results := results.(preset := "fast", codec := codec);
      } else {
        var codec := if !hevcSupport || Falsy(hevcFps) || hevcFps.value < 30.0 then "libx264" else "libx265";
        results := results.(preset := "medium", codec := codec);
      }
    }
  }

  /** The machine is flagged as constrained exactly when the test completed with an H.264 rate
      below 15 frames per second; without a rate the defaults `medium` and `libx264` stay. */
  lemma ConstrainedExactly(h264: EncodingRun, hevcSupport: bool, hevc: EncodingRun)
    ensures var r := EncodingTest(h264, hevcSupport, hevc);
      && (r.resourceConstrained <==> r.performanceTest == "completed" && h264.Measured? && h264.fps.Some? && h264.fps.value < 15.0)
      && (r.fpsH264.None? ==> r.preset == "medium" && r.codec == "libx264")
      && (r.performanceTest == "completed" <==> h264.Measured? && (hevcSupport ==> hevc.Measured?))
  {
    var r := EncodingTest(h264, hevcSupport, hevc);
    if h264.RunRaised? {
      assert r.performanceTest[0] == 'f';
    } else if hevcSupport && hevc.RunRaised? {
      assert r.performanceTest[0] == 'f';
    }
  }

  /** The rank of a preset from fastest to slowest encoding. */
  function PresetRank(preset: string): nat {
    if preset == "ultrafast" then 0
    else if preset == "veryfast" then 1
    else if preset == "fast" then 2
    else 3
  }

  /** A faster machine never gets a faster (lower quality) preset. */
  lemma PresetMonotone(f1: real, f2: real)
    requires f1 <= f2
    ensures PresetRank(PresetFor(f1)) <= PresetRank(PresetFor(f2))
  {
    assert PresetRank("ultrafast") == 0;
    assert PresetRank("veryfast") == 1 by { assert "veryfast"[0] != "ultrafast"[0]; }
    assert PresetRank("fast") == 2 by {
      assert "fast"[0] != "ultrafast"[0];
      assert |"fast"| != |"veryfast"|;
    }
    assert PresetRank("medium") == 3 by {
      assert "medium"[0] != "ultrafast"[0];
      assert "medium"[0] != "veryfast"[0];
      assert "medium"[0] != "fast"[0];
    }
  }

  /** HEVC is recommended exactly when the encoder supports it, the HEVC rate is non-zero, and
      either the machine is in the `fast` band with an HEVC rate of at least 15 or in the
      `medium` band with one of at least 30; never below 30 H.264 frames per second. */
  lemma HevcExactly(f: real, hevcSupport: bool, hevcFps: Option<real>)
    ensures CodecFor(f, hevcSupport, hevcFps) == "libx265" <==>
      && hevcSupport && !Falsy(hevcFps)
      && ((30.0 <= f < 60.0 && hevcFps.value >= 15.0) || (60.0 <= f && hevcFps.value >= 30.0))
    ensures CodecFor(f, hevcSupport, hevcFps) != "libx265" ==> CodecFor(f, hevcSupport, hevcFps) == "libx264"
  {
    assert "libx264"[6] != "libx265"[6];
  }

  // ---------------------------------------------------------------------------------------
  // The capability check (`check_ffmpeg`) and the finding at its heart
  // ---------------------------------------------------------------------------------------

  /** A subprocess that exits with a status and its output, or raises a subprocess error or
      `FileNotFoundError`. */
  datatype ProcessRun = Exited(code: int, output: string) | ProcessRaised(msg: string)

  datatype FfmpegInfo = FfmpegInfo(available: bool, hevcSupport: bool, test: Option<TestResults>)

  /** `check_ffmpeg` with the speed test taking the detected HEVC support: the encoder is
      available when `ffmpeg -version` exits with 0; the encoder list, when it can be read,
      decides HEVC support, and the speed test then runs. */
  function CheckFfmpeg(version: ProcessRun, encoders: ProcessRun, h264: EncodingRun, hevc: EncodingRun): FfmpegInfo {
    if !(version.Exited? && version.code == 0) then FfmpegInfo(false, false, None)
    else if encoders.ProcessRaised? then FfmpegInfo(true, false, None)
    else
      var hevcSupport := encoders.code == 0 && Contains(encoders.output, "libx265");
      FfmpegInfo(true, hevcSupport, Some(EncodingTest(h264, hevcSupport, hevc)))
  }

  /** The exception the speed test raises when it reads `hevc_support` from its own results,
      which never hold that key. */
  const HevcSupportKeyError := "KeyError: 'hevc_support'"

  /** `run_encoding_test` as written: once the H.264 run has finished, reading the missing key
      raises, and only a subprocess error in the H.264 run gets the test past that point (with
      the initial recommendations). */
  function RunEncodingTestAsWritten(h264: EncodingRun): Result<TestResults, string> {
    match h264
    case RunRaised(msg) => Success(Untested.(performanceTest := "failed: " + msg))
    case Measured(_) => Failure(HevcSupportKeyError)
  }

  /** `check_ffmpeg` as written: the `KeyError` is not among the exceptions it catches, so it
      escapes to the caller. */
  function CheckFfmpegAsWritten(version: ProcessRun, encoders: ProcessRun, h264: EncodingRun): Result<FfmpegInfo, string> {
    if !(version.Exited? && version.code == 0) then Success(FfmpegInfo(false, false, None))
    else if encoders.ProcessRaised? then Success(FfmpegInfo(true, false, None))
    else
      var hevcSupport := encoders.code == 0 && Contains(encoders.output, "libx265");
      match RunEncodingTestAsWritten(h264)
      case Failure(e) => Failure(e)
      case Success(t) => Success(FfmpegInfo(true, hevcSupport, Some(t)))
  }

  /** As written, no speed test ever recommends anything: every H.264 run that finishes makes
      the check raise, and every other run leaves the initial `medium`/`libx264`. */
  lemma AsWrittenNeverRecommends(version: ProcessRun, encoders: ProcessRun, h264: EncodingRun)
    requires version.Exited? && version.code == 0 && encoders.Exited?
    ensures h264.Measured? ==> CheckFfmpegAsWritten(version, encoders, h264) == Failure(HevcSupportKeyError)
    ensures CheckFfmpegAsWritten(version, encoders, h264).Success? ==>
      var t := CheckFfmpegAsWritten(version, encoders, h264).value.test.value;
      t.preset == "medium" && t.codec == "libx264" && !t.resourceConstrained
  {
  }

  /** A machine encoding H.264 at 45 and HEVC at 20 frames per second: as written the check
      raises; the corrected check recommends `fast` with `libx265`. */
  lemma HevcSupportCounterexample()
    ensures CheckFfmpegAsWritten(Exited(0, "v"), Exited(0, "libx265"), Measured(Some(45.0))).Failure?
    ensures CheckFfmpeg(Exited(0, "v"), Exited(0, "libx265"), Measured(Some(45.0)), Measured(Some(20.0))).test
      == Some(TestResults("completed", Some(45.0), Some(20.0), "fast", "libx265", false))
  {
    assert OccursAt("libx265", "libx265", 0);
  }

  // ---------------------------------------------------------------------------------------
  // Recommended settings (`get_recommended_ffmpeg_settings`)
  // ---------------------------------------------------------------------------------------

  datatype Recommendations =
    | NotAvailable(status: string, text: string)
    | Encoding(status: string, message: Option<string>, codec: string, preset: string, crf: int,
               audioCodec: string, audioBitrate: string, scale: string, threads: int)

  const NotFoundMessage := "FFmpeg not found. Please install FFmpeg."
  const ConstrainedMessage := "System resources are limited. Using optimized settings."
  const ContainerMessage := "Running in container environment. Adjusted settings for better performance."

  function Min(a: int, b: int): int {
    if a <= b then a else b
  }

  /** `get_recommended_ffmpeg_settings`: `cpuCount` is the CPU count when it is an integer,
      `isDocker` whether the service runs in a container. The baseline is updated in place for
      a constrained machine, then for a container. */
  method GetRecommendedSettings(info: FfmpegInfo, cpuCount: Option<int>, isDocker: bool) returns (rec: Recommendations)
    ensures !info.available ==> rec == NotAvailable("ffmpeg_not_available", NotFoundMessage)
    ensures info.available ==> rec.Encoding? && rec.audioCodec == "aac" && rec.audioBitrate == "96k"
    ensures info.available && Constrained(info) ==>
      rec == Encoding("resource_constrained", Some(ConstrainedMessage), "libx264", "ultrafast", 28, "aac", "96k", "-2:480", 1)
    ensures info.available && !Constrained(info) ==>
      && rec.codec == (if info.test.Some? then info.test.value.codec else "libx264")
      && rec.crf == (if info.test.Some? && info.test.value.codec == "libx264" then 23 else 28)
      && rec.scale == "-2:720"
      && rec.threads == (if cpuCount.Some? then Min(2, cpuCount.value) else 2)
      && (isDocker ==> rec.status == "container_environment" && rec.preset == "veryfast" && rec.message == Some(ContainerMessage))
      && (!isDocker ==> rec.status == "ok" && rec.preset == (if info.test.Some? then info.test.value.preset else "medium") && rec.message.None?)
  {
    if !info.available {
      return NotAvailable("ffmpeg_not_available", NotFoundMessage);
    }
    var codec := if info.test.Some? then info.test.value.codec else "libx264";
    var preset := if info.test.Some? then info.test.value.preset else "medium";
    var crf := if info.test.Some? && info.test.value.codec == "libx264" then 23 else 28;
    var threads := if cpuCount.Some? then Min(2, cpuCount.value) else 2;
    rec := Encoding("ok", None, codec, preset, crf, "aac", "96k", "-2:720", threads);
    if Constrained(info) {
      rec := rec.(status := "resource_constrained", message := Some(ConstrainedMessage), codec := "libx264",
                  preset := "ultrafast", crf := 28, scale := "-2:480", threads := 1);
    }
    if isDocker && rec.status == "ok" {
      rec := rec.(status := "container_environment", message := Some(ContainerMessage), preset := "veryfast");
    }
  }

  /** The speed test flagged the machine as constrained. */
  predicate Constrained(info: FfmpegInfo) {
    info.test.Some? && info.test.value.resourceConstrained
  }
}
