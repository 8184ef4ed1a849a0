/** The transcoding stage of the video processor (`process_with_ffmpeg`): probe the downloaded
    file, choose one of three encoder command lines, run the encoder and judge its exit status and
    its output file. The probe, the encoder and the file system are not modelled; what they answer
    is given as values. */
module Transcode {
  import opened Wrappers
  import opened Strings
  import opened Phrases

  /** What the stream probe's JSON said: the `codec_type` of every stream (absent when a stream
      has none), or that its output could not be read as a JSON object with streams. */
  datatype ProbeOutput = StreamTypes(codecTypes: seq<Option<string>>) | Unreadable

  /** What running the stream probe did. */
  datatype ProbeRun = ProbeExited(code: int, output: ProbeOutput, stderr: string) | ProbeTimedOut | ProbeRaised(msg: string)

  /** The probe's verdict: refuse the input, or go on knowing whether it has video and audio. */
  datatype ProbeVerdict = Refused(error: string) | Accepted(hasVideo: bool, hasAudio: bool)

  /** The three encoder command lines. */
  datatype CommandShape = StillImage | SingleInput | SeparateAudio

  /** The kind of a fault raised around the worker rather than inside it (while preparing its
      environment or waiting on it): a missing file, a denied permission, or another exception. */
  datatype LaunchFault = ExecutableMissing | AccessDenied | OtherLaunchFault(typeName: string)

  /** What running the encoder did: its exit status with the text it wrote to its two streams,
      the 30-minute wait expiring, or a fault raised outside the worker. Any exception inside
      the worker, including a missing or non-executable encoder when the process is started or
      a progress value that does not parse, is reported as `Exited(-1, None, Some(msg))` with
      the exception's text; `LaunchFailed` is only for the outer handlers. */
  datatype EncoderRun =
    | Exited(code: int, stdout: Option<string>, stderr: Option<string>)
    | EncoderTimedOut
    | LaunchFailed(cause: LaunchFault, msg: string)

  /** The output file after the encoder ran. */
  datatype OutputFile = NotCreated | Created(size: nat)

  const OutputName := "output_hevc_720p.mp4"

  function OutputPath(dir: string): string {
    dir + "/" + OutputName
  }

  /** Extensions the stage treats as audio-only input. */
  predicate IsAudioPath(path: string) {
    EndsWith(path, ".m4a") || EndsWith(path, ".mp3") || EndsWith(path, ".wav")
  }

  predicate HasStream(types: seq<Option<string>>, kind: string) {
    exists i :: 0 <= i < |types| && types[i] == Some(kind)
  }

  /** The probe step: a non-zero exit or a file with neither a video nor an audio stream is
      refused; when the probe gives no usable answer the stage guesses from the extension. */
  function Probe(videoPath: string, run: ProbeRun): ProbeVerdict {
    match run
    case ProbeExited(code, output, stderr) =>
      if code != 0 then
        Refused("Input file is corrupted or invalid: " + (if stderr != "" then stderr else "Unknown probe error"))
      else (
        match output
        case StreamTypes(types) =>
          var hasVideo := HasStream(types, "video");
          var hasAudio := HasStream(types, "audio");
          if !hasVideo && !hasAudio then Refused("No valid video or audio streams found")
          else Accepted(hasVideo, hasAudio)
        case Unreadable => Accepted(!IsAudioPath(videoPath), true)
      )
    case ProbeTimedOut => Accepted(!IsAudioPath(videoPath), true)
    case ProbeRaised(_) => Accepted(!IsAudioPath(videoPath), true)
  }

  /** The probe refuses exactly on a non-zero exit, or on a readable answer that lists neither a
      video nor an audio stream; a readable answer otherwise reports which of the two it lists,
      and an unreadable answer, a timeout or another fault falls back to the extension guess. */
  lemma ProbeRefusals(videoPath: string, run: ProbeRun)
    ensures Probe(videoPath, run).Refused? <==>
      run.ProbeExited? && (run.code != 0 ||
        (run.output.StreamTypes? && !HasStream(run.output.codecTypes, "video") && !HasStream(run.output.codecTypes, "audio")))
    ensures Probe(videoPath, run).Accepted? ==> Probe(videoPath, run).hasVideo || Probe(videoPath, run).hasAudio
    ensures run.ProbeExited? && run.code == 0 && run.output.StreamTypes?
              && (HasStream(run.output.codecTypes, "video") || HasStream(run.output.codecTypes, "audio")) ==>
      Probe(videoPath, run) == Accepted(HasStream(run.output.codecTypes, "video"), HasStream(run.output.codecTypes, "audio"))
    ensures (run.ProbeExited? && run.code == 0 && run.output.Unreadable?) || !run.ProbeExited? ==>
      Probe(videoPath, run) == Accepted(!IsAudioPath(videoPath), true)
  {
  }

  /** The command line choice: a separately downloaded audio track, when given, present and the
      primary file is not audio, overrides the others; otherwise audio-only input, or input
      without video, is encoded over a still black picture. */
  function ChooseShape(videoPath: string, audioPath: Option<string>, audioExists: bool, hasVideo: bool): CommandShape {
    if audioPath.Some? && audioPath.value != "" && audioExists && !IsAudioPath(videoPath) then SeparateAudio
    else if IsAudioPath(videoPath) || !hasVideo then StillImage
    else SingleInput
  }

  /** The encoder argument list for a shape. */
  function Command(shape: CommandShape, videoPath: string, audioPath: string, outputPath: string): seq<string> {
    match shape
    case StillImage => StillImageCommand(videoPath, outputPath)
    case SingleInput => SingleInputCommand(videoPath, outputPath)
    case SeparateAudio => SeparateAudioCommand(videoPath, audioPath, outputPath)
  }

  /** Option groups the command lines share. */
  const HevcVideo: seq<string> := ["-c:v", "libx265", "-crf", "28", "-preset", "medium"]
  const AacAudio: seq<string> := ["-c:a", "aac", "-b:a", "96k"]
  const Scale720: seq<string> := ["-vf", "scale=-2:720"]
  const FastStart: seq<string> := ["-movflags", "+faststart"]
  const ZeroTimestamps: seq<string> := ["-avoid_negative_ts", "make_zero"]
  const Progress: seq<string> := ["-stats", "-progress", "pipe:1"]

  function Overwrite(outputPath: string): seq<string> {
    ["-y", outputPath]
  }

  function StillImageCommand(videoPath: string, outputPath: string): seq<string> {
    ["ffmpeg", "-f", "lavfi", "-i", "color=c=black:s=1280x720:r=1", "-i", videoPath]
      + (HevcVideo + (AacAudio + (["-shortest"] + (FastStart + (Progress + Overwrite(outputPath))))))
  }

  function SingleInputCommand(videoPath: string, outputPath: string): seq<string> {
    ["ffmpeg", "-i", videoPath]
      + (HevcVideo + (Scale720 + (AacAudio + (FastStart + (ZeroTimestamps + (Progress + Overwrite(outputPath)))))))
  }

  function SeparateAudioCommand(videoPath: string, audioPath: string, outputPath: string): seq<string> {
    ["ffmpeg", "-i", videoPath, "-i", audioPath]
      + (HevcVideo + (Scale720 + (AacAudio + (["-map", "0:v:0", "-map", "1:a:0"]
      + (FastStart + (ZeroTimestamps + (Progress + Overwrite(outputPath))))))))
  }

  /** `flag value` appears as consecutive arguments of `cmd`. */
  predicate HasOption(cmd: seq<string>, flag: string, value: string) {
    exists i :: 0 <= i < |cmd| - 1 && cmd[i] == flag && cmd[i + 1] == value
  }

  lemma OptionAt(cmd: seq<string>, i: nat, flag: string, value: string)
    requires i < |cmd| - 1 && cmd[i] == flag && cmd[i + 1] == value
    ensures HasOption(cmd, flag, value)
  {
  }

  /** An option of a part is an option of any command line that starts or ends with it. */
  lemma OptionKept(a: seq<string>, b: seq<string>, flag: string, value: string)
    requires HasOption(a, flag, value) || HasOption(b, flag, value)
    ensures HasOption(a + b, flag, value)
  {
    if HasOption(a, flag, value) {
      var i :| 0 <= i < |a| - 1 && a[i] == flag && a[i + 1] == value;
      OptionAt(a + b, i, flag, value);
    } else {
      var i :| 0 <= i < |b| - 1 && b[i] == flag && b[i + 1] == value;
      OptionAt(a + b, |a| + i, flag, value);
    }
  }

  /** The encoder options of the shared groups. */
  lemma GroupOptions()
    ensures HasOption(HevcVideo, "-c:v", "libx265") && HasOption(HevcVideo, "-crf", "28")
    ensures HasOption(AacAudio, "-c:a", "aac") && HasOption(AacAudio, "-b:a", "96k")
    ensures HasOption(HevcVideo, "-preset", "medium")
    ensures HasOption(Scale720, "-vf", "scale=-2:720")
  {
    OptionAt(HevcVideo, 4, "-preset", "medium");
    OptionAt(HevcVideo, 0, "-c:v", "libx265");
    OptionAt(HevcVideo, 2, "-crf", "28");
    OptionAt(AacAudio, 0, "-c:a", "aac");
    OptionAt(AacAudio, 2, "-b:a", "96k");
    OptionAt(Scale720, 0, "-vf", "scale=-2:720");
  }

  /** The options the command lines end with: the index moved to the front, progress on
      standard output and, for the scaled lines, timestamps shifted to start at zero. */
  lemma TailOptions(outputPath: string)
    ensures var t := FastStart + (Progress + Overwrite(outputPath));
      HasOption(t, "-movflags", "+faststart") && HasOption(t, "-progress", "pipe:1")
    ensures var t := FastStart + (ZeroTimestamps + (Progress + Overwrite(outputPath)));
      && HasOption(t, "-movflags", "+faststart") && HasOption(t, "-avoid_negative_ts", "make_zero")
      && HasOption(t, "-progress", "pipe:1")
  {
    var ow := Overwrite(outputPath);
    OptionAt(FastStart, 0, "-movflags", "+faststart");
    OptionAt(ZeroTimestamps, 0, "-avoid_negative_ts", "make_zero");
    OptionAt(Progress, 1, "-progress", "pipe:1");
    OptionKept(Progress, ow, "-progress", "pipe:1");
    OptionKept(FastStart, Progress + ow, "-movflags", "+faststart");
    OptionKept(FastStart, Progress + ow, "-progress", "pipe:1");
    OptionKept(ZeroTimestamps, Progress + ow, "-avoid_negative_ts", "make_zero");
    OptionKept(ZeroTimestamps, Progress + ow, "-progress", "pipe:1");
    OptionKept(FastStart, ZeroTimestamps + (Progress + ow), "-movflags", "+faststart");
    OptionKept(FastStart, ZeroTimestamps + (Progress + ow), "-avoid_negative_ts", "make_zero");
    OptionKept(FastStart, ZeroTimestamps + (Progress + ow), "-progress", "pipe:1");
  }

  /** What every command line does: run the encoder on the primary file, encode video as
      HEVC at quality 28 with the medium preset and audio as 96 kbit/s AAC, move the index to
      the front of the file, report progress on standard output, and overwrite the output file. */
  predicate TargetsHevc(cmd: seq<string>, videoPath: string, outputPath: string) {
    && |cmd| >= 3 && cmd[0] == "ffmpeg" && cmd[|cmd| - 2] == "-y" && cmd[|cmd| - 1] == outputPath
    && HasOption(cmd, "-i", videoPath)
    && HasOption(cmd, "-c:v", "libx265") && HasOption(cmd, "-crf", "28")
    && HasOption(cmd, "-c:a", "aac") && HasOption(cmd, "-b:a", "96k")
    && HasOption(cmd, "-preset", "medium") && HasOption(cmd, "-movflags", "+faststart")
    && HasOption(cmd, "-progress", "pipe:1")
  }

  /** The still-picture command puts the primary file's sound over a black 1280x720 picture and
      stops with the shorter input. */
  lemma StillImageCommandTargets(videoPath: string, outputPath: string)
    ensures var cmd := StillImageCommand(videoPath, outputPath);
      && TargetsHevc(cmd, videoPath, outputPath)
      && HasOption(cmd, "-f", "lavfi") && HasOption(cmd, "-i", "color=c=black:s=1280x720:r=1")
      && "-shortest" in cmd
  {
    var head := ["ffmpeg", "-f", "lavfi", "-i", "color=c=black:s=1280x720:r=1", "-i", videoPath];
    var rest := AacAudio + (["-shortest"] + (FastStart + (Progress + Overwrite(outputPath))));
    var cmd := StillImageCommand(videoPath, outputPath);
    GroupOptions();
    OptionAt(head, 1, "-f", "lavfi");
    OptionAt(head, 3, "-i", "color=c=black:s=1280x720:r=1");
    OptionAt(head, 5, "-i", videoPath);
    OptionKept(head, HevcVideo + rest, "-f", "lavfi");
    OptionKept(head, HevcVideo + rest, "-i", "color=c=black:s=1280x720:r=1");
    OptionKept(head, HevcVideo + rest, "-i", videoPath);
    OptionKept(HevcVideo, rest, "-c:v", "libx265");
    OptionKept(head, HevcVideo + rest, "-c:v", "libx265");
    OptionKept(HevcVideo, rest, "-crf", "28");
    OptionKept(head, HevcVideo + rest, "-crf", "28");
    var tail := ["-shortest"] + (FastStart + (Progress + Overwrite(outputPath)));
    OptionKept(AacAudio, tail, "-c:a", "aac");
    OptionKept(AacAudio, tail, "-b:a", "96k");
    OptionKept(HevcVideo, rest, "-c:a", "aac");
    OptionKept(HevcVideo, rest, "-b:a", "96k");
    OptionKept(head, HevcVideo + rest, "-c:a", "aac");
    OptionKept(head, HevcVideo + rest, "-b:a", "96k");
    var ends := FastStart + (Progress + Overwrite(outputPath));
    TailOptions(outputPath);
    OptionKept(["-shortest"], ends, "-movflags", "+faststart");
    OptionKept(["-shortest"], ends, "-progress", "pipe:1");
    OptionKept(AacAudio, tail, "-movflags", "+faststart");
    OptionKept(AacAudio, tail, "-progress", "pipe:1");
    OptionKept(HevcVideo, rest, "-movflags", "+faststart");
    OptionKept(HevcVideo, rest, "-progress", "pipe:1");
    OptionKept(HevcVideo, rest, "-preset", "medium");
    OptionKept(head, HevcVideo + rest, "-movflags", "+faststart");
    OptionKept(head, HevcVideo + rest, "-progress", "pipe:1");
    OptionKept(head, HevcVideo + rest, "-preset", "medium");
    assert cmd[|head| + |HevcVideo| + |AacAudio|] == "-shortest";
  }

  /** The single-input command scales the picture to 720 lines, keeping the aspect ratio, and
      shifts timestamps to start at zero. */
  lemma SingleInputCommandTargets(videoPath: string, outputPath: string)
    ensures var cmd := SingleInputCommand(videoPath, outputPath);
      && TargetsHevc(cmd, videoPath, outputPath) && HasOption(cmd, "-vf", "scale=-2:720")
      && HasOption(cmd, "-avoid_negative_ts", "make_zero")
  {
    var head := ["ffmpeg", "-i", videoPath];
    var tail := FastStart + (ZeroTimestamps + (Progress + Overwrite(outputPath)));
    var audio := AacAudio + tail;
    var scaled := Scale720 + audio;
    GroupOptions();
    OptionAt(head, 1, "-i", videoPath);
    OptionKept(AacAudio, tail, "-c:a", "aac");
    OptionKept(AacAudio, tail, "-b:a", "96k");
    OptionKept(Scale720, audio, "-c:a", "aac");
    OptionKept(Scale720, audio, "-b:a", "96k");
    OptionKept(Scale720, audio, "-vf", "scale=-2:720");
    OptionKept(HevcVideo, scaled, "-c:v", "libx265");
    OptionKept(HevcVideo, scaled, "-crf", "28");
    OptionKept(HevcVideo, scaled, "-vf", "scale=-2:720");
    OptionKept(HevcVideo, scaled, "-c:a", "aac");
    OptionKept(HevcVideo, scaled, "-b:a", "96k");
    OptionKept(head, HevcVideo + scaled, "-i", videoPath);
    OptionKept(head, HevcVideo + scaled, "-c:v", "libx265");
    OptionKept(head, HevcVideo + scaled, "-crf", "28");
    OptionKept(head, HevcVideo + scaled, "-vf", "scale=-2:720");
    OptionKept(head, HevcVideo + scaled, "-c:a", "aac");
    OptionKept(head, HevcVideo + scaled, "-b:a", "96k");
    TailOptions(outputPath);
    OptionKept(AacAudio, tail, "-movflags", "+faststart");
    OptionKept(AacAudio, tail, "-avoid_negative_ts", "make_zero");
    OptionKept(AacAudio, tail, "-progress", "pipe:1");
    OptionKept(Scale720, audio, "-movflags", "+faststart");
    OptionKept(Scale720, audio, "-avoid_negative_ts", "make_zero");
    OptionKept(Scale720, audio, "-progress", "pipe:1");
    OptionKept(HevcVideo, scaled, "-movflags", "+faststart");
    OptionKept(HevcVideo, scaled, "-avoid_negative_ts", "make_zero");
    OptionKept(HevcVideo, scaled, "-progress", "pipe:1");
    OptionKept(head, HevcVideo + scaled, "-movflags", "+faststart");
    OptionKept(head, HevcVideo + scaled, "-avoid_negative_ts", "make_zero");
    OptionKept(head, HevcVideo + scaled, "-progress", "pipe:1");
    OptionKept(HevcVideo, scaled, "-preset", "medium");
    OptionKept(head, HevcVideo + scaled, "-preset", "medium");
  }

  /** The separate-audio command scales to 720 lines, shifts timestamps to start at zero, and
      takes the picture from the first input and the sound from the second. */
  lemma SeparateAudioCommandTargets(videoPath: string, audioPath: string, outputPath: string)
    ensures var cmd := SeparateAudioCommand(videoPath, audioPath, outputPath);
      && TargetsHevc(cmd, videoPath, outputPath) && HasOption(cmd, "-vf", "scale=-2:720")
      && HasOption(cmd, "-i", audioPath) && HasOption(cmd, "-map", "0:v:0") && HasOption(cmd, "-map", "1:a:0")
      && HasOption(cmd, "-avoid_negative_ts", "make_zero")
  {
    var head := ["ffmpeg", "-i", videoPath, "-i", audioPath];
    var maps := ["-map", "0:v:0", "-map", "1:a:0"];
    var tail := maps + (FastStart + (ZeroTimestamps + (Progress + Overwrite(outputPath))));
    var audio := AacAudio + tail;
    var scaled := Scale720 + audio;
    GroupOptions();
    OptionAt(head, 1, "-i", videoPath);
    OptionAt(head, 3, "-i", audioPath);
    OptionAt(maps, 0, "-map", "0:v:0");
    OptionAt(maps, 2, "-map", "1:a:0");
    OptionKept(maps, FastStart + (ZeroTimestamps + (Progress + Overwrite(outputPath))), "-map", "0:v:0");
    OptionKept(maps, FastStart + (ZeroTimestamps + (Progress + Overwrite(outputPath))), "-map", "1:a:0");
    OptionKept(AacAudio, tail, "-c:a", "aac");
    OptionKept(AacAudio, tail, "-b:a", "96k");
    OptionKept(AacAudio, tail, "-map", "0:v:0");
    OptionKept(AacAudio, tail, "-map", "1:a:0");
    OptionKept(Scale720, audio, "-c:a", "aac");
    OptionKept(Scale720, audio, "-b:a", "96k");
    OptionKept(Scale720, audio, "-map", "0:v:0");
    OptionKept(Scale720, audio, "-map", "1:a:0");
    OptionKept(Scale720, audio, "-vf", "scale=-2:720");
    OptionKept(HevcVideo, scaled, "-c:v", "libx265");
    OptionKept(HevcVideo, scaled, "-crf", "28");
    OptionKept(HevcVideo, scaled, "-vf", "scale=-2:720");
    OptionKept(HevcVideo, scaled, "-c:a", "aac");
    OptionKept(HevcVideo, scaled, "-b:a", "96k");
    OptionKept(HevcVideo, scaled, "-map", "0:v:0");
    OptionKept(HevcVideo, scaled, "-map", "1:a:0");
    OptionKept(head, HevcVideo + scaled, "-i", videoPath);
    OptionKept(head, HevcVideo + scaled, "-i", audioPath);
    OptionKept(head, HevcVideo + scaled, "-c:v", "libx265");
    OptionKept(head, HevcVideo + scaled, "-crf", "28");
    OptionKept(head, HevcVideo + scaled, "-vf", "scale=-2:720");
    OptionKept(head, HevcVideo + scaled, "-c:a", "aac");
    OptionKept(head, HevcVideo + scaled, "-b:a", "96k");
    OptionKept(head, HevcVideo + scaled, "-map", "0:v:0");
    OptionKept(head, HevcVideo + scaled, "-map", "1:a:0");
    var ends := FastStart + (ZeroTimestamps + (Progress + Overwrite(outputPath)));
    TailOptions(outputPath);
    OptionKept(maps, ends, "-movflags", "+faststart");
    OptionKept(maps, ends, "-avoid_negative_ts", "make_zero");
    OptionKept(maps, ends, "-progress", "pipe:1");
    OptionKept(AacAudio, tail, "-movflags", "+faststart");
    OptionKept(AacAudio, tail, "-avoid_negative_ts", "make_zero");
    OptionKept(AacAudio, tail, "-progress", "pipe:1");
    OptionKept(Scale720, audio, "-movflags", "+faststart");
    OptionKept(Scale720, audio, "-avoid_negative_ts", "make_zero");
    OptionKept(Scale720, audio, "-progress", "pipe:1");
    OptionKept(HevcVideo, scaled, "-movflags", "+faststart");
    OptionKept(HevcVideo, scaled, "-avoid_negative_ts", "make_zero");
    OptionKept(HevcVideo, scaled, "-progress", "pipe:1");
    OptionKept(head, HevcVideo + scaled, "-movflags", "+faststart");
    OptionKept(head, HevcVideo + scaled, "-avoid_negative_ts", "make_zero");
    OptionKept(head, HevcVideo + scaled, "-progress", "pipe:1");
    OptionKept(HevcVideo, scaled, "-preset", "medium");
    OptionKept(head, HevcVideo + scaled, "-preset", "medium");
  }

  /** The separate audio track is used whenever it is given, present and the primary file is
      not audio, even when the probe found no video stream; an unprobed audio-only file is
      always put over a still picture. */
  lemma ShapePrecedence(videoPath: string, audioPath: Option<string>, audioExists: bool, hasVideo: bool)
    ensures ChooseShape(videoPath, audioPath, audioExists, hasVideo) == SeparateAudio <==>
      audioPath.Some? && audioPath.value != "" && audioExists && !IsAudioPath(videoPath)
    ensures IsAudioPath(videoPath) ==> ChooseShape(videoPath, audioPath, audioExists, hasVideo) == StillImage
    ensures ChooseShape(videoPath, None, audioExists, hasVideo) == SingleInput <==> !IsAudioPath(videoPath) && hasVideo
  {
  }

  /** What the stage runs, or why it stops before running anything. */
  function Plan(videoPath: string, audioPath: Option<string>, audioExists: bool, dir: string, probe: ProbeRun): Result<seq<string>, string> {
    match Probe(videoPath, probe)
    case Refused(e) => Failure(e)
    case Accepted(hasVideo, _) =>
      var shape := ChooseShape(videoPath, audioPath, audioExists, hasVideo);
      Success(Command(shape, videoPath, audioPath.GetOr(""), OutputPath(dir)))
  }

  /** Encoder failures recognised in its lower-cased error text, first match wins; the path
      quoted by the second row is the input file's. */
  const ExitRules: seq<Rule> := [
    Rule(["libx265"], ["not found", "unknown encoder"],
         Says("HEVC encoder (libx265) not available. Please install ffmpeg with libx265 support.")),
    Rule([], ["no such file or directory"], Quotes("Input file not found: ")),
    Rule([], ["invalid data found", "moov atom not found"], Says("Corrupted or incomplete video file")),
    Rule([], ["no space left"], Says("Insufficient disk space")),
    Rule([], ["permission denied"], Says("Permission denied accessing files")),
    Rule([], ["codec not currently supported"], Says("Video codec not supported")),
    Rule([], ["conversion failed"], Says("Video conversion failed - format may be unsupported"))
  ]

  const StderrExcerptLength: nat := 200

  function Min(a: nat, b: nat): nat {
    if a <= b then a else b
  }

  /** The error text for a non-zero exit status. */
  function ExitError(code: int, stderr: string, videoPath: string): string {
    Classify(stderr, videoPath, ExitRules).GetOr(UnrecognisedExitError(code, stderr))
  }

  /** The error text for a failure the table does not recognise. */
  function UnrecognisedExitError(code: int, stderr: string): string {
    if Strip(stderr) != "" then "Video processing failed: " + stderr[..Min(StderrExcerptLength, |stderr|)]
    else "Video processing failed with return code " + IntToString(code)
  }

  /** A missing HEVC encoder is recognised before anything else, but only when the text names
      the encoder. */
  lemma MissingEncoderFirst(code: int, stderr: string, videoPath: string, k: nat)
    requires Contains(Lower(stderr), "libx265")
    requires k < 2 && Contains(Lower(stderr), ["not found", "unknown encoder"][k])
    ensures ExitError(code, stderr, videoPath) == ExitRules[0].reply.text
  {
    assert ContainsAll(Lower(stderr), ExitRules[0].all);
    MatchesByPhrase(Lower(stderr), ExitRules[0], k);
    ClassifyPicks(stderr, videoPath, ExitRules, 0);
  }

  /** An unrecognised failure quotes the first 200 characters of the error text (all of it when
      shorter, and never nothing), or reports the status when the text is blank. */
  lemma UnrecognisedExit(code: int, stderr: string)
    ensures AllSpace(stderr) ==> UnrecognisedExitError(code, stderr) == "Video processing failed with return code " + IntToString(code)
    ensures !AllSpace(stderr) ==>
      && stderr != ""
      && UnrecognisedExitError(code, stderr) == "Video processing failed: " + stderr[..Min(StderrExcerptLength, |stderr|)]
  {
    StripProps(stderr);
  }

  /** The outcome once the encoder has been run: its status and text, then the output file. */
  function FinishRun(run: EncoderRun, output: OutputFile, videoPath: string, dir: string): Result<string, string> {
    match run
    case EncoderTimedOut => Failure("Video processing timed out (30 minutes limit)")
    case LaunchFailed(cause, msg) => Failure(
      match cause
      case ExecutableMissing => "FFmpeg not found. Error: " + msg
      case AccessDenied => "Permission denied when running FFmpeg: " + msg
      case OtherLaunchFault(typeName) => "Failed to start video processing: " + typeName + ": " + msg)
    case Exited(code, _, stderr) =>
      if code != 0 then Failure(ExitError(code, stderr.GetOr(""), videoPath))
      else (
        match output
        case NotCreated => Failure("Processed video file was not created")
        case Created(size) =>
          if size < 1024 then Failure("Output video file appears to be corrupted (size: " + NatToString(size) + " bytes)")
          else Success(OutputPath(dir))
      )
  }

  /** `process_with_ffmpeg` with the encoder's output taken as the text it already is. */
  function Transcode(videoPath: string, audioPath: Option<string>, audioExists: bool, dir: string,
                     probe: ProbeRun, run: EncoderRun, output: OutputFile): Result<string, string> {
    match Plan(videoPath, audioPath, audioExists, dir, probe)
    case Failure(e) => Failure(e)
    case Success(_) => FinishRun(run, output, videoPath, dir)
  }

  /** The stage succeeds exactly when the probe accepts the input, the encoder exits with status
      0 and leaves an output file of at least 1024 bytes; the result is then the fixed output
      path in the workspace. */
  lemma TranscodeSucceedsExactly(videoPath: string, audioPath: Option<string>, audioExists: bool, dir: string,
                                 probe: ProbeRun, run: EncoderRun, output: OutputFile)
    ensures Transcode(videoPath, audioPath, audioExists, dir, probe, run, output).Success? <==>
      Probe(videoPath, probe).Accepted? && run.Exited? && run.code == 0 && output.Created? && output.size >= 1024
    ensures Transcode(videoPath, audioPath, audioExists, dir, probe, run, output).Success? ==>
      Transcode(videoPath, audioPath, audioExists, dir, probe, run, output).value == OutputPath(dir)
  {
  }

  const DecodeOnTextError := "Processing failed: 'str' object has no attribute 'decode'"

  predicate Spoke(text: Option<string>) {
    text.Some? && text.value != ""
  }

  /** `process_with_ffmpeg` as written: the worker returns text, and the stage calls the bytes
      method `decode` on it whenever it is non-empty, which raises and is reported by the
      stage's last handler. */
  function TranscodeAsWritten(videoPath: string, audioPath: Option<string>, audioExists: bool, dir: string,
                              probe: ProbeRun, run: EncoderRun, output: OutputFile): Result<string, string> {
    match Plan(videoPath, audioPath, audioExists, dir, probe)
    case Failure(e) => Failure(e)
    case Success(_) =>
      if run.Exited? && (Spoke(run.stdout) || Spoke(run.stderr)) then Failure(DecodeOnTextError)
      else FinishRun(run, output, videoPath, dir)
  }

  /** As written, every encoder run that printed anything fails, whatever its status; the
      progress report the command line requests on standard output is such output. */
  lemma AsWrittenFailsWhenEncoderSpeaks(videoPath: string, audioPath: Option<string>, audioExists: bool, dir: string,
                                        probe: ProbeRun, run: EncoderRun, output: OutputFile)
    requires Probe(videoPath, probe).Accepted?
    requires run.Exited? && (Spoke(run.stdout) || Spoke(run.stderr))
    ensures TranscodeAsWritten(videoPath, audioPath, audioExists, dir, probe, run, output) == Failure(DecodeOnTextError)
  {
  }

  /** A concrete case: an encoder that exits with status 0 after reporting "progress=end" and
      leaves a 2048-byte output fails as written, and succeeds with the text taken as text. */
  lemma DecodeOnTextCounterexample(dir: string)
    ensures var probe := ProbeExited(0, StreamTypes([Some("video"), Some("audio")]), "");
      var run := Exited(0, Some("progress=end\n"), Some(""));
      && TranscodeAsWritten("clip.mp4", None, false, dir, probe, run, Created(2048)) == Failure(DecodeOnTextError)
      && Transcode("clip.mp4", None, false, dir, probe, run, Created(2048)) == Success(OutputPath(dir))
  {
    var types := [Some("video"), Some("audio")];
    assert types[0] == Some("video") && types[1] == Some("audio");
    assert HasStream(types, "video");
  }

  /** When the encoder printed nothing, the version as written and the corrected one agree. */
  lemma AsWrittenAgreesWhenSilent(videoPath: string, audioPath: Option<string>, audioExists: bool, dir: string,
                                  probe: ProbeRun, run: EncoderRun, output: OutputFile)
    requires !(run.Exited? && (Spoke(run.stdout) || Spoke(run.stderr)))
    ensures TranscodeAsWritten(videoPath, audioPath, audioExists, dir, probe, run, output)
         == Transcode(videoPath, audioPath, audioExists, dir, probe, run, output)
  {
  }
}
