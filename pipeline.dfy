/** The coordinator of the video processor (`process_video`): create a workspace, then download,
    transcode and upload, stopping at the first stage that fails, and clean the workspace up on
    every exit once it exists. */
module Pipeline {
  import opened Wrappers
  import Config
  import Download
  import Transcode
  import Upload

  /** The record the coordinator returns. */
  datatype ProcessResult =
    | Processed(publicUrl: string, duration: Option<real>, fileSize: Option<int>, videoId: Option<string>, title: Option<string>)
    | ProcessFailed(error: string)

  datatype Stage = DownloadStage | TranscodeStage | UploadStage

  /** Everything the outside world answers during one run: the workspace directory (or the
      message of the exception creating it), whether the cookie file exists, one attempt per
      download strategy, the probe, the encoder, its output file, the trial read and the upload
      calls. The upload is given the encoder output's size; the download stage never yields a
      separate audio track. */
  datatype World = World(
    workspace: Result<string, string>, cookiesPresent: bool, attempts: seq<Download.Attempt>,
    probe: Transcode.ProbeRun, run: Transcode.EncoderRun, output: Transcode.OutputFile,
    maxMb: int, readFault: Option<string>, calls: seq<Upload.UploadCall>)

  predicate WellFormed(w: World) {
    |w.attempts| == |Download.Catalog| && |w.calls| == Upload.MaxAttempts
  }

  function DownloadOutcome(w: World, dir: string): Result<Download.Downloaded, string>
    requires WellFormed(w)
  {
    Download.Fallback(Download.StrategyOutcomes(dir, w.cookiesPresent, w.attempts))
  }

  function TranscodeOutcome(w: World, dir: string, d: Download.Downloaded): Result<string, string> {
    Transcode.Transcode(d.videoPath, None, false, dir, w.probe, w.run, w.output)
  }

  /** The size of the encoder's output file, which the upload stage measures. */
  function OutputSize(w: World): nat {
    if w.output.Created? then w.output.size else 0
  }

  /** The coordinator's result. */
  function Process(w: World): ProcessResult
    requires WellFormed(w)
  {
    match w.workspace
    case Failure(e) => ProcessFailed(e)
    case Success(dir) =>
      match DownloadOutcome(w, dir)
      case Failure(e) => ProcessFailed(e)
      case Success(d) => AfterDownload(w, dir, d)
  }

  /** The result once the download has succeeded. */
  function AfterDownload(w: World, dir: string, d: Download.Downloaded): ProcessResult
    requires WellFormed(w)
  {
    match TranscodeOutcome(w, dir, d)
    case Failure(e) => ProcessFailed(e)
    case Success(_) =>
      match Upload.UploadOutcome(OutputSize(w), w.maxMb, w.readFault, w.calls)
      case Failure(e) => ProcessFailed(e)
      case Success(u) => Processed(u.publicUrl, d.info.duration, u.fileSize, d.info.id, d.info.title)
  }

  /** The stages the coordinator runs, in order. */
  function StagesRun(w: World): seq<Stage>
    requires WellFormed(w)
  {
    match w.workspace
    case Failure(_) => []
    case Success(dir) =>
      match DownloadOutcome(w, dir)
      case Failure(_) => [DownloadStage]
      case Success(d) =>
        if TranscodeOutcome(w, dir, d).Failure? then [DownloadStage, TranscodeStage]
        else [DownloadStage, TranscodeStage, UploadStage]
  }

  /** `process_video`. `stages` records the stages run; `cleaned` records that the workspace
      clean-up ran. */
  method ProcessVideo(w: World) returns (r: ProcessResult, ghost stages: seq<Stage>, ghost cleaned: bool)
    requires WellFormed(w)
    ensures r == Process(w)
    ensures stages == StagesRun(w)
    ensures cleaned <==> w.workspace.Success?
  {
    if w.workspace.Failure? {
      return ProcessFailed(w.workspace.error), [], false;
    }
    var dir := w.workspace.value;
    var outcomes := Download.StrategyOutcomes(dir, w.cookiesPresent, w.attempts);
    var downloaded, _, _ := Download.DownloadWithFallbacks(outcomes);
    if downloaded.Failure? {
      r, stages := ProcessFailed(downloaded.error), [DownloadStage];
    } else {
      ghost var later;
      r, later := TranscodeAndUpload(w, dir, downloaded.value);
      stages := [DownloadStage] + later;
    }
    cleaned := true;
  }

  /** The transcoding and upload stages, after a successful download. */
  method TranscodeAndUpload(w: World, dir: string, d: Download.Downloaded) returns (r: ProcessResult, ghost stages: seq<Stage>)
    requires WellFormed(w)
    ensures r == AfterDownload(w, dir, d)
    ensures stages == if TranscodeOutcome(w, dir, d).Failure? then [TranscodeStage] else [TranscodeStage, UploadStage]
  {
    var transcoded := Transcode.Transcode(d.videoPath, None, false, dir, w.probe, w.run, w.output);
    if transcoded.Failure? {
      return ProcessFailed(transcoded.error), [TranscodeStage];
    }
    stages := [TranscodeStage, UploadStage];
    var uploaded, _, _ := Upload.UploadToCloudinary(OutputSize(w), w.maxMb, w.readFault, w.calls);
    if uploaded.Failure? {
      r := ProcessFailed(uploaded.error);
    } else {
      var u := uploaded.value;
      r := Processed(u.publicUrl, d.info.duration, u.fileSize, d.info.id, d.info.title);
    }
  }

  /** The stages run are a prefix of download, transcode, upload; a run stops at its first
      failing stage, and reaches the upload only after a download and a transcode that
      succeeded. */
  lemma StagesShortCircuit(w: World)
    requires WellFormed(w)
    ensures StagesRun(w) <= [DownloadStage, TranscodeStage, UploadStage]
    ensures Process(w).Processed? ==> StagesRun(w) == [DownloadStage, TranscodeStage, UploadStage]
    ensures w.workspace.Success? && DownloadOutcome(w, w.workspace.value).Failure? ==>
      StagesRun(w) == [DownloadStage] && Process(w) == ProcessFailed(DownloadOutcome(w, w.workspace.value).error)
    ensures |StagesRun(w)| == 3 ==>
      w.workspace.Success? && DownloadOutcome(w, w.workspace.value).Success?
      && TranscodeOutcome(w, w.workspace.value, DownloadOutcome(w, w.workspace.value).value).Success?
  {
  }

  /** A successful run reports the URL, size and id of the upload, and the duration, id and
      title of the download's metadata; the transcoded file it uploaded is the workspace's
      output file, of at least 1024 bytes. */
  lemma SuccessRecord(w: World)
    requires WellFormed(w) && Process(w).Processed?
    ensures var dir := w.workspace.value;
      var d := DownloadOutcome(w, dir).value;
      var u := Upload.UploadOutcome(OutputSize(w), w.maxMb, w.readFault, w.calls).value;
      && w.workspace.Success? && DownloadOutcome(w, dir).Success?
      && TranscodeOutcome(w, dir, d) == Success(Transcode.OutputPath(dir))
      && OutputSize(w) >= 1024
      && Process(w) == Processed(u.publicUrl, d.info.duration, u.fileSize, d.info.id, d.info.title)
  {
    var dir := w.workspace.value;
    var d := DownloadOutcome(w, dir).value;
    Transcode.TranscodeSucceedsExactly(d.videoPath, None, false, dir, w.probe, w.run, w.output);
  }

  /** No exception can escape the stages: every failure the coordinator reports is the error
      text of the stage that failed (or of creating the workspace), and a failed workspace
      means no stage runs. */
  lemma FailureComesFromAStage(w: World)
    requires WellFormed(w) && Process(w).ProcessFailed?
    ensures w.workspace.Failure? ==> StagesRun(w) == [] && Process(w).error == w.workspace.error
    ensures w.workspace.Success? ==> var dir := w.workspace.value;
      || (DownloadOutcome(w, dir).Failure? && Process(w).error == DownloadOutcome(w, dir).error)
      || (DownloadOutcome(w, dir).Success? && TranscodeOutcome(w, dir, DownloadOutcome(w, dir).value).Failure?
          && Process(w).error == TranscodeOutcome(w, dir, DownloadOutcome(w, dir).value).error)
      || (DownloadOutcome(w, dir).Success? && TranscodeOutcome(w, dir, DownloadOutcome(w, dir).value).Success?
          && Upload.UploadOutcome(OutputSize(w), w.maxMb, w.readFault, w.calls).Failure?
          && Process(w).error == Upload.UploadOutcome(OutputSize(w), w.maxMb, w.readFault, w.calls).error)
  {
  }

  /** With the default `max_video_size_mb` of 500, the upload stage takes a file of exactly
      500 MiB (524288000 bytes) once it can be read, and refuses one byte more as too large. */
  lemma DefaultCeiling(cloudName: Option<string>, apiKey: Option<string>, apiSecret: Option<string>, readFault: Option<string>)
    ensures var maxMb := Config.Defaults(cloudName, apiKey, apiSecret).maxVideoSizeMb;
      && Upload.Preflight(524288000, maxMb, None) == None
      && Upload.Preflight(524288001, maxMb, readFault) == Some("Video file too large (500.0MB > 500MB)")
  {
    var maxMb := Config.Defaults(cloudName, apiKey, apiSecret).maxVideoSizeMb;
    assert maxMb == 500 && 500 * Upload.BytesPerMb == 524288000;
    Upload.CeilingIsStrict(524288000, maxMb, None);
    Upload.JustOverCeiling(readFault);
  }
}
