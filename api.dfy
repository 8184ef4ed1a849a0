/** The HTTP front of the service (`main.py`): the URL check on `/process` requests, the
    `/health` report, and the mapping of the processor's result to the response. */
module Api {
  import opened Wrappers
  import opened Strings
  import Seqs
  import Phrases
  import Config
  import YoutubeUtils
  import Pipeline

  // ---------------------------------------------------------------------------------------
  // Request URL validation (`VideoProcessRequest.validate_youtube_url`)
  // ---------------------------------------------------------------------------------------

  const ValidDomains: seq<string> := ["youtube.com", "youtu.be", "www.youtube.com", "m.youtube.com", "music.youtube.com"]

  /** The three reasons the validator raises `ValueError`. */
  datatype UrlError = NotYoutube | Playlist | Channel

  /** The message of the `ValueError` raised for each reason. */
  function UrlErrorMessage(e: UrlError): string {
    match e
    case NotYoutube => "Must be a valid YouTube URL"
    case Playlist => "Playlist URLs are not supported, please provide individual video URLs"
    case Channel => "Channel URLs are not supported, please provide individual video URLs"
  }

  /** The domain test: one of the listed domains occurs anywhere in the URL. */
  predicate NamesYoutube(url: string) {
    Phrases.ContainsAny(url, ValidDomains)
  }

  predicate IsPlaylistUrl(url: string) {
    Contains(url, "/playlist") && Contains(url, "list=")
  }

  predicate IsChannelUrl(url: string) {
    Contains(url, "/channel/") || Contains(url, "/c/") || Contains(url, "/user/")
  }

  /** The validator: the URL unchanged, or the message of the `ValueError` it raises. */
  function ValidateYoutubeUrl(url: string): (r: Result<string, UrlError>)
    ensures r.Success? ==> r.value == url
  {
    if !NamesYoutube(url) then Failure(NotYoutube)
    else if IsPlaylistUrl(url) then Failure(Playlist)
    else if IsChannelUrl(url) then Failure(Channel)
    else Success(url)
  }

  /** A URL is accepted exactly when it names a YouTube domain and is neither a playlist nor a
      channel URL; the domain test comes first, then the playlist test, then the channel test. */
  lemma ValidateExactly(url: string)
    ensures ValidateYoutubeUrl(url).Success? <==> NamesYoutube(url) && !IsPlaylistUrl(url) && !IsChannelUrl(url)
    ensures ValidateYoutubeUrl(url) == Failure(NotYoutube) <==> !NamesYoutube(url)
    ensures ValidateYoutubeUrl(url) == Failure(Playlist) <==> NamesYoutube(url) && IsPlaylistUrl(url)
    ensures ValidateYoutubeUrl(url) == Failure(Channel) <==> NamesYoutube(url) && !IsPlaylistUrl(url) && IsChannelUrl(url)
  {
  }

  /** The three longer domains contain `youtube.com`, so the domain test is the same as asking
      for `youtube.com` or `youtu.be`. */
  lemma DomainTestIsTwoDomains(url: string)
    ensures NamesYoutube(url) <==> Contains(url, "youtube.com") || Contains(url, "youtu.be")
  {
    if NamesYoutube(url) {
      var k :| 0 <= k < |ValidDomains| && Contains(url, ValidDomains[k]);
      if k == 2 {
        assert OccursAt("www.youtube.com", "youtube.com", 4);
        ContainsTransitive(url, "www.youtube.com", "youtube.com");
      } else if k == 3 {
        assert OccursAt("m.youtube.com", "youtube.com", 2);
        ContainsTransitive(url, "m.youtube.com", "youtube.com");
      } else if k == 4 {
        assert OccursAt("music.youtube.com", "youtube.com", 6);
        ContainsTransitive(url, "music.youtube.com", "youtube.com");
      }
    }
    if Contains(url, "youtube.com") {
      assert Contains(url, ValidDomains[0]);
    }
    if Contains(url, "youtu.be") {
      assert Contains(url, ValidDomains[1]);
    }
  }

  /** The domain test is plain containment, not host parsing: any URL that mentions `youtu.be`
      anywhere, in its query say, passes it. */
  lemma DomainAnywhere(before: string, after: string)
    ensures NamesYoutube(before + "youtu.be" + after)
  {
    var url := before + "youtu.be" + after;
    assert url[|before|..|before| + 8] == "youtu.be";
    assert OccursAt(url, ValidDomains[1], |before|);
  }

  // ---------------------------------------------------------------------------------------
  // Health report (`health_check`)
  // ---------------------------------------------------------------------------------------

  /** How `ffmpeg -version` ends: it runs (and its output lists libx265 or not), times out,
      exits with an error, is not installed, or raises something else. */
  datatype FfmpegProbe = FfmpegRan(listsLibx265: bool) | FfmpegTimedOut | FfmpegFailed | FfmpegNotFound | FfmpegRaised(msg: string)

  /** What the health check finds: the two encoder probes, the cookie file next to the service,
      the loaded settings (`None` when they failed to load) and the version of yt-dlp (`None`
      when it cannot be imported). */
  datatype HealthEnv = HealthEnv(
    ffmpeg: FfmpegProbe, ffprobeRan: bool, cookies: YoutubeUtils.CookieFile,
    settings: Option<Config.Settings>, ytDlpVersion: Option<string>)

  /** The keys of the `dependencies` report. */
  datatype Dependency = Ffmpeg | Libx265 | Ffprobe | Cookies | Cloudinary | YtDlp

  /** The cookie status: configured when the stripped content is non-empty and does not start
      with `#`. */
  function CookieStatus(file: YoutubeUtils.CookieFile): string {
    match file
    case NoFile => "not_found"
    case Unreadable(_) => "read_error"
    case FileText(content) =>
      var stripped := Strip(content);
      if stripped != "" && !StartsWith(stripped, "#") then "configured" else "empty_template"
  }

  function CloudinaryStatus(settings: Option<Config.Settings>): string {
    match settings
    case None => "not_initialized"
    case Some(s) => if Config.CredentialsPresent(s) then "configured" else "missing_credentials"
  }

  /** The `dependencies` report, entry by entry. */
  function Dependencies(env: HealthEnv): map<Dependency, string> {
    var probed := match env.ffmpeg
      case FfmpegRan(lists) => map[Ffmpeg := "available", Libx265 := if lists then "available" else "missing"]
      case FfmpegTimedOut => map[Ffmpeg := "timeout"]
      case FfmpegFailed => map[Ffmpeg := "error"]
      case FfmpegNotFound => map[Ffmpeg := "missing"]
      case FfmpegRaised(msg) => map[Ffmpeg := "error: " + msg];
    probed[Ffprobe := if env.ffprobeRan then "available" else "missing"]
      [Cookies := CookieStatus(env.cookies)]
      [Cloudinary := CloudinaryStatus(env.settings)]
      [YtDlp := if env.ytDlpVersion.Some? then "available (v" + env.ytDlpVersion.value + ")" else "missing"]
  }

  const CriticalDependencies: seq<Dependency> := [Ffmpeg, Ffprobe, YtDlp, Cloudinary]
  const DownValues: seq<string> := ["missing", "error", "not_initialized", "missing_credentials"]

  /** A critical dependency is down when it has no entry or exactly one of the down values. */
  predicate IsDown(deps: map<Dependency, string>, d: Dependency) {
    d !in deps || deps[d] in DownValues
  }

  predicate Libx265Missing(deps: map<Dependency, string>) {
    Libx265 in deps && deps[Libx265] == "missing"
  }

  /** The overall status: the first down critical dependency makes the service unhealthy, and a
      missing libx265 then overrides that with degraded. */
  function OverallStatus(deps: map<Dependency, string>): string {
    var k := Seqs.FirstIndex(CriticalDependencies, d => IsDown(deps, d));
    if Libx265Missing(deps) then "degraded"
    else if k < |CriticalDependencies| then "unhealthy"
    else "healthy"
  }

  /** The status loop: scan the critical dependencies, stop at the first one that is down, then
      apply the libx265 override. */
  method ComputeStatus(deps: map<Dependency, string>) returns (status: string)
    ensures status == OverallStatus(deps)
  {
    status := "healthy";
    var i := 0;
    while i < |CriticalDependencies|
      invariant 0 <= i <= |CriticalDependencies|
      invariant forall j :: 0 <= j < i ==> !IsDown(deps, CriticalDependencies[j])
      invariant status == "healthy"
    {
      if IsDown(deps, CriticalDependencies[i]) {
        status := "unhealthy";
        break;
      }
      i := i + 1;
    }
    if status == "unhealthy" {
      Seqs.FirstIndexAt(CriticalDependencies, d => IsDown(deps, d), i);
    } else {
      Seqs.FirstIndexNone(CriticalDependencies, d => IsDown(deps, d));
    }
    if Libx265Missing(deps) {
      status := "degraded";
    }
  }

  /** Degraded exactly when libx265 is missing; otherwise unhealthy exactly when some critical
      dependency is down. */
  lemma StatusExactly(deps: map<Dependency, string>)
    ensures OverallStatus(deps) == "degraded" <==> Libx265Missing(deps)
    ensures OverallStatus(deps) == "unhealthy" <==>
      !Libx265Missing(deps) && exists k :: 0 <= k < |CriticalDependencies| && IsDown(deps, CriticalDependencies[k])
    ensures OverallStatus(deps) == "healthy" <==>
      !Libx265Missing(deps) && forall k :: 0 <= k < |CriticalDependencies| ==> !IsDown(deps, CriticalDependencies[k])
  {
    var p := d => IsDown(deps, d);
    var k := Seqs.FirstIndex(CriticalDependencies, p);
    if k == |CriticalDependencies| {
      forall j | 0 <= j < |CriticalDependencies|
        ensures !IsDown(deps, CriticalDependencies[j])
      {
        assert !p(CriticalDependencies[j]);
      }
    }
    assert "degraded"[0] != "unhealthy"[0] && "degraded"[0] != "healthy"[0] && "unhealthy"[0] != "healthy"[0];
  }

  /** A timed-out encoder probe, or one that raised something unexpected, does not make the
      service unhealthy: only the exact down values count. */
  lemma OddEncoderFailuresIgnored(env: HealthEnv)
    requires env.ffmpeg.FfmpegTimedOut? || env.ffmpeg.FfmpegRaised?
    ensures !IsDown(Dependencies(env), Ffmpeg) && !Libx265Missing(Dependencies(env))
  {
    var v := Dependencies(env)[Ffmpeg];
    if env.ffmpeg.FfmpegTimedOut? {
      assert v == "timeout" && v[0] == 't';
    } else {
      assert v == "error: " + env.ffmpeg.msg;
      assert v[0] == 'e' && |v| >= 7;
    }
    assert forall k :: 0 <= k < |DownValues| ==> v != DownValues[k] by {
      assert DownValues[0][0] == 'm' && DownValues[1] == "error" && DownValues[2][0] == 'n' && DownValues[3][0] == 'm';
    }
  }

  /** Settings that passed their own construction never leave Cloudinary down. */
  lemma ConstructedSettingsConfigureCloudinary(env: HealthEnv)
    requires env.settings.Some? && Config.CredentialsPresent(env.settings.value)
    ensures Dependencies(env)[Cloudinary] == "configured" && !IsDown(Dependencies(env), Cloudinary)
  {
    assert "configured"[0] != "missing"[0] && "configured"[0] != "error"[0];
    assert "configured"[0] != "not_initialized"[0] && "configured"[0] != "missing_credentials"[0];
  }

  /** A cookie file that opens with a comment line (the header of every exported cookie file)
      is reported as an empty template whatever follows, while the cookie validator judges the
      same file by the lines after the header alone. */
  lemma CommentHeaderLooksEmpty(header: string, rest: string)
    requires '\n' !in header && |header| > 0 && header[0] == '#'
    ensures CookieStatus(YoutubeUtils.FileText(header + "\n" + rest)) == "empty_template"
    ensures YoutubeUtils.ValidateCookies(YoutubeUtils.FileText(header + "\n" + rest))
      == YoutubeUtils.ValidateCookies(YoutubeUtils.FileText(rest))
  {
    var content := header + "\n" + rest;
    assert content[0] == '#';
    YoutubeUtils.StripKeepsFirst(content);
    assert StartsWith(Strip(content), "#");
    YoutubeUtils.CommentHeaderIgnored(header, rest);
  }

  const ServiceName := "youtube-video-processor"
  const NotInitializedError := "Video processor not initialized - check configuration"
  const CookiesAdvice := "Configure cookies.txt for age-restricted content access"
  const Libx265Advice := "Install ffmpeg with libx265 support for HEVC encoding"

  datatype HealthReport =
    | NotInitialized(status: string, error: string, service: string)
    | Report(status: string, service: string, dependencies: map<Dependency, string>,
             cookiesAdvice: Option<string>, libx265Advice: Option<string>)

  /** `health_check`: `ready` says whether the processor was built at start-up. The report is
      filled entry by entry, then the status and the recommendations are derived from it. */
  method HealthCheck(ready: bool, env: HealthEnv) returns (report: HealthReport)
    ensures !ready ==> report == NotInitialized("unhealthy", NotInitializedError, ServiceName)
    ensures ready ==>
      && report.Report?
      && report.dependencies == Dependencies(env)
      && report.status == OverallStatus(Dependencies(env))
      && report.service == ServiceName
      && (report.cookiesAdvice.Some? <==> Dependencies(env)[Cookies] != "configured")
      && (report.libx265Advice.Some? <==> Libx265Missing(Dependencies(env)))
      && (report.cookiesAdvice.Some? ==> report.cookiesAdvice.value == CookiesAdvice)
      && (report.libx265Advice.Some? ==> report.libx265Advice.value == Libx265Advice)
  {
    if !ready {
      return NotInitialized("unhealthy", NotInitializedError, ServiceName);
    }
    var deps: map<Dependency, string> := map[];
    match env.ffmpeg {
      case FfmpegRan(lists) =>
        deps := deps[Ffmpeg := "available"];
        deps := deps[Libx265 := if lists then "available" else "missing"];
      case FfmpegTimedOut => deps := deps[Ffmpeg := "timeout"];
      case FfmpegFailed => deps := deps[Ffmpeg := "error"];
      case FfmpegNotFound => deps := deps[Ffmpeg := "missing"];
      case FfmpegRaised(msg) => deps := deps[Ffmpeg := "error: " + msg];
    }
    deps := deps[Ffprobe := if env.ffprobeRan then "available" else "missing"];
    deps := deps[Cookies := CookieStatus(env.cookies)];
    deps := deps[Cloudinary := CloudinaryStatus(env.settings)];
    deps := deps[YtDlp := if env.ytDlpVersion.Some? then "available (v" + env.ytDlpVersion.value + ")" else "missing"];
    assert deps == Dependencies(env);
    var status := ComputeStatus(deps);
    var cookiesAdvice := if deps[Cookies] != "configured" then Some(CookiesAdvice) else None;
    var libx265Advice := if Libx265Missing(deps) then Some(Libx265Advice) else None;
    report := Report(status, ServiceName, deps, cookiesAdvice, libx265Advice);
  }

  // ---------------------------------------------------------------------------------------
  // The `/process` response (`process_video` endpoint)
  // ---------------------------------------------------------------------------------------

  /** The dictionary the processor returns: its status and whichever keys it set. */
  datatype ResultDict = ResultDict(
    status: string, publicUrl: Option<string>, duration: Option<real>, fileSize: Option<int>,
    videoId: Option<string>, title: Option<string>, error: Option<string>)

  /** The processor's call ends with its dictionary, or raises. */
  datatype ProcessorReply = Replied(result: ResultDict) | ReplyRaised(msg: string)

  /** Which fixed `processing_info` block accompanies the response. */
  datatype InfoBlock = ConfigurationInfo | SuccessInfo | AttemptedInfo | UnexpectedInfo

  datatype Response = Response(
    status: string, publicUrl: Option<string>, duration: Option<real>, fileSize: Option<int>,
    videoId: Option<string>, title: Option<string>, error: Option<string>, info: InfoBlock)

  const NotConfiguredError := "Service not properly configured - check environment variables and dependencies"
  const UnknownError := "Unknown error occurred"

  /** `str(KeyError('public_url'))`, raised when a success result lacks its URL. */
  const MissingUrlKeyError := "'public_url'"

  function Failed(error: string, info: InfoBlock): Response {
    Response("failure", None, None, None, None, None, Some(error), info)
  }

  /** The response to a `/process` request; `ready` says whether the processor was built. */
  function ToResponse(ready: bool, reply: ProcessorReply): (r: Response)
    ensures r.status == "success" || r.status == "failure"
    ensures r.status == "failure" <==> r.error.Some?
  {
    if !ready then Failed(NotConfiguredError, ConfigurationInfo)
    else match reply
      case ReplyRaised(msg) => Failed(msg, UnexpectedInfo)
      case Replied(d) =>
        if d.status == "success" then
          if d.publicUrl.None? then Failed(MissingUrlKeyError, UnexpectedInfo)
          else Response("success", d.publicUrl, d.duration, d.fileSize, d.videoId, d.title, None, SuccessInfo)
        else Failed(d.error.GetOr(UnknownError), AttemptedInfo)
  }

  /** The dictionary the coordinator returns for each of its results. */
  function AsDict(p: Pipeline.ProcessResult): ResultDict {
    match p
    case Processed(url, duration, size, id, title) => ResultDict("success", Some(url), duration, size, id, title, None)
    case ProcessFailed(e) => ResultDict("failure", None, None, None, None, None, Some(e))
  }

  /** A success result's fields reach the response unchanged; a failure result's error
      reaches it unchanged, and the `Unknown error occurred` default is used only when the
      result carries no error. */
  lemma ResponseCopies(d: ResultDict)
    ensures d.status == "success" && d.publicUrl.Some? ==>
      ToResponse(true, Replied(d)) == Response("success", d.publicUrl, d.duration, d.fileSize, d.videoId, d.title, None, SuccessInfo)
    ensures d.status != "success" ==>
      ToResponse(true, Replied(d)).error == Some(if d.error.Some? then d.error.value else UnknownError)
  {
  }

  /** For every run of the coordinator the endpoint answers success exactly when the run
      succeeded, with its URL, duration, size, id and title; a failed run's error is passed
      on as it is. */
  lemma PipelineResponse(w: Pipeline.World)
    requires Pipeline.WellFormed(w)
    ensures var p := Pipeline.Process(w); var r := ToResponse(true, Replied(AsDict(p)));
      && (r.status == "success" <==> p.Processed?)
      && (p.Processed? ==> r.publicUrl == Some(p.publicUrl) && r.duration == p.duration && r.fileSize == p.fileSize
                           && r.videoId == p.videoId && r.title == p.title)
      && (p.ProcessFailed? ==> r.error == Some(p.error))
  {
    var p := Pipeline.Process(w);
    assert "failure"[0] != "success"[0];
    ResponseCopies(AsDict(p));
  }
}
