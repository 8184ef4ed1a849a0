/** The download stage of the video processor: one attempt with a given set of extractor
    options (`_download_with_options`), the seven strategies built on it, and the fallback loop
    that tries them in order (`download_video_with_fallbacks`). The extractor library and the
    file system are not modelled; what they answer during an attempt is an `Attempt` value. */
module Download {
  import opened Wrappers
  import opened Seqs
  import opened Strings
  import opened Phrases

  /** The fields of the extractor's info dictionary that the service reads. */
  datatype VideoInfo = VideoInfo(id: Option<string>, title: Option<string>, duration: Option<real>)

  /** The class of an exception raised during an attempt: the extractor library's
      `DownloadError`, its `ExtractorError`, or anything else. */
  datatype FaultClass = DownloadError | ExtractorError | OtherError

  /** An exception: its class and `str(e)`. */
  datatype Fault = Fault(cls: FaultClass, msg: string)

  /** What metadata extraction (`extract_info(url, download=False)`) did. */
  datatype MetadataStep = InfoFound(info: VideoInfo) | InfoEmpty | MetadataRaised(fault: Fault)

  /** What the content transfer (`download([url])`) did. */
  datatype TransferStep = Transferred | TransferRaised(fault: Fault)

  /** One name in the workspace listing and the size of that file in bytes. */
  datatype DirEntry = DirEntry(name: string, size: nat)

  /** Everything the outside world answers during one attempt: a fault raised while the
      extractor is set up (before any phase), the two phases, and the workspace listing after
      the transfer, in the order the operating system lists it. */
  datatype Attempt = Attempt(opening: Option<Fault>, metadata: MetadataStep, transfer: TransferStep,
                             listing: seq<DirEntry>)

  /** A successful download: the media file's path, the metadata, and the audio-only mark. */
  datatype Downloaded = Downloaded(videoPath: string, info: VideoInfo, audioOnly: bool)

  /** A strategy's result as the fallback loop sees it: success, a failure dictionary with its
      error text, or an exception with its message. */
  datatype StrategyOutcome = Succeeded(download: Downloaded) | FailedWith(error: string) | Raised(message: string)

  datatype Strategy =
    | BestQuality | WithCookies | MobileUserAgent | BypassGeo | WorstQuality | LegacyFormats
    | AudioOnlyFallback

  /** The strategies in the order the fallback loop tries them. */
  const Catalog: seq<Strategy> :=
    [BestQuality, WithCookies, MobileUserAgent, BypassGeo, WorstQuality, LegacyFormats, AudioOnlyFallback]

  /** Faults raised by metadata extraction that the attempt answers itself. */
  const MetadataRules: seq<Rule> := [
    Rule([], ["sign in to confirm", "not a bot", "captcha", "blocked", "restricted", "unavailable",
              "private", "members-only", "join this channel", "age-restricted",
              "precondition check failed"], Quotes("Access restricted: ")),
    Rule([], ["video unavailable"], Says("Video is unavailable or deleted")),
    Rule([], ["premieres in"], Says("Video is a premiere and not yet available"))
  ]

  /** Faults raised by the transfer that the attempt answers itself. */
  const TransferRules: seq<Rule> := [
    Rule([], ["format not available"], Says("Requested format not available")),
    Rule([], ["no video formats found"], Says("No downloadable video formats available")),
    Rule([], ["sign in to confirm", "not a bot", "captcha", "precondition check failed"],
         Says("Bot detection or login required")),
    Rule([], ["blocked", "restricted", "unavailable", "geo", "not available in your country", "copyright"],
         Says("Content blocked or geo-restricted")),
    Rule([], ["http error 429"], Says("Rate limited by YouTube")),
    Rule([], ["http error 403"], Says("Access forbidden - may need authentication"))
  ]

  /** The attempt's outer handler for the library's `DownloadError`. */
  const DownloadErrorRules: seq<Rule> := [
    Rule([], ["format not available"], Says("Video format not available")),
    Rule([], ["no video formats found"], Says("No downloadable formats found")),
    Rule([], ["sign in to confirm", "not a bot", "captcha", "precondition check failed"],
         Says("YouTube bot detection triggered")),
    Rule([], ["blocked", "restricted", "unavailable", "private", "deleted"], Says("Video blocked or restricted")),
    Rule([], ["http error"], Quotes("Network error: "))
  ]

  /** The attempt's outer handler for the library's `ExtractorError`. */
  const ExtractorErrorRules: seq<Rule> := [
    Rule([], ["video unavailable"], Says("Video is unavailable or has been removed")),
    Rule([], ["private video"], Says("Video is private")),
    Rule([], ["members-only"], Says("Video is members-only")),
    Rule([], ["precondition check failed"],
         Says("YouTube access restricted - may need authentication or video is unavailable")),
    Rule([], ["only images are available"], Says("Video content not available - only thumbnails accessible"))
  ]

  /** The error text of a fault that reaches the attempt's outer handlers, chosen by class. */
  function OuterFaultError(f: Fault): string {
    match f.cls
    case DownloadError => Classify(f.msg, f.msg, DownloadErrorRules).GetOr("Download error: " + f.msg)
    case ExtractorError => Classify(f.msg, f.msg, ExtractorErrorRules).GetOr("Extraction error: " + f.msg)
    case OtherError => "Unexpected error: " + f.msg
  }

  /** The error text of a fault raised inside a phase: the phase's own table answers whatever
      class the fault has; a message it does not match is re-raised to the outer handlers. */
  function PhaseFaultError(f: Fault, rules: seq<Rule>): string {
    Classify(f.msg, f.msg, rules).GetOr(OuterFaultError(f))
  }

  /** The file extensions the attempt accepts as downloaded media. */
  const MediaExtensions: seq<string> :=
    [".mp4", ".mkv", ".webm", ".m4a", ".mp3", ".wav", ".flv", ".avi", ".3gp", ".f4v"]

  predicate IsMediaName(name: string) {
    exists k :: 0 <= k < |MediaExtensions| && EndsWith(name, MediaExtensions[k])
  }

  predicate IsMediaEntry(e: DirEntry) {
    IsMediaName(e.name)
  }

  /** Files smaller than this many bytes are taken to be empty or corrupted. */
  const MinMediaBytes: nat := 1024

  function JoinPath(dir: string, name: string): string {
    dir + "/" + name
  }

  /** The media files of the workspace listing, in listing order. */
  method CollectDownloaded(listing: seq<DirEntry>) returns (files: seq<DirEntry>)
    ensures files == Filter(listing, IsMediaEntry)
  {
    files := [];
    for i := 0 to |listing|
      invariant files == Filter(listing[..i], IsMediaEntry)
    {
      assert listing[..i + 1] == listing[..i] + [listing[i]];
      FilterSnoc(listing[..i], listing[i], IsMediaEntry);
      if IsMediaName(listing[i].name) {
        files := files + [listing[i]];
      }
    }
    assert listing[..|listing|] == listing;
  }

  /** Why no downloaded file is usable. */
  datatype Refusal = OnlyImages | NothingDownloaded | TooSmall | OnlyMetadata

  /** The error each refusal reports. */
  function RefusalMessage(f: Refusal): string {
    match f
    case OnlyImages => "Only images available - video may be restricted or deleted"
    case NothingDownloaded => "No files downloaded"
    case TooSmall => "Downloaded file appears to be empty or corrupted"
    case OnlyMetadata => "Only thumbnail/metadata downloaded - video content not available"
  }

  /** The choice of the downloaded file after a successful transfer: the path of the first
      media file, or the reason there is none usable. */
  function SelectDownload(dir: string, listing: seq<DirEntry>): Result<string, Refusal> {
    var files := Filter(listing, IsMediaEntry);
    if files == [] then
      if exists i :: 0 <= i < |listing| && EndsWith(listing[i].name, ".mhtml") then Failure(OnlyImages)
      else Failure(NothingDownloaded)
    else if files[0].size < MinMediaBytes then Failure(TooSmall)
    else if EndsWith(JoinPath(dir, files[0].name), ".mhtml") then Failure(OnlyMetadata)
    else Success(JoinPath(dir, files[0].name))
  }

  /** A chosen file is the first media file of the listing, and it has at least 1024 bytes. */
  lemma SelectDownloadChoosesFirstMedia(dir: string, listing: seq<DirEntry>)
    requires SelectDownload(dir, listing).Success?
    ensures var k := FirstIndex(listing, IsMediaEntry);
      k < |listing| && listing[k].size >= MinMediaBytes
      && SelectDownload(dir, listing).value == JoinPath(dir, listing[k].name)
  {
    FilterEmpty(listing, IsMediaEntry);
    FilterHead(listing, IsMediaEntry);
  }

  /** Without a media file the choice fails, saying "only images" exactly when some file ends in
      ".mhtml" and "no files downloaded" otherwise; with one, it refuses for size exactly when
      the first is under 1024 bytes. */
  lemma SelectDownloadRefusals(dir: string, listing: seq<DirEntry>)
    ensures var k := FirstIndex(listing, IsMediaEntry);
      && (k == |listing| ==>
            SelectDownload(dir, listing).Failure?
            && (SelectDownload(dir, listing).error == OnlyImages
                <==> exists i :: 0 <= i < |listing| && EndsWith(listing[i].name, ".mhtml"))
            && (SelectDownload(dir, listing) == Failure(NothingDownloaded)
                <==> !exists i :: 0 <= i < |listing| && EndsWith(listing[i].name, ".mhtml")))
      && (k < |listing| ==>
            (SelectDownload(dir, listing) == Failure(TooSmall)
             <==> listing[k].size < MinMediaBytes))
  {
    FilterEmpty(listing, IsMediaEntry);
    if FirstIndex(listing, IsMediaEntry) < |listing| {
      FilterHead(listing, IsMediaEntry);
    }
  }

  /** No media file name ends in ".mhtml", so the last check of the file choice never fires. */
  lemma MhtmlCheckUnreachable(dir: string, listing: seq<DirEntry>)
    ensures SelectDownload(dir, listing) != Failure(OnlyMetadata)
  {
    var files := Filter(listing, IsMediaEntry);
    if files != [] && files[0].size >= MinMediaBytes {
      assert IsMediaEntry(files[0]);
      var k :| 0 <= k < |MediaExtensions| && EndsWith(files[0].name, MediaExtensions[k]);
      EndsWithAppend(dir + "/", files[0].name, MediaExtensions[k]);
      if EndsWith(JoinPath(dir, files[0].name), ".mhtml") {
        EndsWithSameLast(JoinPath(dir, files[0].name), MediaExtensions[k], ".mhtml");
        assert false;
      }
    }
  }

  /** The size floor: a 1023-byte media file is refused and a 1024-byte one is taken. */
  lemma SizeFloorBoundary(dir: string)
    ensures SelectDownload(dir, [DirEntry("clip.mp4", 1023)]) == Failure(TooSmall)
    ensures SelectDownload(dir, [DirEntry("clip.mp4", 1024)]) == Success(dir + "/clip.mp4")
  {
    assert EndsWith("clip.mp4", MediaExtensions[0]);
    assert IsMediaEntry(DirEntry("clip.mp4", 1023)) && IsMediaEntry(DirEntry("clip.mp4", 1024));
    MhtmlCheckUnreachable(dir, [DirEntry("clip.mp4", 1024)]);
    assert JoinPath(dir, "clip.mp4") == dir + "/clip.mp4";
  }

  /** One attempt with a given set of extractor options. */
  function DownloadWithOptions(dir: string, a: Attempt): (r: StrategyOutcome)
    ensures !r.Raised?
  {
    if a.opening.Some? then FailedWith(OuterFaultError(a.opening.value))
    else
      match a.metadata
      case MetadataRaised(f) => FailedWith(PhaseFaultError(f, MetadataRules))
      case InfoEmpty => FailedWith("Could not extract video information")
      case InfoFound(info) =>
        match a.transfer
        case TransferRaised(f) => FailedWith(PhaseFaultError(f, TransferRules))
        case Transferred =>
          match SelectDownload(dir, a.listing)
          case Failure(e) => FailedWith(RefusalMessage(e))
          case Success(path) => Succeeded(Downloaded(path, info, false))
  }

  /** A message that mentions "video unavailable" matches the metadata table's first row. */
  lemma VideoUnavailableMatchesFirstRow(low: string)
    ensures Contains(low, "video unavailable") ==> Matches(low, MetadataRules[0])
  {
    if Contains(low, "video unavailable") {
      assert OccursAt("video unavailable", "unavailable", 6);
      ContainsTransitive(low, "video unavailable", "unavailable");
      assert MetadataRules[0].any[5] == "unavailable";
      MatchesByPhrase(low, MetadataRules[0], 5);
    }
  }

  /** A metadata fault that mentions "video unavailable" is answered by the first row; the row
      written for it is never reached. */
  lemma MetadataVideoUnavailableShadowed(f: Fault)
    requires Contains(Lower(f.msg), "video unavailable")
    ensures PhaseFaultError(f, MetadataRules) == "Access restricted: " + f.msg
  {
    VideoUnavailableMatchesFirstRow(Lower(f.msg));
    ClassifyPicks(f.msg, f.msg, MetadataRules, 0);
  }

  /** The metadata table never answers with its "video unavailable" text. */
  lemma MetadataNeverSaysUnavailable(msg: string)
    ensures Classify(msg, msg, MetadataRules) != Some("Video is unavailable or deleted")
  {
    var low := Lower(msg);
    VideoUnavailableMatchesFirstRow(low);
    if Matches(low, MetadataRules[0]) {
      ClassifyPicks(msg, msg, MetadataRules, 0);
      assert ("Access restricted: " + msg)[0] == 'A';
    } else if Matches(low, MetadataRules[2]) {
      ClassifyPicks(msg, msg, MetadataRules, 2);
    } else {
      ClassifyNone(msg, msg, MetadataRules);
    }
  }

  const CookiesMissing := "Cookies file not available"

  /** One strategy. The cookie strategy fails without an attempt when the cookie file is
      absent; the audio-only strategy marks its success as audio-only. */
  function RunStrategy(s: Strategy, dir: string, cookiesPresent: bool, a: Attempt): StrategyOutcome {
    match s
    case WithCookies => if cookiesPresent then DownloadWithOptions(dir, a) else FailedWith(CookiesMissing)
    case AudioOnlyFallback =>
      var r := DownloadWithOptions(dir, a);
      if r.Succeeded? then Succeeded(r.download.(audioOnly := true)) else r
    case _ => DownloadWithOptions(dir, a)
  }

  /** The outcomes of the seven strategies, each run against its own attempt. */
  function StrategyOutcomes(dir: string, cookiesPresent: bool, attempts: seq<Attempt>): (r: seq<StrategyOutcome>)
    requires |attempts| == |Catalog|
    ensures |r| == |Catalog|
  {
    seq(|Catalog|, i requires 0 <= i < |Catalog| => RunStrategy(Catalog[i], dir, cookiesPresent, attempts[i]))
  }

  /** No strategy lets an exception escape, and only the last one reports audio-only. */
  lemma StrategiesContained(dir: string, cookiesPresent: bool, attempts: seq<Attempt>)
    requires |attempts| == |Catalog|
    ensures forall i :: 0 <= i < |Catalog| ==> !StrategyOutcomes(dir, cookiesPresent, attempts)[i].Raised?
    ensures forall i :: 0 <= i < |Catalog| && StrategyOutcomes(dir, cookiesPresent, attempts)[i].Succeeded? ==>
      (StrategyOutcomes(dir, cookiesPresent, attempts)[i].download.audioOnly <==> i == |Catalog| - 1)
  {
    var r := StrategyOutcomes(dir, cookiesPresent, attempts);
    forall i | 0 <= i < |Catalog|
      ensures !r[i].Raised?
      ensures r[i].Succeeded? ==> (r[i].download.audioOnly <==> i == |Catalog| - 1)
    {
      var o := DownloadWithOptions(dir, attempts[i]);
      assert o.Succeeded? ==> !o.download.audioOnly;
    }
  }

  /** Without a cookie file the second strategy fails with its own text and still counts as a
      tried strategy. */
  lemma MissingCookiesIsAFailure(dir: string, attempts: seq<Attempt>)
    requires |attempts| == |Catalog|
    ensures StrategyOutcomes(dir, false, attempts)[1] == FailedWith(CookiesMissing)
  {
  }

  const AllFailedPrefix := "All download strategies failed. Last error: "

  function ErrorText(o: StrategyOutcome): string
    requires !o.Succeeded?
  {
    match o
    case FailedWith(e) => e
    case Raised(m) => m
  }

  predicate IsSuccess(o: StrategyOutcome) {
    o.Succeeded?
  }

  /** The fallback loop's result: the first success, or the last error behind a fixed prefix. */
  function Fallback(outcomes: seq<StrategyOutcome>): Result<Downloaded, string>
    requires |outcomes| > 0
  {
    var k := FirstIndex(outcomes, IsSuccess);
    if k < |outcomes| then Success(outcomes[k].download)
    else Failure(AllFailedPrefix + ErrorText(outcomes[|outcomes| - 1]))
  }

  /** How many strategies the fallback loop runs. */
  function AttemptsMade(outcomes: seq<StrategyOutcome>): nat {
    var k := FirstIndex(outcomes, IsSuccess);
    if k < |outcomes| then k + 1 else |outcomes|
  }

  /** The fallback loop over the strategies' outcomes. `delays` counts the randomised waits,
      one before every strategy but the first. */
  method DownloadWithFallbacks(outcomes: seq<StrategyOutcome>) returns (r: Result<Downloaded, string>, attempts: nat, ghost delays: nat)
    requires |outcomes| == |Catalog|
    ensures r == Fallback(outcomes)
    ensures attempts == AttemptsMade(outcomes)
    ensures delays == attempts - 1
  {
    var lastError: Option<string> := None;
    attempts, delays := 0, 0;
    var i := 0;
    while i < |outcomes|
      invariant 0 <= i <= |outcomes|
      invariant attempts == i
      invariant delays == if i == 0 then 0 else i - 1
      invariant forall j :: 0 <= j < i ==> !IsSuccess(outcomes[j])
      invariant i > 0 ==> lastError == Some(ErrorText(outcomes[i - 1]))
    {
      if i > 0 {
        delays := delays + 1;
      }
      attempts := attempts + 1;
      if outcomes[i].Succeeded? {
        FirstIndexAt(outcomes, IsSuccess, i);
        r := Success(outcomes[i].download);
        return;
      }
      lastError := Some(ErrorText(outcomes[i]));
      i := i + 1;
    }
    FirstIndexNone(outcomes, IsSuccess);
    r := Failure(AllFailedPrefix + lastError.GetOr("None"));
  }

  /** The first success wins and no later strategy runs. */
  lemma FirstSuccessWins(outcomes: seq<StrategyOutcome>, k: nat)
    requires k < |outcomes| && outcomes[k].Succeeded?
    requires forall j :: 0 <= j < k ==> !outcomes[j].Succeeded?
    ensures Fallback(outcomes) == Success(outcomes[k].download)
    ensures AttemptsMade(outcomes) == k + 1
  {
    FirstIndexAt(outcomes, IsSuccess, k);
  }

  /** When every strategy fails, all of them run and the last one's error is reported. */
  lemma AllFailedReportsLast(outcomes: seq<StrategyOutcome>)
    requires |outcomes| > 0
    requires forall j :: 0 <= j < |outcomes| ==> !outcomes[j].Succeeded?
    ensures Fallback(outcomes) == Failure(AllFailedPrefix + ErrorText(outcomes[|outcomes| - 1]))
    ensures AttemptsMade(outcomes) == |outcomes|
  {
    FirstIndexNone(outcomes, IsSuccess);
  }

  /** Outcomes after the first success do not affect the result. */
  lemma LaterOutcomesIrrelevant(a: seq<StrategyOutcome>, b: seq<StrategyOutcome>, k: nat)
    requires k < |a| && k < |b| && a[..k + 1] == b[..k + 1] && a[k].Succeeded?
    ensures Fallback(a) == Fallback(b) && AttemptsMade(a) == AttemptsMade(b)
  {
    var f := FirstIndex(a, IsSuccess);
    assert f <= k;
    assert a[f] == a[..k + 1][f] == b[f];
    assert forall j :: 0 <= j < f ==> b[j] == b[..k + 1][j] == a[j];
    FirstIndexAt(b, IsSuccess, f);
  }

  /** An audio-only download can come only from the last strategy, after all others failed. */
  lemma AudioOnlyOnlyAsLastResort(dir: string, cookiesPresent: bool, attempts: seq<Attempt>)
    requires |attempts| == |Catalog|
    requires Fallback(StrategyOutcomes(dir, cookiesPresent, attempts)).Success?
    requires Fallback(StrategyOutcomes(dir, cookiesPresent, attempts)).value.audioOnly
    ensures AttemptsMade(StrategyOutcomes(dir, cookiesPresent, attempts)) == |Catalog|
  {
    var o := StrategyOutcomes(dir, cookiesPresent, attempts);
    StrategiesContained(dir, cookiesPresent, attempts);
    var k := FirstIndex(o, IsSuccess);
    assert k < |o| && o[k].Succeeded?;
  }
}
