/** Helpers against YouTube's bot protection (`youtube_utils.py`): judging a cookie file,
    choosing request headers, and reading the outcome of a connectivity probe. */
module YoutubeUtils {
  import opened Wrappers
  import Seqs
  import opened Strings
  import Phrases

  // ---------------------------------------------------------------------------------------
  // Cookie file validation (`validate_youtube_cookies`)
  // ---------------------------------------------------------------------------------------

  /** The cookie file as the service finds it: absent, present but failing to read (with the
      exception's message), or its text. */
  datatype CookieFile = NoFile | Unreadable(msg: string) | FileText(content: string)

  /** A stripped line that carries a cookie: not empty and not a `#` comment. */
  predicate Significant(stripped: string) {
    stripped != "" && !StartsWith(stripped, "#")
  }

  /** The significant lines, stripped, in file order. */
  function SignificantLines(lines: seq<string>): (r: seq<string>)
    ensures |r| <= |lines|
    ensures forall k :: 0 <= k < |r| ==> Significant(r[k])
    ensures forall k :: 0 <= k < |lines| && Significant(Strip(lines[k])) ==> Strip(lines[k]) in r
    ensures forall x :: x in r ==> exists k :: 0 <= k < |lines| && x == Strip(lines[k])
  {
    if |lines| == 0 then []
    else (if Significant(Strip(lines[0])) then [Strip(lines[0])] else []) + SignificantLines(lines[1..])
  }

  /** The cookies a signed-in YouTube session carries. */
  const ImportantCookies: seq<string> := ["__Secure-1PSID", "__Secure-3PSID", "LOGIN_INFO", "VISITOR_INFO1_LIVE"]

  predicate InSomeLine(lines: seq<string>, name: string) {
    exists k :: 0 <= k < |lines| && Contains(lines[k], name)
  }

  /** The important cookies named somewhere in the lines, in the fixed order. */
  function FoundCookies(lines: seq<string>): seq<string> {
    Seqs.Filter(ImportantCookies, name => InSomeLine(lines, name))
  }

  function CountText(n: nat): string {
    NatToString(n) + "/" + NatToString(|ImportantCookies|)
  }

  /** What the validator concludes about a file: which test it failed, or how many of the
      important cookies it found. */
  datatype CookieFinding =
    | NoCookieFile
    | ReadFailed(msg: string)
    | OnlyComments
    | NoImportantCookie
    | TooFew(count: nat)
    | Enough(count: nat)

  function CookieFindingOf(file: CookieFile): CookieFinding {
    match file
    case NoFile => NoCookieFile
    case Unreadable(msg) => ReadFailed(msg)
    case FileText(content) =>
      var lines := SignificantLines(Split(content, '\n'));
      var found := FoundCookies(lines);
      if lines == [] then OnlyComments
      else if found == [] then NoImportantCookie
      else if |found| < 3 then TooFew(|found|)
      else Enough(|found|)
  }

  function FindingMessage(f: CookieFinding): string {
    match f
    case NoCookieFile => "Cookies file doesn't exist"
    case ReadFailed(msg) => "Error validating cookies: " + msg
    case OnlyComments => "Cookies file is empty or contains only comments"
    case NoImportantCookie => "No critical YouTube cookies found"
    case TooFew(n) => "Only " + CountText(n) + " critical cookies found"
    case Enough(n) => "Found " + CountText(n) + " critical cookies"
  }

  /** `validate_youtube_cookies`: whether the file looks like a signed-in session, and why. */
  function ValidateCookies(file: CookieFile): (bool, string) {
    var f := CookieFindingOf(file);
    (f.Enough?, FindingMessage(f))
  }

  /** Cookies are only found on significant lines. */
  lemma FoundNeedsLines(lines: seq<string>)
    ensures FoundCookies(lines) != [] ==> lines != []
    ensures |FoundCookies(lines)| <= |ImportantCookies|
  {
    var found := FoundCookies(lines);
    if found != [] {
      assert InSomeLine(lines, found[0]);
    }
  }

  /** The file is accepted exactly when it can be read and at least three of the four important
      cookies are named on significant lines. */
  lemma ValidateCookiesVerdict(file: CookieFile)
    ensures ValidateCookies(file).0 <==>
      file.FileText? && |FoundCookies(SignificantLines(Split(file.content, '\n')))| >= 3
  {
    if file.FileText? {
      FoundNeedsLines(SignificantLines(Split(file.content, '\n')));
    }
  }

  /** The message names the test that failed: no file, no significant line, no important
      cookie; a file that cannot be read reports the exception's message. */
  lemma ValidateCookiesMessages(file: CookieFile)
    ensures file.NoFile? ==> ValidateCookies(file).1 == "Cookies file doesn't exist"
    ensures file.Unreadable? ==> ValidateCookies(file).1 == "Error validating cookies: " + file.msg
    ensures file.FileText? && SignificantLines(Split(file.content, '\n')) == [] ==>
      ValidateCookies(file).1 == "Cookies file is empty or contains only comments"
    ensures
      && file.FileText?
      && SignificantLines(Split(file.content, '\n')) != []
      && FoundCookies(SignificantLines(Split(file.content, '\n'))) == []
      ==>
      ValidateCookies(file).1 == "No critical YouTube cookies found"
  {
  }

  /** A file with some important cookies reports how many of the four it found: too few below
      three, otherwise accepted. */
  lemma ValidateCookiesCounts(content: string)
    ensures var k := |FoundCookies(SignificantLines(Split(content, '\n')))|;
      && (1 <= k < 3 ==> ValidateCookies(FileText(content)).1 == "Only " + NatToString(k) + "/4 critical cookies found")
      && (k >= 3 ==> ValidateCookies(FileText(content)).1 == "Found " + NatToString(k) + "/4 critical cookies")
  {
    var lines := SignificantLines(Split(content, '\n'));
    var k := |FoundCookies(lines)|;
    FoundNeedsLines(lines);
    CountOfFour(k);
    CountSentences(NatToString(k));
  }

  /** The count text out of the four important cookies. */
  lemma CountOfFour(k: nat)
    ensures CountText(k) == NatToString(k) + "/" + "4"
  {
    assert NatToString(|ImportantCookies|) == "4";
  }

  /** The two count messages with the count of four written out. */
  lemma CountSentences(n: string)
    ensures "Only " + (n + "/" + "4") + " critical cookies found" == "Only " + n + "/4 critical cookies found"
    ensures "Found " + (n + "/" + "4") + " critical cookies" == "Found " + n + "/4 critical cookies"
  {
    assert "/" + "4" + " critical cookies found" == "/4 critical cookies found";
    assert "/" + "4" + " critical cookies" == "/4 critical cookies";
  }

  /** An important cookie counts exactly when it is named on some significant line. */
  lemma FoundCookiesExactly(lines: seq<string>)
    ensures forall k :: 0 <= k < |ImportantCookies| ==>
      (ImportantCookies[k] in FoundCookies(lines) <==> InSomeLine(lines, ImportantCookies[k]))
  {
    var p := name => InSomeLine(lines, name);
    forall k | 0 <= k < |ImportantCookies|
      ensures ImportantCookies[k] in FoundCookies(lines) <==> p(ImportantCookies[k])
    {
    }
  }

  /** Stripping a line that starts with a non-space character keeps that character first. */
  lemma StripKeepsFirst(s: string)
    requires |s| > 0 && !IsSpace(s[0])
    ensures Strip(s) != "" && Strip(s)[0] == s[0]
  {
    assert TrimStart(s) == s;
    TrimEndProps(s);
    assert !AllSpace(s);
  }

  /** A first line without a line break is the first piece of the split. */
  lemma SplitFirstLine(head: string, rest: string)
    requires '\n' !in head
    ensures Split(head + "\n" + rest, '\n') == [head] + Split(rest, '\n')
  {
    var s := head + "\n" + rest;
    assert s[|head|] == '\n';
    assert s[..|head|] == head && s[|head| + 1..] == rest;
    assert forall j :: 0 <= j < |head| ==> s[j] == head[j];
  }

  /** A comment line at the top of the file (the `# Netscape HTTP Cookie File` header of
      exported cookie files) does not change the validator's verdict or message. */
  lemma CommentHeaderIgnored(header: string, rest: string)
    requires '\n' !in header && |header| > 0 && header[0] == '#'
    ensures ValidateCookies(FileText(header + "\n" + rest)) == ValidateCookies(FileText(rest))
  {
    SplitFirstLine(header, rest);
    StripKeepsFirst(header);
    var lines := Split(rest, '\n');
    assert ([header] + lines)[1..] == lines;
    assert SignificantLines([header] + lines) == SignificantLines(lines);
  }

  // ---------------------------------------------------------------------------------------
  // Request headers (`get_http_headers`)
  // ---------------------------------------------------------------------------------------

  /** The request headers. The twelve fixed headers are always present; `DNT` and `TE` only
      when the call's rolls add them. */
  datatype Headers = Headers(
    userAgent: string, acceptLanguage: string, accept: string, acceptEncoding: string,
    connection: string, upgradeInsecureRequests: string, secFetchDest: string, secFetchMode: string,
    secFetchSite: string, secFetchUser: string, cacheControl: string, referer: string,
    dnt: Option<string>, te: Option<string>)

  const Languages: seq<string> := ["en-US,en;q=0.9", "en-GB,en;q=0.9", "en;q=0.9"]
  const FetchSites: seq<string> := ["none", "same-origin"]
  const CacheControls: seq<string> := ["max-age=0", "no-cache"]

  /** The random draws of one call: an index for each `random.choice` (taken modulo the number
      of candidates) and the two `random.random()` rolls, each in [0, 1). */
  datatype Draws = Draws(agent: nat, language: nat, fetchSite: nat, cacheControl: nat, dntRoll: real, teRoll: real)

  /** The user agents whose platform matches the request: mobile agents for mobile requests,
      the others otherwise. */
  function AgentCandidates(agents: seq<string>, isMobile: bool): (candidates: seq<string>)
    ensures forall ua :: ua in candidates ==> ua in agents && SuitsPlatform(ua, isMobile)
    ensures candidates == [] <==> forall k :: 0 <= k < |agents| ==> !SuitsPlatform(agents[k], isMobile)
  {
    var p := ua => SuitsPlatform(ua, isMobile);
    Seqs.FilterNone(agents, p);
    Seqs.Filter(agents, p)
  }

  /** A user agent suits a request when it names `Mobile` exactly for mobile requests. */
  predicate SuitsPlatform(ua: string, isMobile: bool) {
    Contains(ua, "Mobile") == isMobile
  }

  /** `random.choice(xs)` for a non-empty list, the draw given as `i`. */
  function Pick(xs: seq<string>, i: nat): (x: string)
    requires |xs| > 0
    ensures x in xs
  {
    xs[i % |xs|]
  }

  const AcceptValue := "text/html,application/xhtml+xml,application/xml;q=0.9,image/avif,image/webp,image/apng,*/*;q=0.8"

  /** The headers every request carries, for the chosen user agent. */
  function FixedHeaders(ua: string, referrer: string, draws: Draws): (headers: Headers)
    ensures headers.userAgent == ua && headers.referer == referrer
    ensures headers.acceptLanguage in Languages
    ensures headers.secFetchSite in FetchSites
    ensures headers.cacheControl in CacheControls
    ensures headers.dnt.None? && headers.te.None?
  {
    Headers(
      ua, Pick(Languages, draws.language),
      AcceptValue,
      "gzip, deflate, br", "keep-alive", "1", "document", "navigate",
      Pick(FetchSites, draws.fetchSite), "?1",
      Pick(CacheControls, draws.cacheControl), referrer, None, None)
  }

  const EmptyChoiceError := "Cannot choose from an empty sequence"

  /** `get_http_headers`: `agents` is the user-agent list and `referrer` the referrer drawn for
      this call. `random.choice` raises when no agent suits the platform. */
  method GetHttpHeaders(isMobile: bool, agents: seq<string>, referrer: string, draws: Draws)
    returns (r: Result<Headers, string>)
    ensures r.Failure? <==> forall k :: 0 <= k < |agents| ==> !SuitsPlatform(agents[k], isMobile)
    ensures r.Failure? ==> r.error == EmptyChoiceError
    ensures r.Success? ==>
      var headers := r.value;
      && headers.userAgent in agents && SuitsPlatform(headers.userAgent, isMobile)
      && headers.acceptLanguage in Languages
      && headers.secFetchSite in FetchSites
      && headers.cacheControl in CacheControls
      && headers.referer == referrer
      && headers.dnt == (if draws.dntRoll < 0.5 then Some("1") else None)
      && headers.te == (if draws.teRoll < 0.3 then Some("Trailers") else None)
  {
    var candidates := AgentCandidates(agents, isMobile);
    if |candidates| == 0 {
      return Failure(EmptyChoiceError);
    }
    var headers := FixedHeaders(Pick(candidates, draws.agent), referrer, draws);
    if draws.dntRoll < 0.5 {
      headers := headers.(dnt := Some("1"));
    }
    if draws.teRoll < 0.3 {
      headers := headers.(te := Some("Trailers"));
    }
    r := Success(headers);
  }

  // ---------------------------------------------------------------------------------------
  // Connectivity probe (`check_youtube_connectivity`)
  // ---------------------------------------------------------------------------------------

  /** How the probe's metadata extraction ends: it succeeds, raises a yt-dlp download error,
      raises anything else, or the set-up around it (temporary directory, import) raises. */
  datatype ProbeAttempt = Extracted | DownloadRaised(msg: string) | OtherRaised(msg: string) | SetupRaised(msg: string)

  datatype ConnectivityReport = ConnectivityReport(
    accessible: bool, botDetectionActive: bool, error: Option<string>, message: string,
    cookiesValid: bool, cookiesMessage: string)

  /** Phrases of a download error that reveal bot detection. */
  const BotPhrases: seq<string> := ["sign in to confirm", "not a bot", "captcha", "robot"]

  /** `check_youtube_connectivity`: the report starts pessimistic (not accessible, bot detection
      active) and each outcome of the probe updates it; a download error naming any of the bot
      phrases, whatever its capitalisation, is read as bot detection; the cookie status comes
      from validating `cookies` afterwards. */
  method CheckConnectivity(attempt: ProbeAttempt, cookies: CookieFile) returns (report: ConnectivityReport)
    ensures report.accessible <==> attempt.Extracted? || attempt.DownloadRaised?
    ensures attempt.Extracted? ==> !report.botDetectionActive && report.error.None?
    ensures attempt.DownloadRaised? ==>
      report.error.None? && (report.botDetectionActive <==> Phrases.ContainsAny(Lower(attempt.msg), BotPhrases))
    ensures !report.accessible ==> report.botDetectionActive && report.error == Some(attempt.msg)
    ensures report.message == match attempt
      case Extracted => "YouTube is accessible without bot detection"
      case DownloadRaised(msg) =>
        if Phrases.ContainsAny(Lower(msg), BotPhrases) then "YouTube bot detection is active: " + msg
        else "YouTube access error (non-bot): " + msg
      case OtherRaised(msg) => "Failed to check YouTube: " + msg
      case SetupRaised(msg) => "Connection test failed: " + msg
    ensures attempt.DownloadRaised? ==> forall k :: 0 <= k < |BotPhrases| && Contains(Lower(attempt.msg), BotPhrases[k]) ==>
      report.botDetectionActive && report.message == "YouTube bot detection is active: " + attempt.msg
    ensures (report.cookiesValid, report.cookiesMessage) == ValidateCookies(cookies)
  {
    report := ConnectivityReport(false, true, None, "", false, "");
    match attempt {
      case Extracted =>
        report := report.(accessible := true, botDetectionActive := false,
                          message := "YouTube is accessible without bot detection");
      case DownloadRaised(msg) =>
        report := report.(accessible := true);
        if Phrases.ContainsAny(Lower(msg), BotPhrases) {
          report := report.(botDetectionActive := true, message := "YouTube bot detection is active: " + msg);
        } else {
          report := report.(botDetectionActive := false, message := "YouTube access error (non-bot): " + msg);
        }
      case OtherRaised(msg) =>
        report := report.(error := Some(msg), message := "Failed to check YouTube: " + msg);
      case SetupRaised(msg) =>
        report := report.(error := Some(msg), message := "Connection test failed: " + msg);
    }
    var verdict := ValidateCookies(cookies);
    report := report.(cookiesValid := verdict.0, cookiesMessage := verdict.1);
  }
}
