/** The upload stage of the video processor (`upload_to_cloudinary`): the public id, the size
    ceiling and readability check made before any call, the loop of at most three upload calls,
    and the classification of the fault that ends it. The hosting service's client is not
    modelled; what each call answers is given as a value. */
module Upload {
  import opened Wrappers
  import opened Seqs
  import opened Strings
  import opened Phrases

  /** What one upload call did: the fields of the answer the stage reads, or an exception. */
  datatype UploadCall = Returned(secureUrl: Option<string>, bytes: Option<int>, publicId: Option<string>) | CallRaised(msg: string)

  /** A successful upload as the pipeline sees it. */
  datatype Uploaded = Uploaded(publicUrl: string, fileSize: Option<int>, cloudId: Option<string>)

  const Folder := "youtube_hevc_720p"

  /** The characters kept in a public id. */
  predicate IsIdChar(c: char) {
    'a' <= c <= 'z' || 'A' <= c <= 'Z' || '0' <= c <= '9' || c == '_' || c == '-'
  }

  /** Every character outside `[a-zA-Z0-9_-]` replaced by one underscore. */
  function Sanitize(id: string): (r: string)
    ensures |r| == |id|
    ensures forall i :: 0 <= i < |r| ==> IsIdChar(r[i])
  {
    seq(|id|, i requires 0 <= i < |id| => if IsIdChar(id[i]) then id[i] else '_')
  }

  /** Sanitising keeps every allowed character in place, turns each other one into an
      underscore, and leaves a sanitised id as it is. */
  lemma SanitizeProps(id: string)
    ensures forall i :: 0 <= i < |id| ==> (Sanitize(id)[i] == id[i] <==> IsIdChar(id[i]))
    ensures forall i :: 0 <= i < |id| && !IsIdChar(id[i]) ==> Sanitize(id)[i] == '_'
    ensures Sanitize(Sanitize(id)) == Sanitize(id)
  {
    assert '_' == '_';
    forall i | 0 <= i < |id|
      ensures Sanitize(id)[i] == id[i] <==> IsIdChar(id[i])
    {
      if !IsIdChar(id[i]) {
        assert Sanitize(id)[i] == '_';
        assert IsIdChar('_');
      }
    }
  }

  lemma SanitizeExample()
    ensures Sanitize("abc 123!@#") == "abc_123___"
  {
  }

  /** The public id: the folder, a slash, and the sanitised video id, or "unknown" when the
      metadata has none. */
  function PublicId(id: Option<string>): string {
    Folder + "/" + Sanitize(id.GetOr("unknown"))
  }

  /** The public id is the folder followed by a slash-free name as long as the video id. */
  lemma PublicIdShape(id: Option<string>)
    ensures StartsWith(PublicId(id), Folder + "/")
    ensures var name := PublicId(id)[|Folder| + 1..];
      '/' !in name && |name| == |id.GetOr("unknown")|
  {
    var name := Sanitize(id.GetOr("unknown"));
    assert PublicId(id) == (Folder + "/") + name;
    assert PublicId(id)[|Folder| + 1..] == name;
    assert !IsIdChar('/');
  }

  const BytesPerMb: nat := 1024 * 1024

  /** `n / d` rounded to the nearest tenth, ties to the even tenth, as a count of tenths. */
  function RoundedTenths(n: nat, d: nat): nat
    requires d > 0
  {
    var q := (10 * n) / d;
    var r := (10 * n) % d;
    if 2 * r > d || (2 * r == d && q % 2 == 1) then q + 1 else q
  }

  /** The rounded count of tenths lies within half a tenth of `n / d`, and a tie goes to the
      even count. */
  lemma RoundedTenthsNearest(n: nat, d: nat)
    requires d > 0
    ensures var t := RoundedTenths(n, d);
      && 2 * (10 * n - t * d) <= d && 2 * (t * d - 10 * n) <= d
      && (2 * (10 * n - t * d) == d || 2 * (t * d - 10 * n) == d ==> t % 2 == 0)
  {
    var m := 10 * n;
    var q := m / d;
    var r := m % d;
    assert m == q * d + r && 0 <= r < d;
    NearestMultiple(m, d, q, r);
  }

  /** Rounding `m = q * d + r` to a multiple of `d` by the remainder lands within half of `d`,
      and on an even multiple in a tie. */
  lemma NearestMultiple(m: int, d: int, q: int, r: int)
    requires d > 0 && m == q * d + r && 0 <= r < d
    ensures var t := if 2 * r > d || (2 * r == d && q % 2 == 1) then q + 1 else q;
      && 2 * (m - t * d) <= d && 2 * (t * d - m) <= d
      && (2 * (m - t * d) == d || 2 * (t * d - m) == d ==> t % 2 == 0)
  {
    assert (q + 1) * d == q * d + d;
  }

  /** Python's `f"{n / d:.1f}"` for a quotient that floating point holds exactly. */
  function OneDecimal(n: nat, d: nat): string
    requires d > 0
  {
    var t := RoundedTenths(n, d);
    NatToString(t / 10) + "." + [DigitChar(t % 10)]
  }

  /** The checks made before any upload call: the size ceiling, then a trial read. */
  function Preflight(fileSize: nat, maxMb: int, readFault: Option<string>): Option<string> {
    if fileSize > maxMb * BytesPerMb then
      Some("Video file too large (" + OneDecimal(fileSize, BytesPerMb) + "MB > " + IntToString(maxMb) + "MB)")
    else if readFault.Some? then Some("Cannot read video file: " + readFault.value)
    else None
  }

  /** The ceiling is strict: a file of exactly the allowed size goes on to the read check. */
  lemma CeilingIsStrict(fileSize: nat, maxMb: int, readFault: Option<string>)
    ensures Preflight(fileSize, maxMb, readFault).Some? <==> fileSize > maxMb * BytesPerMb || readFault.Some?
    ensures fileSize <= maxMb * BytesPerMb ==>
      Preflight(fileSize, maxMb, readFault) == if readFault.Some? then Some("Cannot read video file: " + readFault.value) else None
  {
  }

  /** A 600 MiB file under the default 500 MB ceiling. */
  lemma TooLargeExample()
    ensures Preflight(600 * BytesPerMb, 500, None) == Some("Video file too large (600.0MB > 500MB)")
  {
    assert BytesPerMb == 1048576;
    assert 600 * BytesPerMb > 500 * BytesPerMb;
    var t := RoundedTenths(600 * BytesPerMb, BytesPerMb);
    assert t == 6000;
    assert t / 10 == 600 && t % 10 == 0;
    assert NatToString(600) == "600" by {
      assert NatToString(6) == "6";
      assert NatToString(60) == "60";
    }
    assert OneDecimal(600 * BytesPerMb, BytesPerMb) == "600.0";
    assert IntToString(500) == "500" by {
      assert NatToString(5) == "5";
      assert NatToString(50) == "50";
    }
    assert Preflight(600 * BytesPerMb, 500, None) == Some("Video file too large (" + "600.0" + "MB > " + "500" + "MB)");
    assert "Video file too large (" + "600.0" + "MB > " + "500" + "MB)" == "Video file too large (600.0MB > 500MB)";
  }

  /** One byte over a 500 MB ceiling is refused, whatever the trial read would say, and the
      size it shows rounds to 500.0. */
  lemma JustOverCeiling(readFault: Option<string>)
    ensures Preflight(500 * BytesPerMb + 1, 500, readFault) == Some("Video file too large (500.0MB > 500MB)")
  {
    assert BytesPerMb == 1048576;
    var t := RoundedTenths(500 * BytesPerMb + 1, BytesPerMb);
    assert t == 5000;
    assert t / 10 == 500 && t % 10 == 0;
    assert NatToString(500) == "500" by {
      assert NatToString(5) == "5";
      assert NatToString(50) == "50";
    }
    assert OneDecimal(500 * BytesPerMb + 1, BytesPerMb) == "500.0";
    assert IntToString(500) == "500";
    assert Preflight(500 * BytesPerMb + 1, 500, readFault) == Some("Video file too large (" + "500.0" + "MB > " + "500" + "MB)");
    assert "Video file too large (" + "500.0" + "MB > " + "500" + "MB)" == "Video file too large (500.0MB > 500MB)";
  }

  const MaxAttempts: nat := 3

  /** A call that answered with a non-empty secure URL. */
  predicate Delivered(c: UploadCall) {
    c.Returned? && c.secureUrl.Some? && c.secureUrl.value != ""
  }

  function ToUploaded(c: UploadCall): Uploaded
    requires Delivered(c)
  {
    Uploaded(c.secureUrl.value, c.bytes, c.publicId)
  }

  /** The fault that ends the upload, recognised in its lower-cased message, first match wins. */
  const UploadFaultRules: seq<Rule> := [
    Rule([], ["timeout"], Says("Upload timed out - file may be too large")),
    Rule([], ["unauthorized"], Says("Cloudinary authentication failed")),
    Rule(["invalid"], ["credentials"], Says("Invalid Cloudinary credentials")),
    Rule([], ["quota"], Says("Cloudinary quota exceeded")),
    Rule([], ["file size"], Says("File too large for Cloudinary"))
  ]

  function UploadFaultError(msg: string): string {
    Classify(msg, msg, UploadFaultRules).GetOr("Upload failed: " + msg)
  }

  const NoSecureUrl := "Upload failed - no secure URL returned"

  /** The error reported when the last call does not deliver. */
  function FinalError(c: UploadCall): string {
    match c
    case Returned(_, _, _) => NoSecureUrl
    case CallRaised(msg) => UploadFaultError(msg)
  }

  /** The retry loop's result: the first delivering call, or the last call's error. */
  function RetryOutcome(calls: seq<UploadCall>): Result<Uploaded, string>
    requires |calls| == MaxAttempts
  {
    var k := FirstIndex(calls, Delivered);
    if k < |calls| then Success(ToUploaded(calls[k])) else Failure(FinalError(calls[MaxAttempts - 1]))
  }

  /** How many upload calls the loop makes. */
  function CallsMade(calls: seq<UploadCall>): nat {
    var k := FirstIndex(calls, Delivered);
    if k < |calls| then k + 1 else |calls|
  }

  /** The loop of at most three upload calls. `waits` counts the five-second pauses, one after
      every failed call but the last. */
  method UploadWithRetry(calls: seq<UploadCall>) returns (r: Result<Uploaded, string>, made: nat, ghost waits: nat)
    requires |calls| == MaxAttempts
    ensures r == RetryOutcome(calls)
    ensures made == CallsMade(calls) && 1 <= made <= MaxAttempts
    ensures waits == made - 1
  {
    r := Failure(NoSecureUrl);
    made, waits := 0, 0;
    var attempt := 0;
    var done := false;
    while attempt < MaxAttempts && !done
      invariant 0 <= attempt <= MaxAttempts
      invariant made == attempt
      invariant attempt == MaxAttempts ==> done
      invariant done ==> r == RetryOutcome(calls) && made == CallsMade(calls) && 1 <= made && waits == made - 1
      invariant !done ==> waits == attempt && forall j :: 0 <= j < attempt ==> !Delivered(calls[j])
    {
      made := made + 1;
      var c := calls[attempt];
      if Delivered(c) {
        FirstIndexAt(calls, Delivered, attempt);
        r := Success(ToUploaded(c));
        done := true;
      } else if attempt < MaxAttempts - 1 {
        waits := waits + 1;
      } else {
        FirstIndexNone(calls, Delivered);
        r := Failure(FinalError(c));
        done := true;
      }
      attempt := attempt + 1;
    }
  }

  /** The whole stage: the checks before any call, then the retry loop. */
  function UploadOutcome(fileSize: nat, maxMb: int, readFault: Option<string>, calls: seq<UploadCall>): Result<Uploaded, string>
    requires |calls| == MaxAttempts
  {
    match Preflight(fileSize, maxMb, readFault)
    case Some(e) => Failure(e)
    case None => RetryOutcome(calls)
  }

  /** `upload_to_cloudinary`: no call is made when a check before the calls fails. */
  method UploadToCloudinary(fileSize: nat, maxMb: int, readFault: Option<string>, calls: seq<UploadCall>)
    returns (r: Result<Uploaded, string>, made: nat, ghost waits: nat)
    requires |calls| == MaxAttempts
    ensures r == UploadOutcome(fileSize, maxMb, readFault, calls)
    ensures made == if Preflight(fileSize, maxMb, readFault).Some? then 0 else CallsMade(calls)
    ensures waits == if made == 0 then 0 else made - 1
  {
    var e := Preflight(fileSize, maxMb, readFault);
    if e.Some? {
      return Failure(e.value), 0, 0;
    }
    r, made, waits := UploadWithRetry(calls);
  }

  /** The first delivering call wins, and no later call is made. */
  lemma FirstDeliveryWins(calls: seq<UploadCall>, k: nat)
    requires |calls| == MaxAttempts && k < MaxAttempts && Delivered(calls[k])
    requires forall j :: 0 <= j < k ==> !Delivered(calls[j])
    ensures RetryOutcome(calls) == Success(Uploaded(calls[k].secureUrl.value, calls[k].bytes, calls[k].publicId))
    ensures CallsMade(calls) == k + 1
  {
    FirstIndexAt(calls, Delivered, k);
  }

  /** Only the last call decides the error: earlier faults are retried and forgotten. */
  lemma OnlyLastFaultReported(a: seq<UploadCall>, b: seq<UploadCall>)
    requires |a| == MaxAttempts && |b| == MaxAttempts
    requires forall j :: 0 <= j < MaxAttempts ==> !Delivered(a[j]) && !Delivered(b[j])
    requires a[MaxAttempts - 1] == b[MaxAttempts - 1]
    ensures RetryOutcome(a) == RetryOutcome(b)
    ensures RetryOutcome(a).Failure? && CallsMade(a) == MaxAttempts
  {
    FirstIndexNone(a, Delivered);
    FirstIndexNone(b, Delivered);
  }

  /** An answer without a secure URL counts as a failed call, like an exception. */
  lemma MissingUrlIsFailure(calls: seq<UploadCall>)
    requires |calls| == MaxAttempts
    requires forall j :: 0 <= j < MaxAttempts ==> calls[j].Returned? && calls[j].secureUrl in {None, Some("")}
    ensures RetryOutcome(calls) == Failure(NoSecureUrl) && CallsMade(calls) == MaxAttempts
  {
    FirstIndexNone(calls, Delivered);
  }

  /** A timeout is recognised before everything else. */
  lemma TimeoutFirst(msg: string)
    requires Contains(Lower(msg), "timeout")
    ensures UploadFaultError(msg) == "Upload timed out - file may be too large"
  {
    MatchesByPhrase(Lower(msg), UploadFaultRules[0], 0);
    ClassifyPicks(msg, msg, UploadFaultRules, 0);
  }

  /** The credentials text is given only when the message has both "invalid" and
      "credentials". */
  lemma CredentialsNeedBoth(msg: string)
    ensures UploadFaultError(msg) == "Invalid Cloudinary credentials" ==>
      Contains(Lower(msg), "invalid") && Contains(Lower(msg), "credentials")
  {
    var low := Lower(msg);
    var c := Classify(msg, msg, UploadFaultRules);
    if c.Some? {
      ClassifySome(msg, msg, UploadFaultRules);
      var k :| 0 <= k < |UploadFaultRules| && Matches(low, UploadFaultRules[k])
        && c == Some(Render(UploadFaultRules[k].reply, msg));
      if k == 2 {
        assert UploadFaultRules[2].all == ["invalid"] && UploadFaultRules[2].any == ["credentials"];
        assert Contains(low, UploadFaultRules[2].all[0]);
      } else {
        assert UploadFaultRules[k].reply.text != "Invalid Cloudinary credentials";
      }
    } else {
      assert UploadFaultError(msg)[0] == 'U';
    }
  }
}
