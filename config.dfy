/** The service's settings (`Settings`) and their process-wide cache (`get_settings`). */
module Config {
  import opened Wrappers
  import Strings

  /** The settings as loaded from the environment and the `.env` file. A credential that is
      not configured is `None`. */
  datatype Settings = Settings(
    cloudName: Option<string>, apiKey: Option<string>, apiSecret: Option<string>,
    appName: string, debug: bool, maxVideoSizeMb: int, tempDir: Option<string>)

  /** The values the settings take when the environment names only the credentials. */
  function Defaults(cloudName: Option<string>, apiKey: Option<string>, apiSecret: Option<string>): (s: Settings)
    ensures !s.debug && s.maxVideoSizeMb == 500 && s.tempDir.None?
    ensures s.cloudName == cloudName && s.apiKey == apiKey && s.apiSecret == apiSecret
  {
    Settings(cloudName, apiKey, apiSecret, "YouTube Video Processor", false, 500, None)
  }

  /** Python truthiness of an optional string: neither `None` nor empty. */
  predicate Truthy(v: Option<string>) {
    v.Some? && v.value != ""
  }

  predicate CredentialsPresent(s: Settings) {
    Truthy(s.cloudName) && Truthy(s.apiKey) && Truthy(s.apiSecret)
  }

  /** The three Cloudinary credentials, in the order they are checked and reported. */
  datatype Credential = CloudName | ApiKey | ApiSecret

  const Credentials: seq<Credential> := [CloudName, ApiKey, ApiSecret]

  /** The environment variable that configures a credential. */
  function VariableName(c: Credential): string {
    match c
    case CloudName => "CLOUDINARY_CLOUD_NAME"
    case ApiKey => "CLOUDINARY_API_KEY"
    case ApiSecret => "CLOUDINARY_API_SECRET"
  }

  function Value(s: Settings, c: Credential): Option<string> {
    match c
    case CloudName => s.cloudName
    case ApiKey => s.apiKey
    case ApiSecret => s.apiSecret
  }

  /** The variables of the credentials among `cs` that are not configured, in the order of `cs`. */
  function MissingAmong(s: Settings, cs: seq<Credential>): (names: seq<string>)
    ensures |names| <= |cs|
    ensures forall c :: c in cs && !Truthy(Value(s, c)) ==> VariableName(c) in names
    ensures forall name :: name in names ==> exists c :: c in cs && !Truthy(Value(s, c)) && name == VariableName(c)
  {
    if |cs| == 0 then []
    else (if Truthy(Value(s, cs[0])) then [] else [VariableName(cs[0])]) + MissingAmong(s, cs[1..])
  }

  /** The names of the variables the constructor reports as missing. */
  function Missing(s: Settings): seq<string> {
    MissingAmong(s, Credentials)
  }

  const MissingPrefix := "Missing required environment variables: "

  /** The error the constructor raises. */
  function MissingError(s: Settings): string {
    MissingPrefix + Strings.JoinWith(Missing(s), ", ")
  }

  /** The constructor's check: the settings, or the message of the error it raises. The list of
      missing names is built by appending, one credential at a time. */
  method Construct(s: Settings) returns (r: Result<Settings, string>)
    ensures r.Success? <==> CredentialsPresent(s)
    ensures r.Success? ==> r.value == s
    ensures r.Failure? ==> r.error == MissingError(s)
  {
    if CredentialsPresent(s) {
      return Success(s);
    }
    var missing: seq<string> := [];
    if !Truthy(s.cloudName) {
      missing := missing + [VariableName(CloudName)];
    }
    if !Truthy(s.apiKey) {
      missing := missing + [VariableName(ApiKey)];
    }
    if !Truthy(s.apiSecret) {
      missing := missing + [VariableName(ApiSecret)];
    }
    MissingByAppends(s);
    assert missing == Missing(s);
    return Failure(MissingPrefix + Strings.JoinWith(missing, ", "));
  }

  /** `Missing` is the list the three conditional appends build. */
  lemma MissingByAppends(s: Settings)
    ensures Missing(s) ==
      (if !Truthy(s.cloudName) then [VariableName(CloudName)] else [])
      + (if !Truthy(s.apiKey) then [VariableName(ApiKey)] else [])
      + (if !Truthy(s.apiSecret) then [VariableName(ApiSecret)] else [])
  {
    var last := MissingAmong(s, [ApiSecret]);
    assert [ApiSecret][1..] == [];
    assert last == (if !Truthy(s.apiSecret) then [VariableName(ApiSecret)] else []);
    var two := MissingAmong(s, [ApiKey, ApiSecret]);
    assert [ApiKey, ApiSecret][1..] == [ApiSecret];
    assert two == (if !Truthy(s.apiKey) then [VariableName(ApiKey)] else []) + last;
    assert Credentials[1..] == [ApiKey, ApiSecret];
  }

  /** A credential is reported exactly when it is missing; the list is empty exactly when
      construction succeeds. */
  lemma MissingExactly(s: Settings)
    ensures forall c: Credential :: VariableName(c) in Missing(s) <==> !Truthy(Value(s, c))
    ensures Missing(s) == [] <==> CredentialsPresent(s)
  {
    MissingByAppends(s);
  }

  /** With only the cloud name missing, the message names that variable alone. */
  lemma MissingCloudNameMessage(s: Settings)
    requires !Truthy(s.cloudName) && Truthy(s.apiKey) && Truthy(s.apiSecret)
    ensures MissingError(s) == MissingPrefix + VariableName(CloudName)
  {
    MissingByAppends(s);
  }

  /** With every credential missing, the message lists all three, comma-separated, in order. */
  lemma AllMissingMessage(s: Settings)
    requires !Truthy(s.cloudName) && !Truthy(s.apiKey) && !Truthy(s.apiSecret)
    ensures MissingError(s) ==
      MissingPrefix + VariableName(CloudName) + ", " + VariableName(ApiKey) + ", " + VariableName(ApiSecret)
  {
    AllMissingNames(s);
    Strings.JoinThree(VariableName(CloudName), VariableName(ApiKey), VariableName(ApiSecret), ", ");
  }

  /** With every credential missing, all three are reported, in order. */
  lemma AllMissingNames(s: Settings)
    requires !Truthy(s.cloudName) && !Truthy(s.apiKey) && !Truthy(s.apiSecret)
    ensures Missing(s) == [VariableName(CloudName), VariableName(ApiKey), VariableName(ApiSecret)]
  {
    MissingByAppends(s);
  }

  /** The module-level cache behind `get_settings`. `built` counts the constructions that
      succeeded; a construction that raises leaves the cache empty, so the next call tries
      again. */
  class SettingsCache {
    var cached: Option<Settings>
    ghost var built: nat

    /** At most one construction ever succeeds, and what the cache holds passed the check. */
    ghost predicate Valid()
      reads this
    {
      && built <= 1
      && (cached.Some? <==> built == 1)
      && (cached.Some? ==> CredentialsPresent(cached.value))
    }

    constructor ()
      ensures Valid() && cached.None? && built == 0
    {
      cached := None;
      built := 0;
    }

    /** `get_settings`: `loaded` is what the environment supplies at this call. Once the cache
        holds settings every call returns them unchanged and constructs nothing. */
    method GetSettings(loaded: Settings) returns (r: Result<Settings, string>)
      requires Valid()
      modifies this
      ensures Valid()
      ensures old(cached).Some? ==> r == Success(old(cached).value) && cached == old(cached) && built == old(built)
      ensures old(cached).None? && CredentialsPresent(loaded) ==>
        r == Success(loaded) && cached == Some(loaded) && built == old(built) + 1
      ensures old(cached).None? && !CredentialsPresent(loaded) ==>
        r == Failure(MissingError(loaded)) && cached.None? && built == old(built)
    {
      if cached.None? {
        var constructed := Construct(loaded);
        if constructed.Failure? {
          return constructed;
        }
        cached := Some(constructed.value);
        built := built + 1;
      }
      r := Success(cached.value);
    }
  }
}
