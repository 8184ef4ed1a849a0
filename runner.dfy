/** The start-up script (`run.py`): check the system dependencies, then the `.env` file, and
    start the server only when both checks pass. */
module Runner {
  import opened Wrappers
  import Seqs
  import opened Strings
  import Config

  /** How running `<dependency> -version` ends: normally, with a non-zero exit status, because
      the executable is missing, or with any other exception, which the check does not catch. */
  datatype VersionRun = Ran | ExitedWithError | NotFound | OtherFault(msg: string)

  const Dependencies: seq<string> := ["ffmpeg"]

  predicate CountsAsMissing(run: VersionRun) {
    run.ExitedWithError? || run.NotFound?
  }

  /** The dependencies whose run counts as missing, in order. */
  function MissingOf(deps: seq<string>, runs: seq<VersionRun>): (missing: seq<string>)
    requires |deps| == |runs|
    ensures |missing| <= |deps|
    ensures forall k :: 0 <= k < |deps| && CountsAsMissing(runs[k]) ==> deps[k] in missing
    ensures forall name :: name in missing ==> exists k :: 0 <= k < |deps| && CountsAsMissing(runs[k]) && name == deps[k]
    ensures missing == [] <==> forall k :: 0 <= k < |runs| ==> !CountsAsMissing(runs[k])
  {
    if |deps| == 0 then []
    else
      var n := |deps| - 1;
      MissingOf(deps[..n], runs[..n]) + (if CountsAsMissing(runs[n]) then [deps[n]] else [])
  }

  /** `check_dependencies`: whether every dependency is present, or the message of an exception
      that escapes it. */
  function DependencyVerdict(runs: seq<VersionRun>): Result<bool, string>
    requires |runs| == |Dependencies|
  {
    var k := Seqs.FirstIndex(runs, (run: VersionRun) => run.OtherFault?);
    if k < |runs| then Failure(runs[k].msg) else Success(MissingOf(Dependencies, runs) == [])
  }

  /** `check_dependencies`, one dependency at a time, collecting the missing ones. */
  method CheckDependencies(runs: seq<VersionRun>) returns (r: Result<bool, string>, missing: seq<string>)
    requires |runs| == |Dependencies|
    ensures r == DependencyVerdict(runs)
    ensures r.Success? ==> missing == MissingOf(Dependencies, runs)
  {
    missing := [];
    for i := 0 to |Dependencies|
      invariant missing == MissingOf(Dependencies[..i], runs[..i])
      invariant forall j :: 0 <= j < i ==> !runs[j].OtherFault?
    {
      if runs[i].OtherFault? {
        Seqs.FirstIndexAt(runs, (run: VersionRun) => run.OtherFault?, i);
        return Failure(runs[i].msg), missing;
      }
      if CountsAsMissing(runs[i]) {
        missing := missing + [Dependencies[i]];
      }
      assert Dependencies[..i + 1][..i] == Dependencies[..i];
      assert runs[..i + 1][..i] == runs[..i];
    }
    assert Dependencies[..|Dependencies|] == Dependencies && runs[..|runs|] == runs;
    Seqs.FirstIndexNone(runs, (run: VersionRun) => run.OtherFault?);
    r := Success(missing == []);
  }

  /** The dependency check passes exactly when every dependency ran, and fails without an
      exception exactly when one exited with an error or was not found and none raised anything
      else. */
  lemma DependencyVerdictExactly(runs: seq<VersionRun>)
    requires |runs| == |Dependencies|
    ensures DependencyVerdict(runs) == Success(true) <==> forall k :: 0 <= k < |runs| ==> runs[k] == Ran
    ensures DependencyVerdict(runs) == Success(false) <==>
      (forall k :: 0 <= k < |runs| ==> !runs[k].OtherFault?) && (exists k :: 0 <= k < |runs| && CountsAsMissing(runs[k]))
  {
    var p := (run: VersionRun) => run.OtherFault?;
    var k := Seqs.FirstIndex(runs, p);
    if k == |runs| {
      forall j | 0 <= j < |runs|
        ensures !runs[j].OtherFault?
      {
        assert !p(runs[j]);
      }
    }
  }

  /** The variables `.env` must assign: those the settings require, in the same order. */
  const RequiredVars: seq<string> :=
    [Config.VariableName(Config.CloudName), Config.VariableName(Config.ApiKey), Config.VariableName(Config.ApiSecret)]

  /** A variable is flagged when `VAR=` does not occur in the file, or `VAR=your_` (the template's
      placeholder) does. Both tests are plain substring tests. */
  predicate Flagged(content: string, name: string) {
    !Contains(content, name + "=") || Contains(content, name + "=your_")
  }

  function FlaggedVars(content: string): seq<string> {
    Seqs.Filter(RequiredVars, name => Flagged(content, name))
  }

  /** `check_env_file`'s verdict: the file exists and flags nothing. */
  predicate EnvOk(env: Option<string>) {
    env.Some? && FlaggedVars(env.value) == []
  }

  /** `check_env_file`: `env` is the file's content, or `None` when there is no `.env`. */
  method CheckEnvFile(env: Option<string>) returns (ok: bool, flagged: seq<string>)
    ensures ok == EnvOk(env)
    ensures env.None? ==> flagged == []
    ensures env.Some? ==> flagged == FlaggedVars(env.value)
  {
    if env.None? {
      return false, [];
    }
    var content := env.value;
    flagged := [];
    for i := 0 to |RequiredVars|
      invariant flagged == Seqs.Filter(RequiredVars[..i], name => Flagged(content, name))
    {
      Seqs.FilterSnoc(RequiredVars[..i], RequiredVars[i], name => Flagged(content, name));
      assert RequiredVars[..i + 1] == RequiredVars[..i] + [RequiredVars[i]];
      if Flagged(content, RequiredVars[i]) {
        flagged := flagged + [RequiredVars[i]];
      }
    }
    assert RequiredVars[..|RequiredVars|] == RequiredVars;
    ok := flagged == [];
  }

  /** A placeholder assignment also contains the plain assignment, so a variable is flagged
      either because it is not assigned at all or because its value starts with `your_`. */
  lemma PlaceholderIsAnAssignment(content: string, name: string)
    ensures Contains(content, name + "=your_") ==> Contains(content, name + "=")
    ensures Flagged(content, name) <==>
      !Contains(content, name + "=") || (Contains(content, name + "=") && Contains(content, name + "=your_"))
  {
    if Contains(content, name + "=your_") {
      assert OccursAt(name + "=your_", name + "=", 0);
      ContainsTransitive(content, name + "=your_", name + "=");
    }
  }

  /** The `.env` check passes exactly when the file exists and assigns every required variable
      something other than the placeholder. */
  lemma EnvOkExactly(env: Option<string>)
    ensures EnvOk(env) <==>
      && env.Some?
      && forall k :: 0 <= k < |RequiredVars| ==>
           Contains(env.value, RequiredVars[k] + "=") && !Contains(env.value, RequiredVars[k] + "=your_")
  {
    if env.Some? && FlaggedVars(env.value) != [] {
      var name := FlaggedVars(env.value)[0];
      assert name in RequiredVars && Flagged(env.value, name);
    }
  }

  datatype Check = DependencyCheck | EnvCheck

  /** How `main` ends: `sys.exit` with a status, the server started, or an exception escaping
      the dependency check. */
  datatype StartOutcome = Exited(code: int) | ServerStarted | Crashed(msg: string)

  function StartOutcomeOf(runs: seq<VersionRun>, env: Option<string>): StartOutcome
    requires |runs| == |Dependencies|
  {
    match DependencyVerdict(runs)
    case Failure(msg) => Crashed(msg)
    case Success(present) =>
      if !present then Exited(1)
      else if EnvOk(env) then ServerStarted
      else Exited(1)
  }

  /** `main`: `checks` records the checks run, in order. */
  method Start(runs: seq<VersionRun>, env: Option<string>) returns (outcome: StartOutcome, ghost checks: seq<Check>)
    requires |runs| == |Dependencies|
    ensures outcome == StartOutcomeOf(runs, env)
    ensures checks == if DependencyVerdict(runs) == Success(true) then [DependencyCheck, EnvCheck] else [DependencyCheck]
  {
    checks := [DependencyCheck];
    var present, _ := CheckDependencies(runs);
    if present.Failure? {
      return Crashed(present.error), checks;
    }
    if !present.value {
      return Exited(1), checks;
    }
    checks := checks + [EnvCheck];
    var envOk, _ := CheckEnvFile(env);
    if !envOk {
      return Exited(1), checks;
    }
    outcome := ServerStarted;
  }

  /** The server starts exactly when every dependency ran and the `.env` file passes; the
      environment is checked only after the dependencies passed, and any failing check ends the
      script with status 1. */
  lemma StartOrder(runs: seq<VersionRun>, env: Option<string>)
    requires |runs| == |Dependencies|
    ensures StartOutcomeOf(runs, env) == ServerStarted <==>
      (forall k :: 0 <= k < |runs| ==> runs[k] == Ran) && EnvOk(env)
    ensures (forall k :: 0 <= k < |runs| ==> !runs[k].OtherFault?) ==>
      StartOutcomeOf(runs, env) == ServerStarted || StartOutcomeOf(runs, env) == Exited(1)
  {
    DependencyVerdictExactly(runs);
  }
}
