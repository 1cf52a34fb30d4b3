/** Process configuration (pkg/config/config.go). The process environment is
    an input map; a variable that is absent reads as "" as with `os.Getenv`. */
module Config {
  import opened Wrappers

  const SourceVariable := "MONGOSYNC_SOURCE"
  const TargetVariable := "MONGOSYNC_TARGET"

  const DefaultBinaryPath := "./mongosync"
  const DefaultAPIBaseURL := "http://localhost:27182/api/v1"
  const DefaultDownloadURL :=
    "https://fastdl.mongodb.org/tools/mongosync/mongosync-ubuntu2404-x86_64-1.14.0.tgz"

  datatype Config = Config(
    sourceURI: string,
    targetURI: string,
    binaryPath: string,
    apiBaseURL: string,
    downloadURL: string)

  /** The only error `LoadConfig` reports: a required variable is unset or empty. */
  datatype ConfigError = MissingEnvironment

  /** `os.Getenv`: the value of `name`, or "" when it is not set. */
  function Getenv(env: map<string, string>, name: string): string
  {
    if name in env then env[name] else ""
  }

  /** A variable counts as set when it is present and non-empty. */
  predicate IsSet(env: map<string, string>, name: string)
  {
    name in env && env[name] != ""
  }

  function LoadConfig(env: map<string, string>): (r: Result<Config, ConfigError>)
    ensures r.Failure? <==> !IsSet(env, SourceVariable) || !IsSet(env, TargetVariable)
    ensures r.Failure? ==> r.error == MissingEnvironment
    ensures r.Success? ==>
      && r.value.sourceURI == env[SourceVariable]
      && r.value.targetURI == env[TargetVariable]
      && r.value.binaryPath == DefaultBinaryPath
      && r.value.apiBaseURL == DefaultAPIBaseURL
      && r.value.downloadURL == DefaultDownloadURL
  {
    var sourceURI := Getenv(env, SourceVariable);
    var targetURI := Getenv(env, TargetVariable);
    if sourceURI == "" || targetURI == "" then
      Failure(MissingEnvironment)
    else
      Success(Config(sourceURI, targetURI, DefaultBinaryPath, DefaultAPIBaseURL, DefaultDownloadURL))
  }

  /** Two successful loads differ only in the two endpoints: every other field
      is a fixed default that no environment can change. */
  lemma LoadConfigOnlyEndpointsVary(env1: map<string, string>, env2: map<string, string>)
    requires LoadConfig(env1).Success? && LoadConfig(env2).Success?
    ensures var c1, c2 := LoadConfig(env1).value, LoadConfig(env2).value;
      c1 == c2.(sourceURI := c1.sourceURI, targetURI := c1.targetURI)
  {
  }

  /** Setting unrelated variables does not change the outcome. */
  lemma LoadConfigReadsOnlyTwoVariables(env: map<string, string>, name: string, value: string)
    requires name != SourceVariable && name != TargetVariable
    ensures LoadConfig(env[name := value]) == LoadConfig(env)
  {
  }
}
