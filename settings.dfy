/**
  Configuration: the settings both programs read from the process
  environment, their defaults, and the check for required settings.
  The environment is a map from variable name to value; a name that is
  absent reads as the empty string, as `os.Getenv` does.
*/
module Settings {
  import opened Wrappers
  import opened GoStrings
  import opened Decimal

  /** The two programs of the repository, which differ in a few behaviours. */
  datatype Variant =
    | TrueNasBackup      // containers/truenas_backup
    | TrueNasBackupToS3  // containers/truenas_backup_to_s3

  type Env = map<string, string>

  datatype Config = Config(
    url: string,
    apiKey: string,
    name: string,
    s3Endpoint: string,
    s3AccessKey: string,
    s3SecretKey: string,
    s3Bucket: string,
    s3Prefix: string,
    s3Region: string,
    verifySsl: bool,
    retentionDays: int)

  datatype ConfigError =
    | MissingApiKey       // "TRUENAS_API_KEY is required"
    | MissingS3Settings   // "S3_ENDPOINT, S3_ACCESS_KEY, S3_SECRET_KEY, and S3_BUCKET are required"
    | MissingRequiredVars // the single message of containers/truenas_backup_to_s3

  const DefaultUrl := "https://truenas.local"
  const DefaultPrefix := "truenas-backups"
  const DefaultRegion := "us-east-1"
  const DefaultRetentionDays := 30

  /** `os.Getenv`: the value, or the empty string when the variable is unset. */
  function Lookup(env: Env, key: string): (v: string)
    ensures key !in env ==> v == ""
    ensures key in env ==> v == env[key]
  {
    if key in env then env[key] else ""
  }

  /** `getEnv`: the variable's value when it is set and non-empty, otherwise the fallback. */
  function GetEnv(env: Env, key: string, fallback: string): (r: string)
    ensures r == fallback || (key in env && r == env[key] && r != "")
    ensures key in env && env[key] != "" ==> r == env[key]
    ensures r == "" ==> fallback == ""
  {
    var v := Lookup(env, key);
    if v != "" then v else fallback
  }

  /**
    `getEnvInt`: the variable's value when it parses as a (64-bit) integer,
    otherwise the fallback; unset, empty and malformed values all fall back.
  */
  function GetEnvInt(env: Env, key: string, fallback: int): (r: int)
    ensures key in env && ParseInt(env[key]).Some? ==> r == ParseInt(env[key]).value
    ensures (key !in env || ParseInt(env[key]).None?) ==> r == fallback
  {
    var v := Lookup(env, key);
    if v != "" then
      match ParseInt(v)
      case Some(i) => i
      case None => fallback
    else fallback
  }

  /**
    `deriveTrueNASName`: strip a leading "https://", then a leading
    "http://", and keep what comes before the first ':'.
  */
  function DeriveName(url: string): (r: string)
    ensures ':' !in r
    ensures HasPrefix(TrimPrefix(TrimPrefix(url, "https://"), "http://"), r)
  {
    BeforeFirst(TrimPrefix(TrimPrefix(url, "https://"), "http://"), ':')
  }

  /** A host name without scheme or port is its own name. */
  lemma {:induction false} DeriveNameOfHost(scheme: string, host: string, rest: string)
    requires scheme == "https://" || scheme == "http://"
    requires ':' !in host && !HasPrefix(host + rest, "http://")
    requires rest == [] || rest[0] == ':'
    ensures DeriveName(scheme + host + rest) == host
  {
    var url := scheme + host + rest;
    var stripped := host + rest;
    if scheme == "https://" {
      assert url[..8] == "https://";
      assert TrimPrefix(url, "https://") == stripped;
    } else {
      assert url[..7] == "http://";
      assert !HasPrefix(url, "https://") by { assert url[4] == ':'; }
      assert url[7..] == stripped;
    }
    BeforeFirstUpToSeparator(host, rest);
  }

  /** The appliance at "https://nas.local:443" is called "nas.local". */
  lemma DeriveNameExample()
    ensures DeriveName("https://nas.local:443") == "nas.local"
  {
    var host := "nas.local";
    assert ':' !in host by {
      assert forall i :: 0 <= i < |host| ==> host[i] != ':';
    }
    assert !HasPrefix(host + ":443", "http://") by {
      assert (host + ":443")[0] == 'n';
    }
    assert "https://" + host + ":443" == "https://nas.local:443";
    DeriveNameOfHost("https://", host, ":443");
  }

  lemma {:induction false} BeforeFirstUpToSeparator(host: string, rest: string)
    requires ':' !in host
    requires rest == [] || rest[0] == ':'
    ensures BeforeFirst(host + rest, ':') == host
  {
    if host != [] {
      assert (host + rest)[1..] == host[1..] + rest;
      BeforeFirstUpToSeparator(host[1..], rest);
    }
  }

  /** The settings as both programs resolve them, with their defaults. */
  function Resolve(env: Env): (cfg: Config)
    ensures Lookup(env, "TRUENAS_URL") == "" ==> cfg.url == DefaultUrl
    ensures Lookup(env, "TRUENAS_URL") != "" ==> cfg.url == env["TRUENAS_URL"]
    ensures cfg.apiKey == Lookup(env, "TRUENAS_API_KEY")
    ensures Lookup(env, "TRUENAS_NAME") == "" ==> cfg.name == DeriveName(cfg.url)
    ensures Lookup(env, "TRUENAS_NAME") != "" ==> cfg.name == env["TRUENAS_NAME"]
    ensures cfg.s3Endpoint == Lookup(env, "S3_ENDPOINT")
    ensures cfg.s3AccessKey == Lookup(env, "S3_ACCESS_KEY")
    ensures cfg.s3SecretKey == Lookup(env, "S3_SECRET_KEY")
    ensures cfg.s3Bucket == Lookup(env, "S3_BUCKET")
    ensures cfg.s3Prefix == (if Lookup(env, "S3_PREFIX") == "" then DefaultPrefix else env["S3_PREFIX"])
    ensures cfg.s3Region == (if Lookup(env, "S3_REGION") == "" then DefaultRegion else env["S3_REGION"])
    ensures cfg.verifySsl <==> Lookup(env, "VERIFY_SSL") == "" || Lookup(env, "VERIFY_SSL") == "true"
    ensures ParseInt(Lookup(env, "BACKUP_RETENTION_DAYS")).None? ==> cfg.retentionDays == DefaultRetentionDays
    ensures ParseInt(Lookup(env, "BACKUP_RETENTION_DAYS")).Some? ==>
      cfg.retentionDays == ParseInt(Lookup(env, "BACKUP_RETENTION_DAYS")).value
  {
    var url := GetEnv(env, "TRUENAS_URL", DefaultUrl);
    Config(
      url := url,
      apiKey := Lookup(env, "TRUENAS_API_KEY"),
      name := GetEnv(env, "TRUENAS_NAME", DeriveName(url)),
      s3Endpoint := Lookup(env, "S3_ENDPOINT"),
      s3AccessKey := Lookup(env, "S3_ACCESS_KEY"),
      s3SecretKey := Lookup(env, "S3_SECRET_KEY"),
      s3Bucket := Lookup(env, "S3_BUCKET"),
      s3Prefix := GetEnv(env, "S3_PREFIX", DefaultPrefix),
      s3Region := GetEnv(env, "S3_REGION", DefaultRegion),
      verifySsl := GetEnv(env, "VERIFY_SSL", "true") == "true",
      retentionDays := GetEnvInt(env, "BACKUP_RETENTION_DAYS", DefaultRetentionDays))
  }

  /** Some setting both programs insist on is empty. */
  predicate MissingRequired(cfg: Config) {
    cfg.apiKey == "" || cfg.s3Endpoint == "" || cfg.s3AccessKey == ""
    || cfg.s3SecretKey == "" || cfg.s3Bucket == ""
  }

  /**
    `loadConfig` of containers/truenas_backup: the resolved settings, or an
    error naming the API key first and the object-store settings second.
  */
  function LoadConfig(env: Env): (r: Result<Config, ConfigError>)
    ensures r.Failure? <==> MissingRequired(Resolve(env))
    ensures r.Success? ==> r.value == Resolve(env)
    ensures r.Failure? ==> (r.error == MissingApiKey <==> Lookup(env, "TRUENAS_API_KEY") == "")
    ensures r.Failure? ==> r.error != MissingRequiredVars
  {
    var cfg := Resolve(env);
    if cfg.apiKey == "" then Failure(MissingApiKey)
    else if cfg.s3Endpoint == "" || cfg.s3AccessKey == "" || cfg.s3SecretKey == "" || cfg.s3Bucket == "" then
      Failure(MissingS3Settings)
    else Success(cfg)
  }

  /**
    The required-settings check at the top of `main` in
    containers/truenas_backup_to_s3: it rejects exactly what `loadConfig`
    rejects, with a single error.
  */
  function CheckRequired(env: Env): (r: Result<Config, ConfigError>)
    ensures r.Failure? <==> LoadConfig(env).Failure?
    ensures r.Success? ==> r == LoadConfig(env)
    ensures r.Failure? ==> r.error == MissingRequiredVars
  {
    var cfg := Resolve(env);
    if MissingRequired(cfg) then Failure(MissingRequiredVars) else Success(cfg)
  }

  /**
    BACKUP_RETENTION_DAYS may hold the largest 64-bit integer, a retention
    for which Go's cutoff computation wraps (`Store.GoCutoff`).
  */
  lemma LargestRetention(env: Env)
    requires Lookup(env, "BACKUP_RETENTION_DAYS") == FormatInt(MaxInt64)
    ensures Resolve(env).retentionDays == MaxInt64
  {
  }
}
