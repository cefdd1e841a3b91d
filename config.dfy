/**
 * pkg/config/config.go: the application configuration, read from the
 * process environment with a default for every variable, and checked before
 * the server starts.
 */
module Config {
  import opened Common

  /** The process environment; a variable that is not in the map is unset. */
  type Env = map<string, string>

  /** os.Getenv: the empty string for an unset variable. */
  function Getenv(env: Env, key: string): string {
    if key in env then env[key] else ""
  }

  /** getEnv: the variable's value, or the default when it is unset or empty. */
  function GetEnv(env: Env, key: string, defaultValue: string): (r: string)
    ensures key in env && env[key] != "" ==> r == env[key]
    ensures key !in env || env[key] == "" ==> r == defaultValue
  {
    var value := Getenv(env, key);
    if value != "" then value else defaultValue
  }

  /** getEnvAsInt: the value when strconv.Atoi accepts it, else the default. */
  function GetEnvAsInt(env: Env, key: string, defaultValue: int): (r: int)
    ensures key in env && Atoi(env[key]).Some? ==> r == Atoi(env[key]).value
    ensures key !in env || Atoi(env[key]).None? ==> r == defaultValue
  {
    var value := Getenv(env, key);
    if value != "" then
      match Atoi(value)
      case Some(n) => n
      case None => defaultValue
    else defaultValue
  }

  /** getEnvAsBool: the value when strconv.ParseBool accepts it, else the default. */
  function GetEnvAsBool(env: Env, key: string, defaultValue: bool): (r: bool)
    ensures key in env && ParseBool(env[key]).Some? ==> r == ParseBool(env[key]).value
    ensures key !in env || ParseBool(env[key]).None? ==> r == defaultValue
  {
    var value := Getenv(env, key);
    if value != "" then
      match ParseBool(value)
      case Some(b) => b
      case None => defaultValue
    else defaultValue
  }

  /** time.ParseDuration is library code; durations are nanoseconds. */
  type DurationParser = string -> Option<int>

  const Minute: int := 60_000_000_000

  /**
   * getEnvAsDuration: the variable parsed, else the default parsed, else one
   * minute. An unset or empty variable goes straight to the default, which
   * is then parsed twice.
   */
  function GetEnvAsDuration(env: Env, key: string, defaultValue: string, parse: DurationParser): (r: int)
    ensures parse(GetEnv(env, key, defaultValue)).Some? ==> r == parse(GetEnv(env, key, defaultValue)).value
    ensures parse(GetEnv(env, key, defaultValue)).None? && parse(defaultValue).Some? ==> r == parse(defaultValue).value
    ensures parse(GetEnv(env, key, defaultValue)).None? && parse(defaultValue).None? ==> r == Minute
    ensures (key !in env || env[key] == "") && parse(defaultValue).None? ==> r == Minute
  {
    var value := GetEnv(env, key, defaultValue);
    match parse(value)
    case Some(d) => d
    case None =>
      match parse(defaultValue)
      case Some(d) => d
      case None => Minute
  }

  /**
   * getEnvAsSlice: a set variable is cut at every comma, with no trimming, so
   * joining the parts again gives the value back; an unset one yields the
   * default.
   */
  function GetEnvAsSlice(env: Env, key: string, defaultValue: seq<string>): (r: seq<string>)
    ensures key in env && env[key] != "" ==> (|r| >= 1 && Join(r, ',') == env[key]
      && forall i :: 0 <= i < |r| ==> Free(r[i], ','))
    ensures key !in env || env[key] == "" ==> r == defaultValue
  {
    var value := Getenv(env, key);
    if value != "" then
      SplitJoin(value, ',');
      SplitFree(value, ',');
      Split(value, ',')
    else defaultValue
  }

  /** The JWT secret the built-in defaults carry. */
  const DefaultJwtSecret := "your-secret-key"

  /** The fields of the configuration that Validate reads. */
  datatype ServerConfig = ServerConfig(host: string, port: int, tlsCertFile: string, tlsKeyFile: string, enableTls: bool)
  datatype DatabaseConfig = DatabaseConfig(host: string, port: int)
  datatype JwtConfig = JwtConfig(secret: string)
  datatype AppConfig = AppConfig(server: ServerConfig, database: DatabaseConfig, jwt: JwtConfig)

  predicate ValidPort(p: int) { 1 <= p <= 65535 }

  /**
   * Validate: the server port, then the JWT secret (set and not the default),
   * then the database host and port, then the TLS files when TLS is on; the
   * first failed check names the problem.
   */
  function Validate(c: AppConfig): (v: Verdict)
    ensures v == Accept <==> (ValidPort(c.server.port) && c.jwt.secret != "" && c.jwt.secret != DefaultJwtSecret
      && c.database.host != "" && ValidPort(c.database.port)
      && (c.server.enableTls ==> c.server.tlsCertFile != "" && c.server.tlsKeyFile != ""))
    ensures !ValidPort(c.server.port) ==> v == Reject("invalid server port: " + IntToString(c.server.port))
    ensures ValidPort(c.server.port) && (c.jwt.secret == "" || c.jwt.secret == DefaultJwtSecret) ==>
      v == Reject("JWT secret must be set and not use default value")
  {
    if c.server.port <= 0 || c.server.port > 65535 then
      Reject("invalid server port: " + IntToString(c.server.port))
    else if c.jwt.secret == "" || c.jwt.secret == DefaultJwtSecret then
      Reject("JWT secret must be set and not use default value")
    else if c.database.host == "" then
      Reject("database host must be set")
    else if c.database.port <= 0 || c.database.port > 65535 then
      Reject("invalid database port: " + IntToString(c.database.port))
    else if c.server.enableTls && (c.server.tlsCertFile == "" || c.server.tlsKeyFile == "") then
      Reject("TLS cert and key files must be set when TLS is enabled")
    else Accept
  }

  /** The part of Load that builds the validated fields from the environment. */
  function LoadFields(env: Env): AppConfig {
    AppConfig(
      ServerConfig(
        GetEnv(env, "SERVER_HOST", "0.0.0.0"),
        GetEnvAsInt(env, "SERVER_PORT", 8080),
        GetEnv(env, "TLS_CERT_FILE", ""),
        GetEnv(env, "TLS_KEY_FILE", ""),
        GetEnvAsBool(env, "ENABLE_TLS", false)),
      DatabaseConfig(GetEnv(env, "DB_HOST", "localhost"), GetEnvAsInt(env, "DB_PORT", 5432)),
      JwtConfig(GetEnv(env, "JWT_SECRET", DefaultJwtSecret)))
  }

  /** Load: the configuration, or the validation error wrapped as Load wraps it. */
  function Load(env: Env): (r: Result<AppConfig>)
    ensures r.Ok? <==> Validate(LoadFields(env)) == Accept
    ensures r.Ok? ==> r.value == LoadFields(env)
    ensures r.Err? ==> r.error == "config validation failed: " + Validate(LoadFields(env)).reason
  {
    var c := LoadFields(env);
    match Validate(c)
    case Accept => Ok(c)
    case Reject(reason) => Err("config validation failed: " + reason)
  }

  /** Without JWT_SECRET the default secret is used, and Load refuses it. */
  lemma LoadNeedsJwtSecret(env: Env)
    requires "JWT_SECRET" !in env || env["JWT_SECRET"] == ""
    ensures Load(env).Err?
  {
    assert LoadFields(env).jwt.secret == DefaultJwtSecret;
  }

  /** With a secret of its own and nothing else set, the defaults validate. */
  lemma DefaultsValidateWithSecret(secret: string)
    requires secret != "" && secret != DefaultJwtSecret
    ensures Load(map["JWT_SECRET" := secret]) == Ok(LoadFields(map["JWT_SECRET" := secret]))
  {
    var env := map["JWT_SECRET" := secret];
    var c := LoadFields(env);
    assert c.server.port == 8080 && c.database.port == 5432;
    assert c.database.host == "localhost" && !c.server.enableTls;
  }
}
