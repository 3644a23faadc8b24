/** Server configuration read from the environment (internal/server/config.go). */
module ServerConfig {
  import opened Wrappers
  import opened Strconv

  /** The process environment, as `os.Getenv` sees it. */
  type Env = map<string, string>

  /** `os.Getenv`: the stored value, or the empty string when the variable is unset. */
  function Getenv(env: Env, key: string): (value: string)
    ensures key !in env ==> value == ""
    ensures key in env ==> value == env[key]
  {
    if key in env then env[key] else ""
  }

  /** `getEnv`: the variable's value, unless it is unset or empty, in which case the default. */
  function GetEnv(env: Env, key: string, defaultValue: string): (value: string)
    ensures key !in env || env[key] == "" ==> value == defaultValue
    ensures key in env && env[key] != "" ==> value == env[key]
    ensures defaultValue != "" ==> value != ""
  {
    var value := Getenv(env, key);
    if value == "" then defaultValue else value
  }

  /**
   * `getEnvAsInt`: the variable's value parsed by `strconv.Atoi`, or the default when
   * it is unset or does not parse. The unset case goes through `Atoi(Itoa(default))`.
   */
  function GetEnvAsInt(env: Env, key: string, defaultValue: GoInt): (value: GoInt)
    ensures key in env && Atoi(env[key]).Ok? ==> value == Atoi(env[key]).value
    ensures key !in env || Atoi(env[key]).Err? ==> value == defaultValue
  {
    AtoiItoa(defaultValue);
    var valueStr := GetEnv(env, key, Itoa(defaultValue));
    match Atoi(valueStr)
    case Err(_) => defaultValue
    case Ok(v) => v
  }

  datatype Config = Config(
    port: GoInt,
    readTimeoutSec: GoInt,
    writeTimeoutSec: GoInt,
    idleTimeoutSec: GoInt,
    dbHost: string,
    dbPort: string,
    dbUser: string,
    dbPassword: string,
    dbName: string,
    jwtSecret: string,
    jwtExpiryHours: GoInt,
    jwtRefreshHours: GoInt,
    allowedOrigins: seq<string>)
  {
    /**
     * `GetServerAddr`: a colon followed by the canonical decimal rendering of the
     * port (`Itoa`, which is what `%d` prints), which parses back to the port.
     */
    function GetServerAddr(): (addr: string)
      ensures addr == ":" + Itoa(port)
      ensures |addr| >= 2 && addr[0] == ':'
      ensures Atoi(addr[1..]) == Ok(port)
    {
      AtoiItoa(port);
      var addr := ":" + Itoa(port);
      assert addr[1..] == Itoa(port);
      addr
    }
  }

  /** The environment variables `NewConfig` reads. */
  const ConfigKeys: set<string> := {
    "SERVER_PORT", "SERVER_READ_TIMEOUT", "SERVER_WRITE_TIMEOUT", "SERVER_IDLE_TIMEOUT",
    "DB_HOST", "DB_PORT", "DB_USER", "DB_PASSWORD", "DB_NAME",
    "JWT_SECRET", "JWT_EXPIRY_HOURS", "JWT_REFRESH_HOURS", "CORS_ALLOWED_ORIGINS"
  }

  /** `NewConfig`: each field from its variable, with the built-in defaults. */
  function NewConfig(env: Env): (c: Config)
    ensures |c.allowedOrigins| == 1
    ensures c.dbHost != "" && c.dbPort != "" && c.dbUser != "" && c.dbPassword != "" && c.dbName != ""
    ensures c.jwtSecret != "" && c.allowedOrigins[0] != ""
  {
    Config(
      port := GetEnvAsInt(env, "SERVER_PORT", 8080),
      readTimeoutSec := GetEnvAsInt(env, "SERVER_READ_TIMEOUT", 15),
      writeTimeoutSec := GetEnvAsInt(env, "SERVER_WRITE_TIMEOUT", 15),
      idleTimeoutSec := GetEnvAsInt(env, "SERVER_IDLE_TIMEOUT", 60),
      dbHost := GetEnv(env, "DB_HOST", "localhost"),
      dbPort := GetEnv(env, "DB_PORT", "3306"),
      dbUser := GetEnv(env, "DB_USER", "root"),
      dbPassword := GetEnv(env, "DB_PASSWORD", "password"),
      dbName := GetEnv(env, "DB_NAME", "task_manager"),
      jwtSecret := GetEnv(env, "JWT_SECRET", "your-secret-key"),
      jwtExpiryHours := GetEnvAsInt(env, "JWT_EXPIRY_HOURS", 24),
      jwtRefreshHours := GetEnvAsInt(env, "JWT_REFRESH_HOURS", 168),
      allowedOrigins := [GetEnv(env, "CORS_ALLOWED_ORIGINS", "*")])
  }

  /** With none of its variables set, `NewConfig` yields the built-in defaults. */
  lemma NewConfigDefaults(env: Env)
    requires env.Keys !! ConfigKeys
    ensures NewConfig(env) == Config(
      8080, 15, 15, 60,
      "localhost", "3306", "root", "password", "task_manager",
      "your-secret-key", 24, 168, ["*"])
  {
  }

  /** The default listen address is `:8080`. */
  lemma DefaultServerAddr(env: Env)
    requires env.Keys !! ConfigKeys
    ensures NewConfig(env).GetServerAddr() == ":8080"
  {
    NewConfigDefaults(env);
    ItoaExample();
  }

  /**
   * `NewConfig` depends only on what `os.Getenv` returns for its thirteen variables:
   * other variables never matter, and an empty variable reads the same as an unset one.
   */
  lemma NewConfigReadsOnlyItsKeys(e1: Env, e2: Env)
    requires forall k :: k in ConfigKeys ==> Getenv(e1, k) == Getenv(e2, k)
    ensures NewConfig(e1) == NewConfig(e2)
  {
  }

  /** A port written by `Itoa` is read back exactly, and the listen address renders it. */
  lemma NewConfigPortRoundTrip(env: Env, p: GoInt)
    requires "SERVER_PORT" in env && env["SERVER_PORT"] == Itoa(p)
    ensures NewConfig(env).port == p
    ensures NewConfig(env).GetServerAddr() == ":" + Itoa(p)
  {
    AtoiItoa(p);
  }

  /** A value `Atoi` rejects falls back to the default rather than failing. */
  lemma NewConfigBadPortFallsBack(env: Env)
    requires "SERVER_PORT" in env && env["SERVER_PORT"] == "80a"
    ensures NewConfig(env).port == 8080
  {
  }
}
