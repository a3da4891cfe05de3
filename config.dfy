/**
 * The server's configuration, read from the environment at start-up. The
 * environment is a map from variable names to values; a variable that is
 * unset is absent from the map. Where the server would panic, FromEnv
 * returns the reason instead.
 */
module Config {
  import opened Wrappers
  import opened Text

  type Env = map<string, string>

  datatype Config = Config(
    host: string,
    port: int,
    databaseUrl: string,
    jwtSecret: string,
    accessTokenExpirationMinutes: int,
    refreshTokenExpirationDays: int,
    staticFilesPath: Option<string>,
    corsOrigins: seq<string>,
    legalDir: Option<string>)

  /** The reasons from_env panics, in the order the fields are read. */
  datatype ConfigPanic = PortNotANumber | JwtSecretMissing | AccessMinutesNotANumber | RefreshDaysNotANumber

  const DefaultHost: string := "127.0.0.1"
  const DefaultPort: string := "8080"
  const DefaultDatabaseUrl: string := "sqlite:household.db?mode=rwc"
  const DefaultAccessMinutes: string := "15"
  const DefaultRefreshDays: string := "30"
  const DefaultCorsOrigins: string := "http://localhost,http://127.0.0.1"

  /** env::var(name).unwrap_or_else(default). */
  function VarOr(env: Env, name: string, default: string): (v: string)
    ensures name in env ==> v == env[name]
    ensures name !in env ==> v == default
  {
    if name in env then env[name] else default
  }

  /** env::var(name).ok(). */
  function VarOpt(env: Env, name: string): (v: Option<string>)
    ensures v.Some? <==> name in env
    ensures v.Some? ==> v.value == env[name]
  {
    if name in env then Some(env[name]) else None
  }

  /** Not empty, and no white space at either end. */
  predicate Clean(x: string)
  {
    x != [] && !IsWhitespace(x[0]) && !IsWhitespace(x[|x| - 1])
  }

  /** Each piece trimmed, empty pieces dropped. */
  function CleanOrigins(parts: seq<string>): (r: seq<string>)
    ensures |r| <= |parts|
    ensures forall i :: 0 <= i < |r| ==> Clean(r[i])
  {
    if parts == [] then []
    else
      var t := Trim(parts[0]);
      var rest := CleanOrigins(parts[1..]);
      if t == [] then rest
      else
        ConsClean(t, rest);
        [t] + rest
  }

  lemma ConsClean(t: string, rest: seq<string>)
    requires t != [] && !IsWhitespace(t[0]) && !IsWhitespace(t[|t| - 1])
    requires forall i :: 0 <= i < |rest| ==> Clean(rest[i])
    ensures forall i :: 0 <= i < |[t] + rest| ==> Clean(([t] + rest)[i])
  {
    forall i | 0 <= i < |[t] + rest|
      ensures Clean(([t] + rest)[i])
    {
      if i > 0 {
        assert ([t] + rest)[i] == rest[i - 1];
      }
    }
  }

  /** Every origin kept is a trimmed piece. */
  lemma {:induction false} CleanOriginsFromParts(parts: seq<string>)
    ensures forall x :: x in CleanOrigins(parts) ==> exists k :: 0 <= k < |parts| && x == Trim(parts[k])
  {
    if parts != [] {
      var rest := parts[1..];
      var t := Trim(parts[0]);
      CleanOriginsFromParts(rest);
      assert CleanOrigins(parts) == if t == [] then CleanOrigins(rest) else [t] + CleanOrigins(rest);
      forall x | x in CleanOrigins(parts)
        ensures exists k :: 0 <= k < |parts| && x == Trim(parts[k])
      {
        if x != t {
          assert x in CleanOrigins(rest);
          var k :| 0 <= k < |rest| && x == Trim(rest[k]);
          assert rest[k] == parts[k + 1];
        }
      }
    }
  }

  /** Every piece that is not blank is kept. */
  lemma {:induction false} CleanOriginsKeepsParts(parts: seq<string>)
    ensures forall k :: 0 <= k < |parts| && Trim(parts[k]) != [] ==> Trim(parts[k]) in CleanOrigins(parts)
  {
    if parts != [] {
      var rest := parts[1..];
      var t := Trim(parts[0]);
      CleanOriginsKeepsParts(rest);
      assert CleanOrigins(parts) == if t == [] then CleanOrigins(rest) else [t] + CleanOrigins(rest);
      forall k | 0 <= k < |parts| && Trim(parts[k]) != []
        ensures Trim(parts[k]) in CleanOrigins(parts)
      {
        if k > 0 {
          assert parts[k] == rest[k - 1];
        }
      }
    }
  }

  /** CORS_ORIGINS: split on commas, each piece trimmed, empty pieces dropped. */
  function CorsOrigins(s: string): (r: seq<string>)
    ensures forall i :: 0 <= i < |r| ==> Clean(r[i])
    ensures forall i, j :: 0 <= i < |r| && 0 <= j < |r[i]| ==> r[i][j] != ','
  {
    var parts := Split(s, ',');
    var r := CleanOrigins(parts);
    CleanOriginsFromParts(parts);
    forall i, j | 0 <= i < |r| && 0 <= j < |r[i]|
      ensures r[i][j] != ','
    {
      assert r[i] in r;
      var k :| 0 <= k < |parts| && r[i] == Trim(parts[k]);
      TrimInside(parts[k], j);
    }
    r
  }

  /** A character of the trimmed text is a character of the text. */
  lemma TrimInside(s: string, j: nat)
    requires j < |Trim(s)|
    ensures Trim(s)[j] in s
  {
    InSlice(s, |s| - |TrimStart(s)|, Trim(s), j);
  }

  lemma InSlice(s: string, a: nat, r: string, j: nat)
    requires a + |r| <= |s| && r == s[a..a + |r|] && j < |r|
    ensures r[j] in s
  {
    assert r[j] == s[a + j];
  }

  predicate NoComma(s: string)
  {
    forall j :: 0 <= j < |s| ==> s[j] != ','
  }

  /** Splitting pieces that were joined with commas gives the pieces back. */
  lemma {:induction false} SplitJoined(parts: seq<string>)
    requires |parts| >= 1 && forall k :: 0 <= k < |parts| ==> NoComma(parts[k])
    ensures Split(Join(parts, ','), ',') == parts
  {
    if |parts| == 1 {
      SplitNoSeparator(parts[0], ',');
    } else {
      SplitJoined(parts[1..]);
      SplitAtSeparator(parts[0], Join(parts[1..], ','), ',');
      assert parts == [parts[0]] + parts[1..];
    }
  }

  /** A comma-separated list of pieces yields the pieces, trimmed, without the empty ones. */
  lemma CorsOriginsOfJoin(parts: seq<string>)
    requires |parts| >= 1 && forall k :: 0 <= k < |parts| ==> NoComma(parts[k])
    ensures CorsOrigins(Join(parts, ',')) == CleanOrigins(parts)
  {
    SplitJoined(parts);
  }

  /** Origins that are already clean come back unchanged. */
  lemma {:induction false} CleanOriginsOfClean(origins: seq<string>)
    requires forall k :: 0 <= k < |origins| ==> Clean(origins[k])
    ensures CleanOrigins(origins) == origins
  {
    if origins != [] {
      TrimUntrimmed(origins[0]);
      CleanOriginsOfClean(origins[1..]);
      assert origins == [origins[0]] + origins[1..];
    }
  }

  /** Written out with commas and read back, a list of clean origins is itself. */
  lemma CorsOriginsRoundTrip(origins: seq<string>)
    requires |origins| >= 1
    requires forall k :: 0 <= k < |origins| ==> NoComma(origins[k]) && Clean(origins[k])
    ensures CorsOrigins(Join(origins, ',')) == origins
  {
    CorsOriginsOfJoin(origins);
    CleanOriginsOfClean(origins);
  }

  /** The default list names the two local origins. */
  lemma DefaultCorsOriginsValue()
    ensures CorsOrigins(DefaultCorsOrigins) == ["http://localhost", "http://127.0.0.1"]
  {
    var origins := ["http://localhost", "http://127.0.0.1"];
    assert Join(origins, ',') == DefaultCorsOrigins;
    CorsOriginsRoundTrip(origins);
  }

  function PortSetting(env: Env): Option<int>
  {
    ParseU16(VarOr(env, "PORT", DefaultPort))
  }

  function AccessMinutesSetting(env: Env): Option<int>
  {
    ParseI64(VarOr(env, "ACCESS_TOKEN_EXPIRATION_MINUTES", DefaultAccessMinutes))
  }

  function RefreshDaysSetting(env: Env): Option<int>
  {
    ParseI64(VarOr(env, "REFRESH_TOKEN_EXPIRATION_DAYS", DefaultRefreshDays))
  }

  /**
   * Config::from_env: every field from its variable or its default; the
   * numbers must parse, and JWT_SECRET has no default.
   */
  function FromEnv(env: Env): (r: Result<Config, ConfigPanic>)
    ensures PortSetting(env).None? ==> r == Err(PortNotANumber)
    ensures PortSetting(env).Some? && "JWT_SECRET" !in env ==> r == Err(JwtSecretMissing)
    ensures "JWT_SECRET" !in env ==> r.Err?
    ensures r.Ok? <==> (PortSetting(env).Some? && "JWT_SECRET" in env
                        && AccessMinutesSetting(env).Some? && RefreshDaysSetting(env).Some?)
    ensures r.Ok? ==> var c := r.value;
      c.host == VarOr(env, "HOST", DefaultHost)
      && c.port == PortSetting(env).value && 0 <= c.port <= 65535
      && c.databaseUrl == VarOr(env, "DATABASE_URL", DefaultDatabaseUrl)
      && c.jwtSecret == env["JWT_SECRET"]
      && c.accessTokenExpirationMinutes == AccessMinutesSetting(env).value
      && c.refreshTokenExpirationDays == RefreshDaysSetting(env).value
      && c.staticFilesPath == VarOpt(env, "STATIC_FILES_PATH")
      && c.corsOrigins == CorsOrigins(VarOr(env, "CORS_ORIGINS", DefaultCorsOrigins))
      && c.legalDir == VarOpt(env, "LEGAL_DIR")
  {
    match PortSetting(env)
    case None => Err(PortNotANumber)
    case Some(port) =>
      if "JWT_SECRET" !in env then Err(JwtSecretMissing)
      else
        match AccessMinutesSetting(env)
        case None => Err(AccessMinutesNotANumber)
        case Some(minutes) =>
          match RefreshDaysSetting(env)
          case None => Err(RefreshDaysNotANumber)
          case Some(days) =>
            Ok(Config(VarOr(env, "HOST", DefaultHost), port,
                      VarOr(env, "DATABASE_URL", DefaultDatabaseUrl), env["JWT_SECRET"], minutes, days,
                      VarOpt(env, "STATIC_FILES_PATH"),
                      CorsOrigins(VarOr(env, "CORS_ORIGINS", DefaultCorsOrigins)),
                      VarOpt(env, "LEGAL_DIR")))
  }

  /** The numeric defaults as numbers. */
  lemma NumericDefaults(env: Env)
    requires "PORT" !in env && "ACCESS_TOKEN_EXPIRATION_MINUTES" !in env && "REFRESH_TOKEN_EXPIRATION_DAYS" !in env
    ensures PortSetting(env) == Some(8080)
    ensures AccessMinutesSetting(env) == Some(15)
    ensures RefreshDaysSetting(env) == Some(30)
  {
    ParseShow(8080, 0, 65535);
    assert ShowNat(8080) == DefaultPort;
    ParseShow(15, -0x8000_0000_0000_0000, 0x7FFF_FFFF_FFFF_FFFF);
    assert ShowNat(15) == DefaultAccessMinutes;
    ParseShow(30, -0x8000_0000_0000_0000, 0x7FFF_FFFF_FFFF_FFFF);
    assert ShowNat(30) == DefaultRefreshDays;
  }

  /** With only the secret set, every other field has its default. */
  lemma DefaultsWithSecretOnly(secret: string)
    ensures FromEnv(map["JWT_SECRET" := secret])
      == Ok(Config("127.0.0.1", 8080, "sqlite:household.db?mode=rwc", secret, 15, 30, None,
                   ["http://localhost", "http://127.0.0.1"], None))
  {
    var env := map["JWT_SECRET" := secret];
    NumericDefaults(env);
    DefaultCorsOriginsValue();
  }
}
