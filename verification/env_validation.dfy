/**
 * The backend's environment schema and `validateEnv`. The configuration is
 * the process environment: a map from variable names to strings, where an
 * absent name is an undefined value (which a default replaces). Keys the
 * schema does not name are dropped.
 *
 * Two library checks are parameters: `toNumber` is the `Number(...)`
 * coercion (`None` for NaN) and `isUrl` the URL check. A default value is
 * fed through the same checks as a supplied one.
 *
 * A Dafny `char` is a Unicode scalar value; a length bound of the schema
 * counts what JavaScript's `length` counts, UTF-16 code units, so a
 * character beyond U+FFFF counts twice (`Utf16Length`).
 */
module EnvValidation {
  import opened MatchTypes

  datatype NodeEnv = Development | Production | Test

  /** The parsed configuration, defaults filled in. */
  datatype Env = Env(
    nodeEnv: NodeEnv,
    port: real,
    frontendOrigin: string,
    databaseUrl: string,
    redisUrl: string,
    jwtAccessSecret: string,
    jwtRefreshSecret: string,
    jwtAccessExpiration: string,
    jwtRefreshExpiration: string,
    bcryptRounds: real)

  datatype IssueKind = Required | InvalidEnumValue | NotANumber | TooSmall | TooBig | InvalidUrl

  /** One failed rule, under the variable it concerns. */
  datatype Issue = Issue(key: string, kind: IssueKind)

  const DefaultNodeEnv: string := "development"
  const MinPort: real := 1000.0
  const MaxPort: real := 65535.0
  const DefaultPort: real := 4000.0
  const DefaultOrigin: string := "http://localhost:3000"
  const MinSecretLength: nat := 32
  const DefaultAccessExpiration: string := "15m"
  const DefaultRefreshExpiration: string := "7d"
  const MinBcryptRounds: real := 8.0
  const MaxBcryptRounds: real := 15.0
  const DefaultBcryptRounds: real := 10.0

  const SchemaKeys: set<string> := {
    "NODE_ENV", "PORT", "FRONTEND_ORIGIN", "DATABASE_URL", "REDIS_URL", "JWT_ACCESS_SECRET",
    "JWT_REFRESH_SECRET", "JWT_ACCESS_EXPIRATION", "JWT_REFRESH_EXPIRATION", "BCRYPT_ROUNDS"}

  function Get(config: map<string, string>, key: string): Option<string> {
    if key in config then Some(config[key]) else None
  }

  /** `z.enum([...]).default('development')`. */
  function ParseNodeEnv(v: Option<string>): (r: Result<NodeEnv, IssueKind>)
    ensures r.Success? <==> v.GetOr(DefaultNodeEnv) in {"development", "production", "test"}
    ensures v.None? ==> r == Success(Development)
    ensures r.Failure? ==> r.error == InvalidEnumValue
  {
    var s := v.GetOr(DefaultNodeEnv);
    if s == "development" then Success(Development)
    else if s == "production" then Success(Production)
    else if s == "test" then Success(Test)
    else Failure(InvalidEnumValue)
  }

  /** A number that passes `.min(lo).max(hi)`; an absent value is the default. */
  ghost predicate NumberOk(v: Option<string>, lo: real, hi: real, default: real, toNumber: string -> Option<real>) {
    if v.None? then lo <= default <= hi
    else toNumber(v.value).Some? && lo <= toNumber(v.value).value <= hi
  }

  /** `z.coerce.number().min(lo).max(hi).default(d)`. */
  function ParseBounded(v: Option<string>, lo: real, hi: real, default: real, toNumber: string -> Option<real>)
    : (r: Result<real, IssueKind>)
    ensures r.Success? <==> NumberOk(v, lo, hi, default, toNumber)
    ensures r.Success? ==> lo <= r.value <= hi
    ensures r.Success? && v.None? ==> r.value == default
    ensures r.Success? && v.Some? ==> toNumber(v.value) == Some(r.value)
  {
    var n := if v.None? then Some(default) else toNumber(v.value);
    match n
    case None => Failure(NotANumber)
    case Some(x) =>
      if x < lo then Failure(TooSmall)
      else if x > hi then Failure(TooBig)
      else Success(x)
  }

  /** `z.string().url().default(d)`. */
  function ParseUrl(v: Option<string>, default: string, isUrl: string -> bool): (r: Result<string, IssueKind>)
    ensures r.Success? <==> isUrl(v.GetOr(default))
    ensures r.Success? ==> r.value == v.GetOr(default)
  {
    var s := v.GetOr(default);
    if isUrl(s) then Success(s) else Failure(InvalidUrl)
  }

  /** JavaScript's `length`: a character beyond U+FFFF is a surrogate pair, two code units. */
  function Utf16Length(s: string): (n: nat)
    ensures |s| <= n <= 2 * |s|
  {
    if s == [] then 0
    else (if s[0] as int > 0xFFFF then 2 else 1) + Utf16Length(s[1..])
  }

  /** A string of characters beyond U+FFFF has twice as many code units as characters. */
  lemma {:induction false} AstralLengthDoubles(s: string)
    requires forall i :: 0 <= i < |s| ==> s[i] as int > 0xFFFF
    ensures Utf16Length(s) == 2 * |s|
  {
    if s != [] {
      assert s[0] as int > 0xFFFF;
      AstralLengthDoubles(s[1..]);
    }
  }

  /** `z.string().min(n)` with no default: a missing value is required. */
  function ParseRequired(v: Option<string>, minLength: nat): (r: Result<string, IssueKind>)
    ensures r.Success? <==> v.Some? && Utf16Length(v.value) >= minLength
    ensures r.Success? ==> r.value == v.value
    ensures r == Failure(Required) <==> v.None?
  {
    match v
    case None => Failure(Required)
    case Some(s) => if Utf16Length(s) < minLength then Failure(TooSmall) else Success(s)
  }

  /** Sixteen U+1F600 are 32 code units: a long enough secret, though only sixteen characters. */
  lemma SixteenEmojiSecretAccepted()
    ensures var secret := seq(16, _ => '\U{1F600}');
      |secret| == 16 && ParseRequired(Some(secret), MinSecretLength) == Success(secret)
  {
    AstralLengthDoubles(seq(16, _ => '\U{1F600}'));
  }

  function IssuesOf<T>(key: string, r: Result<T, IssueKind>): (issues: seq<Issue>)
    ensures issues == [] <==> r.Success?
    ensures r.Failure? ==> issues == [Issue(key, r.error)]
  {
    if r.Success? then [] else [Issue(key, r.error)]
  }

  /** Every rule of the schema, stated variable by variable. */
  ghost predicate EnvAcceptable(config: map<string, string>, toNumber: string -> Option<real>, isUrl: string -> bool) {
    && Get(config, "NODE_ENV").GetOr(DefaultNodeEnv) in {"development", "production", "test"}
    && NumberOk(Get(config, "PORT"), MinPort, MaxPort, DefaultPort, toNumber)
    && isUrl(Get(config, "FRONTEND_ORIGIN").GetOr(DefaultOrigin))
    && "DATABASE_URL" in config && Utf16Length(config["DATABASE_URL"]) >= 1
    && "REDIS_URL" in config && Utf16Length(config["REDIS_URL"]) >= 1
    && "JWT_ACCESS_SECRET" in config && Utf16Length(config["JWT_ACCESS_SECRET"]) >= MinSecretLength
    && "JWT_REFRESH_SECRET" in config && Utf16Length(config["JWT_REFRESH_SECRET"]) >= MinSecretLength
    && NumberOk(Get(config, "BCRYPT_ROUNDS"), MinBcryptRounds, MaxBcryptRounds, DefaultBcryptRounds, toNumber)
  }

  /** The outcome of each variable's schema, in schema order. */
  datatype Parsed = Parsed(
    nodeEnv: Result<NodeEnv, IssueKind>,
    port: Result<real, IssueKind>,
    origin: Result<string, IssueKind>,
    database: Result<string, IssueKind>,
    redis: Result<string, IssueKind>,
    access: Result<string, IssueKind>,
    refresh: Result<string, IssueKind>,
    accessExpiration: string,
    refreshExpiration: string,
    rounds: Result<real, IssueKind>)

  predicate AllParsed(p: Parsed) {
    && p.nodeEnv.Success? && p.port.Success? && p.origin.Success? && p.database.Success?
    && p.redis.Success? && p.access.Success? && p.refresh.Success? && p.rounds.Success?
  }

  /** Each variable through its own schema; every variable is parsed, whatever the others give. */
  function ParseAll(config: map<string, string>, toNumber: string -> Option<real>, isUrl: string -> bool): (p: Parsed)
    ensures AllParsed(p) <==> EnvAcceptable(config, toNumber, isUrl)
  {
    Parsed(
      ParseNodeEnv(Get(config, "NODE_ENV")),
      ParseBounded(Get(config, "PORT"), MinPort, MaxPort, DefaultPort, toNumber),
      ParseUrl(Get(config, "FRONTEND_ORIGIN"), DefaultOrigin, isUrl),
      ParseRequired(Get(config, "DATABASE_URL"), 1),
      ParseRequired(Get(config, "REDIS_URL"), 1),
      ParseRequired(Get(config, "JWT_ACCESS_SECRET"), MinSecretLength),
      ParseRequired(Get(config, "JWT_REFRESH_SECRET"), MinSecretLength),
      Get(config, "JWT_ACCESS_EXPIRATION").GetOr(DefaultAccessExpiration),
      Get(config, "JWT_REFRESH_EXPIRATION").GetOr(DefaultRefreshExpiration),
      ParseBounded(Get(config, "BCRYPT_ROUNDS"), MinBcryptRounds, MaxBcryptRounds, DefaultBcryptRounds, toNumber))
  }

  /** Every failure, collected in schema order under its variable's name. */
  function EnvIssues(p: Parsed): (issues: seq<Issue>)
    ensures issues == [] <==> AllParsed(p)
    ensures forall i :: 0 <= i < |issues| ==> issues[i].key in SchemaKeys
    ensures Issue("DATABASE_URL", Required) in issues <==> p.database == Failure(Required)
  {
    IssuesOf("NODE_ENV", p.nodeEnv) + IssuesOf("PORT", p.port) + IssuesOf("FRONTEND_ORIGIN", p.origin)
      + IssuesOf("DATABASE_URL", p.database) + IssuesOf("REDIS_URL", p.redis)
      + IssuesOf("JWT_ACCESS_SECRET", p.access) + IssuesOf("JWT_REFRESH_SECRET", p.refresh)
      + IssuesOf("BCRYPT_ROUNDS", p.rounds)
  }

  /**
   * `validateEnv`: any failure is an error (the thrown exception) listing
   * every issue; otherwise the parsed values.
   */
  function ValidateEnv(config: map<string, string>, toNumber: string -> Option<real>, isUrl: string -> bool)
    : (r: Result<Env, seq<Issue>>)
    ensures r.Success? <==> EnvAcceptable(config, toNumber, isUrl)
    ensures r.Failure? ==> |r.error| > 0 && forall i :: 0 <= i < |r.error| ==> r.error[i].key in SchemaKeys
    ensures r.Failure? ==> (Issue("DATABASE_URL", Required) in r.error <==> "DATABASE_URL" !in config)
    ensures r.Success? ==>
      var env := r.value;
      && MinPort <= env.port <= MaxPort
      && MinBcryptRounds <= env.bcryptRounds <= MaxBcryptRounds
      && Utf16Length(env.jwtAccessSecret) >= MinSecretLength && Utf16Length(env.jwtRefreshSecret) >= MinSecretLength
      && env.databaseUrl != "" && env.redisUrl != ""
  {
    var p := ParseAll(config, toNumber, isUrl);
    var issues := EnvIssues(p);
    if issues == [] then
      Success(Env(p.nodeEnv.value, p.port.value, p.origin.value, p.database.value, p.redis.value,
                  p.access.value, p.refresh.value, p.accessExpiration, p.refreshExpiration, p.rounds.value))
    else
      Failure(issues)
  }

  /**
   * An accepted configuration keeps each supplied value and fills each
   * absent optional variable with its default.
   */
  lemma {:induction false} DefaultsFillAbsent(config: map<string, string>, toNumber: string -> Option<real>, isUrl: string -> bool)
    requires ValidateEnv(config, toNumber, isUrl).Success?
    ensures var env := ValidateEnv(config, toNumber, isUrl).value;
      && env.nodeEnv == (if "NODE_ENV" !in config || config["NODE_ENV"] == "development" then Development
                         else if config["NODE_ENV"] == "production" then Production else Test)
      && env.port == (if "PORT" in config then toNumber(config["PORT"]).value else DefaultPort)
      && env.frontendOrigin == Get(config, "FRONTEND_ORIGIN").GetOr(DefaultOrigin)
      && env.databaseUrl == config["DATABASE_URL"] && env.redisUrl == config["REDIS_URL"]
      && env.jwtAccessSecret == config["JWT_ACCESS_SECRET"] && env.jwtRefreshSecret == config["JWT_REFRESH_SECRET"]
      && env.jwtAccessExpiration == Get(config, "JWT_ACCESS_EXPIRATION").GetOr(DefaultAccessExpiration)
      && env.jwtRefreshExpiration == Get(config, "JWT_REFRESH_EXPIRATION").GetOr(DefaultRefreshExpiration)
      && env.bcryptRounds == (if "BCRYPT_ROUNDS" in config then toNumber(config["BCRYPT_ROUNDS"]).value else DefaultBcryptRounds)
  {
    var r := ValidateEnv(config, toNumber, isUrl);
    assert r.Success?;
    var port := ParseBounded(Get(config, "PORT"), MinPort, MaxPort, DefaultPort, toNumber);
    var rounds := ParseBounded(Get(config, "BCRYPT_ROUNDS"), MinBcryptRounds, MaxBcryptRounds, DefaultBcryptRounds, toNumber);
    assert port.Success? && rounds.Success?;
  }

  /** Variables the schema does not name make no difference. */
  lemma UnknownKeysIgnored(config: map<string, string>, toNumber: string -> Option<real>, isUrl: string -> bool)
    ensures ValidateEnv(config, toNumber, isUrl)
         == ValidateEnv(map k | k in config && k in SchemaKeys :: config[k], toNumber, isUrl)
  {
    var known := map k | k in config && k in SchemaKeys :: config[k];
    forall key | key in SchemaKeys ensures Get(config, key) == Get(known, key) {
    }
  }

  /**
   * With the URL default accepted, the empty environment fails on exactly
   * the four variables without defaults.
   */
  lemma {:induction false} EmptyEnvNeedsFour(toNumber: string -> Option<real>, isUrl: string -> bool)
    requires isUrl(DefaultOrigin)
    ensures ValidateEnv(map[], toNumber, isUrl)
         == Failure([Issue("DATABASE_URL", Required), Issue("REDIS_URL", Required),
                     Issue("JWT_ACCESS_SECRET", Required), Issue("JWT_REFRESH_SECRET", Required)])
  {
    var none: map<string, string> := map[];
    assert Get(none, "NODE_ENV") == None && Get(none, "PORT") == None && Get(none, "BCRYPT_ROUNDS") == None;
    assert Get(none, "FRONTEND_ORIGIN") == None && Get(none, "DATABASE_URL") == None && Get(none, "REDIS_URL") == None;
    assert Get(none, "JWT_ACCESS_SECRET") == None && Get(none, "JWT_REFRESH_SECRET") == None;
    assert ParseBounded(None, MinPort, MaxPort, DefaultPort, toNumber).Success?;
    assert ParseBounded(None, MinBcryptRounds, MaxBcryptRounds, DefaultBcryptRounds, toNumber).Success?;
    assert ParseUrl(None, DefaultOrigin, isUrl).Success?;
    var required := Failure(Required);
    assert ParseRequired(None, 1) == required && ParseRequired(None, MinSecretLength) == required;
    assert [] + [] + [] + [Issue("DATABASE_URL", Required)] + [Issue("REDIS_URL", Required)]
         + [Issue("JWT_ACCESS_SECRET", Required)] + [Issue("JWT_REFRESH_SECRET", Required)] + []
        == [Issue("DATABASE_URL", Required), Issue("REDIS_URL", Required),
            Issue("JWT_ACCESS_SECRET", Required), Issue("JWT_REFRESH_SECRET", Required)];
  }
}
