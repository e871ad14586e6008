/** The application settings read from the environment: server port and environment
    name, token settings, cookie settings, allowed origins and database settings, and the
    options handed to the database driver. Each required key that is absent or empty
    stops the whole resolution with its own error, in the order the settings are written. */
module AppConfig {
  import opened Common
  import opened Text
  import opened ConfigEnv
  import CorsConfig
  import ValidationConfig

  const DefaultPort: int := 3000
  const DefaultNodeEnv: string := "development"
  const DefaultExpiresIn: string := "1d"
  const DefaultAlgorithm: string := "HS256"
  const DefaultCookieMaxAge: int := 3600000
  const DefaultCookieDomain: string := "localhost"
  const DefaultDatabasePort: int := 5432

  /** The error raised for an absent or empty required key. */
  function RequiredMessage(key: string): string {
    key + " es requerido en .env"
  }

  datatype JwtSettings = JwtSettings(secret: string, expiresIn: string, algorithm: string)

  datatype CookieSettings = CookieSettings(maxAge: Setting<int>, domain: string, secure: Setting<bool>)

  datatype CorsSettings = CorsSettings(origins: seq<string>)

  datatype DatabaseSettings = DatabaseSettings(
    host: string, port: Setting<int>, username: string, password: string, name: string,
    sync: bool, logging: Setting<bool>, ssl: Setting<bool>, migrationsRun: Setting<bool>,
    url: string)

  datatype AppSettings = AppSettings(
    port: Setting<int>, nodeEnv: string, jwt: JwtSettings, cookies: CookieSettings,
    cors: CorsSettings, database: DatabaseSettings)

  /** A required key: its value when it is truthy, its own error otherwise. */
  function Need(env: Env, key: string): (r: Result<string, string>)
    ensures r.Success? <==> Truthy(env, key)
    ensures r.Success? ==> r.value == env[key]
    ensures r.Failure? ==> r.error == RequiredMessage(key)
  {
    Required(env, key, RequiredMessage(key))
  }

  /** `getAppConfig`: the settings, or the error of the first required key (in the
      order `JWT_SECRET`, `DATABASE_HOST`, `DATABASE_USERNAME`, `DATABASE_PASSWORD`,
      `DATABASE_NAME`) that is absent or empty. */
  function GetAppConfig(env: Env): (r: Result<AppSettings, string>)
    ensures r.Success? <==> (Truthy(env, "JWT_SECRET") && Truthy(env, "DATABASE_HOST")
      && Truthy(env, "DATABASE_USERNAME") && Truthy(env, "DATABASE_PASSWORD") && Truthy(env, "DATABASE_NAME"))
    ensures r.Success? ==> r.value.jwt.secret == env["JWT_SECRET"]
    ensures r.Success? ==> r.value.database.host == env["DATABASE_HOST"]
    ensures r.Success? ==> r.value.database.username == env["DATABASE_USERNAME"]
    ensures r.Success? ==> r.value.database.password == env["DATABASE_PASSWORD"]
    ensures r.Success? ==> r.value.database.name == env["DATABASE_NAME"]
    ensures r.Success? ==> r.value.port == GetSetting(env, "APP_PORT", DefaultPort)
    ensures r.Success? ==> r.value.nodeEnv == GetText(env, "APP_ENV", DefaultNodeEnv)
    ensures r.Success? ==> r.value.jwt.expiresIn == GetText(env, "JWT_EXPIRES_IN", DefaultExpiresIn)
    ensures r.Success? ==> r.value.jwt.algorithm == GetText(env, "JWT_ALGORITHM", DefaultAlgorithm)
    ensures r.Success? ==> r.value.cookies == CookieSettings(
      GetSetting(env, "COOKIE_MAX_AGE", DefaultCookieMaxAge),
      GetText(env, "COOKIE_DOMAIN", DefaultCookieDomain),
      GetSetting(env, "COOKIE_SECURE", false))
    ensures r.Success? ==> r.value.cors.origins == CorsConfig.Origins(GetText(env, "CORS_ORIGINS", CorsConfig.DefaultOrigins))
    ensures r.Success? ==> r.value.database.port == GetSetting(env, "DATABASE_PORT", DefaultDatabasePort)
    ensures r.Success? ==> (r.value.database.sync <==> "DATABASE_SYNC" in env && env["DATABASE_SYNC"] == "true")
    ensures r.Success? ==> r.value.database.logging == GetSetting(env, "DATABASE_LOGGING", false)
    ensures r.Success? ==> r.value.database.ssl == GetSetting(env, "DATABASE_SSL", false)
    ensures r.Success? ==> r.value.database.migrationsRun == GetSetting(env, "DATABASE_MIGRATIONS_RUN", false)
    ensures r.Success? ==> r.value.database.url == GetText(env, "DATABASE_URL", "")
  {
    var secret := Need(env, "JWT_SECRET");
    if secret.Failure? then Failure(secret.error) else
    var host := Need(env, "DATABASE_HOST");
    if host.Failure? then Failure(host.error) else
    var username := Need(env, "DATABASE_USERNAME");
    if username.Failure? then Failure(username.error) else
    var password := Need(env, "DATABASE_PASSWORD");
    if password.Failure? then Failure(password.error) else
    var name := Need(env, "DATABASE_NAME");
    if name.Failure? then Failure(name.error) else
    var jwt := JwtSettings(
      secret.value,
      GetText(env, "JWT_EXPIRES_IN", DefaultExpiresIn),
      GetText(env, "JWT_ALGORITHM", DefaultAlgorithm));
    var cookies := CookieSettings(
      GetSetting(env, "COOKIE_MAX_AGE", DefaultCookieMaxAge),
      GetText(env, "COOKIE_DOMAIN", DefaultCookieDomain),
      GetSetting(env, "COOKIE_SECURE", false));
    var cors := CorsSettings(CorsConfig.Origins(GetText(env, "CORS_ORIGINS", CorsConfig.DefaultOrigins)));
    var database := DatabaseSettings(
      host.value,
      GetSetting(env, "DATABASE_PORT", DefaultDatabasePort),
      username.value,
      password.value,
      name.value,
      Get(env, "DATABASE_SYNC") == Some("true"),
      GetSetting(env, "DATABASE_LOGGING", false),
      GetSetting(env, "DATABASE_SSL", false),
      GetSetting(env, "DATABASE_MIGRATIONS_RUN", false),
      GetText(env, "DATABASE_URL", ""));
    Success(AppSettings(
      GetSetting(env, "APP_PORT", DefaultPort),
      GetText(env, "APP_ENV", DefaultNodeEnv),
      jwt, cookies, cors, database))
  }

  /** The settings fail exactly when the startup validation fails, and the error names the
      first key the validation lists as missing. */
  lemma FailsLikeValidation(env: Env)
    ensures GetAppConfig(env).Failure? <==> ValidationConfig.ValidateConfig(env).Failure?
    ensures GetAppConfig(env).Failure? ==> GetAppConfig(env).error == RequiredMessage(ValidationConfig.Missing(env)[0])
  {
    var keys := ValidationConfig.RequiredKeys;
    assert keys[0] == "JWT_SECRET" && keys[1] == "DATABASE_HOST" && keys[2] == "DATABASE_USERNAME"
      && keys[3] == "DATABASE_PASSWORD" && keys[4] == "DATABASE_NAME";
    if !Truthy(env, keys[0]) {
      ValidationConfig.FirstMissingKey(keys, env, 0);
    } else if !Truthy(env, keys[1]) {
      ValidationConfig.FirstMissingKey(keys, env, 1);
    } else if !Truthy(env, keys[2]) {
      ValidationConfig.FirstMissingKey(keys, env, 2);
    } else if !Truthy(env, keys[3]) {
      ValidationConfig.FirstMissingKey(keys, env, 3);
    } else if !Truthy(env, keys[4]) {
      ValidationConfig.FirstMissingKey(keys, env, 4);
    }
  }

  /** The allowed origins are those the CORS options allow. */
  lemma CorsAgreesWithCorsOptions(env: Env)
    requires GetAppConfig(env).Success?
    ensures GetAppConfig(env).value.cors.origins == CorsConfig.GetCorsConfig(env).origin
  {
  }

  /** A truthy value of every required key is enough: no optional key is needed. */
  lemma RequiredKeysSuffice(env: Env)
    requires forall k :: k in ValidationConfig.RequiredKeys ==> Truthy(env, k)
    ensures GetAppConfig(env).Success?
    ensures GetAppConfig(env).value.port == Default(DefaultPort) <==> "APP_PORT" !in env
  {
  }

  /** The options of the database connection. */
  datatype DatabaseOptions = DatabaseOptions(
    driver: string, host: string, port: Setting<int>, username: string, password: string,
    database: string, synchronize: bool, entities: seq<string>)

  const Driver: string := "postgres"
  const EntityNames: seq<string> := ["User", "UserRole", "Role", "RolePermission", "Permission", "Module"]

  /** `getDatabaseConfig`: the database part of the settings, as the driver's options. */
  function GetDatabaseConfig(env: Env): (r: Result<DatabaseOptions, string>)
    ensures r.Success? <==> GetAppConfig(env).Success?
    ensures r.Failure? ==> r.error == GetAppConfig(env).error
    ensures r.Success? ==> (
      var d := GetAppConfig(env).value.database;
      && r.value.driver == Driver
      && r.value.host == d.host && r.value.port == d.port
      && r.value.username == d.username && r.value.password == d.password
      && r.value.database == d.name && r.value.synchronize == d.sync
      && r.value.entities == EntityNames)
  {
    match GetAppConfig(env)
    case Failure(e) => Failure(e)
    case Success(settings) =>
      var d := settings.database;
      Success(DatabaseOptions(Driver, d.host, d.port, d.username, d.password, d.name, d.sync, EntityNames))
  }
}
