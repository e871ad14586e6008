/** The options of the token module: the signing secret, which must be set, and the
    expiry and algorithm with their defaults. */
module JwtConfig {
  import opened Common
  import opened ConfigEnv
  import AppConfig

  datatype SignOptions = SignOptions(expiresIn: string, algorithm: string)

  datatype JwtOptions = JwtOptions(secret: string, signOptions: SignOptions)

  /** `getJwtConfig`: the options, or the error for an absent or empty `JWT_SECRET`. The
      algorithm is taken as written; it is not checked against the supported ones. */
  function GetJwtConfig(env: Env): (r: Result<JwtOptions, string>)
    ensures r.Success? <==> Truthy(env, "JWT_SECRET")
    ensures r.Success? ==> r.value.secret == env["JWT_SECRET"]
    ensures r.Failure? ==> r.error == AppConfig.RequiredMessage("JWT_SECRET")
    ensures r.Success? ==> r.value.signOptions.expiresIn == GetText(env, "JWT_EXPIRES_IN", AppConfig.DefaultExpiresIn)
    ensures r.Success? ==> r.value.signOptions.algorithm == GetText(env, "JWT_ALGORITHM", AppConfig.DefaultAlgorithm)
  {
    var secret := Required(env, "JWT_SECRET", AppConfig.RequiredMessage("JWT_SECRET"));
    if secret.Failure? then Failure(secret.error)
    else
      Success(JwtOptions(secret.value, SignOptions(
        GetText(env, "JWT_EXPIRES_IN", AppConfig.DefaultExpiresIn),
        GetText(env, "JWT_ALGORITHM", AppConfig.DefaultAlgorithm))))
  }

  /** Whenever the application settings resolve, the token options resolve to the same
      secret, expiry and algorithm. */
  lemma AgreesWithAppConfig(env: Env)
    requires AppConfig.GetAppConfig(env).Success?
    ensures GetJwtConfig(env).Success?
    ensures var jwt := AppConfig.GetAppConfig(env).value.jwt;
      GetJwtConfig(env).value == JwtOptions(jwt.secret, SignOptions(jwt.expiresIn, jwt.algorithm))
  {
  }

  /** The token options need only the secret: they can resolve while the application
      settings fail for a database key. */
  lemma NeedsOnlyTheSecret(env: Env)
    requires Truthy(env, "JWT_SECRET")
    ensures GetJwtConfig(env).Success?
    ensures "DATABASE_HOST" !in env ==> AppConfig.GetAppConfig(env).Failure?
  {
  }

  /** Without any setting but the secret, the defaults apply. */
  lemma Defaults(secret: string)
    requires secret != ""
    ensures GetJwtConfig(map["JWT_SECRET" := secret]) == Success(JwtOptions(secret, SignOptions("1d", "HS256")))
  {
  }
}
