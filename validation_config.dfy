/** The start-up check of the configuration: the required keys that are missing or empty
    stop the application, and three unsafe settings produce warnings. */
module ValidationConfig {
  import opened Common
  import opened Text
  import opened ConfigEnv

  /** The keys without which the application does not start, in the order they are
      reported. */
  const RequiredKeys: seq<string> := ["JWT_SECRET", "DATABASE_HOST", "DATABASE_USERNAME", "DATABASE_PASSWORD", "DATABASE_NAME"]

  const MissingPrefix: string := "\U{1F6A8} Variables faltantes en .env: "
  const ShortSecretWarning: string := "\U{26A0}\U{FE0F}  JWT_SECRET muy corto, usa al menos 32 caracteres"
  const CookieWarning: string := "\U{26A0}\U{FE0F}  En producci\U{f3}n usa COOKIE_SECURE=true"
  const SslWarning: string := "\U{26A0}\U{FE0F}  En producci\U{f3}n usa DATABASE_SSL=true"
  const MinSecretLength: int := 32

  /** `keys.filter(key => !config.get(key))`. */
  function MissingKeys(keys: seq<string>, env: Env): (m: seq<string>)
    ensures forall k :: k in m <==> k in keys && !Truthy(env, k)
    ensures |m| <= |keys|
  {
    if keys == [] then []
    else (if Truthy(env, keys[0]) then [] else [keys[0]]) + MissingKeys(keys[1..], env)
  }

  /** The filter keeps the order of the keys: a key added at the end is reported last. */
  lemma {:induction false} MissingKeysAppend(keys: seq<string>, k: string, env: Env)
    ensures MissingKeys(keys + [k], env) == MissingKeys(keys, env) + (if Truthy(env, k) then [] else [k])
  {
    if keys != [] {
      assert (keys + [k])[1..] == keys[1..] + [k];
      MissingKeysAppend(keys[1..], k, env);
    }
  }

  /** When no key is set, every key is reported. */
  lemma {:induction false} AllKeysMissing(keys: seq<string>, env: Env)
    requires forall k :: k in keys ==> !Truthy(env, k)
    ensures MissingKeys(keys, env) == keys
  {
    if keys != [] {
      assert keys[0] in keys;
      assert forall k :: k in keys[1..] ==> k in keys;
      AllKeysMissing(keys[1..], env);
      assert keys == [keys[0]] + keys[1..];
    }
  }

  /** The first key reported is the first key, in the given order, that is not set. */
  lemma {:induction false} FirstMissingKey(keys: seq<string>, env: Env, i: int)
    requires 0 <= i < |keys| && !Truthy(env, keys[i])
    requires forall j :: 0 <= j < i ==> Truthy(env, keys[j])
    ensures MissingKeys(keys, env) != [] && MissingKeys(keys, env)[0] == keys[i]
  {
    if i > 0 {
      assert Truthy(env, keys[0]);
      FirstMissingKey(keys[1..], env, i - 1);
    }
  }

  /** The required keys that are absent or empty. */
  function Missing(env: Env): (m: seq<string>)
    ensures forall k :: k in m <==> k in RequiredKeys && !Truthy(env, k)
    ensures m == [] <==> forall k :: k in RequiredKeys ==> Truthy(env, k)
  {
    var m := MissingKeys(RequiredKeys, env);
    assert m != [] ==> m[0] in m;
    m
  }

  /** `APP_ENV` is exactly `production`. */
  predicate Production(env: Env) {
    Get(env, "APP_ENV") == Some("production")
  }

  /** `validateConfig`: the error naming every missing key, or the warnings printed on
      the way out of a passing check. */
  function ValidateConfig(env: Env): (r: Result<seq<string>, string>)
    ensures r.Failure? <==> Missing(env) != []
    ensures r.Failure? ==> r.error == MissingPrefix + JoinText(Missing(env), ", ")
    ensures r.Success? ==> forall k :: k in RequiredKeys ==> Truthy(env, k)
    ensures r.Success? ==> (ShortSecretWarning in r.value <==> |env["JWT_SECRET"]| < MinSecretLength)
    ensures r.Success? ==> (CookieWarning in r.value <==> Production(env) && !Truthy(env, "COOKIE_SECURE"))
    ensures r.Success? ==> (SslWarning in r.value <==> Production(env) && !Truthy(env, "DATABASE_SSL"))
    ensures r.Success? ==> forall w :: w in r.value ==> w in {ShortSecretWarning, CookieWarning, SslWarning}
  {
    var missing := Missing(env);
    if missing != [] then Failure(MissingPrefix + JoinText(missing, ", "))
    else
      assert "JWT_SECRET" in RequiredKeys;
      var secret := env["JWT_SECRET"];
      Success(
        (if |secret| < MinSecretLength then [ShortSecretWarning] else [])
        + (if Production(env) && !Truthy(env, "COOKIE_SECURE") then [CookieWarning] else [])
        + (if Production(env) && !Truthy(env, "DATABASE_SSL") then [SslWarning] else []))
  }

  /** A single missing key is reported alone after the prefix. */
  lemma OneMissingKey(env: Env, key: string)
    requires Missing(env) == [key]
    ensures ValidateConfig(env) == Failure(MissingPrefix + key)
  {
  }

  /** With an empty environment every required key is reported, in their fixed order. */
  lemma EmptyEnvironment()
    ensures Missing(map[]) == RequiredKeys
    ensures ValidateConfig(map[]) == Failure(MissingPrefix + JoinText(RequiredKeys, ", "))
  {
    AllKeysMissing(RequiredKeys, map[]);
  }

  /** Outside production only the secret's length can warn, and `COOKIE_SECURE=false`
      counts as set, so it silences the cookie warning. */
  lemma WarningsOutsideProduction(env: Env)
    requires ValidateConfig(env).Success? && !Production(env)
    ensures ValidateConfig(env).value == if |env["JWT_SECRET"]| < MinSecretLength then [ShortSecretWarning] else []
  {
  }

  lemma CookieSecureFalseCountsAsSet(env: Env)
    requires ValidateConfig(env).Success? && Production(env)
    requires "COOKIE_SECURE" in env && env["COOKIE_SECURE"] == "false"
    ensures CookieWarning !in ValidateConfig(env).value
  {
  }
}
