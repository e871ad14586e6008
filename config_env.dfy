/** The process environment as the configuration service reads it: text values by key,
    lookups with a default, and JavaScript truthiness of a looked-up value. */
module ConfigEnv {
  import opened Common

  /** The environment: every value is text, as the process received it. */
  type Env = map<string, string>

  /** `config.get(key)`: the value, or undefined. */
  function Get(env: Env, key: string): (r: Option<string>)
    ensures r.Some? <==> key in env
    ensures r.Some? ==> r.value == env[key]
  {
    if key in env then Some(env[key]) else None
  }

  /** `config.get(key)` in a boolean position: present and not the empty string. */
  predicate Truthy(env: Env, key: string) {
    key in env && env[key] != ""
  }

  /** `config.get<string>(key, default)`: the value, or the default when the key is
      absent; an empty value is kept. */
  function GetText(env: Env, key: string, default: string): (r: string)
    ensures key in env ==> r == env[key]
    ensures key !in env ==> r == default
  {
    Get(env, key).GetOr(default)
  }

  /** The outcome of `config.get<T>(key, default)` for a non-text `T`: the type argument
      converts nothing, so a present key yields its text and only an absent one yields the
      default of type `T`. */
  datatype Setting<T> = FromEnv(raw: string) | Default(value: T)

  function GetSetting<T>(env: Env, key: string, default: T): (r: Setting<T>)
    ensures key in env <==> r.FromEnv?
    ensures key in env ==> r == FromEnv(env[key])
    ensures key !in env ==> r == Default(default)
  {
    if key in env then FromEnv(env[key]) else Default(default)
  }

  /** JavaScript truthiness of a boolean setting: any non-empty text is true. */
  predicate TruthySetting(s: Setting<bool>) {
    if s.FromEnv? then s.raw != "" else s.value
  }

  /** `config.get<boolean>(key, false)` is truthy exactly when the key holds a non-empty
      value, `'false'` included. */
  lemma BooleanSettingTruthiness(env: Env, key: string)
    ensures TruthySetting(GetSetting(env, key, false)) <==> Truthy(env, key)
    ensures key in env && env[key] == "false" ==> TruthySetting(GetSetting(env, key, false))
  {
  }

  /** `config.get<string>(key) || (() => { throw new Error(message) })()`: the value when
      it is truthy, the error otherwise. */
  function Required(env: Env, key: string, message: string): (r: Result<string, string>)
    ensures r.Success? <==> Truthy(env, key)
    ensures r.Success? ==> r.value == env[key] && r.value != ""
    ensures r.Failure? ==> r.error == message
  {
    if Truthy(env, key) then Success(env[key]) else Failure(message)
  }
}
