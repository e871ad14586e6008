/** The CORS options: the allowed origins are the comma-separated entries of
    `CORS_ORIGINS`, each trimmed, and credentials are always allowed. */
module CorsConfig {
  import opened Text
  import opened ConfigEnv

  const DefaultOrigins: string := "http://localhost:3000"

  datatype CorsOptions = CorsOptions(origin: seq<string>, credentials: bool)

  /** `raw.split(',').map(origin => origin.trim())`. */
  function Origins(raw: string): (r: seq<string>)
    ensures |r| == Count(raw, ',') + 1
    ensures forall i :: 0 <= i < |r| ==> IsTrimmed(r[i]) && ',' !in r[i]
    ensures |r| == |Split(raw, ',')| && forall i :: 0 <= i < |r| ==> r[i] == Trim(Split(raw, ',')[i])
  {
    var parts := Split(raw, ',');
    var r := TrimEach(parts);
    r
  }

  /** A list of trimmed origins written with commas and no spaces is read back as it was
      written. */
  lemma OriginsOfJoined(origins: seq<string>)
    requires |origins| > 0
    requires forall i :: 0 <= i < |origins| ==> IsTrimmed(origins[i]) && ',' !in origins[i]
    ensures Origins(Join(origins, ',')) == origins
  {
    SplitJoin(origins, ',');
    var r := Origins(Join(origins, ','));
    forall i | 0 <= i < |origins|
      ensures r[i] == origins[i]
    {
      TrimOfTrimmed(origins[i]);
    }
  }

  /** `getCorsConfig`: the origins of `CORS_ORIGINS` or of the default, with credentials. */
  function GetCorsConfig(env: Env): (c: CorsOptions)
    ensures c.credentials
    ensures c.origin == Origins(GetText(env, "CORS_ORIGINS", DefaultOrigins))
    ensures |c.origin| >= 1
    ensures "CORS_ORIGINS" !in env ==> c.origin == [DefaultOrigins]
  {
    var raw := GetText(env, "CORS_ORIGINS", DefaultOrigins);
    assert "CORS_ORIGINS" !in env ==> Origins(raw) == [DefaultOrigins] by {
      if "CORS_ORIGINS" !in env {
        OriginsOfJoined([DefaultOrigins]);
      }
    }
    CorsOptions(Origins(raw), true)
  }

  /** An empty `CORS_ORIGINS` allows the single empty origin, not the default. */
  lemma EmptyOriginsSetting(env: Env)
    requires "CORS_ORIGINS" in env && env["CORS_ORIGINS"] == ""
    ensures GetCorsConfig(env).origin == [""]
  {
  }
}
