/**
 * The web client's name and base addresses: each comes from a build-time variable
 * when it is set (even to ""), and from a default otherwise.
 */
module AppConfig {
  import opened Common

  /** The build-time variables; `None` when unset. */
  datatype Env = Env(
    appName: Option<string>,
    apiBaseUrl: Option<string>,
    sanctumBaseUrl: Option<string>,
    storageBaseUrl: Option<string>)

  datatype Config = Config(appName: string, apiBaseUrl: string, sanctumBaseUrl: string, storageBaseUrl: string)

  const DefaultAppName: string := "Incident & Operations Log System"
  const DefaultApiBaseUrl: string := "http://127.0.0.1:8000/api"
  const DefaultSanctumBaseUrl: string := "http://127.0.0.1:8000"

  /** The configuration, resolved with `??`. */
  function Load(env: Env): (c: Config)
    ensures env.appName.Some? ==> c.appName == env.appName.value
    ensures env.appName.None? ==> c.appName == DefaultAppName
    ensures env.apiBaseUrl.Some? ==> c.apiBaseUrl == env.apiBaseUrl.value
    ensures env.apiBaseUrl.None? ==> c.apiBaseUrl == DefaultApiBaseUrl
    ensures env.sanctumBaseUrl.Some? ==> c.sanctumBaseUrl == env.sanctumBaseUrl.value
    ensures env.sanctumBaseUrl.None? ==> c.sanctumBaseUrl == DefaultSanctumBaseUrl
    ensures env.storageBaseUrl.Some? ==> c.storageBaseUrl == env.storageBaseUrl.value
    ensures env.storageBaseUrl.None? ==> c.storageBaseUrl == c.sanctumBaseUrl + "/storage"
  {
    var sanctum := env.sanctumBaseUrl.GetOr(DefaultSanctumBaseUrl);
    Config(env.appName.GetOr(DefaultAppName), env.apiBaseUrl.GetOr(DefaultApiBaseUrl),
           sanctum, env.storageBaseUrl.GetOr(sanctum + "/storage"))
  }

  /** The API base is set on its own: the Sanctum and storage bases never follow it. */
  lemma ApiBaseIndependent(env: Env, api: string)
    ensures Load(env.(apiBaseUrl := Some(api))).sanctumBaseUrl == Load(env).sanctumBaseUrl
    ensures Load(env.(apiBaseUrl := Some(api))).storageBaseUrl == Load(env).storageBaseUrl
  {
  }

  /** With no variable set, the three addresses are absolute http ones. */
  lemma DefaultsAreAbsolute()
    ensures StartsWith(Load(Env(None, None, None, None)).apiBaseUrl, "http://")
    ensures StartsWith(Load(Env(None, None, None, None)).sanctumBaseUrl, "http://")
    ensures StartsWith(Load(Env(None, None, None, None)).storageBaseUrl, "http://")
  {
    var c := Load(Env(None, None, None, None));
    assert c.storageBaseUrl[..7] == c.sanctumBaseUrl[..7];
  }
}
