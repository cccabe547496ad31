/** Resolution of the backend base URL from the build-time environment
    (frontend/src/config.ts), and the inline fallbacks that the
    transaction form and the dashboard use instead of it. */
module Config {

  /** The loopback default of the shared resolver. */
  const DefaultApiUrl: string := "http://127.0.0.1:8000"
  /** The different literal hard-coded in the form and the dashboard. */
  const InlineDefaultApiUrl: string := "http://localhost:8000"

  /** A `process.env` entry is truthy when it is present and not empty. */
  predicate IsSet(env: map<string, string>, name: string) {
    name in env && env[name] != ""
  }

  datatype ApiUrlResolution = ApiUrlResolution(url: string, warned: bool)

  /** `getApiUrl`: a non-empty override is used verbatim, anything else
      falls back to the loopback default; a warning is emitted only in a
      production build without an override, and nothing ever fails. */
  function GetApiUrl(env: map<string, string>): (r: ApiUrlResolution)
    ensures r.url != []
    ensures IsSet(env, "NEXT_PUBLIC_API_URL") ==> r.url == env["NEXT_PUBLIC_API_URL"]
    ensures !IsSet(env, "NEXT_PUBLIC_API_URL") ==> r.url == DefaultApiUrl
    ensures r.warned <==>
      ("NODE_ENV" in env && env["NODE_ENV"] == "production" && !IsSet(env, "NEXT_PUBLIC_API_URL"))
  {
    var apiUrl := if "NEXT_PUBLIC_API_URL" in env then env["NEXT_PUBLIC_API_URL"] else "";
    var warned := "NODE_ENV" in env && env["NODE_ENV"] == "production" && apiUrl == "";
    ApiUrlResolution(if apiUrl != "" then apiUrl else DefaultApiUrl, warned)
  }

  /** `process.env.NEXT_PUBLIC_API_URL || "http://localhost:8000"`, as the
      transaction form and the dashboard compute it for themselves. */
  function InlineApiUrl(env: map<string, string>): (url: string)
    ensures url != []
    ensures IsSet(env, "NEXT_PUBLIC_API_URL") ==> url == env["NEXT_PUBLIC_API_URL"]
  {
    if IsSet(env, "NEXT_PUBLIC_API_URL") then env["NEXT_PUBLIC_API_URL"] else InlineDefaultApiUrl
  }

  /** The shared resolver and the inline fallbacks agree exactly when an
      override is set: without one, the form and the dashboard talk to
      `localhost` while the authenticated helper talks to `127.0.0.1`. */
  lemma FallbacksAgreeOnlyWithOverride(env: map<string, string>)
    ensures GetApiUrl(env).url == InlineApiUrl(env) <==> IsSet(env, "NEXT_PUBLIC_API_URL")
  {
    assert DefaultApiUrl[7] != InlineDefaultApiUrl[7];
  }
}
