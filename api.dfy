/** The authenticated request helper (frontend/src/lib/api.ts): it reads
    the auth session for a bearer token (section 2.1 of RFC 6750), merges
    the request headers, normalises the endpoint path, and hands back the
    response untouched. */
module Api {
  import opened Common
  import opened Strings

  datatype Session = Session(accessToken: Option<string>)

  /** What reading the current session produced: a (possibly absent)
      session, or an error that the helper logs and swallows. */
  datatype SessionRead = Read(session: Option<Session>) | ReadFailed

  /** The plain-object part of `RequestInit` that the helper touches. */
  datatype RequestInit = RequestInit(verb: string, body: Option<string>, headers: map<string, string>)

  datatype Request = Request(url: string, verb: string, body: Option<string>, headers: map<string, string>)

  /** `session?.access_token`, with a failed read giving no token. */
  function Token(read: SessionRead): (token: Option<string>)
    ensures read.ReadFailed? ==> token == None
    ensures read.Read? && read.session.Some? ==> token == read.session.value.accessToken
  {
    match read
    case ReadFailed => None
    case Read(None) => None
    case Read(Some(s)) => s.accessToken
  }

  /** A JavaScript string that may be `undefined` is truthy when present
      and non-empty. */
  predicate Truthy(token: Option<string>) {
    token.Some? && token.value != ""
  }

  /** The endpoint with a single leading "/" ensured. */
  function NormalizePath(endpoint: string): (path: string)
    ensures StartsWith(path, "/")
    ensures StartsWith(endpoint, "/") ==> path == endpoint
    ensures !StartsWith(endpoint, "/") ==> path == "/" + endpoint
  {
    if StartsWith(endpoint, "/") then endpoint else "/" + endpoint
  }

  /** Normalising an already normalised path changes nothing. */
  lemma NormalizePathIdempotent(endpoint: string)
    ensures NormalizePath(NormalizePath(endpoint)) == NormalizePath(endpoint)
  {
  }

  /** `{ 'Content-Type': 'application/json', ...options.headers,
      ...(token ? { Authorization: 'Bearer ' + token } : {}) }`: the
      caller's headers override the JSON content type, and the session's
      bearer credential overrides any caller-supplied Authorization. */
  function BuildHeaders(caller: map<string, string>, token: Option<string>): (h: map<string, string>)
    ensures h.Keys == {"Content-Type"} + caller.Keys + (if Truthy(token) then {"Authorization"} else {})
    ensures h["Content-Type"] == if "Content-Type" in caller then caller["Content-Type"] else "application/json"
    ensures Truthy(token) ==> h["Authorization"] == "Bearer " + token.value
    ensures forall k :: k in caller && !(k == "Authorization" && Truthy(token)) ==> h[k] == caller[k]
  {
    var auth := if Truthy(token) then map["Authorization" := "Bearer " + token.value] else map[];
    map["Content-Type" := "application/json"] + caller + auth
  }

  /** Authorization is present exactly when a truthy token was obtained or
      the caller supplied one, and a token's credential always wins. */
  lemma AuthorizationPresence(caller: map<string, string>, token: Option<string>)
    ensures "Authorization" in BuildHeaders(caller, token) <==> Truthy(token) || "Authorization" in caller
    ensures "Authorization" !in caller ==>
      ("Authorization" in BuildHeaders(caller, token) <==> Truthy(token))
    ensures Truthy(token) ==> BuildHeaders(caller, token)["Authorization"] == "Bearer " + token.value
  {
  }

  /** The request the helper issues: `API_URL` followed by the normalised
      path, the caller's options kept, the merged headers in place of the
      caller's. */
  function AuthenticatedRequest(apiUrl: string, endpoint: string, options: RequestInit, session: SessionRead): (r: Request)
    ensures r.url == apiUrl + NormalizePath(endpoint)
    ensures r.verb == options.verb && r.body == options.body
    ensures r.headers == BuildHeaders(options.headers, Token(session))
  {
    Request(apiUrl + NormalizePath(endpoint), options.verb, options.body, BuildHeaders(options.headers, Token(session)))
  }

  /** `authenticatedFetch`: the response to the request is handed back to
      the caller unchanged, a 401 included; `send` stands for `fetch`. */
  function AuthenticatedFetch<R>(apiUrl: string, endpoint: string, options: RequestInit, session: SessionRead,
                                 send: Request -> R): (r: (Request, R))
    ensures r.0 == AuthenticatedRequest(apiUrl, endpoint, options, session)
    ensures r.1 == send(r.0)
  {
    var request := AuthenticatedRequest(apiUrl, endpoint, options, session);
    (request, send(request))
  }

  /** A session that cannot be read does not stop the request: it goes out
      to the same URL with the caller's headers and no bearer credential. */
  lemma SessionFailureProceedsWithoutToken(apiUrl: string, endpoint: string, options: RequestInit)
    ensures var r := AuthenticatedRequest(apiUrl, endpoint, options, ReadFailed);
      r.url == apiUrl + NormalizePath(endpoint)
      && ("Authorization" in r.headers <==> "Authorization" in options.headers)
  {
  }
}
