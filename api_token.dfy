/** The API token middleware: a request passes to the next handler only
    with a bearer token that is truthy and exactly equal to the configured
    token; otherwise it is answered with 401. */
module ApiTokenMiddleware {
  import opened Wrappers
  import opened PhpText

  /** The token used when `API_TOKEN` is not set. */
  const DefaultApiToken: string := "test-api-token"
  const UnauthorizedMessage: string := "Unauthorized: Invalid API token"
  const HttpUnauthorized: nat := 401

  /** An HTTP response: its status and its body. */
  datatype Response = Response(status: nat, body: string)

  /** The JSON response `{"message": ...}` for a rejected request. */
  const Unauthorized: Response :=
    Response(HttpUnauthorized, "{\"message\":\"" + UnauthorizedMessage + "\"}")

  /** `env('API_TOKEN', 'test-api-token')`. */
  function ConfiguredToken(apiTokenEnv: Option<string>): string {
    if apiTokenEnv.Some? then apiTokenEnv.value else DefaultApiToken
  }

  /** The guard `!$token || $token !== $validToken`, negated. */
  predicate Accepts(bearer: Option<string>, apiTokenEnv: Option<string>) {
    !Falsy(bearer) && bearer.value == ConfiguredToken(apiTokenEnv)
  }

  /** `handle`: the next handler's response, unchanged, for an accepted
      token; the 401 response otherwise. */
  function Handle(bearer: Option<string>, apiTokenEnv: Option<string>, nextResponse: Response): Response {
    if Accepts(bearer, apiTokenEnv) then nextResponse else Unauthorized
  }

  /** Exactly one token is accepted, the configured one, and only when it
      is itself truthy. */
  lemma AcceptsExactlyConfiguredToken(bearer: Option<string>, apiTokenEnv: Option<string>)
    ensures Accepts(bearer, apiTokenEnv) <==>
      var valid := ConfiguredToken(apiTokenEnv);
      bearer == Some(valid) && valid != "" && valid != "0"
  {
  }

  /** An absent token, "" and "0" are rejected whatever the configuration. */
  lemma FalsyTokenRejected(bearer: Option<string>, apiTokenEnv: Option<string>, nextResponse: Response)
    requires bearer == None || bearer == Some("") || bearer == Some("0")
    ensures Handle(bearer, apiTokenEnv, nextResponse) == Unauthorized
    ensures Unauthorized.status == 401
  {
  }

  /** The exact configured token, when truthy, passes the request on and
      the next handler's response comes back unchanged. */
  lemma ExactTokenPassesThrough(apiTokenEnv: Option<string>, nextResponse: Response)
    requires !Falsy(Some(ConfiguredToken(apiTokenEnv)))
    ensures Handle(Some(ConfiguredToken(apiTokenEnv)), apiTokenEnv, nextResponse) == nextResponse
  {
  }

  /** Any token other than the configured one is answered with 401. */
  lemma WrongTokenRejected(bearer: Option<string>, apiTokenEnv: Option<string>, nextResponse: Response)
    requires bearer != Some(ConfiguredToken(apiTokenEnv))
    ensures Handle(bearer, apiTokenEnv, nextResponse) == Unauthorized
    ensures Handle(bearer, apiTokenEnv, nextResponse).status == 401
  {
  }

  /** Without `API_TOKEN`, only "test-api-token" gets through. */
  lemma DefaultTokenOnly(token: string)
    ensures Accepts(Some(token), None) <==> token == "test-api-token"
  {
  }
}
