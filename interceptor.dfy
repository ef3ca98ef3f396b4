/** The three credential strategies behind one interface: each decorates the
    connection URL and each decorates outgoing `start` messages. */
module Interceptors {
  import opened Wrappers
  import opened Urls
  import opened Json
  import opened RealtimeRequest
  import AmzDate
  import ApiKeyInterceptor
  import AuthTokenInterceptor
  import IamAuthInterceptor

  /** A configured interceptor: the API key, the token strategy (its
      provider's answers come from the environment), or IAM with its region
      and signer. */
  datatype Interceptor =
    | UsesApiKey(apiKey: string)
    | UsesAuthToken
    | UsesIam(region: string, signer: IamAuthInterceptor.Signer)

  /** What an interception observes of the world: the clock, the token
      provider's latest answer (none when it throws), and Foundation's JSON
      writer and parser. */
  datatype Env = Env(now: AmzDate.DateTime, latestAuthToken: Option<string>, writer: Writer, parse: string -> Option<Json>)

  /** What the strategies force-unwrap or format: the API-key and token
      strategies need a host, the API-key strategy a clock reading it can
      stamp. */
  predicate Ready(i: Interceptor, url: Url, env: Env) {
    && (i.UsesApiKey? || i.UsesAuthToken? ==> url.host.Some?)
    && (i.UsesApiKey? ==> AmzDate.Valid(env.now))
  }

  /** What `interceptRequest` needs for one message: the API-key strategy
      unwraps the host for every message; the rest only for `start`. */
  predicate ReadyFor(i: Interceptor, event: Request, url: Url, env: Env) {
    if event.Start? then Ready(i, url, env) else i.UsesApiKey? ==> url.host.Some?
  }

  /** `interceptConnection` of the configured strategy. */
  function InterceptConnection(i: Interceptor, url: Url, env: Env): (r: Url)
    requires Ready(i, url, env)
    ensures r.scheme == url.scheme
    ensures r.host.Some? <==> url.host.Some?
  {
    match i
    case UsesApiKey(key) => ApiKeyInterceptor.InterceptConnection(key, url, env.now, env.writer)
    case UsesAuthToken => AuthTokenInterceptor.InterceptConnection(env.latestAuthToken, url, env.writer)
    case UsesIam(region, signer) => IamAuthInterceptor.InterceptConnection(region, signer, url, env.writer)
  }

  /** `interceptRequest` of the configured strategy. */
  function InterceptRequest(i: Interceptor, event: Request, url: Url, env: Env): (r: Request)
    requires ReadyFor(i, event, url, env)
    ensures !event.Start? ==> r == event
    ensures event.Start? ==> r.Start? && r.start.id == event.start.id && r.start.data == event.start.data
  {
    match i
    case UsesApiKey(key) => ApiKeyInterceptor.InterceptRequest(key, event, url, env.now)
    case UsesAuthToken => AuthTokenInterceptor.InterceptRequest(env.latestAuthToken, event, url)
    case UsesIam(region, signer) => IamAuthInterceptor.InterceptRequest(region, signer, event, url)
  }

  /** A `start` message gains the credential variant of its strategy, whatever
      credential it had before; only a failed IAM signing leaves it without. */
  lemma CredentialMatchesStrategy(i: Interceptor, event: Request, url: Url, env: Env)
    requires event.Start? && ReadyFor(i, event, url, env)
    ensures var auth := InterceptRequest(i, event, url, env).start.auth;
            && (auth.None? ==> i.UsesIam?)
            && (auth.Some? ==>
                  && (auth.value.ApiKey? <==> i.UsesApiKey?)
                  && (auth.value.AuthToken? <==> i.UsesAuthToken?)
                  && (auth.value.Iam? <==> i.UsesIam?))
  {
  }

  /** Intercepting the same message twice gives the same message as once: the
      credential is replaced, not accumulated. */
  lemma InterceptRequestIdempotent(i: Interceptor, event: Request, url: Url, env: Env)
    requires ReadyFor(i, event, url, env)
    ensures InterceptRequest(i, InterceptRequest(i, event, url, env), url, env) == InterceptRequest(i, event, url, env)
  {
  }
}
