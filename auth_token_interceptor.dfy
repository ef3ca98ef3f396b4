/** The bearer-token credential: the token provider's latest token and the
    API host. A failing provider yields an empty token, never a missing
    credential, so the backend answers "unauthorized" rather than "bad
    request". */
module AuthTokenInterceptor {
  import opened Wrappers
  import opened Urls
  import opened Json
  import opened RealtimeRequest
  import opened Endpoint

  /** `getAuthToken`: the provider's token (`latest`, none when the provider
      throws), or "" in its place. */
  function GetAuthToken(latest: Option<string>): (token: string)
    ensures latest.Some? ==> token == latest.value
    ensures latest.None? ==> token == ""
  {
    latest.GetOr("")
  }

  /** `interceptConnection`: the URL with the token credential of the API
      host and the default payload as its query. */
  function InterceptConnection(latest: Option<string>, url: Url, writer: Writer): (r: Url)
    requires url.host.Some?
    ensures r.scheme == url.scheme && r.host == url.host && r.path == url.path
  {
    var header := AuthToken(AppSyncApiEndpoint(url).host.value, GetAuthToken(latest));
    WithBaseUrl(UrlQuery(header, DefaultPayload), url, writer)
  }

  /** `interceptRequest`: a `start` message keeps its id and data and always
      gets a token credential; anything else passes unchanged. Only the
      `start` path unwraps the API host. */
  function InterceptRequest(latest: Option<string>, event: Request, url: Url): (r: Request)
    requires event.Start? ==> url.host.Some?
    ensures !event.Start? ==> r == event
    ensures event.Start? ==>
              && r.Start? && r.start.id == event.start.id && r.start.data == event.start.data
              && r.start.auth == Some(AuthToken(AppSyncApiEndpoint(url).host.value, GetAuthToken(latest)))
  {
    match event
    case Start(s) =>
      Start(StartRequest(s.id, s.data, Some(AuthToken(AppSyncApiEndpoint(url).host.value, GetAuthToken(latest)))))
    case _ => event
  }

  /** With a failing provider a `start` message still carries a credential:
      a token credential whose token is empty. */
  lemma FailingProviderGivesEmptyToken(event: Request, url: Url)
    requires event.Start? && url.host.Some?
    ensures var r := InterceptRequest(None, event, url);
            r.start.auth.Some? && r.start.auth.value.AuthToken? && r.start.auth.value.authToken == ""
  {
  }

  /** A server reading the connection URL finds the provider's token (or "")
      for the API host, and the default payload. */
  lemma ConnectionCarriesToken(latest: Option<string>, url: Url, writer: Writer, parse: string -> Option<Json>)
    requires url.host.Some?
    requires forall j :: parse(writer(j)) == Some(j)
    ensures ReadUrlQuery(InterceptConnection(latest, url, writer), parse)
              == Some(UrlQuery(AuthToken(AppSyncApiEndpoint(url).host.value, latest.GetOr("")), DefaultPayload))
  {
    var header := AuthToken(AppSyncApiEndpoint(url).host.value, GetAuthToken(latest));
    ReadWithBaseUrl(UrlQuery(header, DefaultPayload), url, writer, parse);
  }
}
