/** The API-key credential: the configured key, the API host and a date
    stamp, attached to the connection URL and to every `start` message. */
module ApiKeyInterceptor {
  import opened Wrappers
  import opened Urls
  import opened Json
  import opened RealtimeRequest
  import opened Endpoint
  import opened AmzDate

  /** `authHeaderBuilder()(apiKey, host)` read at clock time `now`: the
      stamp is `now` written `yyyyMMdd'T'HHmmss'Z'`. */
  function AuthHeader(apiKey: string, host: string, now: DateTime): (a: Auth)
    requires Valid(now)
    ensures a.ApiKey? && a.host == host && a.apiKey == apiKey
    ensures |a.amzDate| == 16 && a.amzDate[8] == 'T' && a.amzDate[15] == 'Z'
    ensures Parse(a.amzDate) == Some(now)
  {
    ParseFormat(now);
    ApiKey(host, apiKey, Format(now))
  }

  /** `interceptConnection`: the URL with the API-key credential of the API
      host and the default payload as its query. The API host is
      force-unwrapped, so the URL must have a host. */
  function InterceptConnection(apiKey: string, url: Url, now: DateTime, writer: Writer): (r: Url)
    requires url.host.Some? && Valid(now)
    ensures r.scheme == url.scheme && r.host == url.host && r.path == url.path
  {
    WithBaseUrl(UrlQuery(AuthHeader(apiKey, AppSyncApiEndpoint(url).host.value, now), DefaultPayload), url, writer)
  }

  /** `interceptRequest`: a `start` message keeps its id and data and gets
      the API-key credential; anything else passes unchanged. The host is
      unwrapped before the message is inspected, so even a message that
      passes through needs a URL with a host. */
  function InterceptRequest(apiKey: string, event: Request, url: Url, now: DateTime): (r: Request)
    requires url.host.Some? && (event.Start? ==> Valid(now))
    ensures !event.Start? ==> r == event
    ensures event.Start? ==>
              && r.Start? && r.start.id == event.start.id && r.start.data == event.start.data
              && r.start.auth == Some(AuthHeader(apiKey, AppSyncApiEndpoint(url).host.value, now))
  {
    var host := AppSyncApiEndpoint(url).host.value;
    match event
    case Start(s) => Start(StartRequest(s.id, s.data, Some(AuthHeader(apiKey, host, now))))
    case _ => event
  }

  /** A server reading the connection URL finds the configured key, the API
      host, the clock time and the default payload. */
  lemma ConnectionCarriesKey(apiKey: string, url: Url, now: DateTime, writer: Writer, parse: string -> Option<Json>)
    requires url.host.Some? && Valid(now)
    requires forall j :: parse(writer(j)) == Some(j)
    ensures var q := ReadUrlQuery(InterceptConnection(apiKey, url, now, writer), parse);
            && q.Some? && q.value.payload == DefaultPayload
            && q.value.header.ApiKey? && q.value.header.apiKey == apiKey
            && q.value.header.host == AppSyncApiEndpoint(url).host.value
            && Parse(q.value.header.amzDate) == Some(now)
  {
    var h := AuthHeader(apiKey, AppSyncApiEndpoint(url).host.value, now);
    ReadWithBaseUrl(UrlQuery(h, DefaultPayload), url, writer, parse);
  }
}
