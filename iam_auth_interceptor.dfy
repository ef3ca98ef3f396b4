/** The IAM credential: headers from an external signer over the API
    endpoint, the message body and the region. A failed signing degrades to
    an unauthenticated `start` message or to the bare `connect` URL. */
module IamAuthInterceptor {
  import opened Wrappers
  import opened Bytes
  import opened Urls
  import opened Json
  import opened RealtimeRequest
  import opened Endpoint
  import Utf8

  /** What the signer is asked to sign. */
  datatype SigningRequest = SigningRequest(url: Url, body: seq<Byte>, region: string)

  /** The signer's four results: host, authorization, security token, date. */
  datatype SignedHeader = SignedHeader(host: string, authToken: string, securityToken: string, amzDate: string)

  /** `getAuthHeader`; none when it returns nil or throws. */
  type Signer = SigningRequest -> Option<SignedHeader>

  const ConnectSegment := "connect"

  function IamAuth(h: SignedHeader): (a: Auth)
    ensures a.Iam? && a.host == h.host && a.authToken == h.authToken
    ensures a.securityToken == h.securityToken && a.amzDate == h.amzDate
  {
    Iam(h.host, h.authToken, h.securityToken, h.amzDate)
  }

  /** The URL a connection is signed for: the API endpoint with a `connect`
      segment. */
  function ConnectUrl(url: Url): (r: Url)
    ensures r.host == AppSyncApiEndpoint(url).host && r.scheme == url.scheme
    ensures r.path == AppSyncApiEndpoint(url).path + [ConnectSegment]
  {
    AppendingPathComponent(AppSyncApiEndpoint(url), ConnectSegment)
  }

  /** The connection's signing request: the `connect` URL over the body `{}`. */
  function ConnectSigningRequest(url: Url, region: string): SigningRequest {
    SigningRequest(ConnectUrl(url), Utf8.Encode(DefaultPayload), region)
  }

  /** `interceptConnection`: on a signature, the given URL with the IAM
      credential and the default payload; on failure, the `connect` URL
      itself, with no credential. */
  function InterceptConnection(region: string, signer: Signer, url: Url, writer: Writer): (r: Url)
    ensures signer(ConnectSigningRequest(url, region)).None? ==> r == ConnectUrl(url)
    ensures signer(ConnectSigningRequest(url, region)).Some? ==>
              r.scheme == url.scheme && r.host == url.host && r.path == url.path
  {
    match signer(ConnectSigningRequest(url, region))
    case None => ConnectUrl(url)
    case Some(h) => WithBaseUrl(UrlQuery(IamAuth(h), DefaultPayload), url, writer)
  }

  /** The signing request for a `start` message: the API endpoint over the
      UTF-8 bytes of the message's data. */
  function StartSigningRequest(s: StartRequest, url: Url, region: string): SigningRequest {
    SigningRequest(AppSyncApiEndpoint(url), Utf8.Encode(s.data), region)
  }

  /** `interceptRequest`: a `start` message keeps its id and data and gets the
      IAM credential when signing succeeds and none when it fails; anything
      else passes unchanged. */
  function InterceptRequest(region: string, signer: Signer, event: Request, url: Url): (r: Request)
    ensures !event.Start? ==> r == event
    ensures event.Start? ==>
              && r.Start? && r.start.id == event.start.id && r.start.data == event.start.data
              && (r.start.auth.Some? <==> signer(StartSigningRequest(event.start, url, region)).Some?)
              && (r.start.auth.Some? ==> r.start.auth == Some(IamAuth(signer(StartSigningRequest(event.start, url, region)).value)))
  {
    match event
    case Start(s) =>
      var auth := match signer(StartSigningRequest(s, url, region))
        case None => None
        case Some(h) => Some(IamAuth(h));
      Start(StartRequest(s.id, s.data, auth))
    case _ => event
  }

  /** The signed body is exactly the data string that is sent: decoding the
      signed bytes gives it back. */
  lemma SignedBodyIsData(s: StartRequest, url: Url, region: string)
    ensures Utf8.Decode(StartSigningRequest(s, url, region).body) == Some(s.data)
  {
    Utf8.DecodeEncode(s.data);
  }

  /** A server reading a signed connection URL finds the signer's headers and
      the default payload. */
  lemma ConnectionCarriesSignature(region: string, signer: Signer, url: Url, writer: Writer, parse: string -> Option<Json>)
    requires signer(ConnectSigningRequest(url, region)).Some?
    requires forall j :: parse(writer(j)) == Some(j)
    ensures ReadUrlQuery(InterceptConnection(region, signer, url, writer), parse)
              == Some(UrlQuery(IamAuth(signer(ConnectSigningRequest(url, region)).value), DefaultPayload))
  {
    var h := signer(ConnectSigningRequest(url, region)).value;
    ReadWithBaseUrl(UrlQuery(IamAuth(h), DefaultPayload), url, writer, parse);
  }
}
