/** The messages the client sends over the real-time WebSocket, the
    credentials they carry, and their JSON encodings; plus the `header` and
    `payload` query items that carry a credential on the connection URL. */
module RealtimeRequest {
  import opened Wrappers
  import opened Bytes
  import opened Json
  import opened Urls
  import Utf8
  import Base64

  /** A credential. Its encoding carries no variant tag: the key set tells
      the three apart. */
  datatype Auth =
    | AuthToken(host: string, authToken: string)
    | ApiKey(host: string, apiKey: string, amzDate: string)
    | Iam(host: string, authToken: string, securityToken: string, amzDate: string)

  datatype StartRequest = StartRequest(id: string, data: string, auth: Option<Auth>)

  /** A real-time protocol message. */
  datatype Request =
    | ConnectionInit
    | Start(start: StartRequest)
    | Stop(stopId: string)

  const AcceptValue := "application/json, text/javascript"
  const ContentTypeValue := "application/json; charset=UTF-8"
  const ContentEncodingValue := "amz-1.0"

  const AuthTokenKeys: set<string> := {"host", "Authorization"}
  const ApiKeyKeys: set<string> := {"host", "x-api-key", "x-amz-date"}
  const IamKeys: set<string> :=
    {"host", "accept", "content-type", "Authorization", "X-Amz-Security-Token", "content-encoding", "x-amz-date"}

  /** The subscription id a message refers to. */
  function Id(r: Request): (id: Option<string>)
    ensures id.None? <==> r.ConnectionInit?
    ensures r.Start? ==> id == Some(r.start.id)
    ensures r.Stop? ==> id == Some(r.stopId)
  {
    match r
    case ConnectionInit => None
    case Start(s) => Some(s.id)
    case Stop(id) => Some(id)
  }

  /** The JSON object of a credential: exactly the keys of its variant, with
      the IAM constants filled in. */
  function EncodeAuth(a: Auth): (j: Json)
    ensures j.JObject?
    ensures a.AuthToken? ==> j.members.Keys == AuthTokenKeys
    ensures a.ApiKey? ==> j.members.Keys == ApiKeyKeys
    ensures a.Iam? ==> j.members.Keys == IamKeys
    ensures j.members["host"] == JString(a.host)
  {
    match a
    case AuthToken(host, token) =>
      JObject(map["host" := JString(host), "Authorization" := JString(token)])
    case ApiKey(host, key, date) =>
      JObject(map["host" := JString(host), "x-api-key" := JString(key), "x-amz-date" := JString(date)])
    case Iam(host, token, securityToken, date) =>
      JObject(map[
        "host" := JString(host),
        "accept" := JString(AcceptValue),
        "content-type" := JString(ContentTypeValue),
        "content-encoding" := JString(ContentEncodingValue),
        "X-Amz-Security-Token" := JString(securityToken),
        "Authorization" := JString(token),
        "x-amz-date" := JString(date)])
  }

  /** The JSON object of a message. */
  function EncodeRequest(r: Request): (j: Json)
    ensures j.JObject? && "type" in j.members
    ensures r.ConnectionInit? ==> j == JObject(map["type" := JString("connection_init")])
    ensures r.Stop? ==> j == JObject(map["type" := JString("stop"), "id" := JString(r.stopId)])
    ensures r.Start? ==>
              && j.members.Keys == {"type", "id", "payload"}
              && j.members["type"] == JString("start")
              && j.members["id"] == JString(r.start.id)
              && Member(j.members["payload"], "data") == Some(JString(r.start.data))
              && Member(j.members["payload"], "extensions").Some?
  {
    match r
    case ConnectionInit => JObject(map["type" := JString("connection_init")])
    case Start(s) =>
      JObject(map[
        "type" := JString("start"),
        "id" := JString(s.id),
        "payload" := JObject(map["data" := JString(s.data), "extensions" := EncodeExtensions(s.auth)])])
    case Stop(id) => JObject(map["type" := JString("stop"), "id" := JString(id)])
  }

  /** `payload.extensions`: always an object; it has an `authorization`
      member exactly when there is a credential (`encodeIfPresent`). */
  function EncodeExtensions(auth: Option<Auth>): (j: Json)
    ensures j.JObject?
    ensures "authorization" in j.members <==> auth.Some?
    ensures j.members.Keys <= {"authorization"}
    ensures auth.Some? ==> j.members["authorization"] == EncodeAuth(auth.value)
  {
    match auth
    case None => JObject(map[])
    case Some(a) => JObject(map["authorization" := EncodeAuth(a)])
  }

  /** The `id` member of an encoded message is the message's id. */
  lemma EncodedIdIsId(r: Request)
    ensures StringMember(EncodeRequest(r), "id") == Id(r)
  {
  }

  /** `payload.extensions.authorization` of an encoded `start` message is
      present exactly when the message has a credential, and is then its
      encoding. */
  lemma EncodedAuthorization(s: StartRequest)
    ensures var ext := Member(EncodeRequest(Start(s)).members["payload"], "extensions").value;
            && (Member(ext, "authorization").Some? <==> s.auth.Some?)
            && (s.auth.Some? ==> Member(ext, "authorization") == Some(EncodeAuth(s.auth.value)))
  {
  }

  /** Read a credential back from its JSON object; none unless the object is
      exactly the encoding of one. */
  function DecodeAuth(j: Json): (r: Option<Auth>)
  {
    if !j.JObject? then None
    else
      var m := j.members;
      if m.Keys == AuthTokenKeys && m["host"].JString? && m["Authorization"].JString? then
        Some(AuthToken(m["host"].s, m["Authorization"].s))
      else if m.Keys == ApiKeyKeys && m["host"].JString? && m["x-api-key"].JString? && m["x-amz-date"].JString? then
        Some(ApiKey(m["host"].s, m["x-api-key"].s, m["x-amz-date"].s))
      else if m.Keys == IamKeys && m["host"].JString? && m["Authorization"].JString?
              && m["X-Amz-Security-Token"].JString? && m["x-amz-date"].JString?
              && m["accept"] == JString(AcceptValue) && m["content-type"] == JString(ContentTypeValue)
              && m["content-encoding"] == JString(ContentEncodingValue) then
        Some(Iam(m["host"].s, m["Authorization"].s, m["X-Amz-Security-Token"].s, m["x-amz-date"].s))
      else None
  }

  lemma KeySetsDiffer()
    ensures AuthTokenKeys != ApiKeyKeys && AuthTokenKeys != IamKeys && ApiKeyKeys != IamKeys
  {
    assert "Authorization" !in ApiKeyKeys;
    assert "accept" !in AuthTokenKeys && "accept" !in ApiKeyKeys;
  }

  /** An untagged credential is still recovered from its encoding. */
  lemma DecodeEncodeAuth(a: Auth)
    ensures DecodeAuth(EncodeAuth(a)) == Some(a)
  {
    KeySetsDiffer();
  }

  /** `DecodeAuth` accepts nothing but encodings. */
  lemma EncodeDecodeAuth(j: Json)
    requires DecodeAuth(j).Some?
    ensures EncodeAuth(DecodeAuth(j).value) == j
  {
    var m := j.members;
    var e := EncodeAuth(DecodeAuth(j).value).members;
    assert e.Keys == m.Keys;
    forall k | k in m ensures e[k] == m[k] {
    }
  }

  /** Distinct credentials have distinct encodings. */
  lemma EncodeAuthInjective(a: Auth, b: Auth)
    requires EncodeAuth(a) == EncodeAuth(b)
    ensures a == b
  {
    DecodeEncodeAuth(a);
    DecodeEncodeAuth(b);
  }

  /** Read a message back from its JSON object. */
  function DecodeRequest(j: Json): (r: Option<Request>)
  {
    if !j.JObject? then None
    else
      var m := j.members;
      if m == map["type" := JString("connection_init")] then Some(ConnectionInit)
      else if m.Keys == {"type", "id"} && m["type"] == JString("stop") && m["id"].JString? then
        Some(Stop(m["id"].s))
      else if m.Keys == {"type", "id", "payload"} && m["type"] == JString("start") && m["id"].JString? then
        match DecodePayload(m["payload"])
        case Some((data, auth)) => Some(Start(StartRequest(m["id"].s, data, auth)))
        case None => None
      else None
  }

  function DecodePayload(j: Json): Option<(string, Option<Auth>)> {
    if j.JObject? && j.members.Keys == {"data", "extensions"} && j.members["data"].JString? then
      var ext := j.members["extensions"];
      if ext == JObject(map[]) then Some((j.members["data"].s, None))
      else if ext.JObject? && ext.members.Keys == {"authorization"} then
        match DecodeAuth(ext.members["authorization"])
        case Some(a) => Some((j.members["data"].s, Some(a)))
        case None => None
      else None
    else None
  }

  /** Every message is recovered from its encoding. */
  lemma DecodeEncodeRequest(r: Request)
    ensures DecodeRequest(EncodeRequest(r)) == Some(r)
  {
    match r
    case ConnectionInit =>
    case Stop(id) =>
      assert EncodeRequest(r).members.Keys == {"type", "id"};
    case Start(s) =>
      var p := EncodeRequest(r).members["payload"];
      assert p.members.Keys == {"data", "extensions"};
      if s.auth.Some? {
        DecodeEncodeAuth(s.auth.value);
        assert p.members["extensions"] != JObject(map[]);
      }
  }

  /** Distinct messages have distinct encodings. */
  lemma EncodeRequestInjective(r: Request, q: Request)
    requires EncodeRequest(r) == EncodeRequest(q)
    ensures r == q
  {
    DecodeEncodeRequest(r);
    DecodeEncodeRequest(q);
  }

  /** A credential and the payload sent with it on the connection URL. */
  datatype UrlQuery = UrlQuery(header: Auth, payload: string)

  /** The payload a `URLQuery` gets when none is given. */
  const DefaultPayload := "{}"

  /** `base64EncodedString`: padded Base64 of the string's UTF-8 bytes. The
      fallback to "" cannot happen, as every string has a UTF-8 encoding. */
  function Base64EncodedString(s: string): (r: string)
    ensures Base64.Decode(r).Some? && Utf8.Decode(Base64.Decode(r).value) == Some(s)
  {
    var bytes := Utf8.Encode(s);
    Base64.DecodeEncode(bytes);
    Utf8.DecodeEncode(s);
    Base64.Encode(bytes)
  }

  /** `URLQuery.withBaseURL`: the URL with its query replaced by exactly
      `header` (Base64 of the credential's JSON) and `payload` (Base64 of
      the payload text), in that order. */
  function WithBaseUrl(q: UrlQuery, url: Url, writer: Writer): (r: Url)
    ensures r.scheme == url.scheme && r.host == url.host && r.path == url.path
    ensures |r.query| == 2
    ensures r.query[0] == QueryItem("header", Some(Base64EncodedString(writer(EncodeAuth(q.header)))))
    ensures r.query[1] == QueryItem("payload", Some(Base64EncodedString(q.payload)))
  {
    url.(query := [
      QueryItem("header", Some(Base64EncodedString(writer(EncodeAuth(q.header))))),
      QueryItem("payload", Some(Base64EncodedString(q.payload)))])
  }

  /** Decode a Base64 query value back to text. */
  function Unbase64(s: string): Option<string> {
    match Base64.Decode(s)
    case None => None
    case Some(bytes) => Utf8.Decode(bytes)
  }

  /** What a server reads from the connection URL: the credential and the
      payload, given a JSON parser. */
  function ReadUrlQuery(url: Url, parse: string -> Option<Json>): Option<UrlQuery> {
    if |url.query| == 2 && url.query[0].name == "header" && url.query[1].name == "payload"
       && url.query[0].value.Some? && url.query[1].value.Some? then
      match Unbase64(url.query[0].value.value)
      case None => None
      case Some(headerText) =>
        match Unbase64(url.query[1].value.value)
        case None => None
        case Some(payload) =>
          match parse(headerText)
          case None => None
          case Some(headerJson) =>
            match DecodeAuth(headerJson)
            case None => None
            case Some(header) => Some(UrlQuery(header, payload))
    else None
  }

  /** The credential and payload placed on a URL are read back from it by
      any parser that reads the writer's text back. */
  lemma ReadWithBaseUrl(q: UrlQuery, url: Url, writer: Writer, parse: string -> Option<Json>)
    requires parse(writer(EncodeAuth(q.header))) == Some(EncodeAuth(q.header))
    ensures ReadUrlQuery(WithBaseUrl(q, url, writer), parse) == Some(q)
  {
    DecodeEncodeAuth(q.header);
  }
}
