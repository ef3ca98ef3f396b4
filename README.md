# AppSync real-time WebSocket client — a Dafny model

This project models the Swift WebSocket client of `aws-appsync-apollo-extensions`.
The client connects Apollo's GraphQL subscriptions to an AWS AppSync real-time endpoint.
It covers five parts:

- **Endpoints.** A GraphQL endpoint is rewritten to its real-time counterpart
  (`appsync-api` → `appsync-realtime-api` on AppSync hosts, a `realtime` path
  segment elsewhere) and back. Its scheme is coerced to `ws`/`wss`.
- **Wire format.** The protocol messages (`connection_init`, `start`, `stop`)
  and the three credential shapes (token, API key, IAM) are encoded as JSON
  objects. A credential plus a payload is placed on the connection URL as
  the `header` and `payload` query items, each the Base64 of UTF-8 text.
- **Interceptors.** The API-key, auth-token and IAM strategies decorate the
  connection URL and attach a credential to every `start` message. The clock,
  the token provider and the SigV4 signer are parameters.
- **Outbound pipeline.** `write(string:)` passes every frame through unchanged,
  except a `start` frame with a query. For such a frame it rebuilds the message
  from `query`/`variables`, has the interceptor attach a credential, and sends
  the encoding.
- **The client object.** `AppSyncWebSocketClient` is a class that holds one
  `URLSessionWebSocketTask` at a time. Replacing that task cancels the old one
  with "going away". The class also models the connect/disconnect guards, the
  read loop that republishes frames until the task closes, the completion-error
  classifier and the event-to-delegate dispatch.

The model has three layers:

- Pure parts are functions with lemmas. These are the URL rewriting, the
  encoders, UTF-8, Base64, the `x-amz-date` stamp and the interceptors.
- The task and the client are classes whose methods update their fields.
- The read loop is a `while` loop proved against the specification function
  `ReadEvents`.

Two kinds of property are proved:

- **Round trips:**
  - decoding every encoder's output gives back its input (UTF-8, Base64,
    the date stamp, credentials and messages);
  - a server reading the connection URL finds the credential that was put there;
  - the two endpoint rewrites undo each other.
- **Behavioural facts:**
  - every task replaced by another has been cancelled;
  - the read loop publishes frames in order and stops at a close;
  - an outbound `start` frame carries the credential variant of the
    configured strategy.

## Model

Paths are relative to the repository root.

| member | source | states |
|---|---|---|
| Endpoint.UseWebSocketProtocolScheme | Sources/aws-appsync-apollo-extensions/AppSyncURLSessionWebsocketClient/AppSyncWebSocketClient.swift:319-328 | `ws`/`wss` URLs are kept, `http` becomes `ws`, every other scheme becomes `wss`. The result is always `ws` or `wss`. Host, path and query are unchanged. |
| Endpoint.UseWebSocketProtocolSchemeIdempotent | Sources/aws-appsync-apollo-extensions/AppSyncURLSessionWebsocketClient/AppSyncWebSocketClient.swift:323-326 | Coercing a coerced URL changes nothing. |
| Endpoint.AppSyncRealTimeEndpoint | Sources/aws-appsync-apollo-extensions/AppSyncURLSessionWebsocketClient/AppSyncWebSocketClient.swift:332-351 | A URL without a host is kept. A non-AppSync host gets a `realtime` segment appended. An AppSync host has every `appsync-api` replaced by `appsync-realtime-api` and still ends in `amazonaws.com`. |
| Endpoint.AppSyncApiEndpoint | Sources/aws-appsync-apollo-extensions/AppSyncURLSessionWebsocketClient/Interceptors/AppSyncAPIKeyInterceptor.swift:74-95 | A URL without a host is kept. A non-AppSync host loses a trailing `realtime` segment and nothing else. An AppSync host has `appsync-realtime-api` replaced by `appsync-api` and stays in the domain. Host presence is preserved. |
| Endpoint.MarkersStayOutOfDomain | Sources/aws-appsync-apollo-extensions/AppSyncURLSessionWebsocketClient/AppSyncWebSocketClient.swift:337-345 | Neither host marker overlaps itself. Neither occurs in `amazonaws.com` or runs into it. So the rewrite cannot touch the domain suffix. |
| Endpoint.ApiEndpointUndoesRealTimeEndpoint | Sources/aws-appsync-apollo-extensions/AppSyncURLSessionWebsocketClient/Interceptors/AppSyncAPIKeyInterceptor.swift:74-95 | The API endpoint of the real-time endpoint of a URL is that URL, for every URL whose AppSync host does not already contain `appsync-realtime-api`. |
| Endpoint.RealTimeEndpointUndoesApiEndpoint | Sources/aws-appsync-apollo-extensions/AppSyncURLSessionWebsocketClient/AppSyncWebSocketClient.swift:332-351 | The converse: the real-time endpoint of the API endpoint of a real-time URL is that URL. |
| Endpoint.ApiHostOfClientUrl | Sources/aws-appsync-apollo-extensions/AppSyncURLSessionWebsocketClient/Interceptors/AppSyncAPIKeyInterceptor.swift:38 | The host an interceptor derives from the client's request URL is the host of the GraphQL endpoint the client was built with. |
| Text.ReplaceAbsent | Sources/aws-appsync-apollo-extensions/AppSyncURLSessionWebsocketClient/Interceptors/AppSyncAPIKeyInterceptor.swift:90 | Replacing a pattern that does not occur leaves the string unchanged. |
| Text.ReplaceRoundTrip | Sources/aws-appsync-apollo-extensions/AppSyncURLSessionWebsocketClient/AppSyncWebSocketClient.swift:345 | Replacing `a` by `b` and then `b` by `a` restores any string without `b`, for any `b` that cannot overlap itself. |
| Text.ReplaceKeepsSuffix | Sources/aws-appsync-apollo-extensions/AppSyncURLSessionWebsocketClient/AppSyncWebSocketClient.swift:337-345 | Replacing a pattern that neither occurs in a suffix nor runs into it keeps that suffix. |
| Utf8.EncodeScalar | Sources/aws-appsync-apollo-extensions/AppSyncURLSessionWebsocketClient/Data/AppSyncRealTimeRequest.swift:125 | A character takes 1 to 4 bytes. It takes one exactly when it is ASCII. Every byte after the first is a continuation byte. |
| Utf8.Encode | Sources/aws-appsync-apollo-extensions/AppSyncURLSessionWebsocketClient/Data/AppSyncRealTimeRequest.swift:125 | The encoding of a string has between one and four bytes per character. |
| Utf8.DecodeScalar | Sources/aws-appsync-apollo-extensions/AppSyncURLSessionWebsocketClient/AppSyncWebSocketClient.swift:280 | A decoded character consumes 1 to 4 bytes of the input. |
| Utf8.DecodeEncodeScalar | Sources/aws-appsync-apollo-extensions/AppSyncURLSessionWebsocketClient/AppSyncWebSocketClient.swift:280 | The decoder reads one character's encoding back, whatever follows it. |
| Utf8.EncodeDecodeScalar | Sources/aws-appsync-apollo-extensions/AppSyncURLSessionWebsocketClient/AppSyncWebSocketClient.swift:280 | The decoder accepts only the shortest encoding of a character: no overlong form, surrogate or value above U+10FFFF. |
| Utf8.DecodeEncode | Sources/aws-appsync-apollo-extensions/AppSyncURLSessionWebsocketClient/AppSyncWebSocketClient.swift:174 | Decoding the UTF-8 encoding of any string gives that string. So the `String(data:encoding:)` guard of `write` never fails, and the lenient decode there is exact. |
| Utf8.EncodeDecode | Sources/aws-appsync-apollo-extensions/AppSyncURLSessionWebsocketClient/AppSyncWebSocketClient.swift:280 | Any byte string the decoder accepts is the encoding of what it decodes to. |
| Utf8.DecodeOfEncoding | Sources/aws-appsync-apollo-extensions/AppSyncURLSessionWebsocketClient/AppSyncWebSocketClient.swift:280 | Bytes that encode some string decode to exactly that string. |
| Base64.CharOf | Sources/aws-appsync-apollo-extensions/AppSyncURLSessionWebsocketClient/Data/AppSyncRealTimeRequest.swift:126 | Every sextet maps to a character of the standard Base64 alphabet. |
| Base64.IndexOf | Sources/aws-appsync-apollo-extensions/AppSyncURLSessionWebsocketClient/Data/AppSyncRealTimeRequest.swift:126 | Reading an alphabet character gives the sextet that maps back to it. |
| Base64.IndexOfCharOf | Sources/aws-appsync-apollo-extensions/AppSyncURLSessionWebsocketClient/Data/AppSyncRealTimeRequest.swift:126 | Reading back the character of a sextet gives that sextet. |
| Base64.Encode | Sources/aws-appsync-apollo-extensions/AppSyncURLSessionWebsocketClient/Data/AppSyncRealTimeRequest.swift:126 | The encoding has a multiple of four characters and is empty exactly when the input is. |
| Base64.DecodeEncodeGroup | Sources/aws-appsync-apollo-extensions/AppSyncURLSessionWebsocketClient/Data/AppSyncRealTimeRequest.swift:126 | A group of three bytes is read back from its four characters. |
| Base64.DecodeEncode | Sources/aws-appsync-apollo-extensions/AppSyncURLSessionWebsocketClient/Data/AppSyncRealTimeRequest.swift:126 | Decoding the padded Base64 of any byte string gives that byte string. |
| Base64.EncodeLength | Sources/aws-appsync-apollo-extensions/AppSyncURLSessionWebsocketClient/Data/AppSyncRealTimeRequest.swift:126 | The encoding of `n` bytes has exactly `4·⌈n/3⌉` characters. |
| Base64.EncodeAlphabet | Sources/aws-appsync-apollo-extensions/AppSyncURLSessionWebsocketClient/Data/AppSyncRealTimeRequest.swift:126 | Every character of an encoding is in the alphabet, except `=` padding in the last two positions. |
| AmzDate.Digits | Sources/aws-appsync-apollo-extensions/AppSyncURLSessionWebsocketClient/Interceptors/AppSyncAPIKeyInterceptor.swift:63 | A zero-padded field of width `w` has exactly `w` decimal digits. |
| AmzDate.ReadDigits | Sources/aws-appsync-apollo-extensions/AppSyncURLSessionWebsocketClient/Interceptors/AppSyncAPIKeyInterceptor.swift:63 | Reading `w` digits gives a number below `10^w`. |
| AmzDate.ReadDigitsOfDigits | Sources/aws-appsync-apollo-extensions/AppSyncURLSessionWebsocketClient/Interceptors/AppSyncAPIKeyInterceptor.swift:63 | Reading a padded field gives back its number. |
| AmzDate.DigitsOfReadDigits | Sources/aws-appsync-apollo-extensions/AppSyncURLSessionWebsocketClient/Interceptors/AppSyncAPIKeyInterceptor.swift:63 | Padding the number read from a digit string gives back that string. |
| AmzDate.Format | Sources/aws-appsync-apollo-extensions/AppSyncURLSessionWebsocketClient/Interceptors/AppSyncAPIKeyInterceptor.swift:60-63 | `yyyyMMdd'T'HHmmss'Z'` in UTC: 16 characters, `T` at index 8, `Z` at index 15, digits elsewhere. |
| AmzDate.ParseFormat | Sources/aws-appsync-apollo-extensions/AppSyncURLSessionWebsocketClient/Interceptors/AppSyncAPIKeyInterceptor.swift:60-63 | Parsing a stamp gives back the time it was made from. |
| AmzDate.FormatParse | Sources/aws-appsync-apollo-extensions/AppSyncURLSessionWebsocketClient/Interceptors/AppSyncAPIKeyInterceptor.swift:60-63 | Every string the parser accepts is the stamp of the time it parses to, so the format has exactly one spelling per time. |
| RealtimeRequest.Id | Sources/aws-appsync-apollo-extensions/AppSyncURLSessionWebsocketClient/Data/AppSyncRealTimeRequest.swift:21-27 | `start` and `stop` have their subscription id. Only `connection_init` has none. |
| RealtimeRequest.EncodeAuth | Sources/aws-appsync-apollo-extensions/AppSyncURLSessionWebsocketClient/Data/AppSyncRealTimeRequest.swift:134-197 | A credential encodes to an object with exactly its variant's keys (`Authorization`, `x-api-key`, `x-amz-date`, the IAM constants) and its `host`. No variant tag is written. |
| RealtimeRequest.EncodeRequest | Sources/aws-appsync-apollo-extensions/AppSyncURLSessionWebsocketClient/Data/AppSyncRealTimeRequest.swift:48-68 | `connection_init` is `{type}`, `stop` is `{type, id}`, and `start` is `{type, id, payload{data, extensions}}` with the message's id and data. |
| RealtimeRequest.EncodeExtensions | Sources/aws-appsync-apollo-extensions/AppSyncURLSessionWebsocketClient/Data/AppSyncRealTimeRequest.swift:61-63 | `extensions` is always an object. It has `authorization` exactly when there is a credential, and it is then that credential's encoding. |
| RealtimeRequest.EncodedIdIsId | Sources/aws-appsync-apollo-extensions/AppSyncURLSessionWebsocketClient/Data/AppSyncRealTimeRequest.swift:48-68 | The `id` member of an encoded message is the message's `id`. |
| RealtimeRequest.EncodedAuthorization | Sources/aws-appsync-apollo-extensions/AppSyncURLSessionWebsocketClient/Data/AppSyncRealTimeRequest.swift:61-63 | An encoded `start` has `payload.extensions.authorization` exactly when it has a credential. |
| RealtimeRequest.KeySetsDiffer | Sources/aws-appsync-apollo-extensions/AppSyncURLSessionWebsocketClient/Data/AppSyncRealTimeRequest.swift:148-197 | The three credential key sets are pairwise different. |
| RealtimeRequest.DecodeEncodeAuth | Sources/aws-appsync-apollo-extensions/AppSyncURLSessionWebsocketClient/Data/AppSyncRealTimeRequest.swift:134-146 | An untagged credential is recovered from its encoding. |
| RealtimeRequest.EncodeDecodeAuth | Sources/aws-appsync-apollo-extensions/AppSyncURLSessionWebsocketClient/Data/AppSyncRealTimeRequest.swift:134-146 | Only encodings are read as credentials. |
| RealtimeRequest.EncodeAuthInjective | Sources/aws-appsync-apollo-extensions/AppSyncURLSessionWebsocketClient/Data/AppSyncRealTimeRequest.swift:134-146 | Different credentials have different encodings. |
| RealtimeRequest.DecodeEncodeRequest | Sources/aws-appsync-apollo-extensions/AppSyncURLSessionWebsocketClient/Data/AppSyncRealTimeRequest.swift:48-68 | Every message, credential included, is recovered from its encoding. |
| RealtimeRequest.EncodeRequestInjective | Sources/aws-appsync-apollo-extensions/AppSyncURLSessionWebsocketClient/Data/AppSyncRealTimeRequest.swift:48-68 | Different messages have different encodings. |
| RealtimeRequest.Base64EncodedString | Sources/aws-appsync-apollo-extensions/AppSyncURLSessionWebsocketClient/Data/AppSyncRealTimeRequest.swift:123-132 | The result Base64-decodes, and then UTF-8-decodes, back to the input. So the `""` fallback is never taken. |
| RealtimeRequest.WithBaseUrl | Sources/aws-appsync-apollo-extensions/AppSyncURLSessionWebsocketClient/Data/AppSyncRealTimeRequest.swift:103-120 | Scheme, host and path are kept. The query becomes exactly `header` (the credential's JSON text) then `payload`, both Base64 of UTF-8. |
| RealtimeRequest.ReadWithBaseUrl | Sources/aws-appsync-apollo-extensions/AppSyncURLSessionWebsocketClient/Data/AppSyncRealTimeRequest.swift:114-117 | A server that parses the JSON writer's text reads back the same credential and payload from the decorated URL. |
| ApiKeyInterceptor.AuthHeader | Sources/aws-appsync-apollo-extensions/AppSyncURLSessionWebsocketClient/Interceptors/AppSyncAPIKeyInterceptor.swift:59-72 | The header is an API-key credential with the given key and host. Its `x-amz-date` is a 16-character stamp that parses to the clock reading. |
| ApiKeyInterceptor.InterceptConnection | Sources/aws-appsync-apollo-extensions/AppSyncURLSessionWebsocketClient/Interceptors/AppSyncAPIKeyInterceptor.swift:37-42 | The URL keeps scheme, host and path. A host is required because the API host is force-unwrapped. |
| ApiKeyInterceptor.InterceptRequest | Sources/aws-appsync-apollo-extensions/AppSyncURLSessionWebsocketClient/Interceptors/AppSyncAPIKeyInterceptor.swift:46-56 | Non-`start` messages pass unchanged. A `start` keeps its id and data and gets the API-key header of the API host. The host is unwrapped before the check, so every message needs one. |
| ApiKeyInterceptor.ConnectionCarriesKey | Sources/aws-appsync-apollo-extensions/AppSyncURLSessionWebsocketClient/Interceptors/AppSyncAPIKeyInterceptor.swift:37-42 | The connection URL reads back as the configured key, the API host, the clock's stamp and the `{}` payload. |
| AuthTokenInterceptor.GetAuthToken | Sources/aws-appsync-apollo-extensions/AppSyncURLSessionWebsocketClient/Interceptors/AppSyncAuthTokenInterceptor.swift:18-29 | The provider's token, or `""` when the provider throws. |
| AuthTokenInterceptor.InterceptConnection | Sources/aws-appsync-apollo-extensions/AppSyncURLSessionWebsocketClient/Interceptors/AppSyncAuthTokenInterceptor.swift:60-69 | The URL keeps scheme, host and path. A host is required (force-unwrap). |
| AuthTokenInterceptor.InterceptRequest | Sources/aws-appsync-apollo-extensions/AppSyncURLSessionWebsocketClient/Interceptors/AppSyncAuthTokenInterceptor.swift:74-89 | Non-`start` messages pass unchanged and need no host. A `start` keeps its id and data and gets a token credential for the API host. |
| AuthTokenInterceptor.FailingProviderGivesEmptyToken | Sources/aws-appsync-apollo-extensions/AppSyncURLSessionWebsocketClient/Interceptors/AppSyncAuthTokenInterceptor.swift:19-28 | When the provider fails, a `start` still carries a token credential, with the empty token. |
| AuthTokenInterceptor.ConnectionCarriesToken | Sources/aws-appsync-apollo-extensions/AppSyncURLSessionWebsocketClient/Interceptors/AppSyncAuthTokenInterceptor.swift:60-69 | The connection URL reads back as exactly the token credential of the API host (`""` on failure) and the `{}` payload. |
| IamAuthInterceptor.IamAuth | Sources/aws-appsync-apollo-extensions/AppSyncURLSessionWebsocketClient/Interceptors/AppSyncIAMAuthInterceptor.swift:33-36 | The signer's four values become host, `Authorization`, security token and date of an IAM credential, in that order. |
| IamAuthInterceptor.ConnectUrl | Sources/aws-appsync-apollo-extensions/AppSyncURLSessionWebsocketClient/Interceptors/AppSyncIAMAuthInterceptor.swift:25 | The signing URL is the API endpoint's host and path plus a `connect` segment. |
| IamAuthInterceptor.InterceptConnection | Sources/aws-appsync-apollo-extensions/AppSyncURLSessionWebsocketClient/Interceptors/AppSyncIAMAuthInterceptor.swift:24-38 | On signing failure the result is the `connect` URL. Otherwise it is the original URL (same scheme, host, path) carrying the signature. |
| IamAuthInterceptor.InterceptRequest | Sources/aws-appsync-apollo-extensions/AppSyncURLSessionWebsocketClient/Interceptors/AppSyncIAMAuthInterceptor.swift:42-65 | Non-`start` messages pass unchanged. A `start` keeps id and data. It has a credential exactly when signing its data for the API endpoint succeeds, and that credential is the signature. |
| IamAuthInterceptor.SignedBodyIsData | Sources/aws-appsync-apollo-extensions/AppSyncURLSessionWebsocketClient/Interceptors/AppSyncIAMAuthInterceptor.swift:49-52 | The signed body is the UTF-8 of the message's data, byte for byte. |
| IamAuthInterceptor.ConnectionCarriesSignature | Sources/aws-appsync-apollo-extensions/AppSyncURLSessionWebsocketClient/Interceptors/AppSyncIAMAuthInterceptor.swift:32-37 | A signed connection URL reads back as exactly the signer's IAM credential and the `{}` payload. |
| Interceptors.InterceptConnection | Sources/aws-appsync-apollo-extensions/AppSyncURLSessionWebsocketClient/Interfaces/WebSocketInterceptor.swift:9-11 | Every strategy keeps the URL's scheme and whether it has a host. |
| Interceptors.InterceptRequest | Sources/aws-appsync-apollo-extensions/AppSyncURLSessionWebsocketClient/Interfaces/AppSyncRequestInterceptor.swift:10-12 | Every strategy passes non-`start` messages unchanged and keeps a `start`'s id and data. |
| Interceptors.CredentialMatchesStrategy | Sources/aws-appsync-apollo-extensions/AppSyncURLSessionWebsocketClient/AppSyncWebSocketClient.swift:183-184 | An intercepted `start` carries the credential variant of the configured strategy. It carries none only after an IAM signing failure. |
| Interceptors.InterceptRequestIdempotent | Sources/aws-appsync-apollo-extensions/AppSyncURLSessionWebsocketClient/AppSyncWebSocketClient.swift:183-184 | Under one environment (one clock reading, one token answer, one signer), intercepting twice equals intercepting once: the credential is replaced, not accumulated. |
| ClientEvents.Classify | Sources/aws-appsync-apollo-extensions/AppSyncURLSessionWebsocketClient/AppSyncWebSocketClient.swift:295-305 | Connection lost exactly for (NSURLErrorDomain, -1005) and (NSPOSIXErrorDomain, 53). Cancelled exactly for (NSURLErrorDomain, -999). Every other error passes through unchanged. |
| ClientEvents.CompletionEvent | Sources/aws-appsync-apollo-extensions/AppSyncURLSessionWebsocketClient/AppSyncWebSocketClient.swift:288-305 | No event for a clean completion. Otherwise an error event with the classified error. |
| ClientEvents.CloseReason | Sources/aws-appsync-apollo-extensions/AppSyncURLSessionWebsocketClient/AppSyncWebSocketClient.swift:280 | A reason is reported exactly when the reason bytes are the UTF-8 of some text, and it is that text. |
| ClientEvents.Dispatch | Sources/aws-appsync-apollo-extensions/AppSyncURLSessionWebsocketClient/AppSyncWebSocketClient.swift:79-92 | Each event becomes its delegate call. Frames keep their contents. A close disconnects without an error, dropping code and reason. An error disconnects with that error. |
| ClientEvents.DelegateCalls | Sources/aws-appsync-apollo-extensions/AppSyncURLSessionWebsocketClient/AppSyncWebSocketClient.swift:73-93 | One delegate call per published event, in order. |
| Client.WebSocketTask.constructor | Sources/aws-appsync-apollo-extensions/AppSyncURLSessionWebsocketClient/AppSyncWebSocketClient.swift:218-219 | A new task is suspended on the given request, has sent nothing and has no close code. |
| Client.WebSocketTask.Resume | Sources/aws-appsync-apollo-extensions/AppSyncURLSessionWebsocketClient/AppSyncWebSocketClient.swift:99 | A suspended task starts running. Any other state is unchanged. |
| Client.WebSocketTask.Cancel | Sources/aws-appsync-apollo-extensions/AppSyncURLSessionWebsocketClient/AppSyncWebSocketClient.swift:110 | A live task starts closing with the code. A closing or closed task is left alone. |
| Client.WebSocketTask.Send | Sources/aws-appsync-apollo-extensions/AppSyncURLSessionWebsocketClient/AppSyncWebSocketClient.swift:197 | Only a running task appends the frame to what it has sent. |
| Client.WebSocketTask.Receive | Sources/aws-appsync-apollo-extensions/AppSyncURLSessionWebsocketClient/AppSyncWebSocketClient.swift:237 | Returns the next server result and takes the state reported with it. |
| Client.StepEvents | Sources/aws-appsync-apollo-extensions/AppSyncURLSessionWebsocketClient/AppSyncWebSocketClient.swift:236-253 | One receive publishes at most one event. |
| Client.ReadCount | Sources/aws-appsync-apollo-extensions/AppSyncURLSessionWebsocketClient/AppSyncWebSocketClient.swift:225-256 | The loop consumes no more results than the server sends. |
| Client.ReadStopsAtClose | Sources/aws-appsync-apollo-extensions/AppSyncURLSessionWebsocketClient/AppSyncWebSocketClient.swift:231-234 | A receive that fails once the task is closing ends the loop silently. Nothing after it is consumed or published. |
| Client.ReadPublishesFramesInOrder | Sources/aws-appsync-apollo-extensions/AppSyncURLSessionWebsocketClient/AppSyncWebSocketClient.swift:239-246 | On a task that keeps running, every received frame is published unchanged, in order, and every result is consumed. |
| Client.ReadErrorsOnlyWhileRunning | Sources/aws-appsync-apollo-extensions/AppSyncURLSessionWebsocketClient/AppSyncWebSocketClient.swift:247-253 | Every published error is a receive error reported while the task was running. |
| Client.ReadEventsBounded | Sources/aws-appsync-apollo-extensions/AppSyncURLSessionWebsocketClient/AppSyncWebSocketClient.swift:236-255 | The loop publishes at most one event per consumed result. |
| Client.ParseStartFrame | Sources/aws-appsync-apollo-extensions/AppSyncURLSessionWebsocketClient/AppSyncWebSocketClient.swift:130-159 | A frame is intercepted exactly when all of these hold: it is a JSON object, it has a string `id`, its `type` is `"start"`, and its `payload` has a `query`. The frame's id, query and variables are taken over. |
| Client.DataDict | Sources/aws-appsync-apollo-extensions/AppSyncURLSessionWebsocketClient/AppSyncWebSocketClient.swift:161-166 | `dataDict` holds `query`, plus `variables` exactly when the payload has them, with their values. |
| Client.ConnectionUrl | Sources/aws-appsync-apollo-extensions/AppSyncURLSessionWebsocketClient/AppSyncWebSocketClient.swift:211-216 | Without an interceptor the result is the URL itself; with one it is that interceptor's decoration of the URL. Either way the scheme and host presence are kept. |
| Client.OutboundFrame | Sources/aws-appsync-apollo-extensions/AppSyncURLSessionWebsocketClient/AppSyncWebSocketClient.swift:130-197 | The guard-by-guard computation of `write` yields exactly `Outbound`. Unparsable, id-less, non-`start` and query-less frames are sent unchanged. A `start` frame without an interceptor sends nothing. Otherwise the UTF-8 round trips of the data and of the encoded message are exact. |
| Client.OutboundStartMessage | Sources/aws-appsync-apollo-extensions/AppSyncURLSessionWebsocketClient/AppSyncWebSocketClient.swift:161-197 | The frame sent for a `start` reads back as a `start` with the frame's id. Its data parses to exactly `dataDict`. It carries the configured strategy's credential variant, or none only after an IAM failure. |
| Client.IamFailureKeepsConnectUrl | Sources/aws-appsync-apollo-extensions/AppSyncURLSessionWebsocketClient/AppSyncWebSocketClient.swift:211-216 | After an IAM connection-signing failure, the request URL the client keeps names the GraphQL API host plus `connect`, not the real-time host it was built with. |
| Client.AppSyncWebSocketClient.constructor | Sources/aws-appsync-apollo-extensions/AppSyncURLSessionWebsocketClient/AppSyncWebSocketClient.swift:52-64 | The request targets the real-time endpoint over `ws`/`wss` with the `graphql-ws` sub-protocol. There is no task and no subscriber yet. |
| Client.AppSyncWebSocketClient.Publish | Sources/aws-appsync-apollo-extensions/AppSyncURLSessionWebsocketClient/AppSyncWebSocketClient.swift:38-39 | An event reaches the sink only once `connect` has subscribed one. |
| Client.AppSyncWebSocketClient.ReplaceConnection | Sources/aws-appsync-apollo-extensions/AppSyncURLSessionWebsocketClient/AppSyncWebSocketClient.swift:31-35 | The replaced task is cancelled with "going away" unless it is already closing, in which case its state and close code are unchanged; what it has sent and what it has still to receive are unchanged either way. It is retired, and every retired task stays halted. |
| Client.AppSyncWebSocketClient.Connect | Sources/aws-appsync-apollo-extensions/AppSyncURLSessionWebsocketClient/AppSyncWebSocketClient.swift:66-101 | Nothing changes while the current task is running. Otherwise: the sink is subscribed, the request URL becomes the interceptor's decoration of itself, and a fresh running task on it replaces the old task, which is cancelled as in `ReplaceConnection` (its sent frames and pending results unchanged). The interceptor's precondition applies only on this path. |
| Client.AppSyncWebSocketClient.Disconnect | Sources/aws-appsync-apollo-extensions/AppSyncURLSessionWebsocketClient/AppSyncWebSocketClient.swift:103-111 | A running task starts closing with "going away". Otherwise nothing changes. |
| Client.AppSyncWebSocketClient.Write | Sources/aws-appsync-apollo-extensions/AppSyncURLSessionWebsocketClient/AppSyncWebSocketClient.swift:117-122 | A disconnected client drops the text. A connected one sends exactly the frame `OutboundFrame` computes, if any, and the task is otherwise unchanged. |
| Client.AppSyncWebSocketClient.ReadMessages | Sources/aws-appsync-apollo-extensions/AppSyncURLSessionWebsocketClient/AppSyncWebSocketClient.swift:225-234 | Without a task nothing is published. With one, the loop publishes `ReadEvents` of the task's state and results, consumes `ReadCount` results and leaves the task in the state reported last. The client keeps its invariant that replaced tasks are halted. |
| Client.AppSyncWebSocketClient.ReadLoop | Sources/aws-appsync-apollo-extensions/AppSyncURLSessionWebsocketClient/AppSyncWebSocketClient.swift:225-256 | The same, on one task. The loop invariant (`ReadProgress`) keeps the results consumed, the events published and the events still to come adding up to `ReadEvents` of the start. |
| Client.AppSyncWebSocketClient.ReadOnce | Sources/aws-appsync-apollo-extensions/AppSyncURLSessionWebsocketClient/AppSyncWebSocketClient.swift:236-253 | One round consumes exactly the next result. It takes the state reported with it and publishes that result's `StepEvents`. |
| Client.AppSyncWebSocketClient.PublishReceived | Sources/aws-appsync-apollo-extensions/AppSyncURLSessionWebsocketClient/AppSyncWebSocketClient.swift:236-253 | A received frame is published. A receive error is published only while the task is running. |
| Client.AppSyncWebSocketClient.DidOpen | Sources/aws-appsync-apollo-extensions/AppSyncURLSessionWebsocketClient/AppSyncWebSocketClient.swift:264-271 | Publishes `connected`. |
| Client.AppSyncWebSocketClient.DidClose | Sources/aws-appsync-apollo-extensions/AppSyncURLSessionWebsocketClient/AppSyncWebSocketClient.swift:273-281 | Publishes `disconnected` with the close code and the UTF-8 reason. |
| Client.AppSyncWebSocketClient.DidCompleteWithError | Sources/aws-appsync-apollo-extensions/AppSyncURLSessionWebsocketClient/AppSyncWebSocketClient.swift:283-306 | Publishes the classified error. A clean completion publishes nothing. |

## Left out

- JSON text is not modelled. `JSONEncoder`, `JSONSerialization` and their
  parser are a writer function and a parse function in `Interceptors.Env`.
  Properties that need text to read back assume only that the parser reads
  the writer's output back. Key order and escaping are therefore not modelled.
- JSON numbers are integers. Floating-point values are not modelled.
- The clock, the token provider's answer and the IAM signer are parameters.
  SigV4 signing (`AmplifyAppSyncSigV4Signer.swift`) is not part of this model.
- `URLComponents` failure paths (a URL it cannot parse or rebuild) are not
  modelled. A URL is a record of scheme, optional host, path segments and
  query items. Percent-encoding and trailing slashes are not represented, so
  `Endpoint.ApiEndpointUndoesRealTimeEndpoint` is exact only in this URL model:
  Foundation's `deletingLastPathComponent` of `.../graphql/realtime` leaves
  `.../graphql/` with a trailing slash.
- Concurrency is not modelled: `Task`s, `async`, actor hops and Combine
  scheduling. Each operation runs to completion in turn. So the read loop
  cannot observe `connection` being replaced mid-loop. In the source, a loop
  started for an old task re-reads `self.connection` and may continue on
  its replacement.
- Client.AppSyncWebSocketClient.ReadMessages: the recursive `startReadMessage`
  is a loop over the receive results the server will send (`pending`). It
  ends when none are left, which stands for a receive that never returns.
- Client.AppSyncWebSocketClient.Write: `request.url` is never nil in the
  model, so the "ERROR" branch at line 178 is not represented. The `try!`
  serialisations are total functions.
- `write(ping:)` is not modelled; it does nothing.
- `deinit` is not modelled: there is no object lifetime in the model.
- `print` diagnostics, the delegate's callback queue and the `id` properties
  are not modelled.
- The delegate is the sequence of calls `ClientEvents.DelegateCalls` makes of
  the published events. No delegate object is modelled.
- Client.AppSyncWebSocketClient.Disconnect: the `forceTimeout` argument is
  ignored by the source and is not a parameter.
- `interceptAsync` (the HTTP `ApolloInterceptor` path of all three
  interceptors) is not modelled. It belongs to the HTTP transport, not to
  the WebSocket client.
- The protocols in `Interfaces/` are one datatype, `Interceptors.Interceptor`,
  with one case per strategy.
- `AppSyncPayloadContainer` is empty and not modelled.
- AmzDate.Format: requires a year of at most four digits (0–9999).
  `DateFormatter` would print longer years, which are not modelled.
- ApiKeyInterceptor.AuthHeader: inherits the four-digit-year precondition of
  `AmzDate.Format`.
- Base64 is modelled only as the standard padded alphabet with no line
  breaks, which is what `base64EncodedString()` without options produces.
