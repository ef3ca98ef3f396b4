/** What the WebSocket client publishes on its event stream, how it turns a
    task's completion error into an event, and what the delegate is told. */
module ClientEvents {
  import opened Wrappers
  import opened Bytes
  import Utf8

  const NSURLErrorDomain := "NSURLErrorDomain"
  const NSPOSIXErrorDomain := "NSPOSIXErrorDomain"
  /** `NSURLErrorCancelled`. */
  const URLErrorCancelled := -999
  /** `NSURLErrorNetworkConnectionLost`. */
  const URLErrorNetworkConnectionLost := -1005
  /** `ECONNABORTED` on Darwin: the socket was torn down while suspended. */
  const ECONNABORTED := 53
  /** Close code "going away", section 7.4.1 of RFC 6455. */
  const GoingAway := 1001

  /** An error as `NSError` exposes it: domain and code. */
  datatype NSError = NSError(domain: string, code: int)

  /** `AppSyncWebSocketClient.Error`, or another error passed through. */
  datatype ClientError = ConnectionLost | ConnectionCancelled | Underlying(error: NSError)

  /** `WebSocketEvent`. */
  datatype Event =
    | Connected
    | Disconnected(closeCode: int, reason: Option<string>)
    | DataFrame(bytes: seq<Byte>)
    | StringFrame(text: string)
    | ErrorEvent(error: ClientError)

  /** The delegate callback an event becomes. */
  datatype DelegateCall =
    | DidConnect
    | DidReceiveData(bytes: seq<Byte>)
    | DidReceiveMessage(text: string)
    | DidDisconnect(error: Option<ClientError>)

  /** The `(domain, code)` switch of `didCompleteWithError`: lost network and
      an aborted socket are a lost connection, a cancelled task a cancelled
      connection, anything else is passed through as it is. */
  function Classify(e: NSError): (r: ClientError)
    ensures r == ConnectionLost <==>
              || (e.domain == NSURLErrorDomain && e.code == URLErrorNetworkConnectionLost)
              || (e.domain == NSPOSIXErrorDomain && e.code == ECONNABORTED)
    ensures r == ConnectionCancelled <==> e.domain == NSURLErrorDomain && e.code == URLErrorCancelled
    ensures r.Underlying? ==> r.error == e
  {
    if e.domain == NSURLErrorDomain && e.code == URLErrorNetworkConnectionLost then ConnectionLost
    else if e.domain == NSPOSIXErrorDomain && e.code == ECONNABORTED then ConnectionLost
    else if e.domain == NSURLErrorDomain && e.code == URLErrorCancelled then ConnectionCancelled
    else Underlying(e)
  }

  /** The event `didCompleteWithError` publishes: none for a clean
      completion, the classified error otherwise. */
  function CompletionEvent(error: Option<NSError>): (r: Option<Event>)
    ensures r.None? <==> error.None?
    ensures r.Some? ==> r.value.ErrorEvent? && r.value.error == Classify(error.value)
  {
    match error
    case None => None
    case Some(e) => Some(ErrorEvent(Classify(e)))
  }

  /** The close reason of `didCloseWith`: the reason bytes as UTF-8 text,
      none when they are absent or not UTF-8. */
  function CloseReason(reason: Option<seq<Byte>>): (r: Option<string>)
    ensures r.Some? ==> reason.Some? && Utf8.Encode(r.value) == reason.value
    ensures forall s :: reason == Some(Utf8.Encode(s)) ==> r == Some(s)
  {
    match reason
    case None => None
    case Some(bytes) =>
      Utf8.DecodeOfEncoding(bytes);
      var text := Utf8.Decode(bytes);
      if text.Some? then Utf8.EncodeDecode(bytes); text else text
  }

  /** The sink's switch: each event becomes one delegate call; frames keep
      their contents, and both a close and an error disconnect, the close
      without an error (its code and reason are dropped). */
  function Dispatch(e: Event): (c: DelegateCall)
    ensures c == DidConnect <==> e == Connected
    ensures c.DidReceiveData? <==> e.DataFrame?
    ensures c.DidReceiveData? ==> c.bytes == e.bytes
    ensures c.DidReceiveMessage? <==> e.StringFrame?
    ensures c.DidReceiveMessage? ==> c.text == e.text
    ensures c.DidDisconnect? <==> e.Disconnected? || e.ErrorEvent?
    ensures c.DidDisconnect? ==> (c.error.Some? <==> e.ErrorEvent?)
    ensures e.ErrorEvent? ==> c.error == Some(e.error)
  {
    match e
    case Connected => DidConnect
    case DataFrame(b) => DidReceiveData(b)
    case StringFrame(t) => DidReceiveMessage(t)
    case Disconnected(_, _) => DidDisconnect(None)
    case ErrorEvent(err) => DidDisconnect(Some(err))
  }

  /** The delegate calls for a stream of events, in order. */
  function DelegateCalls(events: seq<Event>): (calls: seq<DelegateCall>)
    ensures |calls| == |events|
    ensures forall i | 0 <= i < |events| :: calls[i] == Dispatch(events[i])
  {
    if events == [] then [] else [Dispatch(events[0])] + DelegateCalls(events[1..])
  }
}
