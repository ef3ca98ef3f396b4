/** `AppSyncWebSocketClient`: one WebSocket task at a time, the read loop
    that republishes its frames, the outbound frame pipeline that attaches
    credentials to `start` messages, and the task delegate callbacks. */
module Client {
  import opened Wrappers
  import opened Bytes
  import opened Json
  import opened Urls
  import opened RealtimeRequest
  import opened Endpoint
  import opened ClientEvents
  import opened Interceptors
  import opened Text
  import IamAuthInterceptor
  import Utf8

  /** Value of the request's `Sec-WebSocket-Protocol` header. */
  const GraphqlWs := "graphql-ws"

  /** `URLSessionTask.State`. */
  datatype TaskState = Running | Suspended | Canceling | Completed

  /** A task that is being or has been torn down. */
  predicate Halted(s: TaskState) {
    s == Canceling || s == Completed
  }

  /** `URLSessionWebSocketTask.Message`. */
  datatype Message = DataMessage(bytes: seq<Byte>) | StringMessage(text: string)

  datatype ReceiveOutcome = Received(message: Message) | ReceiveFailed(error: NSError)

  /** One `receive()`: what it returns, and the task's state when it returns
      (a cancel made while it was awaited shows here). */
  datatype ReceiveStep = ReceiveStep(outcome: ReceiveOutcome, stateAfter: TaskState)

  /** A WebSocket task: its request, its state, the close code it was
      cancelled with, the text frames it has sent, and the receive results
      still to come from the server. */
  class WebSocketTask {
    const url: Url
    const subProtocol: string
    var state: TaskState
    var closeCode: Option<int>
    var sent: seq<string>
    var pending: seq<ReceiveStep>

    /** `URLSession.webSocketTask(with:)`: a new, suspended task. */
    constructor(url: Url, subProtocol: string, pending: seq<ReceiveStep>)
      ensures this.url == url && this.subProtocol == subProtocol
      ensures state == Suspended && closeCode == None && sent == [] && this.pending == pending
    {
      this.url := url;
      this.subProtocol := subProtocol;
      state := Suspended;
      closeCode := None;
      sent := [];
      this.pending := pending;
    }

    /** `resume()`: a suspended task starts running; otherwise no effect. */
    method Resume()
      modifies this
      ensures state == (if old(state) == Suspended then Running else old(state))
      ensures closeCode == old(closeCode) && sent == old(sent) && pending == old(pending)
    {
      if state == Suspended {
        state := Running;
      }
    }

    /** `cancel(with:reason:)`: a live task starts closing with `code`; a
        task already closing or closed is left alone. */
    method Cancel(code: int)
      modifies this
      ensures !Halted(old(state)) ==> state == Canceling && closeCode == Some(code)
      ensures Halted(old(state)) ==> state == old(state) && closeCode == old(closeCode)
      ensures sent == old(sent) && pending == old(pending)
    {
      if !Halted(state) {
        state := Canceling;
        closeCode := Some(code);
      }
    }

    /** `send(.string(text))`: only a running task sends; the error a send
        on any other task throws is dropped by its caller. */
    method Send(text: string)
      modifies this
      ensures sent == old(sent) + (if old(state) == Running then [text] else [])
      ensures state == old(state) && closeCode == old(closeCode) && pending == old(pending)
    {
      if state == Running {
        sent := sent + [text];
      }
    }

    /** `receive()`: the next result from the server. */
    method Receive() returns (outcome: ReceiveOutcome)
      requires pending != []
      modifies this
      ensures outcome == old(pending[0].outcome) && state == old(pending[0].stateAfter)
      ensures pending == old(pending[1..])
      ensures closeCode == old(closeCode) && sent == old(sent)
    {
      outcome := pending[0].outcome;
      state := pending[0].stateAfter;
      pending := pending[1..];
    }
  }

  /** The events one receive publishes: a frame unchanged, an error only if
      the task is still running. */
  function StepEvents(step: ReceiveStep): (es: seq<Event>)
    ensures |es| <= 1
  {
    match step.outcome
    case Received(DataMessage(b)) => [DataFrame(b)]
    case Received(StringMessage(t)) => [StringFrame(t)]
    case ReceiveFailed(e) => if step.stateAfter == Running then [ErrorEvent(Underlying(e))] else []
  }

  /** The events the read loop publishes, starting on a task in `state` with
      receive results `pending`: it stops once the task is closing or
      closed, or (awaiting a result that never comes) once none is left. */
  function ReadEvents(state: TaskState, pending: seq<ReceiveStep>): seq<Event>
    decreases |pending|
  {
    if Halted(state) || pending == [] then []
    else StepEvents(pending[0]) + ReadEvents(pending[0].stateAfter, pending[1..])
  }

  /** How many receive results the read loop consumes. */
  function ReadCount(state: TaskState, pending: seq<ReceiveStep>): (n: nat)
    ensures n <= |pending|
    decreases |pending|
  {
    if Halted(state) || pending == [] then 0
    else 1 + ReadCount(pending[0].stateAfter, pending[1..])
  }

  /** The task's state after `n` receive results. */
  function StateAfter(state: TaskState, pending: seq<ReceiveStep>, n: nat): TaskState
    requires n <= |pending|
  {
    if n == 0 then state else pending[n - 1].stateAfter
  }

  /** A `start` message as the outbound pipeline finds it in a frame. */
  datatype StartFrame = StartFrame(id: string, query: Json, variables: Option<Json>)

  /** The guards of `write(string:)`: a JSON object with a string `id`, a
      `type` of `"start"`, and a `payload` object holding a `query`. */
  function ParseStartFrame(parsed: Option<Json>): (f: Option<StartFrame>)
    ensures f.Some? <==>
              && parsed.Some? && parsed.value.JObject?
              && StringMember(parsed.value, "id").Some?
              && StringMember(parsed.value, "type") == Some("start")
              && Member(parsed.value, "payload").Some?
              && Member(Member(parsed.value, "payload").value, "query").Some?
    ensures f.Some? ==>
              && f.value.id == StringMember(parsed.value, "id").value
              && f.value.query == Member(Member(parsed.value, "payload").value, "query").value
              && f.value.variables == Member(Member(parsed.value, "payload").value, "variables")
  {
    if parsed.None? || !parsed.value.JObject? then None
    else
      var json := parsed.value;
      var id := StringMember(json, "id");
      var payload := Member(json, "payload");
      if id.None? || StringMember(json, "type") != Some("start") || payload.None? then None
      else
        var query := Member(payload.value, "query");
        if query.None? then None
        else Some(StartFrame(id.value, query.value, Member(payload.value, "variables")))
  }

  /** `dataDict`: the query, and the variables when there are any. */
  function DataDict(f: StartFrame): (m: map<string, Json>)
    ensures m.Keys == {"query"} + (if f.variables.Some? then {"variables"} else {})
    ensures m["query"] == f.query
    ensures f.variables.Some? ==> m["variables"] == f.variables.value
  {
    if f.variables.Some? then map["query" := f.query, "variables" := f.variables.value]
    else map["query" := f.query]
  }

  /** The message `write` builds before interception: the frame's id, the
      text of `dataDict` as data, and no credential. */
  function StartMessage(f: StartFrame, writer: Writer): Request {
    Start(StartRequest(f.id, writer(JObject(DataDict(f))), None))
  }

  /** What `write(string:)` sends on a connected client: the text itself
      unless it is a `start` frame with a query; for such a frame, the
      encoding of the intercepted message, or nothing without an
      interceptor. */
  function Outbound(text: string, interceptor: Option<Interceptor>, url: Url, env: Env): Option<string>
    requires ParseStartFrame(env.parse(text)).Some? && interceptor.Some? ==> Ready(interceptor.value, url, env)
  {
    match ParseStartFrame(env.parse(text))
    case None => Some(text)
    case Some(f) =>
      match interceptor
      case None => None
      case Some(i) => Some(env.writer(EncodeRequest(InterceptRequest(i, StartMessage(f, env.writer), url, env))))
  }

  function Sends(o: Option<string>): seq<string> {
    match o
    case None => []
    case Some(t) => [t]
  }

  /** `(interceptor?.interceptConnection(url)) ?? url`. */
  function ConnectionUrl(interceptor: Option<Interceptor>, url: Url, env: Env): (r: Url)
    requires interceptor.Some? ==> Ready(interceptor.value, url, env)
    ensures interceptor.None? ==> r == url
    ensures interceptor.Some? ==> r == InterceptConnection(interceptor.value, url, env)
    ensures r.scheme == url.scheme && (r.host.Some? <==> url.host.Some?)
  {
    match interceptor
    case None => url
    case Some(i) => InterceptConnection(i, url, env)
  }

  /** The event a received message is published as. */
  function MessageEvent(m: Message): Event {
    match m
    case DataMessage(b) => DataFrame(b)
    case StringMessage(t) => StringFrame(t)
  }

  /** The read loop has consumed the first `k` results of `pending0`,
      published `emitted` so far, and has `state` and `pending` left. */
  ghost predicate ReadProgress(state0: TaskState, pending0: seq<ReceiveStep>, k: nat, emitted: seq<Event>,
                               state: TaskState, pending: seq<ReceiveStep>)
  {
    && k <= |pending0| && pending == pending0[k..]
    && state == StateAfter(state0, pending0, k)
    && ReadCount(state0, pending0) == k + ReadCount(state, pending)
    && ReadEvents(state0, pending0) == emitted + ReadEvents(state, pending)
  }

  lemma ReadProgressStep(state0: TaskState, pending0: seq<ReceiveStep>, k: nat, emitted: seq<Event>,
                         state: TaskState, pending: seq<ReceiveStep>)
    requires ReadProgress(state0, pending0, k, emitted, state, pending)
    requires !Halted(state) && pending != []
    ensures ReadProgress(state0, pending0, k + 1, emitted + StepEvents(pending[0]), pending[0].stateAfter, pending[1..])
  {
    ReadUnfold(state, pending);
    assert pending0[k + 1..] == pending[1..];
  }

  lemma ReadProgressDone(state0: TaskState, pending0: seq<ReceiveStep>, k: nat, emitted: seq<Event>,
                         state: TaskState, pending: seq<ReceiveStep>)
    requires ReadProgress(state0, pending0, k, emitted, state, pending)
    requires Halted(state) || pending == []
    ensures k == ReadCount(state0, pending0) && emitted == ReadEvents(state0, pending0)
    ensures pending == pending0[k..] && state == StateAfter(state0, pending0, k)
  {
  }

  /** One round of the read loop, on the specification side. */
  lemma ReadUnfold(state: TaskState, pending: seq<ReceiveStep>)
    requires !Halted(state) && pending != []
    ensures ReadEvents(state, pending) == StepEvents(pending[0]) + ReadEvents(pending[0].stateAfter, pending[1..])
    ensures ReadCount(state, pending) == 1 + ReadCount(pending[0].stateAfter, pending[1..])
  {
  }

  /** Nothing is published for a receive that fails after the task started
      closing, nor for anything after it: a cancelled task's read loop ends
      silently. */
  lemma {:induction false} ReadStopsAtClose(state: TaskState, pending: seq<ReceiveStep>, k: nat)
    requires k < |pending| && Halted(pending[k].stateAfter) && pending[k].outcome.ReceiveFailed?
    ensures ReadEvents(state, pending) == ReadEvents(state, pending[..k])
    ensures ReadCount(state, pending) <= k + 1
    decreases k
  {
    if !Halted(state) {
      if k == 0 {
        assert ReadEvents(pending[0].stateAfter, pending[1..]) == [];
      } else {
        ReadStopsAtClose(pending[0].stateAfter, pending[1..], k - 1);
        assert pending[1..][..k - 1] == pending[..k][1..];
      }
    }
  }

  /** On a task that stays running, every received frame is published
      unchanged and in order, and every result is consumed. */
  lemma {:induction false} ReadPublishesFramesInOrder(pending: seq<ReceiveStep>)
    requires forall i | 0 <= i < |pending| :: pending[i].outcome.Received? && pending[i].stateAfter == Running
    ensures var es := ReadEvents(Running, pending);
            && |es| == |pending|
            && forall i | 0 <= i < |pending| :: es[i] == MessageEvent(pending[i].outcome.message)
    ensures ReadCount(Running, pending) == |pending|
  {
    if pending != [] {
      ReadPublishesFramesInOrder(pending[1..]);
      var es := ReadEvents(Running, pending);
      assert es == [MessageEvent(pending[0].outcome.message)] + ReadEvents(Running, pending[1..]);
    }
  }

  /** Every error the read loop publishes is a receive error reported while
      the task was still running. */
  lemma {:induction false} ReadErrorsOnlyWhileRunning(state: TaskState, pending: seq<ReceiveStep>)
    ensures forall e | e in ReadEvents(state, pending) && e.ErrorEvent? ::
              e.error.Underlying? && ReceiveStep(ReceiveFailed(e.error.error), Running) in pending
    decreases |pending|
  {
    if !Halted(state) && pending != [] {
      var rest := pending[1..];
      ReadErrorsOnlyWhileRunning(pending[0].stateAfter, rest);
      ReadUnfold(state, pending);
      forall e | e in ReadEvents(state, pending) && e.ErrorEvent?
        ensures e.error.Underlying? && ReceiveStep(ReceiveFailed(e.error.error), Running) in pending
      {
        if e in StepEvents(pending[0]) {
          assert pending[0] == ReceiveStep(ReceiveFailed(e.error.error), Running);
        } else {
          assert e in ReadEvents(pending[0].stateAfter, rest);
          ElementOfTail(pending, ReceiveStep(ReceiveFailed(e.error.error), Running));
        }
      }
    }
  }

  lemma ElementOfTail<T>(s: seq<T>, x: T)
    requires s != [] && x in s[1..]
    ensures x in s
  {
    var i :| 0 <= i < |s[1..]| && s[1..][i] == x;
    assert s[i + 1] == x;
  }

  /** At most one event per consumed receive result. */
  lemma {:induction false} ReadEventsBounded(state: TaskState, pending: seq<ReceiveStep>)
    ensures |ReadEvents(state, pending)| <= ReadCount(state, pending)
    decreases |pending|
  {
    if !Halted(state) && pending != [] {
      ReadEventsBounded(pending[0].stateAfter, pending[1..]);
    }
  }

  /** The frame `write` sends for a `start` message reads back, with a parser
      that reads the writer's text back, as a `start` message with the
      frame's id, whose data is exactly `dataDict`, carrying the credential
      of the configured strategy (none only after a failed IAM signing). */
  lemma OutboundStartMessage(text: string, i: Interceptor, url: Url, env: Env)
    requires ParseStartFrame(env.parse(text)).Some? && Ready(i, url, env)
    requires forall j :: env.parse(env.writer(j)) == Some(j)
    ensures var f := ParseStartFrame(env.parse(text)).value;
            var sent := Outbound(text, Some(i), url, env).value;
            && env.parse(sent).Some?
            && var r := DecodeRequest(env.parse(sent).value);
            && r.Some? && r.value.Start?
            && r.value.start.id == f.id
            && env.parse(r.value.start.data) == Some(JObject(DataDict(f)))
            && (r.value.start.auth.None? ==> i.UsesIam?)
            && (r.value.start.auth.Some? ==> (r.value.start.auth.value.ApiKey? <==> i.UsesApiKey?))
            && (r.value.start.auth.Some? ==> (r.value.start.auth.value.AuthToken? <==> i.UsesAuthToken?))
  {
    var f := ParseStartFrame(env.parse(text)).value;
    var m := InterceptRequest(i, StartMessage(f, env.writer), url, env);
    DecodeEncodeRequest(m);
    CredentialMatchesStrategy(i, StartMessage(f, env.writer), url, env);
  }

  /** After a failed IAM signing of the connection, the URL the client keeps
      as its request URL names the GraphQL API host with a `connect`
      segment, not the real-time host it was built with. */
  lemma IamFailureKeepsConnectUrl(api: Url, region: string, signer: IamAuthInterceptor.Signer, env: Env)
    requires api.host.Some? && HasSuffix(api.host.value, AwsDomain) && !Contains(api.host.value, RealtimeMarker)
    requires var url := UseWebSocketProtocolScheme(AppSyncRealTimeEndpoint(api));
             signer(IamAuthInterceptor.ConnectSigningRequest(url, region)).None?
    ensures var url := UseWebSocketProtocolScheme(AppSyncRealTimeEndpoint(api));
            var kept := ConnectionUrl(Some(UsesIam(region, signer)), url, env);
            && url.host == Some(ReplaceAll(api.host.value, ApiMarker, RealtimeMarker))
            && kept.host == api.host
            && kept.path == api.path + [IamAuthInterceptor.ConnectSegment]
            && kept.scheme == url.scheme
  {
    var url := UseWebSocketProtocolScheme(AppSyncRealTimeEndpoint(api));
    ApiEndpointUndoesRealTimeEndpoint(api);
    assert AppSyncApiEndpoint(url) == AppSyncApiEndpoint(AppSyncRealTimeEndpoint(api)).(scheme := url.scheme);
  }

  /** The body of `write(string:)` on a connected client: the frame to
      send, if any. */
  method OutboundFrame(text: string, interceptor: Option<Interceptor>, url: Url, env: Env) returns (frame: Option<string>)
    requires ParseStartFrame(env.parse(text)).Some? && interceptor.Some? ==> Ready(interceptor.value, url, env)
    ensures frame == Outbound(text, interceptor, url, env)
  {
    var parsed := env.parse(text);
    if parsed.None? || !parsed.value.JObject? {
      return Some(text);
    }
    var json := parsed.value;
    var id := StringMember(json, "id");
    if id.None? {
      return Some(text);
    }
    var messageType := StringMember(json, "type");
    var payload := Member(json, "payload");
    if messageType != Some("start") {
      return Some(text);
    }
    var query := if payload.Some? then Member(payload.value, "query") else None;
    if query.None? {
      return Some(text);
    }
    var dataDict: map<string, Json> := map["query" := query.value];
    var variables := Member(payload.value, "variables");
    if variables.Some? {
      dataDict := dataDict["variables" := variables.value];
    }
    var dataText := env.writer(JObject(dataDict));
    var jsonData := Utf8.Encode(dataText);
    Utf8.DecodeEncode(dataText);
    var event := Start(StartRequest(id.value, Utf8.Decode(jsonData).value, None));
    if interceptor.None? {
      return None;
    }
    var intercepted := InterceptRequest(interceptor.value, event, url, env);
    var jsonText := env.writer(EncodeRequest(intercepted));
    var encoded := Utf8.Encode(jsonText);
    Utf8.DecodeEncode(jsonText);
    assert dataDict == DataDict(ParseStartFrame(parsed).value);
    return Some(Utf8.Decode(encoded).value);
  }

  class AppSyncWebSocketClient {
    /** `request.url`: the real-time endpoint, replaced on each connect by
        the URL the interceptor decorated. */
    var requestUrl: Url
    /** `request`'s `Sec-WebSocket-Protocol` header. */
    var subProtocol: string
    var interceptor: Option<Interceptor>
    var connection: WebSocketTask?
    /** Whether `connect` has subscribed the delegate sink to the event
        stream; until then published events are dropped. */
    var subscribed: bool
    /** Every event delivered to the sink, in order. */
    var published: seq<Event>
    /** Every task this client held before its current one. */
    ghost var retired: set<WebSocketTask>

    /** Every task replaced by a later one has been cancelled: at most one
        task the client created is still live. */
    ghost predicate Valid()
      reads this, connection, retired
    {
      && (connection != null ==> connection !in retired)
      && (forall t <- retired :: Halted(t.state))
    }

    /** `isConnected`. */
    predicate IsConnected()
      reads this, connection
    {
      connection != null && connection.state == Running
    }

    /** `init(endpointURL:...)`: the request targets the real-time endpoint
        over `ws`/`wss` with the `graphql-ws` sub-protocol. */
    constructor(endpoint: Url, interceptor: Option<Interceptor>)
      ensures requestUrl == UseWebSocketProtocolScheme(AppSyncRealTimeEndpoint(endpoint))
      ensures subProtocol == GraphqlWs && this.interceptor == interceptor
      ensures connection == null && !subscribed && published == [] && retired == {}
      ensures Valid()
    {
      requestUrl := UseWebSocketProtocolScheme(AppSyncRealTimeEndpoint(endpoint));
      subProtocol := GraphqlWs;
      this.interceptor := interceptor;
      connection := null;
      subscribed := false;
      published := [];
      retired := {};
    }

    /** `subject.send`: reaches the sink only once one is subscribed. */
    method Publish(e: Event)
      modifies this`published
      ensures published == old(published) + (if subscribed then [e] else [])
    {
      if subscribed {
        published := published + [e];
      }
    }

    /** Assigning `connection`: its `willSet` first cancels the task being
        replaced with "going away". */
    method ReplaceConnection(t: WebSocketTask)
      requires Valid() && t != connection && t !in retired
      modifies this`connection, this`retired, connection
      ensures connection == t
      ensures old(connection) == null ==> retired == old(retired)
      ensures old(connection) != null ==>
                && retired == old(retired) + {old(connection)}
                && Halted(old(connection).state)
                && (!Halted(old(connection.state)) ==> old(connection).closeCode == Some(GoingAway))
                && (Halted(old(connection.state)) ==>
                      old(connection).state == old(connection.state) && old(connection).closeCode == old(connection.closeCode))
                && old(connection).sent == old(connection.sent) && old(connection).pending == old(connection.pending)
      ensures Valid()
    {
      if connection != null {
        connection.Cancel(GoingAway);
        retired := retired + {connection};
      }
      connection := t;
    }

    /** `connect()`: nothing while the current task is running; otherwise
        subscribe the sink, decorate the request URL through the
        interceptor and keep the result as the request URL, and replace the
        task by a new running one on that URL. The server's answers to the
        new task are `incoming`. */
    method Connect(env: Env, incoming: seq<ReceiveStep>)
      requires Valid()
      requires !IsConnected() && interceptor.Some? ==> Ready(interceptor.value, requestUrl, env)
      modifies this, connection
      ensures Valid()
      ensures interceptor == old(interceptor) && subProtocol == old(subProtocol) && published == old(published)
      ensures requestUrl.scheme == old(requestUrl.scheme) && (requestUrl.host.Some? <==> old(requestUrl.host.Some?))
      ensures old(IsConnected()) ==>
                && connection == old(connection) && unchanged(old(connection))
                && requestUrl == old(requestUrl) && subscribed == old(subscribed) && retired == old(retired)
      ensures !old(IsConnected()) ==>
                && subscribed
                && requestUrl == ConnectionUrl(interceptor, old(requestUrl), env)
                && connection != null && fresh(connection)
                && connection.url == requestUrl && connection.subProtocol == subProtocol
                && connection.state == Running && connection.closeCode == None
                && connection.sent == [] && connection.pending == incoming
                && (old(connection) == null ==> retired == old(retired))
                && (old(connection) != null ==>
                      && retired == old(retired) + {old(connection)} && Halted(old(connection).state)
                      && (!Halted(old(connection.state)) ==> old(connection).closeCode == Some(GoingAway))
                      && (Halted(old(connection.state)) ==>
                            old(connection).state == old(connection.state) && old(connection).closeCode == old(connection.closeCode))
                      && old(connection).sent == old(connection.sent) && old(connection).pending == old(connection.pending))
    {
      if connection != null && connection.state == Running {
        return;
      }
      subscribed := true;
      var decorated := ConnectionUrl(interceptor, requestUrl, env);
      requestUrl := decorated;
      var task := new WebSocketTask(decorated, subProtocol, incoming);
      ReplaceConnection(task);
      task.Resume();
    }

    /** `disconnect(forceTimeout:)`: only a running task is cancelled, with
        "going away"; the timeout is not used. */
    method Disconnect()
      requires Valid()
      modifies connection
      ensures Valid()
      ensures old(IsConnected()) ==>
                && connection.state == Canceling && connection.closeCode == Some(GoingAway)
                && connection.sent == old(connection.sent) && connection.pending == old(connection.pending)
      ensures !old(IsConnected()) && connection != null ==> unchanged(connection)
    {
      if connection != null && connection.state == Running {
        connection.Cancel(GoingAway);
      }
    }

    /** `write(string:)`: on a connected client, send what `Outbound` says;
        otherwise drop the text. */
    method Write(text: string, env: Env)
      requires Valid()
      requires IsConnected() && ParseStartFrame(env.parse(text)).Some? && interceptor.Some? ==>
                 Ready(interceptor.value, requestUrl, env)
      modifies connection
      ensures Valid()
      ensures !old(IsConnected()) && connection != null ==> unchanged(connection)
      ensures old(IsConnected()) ==>
                && connection.sent == old(connection.sent) + Sends(Outbound(text, interceptor, requestUrl, env))
                && connection.state == old(connection.state) && connection.closeCode == old(connection.closeCode)
                && connection.pending == old(connection.pending)
    {
      if !IsConnected() {
        return;
      }
      var frame := OutboundFrame(text, interceptor, requestUrl, env);
      if frame.Some? {
        connection.Send(frame.value);
      }
    }

    /** `startReadMessage()` as a loop: while the client has a task that is
        neither closing nor closed, receive and publish. It ends where the
        task awaits a result that never comes. */
    method ReadMessages()
      requires Valid()
      modifies this`published, connection
      ensures Valid()
      ensures old(connection) == null ==> published == old(published)
      ensures old(connection) != null ==>
                var n := ReadCount(old(connection.state), old(connection.pending));
                && published == old(published) + (if subscribed then ReadEvents(old(connection.state), old(connection.pending)) else [])
                && connection.state == StateAfter(old(connection.state), old(connection.pending), n)
                && connection.pending == old(connection.pending)[n..]
                && connection.sent == old(connection.sent) && connection.closeCode == old(connection.closeCode)
    {
      var task := connection;
      if task != null {
        ReadLoop(task);
      }
    }

    /** The loop of `startReadMessage` on one task. */
    method ReadLoop(task: WebSocketTask)
      modifies this`published, task
      ensures var n := ReadCount(old(task.state), old(task.pending));
              && published == old(published) + (if subscribed then ReadEvents(old(task.state), old(task.pending)) else [])
              && task.state == StateAfter(old(task.state), old(task.pending), n)
              && task.pending == old(task.pending)[n..]
              && task.sent == old(task.sent) && task.closeCode == old(task.closeCode)
    {
      ghost var state0, pending0 := task.state, task.pending;
      ghost var sub := subscribed;
      ghost var emitted: seq<Event> := [];
      ghost var k := 0;
      while !Halted(task.state) && task.pending != []
        invariant ReadProgress(state0, pending0, k, emitted, task.state, task.pending)
        invariant subscribed == sub && published == old(published) + (if sub then emitted else [])
        invariant task.sent == old(task.sent) && task.closeCode == old(task.closeCode)
        decreases |task.pending|
      {
        ReadProgressStep(state0, pending0, k, emitted, task.state, task.pending);
        emitted := emitted + StepEvents(task.pending[0]);
        ReadOnce(task);
        k := k + 1;
      }
      ReadProgressDone(state0, pending0, k, emitted, task.state, task.pending);
    }

    /** One round of the read loop: receive the next result and publish it. */
    method ReadOnce(task: WebSocketTask)
      requires task.pending != []
      modifies this`published, task
      ensures published == old(published) + (if subscribed then StepEvents(old(task.pending[0])) else [])
      ensures task.state == old(task.pending[0].stateAfter) && task.pending == old(task.pending[1..])
      ensures task.sent == old(task.sent) && task.closeCode == old(task.closeCode)
    {
      var outcome := task.Receive();
      PublishReceived(outcome, task.state);
    }

    /** What one receive publishes. */
    method PublishReceived(outcome: ReceiveOutcome, state: TaskState)
      modifies this`published
      ensures published == old(published) + (if subscribed then StepEvents(ReceiveStep(outcome, state)) else [])
    {
      match outcome {
        case Received(DataMessage(b)) => Publish(DataFrame(b));
        case Received(StringMessage(t)) => Publish(StringFrame(t));
        case ReceiveFailed(e) =>
          if state == Running {
            Publish(ErrorEvent(Underlying(e)));
          }
      }
    }

    /** `didOpenWithProtocol`: publish `connected`. */
    method DidOpen()
      modifies this`published
      ensures published == old(published) + (if subscribed then [Connected] else [])
    {
      Publish(Connected);
    }

    /** `didCloseWith`: publish the close code and the reason as text. */
    method DidClose(closeCode: int, reason: Option<seq<Byte>>)
      modifies this`published
      ensures published == old(published) + (if subscribed then [Disconnected(closeCode, CloseReason(reason))] else [])
    {
      Publish(Disconnected(closeCode, CloseReason(reason)));
    }

    /** `didCompleteWithError`: publish the classified error, nothing for a
        clean completion. */
    method DidCompleteWithError(error: Option<NSError>)
      modifies this`published
      ensures published == old(published) + (if subscribed && error.Some? then [CompletionEvent(error).value] else [])
    {
      if error.Some? {
        Publish(ErrorEvent(Classify(error.value)));
      }
    }
  }
}
