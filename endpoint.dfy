/** The endpoint transformer: the AppSync GraphQL endpoint, its real-time
    (WebSocket) counterpart, and the WebSocket scheme coercion. */
module Endpoint {
  import opened Wrappers
  import opened Text
  import opened Urls

  /** Host label of the GraphQL API endpoint. */
  const ApiMarker := "appsync-api"
  /** Host label of the real-time endpoint. */
  const RealtimeMarker := "appsync-realtime-api"
  /** Hosts with this suffix are AppSync's own domains. */
  const AwsDomain := "amazonaws.com"
  /** Path segment that marks the real-time endpoint of a custom domain. */
  const RealtimeSegment := "realtime"

  /** `useWebSocketProtocolScheme`: a `ws`/`wss` URL is kept, `http` becomes
      `ws`, and any other scheme (including `https`) becomes `wss`. */
  function UseWebSocketProtocolScheme(url: Url): (r: Url)
    ensures url.scheme == "ws" || url.scheme == "wss" ==> r == url
    ensures url.scheme == "http" ==> r == url.(scheme := "ws")
    ensures url.scheme !in {"ws", "wss", "http"} ==> r == url.(scheme := "wss")
    ensures r.scheme == "ws" || r.scheme == "wss"
    ensures r.host == url.host && r.path == url.path && r.query == url.query
  {
    if url.scheme == "ws" || url.scheme == "wss" then url
    else url.(scheme := if url.scheme == "http" then "ws" else "wss")
  }

  /** Coercing twice is coercing once. */
  lemma UseWebSocketProtocolSchemeIdempotent(url: Url)
    ensures UseWebSocketProtocolScheme(UseWebSocketProtocolScheme(url)) == UseWebSocketProtocolScheme(url)
  {
  }

  /** `appSyncRealTimeEndpoint`: an AppSync host has `appsync-api` rewritten to
      `appsync-realtime-api` (staying in the AppSync domain); any other host
      gets a `realtime` path segment; a URL without host is kept. */
  function AppSyncRealTimeEndpoint(url: Url): (r: Url)
    ensures url.host.None? ==> r == url
    ensures url.host.Some? && !HasSuffix(url.host.value, AwsDomain) ==>
              r == url.(path := url.path + [RealtimeSegment])
    ensures url.host.Some? && HasSuffix(url.host.value, AwsDomain) ==>
              && r == url.(host := Some(ReplaceAll(url.host.value, ApiMarker, RealtimeMarker)))
              && HasSuffix(r.host.value, AwsDomain)
  {
    match url.host
    case None => url
    case Some(host) =>
      if !HasSuffix(host, AwsDomain) then AppendingPathComponent(url, RealtimeSegment)
      else
        MarkersStayOutOfDomain();
        ReplaceKeepsSuffix(host, ApiMarker, RealtimeMarker, AwsDomain);
        url.(host := Some(ReplaceAll(host, ApiMarker, RealtimeMarker)))
  }

  /** `appSyncApiEndpoint`: an AppSync host has `appsync-realtime-api` rewritten
      back to `appsync-api`; another host loses a trailing `realtime` segment
      (and nothing else); a URL without host is kept. */
  function AppSyncApiEndpoint(url: Url): (r: Url)
    ensures url.host.None? ==> r == url
    ensures url.host.Some? && !HasSuffix(url.host.value, AwsDomain) ==>
              r == if LastPathComponent(url) == RealtimeSegment then url.(path := url.path[..|url.path| - 1]) else url
    ensures url.host.Some? && HasSuffix(url.host.value, AwsDomain) ==>
              && r == url.(host := Some(ReplaceAll(url.host.value, RealtimeMarker, ApiMarker)))
              && HasSuffix(r.host.value, AwsDomain)
    ensures r.host.Some? <==> url.host.Some?
  {
    match url.host
    case None => url
    case Some(host) =>
      if !HasSuffix(host, AwsDomain) then
        if LastPathComponent(url) == RealtimeSegment then DeletingLastPathComponent(url) else url
      else
        MarkersStayOutOfDomain();
        ReplaceKeepsSuffix(host, RealtimeMarker, ApiMarker, AwsDomain);
        url.(host := Some(ReplaceAll(host, RealtimeMarker, ApiMarker)))
  }

  /** Neither marker overlaps itself, occurs in the AppSync domain suffix, or
      runs into it. */
  lemma MarkersStayOutOfDomain()
    ensures Unbordered(ApiMarker) && Unbordered(RealtimeMarker)
    ensures !Contains(AwsDomain, ApiMarker) && !Contains(AwsDomain, RealtimeMarker)
    ensures NoOverlapInto(ApiMarker, AwsDomain) && NoOverlapInto(RealtimeMarker, AwsDomain)
  {
    ApiMarkerUnbordered();
    RealtimeMarkerUnbordered();
    ApiMarkerNotInDomain();
    ApiMarkerStopsBeforeDomain();
    RealtimeMarkerStopsBeforeDomain();
  }

  lemma ApiMarkerUnbordered()
    ensures Unbordered(ApiMarker)
  {
    forall d | 0 < d < |ApiMarker| ensures ApiMarker[d..] != ApiMarker[..|ApiMarker| - d] {
      assert ApiMarker[d..][0] == ApiMarker[d];
      if d == 8 { assert ApiMarker[d..][1] == 'p'; assert ApiMarker[d..][2] == 'i'; }
    }
  }

  lemma RealtimeMarkerUnbordered()
    ensures Unbordered(RealtimeMarker)
  {
    forall d | 0 < d < |RealtimeMarker| ensures RealtimeMarker[d..] != RealtimeMarker[..|RealtimeMarker| - d] {
      assert RealtimeMarker[d..][0] == RealtimeMarker[d];
      if d == 10 { assert RealtimeMarker[d..][1] == 'l'; }
      if d == 17 { assert RealtimeMarker[d..][2] == 'i'; }
    }
  }

  lemma ApiMarkerNotInDomain()
    ensures !Contains(AwsDomain, ApiMarker)
  {
    forall i: nat | i <= |AwsDomain| ensures !OccursAt(AwsDomain, ApiMarker, i) {
      if i + |ApiMarker| <= |AwsDomain| {
        assert AwsDomain[i..i + |ApiMarker|][1] == AwsDomain[i + 1];
      }
    }
  }

  lemma ApiMarkerStopsBeforeDomain()
    ensures NoOverlapInto(ApiMarker, AwsDomain)
  {
    forall k | 0 < k < |ApiMarker| && k <= |AwsDomain|
      ensures ApiMarker[|ApiMarker| - k..] != AwsDomain[..k]
    {
      assert ApiMarker[|ApiMarker| - k..][0] == ApiMarker[|ApiMarker| - k];
      if k == 3 { assert ApiMarker[|ApiMarker| - k..][1] == 'p'; }
    }
  }

  lemma RealtimeMarkerStopsBeforeDomain()
    ensures NoOverlapInto(RealtimeMarker, AwsDomain)
  {
    forall k | 0 < k < |RealtimeMarker| && k <= |AwsDomain|
      ensures RealtimeMarker[|RealtimeMarker| - k..] != AwsDomain[..k]
    {
      if k == 3 {
        assert RealtimeMarker[|RealtimeMarker| - k..][1] == 'p';
      } else if k == 10 {
        assert RealtimeMarker[|RealtimeMarker| - k..][1] == 'l';
      } else {
        RealtimeMarkerLateA(k);
        HeadsDiffer(RealtimeMarker, AwsDomain, k);
      }
    }
  }

  /** Within the last thirteen characters of `appsync-realtime-api`, an `a`
      starts only its last three or last ten. */
  lemma RealtimeMarkerLateA(k: nat)
    requires 0 < k <= |AwsDomain| && k != 3 && k != 10
    ensures RealtimeMarker[|RealtimeMarker| - k] != AwsDomain[0]
  {
  }

  /** A suffix and a prefix of the same length differ when their first
      characters do. */
  lemma HeadsDiffer(p: string, s: string, k: nat)
    requires 0 < k <= |p| && k <= |s| && p[|p| - k] != s[0]
    ensures p[|p| - k..] != s[..k]
  {
    assert p[|p| - k..][0] == p[|p| - k];
  }

  /** `appSyncApiEndpoint` undoes `appSyncRealTimeEndpoint`: an AppSync host
      (that did not already name the real-time endpoint) is restored, and the
      `realtime` segment appended to any other host is removed again. */
  lemma ApiEndpointUndoesRealTimeEndpoint(url: Url)
    requires url.host.Some? && HasSuffix(url.host.value, AwsDomain) ==> !Contains(url.host.value, RealtimeMarker)
    ensures AppSyncApiEndpoint(AppSyncRealTimeEndpoint(url)) == url
  {
    if url.host.Some? && HasSuffix(url.host.value, AwsDomain) {
      MarkersStayOutOfDomain();
      ReplaceRoundTrip(url.host.value, ApiMarker, RealtimeMarker);
    } else if url.host.Some? {
      assert url.(path := url.path + [RealtimeSegment]).path[..|url.path|] == url.path;
    }
  }

  /** Conversely, `appSyncRealTimeEndpoint` undoes `appSyncApiEndpoint` on URLs
      that name a real-time endpoint: an AppSync host without `appsync-api`,
      or another host whose path ends in `realtime`. */
  lemma RealTimeEndpointUndoesApiEndpoint(url: Url)
    requires url.host.Some?
    requires HasSuffix(url.host.value, AwsDomain) ==> !Contains(url.host.value, ApiMarker)
    requires !HasSuffix(url.host.value, AwsDomain) ==> LastPathComponent(url) == RealtimeSegment
    ensures AppSyncRealTimeEndpoint(AppSyncApiEndpoint(url)) == url
  {
    if HasSuffix(url.host.value, AwsDomain) {
      MarkersStayOutOfDomain();
      ReplaceRoundTrip(url.host.value, RealtimeMarker, ApiMarker);
    } else {
      assert url.path == url.path[..|url.path| - 1] + [RealtimeSegment];
    }
  }

  /** The credential host an interceptor derives from the client's URL is
      the host of the GraphQL endpoint the client was built with. */
  lemma ApiHostOfClientUrl(api: Url)
    requires api.host.Some?
    requires HasSuffix(api.host.value, AwsDomain) ==> !Contains(api.host.value, RealtimeMarker)
    ensures AppSyncApiEndpoint(UseWebSocketProtocolScheme(AppSyncRealTimeEndpoint(api))).host == api.host
  {
    ApiEndpointUndoesRealTimeEndpoint(api);
    var rt := AppSyncRealTimeEndpoint(api);
    assert AppSyncApiEndpoint(UseWebSocketProtocolScheme(rt)).host == AppSyncApiEndpoint(rt).host;
  }
}
