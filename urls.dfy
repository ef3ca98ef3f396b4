/** URLs as the components the client inspects and rewrites. */
module Urls {
  import opened Wrappers

  /** One `name=value` pair of a URL query; the value may be absent. */
  datatype QueryItem = QueryItem(name: string, value: Option<string>)

  /** A parsed URL: scheme, optional host, path as its list of segments, and
      query items in order. */
  datatype Url = Url(scheme: string, host: Option<string>, path: seq<string>, query: seq<QueryItem>)

  /** Foundation's `appendingPathComponent`: one more path segment. */
  function AppendingPathComponent(url: Url, component: string): Url {
    url.(path := url.path + [component])
  }

  /** Foundation's `lastPathComponent`: the last segment, or "" for an empty path. */
  function LastPathComponent(url: Url): string {
    if url.path == [] then "" else url.path[|url.path| - 1]
  }

  /** Foundation's `deletingLastPathComponent`: drop the last segment, if any. */
  function DeletingLastPathComponent(url: Url): Url {
    if url.path == [] then url else url.(path := url.path[..|url.path| - 1])
  }
}
