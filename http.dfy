/**
 * Stand-ins for the parts of the `http` crate the core touches: a URI split into
 * its origin (scheme and authority, kept as opaque text) and an optional
 * path-and-query, and a request object whose URI is replaced in place.
 */
module Http {
  import opened Wrappers
  import opened Text

  /** A path plus an optional query; `path` never contains the `?` that starts the query. */
  datatype PathAndQuery = PathAndQuery(path: string, query: Option<string>)
  {
    predicate Valid() {
      '?' !in path
    }

    /** The text form: the path, then `?` and the query when there is one. */
    function ToString(): string {
      match query
      case None => path
      case Some(q) => path + "?" + q
    }

    /**
     * The path as `http` prints it: a `/` is put in front of a path that is
     * empty or starts with neither `/` nor `*`.
     */
    function DisplayPath(): (r: string)
      ensures r == path || r == "/" + path
      ensures |r| > 0 && (r[0] == '/' || r[0] == '*')
      ensures r == path <==> |path| > 0 && (path[0] == '/' || path[0] == '*')
    {
      if |path| > 0 && (path[0] == '/' || path[0] == '*') then path else "/" + path
    }

    /** The text `http` prints for a path-and-query (its `Display`). */
    function Display(): string {
      PathAndQuery(DisplayPath(), query).ToString()
    }
  }

  /** A path-and-query whose path starts with `/` prints as its own text. */
  lemma DisplayOfRootedPath(pq: PathAndQuery)
    requires |pq.path| > 0 && pq.path[0] == '/'
    ensures pq.Display() == pq.ToString()
  {
  }

  /** Printing keeps a path without `?` free of `?`. */
  lemma DisplayPathValid(pq: PathAndQuery)
    requires pq.Valid()
    ensures PathAndQuery(pq.DisplayPath(), pq.query).Valid()
  {
    if pq.DisplayPath() != pq.path {
      assert pq.DisplayPath() == "/" + pq.path;
    }
  }

  /** A URI: opaque origin text and, when present, its path and query. */
  datatype Uri = Uri(origin: string, pathAndQuery: Option<PathAndQuery>)

  /** Splits path-and-query text at its first `?`, as `PathAndQuery::try_from` does. */
  function SplitPathAndQuery(s: string): (pq: PathAndQuery)
    ensures pq.Valid()
    ensures pq.ToString() == s
  {
    var i := FirstIndexOf(s, '?');
    if i == |s| then
      assert s[..i] == s;
      PathAndQuery(s, None)
    else
      assert s == s[..i] + "?" + s[i + 1..];
      PathAndQuery(s[..i], Some(s[i + 1..]))
  }

  /** Splitting the text form of a valid path-and-query gives it back. */
  lemma SplitToString(pq: PathAndQuery)
    requires pq.Valid()
    ensures SplitPathAndQuery(pq.ToString()) == pq
  {
    var s := pq.ToString();
    match pq.query
    case None =>
      assert s == pq.path;
      FirstIndexAbsent(pq.path, '?');
    case Some(q) =>
      assert s == pq.path + ("?" + q);
      FirstIndexAfter(pq.path, "?" + q, '?');
      assert FirstIndexOf("?" + q, '?') == 0;
      assert s[..|pq.path|] == pq.path;
      assert s[|pq.path| + 1..] == q;
  }

  /** The standard HTTP methods (`http::Method`'s constants). */
  datatype Method = OPTIONS | GET | POST | PUT | DELETE | HEAD | TRACE | CONNECT | PATCH

  /** A request; its URI is replaced in place by the appservice extension. */
  class HttpRequest {
    var httpMethod: Method
    var uri: Uri
    var headers: seq<(string, string)>
    var body: seq<u8>

    constructor (httpMethod: Method, uri: Uri, headers: seq<(string, string)>, body: seq<u8>)
      ensures this.httpMethod == httpMethod && this.uri == uri
      ensures this.headers == headers && this.body == body
    {
      this.httpMethod := httpMethod;
      this.uri := uri;
      this.headers := headers;
      this.body := body;
    }
  }

  /**
   * The checks the `http` builders perform that the core relies on: parsing a URI
   * from text, accepting a header value, accepting path-and-query text. They are
   * collaborators, so the model takes them as parameters.
   */
  datatype HttpChecks = HttpChecks(
    parseUri: string -> Option<Uri>,
    headerValueOk: string -> bool,
    pathAndQueryOk: string -> bool)
}
