/**
 * The endpoint-independent core: the access-token policy, the authentication
 * schemes and endpoint metadata, the Matrix version model with its partial
 * order, and the appservice identity-assertion extension.
 */
module Api {
  import opened Wrappers
  import opened Text
  import opened Http

  // ---------------------------------------------------------------------------
  // Access-token policy
  // ---------------------------------------------------------------------------

  /** Whether an access token is added to an outgoing request. */
  datatype SendAccessToken =
    | IfRequired(token: string)  // only when the endpoint requires one
    | Always(token: string)      // always
    | None                       // never; an endpoint that needs one then fails

  /** The token to send to an endpoint that requires one. */
  function GetRequiredForEndpoint(t: SendAccessToken): (r: Option<string>)
    ensures r.Some? <==> !t.None?
    ensures r.Some? ==> r.value == t.token
  {
    match t
    case IfRequired(tok) => Some(tok)
    case Always(tok) => Some(tok)
    case None => Option.None
  }

  /** The token to send to an endpoint that does not require one. */
  function GetNotRequiredForEndpoint(t: SendAccessToken): (r: Option<string>)
    ensures r.Some? <==> t.Always?
    ensures r.Some? ==> r.value == t.token
  {
    match t
    case Always(tok) => Some(tok)
    case IfRequired(_) => Option.None
    case None => Option.None
  }

  /** A token handed out when not required is also handed out when required. */
  lemma NotRequiredImpliesRequired(t: SendAccessToken)
    ensures GetNotRequiredForEndpoint(t).Some? ==>
              GetRequiredForEndpoint(t) == GetNotRequiredForEndpoint(t)
    ensures !GetRequiredForEndpoint(t).Some? ==> !GetNotRequiredForEndpoint(t).Some?
  {
  }

  // ---------------------------------------------------------------------------
  // Authentication scheme and endpoint metadata
  // ---------------------------------------------------------------------------

  /** How an endpoint authenticates its callers. */
  datatype AuthScheme =
    | None                  // no authentication
    | AccessToken           // `Authorization` header or `access_token` query parameter
    | ServerSignatures      // X-Matrix signatures of the federation API
    | QueryOnlyAccessToken  // `access_token` query parameter only

  /** The fixed description of one endpoint. */
  datatype Metadata = Metadata(
    description: string,
    httpMethod: Method,
    name: string,
    path: string,                  // deprecated single path
    unstablePath: Option<string>,
    r0Path: Option<string>,
    stablePath: Option<string>,
    rateLimited: bool,
    authentication: AuthScheme,
    added: Option<MatrixVersion>,
    deprecated: Option<MatrixVersion>,
    removed: Option<MatrixVersion>)

  // ---------------------------------------------------------------------------
  // Matrix versions
  // ---------------------------------------------------------------------------

  /** The Matrix specification versions the library knows. */
  datatype MatrixVersion = V1_0 | V1_1 | V1_2

  datatype UnknownVersionError = UnknownVersionError

  /** The wire tokens that name version 1.0, including the legacy `r0` releases. */
  const V1_0_TOKENS: set<string> := {"v1.0", "r0.5.0", "r0.6.0", "r0.6.1"}

  /** Parses a wire version token. */
  function VersionFromString(value: string): (r: Result<MatrixVersion, UnknownVersionError>)
    ensures r == Ok(V1_0) <==> value in V1_0_TOKENS
    ensures r == Ok(V1_1) <==> value == "v1.1"
    ensures r == Ok(V1_2) <==> value == "v1.2"
    ensures r.Err? <==> value !in V1_0_TOKENS + {"v1.1", "v1.2"}
  {
    if value in V1_0_TOKENS then Ok(V1_0)
    else if value == "v1.1" then Ok(V1_1)
    else if value == "v1.2" then Ok(V1_2)
    else Err(UnknownVersionError)
  }

  /** A version as its major and minor numbers. */
  datatype VersionRepr = VersionRepr(major: u8, minor: u8)

  function Repr(v: MatrixVersion): (r: VersionRepr)
    ensures r.major == 1
  {
    match v
    case V1_0 => VersionRepr(1, 0)
    case V1_1 => VersionRepr(1, 1)
    case V1_2 => VersionRepr(1, 2)
  }

  /** Distinct versions have distinct major-minor pairs. */
  lemma ReprInjective(v: MatrixVersion, w: MatrixVersion)
    ensures Repr(v) == Repr(w) ==> v == w
  {
  }

  /** The decimal digits of `n`, most significant first, without leading zeros. */
  function Decimal(n: nat): (s: string)
    ensures |s| >= 1
    ensures forall i :: 0 <= i < |s| ==> '0' <= s[i] <= '9'
  {
    var d := ['0' + (n % 10) as char];
    if n < 10 then d
    else
      var p := Decimal(n / 10);
      assert forall i :: 0 <= i < |p| ==> (p + d)[i] == p[i];
      p + d
  }

  /** The number a string of decimal digits denotes. */
  function DecimalValue(s: string): nat
  {
    if s == [] then 0
    else
      var last := s[|s| - 1] as int - '0' as int;
      DecimalValue(s[..|s| - 1]) * 10 + (if 0 <= last then last else 0)
  }

  lemma {:induction false} DecimalValueOfDecimal(n: nat)
    ensures DecimalValue(Decimal(n)) == n
  {
    if n >= 10 {
      var p, d := Decimal(n / 10), ['0' + (n % 10) as char];
      assert (p + d)[..|p + d| - 1] == p;
      DecimalValueOfDecimal(n / 10);
    }
  }

  /** The text form of a version representation, `v{major}.{minor}`. */
  function RenderRepr(r: VersionRepr): string {
    "v" + Decimal(r.major as nat) + "." + Decimal(r.minor as nat)
  }

  /** The text form of a version, as `Display` writes it. */
  function VersionToString(v: MatrixVersion): string {
    RenderRepr(Repr(v))
  }

  /** Parsing the text form of a version gives that version back. */
  lemma DisplayRoundTrip(v: MatrixVersion)
    ensures VersionFromString(VersionToString(v)) == Ok(v)
  {
    assert Decimal(0) == "0" && Decimal(1) == "1" && Decimal(2) == "2";
    match v
    case V1_0 => assert VersionToString(v) == "v1.0";
    case V1_1 => assert VersionToString(v) == "v1.1";
    case V1_2 => assert VersionToString(v) == "v1.2";
  }

  /** A legacy token and its canonical text form parse to the same version. */
  lemma LegacyTokensNormalize(token: string)
    requires VersionFromString(token).Ok?
    ensures VersionFromString(VersionToString(VersionFromString(token).value)) ==
            VersionFromString(token)
  {
    DisplayRoundTrip(VersionFromString(token).value);
  }

  lemma {:induction false} DigitsSplit(a: string, b: string, c: string, d: string)
    requires forall i :: 0 <= i < |a| ==> '0' <= a[i] <= '9'
    requires forall i :: 0 <= i < |c| ==> '0' <= c[i] <= '9'
    requires a + "." + b == c + "." + d
    ensures a == c && b == d
  {
    var s := a + "." + b;
    assert '.' !in a && '.' !in c;
    FirstIndexAfter(a, "." + b, '.');
    FirstIndexAfter(c, "." + d, '.');
    assert a + "." + b == a + ("." + b) && c + "." + d == c + ("." + d);
    assert FirstIndexOf("." + b, '.') == 0 && FirstIndexOf("." + d, '.') == 0;
    assert a == s[..|a|] == c;
    assert b == s[|a| + 1..] == d;
  }

  /** The text form determines the representation: `Display` is unambiguous. */
  lemma RenderReprInjective(r: VersionRepr, q: VersionRepr)
    requires RenderRepr(r) == RenderRepr(q)
    ensures r == q
  {
    var a, b := Decimal(r.major as nat), Decimal(r.minor as nat);
    var c, d := Decimal(q.major as nat), Decimal(q.minor as nat);
    assert ("v" + a + "." + b)[1..] == a + "." + b;
    assert ("v" + c + "." + d)[1..] == c + "." + d;
    DigitsSplit(a, b, c, d);
    DecimalValueOfDecimal(r.major as nat);
    DecimalValueOfDecimal(r.minor as nat);
    DecimalValueOfDecimal(q.major as nat);
    DecimalValueOfDecimal(q.minor as nat);
  }

  lemma DisplayInjective(v: MatrixVersion, w: MatrixVersion)
    requires VersionToString(v) == VersionToString(w)
    ensures v == w
  {
    RenderReprInjective(Repr(v), Repr(w));
  }

  // ---------------------------------------------------------------------------
  // The partial order on versions
  // ---------------------------------------------------------------------------

  datatype Ordering = Less | Equal | Greater

  /** The three-way comparison of the minor numbers. */
  function CompareMinor(a: u8, b: u8): (o: Ordering)
    ensures o == Less <==> a < b
    ensures o == Equal <==> a == b
    ensures o == Greater <==> a > b
  {
    if a < b then Less else if a == b then Equal else Greater
  }

  /** `partial_cmp`: versions of different majors are incomparable. */
  function PartialCmp(a: VersionRepr, b: VersionRepr): (r: Option<Ordering>)
    ensures !r.Some? <==> a.major != b.major
    ensures r == Some(Less) <==> a.major == b.major && a.minor < b.minor
    ensures r == Some(Equal) <==> a == b
    ensures r == Some(Greater) <==> a.major == b.major && a.minor > b.minor
  {
    if a.major != b.major then Option.None else Some(CompareMinor(a.minor, b.minor))
  }

  function Flip(o: Ordering): Ordering {
    match o
    case Less => Greater
    case Equal => Equal
    case Greater => Less
  }

  /** Swapping the operands flips the comparison; incomparability is symmetric. */
  lemma PartialCmpFlip(a: VersionRepr, b: VersionRepr)
    ensures PartialCmp(b, a) ==
      match PartialCmp(a, b)
      case None => Option.None
      case Some(o) => Some(Flip(o))
  {
  }

  /** Rust's `>=` on a partial order: the comparison is `Greater` or `Equal`. */
  function ReprGe(a: VersionRepr, b: VersionRepr): (r: bool)
    ensures r <==> a.major == b.major && a.minor >= b.minor
  {
    PartialCmp(a, b) == Some(Greater) || PartialCmp(a, b) == Some(Equal)
  }

  /** Across majors neither `>=` nor `<=` holds. */
  lemma ReprGeIncomparable(a: VersionRepr, b: VersionRepr)
    requires a.major != b.major
    ensures !ReprGe(a, b) && !ReprGe(b, a)
  {
  }

  lemma ReprGeIsPartialOrder(a: VersionRepr, b: VersionRepr, c: VersionRepr)
    ensures ReprGe(a, a)
    ensures ReprGe(a, b) && ReprGe(b, a) ==> a == b
    ensures ReprGe(a, b) && ReprGe(b, c) ==> ReprGe(a, c)
  {
  }

  /** `a` can serve every endpoint `b` can: same major and a minor at least as high. */
  function IsSupersetOf(a: MatrixVersion, b: MatrixVersion): (r: bool)
    ensures r <==> Repr(a).major == Repr(b).major && Repr(a).minor >= Repr(b).minor
  {
    ReprGe(Repr(a), Repr(b))
  }

  lemma IsSupersetOfIsPartialOrder(a: MatrixVersion, b: MatrixVersion, c: MatrixVersion)
    ensures IsSupersetOf(a, a)
    ensures IsSupersetOf(a, b) && IsSupersetOf(b, a) ==> a == b
    ensures IsSupersetOf(a, b) && IsSupersetOf(b, c) ==> IsSupersetOf(a, c)
  {
  }

  /** v1.2 covers v1.1, but v1.1 does not cover v1.2. */
  lemma IsSupersetOfExample()
    ensures IsSupersetOf(V1_2, V1_1) && !IsSupersetOf(V1_1, V1_2)
  {
  }

  // ---------------------------------------------------------------------------
  // Appservice identity assertion
  // ---------------------------------------------------------------------------

  datatype HttpError = InvalidUri | InvalidHeaderValue

  /** The errors of turning a request into an HTTP request. */
  datatype IntoHttpError =
    | NeedsAuthentication
    | Query(detail: string)   // the query-string serializer failed
    | Http(cause: HttpError)  // the `http` builders rejected a part
    | Other(detail: string)   // any other failure of an inner conversion

  /** The path-and-query text once `userIdQuery` has been added to it. */
  function PathAndQueryWithUserId(pq: Option<PathAndQuery>, userIdQuery: string): string {
    match pq
    case Some(p) =>
      (match p.query
       case Some(_) => p.Display() + "&" + userIdQuery
       case None => p.Display() + "?" + userIdQuery)
    case None => "/?" + userIdQuery
  }

  /**
   * Reading the merged text back keeps the path as `http` prints it (`/` when
   * there was none) and puts `userIdQuery` in the query: after the old query
   * and `&` when there was one, alone otherwise.
   */
  lemma UserIdQueryMerged(pq: Option<PathAndQuery>, userIdQuery: string)
    requires pq.Some? ==> pq.value.Valid()
    ensures SplitPathAndQuery(PathAndQueryWithUserId(pq, userIdQuery)) ==
      match pq
      case None => PathAndQuery("/", Some(userIdQuery))
      case Some(p) =>
        PathAndQuery(p.DisplayPath(), Some(
          match p.query
          case None => userIdQuery
          case Some(q) => q + "&" + userIdQuery))
  {
    var s := PathAndQueryWithUserId(pq, userIdQuery);
    match pq
    case None =>
      assert s == "/" + ("?" + userIdQuery);
      FirstIndexAfter("/", "?" + userIdQuery, '?');
      assert FirstIndexOf("?" + userIdQuery, '?') == 0;
      assert s[..1] == "/" && s[2..] == userIdQuery;
    case Some(p) =>
      var path := p.DisplayPath();
      DisplayPathValid(p);
      var q' := match p.query
        case None => userIdQuery
        case Some(q) => q + "&" + userIdQuery;
      assert s == path + ("?" + q');
      FirstIndexAfter(path, "?" + q', '?');
      assert FirstIndexOf("?" + q', '?') == 0;
      assert s[..|path|] == path;
      assert s[|path| + 1..] == q';
  }

  /** The old path-and-query as `http` prints it (or `/`) is a prefix of the merged text. */
  lemma UserIdQueryKeepsPrefix(pq: Option<PathAndQuery>, userIdQuery: string)
    ensures var s := PathAndQueryWithUserId(pq, userIdQuery);
      match pq
      case None => s == "/?" + userIdQuery
      case Some(p) =>
        |p.Display()| < |s| && s[..|p.Display()|] == p.Display() &&
        s[|p.Display()|..] == (if p.query.Some? then "&" else "?") + userIdQuery
  {
  }

  /** On a path that starts with `/`, the old text is kept exactly as it was. */
  lemma UserIdQueryOnRootedPath(p: PathAndQuery, userIdQuery: string)
    requires |p.path| > 0 && p.path[0] == '/'
    ensures PathAndQueryWithUserId(Some(p), userIdQuery) ==
      p.ToString() + (if p.query.Some? then "&" else "?") + userIdQuery
  {
    DisplayOfRootedPath(p);
  }

  /**
   * Builds the request with `inner` (the endpoint's own conversion, already run)
   * and adds the encoded `user_id` query, replacing the request's URI in place.
   */
  method TryIntoHttpRequestWithUserId(
    inner: Result<HttpRequest, IntoHttpError>,
    userIdQuery: Result<string, IntoHttpError>,
    checks: HttpChecks)
    returns (r: Result<HttpRequest, IntoHttpError>)
    modifies if inner.Ok? && userIdQuery.Ok? then {inner.value} else {}
    ensures inner.Err? ==> r == Err(inner.error)
    ensures inner.Ok? && userIdQuery.Err? ==>
      r == Err(userIdQuery.error) && inner.value.uri == old(inner.value.uri)
    ensures inner.Ok? && userIdQuery.Ok? ==>
      var req := inner.value;
      var s := PathAndQueryWithUserId(old(req.uri.pathAndQuery), userIdQuery.value);
      if checks.pathAndQueryOk(s) then
        r == Ok(req) && req.uri == Uri(old(req.uri.origin), Some(SplitPathAndQuery(s)))
      else
        r == Err(Http(InvalidUri)) && req.uri == old(req.uri)
    ensures inner.Ok? ==>
      var req := inner.value;
      req.httpMethod == old(req.httpMethod) && req.headers == old(req.headers) &&
      req.body == old(req.body)
  {
    if inner.Err? {
      return Err(inner.error);
    }
    var httpRequest := inner.value;
    if userIdQuery.Err? {
      return Err(userIdQuery.error);
    }
    var parts := httpRequest.uri;
    var withUserId := PathAndQueryWithUserId(parts.pathAndQuery, userIdQuery.value);
    if !checks.pathAndQueryOk(withUserId) {
      return Err(Http(InvalidUri));
    }
    parts := parts.(pathAndQuery := Some(SplitPathAndQuery(withUserId)));
    httpRequest.uri := parts;
    r := Ok(httpRequest);
  }
}
