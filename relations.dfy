/**
 * The `get_events_relating_to_event` endpoint:
 * `GET /_matrix/client/unstable/rooms/:room_id/relations/:event_id/:rel_type/:event_type`.
 * The request is turned into a URL whose trailing path segments follow the
 * optional relation type and event type, and a server turns the path
 * arguments it extracted back into a request.
 */
module Relations {
  import opened Wrappers
  import opened Text
  import opened Http
  import opened PercentEncoding
  import opened Api

  /** Identifiers and event-type names as their UTF-8 bytes; validation is outside the model. */
  type RoomId = seq<u8>
  type EventId = seq<u8>
  type RelationType = seq<u8>
  type MessageLikeEventType = seq<u8>

  /** A JSON-safe unsigned integer (`js_int::UInt`). */
  newtype UInt = x: int | 0 <= x < 0x20_0000_0000_0000

  /** An event as raw JSON text. */
  type RawEvent = string

  const UNSTABLE_PATH := "/_matrix/client/unstable/rooms/:room_id/relations/:event_id/:rel_type/:event_type"

  const METADATA := Metadata(
    description := "Get the related events for a given event, with optional filters.",
    httpMethod := GET,
    name := "get_events_relating_to_event",
    path := UNSTABLE_PATH,
    unstablePath := Some(UNSTABLE_PATH),
    r0Path := Option.None,
    stablePath := Option.None,
    rateLimited := false,
    authentication := AuthScheme.AccessToken,
    added := Option.None,
    deprecated := Option.None,
    removed := Option.None)

  /**
   * A request. The outgoing and the incoming request have the same fields, so
   * one type serves both.
   */
  datatype Request = Request(
    roomId: RoomId,
    eventId: EventId,
    relType: Option<RelationType>,
    eventType: Option<MessageLikeEventType>,  // ignored when `relType` is absent
    from: Option<string>,
    to: Option<string>,
    limit: Option<UInt>)

  datatype Response = Response(
    chunk: seq<RawEvent>,
    nextBatch: Option<string>,
    prevBatch: Option<string>)

  /** A request for every relation of the given event, with no filter or pagination. */
  function NewRequest(roomId: RoomId, eventId: EventId): (r: Request)
    ensures r.roomId == roomId && r.eventId == eventId
    ensures r.relType.None? && r.eventType.None?
    ensures r.from.None? && r.to.None? && r.limit.None?
  {
    Request(roomId, eventId, Option.None, Option.None, Option.None, Option.None, Option.None)
  }

  /** A response holding `chunk` and no pagination tokens. */
  function NewResponse(chunk: seq<RawEvent>): (r: Response)
    ensures r.chunk == chunk && r.nextBatch.None? && r.prevBatch.None?
  {
    Response(chunk, Option.None, Option.None)
  }

  // ---------------------------------------------------------------------------
  // Outgoing: request to URL
  // ---------------------------------------------------------------------------

  /** The query fields; the query-string codec is a parameter of the model. */
  datatype RequestQuery = RequestQuery(from: Option<string>, to: Option<string>, limit: Option<UInt>)

  function QueryOf(req: Request): RequestQuery {
    RequestQuery(req.from, req.to, req.limit)
  }

  const ROOMS_PREFIX := "/_matrix/client/unstable/rooms/"

  /** The unstable path with the room and event ids encoded, as handed to path selection. */
  function UnstablePathFor(roomId: RoomId, eventId: EventId): string {
    ROOMS_PREFIX + Encode(roomId) + "/relations/" + Encode(eventId)
  }

  /** `strip_suffix('/').unwrap_or(base)`: at most one trailing `/` removed. */
  function StripTrailingSlash(base: string): (r: string)
    ensures base == r || base == r + "/"
    ensures (|base| > 0 && base[|base| - 1] == '/') <==> base == r + "/"
  {
    if |base| > 0 && base[|base| - 1] == '/' then
      assert base == base[..|base| - 1] + "/";
      base[..|base| - 1]
    else base
  }

  /** The optional trailing segments; `eventType` only counts when `relType` is present. */
  function TrailingSegments(req: Request): string {
    match req.relType
    case None => ""
    case Some(rel) =>
      "/" + Encode(rel) +
      (match req.eventType
       case None => ""
       case Some(ev) => "/" + Encode(ev))
  }

  /** `?` and the query string, or nothing when the query string is empty. */
  function QuerySuffix(queryString: string): (r: string)
    ensures r == "" <==> queryString == ""
    ensures r != "" ==> r[0] == '?' && r[1..] == queryString
  {
    if queryString == "" then "" else "?" + queryString
  }

  /** The URL the outgoing conversion builds. */
  function RequestUrl(baseUrl: string, selectedPath: string, req: Request, queryString: string): string {
    StripTrailingSlash(baseUrl) + selectedPath + TrailingSegments(req) + QuerySuffix(queryString)
  }

  /**
   * Grows the URL from the base, without a trailing `/`, and the selected path
   * by the trailing segments.
   */
  method BuildPath(baseUrl: string, selectedPath: string, req: Request) returns (url: string)
    ensures url == StripTrailingSlash(baseUrl) + selectedPath + TrailingSegments(req)
  {
    url := StripTrailingSlash(baseUrl) + selectedPath;
    ghost var prefix := url;
    if req.relType.Some? {
      var rel := Encode(req.relType.value);
      url := url + "/";
      url := url + rel;
      assert url == prefix + ("/" + rel);
      if req.eventType.Some? {
        var ev := Encode(req.eventType.value);
        ghost var withRel := url;
        url := url + "/";
        url := url + ev;
        assert url == withRel + ("/" + ev);
        assert TrailingSegments(req) == ("/" + rel) + ("/" + ev);
      } else {
        assert TrailingSegments(req) == "/" + rel;
      }
    } else {
      assert TrailingSegments(req) == "";
    }
  }

  /**
   * Builds the HTTP request. Path selection, the query encoder and the `http`
   * crate's checks are collaborators and come in as parameters.
   */
  method TryIntoHttpRequest(
    req: Request,
    baseUrl: string,
    accessToken: SendAccessToken,
    selectedPath: Result<string, IntoHttpError>,
    encodeQuery: RequestQuery -> Result<string, string>,
    checks: HttpChecks)
    returns (r: Result<HttpRequest, IntoHttpError>)
    ensures selectedPath.Err? ==> r == Err(selectedPath.error)
    ensures selectedPath.Ok? && encodeQuery(QueryOf(req)).Err? ==>
              r == Err(Query(encodeQuery(QueryOf(req)).error))
    ensures selectedPath.Ok? && encodeQuery(QueryOf(req)).Ok? ==>
              (r == Err(NeedsAuthentication) <==> accessToken.None?)
    ensures selectedPath.Ok? && encodeQuery(QueryOf(req)).Ok? && !accessToken.None? ==>
              var url := RequestUrl(baseUrl, selectedPath.value, req, encodeQuery(QueryOf(req)).value);
              var authorization := "Bearer " + accessToken.token;
              if checks.parseUri(url).None? then r == Err(Http(InvalidUri))
              else if !checks.headerValueOk(authorization) then r == Err(Http(InvalidHeaderValue))
              else
                r.Ok? && fresh(r.value) &&
                r.value.httpMethod == METADATA.httpMethod &&
                r.value.uri == checks.parseUri(url).value &&
                r.value.headers == [("content-type", "application/json"), ("authorization", authorization)] &&
                r.value.body == []
  {
    if selectedPath.Err? {
      return Err(selectedPath.error);
    }
    var url := BuildPath(baseUrl, selectedPath.value, req);
    var queryString := encodeQuery(QueryOf(req));
    if queryString.Err? {
      return Err(Query(queryString.error));
    }
    ghost var path := url;
    if queryString.value != "" {
      url := url + "?";
      url := url + queryString.value;
    }
    assert url == path + QuerySuffix(queryString.value);
    assert url == RequestUrl(baseUrl, selectedPath.value, req, queryString.value);
    var token := GetRequiredForEndpoint(accessToken);
    if token.None? {
      return Err(NeedsAuthentication);
    }
    var uri := checks.parseUri(url);
    if uri.None? {
      return Err(Http(InvalidUri));
    }
    var authorization := "Bearer " + token.value;
    if !checks.headerValueOk(authorization) {
      return Err(Http(InvalidHeaderValue));
    }
    var request := new HttpRequest(GET, uri.value,
      [("content-type", "application/json"), ("authorization", authorization)], []);
    r := Ok(request);
  }

  /** The URL is the base without its trailing `/`, then the selected path, then the rest. */
  lemma UrlStartsWithBase(baseUrl: string, selectedPath: string, req: Request, queryString: string)
    ensures var prefix := StripTrailingSlash(baseUrl) + selectedPath;
      var url := RequestUrl(baseUrl, selectedPath, req, queryString);
      |prefix| <= |url| && url[..|prefix|] == prefix &&
      url[|prefix|..] == TrailingSegments(req) + QuerySuffix(queryString)
  {
    var prefix := StripTrailingSlash(baseUrl) + selectedPath;
    assert RequestUrl(baseUrl, selectedPath, req, queryString) ==
           prefix + (TrailingSegments(req) + QuerySuffix(queryString));
  }

  /** The values of the present trailing segments: none, the relation type, or both. */
  function TrailingArgs(req: Request): seq<seq<u8>> {
    match req.relType
    case None => []
    case Some(rel) =>
      [rel] + (match req.eventType
               case None => []
               case Some(ev) => [ev])
  }

  /** The path arguments a request stands for: the two ids, then the trailing values. */
  function PathArgs(req: Request): seq<seq<u8>> {
    [req.roomId, req.eventId] + TrailingArgs(req)
  }

  /** Each piece preceded by `/`. */
  function Prefixed(pieces: seq<string>): string {
    if pieces == [] then "" else "/" + pieces[0] + Prefixed(pieces[1..])
  }

  lemma {:induction false} PrefixedJoin(x: string, pieces: seq<string>)
    ensures x + Prefixed(pieces) == Join([x] + pieces, '/')
    decreases |pieces|
  {
    if pieces != [] {
      PrefixedJoin(pieces[0], pieces[1..]);
      assert ([x] + pieces)[1..] == [pieces[0]] + pieces[1..] == pieces;
    }
  }

  function EncodeAll(args: seq<seq<u8>>): (r: seq<string>)
    ensures |r| == |args|
    ensures forall k :: 0 <= k < |args| ==> r[k] == Encode(args[k])
  {
    if args == [] then [] else [Encode(args[0])] + EncodeAll(args[1..])
  }

  /**
   * No trailing segment without a relation type; one `/`-prefixed segment with
   * a relation type alone; two, in order, with both.
   */
  lemma TrailingSegmentCount(req: Request)
    ensures var k := if req.relType.None? then 0 else if req.eventType.None? then 1 else 2;
      var t := TrailingSegments(req);
      |PathArgs(req)| == 2 + k && |TrailingArgs(req)| == k &&
      (k == 0 <==> t == "") &&
      (k > 0 ==> t[0] == '/' && Split(t[1..], '/') == EncodeAll(TrailingArgs(req)))
  {
    var args := TrailingArgs(req);
    var pieces := EncodeAll(args);
    TrailingAsPrefixed(req);
    if args != [] {
      forall k | 0 <= k < |pieces| ensures '/' !in pieces[k] {
        EncodeHasNoSeparator(args[k]);
      }
      SplitPrefixed(pieces);
    }
  }

  /** Pieces preceded by `/` split back into those pieces. */
  lemma SplitPrefixed(pieces: seq<string>)
    requires |pieces| >= 1
    requires forall k :: 0 <= k < |pieces| ==> '/' !in pieces[k]
    ensures var t := Prefixed(pieces); |t| >= 1 && t[0] == '/' && Split(t[1..], '/') == pieces
  {
    var t := Prefixed(pieces);
    PrefixedJoin(pieces[0], pieces[1..]);
    assert [pieces[0]] + pieces[1..] == pieces;
    assert t == "/" + Join(pieces, '/');
    assert t[1..] == Join(pieces, '/');
    SplitJoin(pieces, '/');
  }

  /** `?` marks a query exactly when the query string is non-empty. */
  lemma QueryMarkedIffNonEmpty(path: string, queryString: string)
    requires '?' !in path
    ensures SplitPathAndQuery(path + QuerySuffix(queryString)) ==
            PathAndQuery(path, if queryString == "" then Option.None else Some(queryString))
  {
    var pq := PathAndQuery(path, if queryString == "" then Option.None else Some(queryString));
    assert pq.ToString() == path + QuerySuffix(queryString);
    SplitToString(pq);
  }

  // ---------------------------------------------------------------------------
  // Incoming: path arguments and query to request
  // ---------------------------------------------------------------------------

  /** The typed fields a path argument can be read into. */
  datatype PathField = RoomIdField | EventIdField | RelTypeField | EventTypeField

  datatype DeserializationError =
    | InvalidLength(length: nat)  // the sequence is shorter or longer than the tuple
    | InvalidValue(field: PathField)
    | QueryError(detail: string)

  datatype FromHttpRequestError = Deserialization(reason: DeserializationError)

  /**
   * Reads the tuple `fields` from the sequence `args` from position `i` on, the
   * way a sequence deserializer does: each element in order, an error at the
   * first one that is missing or rejected, and an error for elements left over.
   */
  function ReadTuple(args: seq<seq<u8>>, fields: seq<PathField>, i: nat,
                     accepts: (PathField, seq<u8>) -> bool): (r: Result<(), DeserializationError>)
    requires i <= |fields|
    ensures r.Ok? <==>
      |args| == |fields| && forall j :: i <= j < |fields| ==> accepts(fields[j], args[j])
    ensures r.Err? ==> !r.error.QueryError?
    ensures r.Err? && |args| >= |fields| && (forall j :: i <= j < |fields| ==> accepts(fields[j], args[j])) ==>
      r == Err(InvalidLength(|args|))
    ensures i <= |args| < |fields| && (forall j :: i <= j < |args| ==> accepts(fields[j], args[j])) ==>
      r == Err(InvalidLength(|args|))
    decreases |fields| - i
  {
    if i == |fields| then
      if |args| > |fields| then Err(InvalidLength(|args|)) else
      if |args| < |fields| then Err(InvalidLength(i)) else Ok(())
    else if i >= |args| then Err(InvalidLength(i))
    else if !accepts(fields[i], args[i]) then Err(InvalidValue(fields[i]))
    else ReadTuple(args, fields, i + 1, accepts)
  }

  /** The tuple read for a given number of path arguments. */
  function FieldsFor(n: nat): (r: seq<PathField>)
    ensures |r| == (if n == 3 || n == 4 then n else 2)
    ensures r[..2] == [RoomIdField, EventIdField]
    ensures |r| >= 3 ==> r[2] == RelTypeField
    ensures |r| == 4 ==> r[3] == EventTypeField
  {
    if n == 4 then [RoomIdField, EventIdField, RelTypeField, EventTypeField]
    else if n == 3 then [RoomIdField, EventIdField, RelTypeField]
    else [RoomIdField, EventIdField]
  }

  /** Whether the path arguments can be read: two, three or four of them, each accepted. */
  predicate PathArgsReadable(pathArgs: seq<seq<u8>>, accepts: (PathField, seq<u8>) -> bool) {
    2 <= |pathArgs| <= 4 &&
    forall j :: 0 <= j < |pathArgs| ==> accepts(FieldsFor(|pathArgs|)[j], pathArgs[j])
  }

  /** `Uri::query`: the query of the path-and-query, if any. */
  function UriQuery(uri: Uri): (r: Option<string>)
    ensures r.Some? <==> uri.pathAndQuery.Some? && uri.pathAndQuery.value.query.Some?
    ensures r.Some? ==> r == uri.pathAndQuery.value.query
  {
    match uri.pathAndQuery
    case None => Option.None
    case Some(pq) => pq.query
  }

  /** `unwrap_or`: the value when there is one, the default otherwise. */
  function GetOr(o: Option<string>, default: string): (r: string)
    ensures o.Some? ==> r == o.value
    ensures o.None? ==> r == default
  {
    match o
    case None => default
    case Some(v) => v
  }

  /**
   * Builds a request from the path arguments (already percent-decoded) and the
   * query of the URI. The tuple read depends on the number of arguments; the
   * path arguments are read before the query.
   */
  function TryFromHttpRequest(
    uri: Uri,
    pathArgs: seq<seq<u8>>,
    accepts: (PathField, seq<u8>) -> bool,
    decodeQuery: string -> Result<RequestQuery, string>)
    : (r: Result<Request, FromHttpRequestError>)
    ensures !PathArgsReadable(pathArgs, accepts) ==> r.Err? && !r.error.reason.QueryError?
    ensures PathArgsReadable(pathArgs, accepts) && decodeQuery(GetOr(UriQuery(uri), "")).Err? ==>
      r == Err(Deserialization(QueryError(decodeQuery(GetOr(UriQuery(uri), "")).error)))
    ensures r.Ok? <==> PathArgsReadable(pathArgs, accepts) && decodeQuery(GetOr(UriQuery(uri), "")).Ok?
    ensures r.Ok? ==>
      var q := decodeQuery(GetOr(UriQuery(uri), "")).value;
      r.value.roomId == pathArgs[0] && r.value.eventId == pathArgs[1] &&
      r.value.relType == (if |pathArgs| >= 3 then Some(pathArgs[2]) else Option.None) &&
      r.value.eventType == (if |pathArgs| == 4 then Some(pathArgs[3]) else Option.None) &&
      r.value.from == q.from && r.value.to == q.to && r.value.limit == q.limit
  {
    var n := |pathArgs|;
    match ReadTuple(pathArgs, FieldsFor(n), 0, accepts)
    case Err(e) => Err(Deserialization(e))
    case Ok(_) =>
      var relType := if n >= 3 then Some(pathArgs[2]) else Option.None;
      var eventType := if n == 4 then Some(pathArgs[3]) else Option.None;
      match decodeQuery(GetOr(UriQuery(uri), ""))
      case Err(e) => Err(Deserialization(QueryError(e)))
      case Ok(q) => Ok(Request(pathArgs[0], pathArgs[1], relType, eventType, q.from, q.to, q.limit))
  }

  // ---------------------------------------------------------------------------
  // Round trip at the level of path segments
  // ---------------------------------------------------------------------------

  function DecodeAll(segments: seq<string>): (r: Option<seq<seq<u8>>>)
  {
    if segments == [] then Some([])
    else
      match (Decode(segments[0]), DecodeAll(segments[1..]))
      case (Some(a), Some(rest)) => Some([a] + rest)
      case _ => Option.None
  }

  lemma {:induction false} DecodeAllEncodeAll(args: seq<seq<u8>>)
    ensures DecodeAll(EncodeAll(args)) == Some(args)
  {
    if args != [] {
      DecodeEncode(args[0]);
      assert EncodeAll(args)[1..] == EncodeAll(args[1..]);
      DecodeAllEncodeAll(args[1..]);
      assert [args[0]] + args[1..] == args;
    }
  }

  /**
   * A reference router for this endpoint's template (routing happens outside
   * the library): the segments after the rooms prefix are the room id,
   * `relations`, the event id and up to two optional values, each percent-decoded.
   */
  function RouteArgs(path: string): Option<seq<seq<u8>>> {
    if |path| >= |ROOMS_PREFIX| && path[..|ROOMS_PREFIX|] == ROOMS_PREFIX then
      RouteSegments(Split(path[|ROOMS_PREFIX|..], '/'))
    else Option.None
  }

  /** The path arguments in the segments after the rooms prefix. */
  function RouteSegments(segments: seq<string>): Option<seq<seq<u8>>> {
    if 3 <= |segments| <= 5 && segments[1] == "relations" then
      DecodeAll([segments[0], segments[2]] + segments[3..])
    else Option.None
  }

  /** A request as it comes back: the event type is dropped when there is no relation type. */
  function Normalized(req: Request): (r: Request)
    ensures r.relType.Some? ==> r == req
    ensures r.relType.None? ==> r == req.(eventType := Option.None)
  {
    if req.relType.None? then req.(eventType := Option.None) else req
  }

  /** The checks on the path arguments accept the request's own values. */
  predicate FieldsAccepted(req: Request, accepts: (PathField, seq<u8>) -> bool) {
    accepts(RoomIdField, req.roomId) && accepts(EventIdField, req.eventId) &&
    (req.relType.Some? ==> accepts(RelTypeField, req.relType.value)) &&
    (req.relType.Some? && req.eventType.Some? ==> accepts(EventTypeField, req.eventType.value))
  }

  lemma TrailingAsPrefixed(req: Request)
    ensures TrailingSegments(req) == Prefixed(EncodeAll(TrailingArgs(req)))
  {
    match req.relType
    case None =>
    case Some(rel) =>
      match req.eventType
      case None =>
        assert EncodeAll([rel]) == [Encode(rel)];
      case Some(ev) =>
        assert EncodeAll([rel, ev]) == [Encode(rel), Encode(ev)];
        assert Prefixed([Encode(ev)]) == "/" + Encode(ev);
        assert Prefixed([Encode(rel), Encode(ev)]) == "/" + Encode(rel) + Prefixed([Encode(ev)]);
  }

  lemma JoinEndpointSegments(r: string, e: string, tail: seq<string>)
    ensures Join([r, "relations", e] + tail, '/') == r + "/relations/" + e + Prefixed(tail)
  {
    PrefixedJoin(e, tail);
    var rest := ["relations"] + ([e] + tail);
    assert [r, "relations", e] + tail == [r] + rest;
    JoinCons(r, rest, '/');
    JoinCons("relations", [e] + tail, '/');
    assert r + "/" + ("relations" + "/" + Join([e] + tail, '/')) == r + "/relations/" + (e + Prefixed(tail));
  }

  /** The endpoint path is the rooms prefix, then the segments joined with `/`. */
  lemma EndpointPathAsSegments(req: Request)
    ensures var segments := [Encode(req.roomId), "relations", Encode(req.eventId)] + EncodeAll(TrailingArgs(req));
      UnstablePathFor(req.roomId, req.eventId) + TrailingSegments(req) ==
        ROOMS_PREFIX + Join(segments, '/')
  {
    var r, e, tail := Encode(req.roomId), Encode(req.eventId), EncodeAll(TrailingArgs(req));
    TrailingAsPrefixed(req);
    JoinEndpointSegments(r, e, tail);
    RegroupPrefix(ROOMS_PREFIX, r, e, TrailingSegments(req));
  }

  lemma RegroupPrefix(p: string, r: string, e: string, t: string)
    ensures p + r + "/relations/" + e + t == p + (r + "/relations/" + e + t)
  {
  }

  lemma RoutePrefix(rest: string)
    ensures RouteArgs(ROOMS_PREFIX + rest) == RouteSegments(Split(rest, '/'))
  {
    assert (ROOMS_PREFIX + rest)[..|ROOMS_PREFIX|] == ROOMS_PREFIX;
    assert (ROOMS_PREFIX + rest)[|ROOMS_PREFIX|..] == rest;
  }

  lemma RouteEndpointSegments(r: string, e: string, tail: seq<string>)
    requires |tail| <= 2
    ensures RouteSegments([r, "relations", e] + tail) == DecodeAll([r, e] + tail)
  {
    var segments := [r, "relations", e] + tail;
    assert segments[1] == "relations";
    assert [segments[0], segments[2]] + segments[3..] == [r, e] + tail;
  }

  lemma EndpointSegmentsLack(r: string, e: string, tail: seq<string>, c: char)
    requires c != 'r' && c != 'e' && c != 'l' && c != 'a' && c != 't' && c != 'i' && c != 'o' && c != 'n' && c != 's'
    requires c !in r && c !in e
    requires forall k :: 0 <= k < |tail| ==> c !in tail[k]
    ensures var segments := [r, "relations", e] + tail;
      forall k :: 0 <= k < |segments| ==> c !in segments[k]
  {
    var segments := [r, "relations", e] + tail;
    assert segments[0] == r && segments[1] == "relations" && segments[2] == e;
    assert forall k :: 3 <= k < |segments| ==> segments[k] == tail[k - 3];
  }

  /** The router reads back the segments it is given, whatever text they hold. */
  lemma RouteJoinedSegments(r: string, e: string, tail: seq<string>)
    requires |tail| <= 2
    requires '/' !in r && '/' !in e
    requires forall k :: 0 <= k < |tail| ==> '/' !in tail[k]
    ensures RouteArgs(ROOMS_PREFIX + Join([r, "relations", e] + tail, '/')) == DecodeAll([r, e] + tail)
  {
    var segments := [r, "relations", e] + tail;
    EndpointSegmentsLack(r, e, tail, '/');
    SplitJoin(segments, '/');
    RoutePrefix(Join(segments, '/'));
    RouteEndpointSegments(r, e, tail);
  }

  /** No segment of the endpoint path holds `/` or `?`. */
  lemma SegmentsHaveNoSeparator(req: Request)
    ensures var segments := [Encode(req.roomId), "relations", Encode(req.eventId)] + EncodeAll(TrailingArgs(req));
      forall k :: 0 <= k < |segments| ==> '/' !in segments[k] && '?' !in segments[k]
  {
    var args := TrailingArgs(req);
    var tail := EncodeAll(args);
    EncodeHasNoSeparator(req.roomId);
    EncodeHasNoSeparator(req.eventId);
    forall k | 0 <= k < |tail| ensures '/' !in tail[k] && '?' !in tail[k] {
      EncodeHasNoSeparator(args[k]);
    }
    EndpointSegmentsLack(Encode(req.roomId), Encode(req.eventId), tail, '/');
    EndpointSegmentsLack(Encode(req.roomId), Encode(req.eventId), tail, '?');
  }

  /** The endpoint path holds no `?`, so a query after it is read as the query. */
  lemma EndpointPathHasNoQueryMarker(req: Request)
    ensures '?' !in UnstablePathFor(req.roomId, req.eventId) + TrailingSegments(req)
  {
    var segments := [Encode(req.roomId), "relations", Encode(req.eventId)] + EncodeAll(TrailingArgs(req));
    EndpointPathAsSegments(req);
    SegmentsHaveNoSeparator(req);
    JoinHasNo(segments, '/', '?');
    assert '?' !in ROOMS_PREFIX;
  }

  /** The endpoint path routes back to the request's own path arguments. */
  lemma RouteRoundTrip(req: Request)
    ensures RouteArgs(UnstablePathFor(req.roomId, req.eventId) + TrailingSegments(req)) == Some(PathArgs(req))
  {
    var r, e, tail := Encode(req.roomId), Encode(req.eventId), EncodeAll(TrailingArgs(req));
    EndpointPathAsSegments(req);
    SegmentsHaveNoSeparator(req);
    TrailingSegmentCount(req);
    EncodeHasNoSeparator(req.roomId);
    EncodeHasNoSeparator(req.eventId);
    EndpointSegmentsTail(r, e, tail);
    RouteJoinedSegments(r, e, tail);
    assert [r, e] + tail == EncodeAll(PathArgs(req));
    DecodeAllEncodeAll(PathArgs(req));
  }

  lemma EndpointSegmentsTail(r: string, e: string, tail: seq<string>)
    requires forall k :: 0 <= k < |[r, "relations", e] + tail| ==> '/' !in ([r, "relations", e] + tail)[k]
    ensures forall k :: 0 <= k < |tail| ==> '/' !in tail[k]
  {
    var segments := [r, "relations", e] + tail;
    assert forall k :: 0 <= k < |tail| ==> tail[k] == segments[k + 3];
  }

  /** The path arguments are the ids, then the relation type and the event type when present. */
  lemma PathArgsShape(req: Request)
    ensures var args := PathArgs(req);
      args[0] == req.roomId && args[1] == req.eventId &&
      (req.relType.None? ==> |args| == 2) &&
      (req.relType.Some? && req.eventType.None? ==> |args| == 3 && args[2] == req.relType.value) &&
      (req.relType.Some? && req.eventType.Some? ==>
         |args| == 4 && args[2] == req.relType.value && args[3] == req.eventType.value)
  {
  }

  /** Reading a request's own path arguments with the query it sent gives it back. */
  lemma ReadBackRoundTrip(req: Request, uri: Uri,
                          accepts: (PathField, seq<u8>) -> bool,
                          decodeQuery: string -> Result<RequestQuery, string>)
    requires FieldsAccepted(req, accepts)
    requires decodeQuery(GetOr(UriQuery(uri), "")) == Ok(QueryOf(req))
    ensures TryFromHttpRequest(uri, PathArgs(req), accepts, decodeQuery) == Ok(Normalized(req))
  {
    PathArgsShape(req);
    var args := PathArgs(req);
    assert PathArgsReadable(args, accepts) by {
      forall j | 0 <= j < |args| ensures accepts(FieldsFor(|args|)[j], args[j]) {
      }
    }
  }

  /**
   * Path and query round trip: the path a request is sent to routes back to
   * its own path arguments (two, three or four of them), and reading those with
   * the query that was sent gives the request back, with `eventType` dropped
   * when `relType` is absent.
   */
  lemma RoundTrip(req: Request, queryString: string, origin: string,
                  accepts: (PathField, seq<u8>) -> bool,
                  decodeQuery: string -> Result<RequestQuery, string>)
    requires FieldsAccepted(req, accepts)
    requires decodeQuery(queryString) == Ok(QueryOf(req))
    ensures var path := UnstablePathFor(req.roomId, req.eventId) + TrailingSegments(req);
      var pq := SplitPathAndQuery(path + QuerySuffix(queryString));
      pq.path == path &&
      RouteArgs(pq.path) == Some(PathArgs(req)) &&
      TryFromHttpRequest(Uri(origin, Some(pq)), PathArgs(req), accepts, decodeQuery) == Ok(Normalized(req))
  {
    var path := UnstablePathFor(req.roomId, req.eventId) + TrailingSegments(req);
    RouteRoundTrip(req);
    EndpointPathHasNoQueryMarker(req);
    QueryMarkedIffNonEmpty(path, queryString);
    var pq := SplitPathAndQuery(path + QuerySuffix(queryString));
    assert GetOr(UriQuery(Uri(origin, Some(pq))), "") == queryString;
    ReadBackRoundTrip(req, Uri(origin, Some(pq)), accepts, decodeQuery);
  }

  /** Joining pieces that lack a character other than the separator gives text without it. */
  lemma {:induction false} JoinHasNo(parts: seq<string>, c: char, x: char)
    requires |parts| >= 1 && x != c
    requires forall k :: 0 <= k < |parts| ==> x !in parts[k]
    ensures x !in Join(parts, c)
  {
    if |parts| > 1 {
      JoinHasNo(parts[1..], c, x);
    }
  }
}
