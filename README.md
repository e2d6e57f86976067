# Ruma API core and the relations endpoint, modelled in Dafny

This project models two parts of Ruma, a Rust library for the Matrix protocol.

The first part is the endpoint-independent core of `ruma-api`:
- the access-token policy `SendAccessToken`;
- the authentication schemes and the endpoint `Metadata` record;
- the `MatrixVersion` type: parsing it from a wire token, displaying it, and
  its major/minor representation `VersionRepr`;
- the partial order on versions and `is_superset_of`;
- the appservice extension that adds a `user_id` query to an outgoing request.

The second part is the `get_events_relating_to_event` client endpoint
(`GET /_matrix/client/unstable/rooms/:room_id/relations/:event_id/:rel_type/:event_type`):
- its request and response constructors;
- the outgoing conversion, which builds the URL, the headers and the request;
- the incoming conversion, which turns positional path arguments and a query
  back into a request and picks the tuple it reads from the number of
  arguments.

Modules:
- `Wrappers`: `Option`, `Result` and a byte type.
- `Text`: first index of a character, split and join.
- `Http`: stand-ins for the `http` crate. A `Uri` has an opaque origin and an
  optional `PathAndQuery`. `HttpRequest` is a class, because the appservice
  extension replaces its URI in place. `HttpChecks` bundles the validations
  the `http` builders perform.
- `PercentEncoding`: the `NON_ALPHANUMERIC` percent encoder over UTF-8 bytes
  (uppercase hex), with a strict decoder.
- `Api`: the `ruma-api` core.
- `Relations`: the endpoint.

Collaborators the core only calls are parameters of the model:
- the result of path selection (`select_path`);
- the query-string serializer and deserializer;
- the per-field checks of path arguments (identifier validation);
- the URI parser and the header-value and path-and-query checks of `http`;
- the encoded `user_id` query.

The main results:
- the version partial order is reflexive, antisymmetric and transitive, and
  versions with different majors are incomparable;
- parsing the display form of a version gives the version back;
- merging the `user_id` query keeps the path and appends to the query;
- the outgoing URL has one trailing segment for a relation type, and a second
  for an event type only when a relation type is present;
- a full path-and-query round trip: the URL a request is sent to routes back
  to that request's own path arguments, and reading them with the query gives
  the request back, with the event type dropped when there is no relation type.

The router is outside the library. `Relations.RouteArgs` is a reference router
for this endpoint's template, defined only to state that round trip.

## Model

| member | source | states |
|---|---|---|
| Api.GetRequiredForEndpoint | crates/ruma-api/src/lib.rs:240-245 | a token is returned exactly when the policy is not `None`, and it is the policy's own token |
| Api.GetNotRequiredForEndpoint | crates/ruma-api/src/lib.rs:250-255 | a token is returned exactly for `Always`, and it is that token |
| Api.NotRequiredImpliesRequired | crates/ruma-api/src/lib.rs:240-255 | a token sent to an endpoint that does not need one is also sent to one that does; no token for a required endpoint means none for an optional one |
| Api.SendAccessToken | crates/ruma-api/src/lib.rs:219-234 | the three policies, with the token carried by `IfRequired` and `Always`; specified through `Api.GetRequiredForEndpoint` and `Api.GetNotRequiredForEndpoint` |
| Api.AuthScheme | crates/ruma-api/src/lib.rs:384-403 | the four authentication schemes, by the source's names |
| Api.Metadata | crates/ruma-api/src/lib.rs:405-456 | the endpoint metadata record with all twelve fields |
| Api.MatrixVersion | crates/ruma-api/src/lib.rs:471-488 | the three known versions; specified through `Api.VersionFromString`, `Api.Repr` and `Api.DisplayRoundTrip` |
| Api.VersionRepr | crates/ruma-api/src/lib.rs:520-530 | a major and a minor number, each a `u8`; specified through `Api.PartialCmp` and `Api.ReprGeIsPartialOrder` |
| Api.VersionFromString | crates/ruma-api/src/lib.rs:493-505 | `v1.0`, `r0.5.0`, `r0.6.0` and `r0.6.1` parse to 1.0, `v1.1` to 1.1, `v1.2` to 1.2; every other token is an `UnknownVersionError` |
| Api.Repr | crates/ruma-api/src/lib.rs:573-579 | every known version has major number 1 |
| Api.ReprInjective | crates/ruma-api/src/lib.rs:573-579 | distinct versions have distinct major/minor pairs |
| Api.DisplayRoundTrip | crates/ruma-api/src/lib.rs:508-513 | parsing the `v{major}.{minor}` display form of a version gives the same version |
| Api.LegacyTokensNormalize | crates/ruma-api/src/lib.rs:496-502 | any accepted token (a legacy `r0` one included) displays as the canonical token of its version, which parses back to the same version |
| Api.Decimal | crates/ruma-api/src/lib.rs:512 | the `{}` formatting of a `u8`: non-empty, only decimal digits, and by `Api.DecimalValueOfDecimal` they read back as the number |
| Api.DecimalValueOfDecimal | crates/ruma-api/src/lib.rs:512 | the digits `Api.Decimal` writes have the value of the number written |
| Api.RenderRepr | crates/ruma-api/src/lib.rs:508-513 | the `v{major}.{minor}` text, with the numbers in decimal; specified by `Api.RenderReprInjective` and `Api.DecimalValueOfDecimal` |
| Api.VersionToString | crates/ruma-api/src/lib.rs:508-513 | `Display` of a version through its representation; specified by `Api.DisplayRoundTrip` and `Api.DisplayInjective` |
| Api.RenderReprInjective | crates/ruma-api/src/lib.rs:508-513 | two major/minor pairs with the same `v{major}.{minor}` text are equal |
| Api.DisplayInjective | crates/ruma-api/src/lib.rs:508-513 | two versions with the same display text are the same version |
| Api.CompareMinor | crates/ruma-api/src/lib.rs:549 | `u8` comparison: less, equal or greater exactly as the first minor is below, equal to or above the second |
| Api.PartialCmp | crates/ruma-api/src/lib.rs:543-551 | no ordering exactly when the majors differ; otherwise less, equal or greater according to the minors |
| Api.PartialCmpFlip | crates/ruma-api/src/lib.rs:543-551 | swapping the arguments flips the ordering and keeps incomparability |
| Api.ReprGe | crates/ruma-api/src/lib.rs:543-551 | Rust's `>=` through `partial_cmp` holds exactly when the majors agree and the minor is at least as large |
| Api.ReprGeIncomparable | crates/ruma-api/src/lib.rs:532-551 | with different majors neither side is `>=` the other |
| Api.ReprGeIsPartialOrder | crates/ruma-api/src/lib.rs:543-551 | `>=` on representations is reflexive, antisymmetric and transitive |
| Api.IsSupersetOf | crates/ruma-api/src/lib.rs:568-570 | a version is a superset of another exactly when the majors agree and its minor is at least the other's |
| Api.IsSupersetOfIsPartialOrder | crates/ruma-api/src/lib.rs:554-570 | `is_superset_of` is reflexive, antisymmetric and transitive |
| Api.IsSupersetOfExample | crates/ruma-api/src/lib.rs:559-561 | v1.2 is a superset of v1.1 and v1.1 is not a superset of v1.2 |
| Api.PathAndQueryWithUserId | crates/ruma-api/src/lib.rs:313-319 | the merged path-and-query text; specified by `Api.UserIdQueryMerged`, `Api.UserIdQueryKeepsPrefix` and `Api.UserIdQueryOnRootedPath` |
| Api.UserIdQueryMerged | crates/ruma-api/src/lib.rs:313-322 | reading the merged text back keeps the old path as `http` prints it (a `/` put in front when it is empty or starts with neither `/` nor `*`; `/` when there was no path-and-query); the query becomes the old query, `&` and the user id query, or the user id query alone |
| Api.UserIdQueryKeepsPrefix | crates/ruma-api/src/lib.rs:313-319 | the old path-and-query as `http` prints it is a prefix of the merged text, followed by `&` when it had a query and `?` otherwise |
| Api.UserIdQueryOnRootedPath | crates/ruma-api/src/lib.rs:313-319 | for a path starting with `/` (every path this library selects) the old text is kept exactly, followed by `&` or `?` and the user id query |
| Http.PathAndQuery.DisplayPath | crates/ruma-api/src/lib.rs:315-316 | the printed path is the path or `/` and the path; it always starts with `/` or `*`, and equals the path exactly when the path already starts with one of them |
| Http.PathAndQuery.Display | crates/ruma-api/src/lib.rs:315-316 | the `{}` of a path-and-query: the printed path, then `?` and the query when present; specified by `Http.DisplayOfRootedPath` and `Api.UserIdQueryMerged` |
| Http.HttpRequest | crates/ruma-api/src/lib.rs:301-327 | the request object whose URI the extension replaces in place (line 324); method, headers and body are fields that stay put; specified by `Api.TryIntoHttpRequestWithUserId` and `Relations.TryIntoHttpRequest` |
| Http.DisplayOfRootedPath | crates/ruma-api/src/lib.rs:315-316 | a path-and-query whose path starts with `/` prints as its own text |
| Http.DisplayPathValid | crates/ruma-api/src/lib.rs:315-316 | printing does not add a `?` to the path |
| Api.TryIntoHttpRequestWithUserId | crates/ruma-api/src/lib.rs:301-327 | errors of the inner conversion and then of the query encoding propagate unchanged; otherwise the request's URI is replaced in place by the same origin with the merged path-and-query, or the call fails with an invalid-URI error and leaves the URI alone; method, headers and body never change |
| Http.SplitPathAndQuery | crates/ruma-api/src/lib.rs:313-322 | splitting at the first `?` gives a path without `?` whose text form is the input |
| Http.SplitToString | crates/ruma-api/src/lib.rs:313-322 | a path-and-query whose path has no `?` is recovered from its text form |
| PercentEncoding.EncodeByte | crates/ruma-client-api/src/relations/get_events_relating_to_event.rs:145-148 | one byte encoded: every character of the result is an ASCII letter or digit, `%` or an uppercase hex digit |
| PercentEncoding.Encode | crates/ruma-client-api/src/relations/get_events_relating_to_event.rs:145-148 | `utf8_percent_encode(_, NON_ALPHANUMERIC)` over the UTF-8 bytes; specified by `PercentEncoding.EncodeChars`, `PercentEncoding.DecodeEncode` and `PercentEncoding.EncodeInjective` |
| PercentEncoding.EncodeChars | crates/ruma-client-api/src/relations/get_events_relating_to_event.rs:145-148 | every character of an encoding is an ASCII letter or digit, `%` or an uppercase hex digit |
| PercentEncoding.DecodeEncode | crates/ruma-client-api/src/relations/get_events_relating_to_event.rs:145-148 | decoding the `NON_ALPHANUMERIC` encoding of any bytes gives those bytes |
| PercentEncoding.EncodeInjective | crates/ruma-client-api/src/relations/get_events_relating_to_event.rs:145-148 | distinct byte strings have distinct encodings |
| PercentEncoding.EncodeHasNoSeparator | crates/ruma-client-api/src/relations/get_events_relating_to_event.rs:145-148 | an encoded value contains neither `/` nor `?` |
| Relations.Request | crates/ruma-client-api/src/relations/get_events_relating_to_event.rs:59-105 | the request with the room and event ids, optional relation and event types, and the `from`, `to` and `limit` pagination fields; specified by `Relations.NewRequest` and `Relations.RoundTrip` |
| Relations.Response | crates/ruma-client-api/src/relations/get_events_relating_to_event.rs:28-47 | the response with its chunk and the two optional pagination tokens; specified by `Relations.NewResponse` |
| Relations.RequestQuery | crates/ruma-client-api/src/relations/get_events_relating_to_event.rs:178-185 | the query fields `from`, `to` and `limit` encoded into the query string and read back at lines 266-274; specified by `Relations.TryIntoHttpRequest` and `Relations.TryFromHttpRequest` |
| Relations.NewRequest | crates/ruma-client-api/src/relations/get_events_relating_to_event.rs:109-119 | the request has the given room and event ids and no filter or pagination field |
| Relations.NewResponse | crates/ruma-client-api/src/relations/get_events_relating_to_event.rs:124-126 | the response holds the given chunk and no pagination tokens |
| Relations.METADATA | crates/ruma-client-api/src/relations/get_events_relating_to_event.rs:18-26 | the endpoint's metadata: GET, its name and description, the unstable path, not rate limited, access-token authentication, no version information |
| Relations.UnstablePathFor | crates/ruma-client-api/src/relations/get_events_relating_to_event.rs:147-159 | the unstable path with the encoded room and event ids; specified by `Relations.RouteRoundTrip` and `Relations.EndpointPathHasNoQueryMarker` |
| Relations.TrailingSegments | crates/ruma-client-api/src/relations/get_events_relating_to_event.rs:165-176 | the optional trailing segments; specified by `Relations.BuildPath` and `Relations.TrailingSegmentCount` |
| Relations.QuerySuffix | crates/ruma-client-api/src/relations/get_events_relating_to_event.rs:186-191 | empty exactly when the query string is empty, otherwise `?` followed by the query string |
| Relations.RequestUrl | crates/ruma-client-api/src/relations/get_events_relating_to_event.rs:150-191 | the whole URL; specified by `Relations.UrlStartsWithBase`, `Relations.QueryMarkedIffNonEmpty` and `Relations.TryIntoHttpRequest` |
| Relations.EndpointPathHasNoQueryMarker | crates/ruma-client-api/src/relations/get_events_relating_to_event.rs:147-176 | the endpoint path contains no `?`, so a query after it is read as the query |
| Relations.StripTrailingSlash | crates/ruma-client-api/src/relations/get_events_relating_to_event.rs:152 | at most one trailing `/` is removed, exactly when the base ends with one |
| Relations.BuildPath | crates/ruma-client-api/src/relations/get_events_relating_to_event.rs:150-176 | the path is the base without its trailing `/`, the selected path, then `/` and the encoded relation type, then `/` and the encoded event type only when a relation type is present |
| Relations.TryIntoHttpRequest | crates/ruma-client-api/src/relations/get_events_relating_to_event.rs:136-208 | a path-selection error and then a query-encoding error propagate; once those succeed the result is `NeedsAuthentication` exactly when no token is given; then an unparsable URL and then a rejected `Bearer` header give `http` errors; otherwise a fresh GET request for the full URL with the JSON content type, the `Bearer` header and an empty body |
| Relations.UrlStartsWithBase | crates/ruma-client-api/src/relations/get_events_relating_to_event.rs:150-191 | the URL starts with the base without its trailing `/` and the selected path, and continues with the trailing segments and the query suffix |
| Relations.TrailingSegmentCount | crates/ruma-client-api/src/relations/get_events_relating_to_event.rs:165-176 | no trailing segment without a relation type, one with a relation type alone, two with both; they split back into the encoded values, and the path argument count is two more |
| Relations.QueryMarkedIffNonEmpty | crates/ruma-client-api/src/relations/get_events_relating_to_event.rs:186-191 | the URL carries a query exactly when the query string is non-empty, and that query is the query string |
| Relations.ReadTuple | crates/ruma-client-api/src/relations/get_events_relating_to_event.rs:235-264 | reading a tuple succeeds exactly when the argument count equals the tuple length and every argument is accepted; a sequence whose elements are all accepted but that is shorter or longer than the tuple gives an invalid-length error carrying its own length; no error is a query error |
| Relations.FieldsFor | crates/ruma-client-api/src/relations/get_events_relating_to_event.rs:235 | four fields for four arguments, three for three, the two ids otherwise, in template order |
| Relations.UriQuery | crates/ruma-client-api/src/relations/get_events_relating_to_event.rs:274 | `uri.query()`: present exactly when the URI has a path-and-query with a query, and then that query |
| Relations.GetOr | crates/ruma-client-api/src/relations/get_events_relating_to_event.rs:274 | `unwrap_or("")`: the query when present, the default otherwise |
| Relations.TryFromHttpRequest | crates/ruma-client-api/src/relations/get_events_relating_to_event.rs:218-277 | the request is built exactly when two, three or four accepted path arguments are given and the query decodes; a query error propagates; room id, event id, relation type and event type come from arguments one to four, and the pagination fields from the query |
| Relations.PathArgsShape | crates/ruma-client-api/src/relations/get_events_relating_to_event.rs:235-264 | a request's path arguments are its two ids, then the relation type and the event type when present |
| Relations.RouteRoundTrip | crates/ruma-client-api/src/relations/get_events_relating_to_event.rs:147-176 | the path a request is sent to routes back to its own path arguments |
| Relations.ReadBackRoundTrip | crates/ruma-client-api/src/relations/get_events_relating_to_event.rs:218-277 | reading a request's own path arguments with its own query gives the request back, with the event type dropped when there is no relation type |
| Relations.RoundTrip | crates/ruma-client-api/src/relations/get_events_relating_to_event.rs:147-191 | the path and query a request is sent to split into that path and the query string, route back to the request's path arguments, and read back to the request, with the event type dropped when there is no relation type |

## Left out

- The `ruma_api!` macro, the re-exports and the `OutgoingResponse`, `IncomingResponse` and `EndpointError` traits: they are code generation and interfaces, not behaviour.
- Path selection (`select_path`) and the `considering_versions` argument: the selected path, or its error, is a parameter.
- Serializing and deserializing the query (URL-encoded form): the encoder and decoder are parameters.
- Identifier validation (`RoomId`, `EventId`, `RelationType`, `MessageLikeEventType`): the per-field acceptance check is a parameter. Identifiers are carried as their UTF-8 bytes.
- URI parsing and header-value validation in the `http` crate: these are parameters in `HttpChecks`.
- Http.PathAndQuery.DisplayPath: follows the printing rule of the `http` crate's path-and-query, which is not part of this model; only the leading `/` it adds is modelled.
- Api.TryIntoHttpRequestWithUserId: does not model a failure of `Uri::from_parts` at line 324; it is assumed to succeed once the new path-and-query is accepted. This assumption rests on the `http` crate, which is not part of this model, and it is expected to fail in one case: an authority-form URI (authority but no scheme) has no path-and-query, so the `/?` arm at line 318 adds one, and `from_parts` then rejects the parts for their missing scheme. There the source returns an `http` error where the model returns `Ok`. Every URL this library builds has a scheme-bearing base and a rooted path, so it never reaches that arm.
- Serializing the response body and reading the request body: this endpoint's request has no body, and the JSON codec is outside the model.
- The request body type `T` is modelled as an empty byte sequence.
- Metadata `path`: macro-generated, not visible in the source; the constant takes it to be the unstable path.
- The borrowed outgoing `Request<'a>` and the owned `IncomingRequest` have the same fields, so one `Request` type serves both.
- The incoming tuple read follows the standard sequence-deserializer behaviour. The fallback arm (any count other than three or four) reads a pair, so it succeeds only with exactly two arguments. Fewer or more give an invalid-length error.
- `UInt` is bounded by 2^53; its JSON parsing is not modelled.
- Feature gates (`client`, `server`, `unstable-exhaustive-types`) and concurrency are not modelled.
