/** What the request builders of Sources/APIManager/APIManager.swift produce,
    as functions of their inputs: the GET builder, the body builder with its
    multipart and JSON cases, the dispatcher between them, and the two
    `sendRequest` entry points around them. The class in module `Manager`
    is proved to compute exactly these. */
module RequestBuilders {
  import opened Wrappers
  import opened Utf8
  import opened RequestTypes
  import opened RequestErrors
  import opened Endpoints
  import opened Multipart
  import opened Query
  import opened Responses

  const AcceptLanguageField: string := "Accept-Language"
  const ContentTypeField: string := "Content-Type"

  /** `endpoint.header ?? [:]`; an absent header dictionary leaves a request
      with no header fields. */
  function HeaderFields(header: Option<map<string, string>>): map<string, string>
  {
    if header.Some? then header.value else map[]
  }

  /** `URLQueryItem(name: key, value: "\(value)")` for each parameter. */
  function QueryItems(ps: Params): seq<QueryItem>
  {
    seq(|ps|, i requires 0 <= i < |ps| => QueryItem(ps[i].0, Describe(ps[i].1)))
  }

  /** The percent-encoded query of the GET request. Setting `queryItems` to
      `nil` removes the query; otherwise `URLComponents` encodes the items
      (the oracle `percentEncode`) and the builder escapes every `+`. */
  function EncodedQuery(parameters: Option<Params>, percentEncode: seq<QueryItem> -> string): (q: Option<string>)
    ensures q.Some? <==> parameters.Some?
    ensures q.Some? ==> '+' !in q.value
  {
    if parameters.Some? then Some(EscapePlus(percentEncode(QueryItems(parameters.value)))) else None
  }

  /** `createGetRequestWithURLComponents`. */
  function GetRequest(url: Url, endpoint: Endpoint, acceptLanguage: string,
                      percentEncode: seq<QueryItem> -> string): (r: Request)
    ensures r.httpMethod == RawValue(endpoint.requestType)
    ensures r.httpBody.None?
    ensures r.url.location == url.location
    ensures r.url.percentEncodedQuery.Some? <==> endpoint.parameters.Some?
    ensures r.url.percentEncodedQuery.Some? ==> '+' !in r.url.percentEncodedQuery.value
    ensures AcceptLanguageField in r.headers && r.headers[AcceptLanguageField] == acceptLanguage
    ensures forall k :: k != AcceptLanguageField ==> (k in r.headers <==> k in HeaderFields(endpoint.header))
    ensures forall k :: k != AcceptLanguageField && k in r.headers ==> r.headers[k] == HeaderFields(endpoint.header)[k]
  {
    var header := HeaderFields(endpoint.header);
    Request(RawValue(endpoint.requestType),
            Url(url.location, EncodedQuery(endpoint.parameters, percentEncode)),
            header[AcceptLanguageField := acceptLanguage],
            None)
  }

  /** The query the GET request carries is the encoded query with `+`
      escaped, and nothing is lost: when the encoder wrote no `%2B` of its
      own, reading `%2B` back as `+` recovers it. */
  lemma GetQueryRoundTrip(url: Url, endpoint: Endpoint, acceptLanguage: string,
                          percentEncode: seq<QueryItem> -> string)
    requires endpoint.parameters.Some?
    requires NoEscapedPlus(percentEncode(QueryItems(endpoint.parameters.value)))
    ensures var q := GetRequest(url, endpoint, acceptLanguage, percentEncode).url.percentEncodedQuery;
            q.Some? && UnescapePlus(q.value) == percentEncode(QueryItems(endpoint.parameters.value))
  {
    UnescapeEscape(percentEncode(QueryItems(endpoint.parameters.value)));
  }

  /** `JSONSerialization.data(withJSONObject:options:)` as the oracle
      `serialize`, which fails on values it cannot serialise. */
  function JsonBody(parameters: Option<Params>, serialize: Params -> Option<seq<byte>>): Option<seq<byte>>
  {
    if parameters.Some? then serialize(parameters.value) else None
  }

  function MultipartContentType(boundary: string): string
  {
    "multipart/form-data; boundary=" + boundary
  }

  function ParameterCount(parameters: Option<Params>): nat
  {
    if parameters.Some? then |parameters.value| else 0
  }

  /** The reads of `boundaryString` the body builder makes: one for the
      header token and two per parameter, and none without a file. */
  function BodyTokens(parameters: Option<Params>, file: Option<UploadData>): nat
  {
    if file.Some? then 1 + 2 * ParameterCount(parameters) else 0
  }

  /** `createPostRequestWithBody`, its reads of `boundaryString` starting at
      UUID `next`. */
  function PostRequest(url: Url, endpoint: Endpoint, file: Option<UploadData>, now: int,
                       uuids: nat -> string, next: nat, serialize: Params -> Option<seq<byte>>): (r: Request)
    ensures r.httpMethod == RawValue(endpoint.requestType)
    ensures r.url == url
    ensures file.None? ==> r.headers == HeaderFields(endpoint.header)
    ensures file.None? ==> (r.httpBody.Some? <==> endpoint.parameters.Some? && serialize(endpoint.parameters.value).Some?)
    ensures file.None? && r.httpBody.Some? ==> r.httpBody == serialize(endpoint.parameters.value)
    ensures file.Some? ==> r.httpBody.Some?
    ensures file.Some? ==> ContentTypeField in r.headers
    ensures forall k :: k != ContentTypeField ==> (k in r.headers <==> k in HeaderFields(endpoint.header))
    ensures forall k :: k != ContentTypeField && k in r.headers ==> r.headers[k] == HeaderFields(endpoint.header)[k]
  {
    var header := HeaderFields(endpoint.header);
    var verb := RawValue(endpoint.requestType);
    if file.Some? then
      var boundary := BoundaryToken(uuids(next));
      Request(verb, url, header[ContentTypeField := MultipartContentType(boundary)],
              Some(AsWrittenBody(OptionalFields(endpoint.parameters), file.value, Some(boundary), now, uuids, next + 1)))
    else
      Request(verb, url, header, JsonBody(endpoint.parameters, serialize))
  }

  /** With a file, the `Content-Type` header announces the token of the
      first UUID the call reads, and the file section opens with that
      token's dash line right after the parameter sections. */
  lemma MultipartRequestOpens(url: Url, endpoint: Endpoint, file: UploadData, now: int,
                              uuids: nat -> string, next: nat, serialize: Params -> Option<seq<byte>>)
    ensures var r := PostRequest(url, endpoint, Some(file), now, uuids, next, serialize);
            var b := BoundaryToken(uuids(next));
            var start := |Encode(OptionalParamSections(OptionalFields(endpoint.parameters), uuids, next + 1))|;
            && r.headers[ContentTypeField] == MultipartContentType(b)
            && OccursAt(r.httpBody.value, Encode(DashLine(b)), start)
  {
    var b := BoundaryToken(uuids(next));
    var r := PostRequest(url, endpoint, Some(file), now, uuids, next, serialize);
    assert r.httpBody.value == AsWrittenBody(OptionalFields(endpoint.parameters), file, Some(b), now, uuids, next + 1);
    FileSectionOpens(OptionalFields(endpoint.parameters), file, Some(b), now, uuids, next + 1);
  }

  /** With a file, the body ends with the close-delimiter of the token the
      `Content-Type` header announces, the file bytes standing verbatim just
      before it. */
  lemma MultipartRequestCloses(url: Url, endpoint: Endpoint, file: UploadData, now: int,
                               uuids: nat -> string, next: nat, serialize: Params -> Option<seq<byte>>)
    ensures var r := PostRequest(url, endpoint, Some(file), now, uuids, next, serialize);
            var b := BoundaryToken(uuids(next));
            var body, close := r.httpBody.value, Encode(CloseDelimiter(b));
            && r.headers[ContentTypeField] == MultipartContentType(b)
            && EndsWith(body, close)
            && OccursAt(body, file.file, |body| - |close| - |file.file|)
  {
    var b := BoundaryToken(uuids(next));
    var r := PostRequest(url, endpoint, Some(file), now, uuids, next, serialize);
    assert r.httpBody.value == AsWrittenBody(OptionalFields(endpoint.parameters), file, Some(b), now, uuids, next + 1);
    FileSectionCloses(OptionalFields(endpoint.parameters), file, Some(b), now, uuids, next + 1);
    FileBytesVerbatim(OptionalFields(endpoint.parameters), file, Some(b), now, uuids, next + 1);
  }

  /** The parameter sections do not use the announced token: with at least
      one parameter and UUIDs that differ, the body opens with a delimiter
      of a token the header does not name. */
  lemma MultipartRequestOpensWithOtherToken(url: Url, endpoint: Endpoint, file: UploadData, now: int,
                                            uuids: nat -> string, next: nat, serialize: Params -> Option<seq<byte>>)
    requires endpoint.parameters.Some? && |endpoint.parameters.value| > 0
    requires IsUuidString(uuids(next)) && IsUuidString(uuids(next + 1)) && uuids(next) != uuids(next + 1)
    ensures var r := PostRequest(url, endpoint, Some(file), now, uuids, next, serialize);
            && r.headers[ContentTypeField] == MultipartContentType(BoundaryToken(uuids(next)))
            && !StartsWith(r.httpBody.value, Encode(DashLine(BoundaryToken(uuids(next)))))
  {
    AsWrittenOpensWithFreshToken(Fields(endpoint.parameters.value), file, now, uuids, next);
  }

  /** The evidently intended `createPostRequestWithBody`: with a file, the
      body is framed by the one boundary the `Content-Type` header announces,
      one body part per parameter and then the file part. */
  function FixedPostRequest(url: Url, endpoint: Endpoint, file: Option<UploadData>, now: int,
                            uuids: nat -> string, next: nat, serialize: Params -> Option<seq<byte>>): (r: Request)
    ensures file.None? ==> r == PostRequest(url, endpoint, None, now, uuids, next, serialize)
    ensures file.Some? ==>
              var b := BoundaryToken(uuids(next));
              var params := OptionalFields(endpoint.parameters);
              && r.httpMethod == RawValue(endpoint.requestType)
              && r.url == url
              && r.headers == HeaderFields(endpoint.header)[ContentTypeField := MultipartContentType(b)]
              && r.httpBody == Some(Frame(b, (if params.Some? then ParamParts(params.value) else [])
                                             + [FilePart(file.value, now)]))
  {
    if file.Some? then
      var b := BoundaryToken(uuids(next));
      var params := OptionalFields(endpoint.parameters);
      FixedBodyIsFramed(params, file.value, b, now);
      Request(RawValue(endpoint.requestType), url, HeaderFields(endpoint.header)[ContentTypeField := MultipartContentType(b)],
              Some(FixedBody(params, file.value, b, now)))
    else
      PostRequest(url, endpoint, None, now, uuids, next, serialize)
  }

  /** Without parameters the request the code builds is already the
      intended one. */
  lemma FixedPostRequestAgreesWithoutParameters(url: Url, endpoint: Endpoint, file: Option<UploadData>, now: int,
                                                uuids: nat -> string, next: nat,
                                                serialize: Params -> Option<seq<byte>>)
    requires endpoint.parameters.None? || endpoint.parameters == Some([])
    ensures FixedPostRequest(url, endpoint, file, now, uuids, next, serialize)
         == PostRequest(url, endpoint, file, now, uuids, next, serialize)
  {
    if file.Some? {
      var b := BoundaryToken(uuids(next));
      var params := OptionalFields(endpoint.parameters);
      if endpoint.parameters.Some? {
        assert Fields(endpoint.parameters.value) == [];
      }
      AsWrittenAgreesWithoutParameters(params, file.value, b, now, uuids, next + 1);
    }
  }

  /** `createRequest`: GET goes to the query builder, every other method to
      the body builder. */
  function BuiltRequest(url: Url, endpoint: Endpoint, file: Option<UploadData>, now: int, acceptLanguage: string,
                        uuids: nat -> string, next: nat, percentEncode: seq<QueryItem> -> string,
                        serialize: Params -> Option<seq<byte>>): (r: Request)
    ensures r.httpMethod == RawValue(endpoint.requestType)
    ensures endpoint.requestType == Get ==> r == GetRequest(url, endpoint, acceptLanguage, percentEncode)
    ensures endpoint.requestType != Get ==> r == PostRequest(url, endpoint, file, now, uuids, next, serialize)
  {
    match endpoint.requestType
    case Get => GetRequest(url, endpoint, acceptLanguage, percentEncode)
    case Post | Put | Patch | Delete => PostRequest(url, endpoint, file, now, uuids, next, serialize)
  }

  /** The UUIDs `createRequest` consumes. */
  function TokensUsed(endpoint: Endpoint, file: Option<UploadData>): nat
  {
    if endpoint.requestType == Get then 0 else BodyTokens(endpoint.parameters, file)
  }

  /** Only a GET request carries `Accept-Language` from the locale and only
      a non-GET request can carry a body; the method token names the
      request type. */
  lemma BuiltRequestShape(url: Url, endpoint: Endpoint, file: Option<UploadData>, now: int, acceptLanguage: string,
                          uuids: nat -> string, next: nat, percentEncode: seq<QueryItem> -> string,
                          serialize: Params -> Option<seq<byte>>)
    ensures var r := BuiltRequest(url, endpoint, file, now, acceptLanguage, uuids, next, percentEncode, serialize);
            && FromRawValue(r.httpMethod) == Some(endpoint.requestType)
            && (r.httpBody.Some? ==> endpoint.requestType != Get)
            && (endpoint.requestType != Get && file.Some? ==> r.httpBody.Some?)
            && (endpoint.requestType != Get ==> r.url == url)
            && (endpoint.requestType == Get ==> AcceptLanguageField in r.headers && r.headers[AcceptLanguageField] == acceptLanguage)
            && (endpoint.requestType != Get ==>
                  (AcceptLanguageField in r.headers <==> AcceptLanguageField in HeaderFields(endpoint.header)))
  {
  }

  /** What `URLSession` answered: an HTTP response or some other kind. */
  datatype UrlResponse = HttpUrlResponse(http: HttpResponse) | OtherUrlResponse

  /** The round trip of `URLSession.shared.data(for:)`: it throws, or it
      delivers the bytes and the response. */
  datatype TransportOutcome = TransportThrew | Delivered(data: seq<byte>, response: UrlResponse)

  /** `response as? HTTPURLResponse` */
  function AsHttp(response: UrlResponse): Option<HttpResponse>
  {
    if response.HttpUrlResponse? then Some(response.http) else None
  }

  /** The typed `sendRequest`: no connection gives `noResponse` before
      anything else; a missing URL gives `invalidURL`; a transport error
      gives `statusNotOk`; otherwise the response is classified. */
  function SendOutcome<T>(connected: bool, endpoint: Endpoint, file: Option<UploadData>, now: int,
                          acceptLanguage: string, uuids: nat -> string, next: nat,
                          percentEncode: seq<QueryItem> -> string, serialize: Params -> Option<seq<byte>>,
                          transport: Request -> TransportOutcome, decode: seq<byte> -> DecodeOutcome<T>)
    : (r: Option<Result<T, RequestError>>)
    ensures r.Some?
    ensures !connected ==> r == Some(Failure(NoResponse))
    ensures connected && endpoint.url.None? ==> r == Some(Failure(InvalidURL))
    ensures (connected && endpoint.url.Some? &&
             transport(BuiltRequest(endpoint.url.value, endpoint, file, now, acceptLanguage, uuids, next,
                                    percentEncode, serialize)).TransportThrew?)
            ==> r == Some(Failure(StatusNotOk))
    ensures r.value.Success? ==> connected && endpoint.url.Some?
  {
    if !connected then Some(Failure(NoResponse))
    else if endpoint.url.None? then Some(Failure(InvalidURL))
    else
      var request := BuiltRequest(endpoint.url.value, endpoint, file, now, acceptLanguage, uuids, next,
                                  percentEncode, serialize);
      match transport(request)
      case TransportThrew => Some(Failure(StatusNotOk))
      case Delivered(data, response) => ParseResponse(AsHttp(response), data, decode(data))
  }

  /** A delivered exchange is classified by `parseResponse` on the bytes
      and the response the transport delivered for the built request. */
  lemma SendOutcomeDelivered<T>(connected: bool, endpoint: Endpoint, file: Option<UploadData>, now: int,
                                acceptLanguage: string, uuids: nat -> string, next: nat,
                                percentEncode: seq<QueryItem> -> string, serialize: Params -> Option<seq<byte>>,
                                transport: Request -> TransportOutcome, decode: seq<byte> -> DecodeOutcome<T>)
    requires connected && endpoint.url.Some?
    ensures var request := BuiltRequest(endpoint.url.value, endpoint, file, now, acceptLanguage, uuids, next,
                                        percentEncode, serialize);
            var r := SendOutcome(connected, endpoint, file, now, acceptLanguage, uuids, next,
                                 percentEncode, serialize, transport, decode);
            transport(request).Delivered? ==>
              r == ParseResponse(AsHttp(transport(request).response), transport(request).data,
                                 decode(transport(request).data))
  {
  }

  /** The untyped `sendRequest`: it throws `invalidURL` on a missing URL,
      passes a transport error on, or returns what was delivered. */
  datatype RawOutcome = ThrewInvalidUrl | ThrewTransportError | RawDelivered(data: seq<byte>, response: UrlResponse)

  function RawSendOutcome(endpoint: Endpoint, now: int, acceptLanguage: string, uuids: nat -> string, next: nat,
                          percentEncode: seq<QueryItem> -> string, serialize: Params -> Option<seq<byte>>,
                          transport: Request -> TransportOutcome): (r: RawOutcome)
    ensures endpoint.url.None? <==> r.ThrewInvalidUrl?
    ensures r.RawDelivered? ==>
              transport(BuiltRequest(endpoint.url.value, endpoint, None, now, acceptLanguage, uuids, next,
                                     percentEncode, serialize)) == Delivered(r.data, r.response)
    ensures endpoint.url.Some? ==>
              var t := transport(BuiltRequest(endpoint.url.value, endpoint, None, now, acceptLanguage, uuids, next,
                                              percentEncode, serialize));
              && (t.TransportThrew? <==> r.ThrewTransportError?)
              && (t.Delivered? ==> r == RawDelivered(t.data, t.response))
  {
    if endpoint.url.None? then ThrewInvalidUrl
    else
      match transport(BuiltRequest(endpoint.url.value, endpoint, None, now, acceptLanguage, uuids, next,
                                   percentEncode, serialize))
      case TransportThrew => ThrewTransportError
      case Delivered(data, response) => RawDelivered(data, response)
  }
}
