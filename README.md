# APIManager request builder and response classifier (Dafny model)

This project models the core of the Swift package `APIManager`:
- how it builds a `URLRequest` from an `Endpoint`;
- how it serialises a multipart/form-data upload body byte by byte;
- how `sendRequest` guards and `parseResponse` classify the outcome of an HTTP exchange;
- the small mappings beside them: `RequestError.statusCode`, `Locale.acceptLanguage`, the `RequestType` raw values and `Data.appendString`.

Layout, one module per concern:

- `wrappers.dfy` (`Wrappers`): `Option` and `Result`.
- `sequences.dfy` (`Sequences`): regrouping lemmas over abstract sequences.
- `utf8.dfy` (`Utf8`): UTF-8 encoding of a string of scalar values (RFC 3629), with a decoder proved to invert it.
- `decimal.dfy` (`Decimal`): `String(Int)` and `"\(value)"` of an `Int`, with a parser proved to invert them.
- `data.dfy` (`DataBuffer`): Swift `Data` as the class `ByteBuffer`, with `append` and `appendString(string:)` changing its `bytes` in place.
- `request_error.dfy`, `request_type.dfy`, `locale.dfy`: `RequestError` and its `statusCode`, `RequestType` and its raw values, and `Locale.acceptLanguage`.
- `endpoint.dfy` (`Endpoints`): the plain values, namely the `Endpoint` fields, the upload payload, URLs, query items and the assembled request.
- `query.dfy` (`Query`): the `+` to `%2B` escape that the GET builder applies to the percent-encoded query.
- `multipart.dfy` (`Multipart`): the body that `getParameterBody` writes for an upload, as the code writes it. Beside it is the corrected body, framed as in section 5.1.1 of RFC 2046.
- `response.dfy` (`Responses`): `parseResponse`, over the status-code classes of section 15 of RFC 9110.
- `builders.dfy` (`RequestBuilders`): what each builder and each `sendRequest` returns, as functions of their inputs.
- `api_manager.dfy` (`Manager`): the class `APIManager`. `boundaryString`, the builders, `getParameterBody` with its `for` loop of appends, `createRequest` and both `sendRequest`s are methods. Each is proved to compute the functions of `RequestBuilders` and `Multipart`.

How the effects of the code become inputs:
- `NSUUID()` is a stream `uuids: nat -> string` held by the manager. The field `minted` counts how many UUIDs have been read, and every read of `boundaryString` advances it.
- `Date()` is the parameter `now`, already truncated to whole seconds.
- `NetworkMonitor.checkConnection()` is the boolean `connected`.
- `URLSession.shared.data(for:)` is the function `transport`.
- The JSON decoder and `JSONSerialization` are the oracles `decode` and `serializeJson`.
- `URLComponents` percent-encoding is the oracle `percentEncode`.
- `Locale.current.identifier` is the constructor's `localeIdentifier`.

## Model

| member | source | states |
|---|---|---|
| DataBuffer.ByteBuffer.constructor | Sources/APIManager/APIManager.swift:128 | `Data()` is an empty buffer |
| DataBuffer.ByteBuffer.Append | Sources/APIManager/Extensions/Data.swift:6 | the given bytes go on the end of the buffer |
| DataBuffer.ByteBuffer.AppendString | Sources/APIManager/Extensions/Data.swift:4-7 | the new length is the old length plus the length of the UTF-8 encoding; the old contents stay as a prefix; the suffix is exactly the encoding; appending `""` changes nothing |
| Utf8.Encode | Sources/APIManager/Extensions/Data.swift:5 | the encoding takes between one and four bytes per character |
| Utf8.DecodeEncode | Sources/APIManager/Extensions/Data.swift:5 | decoding the encoding of any string gives the string back, so `appendString` loses nothing |
| Utf8.EncodeDecode | Sources/APIManager/Extensions/Data.swift:5 | every byte sequence the decoder accepts is the encoding of what it decodes to |
| Utf8.EncodeInjective | Sources/APIManager/Extensions/Data.swift:5 | distinct strings have distinct encodings |
| Utf8.EncodeConcat | Sources/APIManager/Extensions/Data.swift:4-7 | encoding a concatenation gives the concatenation of the encodings, so successive `appendString` calls write the encoding of the joined text |
| Utf8.EncodeAscii | Sources/APIManager/Extensions/Data.swift:5 | an ASCII string encodes to one byte per character, each equal to its code |
| Decimal.ToDecimal | Sources/APIManager/APIManager.swift:139 | `String(Int)`: the decimal numeral, with a minus sign for a negative number; `FromToDecimal` and `DigitsWellFormed` state its properties |
| Decimal.DigitsWellFormed | Sources/APIManager/APIManager.swift:139 | `String(Int)` of a natural number is a non-empty string of digits without a leading zero |
| Decimal.DigitsValueOfDigits | Sources/APIManager/APIManager.swift:139 | the digits of `n` read back as `n` |
| Decimal.FromToDecimal | Sources/APIManager/APIManager.swift:139 | the decimal rendering of every integer, negative ones included, parses back to that integer |
| Endpoints.Describe | Sources/APIManager/APIManager.swift:133 | `"\(value)"` of a parameter value, also used for the query items at line 91; `DescribeReadsBack` states its properties |
| Endpoints.DescribeReadsBack | Sources/APIManager/APIManager.swift:133 | `"\(value)"` renders a string as itself and an integer as a numeral that reads back as the same integer |
| RequestErrors.StatusCode | Sources/APIManager/RequestError.swift:11-18 | `statusCode` is 400 or 403, and it is 400 exactly for `noResponse` |
| RequestTypes.RawValue | Sources/APIManager/RequestType.swift:3-9 | every raw value is a non-empty word of upper-case ASCII letters |
| RequestTypes.FromRawValue | Sources/APIManager/RequestType.swift:3-9 | `init?(rawValue:)` returns `t` exactly when `t.rawValue` is the given string |
| RequestTypes.RawValueRoundTrip | Sources/APIManager/RequestType.swift:3 | `RequestType(rawValue: t.rawValue) == t` for every case |
| RequestTypes.RawValueInjective | Sources/APIManager/RequestType.swift:3-9 | distinct cases have distinct raw values |
| LocaleTags.AcceptLanguage | Sources/APIManager/Extensions/Locale+acceptLanguage.swift:11-13 | the tag has the identifier's length; it has `-` where the identifier has `_` and the identifier's character everywhere else; it contains no `_` |
| LocaleTags.AcceptLanguageIdempotent | Sources/APIManager/Extensions/Locale+acceptLanguage.swift:11-13 | applying the replacement to its own output changes nothing |
| Query.EscapePlus | Sources/APIManager/APIManager.swift:93 | the escaped query contains no literal `+`, is at least as long as the input, and starts with `%` where the input started with `+` |
| Query.UnescapeEscape | Sources/APIManager/APIManager.swift:93 | on a query without a `%2B` of its own, reading `%2B` back as `+` undoes the escape |
| Responses.ParseResponse | Sources/APIManager/APIManager.swift:53-78 | never `nil`; no response gives `noResponse`; a 2xx status gives `success(v)` for a decoded `v`, `decodingError(e)` for a thrown `DecodingError` `e`, and `statusNotOk` for any other thrown error; a 4xx status gives `unknown(data)` with the bytes unchanged; any other status gives `unexpectedStatusCode` |
| Responses.ParseResponseCases | Sources/APIManager/APIManager.swift:53-78 | the converse direction: each result arises exactly in its own situation, carries the decoded value, the decoder's error or the response bytes, and is never `invalidURL` |
| Responses.ParseResponseStatusCode | Sources/APIManager/APIManager.swift:58-59 | a classified failure has `statusCode` 400 exactly when there was no response |
| Multipart.BoundaryToken | Sources/APIManager/APIManager.swift:6 | `"Boundary-\(uuid)"`; `DashLineOfUuidIsAscii` states the shape of its delimiter line, and `Manager.APIManager.BoundaryString` states that each read uses the next UUID |
| Multipart.MimeType | Sources/APIManager/APIManager.swift:138 | `file.mimetype ?? "someType"`; it gives the MIME type of the file section in `AsWrittenBody` and `FixedBody` |
| Multipart.FileName | Sources/APIManager/APIManager.swift:139 | the timestamp numeral followed by the MIME type; `FileNameCarriesTimestamp` states that it reads back as the timestamp and the MIME type |
| Multipart.ParamSections | Sources/APIManager/APIManager.swift:130-135 | the parameter sections the loop writes, section `k` delimited by the UUIDs `next + 2k` and `next + 2k + 1`; `ParamSectionsSnoc` and `Manager.APIManager.AppendParameterSections` state how the loop builds them |
| Multipart.AsWrittenBody | Sources/APIManager/APIManager.swift:127-146 | the body the file branch writes; `FileSectionOpens`, `FileSectionCloses`, `FileBytesVerbatim`, `AsWrittenOpensWithFreshToken`, `AsWrittenClosesBeforeFile` and `AsWrittenAgreesWithoutParameters` state its properties, and `Manager.APIManager.MultipartBody` states that the appends build it |
| Multipart.FixedBody | Sources/APIManager/APIManager.swift:127-146 | the corrected body, with every delimiter using the announced boundary and only the last one closing; `FixedBodyIsFramed` states that it is the RFC 2046 multipart body |
| Multipart.ParamSectionsSnoc | Sources/APIManager/APIManager.swift:130-135 | each loop round adds the section of the next parameter, whose two delimiters are the next two minted UUIDs |
| Multipart.EncodeParamSection | Sources/APIManager/APIManager.swift:131-134 | the encoding of a parameter section is the four strings the loop body appends |
| Multipart.FileSectionOpens | Sources/APIManager/APIManager.swift:140 | right after the parameter sections, the body holds the dash line of `boundary ?? ""`, with room after it for the file and the close-delimiter |
| Multipart.FileSectionCloses | Sources/APIManager/APIManager.swift:144-145 | the body ends with CRLF and the close-delimiter of `boundary ?? ""` |
| Multipart.FileBytesVerbatim | Sources/APIManager/APIManager.swift:143-145 | the file bytes stand verbatim just before the final CRLF and close-delimiter |
| Multipart.FileNameCarriesTimestamp | Sources/APIManager/APIManager.swift:139 | the file name is the decimal timestamp, which reads back as `now`, followed by the MIME type |
| Multipart.DashLineOfUuidIsAscii | Sources/APIManager/APIManager.swift:5-7 | a delimiter line made from a UUID string is 49 ASCII characters and carries the UUID at a fixed position |
| Multipart.AsWrittenOpensWithFreshToken | Sources/APIManager/APIManager.swift:131 | with a parameter and distinct UUIDs, the body opens with the dash line of the second minted token and not with the announced token's |
| Multipart.AsWrittenClosesBeforeFile | Sources/APIManager/APIManager.swift:134 | with a parameter, a close-delimiter stands inside the parameter sections, before the file section |
| Multipart.FixedSectionsChain | Sources/APIManager/APIManager.swift:129-146 | the corrected parameter sections and the file section chain into RFC 2046 encapsulations, one per part, in order |
| Multipart.FixedBodyIsFramed | Sources/APIManager/APIManager.swift:127-146 | the corrected body is the RFC 2046 multipart body over the announced boundary: one part per parameter, in order, then the file part |
| Multipart.AsWrittenAgreesWithoutParameters | Sources/APIManager/APIManager.swift:127-146 | without parameters, the body as written is already the corrected body |
| RequestBuilders.HeaderFields | Sources/APIManager/APIManager.swift:97 | `endpoint.header ?? [:]`, also what line 112 assigns; `GetRequest` and `PostRequest` state that every header other than the one they set is the caller's |
| RequestBuilders.QueryItems | Sources/APIManager/APIManager.swift:90-92 | one query item per parameter, its name the key and its value `"\(value)"`; `EncodedQuery` and `GetQueryRoundTrip` state what becomes of them |
| RequestBuilders.JsonBody | Sources/APIManager/APIManager.swift:148-152 | no parameters give no body, otherwise the serialiser's answer; `PostRequest` states that a request without a file carries a body exactly when the parameters serialise |
| RequestBuilders.EncodedQuery | Sources/APIManager/APIManager.swift:90-93 | there is a query exactly when there are parameters, and it contains no `+` |
| RequestBuilders.GetRequest | Sources/APIManager/APIManager.swift:85-103 | the method is the type's raw value; there is no body; the location is kept; a query is present exactly when there are parameters, and it has no `+`; `Accept-Language` is the locale tag, overriding any caller value; every other header is the caller's |
| RequestBuilders.GetQueryRoundTrip | Sources/APIManager/APIManager.swift:93 | no query is lost: unescaping the request's query recovers what `URLComponents` encoded |
| RequestBuilders.PostRequest | Sources/APIManager/APIManager.swift:105-124 | the method is the type's raw value and the URL is kept; without a file, the headers are `endpoint.header ?? [:]` and there is a body exactly when the parameters serialise, that body being their serialisation; with a file, there is a body and a `Content-Type`; every other header is the caller's |
| RequestBuilders.MultipartRequestOpens | Sources/APIManager/APIManager.swift:114-140 | `Content-Type` is `multipart/form-data; boundary=B` for the first token the call mints, and the file section after the parameter sections opens with `--B` CRLF |
| RequestBuilders.MultipartRequestCloses | Sources/APIManager/APIManager.swift:114-145 | with that same `B`, the body ends with CRLF `--B--` CRLF, and the file bytes stand verbatim just before it |
| RequestBuilders.MultipartRequestOpensWithOtherToken | Sources/APIManager/APIManager.swift:115-131 | with a parameter and distinct UUIDs, the body does not open with the delimiter of the announced token |
| RequestBuilders.FixedPostRequest | Sources/APIManager/APIManager.swift:105-124 | the corrected POST builder: with a file, the body is framed by the one boundary its `Content-Type` announces; without one, it builds what the code builds |
| RequestBuilders.FixedPostRequestAgreesWithoutParameters | Sources/APIManager/APIManager.swift:114-117 | without parameters, the request the code builds is already the corrected one |
| RequestBuilders.BuiltRequest | Sources/APIManager/APIManager.swift:156-172 | `.get` goes to the GET builder and every other type to the POST builder; the method is the type's raw value |
| RequestBuilders.BuiltRequestShape | Sources/APIManager/APIManager.swift:156-172 | the method token parses back to the request type; only a non-GET request has a body, and it has one whenever a file is given; a GET request carries the locale's `Accept-Language`, and a non-GET request carries `Accept-Language` exactly when the caller's headers do |
| RequestBuilders.AsHttp | Sources/APIManager/APIManager.swift:33 | `response as? HTTPURLResponse`; `SendOutcomeDelivered` states that `parseResponse` classifies its result |
| RequestBuilders.SendOutcome | Sources/APIManager/APIManager.swift:14-37 | never `nil`; no connection gives `noResponse`; no URL gives `invalidURL`; a transport error gives `statusNotOk`; success needs a connection and a URL |
| RequestBuilders.SendOutcomeDelivered | Sources/APIManager/APIManager.swift:31-33 | a delivered exchange is classified by `parseResponse` on the delivered bytes and response |
| RequestBuilders.RawSendOutcome | Sources/APIManager/APIManager.swift:39-51 | it throws `invalidURL` exactly when there is no URL; with a URL, it passes a transport error on exactly when the transport throws for the built request, and otherwise returns what the transport delivered |
| Manager.APIManager.constructor | Sources/APIManager/APIManager.swift:9-12 | `acceptLanguage` is the locale's tag and has no `_`; no UUID has been read |
| Manager.APIManager.BoundaryString | Sources/APIManager/APIManager.swift:5-7 | each read returns `Boundary-` and the next UUID, and mints one |
| Manager.APIManager.CreateGetRequestWithUrlComponents | Sources/APIManager/APIManager.swift:85-103 | the local steps build `GetRequest` |
| Manager.APIManager.GetParameterBody | Sources/APIManager/APIManager.swift:126-154 | with a file, the multipart body as written, minting two UUIDs per parameter; without one, the JSON serialisation of the parameters if any, minting none |
| Manager.APIManager.MultipartBody | Sources/APIManager/APIManager.swift:127-146 | the buffer grown by the loop and the file appends holds the as-written body |
| Manager.APIManager.AppendParameterSections | Sources/APIManager/APIManager.swift:130-135 | the loop appends the parameter sections, in order, and mints two UUIDs per parameter |
| Manager.APIManager.AppendParameterSection | Sources/APIManager/APIManager.swift:131-134 | one round appends one section, whose delimiters are two fresh reads of `boundaryString` |
| Manager.AppendFileSection | Sources/APIManager/APIManager.swift:138-145 | the appends after the loop add the dash line, the file headers, the file bytes and the close-delimiter of `boundary ?? ""` |
| Manager.APIManager.CreatePostRequestWithBody | Sources/APIManager/APIManager.swift:105-124 | the local steps build `PostRequest`, minting one UUID for the header and two per parameter when there is a file |
| Manager.APIManager.CreateRequest | Sources/APIManager/APIManager.swift:156-172 | the dispatch builds `BuiltRequest` |
| Manager.APIManager.SendRequest | Sources/APIManager/APIManager.swift:14-37 | the guards and the classification compute `SendOutcome` |
| Manager.APIManager.SendRawRequest | Sources/APIManager/APIManager.swift:39-51 | it computes `RawSendOutcome` and mints no UUID |

## Left out

- The `async` structure and `URLSession` itself. The round trip is the input `transport`: it either throws or delivers bytes and a response.
- `NetworkMonitor`, an OS reachability API. Its answer is the input `connected`.
- `JSONDecoder`, `JSONSerialization`, `Data.decode` and `prettyPrintedJSONString`, which are foreign codecs. The decoder's outcome and the serialiser are oracles, and the last two are not modelled.
- `URLComponents` percent-encoding and `URLQueryItem`. The encoder is the oracle `percentEncode`, and a URL is its part before the query plus the percent-encoded query.
- The force unwrap of `URLComponents(string:)`, which is not modelled: the model assumes the URL parses.
- The `components.url ?? url` fallback, which is not modelled: the model assumes that setting the query always yields a URL.
- `NSUUID()` and `Date()`, which are nondeterministic. They are the stream `uuids` and the parameter `now`.
- `Locale.current`, which is global platform state. Its identifier is an input.
- The iteration order of a Swift `Dictionary`. Parameters are a sequence of pairs, and every statement holds in that sequence's order.
- The uniqueness of `Dictionary` keys. A sequence of pairs can repeat a key, which a Swift `Dictionary` cannot. No stated property depends on keys being distinct.
- Swift header dictionaries compare field names case-sensitively, and so does the model. `URLRequest`'s own case-insensitive field lookup is not modelled.
- `"\(value)"` for values other than strings, integers and booleans (floating point, arrays, dictionaries). They have no case in `ParamValue`.
- The `isDebug` flags, which are unused.
- The builders can return `nil` in their signatures, but they never do, so the model's builders return a request. The `invalidURL` branch of `sendRequest` is therefore reached only for a missing `endpoint.url`.
- Multipart.FileSectionOpens: states where the dash line of the file section stands, but not where the file's header lines stand after it. The header lines are part of the body's definition, `AsWrittenBody`.
- `Endpoint` and `Server` have no behaviour. They appear only as plain datatypes.

Only the GET builder sets `Accept-Language`; the POST builder copies `endpoint.header` and adds only `Content-Type` (`BuiltRequestShape`).

## Findings

| source | as written | input that shows it | evidently intended | confidence | as-written member | corrected member |
|---|---|---|---|---|---|---|
| Sources/APIManager/APIManager.swift:131 | each parameter section's opening delimiter reads `boundaryString`, which mints a new UUID, so it differs from the boundary announced in `Content-Type` at line 116 | a file and one parameter, with UUIDs `u0` announced and `u1` read next: the body opens with `--Boundary-u1`, while the header names `Boundary-u0` | every delimiter uses the announced `boundary` | high; not executed | Multipart.AsWrittenOpensWithFreshToken | Multipart.FixedBodyIsFramed |
| Sources/APIManager/APIManager.swift:134 | every parameter section ends with a close-delimiter line `--token--` CRLF, written by the section's second read of `boundaryString`. As written, these tokens are not the announced boundary, so the parameter sections fall into the preamble. Once the delimiters use the announced boundary, as the first row's fix does, this line ends the multipart body before the file part | a file and one parameter, with UUIDs `u0` announced (line 115), `u1` read at line 131 and `u2` at line 134: the line `--Boundary-u2--` CRLF stands before the file section | parameter parts are separated by plain delimiters of the announced boundary, and only the body's last delimiter is a close-delimiter | high; not executed | Multipart.AsWrittenClosesBeforeFile | RequestBuilders.FixedPostRequest |

The manager's methods compute the body as the code writes it, since that is what the library sends. The corrected body `FixedBody`, its framing lemma and the corrected builder `FixedPostRequest` state what the code evidently intends.
