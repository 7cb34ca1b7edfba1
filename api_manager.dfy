/** The `APIManager` class of Sources/APIManager/APIManager.swift. Its
    request builders and `getParameterBody` work step by step, as the code
    does, and are proved to compute the functions of module
    `RequestBuilders`. The UUIDs that `NSUUID()` mints are the stream
    `uuids`, `minted` counting how many have been read; the clock and the
    connectivity check are inputs; the transport, the JSON decoder, the JSON
    serialiser and `URLComponents` percent-encoding are oracles. */
module Manager {
  import opened Wrappers
  import opened Utf8
  import opened RequestTypes
  import opened RequestErrors
  import opened LocaleTags
  import opened Endpoints
  import opened Multipart
  import opened Query
  import opened Responses
  import opened DataBuffer
  import opened RequestBuilders
  import opened Sequences

  class APIManager {
    /** `Locale.current.acceptLanguage`, fixed when the manager is made. */
    const acceptLanguage: string
    const uuids: nat -> string
    const percentEncode: seq<QueryItem> -> string
    const serializeJson: Params -> Option<seq<byte>>
    var minted: nat

    constructor (localeIdentifier: string, uuids: nat -> string, percentEncode: seq<QueryItem> -> string,
                 serializeJson: Params -> Option<seq<byte>>)
      ensures acceptLanguage == AcceptLanguage(localeIdentifier)
      ensures '_' !in acceptLanguage
      ensures this.uuids == uuids && this.percentEncode == percentEncode && this.serializeJson == serializeJson
      ensures minted == 0
    {
      acceptLanguage := AcceptLanguage(localeIdentifier);
      this.uuids := uuids;
      this.percentEncode := percentEncode;
      this.serializeJson := serializeJson;
      minted := 0;
    }

    /** `boundaryString`: every read mints a fresh UUID. */
    method BoundaryString() returns (boundary: string)
      modifies this
      ensures boundary == BoundaryToken(uuids(old(minted)))
      ensures minted == old(minted) + 1
    {
      boundary := BoundaryToken(uuids(minted));
      minted := minted + 1;
    }

    /** `createGetRequestWithURLComponents(url:endpoint:)` */
    method CreateGetRequestWithUrlComponents(url: Url, endpoint: Endpoint) returns (request: Request)
      ensures request == GetRequest(url, endpoint, acceptLanguage, percentEncode)
    {
      var query: Option<string> := None;
      if endpoint.parameters.Some? {
        var encoded := percentEncode(QueryItems(endpoint.parameters.value));
        query := Some(EscapePlus(encoded));
      }
      var header := if endpoint.header.Some? then endpoint.header.value else map[];
      header := header[AcceptLanguageField := acceptLanguage];
      request := Request(RawValue(endpoint.requestType), Url(url.location, query), header, None);
    }

    /** `getParameterBody(with:file:boundary:)`: with a file, the multipart
        body, two fresh UUIDs being read per parameter; without one, the JSON
        serialisation of the parameters, if there are any and they
        serialise. */
    method GetParameterBody(parameters: Option<Params>, file: Option<UploadData>, boundary: Option<string>,
                            now: int) returns (body: Option<seq<byte>>)
      modifies this
      ensures file.Some? ==>
                body == Some(AsWrittenBody(OptionalFields(parameters), file.value, boundary, now, uuids, old(minted)))
      ensures file.None? ==> body == JsonBody(parameters, serializeJson)
      ensures minted == old(minted) + (if file.Some? then 2 * ParameterCount(parameters) else 0)
    {
      if file.Some? {
        var bytes := MultipartBody(parameters, file.value, boundary, now);
        body := Some(bytes);
      } else {
        body := if parameters.Some? then serializeJson(parameters.value) else None;
      }
    }

    /** The `if let file` branch: the parameter sections written into a
        fresh buffer, then the file section. */
    method MultipartBody(parameters: Option<Params>, file: UploadData, boundary: Option<string>,
                         now: int) returns (bytes: seq<byte>)
      modifies this
      ensures bytes == AsWrittenBody(OptionalFields(parameters), file, boundary, now, uuids, old(minted))
      ensures minted == old(minted) + 2 * ParameterCount(parameters)
    {
      var httpBody := new ByteBuffer();
      ghost var first := minted;
      ghost var fields := OptionalFields(parameters);
      if parameters.Some? {
        AppendParameterSections(httpBody, parameters.value);
        EmptyLeft(Encode(ParamSections(fields.value, uuids, first)));
        assert httpBody.bytes == Encode(ParamSections(fields.value, uuids, first));
      } else {
        assert httpBody.bytes == Encode("");
      }
      assert minted == first + 2 * ParameterCount(parameters);
      ghost var sections := httpBody.bytes;
      assert sections == Encode(OptionalParamSections(fields, uuids, first));
      AppendFileSection(httpBody, file, boundary, now);
      bytes := httpBody.bytes;
    }

    /** The `for (key, value) in parameters` loop: each parameter's section,
        its two delimiters read from `boundaryString`. */
    method AppendParameterSections(httpBody: ByteBuffer, ps: Params)
      modifies this, httpBody
      ensures httpBody.bytes == old(httpBody.bytes) + Encode(ParamSections(Fields(ps), uuids, old(minted)))
      ensures minted == old(minted) + 2 * |ps|
    {
      ghost var fields := Fields(ps);
      ghost var before := httpBody.bytes;
      var first := minted;
      var i := 0;
      while i < |ps|
        invariant 0 <= i <= |ps|
        invariant minted == first + 2 * i
        invariant httpBody.bytes == before + Encode(ParamSections(fields[..i], uuids, first))
      {
        ghost var done := httpBody.bytes;
        AppendParameterSection(httpBody, ps[i].0, Describe(ps[i].1));
        ParamSectionsSnoc(fields, i, uuids, first);
        ghost var section := ParamSection(fields[i].0, fields[i].1, BoundaryToken(uuids(first + 2 * i)),
                                          BoundaryToken(uuids(first + 2 * i + 1)));
        EncodeConcat(ParamSections(fields[..i], uuids, first), section);
        Associate(before, Encode(ParamSections(fields[..i], uuids, first)), Encode(section));
        i := i + 1;
      }
      assert fields[..|ps|] == fields;
    }

    /** One round of the loop: the section of one parameter, between two
        fresh reads of `boundaryString`. */
    method AppendParameterSection(httpBody: ByteBuffer, key: string, value: string)
      modifies this, httpBody
      ensures httpBody.bytes == old(httpBody.bytes)
                                + Encode(ParamSection(key, value, BoundaryToken(uuids(old(minted))),
                                                      BoundaryToken(uuids(old(minted) + 1))))
      ensures minted == old(minted) + 2
    {
      ghost var before := httpBody.bytes;
      var open := BoundaryString();
      httpBody.AppendString(DashLine(open));
      httpBody.AppendString(Disposition(key));
      httpBody.AppendString(ValueLine(value));
      var close := BoundaryString();
      httpBody.AppendString(CloseLine(close));
      EncodeParamSection(key, value, open, close);
      Regroup(before, Encode(DashLine(open)), Encode(Disposition(key)), Encode(ValueLine(value)),
                    Encode(CloseLine(close)));
    }

    /** `createPostRequestWithBody(url:endpoint:file:)`: with a file, one
        read of `boundaryString` for the header token, then the body's own
        reads. */
    method CreatePostRequestWithBody(url: Url, endpoint: Endpoint, file: Option<UploadData>, now: int)
      returns (request: Request)
      modifies this
      ensures request == PostRequest(url, endpoint, file, now, uuids, old(minted), serializeJson)
      ensures minted == old(minted) + BodyTokens(endpoint.parameters, file)
    {
      var header := if endpoint.header.Some? then endpoint.header.value else map[];
      var body: Option<seq<byte>> := None;
      if file.Some? {
        var boundary := BoundaryString();
        header := header[ContentTypeField := MultipartContentType(boundary)];
        body := GetParameterBody(endpoint.parameters, file, Some(boundary), now);
      } else {
        var requestBody := GetParameterBody(endpoint.parameters, None, None, now);
        if requestBody.Some? {
          body := requestBody;
        }
      }
      request := Request(RawValue(endpoint.requestType), url, header, body);
    }

    /** `createRequest(with:endpoint:file:)` */
    method CreateRequest(url: Url, endpoint: Endpoint, file: Option<UploadData>, now: int) returns (request: Request)
      modifies this
      ensures request == BuiltRequest(url, endpoint, file, now, acceptLanguage, uuids, old(minted),
                                      percentEncode, serializeJson)
      ensures minted == old(minted) + TokensUsed(endpoint, file)
    {
      match endpoint.requestType
      case Get =>
        request := CreateGetRequestWithUrlComponents(url, endpoint);
      case Post | Put | Patch | Delete =>
        request := CreatePostRequestWithBody(url, endpoint, file, now);
    }

    /** The typed `sendRequest(model:endpoint:file:isDebug:)`: `connected` is
        what the connectivity check answered, `transport` the round trip and
        `decode` the JSON decoder. */
    method SendRequest<T>(connected: bool, endpoint: Endpoint, file: Option<UploadData>, now: int,
                          transport: Request -> TransportOutcome, decode: seq<byte> -> DecodeOutcome<T>)
      returns (r: Option<Result<T, RequestError>>)
      modifies this
      ensures r == SendOutcome(connected, endpoint, file, now, acceptLanguage, uuids, old(minted),
                               percentEncode, serializeJson, transport, decode)
      ensures minted == old(minted) + (if connected && endpoint.url.Some? then TokensUsed(endpoint, file) else 0)
    {
      if !connected {
        return Some(Failure(NoResponse));
      }
      if endpoint.url.None? {
        return Some(Failure(InvalidURL));
      }
      var request := CreateRequest(endpoint.url.value, endpoint, file, now);
      match transport(request)
      case TransportThrew =>
        r := Some(Failure(StatusNotOk));
      case Delivered(data, response) =>
        r := ParseResponse(AsHttp(response), data, decode(data));
    }

    /** The untyped `sendRequest(endpoint:isDebug:)`, which builds no
        multipart body and so reads no UUID. */
    method SendRawRequest(endpoint: Endpoint, now: int, transport: Request -> TransportOutcome)
      returns (r: RawOutcome)
      modifies this
      ensures r == RawSendOutcome(endpoint, now, acceptLanguage, uuids, old(minted), percentEncode,
                                  serializeJson, transport)
      ensures minted == old(minted)
    {
      if endpoint.url.None? {
        return ThrewInvalidUrl;
      }
      var request := CreateRequest(endpoint.url.value, endpoint, None, now);
      match transport(request)
      case TransportThrew =>
        r := ThrewTransportError;
      case Delivered(data, response) =>
        r := RawDelivered(data, response);
    }
  }

  /** The appends after the loop: the file section delimited by
      `boundary ?? ""`. */
  method AppendFileSection(httpBody: ByteBuffer, file: UploadData, boundary: Option<string>, now: int)
    modifies httpBody
    ensures var b := if boundary.Some? then boundary.value else "";
            var m := MimeType(file);
            httpBody.bytes == old(httpBody.bytes) + Encode(DashLine(b)) + Encode(FileHeaders(FileName(now, m), m))
                              + file.file + Encode(CloseDelimiter(b))
  {
    var mimetype := if file.mimetype.Some? then file.mimetype.value else DefaultMimeType;
    var filename := FileName(now, mimetype);
    var b := if boundary.Some? then boundary.value else "";
    var disposition := "Content-Disposition: form-data; name=\"file\"; filename=\"" + filename + "\"\r\n";
    var contentType := "Content-Type: " + mimetype + "\r\n\r\n";
    ghost var before := httpBody.bytes;
    httpBody.AppendString(DashLine(b));
    httpBody.AppendString(disposition);
    httpBody.AppendString(contentType);
    httpBody.Append(file.file);
    httpBody.AppendString("\r\n");
    httpBody.AppendString(CloseLine(b));
    EncodeConcat(disposition, contentType);
    EncodeConcat("\r\n", CloseLine(b));
    FileSectionBytes(before, Encode(DashLine(b)), Encode(disposition), Encode(contentType), file.file,
                     Encode("\r\n"), Encode(CloseLine(b)));
  }

  /** The appends of the file section regroup into the pieces of the
      body. */
  lemma FileSectionBytes(sections: seq<byte>, open: seq<byte>, disposition: seq<byte>, contentType: seq<byte>,
                         file: seq<byte>, crlf: seq<byte>, closeLine: seq<byte>)
    ensures sections + open + disposition + contentType + file + crlf + closeLine
         == sections + open + (disposition + contentType) + file + (crlf + closeLine)
  {
  }
}
