/** `parseResponse`: the classification of a finished HTTP exchange by the
    status-code classes of section 15 of RFC 9110, with the JSON decoder
    given as the outcome it produced on the response bytes. */
module Responses {
  import opened Wrappers
  import opened Utf8
  import opened RequestErrors

  /** What `JSONDecoder().decode(model, from: data)` did: return a value,
      throw a `DecodingError`, or throw some other error. */
  datatype DecodeOutcome<T> = Decoded(value: T) | ThrewDecodingError(error: DecodingError) | ThrewOther

  /** The part of an `HTTPURLResponse` the classifier reads. */
  datatype HttpResponse = HttpResponse(statusCode: int)

  /** 2xx (Successful), section 15.3 of RFC 9110. */
  predicate IsSuccessful(code: int)
  {
    200 <= code <= 299
  }

  /** 4xx (Client Error), section 15.5 of RFC 9110. */
  predicate IsClientError(code: int)
  {
    400 <= code <= 499
  }

  /** The response, if there is one, is classified by its status; the
      decoder is consulted only for a 2xx status. The result is never `nil`. */
  function ParseResponse<T>(response: Option<HttpResponse>, data: seq<byte>, decoded: DecodeOutcome<T>)
    : (r: Option<Result<T, RequestError>>)
    ensures r.Some?
    ensures response.None? ==> r == Some(Failure(NoResponse))
    ensures response.Some? && IsSuccessful(response.value.statusCode) ==>
              match decoded
              case Decoded(v) => r == Some(Success(v))
              case ThrewDecodingError(e) => r == Some(Failure(DecodeFailure(e)))
              case ThrewOther => r == Some(Failure(StatusNotOk))
    ensures response.Some? && IsClientError(response.value.statusCode) ==> r == Some(Failure(Unknown(data)))
    ensures (response.Some? && !IsSuccessful(response.value.statusCode) && !IsClientError(response.value.statusCode))
              ==> r == Some(Failure(UnexpectedStatusCode))
  {
    if response.None? then Some(Failure(NoResponse))
    else
      var code := response.value.statusCode;
      if 200 <= code <= 299 then
        match decoded
        case Decoded(v) => Some(Success(v))
        case ThrewDecodingError(e) => Some(Failure(DecodeFailure(e)))
        case ThrewOther => Some(Failure(StatusNotOk))
      else if 400 <= code <= 499 then Some(Failure(Unknown(data)))
      else Some(Failure(UnexpectedStatusCode))
  }

  /** The converse direction: each result names the one situation that
      produces it. A success carries the decoded value, a decoding failure
      the decoder's own error, `unknown` the response bytes unchanged; the
      classifier never reports `invalidURL`. */
  lemma ParseResponseCases<T>(response: Option<HttpResponse>, data: seq<byte>, decoded: DecodeOutcome<T>)
    ensures var r := ParseResponse(response, data, decoded).value;
            && (r.Success? <==> response.Some? && IsSuccessful(response.value.statusCode) && decoded.Decoded?)
            && (r.Success? ==> r.value == decoded.value)
            && (r == Failure(NoResponse) <==> response.None?)
            && (r.Failure? && r.error.DecodeFailure? <==>
                  response.Some? && IsSuccessful(response.value.statusCode) && decoded.ThrewDecodingError?)
            && (r.Failure? && r.error.DecodeFailure? ==> r.error.cause == decoded.error)
            && (r == Failure(StatusNotOk) <==>
                  response.Some? && IsSuccessful(response.value.statusCode) && decoded.ThrewOther?)
            && (r.Failure? && r.error.Unknown? <==> response.Some? && IsClientError(response.value.statusCode))
            && (r.Failure? && r.error.Unknown? ==> r.error.data == data)
            && (r == Failure(UnexpectedStatusCode) <==>
                  response.Some? && !IsSuccessful(response.value.statusCode) && !IsClientError(response.value.statusCode))
            && r != Failure(InvalidURL)
  {
  }

  /** A missing response is the one failure whose `statusCode` is 400. */
  lemma ParseResponseStatusCode<T>(response: Option<HttpResponse>, data: seq<byte>, decoded: DecodeOutcome<T>)
    requires ParseResponse(response, data, decoded).value.Failure?
    ensures StatusCode(ParseResponse(response, data, decoded).value.error) == 400 <==> response.None?
  {
  }
}
