/** The error taxonomy of Sources/APIManager/RequestError.swift. */
module RequestErrors {
  import opened Utf8

  /** Swift's `DecodingError`, each case with its debug description. */
  datatype DecodingError =
    | TypeMismatch(description: string)
    | ValueNotFound(description: string)
    | KeyNotFound(key: string, description: string)
    | DataCorrupted(description: string)

  datatype RequestError =
    | StatusNotOk
    | DecodeFailure(cause: DecodingError)
    | InvalidURL
    | NoResponse
    | UnexpectedStatusCode
    | Unknown(data: seq<byte>)

  /** `statusCode`: 400 for a missing response, 403 for everything else. */
  function StatusCode(e: RequestError): (code: int)
    ensures code == 400 || code == 403
    ensures code == 400 <==> e.NoResponse?
  {
    match e
    case NoResponse => 400
    case _ => 403
  }
}
