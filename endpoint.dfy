/** The plain values the request builders work on: the fields of the
    `Endpoint` protocol, the upload payload, URLs, query items and the
    assembled request. */
module Endpoints {
  import opened Wrappers
  import opened Utf8
  import opened Decimal
  import opened RequestTypes

  /** The parameter values the library renders with `"\(value)"`. */
  datatype ParamValue = Text(text: string) | Integer(number: int) | Boolean(flag: bool)

  /** A `[String: Any]` parameter dictionary, in the order it is iterated.
      Unlike a dictionary, the sequence may repeat a key; nothing here
      depends on the keys being distinct. */
  type Params = seq<(string, ParamValue)>

  /** `"\(value)"`: each value as text. */
  function Describe(v: ParamValue): string
  {
    match v
    case Text(t) => t
    case Integer(n) => ToDecimal(n)
    case Boolean(b) => if b then "true" else "false"
  }

  /** A string is rendered as itself, an integer as a numeral that reads
      back as the same integer. */
  lemma DescribeReadsBack(v: ParamValue)
    ensures v.Text? ==> Describe(v) == v.text
    ensures v.Integer? ==> FromDecimal(Describe(v)) == Some(v.number)
  {
    if v.Integer? {
      FromToDecimal(v.number);
    }
  }

  datatype Server = TakeClass(name: string) | Slack

  /** A URL split into everything up to its query and its percent-encoded
      query, which `URLComponents` replaces as a whole. */
  datatype Url = Url(location: string, percentEncodedQuery: Option<string>)

  datatype Endpoint = Endpoint(
    path: string,
    requestType: RequestType,
    header: Option<map<string, string>>,
    parameters: Option<Params>,
    url: Option<Url>,
    server: Server)

  /** The file of a multipart upload and its optional MIME type. */
  datatype UploadData = UploadData(file: seq<byte>, mimetype: Option<string>)

  datatype QueryItem = QueryItem(name: string, value: string)

  /** A `URLRequest`: method, URL, header fields and optional body. */
  datatype Request = Request(
    httpMethod: string,
    url: Url,
    headers: map<string, string>,
    httpBody: Option<seq<byte>>)
}
