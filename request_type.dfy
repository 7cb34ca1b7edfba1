/** The HTTP methods of Sources/APIManager/RequestType.swift, a `String`-backed
    enum. */
module RequestTypes {
  import opened Wrappers

  datatype RequestType = Post | Get | Delete | Patch | Put

  predicate IsUpperAsciiWord(s: string)
  {
    |s| > 0 && forall i :: 0 <= i < |s| ==> 'A' <= s[i] <= 'Z'
  }

  /** `rawValue`: the method token sent on the wire. */
  function RawValue(t: RequestType): (s: string)
    ensures IsUpperAsciiWord(s)
  {
    match t
    case Post => "POST"
    case Get => "GET"
    case Delete => "DELETE"
    case Patch => "PATCH"
    case Put => "PUT"
  }

  /** `init?(rawValue:)`: the case whose raw value is `s`, if any. Its
      contract makes it the exact inverse of `RawValue`, and so `RawValue`
      injective. */
  function FromRawValue(s: string): (r: Option<RequestType>)
    ensures forall t :: r == Some(t) <==> RawValue(t) == s
  {
    if s == "POST" then Some(Post)
    else if s == "GET" then Some(Get)
    else if s == "DELETE" then Some(Delete)
    else if s == "PATCH" then Some(Patch)
    else if s == "PUT" then Some(Put)
    else None
  }

  /** `RequestType(rawValue: t.rawValue) == t` */
  lemma RawValueRoundTrip(t: RequestType)
    ensures FromRawValue(RawValue(t)) == Some(t)
  {
  }

  /** Distinct cases have distinct raw values. */
  lemma RawValueInjective(t: RequestType, u: RequestType)
    requires RawValue(t) == RawValue(u)
    ensures t == u
  {
    RawValueRoundTrip(t);
    RawValueRoundTrip(u);
  }
}
