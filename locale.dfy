/** `Locale.acceptLanguage` of
    Sources/APIManager/Extensions/Locale+acceptLanguage.swift: the locale
    identifier with every `_` replaced by `-`, so that `en_US` becomes the
    language tag `en-US` that an `Accept-Language` header (section 12.5.4 of
    RFC 9110) carries. */
module LocaleTags {

  function AcceptLanguage(identifier: string): (tag: string)
    ensures |tag| == |identifier|
    ensures forall i :: 0 <= i < |identifier| ==>
      tag[i] == (if identifier[i] == '_' then '-' else identifier[i])
    ensures '_' !in tag
  {
    if identifier == [] then []
    else [if identifier[0] == '_' then '-' else identifier[0]] + AcceptLanguage(identifier[1..])
  }

  /** A tag that has been through the replacement is left as it is. */
  lemma AcceptLanguageIdempotent(identifier: string)
    ensures AcceptLanguage(AcceptLanguage(identifier)) == AcceptLanguage(identifier)
  {
    var tag := AcceptLanguage(identifier);
    assert forall i :: 0 <= i < |tag| ==> tag[i] != '_';
  }
}
