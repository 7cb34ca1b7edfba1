/** The multipart/form-data body that `getParameterBody` writes when a file is
    uploaded (RFC 7578, with the delimiter syntax of section 5.1.1 of
    RFC 2046), as the code writes it and as RFC 2046 frames it.

    As written, every read of the `boundaryString` property mints a new
    `"Boundary-<UUID>"`: the two delimiters of each parameter section come
    from fresh UUIDs, and only the file section uses the token that the
    `Content-Type` header announces. The minted UUIDs are modelled as the
    stream `uuids`, `next` being the position of the first one a call uses. */
module Multipart {
  import opened Wrappers
  import opened Utf8
  import opened Decimal
  import opened Endpoints
  import opened Sequences

  /** A parameter as the body carries it: its name and its value rendered
      with `"\(value)"`. */
  type Field = (string, string)

  function Fields(ps: Params): seq<Field>
  {
    seq(|ps|, i requires 0 <= i < |ps| => (ps[i].0, Describe(ps[i].1)))
  }

  function OptionalFields(params: Option<Params>): Option<seq<Field>>
  {
    if params.Some? then Some(Fields(params.value)) else None
  }

  /** `"Boundary-\(NSUUID().uuidString)"` for the UUID string `uuid`. */
  function BoundaryToken(uuid: string): string
  {
    "Boundary-" + uuid
  }

  /** The shape of `NSUUID().uuidString`: 36 upper-case hexadecimal digits
      and hyphens. */
  predicate IsUuidString(s: string)
  {
    |s| == 36 && forall i :: 0 <= i < |s| ==> s[i] == '-' || '0' <= s[i] <= '9' || 'A' <= s[i] <= 'F'
  }

  const DefaultMimeType: string := "someType"

  /** `file.mimetype ?? "someType"` */
  function MimeType(file: UploadData): string
  {
    if file.mimetype.Some? then file.mimetype.value else DefaultMimeType
  }

  /** The upload's file name: the whole seconds of the clock, then the MIME
      type. */
  function FileName(now: int, mimetype: string): string
  {
    ToDecimal(now) + mimetype
  }

  /** dash-boundary CRLF */
  function DashLine(boundary: string): string
  {
    "--" + boundary + "\r\n"
  }

  /** CRLF, the close-delimiter `--boundary--`, and CRLF. */
  function CloseDelimiter(boundary: string): string
  {
    "\r\n" + CloseLine(boundary)
  }

  function Disposition(key: string): string
  {
    "Content-Disposition: form-data; name=\"" + key + "\"\r\n\r\n"
  }

  function FileHeaders(filename: string, mimetype: string): string
  {
    "Content-Disposition: form-data; name=\"file\"; filename=\"" + filename + "\"\r\n"
      + ("Content-Type: " + mimetype + "\r\n\r\n")
  }

  /** The value line of a parameter section. */
  function ValueLine(value: string): string
  {
    value + "\r\n"
  }

  /** `--token--` CRLF, the line that ends each parameter section. */
  function CloseLine(token: string): string
  {
    "--" + token + "--\r\n"
  }

  /** One parameter section as the loop body writes it, `open` and `close`
      being the boundary strings of its two reads of `boundaryString`. */
  function ParamSection(key: string, value: string, open: string, close: string): string
  {
    DashLine(open) + Disposition(key) + ValueLine(value) + CloseLine(close)
  }

  /** The parameter sections, section `k` using UUIDs `next + 2k` and
      `next + 2k + 1`. */
  function ParamSections(ps: seq<Field>, uuids: nat -> string, next: nat): string
    decreases |ps|
  {
    if ps == [] then "" else
      ParamSection(ps[0].0, ps[0].1, BoundaryToken(uuids(next)), BoundaryToken(uuids(next + 1)))
      + ParamSections(ps[1..], uuids, next + 2)
  }

  function OptionalParamSections(params: Option<seq<Field>>, uuids: nat -> string, next: nat): string
  {
    if params.Some? then ParamSections(params.value, uuids, next) else ""
  }

  /** The body the code builds for an upload: the parameter sections, then
      the file section delimited by `boundary ?? ""`. */
  function AsWrittenBody(params: Option<seq<Field>>, file: UploadData, boundary: Option<string>,
                         now: int, uuids: nat -> string, next: nat): seq<byte>
  {
    var b := if boundary.Some? then boundary.value else "";
    var m := MimeType(file);
    Encode(OptionalParamSections(params, uuids, next)) + Encode(DashLine(b))
      + Encode(FileHeaders(FileName(now, m), m)) + file.file + Encode(CloseDelimiter(b))
  }

  predicate StartsWith(s: seq<byte>, prefix: seq<byte>)
  {
    |prefix| <= |s| && s[..|prefix|] == prefix
  }

  predicate EndsWith(s: seq<byte>, suffix: seq<byte>)
  {
    |suffix| <= |s| && s[|s| - |suffix|..] == suffix
  }

  predicate OccursAt(s: seq<byte>, part: seq<byte>, i: nat)
  {
    i + |part| <= |s| && s[i..i + |part|] == part
  }

  /** The sections of a prefix grow by one section per parameter, the one
      the loop writes in that round. */
  lemma {:induction false} ParamSectionsSnoc(ps: seq<Field>, i: nat, uuids: nat -> string, next: nat)
    requires i < |ps|
    ensures ParamSections(ps[..i + 1], uuids, next)
         == ParamSections(ps[..i], uuids, next)
            + ParamSection(ps[i].0, ps[i].1, BoundaryToken(uuids(next + 2 * i)), BoundaryToken(uuids(next + 2 * i + 1)))
  {
    var last := ParamSection(ps[i].0, ps[i].1, BoundaryToken(uuids(next + 2 * i)), BoundaryToken(uuids(next + 2 * i + 1)));
    if i == 0 {
      assert ps[..1][1..] == [];
      assert ParamSections(ps[..1], uuids, next) == last + "";
      assert ParamSections(ps[..0], uuids, next) == "";
      EmptyLeft(last);
    } else {
      var head := ParamSection(ps[0].0, ps[0].1, BoundaryToken(uuids(next)), BoundaryToken(uuids(next + 1)));
      ParamSectionsSnoc(ps[1..], i - 1, uuids, next + 2);
      assert ps[..i + 1][1..] == ps[1..][..i];
      assert ps[..i][1..] == ps[1..][..i - 1];
      assert ps[1..][i - 1] == ps[i];
      var middle := ParamSections(ps[1..][..i - 1], uuids, next + 2);
      var tail := ParamSections(ps[1..][..i], uuids, next + 2);
      assert ps[..i + 1][0] == ps[0] && ps[..i][0] == ps[0];
      assert ParamSections(ps[..i + 1], uuids, next) == head + ParamSections(ps[..i + 1][1..], uuids, next + 2);
      assert ParamSections(ps[..i + 1], uuids, next) == head + tail;
      assert next + 2 + 2 * (i - 1) == next + 2 * i;
      assert tail == middle + last;
      assert ParamSections(ps[..i], uuids, next) == head + middle;
      Associate(head, middle, last);
    }
  }

  /** The encoding of a section is the four strings the loop appends. */
  lemma EncodeParamSection(key: string, value: string, open: string, close: string)
    ensures Encode(ParamSection(key, value, open, close))
         == Encode(DashLine(open)) + Encode(Disposition(key)) + Encode(ValueLine(value)) + Encode(CloseLine(close))
  {
    var a, b, c, d := DashLine(open), Disposition(key), ValueLine(value), CloseLine(close);
    EncodeConcat(a + b + c, d);
    EncodeConcat(a + b, c);
    EncodeConcat(a, b);
  }

  /** The file section follows the parameter sections and begins with the
      dash line of `boundary ?? ""`. */
  lemma FileSectionOpens(params: Option<seq<Field>>, file: UploadData, boundary: Option<string>,
                         now: int, uuids: nat -> string, next: nat)
    ensures var body := AsWrittenBody(params, file, boundary, now, uuids, next);
            var b := if boundary.Some? then boundary.value else "";
            var start := |Encode(OptionalParamSections(params, uuids, next))|;
            var open, close := Encode(DashLine(b)), Encode(CloseDelimiter(b));
            && OccursAt(body, open, start)
            && start + |open| + |file.file| + |close| <= |body|
  {
    var b := if boundary.Some? then boundary.value else "";
    var m := MimeType(file);
    var sections, open := Encode(OptionalParamSections(params, uuids, next)), Encode(DashLine(b));
    var headers, close := Encode(FileHeaders(FileName(now, m), m)), Encode(CloseDelimiter(b));
    assert AsWrittenBody(params, file, boundary, now, uuids, next) == sections + open + headers + file.file + close;
    LeadingPiecesOccur(sections, open, headers, file.file, close);
  }

  /** The body ends with the close-delimiter of `boundary ?? ""`. */
  lemma FileSectionCloses(params: Option<seq<Field>>, file: UploadData, boundary: Option<string>,
                          now: int, uuids: nat -> string, next: nat)
    ensures var body := AsWrittenBody(params, file, boundary, now, uuids, next);
            EndsWith(body, Encode(CloseDelimiter(if boundary.Some? then boundary.value else "")))
  {
    var b := if boundary.Some? then boundary.value else "";
    var m := MimeType(file);
    var sections, open := Encode(OptionalParamSections(params, uuids, next)), Encode(DashLine(b));
    var headers, close := Encode(FileHeaders(FileName(now, m), m)), Encode(CloseDelimiter(b));
    assert AsWrittenBody(params, file, boundary, now, uuids, next) == (sections + open + headers + file.file) + close;
    EndsWithLast(sections + open + headers + file.file, close);
  }

  /** The file bytes stand verbatim just before the close-delimiter. */
  lemma FileBytesVerbatim(params: Option<seq<Field>>, file: UploadData, boundary: Option<string>,
                          now: int, uuids: nat -> string, next: nat)
    ensures var body := AsWrittenBody(params, file, boundary, now, uuids, next);
            var close := Encode(CloseDelimiter(if boundary.Some? then boundary.value else ""));
            OccursAt(body, file.file, |body| - |close| - |file.file|)
  {
    var b := if boundary.Some? then boundary.value else "";
    var m := MimeType(file);
    var sections, open := Encode(OptionalParamSections(params, uuids, next)), Encode(DashLine(b));
    var headers, close := Encode(FileHeaders(FileName(now, m), m)), Encode(CloseDelimiter(b));
    assert AsWrittenBody(params, file, boundary, now, uuids, next) == (sections + open + headers) + file.file + close;
    NextToLastPieceOccurs(sections + open + headers, file.file, close);
  }

  lemma EndsWithLast(a: seq<byte>, e: seq<byte>)
    ensures EndsWith(a + e, e)
  {
    assert (a + e)[|a|..] == e;
  }

  lemma NextToLastPieceOccurs(a: seq<byte>, d: seq<byte>, e: seq<byte>)
    ensures OccursAt(a + d + e, d, |a + d + e| - |e| - |d|)
  {
    assert (a + d + e)[|a|..|a| + |d|] == d;
  }

  lemma LeadingPiecesOccur(a: seq<byte>, b: seq<byte>, c: seq<byte>, d: seq<byte>, e: seq<byte>)
    ensures OccursAt(a + b + c + d + e, b, |a|)
  {
    var s := a + b + c + d + e;
    assert s[|a|..|a| + |b|] == b;
  }

  /** The file name starts with the decimal timestamp, which reads back as
      `now`, and goes on with the MIME type. */
  lemma FileNameCarriesTimestamp(now: int, mimetype: string)
    ensures var name, k := FileName(now, mimetype), |ToDecimal(now)|;
            k <= |name| && FromDecimal(name[..k]) == Some(now) && name[k..] == mimetype
  {
    var name, k := FileName(now, mimetype), |ToDecimal(now)|;
    assert name[..k] == ToDecimal(now);
    FromToDecimal(now);
  }

  lemma DashLineOfUuidIsAscii(uuid: string)
    requires IsUuidString(uuid)
    ensures IsAscii(DashLine(BoundaryToken(uuid)))
    ensures |DashLine(BoundaryToken(uuid))| == 49
    ensures DashLine(BoundaryToken(uuid))[11..47] == uuid
  {
    var line := DashLine(BoundaryToken(uuid));
    assert line == "--Boundary-" + uuid + "\r\n";
    forall i | 0 <= i < |line| ensures line[i] as int < 0x80 {
      if 11 <= i < 47 {
        assert line[i] == uuid[i - 11];
      }
    }
  }

  /** The defect of the parameter delimiters: given two different UUIDs, the
      body of an upload with parameters opens with a dash line of the second
      minted token, not of the token the `Content-Type` header announces. */
  lemma AsWrittenOpensWithFreshToken(ps: seq<Field>, file: UploadData, now: int, uuids: nat -> string, m: nat)
    requires |ps| > 0
    requires IsUuidString(uuids(m)) && IsUuidString(uuids(m + 1)) && uuids(m) != uuids(m + 1)
    ensures var body := AsWrittenBody(Some(ps), file, Some(BoundaryToken(uuids(m))), now, uuids, m + 1);
            && StartsWith(body, Encode(DashLine(BoundaryToken(uuids(m + 1)))))
            && !StartsWith(body, Encode(DashLine(BoundaryToken(uuids(m)))))
  {
    var b := BoundaryToken(uuids(m));
    var header, first := DashLine(b), DashLine(BoundaryToken(uuids(m + 1)));
    var body := AsWrittenBody(Some(ps), file, Some(b), now, uuids, m + 1);
    var mime := MimeType(file);
    var rest := Disposition(ps[0].0) + ValueLine(ps[0].1) + CloseLine(BoundaryToken(uuids(m + 2)))
      + ParamSections(ps[1..], uuids, m + 3);
    Regroup(first, Disposition(ps[0].0), ValueLine(ps[0].1), CloseLine(BoundaryToken(uuids(m + 2))),
            ParamSections(ps[1..], uuids, m + 3));
    assert ParamSections(ps, uuids, m + 1) == first + rest;
    EncodeConcat(first, rest);
    var s0 := Encode(first) + Encode(rest);
    var s1 := s0 + Encode(DashLine(b));
    var s2 := s1 + Encode(FileHeaders(FileName(now, mime), mime));
    var s3 := s2 + file.file;
    assert body == s3 + Encode(CloseDelimiter(b));
    StartsWithAppend(Encode(first), Encode(first), Encode(rest));
    StartsWithAppend(s0, Encode(first), Encode(DashLine(b)));
    StartsWithAppend(s1, Encode(first), Encode(FileHeaders(FileName(now, mime), mime)));
    StartsWithAppend(s2, Encode(first), file.file);
    StartsWithAppend(s3, Encode(first), Encode(CloseDelimiter(b)));
    DashLineOfUuidIsAscii(uuids(m));
    DashLineOfUuidIsAscii(uuids(m + 1));
    EncodeAscii(header);
    EncodeAscii(first);
    DecodeEncode(header);
    DecodeEncode(first);
    DistinctPrefixes(body, Encode(first), Encode(header));
  }

  /** A sequence does not start with two different prefixes of one length. */
  lemma DistinctPrefixes(s: seq<byte>, p: seq<byte>, q: seq<byte>)
    requires StartsWith(s, p) && |p| == |q| && p != q
    ensures !StartsWith(s, q)
  {
  }

  lemma StartsWithAppend(s: seq<byte>, prefix: seq<byte>, more: seq<byte>)
    requires prefix == s || StartsWith(s, prefix)
    ensures StartsWith(s + more, prefix)
  {
    assert (s + more)[..|s|] == s;
  }

  lemma OccursAppend(s: seq<byte>, part: seq<byte>, i: nat, more: seq<byte>)
    requires OccursAt(s, part, i)
    ensures OccursAt(s + more, part, i)
  {
    assert (s + more)[i..i + |part|] == s[i..i + |part|];
  }

  lemma OccursMiddle(a: seq<byte>, b: seq<byte>, c: seq<byte>)
    ensures OccursAt(a + b + c, b, |a|)
  {
    assert (a + b + c)[|a|..|a| + |b|] == b;
  }

  /** The defect of the parameter terminators: every parameter section, the
      first one included, ends with a close-delimiter, so one stands before
      the file section even when every minted token is the same. */
  lemma AsWrittenClosesBeforeFile(ps: seq<Field>, file: UploadData, boundary: Option<string>,
                                  now: int, uuids: nat -> string, next: nat)
    requires |ps| > 0
    ensures var body := AsWrittenBody(Some(ps), file, boundary, now, uuids, next);
            var close := Encode(CloseDelimiter(BoundaryToken(uuids(next + 1))));
            exists i: nat :: OccursAt(body, close, i) && i + |close| <= |Encode(ParamSections(ps, uuids, next))|
  {
    var body := AsWrittenBody(Some(ps), file, boundary, now, uuids, next);
    var closeLine := CloseLine(BoundaryToken(uuids(next + 1)));
    var c := CloseDelimiter(BoundaryToken(uuids(next + 1)));
    var opening := DashLine(BoundaryToken(uuids(next))) + Disposition(ps[0].0);
    var lead := opening + ps[0].1;
    var tail := ParamSections(ps[1..], uuids, next + 2);
    MoveMiddle(opening, ps[0].1, "\r\n", closeLine);
    assert ParamSections(ps, uuids, next) == lead + c + tail;
    EncodeConcat(lead + c, tail);
    EncodeConcat(lead, c);
    var b := if boundary.Some? then boundary.value else "";
    var mime := MimeType(file);
    var i := |Encode(lead)|;
    var s0 := Encode(lead) + Encode(c) + Encode(tail);
    var s1 := s0 + Encode(DashLine(b));
    var s2 := s1 + Encode(FileHeaders(FileName(now, mime), mime));
    var s3 := s2 + file.file;
    assert body == s3 + Encode(CloseDelimiter(b));
    OccursMiddle(Encode(lead), Encode(c), Encode(tail));
    OccursAppend(s0, Encode(c), i, Encode(DashLine(b)));
    OccursAppend(s1, Encode(c), i, Encode(FileHeaders(FileName(now, mime), mime)));
    OccursAppend(s2, Encode(c), i, file.file);
    OccursAppend(s3, Encode(c), i, Encode(CloseDelimiter(b)));
  }

  // ---------------------------------------------------------------------
  // The evidently intended body: every delimiter uses the announced
  // boundary, and only the last one is a close-delimiter.

  function FixedParamSections(ps: seq<Field>, boundary: string): string
    decreases |ps|
  {
    if ps == [] then "" else
      DashLine(boundary) + (Disposition(ps[0].0) + ps[0].1) + "\r\n"
      + FixedParamSections(ps[1..], boundary)
  }

  function FixedBody(params: Option<seq<Field>>, file: UploadData, boundary: string, now: int): seq<byte>
  {
    var m := MimeType(file);
    Encode(if params.Some? then FixedParamSections(params.value, boundary) else "") + Encode(DashLine(boundary))
      + Encode(FileHeaders(FileName(now, m), m)) + file.file + Encode(CloseDelimiter(boundary))
  }

  /** A parameter's body part: its header lines and its value. */
  function ParamPart(key: string, value: string): seq<byte>
  {
    Encode(Disposition(key) + value)
  }

  function ParamParts(ps: seq<Field>): seq<seq<byte>>
    decreases |ps|
  {
    if ps == [] then [] else [ParamPart(ps[0].0, ps[0].1)] + ParamParts(ps[1..])
  }

  /** The file's body part: its header lines and its bytes. */
  function FilePart(file: UploadData, now: int): seq<byte>
  {
    var m := MimeType(file);
    Encode(FileHeaders(FileName(now, m), m)) + file.file
  }

  /** `*encapsulation` of RFC 2046: a delimiter (CRLF dash-boundary), CRLF
      and a body part, for each part. */
  function Encapsulations(boundary: string, parts: seq<seq<byte>>): seq<byte>
    decreases |parts|
  {
    if parts == [] then [] else Encode("\r\n" + DashLine(boundary)) + parts[0] + Encapsulations(boundary, parts[1..])
  }

  function Chain(boundary: string, parts: seq<seq<byte>>): seq<byte>
    requires |parts| > 0
  {
    parts[0] + Encapsulations(boundary, parts[1..])
  }

  /** `multipart-body` of section 5.1.1 of RFC 2046, with no preamble and
      the CRLF before an empty epilogue: dash-boundary CRLF, the first part,
      the encapsulations of the others, then close-delimiter CRLF. */
  function Frame(boundary: string, parts: seq<seq<byte>>): seq<byte>
    requires |parts| > 0
  {
    Encode(DashLine(boundary)) + Chain(boundary, parts) + Encode(CloseDelimiter(boundary))
  }

  lemma {:induction false} FixedSectionsChain(ps: seq<Field>, boundary: string, last: seq<byte>)
    ensures Encode(FixedParamSections(ps, boundary)) + Encode(DashLine(boundary)) + last
         == Encode(DashLine(boundary)) + Chain(boundary, ParamParts(ps) + [last])
    decreases |ps|
  {
    var d := DashLine(boundary);
    if ps == [] {
      assert ParamParts(ps) + [last] == [last];
    } else {
      var text := Disposition(ps[0].0) + ps[0].1;
      var p0 := ParamPart(ps[0].0, ps[0].1);
      var rest := FixedParamSections(ps[1..], boundary);
      assert FixedParamSections(ps, boundary) == d + text + "\r\n" + rest;
      EncodeConcat(d + text + "\r\n", rest);
      EncodeConcat(d + text, "\r\n");
      EncodeConcat(d, text);
      EncodeConcat("\r\n", d);
      FixedSectionsChain(ps[1..], boundary, last);
      var xs := ParamParts(ps[1..]) + [last];
      assert (ParamParts(ps) + [last]) == [p0] + xs;
      assert ([p0] + xs)[1..] == xs;
      assert Chain(boundary, [p0] + xs) == p0 + Encapsulations(boundary, xs);
      assert Encapsulations(boundary, xs) == Encode("\r\n" + d) + xs[0] + Encapsulations(boundary, xs[1..]);
      ChainStep(Encode(d), p0, Encode("\r\n"), Encode(rest), last, xs[0], Encapsulations(boundary, xs[1..]));
    }
  }

  lemma ChainStep(d: seq<byte>, p: seq<byte>, crlf: seq<byte>, rest: seq<byte>, last: seq<byte>,
                  x: seq<byte>, more: seq<byte>)
    requires rest + d + last == d + (x + more)
    ensures (d + p + crlf + rest) + d + last == d + (p + ((crlf + d) + x + more))
  {
    calc {
      (d + p + crlf + rest) + d + last;
      d + p + crlf + (rest + d + last);
      d + p + crlf + (d + (x + more));
      d + (p + ((crlf + d) + x + more));
    }
  }

  /** The corrected body is an RFC 2046 multipart body over the announced
      boundary: one part per parameter, in order, then the file part. */
  lemma FixedBodyIsFramed(params: Option<seq<Field>>, file: UploadData, boundary: string, now: int)
    ensures FixedBody(params, file, boundary, now)
         == Frame(boundary, (if params.Some? then ParamParts(params.value) else []) + [FilePart(file, now)])
  {
    var ps := if params.Some? then params.value else [];
    var m := MimeType(file);
    var headers := Encode(FileHeaders(FileName(now, m), m));
    var sections := Encode(FixedParamSections(ps, boundary)) + Encode(DashLine(boundary));
    assert (if params.Some? then FixedParamSections(params.value, boundary) else "") == FixedParamSections(ps, boundary);
    assert (if params.Some? then ParamParts(params.value) else []) == ParamParts(ps);
    assert FixedBody(params, file, boundary, now) == sections + headers + file.file + Encode(CloseDelimiter(boundary));
    FixedSectionsChain(ps, boundary, FilePart(file, now));
    Associate(sections, headers, file.file);
  }

  /** Without parameters the code already writes the corrected body: the
      defect is confined to the parameter sections. */
  lemma AsWrittenAgreesWithoutParameters(params: Option<seq<Field>>, file: UploadData, boundary: string,
                                         now: int, uuids: nat -> string, next: nat)
    requires params.None? || params == Some([])
    ensures AsWrittenBody(params, file, Some(boundary), now, uuids, next) == FixedBody(params, file, boundary, now)
  {
  }
}
